// Decoding EF10 receive events (ef10.c): rebuilding how far the hardware has got in the
// descriptor ring from the few low pointer bits each event carries.

module RxDecode {
  import opened RingIndex

  /** Unsigned 32-bit addition and subtraction. */
  function Add32(a: nat, b: nat): (r: nat)
    requires a < WORD && b < WORD
    ensures r < WORD
  {
    if a + b >= WORD then a + b - WORD else a + b
  }

  function Sub32(a: nat, b: nat): (r: nat)
    requires a < WORD && b < WORD
    ensures r < WORD
  {
    if a >= b then a - b else a + WORD - b
  }

  lemma Add32Follows(p: nat, d: nat)
    requires d < WORD
    ensures Add32(Idx(WORD, p), d) == Idx(WORD, p + d)
  {
    IdxAdd(WORD, p, d);
    var x := Idx(WORD, p) + d;
    if x >= WORD { IdxLap(WORD, x - WORD); }
  }

  lemma PowerDividesWord(m: nat)
    requires PowerOfTwo(m) && m <= WORD
    ensures Idx(m, WORD) == 0
  {
    WordIsPowerOfTwo();
    WordIsWholeLaps(m, WORD, 0);
  }

  lemma SameResidue(m: nat, r: nat, x: nat, y: nat)
    requires m > 0 && x < m && y < m && Idx(m, r + x) == Idx(m, r + y)
    ensures x == y
  {
    if x < y { IdxDistinct(m, r + x, r + y); }
    if y < x { IdxDistinct(m, r + y, r + x); }
  }

  /** The 32-bit difference follows the true one, up to whole laps of `m`. */
  lemma DifferenceFollows(m: nat, base: nat, d: nat)
    requires PowerOfTwo(m) && m <= WORD
    ensures Idx(m, base + Sub32(Idx(m, base + d), Idx(WORD, base))) == Idx(m, base + d)
  {
    hide Idx;
    var removed, lbits := Idx(WORD, base), Idx(m, base + d);
    var x := Sub32(lbits, removed);
    PowerDividesWord(m);
    IdxOfIdx(WORD, m, base);
    IdxAdd(m, removed, x);
    IdxAdd(m, base, x);
    assert Idx(m, base + x) == Idx(m, removed + x);
    WholeLapsVanish(m, WORD, lbits);
    IdxAdd(m, base + d, 0);
  }

  /** The masked difference recovers how far the hardware is past `base`, up to whole laps. */
  lemma MaskedDifference(m: nat, base: nat, d: nat)
    requires PowerOfTwo(m) && m <= WORD
    ensures And(Sub32(Idx(m, base + d), Idx(WORD, base)), m - 1) == Idx(m, d)
  {
    hide Idx, And, Sub32;
    var x := Sub32(Idx(m, base + d), Idx(WORD, base));
    DifferenceFollows(m, base, d);
    MaskIsRemainder(x, m);
    IdxAdd(m, x, base);
    IdxAdd(m, d, base);
    SameResidue(m, base, Idx(m, x), Idx(m, d));
  }

  // ---- The driver ----

  /** Ring size, number of distinct low-bit values, and whether the firmware may merge. */
  datatype Config = Config(n: nat, m: nat, batching: bool)

  predicate Legal(cfg: Config) {
    PowerOfTwo(cfg.n) && PowerOfTwo(cfg.m) && cfg.n <= WORD && 1 < cfg.m < WORD
  }

  /** A receive event; `bad` stands for an Ethernet checksum error that is not forwarded. */
  datatype Event = Event(lbits: nat, bytes: nat, cont: bool, bad: bool)

  datatype Queue = Queue(removed: nat, scatterN: nat, scatterLen: nat)

  /** A packet passed on: first ring slot, number of buffers, length, whether to discard
      it, and whether its length has to be read from the packet's prefix. */
  datatype Delivery = Delivery(index: nat, frags: nat, len: nat, discard: bool, prefixLen: bool)

  /** What the packets of one event have in common. */
  datatype Shape = Shape(frags: nat, len: nat, discard: bool, prefixLen: bool)

  function Deliver(cfg: Config, removed: nat, sh: Shape, count: nat): (out: seq<Delivery>)
    requires removed < WORD && sh.frags < WORD && cfg.n > 0
    ensures |out| == count
    decreases count
  {
    if count == 0 then []
    else [Delivery(And(removed, cfg.n - 1), sh.frags, sh.len, sh.discard, sh.prefixLen)]
         + Deliver(cfg, Add32(removed, sh.frags), sh, count - 1)
  }

  function Advance(removed: nat, frags: nat, count: nat): (r: nat)
    requires removed < WORD && frags < WORD
    ensures r < WORD
    decreases count
  {
    if count == 0 then removed else Advance(Add32(removed, frags), frags, count - 1)
  }

  /** What one event does: new state, packets passed on, how many of them were received,
      and whether the event was rejected because others must be missing. */
  datatype Outcome = Outcome(q: Queue, out: seq<Delivery>, packets: nat, missing: bool)

  function NDescs(cfg: Config, q: Queue, ev: Event): nat
    requires ev.lbits < WORD && q.removed < WORD && cfg.m > 0
  {
    And(Sub32(ev.lbits, q.removed), cfg.m - 1)
  }

  function Abort(cfg: Config, q: Queue): Outcome
    requires q.removed < WORD && q.scatterN < WORD && cfg.n > 0
  {
    Outcome(Queue(Add32(q.removed, q.scatterN), 0, 0),
            if q.scatterN > 0 then [Delivery(And(q.removed, cfg.n - 1), q.scatterN, 0, true, false)] else [],
            0, false)
  }

  function DeliverAll(cfg: Config, q: Queue, sh: Shape, count: nat): Outcome
    requires q.removed < WORD && sh.frags < WORD && cfg.n > 0
  {
    Outcome(Queue(Advance(q.removed, sh.frags, count), 0, 0), Deliver(cfg, q.removed, sh, count), count, false)
  }

  ghost predicate InWords(cfg: Config, q: Queue, ev: Event) {
    cfg.n > 0 && cfg.m > 0 && ev.lbits < WORD && q.removed < WORD && q.scatterN + 1 < WORD
  }

  function Decode(cfg: Config, q: Queue, ev: Event): Outcome
    requires InWords(cfg, q, ev)
  {
    var nDescs := NDescs(cfg, q, ev);
    if nDescs != q.scatterN + 1 then
      if nDescs == q.scatterN then Abort(cfg, q)
      else if !cfg.batching || q.scatterN != 0 || ev.cont then Outcome(q, [], 0, true)
      else DeliverAll(cfg, q, Shape(1, 0, ev.bad, true), nDescs)
    else
      var frags, len := q.scatterN + 1, q.scatterLen + ev.bytes;
      if ev.cont then Outcome(Queue(q.removed, frags, len), [], 0, false)
      else DeliverAll(cfg, q, Shape(frags, len, ev.bad, false), 1)
  }

  // ---- The hardware ----

  /** One event's worth of progress. */
  datatype Completion =
    | Fragment(bytes: nat, cont: bool, bad: bool)  // one descriptor
    | Merged(count: nat, bad: bool)                // several packets of one descriptor each
    | Aborted                                      // the packet in progress is given up

  /** `position` counts completed descriptors for ever; `partial` of them, holding `len`
      bytes, belong to a packet not yet finished. */
  datatype Hardware = Hardware(position: nat, partial: nat, len: nat)

  /** What the hardware may do without the low pointer bits becoming ambiguous: a packet
      and a merged event take fewer than `m` descriptors. */
  predicate May(cfg: Config, hw: Hardware, c: Completion) {
    match c
    case Fragment(_, _, _) => hw.partial + 1 < cfg.m
    case Merged(count, _) => cfg.batching && hw.partial == 0 && 1 < count < cfg.m
    case Aborted => 0 < hw.partial < cfg.m
  }

  function Step(hw: Hardware, c: Completion): Hardware {
    match c
    case Fragment(bytes, cont, _) =>
      if cont then Hardware(hw.position + 1, hw.partial + 1, hw.len + bytes) else Hardware(hw.position + 1, 0, 0)
    case Merged(count, _) => Hardware(hw.position + count, 0, 0)
    case Aborted => hw.(partial := 0, len := 0)
  }

  /** The event that reports a completion: only the low bits of the new position. */
  function Encode(cfg: Config, hw: Hardware, c: Completion): Event
    requires cfg.m > 0
  {
    match c
    case Fragment(bytes, cont, bad) => Event(Idx(cfg.m, hw.position + 1), bytes, cont, bad)
    case Merged(count, bad) => Event(Idx(cfg.m, hw.position + count), 0, false, bad)
    case Aborted => Event(Idx(cfg.m, hw.position), 0, false, false)
  }

  /** A stretch of descriptors that one packet occupied, by position. */
  datatype Packet = Packet(start: nat, sh: Shape)

  function Singles(start: nat, sh: Shape, count: nat): seq<Packet> {
    seq(count, i requires 0 <= i < count => Packet(start + i, sh))
  }

  function Packets(hw: Hardware, c: Completion): seq<Packet>
    requires hw.partial <= hw.position
  {
    match c
    case Fragment(bytes, cont, bad) =>
      if cont then []
      else [Packet(hw.position - hw.partial, Shape(hw.partial + 1, hw.len + bytes, bad, false))]
    case Merged(count, bad) => Singles(hw.position, Shape(1, 0, bad, true), count)
    case Aborted => [Packet(hw.position - hw.partial, Shape(hw.partial, 0, true, false))]
  }

  /** A packet as the driver names it. */
  function AsDelivered(cfg: Config, p: Packet): Delivery
    requires cfg.n > 0
  {
    Delivery(Idx(cfg.n, p.start), p.sh.frags, p.sh.len, p.sh.discard, p.sh.prefixLen)
  }

  function AllDelivered(cfg: Config, ps: seq<Packet>): seq<Delivery>
    requires cfg.n > 0
  {
    seq(|ps|, i requires 0 <= i < |ps| => AsDelivered(cfg, ps[i]))
  }

  /** The driver is in step with the hardware. */
  ghost predicate InStep(cfg: Config, q: Queue, hw: Hardware) {
    && hw.partial <= hw.position && hw.partial < cfg.m
    && q == Queue(Idx(WORD, hw.position - hw.partial), hw.partial, hw.len)
  }

  lemma SlotOfCounter(cfg: Config, p: nat)
    requires Legal(cfg)
    ensures And(Idx(WORD, p), cfg.n - 1) == Idx(cfg.n, p)
  {
    MaskIsRemainder(Idx(WORD, p), cfg.n);
    PowerDividesWord(cfg.n);
    IdxOfIdx(WORD, cfg.n, p);
  }

  lemma {:induction false} DeliverSingles(cfg: Config, start: nat, sh: Shape, count: nat)
    requires Legal(cfg) && sh.frags == 1
    ensures Deliver(cfg, Idx(WORD, start), sh, count) == AllDelivered(cfg, Singles(start, sh, count))
    ensures Advance(Idx(WORD, start), 1, count) == Idx(WORD, start + count)
    decreases count
  {
    hide Idx, And;
    if count > 0 {
      SlotOfCounter(cfg, start);
      Add32Follows(start, 1);
      DeliverSingles(cfg, start + 1, sh, count - 1);
      var all := AllDelivered(cfg, Singles(start, sh, count));
      var rest := AllDelivered(cfg, Singles(start + 1, sh, count - 1));
      assert forall i | 0 <= i < count - 1 :: rest[i] == all[1..][i];
      assert all == [all[0]] + rest;
    }
  }

  lemma DeliverOne(cfg: Config, start: nat, sh: Shape)
    requires Legal(cfg) && sh.frags < WORD
    ensures Deliver(cfg, Idx(WORD, start), sh, 1) == AllDelivered(cfg, [Packet(start, sh)])
    ensures Advance(Idx(WORD, start), sh.frags, 1) == Idx(WORD, start + sh.frags)
  {
    hide Idx, And;
    SlotOfCounter(cfg, start);
    Add32Follows(start, sh.frags);
    assert Deliver(cfg, Add32(Idx(WORD, start), sh.frags), sh, 0) == [];
  }

  /** The number of descriptors an event seems to report, for any progress `d`. */
  lemma DescriptorsSeen(cfg: Config, q: Queue, hw: Hardware, d: nat, ev: Event)
    requires Legal(cfg) && InStep(cfg, q, hw) && ev.lbits == Idx(cfg.m, hw.position + d)
    ensures InWords(cfg, q, ev) && NDescs(cfg, q, ev) == Idx(cfg.m, hw.partial + d)
  {
    hide And;
    MaskedDifference(cfg.m, hw.position - hw.partial, hw.partial + d);
  }

  /** The decoder undoes the encoder: it passes on exactly the packets the hardware
      finished or gave up, counts the received ones, and stays in step. */
  lemma DecodeInvertsEncode(cfg: Config, q: Queue, hw: Hardware, c: Completion)
    requires Legal(cfg) && InStep(cfg, q, hw) && May(cfg, hw, c)
    ensures InWords(cfg, q, Encode(cfg, hw, c))
    ensures var o := Decode(cfg, q, Encode(cfg, hw, c));
            && !o.missing && InStep(cfg, o.q, Step(hw, c)) && o.out == AllDelivered(cfg, Packets(hw, c))
            && o.packets == if c.Aborted? then 0 else |Packets(hw, c)|
  {
    hide And, NDescs, Deliver, Advance, AllDelivered;
    var base, ev := hw.position - hw.partial, Encode(cfg, hw, c);
    match c
    case Fragment(bytes, cont, bad) =>
      DescriptorsSeen(cfg, q, hw, 1, ev);
      DeliverOne(cfg, base, Shape(hw.partial + 1, hw.len + bytes, bad, false));
      NoneDelivered(cfg);
    case Merged(count, bad) =>
      DescriptorsSeen(cfg, q, hw, count, ev);
      DeliverSingles(cfg, base, Shape(1, 0, bad, true), count);
    case Aborted =>
      DescriptorsSeen(cfg, q, hw, 0, ev);
      AbortDelivers(cfg, base, hw.partial);
  }

  lemma NoneDelivered(cfg: Config)
    requires cfg.n > 0
    ensures AllDelivered(cfg, []) == []
  {}

  lemma AbortDelivers(cfg: Config, base: nat, partial: nat)
    requires Legal(cfg) && 0 < partial < WORD
    ensures [Delivery(And(Idx(WORD, base), cfg.n - 1), partial, 0, true, false)]
            == AllDelivered(cfg, [Packet(base, Shape(partial, 0, true, false))])
    ensures Add32(Idx(WORD, base), partial) == Idx(WORD, base + partial)
  {
    hide Idx, And;
    SlotOfCounter(cfg, base);
    Add32Follows(base, partial);
  }

  /** In slots and bytes: the last fragment delivers all of its packet's buffers from the first
      on, with the length of all fragments; a merged event delivers one buffer after the other,
      whose lengths are in the packets; an abort discards what there is; and the queue goes on
      behind that. */
  lemma EventDelivers(cfg: Config, q: Queue, hw: Hardware, c: Completion)
    requires Legal(cfg) && InStep(cfg, q, hw) && May(cfg, hw, c)
    ensures InWords(cfg, q, Encode(cfg, hw, c)) && hw.partial <= hw.position
    ensures var o, first := Decode(cfg, q, Encode(cfg, hw, c)), hw.position - hw.partial;
            match c
            case Fragment(bytes, true, _) =>
              o.out == [] && o.q == Queue(Idx(WORD, first), hw.partial + 1, hw.len + bytes)
            case Fragment(bytes, false, bad) =>
              && o.out == [Delivery(Idx(cfg.n, first), hw.partial + 1, hw.len + bytes, bad, false)]
              && o.q == Queue(Idx(WORD, hw.position + 1), 0, 0) && o.packets == 1
            case Merged(count, bad) =>
              && |o.out| == o.packets == count && o.q == Queue(Idx(WORD, hw.position + count), 0, 0)
              && forall i | 0 <= i < count :: o.out[i] == Delivery(Idx(cfg.n, hw.position + i), 1, 0, bad, true)
            case Aborted =>
              && o.out == [Delivery(Idx(cfg.n, first), hw.partial, 0, true, false)]
              && o.q == Queue(Idx(WORD, hw.position), 0, 0) && o.packets == 0
  {
    DecodeInvertsEncode(cfg, q, hw, c);
    hide Decode, Idx;
  }

  // ---- Whole runs ----

  ghost predicate MayRun(cfg: Config, hw: Hardware, cs: seq<Completion>)
    decreases |cs|
  {
    cs == [] || (May(cfg, hw, cs[0]) && MayRun(cfg, Step(hw, cs[0]), cs[1..]))
  }

  function Run(hw: Hardware, cs: seq<Completion>): Hardware
    decreases |cs|
  {
    if cs == [] then hw else Run(Step(hw, cs[0]), cs[1..])
  }

  function Sent(cfg: Config, hw: Hardware, cs: seq<Completion>): seq<Event>
    requires cfg.m > 0
    decreases |cs|
  {
    if cs == [] then [] else [Encode(cfg, hw, cs[0])] + Sent(cfg, Step(hw, cs[0]), cs[1..])
  }

  function RunPackets(hw: Hardware, cs: seq<Completion>): seq<Packet>
    requires hw.partial <= hw.position
    decreases |cs|
  {
    if cs == [] then [] else Packets(hw, cs[0]) + RunPackets(Step(hw, cs[0]), cs[1..])
  }

  /** The driver took in `evs` one after another, went from `q` to `q'`, rejected none
      and passed on `out`. */
  ghost predicate Decoded(cfg: Config, q: Queue, evs: seq<Event>, q': Queue, out: seq<Delivery>)
    decreases |evs|
  {
    if evs == [] then q == q' && out == []
    else
      && InWords(cfg, q, evs[0])
      && var o := Decode(cfg, q, evs[0]);
      !o.missing && o.out <= out && Decoded(cfg, o.q, evs[1..], q', out[|o.out|..])
  }

  /** Over any run the driver rebuilds the hardware's pointer and passes on exactly the
      packets the hardware finished or gave up, in order. */
  lemma {:induction false} RunIsDecoded(cfg: Config, q: Queue, hw: Hardware, cs: seq<Completion>) returns (q': Queue)
    requires Legal(cfg) && InStep(cfg, q, hw) && MayRun(cfg, hw, cs)
    ensures Decoded(cfg, q, Sent(cfg, hw, cs), q', AllDelivered(cfg, RunPackets(hw, cs)))
    ensures InStep(cfg, q', Run(hw, cs))
    decreases |cs|
  {
    hide InWords, Encode, Step, May, Packets, Decode;
    if cs == [] {
      q' := q;
    } else {
      DecodeInvertsEncode(cfg, q, hw, cs[0]);
      var o := Decode(cfg, q, Encode(cfg, hw, cs[0]));
      q' := RunIsDecoded(cfg, o.q, Step(hw, cs[0]), cs[1..]);
      var ps, rest := Packets(hw, cs[0]), RunPackets(Step(hw, cs[0]), cs[1..]);
      var out := AllDelivered(cfg, ps + rest);
      assert out == AllDelivered(cfg, ps) + AllDelivered(cfg, rest);
      assert out[|o.out|..] == AllDelivered(cfg, rest);
      var evs := Sent(cfg, hw, cs);
      assert evs[1..] == Sent(cfg, Step(hw, cs[0]), cs[1..]);
    }
  }

  /** The packets lie end to end from position `from` to position `to`. */
  ghost predicate Tiles(ps: seq<Packet>, from: nat, to: nat)
    decreases |ps|
  {
    if ps == [] then from == to else ps[0].start == from && Tiles(ps[1..], from + ps[0].sh.frags, to)
  }

  lemma {:induction false} TilesJoin(a: seq<Packet>, b: seq<Packet>, from: nat, mid: nat, to: nat)
    requires Tiles(a, from, mid) && Tiles(b, mid, to)
    ensures Tiles(a + b, from, to)
    decreases |a|
  {
    if a == [] {
      assert a + b == b;
    } else {
      TilesJoin(a[1..], b, from + a[0].sh.frags, mid, to);
      assert (a + b)[1..] == a[1..] + b;
    }
  }

  lemma {:induction false} SinglesTile(start: nat, sh: Shape, count: nat)
    requires sh.frags == 1
    ensures Tiles(Singles(start, sh, count), start, start + count)
    decreases count
  {
    if count > 0 {
      SinglesTile(start + 1, sh, count - 1);
      assert Singles(start, sh, count)[1..] == Singles(start + 1, sh, count - 1);
    }
  }

  /** Delivered and discarded packets partition the descriptor stream: every completed
      descriptor outside the packet still in progress belongs to exactly one of them. */
  lemma {:induction false} RunTiles(cfg: Config, hw: Hardware, cs: seq<Completion>)
    requires hw.partial <= hw.position && MayRun(cfg, hw, cs)
    ensures var end := Run(hw, cs);
            end.partial <= end.position
            && Tiles(RunPackets(hw, cs), hw.position - hw.partial, end.position - end.partial)
    decreases |cs|
  {
    if cs != [] {
      var c, next, end := cs[0], Step(hw, cs[0]), Run(hw, cs);
      var mid := next.position - next.partial;
      RunTiles(cfg, next, cs[1..]);
      match c {
        case Merged(count, bad) => SinglesTile(hw.position, Shape(1, 0, bad, true), count);
        case Fragment(_, _, _) => assert Tiles(Packets(hw, c)[..0], mid, mid);
        case Aborted =>
      }
      assert Tiles(Packets(hw, c), hw.position - hw.partial, mid) by {
        if |Packets(hw, c)| == 1 { assert Tiles(Packets(hw, c)[1..], mid, mid); }
      }
      TilesJoin(Packets(hw, c), RunPackets(next, cs[1..]), hw.position - hw.partial, mid, end.position - end.partial);
    }
  }

  /** An event that follows lost ones is recognised, except when the total progress is a whole
      number of laps of the low bits, or one more than that (and one more only while the
      packet in progress leaves room for a descriptor), or when it can be a merged one: no
      packet is in progress, and it ends one. */
  lemma LossIsNoticed(cfg: Config, q: Queue, hw: Hardware, d: nat, ev: Event)
    requires Legal(cfg) && InStep(cfg, q, hw)
    requires ev.lbits == Idx(cfg.m, hw.position + d)
    ensures InWords(cfg, q, ev)
    ensures Decode(cfg, q, ev).missing <==>
            && Idx(cfg.m, d) > (if hw.partial + 1 < cfg.m then 1 else 0)
            && (!cfg.batching || hw.partial != 0 || ev.cont)
    ensures Decode(cfg, q, ev).missing ==> Decode(cfg, q, ev) == Outcome(q, [], 0, true)
  {
    hide And, NDescs, Deliver, Advance;
    DescriptorsSeen(cfg, q, hw, d, ev);
    IdxAdd(cfg.m, d, hw.partial);
    var r := Idx(cfg.m, d);
    if r + hw.partial >= cfg.m { IdxLap(cfg.m, r + hw.partial - cfg.m); }
  }

  /** And then, with merging, the descriptors of the lost events are passed on as that many
      received packets of one descriptor each; the driver is in step again, short of whole
      laps. */
  lemma LossTakenForMerged(cfg: Config, q: Queue, hw: Hardware, d: nat, ev: Event)
    requires Legal(cfg) && InStep(cfg, q, hw) && ev.lbits == Idx(cfg.m, hw.position + d)
    requires cfg.batching && hw.partial == 0 && !ev.cont && Idx(cfg.m, d) > 1
    ensures InWords(cfg, q, ev)
    ensures var o, seen := Decode(cfg, q, ev), Idx(cfg.m, d);
            && !o.missing && o.packets == seen
            && o.out == AllDelivered(cfg, Singles(hw.position, Shape(1, 0, ev.bad, true), seen))
            && InStep(cfg, o.q, Hardware(hw.position + seen, 0, 0))
  {
    hide And, NDescs, Deliver, Advance, AllDelivered, Singles;
    DescriptorsSeen(cfg, q, hw, d, ev);
    DeliverSingles(cfg, hw.position, Shape(1, 0, ev.bad, true), Idx(cfg.m, d));
  }

  // ---- The queue object ----

  /** The delivery loop that began at `was` has passed on these packets and has `left` to go. */
  ghost predicate Delivering(cfg: Config, sh: Shape, was: nat, count: nat, removed: nat, left: nat, passed: seq<Delivery>)
    requires was < WORD && sh.frags < WORD && cfg.n > 0
  {
    && removed < WORD && passed + Deliver(cfg, removed, sh, left) == Deliver(cfg, was, sh, count)
    && Advance(removed, sh.frags, left) == Advance(was, sh.frags, count)
  }

  lemma DeliverFirst(cfg: Config, sh: Shape, was: nat, count: nat, removed: nat, left: nat, passed: seq<Delivery>)
    requires was < WORD && sh.frags < WORD && cfg.n > 0 && left > 0
    requires Delivering(cfg, sh, was, count, removed, left, passed)
    ensures var d := Delivery(And(removed, cfg.n - 1), sh.frags, sh.len, sh.discard, sh.prefixLen);
            Delivering(cfg, sh, was, count, Add32(removed, sh.frags), left - 1, passed + [d])
  {
    hide And, Add32;
    var d := Delivery(And(removed, cfg.n - 1), sh.frags, sh.len, sh.discard, sh.prefixLen);
    assert Deliver(cfg, removed, sh, left) == [d] + Deliver(cfg, Add32(removed, sh.frags), sh, left - 1);
  }

  lemma DeliverEnds(cfg: Config, sh: Shape, was: nat, count: nat)
    requires was < WORD && sh.frags < WORD && cfg.n > 0
    ensures Delivering(cfg, sh, was, count, was, count, [])
    ensures forall removed, passed | Delivering(cfg, sh, was, count, removed, 0, passed) ::
              passed == Deliver(cfg, was, sh, count) && removed == Advance(was, sh.frags, count)
  {}

  class RxQueue {
    const cfg: Config
    var removedCount: nat
    var scatterN: nat
    var scatterLen: nat

    ghost function State(): Queue
      reads this
    {
      Queue(removedCount, scatterN, scatterLen)
    }

    constructor (cfg: Config)
      requires Legal(cfg)
      ensures this.cfg == cfg && InStep(cfg, State(), Hardware(0, 0, 0))
    {
      this.cfg := cfg;
      removedCount, scatterN, scatterLen := 0, 0, 0;
    }

    method HandleRxAbort() returns (passed: seq<Delivery>)
      requires removedCount < WORD && scatterN < WORD && cfg.n > 0
      modifies this
      ensures var o := Abort(cfg, old(State())); State() == o.q && passed == o.out
    {
      var rxDescPtr := And(removedCount, cfg.n - 1);
      passed := [];
      if scatterN > 0 {
        passed := [Delivery(rxDescPtr, scatterN, 0, true, false)];
      }
      removedCount := Add32(removedCount, scatterN);
      scatterN := 0;
      scatterLen := 0;
    }

    /** The delivery loop. */
    method PassOn(nPackets: nat, bad: bool, prefixLen: bool) returns (passed: seq<Delivery>)
      requires removedCount < WORD && scatterN < WORD && cfg.n > 0
      modifies this`removedCount
      ensures passed == Deliver(cfg, old(removedCount), Shape(scatterN, scatterLen, bad, prefixLen), nPackets)
      ensures removedCount == Advance(old(removedCount), scatterN, nPackets)
    {
      ghost var sh, was := Shape(scatterN, scatterLen, bad, prefixLen), removedCount;
      DeliverEnds(cfg, sh, was, nPackets);
      hide And, Add32, Deliver, Advance, Delivering;
      passed := [];
      var i := 0;
      while i < nPackets
        invariant i <= nPackets && removedCount < WORD
        invariant Delivering(cfg, sh, was, nPackets, removedCount, nPackets - i, passed)
      {
        DeliverFirst(cfg, sh, was, nPackets, removedCount, nPackets - i, passed);
        passed := passed + [Delivery(And(removedCount, cfg.n - 1), scatterN, scatterLen, bad, prefixLen)];
        removedCount := Add32(removedCount, scatterN);
        i := i + 1;
      }
    }

    /** The event handler does what `Decode` says. */
    method HandleRxEvent(ev: Event) returns (passed: seq<Delivery>, packets: nat, missing: bool)
      requires InWords(cfg, State(), ev)
      modifies this
      ensures Outcome(State(), passed, packets, missing) == Decode(cfg, old(State()), ev)
    {
      hide And, Add32, Sub32, PowerOfTwo, AllOnes;
      passed, packets, missing := [], 0, false;
      var nDescs := And(Sub32(ev.lbits, removedCount), cfg.m - 1);
      var prefixLen := false;
      var nPackets;
      if nDescs != scatterN + 1 {
        if nDescs == scatterN {
          passed := HandleRxAbort();
          return;
        }
        if !cfg.batching || scatterN != 0 || ev.cont {
          missing := true;
          return;
        }
        scatterN := 1;
        scatterLen := 0;
        nPackets := nDescs;
        prefixLen := true;
      } else {
        scatterN := scatterN + 1;
        scatterLen := scatterLen + ev.bytes;
        if ev.cont {
          return;
        }
        nPackets := 1;
      }
      passed := PassOn(nPackets, ev.bad, prefixLen);
      scatterN := 0;
      scatterLen := 0;
      packets := nPackets;
    }
  }
}
