// The AXI DMA transmit ring (xilinx_axienet_main.c, xilinx_axienet_dma.c): a producer, the
// completion interrupt that reaps, and the hardware, interleaved.

module AxiTx {
  import opened RingIndex

  /** A descriptor; `ready` when it has the address of some data to send, `skb` is 0 when no
      packet is attached. */
  datatype Bd = Bd(complete: bool, ready: bool, skb: nat)

  const CLEAR := Bd(false, false, 0)

  /** A packet that needs `k` descriptors (its fragments and its head). */
  datatype Request = Request(skb: nat, k: nat)

  datatype Producer =
    | Idle
    | Entering(r: Request)            // has looked up the tail descriptor, about to look for space
    | Stopping(r: Request)            // no space, about to stop the queue
    | Rechecking(r: Request)          // stopped, about to look again
    | Filling(r: Request, i: nat)     // i descriptors written
    | Ringing(r: Request)             // last descriptor carries the skb, doorbell not rung
    | Advancing                       // doorbell rung, tail index still on the last descriptor

  datatype Reaper =
    | Asleep
    | Reading             // about to look up the descriptor at `ci`
    | Looking(at: nat)    // has it, status not read
    | Freeing(at: nat)    // its status says complete, packet not freed
    | Clearing(at: nat)   // packet freed, descriptor not cleared
    | Counting            // cleared, `ci` not moved
    | Wrapping            // `ci` moved, not wrapped
    | Waking              // found a status that is not complete

  /** An accepted packet and the position of its last descriptor; its descriptors are the
      ones after the last of the packet before it. */
  datatype Packet = Packet(skb: nat, last: nat)

  /** `bd`, `ci`, `tail`, `stopped` are the driver's, `cur` is the transmit path's current
      descriptor; `irq` is an interrupt not yet taken. The rest is bookkeeping: positions
      (which never wrap) of the next descriptor to reap, to complete, to hand to the hardware
      and to fill; the packets accepted and the skbs freed since the last reset, and the
      ones before it. */
  datatype State = State(
    n: nat, bd: seq<Bd>, ci: nat, tail: nat, cur: nat, stopped: bool, producer: Producer, reaper: Reaper, irq: bool,
    reaped: nat, completed: nat, kicked: nat, filled: nat,
    accepted: seq<Packet>, freed: seq<nat>, oldAccepted: seq<nat>, oldFreed: seq<nat>)

  datatype Step =
    | Xmit(r: Request) | Produce            // the transmit path: entry, and its later steps
    | Interrupt | Reap                      // the completion handler: entry, and its later steps
    | Complete                              // the hardware finishes a descriptor
    | Reset                                 // the error handler's ring reset, where it does no harm

  function Init(n: nat): State {
    State(n, seq(n, _ => CLEAR), 0, 0, 0, false, Idle, Asleep, false, 0, 0, 0, 0, [], [], [], [])
  }

  ghost predicate Sized(s: State) {
    0 < s.n <= WORD && |s.bd| == s.n && s.tail < s.n && s.cur < s.n && (s.ci < s.n || s.reaper.Wrapping?)
  }

  function Wrap(n: nat, i: nat): nat { if i >= n then 0 else i }

  /** axienet_check_tx_bd_space: true when the packet does not fit. */
  predicate Busy(s: State, k: nat)
    requires 0 < k && s.n == |s.bd| > s.tail && s.tail < WORD
  {
    || CircSpace(s.tail, s.ci, s.n) < k
    || s.bd[Idx(s.n, s.tail + (k - 1))].complete
  }

  predicate Legal(r: Request) { r.skb != 0 && r.k > 0 }

  function ProduceNext(s: State): State
    requires s.n == |s.bd| > s.tail && s.tail < WORD && s.cur < s.n
    requires s.producer.Entering? || s.producer.Rechecking? ==> s.producer.r.k > 0
  {
    match s.producer
    case Idle => s
    case Entering(r) =>
      if !Busy(s, r.k) then s.(producer := Filling(r, 0))
      else if s.stopped then s.(producer := Idle)
      else s.(producer := Stopping(r))
    case Stopping(r) => s.(stopped := true, producer := Rechecking(r))
    case Rechecking(r) =>
      if Busy(s, r.k) then s.(producer := Idle) else s.(stopped := false, producer := Filling(r, 0))
    case Filling(r, i) =>
      if i == r.k then s.(bd := s.bd[s.cur := s.bd[s.cur].(skb := r.skb)], producer := Ringing(r))
      else if i == 0 then Write(s).(producer := Filling(r, 1))
      else
        var tail := Wrap(s.n, s.tail + 1);
        Write(s.(tail := tail, cur := tail, filled := s.filled + 1, producer := Filling(r, i + 1)))
    case Ringing(r) =>
      s.(kicked := s.filled + 1, producer := Advancing,
         accepted := s.accepted + [Packet(r.skb, s.filled)])
    case Advancing => s.(tail := Wrap(s.n, s.tail + 1), filled := s.filled + 1, producer := Idle)
  }

  /** The current descriptor gets a piece of the packet. */
  function Write(s: State): State
    requires s.cur < |s.bd|
  {
    s.(bd := s.bd[s.cur := s.bd[s.cur].(ready := true)])
  }

  function ReapNext(s: State): State
    requires s.n == |s.bd|
  {
    match s.reaper
    case Asleep => s
    case Reading => s.(reaper := Looking(s.ci))
    case Looking(at) => s.(reaper := if at < s.n && s.bd[at].complete then Freeing(at) else Waking)
    case Freeing(at) =>
      s.(reaper := Clearing(at),
         freed := if at < s.n && s.bd[at].skb != 0 then s.freed + [s.bd[at].skb] else s.freed)
    case Clearing(at) =>
      s.(bd := if at < s.n then s.bd[at := CLEAR] else s.bd, reaper := Counting, reaped := s.reaped + 1)
    case Counting => s.(ci := s.ci + 1, reaper := Wrapping)
    case Wrapping => s.(ci := Wrap(s.n, s.ci), reaper := Reading)
    case Waking => s.(stopped := false, reaper := Asleep)
  }

  function CompleteNext(s: State): State
    requires s.n == |s.bd| > 0
  {
    if s.completed < s.kicked then
      var i := Idx(s.n, s.completed);
      s.(bd := s.bd[i := s.bd[i].(complete := true)], completed := s.completed + 1, irq := true)
    else s
  }

  /** The skbs attached to a stretch of descriptors, in order. */
  function Attached(bd: seq<Bd>): seq<nat> {
    if bd == [] then []
    else (if bd[0].skb != 0 then [bd[0].skb] else []) + Attached(bd[1..])
  }

  function Skbs(packets: seq<Packet>): seq<nat> {
    seq(|packets|, i requires 0 <= i < |packets| => packets[i].skb)
  }

  /** The error handler's ring reset, in one step, at whatever point the transmit path and
      the completion handler have reached: it takes no lock and stops no queue. */
  function ResetAnywhere(s: State): State {
    s.(bd := seq(s.n, _ => CLEAR), ci := 0, tail := 0, irq := false,
       reaped := 0, completed := 0, kicked := 0, filled := 0, accepted := [], freed := [],
       oldAccepted := s.oldAccepted + Skbs(s.accepted), oldFreed := s.oldFreed + s.freed + Attached(s.bd))
  }

  /** The points at which it keeps the ring in order: not while the reaper holds a complete
      status or has yet to count the descriptor it cleared, not once the transmit path has
      written a descriptor, and not after either has looked up a descriptor other than the
      first. */
  predicate ResetHarmless(s: State) {
    ReaperHarmless(s.reaper) &&
    match s.producer
    case Idle => true
    case Entering(_) => s.cur == 0
    case Stopping(_) => s.cur == 0
    case Rechecking(_) => s.cur == 0
    case Filling(_, i) => i == 0 && s.cur == 0
    case Ringing(_) => false
    case Advancing => false
  }

  predicate ReaperHarmless(reaper: Reaper) {
    match reaper
    case Looking(at) => at == 0
    case Freeing(_) => false
    case Clearing(_) => false
    case Counting => false
    case _ => true
  }

  /** Runs are those whose resets fall at such points; nothing in the driver ensures it. */
  function ResetNext(s: State): State {
    if ResetHarmless(s) then ResetAnywhere(s) else s
  }

  // ---- The invariant ----

  function At(s: State, p: nat): Bd
    requires s.n == |s.bd| > 0
  {
    s.bd[Idx(s.n, p)]
  }

  /** The skb of the packet, among the first `k`, whose last descriptor has position `p`;
      0 if there is none. */
  function Owner(packets: seq<Packet>, k: nat, p: nat): nat
    requires k <= |packets|
  {
    if k == 0 then 0
    else if packets[k - 1].last == p then packets[k - 1].skb
    else Owner(packets, k - 1, p)
  }

  function SkbAt(s: State, p: nat): nat {
    if s.producer.Ringing? && p == s.filled then s.producer.r.skb else Owner(s.accepted, |s.accepted|, p)
  }

  /** The packets use up the positions handed to the hardware, in order. */
  ghost predicate Tiled(packets: seq<Packet>, upTo: nat) {
    && (forall i | 0 <= i < |packets| :: packets[i].skb != 0)
    && (forall i, j | 0 <= i < j < |packets| :: packets[i].last < packets[j].last)
    && upTo == if packets == [] then 0 else packets[|packets| - 1].last + 1
  }

  /** Exactly the packets that end before `reaped` have been freed, in order. */
  ghost predicate FreedInOrder(accepted: seq<Packet>, freed: seq<nat>, reaped: nat) {
    && |freed| <= |accepted|
    && (forall i | 0 <= i < |freed| :: freed[i] == accepted[i].skb && accepted[i].last < reaped)
    && (forall i | |freed| <= i < |accepted| :: accepted[i].last >= reaped)
  }

  /** The position whose index the reaper's `ci` is: it trails by one between clearing a
      descriptor and counting it. */
  function CiPos(s: State): int { if s.reaper.Counting? then s.reaped - 1 else s.reaped }

  /** The positions before this one have had their packets freed. */
  function FreedTo(s: State): nat { if s.reaper.Clearing? then s.reaped + 1 else s.reaped }

  /** The reaper knows that the descriptor it holds is complete. */
  predicate Holds(reaper: Reaper) { reaper.Freeing? || reaper.Clearing? }

  ghost predicate Indices(s: State)
    requires s.n > 0
  {
    && s.tail == Idx(s.n, s.filled)
    && CiPos(s) >= 0
    && (s.ci == Idx(s.n, CiPos(s)) || (s.reaper.Wrapping? && s.ci == s.n && Idx(s.n, s.reaped) == 0))
    && (s.reaper.Looking? || Holds(s.reaper) ==> s.reaper.at == s.ci)
  }

  ghost predicate ProducerOk(s: State) {
    match s.producer
    case Idle => s.filled == s.kicked < CiPos(s) + s.n
    case Entering(r) => s.filled == s.kicked < CiPos(s) + s.n && Legal(r) && s.cur == s.tail
    case Stopping(r) => s.filled == s.kicked < CiPos(s) + s.n && Legal(r) && s.cur == s.tail
    case Rechecking(r) => s.filled == s.kicked < CiPos(s) + s.n && Legal(r) && s.cur == s.tail
    case Filling(r, i) =>
      Legal(r) && i <= r.k && s.cur == s.tail
      && s.filled == s.kicked + (if i == 0 then 0 else i - 1) && s.kicked + r.k < CiPos(s) + s.n
    case Ringing(r) => Legal(r) && s.filled + 1 == s.kicked + r.k && s.kicked + r.k < CiPos(s) + s.n
    case Advancing => s.filled + 1 == s.kicked < CiPos(s) + s.n
  }

  ghost predicate Books(s: State) {
    && Sized(s) && Indices(s) && ProducerOk(s)
    && s.reaped <= s.completed <= s.kicked && (Holds(s.reaper) ==> s.reaped < s.completed)
    && Tiled(s.accepted, s.kicked)
    && FreedInOrder(s.accepted, s.freed, FreedTo(s))
    && multiset(s.oldAccepted) == multiset(s.oldFreed)
  }

  /** The first position whose descriptor is not written. */
  function Written(s: State): nat {
    match s.producer
    case Filling(_, i) => s.kicked + i
    case Ringing(r) => s.kicked + r.k
    case _ => s.kicked
  }

  /** What the descriptor of position `p` shows. */
  ghost predicate Shows(s: State, p: nat)
    requires s.n == |s.bd| > 0
  {
    At(s, p) == Bd(p < s.completed, p < Written(s), SkbAt(s, p))
  }

  ghost predicate Ring(s: State)
    requires s.n == |s.bd| > 0
  {
    forall p | s.reaped <= p < s.reaped + s.n :: Shows(s, p)
  }

  ghost predicate RingInv(s: State) { Books(s) && Ring(s) }

  // ---- Packets and positions ----

  lemma {:induction false} OwnerMatches(packets: seq<Packet>, k: nat, p: nat) returns (i: int)
    requires k <= |packets|
    ensures i < 0 ==> Owner(packets, k, p) == 0 && forall j | 0 <= j < k :: packets[j].last != p
    ensures i >= 0 ==> i < k && packets[i].last == p && Owner(packets, k, p) == packets[i].skb
  {
    if k == 0 {
      i := -1;
    } else if packets[k - 1].last == p {
      i := k - 1;
    } else {
      i := OwnerMatches(packets, k - 1, p);
    }
  }

  lemma {:induction false} OwnerOfMore(packets: seq<Packet>, x: Packet, k: nat, p: nat)
    requires k <= |packets|
    ensures Owner(packets + [x], k, p) == Owner(packets, k, p)
  {
    if k > 0 { OwnerOfMore(packets, x, k - 1, p); }
  }

  lemma OwnerBeyond(packets: seq<Packet>, upTo: nat, p: nat)
    requires Tiled(packets, upTo) && p >= upTo
    ensures Owner(packets, |packets|, p) == 0
  {
    var i := OwnerMatches(packets, |packets|, p);
  }

  /** A descriptor written at position `w` shows at no other position of the same lap. */
  lemma WriteShowsOnce(s: State, bd: seq<Bd>, w: nat, x: Bd, from: nat)
    requires 0 < s.n == |s.bd| == |bd| && bd == s.bd[Idx(s.n, w) := x]
    requires from <= w < from + s.n
    ensures At(s.(bd := bd), w) == x
    ensures forall p | from <= p < from + s.n && p != w :: At(s.(bd := bd), p) == At(s, p)
  {
    forall p | from <= p < from + s.n && p != w ensures At(s.(bd := bd), p) == At(s, p) {
      if p < w { IdxDistinct(s.n, p, w); } else { IdxDistinct(s.n, w, p); }
    }
  }

  // ---- Every step keeps the ring ----

  /** At most a lap is in use. */
  lemma WithinLap(s: State)
    requires RingInv(s)
    ensures 0 < s.n == |s.bd| && s.cur < s.n && s.reaped <= s.completed <= s.kicked <= Written(s) < s.reaped + s.n
  {
    hide Ring, Tiled, FreedInOrder, Indices;
  }

  /** One descriptor is written, and all the others show what they did. */
  lemma RingWith(s: State, t: State, w: nat, x: Bd)
    requires 0 < s.n == t.n == |s.bd| == |t.bd| && t.bd == s.bd[Idx(s.n, w) := x]
    requires t.reaped == s.reaped <= w < s.reaped + s.n && Ring(s)
    requires x == Bd(w < t.completed, w < Written(t), SkbAt(t, w))
    requires t.completed == s.completed || (s.completed == w && t.completed == w + 1)
    requires Written(t) == Written(s) || (Written(s) == w && Written(t) == w + 1)
    requires forall p: nat | p != w :: SkbAt(t, p) == SkbAt(s, p)
    ensures Ring(t)
  {
    hide Written, SkbAt, Idx;
    WriteShowsOnce(s, t.bd, w, x, s.reaped);
    forall p | t.reaped <= p < t.reaped + t.n ensures Shows(t, p) { assert Shows(s, p); }
  }

  lemma CompleteKeepsBooks(s: State)
    requires Books(s)
    ensures Books(CompleteNext(s))
  {
    hide Tiled, FreedInOrder;
  }

  lemma CompleteKeeps(s: State)
    requires RingInv(s)
    ensures RingInv(CompleteNext(s))
  {
    WithinLap(s);
    CompleteKeepsBooks(s);
    if s.completed < s.kicked {
      assert Shows(s, s.completed);
      hide Books, Owner, Idx, Ring;
      RingWith(s, CompleteNext(s), s.completed, At(s, s.completed).(complete := true));
    }
  }

  lemma ClearBeyond(s: State, p: nat)
    requires RingInv(s) && s.kicked <= p < s.reaped + s.n
    ensures s.n == |s.bd| > 0 && !s.bd[Idx(s.n, p)].complete
  {
    assert Shows(s, p);
    hide Ring, Tiled, FreedInOrder, Indices, ProducerOk, Idx, Owner;
  }

  lemma BetweenPackets(s: State)
    requires RingInv(s) && (s.producer.Idle? || Deciding(s.producer))
    ensures Sized(s) && Indices(s) && s.filled == s.kicked && CiPos(s) <= s.filled < CiPos(s) + s.n
    ensures CiPos(s) <= s.reaped
  {
    hide Ring, Tiled, FreedInOrder, Idx;
  }

  /** The space test is exact, and its look at a descriptor's status never fires: every
      descriptor outside [reaped, kicked) has a clear status. */
  lemma SpaceIsExact(s: State, k: nat)
    requires RingInv(s) && PowerOfTwo(s.n) && k > 0 && (s.producer.Idle? || Deciding(s.producer))
    ensures CircSpace(s.tail, s.ci, s.n) == s.n - 1 - (s.filled - CiPos(s))
    ensures CircSpace(s.tail, s.ci, s.n) >= k ==> !s.bd[Idx(s.n, s.tail + (k - 1))].complete
    ensures Busy(s, k) <==> s.filled + k >= CiPos(s) + s.n
  {
    BetweenPackets(s);
    CircSpaceExact(s.n, CiPos(s), s.filled, s.ci);
    if CircSpace(s.tail, s.ci, s.n) >= k {
      IdxAdd(s.n, s.filled, k - 1);
      hide CircSpace, Idx;
      ClearBeyond(s, s.filled + (k - 1));
    }
    hide RingInv, CircSpace, Idx;
  }

  predicate Deciding(p: Producer) { p.Entering? || p.Stopping? || p.Rechecking? }

  lemma AttachKeeps(s: State)
    requires RingInv(s) && s.producer.Filling? && s.producer.i == s.producer.r.k
    ensures RingInv(ProduceNext(s))
  {
    var t := ProduceNext(s);
    WriteShowsOnce(s, t.bd, s.filled, t.bd[s.cur], s.reaped);
    forall p | t.reaped <= p < t.reaped + t.n ensures Shows(t, p) { assert Shows(s, p); }
  }

  lemma HandOverKeeps(s: State)
    requires RingInv(s) && s.producer.Ringing?
    ensures RingInv(ProduceNext(s))
  {
    var t := ProduceNext(s);
    OwnerBeyond(s.accepted, s.kicked, s.filled);
    forall p | t.reaped <= p < t.reaped + t.n ensures Shows(t, p) {
      assert Shows(s, p);
      OwnerOfMore(s.accepted, t.accepted[|s.accepted|], |s.accepted|, p);
    }
  }

  /** A step that touches neither descriptors nor what they must show. */
  lemma RingUnchanged(s: State, t: State)
    requires RingInv(s) && t.n == s.n && t.bd == s.bd && t.reaped == s.reaped && t.completed == s.completed
    requires t.accepted == s.accepted && !s.producer.Ringing? && !t.producer.Ringing? && Written(t) == Written(s)
    ensures Ring(t)
  {
    forall p | t.reaped <= p < t.reaped + t.n ensures Shows(t, p) { assert Shows(s, p); }
  }

  lemma DecideKeepsIndices(s: State)
    requires WellFormed(s) && Sized(s) && Indices(s) && ProducerOk(s) && Deciding(s.producer)
    requires Busy(s, s.producer.r.k) <==> s.filled + s.producer.r.k >= CiPos(s) + s.n
    ensures var t := ProduceNext(s); Sized(t) && Indices(t) && ProducerOk(t)
  {
    hide Busy, Idx;
  }

  lemma DecideKeeps(s: State)
    requires RingInv(s) && PowerOfTwo(s.n) && Deciding(s.producer)
    ensures RingInv(ProduceNext(s))
  {
    SpaceIsExact(s, s.producer.r.k);
    DecideKeepsIndices(s);
    hide Ring, Tiled, FreedInOrder, Sized, Indices, ProducerOk, Busy;
    RingUnchanged(s, ProduceNext(s));
  }

  lemma WriteKeepsIndices(s: State)
    requires Sized(s) && Indices(s) && WellFormed(s) && ProducerOk(s)
    requires s.producer.Filling? && s.producer.i < s.producer.r.k
    ensures var t := ProduceNext(s);
            && t.cur == t.tail == Idx(s.n, t.filled) && t.filled == s.kicked + s.producer.i
            && Sized(t) && Indices(t)
  {
    IdxNext(s.n, s.filled);
    hide Idx;
  }

  lemma WriteKeepsProducer(s: State)
    requires WellFormed(s) && ProducerOk(s) && s.producer.Filling? && s.producer.i < s.producer.r.k
    ensures ProducerOk(ProduceNext(s))
  {
    hide Busy, Idx, Wrap;
  }

  lemma WriteKeepsBooks(s: State)
    requires Books(s) && s.producer.Filling? && s.producer.i < s.producer.r.k
    ensures Books(ProduceNext(s))
  {
    WriteKeepsIndices(s);
    WriteKeepsProducer(s);
    hide Sized, Indices, ProducerOk, Tiled, FreedInOrder, Idx, Wrap;
  }

  lemma WriteKeeps(s: State)
    requires RingInv(s) && s.producer.Filling? && s.producer.i < s.producer.r.k
    ensures RingInv(ProduceNext(s))
  {
    WithinLap(s);
    WriteKeepsIndices(s);
    WriteKeepsBooks(s);
    assert Written(s) == s.kicked + s.producer.i && Shows(s, Written(s));
    hide Books, Owner, Idx, Ring, Wrap;
    RingWith(s, ProduceNext(s), Written(s), At(s, Written(s)).(ready := true));
  }

  lemma AdvanceKeeps(s: State)
    requires RingInv(s) && s.producer.Advancing?
    ensures RingInv(ProduceNext(s))
  {
    hide Tiled, FreedInOrder;
    IdxNext(s.n, s.filled);
    RingUnchanged(s, ProduceNext(s));
  }

  lemma ProduceKeeps(s: State)
    requires RingInv(s) && PowerOfTwo(s.n)
    ensures RingInv(ProduceNext(s))
  {
    match s.producer
    case Idle =>
    case Entering(r) => DecideKeeps(s);
    case Stopping(r) => DecideKeeps(s);
    case Rechecking(r) => DecideKeeps(s);
    case Filling(r, i) => if i == r.k { AttachKeeps(s); } else { WriteKeeps(s); }
    case Ringing(r) => HandOverKeeps(s);
    case Advancing => AdvanceKeeps(s);
  }

  lemma FreeingKeepsOrder(s: State)
    requires RingInv(s) && s.reaped < s.completed && !s.reaper.Clearing?
    ensures var skb := Owner(s.accepted, |s.accepted|, s.reaped);
            FreedInOrder(s.accepted, if skb != 0 then s.freed + [skb] else s.freed, s.reaped + 1)
  {
    var i := OwnerMatches(s.accepted, |s.accepted|, s.reaped);
    var f := |s.freed|;
    assert f < |s.accepted| ==> s.accepted[f].last >= s.reaped;
    assert i >= 0 ==> i == f;
  }

  lemma ReadingMeans(s: State)
    requires RingInv(s) && s.reaper.Looking?
    ensures 0 < s.n == |s.bd| && s.reaper.at == s.ci < s.n
    ensures s.bd[s.ci].complete <==> s.reaped < s.completed
    ensures s.reaped <= s.completed <= s.kicked
  {
    WithinLap(s);
    assert Shows(s, s.reaped);
    hide Ring, Tiled, FreedInOrder, ProducerOk;
  }

  lemma OldestIsHeld(s: State)
    requires RingInv(s) && Holds(s.reaper)
    ensures s.reaped < s.completed && s.reaper.at == s.ci == Idx(s.n, s.reaped) < s.n == |s.bd|
    ensures s.bd[s.ci].skb == SkbAt(s, s.reaped) == Owner(s.accepted, |s.accepted|, s.reaped)
  {
    WithinLap(s);
    assert Shows(s, s.reaped);
    hide Ring, Tiled, FreedInOrder, Owner;
  }

  lemma FreeKeepsIndices(s: State)
    requires Sized(s) && Indices(s) && ProducerOk(s) && s.reaper.Freeing?
    ensures var t := ReapNext(s); Sized(t) && Indices(t) && ProducerOk(t)
  {
    hide Idx;
  }

  lemma FreeKeeps(s: State)
    requires RingInv(s) && s.reaper.Freeing?
    ensures RingInv(ReapNext(s))
  {
    OldestIsHeld(s);
    FreeingKeepsOrder(s);
    FreeKeepsIndices(s);
    hide Ring, Tiled, FreedInOrder, Owner, Idx, SkbAt, Sized, Indices, ProducerOk;
    ReaperMoves(s, ReapNext(s));
  }

  lemma ClearKeepsIndices(s: State)
    requires Sized(s) && Indices(s) && ProducerOk(s) && s.reaper.Clearing?
    ensures var t := ReapNext(s); Sized(t) && Indices(t) && ProducerOk(t)
  {
    hide Idx;
  }

  lemma ClearKeepsBooks(s: State)
    requires RingInv(s) && s.reaper.Clearing?
    ensures Books(ReapNext(s))
  {
    OldestIsHeld(s);
    ClearKeepsIndices(s);
    hide Ring, Tiled, FreedInOrder, Owner, SkbAt, Idx, Sized, Indices, ProducerOk;
  }

  /** The oldest descriptor is cleared and becomes the youngest. */
  lemma RingMovesOn(s: State, t: State)
    requires 0 < s.n == t.n == |s.bd| == |t.bd| && t.bd == s.bd[Idx(s.n, s.reaped) := CLEAR] && Ring(s)
    requires t.reaped == s.reaped + 1 && t.completed == s.completed <= s.reaped + s.n
    requires Written(t) == Written(s) <= s.reaped + s.n && SkbAt(t, s.reaped + s.n) == 0
    requires forall p: nat :: SkbAt(t, p) == SkbAt(s, p)
    ensures Ring(t)
  {
    hide Written, SkbAt;
    WriteShowsOnce(s, t.bd, s.reaped, CLEAR, s.reaped);
    IdxLap(s.n, s.reaped);
    hide Idx;
    forall p | t.reaped <= p < t.reaped + t.n ensures Shows(t, p) {
      if p < s.reaped + s.n { assert Shows(s, p); }
    }
  }

  lemma ClearKeeps(s: State)
    requires RingInv(s) && s.reaper.Clearing?
    ensures RingInv(ReapNext(s))
  {
    WithinLap(s);
    OldestIsHeld(s);
    ClearKeepsBooks(s);
    OwnerBeyond(s.accepted, s.kicked, s.reaped + s.n);
    FilledWithinLap(s);
    hide Books, Ring, Owner, Idx;
    RingMovesOn(s, ReapNext(s));
  }

  lemma FilledWithinLap(s: State)
    requires RingInv(s)
    ensures s.filled < s.reaped + s.n && Tiled(s.accepted, s.kicked)
  {
    hide Ring, Tiled, FreedInOrder, Indices;
  }

  lemma CountKeeps(s: State)
    requires RingInv(s) && s.reaper.Counting?
    ensures RingInv(ReapNext(s))
  {
    hide Tiled, FreedInOrder;
    IdxNext(s.n, s.reaped - 1);
    ReaperMoves(s, ReapNext(s));
  }

  lemma ReaperMoves(s: State, t: State)
    requires RingInv(s)
    requires t == s.(ci := t.ci, reaper := t.reaper, stopped := t.stopped, irq := t.irq, freed := t.freed)
    ensures Ring(t)
  {
    hide Tiled, FreedInOrder;
    forall p | t.reaped <= p < t.reaped + t.n ensures Shows(t, p) { assert Shows(s, p); }
  }

  lemma PauseKeepsIndices(s: State)
    requires Sized(s) && Indices(s) && ProducerOk(s) && !s.reaper.Counting? && !Holds(s.reaper)
    ensures var t := ReapNext(s); Sized(t) && Indices(t) && ProducerOk(t)
  {
    hide Idx;
  }

  lemma PauseMoves(s: State)
    requires s.n == |s.bd| && !s.reaper.Counting? && !Holds(s.reaper)
    ensures var t := ReapNext(s);
            && t == s.(ci := t.ci, reaper := t.reaper, stopped := t.stopped) && FreedTo(t) == FreedTo(s)
            && (Holds(t.reaper) ==> s.reaper.Looking? && s.reaper.at < s.n && s.bd[s.reaper.at].complete)
  {}

  lemma PauseKeeps(s: State)
    requires RingInv(s) && !s.reaper.Counting? && !Holds(s.reaper)
    ensures RingInv(ReapNext(s))
  {
    if s.reaper.Looking? { ReadingMeans(s); }
    PauseKeepsIndices(s);
    PauseMoves(s);
    ReaperMoves(s, ReapNext(s));
    hide Tiled, FreedInOrder, Ring, Sized, Indices, ProducerOk, ReapNext, FreedTo;
  }

  lemma ReapKeeps(s: State)
    requires RingInv(s)
    ensures RingInv(ReapNext(s))
  {
    match s.reaper
    case Counting => CountKeeps(s);
    case Freeing(_) => FreeKeeps(s);
    case Clearing(_) => ClearKeeps(s);
    case _ => PauseKeeps(s);
  }

  lemma InterruptKeeps(s: State)
    requires RingInv(s)
    ensures RingInv(InterruptNext(s))
  {
    hide Tiled, FreedInOrder;
    ReaperMoves(s, InterruptNext(s));
  }

  // ---- The error reset ----

  lemma {:induction false} AttachedAppend(a: seq<Bd>, b: seq<Bd>)
    ensures Attached(a + b) == Attached(a) + Attached(b)
  {
    if a == [] {
      assert a + b == b;
    } else {
      assert (a + b)[1..] == a[1..] + b;
      AttachedAppend(a[1..], b);
    }
  }

  lemma AttachedOneMore(bd: seq<Bd>, i: nat)
    requires i < |bd|
    ensures Attached(bd[..i + 1]) == Attached(bd[..i]) + if bd[i].skb != 0 then [bd[i].skb] else []
  {
    assert bd[..i + 1] == bd[..i] + [bd[i]];
    AttachedAppend(bd[..i], [bd[i]]);
    assert [bd[i]][1..] == [];
  }

  /** The whole ring in the order of positions, from the oldest descriptor on. */
  function Lap(s: State): seq<Bd>
    requires s.n == |s.bd| > 0
  {
    seq(s.n, j requires 0 <= j < s.n => At(s, s.reaped + j))
  }

  /** Descriptors for positions from `p` on carry the skbs of the packets from `f` on. */
  lemma {:induction false} CarriedSkbs(lap: seq<Bd>, packets: seq<Packet>, upTo: nat, p: nat, f: nat)
    requires Tiled(packets, upTo) && upTo <= p + |lap| && f <= |packets|
    requires forall j | 0 <= j < |lap| :: lap[j].skb == Owner(packets, |packets|, p + j)
    requires forall i | 0 <= i < f :: packets[i].last < p
    requires forall i | f <= i < |packets| :: packets[i].last >= p
    ensures Attached(lap) == Skbs(packets[f..])
  {
    if lap != [] {
      var i := OwnerMatches(packets, |packets|, p);
      assert lap[0].skb == Owner(packets, |packets|, p + 0);
      assert forall j | 0 <= j < |lap| - 1 :: lap[1..][j].skb == Owner(packets, |packets|, p + 1 + j);
      if i >= 0 {
        assert packets[f].last >= p;
        assert i == f;
        assert Skbs(packets[f..]) == [packets[f].skb] + Skbs(packets[f + 1..]);
        CarriedSkbs(lap[1..], packets, upTo, p + 1, f + 1);
      } else {
        CarriedSkbs(lap[1..], packets, upTo, p + 1, f);
      }
    }
  }

  /** The reset walks the array by index; the lap that starts at the oldest descriptor is
      the same array, rotated. */
  lemma ArrayIsRotatedLap(s: State)
    requires 0 < s.n == |s.bd|
    ensures multiset(Attached(s.bd)) == multiset(Attached(Lap(s)))
  {
    var d := Idx(s.n, s.reaped);
    var low, high := s.bd[..d], s.bd[d..];
    assert s.bd == low + high;
    forall j | 0 <= j < s.n ensures At(s, s.reaped + j) == (high + low)[j] {
      IdxAdd(s.n, s.reaped, j);
    }
    assert Lap(s) == high + low;
    AttachedAppend(low, high);
    AttachedAppend(high, low);
  }

  lemma LapCarriesUnfreed(s: State)
    requires RingInv(s) && !s.producer.Ringing? && !s.reaper.Clearing?
    ensures Attached(Lap(s)) == Skbs(s.accepted[|s.freed|..])
  {
    forall j | 0 <= j < s.n ensures Lap(s)[j].skb == Owner(s.accepted, |s.accepted|, s.reaped + j) {
      assert Shows(s, s.reaped + j);
    }
    CarriedSkbs(Lap(s), s.accepted, s.kicked, s.reaped, |s.freed|);
  }

  lemma FreedAndUnfreed(s: State)
    requires FreedInOrder(s.accepted, s.freed, FreedTo(s))
    ensures Skbs(s.accepted) == s.freed + Skbs(s.accepted[|s.freed|..])
  {}

  lemma IdleResetFreesTheRest(s: State)
    requires RingInv(s) && !s.producer.Ringing? && !s.reaper.Clearing?
    ensures multiset(s.freed + Attached(s.bd)) == multiset(Skbs(s.accepted))
  {
    LapCarriesUnfreed(s);
    FreedAndUnfreed(s);
    ArrayIsRotatedLap(s);
  }

  lemma RestingResetFreesTheRest(s: State)
    requires RingInv(s) && !s.reaper.Clearing?
    ensures multiset(s.freed + Attached(s.bd)) == multiset(Skbs(s.accepted)) + HandedOver(s)
  {
    if s.producer.Ringing? {
      HandOverKeeps(s);
      var t := ProduceNext(s);
      assert Skbs(t.accepted) == Skbs(s.accepted) + [s.producer.r.skb];
      hide Attached, RingInv;
      IdleResetFreesTheRest(t);
    } else {
      IdleResetFreesTheRest(s);
    }
  }

  /** A packet attached to its descriptor but not handed to the hardware. */
  function HandedOver(s: State): multiset<nat> {
    if s.producer.Ringing? then multiset{s.producer.r.skb} else multiset{}
  }

  /** A packet that the reaper has freed but not yet taken off its descriptor. */
  function FreedEarly(s: State): multiset<nat>
    requires s.n == |s.bd|
  {
    if s.reaper.Clearing? && s.reaper.at < s.n && s.bd[s.reaper.at].skb != 0 then multiset{s.bd[s.reaper.at].skb}
    else multiset{}
  }

  lemma AttachedHead(x: Bd, rest: seq<Bd>)
    ensures Attached([x] + rest) == (if x.skb != 0 then [x.skb] else []) + Attached(rest)
  {
    assert ([x] + rest)[1..] == rest;
  }

  lemma AttachedCleared(bd: seq<Bd>, i: nat)
    requires i < |bd|
    ensures multiset(Attached(bd)) ==
            multiset(Attached(bd[i := CLEAR])) + if bd[i].skb != 0 then multiset{bd[i].skb} else multiset{}
  {
    var low, high := bd[..i], bd[i + 1..];
    assert bd == low + ([bd[i]] + high) && bd[i := CLEAR] == low + ([CLEAR] + high);
    AttachedAppend(low, [bd[i]] + high);
    AttachedAppend(low, [CLEAR] + high);
    AttachedHead(bd[i], high);
    AttachedHead(CLEAR, high);
    hide Attached;
    OneInTheMiddle(Attached(low), bd[i].skb, Attached(high));
  }

  lemma OneInTheMiddle(a: seq<nat>, x: nat, b: seq<nat>)
    ensures multiset(a + ([x] + b)) == multiset(a + b) + multiset{x}
    ensures a + ([] + b) == a + b
  {}

  /** A reset frees what was accepted and not yet freed; and besides that only a packet that
      is attached but not handed over, and, a second time, one that the reaper has freed but
      not yet taken off its descriptor. */
  lemma ResetFreesTheRest(s: State)
    requires RingInv(s)
    ensures s.n == |s.bd|
    ensures multiset(s.freed + Attached(s.bd)) == multiset(Skbs(s.accepted)) + HandedOver(s) + FreedEarly(s)
  {
    if s.reaper.Clearing? {
      ClearingIsLike(s);
      AttachedCleared(s.bd, s.reaper.at);
      RestingResetFreesTheRest(ReapNext(s));
      hide Attached, RingInv, Skbs, HandedOver;
    } else {
      RestingResetFreesTheRest(s);
    }
  }

  lemma ClearingIsLike(s: State)
    requires RingInv(s) && s.reaper.Clearing?
    ensures s.reaper.at < s.n == |s.bd|
    ensures var t := ReapNext(s);
            && RingInv(t) && t.bd == s.bd[s.reaper.at := CLEAR] && t.freed == s.freed && t.accepted == s.accepted
            && HandedOver(t) == HandedOver(s) && !t.reaper.Clearing?
  {
    OldestIsHeld(s);
    ClearKeeps(s);
    hide RingInv;
  }

  /** What a reset, wherever it falls, has freed too much: a packet not handed over, and a
      packet freed already. */
  lemma ResetBalance(s: State)
    requires RingInv(s)
    ensures s.n == |s.bd|
    ensures var t := ResetAnywhere(s);
            multiset(t.oldFreed) == multiset(t.oldAccepted) + HandedOver(s) + FreedEarly(s)
  {
    ResetFreesTheRest(s);
    assert s.oldFreed + s.freed + Attached(s.bd) == s.oldFreed + (s.freed + Attached(s.bd));
    assert multiset(s.oldAccepted) == multiset(s.oldFreed);
    hide RingInv, Attached, Skbs, FreedEarly, HandedOver;
  }

  lemma HarmlessResetKeepsIndices(s: State)
    requires RingInv(s) && ResetHarmless(s)
    ensures var t := ResetAnywhere(s);
            && 0 < t.n == |t.bd| && Sized(t) && Indices(t) && ProducerOk(t)
            && HandedOver(s) == FreedEarly(s) == multiset{}
            && !Holds(t.reaper) && FreedTo(t) == 0
  {
    hide Ring, Tiled, FreedInOrder, Attached, Skbs;
  }

  lemma HarmlessResetShows(s: State)
    requires 0 < s.n && ResetHarmless(s)
    ensures Ring(ResetAnywhere(s)) && Written(ResetAnywhere(s)) == 0
  {
    var t := ResetAnywhere(s);
    hide Attached, Skbs, Idx;
    forall p | t.reaped <= p < t.reaped + t.n ensures Shows(t, p) {}
  }

  lemma HarmlessResetKeeps(s: State)
    requires RingInv(s) && ResetHarmless(s)
    ensures RingInv(ResetAnywhere(s))
  {
    ResetBalance(s);
    HarmlessResetKeepsIndices(s);
    HarmlessResetShows(s);
    hide Sized, Indices, ProducerOk, Ring, Attached, Skbs, HandedOver, FreedEarly;
  }

  /** The ring is in order after a reset exactly when it fell at a harmless point. */
  lemma ResetKeepsIff(s: State)
    requires RingInv(s)
    ensures RingInv(ResetAnywhere(s)) <==> ResetHarmless(s)
  {
    if ResetHarmless(s) {
      HarmlessResetKeeps(s);
    } else {
      HarmfulResetBreaks(s);
    }
  }

  lemma HarmfulResetBreaks(s: State)
    requires RingInv(s) && !ResetHarmless(s)
    ensures !RingInv(ResetAnywhere(s))
  {
    var t := ResetAnywhere(s);
    if s.producer.Ringing? || s.producer.Filling? {
      assert Shows(t, 0) ==> s.producer.Filling? && s.producer.i == 0;
    }
  }

  // ---- The protocol ----

  /** The transmit path looks up its descriptor before it takes the lock. */
  function XmitNext(s: State, r: Request): State {
    if s.producer.Idle? && Legal(r) then s.(cur := s.tail, producer := Entering(r)) else s
  }

  /** The handler acknowledges the interrupt before it reads the first status. */
  function InterruptNext(s: State): State {
    if s.irq && s.reaper.Asleep? then s.(irq := false, reaper := Reading) else s
  }

  predicate WellFormed(s: State) {
    && s.n == |s.bd| > s.tail && s.tail < WORD && s.cur < s.n
    && (s.producer.Entering? || s.producer.Rechecking? ==> s.producer.r.k > 0)
  }

  function Next(s: State, step: Step): State {
    if !WellFormed(s) then s else
    match step
    case Xmit(r) => XmitNext(s, r)
    case Produce => ProduceNext(s)
    case Interrupt => InterruptNext(s)
    case Reap => ReapNext(s)
    case Complete => CompleteNext(s)
    case Reset => ResetNext(s)
  }

  lemma XmitKeeps(s: State, r: Request)
    requires RingInv(s)
    ensures RingInv(XmitNext(s, r))
  {
    hide Tiled, FreedInOrder;
    if s.producer.Idle? && Legal(r) { RingUnchanged(s, XmitNext(s, r)); }
  }

  lemma StepKeepsSize(s: State, step: Step)
    ensures Next(s, step).n == s.n
  {}

  lemma ResetElsewhere(s: State)
    requires !ResetHarmless(s)
    ensures ResetNext(s) == s
  {}

  lemma StepKeeps(s: State, step: Step)
    requires RingInv(s) && PowerOfTwo(s.n)
    ensures RingInv(Next(s, step)) && Next(s, step).n == s.n
  {
    assert WellFormed(s);
    StepKeepsSize(s, step);
    hide RingInv, ProduceNext, ReapNext, CompleteNext, ResetAnywhere, ResetHarmless, XmitNext, InterruptNext;
    match step
    case Xmit(r) => XmitKeeps(s, r);
    case Produce => ProduceKeeps(s);
    case Interrupt => InterruptKeeps(s);
    case Reap => ReapKeeps(s);
    case Complete => CompleteKeeps(s);
    case Reset => if ResetHarmless(s) { HarmlessResetKeeps(s); } else { ResetElsewhere(s); }
  }

  function Exec(s: State, steps: seq<Step>): State
    decreases |steps|
  {
    if steps == [] then s else Exec(Next(s, steps[0]), steps[1..])
  }

  lemma {:induction false} RunKeeps(s: State, steps: seq<Step>)
    requires RingInv(s) && PowerOfTwo(s.n)
    ensures RingInv(Exec(s, steps)) && Exec(s, steps).n == s.n
    decreases |steps|
  {
    if steps != [] {
      StepKeeps(s, steps[0]);
      RunKeeps(Next(s, steps[0]), steps[1..]);
    }
  }

  lemma InitInv(n: nat)
    requires 0 < n <= WORD
    ensures RingInv(Init(n))
  {
    var s := Init(n);
    forall p | 0 <= p < n ensures Shows(s, p) {}
  }

  /** The states of every interleaving whose resets fall at harmless points, for a ring of any
      size a power of two. */
  ghost predicate Reachable(s: State) {
    exists n, steps :: 0 < n <= WORD && PowerOfTwo(n) && s == Exec(Init(n), steps)
  }

  lemma ReachableInv(s: State)
    requires Reachable(s)
    ensures RingInv(s) && PowerOfTwo(s.n) && WellFormed(s)
  {
    var n, steps :| 0 < n <= WORD && PowerOfTwo(n) && s == Exec(Init(n), steps);
    InitInv(n);
    RunKeeps(Init(n), steps);
  }

  function Ids(s: State): seq<nat> { s.oldAccepted + Skbs(s.accepted) }

  function Frees(s: State): seq<nat> { s.oldFreed + s.freed }

  /** As long as resets fall at harmless points, every skb ever accepted is freed exactly once
      or is still attached to the ring, and since the last reset they are freed in the order
      they were accepted. */
  lemma EverySkbFreedOnce(s: State)
    requires Reachable(s)
    ensures |s.freed| <= |s.accepted| && s.freed == Skbs(s.accepted)[..|s.freed|]
    ensures multiset(Ids(s)) == multiset(Frees(s)) + multiset(Skbs(s.accepted[|s.freed|..]))
  {
    ReachableInv(s);
    FreedAndUnfreed(s);
  }

  /** An skb is freed only once the hardware has completed its last descriptor, and with it
      all before; one not freed still has its last descriptor in the ring, carrying it. */
  lemma FreedOnlyWhenCompleted(s: State, i: nat)
    requires Reachable(s) && i < |s.accepted|
    ensures 0 < s.n == |s.bd|
    ensures i < |s.freed| ==> s.accepted[i].last < FreedTo(s) <= s.completed
    ensures i >= |s.freed| ==>
              FreedTo(s) <= s.accepted[i].last < s.kicked && At(s, s.accepted[i].last).skb == s.accepted[i].skb
  {
    ReachableInv(s);
    if i >= |s.freed| {
      var p := s.accepted[i].last;
      assert Shows(s, p);
      var j := OwnerMatches(s.accepted, |s.accepted|, p);
      assert j == i;
    }
  }

  /** Reaping never passes what the hardware was given: a descriptor outside
      [reaped, kicked) has a clear status, and no skb unless it is being handed over. */
  lemma IdleDescriptorsAreClear(s: State, p: nat)
    requires Reachable(s) && s.kicked <= p < s.reaped + s.n
    ensures 0 < s.n == |s.bd| && s.reaped <= s.completed <= s.kicked
    ensures !At(s, p).complete && (At(s, p).skb == 0 || (s.producer.Ringing? && p == s.filled))
  {
    ReachableInv(s);
    assert Shows(s, p);
    OwnerBeyond(s.accepted, s.kicked, p);
  }

  /** Every descriptor given to the hardware has something to send, and its status says whether
      the hardware is done with it. */
  lemma KickedIsReady(s: State, p: nat)
    requires Reachable(s) && s.reaped <= p < s.kicked
    ensures 0 < s.n == |s.bd| && s.kicked < s.reaped + s.n
    ensures s.bd[Idx(s.n, p)].ready && (s.bd[Idx(s.n, p)].complete <==> p < s.completed)
  {
    ReachableInv(s);
    WithinLap(s);
    assert Shows(s, p);
  }

  // ---- No lost wake-up ----

  predicate Fits(s: State) {
    match s.producer
    case Entering(r) => r.k < s.n
    case Stopping(r) => r.k < s.n
    case Rechecking(r) => r.k < s.n
    case _ => true
  }

  /** Completed descriptors will be noticed. */
  predicate Noticed(s: State) {
    s.reaped < s.completed ==> s.irq || !(s.reaper.Asleep? || s.reaper.Waking?)
  }

  /** Somebody will still wake the queue if it is stopped. */
  predicate WakeComes(s: State) {
    s.stopped ==> s.producer.Rechecking? || s.completed < s.kicked || s.irq || !s.reaper.Asleep?
  }

  predicate WakeInv(s: State) { Fits(s) && Noticed(s) && WakeComes(s) }

  /** A packet must leave one slot of the ring unused. A reset must not meet a stopped queue
      that nobody is about to look at or wake: it forgets what was in flight and does not
      wake the queue. */
  predicate Considerate(s: State, step: Step) {
    match step
    case Xmit(r) => r.k < s.n
    case Reset => ResetHarmless(s) ==> !s.stopped || s.producer.Rechecking? || !s.reaper.Asleep?
    case _ => true
  }

  lemma RecheckKeepsWake(s: State)
    requires RingInv(s) && PowerOfTwo(s.n) && WakeInv(s) && s.producer.Rechecking?
    ensures WakeInv(ProduceNext(s))
  {
    SpaceIsExact(s, s.producer.r.k);
  }

  /** The transmit path only ever adds to what is in flight, and only `Stopping` stops. */
  lemma ProducerMovesOn(s: State)
    requires WellFormed(s) && (s.producer.Ringing? ==> s.kicked <= s.filled + 1)
    ensures var t := ProduceNext(s);
            && t.kicked >= s.kicked && t.completed == s.completed && t.reaped == s.reaped
            && t.irq == s.irq && t.reaper == s.reaper
            && (t.stopped ==> t.producer.Rechecking? || s.producer.Rechecking? || s.stopped)
  {
    hide Busy, Wrap;
  }

  lemma FittingStays(s: State)
    requires WellFormed(s) && Fits(s)
    ensures Fits(ProduceNext(s))
  {
    hide Busy, Wrap;
  }

  lemma HandsOverMore(s: State)
    requires RingInv(s)
    ensures WellFormed(s) && (s.producer.Ringing? ==> s.kicked <= s.filled + 1)
  {
    hide Ring, Tiled, FreedInOrder, Indices;
  }

  lemma ProduceKeepsWake(s: State)
    requires RingInv(s) && PowerOfTwo(s.n) && WakeInv(s)
    ensures WakeInv(ProduceNext(s))
  {
    HandsOverMore(s);
    if s.producer.Rechecking? {
      RecheckKeepsWake(s);
    } else {
      ProducerMovesOn(s);
      FittingStays(s);
      hide RingInv, ProduceNext, Fits;
    }
  }

  /** The reaper leaves the rest alone, and falls asleep only after waking the queue. */
  lemma ReaperMovesOn(s: State)
    requires s.n == |s.bd|
    ensures var t := ReapNext(s);
            && t.n == s.n && t.producer == s.producer && t.completed == s.completed && t.kicked == s.kicked
            && t.irq == s.irq && t.reaped >= s.reaped && (t.stopped ==> s.stopped)
            && (t.reaper.Asleep? ==> s.reaper.Asleep? || !t.stopped)
            && (t.reaper.Asleep? || t.reaper.Waking? ==> t.reaped == s.reaped)
            && (t.reaper.Asleep? ==> s.reaper.Asleep? || s.reaper.Waking?)
            && (t.reaper.Waking? ==> s.reaper.Looking? && !(s.reaper.at < s.n && s.bd[s.reaper.at].complete))
  {}

  lemma ReapKeepsWake(s: State)
    requires RingInv(s) && WakeInv(s)
    ensures WakeInv(ReapNext(s))
  {
    WithinLap(s);
    ReaperMovesOn(s);
    if s.reaper.Looking? { ReadingMeans(s); }
    hide RingInv, ReapNext;
  }

  lemma CompleteKeepsWake(s: State)
    requires RingInv(s) && WakeInv(s)
    ensures WakeInv(CompleteNext(s))
  {
    hide Tiled, FreedInOrder, Indices, ProducerOk, Ring;
  }

  lemma ResetKeepsWake(s: State)
    requires WakeInv(s) && Considerate(s, Reset)
    ensures WakeInv(ResetNext(s))
  {}

  lemma EntryKeepsWake(s: State, step: Step)
    requires WakeInv(s) && Considerate(s, step) && (step.Xmit? || step.Interrupt?)
    ensures WakeInv(Next(s, step))
  {}

  lemma StepKeepsWake(s: State, step: Step)
    requires RingInv(s) && PowerOfTwo(s.n) && WakeInv(s) && Considerate(s, step)
    ensures WakeInv(Next(s, step))
  {
    assert WellFormed(s);
    hide RingInv, WakeInv, Considerate, ProduceNext, ReapNext, CompleteNext, ResetNext, XmitNext, InterruptNext;
    match step
    case Xmit(r) => EntryKeepsWake(s, step);
    case Produce => ProduceKeepsWake(s);
    case Interrupt => EntryKeepsWake(s, step);
    case Reap => ReapKeepsWake(s);
    case Complete => CompleteKeepsWake(s);
    case Reset => ResetKeepsWake(s);
  }

  ghost predicate ConsiderateRun(s: State, steps: seq<Step>)
    decreases |steps|
  {
    steps == [] || (Considerate(s, steps[0]) && ConsiderateRun(Next(s, steps[0]), steps[1..]))
  }

  lemma {:induction false} RunKeepsWake(s: State, steps: seq<Step>)
    requires RingInv(s) && PowerOfTwo(s.n) && WakeInv(s) && ConsiderateRun(s, steps)
    ensures WakeInv(Exec(s, steps))
    decreases |steps|
  {
    if steps != [] {
      StepKeeps(s, steps[0]);
      StepKeepsWake(s, steps[0]);
      RunKeepsWake(Next(s, steps[0]), steps[1..]);
    }
  }

  ghost predicate ReachableConsiderately(s: State) {
    exists n, steps ::
      0 < n <= WORD && PowerOfTwo(n) && ConsiderateRun(Init(n), steps) && s == Exec(Init(n), steps)
  }

  /** In every considerate interleaving, a stopped queue that no producer is about to look
      at again has a descriptor still in flight or a wake still to come. */
  lemma NoLostWakeup(s: State)
    requires ReachableConsiderately(s) && s.stopped && !s.producer.Rechecking?
    ensures s.completed < s.kicked || s.irq || !s.reaper.Asleep?
  {
    var n, steps :|
      0 < n <= WORD && PowerOfTwo(n) && ConsiderateRun(Init(n), steps) && s == Exec(Init(n), steps);
    InitInv(n);
    RunKeepsWake(Init(n), steps);
  }

  /** Nothing is going on and the queue is stopped. */
  predicate Quiet(s: State) {
    s.stopped && s.producer.Idle? && s.reaper.Asleep? && !s.irq && s.completed == s.kicked
  }

  predicate NoXmit(steps: seq<Step>) { forall i | 0 <= i < |steps| :: !steps[i].Xmit? }

  lemma QuietStays(s: State, step: Step)
    requires Quiet(s) && !step.Xmit?
    ensures Quiet(Next(s, step))
  {}

  /** A queue stopped with nothing going on stays so until it is given another packet, which
      is what being stopped forbids. */
  lemma {:induction false} QuietForGood(s: State, steps: seq<Step>)
    requires Quiet(s) && NoXmit(steps)
    ensures Quiet(Exec(s, steps))
    decreases |steps|
  {
    if steps != [] {
      QuietStays(s, steps[0]);
      QuietForGood(Next(s, steps[0]), steps[1..]);
    }
  }

  /** A packet that cannot leave a slot unused never fits, whatever the ring holds, and so
      nothing of it is ever written. */
  lemma OversizedIsNeverAccepted(s: State, k: nat)
    requires Reachable(s) && k >= s.n
    ensures WellFormed(s) && k > 0 && (Deciding(s.producer) || s.producer.Idle? ==> Busy(s, k))
    ensures s.producer.Filling? || s.producer.Ringing? ==> s.producer.r.k < s.n
  {
    ReachableInv(s);
    if Deciding(s.producer) || s.producer.Idle? { SpaceIsExact(s, k); }
  }

  /** Nothing is in flight and nobody is at work. */
  predicate Resting(s: State) {
    s.producer.Idle? && s.reaper.Asleep? && !s.irq && s.completed == s.kicked
  }

  /** When nothing is in flight, a packet ends up with the queue stopped for good exactly when
      it cannot leave a slot unused. */
  lemma OversizedPacketStopsForGood(s: State, r: Request, later: seq<Step>)
    requires Reachable(s) && Resting(s) && s.reaped == s.completed && Legal(r) && NoXmit(later)
    ensures WellFormed(s) && WellFormed(XmitNext(s, r))
    ensures var t := ProduceNext(XmitNext(s, r));
            if r.k < s.n then t.producer == Filling(r, 0)
            else if s.stopped then Quiet(Exec(t, later))
            else t.producer == Stopping(r) && Quiet(Exec(Next(Next(t, Produce), Produce), later))
  {
    ReachableInv(s);
    var e := XmitNext(s, r);
    ReachableNext(s, Xmit(r));
    ReachableInv(e);
    SpaceIsExact(e, r.k);
    var t := ProduceNext(e);
    if r.k >= s.n {
      if s.stopped {
        QuietForGood(t, later);
      } else {
        OversizedStops(e, t);
        QuietForGood(Next(Next(t, Produce), Produce), later);
      }
    }
  }

  lemma OversizedStops(e: State, t: State)
    requires Reachable(e) && e.producer.Entering? && e.producer.r.k >= e.n && !e.stopped
    requires WellFormed(e) && t == ProduceNext(e) && Resting(e.(producer := Idle))
    ensures t.producer == Stopping(e.producer.r) && Quiet(Next(Next(t, Produce), Produce))
  {
    OversizedIsNeverAccepted(e, e.producer.r.k);
    ReachableNext(e, Produce);
    ReachableNext(t, Produce);
    OversizedIsNeverAccepted(Next(t, Produce), e.producer.r.k);
  }

  /** After a reset a wake is still to come exactly unless the queue is stopped and neither
      the transmit path nor the handler is on its way. */
  lemma ResetLosesWakeIff(s: State)
    requires RingInv(s)
    ensures !WakeComes(ResetAnywhere(s)) <==> s.stopped && !s.producer.Rechecking? && s.reaper.Asleep?
    ensures WakeInv(s) && ResetHarmless(s) ==> (WakeInv(ResetAnywhere(s)) <==> Considerate(s, Reset))
  {}

  // ---- A reset that falls elsewhere ----

  lemma HandOverAfterReset(s: State)
    requires WellFormed(s) && s.producer.Ringing?
    ensures var r, t := s.producer.r, ResetAnywhere(s);
            var u := ProduceNext(t);
            && u.accepted == [Packet(r.skb, 0)] && u.bd == seq(s.n, _ => CLEAR) && u.kicked == 1
            && Frees(u) == Frees(t) && Ids(u) == Ids(t) + [r.skb]
  {
    SkbsOfOne(Packet(s.producer.r.skb, 0));
    hide Attached;
  }

  /** A packet in the middle of being handed over is freed by the reset and then accepted all
      the same, on a descriptor that has nothing to send. */
  lemma ResetDuringHandOver(s: State)
    requires RingInv(s) && s.producer.Ringing?
    ensures var r, u := s.producer.r, ProduceNext(ResetAnywhere(s));
            && u.accepted == [Packet(r.skb, 0)] && !u.bd[0].ready && u.kicked == 1 && r.skb in Frees(u)
            && multiset(Frees(u)) == multiset(Ids(u)) + FreedEarly(s)
  {
    HandsOverMore(s);
    HandOverAfterReset(s);
    ResetFrees(s);
    assert s.n > 0;
    hide RingInv, Attached, Skbs, FreedEarly, ResetAnywhere, ProduceNext, Frees, Ids;
    assert s.producer.r.skb in HandedOver(s);
    assert s.producer.r.skb in multiset(Frees(ResetAnywhere(s)));
  }

  /** In terms of runs: what has been freed twice by then. */
  lemma ResetFrees(s: State)
    requires RingInv(s)
    ensures s.n == |s.bd|
    ensures multiset(Frees(ResetAnywhere(s))) == multiset(Ids(ResetAnywhere(s))) + HandedOver(s) + FreedEarly(s)
  {
    ResetBalance(s);
    var t := ResetAnywhere(s);
    assert Frees(t) == t.oldFreed && Ids(t) == t.oldAccepted;
    hide RingInv, Attached, Skbs, FreedEarly, HandedOver, ResetAnywhere;
  }

  function StepsLeft(reaper: Reaper): nat {
    match reaper
    case Freeing(_) => 4
    case Clearing(_) => 3
    case Counting => 2
    case Wrapping => 1
    case _ => 0
  }

  /** The rest of a turn of the reaping loop. */
  function FinishTurn(s: State): State
    requires s.n == |s.bd|
    decreases StepsLeft(s.reaper)
  {
    match s.reaper
    case Freeing(_) => FinishTurn(ReapNext(s))
    case Clearing(_) => FinishTurn(ReapNext(s))
    case Counting => FinishTurn(ReapNext(s))
    case Wrapping => FinishTurn(ReapNext(s))
    case _ => s
  }

  /** A handler overtaken by a reset in the middle of a turn finishes the turn: it goes on at
      slot 1, while transmit path and hardware begin at slot 0. */
  lemma ResetDuringTurn(s: State)
    requires RingInv(s) && s.n > 1 && (Holds(s.reaper) || s.reaper.Counting?)
    ensures var u := FinishTurn(ResetAnywhere(s));
            u.reaper.Reading? && u.ci == 1 && u.tail == u.kicked == 0 && !RingInv(u)
  {
    var t := ResetAnywhere(s);
    if s.reaper.Freeing? { TurnStep(t); TurnStep(ReapNext(t)); TurnStep(ReapNext(ReapNext(t))); }
    if s.reaper.Clearing? { TurnStep(t); TurnStep(ReapNext(t)); }
  }

  lemma TurnStep(s: State)
    requires s.n == |s.bd| && (Holds(s.reaper) || s.reaper.Counting?)
    ensures FinishTurn(s) == FinishTurn(ReapNext(s))
    ensures var t := ReapNext(s);
            && t.n == s.n == |t.bd| && t.tail == s.tail && t.kicked == s.kicked && t.completed == s.completed
            && (!s.reaper.Counting? ==> t.ci == s.ci)
  {}

  lemma SkbsOfOne(x: Packet)
    ensures Skbs([x]) == [x.skb]
  {}

  /** Such a moment is reached by sending one packet. */
  lemma HandOverIsReachable(n: nat, r: Request) returns (s: State)
    requires 1 < n <= WORD && PowerOfTwo(n) && Legal(r) && r.k == 1
    ensures Reachable(s) && s.producer == Ringing(r) && !ResetHarmless(s)
    ensures s.n == n == |s.bd| && s.kicked == s.completed == s.filled == s.ci == 0
    ensures s.reaper.Asleep? && s.bd[0].skb == r.skb
  {
    InitInv(n);
    var s0 := Init(n);
    assert Exec(s0, []) == s0;
    var s1 := Next(s0, Xmit(r));
    ReachableNext(s0, Xmit(r));
    XmitKeeps(s0, r);
    SpaceIsExact(s1, 1);
    var s2 := Next(s1, Produce);
    ReachableNext(s1, Produce);
    var s3 := Next(s2, Produce);
    ReachableNext(s2, Produce);
    s := Next(s3, Produce);
    ReachableNext(s3, Produce);
  }

  lemma CompletionIsReachable(n: nat, r: Request) returns (s: State)
    requires 1 < n <= WORD && PowerOfTwo(n) && Legal(r) && r.k == 1
    ensures Reachable(s) && s.reaper.Reading? && s.n == n == |s.bd| && s.ci == 0
    ensures s.bd[0].complete && s.bd[0].skb == r.skb
  {
    var s0 := HandOverIsReachable(n, r);
    hide Reachable;
    var s1 := Next(s0, Produce);
    ReachableNext(s0, Produce);
    var s2 := Next(s1, Complete);
    ReachableNext(s1, Complete);
    s := Next(s2, Interrupt);
    ReachableNext(s2, Interrupt);
  }

  /** And such a turn by completing it: the handler then holds a complete status, and after
      one more step has freed the packet. */
  lemma TurnIsReachable(n: nat, r: Request) returns (s: State)
    requires 1 < n <= WORD && PowerOfTwo(n) && Legal(r) && r.k == 1
    ensures Reachable(s) && s.reaper == Freeing(0) && !ResetHarmless(s)
    ensures var t := Next(s, Reap); Reachable(t) && RingInv(t) && FreedEarly(t) == multiset{r.skb}
  {
    var s0 := CompletionIsReachable(n, r);
    hide Reachable, RingInv, ProduceNext, CompleteNext, XmitNext, ResetNext;
    var s1 := Next(s0, Reap);
    ReachableNext(s0, Reap);
    s := Next(s1, Reap);
    ReachableNext(s1, Reap);
    ReachableNext(s, Reap);
    ReachableInv(Next(s, Reap));
  }

  // ---- The driver's code, in place on the descriptor array ----

  lemma {:induction false} ExecSnoc(s: State, steps: seq<Step>, step: Step)
    ensures Exec(s, steps + [step]) == Next(Exec(s, steps), step)
    decreases |steps|
  {
    if steps == [] {
      assert ([] + [step])[1..] == [];
    } else {
      assert (steps + [step])[1..] == steps[1..] + [step];
      ExecSnoc(Next(s, steps[0]), steps[1..], step);
    }
  }

  lemma ReachableNext(s: State, step: Step)
    requires Reachable(s)
    ensures Reachable(Next(s, step)) && WellFormed(s) && WellFormed(Next(s, step)) && Next(s, step).n == s.n
  {
    var n, steps :| 0 < n <= WORD && PowerOfTwo(n) && s == Exec(Init(n), steps);
    ExecSnoc(Init(n), steps, step);
    ReachableInv(s);
    ReachableInv(Next(s, step));
    StepKeeps(s, step);
  }

  lemma ReadingHead(s: State)
    requires Reachable(s) && s.reaper.Looking?
    ensures 0 < s.n == |s.bd| && s.reaper.at == s.ci < s.n && (s.bd[s.ci].complete <==> s.reaped < s.completed)
    ensures s.reaped <= s.completed <= s.kicked
  {
    ReachableInv(s);
    ReadingMeans(s);
  }

  lemma HoldingHead(s: State)
    requires Reachable(s) && Holds(s.reaper)
    ensures s.reaper.at == s.ci < s.n == |s.bd| && s.reaped < s.completed
  {
    ReachableInv(s);
    OldestIsHeld(s);
  }

  lemma KickedBehind(s: State)
    requires Reachable(s) && s.producer.Filling? && s.producer.i == s.producer.r.k
    ensures s.kicked + s.producer.r.k == s.filled + 1
  {
    ReachableInv(s);
  }

  lemma CompletedKicked(s: State)
    requires Reachable(s)
    ensures s.completed <= s.kicked
  {
    ReachableInv(s);
  }

  /** `model` is the protocol state the queue is in, reached by the steps its code performs:
      `Valid` makes every theorem about reachable states one about this object. */
  class TxQueue {
    const bd: array<Bd>
    var ci: nat
    var tail: nat
    var stopped: bool
    /** The hardware's side: the positions it will complete next and may go up to. */
    var hwNext: nat
    var doorbell: nat
    ghost var model: State

    /** The fields are the model's. */
    ghost predicate Tied()
      reads this, bd
    {
      && model.n == bd.Length && model.bd == bd[..] && model.ci == ci && model.tail == tail && model.stopped == stopped
      && model.completed == hwNext && model.kicked == doorbell
    }

    ghost predicate Valid()
      reads this, bd
    {
      Tied() && Reachable(model) && WellFormed(model)
    }

    ghost method Move(step: Step)
      requires Reachable(model)
      modifies `model
      ensures model == Next(old(model), step)
      ensures Reachable(model) && WellFormed(old(model)) && WellFormed(model) && model.n == old(model).n
    {
      ReachableNext(model, step);
      model := Next(model, step);
    }

    constructor (n: nat)
      requires 0 < n <= WORD && PowerOfTwo(n)
      ensures Valid() && fresh(bd) && model == Init(n)
    {
      bd := new Bd[n](_ => CLEAR);
      ci, tail, stopped, hwNext, doorbell := 0, 0, false, 0, 0;
      model := Init(n);
      new;
      assert bd[..] == Init(n).bd;
      assert Exec(Init(n), []) == Init(n);
    }

    method CheckTxBdSpace(k: nat) returns (busy: bool)
      requires Valid() && 0 < k
      ensures busy == Busy(model, k)
    {
      if CircSpace(tail, ci, bd.Length) < k { return true; }
      var index := Idx(bd.Length, tail + (k - 1));
      if bd[index].complete { return true; }
      return false;
    }

    /** Without interference: the packet is accepted if it fits, else the queue is stopped. */
    method QueueXmit(r: Request) returns (ok: bool)
      requires Valid() && model.producer.Idle? && Legal(r)
      modifies this, bd
      ensures Valid() && model.producer.Idle? && ok == !old(Busy(model, r.k))
      ensures ok ==> model == old(model).(bd := model.bd, tail := model.tail, cur := model.cur,
                                         filled := old(model).filled + r.k, kicked := old(model).filled + r.k,
                                         accepted := old(model).accepted
                                                     + [Packet(r.skb, old(model).filled + (r.k - 1))])
      ensures !ok ==> model == old(model).(stopped := true, cur := model.cur)
    {
      hide Reachable;
      var cur := tail;
      Move(Xmit(r));
      ok := ReserveSpace(r);
      if ok { FillAndKick(r, cur); }
    }

    /** Looks for space, and looks again after stopping the queue. */
    method ReserveSpace(r: Request) returns (ok: bool)
      requires Valid() && model.producer == Entering(r) && Legal(r)
      modifies `stopped, `model
      ensures Valid() && ok == !old(Busy(model, r.k))
      ensures model == if ok then old(model).(producer := Filling(r, 0))
                       else old(model).(producer := Idle, stopped := true)
    {
      hide Reachable;
      var busy := CheckTxBdSpace(r.k);
      Move(Produce);
      if busy {
        if stopped { return false; }
        stopped := true;
        Move(Produce);
        busy := CheckTxBdSpace(r.k);
        Move(Produce);
        return false;
      }
      return true;
    }

    /** The next fragment takes the next descriptor. */
    method AddFragment(cur: nat) returns (next: nat)
      requires Valid() && model.producer.Filling? && 0 < model.producer.i < model.producer.r.k
      modifies `tail, `model, bd
      ensures Valid() && model == Next(old(model), Produce) && next == model.cur
    {
      Move(Produce);
      tail := tail + 1;
      if tail >= bd.Length { tail := 0; }
      next := tail;
      bd[next] := bd[next].(ready := true);
    }

    method FillAndKick(r: Request, first: nat)
      requires Valid() && model.producer == Filling(r, 0) && Legal(r) && first == model.cur
      modifies this, bd
      ensures Valid() && model == old(model).(bd := model.bd, tail := model.tail, cur := model.cur, producer := Idle,
                                         filled := old(model).filled + r.k, kicked := old(model).filled + r.k,
                                         accepted := old(model).accepted
                                                     + [Packet(r.skb, old(model).filled + (r.k - 1))])
    {
      hide Reachable;
      var cur := first;
      bd[cur] := bd[cur].(ready := true);
      Move(Produce);
      for i := 1 to r.k
        invariant Valid() && cur == model.cur
        invariant model == old(model).(bd := model.bd, tail := model.tail, cur := model.cur,
                                       filled := old(model).filled + (i - 1), producer := Filling(r, i))
      {
        cur := AddFragment(cur);
      }
      KickedBehind(model);
      HandOver(r, cur);
    }

    /** The last descriptor takes the skb, the doorbell is rung and the tail moves on. */
    method HandOver(r: Request, cur: nat)
      requires Valid() && model.producer == Filling(r, r.k) && model.kicked + r.k == model.filled + 1
      requires cur == model.cur
      modifies this, bd
      ensures Valid()
      ensures model == old(model).(bd := model.bd, tail := model.tail, producer := Idle,
                                   filled := old(model).filled + 1, kicked := old(model).filled + 1,
                                   accepted := old(model).accepted + [Packet(r.skb, old(model).filled)])
    {
      hide Reachable;
      bd[cur] := bd[cur].(skb := r.skb);
      Move(Produce);
      doorbell := doorbell + r.k;
      Move(Produce);
      Move(Produce);
      tail := tail + 1;
      if tail >= bd.Length { tail := 0; }
    }

    /** The hardware completes `count` descriptors, or as many as have been kicked. */
    method HardwareCompletes(count: nat)
      requires Valid()
      modifies `hwNext, `model, bd
      ensures Valid() && model == old(model).(bd := model.bd, completed := model.completed, irq := model.irq)
      ensures model.completed == if old(model).completed + count <= model.kicked then old(model).completed + count
                                 else model.kicked
      ensures model.irq == (old(model).irq || old(model).completed < model.completed)
    {
      CompletedKicked(model);
      hide Reachable;
      for k := 0 to count
        invariant Valid() && model == old(model).(bd := model.bd, completed := model.completed, irq := model.irq)
        invariant model.completed == if old(model).completed + k <= model.kicked then old(model).completed + k
                                     else model.kicked
        invariant model.irq == (old(model).irq || old(model).completed < model.completed)
      {
        if hwNext < doorbell {
          var i := Idx(bd.Length, hwNext);
          bd[i] := bd[i].(complete := true);
          hwNext := hwNext + 1;
          Move(Complete);
        }
      }
    }

    /** Freeing, clearing, counting and wrapping. */
    ghost method MoveTurn()
      requires Reachable(model) && WellFormed(model)
      requires model.reaper.Freeing? && model.reaper.at == model.ci < |model.bd|
      modifies `model
      ensures Reachable(model) && WellFormed(model)
      ensures var was := old(model);
              model == was.(bd := was.bd[was.ci := CLEAR], ci := Wrap(was.n, was.ci + 1), reaped := was.reaped + 1,
                            reaper := Reading,
                            freed := if was.bd[was.ci].skb != 0 then was.freed + [was.bd[was.ci].skb] else was.freed)
    {
      hide Reachable, XmitNext, ProduceNext, CompleteNext, ResetNext;
      Move(Reap);
      Move(Reap);
      Move(Reap);
      Move(Reap);
    }

    /** One turn of the reaping loop, on the descriptor whose status was read. */
    method ReapOne(at: nat) returns (freed: seq<nat>)
      requires Valid() && at < bd.Length && model.reaper == Freeing(at)
      modifies `ci, `model, bd
      ensures Valid() && freed == if old(bd[at].skb) != 0 then [old(bd[at].skb)] else []
      ensures model == old(model).(bd := old(model).bd[at := CLEAR], ci := Wrap(bd.Length, old(ci) + 1),
                                   reaped := old(model).reaped + 1, reaper := Reading,
                                   freed := old(model).freed + freed)
    {
      HoldingHead(model);
      hide Reachable, XmitNext, ProduceNext, ReapNext, CompleteNext, ResetNext, Idx;
      freed := if bd[at].skb != 0 then [bd[at].skb] else [];
      bd[at] := CLEAR;
      ci := ci + 1;
      if ci >= bd.Length { ci := 0; }
      MoveTurn();
    }

    /** Looks up the next descriptor and reads its status, after the hardware has tried to
        complete `hw` more. */
    method ReadStatus(hw: nat) returns (at: nat, status: bool)
      requires Valid() && model.reaper.Reading?
      modifies `hwNext, `model, bd
      ensures Valid() && at == ci < bd.Length
      ensures model == old(model).(reaper := if status then Freeing(at) else Waking,
                                   bd := model.bd, completed := model.completed, irq := model.irq)
      ensures model.completed == if old(model).completed + hw <= model.kicked then old(model).completed + hw
                                 else model.kicked
      ensures (status <==> model.reaped < model.completed) && model.reaped <= model.completed <= model.kicked
    {
      hide Reachable, XmitNext, ProduceNext, CompleteNext, ResetNext;
      at := ci;
      Move(Reap);
      HardwareCompletes(hw);
      ReadingHead(model);
      status := bd[at].complete;
      Move(Reap);
    }

    /** The reaping loop. Before its status reads the hardware completes more descriptors:
        `hw` says how many it tries to, read by read. */
    method ReapLoop(hw: seq<nat>) returns (freed: seq<nat>)
      requires Valid() && model.reaper.Reading?
      modifies `ci, `hwNext, `model, bd
      ensures Valid() && model == old(model).(bd := model.bd, ci := model.ci, reaped := model.reaped,
                                                completed := model.completed, irq := model.irq,
                                                freed := old(model).freed + freed, reaper := Waking)
      ensures old(model).completed <= model.completed == model.reaped <= model.kicked
    {
      CompletedKicked(model);
      hide Reachable, XmitNext, ProduceNext, CompleteNext, ResetNext, ReapNext;
      freed := [];
      var loads := 0;
      var at, status := ReadStatus(if |hw| > 0 then hw[0] else 0);
      while status
        invariant Valid() && at == ci < bd.Length
        invariant model == old(model).(bd := model.bd, ci := model.ci, reaped := model.reaped,
                                       completed := model.completed, irq := model.irq,
                                       freed := old(model).freed + freed,
                                       reaper := if status then Freeing(at) else Waking)
        invariant old(model).completed <= model.completed
        invariant (status <==> model.reaped < model.completed) && model.reaped <= model.completed <= model.kicked
        decreases model.kicked - model.reaped
      {
        var one := ReapOne(at);
        freed := freed + one;
        loads := loads + 1;
        at, status := ReadStatus(if loads < |hw| then hw[loads] else 0);
      }
    }

    /** The completion handler: everything completed at the last status read is reaped, in
        order, and the queue is woken. */
    method StartXmitDone(hw: seq<nat>) returns (freed: seq<nat>)
      requires Valid() && model.reaper.Asleep? && model.irq
      modifies this, bd
      ensures Valid() && model == old(model).(bd := model.bd, ci := model.ci, reaped := model.reaped,
                                                completed := model.completed, irq := model.irq,
                                                freed := old(model).freed + freed, stopped := false)
      ensures old(model).completed <= model.completed == model.reaped <= model.kicked
    {
      hide Reachable, XmitNext, ProduceNext, CompleteNext, ResetNext;
      Move(Interrupt);
      freed := ReapLoop(hw);
      Move(Reap);
      stopped := false;
      Move(Reap);
    }

    method ClearDescriptors() returns (freed: seq<nat>)
      modifies bd
      ensures freed == Attached(old(bd[..])) && bd[..] == seq(bd.Length, _ => CLEAR)
    {
      freed := [];
      ghost var was := bd[..];
      assert Attached(was[..0]) == [];
      hide Attached;
      for i := 0 to bd.Length
        invariant forall j | 0 <= j < i :: bd[j] == CLEAR
        invariant forall j | i <= j < bd.Length :: bd[j] == was[j]
        invariant freed == Attached(was[..i])
      {
        AttachedOneMore(was, i);
        if bd[i].skb != 0 { freed := freed + [bd[i].skb]; }
        bd[i] := CLEAR;
      }
      assert was[..bd.Length] == was;
    }

    lemma ModelMeans()
      requires Valid()
      ensures Reachable(model)
    {}

    method ClearRing() returns (freed: seq<nat>)
      requires Valid()
      modifies this, bd
      ensures Tied() && model == ResetAnywhere(old(model)) && freed == Attached(old(model).bd)
      ensures Reachable(model) && WellFormed(model) ==> Valid()
    {
      hide Reachable, Attached, Skbs, WellFormed;
      freed := ClearDescriptors();
      ci, tail, hwNext, doorbell := 0, 0, 0, 0;
      model := ResetAnywhere(model);
    }

    /** The ring part of the error handler, wherever the transmit path and the reaper are: the
        ring is in order again exactly at a harmless point, and elsewhere too much is freed. */
    method ResetRing() returns (freed: seq<nat>)
      requires Valid()
      modifies this, bd
      ensures Tied() && model == ResetAnywhere(old(model))
      ensures RingInv(model) <==> ResetHarmless(old(model))
      ensures ResetHarmless(old(model)) ==> Valid()
      ensures multiset(old(model).freed + freed)
           == multiset(Skbs(old(model).accepted)) + HandedOver(old(model)) + FreedEarly(old(model))
    {
      hide *;
      ModelMeans();
      ResetBreaksOrKeeps(model);
      freed := ClearRing();
    }
  }

  lemma ResetBreaksOrKeeps(s: State)
    requires Reachable(s)
    ensures RingInv(ResetAnywhere(s)) <==> ResetHarmless(s)
    ensures ResetHarmless(s) ==> Reachable(ResetAnywhere(s)) && WellFormed(ResetAnywhere(s))
    ensures s.n == |s.bd|
    ensures multiset(s.freed + Attached(s.bd)) == multiset(Skbs(s.accepted)) + HandedOver(s) + FreedEarly(s)
  {
    ReachableInv(s);
    ResetKeepsIff(s);
    ResetFreesTheRest(s);
    if ResetHarmless(s) { ReachableNext(s, Reset); }
    hide Reachable, RingInv, Attached, Skbs;
  }
}
