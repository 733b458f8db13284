// Giving EF10 receive buffers to the hardware (ef10.c): descriptors are written and the
// doorbell moves only in multiples of eight, on 32-bit counters that wrap.

module RxDoorbell {
  import opened RingIndex

  datatype Buffer = Buffer(len: nat, addr: nat)

  datatype Desc = Desc(byteCount: nat, bufAddr: nat)

  function DescOf(b: Buffer): Desc { Desc(b.len, b.addr) }

  /** Ring size, and the most buffers ever outstanding. */
  datatype Config = Config(n: nat, limit: nat)

  predicate Legal(cfg: Config) {
    PowerOfTwo(cfg.n) && cfg.n % 8 == 0 && cfg.n <= WORD && cfg.limit < cfg.n
  }

  /** Positions count up for ever: the driver has taken back the buffers below `removed`,
      the hardware has filled those below |used|, been told of those below `notified`, and
      `given` lists every buffer ever added. `used` lists the descriptors the hardware
      fetched, and `wptr` is the last doorbell value. */
  datatype State = State(removed: nat, notified: nat, given: seq<Buffer>, buf: seq<Buffer>,
                         desc: seq<Desc>, wptr: nat, used: seq<Desc>)

  datatype Step =
    | Add(b: Buffer)
    | Write
    | Fetch          // the hardware takes the next descriptor and fills its buffer
    | Remove(k: nat) // received packets free their buffers

  /** How far the hardware believes it may go, from its own position and the doorbell. */
  function View(n: nat, h: nat, wptr: nat): nat
    requires n > 0
  {
    h + Idx(n, wptr + n - Idx(n, h))
  }

  ghost predicate Shaped(cfg: Config, s: State) {
    cfg.n > 0 && |s.buf| == |s.desc| == cfg.n
  }

  ghost predicate Enabled(cfg: Config, s: State, step: Step)
    requires Shaped(cfg, s)
  {
    match step
    case Add(_) => |s.given| < s.removed + cfg.limit
    case Write => true
    case Fetch => |s.used| < View(cfg.n, |s.used|, s.wptr)
    case Remove(k) => s.removed + k <= |s.used|
  }

  /** Descriptors for the positions [from, to), each from the buffer in its slot. */
  function Fill(n: nat, desc: seq<Desc>, buf: seq<Buffer>, from: nat, to: nat): (r: seq<Desc>)
    requires n > 0 && |desc| == |buf| == n && from <= to
    ensures |r| == n
    decreases if from <= to then to - from else 0
  {
    if from == to then desc
    else Fill(n, desc[Idx(n, from) := DescOf(buf[Idx(n, from)])], buf, from + 1, to)
  }

  function RoundDown(a: nat): (w: nat)
    ensures w <= a < w + 8 && w % 8 == 0
  {
    a - a % 8
  }

  ghost function Next(cfg: Config, s: State, step: Step): State
    requires Shaped(cfg, s) && Enabled(cfg, s, step)
  {
    match step
    case Add(b) => s.(given := s.given + [b], buf := s.buf[Idx(cfg.n, |s.given|) := b])
    case Write =>
      var w := RoundDown(|s.given|);
      if w < s.notified then s
      else s.(notified := w, desc := Fill(cfg.n, s.desc, s.buf, s.notified, w), wptr := Idx(cfg.n, w))
    case Fetch => s.(used := s.used + [s.desc[Idx(cfg.n, |s.used|)]])
    case Remove(k) => s.(removed := s.removed + k)
  }

  /** Slots of the positions [from, to) hold the buffers given for those positions. */
  ghost predicate Buffered(n: nat, buf: seq<Buffer>, given: seq<Buffer>, from: nat, to: nat) {
    n > 0 && |buf| == n && to <= |given| && forall p | from <= p < to :: buf[Idx(n, p)] == given[p]
  }

  ghost predicate Described(n: nat, desc: seq<Desc>, given: seq<Buffer>, from: nat, to: nat) {
    n > 0 && |desc| == n && to <= |given| && forall p | from <= p < to :: desc[Idx(n, p)] == DescOf(given[p])
  }

  ghost predicate InOrder(used: seq<Desc>, given: seq<Buffer>) {
    |used| <= |given| && forall p | 0 <= p < |used| :: used[p] == DescOf(given[p])
  }

  ghost predicate Inv(cfg: Config, s: State) {
    && Shaped(cfg, s)
    && s.removed <= |s.used| <= s.notified <= |s.given| <= s.removed + cfg.limit
    && s.notified % 8 == 0 && s.wptr == Idx(cfg.n, s.notified) && s.wptr % 8 == 0
    && Buffered(cfg.n, s.buf, s.given, s.removed, |s.given|)
    && Described(cfg.n, s.desc, s.given, s.removed, s.notified)
    && InOrder(s.used, s.given)
  }

  lemma AddKeepsBuffers(n: nat, buf: seq<Buffer>, given: seq<Buffer>, from: nat, b: Buffer)
    requires Buffered(n, buf, given, from, |given|) && from <= |given| < from + n
    ensures Buffered(n, buf[Idx(n, |given|) := b], given + [b], from, |given| + 1)
  {
    forall p | from <= p < |given| ensures Idx(n, p) != Idx(n, |given|) {
      IdxDistinct(n, p, |given|);
    }
  }

  /** The fill loop keeps the descriptors it does not write and describes the rest. */
  lemma {:induction false} FillDescribes(n: nat, desc: seq<Desc>, buf: seq<Buffer>, given: seq<Buffer>,
                                         low: nat, from: nat, to: nat)
    requires Buffered(n, buf, given, low, |given|) && Described(n, desc, given, low, from)
    requires low <= from <= to <= |given| < low + n
    ensures Described(n, Fill(n, desc, buf, from, to), given, low, to)
    decreases if from <= to then to - from else 0
  {
    if from < to {
      forall p | low <= p < from ensures Idx(n, p) != Idx(n, from) {
        IdxDistinct(n, p, from);
      }
      FillDescribes(n, desc[Idx(n, from) := DescOf(buf[Idx(n, from)])], buf, given, low, from + 1, to);
    }
  }

  lemma {:induction false} SlotOfMultiple(n: nat, p: nat)
    requires n > 0 && n % 8 == 0 && p % 8 == 0
    ensures Idx(n, p) % 8 == 0
  {
    if p >= n { SlotOfMultiple(n, p - n); }
  }

  /** The hardware recovers the full position from the doorbell's ring index: it never
      takes a full ring for an empty one. */
  lemma ViewIsExact(cfg: Config, s: State)
    requires Legal(cfg) && Inv(cfg, s)
    ensures View(cfg.n, |s.used|, s.wptr) == s.notified
  {
    hide Buffered, Described, InOrder;
    var n, h, d := cfg.n, |s.used|, s.notified - |s.used|;
    IdxAdd(n, h, d);
    var i := Idx(n, h);
    if i + d >= n { IdxLap(n, i + d - n); assert s.wptr == i + d - n; } else { IdxLap(n, d); }
  }

  lemma WriteKeeps(cfg: Config, s: State)
    requires Legal(cfg) && Inv(cfg, s)
    ensures Inv(cfg, Next(cfg, s, Write))
    ensures |s.given| - Next(cfg, s, Write).notified < 8
    ensures s.notified <= RoundDown(|s.given|)
  {
    hide Buffered, Described, InOrder, Idx, Fill;
    FillDescribes(cfg.n, s.desc, s.buf, s.given, s.removed, s.notified, RoundDown(|s.given|));
    SlotOfMultiple(cfg.n, RoundDown(|s.given|));
  }

  lemma StepKeeps(cfg: Config, s: State, step: Step)
    requires Legal(cfg) && Inv(cfg, s) && Enabled(cfg, s, step)
    ensures Inv(cfg, Next(cfg, s, step))
  {
    hide Idx, View, Fill;
    match step
    case Add(b) => AddKeepsBuffers(cfg.n, s.buf, s.given, s.removed, b);
    case Write => WriteKeeps(cfg, s);
    case Fetch => ViewIsExact(cfg, s);
    case Remove(k) =>
  }

  // ---- Runs ----

  ghost predicate Init(cfg: Config, s: State) {
    Shaped(cfg, s) && s.removed == s.notified == s.wptr == 0 && s.given == [] && s.used == []
  }

  ghost predicate Executable(cfg: Config, s: State, steps: seq<Step>)
    decreases |steps|
  {
    steps == [] || (Shaped(cfg, s) && Enabled(cfg, s, steps[0]) && Executable(cfg, Next(cfg, s, steps[0]), steps[1..]))
  }

  ghost function Exec(cfg: Config, s: State, steps: seq<Step>): State
    requires Executable(cfg, s, steps)
    decreases |steps|
  {
    if steps == [] then s else Exec(cfg, Next(cfg, s, steps[0]), steps[1..])
  }

  lemma {:induction false} RunKeeps(cfg: Config, s: State, steps: seq<Step>)
    requires Legal(cfg) && Inv(cfg, s) && Executable(cfg, s, steps)
    ensures Inv(cfg, Exec(cfg, s, steps))
    decreases |steps|
  {
    hide Inv, Next, Enabled;
    if steps != [] {
      StepKeeps(cfg, s, steps[0]);
      RunKeeps(cfg, Next(cfg, s, steps[0]), steps[1..]);
    }
  }

  /** However adding, ringing, completion and removal interleave, the hardware fills the
      buffers in the order they were added, each through its own descriptor, and every
      doorbell value is a multiple of eight. */
  lemma HardwareUsesBuffersInOrder(cfg: Config, s: State, steps: seq<Step>)
    requires Legal(cfg) && Init(cfg, s) && Executable(cfg, s, steps)
    ensures var end := Exec(cfg, s, steps);
            && |end.used| <= |end.given| && end.wptr % 8 == 0
            && forall p | 0 <= p < |end.used| ::
                 end.used[p].byteCount == end.given[p].len && end.used[p].bufAddr == end.given[p].addr
  {
    assert Idx(cfg.n, 0) == 0;
    RunKeeps(cfg, s, steps);
  }

  /** The descriptors outstanding tell the hardware length and address of their buffers. */
  ghost predicate Told(n: nat, desc: seq<Desc>, given: seq<Buffer>, from: nat, to: nat) {
    && n > 0 && |desc| == n && to <= |given|
    && forall p | from <= p < to ::
         desc[Idx(n, p)].byteCount == given[p].len && desc[Idx(n, p)].bufAddr == given[p].addr
  }

  lemma OutstandingAreTold(cfg: Config, s: State)
    requires Inv(cfg, s)
    ensures Told(cfg.n, s.desc, s.given, s.removed, s.notified)
  {}

  /** Ringing again without new buffers changes nothing at all. */
  lemma RingingTwiceIsOnce(cfg: Config, s: State)
    requires Legal(cfg) && Inv(cfg, s)
    ensures var once := Next(cfg, s, Write); Next(cfg, once, Write) == once
  {
    hide Buffered, Described, InOrder, Idx;
    WriteKeeps(cfg, s);
    var once := Next(cfg, s, Write);
    assert Fill(cfg.n, once.desc, once.buf, once.notified, once.notified) == once.desc;
  }

  // ---- 32-bit counters ----

  /** `x & ~7` on an unsigned 32-bit number. */
  function MaskLow3(x: nat): nat
    requires x < WORD
  {
    And(x, WORD - 8)
  }

  lemma MaskLow3Rounds(x: nat)
    requires x < WORD
    ensures MaskLow3(x) == RoundDown(x)
  {
    var y := x / 8;
    assert And(x, WORD - 8) == 2 * And(x / 2, 0x7fff_fffc);
    assert And(x / 2, 0x7fff_fffc) == 2 * And(x / 2 / 2, 0x3fff_fffe);
    assert And(x / 2 / 2, 0x3fff_fffe) == 2 * And(x / 2 / 2 / 2, 0x1fff_ffff);
    assert x / 2 / 2 / 2 == y;
    PowerOfTwo29();
    MaskIsRemainder(y, 0x2000_0000);
    assert Idx(0x2000_0000, y) == y;
  }

  lemma PowerOfTwo29()
    ensures PowerOfTwo(0x2000_0000)
  {
    assert AllOnes(0x1f);
    assert AllOnes(0x1fff);
    assert AllOnes(0x1f_ffff);
    assert AllOnes(0x1fff_ffff);
  }

  lemma {:induction false} RemainderOfCounter(p: nat)
    ensures Idx(WORD, p) % 8 == p % 8
  {
    if p >= WORD { RemainderOfCounter(p - WORD); }
  }

  /** Rounding the wrapped counter rounds the position. */
  lemma RoundedCounter(p: nat)
    ensures MaskLow3(Idx(WORD, p)) == Idx(WORD, RoundDown(p))
  {
    hide And;
    var r := p % 8;
    MaskLow3Rounds(Idx(WORD, p));
    RemainderOfCounter(p);
    IdxAdd(WORD, RoundDown(p), r);
    var i := Idx(WORD, RoundDown(p));
    RemainderOfCounter(RoundDown(p));
    assert i % 8 == 0 && i + r < WORD;
  }

  lemma CounterSlot(n: nat, p: nat)
    requires PowerOfTwo(n) && n <= WORD
    ensures And(Idx(WORD, p), n - 1) == Idx(n, p)
  {
    MaskIsRemainder(Idx(WORD, p), n);
    WordIsPowerOfTwo();
    WordIsWholeLaps(n, WORD, 0);
    IdxOfIdx(WORD, n, p);
  }

  function Increment(x: nat): nat
    requires x < WORD
  {
    if x + 1 == WORD then 0 else x + 1
  }

  // ---- The queue object ----

  class RxRing {
    const cfg: Config
    const buf: array<Buffer>
    const desc: array<Desc>
    var addedCount: nat
    var notifiedCount: nat
    var removedCount: nat
    var wptr: nat
    ghost var model: State

    ghost predicate Valid()
      reads this, buf, desc
    {
      && Legal(cfg) && Inv(cfg, model)
      && buf[..] == model.buf && desc[..] == model.desc
      && addedCount == Idx(WORD, |model.given|) && notifiedCount == Idx(WORD, model.notified)
      && removedCount == Idx(WORD, model.removed) && wptr == model.wptr
    }

    constructor (cfg: Config)
      requires Legal(cfg)
      ensures Valid() && fresh(buf) && fresh(desc) && this.cfg == cfg && Init(cfg, model)
    {
      var b := new Buffer[cfg.n](_ => Buffer(0, 0));
      var d := new Desc[cfg.n](_ => Desc(0, 0));
      this.cfg, buf, desc := cfg, b, d;
      addedCount, notifiedCount, removedCount, wptr := 0, 0, 0, 0;
      model := State(0, 0, [], b[..], d[..], 0, []);
      assert Idx(cfg.n, 0) == Idx(WORD, 0) == 0;
    }

    /** A buffer is placed in the slot after the last one added. */
    method AddBuffer(b: Buffer)
      requires Valid() && Enabled(cfg, model, Add(b))
      modifies this, buf
      ensures Valid() && model == Next(cfg, old(model), Add(b))
    {
      hide Idx, And, Inv;
      CounterSlot(cfg.n, |model.given|);
      IdxNext(WORD, |model.given|);
      StepKeeps(cfg, model, Add(b));
      assert Shaped(cfg, model) by { assert Inv(cfg, model); ShapedByInv(cfg, model); }
      buf[And(addedCount, cfg.n - 1)] := b;
      addedCount := Increment(addedCount);
      model := Next(cfg, model, Add(b));
    }

    /** The unconditional write, also used to ring the doorbell again: the loop compares
        wrapped counters, ends, and leaves the ring in the state the step describes. */
    method WriteAlways()
      requires Valid()
      modifies this, desc
      ensures Valid() && model == Next(cfg, old(model), Write)
      ensures |model.given| - model.notified < 8
      ensures Told(cfg.n, desc[..], model.given, model.removed, model.notified)
    {
      hide Idx, And, Inv, Fill, RoundDown, MaskLow3, Told;
      ShapedByInv(cfg, model);
      WriteKeeps(cfg, model);
      RoundedCounter(|model.given|);
      ghost var n, w := cfg.n, RoundDown(|model.given|);
      ghost var p := model.notified;
      var notified := notifiedCount;
      var writeCount := MaskLow3(addedCount);
      LoopEnds(cfg, model, p);
      while notified != writeCount
        invariant model == old(model) && model.notified <= p <= w
        invariant notified == Idx(WORD, p) < WORD && writeCount == Idx(WORD, w)
        invariant (notified == writeCount) == (p == w)
        invariant |desc[..]| == n
        invariant Fill(n, desc[..], buf[..], p, w) == Fill(n, model.desc, model.buf, model.notified, w)
        modifies desc
        decreases w - p
      {
        CounterSlot(n, p);
        ghost var was := desc[..];
        BuildRxDesc(And(notified, cfg.n - 1));
        FillFirst(n, was, buf[..], p, w);
        IdxNext(WORD, p);
        notified := Increment(notified);
        p := p + 1;
        LoopEnds(cfg, model, p);
      }
      FillNone(n, desc[..], buf[..], w);
      CounterSlot(n, w);
      wptr := And(writeCount, cfg.n - 1);
      notifiedCount := notified;
      model := Next(cfg, model, Write);
      OutstandingAreTold(cfg, model);
    }

    method BuildRxDesc(index: nat)
      requires index < buf.Length == desc.Length
      modifies desc
      ensures desc[..] == old(desc[..])[index := Desc(buf[index].len, buf[index].addr)]
    {
      desc[index] := Desc(buf[index].len, buf[index].addr);
    }

    /** The usual entry point skips a write that would do nothing. */
    method RxWrite()
      requires Valid()
      modifies this, desc
      ensures Valid() && model == Next(cfg, old(model), Write)
      ensures |model.given| - model.notified < 8
      ensures Told(cfg.n, desc[..], model.given, model.removed, model.notified)
    {
      hide Idx, And, Inv, Fill, RoundDown, MaskLow3, Told;
      ShapedByInv(cfg, model);
      WriteKeeps(cfg, model);
      RoundedCounter(|model.given|);
      LoopEnds(cfg, model, model.notified);
      if notifiedCount == MaskLow3(addedCount) {
        FillNone(cfg.n, model.desc, model.buf, model.notified);
        OutstandingAreTold(cfg, model);
        return;
      }
      WriteAlways();
    }

    /** Received packets free the buffers the hardware has filled. */
    method RemoveBuffers(k: nat)
      requires Valid() && Enabled(cfg, model, Remove(k))
      modifies this`removedCount, this`model
      ensures Valid() && model == Next(cfg, old(model), Remove(k))
    {
      hide Idx, Buffered, Described, InOrder;
      IdxAdd(WORD, model.removed, k);
      if removedCount + k >= WORD { IdxLap(WORD, removedCount + k - WORD); }
      StepKeeps(cfg, model, Remove(k));
      CounterSmall(removedCount + k);
      removedCount := if removedCount + k >= WORD then removedCount + k - WORD else removedCount + k;
      model := Next(cfg, model, Remove(k));
    }
  }

  lemma CounterSmall(x: nat)
    requires x < 2 * WORD
    ensures Idx(WORD, x) == if x >= WORD then x - WORD else x
  {}

  lemma ShapedByInv(cfg: Config, s: State)
    requires Inv(cfg, s)
    ensures Shaped(cfg, s) && s.wptr == Idx(cfg.n, s.notified)
  {}

  lemma FillFirst(n: nat, desc: seq<Desc>, buf: seq<Buffer>, from: nat, to: nat)
    requires n > 0 && |desc| == |buf| == n && from < to
    ensures Fill(n, desc, buf, from, to) == Fill(n, desc[Idx(n, from) := DescOf(buf[Idx(n, from)])], buf, from + 1, to)
  {
    hide Idx;
  }

  lemma FillNone(n: nat, desc: seq<Desc>, buf: seq<Buffer>, from: nat)
    requires n > 0 && |desc| == |buf| == n
    ensures Fill(n, desc, buf, from, from) == desc
  {}

  /** Equal wrapped counters mean equal positions while filling. */
  lemma LoopEnds(cfg: Config, s: State, p: nat)
    requires Legal(cfg) && Inv(cfg, s) && s.notified <= p <= RoundDown(|s.given|)
    ensures (Idx(WORD, p) == Idx(WORD, RoundDown(|s.given|))) == (p == RoundDown(|s.given|))
  {
    hide Buffered, Described, InOrder, Idx;
    if p < RoundDown(|s.given|) { IdxDistinct(WORD, p, RoundDown(|s.given|)); }
  }
}
