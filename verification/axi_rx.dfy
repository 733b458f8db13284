// The AXI DMA receive ring (xilinx_axienet_main.c, xilinx_axienet_dma.c): the hardware
// fills descriptors' buffers while the poll routine hands them up and replaces them.

module AxiRx {
  import opened RingIndex
  import opened Wrappers

  type Frame = seq<int>

  /** A descriptor: the buffer it owns, whether it has completed, and the frame's length. */
  datatype Bd = Bd(skb: nat, complete: bool, len: nat)

  /** Positions restart at zero with every error reset. `ci` is the next position to
      process, `frames` what the hardware wrote since the reset, `limit` the position at
      which it stops. Buffers are numbered as they are allocated, `mem` is their
      content, `handed` lists those given to the network stack, `passed` the frames they
      then held, of which the first `epoch` belong to earlier resets. `poller` is where the
      poll routine is, `pending` the tail that it is going to write. */
  datatype State = State(bd: seq<Bd>, ci: nat, limit: nat, frames: seq<Frame>, next: nat,
                         mem: map<nat, Frame>, handed: seq<nat>, passed: seq<Frame>, epoch: nat,
                         poller: Poller, pending: Option<Tail>)

  /** The slot the poll took last; not `current` if there was a reset since. */
  datatype Tail = Tail(slot: nat, current: bool)

  datatype Poller =
    | Idle
    | Looking(at: nat)  // has looked up the descriptor at `ci`
    | Seen(at: nat)     // its status says complete
    | Held(at: nat)     // there is a new buffer, and the tail is noted
    | Handed(at: nat)   // its buffer is handed up, the new one is not in yet
    | Refilled          // it is, and `ci` not moved

  datatype Step =
    | Complete(f: Frame)                           // the hardware fills the next descriptor
    | Look | See | Take | HandUp | Refill | Count  // one turn of the receive loop
    | WriteTail                                    // the driver lets the hardware have what it replaced
    | Leave                                        // or leaves, having replaced nothing
    | Reset                                        // the error handler, between any two other steps

  function Skbs(bd: seq<Bd>): (r: seq<nat>)
    ensures |r| == |bd|
  {
    seq(|bd|, i requires 0 <= i < |bd| => bd[i].skb)
  }

  /** The first `n` buffers. */
  function Ids(n: nat): (r: set<nat>)
    ensures forall b: nat :: b in r <==> b < n
  {
    if n == 0 then {} else Ids(n - 1) + {n - 1}
  }

  function Contents(mem: map<nat, Frame>, d: Bd): Frame {
    if d.skb in mem && d.len <= |mem[d.skb]| then mem[d.skb][..d.len] else []
  }

  /** Where the hardware, at position `at`, stops when told that slot `tail` is the last. */
  function Stop(n: nat, at: nat, tail: nat): nat
    requires n > 0
  {
    at + Idx(n, tail + n - Idx(n, at)) + 1
  }

  /** The loop may be left: the status is not complete, or the budget or memory is used up. */
  predicate Between(poller: Poller) { poller.Idle? || poller.Looking? || poller.Seen? }

  predicate Enabled(s: State, step: Step)
    requires s.bd != []
  {
    match step
    case Complete(_) => |s.frames| < s.limit
    case Look => s.poller.Idle?
    case See => s.poller.Looking? && s.poller.at < |s.bd| && s.bd[s.poller.at].complete
    case Take => s.poller.Seen?
    case HandUp => s.poller.Held? && s.poller.at < |s.bd|
    case Refill => s.poller.Handed? && s.poller.at < |s.bd|
    case Count => s.poller.Refilled?
    case WriteTail => Between(s.poller) && s.pending.Some?
    case Leave => Between(s.poller) && s.pending.None?
    case Reset => true
  }

  function Cleared(bd: seq<Bd>): (r: seq<Bd>)
    ensures |r| == |bd|
  {
    seq(|bd|, i requires 0 <= i < |bd| => bd[i].(complete := false, len := 0))
  }

  function Next(s: State, step: Step): State
    requires s.bd != [] && Enabled(s, step)
  {
    var n := |s.bd|;
    match step
    case Complete(f) =>
      var i := Idx(n, |s.frames|);
      s.(bd := s.bd[i := s.bd[i].(complete := true, len := |f|)],
         mem := s.mem[s.bd[i].skb := f], frames := s.frames + [f])
    case Look => s.(poller := Looking(Idx(n, s.ci)))
    case See => s.(poller := Seen(s.poller.at))
    case Take => s.(poller := Held(s.poller.at), pending := Some(Tail(Idx(n, s.ci), true)))
    case HandUp =>
      var d := s.bd[s.poller.at];
      s.(poller := Handed(s.poller.at), handed := s.handed + [d.skb], passed := s.passed + [Contents(s.mem, d)])
    case Refill => s.(bd := s.bd[s.poller.at := Bd(s.next, false, 0)], next := s.next + 1, poller := Refilled)
    case Count => s.(ci := s.ci + 1, poller := Idle)
    case WriteTail => s.(limit := Stop(n, |s.frames|, s.pending.value.slot), pending := None, poller := Idle)
    case Leave => s.(poller := Idle)
    case Reset =>
      s.(bd := Cleared(s.bd), ci := 0, limit := n, frames := [], epoch := |s.passed|,
         pending := if s.pending.Some? then Some(s.pending.value.(current := false)) else None)
  }

  // ---- The invariant ----

  /** Every buffer ever allocated is owned exactly once: by one descriptor or by the stack. */
  ghost predicate Conserved(bd: seq<Bd>, handed: seq<nat>, next: nat) {
    multiset(Skbs(bd)) + multiset(handed) == multiset(Ids(next))
  }

  /** Completed descriptors are exactly those from `ci` to where the hardware is, and each
      leads to its frame. */
  ghost predicate Progress(bd: seq<Bd>, ci: nat, frames: seq<Frame>, mem: map<nat, Frame>) {
    && bd != [] && ci <= |frames| <= ci + |bd|
    && (forall p | ci <= p < |frames| ::
          var d := bd[Idx(|bd|, p)];
          d.complete && d.skb in mem && mem[d.skb] == frames[p] && d.len == |frames[p]|)
    && (forall p | |frames| <= p < ci + |bd| :: !bd[Idx(|bd|, p)].complete)
  }

  /** The stack's buffers still hold what they held when they were handed up. */
  ghost predicate Kept(mem: map<nat, Frame>, handed: seq<nat>, passed: seq<Frame>) {
    |handed| == |passed| && forall j | 0 <= j < |handed| :: handed[j] in mem && mem[handed[j]] == passed[j]
  }

  predicate MidTurn(poller: Poller) { !Between(poller) }

  /** Between turns a current tail is the slot before `ci`; a stale one was taken before the
      reset, and nothing has been taken since. */
  ghost predicate TailOk(pending: Option<Tail>, poller: Poller, n: nat, ci: nat, limit: nat)
    requires n > 0
  {
    if MidTurn(poller) then pending == Some(Tail(Idx(n, ci), true))
    else
      pending.Some? ==>
        && pending.value.slot < n
        && (if pending.value.current then pending.value.slot == Idx(n, ci + n - 1) && limit < ci + n
            else ci == 0 && limit == n)
  }

  ghost predicate PollerOk(s: State)
    requires s.bd != []
  {
    match s.poller
    case Looking(at) => at == Idx(|s.bd|, s.ci)
    case Seen(at) => at == Idx(|s.bd|, s.ci) && s.ci < |s.frames|
    case Held(at) => at == Idx(|s.bd|, s.ci) && s.ci < |s.frames|
    case Handed(at) =>
      && at == Idx(|s.bd|, s.ci) && s.bd[at].complete
      && s.handed != [] && s.handed[|s.handed| - 1] == s.bd[at].skb
    case _ => true
  }

  /** What becomes of the state if the turn is finished without more ado, once a buffer has
      been handed up. */
  function Settled(s: State): State {
    match s.poller
    case Handed(at) =>
      s.(bd := if at < |s.bd| then s.bd[at := Bd(s.next, false, 0)] else s.bd,
         next := s.next + 1, ci := s.ci + 1, poller := Idle)
    case Refilled => s.(ci := s.ci + 1, poller := Idle)
    case _ => s.(poller := Idle)
  }

  /** What holds between turns. */
  ghost predicate Core(s: State) {
    && Conserved(s.bd, s.handed, s.next)
    && Progress(s.bd, s.ci, s.frames, s.mem)
    && |s.frames| <= s.limit <= s.ci + |s.bd|
    && Kept(s.mem, s.handed, s.passed)
    && s.epoch <= |s.passed| && s.passed[s.epoch..] == s.frames[..s.ci]
  }

  ghost predicate Inv(s: State) {
    && s.bd != [] && s.limit <= s.ci + |s.bd| && Core(Settled(s)) && PollerOk(s)
    && TailOk(s.pending, s.poller, |s.bd|, s.ci, s.limit)
  }

  lemma OwnedOnce(bd: seq<Bd>, handed: seq<nat>, next: nat, i: nat, j: nat)
    requires Conserved(bd, handed, next) && i < |bd| && j < |bd| && i != j
    ensures bd[i].skb != bd[j].skb
  {
    var s := Skbs(bd);
    var lo, hi := if i < j then i else j, if i < j then j else i;
    assert s == s[..hi] + s[hi..];
    assert s[lo] == s[..hi][lo] && s[hi] == s[hi..][0];
    assert multiset(s) == multiset(s[..hi]) + multiset(s[hi..]);
    if s[lo] == s[hi] {
      assert multiset(s)[s[lo]] >= 2;
      assert multiset(Ids(next))[s[lo]] >= 2;
    }
  }

  lemma OwnedByDescriptor(bd: seq<Bd>, handed: seq<nat>, next: nat, i: nat)
    requires Conserved(bd, handed, next) && i < |bd|
    ensures bd[i].skb !in handed && bd[i].skb < next
  {
    var s := Skbs(bd);
    assert s[i] in multiset(s);
    assert bd[i].skb in multiset(Ids(next));
  }

  lemma CompleteProgress(bd: seq<Bd>, ci: nat, frames: seq<Frame>, mem: map<nat, Frame>, f: Frame, i: nat, d: Bd)
    requires Progress(bd, ci, frames, mem) && |frames| < ci + |bd| && i == Idx(|bd|, |frames|)
    requires forall j | 0 <= j < |bd| && j != i :: bd[j].skb != bd[i].skb
    requires d == bd[i].(complete := true, len := |f|)
    ensures Progress(bd[i := d], ci, frames + [f], mem[d.skb := f])
  {
    forall p | ci <= p < ci + |bd| && p != |frames| ensures Idx(|bd|, p) != i {
      if p < |frames| { IdxDistinct(|bd|, p, |frames|); } else { IdxDistinct(|bd|, |frames|, p); }
    }
  }

  lemma CoreFillsOnlyFree(s: State)
    requires Core(s) && |s.frames| < s.limit
    ensures var d := s.bd[Idx(|s.bd|, |s.frames|)];
            && !d.complete && d.skb !in s.handed
            && (forall j | 0 <= j < |s.bd| && j != Idx(|s.bd|, |s.frames|) :: s.bd[j].skb != d.skb)
  {
    hide Kept;
    var i := Idx(|s.bd|, |s.frames|);
    OwnedByDescriptor(s.bd, s.handed, s.next, i);
    forall j: nat | j < |s.bd| && j != i ensures s.bd[j].skb != s.bd[i].skb {
      OwnedOnce(s.bd, s.handed, s.next, i, j);
    }
  }

  /** The poll routine's descriptor is not the one that the hardware fills next. */
  lemma NotTheHandedOne(s: State)
    requires Inv(s) && s.poller.Handed? && |s.frames| < s.limit
    ensures s.poller.at < |s.bd| && s.poller.at != Idx(|s.bd|, |s.frames|)
    ensures s.bd[s.poller.at].skb in s.handed
  {
    hide Conserved, Kept;
    assert s.ci < |s.frames|;
    IdxDistinct(|s.bd|, s.ci, |s.frames|);
  }

  /** The hardware never fills a descriptor that is still unprocessed, nor a buffer that
      the stack or another descriptor owns. */
  lemma HardwareFillsOnlyFree(s: State, f: Frame)
    requires Inv(s) && Enabled(s, Complete(f))
    ensures var d := s.bd[Idx(|s.bd|, |s.frames|)];
            && !d.complete && d.skb !in s.handed
            && (forall j | 0 <= j < |s.bd| && j != Idx(|s.bd|, |s.frames|) :: s.bd[j].skb != d.skb)
  {
    CoreFillsOnlyFree(Settled(s));
    if s.poller.Handed? { NotTheHandedOne(s); }
    hide Core, Idx;
    assert forall j | 0 <= j < |s.bd| :: Settled(s).bd[j] == s.bd[j] || (s.poller.Handed? && j == s.poller.at);
  }

  lemma CoreCompleteKeeps(s: State, f: Frame)
    requires Core(s) && |s.frames| < s.limit
    ensures s.bd != [] && Core(Next(s, Complete(f)))
  {
    hide Idx;
    var i := Idx(|s.bd|, |s.frames|);
    var s' := Next(s, Complete(f));
    CoreFillsOnlyFree(s);
    assert Skbs(s'.bd) == Skbs(s.bd);
    CompleteProgress(s.bd, s.ci, s.frames, s.mem, f, i, s'.bd[i]);
  }

  /** Filling a descriptor and finishing the turn commute. */
  lemma CompleteCommutes(s: State, f: Frame)
    requires s.bd != [] && |s.frames| < s.limit
    requires s.poller.Handed? ==> s.poller.at < |s.bd| && s.poller.at != Idx(|s.bd|, |s.frames|)
    ensures Settled(s).bd != [] && Settled(Next(s, Complete(f))) == Next(Settled(s), Complete(f))
  {
    hide Idx;
    if s.poller.Handed? {
      assert Settled(Next(s, Complete(f))).bd == Next(Settled(s), Complete(f)).bd;
    }
  }

  lemma CompleteKeepsPoller(s: State, f: Frame)
    requires Inv(s) && Enabled(s, Complete(f))
    requires s.poller.Handed? ==> s.poller.at < |s.bd| && s.poller.at != Idx(|s.bd|, |s.frames|)
    ensures var t := Next(s, Complete(f));
            t.bd != [] && PollerOk(t) && TailOk(t.pending, t.poller, |t.bd|, t.ci, t.limit)
  {
    hide Core, Idx, Settled;
  }

  lemma CompleteKeeps(s: State, f: Frame)
    requires Inv(s) && Enabled(s, Complete(f))
    ensures Inv(Next(s, Complete(f)))
  {
    if s.poller.Handed? { NotTheHandedOne(s); }
    CompleteCommutes(s, f);
    CoreCompleteKeeps(Settled(s), f);
    CompleteKeepsPoller(s, f);
    hide Core, Settled, Idx, PollerOk, TailOk;
  }

  lemma ReplaceProgress(bd: seq<Bd>, ci: nat, frames: seq<Frame>, mem: map<nat, Frame>, i: nat, d: Bd)
    requires Progress(bd, ci, frames, mem) && ci < |frames| && i == Idx(|bd|, ci) && !d.complete
    ensures Progress(bd[i := d], ci + 1, frames, mem)
  {
    IdxLap(|bd|, ci);
    forall p | ci < p < ci + |bd| ensures Idx(|bd|, p) != i {
      IdxDistinct(|bd|, ci, p);
    }
  }

  lemma ReplaceConserves(bd: seq<Bd>, handed: seq<nat>, next: nat, i: nat)
    requires Conserved(bd, handed, next) && i < |bd|
    ensures Conserved(bd[i := Bd(next, false, 0)], handed + [bd[i].skb], next + 1)
  {
    var was, now := Skbs(bd), Skbs(bd[i := Bd(next, false, 0)]);
    assert now == was[i := next];
    assert multiset(now) == multiset(was)[was[i] := multiset(was)[was[i]] - 1] + multiset{next};
    assert Ids(next + 1) == Ids(next) + {next};
    assert multiset(Ids(next + 1)) == multiset(Ids(next)) + multiset{next};
  }

  lemma CoreWaiting(s: State)
    requires Core(s)
    ensures s.bd != [] && (s.bd[Idx(|s.bd|, s.ci)].complete <==> s.ci < |s.frames|)
  {}

  /** What the poll routine tests is what it should: a frame is waiting. */
  lemma CompleteMeansWaiting(s: State)
    requires Inv(s) && !MidTurn(s.poller)
    ensures s.bd[Idx(|s.bd|, s.ci)].complete <==> s.ci < |s.frames|
  {
    CoreWaiting(Settled(s));
  }

  lemma CoreReplaceKeeps(s: State, t: State)
    requires Core(s) && s.ci < |s.frames|
    requires var i := Idx(|s.bd|, s.ci);
             t == s.(bd := s.bd[i := Bd(s.next, false, 0)], next := s.next + 1, ci := s.ci + 1,
                     handed := s.handed + [s.bd[i].skb], passed := s.passed + [Contents(s.mem, s.bd[i])],
                     poller := t.poller, pending := t.pending)
    ensures Core(t) && t.passed == s.passed + [s.frames[s.ci]] && s.bd[Idx(|s.bd|, s.ci)].complete
  {
    hide Idx;
    var i := Idx(|s.bd|, s.ci);
    ReplaceProgress(s.bd, s.ci, s.frames, s.mem, i, t.bd[i]);
    ReplaceConserves(s.bd, s.handed, s.next, i);
    var d, f := s.bd[i], s.frames[s.ci];
    assert d.len == |f| && d.skb in s.mem && s.mem[d.skb] == f;
    assert f[..|f|] == f;
    assert t.passed[s.epoch..] == s.passed[s.epoch..] + [f];
  }

  /** Handing up passes on exactly the oldest waiting frame. */
  lemma HandUpKeeps(s: State)
    requires Inv(s) && Enabled(s, HandUp)
    ensures Inv(Next(s, HandUp))
    ensures s.ci < |s.frames| && Next(s, HandUp).passed == s.passed + [s.frames[s.ci]]
  {
    var was, t := s.(poller := Idle), Next(s, HandUp);
    assert Settled(s) == was;
    CoreReplaceKeeps(was, Settled(t));
    hide Core, Idx, Contents;
  }

  /** The poll routine's steps that hand nothing up. */
  predicate OwnStep(step: Step) { step.Look? || step.See? || step.Take? || step.Refill? || step.Count? || step.Leave? }

  lemma TurnSettles(s: State, step: Step)
    requires Inv(s) && Enabled(s, step) && OwnStep(step)
    ensures Settled(Next(s, step)) == Settled(s).(pending := Next(s, step).pending)
  {
    hide Core, Idx, TailOk;
  }

  lemma TurnKeepsPoller(s: State, step: Step)
    requires s.bd != [] && PollerOk(s) && TailOk(s.pending, s.poller, |s.bd|, s.ci, s.limit) && s.limit <= s.ci + |s.bd|
    requires Enabled(s, step) && OwnStep(step)
    requires step.See? ==> s.ci < |s.frames|
    ensures var t := Next(s, step);
            t.bd != [] && PollerOk(t) && TailOk(t.pending, t.poller, |t.bd|, t.ci, t.limit) && t.limit <= t.ci + |t.bd|
  {
    IdxLap(|s.bd|, s.ci);
    hide Idx;
  }

  lemma TurnKeeps(s: State, step: Step)
    requires Inv(s) && Enabled(s, step) && OwnStep(step)
    ensures Inv(Next(s, step))
  {
    if step.See? { CompleteMeansWaiting(s); }
    TurnSettles(s, step);
    CoreIgnores(Settled(s), Next(s, step).pending);
    TurnKeepsPoller(s, step);
    hide Core, Idx, Settled, PollerOk, TailOk;
  }

  lemma CoreIgnores(s: State, pending: Option<Tail>)
    requires Core(s)
    ensures Core(s.(pending := pending))
  {}

  /** The hardware understands the tail register as the driver means it, provided some
      descriptor was replaced since the last write. */
  lemma TailIsExact(n: nat, ci: nat, at: nat)
    requires n > 0 && ci <= at < ci + n
    ensures Stop(n, at, Idx(n, ci + n - 1)) == ci + n
  {
    var d := ci + n - 1 - at;
    IdxAdd(n, at, d);
    var i := Idx(n, at);
    if i + d >= n { IdxLap(n, i + d - n); } else { IdxLap(n, d); }
  }

  /** Without that guard a full ring would be taken for an empty one. */
  lemma TailOfFullRingOverruns(n: nat, ci: nat)
    requires n > 0
    ensures Stop(n, ci + n, Idx(n, ci + n - 1)) == ci + n + n
  {
    IdxLap(n, ci);
    IdxAdd(n, ci, n - 1);
    var i := Idx(n, ci);
    if i > 0 { IdxLap(n, i - 1); }
  }

  /** After a reset the tail of before it means more than a lap exactly if the hardware has
      filled the slot it names. */
  lemma StaleTail(n: nat, at: nat, slot: nat)
    requires slot < n && at <= n
    ensures Stop(n, at, slot) == if at <= slot then slot + 1 else n + slot + 1
  {
    if at == n {
      IdxLap(n, 0);
      IdxLap(n, slot);
    } else if at <= slot {
      IdxLap(n, slot - at);
    }
  }

  /** Written in time: no reset since the last replacement, or the hardware has not yet got
      to the slot. */
  predicate Timely(s: State, step: Step) {
    step.WriteTail? && s.pending.Some? ==> s.pending.value.current || |s.frames| <= s.pending.value.slot
  }

  /** A tail write is right exactly when it is timely; otherwise it lets the hardware have
      completed frames that were not handed up. */
  lemma WriteTailKeepsIff(s: State)
    requires Inv(s) && Enabled(s, WriteTail)
    ensures Inv(Next(s, WriteTail)) <==> Timely(s, WriteTail)
    ensures !Timely(s, WriteTail) ==> Next(s, WriteTail).limit > s.ci + |s.bd|
    ensures s.pending.value.current ==> Next(s, WriteTail).limit == s.ci + |s.bd|
  {
    hide Idx, Conserved, Progress, Kept, Stop;
    CiBelow(s);
    if s.pending.value.current {
      TailIsExact(|s.bd|, s.ci, |s.frames|);
    } else {
      StaleTail(|s.bd|, |s.frames|, s.pending.value.slot);
    }
  }

  lemma CoreResetKeeps(s: State)
    requires Core(s)
    ensures s.bd != [] && Core(Next(s, Reset))
  {
    hide Idx;
    assert Skbs(Cleared(s.bd)) == Skbs(s.bd);
  }

  /** The points of the poll routine at which a reset keeps the ring in order: between two
      turns, unless it has already looked up a descriptor other than the first. */
  predicate ResetHarmless(s: State) {
    match s.poller
    case Idle => true
    case Looking(at) => at == 0
    case _ => false
  }

  /** A reset keeps the ring in order exactly at these points. */
  lemma ResetKeepsIff(s: State)
    requires Inv(s)
    ensures Inv(Next(s, Reset)) <==> ResetHarmless(s)
  {
    if ResetHarmless(s) {
      CoreResetKeeps(s.(poller := Idle));
      assert Settled(s) == s.(poller := Idle);
      assert Settled(Next(s, Reset)) == Next(s.(poller := Idle), Reset);
      hide Core;
    }
  }

  lemma CiBelow(s: State)
    requires Inv(s)
    ensures s.bd != [] && s.ci <= |s.frames| && |s.frames| <= s.limit <= s.ci + |s.bd|
  {}

  /** The steps that keep the ring in order: all but resets and tail writes, and these at the
      right time. */
  predicate Proper(s: State, step: Step) { Timely(s, step) && (step.Reset? ==> ResetHarmless(s)) }

  lemma StepKeeps(s: State, step: Step)
    requires Inv(s) && Enabled(s, step) && Proper(s, step)
    ensures Inv(Next(s, step))
  {
    hide Inv, Enabled, Next;
    match step
    case Complete(f) => CompleteKeeps(s, f);
    case HandUp => HandUpKeeps(s);
    case WriteTail => WriteTailKeepsIff(s);
    case Reset => ResetKeepsIff(s);
    case _ => TurnKeeps(s, step);
  }

  // ---- Runs ----

  /** A ring of `n` descriptors, each with its own buffer. */
  function Init(n: nat): State {
    State(seq(n, i requires 0 <= i < n => Bd(i, false, 0)), 0, n, [], n, map[], [], [], 0, Idle, None)
  }

  lemma {:induction false} RunOnce(n: nat)
    ensures multiset(seq(n, i requires 0 <= i < n => i as nat)) == multiset(Ids(n))
  {
    if n > 0 {
      RunOnce(n - 1);
      var s: seq<nat> := seq(n, i requires 0 <= i < n => i);
      var t: seq<nat> := seq(n - 1, i requires 0 <= i < n - 1 => i);
      assert s == t + [n - 1];
      assert Ids(n) == Ids(n - 1) + {n - 1};
    } else {
      assert Ids(0) == {};
    }
  }

  lemma InitInv(n: nat)
    requires n > 0
    ensures Inv(Init(n))
  {
    hide Idx;
    RunOnce(n);
    assert Skbs(Init(n).bd) == seq(n, i requires 0 <= i < n => i as nat);
  }

  predicate Executable(s: State, steps: seq<Step>)
    requires s.bd != []
    decreases |steps|
  {
    steps == [] || (Enabled(s, steps[0]) && Executable(Next(s, steps[0]), steps[1..]))
  }

  predicate AllProper(s: State, steps: seq<Step>)
    requires s.bd != [] && Executable(s, steps)
    decreases |steps|
  {
    steps == [] || (Proper(s, steps[0]) && AllProper(Next(s, steps[0]), steps[1..]))
  }

  function Exec(s: State, steps: seq<Step>): State
    requires s.bd != [] && Executable(s, steps)
    decreases |steps|
  {
    if steps == [] then s else Exec(Next(s, steps[0]), steps[1..])
  }

  lemma {:induction false} RunKeeps(s: State, steps: seq<Step>)
    requires Inv(s) && Executable(s, steps) && AllProper(s, steps)
    ensures Inv(Exec(s, steps)) && |Exec(s, steps).bd| == |s.bd|
    decreases |steps|
  {
    hide Inv, Enabled, Next, Proper;
    if steps != [] {
      StepKeeps(s, steps[0]);
      CiBelow(s);
      SizeKept(s, steps[0]);
      RunKeeps(Next(s, steps[0]), steps[1..]);
    }
  }

  lemma SizeKept(s: State, step: Step)
    requires s.bd != [] && Enabled(s, step)
    ensures |Next(s, step).bd| == |s.bd|
  {
    hide Idx;
  }

  /** A buffer that the poll routine has handed up and not yet replaced. */
  function InHand(s: State): multiset<nat> {
    if s.poller.Handed? && s.poller.at < |s.bd| then multiset{s.bd[s.poller.at].skb} else multiset{}
  }

  lemma Swapped(was: multiset<nat>, now: multiset<nat>, others: multiset<nat>, all: multiset<nat>, x: nat, y: nat)
    requires was[x] > 0 && now == was[x := was[x] - 1] + multiset{y} && now + others == all + multiset{y}
    ensures was + others == all + multiset{x}
  {
    forall e: nat ensures (was + others)[e] == (all + multiset{x})[e] {
      assert (now + others)[e] == (all + multiset{y})[e];
    }
  }

  lemma UnreplacedConserves(bd: seq<Bd>, handed: seq<nat>, next: nat, at: nat)
    requires at < |bd| && Conserved(bd[at := Bd(next, false, 0)], handed, next + 1)
    ensures multiset(Skbs(bd)) + multiset(handed) == multiset(Ids(next)) + multiset{bd[at].skb}
  {
    var was, now := Skbs(bd), Skbs(bd[at := Bd(next, false, 0)]);
    assert now == was[at := next];
    assert Ids(next + 1) == Ids(next) + {next};
    assert multiset(Ids(next + 1)) == multiset(Ids(next)) + multiset{next};
    Swapped(multiset(was), multiset(now), multiset(handed), multiset(Ids(next)), was[at], next);
  }

  lemma SettledConserves(s: State)
    requires Inv(s)
    ensures multiset(Skbs(s.bd)) + multiset(s.handed) == multiset(Ids(s.next)) + InHand(s)
  {
    hide Progress, Kept, Idx, TailOk;
    if s.poller.Handed? {
      UnreplacedConserves(s.bd, s.handed, s.next, s.poller.at);
    } else {
      assert Conserved(s.bd, s.handed, s.next);
    }
  }

  /** After any interleaving of hardware, poll routine and resets in which resets fall between
      turns and no tail is written too late after one: no buffer is lost or shared, the frames
      handed up since the last reset are the first ones the hardware received, in order and
      unaltered, and the stack's buffers are never written again. */
  lemma BuffersAreConserved(n: nat, steps: seq<Step>)
    requires n > 0 && Executable(Init(n), steps) && AllProper(Init(n), steps)
    ensures var s := Exec(Init(n), steps);
            && |s.bd| == n && multiset(Skbs(s.bd)) + multiset(s.handed) == multiset(Ids(s.next)) + InHand(s)
            && s.epoch <= |s.passed| && s.passed[s.epoch..] <= s.frames
            && |s.handed| == |s.passed| && s.next + |InHand(s)| == n + |s.handed|
            && (forall j | 0 <= j < |s.handed| :: s.handed[j] in s.mem && s.mem[s.handed[j]] == s.passed[j])
  {
    hide Executable, AllProper, Enabled, Exec, Idx;
    InitInv(n);
    RunKeeps(Init(n), steps);
    var s := Exec(Init(n), steps);
    SettledConserves(s);
    assert |multiset(Skbs(s.bd)) + multiset(s.handed)| == n + |s.handed|;
    IdsCount(s.next);
    SettledKeeps(s);
  }

  lemma SettledKeeps(s: State)
    requires Inv(s)
    ensures Kept(s.mem, s.handed, s.passed) && s.epoch <= |s.passed| && s.passed[s.epoch..] <= s.frames
  {}

  // ---- Resets that fall elsewhere ----

  /** The rest of a turn. */
  function FinishTurn(s: State): (t: State)
    requires s.bd != [] && ((s.poller.Held? || s.poller.Handed?) ==> s.poller.at < |s.bd|)
    ensures |t.bd| == |s.bd|
    decreases if s.poller.Held? then 3 else if s.poller.Handed? then 2 else if s.poller.Refilled? then 1 else 0
  {
    match s.poller
    case Held(_) => FinishTurn(Next(s, HandUp))
    case Handed(_) => FinishTurn(Next(s, Refill))
    case Refilled => Next(s, Count)
    case _ => s
  }

  /** A poll overtaken by a reset in the middle of a turn finishes the turn: it goes on at
      slot 1, while the hardware begins at slot 0. */
  lemma ResetDuringTurn(s: State)
    requires Inv(s) && MidTurn(s.poller)
    ensures (s.poller.Held? || s.poller.Handed?) ==> s.poller.at < |s.bd|
    ensures var u := FinishTurn(Next(s, Reset));
            u.poller.Idle? && u.ci == 1 && u.frames == [] && u.limit == |s.bd| && !Inv(u)
  {
    var t := Next(s, Reset);
    hide Idx, Contents, Conserved, Kept, Cleared;
    if s.poller.Held? {
      assert FinishTurn(t) == FinishTurn(Next(t, HandUp)) == FinishTurn(Next(Next(t, HandUp), Refill));
    }
    if s.poller.Handed? {
      assert FinishTurn(t) == FinishTurn(Next(t, Refill));
    }
  }

  /** After a buffer is handed up and before it is replaced, a reset leaves it to the hardware
      as well: it is the one filled next if it is in the first slot. */
  lemma ResetWhileHanded(s: State, f: Frame)
    requires Inv(s) && s.poller.Handed?
    ensures var t, at := Next(s, Reset), s.poller.at;
            && at < |t.bd| == t.limit && !t.bd[at].complete && t.bd[at].skb in t.handed
            && Enabled(t, Complete(f))
            && (at == 0 ==> var h := t.handed[|t.handed| - 1];
                            h in Next(t, Complete(f)).mem && Next(t, Complete(f)).mem[h] == f)
  {}

  /** The states of runs in which resets and tail writes come at the right time. */
  ghost predicate Reachable(n: nat, s: State) {
    n > 0 && exists steps :: Executable(Init(n), steps) && AllProper(Init(n), steps) && s == Exec(Init(n), steps)
  }

  lemma {:induction false} RunSnoc(s: State, steps: seq<Step>, step: Step)
    requires s.bd != [] && Executable(s, steps) && AllProper(s, steps)
    ensures Exec(s, steps).bd != []
    ensures Enabled(Exec(s, steps), step) && Proper(Exec(s, steps), step) ==>
              && Executable(s, steps + [step]) && AllProper(s, steps + [step])
              && Exec(s, steps + [step]) == Next(Exec(s, steps), step)
    decreases |steps|
  {
    hide Enabled, Next, Proper;
    if steps == [] {
      assert ([] + [step])[1..] == [];
    } else {
      SizeKept(s, steps[0]);
      RunSnoc(Next(s, steps[0]), steps[1..], step);
      assert (steps + [step])[1..] == steps[1..] + [step];
    }
  }

  lemma ReachableInit(n: nat)
    requires n > 0
    ensures Reachable(n, Init(n)) && Inv(Init(n))
  {
    InitInv(n);
    hide Inv, Next, Enabled;
    assert Executable(Init(n), []) && AllProper(Init(n), []) && Exec(Init(n), []) == Init(n);
  }

  lemma ReachableNext(n: nat, s: State, step: Step)
    requires Reachable(n, s) && s.bd != [] && Enabled(s, step) && Proper(s, step)
    ensures Reachable(n, Next(s, step)) && Inv(s) && Inv(Next(s, step))
  {
    hide Inv, Enabled, Next, Proper;
    var steps :| Executable(Init(n), steps) && AllProper(Init(n), steps) && s == Exec(Init(n), steps);
    InitInv(n);
    RunKeeps(Init(n), steps);
    RunSnoc(Init(n), steps, step);
    StepKeeps(s, step);
    assert Executable(Init(n), steps + [step]) && AllProper(Init(n), steps + [step]);
  }

  /** One frame leads to such a moment. */
  lemma TurnIsReachable(n: nat, f: Frame) returns (s: State)
    requires n > 0
    ensures Reachable(n, s) && Inv(s) && s.poller == Handed(0) && |s.bd| == n && s.ci == 0 && s.frames == [f]
    ensures s.limit == n && !ResetHarmless(s)
  {
    ReachableInit(n);
    hide Reachable, Inv;
    var s1 := Next(Init(n), Complete(f));
    ReachableNext(n, Init(n), Complete(f));
    var s2 := Next(s1, Look);
    ReachableNext(n, s1, Look);
    var s3 := Next(s2, See);
    ReachableNext(n, s2, See);
    var s4 := Next(s3, Take);
    ReachableNext(n, s3, Take);
    s := Next(s4, HandUp);
    ReachableNext(n, s4, HandUp);
  }

  /** And a poll that has finished the turn, overtaken by a reset and by one new frame, is
      about to write a late tail: a lap too many for the hardware. */
  lemma LateTailIsReachable(n: nat, f: Frame) returns (s: State)
    requires n > 0
    ensures Reachable(n, s) && Inv(s) && s.pending == Some(Tail(0, false)) && s.ci == 0 && |s.bd| == n
    ensures Enabled(s, WriteTail) && !Timely(s, WriteTail) && Next(s, WriteTail).limit == n + 1
  {
    var s2 := TurnIsDone(n, f);
    var s3 := Next(s2, Reset);
    ReachableNext(n, s2, Reset);
    s := Next(s3, Complete(f));
    hide Reachable, Inv, Contents, Stop;
    ReachableNext(n, s3, Complete(f));
    StaleTail(n, 1, 0);
    TailAfter(s);
  }

  lemma TailAfter(s: State)
    requires s.bd != [] && Enabled(s, WriteTail)
    ensures Next(s, WriteTail).limit == Stop(|s.bd|, |s.frames|, s.pending.value.slot)
  {}

  lemma TurnIsDone(n: nat, f: Frame) returns (s: State)
    requires n > 0
    ensures Reachable(n, s) && |s.bd| == n && s.poller.Idle? && s.pending == Some(Tail(0, true))
  {
    var s0 := TurnIsReachable(n, f);
    HandedTail(s0);
    hide Reachable, Inv, Contents, Stop, Cleared;
    var s1 := Next(s0, Refill);
    ReachableNext(n, s0, Refill);
    s := Next(s1, Count);
    ReachableNext(n, s1, Count);
  }

  lemma HandedTail(s: State)
    requires Inv(s) && s.poller.Handed?
    ensures s.bd != [] && s.pending == Some(Tail(s.poller.at, true))
  {}

  lemma {:induction false} IdsCount(n: nat)
    ensures |multiset(Ids(n))| == n
  {
    if n > 0 {
      IdsCount(n - 1);
      assert multiset(Ids(n)) == multiset(Ids(n - 1)) + multiset{(n - 1) as nat};
    }
  }

  // ---- The queue object ----

  /** One reading of the status register. */
  datatype Status = Status(pending: bool, error: bool)

  /** A round of the poll, which takes the work done from `before` to `after`: it is run only on
      a pending status without an error and with quota left, and it ends only when the quota
      or its memory is used up or when every frame is handed up, of which `waiting` were there
      when the poll began. */
  predicate Round(quota: nat, status: Status, memory: nat, waiting: nat, before: nat, after: nat) {
    && before < quota && status.pending && !status.error
    && before <= after <= quota && after <= before + memory
    && (after < quota && after < before + memory ==> waiting <= after)
  }

  /** The work done after each round, `done[0]` before the first. */
  ghost predicate Rounds(quota: nat, status: seq<Status>, memory: seq<nat>, waiting: nat, done: seq<nat>)
    requires |memory| == |status|
  {
    && 0 < |done| <= |status| + 1 && done[0] == 0
    && forall i: nat, k: nat | k < |done| && i + 1 == k ::
         Round(quota, status[i], memory[i], waiting, done[i], done[k])
  }

  lemma RoundsOneMore(quota: nat, status: seq<Status>, memory: seq<nat>, waiting: nat, done: seq<nat>, after: nat)
    requires |memory| == |status| && Rounds(quota, status, memory, waiting, done) && |done| <= |status|
    requires var i := |done| - 1;
             Round(quota, status[i], memory[i], waiting, done[i], after)
    ensures Rounds(quota, status, memory, waiting, done + [after])
  {
    hide Round;
    var more := done + [after];
    forall i: nat, k: nat | k < |more| && i + 1 == k
      ensures Round(quota, status[i], memory[i], waiting, more[i], more[k]) {
      assert k < |done| ==> more[k] == done[k] && more[i] == done[i];
    }
  }

  lemma SlicesJoin<T>(s: seq<T>, t: seq<T>, a: nat, b: nat, c: nat)
    requires s <= t && a <= b <= c && b <= |s| && c <= |t|
    ensures s[a..b] + t[b..c] == t[a..c]
  {}

  lemma NoRounds(quota: nat, status: seq<Status>, memory: seq<nat>, waiting: nat)
    requires |memory| == |status|
    ensures Rounds(quota, status, memory, waiting, [0])
  {}

  /** No more rounds: the quota is used up, or the next status is not pending or has an error. */
  predicate PollEnds(quota: nat, status: seq<Status>, done: seq<nat>)
    requires 0 < |done| <= |status| + 1
  {
    var i := |done| - 1;
    done[i] >= quota || i == |status| || !status[i].pending || status[i].error
  }

  class RxQueue {
    const rxBdNum: nat
    const rxBdV: array<Bd>
    var rxBdCi: nat
    var nextSkb: nat
    // the hardware: its next descriptor, and how many it may still fill
    var cdesc: nat
    var room: nat
    ghost var model: State

    /** The fields are the model's. */
    ghost predicate Tied()
      reads this, rxBdV
    {
      && rxBdV[..] == model.bd && rxBdNum == rxBdV.Length > 0
      && rxBdCi == Idx(rxBdNum, model.ci) && nextSkb == model.next
      && cdesc == Idx(rxBdNum, |model.frames|) && room == model.limit - |model.frames|
    }

    ghost predicate Valid()
      reads this, rxBdV
    {
      Inv(model) && Tied()
    }

    /** Setting up the ring: every descriptor gets a buffer of its own. */
    constructor (n: nat)
      requires n > 0
      ensures Valid() && model == Init(n) && rxBdNum == n && fresh(rxBdV)
    {
      rxBdNum, rxBdCi, nextSkb, cdesc, room := n, 0, n, 0, n;
      var v := new Bd[n](_ => Bd(0, false, 0));
      rxBdV := v;
      model := Init(n);
      new;
      InitInv(n);
      var i := 0;
      while i < n
        invariant i <= n
        invariant forall k | 0 <= k < i :: rxBdV[k] == Bd(k, false, 0)
        modifies rxBdV
      {
        rxBdV[i] := Bd(i, false, 0);
        i := i + 1;
      }
    }

    ghost method Move(step: Step)
      requires Inv(model) && Enabled(model, step) && Proper(model, step)
      modifies `model
      ensures Inv(model) && model == Next(old(model), step)
    {
      StepKeeps(model, step);
      model := Next(model, step);
    }

    /** The hardware fills the next descriptor's buffer. */
    method Fill(ghost f: Frame, len: nat)
      requires Valid() && room > 0 && len == |f|
      modifies rxBdV, this`cdesc, this`room, this`model
      ensures Valid() && model == Next(old(model), Complete(f))
    {
      hide Idx, Conserved, Kept;
      StepKeeps(model, Complete(f));
      IdxNext(rxBdNum, |model.frames|);
      rxBdV[cdesc] := rxBdV[cdesc].(complete := true, len := len);
      cdesc := if cdesc + 1 >= rxBdNum then 0 else cdesc + 1;
      room := room - 1;
      model := Next(model, Complete(f));
    }

    /** Any number of frames arrive. */
    method HardwareRuns()
      requires Valid()
      modifies rxBdV, this`cdesc, this`room, this`model
      ensures Valid() && old(model).frames <= model.frames
      ensures model == old(model).(bd := model.bd, mem := model.mem, frames := model.frames)
      ensures |model.bd| == |old(model).bd|
    {
      hide Idx, Inv;
      var count: nat := *;
      while count > 0 && room > 0
        invariant Valid() && old(model).frames <= model.frames
        invariant model == old(model).(bd := model.bd, mem := model.mem, frames := model.frames)
      {
        var f: Frame := *;
        Fill(f, |f|);
        count := count - 1;
      }
    }

    /** Look up the descriptor at the driver's index. */
    method LookUp() returns (cur: nat)
      requires Valid() && model.poller.Idle?
      modifies `model
      ensures Valid() && model == old(model).(poller := Looking(cur)) && cur == rxBdCi < rxBdNum
    {
      hide Idx, Core, Conserved;
      Move(Look);
      cur := rxBdCi;
    }

    /** The same, and the hardware runs on before the status is read. */
    method NextTurn() returns (cur: nat)
      requires Valid() && model.poller.Idle?
      modifies rxBdV, this`cdesc, this`room, this`model
      ensures Valid() && old(model).frames <= model.frames && cur == rxBdCi < rxBdNum
      ensures model == old(model).(bd := model.bd, mem := model.mem, frames := model.frames, poller := Looking(cur))
      ensures model.ci <= |model.frames| && (rxBdV[cur].complete <==> model.ci < |model.frames|)
    {
      hide Idx, Inv, Next, Stop, Contents, Cleared, Skbs, Ids;
      cur := LookUp();
      HardwareRuns();
      CompleteIs(model);
    }

    /** Hand up the waiting frame and put a new buffer in its place. */
    method ReplaceOne(cur: nat) returns (skb: nat)
      requires Valid() && cur < rxBdNum && model.poller == Seen(cur)
      modifies rxBdV, this`rxBdCi, this`nextSkb, this`model
      ensures Valid() && model.poller.Idle?
      ensures model == old(model).(ci := old(model).ci + 1, bd := model.bd, next := model.next, poller := Idle,
                                   handed := old(model).handed + [skb], passed := model.passed,
                                   pending := Some(Tail(old(rxBdCi), true)))
      ensures old(model).ci < |model.frames| && model.passed == old(model).passed + [model.frames[old(model).ci]]
    {
      hide Idx, Inv, Contents;
      IdxNext(rxBdNum, model.ci);
      skb := rxBdV[cur].skb;
      MoveTurn(cur);
      rxBdV[cur] := Bd(nextSkb, false, 0);
      nextSkb := nextSkb + 1;
      rxBdCi := rxBdCi + 1;
      if rxBdCi >= rxBdNum {
        rxBdCi := 0;
      }
    }

    /** Taking, handing up, refilling and counting. */
    ghost method MoveTurn(cur: nat)
      requires Inv(model) && model.poller == Seen(cur) && cur < |model.bd|
      modifies `model
      ensures Inv(model)
      ensures var was := old(model);
              model == was.(ci := was.ci + 1, bd := was.bd[cur := Bd(was.next, false, 0)], next := was.next + 1,
                            poller := Idle, handed := was.handed + [was.bd[cur].skb], passed := model.passed,
                            pending := Some(Tail(Idx(|was.bd|, was.ci), true)))
      ensures old(model).ci < |model.frames| && model.passed == old(model).passed + [model.frames[old(model).ci]]
    {
      hide Idx, Inv, Contents, Conserved;
      Move(Take);
      HandUpKeeps(model);
      Move(HandUp);
      Move(Refill);
      Move(Count);
    }

    /** The hardware takes in a new tail. */
    method SetTail(slot: nat)
      requires Valid() && model.pending == Some(Tail(slot, true)) && Between(model.poller)
      modifies this`room, this`model
      ensures Valid() && model == old(model).(limit := old(model).ci + rxBdNum, pending := None, poller := Idle)
    {
      hide Idx, Conserved, Kept, Progress;
      CiBelow(model);
      WriteTailKeepsIff(model);
      room := Idx(rxBdNum, slot + rxBdNum - cdesc) + 1;
      model := Next(model, WriteTail);
    }

    ghost method See(cur: nat)
      requires Valid() && model.poller == Looking(cur) && cur < rxBdNum && rxBdV[cur].complete
      modifies this`model
      ensures Valid() && model == old(model).(poller := Seen(cur))
    {
      hide Idx, Inv;
      CiBelow(model);
      Move(Step.See);
    }

    ghost method LeaveRing()
      requires Valid() && Between(model.poller) && model.pending.None?
      modifies this`model
      ensures Valid() && model == old(model).(poller := Idle)
    {
      hide Idx, Inv;
      CiBelow(model);
      Move(Leave);
    }

    /** The receive loop, with memory for `buffers` new buffers: it hands up the oldest
        waiting frames in order, at most `budget`, and stops early only when none is
        waiting or memory has run out, in which case the next frame stays in the ring. */
    method Recv(budget: nat, buffers: nat) returns (numBdFree: nat, up: seq<nat>)
      requires Valid() && model.pending.None? && model.poller.Idle?
      modifies rxBdV, this
      ensures Valid() && old(model).frames <= model.frames
      ensures numBdFree == |up| <= budget && numBdFree <= buffers
      ensures model.ci == old(model).ci + numBdFree <= |model.frames| && model.epoch == old(model).epoch
      ensures model.passed == old(model).passed + model.frames[old(model).ci..model.ci]
      ensures model.handed == old(model).handed + up
      ensures numBdFree < budget && numBdFree < buffers ==> model.ci == |model.frames|
      ensures model.limit == if numBdFree > 0 then model.ci + rxBdNum else old(model).limit
      ensures model.pending.None? && model.poller.Idle?
    {
      hide Idx, Inv, Next, Stop, Contents, Cleared, Skbs, Ids;
      numBdFree, up := 0, [];
      var tail := 0;
      var cur := NextTurn();
      while numBdFree < budget && rxBdV[cur].complete
        invariant Valid() && old(model).frames <= model.frames && model.epoch == old(model).epoch
        invariant numBdFree == |up| <= budget && numBdFree <= buffers && model.limit == old(model).limit
        invariant model.ci == old(model).ci + numBdFree <= |model.frames|
        invariant model.passed == old(model).passed + model.frames[old(model).ci..model.ci]
        invariant model.handed == old(model).handed + up
        invariant model.pending == if numBdFree > 0 then Some(Tail(tail, true)) else None
        invariant model.poller == Looking(cur) && cur == rxBdCi < rxBdNum
        invariant rxBdV[cur].complete <==> model.ci < |model.frames|
      {
        See(cur);
        if numBdFree >= buffers {
          break;
        }
        tail := rxBdCi;
        var skb := ReplaceOne(cur);
        up := up + [skb];
        numBdFree := numBdFree + 1;
        cur := NextTurn();
      }
      if numBdFree > 0 {
        SetTail(tail);
      } else {
        LeaveRing();
      }
    }

    /** The poll routine, given what successive reads of the status register show and the
        memory available in each round: it never exceeds its quota, what it reports is
        what it handed up, it ends no round and no poll early, and it asks for interrupts
        again exactly when it had quota left. If the last round had memory left as well,
        nothing is waiting any more. */
    method Poll(quota: nat, status: seq<Status>, memory: seq<nat>)
        returns (workDone: nat, enabled: bool, done: seq<nat>)
      requires Valid() && |memory| == |status| && model.pending.None? && model.poller.Idle?
      modifies rxBdV, this
      ensures Valid() && old(model).frames <= model.frames && model.epoch == old(model).epoch
      ensures workDone <= quota && (enabled <==> workDone < quota)
      ensures old(model).ci <= |old(model).frames|
      ensures Rounds(quota, status, memory, |old(model).frames| - old(model).ci, done)
      ensures PollEnds(quota, status, done) && workDone == done[|done| - 1]
      ensures model.pending.None? && model.poller.Idle?
      ensures model.ci == old(model).ci + workDone <= |model.frames|
      ensures model.passed == old(model).passed + model.frames[old(model).ci..model.ci]
      ensures old(model).handed <= model.handed && |model.handed| == |old(model).handed| + workDone
      ensures model.limit == if workDone > 0 then model.ci + rxBdNum else old(model).limit
      ensures var last := |done| - 2;
              last >= 0 && workDone < quota && workDone < done[last] + memory[last] ==> model.ci == |model.frames|
    {
      hide Idx, Inv, Rounds;
      CompleteIs(model);
      workDone, done := 0, [0];
      ghost var waiting: nat := |model.frames| - model.ci;
      NoRounds(quota, status, memory, waiting);
      var i := 0;
      while i < |status| && status[i].pending && workDone < quota
        invariant Valid() && old(model).frames <= model.frames && model.epoch == old(model).epoch
        invariant i <= |status| && workDone <= quota && model.pending.None? && model.poller.Idle?
        invariant model.ci == old(model).ci + workDone <= |model.frames|
        invariant model.passed == old(model).passed + model.frames[old(model).ci..model.ci]
        invariant old(model).handed <= model.handed && |model.handed| == |old(model).handed| + workDone
        invariant model.limit == if workDone > 0 then model.ci + rxBdNum else old(model).limit
        invariant |done| == i + 1 && done[i] == workDone && Rounds(quota, status, memory, waiting, done)
        invariant i > 0 && workDone < quota && workDone < done[i - 1] + memory[i - 1] ==> model.ci == |model.frames|
      {
        if status[i].error {
          break;
        }
        ghost var before := model;
        var n, _ := Recv(quota - workDone, memory[i]);
        SlicesJoin(before.frames, model.frames, old(model).ci, before.ci, model.ci);
        RoundsOneMore(quota, status, memory, waiting, done, workDone + n);
        workDone := workDone + n;
        done := done + [workDone];
        i := i + 1;
      }
      enabled := workDone < quota;
    }

    method ClearStatus()
      modifies rxBdV
      ensures rxBdV[..] == Cleared(old(rxBdV[..]))
    {
      var i := 0;
      while i < rxBdV.Length
        invariant i <= rxBdV.Length
        invariant forall k | 0 <= k < rxBdV.Length ::
          rxBdV[k] == if k < i then old(rxBdV[k]).(complete := false, len := 0) else old(rxBdV[k])
        modifies rxBdV
      {
        rxBdV[i] := rxBdV[i].(complete := false, len := 0);
        i := i + 1;
      }
    }

    /** The receive half of the error reset, wherever the poll routine is: buffers stay with
        their descriptors, what was completed but not handed up is dropped, and both sides
        start at slot zero; the ring is in order again exactly at a harmless point. */
    method ResetRing()
      requires Valid()
      modifies rxBdV, this
      ensures Tied() && model == Next(old(model), Reset)
      ensures Inv(model) <==> ResetHarmless(old(model))
      ensures model.handed == old(model).handed && Skbs(model.bd) == Skbs(old(model).bd)
    {
      hide Idx;
      CiBelow(model);
      ResetKeepsIff(model);
      ClearStatus();
      hide Inv;
      ZeroSlot(rxBdNum);
      rxBdCi, cdesc, room := 0, 0, rxBdNum;
      model := Next(model, Reset);
      assert Skbs(Cleared(old(model).bd)) == Skbs(old(model).bd);
    }
  }

  lemma ZeroSlot(n: nat)
    requires n > 0
    ensures Idx(n, 0) == 0
  {}

  lemma CompleteIs(s: State)
    requires Inv(s) && !MidTurn(s.poller)
    ensures s.bd != [] && Idx(|s.bd|, s.ci) < |s.bd| && s.ci <= |s.frames|
    ensures s.bd[Idx(|s.bd|, s.ci)].complete <==> s.ci < |s.frames|
  {
    CompleteMeansWaiting(s);
  }
}
