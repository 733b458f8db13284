// The EF10 UDP tunnel port table (ef10.c): add, delete and push, interleaved
// at the points where the driver drops its spinlock.

module UdpTunnel {
  const COUNT_MAX: nat := 0x3fff
  const NO_MATCH := -1

  datatype Entry = Entry(port: nat, kind: nat)

  datatype Slot = Slot(entry: Entry, count: nat, adding: bool, removing: bool) {
    predicate Dirty() { adding || removing }
    predicate Empty() { count == 0 && !Dirty() }
    /** What `has_port` trusts: referenced, and no change outstanding. */
    predicate Settled() { count > 0 && !Dirty() }
  }

  type Slots = seq<Slot>

  predicate Matches(slot: Slot, port: nat) { slot.count > 0 && slot.entry.port == port }

  // ---- Operations on the table, as values ----

  /** The first referenced slot holding `port`, or NO_MATCH. */
  function Lookup(slots: Slots, port: nat, from: nat := 0): (i: int)
    requires from <= |slots|
    ensures i == NO_MATCH || from <= i < |slots|
    ensures i != NO_MATCH ==> Matches(slots[i], port) && forall j | from <= j < i :: !Matches(slots[j], port)
    ensures i == NO_MATCH ==> forall j | from <= j < |slots| :: !Matches(slots[j], port)
    decreases |slots| - from
  {
    if from == |slots| then NO_MATCH
    else if Matches(slots[from], port) then from
    else Lookup(slots, port, from + 1)
  }

  function FirstEmpty(slots: Slots, from: nat := 0): (i: int)
    requires from <= |slots|
    ensures i == NO_MATCH || from <= i < |slots|
    ensures i != NO_MATCH ==> slots[i].Empty() && forall j | from <= j < i :: !slots[j].Empty()
    ensures i == NO_MATCH ==> forall j | from <= j < |slots| :: !slots[j].Empty()
    decreases |slots| - from
  {
    if from == |slots| then NO_MATCH
    else if slots[from].Empty() then from
    else FirstEmpty(slots, from + 1)
  }

  /** Taking one more reference on a slot that already holds the port. */
  function Reference(slot: Slot): Slot {
    var counted := if slot.count < COUNT_MAX then slot.(count := slot.count + 1) else slot;
    if slot.removing then counted.(removing := false, adding := true) else counted
  }

  /** Dropping one reference; a count that ever reached COUNT_MAX is kept for good. */
  function Release(slot: Slot): Slot
    requires slot.count > 0
  {
    var counted := if slot.count != COUNT_MAX then slot.(count := slot.count - 1) else slot;
    if counted.count > 0 then counted else counted.(adding := false, removing := true)
  }

  datatype Outcome = Referenced | Inserted | Clash | Full | Released | Dropped | Absent

  function AddOutcome(slots: Slots, e: Entry): Outcome {
    var m := Lookup(slots, e.port);
    if m != NO_MATCH then (if slots[m].entry.kind == e.kind then Referenced else Clash)
    else if FirstEmpty(slots) != NO_MATCH then Inserted else Full
  }

  function AddSlots(slots: Slots, e: Entry): Slots {
    match AddOutcome(slots, e)
    case Referenced => var m := Lookup(slots, e.port); slots[m := Reference(slots[m])]
    case Inserted => slots[FirstEmpty(slots) := Slot(e, 1, true, false)]
    case _ => slots
  }

  function DelOutcome(slots: Slots, e: Entry): Outcome {
    var m := Lookup(slots, e.port);
    if m == NO_MATCH then Absent
    else if slots[m].entry.kind != e.kind then Clash
    else if Release(slots[m]).count > 0 then Released else Dropped
  }

  function DelSlots(slots: Slots, e: Entry): Slots {
    if DelOutcome(slots, e) in {Released, Dropped} then
      var m := Lookup(slots, e.port); slots[m := Release(slots[m])]
    else slots
  }

  predicate HasPort(slots: Slots, port: nat) {
    var m := Lookup(slots, port);
    m != NO_MATCH && !slots[m].Dirty()
  }

  predicate Pushable(slot: Slot) { slot.count > 0 && !slot.removing && slot.entry.port != 0 }

  /** Which slots the next firmware request names. */
  function Snapshot(slots: Slots): (named: seq<bool>)
    ensures |named| == |slots|
  {
    seq(|slots|, i requires 0 <= i < |slots| => Pushable(slots[i]))
  }

  /** The entries of the marked slots among the first `k`, in slot order. */
  function Select(slots: Slots, named: seq<bool>, k: nat): seq<Entry>
    requires k <= |slots| == |named|
  {
    if k == 0 then []
    else Select(slots, named, k - 1) + (if named[k - 1] then [slots[k - 1].entry] else [])
  }

  function Selected(slots: Slots, named: seq<bool>): seq<Entry>
    requires |slots| == |named|
  {
    Select(slots, named, |slots|)
  }

  function Counted(slots: Slots): (named: seq<bool>)
    ensures |named| == |slots|
  {
    seq(|slots|, i requires 0 <= i < |slots| => slots[i].count > 0)
  }

  function Reconciled(slot: Slot, named: bool): Slot {
    if named then slot.(adding := false) else slot.(removing := false)
  }

  /** After the firmware accepted a request that named `named`. */
  function Reconcile(slots: Slots, named: seq<bool>): (r: Slots)
    requires |slots| == |named|
    ensures |r| == |slots|
  {
    seq(|slots|, i requires 0 <= i < |slots| => Reconciled(slots[i], named[i]))
  }

  function Forgotten(slot: Slot): Slot {
    slot.(adding := slot.adding || slot.count > 0, removing := false)
  }

  /** After the firmware rebooted under the request: nothing is present any more. */
  function Forget(slots: Slots): (r: Slots)
    ensures |r| == |slots|
  {
    seq(|slots|, i requires 0 <= i < |slots| => Forgotten(slots[i]))
  }

  predicate AnyDirty(slots: Slots) { exists i | 0 <= i < |slots| :: slots[i].Dirty() }

  // ---- The protocol: driver steps between lock regions, and firmware steps ----

  datatype Push = Idle | InFlight(named: seq<bool>, list: seq<Entry>, applied: bool)

  /** `hw` is the firmware's table and `stale` records that the firmware rebooted
      since it last applied a request. `refs` is the ledger of accepted adds minus
      accepted deletes per referenced port. `failed` records that the last finished
      push did not succeed. */
  datatype State = State(slots: Slots, busy: bool, scheduled: bool, push: Push,
                         hw: seq<Entry>, stale: bool, failed: bool, refs: map<nat, int>)

  datatype Step =
    | Add(e: Entry) | Del(e: Entry)
    | WorkRuns | SyncPush
    | FirmwareApplies | FirmwareReboots
    | PushOk | PushError | PushEio

  function Init(n: nat): State {
    State(seq(n, _ => Slot(Entry(0, 0), 0, false, false)), false, false, Idle, [], false, false, map[])
  }

  /** From `again:` to the unlock. */
  function Begin(s: State): State {
    var named := Snapshot(s.slots);
    s.(busy := true, push := InFlight(named, Selected(s.slots, named), false), failed := false)
  }

  function Next(s: State, step: Step): State {
    match step
    case Add(e) =>
      var outcome := AddOutcome(s.slots, e);
      s.(slots := AddSlots(s.slots, e),
         scheduled := s.scheduled || outcome.Inserted?,
         refs := if outcome.Inserted? then s.refs[e.port := 1]
                 else if outcome.Referenced? && e.port in s.refs then s.refs[e.port := s.refs[e.port] + 1]
                 else s.refs)
    case Del(e) =>
      var outcome := DelOutcome(s.slots, e);
      s.(slots := DelSlots(s.slots, e),
         scheduled := s.scheduled || outcome.Dropped?,
         refs := if outcome.Dropped? then s.refs - {e.port}
                 else if outcome.Released? && e.port in s.refs then s.refs[e.port := s.refs[e.port] - 1]
                 else s.refs)
    case WorkRuns =>
      if !s.scheduled then s
      else if s.busy then s.(scheduled := false) else Begin(s.(scheduled := false))
    case SyncPush => if s.busy then s else Begin(s)
    case FirmwareApplies =>
      if s.push.InFlight? then s.(hw := s.push.list, stale := false, push := s.push.(applied := true)) else s
    case FirmwareReboots => s.(hw := [], stale := true)
    case PushOk =>
      if s.push.InFlight? && s.push.applied && |s.push.named| == |s.slots| then
        var t := s.(slots := Reconcile(s.slots, s.push.named));
        if AnyDirty(t.slots) then Begin(t) else t.(busy := false, push := Idle)
      else s
    case PushError => if s.push.InFlight? then s.(busy := false, push := Idle, failed := true) else s
    case PushEio =>
      if s.push.InFlight? then s.(slots := Forget(s.slots), busy := false, push := Idle, failed := true) else s
  }

  function Exec(s: State, steps: seq<Step>): State
    decreases |steps|
  {
    if steps == [] then s else Exec(Next(s, steps[0]), steps[1..])
  }

  lemma {:induction false} ExecAppend(s: State, a: seq<Step>, b: seq<Step>)
    ensures Exec(s, a + b) == Exec(Exec(s, a), b)
    decreases |a|
  {
    if a == [] {
      assert a + b == b;
    } else {
      assert (a + b)[1..] == a[1..] + b;
      ExecAppend(Next(s, a[0]), a[1..], b);
    }
  }

  lemma ExecOne(s: State, step: Step)
    ensures Exec(s, [step]) == Next(s, step)
  {
    assert [step][1..] == [];
  }

  lemma ExecSnoc(s: State, a: seq<Step>, step: Step)
    ensures Exec(s, a + [step]) == Next(Exec(s, a), step)
  {
    ExecAppend(s, a, [step]);
    ExecOne(Exec(s, a), step);
  }

  // ---- What every step keeps ----

  ghost predicate SlotsOk(slots: Slots) {
    && (forall i | 0 <= i < |slots| ::
          && slots[i].count <= COUNT_MAX
          && (slots[i].removing ==> slots[i].count == 0)
          && (slots[i].adding ==> slots[i].count > 0)
          && (slots[i].Settled() ==> slots[i].entry.port != 0))
    && (forall i, j | 0 <= i < j < |slots| && slots[i].count > 0 && slots[j].count > 0 ::
          slots[i].entry.port != slots[j].entry.port)
  }

  /** A slot named by the request in flight still holds the entry that was sent. */
  ghost predicate PushMatches(slots: Slots, push: Push) {
    push.InFlight? ==>
      && |push.named| == |slots|
      && push.list == Selected(slots, push.named)
      && (forall i | 0 <= i < |slots| && push.named[i] ::
            slots[i].entry.port != 0 && (slots[i].count > 0 || slots[i].removing))
      && (forall i | 0 <= i < |slots| && slots[i].Settled() :: push.named[i])
  }

  ghost predicate FirmwareHas(s: State) {
    !s.stale ==>
      && (forall i | 0 <= i < |s.slots| && s.slots[i].Settled() :: s.slots[i].entry in s.hw)
      && (s.push.InFlight? && s.push.applied ==> s.hw == s.push.list)
      && (!s.busy && !s.failed && !AnyDirty(s.slots) ==> s.hw == Selected(s.slots, Counted(s.slots)))
  }

  ghost predicate Ledger(s: State) {
    forall i | 0 <= i < |s.slots| && s.slots[i].count > 0 ::
      && s.slots[i].entry.port in s.refs
      && (s.slots[i].count < COUNT_MAX ==> s.slots[i].count == s.refs[s.slots[i].entry.port])
  }

  ghost predicate Inv(s: State) {
    && SlotsOk(s.slots)
    && (s.busy <==> s.push.InFlight?)
    && PushMatches(s.slots, s.push)
    && FirmwareHas(s)
    && (AnyDirty(s.slots) ==> s.busy || s.scheduled || s.failed)
    && Ledger(s)
  }

  lemma {:induction false} SelectCongruent(a: Slots, m: seq<bool>, b: Slots, n: seq<bool>, k: nat)
    requires k <= |a| == |m| == |b| == |n|
    requires forall i | 0 <= i < k :: m[i] == n[i] && (m[i] ==> a[i].entry == b[i].entry)
    ensures Select(a, m, k) == Select(b, n, k)
  {
    if k > 0 { SelectCongruent(a, m, b, n, k - 1); }
  }

  lemma {:induction false} SelectMember(slots: Slots, named: seq<bool>, k: nat, e: Entry)
    requires k <= |slots| == |named|
    ensures e in Select(slots, named, k) <==> exists i :: 0 <= i < k && named[i] && slots[i].entry == e
  {
    if k > 0 { SelectMember(slots, named, k - 1, e); }
  }

  lemma SelectedHas(slots: Slots, named: seq<bool>, i: nat)
    requires |slots| == |named| && i < |slots| && named[i]
    ensures slots[i].entry in Selected(slots, named)
  {
    SelectMember(slots, named, |slots|, slots[i].entry);
  }

  /** Changing a count without bringing it to or from zero keeps everything. */
  ghost predicate Recounts(s: State, m: nat, count: nat, refs: map<nat, int>) {
    && m < |s.slots| && s.slots[m].count > 0
    && 0 < count <= COUNT_MAX
    && refs.Keys == s.refs.Keys
    && (forall p | p in s.refs && p != s.slots[m].entry.port :: refs[p] == s.refs[p])
    && (count < COUNT_MAX && s.slots[m].entry.port in refs ==> refs[s.slots[m].entry.port] == count)
  }

  function Recounted(s: State, m: nat, count: nat, refs: map<nat, int>): State
    requires m < |s.slots|
  {
    s.(slots := s.slots[m := s.slots[m].(count := count)], refs := refs)
  }

  lemma RecountKeepsTable(s: State, m: nat, count: nat, refs: map<nat, int>)
    requires Inv(s) && Recounts(s, m, count, refs)
    ensures SlotsOk(Recounted(s, m, count, refs).slots) && Ledger(Recounted(s, m, count, refs))
  {}

  lemma RecountKeeps(s: State, m: nat, count: nat, refs: map<nat, int>)
    requires Inv(s) && Recounts(s, m, count, refs)
    ensures Inv(Recounted(s, m, count, refs))
  {
    var t := Recounted(s, m, count, refs);
    RecountKeepsTable(s, m, count, refs);
    SelectCongruent(s.slots, Counted(s.slots), t.slots, Counted(t.slots), |s.slots|);
    if s.push.InFlight? { SelectCongruent(s.slots, s.push.named, t.slots, s.push.named, |s.slots|); }
    assert forall i | 0 <= i < |s.slots| :: t.slots[i].Dirty() == s.slots[i].Dirty();
    assert AnyDirty(t.slots) <==> AnyDirty(s.slots);
    assert PushMatches(t.slots, t.push);
  }

  /** Marking one slot dirty keeps everything, as long as a push is scheduled and a
      slot the request in flight names keeps its entry. */
  lemma SoilKeeps(s: State, m: nat, slot: Slot, refs: map<nat, int>)
    requires Inv(s) && m < |s.slots|
    requires slot.Dirty() && slot.count <= COUNT_MAX
    requires slot.removing <==> slot.count == 0
    requires slot.adding ==> slot.count > 0
    requires slot.entry == s.slots[m].entry || s.slots[m].Empty()
    requires slot.count > 0 ==> slot.count == 1 && refs == s.refs[slot.entry.port := 1]
    requires slot.count > 0 ==> forall i | 0 <= i < |s.slots| && i != m :: !Matches(s.slots[i], slot.entry.port)
    requires slot.count == 0 ==> s.slots[m].count > 0 && refs == s.refs - {slot.entry.port}
    ensures Inv(s.(slots := s.slots[m := slot], scheduled := true, refs := refs))
  {
    var t := s.(slots := s.slots[m := slot], scheduled := true, refs := refs);
    assert t.slots[m].Dirty();
    assert forall i | 0 <= i < |s.slots| && i != m :: t.slots[i] == s.slots[i];
    assert SlotsOk(t.slots);
    assert Ledger(t);
    if s.push.InFlight? {
      assert s.push.named[m] ==> !s.slots[m].Empty();
      SelectCongruent(s.slots, s.push.named, t.slots, s.push.named, |s.slots|);
    }
    assert PushMatches(t.slots, t.push);
    assert FirmwareHas(t);
  }

  lemma AddKeeps(s: State, e: Entry)
    requires Inv(s)
    ensures Inv(Next(s, Add(e)))
  {
    match AddOutcome(s.slots, e)
    case Referenced =>
      var m := Lookup(s.slots, e.port);
      assert !s.slots[m].removing;
      RecountKeeps(s, m, Reference(s.slots[m]).count, Next(s, Add(e)).refs);
    case Inserted =>
      SoilKeeps(s, FirstEmpty(s.slots), Slot(e, 1, true, false), Next(s, Add(e)).refs);
    case _ =>
  }

  lemma DelKeeps(s: State, e: Entry)
    requires Inv(s)
    ensures Inv(Next(s, Del(e)))
  {
    var t := Next(s, Del(e));
    var m := Lookup(s.slots, e.port);
    if DelOutcome(s.slots, e) == Released {
      var slot := Release(s.slots[m]);
      assert slot == s.slots[m].(count := slot.count);
      assert t == s.(slots := s.slots[m := slot], refs := t.refs);
      RecountKeeps(s, m, slot.count, t.refs);
    } else if DelOutcome(s.slots, e) == Dropped {
      assert t == s.(slots := s.slots[m := Release(s.slots[m])], scheduled := true, refs := t.refs);
      SoilKeeps(s, m, Release(s.slots[m]), t.refs);
    }
  }

  /** A request may start from any state whose settled slots the firmware has. */
  lemma BeginKeeps(s: State)
    requires SlotsOk(s.slots) && Ledger(s)
    requires !s.stale ==> forall i | 0 <= i < |s.slots| && s.slots[i].Settled() :: s.slots[i].entry in s.hw
    ensures Inv(Begin(s))
  {}

  lemma ReconcileSettles(s: State)
    requires Inv(s) && s.push.InFlight? && s.push.applied
    ensures var r := Reconcile(s.slots, s.push.named);
            && SlotsOk(r) && Ledger(s.(slots := r))
            && forall i | 0 <= i < |r| ::
                 && r[i].entry == s.slots[i].entry && r[i].count == s.slots[i].count
                 && (r[i].adding <==> s.slots[i].adding && !s.push.named[i])
                 && (r[i].removing <==> s.slots[i].removing && s.push.named[i])
  {
    var named, r := s.push.named, Reconcile(s.slots, s.push.named);
    assert forall i | 0 <= i < |r| ::
        && r[i].entry == s.slots[i].entry && r[i].count == s.slots[i].count
        && r[i].adding == (s.slots[i].adding && !named[i]) && r[i].removing == (s.slots[i].removing && named[i]);
  }

  lemma ReconcileConfirms(s: State)
    requires Inv(s) && s.push.InFlight? && s.push.applied
    ensures var r := Reconcile(s.slots, s.push.named);
            && (!s.stale ==> forall i | 0 <= i < |r| && r[i].Settled() :: r[i].entry in s.hw)
  {
    var named, r := s.push.named, Reconcile(s.slots, s.push.named);
    assert forall i | 0 <= i < |r| :: r[i] == Reconciled(s.slots[i], named[i]);
    forall i | 0 <= i < |r| && r[i].Settled() && !s.stale ensures r[i].entry in s.hw {
      assert named[i];
      SelectedHas(s.slots, named, i);
    }
  }

  /** When nothing is left to do, the request named exactly the referenced slots. */
  lemma ReconcileExact(s: State)
    requires Inv(s) && s.push.InFlight? && !AnyDirty(Reconcile(s.slots, s.push.named))
    ensures var r := Reconcile(s.slots, s.push.named); s.push.list == Selected(r, Counted(r))
  {
    var named, r := s.push.named, Reconcile(s.slots, s.push.named);
    forall i | 0 <= i < |r| ensures named[i] <==> r[i].count > 0 {
      assert r[i] == Reconciled(s.slots[i], named[i]);
      assert !r[i].Dirty();
    }
    SelectCongruent(s.slots, named, r, Counted(r), |r|);
  }

  lemma PushOkKeeps(s: State)
    requires Inv(s)
    ensures Inv(Next(s, PushOk))
  {
    if s.push.InFlight? && s.push.applied {
      ReconcileSettles(s);
      ReconcileConfirms(s);
      var t := s.(slots := Reconcile(s.slots, s.push.named));
      if AnyDirty(t.slots) { BeginKeeps(t); } else { ReconcileExact(s); }
    }
  }

  lemma PushEioKeeps(s: State)
    requires Inv(s)
    ensures Inv(Next(s, PushEio))
  {
    if s.push.InFlight? {
      var r := Forget(s.slots);
      assert forall i | 0 <= i < |r| :: r[i] == Forgotten(s.slots[i]);
    }
  }

  lemma StepKeeps(s: State, step: Step)
    requires Inv(s)
    ensures Inv(Next(s, step))
  {
    match step
    case Add(e) => AddKeeps(s, e);
    case Del(e) => DelKeeps(s, e);
    case WorkRuns => if s.scheduled && !s.busy { BeginKeeps(s.(scheduled := false)); }
    case SyncPush => if !s.busy { BeginKeeps(s); }
    case FirmwareApplies =>
      if s.push.InFlight? {
        forall i | 0 <= i < |s.slots| && s.slots[i].Settled() ensures s.slots[i].entry in s.push.list {
          SelectedHas(s.slots, s.push.named, i);
        }
      }
    case FirmwareReboots =>
    case PushOk => PushOkKeeps(s);
    case PushError =>
    case PushEio => PushEioKeeps(s);
  }

  // ---- Whole runs ----

  lemma {:induction false} RunKeeps(s: State, steps: seq<Step>)
    requires Inv(s)
    ensures Inv(Exec(s, steps))
    decreases |steps|
  {
    if steps != [] {
      StepKeeps(s, steps[0]);
      RunKeeps(Next(s, steps[0]), steps[1..]);
    }
  }

  /** The states of every interleaving, from an empty table of any size. */
  ghost predicate Reachable(s: State) {
    exists n, steps :: s == Exec(Init(n), steps)
  }

  lemma {:induction false} NothingSelected(slots: Slots, named: seq<bool>, k: nat)
    requires k <= |slots| == |named| && forall i | 0 <= i < k :: !named[i]
    ensures Select(slots, named, k) == []
  {
    if k > 0 { NothingSelected(slots, named, k - 1); }
  }

  lemma ReachableInv(s: State)
    requires Reachable(s)
    ensures Inv(s)
  {
    var n, steps :| s == Exec(Init(n), steps);
    NothingSelected(Init(n).slots, Counted(Init(n).slots), n);
    RunKeeps(Init(n), steps);
  }

  /** Safety in every interleaving: a port the transmit path may offload is in the
      firmware's table with the type the driver believes, and in any request in flight. */
  lemma HasPortSound(s: State, port: nat)
    requires Reachable(s) && HasPort(s.slots, port)
    ensures var e := s.slots[Lookup(s.slots, port)].entry;
            && e.port == port
            && (!s.stale ==> e in s.hw)
            && (s.push.InFlight? ==> e in s.push.list)
  {
    ReachableInv(s);
    var i := Lookup(s.slots, port);
    assert s.slots[i].Settled();
    if s.push.InFlight? { SelectedHas(s.slots, s.push.named, i); }
  }

  lemma NoLostUpdate(s: State)
    requires Reachable(s) && AnyDirty(s.slots)
    ensures s.busy || s.scheduled || s.failed
  {
    ReachableInv(s);
  }

  lemma QuietTableIsExact(s: State, port: nat)
    requires SlotsOk(s.slots) && !AnyDirty(s.slots) && s.hw == Selected(s.slots, Counted(s.slots))
    ensures HasPort(s.slots, port) <==> exists e :: e in s.hw && e.port == port
  {
    assert forall i | 0 <= i < |s.slots| :: !s.slots[i].Dirty();
    if HasPort(s.slots, port) {
      SelectedHas(s.slots, Counted(s.slots), Lookup(s.slots, port));
    }
    forall e | e in s.hw && e.port == port ensures HasPort(s.slots, port) {
      SelectMember(s.slots, Counted(s.slots), |s.slots|, e);
    }
  }

  /** A push that ends well leaves the firmware with exactly the referenced entries, in
      slot order, and the transmit path offloads exactly the ports the firmware has. */
  lemma SuccessfulPushIsExact(s: State, port: nat)
    requires Reachable(s) && s.push.InFlight? && !Next(s, PushOk).push.InFlight?
    ensures var t := Next(s, PushOk);
            && !AnyDirty(t.slots)
            && (!t.stale ==> t.hw == Selected(t.slots, Counted(t.slots)))
            && (!t.stale ==> (HasPort(t.slots, port) <==> exists e :: e in t.hw && e.port == port))
  {
    ReachableInv(s);
    ReconcileSettles(s);
    ReconcileExact(s);
    var t := Next(s, PushOk);
    if !t.stale { QuietTableIsExact(t, port); }
  }

  lemma CountsFollowLedger(s: State, i: nat, j: nat)
    requires Reachable(s) && i < |s.slots| && j < |s.slots| && s.slots[i].count > 0 && s.slots[j].count > 0
    ensures i != j ==> s.slots[i].entry.port != s.slots[j].entry.port
    ensures s.slots[i].entry.port in s.refs
    ensures s.slots[i].count == COUNT_MAX || s.slots[i].count == s.refs[s.slots[i].entry.port]
  {
    ReachableInv(s);
  }

  predicate Interferes(step: Step) { !step.PushOk? && !step.PushError? && !step.PushEio? }

  ghost predicate SameRequest(s: State, t: State) {
    && s.push.InFlight? && t.push.InFlight?
    && t.push.named == s.push.named && t.push.list == s.push.list
    && |t.slots| == |s.slots| == |s.push.named|
    && forall i | 0 <= i < |s.slots| && s.push.named[i] :: t.slots[i].entry == s.slots[i].entry
  }

  lemma NamedSlotsSurviveStep(s: State, step: Step)
    requires Inv(s) && s.push.InFlight? && Interferes(step)
    ensures SameRequest(s, Next(s, step))
  {
    assert forall i | 0 <= i < |s.slots| && s.push.named[i] :: !s.slots[i].Empty();
  }

  /** Whatever lands while a request is in flight, the request stays as it was sent and
      no slot it names is given to another port. */
  lemma {:induction false} NamedSlotsAreKept(s: State, steps: seq<Step>)
    requires Inv(s) && s.push.InFlight? && forall k | 0 <= k < |steps| :: Interferes(steps[k])
    ensures SameRequest(s, Exec(s, steps))
    decreases |steps|
  {
    if steps != [] {
      var u := Next(s, steps[0]);
      assert Inv(u) by { StepKeeps(s, steps[0]); }
      NamedSlotsSurviveStep(s, steps[0]);
      NamedSlotsAreKept(u, steps[1..]);
    }
  }

  // ---- What adding and deleting do to the slots ----

  /** A port that no slot counts takes the first free slot, if there is one, and a push is
      scheduled. */
  lemma AddTakesFreeSlot(s: State, e: Entry, free: nat) returns (i: nat)
    requires forall j | 0 <= j < |s.slots| :: s.slots[j].count == 0 || s.slots[j].entry.port != e.port
    requires free < |s.slots| && s.slots[free].count == 0 && !s.slots[free].adding && !s.slots[free].removing
    ensures i <= free && s.slots[i].count == 0 && !s.slots[i].adding && !s.slots[i].removing
    ensures forall j | 0 <= j < i :: s.slots[j].count > 0 || s.slots[j].adding || s.slots[j].removing
    ensures Next(s, Add(e)) ==
            s.(slots := s.slots[i := Slot(e, 1, true, false)], scheduled := true, refs := s.refs[e.port := 1])
  {
    assert Lookup(s.slots, e.port) == NO_MATCH;
    assert s.slots[free].Empty();
    i := FirstEmpty(s.slots);
  }

  /** Without a free slot nothing happens. */
  lemma AddNeedsRoom(s: State, e: Entry)
    requires forall j | 0 <= j < |s.slots| :: s.slots[j].count == 0 || s.slots[j].entry.port != e.port
    requires forall j | 0 <= j < |s.slots| :: s.slots[j].count > 0 || s.slots[j].adding || s.slots[j].removing
    ensures Next(s, Add(e)) == s
  {
    assert Lookup(s.slots, e.port) == NO_MATCH;
    assert forall j | 0 <= j < |s.slots| :: !s.slots[j].Empty();
  }

  /** A port that slot `i` counts gains a reference there, up to 0x3fff, if the kind is the
      same; and else nothing happens. */
  lemma AddCounts(s: State, e: Entry, i: nat)
    requires Reachable(s) && i < |s.slots| && s.slots[i].count > 0 && s.slots[i].entry.port == e.port
    ensures s.slots[i].entry.kind != e.kind ==> Next(s, Add(e)) == s
    ensures var count, t := s.slots[i].count, Next(s, Add(e));
            s.slots[i].entry.kind == e.kind ==>
              && t == s.(slots := s.slots[i := s.slots[i].(count := if count < 0x3fff then count + 1 else 0x3fff)],
                         refs := t.refs)
              && t.refs.Keys == s.refs.Keys && e.port in s.refs
              && forall p | p in s.refs :: t.refs[p] == if p == e.port then s.refs[p] + 1 else s.refs[p]
  {
    ReachableInv(s);
    OnlyMatch(s, i);
  }

  lemma OnlyMatch(s: State, i: nat)
    requires Inv(s) && i < |s.slots| && s.slots[i].count > 0
    ensures Lookup(s.slots, s.slots[i].entry.port) == i && !s.slots[i].removing && s.slots[i].count <= COUNT_MAX
    ensures s.slots[i].entry.port in s.refs
  {
    assert Matches(s.slots[i], s.slots[i].entry.port);
  }

  /** Deleting a port that no slot counts does nothing. */
  lemma DelOfAbsent(s: State, e: Entry)
    requires forall j | 0 <= j < |s.slots| :: s.slots[j].count == 0 || s.slots[j].entry.port != e.port
    ensures Next(s, Del(e)) == s
  {
    assert Lookup(s.slots, e.port) == NO_MATCH;
  }

  /** Deleting takes a reference, but none from a count that has reached 0x3fff; the last one
      marks the slot as removing and schedules a push; and with another kind nothing happens. */
  lemma DelCounts(s: State, e: Entry, i: nat)
    requires Reachable(s) && i < |s.slots| && s.slots[i].count > 0 && s.slots[i].entry.port == e.port
    ensures s.slots[i].entry.kind != e.kind ==> Next(s, Del(e)) == s
    ensures s.slots[i].entry.kind == e.kind && s.slots[i].count == 1 ==>
            Next(s, Del(e)) == s.(slots := s.slots[i := Slot(s.slots[i].entry, 0, false, true)],
                                  scheduled := true, refs := s.refs - {e.port})
    ensures var count, t := s.slots[i].count, Next(s, Del(e));
            s.slots[i].entry.kind == e.kind && count > 1 ==>
              && t == s.(slots := s.slots[i := s.slots[i].(count := if count < 0x3fff then count - 1 else 0x3fff)],
                         refs := t.refs)
              && t.refs.Keys == s.refs.Keys && e.port in s.refs
              && forall p | p in s.refs :: t.refs[p] == if p == e.port then s.refs[p] - 1 else s.refs[p]
  {
    ReachableInv(s);
    OnlyMatch(s, i);
  }

  /** Every counted slot is to be added again, and none to be removed. */
  ghost predicate ForAddingAgain(was: Slots, now: Slots) {
    && |now| == |was|
    && forall i | 0 <= i < |was| :: now[i] == Slot(was[i].entry, was[i].count, was[i].adding || was[i].count > 0, false)
  }

  lemma ForgetIsForAdding(slots: Slots)
    ensures ForAddingAgain(slots, Forget(slots))
  {
    assert forall i | 0 <= i < |slots| :: Forget(slots)[i] == Forgotten(slots[i]);
  }

  /** When the firmware has rebooted under a request, the driver wants every counted port
      added again and none removed, and until then offloads none. */
  lemma EioForgetsAll(s: State, port: nat)
    requires Reachable(s) && s.push.InFlight?
    ensures var t := Next(s, PushEio);
            && |t.slots| == |s.slots| && !t.busy && t.failed && !HasPort(t.slots, port)
            && forall i | 0 <= i < |t.slots| ::
                 t.slots[i] == Slot(s.slots[i].entry, s.slots[i].count, s.slots[i].count > 0, false)
  {
    ReachableInv(s);
    var t := Next(s, PushEio);
    forall i | 0 <= i < |t.slots|
      ensures t.slots[i] == Slot(s.slots[i].entry, s.slots[i].count, s.slots[i].count > 0, false) {
      assert t.slots[i] == Forgotten(s.slots[i]);
    }
  }

  // ---- How long a push loops ----

  predicate HoldsPortZero(slots: Slots) { exists i | 0 <= i < |slots| :: Matches(slots[i], 0) }

  const ONE_PASS := [FirmwareApplies, PushOk]

  function RunPasses(s: State, k: nat): State
    decreases k
  {
    if k == 0 then s else RunPasses(Exec(s, ONE_PASS), k - 1)
  }

  ghost predicate JustBegun(s: State) {
    Inv(s) && s.push == InFlight(Snapshot(s.slots), Selected(s.slots, Snapshot(s.slots)), false)
  }

  /** What one undisturbed answer leaves to do: the slots of port 0, which no request names. */
  lemma PassLeavesPortZero(slots: Slots)
    requires SlotsOk(slots)
    ensures var r := Reconcile(slots, Snapshot(slots));
            && (AnyDirty(r) <==> HoldsPortZero(slots))
            && (HoldsPortZero(slots) <==> HoldsPortZero(r))
  {
    var r := Reconcile(slots, Snapshot(slots));
    assert forall i | 0 <= i < |r| :: r[i] == Reconciled(slots[i], Pushable(slots[i]));
    if HoldsPortZero(slots) {
      var i :| 0 <= i < |slots| && Matches(slots[i], 0);
      assert r[i].Dirty() && Matches(r[i], 0);
    }
    if AnyDirty(r) {
      var i :| 0 <= i < |r| && r[i].Dirty();
      assert Matches(slots[i], 0);
    }
    if HoldsPortZero(r) {
      var i :| 0 <= i < |r| && Matches(r[i], 0);
      assert Matches(slots[i], 0);
    }
  }

  lemma PassEffect(s: State)
    requires JustBegun(s)
    ensures var t := Exec(s, ONE_PASS);
            && t.push.InFlight? == t.busy == HoldsPortZero(s.slots)
            && (HoldsPortZero(s.slots) ==> HoldsPortZero(t.slots) && JustBegun(t))
  {
    var u := Next(s, FirmwareApplies);
    assert Exec(s, ONE_PASS) == Exec(u, [PushOk]) == Next(u, PushOk);
    assert Inv(Next(u, PushOk)) by { StepKeeps(s, FirmwareApplies); StepKeeps(u, PushOk); }
    PassLeavesPortZero(s.slots);
  }

  /** Left alone, a push ends after one pass exactly when no referenced slot has port 0. */
  lemma UndisturbedPushEndsInOnePass(s: State)
    requires Reachable(s) && !s.busy
    ensures Exec(s, [SyncPush] + ONE_PASS).busy <==> HoldsPortZero(s.slots)
  {
    ReachableInv(s);
    BeginKeeps(s);
    assert ([SyncPush] + ONE_PASS)[1..] == ONE_PASS;
    PassEffect(Begin(s));
  }

  /** With port 0 in the table the push repeats its request for ever. */
  lemma {:induction false} PortZeroLoops(s: State, k: nat)
    requires JustBegun(s) && HoldsPortZero(s.slots)
    ensures RunPasses(s, k).busy
    decreases k
  {
    if k > 0 {
      PassEffect(s);
      PortZeroLoops(Exec(s, ONE_PASS), k - 1);
    }
  }

  /** An idle table takes a new port all the way: added, pushed without interference and
      answered, the firmware has the entry and the transmit path offloads the port. */
  lemma AddedIsOffloaded(s: State, e: Entry, free: nat)
    requires Reachable(s) && !s.busy && e.port != 0
    requires forall j | 0 <= j < |s.slots| && s.slots[j].count > 0 ::
               s.slots[j].entry.port != 0 && s.slots[j].entry.port != e.port
    requires free < |s.slots| && s.slots[free].count == 0 && !s.slots[free].adding && !s.slots[free].removing
    ensures var t := Exec(s, [Add(e), WorkRuns, FirmwareApplies, PushOk]);
            && e in t.hw && !t.busy && HasPort(t.slots, e.port)
            && exists i :: 0 <= i < |t.slots| && t.slots[i] == Slot(e, 1, false, false)
  {
    var i := AddTakesFreeSlot(s, e, free);
    var a := Next(s, Add(e));
    var b := Next(a, WorkRuns);
    ReachableInv(s);
    StepKeeps(s, Add(e));
    BeginKeeps(a.(scheduled := false));
    assert JustBegun(b) && b.slots[i] == Slot(e, 1, true, false) && !HoldsPortZero(b.slots);
    PushedWhole(s, a, b, e);
    hide Inv, Next, Exec;
    CountedIsOffloaded(b, e, i);
  }

  lemma CountedIsOffloaded(s: State, e: Entry, i: nat)
    requires JustBegun(s) && !HoldsPortZero(s.slots) && i < |s.slots| && s.slots[i] == Slot(e, 1, true, false)
    ensures var t := Exec(s, ONE_PASS);
            e in t.hw && !t.busy && HasPort(t.slots, e.port) && i < |t.slots| && t.slots[i] == Slot(e, 1, false, false)
  {
    PassEffect(s);
    var c := Next(s, FirmwareApplies);
    OnePassIs(s);
    StepKeeps(s, FirmwareApplies);
    StepKeeps(c, PushOk);
    AppliedIsOffloaded(c, e, i);
  }

  lemma OnePassIs(s: State)
    ensures Exec(s, ONE_PASS) == Next(Next(s, FirmwareApplies), PushOk)
  {
    assert ONE_PASS[1..] == [PushOk];
    ExecOne(Next(s, FirmwareApplies), PushOk);
  }

  lemma AppliedIsOffloaded(s: State, e: Entry, i: nat)
    requires Inv(s) && s.push.InFlight? && s.push.applied && !s.stale && i < |s.slots|
    requires s.slots[i].entry == e && s.slots[i].count == 1
    requires var t := Next(s, PushOk); Inv(t) && !t.push.InFlight?
    ensures var t := Next(s, PushOk);
            e in t.hw && !t.busy && HasPort(t.slots, e.port) && i < |t.slots| && t.slots[i] == Slot(e, 1, false, false)
  {
    ReconcileSettles(s);
    ReconcileExact(s);
    var r, t := Reconcile(s.slots, s.push.named), Next(s, PushOk);
    assert t.slots == r && !r[i].Dirty();
    SelectedHas(r, Counted(r), i);
    OnlyMatch(t, i);
  }

  lemma PushedWhole(s: State, a: State, b: State, e: Entry)
    requires a == Next(s, Add(e)) && b == Next(a, WorkRuns)
    ensures Exec(s, [Add(e), WorkRuns, FirmwareApplies, PushOk]) == Exec(b, ONE_PASS)
  {
    assert [Add(e), WorkRuns, FirmwareApplies, PushOk][1..] == [WorkRuns] + ONE_PASS;
    assert ([WorkRuns] + ONE_PASS)[1..] == ONE_PASS;
  }

  /** The source revives a slot whose removal is still pending when its port is added
      again. That branch never runs: the lookup passes over such a slot, so the port takes
      a second slot (or none is left) and the first one only waits for its removal. */
  lemma PendingRemovalIsNotRevived(s: State, i: nat, e: Entry)
    requires Reachable(s) && i < |s.slots| && s.slots[i].removing
    ensures AddSlots(s.slots, e)[i] == s.slots[i]
    ensures Lookup(s.slots, e.port) != NO_MATCH ==> !s.slots[Lookup(s.slots, e.port)].removing
  {
    ReachableInv(s);
  }

  // ---- The driver's code, in place on the slot array ----

  datatype Op = OpAdd(e: Entry) | OpDel(e: Entry)
  datatype Reply = Ok | Error | Eio

  /** One firmware call: what others do to the table meanwhile, and how it ends. */
  datatype Call = Call(during: seq<Op>, reply: Reply)

  function OpStep(op: Op): Step {
    match op case OpAdd(e) => Add(e) case OpDel(e) => Del(e)
  }

  function OpSteps(ops: seq<Op>): seq<Step> {
    seq(|ops|, k requires 0 <= k < |ops| => OpStep(ops[k]))
  }

  function ReplySteps(reply: Reply): seq<Step> {
    match reply
    case Ok => [FirmwareApplies, PushOk]
    case Error => [PushError]
    case Eio => [PushEio]
  }

  function CallSteps(call: Call): seq<Step> {
    OpSteps(call.during) + ReplySteps(call.reply)
  }

  /** How a push ends: the calls it has made, the lists they sent, and the state after them. */
  datatype Ending = Ending(used: nat, sent: seq<seq<Entry>>, state: State)

  /** A push that has begun goes on as long as its calls succeed and leave something to do. */
  function Pushing(s: State, calls: seq<Call>): (e: Ending)
    ensures e.used == |e.sent| <= |calls|
    decreases |calls|
  {
    if calls == [] || !s.push.InFlight? then Ending(0, [], s)
    else
      var rest := Pushing(Exec(s, CallSteps(calls[0])), calls[1..]);
      Ending(rest.used + 1, [s.push.list] + rest.sent, rest.state)
  }

  function AllSteps(calls: seq<Call>): seq<Step> {
    if calls == [] then [] else CallSteps(calls[0]) + AllSteps(calls[1..])
  }

  /** The protocol's steps were performed for each of the calls made; all of them but the last
      were answered well; the push is still under way only if there were no more calls. */
  ghost predicate RunOf(s: State, calls: seq<Call>, e: Ending) {
    GoodButLast(s.failed, calls, e) && e.state == Exec(s, AllSteps(calls[..e.used]))
  }

  ghost predicate GoodButLast(failed: bool, calls: seq<Call>, e: Ending) {
    && e.used == |e.sent| <= |calls|
    && (forall i | 0 <= i < e.used - 1 :: calls[i].reply.Ok?)
    && (e.state.push.InFlight? ==> e.used == |calls|)
    && (!failed ==> (e.state.failed <==> e.used > 0 && !calls[e.used - 1].reply.Ok?))
    && (calls != [] ==> e.used > 0)
  }

  lemma {:induction false} PushingIsRun(s: State, calls: seq<Call>)
    requires Inv(s) && s.push.InFlight?
    ensures RunOf(s, calls, Pushing(s, calls))
    decreases |calls|
  {
    if calls == [] {
      assert calls[..0] == [];
    } else {
      var t := Exec(s, CallSteps(calls[0]));
      CallEnds(s, calls[0]);
      assert !t.push.InFlight? ==> Pushing(t, calls[1..]) == Ending(0, [], t);
      hide Inv, Exec, CallSteps, RunOf;
      if t.push.InFlight? { PushingIsRun(t, calls[1..]); }
      RunOneMore(s, calls, Pushing(t, calls[1..]));
    }
  }

  lemma RunOneMore(s: State, calls: seq<Call>, rest: Ending)
    requires calls != [] && rest.used < |calls|
    requires var t := Exec(s, CallSteps(calls[0]));
             && (!s.failed ==> (t.failed <==> !calls[0].reply.Ok?))
             && s.push.InFlight?
             && if t.push.InFlight? then calls[0].reply.Ok? && RunOf(t, calls[1..], rest)
                else rest == Ending(0, [], t)
    ensures RunOf(s, calls, Ending(rest.used + 1, [s.push.list] + rest.sent, rest.state))
  {
    StepsFromFirst(s, calls, rest.used);
    var t := Exec(s, CallSteps(calls[0]));
    hide Exec, CallSteps, AllSteps;
    GoodOneMore(s.failed, t, calls, s.push.list, rest);
    hide GoodButLast;
  }

  lemma GoodOneMore(failed: bool, t: State, calls: seq<Call>, list: seq<Entry>, rest: Ending)
    requires calls != [] && rest.used < |calls| && (!failed ==> (t.failed <==> !calls[0].reply.Ok?))
    requires if t.push.InFlight? then calls[0].reply.Ok? && GoodButLast(t.failed, calls[1..], rest)
             else rest == Ending(0, [], t)
    ensures GoodButLast(failed, calls, Ending(rest.used + 1, [list] + rest.sent, rest.state))
  {
    if t.push.InFlight? { GoodBefore(calls, rest.used); }
  }

  lemma GoodBefore(calls: seq<Call>, k: nat)
    requires k < |calls| && calls[0].reply.Ok? && forall i | 0 <= i < k - 1 :: calls[1..][i].reply.Ok?
    ensures forall i | 0 <= i < k :: calls[i].reply.Ok?
    ensures k > 0 ==> calls[k] == calls[1..][k - 1]
  {
    forall i | 0 < i < k ensures calls[i].reply.Ok? { assert calls[1..][i - 1] == calls[i]; }
  }

  lemma StepsFromFirst(s: State, calls: seq<Call>, k: nat)
    requires k < |calls|
    ensures Exec(s, AllSteps(calls[..k + 1])) == Exec(Exec(s, CallSteps(calls[0])), AllSteps(calls[1..][..k]))
    ensures k == 0 ==> Exec(s, AllSteps(calls[..k + 1])) == Exec(s, CallSteps(calls[0]))
  {
    assert calls[..k + 1][0] == calls[0] && calls[..k + 1][1..] == calls[1..][..k];
    hide CallSteps;
    ExecAppend(s, CallSteps(calls[0]), AllSteps(calls[1..][..k]));
    if k == 0 { assert calls[1..][..k] == []; assert AllSteps([]) == []; }
  }

  lemma {:induction false} OpsKeepPush(s: State, ops: seq<Op>)
    ensures var t := Exec(s, OpSteps(ops)); t.push == s.push && t.failed == s.failed && t.busy == s.busy
    decreases |ops|
  {
    if ops != [] {
      OpsKeepPush(Next(s, OpStep(ops[0])), ops[1..]);
      assert OpSteps(ops)[0] == OpStep(ops[0]) && OpSteps(ops)[1..] == OpSteps(ops[1..]);
    }
  }

  lemma ReplyEnds(t: State, reply: Reply)
    requires t.push.InFlight?
    ensures var u := Exec(t, ReplySteps(reply));
            && (u.push.InFlight? ==> reply.Ok?)
            && (!t.failed ==> (u.failed <==> !reply.Ok?))
  {
    match reply
    case Eio => ExecOne(t, PushEio);
    case Error => ExecOne(t, PushError);
    case Ok =>
      ExecAppend(t, [FirmwareApplies], [PushOk]);
      ExecOne(t, FirmwareApplies);
      ExecOne(Next(t, FirmwareApplies), PushOk);
      assert [FirmwareApplies] + [PushOk] == ReplySteps(Ok);
  }

  /** What a good answer does. */
  lemma GoodReplySteps(s: State)
    requires s.push.InFlight? && |s.push.named| == |s.slots|
    ensures var t, r := Exec(s, ReplySteps(Ok)), Reconcile(s.slots, s.push.named);
            && t.slots == r && t.busy == t.push.InFlight? == AnyDirty(r) && t.scheduled == s.scheduled
            && !t.stale && (AnyDirty(r) ==> t.push == InFlight(Snapshot(r), Selected(r, Snapshot(r)), false))
  {
    ExecAppend(s, [FirmwareApplies], [PushOk]);
    assert [FirmwareApplies] + [PushOk] == ReplySteps(Ok);
    ExecOne(s, FirmwareApplies);
    ExecOne(Next(s, FirmwareApplies), PushOk);
    hide Exec, Selected, Snapshot, Reconcile, AnyDirty;
  }

  lemma GoodReply(s: State)
    requires Inv(s) && s.push.InFlight?
    ensures |s.push.named| == |s.slots|
    ensures var t, r := Exec(s, ReplySteps(Ok)), Reconcile(s.slots, s.push.named);
            && Inv(t) && t.slots == r && t.busy == t.push.InFlight? == AnyDirty(r) && t.scheduled == s.scheduled
            && !t.stale && (AnyDirty(r) ==> t.push == InFlight(Snapshot(r), Selected(r, Snapshot(r)), false))
  {
    RunKeeps(s, ReplySteps(Ok));
    GoodReplySteps(s);
    hide SlotsOk, FirmwareHas, Ledger, Exec, Selected, Snapshot, Reconcile, AnyDirty, ReplySteps;
  }

  /** A call that is not answered well ends the push. */
  lemma CallEnds(s: State, call: Call)
    requires Inv(s) && s.push.InFlight?
    ensures Inv(Exec(s, CallSteps(call)))
    ensures Exec(s, CallSteps(call)).push.InFlight? ==> call.reply.Ok?
    ensures !s.failed ==> (Exec(s, CallSteps(call)).failed <==> !call.reply.Ok?)
  {
    RunKeeps(s, CallSteps(call));
    ExecAppend(s, OpSteps(call.during), ReplySteps(call.reply));
    OpsKeepPush(s, call.during);
    ReplyEnds(Exec(s, OpSteps(call.during)), call.reply);
    hide Inv, Exec, OpSteps, ReplySteps;
  }

  /** Nothing to do, and the firmware has exactly the referenced entries. */
  ghost predicate Exact(s: State) { !AnyDirty(s.slots) && s.hw == Selected(s.slots, Counted(s.slots)) }

  ghost predicate EndsExactly(e: Ending, calls: seq<Call>) {
    && e.used <= |calls|
    && (!e.state.push.InFlight? && e.used > 0 && calls[e.used - 1].reply.Ok? ==> Exact(e.state))
  }

  /** A push whose last call is answered well leaves it so. */
  lemma {:induction false} GoodEndIsExact(s: State, calls: seq<Call>)
    requires Inv(s) && s.push.InFlight? && !s.failed
    ensures EndsExactly(Pushing(s, calls), calls)
    decreases |calls|
  {
    if calls != [] {
      var t := Exec(s, CallSteps(calls[0]));
      CallEnds(s, calls[0]);
      hide Inv, Exec, CallSteps, Exact;
      if t.push.InFlight? {
        PushingIsRun(t, calls[1..]);
        GoodEndIsExact(t, calls[1..]);
      } else if calls[0].reply.Ok? {
        LastCall(s, calls[0]);
      }
    }
  }

  lemma LastCall(s: State, call: Call)
    requires Inv(s) && s.push.InFlight? && !s.failed && call.reply.Ok?
    ensures var t := Exec(s, CallSteps(call));
            !t.push.InFlight? ==> Exact(t)
  {
    var ops := OpSteps(call.during);
    CallEnds(s, call);
    ExecAppend(s, ops, ReplySteps(call.reply));
    OpsKeepPush(s, call.during);
    RunKeeps(s, ops);
    GoodReply(Exec(s, ops));
    hide Exec, OpSteps, ReplySteps, SlotsOk, Ledger, PushMatches, Selected, Counted, Reconcile;
  }

  /** The push `all`, when `used` calls have been made and have led to `t`. */
  ghost predicate SoFar(all: Ending, t: State, calls: seq<Call>, used: nat, sent: seq<seq<Entry>>)
    requires used <= |calls|
  {
    var rest := Pushing(t, calls[used..]);
    all == Ending(used + rest.used, sent + rest.sent, rest.state)
  }

  lemma NoneMade(s: State, calls: seq<Call>)
    ensures SoFar(Pushing(s, calls), s, calls, 0, [])
  {
    assert calls[0..] == calls;
    hide Pushing;
  }

  lemma SoFarMore(all: Ending, t: State, calls: seq<Call>, used: nat, sent: seq<seq<Entry>>)
    requires used < |calls| && t.push.InFlight? && SoFar(all, t, calls, used, sent)
    ensures SoFar(all, Exec(t, CallSteps(calls[used])), calls, used + 1, sent + [t.push.list])
  {
    assert calls[used..][1..] == calls[used + 1..];
    var rest := Pushing(Exec(t, CallSteps(calls[used])), calls[used + 1..]);
    assert Pushing(t, calls[used..]) == Ending(rest.used + 1, [t.push.list] + rest.sent, rest.state);
    hide Pushing, Exec, CallSteps;
    assert sent + ([t.push.list] + rest.sent) == (sent + [t.push.list]) + rest.sent;
  }

  lemma SoFarAll(all: Ending, t: State, calls: seq<Call>, used: nat, sent: seq<seq<Entry>>)
    requires used <= |calls| && (used == |calls| || !t.push.InFlight?) && SoFar(all, t, calls, used, sent)
    ensures all == Ending(used, sent, t)
  {}

  lemma AddMoves(s: State, e: Entry)
    requires Inv(s)
    ensures var t, m := Next(s, Add(e)), Lookup(s.slots, e.port);
            && Inv(t) && t.busy == s.busy
            && if m != NO_MATCH then
                 t.scheduled == s.scheduled
                 && t.slots == if s.slots[m].entry.kind == e.kind then s.slots[m := Reference(s.slots[m])] else s.slots
               else
                 var i := FirstEmpty(s.slots);
                 t.scheduled == (s.scheduled || i != NO_MATCH)
                 && t.slots == if i != NO_MATCH then s.slots[i := Slot(e, 1, true, false)] else s.slots
  {
    AddKeeps(s, e);
    hide Inv, Lookup, FirstEmpty, Reference;
  }

  lemma DelMoves(s: State, e: Entry)
    requires Inv(s)
    ensures var t, m := Next(s, Del(e)), Lookup(s.slots, e.port);
            && Inv(t) && t.busy == s.busy
            && if m != NO_MATCH && s.slots[m].entry.kind == e.kind then
                 t.scheduled == (s.scheduled || Release(s.slots[m]).count == 0)
                 && t.slots == s.slots[m := Release(s.slots[m])]
               else t.scheduled == s.scheduled && t.slots == s.slots
  {
    DelKeeps(s, e);
    hide Inv, Lookup, Release;
  }

  /** `model` is the protocol state the table is in; every method moves it by the steps
      its code performs. */
  class TunnelTable {
    const slots: array<Slot>
    var busy: bool
    var scheduled: bool
    ghost var model: State

    ghost predicate Valid()
      reads this, slots
    {
      model.slots == slots[..] && model.busy == busy && model.scheduled == scheduled && Inv(model)
    }

    constructor (n: nat)
      ensures Valid() && fresh(slots) && model == Init(n)
    {
      slots := new Slot[n](_ => Slot(Entry(0, 0), 0, false, false));
      busy, scheduled := false, false;
      model := Init(n);
      new;
      assert slots[..] == Init(n).slots;
      NothingSelected(Init(n).slots, Counted(Init(n).slots), n);
    }

    method LookupPort(port: nat) returns (i: int)
      ensures i == Lookup(slots[..], port)
    {
      i := 0;
      while i < slots.Length
        invariant 0 <= i <= slots.Length
        invariant Lookup(slots[..], port) == Lookup(slots[..], port, i)
      {
        if slots[i].count != 0 && slots[i].entry.port == port { return; }
        i := i + 1;
      }
      return NO_MATCH;
    }

    method ReferenceSlot(m: nat)
      requires m < slots.Length
      modifies slots
      ensures slots[..] == old(slots[..])[m := Reference(old(slots[m]))]
    {
      if slots[m].count < COUNT_MAX { slots[m] := slots[m].(count := slots[m].count + 1); }
      if slots[m].removing { slots[m] := slots[m].(removing := false, adding := true); }
    }

    method ReleaseSlot(m: nat) returns (dropped: bool)
      requires m < slots.Length && slots[m].count > 0
      modifies slots
      ensures slots[..] == old(slots[..])[m := Release(old(slots[m]))]
      ensures dropped == (slots[m].count == 0)
    {
      if slots[m].count != COUNT_MAX { slots[m] := slots[m].(count := slots[m].count - 1); }
      if slots[m].count != 0 { return false; }
      if slots[m].adding { slots[m] := slots[m].(adding := false); }
      slots[m] := slots[m].(removing := true);
      return true;
    }

    method FindUnused() returns (i: int)
      ensures i == FirstEmpty(slots[..])
    {
      i := 0;
      while i < slots.Length
        invariant 0 <= i <= slots.Length
        invariant FirstEmpty(slots[..]) == FirstEmpty(slots[..], i)
      {
        if slots[i].count == 0 && !slots[i].adding && !slots[i].removing { return; }
        i := i + 1;
      }
      return NO_MATCH;
    }

    method AddPort(tnl: Entry)
      requires Valid()
      modifies this, slots
      ensures Valid() && model == Next(old(model), Add(tnl))
    {
      AddMoves(model, tnl);
      hide Inv, Next, Lookup, FirstEmpty, Reference;
      model := Next(model, Add(tnl));
      var m := LookupPort(tnl.port);
      if m == NO_MATCH {
        InsertPort(tnl);
      } else if slots[m].entry.kind == tnl.kind {
        ReferenceSlot(m);
      }
    }

    method InsertPort(tnl: Entry)
      modifies `scheduled, slots
      ensures var i := FirstEmpty(old(slots[..]));
              && scheduled == (old(scheduled) || i != NO_MATCH)
              && slots[..] == if i != NO_MATCH then old(slots[..])[i := Slot(tnl, 1, true, false)] else old(slots[..])
    {
      var i := FindUnused();
      if i != NO_MATCH {
        slots[i] := Slot(tnl, 1, true, false);
        scheduled := true;
      }
    }

    method DelPort(tnl: Entry)
      requires Valid()
      modifies this, slots
      ensures Valid() && model == Next(old(model), Del(tnl))
    {
      DelMoves(model, tnl);
      hide Inv, Next, Lookup, Release;
      model := Next(model, Del(tnl));
      var m := LookupPort(tnl.port);
      if m != NO_MATCH && slots[m].entry.kind == tnl.kind {
        var dropped := ReleaseSlot(m);
        if dropped { scheduled := true; }
      }
    }

    method PortOffloaded(port: nat) returns (b: bool)
      requires Valid()
      ensures b == HasPort(slots[..], port)
      ensures b && !model.stale ==> exists e :: e in model.hw && e.port == port
    {
      var m := LookupPort(port);
      b := m != NO_MATCH && !slots[m].adding && !slots[m].removing;
    }

    method ApplyOp(op: Op)
      requires Valid() && model.push.InFlight?
      modifies this, slots
      ensures Valid() && SameRequest(old(model), model) && busy && model == Next(old(model), OpStep(op))
    {
      NamedSlotsSurviveStep(model, OpStep(op));
      match op {
        case OpAdd(e) => AddPort(e);
        case OpDel(e) => DelPort(e);
      }
    }

    method Interference(ops: seq<Op>)
      requires Valid() && model.push.InFlight?
      modifies this, slots
      ensures Valid() && SameRequest(old(model), model) && busy
      ensures model == Exec(old(model), OpSteps(ops))
    {
      ghost var start := model;
      for k := 0 to |ops|
        invariant Valid() && busy && SameRequest(start, model)
        invariant model == Exec(start, OpSteps(ops[..k]))
      {
        assert OpSteps(ops[..k + 1]) == OpSteps(ops[..k]) + [OpStep(ops[k])];
        ExecSnoc(start, OpSteps(ops[..k]), OpStep(ops[k]));
        ApplyOp(ops[k]);
      }
      assert ops[..|ops|] == ops;
    }

    /** From `again:` to the unlock: which slots go into the request. */
    method BeginPush(adding: array<bool>) returns (entries: seq<Entry>)
      requires adding.Length == slots.Length
      modifies adding
      ensures adding[..] == Snapshot(slots[..]) && entries == Selected(slots[..], Snapshot(slots[..]))
    {
      entries := [];
      ghost var named := Snapshot(slots[..]);
      for i := 0 to slots.Length
        invariant forall j | 0 <= j < i :: adding[j] == named[j]
        invariant entries == Select(slots[..], named, i)
      {
        var tnl := slots[i];
        if tnl.count != 0 && !tnl.removing && tnl.entry.port != 0 {
          adding[i] := true;
          entries := entries + [tnl.entry];
        } else {
          adding[i] := false;
        }
      }
    }

    /** Marking the adds and removes of a successful request as done. */
    method MarkDone(adding: array<bool>) returns (done: bool)
      requires adding.Length == slots.Length
      modifies slots
      ensures slots[..] == Reconcile(old(slots[..]), old(adding[..]))
      ensures done == !AnyDirty(slots[..])
    {
      done := true;
      ghost var was := slots[..];
      for i := 0 to slots.Length
        invariant adding[..] == old(adding[..])
        invariant forall j | 0 <= j < i :: slots[j] == Reconciled(was[j], adding[j])
        invariant forall j | i <= j < slots.Length :: slots[j] == was[j]
        invariant done == forall j | 0 <= j < i :: !slots[j].Dirty()
      {
        if adding[i] {
          slots[i] := slots[i].(adding := false);
        } else {
          slots[i] := slots[i].(removing := false);
        }
        if slots[i].adding || slots[i].removing { done := false; }
      }
    }

    method MarkAbsent()
      modifies slots
      ensures slots[..] == Forget(old(slots[..]))
    {
      ghost var was := slots[..];
      for i := 0 to slots.Length
        invariant forall j | 0 <= j < i :: slots[j] == Forgotten(was[j])
        invariant forall j | i <= j < slots.Length :: slots[j] == was[j]
      {
        if slots[i].count != 0 { slots[i] := slots[i].(adding := true); }
        slots[i] := slots[i].(removing := false);
      }
    }

    method FinishBadly(reply: Reply)
      requires Valid() && busy && model.push.InFlight? && !reply.Ok?
      modifies this, slots
      ensures Valid() && !busy && !model.push.InFlight? && model == Exec(old(model), ReplySteps(reply))
      ensures reply.Error? ==> slots[..] == old(slots[..])
      ensures reply.Eio? ==> ForAddingAgain(old(slots[..]), slots[..])
    {
      ghost var before := model;
      if reply.Eio? {
        PushEioKeeps(before);
        ForgetIsForAdding(slots[..]);
        ExecOne(before, PushEio);
        hide Inv, Exec, ForAddingAgain, Forget;
        MarkAbsent();
        busy := false;
        model := Next(model, PushEio);
      } else {
        ExecOne(before, PushError);
        busy := false;
        model := Next(model, PushError);
      }
    }

    method FinishWell(adding: array<bool>) returns (again: bool)
      requires Valid() && busy && adding.Length == slots.Length
      requires model.push.InFlight? && model.push.named == adding[..]
      modifies this, slots
      ensures Valid() && model == Exec(old(model), ReplySteps(Ok))
      ensures again == AnyDirty(Reconcile(old(slots[..]), old(adding[..])))
      ensures again == busy == model.push.InFlight? && (!again ==> !AnyDirty(slots[..]) && !model.stale)
      ensures again ==> model.push == InFlight(Snapshot(slots[..]), Selected(slots[..], Snapshot(slots[..])), false)
    {
      GoodReply(model);
      hide Inv, Exec, ReplySteps, AnyDirty, Snapshot, Selected;
      var done := MarkDone(adding);
      again := !done;
      busy := again;
      model := Exec(model, ReplySteps(Ok));
    }

    /** What the push does under the lock once the firmware has answered. */
    method FinishCall(adding: array<bool>, entries: seq<Entry>, reply: Reply) returns (again: bool)
      requires Valid() && busy && adding.Length == slots.Length
      requires model.push.InFlight? && model.push.named == adding[..] && model.push.list == entries
      modifies this, slots
      ensures Valid() && model == Exec(old(model), ReplySteps(reply))
      ensures again == (reply.Ok? && AnyDirty(Reconcile(old(slots[..]), old(adding[..]))))
      ensures reply.Error? ==> slots[..] == old(slots[..])
      ensures reply.Eio? ==> ForAddingAgain(old(slots[..]), slots[..])
      ensures again == busy == model.push.InFlight? && (!again && reply.Ok? ==> !AnyDirty(slots[..]) && !model.stale)
      ensures again ==> model.push == InFlight(Snapshot(slots[..]), Selected(slots[..], Snapshot(slots[..])), false)
    {
      hide Inv, Exec, AnyDirty, ForAddingAgain;
      again := false;
      if reply.Ok? { again := FinishWell(adding); } else { FinishBadly(reply); }
    }

    method RunCall(adding: array<bool>, entries: seq<Entry>, call: Call) returns (again: bool)
      requires Valid() && busy && adding.Length == slots.Length && adding as object != slots
      requires model.push.InFlight? && model.push.named == adding[..] && model.push.list == entries
      modifies this, slots
      ensures Valid() && model == Exec(old(model), CallSteps(call))
      ensures again == busy == model.push.InFlight?
      ensures !again && call.reply.Ok? ==> !AnyDirty(slots[..]) && !model.stale
      ensures again ==> model.push == InFlight(Snapshot(slots[..]), Selected(slots[..], Snapshot(slots[..])), false)
    {
      ExecAppend(model, OpSteps(call.during), ReplySteps(call.reply));
      Interference(call.during);
      again := FinishCall(adding, entries, call.reply);
    }

    /** One call, and the next list if there is to be another. */
    method CallAndBegin(adding: array<bool>, entries: seq<Entry>, call: Call) returns (again: bool, next: seq<Entry>)
      requires Valid() && busy && adding.Length == slots.Length && adding as object != slots
      requires model.push == InFlight(adding[..], entries, false)
      modifies this, slots, adding
      ensures Valid() && model == Exec(old(model), CallSteps(call))
      ensures again == busy == model.push.InFlight? && (again ==> model.push == InFlight(adding[..], next, false))
    {
      again := RunCall(adding, entries, call);
      next := [];
      if again { next := BeginPush(adding); }
    }

    /** The calls of a push that has begun. */
    method MakeCalls(adding: array<bool>, entries: seq<Entry>, calls: seq<Call>)
      returns (ok: bool, used: nat, sent: seq<seq<Entry>>)
      requires Valid() && busy && adding.Length == slots.Length && adding as object != slots
      requires model.push == InFlight(adding[..], entries, false)
      modifies this, slots, adding
      ensures Valid() && busy == model.push.InFlight? && Ending(used, sent, model) == Pushing(old(model), calls)
      ensures used <= |calls| && (ok <==> used == 0 || !calls[used - 1].reply.Error?) && (!busy ==> used > 0)
    {
      used, sent, ok := 0, [], true;
      var list := entries;
      ghost var all := Pushing(model, calls);
      assert calls[0..] == calls;
      hide Inv, Exec, CallSteps, Pushing, SoFar;
      NoneMade(model, calls);
      while used < |calls| && busy
        invariant Valid() && used <= |calls| && busy == model.push.InFlight?
        invariant busy ==> model.push == InFlight(adding[..], list, false)
        invariant SoFar(all, model, calls, used, sent)
        invariant (ok <==> used == 0 || !calls[used - 1].reply.Error?) && (!busy ==> used > 0)
        decreases |calls| - used
      {
        SoFarMore(all, model, calls, used, sent);
        sent := sent + [list];
        var again;
        again, list := CallAndBegin(adding, list, calls[used]);
        ok := !calls[used].reply.Error?;
        used := used + 1;
      }
      SoFarAll(all, model, calls, used, sent);
    }

    /** The whole push, against any interference during its firmware calls: `calls` says what
        happens during each and how it is answered, and `sent` which lists were sent. It makes
        the calls that the protocol makes and does what the protocol does; it is not finished
        only if `calls` says no more while changes are still pending. `ok` is a return code
        of zero. */
    method SetUdpTnlPorts(calls: seq<Call>) returns (finished: bool, ok: bool, used: nat, sent: seq<seq<Entry>>)
      requires Valid()
      modifies this, slots
      ensures Valid() && finished == (old(busy) || !busy)
      ensures old(busy) ==> ok && model == old(model) && used == 0 && sent == []
      ensures !old(busy) ==> Ending(used, sent, model) == Pushing(Begin(old(model)), calls)
      ensures !old(busy) ==> used <= |calls| && (ok <==> used == 0 || !calls[used - 1].reply.Error?)
      ensures !old(busy) && finished ==> used > 0
      ensures !old(busy) && finished && calls[used - 1].reply.Ok? ==> Exact(model)
    {
      if busy { return true, true, 0, []; }
      hide *;
      ok, used, sent := PushPorts(calls);
      finished := !busy;
    }

    /** From the snapshot on. */
    method PushPorts(calls: seq<Call>) returns (ok: bool, used: nat, sent: seq<seq<Entry>>)
      requires Valid() && !busy
      modifies this, slots
      ensures Valid() && used <= |calls| && (!busy ==> used > 0)
      ensures Ending(used, sent, model) == Pushing(Begin(old(model)), calls)
      ensures ok <==> used == 0 || !calls[used - 1].reply.Error?
      ensures !busy && calls[used - 1].reply.Ok? ==> Exact(model)
    {
      var adding, entries := StartPush();
      GoodStart();
      GoodEndIsExact(model, calls);
      hide *;
      ok, used, sent := MakeCalls(adding, entries, calls);
      EndMeans(Ending(used, sent, model), calls);
    }

    lemma EndMeans(e: Ending, calls: seq<Call>)
      requires EndsExactly(e, calls)
      ensures e.used <= |calls|
      ensures !e.state.push.InFlight? && e.used > 0 && calls[e.used - 1].reply.Ok? ==> Exact(e.state)
    {}

    lemma GoodStart()
      requires Valid()
      ensures Inv(model)
    {}

    method StartPush() returns (adding: array<bool>, entries: seq<Entry>)
      requires Valid() && !busy
      modifies `busy, `model
      ensures Valid() && busy && model == Begin(old(model)) && fresh(adding) && adding.Length == slots.Length
      ensures model.push == InFlight(adding[..], entries, false) && !model.failed
    {
      BeginKeeps(model);
      hide Inv;
      adding := new bool[slots.Length];
      entries := BeginPush(adding);
      busy := true;
      model := Begin(model);
    }
  }
}
