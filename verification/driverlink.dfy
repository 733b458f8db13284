// The driverlink registry (driverlink.c): which client driver is attached to which NIC,
// in what order it is called, and the NIC resources it holds.

module Driverlink {

  /** A client driver; `priority` low values are called first. */
  datatype Driver = Driver(id: nat, priority: int, checksUsrBuf: bool, checksViStride: bool, noPublish: bool,
                           requiresMinor: bool, minor: nat,
                           hasSuspend: bool, hasResume: bool)

  datatype Nic = Nic(netDev: nat, device: nat)

  /** A handle ties one driver to one NIC. Handles are numbered as they are created. */
  datatype Owner = Owner(nic: Nic, driver: Driver)

  const API_MINOR := 0

  predicate IsX2(nic: Nic) { nic.device / 0x100 % 0x10 >= 0xb }

  predicate Permitted(d: Driver) { d.checksUsrBuf && !(d.requiresMinor && d.minor > API_MINOR) }

  /** A client that does not check the stride is kept from devices with 0xb or more in the
      third digit. */
  lemma X2Devices(nic: Nic)
    ensures IsX2(nic) <==> nic.device % 0x1000 >= 0xb00
  {}

  // ---- Lists ----

  predicate Before(owner: map<nat, Owner>, a: nat, b: nat)
    requires a in owner && b in owner
  {
    var p, q := owner[a].driver.priority, owner[b].driver.priority;
    p < q || (p == q && a < b)
  }

  /** By priority, and among equals in order of creation. */
  ghost predicate Sorted(owner: map<nat, Owner>, list: seq<nat>) {
    && (forall i | 0 <= i < |list| :: list[i] in owner)
    && forall i, j | 0 <= i < j < |list| :: Before(owner, list[i], list[j])
  }

  ghost predicate Ascending(list: seq<nat>) {
    forall i, j | 0 <= i < j < |list| :: list[i] < list[j]
  }

  /** A NIC's list is made of exactly its handles, in order. */
  ghost predicate NicList(owner: map<nat, Owner>, nic: Nic, list: seq<nat>) {
    Sorted(owner, list) && forall h: nat :: h in list <==> h in owner && owner[h].nic == nic
  }

  ghost predicate DriverList(owner: map<nat, Owner>, d: Driver, list: seq<nat>) {
    Ascending(list) && forall h: nat :: h in list <==> h in owner && owner[h].driver == d
  }

  ghost predicate NoRepeats<T>(s: seq<T>) {
    forall i, j | 0 <= i < j < |s| :: s[i] != s[j]
  }

  ghost predicate OnePerPair(owner: map<nat, Owner>) {
    forall a, b | a in owner && b in owner && owner[a] == owner[b] :: a == b
  }

  /** The registry's shape. */
  ghost predicate Linked(nics: seq<Nic>, drivers: seq<Driver>, onNic: map<Nic, seq<nat>>,
                         onDriver: map<Driver, seq<nat>>, owner: map<nat, Owner>, next: nat) {
    && NoRepeats(nics) && NoRepeats(drivers) && OnePerPair(owner)
    && (forall h | h in owner :: h < next && owner[h].nic in nics && owner[h].driver in drivers)
    && (forall n | n in nics :: n in onNic && NicList(owner, n, onNic[n]))
    && (forall d | d in drivers :: d in onDriver && DriverList(owner, d, onDriver[d]))
  }

  /** An attached handle is on its NIC's list and on its driver's, and on no other. */
  lemma OnBothOrNeither(nics: seq<Nic>, drivers: seq<Driver>, onNic: map<Nic, seq<nat>>,
                        onDriver: map<Driver, seq<nat>>, owner: map<nat, Owner>, next: nat, h: nat)
    requires Linked(nics, drivers, onNic, onDriver, owner, next)
    ensures (exists n :: n in nics && h in onNic[n]) <==> (exists d :: d in drivers && h in onDriver[d])
    ensures forall n, d | n in nics && d in drivers && h in onNic[n] && h in onDriver[d] :: owner[h] == Owner(n, d)
  {
    if h in owner { assert h in onNic[owner[h].nic] && h in onDriver[owner[h].driver]; }
  }

  /** The order leaves no choice: two orderly lists of the same handles are the same list. */
  lemma {:induction false} OrderIsUnique(owner: map<nat, Owner>, a: seq<nat>, b: seq<nat>)
    requires Sorted(owner, a) && Sorted(owner, b) && forall h: nat :: h in a <==> h in b
    ensures a == b
  {
    assert |b| == 0 || b[0] in b;
    assert |b| == 0 || b[0] in a;
    if a != [] {
      assert a[0] in a && a[0] in b;
      assert b[0] in b && b[0] in a;
      assert forall k | 0 < k < |a| :: Before(owner, a[0], a[k]);
      assert forall k | 0 < k < |b| :: Before(owner, b[0], b[k]);
      assert a[0] == b[0];
      forall h: nat ensures h in a[1..] <==> h in b[1..] {
        assert h in a[1..] <==> h in a && h != a[0];
        assert h in b[1..] <==> h in b && h != b[0];
      }
      OrderIsUnique(owner, a[1..], b[1..]);
    }
  }

  function Without<T(==)>(list: seq<T>, x: T): seq<T> {
    if list == [] then [] else if list[0] == x then list[1..] else [list[0]] + Without(list[1..], x)
  }

  lemma {:induction false} WithoutSplits<T>(list: seq<T>, x: T) returns (i: nat)
    requires x in list
    ensures i < |list| && list[i] == x && Without(list, x) == list[..i] + list[i + 1..]
  {
    if list[0] == x {
      i := 0;
    } else {
      var k := WithoutSplits(list[1..], x);
      i := k + 1;
      assert list[..i] == [list[0]] + list[1..][..k];
    }
  }

  lemma WithoutKeepsOthers<T>(list: seq<T>, x: T)
    requires x in list && NoRepeats(list)
    ensures NoRepeats(Without(list, x)) && forall y :: y in Without(list, x) <==> y in list && y != x
  {
    var i := WithoutSplits(list, x);
    forall y ensures y in Without(list, x) <==> y in list && y != x {
      if y in list && y != x { var k :| 0 <= k < |list| && list[k] == y; assert y in list[..i] || y in list[i + 1..]; }
    }
  }

  lemma SortedDistinct(owner: map<nat, Owner>, list: seq<nat>)
    requires Sorted(owner, list)
    ensures NoRepeats(list)
  {
    forall i, j | 0 <= i < j < |list| ensures list[i] != list[j] { assert Before(owner, list[i], list[j]); }
  }

  // ---- Attaching ----

  /** Where a new handle goes: before the first one of a driver with a greater value. */
  ghost predicate InsertionPoint(owner: map<nat, Owner>, list: seq<nat>, priority: int, at: nat) {
    && at <= |list| && (forall i | 0 <= i < |list| :: list[i] in owner)
    && (forall i | 0 <= i < at :: owner[list[i]].driver.priority <= priority)
    && (at < |list| ==> owner[list[at]].driver.priority > priority)
  }

  lemma InsertKeepsOrder(owner: map<nat, Owner>, nic: Nic, list: seq<nat>, h: nat, o: Owner, at: nat)
    requires NicList(owner, nic, list) && InsertionPoint(owner, list, o.driver.priority, at)
    requires o.nic == nic && forall x | x in owner :: x < h
    ensures NicList(owner[h := o], nic, list[..at] + [h] + list[at..])
  {
    var owner', list' := owner[h := o], list[..at] + [h] + list[at..];
    forall x: nat ensures x in list' <==> x in owner' && owner'[x].nic == nic {
      if x in list { assert x in list[..at] || x in list[at..]; }
    }
    forall i, j | 0 <= i < j < |list'| ensures Before(owner', list'[i], list'[j]) {
      var i', j' := if i < at then i else i - 1, if j < at then j else j - 1;
      if i != at && j != at { assert Before(owner, list[i'], list[j']); }
      if i == at && at < j' { assert Before(owner, list[at], list[j']); }
    }
  }

  lemma AppendToDriver(owner: map<nat, Owner>, d: Driver, list: seq<nat>, h: nat, o: Owner)
    requires DriverList(owner, d, list) && o.driver == d && forall x | x in owner :: x < h
    ensures DriverList(owner[h := o], d, list + [h])
  {
    forall x: nat ensures x in list + [h] <==> x in owner[h := o] && owner[h := o][x].driver == d {
      assert x in list <==> x in owner && owner[x].driver == d;
    }
    forall i | 0 <= i < |list| ensures list[i] < h { assert list[i] in list; }
  }

  lemma OtherNic(owner: map<nat, Owner>, n: Nic, list: seq<nat>, h: nat, o: Owner)
    requires NicList(owner, n, list) && o.nic != n && h !in owner
    ensures NicList(owner[h := o], n, list)
  {
    forall i, j | 0 <= i < j < |list| ensures Before(owner[h := o], list[i], list[j]) {
      assert Before(owner, list[i], list[j]);
    }
  }

  lemma AttachKeepsLinks(nics: seq<Nic>, drivers: seq<Driver>, onNic: map<Nic, seq<nat>>,
                         onDriver: map<Driver, seq<nat>>, owner: map<nat, Owner>, next: nat, h: nat, o: Owner, at: nat)
    requires Linked(nics, drivers, onNic, onDriver, owner, next) && next <= h
    requires o.nic in nics && o.driver in drivers && forall x | x in owner :: owner[x] != o
    requires InsertionPoint(owner, onNic[o.nic], o.driver.priority, at)
    ensures var list := onNic[o.nic];
            Linked(nics, drivers, onNic[o.nic := list[..at] + [h] + list[at..]],
                   onDriver[o.driver := onDriver[o.driver] + [h]], owner[h := o], h + 1)
  {
    hide NicList, DriverList, InsertionPoint, NoRepeats;
    InsertKeepsOrder(owner, o.nic, onNic[o.nic], h, o, at);
    AppendToDriver(owner, o.driver, onDriver[o.driver], h, o);
    forall n | n in nics && n != o.nic ensures NicList(owner[h := o], n, onNic[n]) {
      OtherNic(owner, n, onNic[n], h, o);
    }
    forall d | d in drivers && d != o.driver ensures DriverList(owner[h := o], d, onDriver[d]) {
      OtherDriver(owner, d, onDriver[d], h, o);
    }
  }

  lemma OtherDriver(owner: map<nat, Owner>, d: Driver, list: seq<nat>, h: nat, o: Owner)
    requires DriverList(owner, d, list) && o.driver != d && h !in owner
    ensures DriverList(owner[h := o], d, list)
  {}

  // ---- Detaching ----

  lemma BeforeStays(owner: map<nat, Owner>, a: nat, b: nat, h: nat)
    requires a in owner && b in owner && a != h && b != h && Before(owner, a, b)
    ensures Before(owner - {h}, a, b)
  {}

  lemma RemoveAtStaysSorted(owner: map<nat, Owner>, list: seq<nat>, k: nat)
    requires Sorted(owner, list) && NoRepeats(list) && k < |list|
    ensures Sorted(owner - {list[k]}, list[..k] + list[k + 1..])
  {
    hide Before;
    var list' := list[..k] + list[k + 1..];
    forall i | 0 <= i < |list'| ensures list'[i] in owner - {list[k]} {
      assert list'[i] == list[if i < k then i else i + 1];
    }
    forall i, j | 0 <= i < j < |list'| ensures Before(owner - {list[k]}, list'[i], list'[j]) {
      BeforeStays(owner, list[if i < k then i else i + 1], list[if j < k then j else j + 1], list[k]);
    }
  }

  lemma WithoutStaysSorted(owner: map<nat, Owner>, list: seq<nat>, h: nat)
    requires Sorted(owner, list) && h in list
    ensures Sorted(owner - {h}, Without(list, h))
  {
    SortedDistinct(owner, list);
    hide Without, Sorted, NoRepeats;
    var k := WithoutSplits(list, h);
    RemoveAtStaysSorted(owner, list, k);
  }

  lemma DetachFromNic(owner: map<nat, Owner>, n: Nic, list: seq<nat>, h: nat)
    requires NicList(owner, n, list) && h in owner
    ensures NicList(owner - {h}, n, if owner[h].nic == n then Without(list, h) else list)
  {
    if owner[h].nic == n {
      hide Before, Without;
      SortedDistinct(owner, list);
      WithoutKeepsOthers(list, h);
      WithoutStaysSorted(owner, list, h);
    } else {
      forall i, j | 0 <= i < j < |list| ensures Before(owner - {h}, list[i], list[j]) {
        assert Before(owner, list[i], list[j]);
      }
    }
  }

  lemma DetachFromDriver(owner: map<nat, Owner>, d: Driver, list: seq<nat>, h: nat)
    requires DriverList(owner, d, list) && h in owner
    ensures DriverList(owner - {h}, d, if owner[h].driver == d then Without(list, h) else list)
  {
    if owner[h].driver == d {
      WithoutKeepsOthers(list, h);
      var k := WithoutSplits(list, h);
    }
  }

  lemma DetachKeepsLinks(nics: seq<Nic>, drivers: seq<Driver>, onNic: map<Nic, seq<nat>>,
                         onDriver: map<Driver, seq<nat>>, owner: map<nat, Owner>, next: nat, h: nat)
    requires Linked(nics, drivers, onNic, onDriver, owner, next) && h in owner
    ensures var o := owner[h];
            Linked(nics, drivers, onNic[o.nic := Without(onNic[o.nic], h)],
                   onDriver[o.driver := Without(onDriver[o.driver], h)], owner - {h}, next)
  {
    hide NicList, DriverList, NoRepeats, Without;
    forall n | n in nics
      ensures NicList(owner - {h}, n, if owner[h].nic == n then Without(onNic[n], h) else onNic[n]) {
      DetachFromNic(owner, n, onNic[n], h);
    }
    forall d | d in drivers
      ensures DriverList(owner - {h}, d, if owner[h].driver == d then Without(onDriver[d], h) else onDriver[d]) {
      DetachFromDriver(owner, d, onDriver[d], h);
    }
  }

  // ---- Reference counts ----

  /** What a client does through its handle; `ok` is what the NIC answers if it is asked. */
  datatype Op = Publish(ok: bool) | Unpublish | Block(kind: nat, ok: bool) | Unblock(kind: nat)

  /** How often a client has published, and blocked each kind of filter. */
  datatype Counts = Counts(publish: nat, block: seq<nat>)

  function Apply(c: Counts, op: Op): (r: Counts)
    ensures |r.block| == |c.block|
  {
    match op
    case Publish(ok) => if c.publish > 0 || ok then c.(publish := c.publish + 1) else c
    case Unpublish => if c.publish > 0 then c.(publish := c.publish - 1) else c
    case Block(kind, ok) =>
      if kind < |c.block| && (c.block[kind] > 0 || ok) then c.(block := c.block[kind := c.block[kind] + 1]) else c
    case Unblock(kind) =>
      if kind < |c.block| && c.block[kind] > 0 then c.(block := c.block[kind := c.block[kind] - 1]) else c
  }

  function ApplyAll(c: Counts, ops: seq<Op>): (r: Counts)
    ensures |r.block| == |c.block|
  {
    if ops == [] then c else Apply(ApplyAll(c, ops[..|ops| - 1]), ops[|ops| - 1])
  }

  /** What a NIC may hold for a handle, as often as the client asked for it. */
  datatype Resource = Publication | Blocked(kind: nat)

  type Hold = (nat, Resource)

  function CountOf(c: Counts, r: Resource): nat {
    match r
    case Publication => c.publish
    case Blocked(kind) => if kind < |c.block| then c.block[kind] else 0
  }

  /** The calls a NIC has seen for each resource of each handle: requests, those of them it
      granted, and returns. */
  datatype Book = Book(asked: multiset<Hold>, granted: multiset<Hold>, returned: multiset<Hold>)

  /** A client's request reaches the NIC only when it is the first. */
  function Took(b: Book, x: Hold, count: nat, ok: bool): Book {
    if count > 0 then b
    else Book(b.asked + multiset{x}, if ok then b.granted + multiset{x} else b.granted, b.returned)
  }

  /** A client's return reaches the NIC only when it is the last. */
  function Gave(b: Book, x: Hold, count: nat): Book {
    if count == 1 then b.(returned := b.returned + multiset{x}) else b
  }

  function ResourceOf(op: Op): Resource {
    match op
    case Publish(_) => Publication
    case Unpublish => Publication
    case Block(kind, _) => Blocked(kind)
    case Unblock(kind) => Blocked(kind)
  }

  /** What a call does to the NIC's book, when the counts are `c`. */
  function Booked(b: Book, h: nat, c: Counts, op: Op): Book {
    var r := ResourceOf(op);
    match op
    case Publish(ok) => Took(b, (h, r), CountOf(c, r), ok)
    case Unpublish => Gave(b, (h, r), CountOf(c, r))
    case Block(_, ok) => Took(b, (h, r), CountOf(c, r), ok)
    case Unblock(_) => Gave(b, (h, r), CountOf(c, r))
  }

  function BookedAll(b: Book, h: nat, c: Counts, ops: seq<Op>): Book {
    if ops == [] then b
    else
      var rest := ops[..|ops| - 1];
      Booked(BookedAll(b, h, c, rest), h, ApplyAll(c, rest), ops[|ops| - 1])
  }

  predicate MoreOf(was: multiset<Hold>, now: multiset<Hold>, h: nat, x: Hold) {
    if x.0 == h then was[x] <= now[x] else was[x] == now[x]
  }

  /** Calls are only added, and only for handle `h`. */
  ghost predicate GrowsFor(was: Book, now: Book, h: nat) {
    && (forall x: Hold :: MoreOf(was.asked, now.asked, h, x))
    && (forall x: Hold :: MoreOf(was.granted, now.granted, h, x))
    && (forall x: Hold :: MoreOf(was.returned, now.returned, h, x))
  }

  /** Only returns were added. */
  ghost predicate Returned(was: Book, now: Book, h: nat) {
    GrowsFor(was, now, h) && now.asked == was.asked && now.granted == was.granted
  }

  lemma GrowsNot(b: Book, h: nat)
    ensures GrowsFor(b, b, h)
  {}

  lemma ReturnedMore(was: Book, now: Book, h: nat, r: Resource, count: nat)
    requires Returned(was, now, h)
    ensures Returned(was, Gave(now, (h, r), count), h)
  {
    var more := Gave(now, (h, r), count);
    assert GrowsFor(now, more, h) by {
      GrowsNot(now, h);
      OneMoreOf(now.returned, h, r);
    }
    hide GrowsFor, Gave;
    GrowsTwice(was, now, more, h);
  }

  /** The NIC has got back all it granted. */
  ghost predicate Settled(b: Book, h: nat) {
    forall r: Resource :: b.granted[(h, r)] == b.returned[(h, r)]
  }

  /** The NIC still holds something. */
  ghost predicate Owes(b: Book, h: nat) {
    exists r: Resource :: b.granted[(h, r)] == b.returned[(h, r)] + 1
  }

  /** More than the one publication that the registry takes back. */
  predicate Leaves(c: Counts) { c.publish > 1 || !NoneBlocked(c) }

  predicate NoneBlocked(c: Counts) { forall k | 0 <= k < |c.block| :: c.block[k] == 0 }

  function Once(b: bool): nat { if b then 1 else 0 }

  /** Per handle and resource, a NIC has granted as often as it got back, plus once if the
      client's count is not zero; for a handle in `leaks`, which is gone, something is
      still out. */
  ghost predicate Ledger(kinds: nat, counts: map<nat, Counts>, book: Book, leaks: set<nat>) {
    && leaks !! counts.Keys && (forall h | h in counts :: |counts[h].block| == kinds)
    && (forall h: nat, r: Resource | h !in leaks ::
          book.granted[(h, r)] == book.returned[(h, r)] + Once(h in counts && CountOf(counts[h], r) > 0))
    && (forall h | h in leaks :: Owes(book, h))
  }

  ghost predicate Balanced(kinds: nat, counts: map<nat, Counts>, book: Book, leaks: set<nat>, next: nat) {
    && Ledger(kinds, counts, book, leaks)
    && (forall h | h in counts :: h < next) && (forall h | h in leaks :: h < next)
  }

  /** What the driver's probe routine and the system answer when a handle is tried. */
  datatype Probe = Probe(memory: bool, publishOk: bool, ops: seq<Op>, accept: bool)

  function Fresh(kinds: nat): Counts { Counts(0, seq(kinds, _ => 0)) }

  /** The counts when the probe routine returns. */
  function Probed(kinds: nat, d: Driver, p: Probe): Counts {
    ApplyAll(if d.noPublish then Fresh(kinds) else Apply(Fresh(kinds), Publish(p.publishOk)), p.ops)
  }

  /** All calls made through the handle while it is tried: the registry's publication, the
      client's calls, and the registry's return if the client declines. */
  function ProbeOps(d: Driver, p: Probe): seq<Op> {
    (if d.noPublish then [] else [Publish(p.publishOk)])
    + if d.noPublish || p.publishOk then p.ops + (if p.accept then [] else [Unpublish]) else []
  }

  /** None are made without a handle. */
  function TryOps(nic: Nic, d: Driver, p: Probe): seq<Op> {
    if (IsX2(nic) && !d.checksViStride) || !p.memory then [] else ProbeOps(d, p)
  }

  /** Calls in two stretches. */
  lemma {:induction false} CallsSplit(b: Book, h: nat, c: Counts, first: seq<Op>, second: seq<Op>)
    ensures ApplyAll(c, first + second) == ApplyAll(ApplyAll(c, first), second)
    ensures BookedAll(b, h, c, first + second)
         == BookedAll(BookedAll(b, h, c, first), h, ApplyAll(c, first), second)
  {
    hide Booked, Apply;
    if second == [] {
      assert first + second == first;
    } else {
      var all, rest := first + second, second[..|second| - 1];
      assert all[..|all| - 1] == first + rest && all[|all| - 1] == second[|second| - 1];
      CallsSplit(b, h, c, first, rest);
    }
  }

  lemma OneCall(b: Book, h: nat, c: Counts, op: Op)
    ensures ApplyAll(c, [op]) == Apply(c, op) && BookedAll(b, h, c, [op]) == Booked(b, h, c, op)
  {
    assert [op][..0] == [];
    assert ApplyAll(c, []) == c && BookedAll(b, h, c, []) == b;
    hide Booked, Apply;
  }

  lemma ProbeInParts(kinds: nat, b: Book, h: nat, d: Driver, p: Probe)
    ensures var start, ops := Fresh(kinds), ProbeOps(d, p);
            var c1, b1 := if d.noPublish then start else Apply(start, Publish(p.publishOk)),
                          if d.noPublish then b else Booked(b, h, start, Publish(p.publishOk));
            var c2, b2 := ApplyAll(c1, p.ops), BookedAll(b1, h, c1, p.ops);
            if !d.noPublish && !p.publishOk then ApplyAll(start, ops) == c1 && BookedAll(b, h, start, ops) == b1
            else if p.accept then ApplyAll(start, ops) == c2 && BookedAll(b, h, start, ops) == b2
            else
              && ApplyAll(start, ops) == Apply(c2, Unpublish)
              && BookedAll(b, h, start, ops) == Booked(b2, h, c2, Unpublish)
  {
    var start, first := Fresh(kinds), if d.noPublish then [] else [Publish(p.publishOk)];
    OneCall(b, h, start, Publish(p.publishOk));
    assert ApplyAll(start, []) == start && BookedAll(b, h, start, []) == b;
    hide Booked, Apply, ApplyAll, BookedAll, Fresh;
    if !d.noPublish && !p.publishOk {
      assert ProbeOps(d, p) == first;
    } else if p.accept {
      assert ProbeOps(d, p) == first + p.ops;
      CallsSplit(b, h, start, first, p.ops);
    } else {
      assert ProbeOps(d, p) == first + p.ops + [Unpublish];
      CallsSplit(b, h, start, first, p.ops);
      CallsSplit(b, h, start, first + p.ops, [Unpublish]);
      OneCall(BookedAll(b, h, start, first + p.ops), h, ApplyAll(start, first + p.ops), Unpublish);
    }
  }

  predicate Reaches(nic: Nic, d: Driver, p: Probe) {
    !(IsX2(nic) && !d.checksViStride) && p.memory && (d.noPublish || p.publishOk)
  }

  /** A refused handle leaves nothing behind exactly when its probe routine left at most
      one publication, its own or the registry's, and no blocks. */
  predicate Tidy(kinds: nat, nic: Nic, d: Driver, p: Probe) {
    Reaches(nic, d, p) && !p.accept ==> !Leaves(Probed(kinds, d, p))
  }

  // ---- Calls in list order ----

  function Reverse(s: seq<nat>): (r: seq<nat>)
    ensures |r| == |s|
  {
    if s == [] then [] else [s[|s| - 1]] + Reverse(s[..|s| - 1])
  }

  lemma {:induction false} ReverseMembers(s: seq<nat>, h: nat)
    ensures h in Reverse(s) <==> h in s
  {
    if s != [] {
      assert s == s[..|s| - 1] + [s[|s| - 1]];
      ReverseMembers(s[..|s| - 1], h);
    }
  }

  lemma {:induction false} ReverseAppend(a: seq<nat>, b: seq<nat>)
    ensures Reverse(a + b) == Reverse(b) + Reverse(a)
  {
    if b == [] {
      assert a + b == a;
    } else {
      assert (a + b)[..|a + b| - 1] == a + b[..|b| - 1];
      ReverseAppend(a, b[..|b| - 1]);
    }
  }

  lemma ReverseHead(s: seq<nat>)
    requires s != []
    ensures Reverse(s) == Reverse(s[1..]) + [s[0]]
  {
    assert [s[0]] + s[1..] == s;
    ReverseAppend([s[0]], s[1..]);
    assert Reverse([s[0]]) == [s[0]];
  }

  /** The handles of a list whose drivers want a call. */
  function Wanting(list: seq<nat>, who: set<nat>): seq<nat> {
    if list == [] then [] else (if list[0] in who then [list[0]] else []) + Wanting(list[1..], who)
  }

  lemma {:induction false} WantingAppend(a: seq<nat>, b: seq<nat>, who: set<nat>)
    ensures Wanting(a + b, who) == Wanting(a, who) + Wanting(b, who)
  {
    if a == [] {
      assert a + b == b;
    } else {
      var ab := a + b;
      assert ab[0] == a[0] && ab[1..] == a[1..] + b;
      WantingAppend(a[1..], b, who);
      Joined(if a[0] in who then [a[0]] else [], Wanting(a[1..], who), Wanting(b, who));
    }
  }

  lemma Joined(a: seq<nat>, b: seq<nat>, c: seq<nat>)
    ensures a + (b + c) == (a + b) + c
  {}

  lemma WantingForwards(list: seq<nat>, i: nat, who: set<nat>)
    requires i < |list|
    ensures Wanting(list[..i + 1], who) == Wanting(list[..i], who) + if list[i] in who then [list[i]] else []
  {
    assert list[..i + 1] == list[..i] + [list[i]];
    WantingAppend(list[..i], [list[i]], who);
  }

  lemma NoneWanting(list: seq<nat>, who: set<nat>)
    ensures Wanting(list[..0], who) == []
  {}

  lemma WantingBackwards(list: seq<nat>, i: nat, who: set<nat>)
    requires i < |list|
    ensures Reverse(Wanting(list[i..], who)) ==
            Reverse(Wanting(list[i + 1..], who)) + if list[i] in who then [list[i]] else []
  {
    var rest, all := Wanting(list[i + 1..], who), Wanting(list[i..], who);
    assert list[i..][1..] == list[i + 1..];
    if list[i] in who {
      assert all == [list[i]] + rest && all[1..] == rest;
      ReverseHead(all);
    } else {
      assert all == rest;
    }
  }

  /** Walking the list backwards calls the same drivers in reverse. */
  lemma {:induction false} WantingReversed(list: seq<nat>, who: set<nat>)
    ensures Wanting(Reverse(list), who) == Reverse(Wanting(list, who))
  {
    if list != [] {
      WantingReversed(list[1..], who);
      ReverseHead(list);
      WantingAppend(Reverse(list[1..]), [list[0]], who);
      WantingBackwards(list, 0, who);
      assert list[0..] == list;
      OneWanting(list[0], who);
    }
  }

  lemma OneWanting(h: nat, who: set<nat>)
    ensures Wanting([h], who) == if h in who then [h] else []
  {
    assert Wanting([h][1..], who) == [];
  }

  function Suspending(owner: map<nat, Owner>): set<nat> { set h | h in owner && owner[h].driver.hasSuspend }

  function Resuming(owner: map<nat, Owner>): set<nat> { set h | h in owner && owner[h].driver.hasResume }

  /** Lower priority values come first, and among equals the older handles. */
  ghost predicate FirstToLast(owner: map<nat, Owner>, called: seq<nat>) {
    && (forall i | 0 <= i < |called| :: called[i] in owner)
    && forall i, j | 0 <= i < j < |called| ::
         var p, q := owner[called[i]].driver.priority, owner[called[j]].driver.priority;
         p < q || (p == q && called[i] < called[j])
  }

  ghost predicate LastToFirst(owner: map<nat, Owner>, called: seq<nat>) {
    && (forall i | 0 <= i < |called| :: called[i] in owner)
    && forall i, j | 0 <= i < j < |called| ::
         var p, q := owner[called[i]].driver.priority, owner[called[j]].driver.priority;
         p > q || (p == q && called[i] > called[j])
  }

  lemma SortedCalls(owner: map<nat, Owner>, list: seq<nat>)
    requires Sorted(owner, list)
    ensures FirstToLast(owner, list)
  {
    forall i, j | 0 <= i < j < |list| ensures Before(owner, list[i], list[j]) {}
  }

  lemma ReversedCalls(owner: map<nat, Owner>, list: seq<nat>)
    requires FirstToLast(owner, list)
    ensures LastToFirst(owner, Reverse(list))
  {
    forall i | 0 <= i < |list| ensures Reverse(list)[i] == list[|list| - 1 - i] { ReverseAt(list, i); }
  }

  lemma {:induction false} ReverseAt(s: seq<nat>, i: nat)
    requires i < |s|
    ensures Reverse(s)[i] == s[|s| - 1 - i]
  {
    if i > 0 { ReverseAt(s[..|s| - 1], i - 1); }
  }

  lemma {:induction false} WantingMembers(list: seq<nat>, who: set<nat>, h: nat)
    ensures h in Wanting(list, who) <==> h in list && h in who
  {
    if list != [] {
      WantingMembers(list[1..], who, h);
      assert list == [list[0]] + list[1..];
    }
  }

  /** The clients called are called in the order of the list. */
  lemma {:induction false} WantingInOrder(owner: map<nat, Owner>, list: seq<nat>, who: set<nat>)
    requires Sorted(owner, list)
    ensures FirstToLast(owner, Wanting(list, who))
  {
    if list != [] {
      var rest := Wanting(list[1..], who);
      WantingInOrder(owner, list[1..], who);
      forall i | 0 <= i < |rest| ensures rest[i] in owner && Before(owner, list[0], rest[i]) {
        WantingMembers(list[1..], who, rest[i]);
        var j :| 0 <= j < |list[1..]| && list[1..][j] == rest[i];
        assert list[j + 1] == rest[i];
      }
      assert Wanting(list, who) == if list[0] in who then [list[0]] + rest else rest;
      hide Wanting;
    }
  }

  ghost predicate OneNicPerNetDev(nics: seq<Nic>) {
    forall a, b | a in nics && b in nics && a.netDev == b.netDev :: a == b
  }

  lemma {:induction false} WantingCommutes(list: seq<nat>, a: set<nat>, b: set<nat>)
    ensures Wanting(Wanting(list, a), b) == Wanting(Wanting(list, b), a)
  {
    if list != [] {
      WantingCommutes(list[1..], a, b);
      WantingOfMore(list, a, b);
      WantingOfMore(list, b, a);
    }
  }

  lemma WantingOfMore(list: seq<nat>, a: set<nat>, b: set<nat>)
    requires list != []
    ensures Wanting(Wanting(list, a), b) ==
            (if list[0] in a && list[0] in b then [list[0]] else []) + Wanting(Wanting(list[1..], a), b)
  {
    var head := if list[0] in a then [list[0]] else [];
    WantingAppend(head, Wanting(list[1..], a), b);
    if list[0] in a { OneWanting(list[0], b); }
  }

  /** Whichever clients want the one call or the other: those suspended that will be resumed
      are resumed in the reverse of the order in which they were suspended. */
  lemma SuspendReversesResume(list: seq<nat>, suspending: set<nat>, resuming: set<nat>)
    ensures Wanting(Reverse(Wanting(list, suspending)), resuming) ==
            Reverse(Wanting(Wanting(list, resuming), suspending))
  {
    WantingReversed(Wanting(list, suspending), resuming);
    WantingCommutes(list, suspending, resuming);
  }

  /** The first handle that takes an event decides the result, capped by the budget. */
  ghost predicate FirstAcceptor(list: seq<nat>, answer: map<nat, int>, budget: int, rc: int, at: nat) {
    && at <= |list|
    && (forall i | 0 <= i < at :: list[i] in answer ==> answer[list[i]] < 0)
    && (if at < |list| then
          list[at] in answer && answer[list[at]] >= 0 && rc == if answer[list[at]] > budget then budget else answer[list[at]]
        else rc == EINVAL)
  }

  /** What the driver layer returns for an event. */
  function EventResult(list: seq<nat>, answer: map<nat, int>, budget: int): int {
    if list == [] then EINVAL
    else if list[0] in answer && answer[list[0]] >= 0 then
      if answer[list[0]] > budget then budget else answer[list[0]]
    else EventResult(list[1..], answer, budget)
  }

  lemma {:induction false} FirstAcceptorDecides(list: seq<nat>, answer: map<nat, int>, budget: int) returns (at: nat)
    ensures FirstAcceptor(list, answer, budget, EventResult(list, answer, budget), at)
  {
    if list == [] || (list[0] in answer && answer[list[0]] >= 0) {
      at := 0;
    } else {
      at := FirstAcceptorDecides(list[1..], answer, budget);
      at := at + 1;
    }
  }

  const EINVAL := -22
  const EPERM := -1

  lemma BlockSize(kinds: nat, counts: map<nat, Counts>, book: Book, leaks: set<nat>, h: nat)
    requires Ledger(kinds, counts, book, leaks) && h in counts
    ensures |counts[h].block| == kinds
  {}

  lemma OwesStays(was: Book, now: Book, h: nat, g: nat)
    requires GrowsFor(was, now, h) && g != h && Owes(was, g)
    ensures Owes(now, g)
  {
    var r: Resource :| was.granted[(g, r)] == was.returned[(g, r)] + 1;
    assert MoreOf(was.granted, now.granted, h, (g, r)) && MoreOf(was.returned, now.returned, h, (g, r));
    assert now.granted[(g, r)] == now.returned[(g, r)] + 1;
  }

  lemma OneMoreOf(m: multiset<Hold>, h: nat, r: Resource)
    ensures forall x: Hold :: MoreOf(m, m + multiset{(h, r)}, h, x) && MoreOf(m, m, h, x)
  {}

  lemma BookedGrows(b: Book, h: nat, c: Counts, op: Op)
    ensures GrowsFor(b, Booked(b, h, c, op), h)
  {
    var r := ResourceOf(op);
    OneMoreOf(b.asked, h, r);
    OneMoreOf(b.granted, h, r);
    OneMoreOf(b.returned, h, r);
    hide MoreOf;
  }

  /** A client's calls add to its own handle's part of the book and to no other. */
  lemma {:induction false} BookedAllGrows(b: Book, h: nat, c: Counts, ops: seq<Op>)
    ensures GrowsFor(b, BookedAll(b, h, c, ops), h)
  {
    if ops != [] {
      var rest := ops[..|ops| - 1];
      var mid := BookedAll(b, h, c, rest);
      BookedAllGrows(b, h, c, rest);
      BookedGrows(mid, h, ApplyAll(c, rest), ops[|ops| - 1]);
      hide Booked, ApplyAll;
      GrowsTwice(b, mid, BookedAll(b, h, c, ops), h);
    }
  }

  lemma GrowsTwice(a: Book, b: Book, c: Book, h: nat)
    requires GrowsFor(a, b, h) && GrowsFor(b, c, h)
    ensures GrowsFor(a, c, h)
  {
    forall x: Hold ensures MoreOf(a.asked, c.asked, h, x) && MoreOf(a.granted, c.granted, h, x)
                           && MoreOf(a.returned, c.returned, h, x) {
      assert MoreOf(a.asked, b.asked, h, x) && MoreOf(b.asked, c.asked, h, x);
      assert MoreOf(a.granted, b.granted, h, x) && MoreOf(b.granted, c.granted, h, x);
      assert MoreOf(a.returned, b.returned, h, x) && MoreOf(b.returned, c.returned, h, x);
    }
  }

  // ---- What nested calls come to ----

  predicate AsksFor(op: Op, r: Resource) {
    (op.Publish? && r == Publication) || (op.Block? && r == Blocked(op.kind))
  }

  predicate GivesBack(op: Op, r: Resource) {
    (op.Unpublish? && r == Publication) || (op.Unblock? && r == Blocked(op.kind))
  }

  /** The successful requests for `r` among the calls of a client that has taken it `had` times
      before: those made while it has it, and those the NIC grants. */
  function Taken(ops: seq<Op>, r: Resource, had: nat): nat {
    if ops == [] then 0
    else
      var before, last := ops[..|ops| - 1], ops[|ops| - 1];
      Taken(before, r, had)
      + if AsksFor(last, r) && (last.ok || had + Taken(before, r, had) > Given(before, r)) then 1 else 0
  }

  function Given(ops: seq<Op>, r: Resource): nat {
    if ops == [] then 0 else Given(ops[..|ops| - 1], r) + if GivesBack(ops[|ops| - 1], r) then 1 else 0
  }

  /** The client never gives back more than it has taken. */
  ghost predicate NeverOver(ops: seq<Op>, r: Resource, had: nat) {
    forall k | 0 <= k <= |ops| :: Given(ops[..k], r) <= had + Taken(ops[..k], r, had)
  }

  /** Publications nest: the count is what was taken less what was given back, and the NIC
      holds the publication exactly while that is not zero. */
  lemma PublicationsAreCounted(b: Book, h: nat, c: Counts, ops: seq<Op>)
    requires NeverOver(ops, Publication, c.publish)
    requires b.granted[(h, Publication)] == b.returned[(h, Publication)] + if c.publish > 0 then 1 else 0
    ensures var left, now := c.publish + Taken(ops, Publication, c.publish) - Given(ops, Publication),
                             BookedAll(b, h, c, ops);
            && ApplyAll(c, ops).publish == left
            && now.granted[(h, Publication)] == now.returned[(h, Publication)] + if left > 0 then 1 else 0
  {
    CallsAreCounted(b, h, c, ops, Publication);
    hide Taken, Given, BookedAll, ApplyAll;
  }

  /** So do blocks, each kind for itself. */
  lemma BlocksAreCounted(b: Book, h: nat, c: Counts, ops: seq<Op>, kind: nat)
    requires kind < |c.block| && NeverOver(ops, Blocked(kind), c.block[kind])
    requires b.granted[(h, Blocked(kind))] == b.returned[(h, Blocked(kind))] + if c.block[kind] > 0 then 1 else 0
    ensures var left, now := c.block[kind] + Taken(ops, Blocked(kind), c.block[kind]) - Given(ops, Blocked(kind)),
                             BookedAll(b, h, c, ops);
            && ApplyAll(c, ops).block[kind] == left
            && now.granted[(h, Blocked(kind))] == now.returned[(h, Blocked(kind))] + if left > 0 then 1 else 0
  {
    CallsAreCounted(b, h, c, ops, Blocked(kind));
    hide Taken, Given, BookedAll, ApplyAll;
  }

  /** A client that has something and asks for it and gives it back once more causes no call to
      the NIC, and still has it. */
  lemma NestedIsSilent(b: Book, h: nat, c: Counts, ok: bool, kind: nat)
    ensures c.publish > 0 ==>
              BookedAll(b, h, c, [Publish(ok), Unpublish]) == b && ApplyAll(c, [Publish(ok), Unpublish]) == c
    ensures kind < |c.block| && c.block[kind] > 0 ==>
              && BookedAll(b, h, c, [Block(kind, ok), Unblock(kind)]) == b
              && ApplyAll(c, [Block(kind, ok), Unblock(kind)]) == c
  {
    TwoCalls(b, h, c, Publish(ok), Unpublish);
    TwoCalls(b, h, c, Block(kind, ok), Unblock(kind));
    hide ApplyAll, BookedAll;
    if kind < |c.block| { assert c.block[kind := c.block[kind] + 1][kind := c.block[kind]] == c.block; }
  }

  lemma TwoCalls(b: Book, h: nat, c: Counts, first: Op, second: Op)
    ensures ApplyAll(c, [first, second]) == Apply(Apply(c, first), second)
    ensures BookedAll(b, h, c, [first, second]) == Booked(Booked(b, h, c, first), h, Apply(c, first), second)
  {
    OneCall(b, h, c, first);
    assert [first, second][..1] == [first];
    hide Apply, Booked;
  }

  lemma {:induction false} CallsAreCounted(b: Book, h: nat, c: Counts, ops: seq<Op>, r: Resource)
    requires (r.Blocked? ==> r.kind < |c.block|) && NeverOver(ops, r, CountOf(c, r))
    requires b.granted[(h, r)] == b.returned[(h, r)] + Once(CountOf(c, r) > 0)
    ensures var left, now := CountOf(c, r) + Taken(ops, r, CountOf(c, r)) - Given(ops, r), BookedAll(b, h, c, ops);
            CountOf(ApplyAll(c, ops), r) == left && now.granted[(h, r)] == now.returned[(h, r)] + Once(left > 0)
  {
    if ops != [] {
      var before := ops[..|ops| - 1];
      assert ops[..|ops|] == ops;
      assert forall k | 0 <= k <= |before| :: before[..k] == ops[..k];
      CallsAreCounted(b, h, c, before, r);
      CallCounts(BookedAll(b, h, c, before), h, ApplyAll(c, before), ops[|ops| - 1], r);
      hide Apply, Booked;
    }
  }

  lemma CallCounts(b: Book, h: nat, c: Counts, op: Op, r: Resource)
    requires (r.Blocked? ==> r.kind < |c.block|) && b.granted[(h, r)] == b.returned[(h, r)] + Once(CountOf(c, r) > 0)
    requires GivesBack(op, r) ==> CountOf(c, r) > 0
    ensures var taken, now := AsksFor(op, r) && (op.ok || CountOf(c, r) > 0), Booked(b, h, c, op);
            && CountOf(Apply(c, op), r) == CountOf(c, r) + Once(taken) - Once(GivesBack(op, r))
            && now.granted[(h, r)] == now.returned[(h, r)] + Once(CountOf(Apply(c, op), r) > 0)
  {}

  lemma CallKeepsHandle(kinds: nat, c: Counts, b: Book, h: nat, op: Op, r: Resource)
    requires |c.block| == kinds && InKinds(kinds, [op])
    requires b.granted[(h, r)] == b.returned[(h, r)] + Once(CountOf(c, r) > 0)
    ensures var now := Booked(b, h, c, op);
            now.granted[(h, r)] == now.returned[(h, r)] + Once(CountOf(Apply(c, op), r) > 0)
  {
    assert [op][0] == op;
  }

  /** Every call keeps the ledger. */
  lemma CallKeepsLedger(kinds: nat, counts: map<nat, Counts>, book: Book, leaks: set<nat>, h: nat, op: Op)
    requires Ledger(kinds, counts, book, leaks) && h in counts && InKinds(kinds, [op])
    ensures Ledger(kinds, counts[h := Apply(counts[h], op)], Booked(book, h, counts[h], op), leaks)
  {
    var now, c := Booked(book, h, counts[h], op), Apply(counts[h], op);
    BookedGrows(book, h, counts[h], op);
    hide Booked, Apply, InKinds, CountOf, GrowsFor, Owes;
    forall g | g in leaks ensures Owes(now, g) { OwesStays(book, now, h, g); }
    forall g: nat, r: Resource | g !in leaks
      ensures now.granted[(g, r)] == now.returned[(g, r)]
                                     + Once(g in counts && CountOf(counts[h := c][g], r) > 0) {
      if g == h {
        CallKeepsHandle(kinds, counts[h], book, h, op, r);
      } else {
        OthersStay(book, now, h, g, r);
      }
    }
  }

  lemma OthersStay(was: Book, now: Book, h: nat, g: nat, r: Resource)
    requires GrowsFor(was, now, h) && g != h
    ensures was.granted[(g, r)] == now.granted[(g, r)] && was.returned[(g, r)] == now.returned[(g, r)]
  {
    assert MoreOf(was.granted, now.granted, h, (g, r)) && MoreOf(was.returned, now.returned, h, (g, r));
  }

  predicate InKinds(kinds: nat, ops: seq<Op>) {
    forall i | 0 <= i < |ops| :: match ops[i]
      case Block(kind, _) => kind < kinds
      case Unblock(kind) => kind < kinds
      case _ => true
  }

  lemma NicListOwned(nics: seq<Nic>, drivers: seq<Driver>, onNic: map<Nic, seq<nat>>,
                     onDriver: map<Driver, seq<nat>>, owner: map<nat, Owner>, next: nat, nic: Nic)
    requires Linked(nics, drivers, onNic, onDriver, owner, next) && nic in nics
    ensures nic in onNic && forall i | 0 <= i < |onNic[nic]| :: onNic[nic][i] in owner
  {}

  lemma ListOwned(nics: seq<Nic>, drivers: seq<Driver>, onNic: map<Nic, seq<nat>>,
                  onDriver: map<Driver, seq<nat>>, owner: map<nat, Owner>, next: nat, nic: Nic, d: Driver)
    requires Linked(nics, drivers, onNic, onDriver, owner, next) && nic in nics && d in drivers
    ensures nic in onNic && d in onDriver && forall i | 0 <= i < |onNic[nic]| :: onNic[nic][i] in owner
  {}

  lemma LinkedBelow(nics: seq<Nic>, drivers: seq<Driver>, onNic: map<Nic, seq<nat>>,
                    onDriver: map<Driver, seq<nat>>, owner: map<nat, Owner>, next: nat, h: nat)
    requires Linked(nics, drivers, onNic, onDriver, owner, next) && (next <= h || forall x | x in owner :: x < h)
    ensures Linked(nics, drivers, onNic, onDriver, owner, h)
  {
    hide NicList, DriverList;
  }

  lemma LinkedKnows(nics: seq<Nic>, drivers: seq<Driver>, onNic: map<Nic, seq<nat>>,
                    onDriver: map<Driver, seq<nat>>, owner: map<nat, Owner>, next: nat, h: nat)
    requires Linked(nics, drivers, onNic, onDriver, owner, next) && h in owner
    ensures owner[h].nic in onNic && owner[h].driver in onDriver
  {
    hide NicList, DriverList;
  }

  lemma LedgerGrows(kinds: nat, counts: map<nat, Counts>, book: Book, leaks: set<nat>, h: nat)
    requires Ledger(kinds, counts, book, leaks) && h !in counts && h !in leaks
    ensures Ledger(kinds, counts[h := Fresh(kinds)], book, leaks)
  {}

  lemma BalanceGrows(kinds: nat, counts: map<nat, Counts>, book: Book, leaks: set<nat>, next: nat)
    requires Balanced(kinds, counts, book, leaks, next)
    ensures Balanced(kinds, counts[next := Fresh(kinds)], book, leaks, next + 1)
  {
    LedgerGrows(kinds, counts, book, leaks, next);
    hide Ledger, Fresh;
  }

  /** Forgetting a handle: the NIC holds nothing for it exactly when its counts are zero. */
  lemma LedgerForgets(kinds: nat, counts: map<nat, Counts>, book: Book, leaks: set<nat>, h: nat)
    requires Ledger(kinds, counts, book, leaks) && h in counts
    ensures var clear := counts[h].publish == 0 && NoneBlocked(counts[h]);
            && Ledger(kinds, counts - {h}, book, if clear then leaks else leaks + {h})
            && (clear <==> Settled(book, h))
  {
    var c := counts[h];
    if c.publish != 0 {
      assert CountOf(c, Publication) > 0;
      assert book.granted[(h, Publication)] == book.returned[(h, Publication)] + 1;
    } else if !NoneBlocked(c) {
      var k :| 0 <= k < |c.block| && c.block[k] != 0;
      assert CountOf(c, Blocked(k)) > 0;
      assert book.granted[(h, Blocked(k))] == book.returned[(h, Blocked(k))] + 1;
    }
    hide Owes;
  }

  lemma NoLeaksAhead(kinds: nat, counts: map<nat, Counts>, book: Book, leaks: set<nat>, next: nat)
    requires Balanced(kinds, counts, book, leaks, next)
    ensures next !in leaks
  {}

  /** A handle that never was, or went tidily, is settled. */
  lemma UnknownIsSettled(kinds: nat, counts: map<nat, Counts>, book: Book, leaks: set<nat>, h: nat)
    requires Ledger(kinds, counts, book, leaks) && h !in counts && h !in leaks
    ensures Settled(book, h)
  {}

  lemma LeakedOwes(kinds: nat, counts: map<nat, Counts>, book: Book, leaks: set<nat>, h: nat)
    requires Ledger(kinds, counts, book, leaks) && h in leaks
    ensures Owes(book, h) && !Settled(book, h)
  {}

  ghost predicate Attached(owner: map<nat, Owner>, o: Owner) {
    exists h :: h in owner && owner[h] == o
  }

  ghost predicate Extends<V>(was: map<nat, V>, now: map<nat, V>) {
    forall h | h in was :: h in now && now[h] == was[h]
  }

  /** Nothing but, possibly, a handle for `o` was added, the youngest of all. */
  ghost predicate Gains(was: map<nat, Owner>, now: map<nat, Owner>, o: Owner) {
    && Extends(was, now)
    && (forall h, g | h in now && h !in was && g in now :: g <= h)
    && (forall h | h in now && h !in was :: now[h] == o)
  }

  lemma OneMade(was: map<nat, Owner>, now: map<nat, Owner>, h: nat, o: Owner, made: bool)
    requires now == if made then was[h := o] else was
    requires forall x | x in was :: x < h && was[x] != o
    ensures Gains(was, now, o) && (Attached(now, o) <==> made)
  {
    if made { assert now[h] == o; }
  }

  lemma OwnersBelow(nics: seq<Nic>, drivers: seq<Driver>, onNic: map<Nic, seq<nat>>,
                    onDriver: map<Driver, seq<nat>>, owner: map<nat, Owner>, next: nat)
    requires Linked(nics, drivers, onNic, onDriver, owner, next)
    ensures forall h | h in owner :: h < next
  {}

  /** Handles that are not in `was` were made in the order of the pairs. */
  ghost predicate MadeInOrder(was: map<nat, Owner>, now: map<nat, Owner>, pairs: seq<Owner>) {
    forall h, g, i, j | h in now && g in now && h !in was && g !in was && h < g
      && 0 <= i < |pairs| && 0 <= j < |pairs| && now[h] == pairs[i] && now[g] == pairs[j] :: i < j
  }

  predicate Accepted(o: Owner, p: Probe) { Reaches(o.nic, o.driver, p) && p.accept }

  /** What is new belongs to the first `upTo` pairs and was made in their order. */
  ghost predicate NewOnes(was: map<nat, Owner>, now: map<nat, Owner>, pairs: seq<Owner>, upTo: nat) {
    && upTo <= |pairs| && Extends(was, now) && MadeInOrder(was, now, pairs)
    && forall h | h in now && h !in was :: now[h] in pairs[..upTo]
  }

  /** Of the first `upTo` pairs exactly the accepted ones are attached, and handles leaked
      exactly if some probe was untidy. */
  ghost predicate Outcomes(kinds: nat, now: map<nat, Owner>, pairs: seq<Owner>, probes: seq<Probe>,
                           leaksWas: set<nat>, leaksNow: set<nat>, upTo: nat) {
    && upTo <= |pairs| == |probes| && leaksWas <= leaksNow
    && (forall j | 0 <= j < upTo :: Attached(now, pairs[j]) <==> Accepted(pairs[j], probes[j]))
    && (leaksNow == leaksWas <==> forall j | 0 <= j < upTo :: Tidy(kinds, pairs[j].nic, pairs[j].driver, probes[j]))
  }

  /** The first `upTo` pairs were tried in order. */
  ghost predicate Tried(kinds: nat, was: map<nat, Owner>, now: map<nat, Owner>, pairs: seq<Owner>, probes: seq<Probe>,
                        leaksWas: set<nat>, leaksNow: set<nat>, upTo: nat) {
    NewOnes(was, now, pairs, upTo) && Outcomes(kinds, now, pairs, probes, leaksWas, leaksNow, upTo)
  }

  /** Different pairs of what is registered, none attached yet. */
  ghost predicate Triable(nics: seq<Nic>, drivers: seq<Driver>, owner: map<nat, Owner>, pairs: seq<Owner>) {
    && NoRepeats(pairs) && (forall i | 0 <= i < |pairs| :: pairs[i].nic in nics && pairs[i].driver in drivers)
    && forall h | h in owner :: owner[h] !in pairs
  }

  predicate RemovalsInKinds(kinds: nat, removals: map<nat, seq<Op>>) {
    forall h | h in removals :: InKinds(kinds, removals[h])
  }

  /** What the driver's remove routine calls for this handle. */
  function RemovalOps(removals: map<nat, seq<Op>>, h: nat): seq<Op> {
    if h in removals then removals[h] else []
  }

  lemma RemovalFits(kinds: nat, removals: map<nat, seq<Op>>, h: nat)
    requires RemovalsInKinds(kinds, removals)
    ensures InKinds(kinds, RemovalOps(removals, h))
  {}

  predicate AllInKinds(kinds: nat, probes: seq<Probe>) {
    forall i | 0 <= i < |probes| :: InKinds(kinds, probes[i].ops)
  }

  lemma ProbeFits(kinds: nat, probes: seq<Probe>, i: nat)
    requires AllInKinds(kinds, probes) && i < |probes|
    ensures InKinds(kinds, probes[i].ops)
  {}

  lemma AttachedElsewhere(was: map<nat, Owner>, now: map<nat, Owner>, o: Owner, other: Owner)
    requires Gains(was, now, o) && o != other
    ensures Attached(now, other) <==> Attached(was, other)
  {
    if Attached(was, other) {
      var h :| h in was && was[h] == other;
      assert h in now && now[h] == other;
    }
  }

  lemma OrderOneMore(was: map<nat, Owner>, mid: map<nat, Owner>, now: map<nat, Owner>, pairs: seq<Owner>, i: nat)
    requires i < |pairs| && MadeInOrder(was, mid, pairs) && Gains(mid, now, pairs[i]) && NoRepeats(pairs)
    requires forall h | h in mid && h !in was :: mid[h] in pairs[..i]
    ensures MadeInOrder(was, now, pairs)
  {
    forall h, g, a, b | h in now && g in now && h !in was && g !in was && h < g
        && 0 <= a < |pairs| && 0 <= b < |pairs| && now[h] == pairs[a] && now[g] == pairs[b]
      ensures a < b {
      hide MadeInOrder, NoRepeats, Gains;
      if g in mid {
        OldPair(was, mid, now, pairs, pairs[i], h, g, a, b);
      } else {
        NewPair(was, mid, now, pairs, i, h, g, a, b);
      }
    }
  }

  lemma OldPair(was: map<nat, Owner>, mid: map<nat, Owner>, now: map<nat, Owner>, pairs: seq<Owner>, o: Owner,
                h: nat, g: nat, a: nat, b: nat)
    requires MadeInOrder(was, mid, pairs) && Gains(mid, now, o) && g in mid && h in now && h < g
    requires h !in was && g !in was && a < |pairs| && b < |pairs| && now[h] == pairs[a] && now[g] == pairs[b]
    ensures a < b
  {
    assert h in mid && mid[h] == pairs[a] && mid[g] == pairs[b];
  }

  lemma NewPair(was: map<nat, Owner>, mid: map<nat, Owner>, now: map<nat, Owner>, pairs: seq<Owner>, i: nat,
                h: nat, g: nat, a: nat, b: nat)
    requires i < |pairs| && Gains(mid, now, pairs[i]) && NoRepeats(pairs)
    requires forall h | h in mid && h !in was :: mid[h] in pairs[..i]
    requires g in now && g !in mid && h in now && h < g && h !in was
    requires a < |pairs| && b < |pairs| && now[h] == pairs[a] && now[g] == pairs[b]
    ensures a < b
  {
    assert h in mid && now[g] == pairs[i];
    hide NoRepeats;
    SameIndex(pairs, b, i);
    var k :| 0 <= k < i && pairs[..i][k] == mid[h];
    SameIndex(pairs, a, k);
  }

  lemma SameIndex<T>(pairs: seq<T>, a: nat, b: nat)
    requires NoRepeats(pairs) && a < |pairs| && b < |pairs| && pairs[a] == pairs[b]
    ensures a == b
  {}

  lemma TriedOneMore(nics: seq<Nic>, drivers: seq<Driver>, kinds: nat, was: map<nat, Owner>,
                     mid: map<nat, Owner>, now: map<nat, Owner>, pairs: seq<Owner>,
                     probes: seq<Probe>, leaksWas: set<nat>, leaksMid: set<nat>, leaksNow: set<nat>, i: nat)
    requires Tried(kinds, was, mid, pairs, probes, leaksWas, leaksMid, i) && i < |pairs|
    requires Triable(nics, drivers, was, pairs) && Gains(mid, now, pairs[i])
    requires Attached(now, pairs[i]) <==> Accepted(pairs[i], probes[i])
    requires leaksMid <= leaksNow
    requires leaksMid == leaksNow <==> Tidy(kinds, pairs[i].nic, pairs[i].driver, probes[i])
    ensures Tried(kinds, was, now, pairs, probes, leaksWas, leaksNow, i + 1)
  {
    hide Attached, Accepted, Tidy, NewOnes, Outcomes, Gains;
    NewOneMore(was, mid, now, pairs, i);
    OutcomeOneMore(kinds, mid, now, pairs, probes, leaksWas, leaksMid, leaksNow, i);
  }

  lemma NewOneMore(was: map<nat, Owner>, mid: map<nat, Owner>, now: map<nat, Owner>, pairs: seq<Owner>, i: nat)
    requires i < |pairs| && NewOnes(was, mid, pairs, i) && Gains(mid, now, pairs[i]) && NoRepeats(pairs)
    ensures NewOnes(was, now, pairs, i + 1)
  {
    OrderOneMore(was, mid, now, pairs, i);
    hide MadeInOrder, NoRepeats;
    assert pairs[..i + 1] == pairs[..i] + [pairs[i]];
  }

  lemma OutcomeOneMore(kinds: nat, mid: map<nat, Owner>, now: map<nat, Owner>, pairs: seq<Owner>, probes: seq<Probe>,
                       leaksWas: set<nat>, leaksMid: set<nat>, leaksNow: set<nat>, i: nat)
    requires i < |pairs| && Outcomes(kinds, mid, pairs, probes, leaksWas, leaksMid, i)
    requires Gains(mid, now, pairs[i]) && NoRepeats(pairs) && leaksMid <= leaksNow
    requires Attached(now, pairs[i]) <==> Accepted(pairs[i], probes[i])
    requires leaksMid == leaksNow <==> Tidy(kinds, pairs[i].nic, pairs[i].driver, probes[i])
    ensures Outcomes(kinds, now, pairs, probes, leaksWas, leaksNow, i + 1)
  {
    hide Attached, Accepted, Tidy, Gains;
    forall j | 0 <= j < i ensures Attached(now, pairs[j]) == Attached(mid, pairs[j]) {
      AttachedElsewhere(mid, now, pairs[i], pairs[j]);
    }
  }

  lemma NothingTried(kinds: nat, owner: map<nat, Owner>, pairs: seq<Owner>, probes: seq<Probe>, leaks: set<nat>)
    requires |probes| == |pairs|
    ensures Tried(kinds, owner, owner, pairs, probes, leaks, leaks, 0)
  {}

  /** A pair whose turn is still to come is not attached. */
  lemma NotYetTried(nics: seq<Nic>, drivers: seq<Driver>, kinds: nat, was: map<nat, Owner>,
                    now: map<nat, Owner>, pairs: seq<Owner>, probes: seq<Probe>,
                    leaksWas: set<nat>, leaksNow: set<nat>, i: nat)
    requires Tried(kinds, was, now, pairs, probes, leaksWas, leaksNow, i) && i < |pairs|
    requires Triable(nics, drivers, was, pairs)
    ensures pairs[i].nic in nics && pairs[i].driver in drivers && forall h | h in now :: now[h] != pairs[i]
  {
    hide Attached, Accepted, Tidy;
    assert pairs[i] in pairs;
    forall h | h in now ensures now[h] != pairs[i] {
      if h !in was { var j :| 0 <= j < i && pairs[..i][j] == now[h]; assert pairs[j] == now[h]; }
    }
  }

  function PairsWith(nics: seq<Nic>, d: Driver): (r: seq<Owner>)
    ensures |r| == |nics|
  {
    seq(|nics|, i requires 0 <= i < |nics| => Owner(nics[i], d))
  }

  lemma AllTriable(nics: seq<Nic>, drivers: seq<Driver>, owner: map<nat, Owner>, d: Driver)
    requires NoRepeats(nics) && d in drivers && forall h | h in owner :: owner[h].driver != d
    ensures Triable(nics, drivers, owner, PairsWith(nics, d))
  {}

  function PairsOf(n: Nic, drivers: seq<Driver>): (r: seq<Owner>)
    ensures |r| == |drivers|
  {
    seq(|drivers|, i requires 0 <= i < |drivers| => Owner(n, drivers[i]))
  }

  /** What a probe comes to: the client supports the device, there is memory, and publication and
      the probe routine succeed. */
  predicate Joins(n: Nic, d: Driver, p: Probe) {
    (n.device % 0x1000 < 0xb00 || d.checksViStride) && p.memory && (d.noPublish || p.publishOk) && p.accept
  }

  ghost predicate NewOnNics(was: map<nat, Owner>, now: map<nat, Owner>, nics: seq<Nic>, d: Driver) {
    forall h | h in now && h !in was :: now[h].driver == d && now[h].nic in nics
  }

  ghost predicate NewOfDrivers(was: map<nat, Owner>, now: map<nat, Owner>, n: Nic, drivers: seq<Driver>) {
    forall h | h in now && h !in was :: now[h].nic == n && now[h].driver in drivers
  }

  /** Of the new handles the younger belong to NICs later in the list. */
  ghost predicate MadeAlongNics(was: map<nat, Owner>, now: map<nat, Owner>, nics: seq<Nic>) {
    forall h, g, i, j | h in now && g in now && h !in was && g !in was && h < g
      && 0 <= i < |nics| && 0 <= j < |nics| && now[h].nic == nics[i] && now[g].nic == nics[j] :: i < j
  }

  ghost predicate MadeAlongDrivers(was: map<nat, Owner>, now: map<nat, Owner>, drivers: seq<Driver>) {
    forall h, g, i, j | h in now && g in now && h !in was && g !in was && h < g
      && 0 <= i < |drivers| && 0 <= j < |drivers| && now[h].driver == drivers[i] && now[g].driver == drivers[j] :: i < j
  }

  ghost predicate Has(owner: map<nat, Owner>, n: Nic, d: Driver) {
    exists h :: h in owner && owner[h].nic == n && owner[h].driver == d
  }

  /** The driver has been tried on the NICs in their order: it has a handle for exactly those it
      joins; nothing else has changed. */
  ghost predicate TriedOn(was: map<nat, Owner>, now: map<nat, Owner>, nics: seq<Nic>, d: Driver, probes: seq<Probe>)
    requires |probes| == |nics|
  {
    && Extends(was, now) && NewOnNics(was, now, nics, d) && MadeAlongNics(was, now, nics)
    && forall i | 0 <= i < |nics| :: Has(now, nics[i], d) <==> Joins(nics[i], d, probes[i])
  }

  /** And the drivers on the NIC, in their order. */
  ghost predicate TriedBy(was: map<nat, Owner>, now: map<nat, Owner>, n: Nic, drivers: seq<Driver>, probes: seq<Probe>)
    requires |probes| == |drivers|
  {
    && Extends(was, now) && NewOfDrivers(was, now, n, drivers) && MadeAlongDrivers(was, now, drivers)
    && forall i | 0 <= i < |drivers| :: Has(now, n, drivers[i]) <==> Joins(n, drivers[i], probes[i])
  }

  lemma AttachedHas(owner: map<nat, Owner>, n: Nic, d: Driver)
    ensures Attached(owner, Owner(n, d)) <==> Has(owner, n, d)
  {
    if Has(owner, n, d) {
      var h :| h in owner && owner[h].nic == n && owner[h].driver == d;
      assert owner[h] == Owner(n, d);
    }
  }

  lemma AcceptedJoins(n: Nic, d: Driver, p: Probe)
    ensures Accepted(Owner(n, d), p) <==> Joins(n, d, p)
  {
    X2Devices(n);
  }

  lemma NewInPairs(kinds: nat, was: map<nat, Owner>, now: map<nat, Owner>, pairs: seq<Owner>, probes: seq<Probe>,
                   leaksWas: set<nat>, leaksNow: set<nat>)
    requires |probes| == |pairs| && Tried(kinds, was, now, pairs, probes, leaksWas, leaksNow, |pairs|)
    ensures forall h | h in was :: h in now && now[h] == was[h]
    ensures forall h | h in now && h !in was :: now[h] in pairs
    ensures forall i | 0 <= i < |pairs| :: Attached(now, pairs[i]) <==> Accepted(pairs[i], probes[i])
    ensures MadeInOrder(was, now, pairs)
  {
    assert pairs[..|pairs|] == pairs;
    hide Tidy, Accepted;
  }

  lemma TriedAlongNicsNew(kinds: nat, was: map<nat, Owner>, now: map<nat, Owner>, nics: seq<Nic>, d: Driver,
      probes: seq<Probe>, leaksWas: set<nat>, leaksNow: set<nat>)
    requires |probes| == |nics|
    requires Tried(kinds, was, now, PairsWith(nics, d), probes, leaksWas, leaksNow, |nics|)
    ensures Extends(was, now) && NewOnNics(was, now, nics, d)
  {
    NewInPairs(kinds, was, now, PairsWith(nics, d), probes, leaksWas, leaksNow);
    forall h | h in now && h !in was ensures now[h].driver == d && now[h].nic in nics {
      var i :| 0 <= i < |PairsWith(nics, d)| && PairsWith(nics, d)[i] == now[h];
      assert nics[i] == now[h].nic;
    }
  }

  lemma InNicOrder(kinds: nat, was: map<nat, Owner>, now: map<nat, Owner>, nics: seq<Nic>, d: Driver,
      probes: seq<Probe>, leaksWas: set<nat>, leaksNow: set<nat>)
    requires |probes| == |nics|
    requires Tried(kinds, was, now, PairsWith(nics, d), probes, leaksWas, leaksNow, |nics|)
    ensures MadeAlongNics(was, now, nics)
  {
    NewInPairs(kinds, was, now, PairsWith(nics, d), probes, leaksWas, leaksNow);
    TriedAlongNicsNew(kinds, was, now, nics, d, probes, leaksWas, leaksNow);
    hide Tried;
    forall h, g, i, j | h in now && g in now && h !in was && g !in was && h < g
        && 0 <= i < |nics| && 0 <= j < |nics| && now[h].nic == nics[i] && now[g].nic == nics[j]
      ensures i < j {
      assert now[h] == PairsWith(nics, d)[i] && now[g] == PairsWith(nics, d)[j];
    }
  }

  lemma TriedAlongNics(kinds: nat, was: map<nat, Owner>, now: map<nat, Owner>, nics: seq<Nic>, d: Driver,
      probes: seq<Probe>, leaksWas: set<nat>, leaksNow: set<nat>)
    requires |probes| == |nics|
    requires Tried(kinds, was, now, PairsWith(nics, d), probes, leaksWas, leaksNow, |nics|)
    ensures TriedOn(was, now, nics, d, probes)
  {
    TriedAlongNicsNew(kinds, was, now, nics, d, probes, leaksWas, leaksNow);
    InNicOrder(kinds, was, now, nics, d, probes, leaksWas, leaksNow);
    NewInPairs(kinds, was, now, PairsWith(nics, d), probes, leaksWas, leaksNow);
    hide Tried, Accepted, Joins, Attached, Has, NewOnNics, MadeAlongNics, Extends, MadeInOrder;
    forall i | 0 <= i < |nics| ensures Has(now, nics[i], d) <==> Joins(nics[i], d, probes[i]) {
      assert PairsWith(nics, d)[i] == Owner(nics[i], d);
      AttachedHas(now, nics[i], d);
      AcceptedJoins(nics[i], d, probes[i]);
    }
  }

  lemma TriedAlongDriversNew(kinds: nat, was: map<nat, Owner>, now: map<nat, Owner>, n: Nic, drivers: seq<Driver>,
      probes: seq<Probe>, leaksWas: set<nat>, leaksNow: set<nat>)
    requires |probes| == |drivers|
    requires Tried(kinds, was, now, PairsOf(n, drivers), probes, leaksWas, leaksNow, |drivers|)
    ensures Extends(was, now) && NewOfDrivers(was, now, n, drivers)
  {
    NewInPairs(kinds, was, now, PairsOf(n, drivers), probes, leaksWas, leaksNow);
    forall h | h in now && h !in was ensures now[h].nic == n && now[h].driver in drivers {
      var i :| 0 <= i < |PairsOf(n, drivers)| && PairsOf(n, drivers)[i] == now[h];
      assert drivers[i] == now[h].driver;
    }
  }

  lemma InDriverOrder(kinds: nat, was: map<nat, Owner>, now: map<nat, Owner>, n: Nic, drivers: seq<Driver>,
      probes: seq<Probe>, leaksWas: set<nat>, leaksNow: set<nat>)
    requires |probes| == |drivers|
    requires Tried(kinds, was, now, PairsOf(n, drivers), probes, leaksWas, leaksNow, |drivers|)
    ensures MadeAlongDrivers(was, now, drivers)
  {
    NewInPairs(kinds, was, now, PairsOf(n, drivers), probes, leaksWas, leaksNow);
    TriedAlongDriversNew(kinds, was, now, n, drivers, probes, leaksWas, leaksNow);
    hide Tried;
    forall h, g, i, j | h in now && g in now && h !in was && g !in was && h < g
        && 0 <= i < |drivers| && 0 <= j < |drivers| && now[h].driver == drivers[i] && now[g].driver == drivers[j]
      ensures i < j {
      assert now[h] == PairsOf(n, drivers)[i] && now[g] == PairsOf(n, drivers)[j];
    }
  }

  lemma TriedAlongDrivers(kinds: nat, was: map<nat, Owner>, now: map<nat, Owner>, n: Nic, drivers: seq<Driver>,
      probes: seq<Probe>, leaksWas: set<nat>, leaksNow: set<nat>)
    requires |probes| == |drivers|
    requires Tried(kinds, was, now, PairsOf(n, drivers), probes, leaksWas, leaksNow, |drivers|)
    ensures TriedBy(was, now, n, drivers, probes)
  {
    TriedAlongDriversNew(kinds, was, now, n, drivers, probes, leaksWas, leaksNow);
    InDriverOrder(kinds, was, now, n, drivers, probes, leaksWas, leaksNow);
    NewInPairs(kinds, was, now, PairsOf(n, drivers), probes, leaksWas, leaksNow);
    hide Tried, Accepted, Joins, Attached, Has, NewOfDrivers, MadeAlongDrivers, Extends, MadeInOrder;
    forall i | 0 <= i < |drivers| ensures Has(now, n, drivers[i]) <==> Joins(n, drivers[i], probes[i]) {
      assert PairsOf(n, drivers)[i] == Owner(n, drivers[i]);
      AttachedHas(now, n, drivers[i]);
      AcceptedJoins(n, drivers[i], probes[i]);
    }
  }

  /** What the registry keeps by handle, once these are gone. */
  function Dropping<V>(of: map<nat, V>, removed: seq<nat>): map<nat, V> {
    map h | h in of && h !in removed :: of[h]
  }

  /** Handles that went without leaking are settled. */
  lemma GoneAreSettled(kinds: nat, was: map<nat, Counts>, book: Book, leaks: set<nat>, removed: seq<nat>)
    requires Ledger(kinds, Dropping(was, removed), book, leaks)
    requires leaks !! was.Keys && forall h | h in removed :: h in was
    ensures forall h | h in removed :: Settled(book, h)
  {
    forall h | h in removed ensures Settled(book, h) {
      UnknownIsSettled(kinds, Dropping(was, removed), book, leaks, h);
    }
  }

  lemma OneFewer<V>(was: map<nat, V>, removed: seq<nat>, h: nat)
    ensures Dropping(Dropping(was, removed), [h]) == Dropping(was, removed + [h])
    ensures Dropping(was, []) == was && Dropping(was, [h]) == was - {h}
  {}

  lemma NewDriverLinked(nics: seq<Nic>, drivers: seq<Driver>, onNic: map<Nic, seq<nat>>,
                        onDriver: map<Driver, seq<nat>>, owner: map<nat, Owner>, next: nat, d: Driver)
    requires Linked(nics, drivers, onNic, onDriver, owner, next) && d !in drivers
    ensures Linked(nics, drivers + [d], onNic, onDriver[d := []], owner, next)
    ensures forall h | h in owner :: owner[h].driver != d
  {
    hide NicList;
  }

  lemma NewNicLinked(nics: seq<Nic>, drivers: seq<Driver>, onNic: map<Nic, seq<nat>>,
                     onDriver: map<Driver, seq<nat>>, owner: map<nat, Owner>, next: nat, n: Nic)
    requires Linked(nics, drivers, onNic, onDriver, owner, next) && n !in nics
    ensures Linked(nics + [n], drivers, onNic[n := []], onDriver, owner, next)
    ensures forall h | h in owner :: owner[h].nic != n
  {
    hide DriverList;
    forall m | m in nics + [n] ensures NicList(owner, m, onNic[n := []][m]) {
      if m != n { assert NicList(owner, m, onNic[m]); }
    }
  }

  lemma NoRepeatsIn(nics: seq<Nic>, drivers: seq<Driver>, onNic: map<Nic, seq<nat>>,
                    onDriver: map<Driver, seq<nat>>, owner: map<nat, Owner>, next: nat)
    requires Linked(nics, drivers, onNic, onDriver, owner, next)
    ensures NoRepeats(nics) && NoRepeats(drivers)
  {}

  /** A driver without handles may go. */
  lemma DriverGone(nics: seq<Nic>, drivers: seq<Driver>, onNic: map<Nic, seq<nat>>,
                   onDriver: map<Driver, seq<nat>>, owner: map<nat, Owner>, next: nat, d: Driver)
    requires Linked(nics, drivers, onNic, onDriver, owner, next) && d in drivers && onDriver[d] == []
    ensures Linked(nics, Without(drivers, d), onNic, onDriver, owner, next)
    ensures forall h | h in owner :: owner[h].driver != d
  {
    hide NicList, Without;
    assert DriverList(owner, d, onDriver[d]);
    forall h | h in owner ensures owner[h].driver != d { assert h !in onDriver[d]; }
    WithoutKeepsOthers(drivers, d);
  }

  lemma NicGone(nics: seq<Nic>, drivers: seq<Driver>, onNic: map<Nic, seq<nat>>,
                onDriver: map<Driver, seq<nat>>, owner: map<nat, Owner>, next: nat, n: Nic)
    requires Linked(nics, drivers, onNic, onDriver, owner, next) && n in nics && onNic[n] == []
    ensures Linked(Without(nics, n), drivers, onNic, onDriver, owner, next)
    ensures forall h | h in owner :: owner[h].nic != n
  {
    hide DriverList, Without;
    assert NicList(owner, n, onNic[n]);
    forall h | h in owner ensures owner[h].nic != n { assert h !in onNic[n]; }
    WithoutKeepsOthers(nics, n);
  }

  lemma ListsHold(nics: seq<Nic>, drivers: seq<Driver>, onNic: map<Nic, seq<nat>>,
                  onDriver: map<Driver, seq<nat>>, owner: map<nat, Owner>, next: nat)
    requires Linked(nics, drivers, onNic, onDriver, owner, next)
    ensures forall n | n in nics :: n in onNic && NicList(owner, n, onNic[n])
    ensures forall d | d in drivers :: d in onDriver && DriverList(owner, d, onDriver[d])
  {}

  ghost predicate Parts(a: seq<nat>, b: seq<nat>, whole: seq<nat>) { a + b == whole }

  lemma PartsStep(a: seq<nat>, b: seq<nat>, whole: seq<nat>)
    requires Parts(a, b, whole)
    ensures b != [] ==> Parts(a + [b[0]], b[1..], whole)
    ensures b == [] ==> a == whole
  {}

  lemma PartsShift(a: seq<nat>, h: nat, b: seq<nat>, whole: seq<nat>)
    requires Parts(a, [h] + b, whole)
    ensures Parts(a + [h], b, whole)
  {}

  lemma FirstGoes(owner: map<nat, Owner>, d: Driver, list: seq<nat>)
    requires DriverList(owner, d, list) && list != []
    ensures list[0] in owner && owner[list[0]].driver == d && Without(list, list[0]) == list[1..]
  {
    assert list[0] in list;
  }

  lemma LastGoes(owner: map<nat, Owner>, n: Nic, list: seq<nat>)
    requires NicList(owner, n, list) && list != []
    ensures Without(list, list[|list| - 1]) == list[..|list| - 1]
    ensures Reverse(list) == [list[|list| - 1]] + Reverse(list[..|list| - 1])
    ensures list[|list| - 1] in owner && owner[list[|list| - 1]].nic == n
  {
    assert list[|list| - 1] in list;
    SortedDistinct(owner, list);
    hide Sorted;
    WithoutLast(list);
  }

  lemma WithoutLast(list: seq<nat>)
    requires list != [] && NoRepeats(list)
    ensures Without(list, list[|list| - 1]) == list[..|list| - 1]
  {
    hide Without;
    var i := WithoutSplits(list, list[|list| - 1]);
    assert i == |list| - 1;
    assert list[i + 1..] == [];
  }

  class Registry {
    const kinds: nat
    var nics: seq<Nic>
    var drivers: seq<Driver>
    var onNic: map<Nic, seq<nat>>
    var onDriver: map<Driver, seq<nat>>
    var owner: map<nat, Owner>
    var counts: map<nat, Counts>
    var next: nat
    // the calls the NICs have seen, and handles freed while they still held something there
    var book: Book
    ghost var leaks: set<nat>

    ghost predicate Links()
      reads `nics, `drivers, `onNic, `onDriver, `owner, `next
    {
      Linked(nics, drivers, onNic, onDriver, owner, next)
    }

    ghost predicate Books()
      reads `counts, `book, `leaks, `next
    {
      Balanced(kinds, counts, book, leaks, next)
    }

    ghost predicate Valid()
      reads this
    {
      Links() && Books() && owner.Keys == counts.Keys
    }

    constructor (kinds: nat)
      ensures Valid() && this.kinds == kinds && nics == [] && drivers == [] && leaks == {}
      ensures book == Book(multiset{}, multiset{}, multiset{})
    {
      this.kinds := kinds;
      nics, drivers, onNic, onDriver, owner, counts := [], [], map[], map[], map[], map[];
      next, book, leaks := 0, Book(multiset{}, multiset{}, multiset{}), {};
    }

    // ---- Reference counting ----

    method PublishHandle(h: nat, ok: bool) returns (done: bool)
      requires Books() && h in counts
      modifies `counts, `book
      ensures Books() && counts == old(counts)[h := Apply(old(counts)[h], Publish(ok))]
      ensures book == Took(old(book), (h, Publication), old(counts)[h].publish, ok)
      ensures done == (old(counts)[h].publish > 0 || ok)
      ensures var was := old(counts)[h].publish;
              && counts[h].publish == (if done then was + 1 else was) && (was > 0 ==> book == old(book))
              && (was == 0 ==>
                    && book.asked == old(book).asked + multiset{(h, Publication)}
                    && book.returned == old(book).returned
                    && book.granted == old(book).granted + if ok then multiset{(h, Publication)} else multiset{})
    {
      hide Ledger;
      CallKeepsLedger(kinds, counts, book, leaks, h, Publish(ok));
      var c, x: Hold := counts[h], (h, Publication);
      done := true;
      if c.publish == 0 {
        done := ok;
        book := book.(asked := book.asked + multiset{x});
        if ok {
          book := book.(granted := book.granted + multiset{x});
        }
      }
      if done {
        counts := counts[h := c.(publish := c.publish + 1)];
      }
      assert counts == old(counts)[h := Apply(c, Publish(ok))];
    }

    method UnpublishHandle(h: nat)
      requires Books() && h in counts
      modifies `counts, `book
      ensures Books() && counts == old(counts)[h := Apply(old(counts)[h], Unpublish)]
      ensures book == Gave(old(book), (h, Publication), old(counts)[h].publish)
      ensures var was := old(counts)[h].publish;
              && counts[h].publish == (if was > 0 then was - 1 else 0)
              && book == if was == 1 then old(book).(returned := old(book).returned + multiset{(h, Publication)})
                         else old(book)
    {
      hide Ledger;
      CallKeepsLedger(kinds, counts, book, leaks, h, Unpublish);
      var c, x: Hold := counts[h], (h, Publication);
      if c.publish > 0 {
        counts := counts[h := c.(publish := c.publish - 1)];
        if c.publish == 1 {
          book := book.(returned := book.returned + multiset{x});
        }
      }
      assert counts == old(counts)[h := Apply(c, Unpublish)];
    }

    method BlockKernel(h: nat, kind: nat, ok: bool) returns (done: bool)
      requires Books() && h in counts && kind < kinds
      modifies `counts, `book
      ensures Books() && counts == old(counts)[h := Apply(old(counts)[h], Block(kind, ok))]
      ensures book == Took(old(book), (h, Blocked(kind)), CountOf(old(counts)[h], Blocked(kind)), ok)
      ensures done == (CountOf(old(counts)[h], Blocked(kind)) > 0 || ok)
      ensures |old(counts)[h].block| == |counts[h].block| == kinds
      ensures var was := old(counts)[h].block[kind];
              && counts[h].block[kind] == (if done then was + 1 else was) && (was > 0 ==> book == old(book))
              && (was == 0 ==>
                    && book.asked == old(book).asked + multiset{(h, Blocked(kind))}
                    && book.returned == old(book).returned
                    && book.granted == old(book).granted + if ok then multiset{(h, Blocked(kind))} else multiset{})
    {
      BlockSize(kinds, counts, book, leaks, h);
      hide Ledger;
      CallKeepsLedger(kinds, counts, book, leaks, h, Block(kind, ok));
      var c, x: Hold := counts[h], (h, Blocked(kind));
      done := true;
      if c.block[kind] == 0 {
        done := ok;
        book := book.(asked := book.asked + multiset{x});
        if ok {
          book := book.(granted := book.granted + multiset{x});
        }
      }
      if done {
        counts := counts[h := c.(block := c.block[kind := c.block[kind] + 1])];
      }
      assert counts == old(counts)[h := Apply(c, Block(kind, ok))];
    }

    method UnblockKernel(h: nat, kind: nat)
      requires Books() && h in counts && kind < kinds
      modifies `counts, `book
      ensures Books() && counts == old(counts)[h := Apply(old(counts)[h], Unblock(kind))]
      ensures book == Gave(old(book), (h, Blocked(kind)), CountOf(old(counts)[h], Blocked(kind)))
      ensures |old(counts)[h].block| == |counts[h].block| == kinds
      ensures var was := old(counts)[h].block[kind];
              && counts[h].block[kind] == (if was > 0 then was - 1 else 0)
              && book == if was == 1 then old(book).(returned := old(book).returned + multiset{(h, Blocked(kind))})
                         else old(book)
    {
      BlockSize(kinds, counts, book, leaks, h);
      hide Ledger;
      CallKeepsLedger(kinds, counts, book, leaks, h, Unblock(kind));
      var c, x: Hold := counts[h], (h, Blocked(kind));
      if c.block[kind] > 0 {
        counts := counts[h := c.(block := c.block[kind := c.block[kind] - 1])];
        if c.block[kind] == 1 {
          book := book.(returned := book.returned + multiset{x});
        }
      }
      assert counts == old(counts)[h := Apply(c, Unblock(kind))];
    }

    method ClientCall(h: nat, op: Op)
      requires Books() && h in counts && InKinds(kinds, [op])
      modifies `counts, `book
      ensures Books() && counts == old(counts)[h := Apply(old(counts)[h], op)]
      ensures book == Booked(old(book), h, old(counts)[h], op)
    {
      assert [op][0] == op;
      hide Books, Apply, Took, Gave;
      match op {
        case Publish(ok) => var _ := PublishHandle(h, ok);
        case Unpublish => UnpublishHandle(h);
        case Block(kind, ok) => var _ := BlockKernel(h, kind, ok);
        case Unblock(kind) => UnblockKernel(h, kind);
      }
    }

    /** A client's calls through its handle reach the NIC only for the first request and the
        last return of each resource, and change nothing for other handles. */
    method ClientCalls(h: nat, ops: seq<Op>)
      requires Books() && h in counts && InKinds(kinds, ops)
      modifies `counts, `book
      ensures Books() && counts == old(counts)[h := ApplyAll(old(counts)[h], ops)]
      ensures book == BookedAll(old(book), h, old(counts)[h], ops) && GrowsFor(old(book), book, h)
    {
      BookedAllGrows(book, h, counts[h], ops);
      hide Books, Apply, Booked, GrowsFor;
      for i := 0 to |ops|
        invariant Books() && counts == old(counts)[h := ApplyAll(old(counts)[h], ops[..i])]
        invariant book == BookedAll(old(book), h, old(counts)[h], ops[..i])
      {
        assert ops[..i + 1][..i] == ops[..i];
        ClientCall(h, ops[i]);
      }
      assert ops[..|ops|] == ops;
    }

    // ---- Attaching and detaching ----

    /** Try a driver on a NIC. */
    method TryAddDevice(nic: Nic, d: Driver, probe: Probe) returns (added: bool)
      requires Valid() && nic in nics && d in drivers && InKinds(kinds, probe.ops)
      requires forall h | h in owner :: owner[h] != Owner(nic, d)
      modifies this
      ensures Valid() && nics == old(nics) && drivers == old(drivers)
      ensures added == Accepted(Owner(nic, d), probe)
      ensures added == Joins(nic, d, probe)
      ensures added ==> owner == old(owner)[old(next) := Owner(nic, d)]
      ensures !added ==> owner == old(owner)
      ensures Gains(old(owner), owner, Owner(nic, d)) && (Attached(owner, Owner(nic, d)) <==> added)
      ensures Tidy(kinds, nic, d, probe) <==> leaks == old(leaks)
      ensures old(leaks) <= leaks <= old(leaks) + {old(next)}
      ensures !added ==> (Tidy(kinds, nic, d, probe) <==> Settled(book, old(next)))
      ensures !added && !Tidy(kinds, nic, d, probe) ==> Owes(book, old(next))
      ensures book == BookedAll(old(book), old(next), Fresh(kinds), TryOps(nic, d, probe))
      ensures counts == if added then old(counts)[old(next) := ApplyAll(Fresh(kinds), TryOps(nic, d, probe))]
                        else old(counts)
    {
      X2Devices(nic);
      UnknownIsSettled(kinds, counts, book, leaks, next);
      OwnersBelow(nics, drivers, onNic, onDriver, owner, next);
      NoLeaksAhead(kinds, counts, book, leaks, next);
      hide Valid, Probed, Leaves, Owes, Settled, Gains, Attached, ProbeOps, ApplyAll, Fresh;
      assert BookedAll(book, next, Fresh(kinds), []) == book;
      hide BookedAll;
      added := false;
      if IsX2(nic) && !d.checksViStride {
        OneMade(owner, owner, next, Owner(nic, d), false);
        return;
      }
      if !probe.memory {
        OneMade(owner, owner, next, Owner(nic, d), false);
        return;
      }
      added := TryHandle(nic, d, probe);
      OneMade(old(owner), owner, old(next), Owner(nic, d), added);
    }

    lemma ValidMeans()
      requires Valid()
      ensures Links() && Books() && owner.Keys == counts.Keys && forall h | h in owner :: h < next
      ensures next !in counts
    {
      OwnersBelow(nics, drivers, onNic, onDriver, owner, next);
    }

    lemma ValidAgain()
      requires Links() && Books() && owner.Keys == counts.Keys
      ensures Valid()
    {}

    /** With memory for a handle: make it, probe it, and attach it if the client accepts. */
    method TryHandle(nic: Nic, d: Driver, probe: Probe) returns (added: bool)
      requires Valid() && nic in nics && d in drivers && InKinds(kinds, probe.ops)
      requires forall h | h in owner :: owner[h] != Owner(nic, d)
      modifies this
      ensures Valid() && nics == old(nics) && drivers == old(drivers)
      ensures added == ((d.noPublish || probe.publishOk) && probe.accept)
      ensures owner == if added then old(owner)[old(next) := Owner(nic, d)] else old(owner)
      ensures book == BookedAll(old(book), old(next), Fresh(kinds), ProbeOps(d, probe))
      ensures counts == if added then old(counts)[old(next) := ApplyAll(Fresh(kinds), ProbeOps(d, probe))]
                        else old(counts)
      ensures added ==> leaks == old(leaks)
      ensures var leaves := (d.noPublish || probe.publishOk) && Leaves(Probed(kinds, d, probe));
              !added ==>
                && leaks == (if leaves then old(leaks) + {old(next)} else old(leaks))
                && (leaves ==> Owes(book, old(next))) && (leaves <==> !Settled(book, old(next)))
    {
      hide *;
      ValidMeans();
      var h := next;
      assert old(counts)[h := Fresh(kinds)] - {h} == old(counts);
      NewHandle();
      added := ProbeHandle(h, d, probe);
      if added {
        Attach(h, nic, d);
      }
      ValidAgain();
    }

    /** Publishes on the client's behalf, runs its probe routine, and undoes the
        publication and frees the handle if the client declines. */
    method ProbeHandle(h: nat, d: Driver, probe: Probe) returns (ok: bool)
      requires Links() && Books() && h in counts && h < next && InKinds(kinds, probe.ops)
      requires counts[h] == Fresh(kinds)
      modifies `counts, `book, `leaks
      ensures Links() && Books()
      ensures ok == ((d.noPublish || probe.publishOk) && probe.accept)
      ensures ok ==> counts == old(counts)[h := ApplyAll(Fresh(kinds), ProbeOps(d, probe))] && leaks == old(leaks)
      ensures !ok ==> counts == old(counts) - {h}
      ensures book == BookedAll(old(book), h, Fresh(kinds), ProbeOps(d, probe))
      ensures var leaves := (d.noPublish || probe.publishOk) && Leaves(Probed(kinds, d, probe));
              !ok ==>
                && leaks == (if leaves then old(leaks) + {h} else old(leaks))
                && (leaves ==> Owes(book, h)) && (leaves <==> !Settled(book, h))
    {
      ProbeInParts(kinds, book, h, d, probe);
      hide Linked, Ledger, InKinds, ApplyAll, BookedAll, ProbeOps, Owes, Settled, Took, Gave;
      ok := false;
      if !d.noPublish {
        var done := PublishHandle(h, probe.publishOk);
        if !done {
          FreeHandle(h);
          return;
        }
      }
      ClientCalls(h, probe.ops);
      if !probe.accept {
        UnpublishHandle(h);
        FreeHandle(h);
        return;
      }
      ok := true;
    }

    method NewHandle()
      requires Valid()
      modifies `counts, `next
      ensures Links() && Books() && next == old(next) + 1
      ensures counts == old(counts)[old(next) := Fresh(kinds)]
    {
      BalanceGrows(kinds, counts, book, leaks, next);
      LinkedBelow(nics, drivers, onNic, onDriver, owner, next, next + 1);
      hide Linked, Balanced, Fresh;
      counts := counts[next := Fresh(kinds)];
      next := next + 1;
    }

    /** Frees a handle that was never attached; what it still holds is lost. */
    method FreeHandle(h: nat)
      requires Links() && Books() && h in counts && h < next
      modifies `counts, `leaks
      ensures Links() && Books() && counts == old(counts) - {h}
      ensures var clear := old(counts)[h].publish == 0 && NoneBlocked(old(counts)[h]);
              && leaks == (if clear then old(leaks) else old(leaks) + {h})
              && (clear <==> Settled(book, h)) && (!clear ==> Owes(book, h))
    {
      LedgerForgets(kinds, counts, book, leaks, h);
      hide Linked, Ledger, Settled, Owes;
      if counts[h].publish != 0 || !NoneBlocked(counts[h]) {
        leaks := leaks + {h};
      }
      counts := counts - {h};
      if h in leaks { LeakedOwes(kinds, counts, book, leaks, h); }
    }

    method FindPlace(list: seq<nat>, priority: int) returns (at: nat)
      requires forall i | 0 <= i < |list| :: list[i] in owner
      ensures InsertionPoint(owner, list, priority, at)
    {
      at := 0;
      while at < |list| && owner[list[at]].driver.priority <= priority
        invariant at <= |list| && forall i | 0 <= i < at :: owner[list[i]].driver.priority <= priority
      {
        at := at + 1;
      }
    }

    /** Puts the handle behind the last one of its priority, and last on the driver's list. */
    method Attach(h: nat, nic: Nic, d: Driver)
      requires Links() && h !in owner && next == h + 1 && nic in nics && d in drivers
      requires forall x | x in owner :: owner[x] != Owner(nic, d) && x < h
      modifies `onNic, `onDriver, `owner
      ensures Links() && owner == old(owner)[h := Owner(nic, d)]
    {
      ListOwned(nics, drivers, onNic, onDriver, owner, next, nic, d);
      LinkedBelow(nics, drivers, onNic, onDriver, owner, next, h);
      hide Linked;
      var list := onNic[nic];
      var at := FindPlace(list, d.priority);
      AttachKeepsLinks(nics, drivers, onNic, onDriver, owner, h, h, Owner(nic, d), at);
      onNic := onNic[nic := list[..at] + [h] + list[at..]];
      onDriver := onDriver[d := onDriver[d] + [h]];
      owner := owner[h := Owner(nic, d)];
    }

    method Detach(h: nat)
      requires Links() && h in owner
      modifies `onNic, `onDriver, `owner
      ensures Links() && owner == old(owner) - {h}
      ensures onNic == old(onNic)[old(owner)[h].nic := Without(old(onNic)[old(owner)[h].nic], h)]
      ensures onDriver == old(onDriver)[old(owner)[h].driver := Without(old(onDriver)[old(owner)[h].driver], h)]
    {
      hide Linked, Without;
      var o := owner[h];
      DetachKeepsLinks(nics, drivers, onNic, onDriver, owner, next, h);
      LinkedKnows(nics, drivers, onNic, onDriver, owner, next, h);
      onDriver := onDriver[o.driver := Without(onDriver[o.driver], h)];
      onNic := onNic[o.nic := Without(onNic[o.nic], h)];
      owner := owner - {h};
    }

    /** Detaches a handle; afterwards the NIC holds nothing on its behalf. */
    method DelDevice(h: nat, removeOps: seq<Op>)
      requires Valid() && h in owner && InKinds(kinds, removeOps)
      modifies this
      ensures Valid() && nics == old(nics) && drivers == old(drivers) && leaks == old(leaks)
      ensures owner == old(owner) - {h}
      ensures onNic == old(onNic)[old(owner)[h].nic := Without(old(onNic)[old(owner)[h].nic], h)]
      ensures onDriver == old(onDriver)[old(owner)[h].driver := Without(old(onDriver)[old(owner)[h].driver], h)]
      ensures counts == old(counts) - {h} && Settled(book, h) && GrowsFor(old(book), book, h)
      ensures var called := BookedAll(old(book), h, old(counts)[h], removeOps);
              book.asked == called.asked && book.granted == called.granted
    {
      hide *;
      ValidMeans();
      RemoveClient(h, removeOps);
      ghost var was, mid := old(book), book;
      Detach(h);
      ForgetHandle(h);
      GrowsTwice(was, mid, book, h);
      ValidAgain();
    }

    /** The client's remove routine, and its publications taken back. */
    method RemoveClient(h: nat, removeOps: seq<Op>)
      requires Books() && h in counts && InKinds(kinds, removeOps)
      modifies `counts, `book
      ensures Books() && counts == old(counts)[h := ApplyAll(old(counts)[h], removeOps).(publish := 0)]
      ensures GrowsFor(old(book), book, h)
      ensures var called := BookedAll(old(book), h, old(counts)[h], removeOps);
              book.asked == called.asked && book.granted == called.granted
    {
      ghost var was := book;
      hide Ledger, GrowsFor, BookedAll, ApplyAll;
      ClientCalls(h, removeOps);
      ghost var mid := book;
      DropPublications(h);
      GrowsTwice(was, mid, book, h);
    }

    /** A handle without publications is freed once its blocks are taken back. */
    method ForgetHandle(h: nat)
      requires Books() && h in counts && counts[h].publish == 0
      modifies `counts, `book
      ensures Books() && counts == old(counts) - {h} && Settled(book, h) && GrowsFor(old(book), book, h)
      ensures book.asked == old(book).asked && book.granted == old(book).granted
    {
      hide Ledger, GrowsFor, Settled;
      DropBlocks(h);
      LedgerForgets(kinds, counts, book, leaks, h);
      counts := counts - {h};
    }

    method DropPublications(h: nat)
      requires Books() && h in counts
      modifies `counts, `book
      ensures Books() && counts == old(counts)[h := old(counts)[h].(publish := 0)]
      ensures Returned(old(book), book, h)
    {
      GrowsNot(book, h);
      hide Ledger, GrowsFor;
      while counts[h].publish > 0
        invariant Books() && h in counts && counts == old(counts)[h := old(counts)[h].(publish := counts[h].publish)]
        invariant Returned(old(book), book, h)
        decreases counts[h].publish
      {
        ReturnedMore(old(book), book, h, Publication, counts[h].publish);
        UnpublishHandle(h);
      }
    }

    method DropBlocks(h: nat)
      requires Books() && h in counts
      modifies `counts, `book
      ensures Books() && h in counts && counts == old(counts)[h := old(counts)[h].(block := counts[h].block)]
      ensures NoneBlocked(counts[h]) && Returned(old(book), book, h)
    {
      assert |counts[h].block| == kinds;
      GrowsNot(book, h);
      hide Ledger, GrowsFor;
      for kind := 0 to kinds
        invariant Books() && h in counts && counts == old(counts)[h := old(counts)[h].(block := counts[h].block)]
        invariant |counts[h].block| == kinds && forall k | 0 <= k < kind :: counts[h].block[k] == 0
        invariant Returned(old(book), book, h)
      {
        while counts[h].block[kind] > 0
          invariant Books() && h in counts && counts == old(counts)[h := old(counts)[h].(block := counts[h].block)]
          invariant |counts[h].block| == kinds && forall k | 0 <= k < kind :: counts[h].block[k] == 0
          invariant Returned(old(book), book, h)
          decreases counts[h].block[kind]
        {
          ReturnedMore(old(book), book, h, Blocked(kind), CountOf(counts[h], Blocked(kind)));
          UnblockKernel(h, kind);
        }
      }
    }

    // ---- Registering and unregistering ----

    lemma ListsAreValid()
      requires Valid()
      ensures forall n | n in nics :: n in onNic && NicList(owner, n, onNic[n])
      ensures forall d | d in drivers :: d in onDriver && DriverList(owner, d, onDriver[d])
    {
      ListsHold(nics, drivers, onNic, onDriver, owner, next);
    }

    lemma OfDriver(d: Driver)
      requires Valid() && d in drivers
      ensures leaks !! counts.Keys && d in onDriver && forall h | h in onDriver[d] :: h in counts
      ensures Ascending(onDriver[d]) && forall h :: h in onDriver[d] <==> h in owner && owner[h].driver == d
    {
      ListsAreValid();
    }

    lemma OfNic(n: Nic)
      requires Valid() && n in nics
      ensures leaks !! counts.Keys && n in onNic && forall h | h in Reverse(onNic[n]) :: h in counts
      ensures LastToFirst(owner, Reverse(onNic[n]))
      ensures forall h :: h in Reverse(onNic[n]) <==> h in owner && owner[h].nic == n
    {
      ListsAreValid();
      SortedCalls(owner, onNic[n]);
      ReversedCalls(owner, onNic[n]);
      hide Linked, Ledger, FirstToLast, LastToFirst;
      forall h ensures h in Reverse(onNic[n]) <==> h in owner && owner[h].nic == n { ReverseMembers(onNic[n], h); }
    }

    lemma SettledNow(was: map<nat, Counts>, removed: seq<nat>)
      requires Valid() && counts == Dropping(was, removed)
      requires leaks !! was.Keys && forall h | h in removed :: h in was
      ensures forall h | h in removed :: Settled(book, h)
    {
      GoneAreSettled(kinds, was, book, leaks, removed);
    }

    method DropDriver(d: Driver)
      requires Valid() && d in drivers && d in onDriver && onDriver[d] == []
      modifies `drivers
      ensures Valid() && drivers == Without(old(drivers), d) && forall h | h in owner :: owner[h].driver != d
    {
      hide Linked, Ledger, Without;
      DriverGone(nics, drivers, onNic, onDriver, owner, next, d);
      drivers := Without(drivers, d);
    }

    method DropNic(n: Nic)
      requires Valid() && n in nics && n in onNic && onNic[n] == []
      modifies `nics
      ensures Valid() && nics == Without(old(nics), n) && forall h | h in owner :: owner[h].nic != n
    {
      hide Linked, Ledger, Without;
      NicGone(nics, drivers, onNic, onDriver, owner, next, n);
      nics := Without(nics, n);
    }

    lemma NextIsNew()
      requires Valid()
      ensures next !in counts
    {
      ValidMeans();
    }

    method TryOne(o: Owner, probe: Probe)
      requires Valid() && o.nic in nics && o.driver in drivers && InKinds(kinds, probe.ops)
      requires forall h | h in owner :: owner[h] != o
      modifies this
      ensures Valid() && nics == old(nics) && drivers == old(drivers) && Gains(old(owner), owner, o)
      ensures (Attached(owner, o) <==> Accepted(o, probe)) && old(leaks) <= leaks
      ensures (Tidy(kinds, o.nic, o.driver, probe) <==> leaks == old(leaks)) && Extends(old(counts), counts)
    {
      NextIsNew();
      hide Valid, Accepted, Tidy, Attached, Gains, InKinds;
      var added := TryAddDevice(o.nic, o.driver, probe);
    }

    /** Tries one new driver on all NICs, or all drivers on one new NIC. */
    method TryPairs(pairs: seq<Owner>, probes: seq<Probe>)
      requires Valid() && Triable(nics, drivers, owner, pairs) && |probes| == |pairs| && AllInKinds(kinds, probes)
      modifies this
      ensures Valid() && nics == old(nics) && drivers == old(drivers)
      ensures Tried(kinds, old(owner), owner, pairs, probes, old(leaks), leaks, |pairs|)
      ensures Extends(old(counts), counts)
    {
      ghost var was, leaksWas, ns, ds := owner, leaks, nics, drivers;
      NothingTried(kinds, was, pairs, probes, leaksWas);
      hide Valid, Tried, Triable, Accepted, Tidy, Attached, Gains, InKinds, AllInKinds;
      for i := 0 to |pairs|
        invariant Valid() && nics == ns && drivers == ds
        invariant Tried(kinds, was, owner, pairs, probes, leaksWas, leaks, i) && Extends(old(counts), counts)
      {
        ProbeFits(kinds, probes, i);
        NotYetTried(ns, ds, kinds, was, owner, pairs, probes, leaksWas, leaks, i);
        ghost var before, leaksBefore := owner, leaks;
        TryOne(pairs[i], probes[i]);
        TriedOneMore(ns, ds, kinds, was, before, owner, pairs, probes, leaksWas, leaksBefore, leaks, i);
      }
    }

    /** Registers a driver and tries it on every NIC, or refuses it outright. */
    method RegisterDriver(d: Driver, probes: seq<Probe>) returns (rc: int)
      requires Valid() && d !in drivers && |probes| == |nics| && AllInKinds(kinds, probes)
      modifies this
      ensures Valid() && nics == old(nics)
      ensures rc == if d.checksUsrBuf && (d.requiresMinor ==> d.minor == 0) then 0 else -1
      ensures drivers == if rc == 0 then old(drivers) + [d] else old(drivers)
      ensures rc != 0 ==> owner == old(owner) && leaks == old(leaks)
      ensures rc == 0 ==> Tried(kinds, old(owner), owner, PairsWith(nics, d), probes, old(leaks), leaks, |nics|)
      ensures rc == 0 ==> TriedOn(old(owner), owner, nics, d, probes)
      ensures Extends(old(counts), counts) && (rc != 0 ==> counts == old(counts) && book == old(book))
    {
      if !Permitted(d) {
        return EPERM;
      }
      ListDriver(d);
      hide Valid, Tried, TriedOn, Permitted, Extends;
      TryPairs(PairsWith(nics, d), probes);
      TriedAlongNics(kinds, old(owner), owner, nics, d, probes, old(leaks), leaks);
      return 0;
    }

    method ListDriver(d: Driver)
      requires Valid() && d !in drivers
      modifies `drivers, `onDriver
      ensures Valid() && drivers == old(drivers) + [d] && Triable(nics, drivers, owner, PairsWith(nics, d))
    {
      NoRepeatsIn(nics, drivers, onNic, onDriver, owner, next);
      NewDriverLinked(nics, drivers, onNic, onDriver, owner, next, d);
      AllTriable(nics, drivers + [d], owner, d);
      hide Linked, Ledger, Triable, PairsWith;
      drivers := drivers + [d];
      onDriver := onDriver[d := []];
    }

    /** Registers a NIC and tries every driver on it. */
    method RegisterNic(n: Nic, probes: seq<Probe>)
      requires Valid() && n !in nics && |probes| == |drivers| && AllInKinds(kinds, probes)
      modifies this
      ensures Valid() && drivers == old(drivers) && nics == old(nics) + [n]
      ensures Tried(kinds, old(owner), owner, PairsOf(n, drivers), probes, old(leaks), leaks, |drivers|)
      ensures TriedBy(old(owner), owner, n, drivers, probes)
      ensures Extends(old(counts), counts)
    {
      ListNic(n);
      hide Valid, Tried, TriedBy, Extends;
      TryPairs(PairsOf(n, drivers), probes);
      TriedAlongDrivers(kinds, old(owner), owner, n, drivers, probes, old(leaks), leaks);
    }

    method ListNic(n: Nic)
      requires Valid() && n !in nics
      modifies `nics, `onNic
      ensures Valid() && nics == old(nics) + [n] && Triable(nics, drivers, owner, PairsOf(n, drivers))
    {
      NoRepeatsIn(nics, drivers, onNic, onDriver, owner, next);
      NewNicLinked(nics, drivers, onNic, onDriver, owner, next, n);
      hide Linked, Ledger;
      nics := nics + [n];
      onNic := onNic[n := []];
    }

    method DelFirstOf(d: Driver, removals: map<nat, seq<Op>>) returns (h: nat)
      requires Valid() && d in drivers && RemovalsInKinds(kinds, removals) && d in onDriver && onDriver[d] != []
      modifies this
      ensures Valid() && nics == old(nics) && drivers == old(drivers) && leaks == old(leaks)
      ensures h == old(onDriver)[d][0] && d in onDriver && onDriver[d] == old(onDriver)[d][1..]
      ensures owner == Dropping(old(owner), [h]) && counts == Dropping(old(counts), [h])
    {
      ListsAreValid();
      hide Valid, RemovalsInKinds, RemovalOps, Without, DriverList, NicList, InKinds, Dropping;
      h := onDriver[d][0];
      FirstGoes(owner, d, onDriver[d]);
      RemovalFits(kinds, removals, h);
      OneFewer(owner, [], h);
      OneFewer(counts, [], h);
      DelDevice(h, RemovalOps(removals, h));
    }

    method DelLastOf(n: Nic, removals: map<nat, seq<Op>>) returns (h: nat)
      requires Valid() && n in nics && RemovalsInKinds(kinds, removals) && n in onNic && onNic[n] != []
      modifies this
      ensures Valid() && nics == old(nics) && drivers == old(drivers) && leaks == old(leaks)
      ensures n in onNic && Reverse(old(onNic)[n]) == [h] + Reverse(onNic[n]) && |onNic[n]| < |old(onNic)[n]|
      ensures owner == Dropping(old(owner), [h]) && counts == Dropping(old(counts), [h])
    {
      ListsAreValid();
      hide Valid, RemovalsInKinds, RemovalOps, Without, DriverList, NicList, InKinds, Dropping, Reverse;
      h := onNic[n][|onNic[n]| - 1];
      LastGoes(owner, n, onNic[n]);
      RemovalFits(kinds, removals, h);
      OneFewer(owner, [], h);
      OneFewer(counts, [], h);
      DelDevice(h, RemovalOps(removals, h));
    }

    /** Detaches a driver from all its NICs, oldest handle first, and forgets it. */
    method UnregisterDriver(d: Driver, removals: map<nat, seq<Op>>) returns (removed: seq<nat>)
      requires Valid() && d in drivers && RemovalsInKinds(kinds, removals)
      modifies this
      ensures Valid() && nics == old(nics) && drivers == Without(old(drivers), d) && leaks == old(leaks)
      ensures d in old(onDriver) && removed == old(onDriver)[d]
      ensures Ascending(removed) && forall h :: h in removed <==> h in old(owner) && old(owner)[h].driver == d
      ensures owner == Dropping(old(owner), removed) && forall h | h in owner :: owner[h].driver != d
      ensures counts == Dropping(old(counts), removed) && forall h | h in removed :: Settled(book, h)
    {
      OfDriver(d);
      hide Valid, Settled, Dropping, Without, Ascending;
      removed := DelAllOfDriver(d, removals);
      SettledNow(old(counts), removed);
      DropDriver(d);
    }

    method DelAllOfDriver(d: Driver, removals: map<nat, seq<Op>>) returns (removed: seq<nat>)
      requires Valid() && d in drivers && RemovalsInKinds(kinds, removals)
      modifies this
      ensures Valid() && nics == old(nics) && drivers == old(drivers) && leaks == old(leaks)
      ensures d in old(onDriver) && removed == old(onDriver)[d] && d in onDriver && onDriver[d] == []
      ensures owner == Dropping(old(owner), removed) && counts == Dropping(old(counts), removed)
    {
      ListsAreValid();
      ghost var was, countsWas, leaksWas, list := owner, counts, leaks, onDriver[d];
      removed := [];
      OneFewer(owner, [], 0);
      OneFewer(counts, [], 0);
      assert Parts([], list, list);
      hide Valid, Parts, RemovalsInKinds, Dropping, NicList, Without, DriverList;
      while onDriver[d] != []
        invariant Valid() && nics == old(nics) && drivers == old(drivers) && leaks == leaksWas
        invariant owner == Dropping(was, removed) && counts == Dropping(countsWas, removed)
        invariant d in onDriver && Parts(removed, onDriver[d], list)
        decreases |onDriver[d]|
      {
        PartsStep(removed, onDriver[d], list);
        var h := DelFirstOf(d, removals);
        OneFewer(was, removed, h);
        OneFewer(countsWas, removed, h);
        removed := removed + [h];
      }
      PartsStep(removed, onDriver[d], list);
    }

    /** Detaches all drivers from a NIC, in the reverse of list order, and forgets it. */
    method UnregisterNic(n: Nic, removals: map<nat, seq<Op>>) returns (removed: seq<nat>)
      requires Valid() && n in nics && RemovalsInKinds(kinds, removals)
      modifies this
      ensures Valid() && drivers == old(drivers) && nics == Without(old(nics), n) && leaks == old(leaks)
      ensures n in old(onNic) && removed == Reverse(old(onNic)[n])
      ensures LastToFirst(old(owner), removed)
      ensures forall h :: h in removed <==> h in old(owner) && old(owner)[h].nic == n
      ensures owner == Dropping(old(owner), removed) && forall h | h in owner :: owner[h].nic != n
      ensures counts == Dropping(old(counts), removed) && forall h | h in removed :: Settled(book, h)
    {
      OfNic(n);
      hide Valid, Settled, Dropping, Without, Reverse, LastToFirst;
      removed := DelAllOfNic(n, removals);
      SettledNow(old(counts), removed);
      DropNic(n);
    }

    method DelAllOfNic(n: Nic, removals: map<nat, seq<Op>>) returns (removed: seq<nat>)
      requires Valid() && n in nics && RemovalsInKinds(kinds, removals)
      modifies this
      ensures Valid() && drivers == old(drivers) && nics == old(nics) && leaks == old(leaks)
      ensures n in old(onNic) && removed == Reverse(old(onNic)[n]) && n in onNic && onNic[n] == []
      ensures owner == Dropping(old(owner), removed) && counts == Dropping(old(counts), removed)
    {
      ListsAreValid();
      ghost var was, countsWas, leaksWas, list := owner, counts, leaks, onNic[n];
      removed := [];
      OneFewer(owner, [], 0);
      OneFewer(counts, [], 0);
      assert Reverse([]) == [] && Parts([], Reverse(list), Reverse(list));
      hide Valid, Parts, Reverse, RemovalsInKinds, Dropping, NicList, Without, DriverList;
      while onNic[n] != []
        invariant Valid() && nics == old(nics) && drivers == old(drivers) && leaks == leaksWas
        invariant owner == Dropping(was, removed) && counts == Dropping(countsWas, removed)
        invariant n in onNic && Parts(removed, Reverse(onNic[n]), Reverse(list))
        decreases |onNic[n]|
      {
        var h := DelLastOf(n, removals);
        OneFewer(was, removed, h);
        OneFewer(countsWas, removed, h);
        PartsShift(removed, h, Reverse(onNic[n]), Reverse(list));
        removed := removed + [h];
      }
      PartsStep(removed, [], Reverse(list));
    }

    // ---- Calling the clients ----

    lemma OnListOf(n: Nic, who: set<nat>)
      requires Valid() && n in nics
      ensures n in onNic
      ensures var called := Wanting(onNic[n], who);
              && FirstToLast(owner, called) && LastToFirst(owner, Reverse(called))
              && (forall h :: h in called <==> h in owner && owner[h].nic == n && h in who)
              && (forall h :: h in Reverse(called) <==> h in called)
    {
      ListsAreValid();
      assert NicList(owner, n, onNic[n]);
      var called := Wanting(onNic[n], who);
      WantingInOrder(owner, onNic[n], who);
      ReversedCalls(owner, called);
      hide Linked, Ledger, Wanting, FirstToLast, LastToFirst;
      forall h ensures (h in called <==> h in onNic[n] && h in who) && (h in Reverse(called) <==> h in called) {
        WantingMembers(onNic[n], who, h);
        ReverseMembers(called, h);
      }
    }

    /** Before a reset the clients are called last to first. */
    method ResetSuspend(n: Nic) returns (called: seq<nat>)
      requires Valid() && n in nics
      ensures called == Reverse(Wanting(onNic[n], Suspending(owner)))
      ensures LastToFirst(owner, called)
      ensures forall h :: h in called <==> h in owner && owner[h].nic == n && owner[h].driver.hasSuspend
    {
      OnListOf(n, Suspending(owner));
      NicListOwned(nics, drivers, onNic, onDriver, owner, next, n);
      hide Valid;
      called := [];
      var list := onNic[n];
      var i := |list|;
      while i > 0
        invariant 0 <= i <= |list| && called == Reverse(Wanting(list[i..], Suspending(owner)))
      {
        i := i - 1;
        assert list[i..][1..] == list[i + 1..];
        WantingBackwards(list, i, Suspending(owner));
        if owner[list[i]].driver.hasSuspend {
          called := called + [list[i]];
        }
      }
      assert list[0..] == list;
    }

    /** After it they are called first to last. */
    method ResetResume(n: Nic) returns (called: seq<nat>)
      requires Valid() && n in nics
      ensures n in onNic && called == Wanting(onNic[n], Resuming(owner))
      ensures FirstToLast(owner, called)
      ensures forall h :: h in called <==> h in owner && owner[h].nic == n && owner[h].driver.hasResume
    {
      OnListOf(n, Resuming(owner));
      NicListOwned(nics, drivers, onNic, onDriver, owner, next, n);
      var list := onNic[n];
      hide Valid, Wanting;
      NoneWanting(list, Resuming(owner));
      called := [];
      for i := 0 to |list|
        invariant called == Wanting(list[..i], Resuming(owner))
      {
        WantingForwards(list, i, Resuming(owner));
        if owner[list[i]].driver.hasResume {
          called := called + [list[i]];
        }
      }
      assert list[..|list|] == list;
    }

    /** Around a reset: of the clients called before it, those also called after it are called
        in the reverse order, and both calls reach the same ones. */
    method AroundReset(n: Nic) returns (suspended: seq<nat>, resumed: seq<nat>)
      requires Valid() && n in nics
      ensures n in onNic && suspended == Reverse(Wanting(onNic[n], Suspending(owner)))
      ensures resumed == Wanting(onNic[n], Resuming(owner))
      ensures Wanting(suspended, Resuming(owner)) == Reverse(Wanting(resumed, Suspending(owner)))
    {
      hide Valid, Wanting, Reverse, Suspending, Resuming;
      suspended := ResetSuspend(n);
      resumed := ResetResume(n);
      SuspendReversesResume(onNic[n], Suspending(owner), Resuming(owner));
    }

    /** Offers an event to the clients that handle events, in list order; `answer` is what
        each of them would return. */
    method HandleEvent(n: Nic, answer: map<nat, int>, budget: int) returns (rc: int)
      requires Valid() && n in nics
      ensures n in onNic && rc == EventResult(onNic[n], answer, budget)
    {
      ListsAreValid();
      hide Valid, NicList, DriverList;
      var list := onNic[n];
      for i := 0 to |list|
        invariant EventResult(list, answer, budget) == EventResult(list[i..], answer, budget)
      {
        assert list[i..][1..] == list[i + 1..];
        if list[i] in answer {
          var r := answer[list[i]];
          if r >= 0 {
            return if r > budget then budget else r;
          }
        }
      }
      return EINVAL;
    }

    /** Looking up a driver's handle for a network device finds the one there is. */
    method DevFromNetdev(netDev: nat, d: Driver) returns (found: int)
      requires Valid() && d in drivers
      ensures found < 0 ==> forall h | h in owner :: !(owner[h].driver == d && owner[h].nic.netDev == netDev)
      ensures found >= 0 ==> found in owner && owner[found].driver == d && owner[found].nic.netDev == netDev
      ensures found >= 0 && OneNicPerNetDev(nics) ==>
                forall h | h in owner && owner[h].driver == d && owner[h].nic.netDev == netDev :: h == found
    {
      ListsHold(nics, drivers, onNic, onDriver, owner, next);
      var list := onDriver[d];
      for i := 0 to |list|
        invariant forall j | 0 <= j < i :: owner[list[j]].nic.netDev != netDev
      {
        if owner[list[i]].nic.netDev == netDev {
          return list[i];
        }
      }
      forall h | h in owner && owner[h].driver == d ensures owner[h].nic.netDev != netDev { assert h in list; }
      return -1;
    }
  }
}
