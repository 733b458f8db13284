// The firmware dump buffer of one NIC (dump.c): building and freeing the page tree, and
// when the firmware may be armed to write into it.

module DumpBuffer {
  import opened Arithmetic
  import opened MliTree
  import opened Wrappers

  datatype Flag = Disable | Enable | Force | Other
  datatype Result = Ok | Invalid | NoMemory | NotBooted | RpcFailed

  /** How the kernel and the firmware answer one call: whether the two kmallocs succeed,
      how many coherent pages can be had, whether the boot status reads as "never booted",
      and whether the dump command succeeds. */
  datatype Answers = Answers(addrOk: bool, dmaOk: bool, pages: nat, bootNull: bool, rpcOk: bool)

  /** What the driver believes, what it holds, and what the firmware is set to do. */
  datatype View = View(enabled: bool, held: bool, armed: bool)

  function AllocResult(v: View, total: nat, a: Answers): Result {
    if v.held || (a.addrOk && a.dmaOk && a.pages >= total) then Ok else NoMemory
  }

  function SetView(v: View, total: nat, flag: Flag, a: Answers): (View, Result) {
    if flag.Other? then (v, Invalid)
    else
      var alloc := if flag.Disable? then Ok else AllocResult(v, total, a);
      if !alloc.Ok? then (v, alloc)
      else
        var w := if flag.Disable? then v else v.(held := true);
        if a.bootNull then (w, NotBooted)
        else if flag.Force? then (w, if a.rpcOk then Ok else RpcFailed)
        else if w.enabled != flag.Enable? && !a.rpcOk then (w, RpcFailed)
        else
          var x := if w.enabled != flag.Enable? then w.(enabled := flag.Enable?, armed := flag.Enable?) else w;
          (if flag.Disable? then x.(held := false) else x, Ok)
  }

  function ResetView(v: View, total: nat, a: Answers): (View, Result) {
    if v.enabled then SetView(v.(enabled := false), total, Enable, a) else (v, Ok)
  }

  /** Setting a flag succeeds if there is such a flag, the buffer it needs is there or can be
      had, the firmware has booted, and takes the command if there is one to send: for forcing
      a dump always, for enabling and disabling only if that is a change. */
  predicate Accepted(was: View, total: nat, flag: Flag, a: Answers) {
    && !flag.Other?
    && (flag.Disable? || was.held || (a.addrOk && a.dmaOk && a.pages >= total))
    && !a.bootNull
    && (a.rpcOk || (flag.Enable? && was.enabled) || (flag.Disable? && !was.enabled))
  }

  /** And its effect: enabled dumps have a buffer, and firmware that was sent the command is
      armed; after disabling there is no buffer, and firmware that was sent the command is not
      armed. What fails keeps a buffer it got if it got past memory, and changes nothing else. */
  ghost predicate SetDone(was: View, now: View, rc: Result, total: nat, flag: Flag, a: Answers) {
    && (rc.Ok? <==> Accepted(was, total, flag, a))
    && (rc.Ok? && flag.Enable? ==> now == View(true, true, !was.enabled || was.armed))
    && (rc.Ok? && flag.Disable? ==> now == View(false, false, !was.enabled && was.armed))
    && (rc.Ok? && flag.Force? ==> now == View(was.enabled, true, was.armed))
    && (rc.Invalid? <==> flag.Other?)
    && (rc.NoMemory? <==> (flag.Enable? || flag.Force?) && !was.held && !(a.addrOk && a.dmaOk && a.pages >= total))
    && (rc.NotBooted? ==> a.bootNull) && (rc.RpcFailed? ==> !a.bootNull && !a.rpcOk)
    && (rc.Invalid? || rc.NoMemory? ==> now == was)
    && (rc.NotBooted? || rc.RpcFailed? ==> now == View(was.enabled, was.held || !flag.Disable?, was.armed))
  }

  lemma SetIsDone(v: View, total: nat, flag: Flag, a: Answers)
    ensures var r := SetView(v, total, flag, a); SetDone(v, r.0, r.1, total, flag, a)
  {}

  // ---- Runs ----

  datatype Step = Set(flag: Flag, a: Answers) | FirmwareRestarts | Reset(a: Answers)

  function Next(v: View, total: nat, step: Step): View {
    match step
    case Set(flag, a) => SetView(v, total, flag, a).0
    case FirmwareRestarts => v.(armed := false)
    case Reset(a) => ResetView(v, total, a).0
  }

  function Exec(v: View, total: nat, steps: seq<Step>): View
    decreases |steps|
  {
    if steps == [] then v else Exec(Next(v, total, steps[0]), total, steps[1..])
  }

  /** Armed firmware is known to be armed, and has a buffer to write to. */
  predicate Safe(v: View) { (v.armed ==> v.enabled && v.held) && (v.enabled ==> v.held) }

  /** The reset path re-arms firmware it takes to have restarted: harmless if it has, or if
      the firmware is up and takes the command. */
  predicate Proper(v: View, step: Step) {
    match step
    case Reset(a) => !v.armed || (!a.bootNull && a.rpcOk)
    case _ => true
  }

  predicate ProperRun(v: View, total: nat, steps: seq<Step>)
    decreases |steps|
  {
    steps == [] || (Proper(v, steps[0]) && ProperRun(Next(v, total, steps[0]), total, steps[1..]))
  }

  lemma StepSafeIffProper(v: View, total: nat, step: Step)
    requires Safe(v)
    ensures Safe(Next(v, total, step)) <==> Proper(v, step)
  {}

  lemma {:induction false} ArmedImpliesHeld(v: View, total: nat, steps: seq<Step>)
    requires Safe(v) && ProperRun(v, total, steps)
    ensures Exec(v, total, steps).armed ==> Exec(v, total, steps).held
    ensures Safe(Exec(v, total, steps))
    decreases |steps|
  {
    if steps != [] {
      StepSafeIffProper(v, total, steps[0]);
      ArmedImpliesHeld(Next(v, total, steps[0]), total, steps[1..]);
    }
  }

  const GOOD := Answers(true, true, 0, false, true)

  /** One improper reset is enough: the next plain "disable" frees the buffer and leaves
      the firmware armed for it. So the condition cannot be weakened. */
  lemma ImproperResetIsUnsafe(v: View, total: nat, step: Step)
    requires Safe(v) && !Proper(v, step)
    ensures var w := Exec(v, total, [step, Set(Disable, GOOD)]); w.armed && !w.held
  {
    var steps := [step, Set(Disable, GOOD)];
    assert steps[1..] == [Set(Disable, GOOD)] && steps[1..][1..] == [];
    var u := Next(v, total, step);
    assert Exec(v, total, steps) == Exec(u, total, [Set(Disable, GOOD)]) == Next(u, total, Set(Disable, GOOD));
  }

  /** Such a reset is reachable: enable, a reset whose command fails, disable. */
  lemma ImproperResetIsReachable(total: nat)
    ensures var enable := Set(Enable, GOOD.(pages := total));
            var reset := Reset(GOOD.(rpcOk := false));
            var v := Exec(View(false, false, false), total, [enable]);
            && v == View(true, true, true) && !Proper(v, reset)
            && Exec(v, total, [reset, Set(Disable, GOOD)]) == View(false, false, true)
  {
    var enable, reset := Set(Enable, GOOD.(pages := total)), Reset(GOOD.(rpcOk := false));
    var v := View(true, true, true);
    assert [enable][1..] == [];
    assert Exec(View(false, false, false), total, [enable]) == Next(View(false, false, false), total, enable) == v;
    var steps := [reset, Set(Disable, GOOD)];
    assert steps[1..] == [Set(Disable, GOOD)] && steps[1..][1..] == [];
    var w := Next(v, total, reset);
    assert Exec(v, total, steps) == Exec(w, total, [Set(Disable, GOOD)]) == Next(w, total, Set(Disable, GOOD));
  }

  // ---- The driver's code ----

  predicate Fresh(mem: Memory, a: Address) { a != 0 && a !in mem }

  lemma {:induction false} UpperBound(addresses: set<Address>) returns (b: nat)
    ensures forall a: Address | a in addresses :: a <= b
    decreases addresses
  {
    if addresses == {} {
      b := 0;
    } else {
      var x :| x in addresses;
      b := UpperBound(addresses - {x});
      b := if x > b then x else b;
      assert forall a: Address | a in addresses :: a == x || a in addresses - {x};
    }
  }

  lemma SomeAddressIsFree(mem: Memory)
    ensures exists a: Address :: Fresh(mem, a)
  {
    var b := UpperBound(mem.Keys);
    assert Fresh(mem, b + 1);
  }

  /** The addresses in a page table that has null (0) entries, too. */
  function NonNull(pages: seq<Address>): set<Address> {
    set i | 0 <= i < |pages| && pages[i] != 0 :: pages[i]
  }

  ghost predicate Owned(mem: Memory, pages: seq<Address>) {
    && (forall i | 0 <= i < |pages| && pages[i] != 0 :: pages[i] in mem)
    && (forall i, j | 0 <= i < j < |pages| && pages[i] != 0 :: pages[i] != pages[j])
  }

  /** `mem` after entering page `t` of level `k` in its parent. */
  function Enter(mem: Memory, pages: seq<Address>, n: nat, e: nat, k: nat, t: nat): Memory
    requires e >= 2 && LivePages(mem, pages, e)
    requires Base(n, e, k) + t < |pages| && ParentOf(n, e, k, t) < |pages|
  {
    var parent := pages[ParentOf(n, e, k, t)];
    mem[parent := mem[parent][t % e := pages[Base(n, e, k) + t]]]
  }

  lemma QuotientAndRemainder(t: nat, s: nat, e: nat)
    requires e > 0 && t != s
    ensures t / e != s / e || t % e != s % e
  {
    assert t == (t / e) * e + t % e;
    assert s == (s / e) * e + s % e;
  }

  lemma ParentWithinLevel(n: nat, e: nat, j: nat, t: nat)
    requires e >= 2 && t < Size(n, e, j)
    ensures Base(n, e, j + 1) <= ParentOf(n, e, j, t) < Base(n, e, j + 1) + Size(n, e, j + 1)
  {
    ParentInRange(Size(n, e, j), e, t);
  }

  lemma LevelsDiffer(n: nat, e: nat, j: nat, t: nat, k: nat, s: nat)
    requires e >= 2 && j < k && t < Size(n, e, j) && s < Size(n, e, k)
    ensures ParentOf(n, e, j, t) < ParentOf(n, e, k, s)
  {
    ParentWithinLevel(n, e, j, t);
    ParentWithinLevel(n, e, k, s);
    BaseGrows(n, e, j + 1, k + 1);
  }

  /** No two pages share an entry: parents differ from level to level, entries within one. */
  lemma EntriesDiffer(n: nat, e: nat, j: nat, t: nat, k: nat, s: nat)
    requires e >= 2 && j <= k && t < Size(n, e, j) && s < Size(n, e, k)
    requires j < k || t != s
    ensures ParentOf(n, e, j, t) != ParentOf(n, e, k, s) || t % e != s % e
  {
    if j < k {
      LevelsDiffer(n, e, j, t, k, s);
    } else {
      QuotientAndRemainder(t, s, e);
    }
  }

  lemma EnterKeepsLinks(mem: Memory, pages: seq<Address>, n: nat, e: nat, k: nat, s: nat, j: nat, upTo: nat)
    requires e >= 2 && LivePages(mem, pages, e)
    requires Base(n, e, k) + s < |pages| && ParentOf(n, e, k, s) < |pages|
    requires j <= k && s < Size(n, e, k) && upTo <= Size(n, e, j) && (j == k ==> upTo <= s)
    requires Linked(mem, pages, n, e, j, upTo)
    ensures Linked(Enter(mem, pages, n, e, k, s), pages, n, e, j, upTo)
  {
    forall t | 0 <= t < upTo ensures LinkedAt(Enter(mem, pages, n, e, k, s), pages, n, e, j, t) {
      assert LinkedAt(mem, pages, n, e, j, t);
      EntriesDiffer(n, e, j, t, k, s);
    }
  }

  lemma LevelFits(n: nat, e: nat, k: nat, t: nat)
    requires e >= 2 && k < Depth(n, e) && t < Size(n, e, k)
    ensures Base(n, e, k) + t < TotalPages(n, e) && ParentOf(n, e, k, t) < TotalPages(n, e)
  {
    DepthLevels(n, e);
    ParentInRange(Size(n, e, k), e, t);
    BaseGrows(n, e, k + 1, Depth(n, e));
  }

  ghost predicate OthersKept(was: Memory, mem: Memory, pages: seq<Address>) {
    forall x | x in was && x !in pages :: x in mem && mem[x] == was[x]
  }

  class DumpData {
    const n: nat
    const e: nat
    var addr: Option<seq<Address>>
    var dmaTable: bool
    var totalPages: nat
    var buffer: Option<Address>
    var root: Address
    var depth: nat
    var enabled: bool
    /** All coherent DMA memory of the machine. */
    var mem: Memory
    ghost var armed: bool
    ghost var armedRoot: Address
    ghost var armedDepth: nat

    ghost function Abs(): View
      reads this
    {
      View(enabled, buffer.Some?, armed)
    }

    /** The pages this buffer holds; every other page of `mem` is somebody else's. */
    ghost function Own(): set<Address>
      reads this
    {
      if addr.Some? then set i | 0 <= i < |addr.value| :: addr.value[i] else {}
    }

    ghost predicate Valid()
      reads this
    {
      && e >= 2
      && (buffer.None? <==> addr.None?)
      && (enabled ==> buffer.Some?)
      && (buffer.Some? ==>
            && dmaTable && |addr.value| == totalPages && NonNull(addr.value) == Own()
            && Tree(mem, addr.value, n, e)
            && buffer.value == addr.value[0]
            && root == addr.value[totalPages - 1] && depth == Depth(n, e))
      && (Safe(Abs()) && armed ==> armedRoot == root && armedDepth == depth)
    }

    constructor (n: nat, e: nat, mem: Memory)
      requires e >= 2
      ensures Valid() && Abs() == View(false, false, false) && this.mem == mem && this.n == n && this.e == e
    {
      this.n, this.e, this.mem := n, e, mem;
      addr, dmaTable, totalPages, buffer, root, depth := None, false, 0, None, 0, 0;
      enabled, armed, armedRoot, armedDepth := false, false, 0, 0;
    }

    /** Whenever armed firmware is safe, the root and depth it was given lead it to every
        data page, all of them live. */
    lemma FirmwareReachesEveryPage(p: nat)
      requires Valid() && Safe(Abs()) && armed && p < n
      ensures p < |addr.value| && Walk(mem, armedRoot, e, armedDepth, p) == Some(addr.value[p])
      ensures addr.value[p] in mem
    {
      WalkReachesPage(mem, addr.value, n, e, p);
    }

    method FreePage(page: Address)
      requires page in mem
      modifies `mem
      ensures mem == old(mem) - {page}
    {
      mem := mem - {page};
    }

    /** Every page the table names is given back once, and nothing else is. */
    method FreeBuffer()
      requires addr.Some? && dmaTable ==> |addr.value| == totalPages && Owned(mem, addr.value)
      modifies `addr, `dmaTable, `totalPages, `buffer, `root, `depth, `mem
      ensures addr.None? && !dmaTable && buffer.None? && totalPages == 0
      ensures mem == old(mem) - (if old(addr.Some? && dmaTable) then NonNull(old(addr).value) else {})
    {
      if addr.Some? && dmaTable {
        var pages := addr.value;
        for pgn := 0 to totalPages
          invariant addr == old(addr) && totalPages == old(totalPages) == |pages| && dmaTable
          invariant mem == old(mem) - NonNull(pages[..pgn])
          invariant forall i | pgn <= i < |pages| && pages[i] != 0 :: pages[i] in mem
        {
          assert pages[..pgn + 1] == pages[..pgn] + [pages[pgn]];
          assert forall i | pgn < i < |pages| && pages[i] != 0 :: pages[i] != pages[pgn];
          if pages[pgn] != 0 {
            assert NonNull(pages[..pgn + 1]) == NonNull(pages[..pgn]) + {pages[pgn]} by {
              assert pages[..pgn + 1][pgn] == pages[pgn];
              assert forall i | 0 <= i < pgn :: pages[..pgn + 1][i] == pages[..pgn][i];
            }
            FreePage(pages[pgn]);
          } else {
            assert NonNull(pages[..pgn + 1]) == NonNull(pages[..pgn]) by {
              assert forall i | 0 <= i < pgn :: pages[..pgn + 1][i] == pages[..pgn][i];
            }
          }
        }
        assert pages[..totalPages] == pages;
      }
      addr, dmaTable, buffer, root, depth, totalPages := None, false, None, 0, 0, 0;
    }

    method Dimension() returns (total: nat, mliDepth: nat)
      requires e >= 2
      ensures total == TotalPages(n, e) && mliDepth == Depth(n, e)
    {
      mliDepth := 0;
      var pgn, level := 0, n;
      while level > 1
        invariant pgn == Base(n, e, mliDepth) && level == Size(n, e, mliDepth)
        invariant mliDepth + Depth(level, e) == Depth(n, e)
        decreases level
      {
        CeilShrinks(level, e);
        mliDepth := mliDepth + 1;
        pgn := pgn + level;
        level := RoundUp(level, e);
      }
      total := pgn + 1;
    }

    /** The populating loops; returns the index of the root page. */
    method Populate(pages: seq<Address>) returns (pgn: nat)
      requires e >= 2 && |pages| == TotalPages(n, e) && LivePages(mem, pages, e)
      modifies `mem
      ensures Tree(mem, pages, n, e) && OthersKept(old(mem), mem, pages) && mem.Keys == old(mem).Keys
      ensures pgn == TotalPages(n, e) - 1
    {
      pgn := 0;
      var level := n;
      ghost var k := 0;
      while level > 1
        invariant pgn == Base(n, e, k) && level == Size(n, e, k) && k + Depth(level, e) == Depth(n, e)
        invariant LivePages(mem, pages, e) && OthersKept(old(mem), mem, pages) && mem.Keys == old(mem).Keys
        invariant forall j | 0 <= j < k :: Linked(mem, pages, n, e, j, Size(n, e, j))
        decreases level
      {
        for s := 0 to level
          invariant LivePages(mem, pages, e) && OthersKept(old(mem), mem, pages) && mem.Keys == old(mem).Keys
          invariant forall j | 0 <= j < k :: Linked(mem, pages, n, e, j, Size(n, e, j))
          invariant Linked(mem, pages, n, e, k, s)
        {
          LevelFits(n, e, k, s);
          forall j | 0 <= j < k ensures Linked(Enter(mem, pages, n, e, k, s), pages, n, e, j, Size(n, e, j)) {
            EnterKeepsLinks(mem, pages, n, e, k, s, j, Size(n, e, j));
          }
          EnterKeepsLinks(mem, pages, n, e, k, s, k, s);
          var entries := pages[pgn + level + s / e];
          mem := mem[entries := mem[entries][s % e := pages[pgn + s]]];
          assert LinkedAt(mem, pages, n, e, k, s);
        }
        CeilShrinks(level, e);
        k := k + 1;
        pgn := pgn + level;
        level := RoundUp(level, e);
      }
    }

    method AllocPages(granted: nat) returns (ok: bool)
      requires e >= 2 && addr == Some(seq(totalPages, _ => 0)) && dmaTable
      modifies `addr, `mem
      ensures addr.Some? && |addr.value| == totalPages && Owned(mem, addr.value)
      ensures ok == (granted >= totalPages)
      ensures ok ==> LivePages(mem, addr.value, e) && Own() == NonNull(addr.value)
      ensures mem - NonNull(addr.value) == old(mem) && NonNull(addr.value) !! old(mem).Keys
    {
      assert NonNull(addr.value) == {};
      assert mem - {} == mem;
      for pgn := 0 to totalPages
        invariant addr.Some? && |addr.value| == totalPages && Owned(mem, addr.value) && pgn <= granted
        invariant forall i | 0 <= i < pgn :: addr.value[i] != 0 && addr.value[i] in mem && |mem[addr.value[i]]| == e
        invariant forall i | pgn <= i < totalPages :: addr.value[i] == 0
        invariant mem - NonNull(addr.value) == old(mem) && NonNull(addr.value) !! old(mem).Keys
      {
        if pgn >= granted { return false; }
        SomeAddressIsFree(mem);
        var a: Address :| Fresh(mem, a);
        ghost var was := addr.value;
        mem := mem[a := seq(e, _ => 0)];
        addr := Some(addr.value[pgn := a]);
        assert NonNull(addr.value) == NonNull(was) + {a} by {
          assert addr.value[pgn] == a;
          assert forall i | 0 <= i < totalPages && i != pgn :: addr.value[i] == was[i];
        }
      }
      return true;
    }

    /** From "Populate" to the end, on pages that have all been had. */
    method BuildTree(mliDepth: nat)
      requires e >= 2 && addr.Some? && dmaTable && |addr.value| == totalPages
      requires totalPages == TotalPages(n, e) && mliDepth == Depth(n, e) && LivePages(mem, addr.value, e)
      requires !enabled && NonNull(addr.value) == Own()
      modifies `buffer, `root, `depth, `mem
      ensures Valid() && Abs() == old(Abs()).(held := true) && Own() == old(Own())
      ensures OthersKept(old(mem), mem, addr.value) && mem.Keys == old(mem).Keys
    {
      var top := Populate(addr.value);
      buffer := Some(addr.value[0]);
      root := addr.value[top];
      depth := mliDepth;
    }

    method AllocBuffer(answers: Answers) returns (rc: Result)
      requires Valid()
      modifies `addr, `dmaTable, `totalPages, `buffer, `root, `depth, `mem
      ensures Valid() && rc == AllocResult(old(Abs()), TotalPages(n, e), answers)
      ensures Abs() == old(Abs()).(held := old(Abs()).held || rc.Ok?)
      ensures rc.Ok? && !old(Abs()).held ==> Own() !! old(mem).Keys && mem.Keys == old(mem).Keys + Own()
      ensures rc.Ok? ==> forall x | x in old(mem) :: x in mem && mem[x] == old(mem)[x]
      ensures !rc.Ok? || old(Abs()).held ==> mem == old(mem)
      ensures Own() == if old(Abs()).held then old(Own()) else if rc.Ok? then Own() else {}
    {
      if buffer.Some? { return Ok; }
      var mliDepth;
      totalPages, mliDepth := Dimension();
      if !answers.addrOk { return NoMemory; }
      addr := Some(seq(totalPages, _ => 0));
      if !answers.dmaOk {
        dmaTable := false;
        FreeBuffer();
        return NoMemory;
      }
      dmaTable := true;
      var ok := AllocPages(answers.pages);
      if !ok {
        FreeBuffer();
        return NoMemory;
      }
      assert forall x | x in old(mem) :: x in mem && x !in addr.value && mem[x] == old(mem)[x] by {
        assert forall x | x in old(mem) :: x in mem - NonNull(addr.value);
        assert forall i | 0 <= i < |addr.value| :: addr.value[i] in Own();
      }
      BuildTree(mliDepth);
      return Ok;
    }

    method Set(flag: Flag, answers: Answers) returns (rc: Result)
      requires Valid()
      modifies this
      ensures Valid()
      ensures (Abs(), rc) == SetView(old(Abs()), TotalPages(n, e), flag, answers)
      ensures SetDone(old(Abs()), Abs(), rc, TotalPages(n, e), flag, answers)
      ensures mem.Keys - Own() == old(mem.Keys - Own())
      ensures forall x | x in old(mem) && x !in old(Own()) :: x in mem && mem[x] == old(mem)[x]
    {
      SetIsDone(Abs(), TotalPages(n, e), flag, answers);
      hide SetDone;
      if flag.Other? { return Invalid; }
      if flag.Enable? || flag.Force? {
        rc := AllocBuffer(answers);
        if !rc.Ok? { return rc; }
      }
      if answers.bootNull { return NotBooted; }
      if flag.Disable? || flag.Enable? {
        if enabled != flag.Enable? {
          if !answers.rpcOk { return RpcFailed; }
          armed, armedRoot, armedDepth := flag.Enable?, root, depth;
          enabled := flag.Enable?;
        }
      } else if !answers.rpcOk {
        return RpcFailed;
      }
      if flag.Disable? { FreeBuffer(); }
      return Ok;
    }

    method Reset(answers: Answers) returns (rc: Result)
      requires Valid()
      modifies this
      ensures Valid()
      ensures (Abs(), rc) == ResetView(old(Abs()), TotalPages(n, e), answers)
      ensures if old(Abs()).enabled
              then SetDone(old(Abs()).(enabled := false), Abs(), rc, TotalPages(n, e), Enable, answers)
              else rc.Ok? && Abs() == old(Abs())
      ensures mem.Keys - Own() == old(mem.Keys - Own())
      ensures forall x | x in old(mem) && x !in old(Own()) :: x in mem && mem[x] == old(mem)[x]
    {
      if enabled {
        enabled := false;
        rc := Set(Enable, answers);
        return rc;
      }
      return Ok;
    }
  }
}
