// Walking the Xilinx capability table (ef100.c): entries chained inside a BAR, with
// continuations into sub-tables that may lie in another BAR.

module XilinxTable {
  import opened Wrappers

  datatype Result = Ok | Invalid | MapFailed | Unreadable

  const ID_LAST := 0xfffff
  const ID_CONT := 0xffffe
  const ID_EF100 := 0xef100
  const HEADER_SIZE := 8
  const EF100_SIZE := 12
  const CONT_MIN_SIZE := 16

  /** The fields of an entry. `target` and `window` are in units of 16 bytes. */
  datatype Cell = Cell(id: nat, last: bool, rev: nat, size: nat, bar: nat, window: nat, target: nat)

  /** What a read at an offset of a BAR shows, and how long each BAR is. */
  datatype Env = Env(cells: (nat, nat) -> Cell, len: nat -> nat)

  datatype Window = Window(bar: nat, offset: nat)

  predicate GoodBar(bar: nat) { bar != 6 && bar != 7 }

  predicate Overflows(env: Env, bar: nat, next: nat) { next + HEADER_SIZE > env.len(bar) }

  function Target(e: Cell): nat { 16 * e.target }

  /** A 29-bit field shifted left by four in an unsigned 32-bit number, then widened. */
  function WindowOffset(w: nat): nat { 16 * w % 0x1_0000_0000 }

  // ---- The checks in numbers ----

  /** A continuation is followed if its header is in order, its BAR can be mapped, and, in
      another BAR, a header at its target, 16 bytes times the field, lies inside. */
  lemma ContinuesIff(env: Env, bar: nat, e: Cell)
    ensures Continues(env, bar, e) <==>
            && e.id == 0xffffe && e.rev == 0 && e.size >= 16 && e.bar != 6 && e.bar != 7
            && (e.bar == bar || 16 * e.target + 8 <= env.len(e.bar))
  {}

  /** What every place of a good walk satisfies. */
  lemma WellFormedIff(env: Env, v: Visit)
    ensures WellFormed(env, v) <==>
            (v.e.id != 0xfffff ==>
               && v.e.size >= 8
               && (v.e.id == 0xef100 ==> v.e.rev == 0 && v.e.size >= 12 && v.e.bar != 6 && v.e.bar != 7)
               && (v.e.id == 0xffffe ==>
                     && v.e.rev == 0 && v.e.size >= 16 && v.e.bar != 6 && v.e.bar != 7
                     && (v.e.bar == v.bar || 16 * v.e.target + 8 <= env.len(v.e.bar)))
               && (v.e.last || v.off + v.e.size + 8 <= env.len(v.bar)))
  {}

  /** A capability is taken up, and its table begun, at the byte its fields name. */
  lemma CapStartIff(env: Env, c: Cap)
    ensures var at := 16 * c.offLo + if c.len >= 16 then 0x1_0000_0000 * c.offHi else 0;
            CapStart(env, c) <==>
            && c.idReads
            && (c.id == 0x20 && c.ver == 0 && c.len >= 12 ==>
                  && c.tableReads && c.bar != 6 && c.bar != 7
                  && (if env.len(c.bar) >= 8 then at + 8 <= env.len(c.bar)
                      else at <= env.len(c.bar) + 0xffff_ffff_ffff_fff8))
  {}

  /** The window's offset comes out right exactly below 4 GiB. */
  lemma WindowOffsetExactIff(w: nat)
    requires w < 0x2000_0000
    ensures WindowOffset(w) == 16 * w <==> w < 0x1000_0000
  {}

  // ---- The declarative reading of a table ----

  /** A finite table without cycles: the chain from one entry on up to its end marker, with
      the sub-tables its continuations lead to. */
  datatype Tree = End(bar: nat, off: nat, e: Cell) | Entry(bar: nat, off: nat, e: Cell, sub: Tree, rest: Tree)

  /** A continuation that the parser follows. */
  predicate Continues(env: Env, bar: nat, e: Cell) {
    && e.size >= HEADER_SIZE && e.id == ID_CONT && e.rev == 0 && e.size >= CONT_MIN_SIZE && GoodBar(e.bar)
    && (e.bar != bar ==> !Overflows(env, e.bar, Target(e)))
  }

  predicate Moves(env: Env, bar: nat, off: nat, e: Cell) {
    e.size >= HEADER_SIZE && !e.last && !Overflows(env, bar, off + e.size)
  }

  /** `t` is what the memory holds from this offset on. */
  ghost predicate Describes(env: Env, bar: nat, off: nat, t: Tree)
    decreases t
  {
    match t
    case End(b, o, e) => b == bar && o == off && e == env.cells(bar, off) && e.id == ID_LAST
    case Entry(b, o, e, sub, rest) =>
      && b == bar && o == off && e == env.cells(bar, off) && e.id != ID_LAST
      && (Continues(env, bar, e) ==> Describes(env, e.bar, Target(e), sub))
      && (Moves(env, bar, off, e) ==> Describes(env, bar, off + e.size, rest))
  }

  datatype Visit = Visit(bar: nat, off: nat, e: Cell)

  function Cat(a: seq<Visit>, b: seq<Visit>): seq<Visit> { a + b }

  lemma CatShape(a: seq<Visit>, b: seq<Visit>, c: seq<Visit>)
    ensures Cat(Cat(a, b), c) == Cat(a, Cat(b, c))
    ensures Cat(a, []) == a && Cat([], a) == a
  {}

  /** What the walk looks at, in its order: an entry, its sub-table, the entries after it;
      end markers included. */
  function Preorder(env: Env, t: Tree): seq<Visit> {
    match t
    case End(bar, off, e) => [Visit(bar, off, e)]
    case Entry(bar, off, e, sub, rest) =>
      Cat(Cat([Visit(bar, off, e)], if Continues(env, bar, e) then Preorder(env, sub) else []),
          if Moves(env, bar, off, e) then Preorder(env, rest) else [])
  }

  predicate WellFormed(env: Env, v: Visit) {
    v.e.id != ID_LAST ==>
      && v.e.size >= HEADER_SIZE
      && (v.e.id == ID_EF100 ==> v.e.rev == 0 && v.e.size >= EF100_SIZE && GoodBar(v.e.bar))
      && (v.e.id == ID_CONT ==> Continues(env, v.bar, v.e))
      && (v.e.last || Moves(env, v.bar, v.off, v.e))
  }

  predicate AllWellFormed(env: Env, vs: seq<Visit>) {
    forall i | 0 <= i < |vs| :: WellFormed(env, vs[i])
  }

  /** How many entries name a function control window. */
  function Found(vs: seq<Visit>): nat {
    if vs == [] then 0 else (if vs[0].e.id == ID_EF100 then 1 else 0) + Found(vs[1..])
  }

  function WindowOf(e: Cell): Window { Window(e.bar, WindowOffset(e.window)) }

  /** The last window named, or the one known before. */
  function Latest(vs: seq<Visit>, was: Option<Window>): Option<Window> {
    if vs == [] then was else Latest(vs[1..], if vs[0].e.id == ID_EF100 then Some(WindowOf(vs[0].e)) else was)
  }

  /** How many BAR mappings the entries cost: a foreign BAR and back. */
  function Remaps(env: Env, vs: seq<Visit>): nat {
    if vs == [] then 0
    else (if Continues(env, vs[0].bar, vs[0].e) && vs[0].e.bar != vs[0].bar then 2 else 0) + Remaps(env, vs[1..])
  }

  function Known(w: Option<Window>): nat { if w.Some? then 1 else 0 }

  predicate AllWork(works: nat -> bool, from: nat, count: nat) {
    forall i: nat | from <= i < from + count :: works(i)
  }

  /** Entries a walk can get through: all well formed, at most one window in all, and every
      mapping works. `calls` is the number of mappings made before. */
  predicate Good(env: Env, works: nat -> bool, vs: seq<Visit>, known: nat, calls: nat) {
    AllWellFormed(env, vs) && Found(vs) + known <= 1 && AllWork(works, calls, Remaps(env, vs))
  }

  /** When only one entry names a window, the result is that window. */
  lemma {:induction false} LatestIsTheOne(vs: seq<Visit>, was: Option<Window>, i: nat)
    requires i < |vs| && vs[i].e.id == ID_EF100 && Found(vs) == 1
    ensures Latest(vs, was) == Some(Window(vs[i].e.bar, 16 * vs[i].e.window % 0x1_0000_0000))
  {
    if i == 0 {
      NoneFound(vs[1..], Some(WindowOf(vs[0].e)));
    } else {
      FoundAt(vs[1..], i - 1);
      LatestIsTheOne(vs[1..], was, i - 1);
    }
  }

  lemma {:induction false} NoneFound(vs: seq<Visit>, was: Option<Window>)
    requires Found(vs) == 0
    ensures Latest(vs, was) == was
  {
    if vs != [] { NoneFound(vs[1..], was); }
  }

  lemma {:induction false} FoundAt(vs: seq<Visit>, i: nat)
    requires i < |vs| && vs[i].e.id == ID_EF100
    ensures Found(vs) > 0
  {
    if i > 0 { FoundAt(vs[1..], i - 1); }
  }

  lemma {:induction false} KnownAfter(vs: seq<Visit>, was: Option<Window>)
    requires Found(vs) + Known(was) <= 1
    ensures Known(Latest(vs, was)) == Found(vs) + Known(was)
  {
    if vs != [] { KnownAfter(vs[1..], if vs[0].e.id == ID_EF100 then Some(WindowOf(vs[0].e)) else was); }
  }

  lemma {:induction false} CountsCat(env: Env, a: seq<Visit>, b: seq<Visit>, was: Option<Window>)
    ensures Found(Cat(a, b)) == Found(a) + Found(b)
    ensures Remaps(env, Cat(a, b)) == Remaps(env, a) + Remaps(env, b)
    ensures Latest(Cat(a, b), was) == Latest(b, Latest(a, was))
  {
    hide WindowOf, Continues;
    if a == [] {
      assert a + b == b;
    } else {
      CountsCat(env, a[1..], b, if a[0].e.id == ID_EF100 then Some(WindowOf(a[0].e)) else was);
      var ab := a + b;
      assert ab[0] == a[0] && ab[1..] == a[1..] + b;
    }
  }

  lemma WellFormedCat(env: Env, a: seq<Visit>, b: seq<Visit>)
    ensures AllWellFormed(env, Cat(a, b)) <==> AllWellFormed(env, a) && AllWellFormed(env, b)
  {
    hide WellFormed;
    var ab := a + b;
    assert forall i | 0 <= i < |a| :: ab[i] == a[i];
    assert forall i | 0 <= i < |b| :: ab[|a| + i] == b[i];
  }

  lemma AllWorkJoin(works: nat -> bool, from: nat, a: nat, b: nat)
    ensures AllWork(works, from, a + b) <==> AllWork(works, from, a) && AllWork(works, from + a, b)
    ensures AllWork(works, from + a, b + 1) <==> works(from + a) && AllWork(works, from + a + 1, b)
  {}

  /** A walk through `a` and then `b`. */
  lemma GoodCat(env: Env, works: nat -> bool, a: seq<Visit>, b: seq<Visit>, known: nat, calls: nat)
    ensures Good(env, works, Cat(a, b), known, calls) <==>
            Good(env, works, a, known, calls) && Good(env, works, b, known + Found(a), calls + Remaps(env, a))
  {
    hide AllWellFormed, AllWork, Found, Remaps, Cat;
    CountsCat(env, a, b, None);
    WellFormedCat(env, a, b);
    AllWorkJoin(works, calls, Remaps(env, a), Remaps(env, b));
  }

  /** What following a continuation needs: one into another BAR maps it, walks the sub-table
      and maps the old BAR again. */
  predicate SubGood(env: Env, works: nat -> bool, foreign: bool, sub: seq<Visit>, known: nat, calls: nat) {
    if foreign then works(calls) && Good(env, works, sub, known, calls + 1) && works(calls + 1 + Remaps(env, sub))
    else Good(env, works, sub, known, calls)
  }

  /** What handling one entry, with its sub-table, must check apart from moving on. */
  predicate EntryGood(env: Env, works: nat -> bool, v: Visit, sub: seq<Visit>, known: nat, calls: nat) {
    && v.e.size >= HEADER_SIZE
    && (v.e.id == ID_EF100 ==> v.e.rev == 0 && v.e.size >= EF100_SIZE && GoodBar(v.e.bar) && known == 0)
    && (v.e.id == ID_CONT ==> Continues(env, v.bar, v.e) && SubGood(env, works, v.e.bar != v.bar, sub, known, calls))
  }

  lemma OneEntry(env: Env, v: Visit, sub: seq<Visit>, was: Option<Window>)
    ensures Found(Cat([v], sub)) == (if v.e.id == ID_EF100 then 1 else 0) + Found(sub)
    ensures Latest(Cat([v], sub), was) == Latest(sub, if v.e.id == ID_EF100 then Some(WindowOf(v.e)) else was)
    ensures Remaps(env, Cat([v], sub)) ==
            Remaps(env, sub) + if Continues(env, v.bar, v.e) && v.e.bar != v.bar then 2 else 0
    ensures AllWellFormed(env, Cat([v], sub)) <==> WellFormed(env, v) && AllWellFormed(env, sub)
  {
    CountsCat(env, [v], sub, was);
    WellFormedCat(env, [v], sub);
    hide Cat, Continues, WindowOf, WellFormed;
    assert [v][0] == v && [v][1..] == [];
    var known := if v.e.id == ID_EF100 then Some(WindowOf(v.e)) else was;
    assert Latest([], known) == known;
  }

  lemma EntryIsGood(env: Env, works: nat -> bool, v: Visit, sub: seq<Visit>, known: nat, calls: nat)
    requires v.e.id != ID_LAST && (!Continues(env, v.bar, v.e) ==> sub == [])
    requires known <= 1
    ensures Good(env, works, Cat([v], sub), known, calls) <==>
            EntryGood(env, works, v, sub, known, calls) && (v.e.last || Moves(env, v.bar, v.off, v.e))
  {
    OneEntry(env, v, sub, None);
    hide Cat, Latest;
    if Continues(env, v.bar, v.e) {
      AllWorkSplit(works, calls, Remaps(env, sub));
    } else {
      assert AllWellFormed(env, sub) && AllWork(works, calls, Remaps(env, sub));
    }
  }

  lemma AllWorkSplit(works: nat -> bool, calls: nat, count: nat)
    ensures AllWork(works, calls, count + 2) <==> works(calls) && AllWork(works, calls + 1, count) && works(calls + 1 + count)
  {
    if works(calls) && AllWork(works, calls + 1, count) && works(calls + 1 + count) {
      forall i: nat | calls <= i < calls + count + 2 ensures works(i) {}
    }
  }

  function Size(t: Tree): nat {
    match t
    case End(_, _, _) => 0
    case Entry(_, _, _, sub, rest) => 1 + Size(sub) + Size(rest)
  }

  /** Successive entries of a chain are at least a header apart, so a chain is no longer
      than its BAR. */
  lemma {:induction false} ChainFitsBar(env: Env, bar: nat, off: nat, t: Tree)
    requires Describes(env, bar, off, t)
    ensures ChainLength(env, t) > 1 ==> off + HEADER_SIZE * ChainLength(env, t) <= env.len(bar)
    decreases t
  {
    if t.Entry? && Moves(env, bar, off, t.e) { ChainFitsBar(env, bar, off + t.e.size, t.rest); }
  }

  function ChainLength(env: Env, t: Tree): nat {
    match t
    case End(_, _, _) => 0
    case Entry(bar, off, e, _, rest) => 1 + if Moves(env, bar, off, e) then ChainLength(env, rest) else 0
  }

  // ---- Reads inside the BARs ----

  /** An end marker shows in its first word. */
  function HeaderSize(e: Cell): nat { if e.id == ID_LAST then 4 else HEADER_SIZE }

  /** How many bytes the walker reads of an entry: more than the header only of a window or a
      continuation whose header is in order. */
  function ReadSize(e: Cell): nat {
    if e.id == ID_EF100 && e.rev == 0 && e.size >= EF100_SIZE then EF100_SIZE
    else if e.id == ID_CONT && e.rev == 0 && e.size >= CONT_MIN_SIZE then CONT_MIN_SIZE
    else HeaderSize(e)
  }

  predicate HeaderInside(env: Env, bar: nat, off: nat) {
    off + HeaderSize(env.cells(bar, off)) <= env.len(bar)
  }

  predicate ReadInside(env: Env, v: Visit) { v.off + ReadSize(v.e) <= env.len(v.bar) }

  predicate AllInside(env: Env, vs: seq<Visit>) { forall i | 0 <= i < |vs| :: ReadInside(env, vs[i]) }

  /** What the parser does not check: that a sub-table in the same BAR starts inside it, and
      that the body of an entry it does not move on from is inside. */
  predicate Fits(env: Env, v: Visit) {
    && (Continues(env, v.bar, v.e) && v.e.bar == v.bar ==> HeaderInside(env, v.bar, Target(v.e)))
    && (v.e.id != ID_LAST && !Moves(env, v.bar, v.off, v.e) ==> ReadInside(env, v))
  }

  predicate AllFit(env: Env, vs: seq<Visit>) { forall i | 0 <= i < |vs| :: Fits(env, vs[i]) }

  lemma CatInside(env: Env, a: seq<Visit>, b: seq<Visit>)
    ensures AllInside(env, Cat(a, b)) <==> AllInside(env, a) && AllInside(env, b)
    ensures AllFit(env, Cat(a, b)) <==> AllFit(env, a) && AllFit(env, b)
  {
    hide ReadInside, Fits;
    var ab := a + b;
    assert forall i | 0 <= i < |a| :: ab[i] == a[i];
    assert forall i | 0 <= i < |b| :: ab[|a| + i] == b[i];
  }

  lemma OneInside(env: Env, v: Visit)
    ensures AllInside(env, [v]) <==> ReadInside(env, v)
    ensures AllFit(env, [v]) <==> Fits(env, v)
    ensures AllInside(env, []) && AllFit(env, [])
  {
    assert [v][0] == v;
  }

  lemma PreorderParts(env: Env, t: Tree) returns (v: Visit, sub: seq<Visit>, rest: seq<Visit>)
    requires t.Entry?
    ensures v == Visit(t.bar, t.off, t.e) && Preorder(env, t) == Cat(Cat([v], sub), rest)
    ensures sub == if Continues(env, t.bar, t.e) then Preorder(env, t.sub) else []
    ensures rest == if Moves(env, t.bar, t.off, t.e) then Preorder(env, t.rest) else []
  {
    v := Visit(t.bar, t.off, t.e);
    sub := if Continues(env, t.bar, t.e) then Preorder(env, t.sub) else [];
    rest := if Moves(env, t.bar, t.off, t.e) then Preorder(env, t.rest) else [];
  }

  /** The first read of a walk is of the place it starts at. */
  lemma StartIsRead(env: Env, bar: nat, off: nat, t: Tree)
    requires Describes(env, bar, off, t)
    ensures AllInside(env, Preorder(env, t)) ==> HeaderInside(env, bar, off)
  {
    assert Preorder(env, t)[0] == Visit(bar, off, env.cells(bar, off));
  }

  /** For a table that starts inside its BAR, everything the walk reads is inside the BARs if
      and only if the two things that the parser does not check hold of every entry. */
  lemma {:induction false} ReadsInsideIff(env: Env, bar: nat, off: nat, t: Tree)
    requires Describes(env, bar, off, t) && HeaderInside(env, bar, off)
    ensures AllInside(env, Preorder(env, t)) <==> AllFit(env, Preorder(env, t))
    decreases t
  {
    if t.End? {
      OneInside(env, Visit(t.bar, t.off, t.e));
    } else {
      var v, sub, rest := PreorderParts(env, t);
      CatInside(env, Cat([v], sub), rest);
      CatInside(env, [v], sub);
      OneInside(env, v);
      hide AllInside, AllFit, Preorder;
      if Continues(env, bar, t.e) {
        StartIsRead(env, t.e.bar, Target(t.e), t.sub);
        if HeaderInside(env, t.e.bar, Target(t.e)) { ReadsInsideIff(env, t.e.bar, Target(t.e), t.sub); }
      }
      if Moves(env, bar, off, t.e) { ReadsInsideIff(env, bar, off + t.e.size, t.rest); }
    }
  }

  /** The last place a walk has looked at: what it leads to is not read any more. */
  predicate LastFits(env: Env, v: Visit) {
    v.e.id != ID_LAST && !Moves(env, v.bar, v.off, v.e) ==> ReadInside(env, v)
  }

  /** What was read is inside the BARs if and only if what the parser does not check holds of
      every place the walk went on from, and the last one is read inside. */
  predicate InsideIfFits(env: Env, p: seq<Visit>)
    requires p != []
  {
    AllInside(env, p) <==> AllFit(env, p[..|p| - 1]) && LastFits(env, p[|p| - 1])
  }

  lemma InitOf(env: Env, a: seq<Visit>, b: seq<Visit>)
    requires b != []
    ensures var ab := Cat(a, b);
            && ab != [] && ab[..|ab| - 1] == Cat(a, b[..|b| - 1]) && ab[|ab| - 1] == b[|b| - 1]
  {}

  lemma PrefixSplits(a: seq<Visit>, b: seq<Visit>, p: seq<Visit>)
    requires p <= Cat(a, b)
    ensures |p| <= |a| ==> p <= a
    ensures |p| > |a| ==> p == Cat(a, p[|a|..]) && p[|a|..] <= b && p[|a|..] != []
  {}

  lemma EndInside(env: Env, bar: nat, off: nat, t: Tree, p: seq<Visit>)
    requires t.End? && Describes(env, bar, off, t) && HeaderInside(env, bar, off) && p != [] && p <= Preorder(env, t)
    ensures InsideIfFits(env, p)
  {
    assert p == [Visit(t.bar, t.off, t.e)] && p[..0] == [];
    OneInside(env, p[0]);
  }

  /** However far the walk got. */
  lemma {:induction false} ReadSoFarInsideIff(env: Env, bar: nat, off: nat, t: Tree, p: seq<Visit>)
    requires Describes(env, bar, off, t) && HeaderInside(env, bar, off) && p != [] && p <= Preorder(env, t)
    ensures InsideIfFits(env, p)
    decreases t
  {
    if t.End? {
      EndInside(env, bar, off, t, p);
    } else {
      var v, sub, rest := PreorderParts(env, t);
      PrefixSplits(Cat([v], sub), rest, p);
      hide AllInside, AllFit, LastFits, InsideIfFits, Preorder;
      if |p| <= |Cat([v], sub)| {
        InEntry(env, bar, off, t, v, sub, p);
      } else {
        var q := p[|Cat([v], sub)|..];
        assert Moves(env, bar, off, t.e);
        RestDescribed(env, bar, off, t);
        BlockInside(env, bar, off, t, Cat([v], sub));
        assert p == Cat(Cat([v], sub), q);
        hide Cat, ReadInside, Moves, HeaderInside;
        ReadSoFarInsideIff(env, bar, off + t.e.size, t.rest, q);
        PastEntry(env, Cat([v], sub), q);
      }
    }
  }

  lemma {:induction false} InEntry(env: Env, bar: nat, off: nat, t: Tree, v: Visit, sub: seq<Visit>, p: seq<Visit>)
    requires t.Entry? && Describes(env, bar, off, t) && HeaderInside(env, bar, off) && v == Visit(t.bar, t.off, t.e)
    requires sub == if Continues(env, t.bar, t.e) then Preorder(env, t.sub) else []
    requires p != [] && p <= Cat([v], sub)
    ensures InsideIfFits(env, p)
    decreases t, 0
  {
    OneInside(env, v);
    PrefixSplits([v], sub, p);
    if |p| == 1 {
      assert p == [v] && p[..0] == [];
    } else {
      var q := p[1..];
      assert Continues(env, bar, t.e);
      hide AllInside, AllFit, Preorder, Continues, ReadInside, Fits, LastFits, InsideIfFits, HeaderInside, Cat;
      TargetIsRead(env, t.e.bar, Target(t.e), t.sub, q);
      if HeaderInside(env, t.e.bar, Target(t.e)) { ReadSoFarInsideIff(env, t.e.bar, Target(t.e), t.sub, q); }
      FollowedInside(env, v, q);
    }
  }

  lemma FollowedInside(env: Env, v: Visit, q: seq<Visit>)
    requires v.e == env.cells(v.bar, v.off) && HeaderInside(env, v.bar, v.off) && Continues(env, v.bar, v.e) && q != []
    requires AllInside(env, q) ==> HeaderInside(env, v.e.bar, Target(v.e))
    requires HeaderInside(env, v.e.bar, Target(v.e)) ==> InsideIfFits(env, q)
    ensures Cat([v], q) != [] && InsideIfFits(env, Cat([v], q))
  {
    OneInside(env, v);
    InitOf(env, [v], q);
    CatInside(env, [v], q);
    CatInside(env, [v], q[..|q| - 1]);
    hide AllInside, AllFit, LastFits, Cat;
  }

  lemma PastEntry(env: Env, block: seq<Visit>, q: seq<Visit>)
    requires q != [] && (AllInside(env, block) <==> AllFit(env, block))
    requires InsideIfFits(env, q)
    ensures var p := Cat(block, q);
            p != [] && InsideIfFits(env, p)
  {
    InitOf(env, block, q);
    CatInside(env, block, q);
    CatInside(env, block, q[..|q| - 1]);
    hide AllInside, AllFit, LastFits, Cat;
  }

  lemma RestDescribed(env: Env, bar: nat, off: nat, t: Tree)
    requires t.Entry? && Describes(env, bar, off, t) && Moves(env, bar, off, t.e)
    ensures Describes(env, bar, off + t.e.size, t.rest) && HeaderInside(env, bar, off + t.e.size)
  {}

  /** An entry that the walk moves on from, with its sub-table. */
  lemma BlockInside(env: Env, bar: nat, off: nat, t: Tree, block: seq<Visit>)
    requires t.Entry? && Describes(env, bar, off, t) && HeaderInside(env, bar, off) && Moves(env, bar, off, t.e)
    requires block == Cat([Visit(t.bar, t.off, t.e)], if Continues(env, t.bar, t.e) then Preorder(env, t.sub) else [])
    ensures AllInside(env, block) <==> AllFit(env, block)
  {
    var v, sub := Visit(t.bar, t.off, t.e), if Continues(env, t.bar, t.e) then Preorder(env, t.sub) else [];
    OneInside(env, v);
    CatInside(env, [v], sub);
    hide AllInside, AllFit, Preorder;
    if Continues(env, bar, t.e) {
      StartIsRead(env, t.e.bar, Target(t.e), t.sub);
      if HeaderInside(env, t.e.bar, Target(t.e)) { ReadsInsideIff(env, t.e.bar, Target(t.e), t.sub); }
    }
  }

  lemma TargetIsRead(env: Env, bar: nat, off: nat, t: Tree, p: seq<Visit>)
    requires Describes(env, bar, off, t) && p != [] && p <= Preorder(env, t)
    ensures AllInside(env, p) ==> HeaderInside(env, bar, off)
  {
    assert p[0] == Visit(bar, off, env.cells(bar, off));
  }

  /** The same of the log of a walk, whether it succeeds or fails. */
  lemma LogInsideIff(env: Env, bar: nat, off: nat, t: Tree, was: seq<Visit>, now: seq<Visit>)
    requires Describes(env, bar, off, t) && HeaderInside(env, bar, off)
    requires Partly(was, now, Preorder(env, t)) && now != was
    ensures |was| < |now| && (AllInside(env, now[|was|..]) <==>
                              AllFit(env, now[|was|..|now| - 1]) && LastFits(env, now[|now| - 1]))
  {
    var p := now[|was|..];
    assert now == was + p && p <= Preorder(env, t);
    assert p[..|p| - 1] == now[|was|..|now| - 1];
    ReadSoFarInsideIff(env, bar, off, t, p);
  }

  /** A last entry right at the end of its BAR: it is described, starts inside and leads
      nowhere, and yet the walk reads past the BAR. */
  lemma LastEntryOverhangs(bar: nat)
    ensures var e := Cell(ID_EF100, true, 0, EF100_SIZE, 0, 0, 0);
            var env := Env((b, o) => e, b => HEADER_SIZE);
            var end := End(bar, 0, e);
            var t := Entry(bar, 0, e, end, end);
            && Describes(env, bar, 0, t) && HeaderInside(env, bar, 0) && Preorder(env, t) == [Visit(bar, 0, e)]
            && !Continues(env, bar, e) && !AllInside(env, Preorder(env, t))
  {
    var e := Cell(ID_EF100, true, 0, EF100_SIZE, 0, 0, 0);
    var env := Env((b, o) => e, b => HEADER_SIZE);
    var t := Entry(bar, 0, e, End(bar, 0, e), End(bar, 0, e));
    assert Preorder(env, t)[0] == Visit(bar, 0, e);
  }

  /** What was read before, and then a beginning of `all`. */
  ghost predicate Partly(was: seq<Visit>, now: seq<Visit>, all: seq<Visit>) {
    was <= now <= Cat(was, all)
  }

  lemma PartlyNested(was: seq<Visit>, here: seq<Visit>, now: seq<Visit>, all: seq<Visit>, done: seq<Visit>, v: Visit,
                     sub: seq<Visit>, rest: seq<Visit>)
    requires Partly(Cat(here, [v]), now, sub) && here == Cat(was, done) && all == Cat(done, Cat(Cat([v], sub), rest))
    ensures Partly(was, now, all)
  {
    assert Cat(was, all) == Cat(Cat(Cat(here, [v]), sub), rest);
  }

  lemma PartlyDone(was: seq<Visit>, done: seq<Visit>, left: seq<Visit>)
    ensures Partly(was, Cat(was, done), Cat(done, left))
    ensures Cat(was, []) == was && Partly(was, was, left)
  {
    assert Cat(was, Cat(done, left)) == Cat(Cat(was, done), left);
  }

  // ---- The walk, place by place ----

  datatype Place = Place(bar: nat, off: nat)

  /** What is looked at when the places in `todo` are: an entry brings the place after it, unless
      it is the last, and a continuation first its target. */
  ghost predicate Walks(env: Env, vs: seq<Visit>, todo: seq<Place>)
    decreases |vs|
  {
    if vs == [] then todo == []
    else
      && todo != []
      && var v, p := vs[0], todo[0];
         && v == Visit(p.bar, p.off, env.cells(p.bar, p.off))
         && Walks(env, vs[1..], Follows(v) + todo[1..])
  }

  function Follows(v: Visit): seq<Place> {
    (if v.e.id == 0xffffe then [Place(v.e.bar, 16 * v.e.target)] else [])
    + After(v)
  }

  lemma {:induction false} WalksOneMore(env: Env, v: Visit, p: Place, vs: seq<Visit>, todo: seq<Place>)
    requires v == Visit(p.bar, p.off, env.cells(p.bar, p.off)) && Walks(env, vs, Follows(v) + todo)
    ensures Walks(env, Cat([v], vs), [p] + todo)
  {
    var all := Cat([v], vs);
    assert all[0] == v && all[1..] == vs && ([p] + todo)[1..] == todo;
    hide Follows;
  }

  /** The preorder of a table whose entries are in order is such a walk. */
  lemma {:induction false} TableIsWalked(env: Env, bar: nat, off: nat, t: Tree, vs: seq<Visit>, todo: seq<Place>)
    requires Describes(env, bar, off, t) && AllWellFormed(env, Preorder(env, t)) && Walks(env, vs, todo)
    ensures Walks(env, Cat(Preorder(env, t), vs), [Place(bar, off)] + todo)
    decreases t
  {
    if t.End? {
      var v := Visit(bar, off, t.e);
      assert Follows(v) + todo == todo;
      WalksOneMore(env, v, Place(bar, off), vs, todo);
    } else {
      var v, sub, rest := PreorderParts(env, t);
      WellFormedParts(env, v, sub, rest);
      ContinuesIff(env, bar, t.e);
      OpenTree(env, bar, off, t);
      CatShape(vs, [], []);
      var after := After(v);
      hide Preorder, AllWellFormed, Cat, Walks, Describes;
      if t.e.last {
        assert after + todo == todo;
      } else {
        TableIsWalked(env, bar, off + t.e.size, t.rest, vs, todo);
      }
      if t.e.id == 0xffffe {
        TableIsWalked(env, t.e.bar, 16 * t.e.target, t.sub, Cat(rest, vs), after + todo);
      }
      EntryIsWalked(env, v, sub, rest, vs, todo);
    }
  }

  function After(v: Visit): seq<Place> {
    if v.e.id == 0xfffff || v.e.last then [] else [Place(v.bar, v.off + v.e.size)]
  }

  lemma WellFormedParts(env: Env, v: Visit, sub: seq<Visit>, rest: seq<Visit>)
    requires AllWellFormed(env, Cat(Cat([v], sub), rest))
    ensures WellFormed(env, v) && AllWellFormed(env, sub) && AllWellFormed(env, rest)
  {
    WellFormedCat(env, Cat([v], sub), rest);
    OneEntry(env, v, sub, None);
  }

  lemma EntryIsWalked(env: Env, v: Visit, sub: seq<Visit>, rest: seq<Visit>, vs: seq<Visit>, todo: seq<Place>)
    requires v.e == env.cells(v.bar, v.off) && v.e.id != 0xfffff
    requires Walks(env, Cat(rest, vs), After(v) + todo)
    requires if v.e.id == 0xffffe
             then Walks(env, Cat(sub, Cat(rest, vs)), [Place(v.e.bar, 16 * v.e.target)] + (After(v) + todo))
             else sub == []
    ensures Walks(env, Cat(Cat(Cat([v], sub), rest), vs), [Place(v.bar, v.off)] + todo)
  {
    CatShape(Cat([v], sub), rest, vs);
    CatShape([v], sub, Cat(rest, vs));
    CatShape(Cat(rest, vs), [], []);
    assert [Place(v.e.bar, 16 * v.e.target)] + (After(v) + todo)
        == ([Place(v.e.bar, 16 * v.e.target)] + After(v)) + todo;
    assert [] + After(v) == After(v);
    hide Cat, Walks;
    WalksOneMore(env, v, Place(v.bar, v.off), Cat(sub, Cat(rest, vs)), todo);
  }

  /** In such a walk a continuation is followed at once by what lies 16 bytes times its target
      into its BAR, and any other entry that is not the last by what lies its size further on. */
  lemma {:induction false} NextPlace(env: Env, vs: seq<Visit>, todo: seq<Place>, i: nat)
    requires Walks(env, vs, todo) && i < |vs|
    ensures vs[i].e == env.cells(vs[i].bar, vs[i].off)
    ensures vs[i].e.id == 0xffffe ==>
              i + 1 < |vs| && vs[i + 1].bar == vs[i].e.bar && vs[i + 1].off == 16 * vs[i].e.target
    ensures vs[i].e.id != 0xffffe && vs[i].e.id != 0xfffff && !vs[i].e.last ==>
              i + 1 < |vs| && vs[i + 1].bar == vs[i].bar && vs[i + 1].off == vs[i].off + vs[i].e.size
    decreases i
  {
    if i > 0 { NextPlace(env, vs[1..], Follows(vs[0]) + todo[1..], i - 1); }
  }

  /** What a walk from this place has added to the log. */
  ghost predicate Walked(env: Env, was: seq<Visit>, now: seq<Visit>, bar: nat, off: nat) {
    was <= now && Walks(env, now[|was|..], [Place(bar, off)])
  }

  lemma GoodIsWalked(env: Env, works: nat -> bool, bar: nat, off: nat, t: Tree, known: nat, calls: nat,
                     was: seq<Visit>, now: seq<Visit>)
    requires Describes(env, bar, off, t) && Good(env, works, Preorder(env, t), known, calls)
    requires now == Cat(was, Preorder(env, t))
    ensures Walked(env, was, now, bar, off) && now != was && now[|was|].bar == bar && now[|was|].off == off
  {
    assert now[|was|..] == Preorder(env, t);
    assert Walks(env, [], []);
    assert [Place(bar, off)] + [] == [Place(bar, off)];
    CatShape(Preorder(env, t), [], []);
    TableIsWalked(env, bar, off, t, [], []);
  }

  lemma WalkedIf(env: Env, works: nat -> bool, bar: nat, off: nat, t: Tree, known: nat, calls: nat,
                 was: seq<Visit>, now: seq<Visit>)
    requires Describes(env, bar, off, t) && Good(env, works, Preorder(env, t), known, calls)
    requires now == Cat(was, Preorder(env, t))
    ensures Walked(env, was, now, bar, off)
  {
    GoodIsWalked(env, works, bar, off, t, known, calls, was, now);
  }

  // ---- The walker ----

  class Walker {
    const env: Env
    /** Whether the i-th attempt to map a BAR works. */
    const mapWorks: nat -> bool
    var mapCalls: nat
    var memBar: Option<nat>
    var result: Option<Window>
    /** Everything looked at, in order. */
    ghost var log: seq<Visit>

    constructor (env: Env, mapWorks: nat -> bool)
      ensures this.env == env && this.mapWorks == mapWorks && mapCalls == 0 && memBar == None && result == None && log == []
    {
      this.env, this.mapWorks, mapCalls, memBar, result, log := env, mapWorks, 0, None, None, [];
    }

    method InitIo(bar: nat) returns (ok: bool)
      modifies `mapCalls, `memBar
      ensures ok == mapWorks(old(mapCalls)) && mapCalls == old(mapCalls) + 1
      ensures memBar == if ok then Some(bar) else None
    {
      ok := mapWorks(mapCalls);
      mapCalls := mapCalls + 1;
      memBar := if ok then Some(bar) else None;
    }

    method FiniIo()
      modifies `memBar
      ensures memBar == None
    {
      memBar := None;
    }

    method ParseEf100Entry(e: Cell) returns (rc: Result)
      modifies `result
      ensures rc == if old(result).Some? || !GoodBar(e.bar) then Invalid else Ok
      ensures result == if rc.Ok? then Some(Window(e.bar, WindowOffset(e.window))) else old(result)
    {
      if result.Some? {
        return Invalid;
      }
      if e.bar == 6 || e.bar == 7 {
        return Invalid;
      }
      result := Some(Window(e.bar, WindowOffset(e.window)));
      return Ok;
    }

    /** Follows a continuation entry. */
    method ParseContinueEntry(v: Visit, ghost sub: Tree) returns (rc: Result)
      requires memBar == Some(v.bar) && v.e.size >= CONT_MIN_SIZE && v.e.id == ID_CONT && v.e.rev == 0
      requires Continues(env, v.bar, v.e) ==> Describes(env, v.e.bar, Target(v.e), sub)
      modifies this
      ensures var vs := Preorder(env, sub);
              rc.Ok? <==> (Continues(env, v.bar, v.e)
                           && SubGood(env, mapWorks, v.e.bar != v.bar, vs, Known(old(result)), old(mapCalls)))
      ensures var vs := Preorder(env, sub);
              rc.Ok? ==> (memBar == Some(v.bar) && result == Latest(vs, old(result))
                          && mapCalls == old(mapCalls) + Remaps(env, vs) + if v.e.bar != v.bar then 2 else 0)
      ensures rc.Ok? ==> log == Cat(old(log), Preorder(env, sub))
      ensures Partly(old(log), log, if Continues(env, v.bar, v.e) then Preorder(env, sub) else [])
      ensures v.e.bar != v.bar && 16 * v.e.target + 8 > env.len(v.e.bar) ==> rc == Invalid
      ensures rc.Ok? ==> Walked(env, old(log), log, v.e.bar, 16 * v.e.target)
      decreases Size(sub), 2
    {
      ContinuesIff(env, v.bar, v.e);
      ghost var vs := if Continues(env, v.bar, v.e) then Preorder(env, sub) else [];
      PartlyDone(log, [], vs);
      hide Good, Found, Latest, Remaps, Preorder, Describes, Partly, Cat, Walked;
      var bar, previousBar := v.e.bar, memBar.value;
      if bar == 6 || bar == 7 {
        return Invalid;
      }
      if bar != previousBar {
        FiniIo();
        if Overflows(env, bar, Target(v.e)) {
          return Invalid;
        }
        var ok := InitIo(bar);
        if !ok {
          return MapFailed;
        }
      }
      rc := WalkTable(Target(v.e), sub);
      if !rc.Ok? {
        return;
      }
      if bar != previousBar {
        FiniIo();
        var ok := InitIo(previousBar);
        if !ok {
          return MapFailed;
        }
      }
      return Ok;
    }

    /** The part of the loop that looks at one entry. */
    method HandleEntry(v: Visit, ghost sub: Tree) returns (rc: Result)
      requires memBar == Some(v.bar) && v.e.id != ID_LAST
      requires Continues(env, v.bar, v.e) ==> Describes(env, v.e.bar, Target(v.e), sub)
      modifies this
      ensures var vs := if Continues(env, v.bar, v.e) then Preorder(env, sub) else [];
              rc.Ok? <==> EntryGood(env, mapWorks, v, vs, Known(old(result)), old(mapCalls))
      ensures var vs := if Continues(env, v.bar, v.e) then Preorder(env, sub) else [];
              rc.Ok? ==> (memBar == old(memBar) && result == Latest(Cat([v], vs), old(result))
                          && mapCalls == old(mapCalls) + Remaps(env, Cat([v], vs)) && log == Cat(old(log), vs))
      ensures Partly(old(log), log, if Continues(env, v.bar, v.e) then Preorder(env, sub) else [])
      decreases Size(sub), 3
    {
      ghost var vs := if Continues(env, v.bar, v.e) then Preorder(env, sub) else [];
      OneEntry(env, v, vs, result);
      NothingNamed(env, result);
      NothingNamed(env, Some(WindowOf(v.e)));
      PartlyDone(log, [], vs);
      hide Good, Found, Latest, Remaps, Preorder, Describes, SubGood, WindowOffset, Cat, Partly;
      if v.e.size < 4 * 2 {
        return Invalid;
      }
      if v.e.id == ID_EF100 {
        if v.e.rev != 0 || v.e.size < EF100_SIZE {
          return Invalid;
        }
        rc := ParseEf100Entry(v.e);
      } else if v.e.id == ID_CONT {
        if v.e.rev != 0 || v.e.size < CONT_MIN_SIZE {
          return Invalid;
        }
        rc := ParseContinueEntry(v, sub);
      } else {
        rc := Ok;
      }
    }

    /** The walk agrees with the declarative reading: it succeeds exactly when the entries
        in preorder are all well formed, name at most one window in all, and every mapping
        works; then the BAR is the one it started on and the window is the one named. What
        it reads is the preorder itself, or a beginning of it if it fails. */
    method WalkTable(offset: nat, ghost t: Tree) returns (rc: Result)
      requires memBar.Some? && Describes(env, memBar.value, offset, t)
      modifies this
      ensures rc.Ok? <==> Good(env, mapWorks, Preorder(env, t), Known(old(result)), old(mapCalls))
      ensures rc.Ok? ==> memBar == old(memBar) && result == Latest(Preorder(env, t), old(result))
      ensures rc.Ok? ==> mapCalls == old(mapCalls) + Remaps(env, Preorder(env, t))
      ensures rc.Ok? ==> log == Cat(old(log), Preorder(env, t))
      ensures Partly(old(log), log, Preorder(env, t))
      ensures rc.Ok? ==> Walked(env, old(log), log, old(memBar).value, offset)
      decreases Size(t), 1
    {
      ghost var known, calls := Known(result), mapCalls;
      hide *;
      rc := WalkEntries(offset, t);
      if rc.Ok? { WalkedIf(env, mapWorks, old(memBar).value, offset, t, known, calls, old(log), log); }
    }

    /** The loop of the walk. */
    method WalkEntries(offset: nat, ghost t: Tree) returns (rc: Result)
      requires memBar.Some? && Describes(env, memBar.value, offset, t)
      modifies this
      ensures rc.Ok? <==> Good(env, mapWorks, Preorder(env, t), Known(old(result)), old(mapCalls))
      ensures rc.Ok? ==> memBar == old(memBar) && result == Latest(Preorder(env, t), old(result))
      ensures rc.Ok? ==> mapCalls == old(mapCalls) + Remaps(env, Preorder(env, t))
      ensures rc.Ok? ==> log == Cat(old(log), Preorder(env, t))
      ensures Partly(old(log), log, Preorder(env, t))
      decreases Size(t), 0
    {
      ghost var bar, calls, was, all, logWas := memBar.value, mapCalls, result, Preorder(env, t), log;
      ghost var done: seq<Visit>, cur := [], t;
      var currentEntry: nat := offset;
      NothingReached(env, mapWorks, all, calls, was, logWas);
      hide Good, Remaps, Reached, Known, Latest, Preorder, Describes, Size, Continues, Cat, Partly;
      while true
        invariant memBar == Some(bar) && Describes(env, bar, currentEntry, cur) && Size(cur) <= Size(t)
        invariant Reached(env, mapWorks, all, done, Preorder(env, cur), calls, was, logWas, result, mapCalls, log)
        decreases Size(cur)
      {
        var e := env.cells(memBar.value, currentEntry);
        OpenTree(env, bar, currentEntry, cur);
        if e.id == ID_LAST {
          AllReached(env, mapWorks, all, done, Visit(bar, currentEntry, e), calls, was, logWas, result, mapCalls, log);
          log := Cat(log, [Visit(bar, currentEntry, e)]);
          return Ok;
        }
        rc, done := HandleNext(Visit(memBar.value, currentEntry, e), cur, all, done, calls, was, logWas);
        if !rc.Ok? {
          return;
        }
        if e.last {
          NothingLeft(env, mapWorks, all, done, calls, was, logWas, result, mapCalls, log);
          return Ok;
        }
        currentEntry := currentEntry + e.size;
        if Overflows(env, memBar.value, currentEntry) {
          return Invalid;
        }
        cur := cur.rest;
      }
    }

    /** Handling the next entry of the walk, and what that means for the whole of it. */
    method HandleNext(v: Visit, ghost cur: Tree, ghost all: seq<Visit>, ghost done: seq<Visit>, ghost calls: nat,
                      ghost was: Option<Window>, ghost logWas: seq<Visit>)
      returns (rc: Result, ghost now: seq<Visit>)
      requires memBar == Some(v.bar) && cur.Entry? && v == Visit(cur.bar, cur.off, cur.e)
      requires Describes(env, v.bar, v.off, cur)
      requires Reached(env, mapWorks, all, done, Preorder(env, cur), calls, was, logWas, result, mapCalls, log)
      modifies this
      ensures Partly(logWas, log, all)
      ensures rc.Ok? ==> memBar == old(memBar) && v.e.size >= HEADER_SIZE
      ensures if rc.Ok? && (v.e.last || Moves(env, v.bar, v.off, v.e))
              then Reached(env, mapWorks, all, now, if Moves(env, v.bar, v.off, v.e) then Preorder(env, cur.rest) else [],
                           calls, was, logWas, result, mapCalls, log)
              else !Good(env, mapWorks, all, Known(was), calls)
      decreases Size(cur.sub), 4
    {
      OpenTree(env, v.bar, v.off, cur);
      hide Good, Remaps, EntryGood, Reached, Known, Latest, Preorder, Describes, Size, Continues, Cat, Partly, Moves;
      ghost var x, sub, rest := PreorderParts(env, cur);
      ghost var logHere, treeOfSub := log, cur.sub;
      ReachNext(env, mapWorks, all, done, v, sub, rest, calls, was, logWas, result, mapCalls, logHere);
      EntryHasHeader(env, mapWorks, v, sub, Known(result), mapCalls);
      log := Cat(log, [v]);
      rc := HandleEntry(v, treeOfSub);
      PartlyNested(logWas, logHere, log, all, done, v, sub, rest);
      now := Cat(done, Cat([v], sub));
    }

    /** Walks the table that one vendor capability points to, in a mapping of its own. */
    method ParseXilinxCap(c: Cap) returns (rc: Result)
      requires IsXilinx(c) && TableDescribed(env, c)
      modifies this
      ensures rc.Ok? <==> (TableStart(env, c) && mapWorks(old(mapCalls))
                           && Good(env, mapWorks, Preorder(env, c.table), Known(old(result)), old(mapCalls) + 1))
      ensures rc.Ok? ==> memBar == None && result == Latest(Preorder(env, c.table), old(result))
      ensures rc.Ok? ==> mapCalls == old(mapCalls) + 1 + Remaps(env, Preorder(env, c.table))
      ensures rc.Ok? ==> log == Cat(old(log), Preorder(env, c.table))
      ensures Partly(old(log), log, Preorder(env, c.table))
      ensures rc.Ok? ==>
                Walked(env, old(log), log, c.bar, 16 * c.offLo + if c.len >= 16 then 0x1_0000_0000 * c.offHi else 0)
    {
      PartlyDone(log, [], Preorder(env, c.table));
      hide Good, Found, Latest, Remaps, Preorder, Describes, Partly, Cat, Walked;
      if !c.tableReads {
        return Unreadable;
      }
      if c.bar == 6 || c.bar == 7 {
        return Invalid;
      }
      if Overruns(env.len(c.bar), TableOffset(c)) {
        return Invalid;
      }
      var ok := InitIo(c.bar);
      if !ok {
        return MapFailed;
      }
      rc := WalkTable(TableOffset(c), c.table);
      FiniIo();
    }

    /** Looks through all vendor capabilities: it succeeds exactly when all their tables are
        good and name, all together, at most one window, and one if there is any
        capability at all; that window is the result. */
    method FindFuncCtrlWindow(caps: seq<Cap>) returns (rc: Result)
      requires forall i | 0 <= i < |caps| :: TableDescribed(env, caps[i])
      modifies this
      ensures rc.Ok? <==> (CapsGood(env, mapWorks, caps, old(mapCalls)) && (caps == [] || Found(AllVisits(env, caps)) == 1))
      ensures rc.Ok? ==> result == Latest(AllVisits(env, caps), None) && log == Cat(old(log), AllVisits(env, caps))
    {
      ghost var calls, logWas := mapCalls, log;
      result := None;
      NoCaps(env, mapWorks, calls);
      CatShape(log, [], []);
      hide *;
      for i := 0 to |caps|
        invariant CapsGood(env, mapWorks, caps[..i], calls) && result == Latest(AllVisits(env, caps[..i]), None)
        invariant mapCalls == calls + Tables(caps[..i]) + Remaps(env, AllVisits(env, caps[..i]))
        invariant log == Cat(logWas, AllVisits(env, caps[..i]))
      {
        var c := caps[i];
        assert caps[..i + 1] == caps[..i] + [c];
        OneMoreCap(env, mapWorks, caps[..i], c, calls, result, mapCalls);
        CapCounts(env, caps[..i], c, result);
        PrefixFails(env, mapWorks, caps, i + 1, calls);
        CapSnoc(env, caps[..i], c);
        CatShape(logWas, AllVisits(env, caps[..i]), if IsXilinx(c) then Preorder(env, c.table) else []);
        CatShape(log, [], []);
        if !c.idReads {
          return Unreadable;
        }
        if IsXilinx(c) {
          rc := ParseXilinxCap(c);
          if !rc.Ok? {
            return;
          }
        }
      }
      assert caps[..|caps|] == caps;
      FoundByCaps(env, mapWorks, caps, calls);
      if |caps| > 0 && result == None {
        return Invalid;
      }
      return Ok;
    }
  }

  // ---- Vendor capabilities ----

  /** A vendor capability of the configuration space; `table` is what its table holds, and
      the two flags say whether the configuration reads work. */
  datatype Cap = Cap(idReads: bool, tableReads: bool, id: nat, ver: nat, len: nat,
                     bar: nat, offLo: nat, offHi: nat, table: Tree)

  const VSEC_ID := 0x20
  const VSEC_LEN_MIN := 12
  const VSEC_LEN_HIGH := 16

  predicate IsXilinx(c: Cap) { c.id == VSEC_ID && c.ver == 0 && c.len >= VSEC_LEN_MIN }

  function TableOffset(c: Cap): nat {
    16 * c.offLo + if c.len >= VSEC_LEN_HIGH then 0x1_0000_0000 * c.offHi else 0
  }

  /** `offset > len - 8` on unsigned 64-bit numbers: a BAR shorter than a header passes. */
  predicate Overruns(len: nat, offset: nat) {
    offset > if len >= HEADER_SIZE then len - HEADER_SIZE else len + 0x1_0000_0000_0000_0000 - HEADER_SIZE
  }

  /** A table start that passes this check is inside the BAR if and only if the BAR is not
      shorter than a header. */
  lemma StartInsideIff(len: nat, offset: nat)
    requires !Overruns(len, offset)
    ensures offset + HEADER_SIZE <= len <==> len >= HEADER_SIZE
  {}

  predicate TableStart(env: Env, c: Cap) {
    c.tableReads && GoodBar(c.bar) && !Overruns(env.len(c.bar), TableOffset(c))
  }

  ghost predicate TableDescribed(env: Env, c: Cap) {
    IsXilinx(c) && TableStart(env, c) ==> Describes(env, c.bar, TableOffset(c), c.table)
  }

  predicate CapStart(env: Env, c: Cap) { c.idReads && (IsXilinx(c) ==> TableStart(env, c)) }

  predicate AllCapsStart(env: Env, caps: seq<Cap>) { forall i | 0 <= i < |caps| :: CapStart(env, caps[i]) }

  /** All entries of all tables. */
  function AllVisits(env: Env, caps: seq<Cap>): seq<Visit> {
    if caps == [] then []
    else
      var c := caps[|caps| - 1];
      Cat(AllVisits(env, caps[..|caps| - 1]), if IsXilinx(c) then Preorder(env, c.table) else [])
  }

  function Tables(caps: seq<Cap>): nat {
    if caps == [] then 0 else Tables(caps[..|caps| - 1]) + if IsXilinx(caps[|caps| - 1]) then 1 else 0
  }

  predicate CapsGood(env: Env, works: nat -> bool, caps: seq<Cap>, calls: nat) {
    && AllCapsStart(env, caps)
    && AllWellFormed(env, AllVisits(env, caps)) && Found(AllVisits(env, caps)) <= 1
    && AllWork(works, calls, Tables(caps) + Remaps(env, AllVisits(env, caps)))
  }

  lemma NoCaps(env: Env, works: nat -> bool, calls: nat)
    ensures CapsGood(env, works, [], calls) && AllVisits(env, []) == [] && Tables([]) == 0
    ensures Found([]) == 0 && Remaps(env, []) == 0 && Latest([], None) == None
  {}

  lemma CapSnoc(env: Env, caps: seq<Cap>, c: Cap)
    ensures AllVisits(env, caps + [c]) == Cat(AllVisits(env, caps), if IsXilinx(c) then Preorder(env, c.table) else [])
    ensures Tables(caps + [c]) == Tables(caps) + (if IsXilinx(c) then 1 else 0)
    ensures AllCapsStart(env, caps + [c]) <==> AllCapsStart(env, caps) && CapStart(env, c)
  {
    hide CapStart, Preorder, Cat;
    var all := caps + [c];
    assert all[..|all| - 1] == caps;
    assert all[|caps|] == c && forall i | 0 <= i < |caps| :: all[i] == caps[i];
  }

  lemma CapsGoodSnoc(env: Env, works: nat -> bool, caps: seq<Cap>, c: Cap, calls: nat)
    ensures var vs, t := AllVisits(env, caps), Preorder(env, c.table);
            var made := calls + Tables(caps) + Remaps(env, vs);
            CapsGood(env, works, caps + [c], calls) <==>
              CapsGood(env, works, caps, calls) && CapStart(env, c)
              && (IsXilinx(c) ==> works(made) && Good(env, works, t, Found(vs), made + 1))
  {
    var vs, t := AllVisits(env, caps), Preorder(env, c.table);
    CapSnoc(env, caps, c);
    hide CapStart, Preorder, AllVisits, Tables, Found, Remaps, IsXilinx, AllWellFormed, AllWork, AllCapsStart, Cat;
    if IsXilinx(c) {
      CountsCat(env, vs, t, None);
      WellFormedCat(env, vs, t);
      AllWorkJoin(works, calls, Tables(caps) + Remaps(env, vs), Remaps(env, t) + 1);
      AllWorkJoin(works, calls, Tables(caps) + Remaps(env, vs), Remaps(env, t));
    } else {
      CatShape(vs, [], []);
    }
  }

  /** What one capability must satisfy when the walks before it found `known` windows and
      made `calls` mappings. */
  predicate CapGood(env: Env, works: nat -> bool, c: Cap, known: nat, calls: nat) {
    CapStart(env, c) && (IsXilinx(c) ==> works(calls) && Good(env, works, Preorder(env, c.table), known, calls + 1))
  }

  /** One turn of the loop over the capabilities: what it decides. */
  lemma OneMoreCap(env: Env, works: nat -> bool, before: seq<Cap>, c: Cap, calls: nat, result: Option<Window>, callsNow: nat)
    requires CapsGood(env, works, before, calls) && result == Latest(AllVisits(env, before), None)
    requires callsNow == calls + Tables(before) + Remaps(env, AllVisits(env, before))
    ensures CapGood(env, works, c, Known(result), callsNow) <==> CapsGood(env, works, before + [c], calls)
  {
    FoundByCaps(env, works, before, calls);
    hide CapsGood, Good, Preorder, AllVisits, Tables, Found, Remaps, Latest, CapStart, IsXilinx, Known, Cat;
    CapsGoodSnoc(env, works, before, c, calls);
  }

  /** And what it counts. */
  lemma CapCounts(env: Env, before: seq<Cap>, c: Cap, result: Option<Window>)
    requires result == Latest(AllVisits(env, before), None)
    ensures var t := if IsXilinx(c) then Preorder(env, c.table) else [];
            && Latest(AllVisits(env, before + [c]), None) == Latest(t, result)
            && Tables(before + [c]) == Tables(before) + (if IsXilinx(c) then 1 else 0)
            && Remaps(env, AllVisits(env, before + [c])) == Remaps(env, AllVisits(env, before)) + Remaps(env, t)
    ensures Remaps(env, []) == 0 && Latest([], result) == result
  {
    var vs, t := AllVisits(env, before), if IsXilinx(c) then Preorder(env, c.table) else [];
    hide Preorder, AllVisits, Tables, Remaps, Latest, IsXilinx, Cat;
    CapSnoc(env, before, c);
    CountsCat(env, vs, t, None);
    NothingNamed(env, result);
  }

  lemma FoundByCaps(env: Env, works: nat -> bool, caps: seq<Cap>, calls: nat)
    requires CapsGood(env, works, caps, calls)
    ensures Known(Latest(AllVisits(env, caps), None)) == Found(AllVisits(env, caps)) <= 1
    ensures caps == [] ==> Latest(AllVisits(env, caps), None) == None
  {
    KnownAfter(AllVisits(env, caps), None);
  }

  lemma {:induction false} PrefixGood(env: Env, works: nat -> bool, caps: seq<Cap>, k: nat, calls: nat)
    requires k <= |caps| && CapsGood(env, works, caps, calls)
    ensures CapsGood(env, works, caps[..k], calls)
    decreases |caps|
  {
    hide CapsGood, Good, Preorder, AllVisits, Tables, Found, Remaps, CapStart, IsXilinx;
    if k == |caps| {
      assert caps[..k] == caps;
    } else {
      var init := caps[..|caps| - 1];
      assert caps == init + [caps[|caps| - 1]];
      CapsGoodSnoc(env, works, init, caps[|caps| - 1], calls);
      PrefixGood(env, works, init, k, calls);
      assert init[..k] == caps[..k];
    }
  }

  lemma PrefixFails(env: Env, works: nat -> bool, caps: seq<Cap>, k: nat, calls: nat)
    requires k <= |caps|
    ensures !CapsGood(env, works, caps[..k], calls) ==> !CapsGood(env, works, caps, calls)
  {
    if CapsGood(env, works, caps, calls) { PrefixGood(env, works, caps, k, calls); }
  }

  lemma OpenTree(env: Env, bar: nat, off: nat, t: Tree)
    requires Describes(env, bar, off, t)
    ensures t.End? <==> env.cells(bar, off).id == ID_LAST
    ensures t.End? ==> Preorder(env, t) == [Visit(bar, off, env.cells(bar, off))]
    ensures t.Entry? ==> t.bar == bar && t.off == off && t.e == env.cells(bar, off)
    ensures t.Entry? && Continues(env, bar, t.e) ==> Describes(env, t.e.bar, Target(t.e), t.sub)
    ensures t.Entry? && Moves(env, bar, off, t.e) ==> Describes(env, bar, off + t.e.size, t.rest)
    ensures t.Entry? ==> Size(t.sub) < Size(t) && Size(t.rest) < Size(t)
  {}

  /** The walk has got through `done` and `left` is still to come. */
  ghost predicate Reached(env: Env, works: nat -> bool, all: seq<Visit>, done: seq<Visit>, left: seq<Visit>, calls: nat,
                          was: Option<Window>, logWas: seq<Visit>, result: Option<Window>, callsNow: nat, log: seq<Visit>) {
    && all == Cat(done, left) && Good(env, works, done, Known(was), calls)
    && result == Latest(done, was) && callsNow == calls + Remaps(env, done) && log == Cat(logWas, done)
  }

  lemma NothingReached(env: Env, works: nat -> bool, all: seq<Visit>, calls: nat, was: Option<Window>, log: seq<Visit>)
    ensures Reached(env, works, all, [], all, calls, was, log, was, calls, log)
  {}

  lemma NothingLeft(env: Env, works: nat -> bool, all: seq<Visit>, done: seq<Visit>, calls: nat, was: Option<Window>,
                    logWas: seq<Visit>, result: Option<Window>, callsNow: nat, log: seq<Visit>)
    requires Reached(env, works, all, done, [], calls, was, logWas, result, callsNow, log)
    ensures Good(env, works, all, Known(was), calls) && result == Latest(all, was)
    ensures callsNow == calls + Remaps(env, all) && log == Cat(logWas, all)
  {
    CatShape(done, [], []);
  }

  /** An end marker completes the walk. */
  lemma AllReached(env: Env, works: nat -> bool, all: seq<Visit>, done: seq<Visit>, v: Visit, calls: nat, was: Option<Window>,
                   logWas: seq<Visit>, result: Option<Window>, callsNow: nat, log: seq<Visit>)
    requires Reached(env, works, all, done, [v], calls, was, logWas, result, callsNow, log) && v.e.id == ID_LAST
    ensures Good(env, works, all, Known(was), calls) && result == Latest(all, was)
    ensures callsNow == calls + Remaps(env, all) && Cat(log, [v]) == Cat(logWas, all)
    ensures Partly(logWas, Cat(log, [v]), all)
  {
    GoodBound(env, works, done, was, calls);
    OneEntry(env, v, [], result);
    CatShape([v], [], []);
    CatShape(logWas, done, [v]);
    PartlyDone(logWas, all, []);
    CatShape(all, [], []);
    CountsCat(env, done, [v], was);
    GoodCat(env, works, done, [v], Known(was), calls);
    NothingNamed(env, result);
    hide Cat, Latest, Partly;
    assert AllWork(works, calls + Remaps(env, done), 0);
  }

  lemma GoodBound(env: Env, works: nat -> bool, vs: seq<Visit>, was: Option<Window>, calls: nat)
    requires Good(env, works, vs, Known(was), calls)
    ensures Known(Latest(vs, was)) == Found(vs) + Known(was) <= 1
  {
    KnownAfter(vs, was);
  }

  /** One more entry, with its sub-table. */
  lemma ReachNext(env: Env, works: nat -> bool, all: seq<Visit>, done: seq<Visit>, v: Visit, sub: seq<Visit>,
                  rest: seq<Visit>, calls: nat, was: Option<Window>, logWas: seq<Visit>,
                  result: Option<Window>, callsNow: nat, log: seq<Visit>)
    requires Reached(env, works, all, done, Cat(Cat([v], sub), rest), calls, was, logWas, result, callsNow, log)
    requires v.e.id != ID_LAST && (!Continues(env, v.bar, v.e) ==> sub == [])
    ensures all == Cat(done, Cat(Cat([v], sub), rest)) && log == Cat(logWas, done)
    ensures var block := Cat([v], sub);
            if EntryGood(env, works, v, sub, Known(result), callsNow) && (v.e.last || Moves(env, v.bar, v.off, v.e))
            then Reached(env, works, all, Cat(done, block), rest, calls, was, logWas, Latest(block, result),
                         callsNow + Remaps(env, block), Cat(Cat(log, [v]), sub))
            else !Good(env, works, all, Known(was), calls)
  {
    hide Good, EntryGood, Found, Remaps, Latest, Continues, Moves, Cat, Known;
    var block := Cat([v], sub);
    GoodBound(env, works, done, was, calls);
    CatShape(done, block, rest);
    CatShape(log, [v], sub);
    CatShape(logWas, done, block);
    GoodCat(env, works, Cat(done, block), rest, Known(was), calls);
    GoodCat(env, works, done, block, Known(was), calls);
    EntryIsGood(env, works, v, sub, Known(result), callsNow);
    CountsCat(env, done, block, was);
  }

  lemma EntryHasHeader(env: Env, works: nat -> bool, v: Visit, sub: seq<Visit>, known: nat, calls: nat)
    ensures EntryGood(env, works, v, sub, known, calls) ==> v.e.size >= HEADER_SIZE
  {}

  lemma NothingNamed(env: Env, was: Option<Window>)
    ensures Found([]) == 0 && Remaps(env, []) == 0 && Latest([], was) == was
  {}
}
