// The multi-level indirection (MLI) page tree of the firmware dump buffer (dump.c):
// layout of `n` data pages under indirection pages of `e` entries, for any n and any e >= 2.

module MliTree {
  import opened Arithmetic
  import opened Wrappers

  function Pow(e: nat, k: nat): nat { if k == 0 then 1 else e * Pow(e, k - 1) }

  /** Pages on level `k`; level 0 holds the data. */
  function Size(n: nat, e: nat, k: nat): nat
    requires e >= 2
  {
    if k == 0 then n else RoundUp(Size(n, e, k - 1), e)
  }

  /** Index of the first page of level `k` in the flat page array. */
  function Base(n: nat, e: nat, k: nat): nat
    requires e >= 2
  {
    if k == 0 then 0 else Base(n, e, k - 1) + Size(n, e, k - 1)
  }

  lemma CeilAtMost(n: nat, e: nat, m: nat)
    requires e > 0
    ensures RoundUp(n, e) <= m <==> n <= m * e
  {
    var c := RoundUp(n, e);
    var r := (n + e - 1) % e;
    assert n + e - 1 == c * e + r;
    if c <= m { Monotone(c, m, e); } else { Monotone(m, c - 1, e); assert (c - 1) * e == c * e - e; }
  }

  lemma CeilShrinks(n: nat, e: nat)
    requires e >= 2 && n > 1
    ensures 1 <= RoundUp(n, e) < n
  {
    CeilAtMost(n, e, 0);
    CeilAtMost(n, e, n - 1);
    assert (n - 1) * e >= (n - 1) * 2;
  }

  /** A level has at most `m` pages exactly when `m` full subtrees cover the data. */
  lemma {:induction false} SizeAtMost(n: nat, e: nat, k: nat, m: nat)
    requires e >= 2
    ensures Size(n, e, k) <= m <==> n <= m * Pow(e, k)
  {
    if k == 0 {
    } else {
      CeilAtMost(Size(n, e, k - 1), e, m);
      SizeAtMost(n, e, k - 1, m * e);
      Associative(m, e, Pow(e, k - 1));
    }
  }

  /** Number of passes of the sizing loop. */
  function Depth(n: nat, e: nat): nat
    requires e >= 2
  {
    if n <= 1 then 0 else CeilShrinks(n, e); 1 + Depth(RoundUp(n, e), e)
  }

  lemma {:induction false} SizeShift(n: nat, e: nat, k: nat)
    requires e >= 2
    ensures Size(n, e, k + 1) == Size(RoundUp(n, e), e, k)
  {
    if k > 0 { SizeShift(n, e, k - 1); }
  }

  lemma {:induction false} DepthLevels(n: nat, e: nat)
    requires e >= 2
    ensures Size(n, e, Depth(n, e)) <= 1
    ensures forall k | 0 <= k < Depth(n, e) :: Size(n, e, k) > 1
    ensures n > 0 ==> Size(n, e, Depth(n, e)) == 1
  {
    if n > 1 {
      CeilShrinks(n, e);
      DepthLevels(RoundUp(n, e), e);
      SizeShift(n, e, Depth(n, e) - 1);
      forall k | 0 <= k < Depth(n, e) ensures Size(n, e, k) > 1 {
        if k > 0 { SizeShift(n, e, k - 1); }
      }
    }
  }

  /** The depth is the least number of digits in base `e` that number every data page. */
  lemma DepthIsMinimal(n: nat, e: nat)
    requires e >= 2
    ensures n <= Pow(e, Depth(n, e))
    ensures forall k | 0 <= k < Depth(n, e) :: Pow(e, k) < n
  {
    DepthLevels(n, e);
    SizeAtMost(n, e, Depth(n, e), 1);
    forall k | 0 <= k < Depth(n, e) ensures Pow(e, k) < n { SizeAtMost(n, e, k, 1); }
  }

  function TotalPages(n: nat, e: nat): nat
    requires e >= 2
  {
    Base(n, e, Depth(n, e)) + 1
  }

  lemma {:induction false} BaseGrows(n: nat, e: nat, j: nat, k: nat)
    requires e >= 2 && j <= k
    ensures Base(n, e, j) <= Base(n, e, k)
    ensures j < k ==> Base(n, e, j) + Size(n, e, j) <= Base(n, e, k)
  {
    if j < k { BaseGrows(n, e, j, k - 1); }
  }

  // ---- Memory and the walk the firmware performs ----

  type Address = nat
  /** Coherent memory: the entries of each live page, by DMA address. */
  type Memory = map<Address, seq<Address>>

  /** `p` without its lowest `k` digits in base `e`. */
  function Prefix(p: nat, e: nat, k: nat): nat
    requires e >= 2
  {
    if k == 0 then p else Prefix(p, e, k - 1) / e
  }

  /** Digit `k` of `p`: the entry to follow in an indirection page of level k + 1. */
  function Digit(p: nat, e: nat, k: nat): nat
    requires e >= 2
  {
    Prefix(p, e, k) % e
  }

  /** The number that the lowest `k` digits of `p` write in base `e`. */
  function LowDigits(p: nat, e: nat, k: nat): nat
    requires e >= 2
  {
    if k == 0 then 0 else LowDigits(p, e, k - 1) + Digit(p, e, k - 1) * Pow(e, k - 1)
  }

  lemma SplitScaled(q: nat, e: nat, w: nat)
    requires e > 0
    ensures q * w == q / e * (e * w) + q % e * w
  {
    var d, r := q / e, q % e;
    assert q == d * e + r;
    Associative(d, e, w);
    assert (d * e + r) * w == d * e * w + r * w;
  }

  /** `Digit` is positional notation: with enough digits they write `p` itself. */
  lemma {:induction false} DigitsWriteNumber(p: nat, e: nat, k: nat)
    requires e >= 2
    ensures p == Prefix(p, e, k) * Pow(e, k) + LowDigits(p, e, k)
  {
    if k > 0 {
      DigitsWriteNumber(p, e, k - 1);
      SplitScaled(Prefix(p, e, k - 1), e, Pow(e, k - 1));
    }
  }

  function Walk(mem: Memory, page: Address, e: nat, depth: nat, p: nat): Option<Address>
    requires e >= 2
    decreases depth
  {
    if page !in mem then None
    else if depth == 0 then Some(page)
    else if Digit(p, e, depth - 1) >= |mem[page]| then None
    else Walk(mem, mem[page][Digit(p, e, depth - 1)], e, depth - 1, p)
  }

  /** Where the entry for page `t` of level `k` belongs: a page of level k + 1. */
  function ParentOf(n: nat, e: nat, k: nat, t: nat): nat
    requires e >= 2
  {
    Base(n, e, k) + Size(n, e, k) + t / e
  }

  ghost predicate LinkedAt(mem: Memory, pages: seq<Address>, n: nat, e: nat, k: nat, t: nat)
    requires e >= 2
  {
    && Base(n, e, k) + t < |pages| && ParentOf(n, e, k, t) < |pages|
    && pages[ParentOf(n, e, k, t)] in mem
    && t % e < |mem[pages[ParentOf(n, e, k, t)]]|
    && mem[pages[ParentOf(n, e, k, t)]][t % e] == pages[Base(n, e, k) + t]
  }

  /** The first `upTo` pages of level `k` are entered in their parents. */
  ghost predicate Linked(mem: Memory, pages: seq<Address>, n: nat, e: nat, k: nat, upTo: nat)
    requires e >= 2
  {
    forall t | 0 <= t < upTo :: LinkedAt(mem, pages, n, e, k, t)
  }

  ghost predicate LivePages(mem: Memory, pages: seq<Address>, e: nat) {
    && (forall i | 0 <= i < |pages| :: pages[i] in mem && |mem[pages[i]]| == e)
    && (forall i, j | 0 <= i < j < |pages| :: pages[i] != pages[j])
  }

  ghost predicate Tree(mem: Memory, pages: seq<Address>, n: nat, e: nat)
    requires e >= 2
  {
    && |pages| == TotalPages(n, e)
    && LivePages(mem, pages, e)
    && forall k | 0 <= k < Depth(n, e) :: Linked(mem, pages, n, e, k, Size(n, e, k))
  }

  lemma ParentInRange(size: nat, e: nat, t: nat)
    requires e >= 2 && t < size
    ensures t / e < RoundUp(size, e)
  {
    CeilAtMost(size, e, t / e);
    assert t == (t / e) * e + t % e;
  }

  lemma {:induction false} PrefixInRange(n: nat, e: nat, k: nat, p: nat)
    requires e >= 2 && p < n
    ensures Prefix(p, e, k) < Size(n, e, k)
  {
    if k > 0 {
      PrefixInRange(n, e, k - 1, p);
      ParentInRange(Size(n, e, k - 1), e, Prefix(p, e, k - 1));
    }
  }

  function PageAbove(n: nat, e: nat, k: nat, p: nat): nat
    requires e >= 2
  {
    Base(n, e, k) + Prefix(p, e, k)
  }

  lemma PageAboveInRange(n: nat, e: nat, k: nat, p: nat)
    requires e >= 2 && p < n && k <= Depth(n, e)
    ensures PageAbove(n, e, k, p) < TotalPages(n, e)
    ensures k == Depth(n, e) ==> PageAbove(n, e, k, p) == TotalPages(n, e) - 1
  {
    DepthLevels(n, e);
    PrefixInRange(n, e, k, p);
    BaseGrows(n, e, k, Depth(n, e));
  }

  /** From the page of level `k` above data page `p`, the remaining digits lead to `p`. */
  lemma {:induction false} WalkFromLevel(mem: Memory, pages: seq<Address>, n: nat, e: nat, k: nat, p: nat)
    requires e >= 2 && Tree(mem, pages, n, e) && p < n && k <= Depth(n, e)
    ensures p < |pages| && PageAbove(n, e, k, p) < |pages|
    ensures Walk(mem, pages[PageAbove(n, e, k, p)], e, k, p) == Some(pages[p])
  {
    PageAboveInRange(n, e, k, p);
    PageAboveInRange(n, e, 0, p);
    if k > 0 {
      PrefixInRange(n, e, k - 1, p);
      assert LinkedAt(mem, pages, n, e, k - 1, Prefix(p, e, k - 1));
      WalkFromLevel(mem, pages, n, e, k - 1, p);
    }
  }

  /** The walk from the root, by the base-e digits of `p`, reaches data page `p`. */
  lemma WalkReachesPage(mem: Memory, pages: seq<Address>, n: nat, e: nat, p: nat)
    requires e >= 2 && Tree(mem, pages, n, e) && p < n
    ensures p < |pages|
    ensures Walk(mem, pages[TotalPages(n, e) - 1], e, Depth(n, e), p) == Some(pages[p])
  {
    PageAboveInRange(n, e, Depth(n, e), p);
    WalkFromLevel(mem, pages, n, e, Depth(n, e), p);
  }
}
