// Positions that only count up, and the ring slots they use.

module RingIndex {
  /** The slot of position `p` in a ring of `n`: p % n, written without division. */
  function Idx(n: nat, p: nat): (i: nat)
    requires n > 0
    ensures i < n
  {
    if p < n then p else Idx(n, p - n)
  }

  lemma {:induction false} IdxIsRemainder(n: nat, p: nat) returns (q: nat)
    requires n > 0
    ensures p == q * n + Idx(n, p)
  {
    if p < n {
      q := 0;
    } else {
      q := IdxIsRemainder(n, p - n);
      assert (q + 1) * n == q * n + n;
      q := q + 1;
    }
  }

  /** Advancing an index with a wrap test follows the position. */
  lemma {:induction false} IdxNext(n: nat, p: nat)
    requires n > 0
    ensures Idx(n, p + 1) == if Idx(n, p) + 1 >= n then 0 else Idx(n, p) + 1
  {
    if p >= n { IdxNext(n, p - n); }
  }

  lemma {:induction false} IdxLap(n: nat, p: nat)
    requires n > 0
    ensures Idx(n, p + n) == Idx(n, p)
  {}

  lemma {:induction false} IdxAdd(n: nat, p: nat, d: nat)
    requires n > 0
    ensures Idx(n, Idx(n, p) + d) == Idx(n, p + d)
  {
    if p >= n { IdxAdd(n, p - n, d); }
  }

  /** Moving less than a lap wraps at most once. */
  lemma {:induction false} IdxShift(n: nat, p: nat, d: nat)
    requires d < n
    ensures Idx(n, p + d) == if Idx(n, p) + d < n then Idx(n, p) + d else Idx(n, p) + d - n
    ensures Idx(n, 0) == 0
  {
    IdxAdd(n, p, d);
  }

  /** Positions less than a lap apart use different slots. */
  lemma {:induction false} IdxDistinct(n: nat, p: nat, q: nat)
    requires n > 0 && p < q < p + n
    ensures Idx(n, p) != Idx(n, q)
  {
    if p >= n { IdxDistinct(n, p - n, q - n); }
  }

  /** Every slot is used by exactly one position of any lap. */
  lemma {:induction false} IdxOnto(n: nat, p: nat, i: nat) returns (q: nat)
    requires n > 0 && i < n
    ensures p <= q < p + n && Idx(n, q) == i
    ensures forall o | p <= o < p + n && Idx(n, o) == i :: o == q
  {
    if Idx(n, p) <= i {
      q := p + (i - Idx(n, p));
      IdxAdd(n, p, i - Idx(n, p));
    } else {
      q := p + (n - Idx(n, p) + i);
      IdxAdd(n, p, n - Idx(n, p) + i);
      assert Idx(n, n + i) == i;
    }
    forall o | p <= o < p + n && Idx(n, o) == i ensures o == q {
      if o < q { IdxDistinct(n, o, q); }
      if q < o { IdxDistinct(n, q, o); }
    }
  }

  lemma {:induction false} WholeLapsVanish(c: nat, n: nat, p: nat)
    requires c > 0 && Idx(c, n) == 0
    ensures Idx(c, p + n) == Idx(c, p)
  {
    if n >= c {
      WholeLapsVanish(c, n - c, p);
      IdxLap(c, p + (n - c));
    }
  }

  /** A coarser remainder does not change a finer one. */
  lemma {:induction false} IdxOfIdx(n: nat, c: nat, p: nat)
    requires n > 0 && c > 0 && Idx(c, n) == 0
    ensures Idx(c, Idx(n, p)) == Idx(c, p)
  {
    if p >= n {
      IdxOfIdx(n, c, p - n);
      WholeLapsVanish(c, n, p - n);
    }
  }

  lemma {:induction false} IdxBelow(c: nat, p: nat)
    requires c > 0
    ensures Idx(c, p) <= p && Idx(c, p - Idx(c, p)) == 0
  {
    if p >= c { IdxBelow(c, p - c); }
  }

  // ---- The kernel's CIRC_SPACE ----

  /** Bitwise and of two unsigned numbers. */
  function And(x: nat, y: nat): nat {
    if x == 0 || y == 0 then 0
    else (if x % 2 == 1 && y % 2 == 1 then 1 else 0) + 2 * And(x / 2, y / 2)
  }

  const WORD := 0x1_0000_0000

  /** `(tail - (head + 1)) & (size - 1)` on unsigned 32-bit numbers. */
  function CircSpace(head: nat, tail: nat, size: nat): nat
    requires head < WORD && 0 < size
  {
    And(if tail >= head + 1 then tail - (head + 1) else tail + WORD - (head + 1), size - 1)
  }

  predicate AllOnes(m: nat) { m == 0 || (m % 2 == 1 && AllOnes(m / 2)) }

  predicate PowerOfTwo(n: nat) { n > 0 && AllOnes(n - 1) }

  lemma {:induction false} IdxDouble(w: nat, x: nat)
    requires w > 0
    ensures Idx(2 * w, x) == x % 2 + 2 * Idx(w, x / 2)
  {
    if x >= 2 * w {
      IdxDouble(w, x - 2 * w);
      assert (x - 2 * w) / 2 == x / 2 - w;
    }
  }

  /** Masking with size - 1 is the remainder, for a power of two. */
  lemma {:induction false} MaskIsRemainder(x: nat, n: nat)
    requires PowerOfTwo(n)
    ensures And(x, n - 1) == Idx(n, x)
  {
    if n > 1 {
      assert n % 2 == 0 && (n - 1) / 2 == n / 2 - 1;
      MaskIsRemainder(x / 2, n / 2);
      IdxDouble(n / 2, x);
      if x == 0 { assert Idx(n, x) == 0; }
    } else {
      IdxOne(x);
    }
  }

  lemma {:induction false} IdxOne(x: nat)
    ensures Idx(1, x) == 0
  {}

  /** A power of two up to 2^32 divides it, so wrapping at 2^32 does not show in the mask. */
  lemma {:induction false} WordIsWholeLaps(n: nat, word: nat, d: nat)
    requires PowerOfTwo(n) && PowerOfTwo(word) && n <= word
    ensures Idx(n, word + d) == Idx(n, d)
  {
    if n == word {
      IdxLap(n, d);
    } else {
      assert word % 2 == 0 && (word - 1) / 2 == word / 2 - 1;
      HalfWord(n, word);
      WordIsWholeLaps(n, word / 2, word / 2 + d);
      WordIsWholeLaps(n, word / 2, d);
    }
  }

  lemma {:induction false} HalfWord(n: nat, word: nat)
    requires PowerOfTwo(n) && PowerOfTwo(word) && n < word
    ensures word % 2 == 0 && PowerOfTwo(word / 2) && n <= word / 2
  {
    assert (word - 1) / 2 == word / 2 - 1;
    if n > 1 {
      assert (n - 1) / 2 == n / 2 - 1 && n % 2 == 0;
      if word > 2 { HalfWord2(n, word); }
    }
  }

  lemma {:induction false} HalfWord2(n: nat, word: nat)
    requires PowerOfTwo(n) && PowerOfTwo(word) && 1 < n < word
    ensures n <= word / 2
  {
    assert n % 2 == 0 && word % 2 == 0;
    assert (n - 1) / 2 == n / 2 - 1 && (word - 1) / 2 == word / 2 - 1;
    if n / 2 > 1 { HalfWord2(n / 2, word / 2); }
  }

  /** With `used` of the `n` slots taken, CIRC_SPACE leaves one slot unused. It does not
      matter whether the consumer index has already been wrapped from n to 0. */
  lemma {:induction false} CircSpaceExact(n: nat, c: nat, t: nat, consumer: nat)
    requires PowerOfTwo(n) && n <= WORD && c <= t < c + n
    requires consumer == Idx(n, c) || (consumer == n && Idx(n, c) == 0)
    ensures CircSpace(Idx(n, t), consumer, n) == n - 1 - (t - c)
  {
    hide Idx, And, AllOnes;
    var h, used := Idx(n, t), t - c;
    IdxShift(n, c, used);
    IdxShift(n, 0, n - 1 - used);
    if consumer >= h + 1 {
      MaskIsRemainder(consumer - (h + 1), n);
    } else {
      WordIsPowerOfTwo();
      MaskIsRemainder(consumer + WORD - (h + 1), n);
      WordIsWholeLaps(n, WORD, n - 1 - used);
      IdxLap(n, WORD - used - 1);
    }
  }

  lemma WordIsPowerOfTwo()
    ensures PowerOfTwo(WORD)
  {
    assert AllOnes(0xff);
    assert AllOnes(0xffff);
    assert AllOnes(0xff_ffff);
    assert AllOnes(0xffff_ffff);
  }

  /** How much room a consumer index `c` and a producer index `h` below n leave. */
  function Room(n: nat, h: nat, c: nat): int
    requires h < n && c < n
  {
    if h >= c then n - 1 - (h - c) else c - h - 1
  }

  /** CIRC_SPACE measures a ring correctly exactly when its size is a power of two. */
  lemma CircSpaceNeedsPowerOfTwo(n: nat)
    requires 0 < n <= WORD
    ensures PowerOfTwo(n) <==> forall h, c | 0 <= h < n && 0 <= c < n :: CircSpace(h, c, n) == Room(n, h, c)
  {
    if PowerOfTwo(n) {
      forall h, c | 0 <= h < n && 0 <= c < n ensures CircSpace(h, c, n) == Room(n, h, c) {
        var t := if h >= c then h else h + n;
        assert Idx(n, t) == h && Idx(n, c) == c;
        CircSpaceExact(n, c, t, c);
      }
    } else {
      var x := MaskLosesBit(n - 1);
      assert CircSpace(0, x + 1, n) == And(x, n - 1) != Room(n, 0, x + 1);
    }
  }

  lemma {:induction false} MaskLosesBit(m: nat) returns (x: nat)
    requires !AllOnes(m)
    ensures 0 < x < m && And(x, m) != x
  {
    if m % 2 == 0 {
      x := 1;
      assert And(0, m / 2) == 0;
    } else {
      x := MaskLosesBit(m / 2);
      x := 2 * x;
    }
  }
}
