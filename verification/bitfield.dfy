// Bit fields in little-endian words (bitfield.h): the 64-bit and the 32-bit forms of
// extract, populate and set, on hosts of either byte order.

module Bitfield {

  /** Bits, least significant first. Memory is the bits of its bytes in address order. */
  type Bits = seq<bool>

  datatype Host = Little | Big

  predicate ElementSize(e: nat) { e == 32 || e == 64 }

  function Base(e: nat, k: nat): nat
    requires ElementSize(e)
  {
    if e == 32 then 32 * k else 64 * k
  }

  lemma BaseNext(e: nat, k: nat)
    requires ElementSize(e)
    ensures Base(e, k + 1) == Base(e, k) + e
  {}

  // ---- Operators of the machine ----

  function Shr(v: Bits, n: nat): (r: Bits)
    ensures |r| == |v|
  {
    seq(|v|, i requires 0 <= i < |v| => i + n < |v| && v[i + n])
  }

  function Shl(v: Bits, n: nat): (r: Bits)
    ensures |r| == |v|
  {
    seq(|v|, i requires 0 <= i < |v| => i >= n && v[i - n])
  }

  function Or(a: Bits, b: Bits): (r: Bits)
    requires |a| == |b|
    ensures |r| == |a|
  {
    seq(|a|, i requires 0 <= i < |a| => a[i] || b[i])
  }

  function And(a: Bits, b: Bits): (r: Bits)
    requires |a| == |b|
    ensures |r| == |a|
  {
    seq(|a|, i requires 0 <= i < |a| => a[i] && b[i])
  }

  function Not(a: Bits): (r: Bits)
    ensures |r| == |a|
  {
    seq(|a|, i requires 0 <= i < |a| => !a[i])
  }

  function Zero(w: nat): (r: Bits)
    ensures |r| == w
  {
    seq(w, _ => false)
  }

  /** Conversion between unsigned types. */
  function Cast(v: Bits, w: nat): (r: Bits)
    ensures |r| == w
  {
    seq(w, i requires 0 <= i < w => i < |v| && v[i])
  }

  function SwapIndex(w: nat, i: nat): (j: nat)
    requires w % 8 == 0 && i < w
    ensures j < w
  {
    (w / 8 - 1 - i / 8) * 8 + i % 8
  }

  /** The bytes in the opposite order. */
  function ByteSwap(v: Bits): (r: Bits)
    requires |v| % 8 == 0
    ensures |r| == |v|
  {
    seq(|v|, i requires 0 <= i < |v| => v[SwapIndex(|v|, i)])
  }

  lemma SwapTwice(v: Bits)
    requires |v| % 8 == 0
    ensures ByteSwap(ByteSwap(v)) == v
  {
    forall i: nat | i < |v| ensures SwapIndex(|v|, SwapIndex(|v|, i)) == i {
      var j := SwapIndex(|v|, i);
      assert j / 8 == |v| / 8 - 1 - i / 8 && j % 8 == i % 8;
    }
  }

  /** le32_to_cpu and its relatives, in both directions. */
  function Le(host: Host, v: Bits): (r: Bits)
    requires |v| % 8 == 0
    ensures |r| == |v|
  {
    if host.Big? then ByteSwap(v) else v
  }

  /** The bits of element `k` in memory, in address order. */
  function Slice(e: nat, mem: Bits, k: nat): (r: Bits)
    requires ElementSize(e) && Base(e, k) + e <= |mem|
    ensures |r| == e
  {
    mem[Base(e, k)..Base(e, k) + e]
  }

  /** The register after loading element `k`. */
  function Load(host: Host, e: nat, mem: Bits, k: nat): (r: Bits)
    requires ElementSize(e) && Base(e, k) + e <= |mem|
    ensures |r| == e
  {
    Le(host, Slice(e, mem, k))
  }

  function Store(host: Host, e: nat, mem: Bits, k: nat, v: Bits): (r: Bits)
    requires ElementSize(e) && Base(e, k) + e <= |mem| && |v| == e
    ensures |r| == |mem|
  {
    mem[..Base(e, k)] + Le(host, v) + mem[Base(e, k) + e..]
  }

  lemma LoadedLittle(host: Host, e: nat, mem: Bits, k: nat)
    requires ElementSize(e) && Base(e, k) + e <= |mem|
    ensures Le(host, Load(host, e, mem, k)) == Slice(e, mem, k)
  {
    SwapTwice(Slice(e, mem, k));
  }

  // ---- Extracting ----

  function ExtractNative(v: Bits, min: nat, max: nat, low: nat, high: int): (r: Bits)
    ensures |r| == |v|
  {
    if low > max || high < min then Zero(|v|)
    else if low > min then Shr(v, low - min)
    else Shl(v, min - low)
  }

  function Mask(w: nat, width: nat): (r: Bits)
    ensures |r| == w
  {
    seq(w, i requires 0 <= i < w => i < width)
  }

  /** The or of what the first `upTo` elements contribute. */
  function ExtractUpTo(host: Host, e: nat, mem: Bits, low: nat, high: int, upTo: nat): (r: Bits)
    requires ElementSize(e) && Base(e, upTo) <= |mem|
    ensures |r| == e
    decreases upTo
  {
    if upTo == 0 then Zero(e)
    else
      var k := upTo - 1;
      Or(ExtractUpTo(host, e, mem, low, high, k),
         ExtractNative(Le(host, Load(host, e, mem, k)), Base(e, k), Base(e, k) + e - 1, low, high))
  }

  function Extract(host: Host, e: nat, n: nat, mem: Bits, low: nat, high: nat): (r: Bits)
    requires ElementSize(e) && |mem| == Base(e, n) && low <= high
    ensures |r| == e
  {
    And(ExtractUpTo(host, e, mem, low, high, n), Mask(e, high + 1 - low))
  }

  /** What one element contributes to bit `i` of the result, for bits inside the field. */
  lemma ExtractedBit(v: Bits, min: nat, low: nat, high: nat, i: nat)
    requires low <= high && high - low < |v| && i <= high - low
    ensures ExtractNative(v, min, min + |v| - 1, low, high)[i] <==> min <= low + i < min + |v| && v[low + i - min]
  {}

  lemma ExtractUnfold(host: Host, e: nat, mem: Bits, low: nat, high: nat, k: nat)
    requires ElementSize(e) && Base(e, k + 1) == Base(e, k) + e <= |mem|
    ensures ExtractUpTo(host, e, mem, low, high, k + 1) ==
            Or(ExtractUpTo(host, e, mem, low, high, k),
               ExtractNative(Slice(e, mem, k), Base(e, k), Base(e, k) + e - 1, low, high))
  {
    hide Or, ExtractNative, Base, Slice, Load, Le;
    LoadedLittle(host, e, mem, k);
  }

  lemma SliceAt(e: nat, mem: Bits, k: nat, p: nat)
    requires ElementSize(e) && Base(e, k) + e <= |mem|
    ensures Base(e, k) <= p < Base(e, k) + e ==> Slice(e, mem, k)[p - Base(e, k)] == mem[p]
  {}

  lemma {:induction false} ExtractedSoFar(host: Host, e: nat, mem: Bits, low: nat, high: nat, upTo: nat, i: nat)
    requires ElementSize(e) && Base(e, upTo) <= |mem| && low <= high && high - low < e && i <= high - low
    ensures ExtractUpTo(host, e, mem, low, high, upTo)[i] <==> low + i < Base(e, upTo) && mem[low + i]
    decreases upTo
  {
    hide ExtractUpTo, ExtractNative, Slice;
    if upTo > 0 {
      var k := upTo - 1;
      ExtractedSoFar(host, e, mem, low, high, k, i);
      ExtractUnfold(host, e, mem, low, high, k);
      ExtractedBit(Slice(e, mem, k), Base(e, k), low, high, i);
      SliceAt(e, mem, k, low + i);
    } else {
      ExtractedNone(host, e, mem, low, high, i);
    }
  }

  lemma ExtractedNone(host: Host, e: nat, mem: Bits, low: nat, high: nat, i: nat)
    requires ElementSize(e) && i < e
    ensures Base(e, 0) == 0 && !ExtractUpTo(host, e, mem, low, high, 0)[i]
  {}

  /** Extracting reads exactly the field's bits, for a field anywhere in the word, across
      element boundaries, on either host, in either form. */
  lemma ExtractIsField(host: Host, e: nat, n: nat, mem: Bits, low: nat, high: nat)
    requires ElementSize(e) && |mem| == Base(e, n) && low <= high < |mem| && high - low < e
    ensures Extract(host, e, n, mem, low, high) == Cast(mem[low..high + 1], e)
  {
    var r := Extract(host, e, n, mem, low, high);
    forall i: nat | i < e ensures r[i] == Cast(mem[low..high + 1], e)[i] {
      if i <= high - low { ExtractedSoFar(host, e, mem, low, high, n, i); }
    }
  }

  // ---- Inserting ----

  /** The C type in which a value is shifted. */
  function ShiftWidth(min: nat, max: nat, low: nat, high: int): nat {
    if max - min >= 32 || high - low >= 32 then 64 else 32
  }

  function InsertNative(min: nat, max: nat, low: nat, high: int, value: Bits): (r: Bits)
    requires |value| == 64
    ensures |r| == 64
  {
    var v := Cast(value, ShiftWidth(min, max, low, high));
    Cast(if low > max || high < min then Zero(64)
         else if low > min then Shl(v, low - min)
         else Shr(v, min - low), 64)
  }

  /** Bit `p` of the word as the inserted value sees it: value bit p - low, if the field
      reaches into the element that holds `p`. */
  predicate Inserted(e: nat, k: nat, low: nat, high: int, value: Bits, p: nat)
    requires ElementSize(e) && |value| == 64
  {
    var min, max := Base(e, k), Base(e, k) + e - 1;
    low <= max && high >= min && low <= p && p - low < ShiftWidth(min, max, low, high) && value[p - low]
  }

  lemma InsertedBit(e: nat, k: nat, low: nat, high: int, value: Bits, j: nat)
    requires ElementSize(e) && |value| == 64 && j < e
    ensures InsertNative(Base(e, k), Base(e, k) + e - 1, low, high, value)[j]
            <==> Inserted(e, k, low, high, value, Base(e, k) + j)
  {}

  // ---- Populating ----

  /** A named field: its lowest bit, its width, and the value to put there. Width zero is
      the dummy field that fills unused argument places. */
  datatype Field = Field(low: nat, width: nat, value: Bits)

  predicate Fits(f: Field) { |f.value| == 64 && f.width <= 64 && forall i | f.width <= i < 64 :: !f.value[i] }

  predicate AllFit(fields: seq<Field>) { forall i | 0 <= i < |fields| :: Fits(fields[i]) }

  function InsertFields(min: nat, max: nat, fields: seq<Field>): (r: Bits)
    requires AllFit(fields)
    ensures |r| == 64
  {
    if fields == [] then Zero(64)
    else Or(InsertFields(min, max, fields[..|fields| - 1]),
            var f := fields[|fields| - 1]; InsertNative(min, max, f.low, f.low + f.width - 1, f.value))
  }

  /** The first `upTo` elements assigned, in place. */
  function PopulateUpTo(host: Host, e: nat, mem: Bits, fields: seq<Field>, upTo: nat): (r: Bits)
    requires ElementSize(e) && Base(e, upTo) <= |mem| && AllFit(fields)
    ensures |r| == |mem|
    decreases upTo
  {
    if upTo == 0 then mem
    else
      var k := upTo - 1;
      Store(host, e, PopulateUpTo(host, e, mem, fields, k), k,
            Le(host, Cast(InsertFields(Base(e, k), Base(e, k) + e - 1, fields), e)))
  }

  /** Bit `p` of a word that holds these fields and nothing else. */
  predicate Holds(fields: seq<Field>, p: nat)
    requires AllFit(fields)
  {
    exists i :: 0 <= i < |fields| && fields[i].low <= p < fields[i].low + fields[i].width && fields[i].value[p - fields[i].low]
  }

  lemma InsertedInRange(e: nat, k: nat, f: Field, p: nat)
    requires ElementSize(e) && Fits(f) && Base(e, k) <= p < Base(e, k) + e
    ensures Inserted(e, k, f.low, f.low + f.width - 1, f.value, p)
            <==> f.low <= p < f.low + f.width && f.value[p - f.low]
  {}

  lemma HoldsOneMore(fields: seq<Field>, p: nat)
    requires AllFit(fields) && fields != []
    ensures var f := fields[|fields| - 1];
            Holds(fields, p) <==>
              Holds(fields[..|fields| - 1], p) || (f.low <= p < f.low + f.width && f.value[p - f.low])
  {
    var before := fields[..|fields| - 1];
    if Holds(fields, p) {
      var i :| 0 <= i < |fields| && fields[i].low <= p < fields[i].low + fields[i].width && fields[i].value[p - fields[i].low];
      if i < |before| { assert before[i] == fields[i]; }
    }
    if Holds(before, p) {
      var i :| 0 <= i < |before| && before[i].low <= p < before[i].low + before[i].width && before[i].value[p - before[i].low];
      assert fields[i] == before[i];
    }
  }

  lemma {:induction false} InsertedFields(e: nat, k: nat, fields: seq<Field>, j: nat)
    requires ElementSize(e) && AllFit(fields) && j < e
    ensures InsertFields(Base(e, k), Base(e, k) + e - 1, fields)[j] <==> Holds(fields, Base(e, k) + j)
    decreases |fields|
  {
    hide Holds, Inserted, InsertNative, Base;
    if fields != [] {
      var f := fields[|fields| - 1];
      InsertedFields(e, k, fields[..|fields| - 1], j);
      InsertedBit(e, k, f.low, f.low + f.width - 1, f.value, j);
      InsertedInRange(e, k, f, Base(e, k) + j);
      HoldsOneMore(fields, Base(e, k) + j);
    } else {
      NothingHeld(Base(e, k) + j);
    }
  }

  lemma NothingHeld(p: nat)
    ensures !Holds([], p)
  {}

  lemma StoredLittle(host: Host, e: nat, mem: Bits, k: nat, v: Bits)
    requires ElementSize(e) && Base(e, k) + e <= |mem| && |v| == e
    ensures Store(host, e, mem, k, Le(host, v)) == mem[..Base(e, k)] + v + mem[Base(e, k) + e..]
  {
    SwapTwice(v);
  }

  lemma StoredBit(host: Host, e: nat, mem: Bits, k: nat, v: Bits, p: nat)
    requires ElementSize(e) && Base(e, k) + e <= |mem| && |v| == e && p < |mem|
    ensures Store(host, e, mem, k, Le(host, v))[p] ==
            if Base(e, k) <= p < Base(e, k) + e then v[p - Base(e, k)] else mem[p]
  {
    hide Store, Le;
    StoredLittle(host, e, mem, k, v);
  }

  lemma {:induction false} PopulatedSoFar(host: Host, e: nat, mem: Bits, fields: seq<Field>, upTo: nat, p: nat)
    requires ElementSize(e) && Base(e, upTo) <= |mem| && AllFit(fields) && p < |mem|
    ensures PopulateUpTo(host, e, mem, fields, upTo)[p] <==> if p < Base(e, upTo) then Holds(fields, p) else mem[p]
    decreases upTo
  {
    hide Holds, Store, InsertFields, ByteSwap;
    if upTo > 0 {
      var k := upTo - 1;
      BaseNext(e, k);
      PopulatedSoFar(host, e, mem, fields, k, p);
      var v := Cast(InsertFields(Base(e, k), Base(e, k) + e - 1, fields), e);
      StoredBit(host, e, PopulateUpTo(host, e, mem, fields, k), k, v, p);
      hide Base;
      if Base(e, k) <= p < Base(e, k) + e { InsertedFields(e, k, fields, p - Base(e, k)); }
    }
  }

  /** Populating writes every bit of the word: a field's value where there is a field, zero
      elsewhere, whatever the element size, the host and the old content. */
  lemma PopulateIsFields(host: Host, e: nat, n: nat, mem: Bits, fields: seq<Field>, p: nat)
    requires ElementSize(e) && |mem| == Base(e, n) && AllFit(fields) && p < |mem|
    ensures PopulateUpTo(host, e, mem, fields, n)[p] <==> Holds(fields, p)
  {
    PopulatedSoFar(host, e, mem, fields, n, p);
  }

  /** Both forms give the same bytes on both kinds of host. */
  lemma PopulateFormsAgree(h1: Host, e1: nat, n1: nat, h2: Host, e2: nat, n2: nat, mem1: Bits, mem2: Bits, fields: seq<Field>)
    requires ElementSize(e1) && ElementSize(e2) && |mem1| == Base(e1, n1) == |mem2| == Base(e2, n2) && AllFit(fields)
    ensures PopulateUpTo(h1, e1, mem1, fields, n1) == PopulateUpTo(h2, e2, mem2, fields, n2)
  {
    forall p: nat | p < |mem1|
      ensures PopulateUpTo(h1, e1, mem1, fields, n1)[p] == PopulateUpTo(h2, e2, mem2, fields, n2)[p] {
      PopulateIsFields(h1, e1, n1, mem1, fields, p);
      PopulateIsFields(h2, e2, n2, mem2, fields, p);
    }
  }

  predicate Disjoint(fields: seq<Field>) {
    forall i, j | 0 <= i < j < |fields| ::
      fields[i].low + fields[i].width <= fields[j].low || fields[j].low + fields[j].width <= fields[i].low
  }

  /** Every populated field reads back, in either form and on either host. */
  lemma PopulateThenExtract(h1: Host, e1: nat, n1: nat, h2: Host, e2: nat, n2: nat, mem: Bits, fields: seq<Field>, i: nat)
    requires ElementSize(e1) && ElementSize(e2) && |mem| == Base(e1, n1) == Base(e2, n2)
    requires AllFit(fields) && Disjoint(fields) && i < |fields|
    requires 0 < fields[i].width <= e2 && fields[i].low + fields[i].width <= |mem|
    ensures Extract(h2, e2, n2, PopulateUpTo(h1, e1, mem, fields, n1), fields[i].low, fields[i].low + fields[i].width - 1)
            == Cast(fields[i].value, e2)
  {
    hide Extract, PopulateUpTo, Holds;
    var f, now := fields[i], PopulateUpTo(h1, e1, mem, fields, n1);
    ExtractIsField(h2, e2, n2, now, f.low, f.low + f.width - 1);
    forall j: nat | j < f.width ensures now[f.low + j] == f.value[j] {
      PopulateIsFields(h1, e1, n1, mem, fields, f.low + j);
      HeldByOne(fields, i, f.low + j);
    }
    SameLowBits(now, f, e2);
  }

  /** Inside a field, the other fields do not matter. */
  lemma HeldByOne(fields: seq<Field>, i: nat, p: nat)
    requires AllFit(fields) && Disjoint(fields) && i < |fields|
    requires fields[i].low <= p < fields[i].low + fields[i].width
    ensures Holds(fields, p) <==> fields[i].value[p - fields[i].low]
  {}

  lemma SameLowBits(mem: Bits, f: Field, e: nat)
    requires Fits(f) && 0 < f.width <= e && f.low + f.width <= |mem|
    requires forall j: nat | j < f.width :: mem[f.low + j] == f.value[j]
    ensures Cast(mem[f.low..f.low + f.width], e) == Cast(f.value, e)
  {
    var bits := mem[f.low..f.low + f.width];
    assert forall j: nat | j < f.width :: bits[j] == f.value[j];
  }

  // ---- Setting one field ----

  /** Element `k` of a read-modify-write: its old bits without the field's, or'ed with the
      inserted value. */
  function SetElement(host: Host, e: nat, mem: Bits, k: nat, low: nat, high: nat, value: Bits): (r: Bits)
    requires ElementSize(e) && Base(e, k) + e <= |mem| && low <= high && |value| == 64
    ensures |r| == |mem|
  {
    var min, max := Base(e, k), Base(e, k) + e - 1;
    var mask := Le(host, Cast(InsertNative(min, max, low, high, Mask(64, high + 1 - low)), e));
    var ins := Le(host, Cast(InsertNative(min, max, low, high, value), e));
    Store(host, e, mem, k, Or(And(Load(host, e, mem, k), Not(mask)), ins))
  }

  function SetUpTo(host: Host, e: nat, mem: Bits, low: nat, high: nat, value: Bits, upTo: nat): (r: Bits)
    requires ElementSize(e) && Base(e, upTo) <= |mem| && low <= high && |value| == 64
    ensures |r| == |mem|
    decreases upTo
  {
    if upTo == 0 then mem
    else SetElement(host, e, SetUpTo(host, e, mem, low, high, value, upTo - 1), upTo - 1, low, high, value)
  }

  /** Byte order does not matter to the bitwise operators. */
  lemma MergeLittle(host: Host, word: Bits, mask: Bits, ins: Bits)
    requires |word| == |mask| == |ins| && |word| % 8 == 0
    ensures Or(And(Le(host, word), Not(Le(host, mask))), Le(host, ins)) == Le(host, Or(And(word, Not(mask)), ins))
  {}

  lemma MaskInserted(e: nat, k: nat, low: nat, high: nat, p: nat)
    requires ElementSize(e) && low <= high && high - low < e && Base(e, k) <= p < Base(e, k) + e
    ensures Inserted(e, k, low, high, Mask(64, high + 1 - low), p) <==> low <= p <= high
  {}

  lemma FieldInserted(e: nat, k: nat, low: nat, high: nat, value: Bits, p: nat)
    requires ElementSize(e) && low <= high && high - low < e && Base(e, k) <= p < Base(e, k) + e && |value| == 64
    requires low <= p <= high
    ensures Inserted(e, k, low, high, value, p) <==> value[p - low]
  {}

  lemma SetElementBit(host: Host, e: nat, mem: Bits, k: nat, low: nat, high: nat, value: Bits, p: nat)
    requires ElementSize(e) && Base(e, k) + e <= |mem| && low <= high && high - low < e && |value| == 64 && p < |mem|
    ensures SetElement(host, e, mem, k, low, high, value)[p] <==>
            if Base(e, k) <= p < Base(e, k) + e
            then (mem[p] && !(low <= p <= high)) || Inserted(e, k, low, high, value, p)
            else mem[p]
  {
    hide Le, Store, InsertNative, Inserted;
    var min, max, word := Base(e, k), Base(e, k) + e - 1, Slice(e, mem, k);
    var mask := Cast(InsertNative(min, max, low, high, Mask(64, high + 1 - low)), e);
    var ins := Cast(InsertNative(min, max, low, high, value), e);
    MergeLittle(host, word, mask, ins);
    StoredBit(host, e, mem, k, Or(And(word, Not(mask)), ins), p);
    if min <= p <= max {
      InsertedBit(e, k, low, high, value, p - min);
      InsertedBit(e, k, low, high, Mask(64, high + 1 - low), p - min);
      MaskInserted(e, k, low, high, p);
    }
  }

  lemma {:induction false} SetSoFar(host: Host, e: nat, mem: Bits, low: nat, high: nat, value: Bits, upTo: nat, k: nat, p: nat)
    requires ElementSize(e) && Base(e, upTo) <= |mem| && low <= high && high - low < e && |value| == 64
    requires Base(e, k) <= p < Base(e, k) + e && p < |mem|
    ensures SetUpTo(host, e, mem, low, high, value, upTo)[p] <==>
            if k >= upTo then mem[p]
            else if low <= p <= high then value[p - low]
            else mem[p] || Inserted(e, k, low, high, value, p)
    decreases upTo
  {
    hide SetElement, Inserted;
    if upTo > 0 {
      BaseNext(e, upTo - 1);
      SetSoFar(host, e, mem, low, high, value, upTo - 1, k, p);
      SetElementBit(host, e, SetUpTo(host, e, mem, low, high, value, upTo - 1), upTo - 1, low, high, value, p);
      if low <= p <= high { FieldInserted(e, k, low, high, value, p); }
    }
  }

  function SetField(host: Host, e: nat, n: nat, mem: Bits, low: nat, high: nat, value: Bits): (r: Bits)
    requires ElementSize(e) && |mem| == Base(e, n) && low <= high && |value| == 64
    ensures |r| == |mem|
  {
    SetUpTo(host, e, mem, low, high, value, n)
  }

  predicate InRange(value: Bits, width: nat)
    requires |value| == 64
  {
    forall i | width <= i < 64 :: !value[i]
  }

  /** Setting a field, for any value: the field takes the value's low bits. A value too
      wide for the field is not cut off; its excess is or'ed into the bits above the field,
      as far as the element reaches. */
  lemma SetEveryBit(host: Host, e: nat, n: nat, mem: Bits, low: nat, high: nat, value: Bits, k: nat, p: nat)
    requires ElementSize(e) && |mem| == Base(e, n) && low <= high && high - low < e && |value| == 64
    requires Base(e, k) <= p < Base(e, k) + e && k < n && p < |mem|
    ensures SetField(host, e, n, mem, low, high, value)[p] <==>
            if low <= p <= high then value[p - low] else mem[p] || Inserted(e, k, low, high, value, p)
  {
    SetSoFar(host, e, mem, low, high, value, n, k, p);
  }

  function ElementOf(e: nat, p: nat): (k: nat)
    requires ElementSize(e)
    ensures Base(e, k) <= p < Base(e, k) + e
  {
    if e == 32 then p / 32 else p / 64
  }

  /** The word with the field replaced and every other bit as before. */
  function Replaced(mem: Bits, low: nat, high: nat, value: Bits): (r: Bits)
    requires low <= high < |mem| && high - low < |value|
    ensures |r| == |mem|
  {
    mem[..low] + value[..high + 1 - low] + mem[high + 1..]
  }

  lemma SetBitIn(host: Host, e: nat, n: nat, mem: Bits, low: nat, high: nat, value: Bits, p: nat)
    requires ElementSize(e) && |mem| == Base(e, n) && low <= high < |mem| && high - low < e && |value| == 64 && p < |mem|
    ensures SetField(host, e, n, mem, low, high, value)[p] <==>
            Replaced(mem, low, high, value)[p] || (p > high && Inserted(e, ElementOf(e, p), low, high, value, p))
  {
    hide Inserted, SetField;
    SetEveryBit(host, e, n, mem, low, high, value, ElementOf(e, p), p);
    InsertedAbove(e, ElementOf(e, p), low, high, value, p);
  }

  lemma InsertedAbove(e: nat, k: nat, low: nat, high: nat, value: Bits, p: nat)
    requires ElementSize(e) && |value| == 64
    ensures Inserted(e, k, low, high, value, p) ==> low <= p
  {}

  /** A read-modify-write replaces the field and nothing else exactly when no excess bit of
      the value meets a zero bit above the field. */
  lemma SetReplacesIff(host: Host, e: nat, n: nat, mem: Bits, low: nat, high: nat, value: Bits)
    requires ElementSize(e) && |mem| == Base(e, n) && low <= high < |mem| && high - low < e && |value| == 64
    ensures SetField(host, e, n, mem, low, high, value) == Replaced(mem, low, high, value) <==>
            forall p | high < p < |mem| :: Inserted(e, ElementOf(e, p), low, high, value, p) ==> mem[p]
  {
    hide Inserted, SetField, ElementOf;
    var r, want := SetField(host, e, n, mem, low, high, value), Replaced(mem, low, high, value);
    forall p: nat | p < |mem|
      ensures r[p] <==> want[p] || (p > high && Inserted(e, ElementOf(e, p), low, high, value, p)) {
      SetBitIn(host, e, n, mem, low, high, value, p);
    }
    assert forall p | high < p < |mem| :: want[p] == mem[p];
    if r == want {
      forall p | high < p < |mem| && Inserted(e, ElementOf(e, p), low, high, value, p) ensures mem[p] { assert r[p]; }
    }
  }

  lemma InRangeStaysIn(e: nat, k: nat, low: nat, high: nat, value: Bits, p: nat)
    requires ElementSize(e) && low <= high && |value| == 64 && InRange(value, high + 1 - low) && p > high
    ensures !Inserted(e, k, low, high, value, p)
  {}

  /** For values that fit, setting replaces the field, both forms and hosts agree, and
      extracting gives the value back. */
  lemma SetThenExtract(h1: Host, e1: nat, n1: nat, h2: Host, e2: nat, n2: nat, mem: Bits, low: nat, high: nat, value: Bits)
    requires ElementSize(e1) && ElementSize(e2) && |mem| == Base(e1, n1) == Base(e2, n2)
    requires low <= high < |mem| && high - low < e1 && high - low < e2 && |value| == 64 && InRange(value, high + 1 - low)
    ensures SetField(h1, e1, n1, mem, low, high, value) == Replaced(mem, low, high, value)
    ensures Extract(h2, e2, n2, SetField(h1, e1, n1, mem, low, high, value), low, high) == Cast(value, e2)
  {
    hide Inserted, SetField, ElementOf, Extract;
    forall p | high < p < |mem| ensures !Inserted(e1, ElementOf(e1, p), low, high, value, p) {
      InRangeStaysIn(e1, ElementOf(e1, p), low, high, value, p);
    }
    SetReplacesIff(h1, e1, n1, mem, low, high, value);
    var now := Replaced(mem, low, high, value);
    ExtractIsField(h2, e2, n2, now, low, high);
    assert now[low..high + 1] == value[..high + 1 - low];
  }

  // ---- In place ----

  /** Assigning one element of the union. */
  method StoreElement(host: Host, e: nat, mem: array<bool>, k: nat, v: Bits)
    requires ElementSize(e) && Base(e, k) + e <= mem.Length && |v| == e
    modifies mem
    ensures mem[..] == Store(host, e, old(mem[..]), k, v)
  {
    var bytes, base := Le(host, v), Base(e, k);
    hide Le, Base;
    ghost var was := mem[..];
    for j := 0 to e
      invariant forall p | 0 <= p < mem.Length :: mem[p] == if base <= p < base + j then bytes[p - base] else was[p]
    {
      mem[base + j] := bytes[j];
    }
    var stored := was[..base] + bytes + was[base + e..];
    assert forall p | 0 <= p < mem.Length :: mem[..][p] == stored[p];
  }

  /** Populating in place, element by element. */
  method Populate(host: Host, e: nat, n: nat, mem: array<bool>, fields: seq<Field>)
    requires ElementSize(e) && mem.Length == Base(e, n) && AllFit(fields)
    modifies mem
    ensures forall p | 0 <= p < mem.Length :: mem[p] <==> Holds(fields, p)
  {
    ghost var was := mem[..];
    for k := 0 to n
      invariant Base(e, k) <= mem.Length && mem[..] == PopulateUpTo(host, e, was, fields, k)
    {
      BaseBound(e, k, n);
      PopulatedNext(host, e, was, fields, k);
      hide PopulateUpTo, Store, Le, InsertFields, Base, AllFit;
      StoreElement(host, e, mem, k, Le(host, Cast(InsertFields(Base(e, k), Base(e, k) + e - 1, fields), e)));
    }
    forall p: nat | p < mem.Length ensures mem[..][p] <==> Holds(fields, p) {
      PopulateIsFields(host, e, n, was, fields, p);
    }
  }

  lemma BaseBound(e: nat, k: nat, n: nat)
    requires ElementSize(e) && k < n
    ensures Base(e, k + 1) == Base(e, k) + e <= Base(e, n) && e > 0 && e % 8 == 0
  {}

  lemma PopulatedNext(host: Host, e: nat, mem: Bits, fields: seq<Field>, k: nat)
    requires ElementSize(e) && Base(e, k + 1) == Base(e, k) + e <= |mem| && AllFit(fields)
    ensures PopulateUpTo(host, e, mem, fields, k + 1) ==
            Store(host, e, PopulateUpTo(host, e, mem, fields, k), k,
                  Le(host, Cast(InsertFields(Base(e, k), Base(e, k) + e - 1, fields), e)))
  {}

  method SetElementInPlace(host: Host, e: nat, mem: array<bool>, k: nat, low: nat, high: nat, value: Bits)
    requires ElementSize(e) && Base(e, k) + e <= mem.Length && low <= high && |value| == 64
    modifies mem
    ensures mem[..] == SetElement(host, e, old(mem[..]), k, low, high, value)
  {
    hide Store, Le, InsertNative;
    var min, max := Base(e, k), Base(e, k) + e - 1;
    var mask := Le(host, Cast(InsertNative(min, max, low, high, Mask(64, high + 1 - low)), e));
    var ins := Le(host, Cast(InsertNative(min, max, low, high, value), e));
    var word := Le(host, mem[min..min + e]);
    assert mem[min..min + e] == Slice(e, mem[..], k);
    StoreElement(host, e, mem, k, Or(And(word, Not(mask)), ins));
  }

  /** Setting a field in place. */
  method Set(host: Host, e: nat, n: nat, mem: array<bool>, low: nat, high: nat, value: Bits)
    requires ElementSize(e) && mem.Length == Base(e, n) && low <= high < mem.Length && high - low < e && |value| == 64
    modifies mem
    ensures mem[..] == SetField(host, e, n, old(mem[..]), low, high, value)
    ensures InRange(value, high + 1 - low) ==> mem[..] == Replaced(old(mem[..]), low, high, value)
  {
    ghost var was := mem[..];
    hide SetElement, Replaced, InRange;
    for k := 0 to n
      invariant Base(e, k) <= mem.Length && mem[..] == SetUpTo(host, e, was, low, high, value, k)
    {
      BaseBound(e, k, n);
      SetElementInPlace(host, e, mem, k, low, high, value);
    }
    if InRange(value, high + 1 - low) { SetThenExtract(host, e, n, host, e, n, was, low, high, value); }
  }
}
