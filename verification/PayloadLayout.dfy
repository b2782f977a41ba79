/** Byte sizes of types, and where an enum variant's fields lie in the payload all variants share. */
module PayloadLayout {
  import opened Wrappers
  import opened Types
  import Decimal
  import Mangling

  type Byte = bv8

  // ---------- Sizes ----------

  ghost predicate MultipleOf(x: nat, a: nat)
  {
    exists q: nat :: x == q * a
  }

  /** The next multiple of `a`. */
  function AlignTo(x: nat, a: nat): (r: nat)
    requires a > 0
    ensures x <= r < x + a && MultipleOf(r, a)
  {
    var q := (x + a - 1) / a;
    assert (x + a - 1) == q * a + (x + a - 1) % a;
    q * a
  }

  lemma MultiplesApart(p: nat, q: nat, a: nat)
    requires p < q
    ensures q * a >= p * a + a
  {
    var d: nat := q - p - 1;
    assert q * a == p * a + d * a + a;
    assert d * a >= 0;
  }

  /** There is one multiple of `a` in reach. */
  lemma AlignIsUnique(x: nat, a: nat, r: nat)
    requires a > 0 && MultipleOf(r, a) && x <= r < x + a
    ensures r == AlignTo(x, a)
  {
    SameMultiple(x, a, r, AlignTo(x, a));
  }

  lemma SameMultiple(x: nat, a: nat, r: nat, r': nat)
    requires MultipleOf(r, a) && MultipleOf(r', a) && x <= r < x + a && x <= r' < x + a
    ensures r == r'
  {
    var p: nat :| r == p * a;
    var q: nat :| r' == q * a;
    if p < q {
      MultiplesApart(p, q, a);
    } else if q < p {
      MultiplesApart(q, p, a);
    }
  }

  function Max(a: nat, b: nat): nat { if a < b then b else a }

  /** The size of a type in bytes.  Types that should not exist by now have none, nor do types with a field of
      size zero: there is no aligning to zero. */
  function SizeOf(t: Type): Option<nat>
    decreases t, 1
  {
    match t
    case Basic(kind) =>
      (match kind
       case I32 | U32 | Integer | F32 => Some(4)
       case I64 | U64 | F64 | Flt => Some(8)
       case Bool | Char => Some(1)
       case Unit => Some(0)
       case Never | NonExistent | Generic => None)
    case Str(_) => Some(8)
    case Pointer(_, _) => Some(8)
    case Function(_, _, _) => Some(16)
    case Array(element, n) => if SizeOf(element).Some? then Some(SizeOf(element).value * n) else None
    case Struct(_, _, fields) => AggregateSize(fields)
    case Tuple(elements) => AggregateSize(elements)
    case Enum(_, variants, integerBacked, backing) =>
      if integerBacked then Some(if backing == I64 || backing == U64 then 8 else 4)
      else if LargestPayload(variants, 0).Some? then Some(4 + LargestPayload(variants, 0).value)
      else None
    case Poisoned(_) => None
    case TypeParam(_) => None
  }

  /** A number's type is named after its size in bits. */
  lemma NamedAfterSize(kind: Prim)
    requires kind in {I32, I64, U32, U64, F32, F64}
    ensures SizeOf(Basic(kind)).Some?
    ensures Mangling.ShowPrim(kind)[1..] == Decimal.Show(8 * SizeOf(Basic(kind)).value)
  {
    assert Decimal.Show(3) == "3" && Decimal.Show(6) == "6";
    assert Decimal.Show(32) == "32" && Decimal.Show(64) == "64";
  }

  /** An enum backed by integers is as wide as the integers; one without payloads takes what its tag takes. */
  lemma EnumSizes(name: string, variants: seq<Variant>, backing: Prim)
    ensures backing in {I32, U32, I64, U64} ==> SizeOf(Enum(name, variants, true, backing)) == SizeOf(Basic(backing))
    ensures LargestPayload(variants, 0) == Some(0) ==> SizeOf(Enum(name, variants, false, backing)) == SizeOf(Basic(I32))
  {
  }

  /** Two arrays next to each other take what one takes that has the elements of both. */
  lemma ArraySizesAdd(element: Type, m: nat, n: nat)
    requires SizeOf(element).Some?
    ensures SizeOf(Array(element, 1)) == SizeOf(element)
    ensures SizeOf(Array(element, m + n)).Some? && SizeOf(Array(element, m)).Some? && SizeOf(Array(element, n)).Some?
    ensures SizeOf(Array(element, m + n)).value == SizeOf(Array(element, m)).value + SizeOf(Array(element, n)).value
  {
    var size := SizeOf(element).value;
    assert size * (m + n) == size * m + size * n;
  }

  /** Where fields end that are laid out from `from` on, each aligned to its own size. */
  function End(fields: seq<Type>, from: nat): Option<nat>
    decreases fields, 0
  {
    if fields == [] then Some(from)
    else
      var size := SizeOf(fields[0]);
      if size.None? || size.value == 0 then None else End(fields[1..], AlignTo(from, size.value) + size.value)
  }

  /** The largest of the fields' sizes and `acc`. */
  function LargestField(fields: seq<Type>, acc: nat): Option<nat>
    decreases fields, 0
  {
    if fields == [] then Some(acc)
    else if SizeOf(fields[0]).None? then None
    else LargestField(fields[1..], Max(acc, SizeOf(fields[0]).value))
  }

  /** Structs and tuples are padded to a multiple of their largest field. */
  function AggregateSize(fields: seq<Type>): Option<nat>
    decreases fields, 1
  {
    var end := End(fields, 0);
    if end.None? || fields == [] then end
    else
      var largest := LargestField(fields, 0);
      if largest.None? || largest.value == 0 then None else Some(AlignTo(end.value, largest.value))
  }

  /** The largest of the variants' payload sizes and `acc`. */
  function LargestPayload(variants: seq<Variant>, acc: nat): Option<nat>
    decreases variants, 0
  {
    if variants == [] then Some(acc)
    else if End(variants[0].payload, 0).None? then None
    else LargestPayload(variants[1..], Max(acc, End(variants[0].payload, 0).value))
  }

  function PayloadSize(variants: seq<Variant>): Option<nat>
  {
    LargestPayload(variants, 0)
  }

  // ---------- Offsets ----------

  function Offsets(fields: seq<Type>, from: nat): (offsets: seq<nat>)
    requires End(fields, from).Some?
    ensures |offsets| == |fields|
  {
    if fields == [] then []
    else
      var size := SizeOf(fields[0]).value;
      [AlignTo(from, size)] + Offsets(fields[1..], AlignTo(from, size) + size)
  }

  /** Every field has a size and lies within the range, aligned to its size. */
  ghost predicate Placed(fields: seq<Type>, offsets: seq<nat>, from: nat, end: nat)
    requires |offsets| == |fields|
  {
    forall i | 0 <= i < |fields| ::
      && SizeOf(fields[i]).Some? && SizeOf(fields[i]).value > 0
      && from <= offsets[i] && offsets[i] + SizeOf(fields[i]).value <= end
      && MultipleOf(offsets[i], SizeOf(fields[i]).value)
  }

  /** Fields follow each other without overlap, and with less padding than the size of the later one. */
  predicate Consecutive(fields: seq<Type>, offsets: seq<nat>)
    requires |offsets| == |fields| && forall i | 0 <= i < |fields| :: SizeOf(fields[i]).Some?
  {
    && (forall i, j | 0 <= i < j < |fields| :: offsets[i] + SizeOf(fields[i]).value <= offsets[j])
    && (forall i, j | 0 <= i && j == i + 1 < |fields| ::
          offsets[j] < offsets[i] + SizeOf(fields[i]).value + SizeOf(fields[j]).value)
  }

  lemma {:induction false} EndGrows(fields: seq<Type>, from: nat)
    requires End(fields, from).Some?
    ensures End(fields, from).value >= from
  {
    if fields != [] {
      var size := SizeOf(fields[0]).value;
      EndGrows(fields[1..], AlignTo(from, size) + size);
    }
  }

  lemma {:induction false} OffsetsPlaced(fields: seq<Type>, from: nat)
    requires End(fields, from).Some?
    ensures Placed(fields, Offsets(fields, from), from, End(fields, from).value)
  {
    if fields != [] {
      var size := SizeOf(fields[0]).value;
      var next := AlignTo(from, size) + size;
      EndGrows(fields[1..], next);
      OffsetsPlaced(fields[1..], next);
      assert forall i | 0 < i < |fields| :: fields[i] == fields[1..][i - 1];
    }
  }

  lemma {:induction false} NextOffset(fields: seq<Type>, from: nat, i: nat)
    requires End(fields, from).Some? && 0 < i < |fields|
    ensures SizeOf(fields[i]).Some? && SizeOf(fields[i]).value > 0 && SizeOf(fields[i - 1]).Some?
    ensures Offsets(fields, from)[i]
         == AlignTo(Offsets(fields, from)[i - 1] + SizeOf(fields[i - 1]).value, SizeOf(fields[i]).value)
  {
    var size := SizeOf(fields[0]).value;
    if i > 1 {
      NextOffset(fields[1..], AlignTo(from, size) + size, i - 1);
    }
  }

  lemma {:induction false} OffsetsApart(fields: seq<Type>, from: nat, i: nat, j: nat)
    requires End(fields, from).Some? && i < j < |fields|
    ensures SizeOf(fields[i]).Some? && Offsets(fields, from)[i] + SizeOf(fields[i]).value <= Offsets(fields, from)[j]
    decreases j - i
  {
    NextOffset(fields, from, j);
    if i < j - 1 {
      OffsetsApart(fields, from, i, j - 1);
    }
  }

  lemma OffsetsConsecutive(fields: seq<Type>, from: nat)
    requires End(fields, from).Some? && forall i | 0 <= i < |fields| :: SizeOf(fields[i]).Some?
    ensures Consecutive(fields, Offsets(fields, from))
  {
    var offsets := Offsets(fields, from);
    forall i, j | 0 <= i < j < |fields| ensures offsets[i] + SizeOf(fields[i]).value <= offsets[j] {
      OffsetsApart(fields, from, i, j);
    }
    forall i, j | 0 <= i && j == i + 1 < |fields|
      ensures offsets[j] < offsets[i] + SizeOf(fields[i]).value + SizeOf(fields[j]).value
    {
      NextOffset(fields, from, j);
    }
  }

  lemma {:induction false} LastEnds(fields: seq<Type>, from: nat)
    requires End(fields, from).Some? && fields != []
    ensures SizeOf(fields[|fields| - 1]).Some?
    ensures Offsets(fields, from)[|fields| - 1] + SizeOf(fields[|fields| - 1]).value == End(fields, from).value
  {
    var size := SizeOf(fields[0]).value;
    if |fields| > 1 {
      LastEnds(fields[1..], AlignTo(from, size) + size);
    }
  }

  /** Fields are aligned, do not overlap, and the last one ends where the payload does. */
  lemma OffsetsLaidOut(fields: seq<Type>, from: nat)
    requires End(fields, from).Some?
    ensures var offsets := Offsets(fields, from);
            && Placed(fields, offsets, from, End(fields, from).value) && Consecutive(fields, offsets)
            && (fields != [] ==> offsets[|fields| - 1] + SizeOf(fields[|fields| - 1]).value == End(fields, from).value)
            && (fields != [] ==> offsets[0] == AlignTo(from, SizeOf(fields[0]).value))
  {
    OffsetsPlaced(fields, from);
    OffsetsConsecutive(fields, from);
    if fields != [] {
      LastEnds(fields, from);
    }
  }

  lemma {:induction false} LargestAtLeast(variants: seq<Variant>, acc: nat)
    requires LargestPayload(variants, acc).Some?
    ensures LargestPayload(variants, acc).value >= acc
  {
    if variants != [] {
      LargestAtLeast(variants[1..], Max(acc, End(variants[0].payload, 0).value));
    }
  }

  /** Every variant's payload fits into the shared one. */
  lemma {:induction false} PayloadFits(variants: seq<Variant>, acc: nat, k: nat)
    requires LargestPayload(variants, acc).Some? && k < |variants|
    ensures End(variants[k].payload, 0).Some?
    ensures End(variants[k].payload, 0).value <= LargestPayload(variants, acc).value
  {
    var next := Max(acc, End(variants[0].payload, 0).value);
    if k > 0 {
      PayloadFits(variants[1..], next, k - 1);
    } else {
      LargestAtLeast(variants[1..], next);
    }
  }

  /** The shared payload is no larger than some variant needs. */
  lemma {:induction false} PayloadTight(variants: seq<Variant>, acc: nat)
    requires LargestPayload(variants, acc).Some?
    ensures LargestPayload(variants, acc).value == acc
            || exists k | 0 <= k < |variants| :: End(variants[k].payload, 0) == LargestPayload(variants, acc)
  {
    if variants != [] {
      PayloadTight(variants[1..], Max(acc, End(variants[0].payload, 0).value));
      if k :| 0 <= k < |variants| - 1 && End(variants[1..][k].payload, 0) == LargestPayload(variants, acc) {
        assert variants[k + 1] == variants[1..][k];
      } else {
        assert LargestPayload(variants, acc).value == Max(acc, End(variants[0].payload, 0).value);
      }
    }
  }

  // ---------- Computing sizes ----------

  method GetTypeSize(t: Type) returns (r: Option<nat>)
    ensures r == SizeOf(t)
    decreases t, 1
  {
    match t {
      case Array(element, n) =>
        var size := GetTypeSize(element);
        r := if size.Some? then Some(size.value * n) else None;
      case Struct(_, _, fields) => r := GetAggregateSize(fields);
      case Tuple(elements) => r := GetAggregateSize(elements);
      case Enum(_, variants, integerBacked, _) =>
        if integerBacked {
          r := SizeOf(t);
        } else {
          var payload := GetLargestPayload(variants);
          r := if payload.Some? then Some(4 + payload.value) else None;
        }
      case _ => r := SizeOf(t);
    }
  }

  lemma EndStep(fields: seq<Type>, i: nat, from: nat)
    requires i < |fields|
    ensures End(fields[i..], from) == (var size := SizeOf(fields[i]);
                                       if size.None? || size.value == 0 then None
                                       else End(fields[i + 1..], AlignTo(from, size.value) + size.value))
  {
    assert fields[i..][1..] == fields[i + 1..];
  }

  method GetVariantPayloadSize(fields: seq<Type>) returns (r: Option<nat>)
    ensures r == End(fields, 0)
    decreases fields, 0
  {
    var size: nat := 0;
    for i := 0 to |fields|
      invariant End(fields, 0) == End(fields[i..], size)
    {
      EndStep(fields, i, size);
      var fieldSize := GetTypeSize(fields[i]);
      if fieldSize.None? || fieldSize.value == 0 {
        return None;
      }
      size := AlignTo(size, fieldSize.value) + fieldSize.value;
    }
    return Some(size);
  }

  method GetLargestField(fields: seq<Type>) returns (r: Option<nat>)
    ensures r == LargestField(fields, 0)
    decreases fields, 0
  {
    var largest: nat := 0;
    for i := 0 to |fields|
      invariant LargestField(fields, 0) == LargestField(fields[i..], largest)
    {
      assert fields[i..][1..] == fields[i + 1..];
      var size := GetTypeSize(fields[i]);
      if size.None? {
        return None;
      }
      largest := Max(largest, size.value);
    }
    return Some(largest);
  }

  method GetAggregateSize(fields: seq<Type>) returns (r: Option<nat>)
    ensures r == AggregateSize(fields)
    decreases fields, 1
  {
    r := GetVariantPayloadSize(fields);
    if r.Some? && fields != [] {
      var largest := GetLargestField(fields);
      r := if largest.None? || largest.value == 0 then None else Some(AlignTo(r.value, largest.value));
    }
  }

  method GetLargestPayload(variants: seq<Variant>) returns (r: Option<nat>)
    ensures r == PayloadSize(variants)
    decreases variants, 0
  {
    var largest: nat := 0;
    for i := 0 to |variants|
      invariant PayloadSize(variants) == LargestPayload(variants[i..], largest)
    {
      assert variants[i..][1..] == variants[i + 1..];
      var size := GetVariantPayloadSize(variants[i].payload);
      if size.None? {
        return None;
      }
      largest := Max(largest, size.value);
    }
    return Some(largest);
  }

  // ---------- Arrays of structs ----------

  lemma MultiplesAdd(x: nat, y: nat, a: nat)
    requires MultipleOf(x, a)
    ensures MultipleOf(x + y, a) <==> MultipleOf(y, a)
  {
    var p: nat :| x == p * a;
    if MultipleOf(y, a) {
      var q: nat :| y == q * a;
      assert x + y == (p + q) * a;
    }
    if MultipleOf(x + y, a) {
      var q: nat :| x + y == q * a;
      if q < p {
        MultiplesApart(q, p, a);
        assert y == 0 * a;
      } else {
        assert y == (q - p) * a;
      }
    }
  }

  lemma MultiplesMultiply(k: nat, x: nat, a: nat)
    requires MultipleOf(x, a)
    ensures MultipleOf(k * x, a)
  {
    var p: nat :| x == p * a;
    assert k * x == (k * p) * a;
  }

  /** What lies at the offset in every element of an array is aligned. */
  ghost predicate AlignedEverywhere(size: nat, offset: nat, part: nat)
  {
    forall k: nat :: MultipleOf(k * size + offset, part)
  }

  lemma EverywhereIff(size: nat, offset: nat, part: nat)
    requires MultipleOf(offset, part)
    ensures AlignedEverywhere(size, offset, part) <==> MultipleOf(size, part)
  {
    if MultipleOf(size, part) {
      forall k: nat ensures MultipleOf(k * size + offset, part) {
        MultiplesMultiply(k, size, part);
        MultiplesAdd(k * size, offset, part);
      }
    } else {
      MultiplesAdd(offset, size, part);
      assert !MultipleOf(1 * size + offset, part);
    }
  }

  lemma PaddedMultiple(x: nat, largest: nat, part: nat)
    requires largest > 0 && MultipleOf(largest, part)
    ensures MultipleOf(AlignTo(x, largest), part)
  {
    var q: nat :| AlignTo(x, largest) == q * largest;
    MultiplesMultiply(q, largest, part);
  }

  /** In an array of structs a field is aligned in every element exactly if its size divides the struct's.  It does if
      it divides the size of the largest field, to a multiple of which the struct is padded. */
  lemma ElementsAlignedIff(fields: seq<Type>, i: nat)
    requires AggregateSize(fields).Some? && i < |fields|
    ensures LargestField(fields, 0).Some? && End(fields, 0).Some? && SizeOf(fields[i]).Some?
    ensures var size, part, offset := AggregateSize(fields).value, SizeOf(fields[i]).value, Offsets(fields, 0)[i];
            && (AlignedEverywhere(size, offset, part) <==> MultipleOf(size, part))
            && (MultipleOf(LargestField(fields, 0).value, part) ==> MultipleOf(size, part))
  {
    OffsetsPlaced(fields, 0);
    var part, largest := SizeOf(fields[i]).value, LargestField(fields, 0).value;
    EverywhereIff(AggregateSize(fields).value, Offsets(fields, 0)[i], part);
    if MultipleOf(largest, part) {
      PaddedMultiple(End(fields, 0).value, largest, part);
    }
  }

  /** In an array of structs of three `i32`, an `i64` and an `i32` it is not. */
  lemma ElementsMisaligned()
    ensures var fields := [Array(Basic(I32), 3), Basic(I64), Basic(I32)];
            AggregateSize(fields) == Some(36) && !MultipleOf(36, SizeOf(fields[1]).value)
  {
    var triple, long, word := Array(Basic(I32), 3), Basic(I64), Basic(I32);
    assert SizeOf(triple) == Some(12) && SizeOf(long) == Some(8) && SizeOf(word) == Some(4);
    Aligned(0, 12, 0);
    Aligned(12, 8, 2);
    Aligned(24, 4, 6);
    Aligned(28, 12, 3);
    assert [triple, long, word][1..] == [long, word] && [long, word][1..] == [word] && [word][1..] == [];
    assert End([word], 24) == End([], 28) && End([long, word], 12) == End([word], 24);
    assert LargestField([word], 12) == Some(12) && LargestField([long, word], 12) == Some(12);
    assert forall q: nat :: q * 8 != 36;
  }

  lemma Aligned(x: nat, a: nat, q: nat)
    requires a > 0 && x <= q * a < x + a
    ensures AlignTo(x, a) == q * a
  {
    assert MultipleOf(q * a, a);
    AlignIsUnique(x, a, q * a);
  }

  // ---------- Storing and reading a payload ----------

  /** The bytes of every field, as many as its type has. */
  predicate Fit(fields: seq<Type>, values: seq<seq<Byte>>)
  {
    |values| == |fields| && forall i | 0 <= i < |fields| :: SizeOf(fields[i]) == Some(|values[i]|)
  }

  /** The payload holds these values. */
  predicate Holds(payload: seq<Byte>, offsets: seq<nat>, values: seq<seq<Byte>>)
    requires |offsets| >= |values|
  {
    forall i | 0 <= i < |values| ::
      offsets[i] + |values[i]| <= |payload| && payload[offsets[i]..offsets[i] + |values[i]|] == values[i]
  }

  method AdvancePayloadOffset(byteOffset: nat, t: Type) returns (offset: nat, next: nat)
    requires SizeOf(t).Some? && SizeOf(t).value > 0
    ensures var size := SizeOf(t).value;
            MultipleOf(offset, size) && byteOffset <= offset < byteOffset + size && next - offset == size
  {
    var size := GetTypeSize(t);
    offset := AlignTo(byteOffset, size.value);
    next := offset + size.value;
  }

  /** How far the fields before the `i`-th reach. */
  function Reached(fields: seq<Type>, offsets: seq<nat>, i: nat): nat
    requires |offsets| == |fields| && i <= |fields| && forall j | 0 <= j < |fields| :: SizeOf(fields[j]).Some?
  {
    if i == 0 then 0 else offsets[i - 1] + SizeOf(fields[i - 1]).value
  }

  /** Each offset is the next aligned one. */
  predicate Advances(fields: seq<Type>, offsets: seq<nat>)
  {
    && |offsets| == |fields|
    && (forall i | 0 <= i < |fields| :: SizeOf(fields[i]).Some? && SizeOf(fields[i]).value > 0)
    && forall i {:trigger Reached(fields, offsets, i)} | 0 <= i < |fields| ::
         offsets[i] == AlignTo(Reached(fields, offsets, i), SizeOf(fields[i]).value)
  }

  lemma OffsetReached(fields: seq<Type>, offsets: seq<nat>, i: nat, offset: nat)
    requires Advances(fields, offsets) && i < |fields|
    requires MultipleOf(offset, SizeOf(fields[i]).value)
    requires Reached(fields, offsets, i) <= offset < Reached(fields, offsets, i) + SizeOf(fields[i]).value
    ensures offset == offsets[i] && offset + SizeOf(fields[i]).value == Reached(fields, offsets, i + 1)
  {
    AlignIsUnique(Reached(fields, offsets, i), SizeOf(fields[i]).value, offset);
  }

  lemma OffsetsAdvance(fields: seq<Type>)
    requires End(fields, 0).Some?
    ensures Advances(fields, Offsets(fields, 0))
  {
    OffsetsInside(fields);
    var offsets := Offsets(fields, 0);
    forall i | 0 <= i < |fields| ensures offsets[i] == AlignTo(Reached(fields, offsets, i), SizeOf(fields[i]).value) {
      if i > 0 {
        NextOffset(fields, 0, i);
      }
    }
  }

  lemma OffsetsInside(fields: seq<Type>)
    requires End(fields, 0).Some?
    ensures forall i | 0 <= i < |fields| ::
              && SizeOf(fields[i]).Some? && SizeOf(fields[i]).value > 0
              && Offsets(fields, 0)[i] + SizeOf(fields[i]).value <= End(fields, 0).value
  {
    OffsetsPlaced(fields, 0);
  }

  /** An enum value: the index of its variant, and the payload bytes. */
  class EnumCell {
    var tag: nat
    const payload: array<Byte>

    constructor (variants: seq<Variant>)
      requires PayloadSize(variants).Some?
      ensures fresh(payload) && payload.Length == PayloadSize(variants).value
    {
      tag := 0;
      payload := new Byte[PayloadSize(variants).value];
    }

    method StoreBytes(offset: nat, bytes: seq<Byte>)
      requires offset + |bytes| <= payload.Length
      modifies payload
      ensures payload[..] == old(payload[..offset]) + bytes + old(payload[offset + |bytes|..])
    {
      for i := 0 to |bytes|
        invariant payload[..] == old(payload[..offset]) + bytes[..i] + old(payload[offset + i..])
      {
        payload[offset + i] := bytes[i];
        assert bytes[..i + 1] == bytes[..i] + [bytes[i]];
      }
    }

    method StoreField(ghost offsets: seq<nat>, values: seq<seq<Byte>>, i: nat, offset: nat)
      requires Room(offsets, values, payload.Length) && i < |values| && offset == offsets[i]
      requires Holds(payload[..], offsets, values[..i])
      modifies payload
      ensures Holds(payload[..], offsets, values[..i + 1])
    {
      ghost var before := payload[..];
      StoreBytes(offset, values[i]);
      assert before[..offset] == old(payload[..offset]);
      assert before[offset + |values[i]|..] == old(payload[offset + |values[i]|..]);
      StillHolds(before, payload[..], offsets, values, i);
    }

    /** Construct a variant: every argument goes to its field's offset. */
    method Construct(variants: seq<Variant>, k: nat, values: seq<seq<Byte>>)
      requires PayloadSize(variants).Some? && payload.Length == PayloadSize(variants).value
      requires k < |variants| && Fit(variants[k].payload, values)
      modifies this, payload
      ensures tag == k && End(variants[k].payload, 0).Some?
      ensures Holds(payload[..], Offsets(variants[k].payload, 0), values)
    {
      tag := k;
      PayloadFits(variants, 0, k);
      var fields := variants[k].payload;
      FitRoom(fields, values);
      OffsetsAdvance(fields);
      ghost var offsets := Offsets(fields, 0);
      var byteOffset: nat := 0;
      for i := 0 to |fields|
        invariant tag == k && byteOffset == Reached(fields, offsets, i)
        invariant Holds(payload[..], offsets, values[..i])
      {
        var offset;
        offset, byteOffset := AdvancePayloadOffset(byteOffset, fields[i]);
        OffsetReached(fields, offsets, i, offset);
        StoreField(offsets, values, i, offset);
      }
      assert values[..|fields|] == values;
    }

    /** The bindings of a case arm: every field is read from its offset. */
    method ReadBindings(variants: seq<Variant>, k: nat) returns (values: seq<seq<Byte>>)
      requires PayloadSize(variants).Some? && payload.Length == PayloadSize(variants).value && k < |variants|
      ensures End(variants[k].payload, 0).Some? && Fit(variants[k].payload, values)
      ensures Holds(payload[..], Offsets(variants[k].payload, 0), values)
    {
      PayloadFits(variants, 0, k);
      var fields := variants[k].payload;
      OffsetsInside(fields);
      OffsetsAdvance(fields);
      values := ReadFields(fields, Offsets(fields, 0));
    }

    method ReadFields(fields: seq<Type>, ghost offsets: seq<nat>) returns (values: seq<seq<Byte>>)
      requires Advances(fields, offsets)
      requires forall i | 0 <= i < |fields| :: offsets[i] + SizeOf(fields[i]).value <= payload.Length
      ensures Fit(fields, values) && Holds(payload[..], offsets, values)
    {
      values := [];
      var byteOffset: nat := 0;
      for i := 0 to |fields|
        invariant byteOffset == Reached(fields, offsets, i)
        invariant Fit(fields[..i], values) && Holds(payload[..], offsets, values)
      {
        var offset;
        offset, byteOffset := AdvancePayloadOffset(byteOffset, fields[i]);
        OffsetReached(fields, offsets, i, offset);
        HoldsOneMore(payload[..], offsets, values, byteOffset);
        FitOneMore(fields, i, values, payload[offset..byteOffset]);
        values := values + [payload[offset..byteOffset]];
      }
      assert fields[..|fields|] == fields;
    }
  }

  /** The places of the values do not overlap and end within the payload. */
  predicate Room(offsets: seq<nat>, values: seq<seq<Byte>>, size: nat)
  {
    && |offsets| == |values|
    && (forall i | 0 <= i < |values| :: offsets[i] + |values[i]| <= size)
    && (forall i, j | 0 <= i < j < |values| :: offsets[i] + |values[i]| <= offsets[j])
  }

  lemma FitRoom(fields: seq<Type>, values: seq<seq<Byte>>)
    requires End(fields, 0).Some? && Fit(fields, values)
    ensures forall size | size >= End(fields, 0).value :: Room(Offsets(fields, 0), values, size)
  {
    OffsetsLaidOut(fields, 0);
    assert forall i | 0 <= i < |fields| :: SizeOf(fields[i]).value == |values[i]|;
  }

  /** Storing field `i` leaves the fields before it alone. */
  lemma StillHolds(before: seq<Byte>, after: seq<Byte>, offsets: seq<nat>, values: seq<seq<Byte>>, i: nat)
    requires Room(offsets, values, |before|) && i < |values| && Holds(before, offsets, values[..i])
    requires after == before[..offsets[i]] + values[i] + before[offsets[i] + |values[i]|..]
    ensures Holds(after, offsets, values[..i + 1])
  {
    forall j | 0 <= j <= i
      ensures offsets[j] + |values[j]| <= |after| && after[offsets[j]..offsets[j] + |values[j]|] == values[j]
    {
      if j < i {
        assert values[..i][j] == values[j];
        SameBefore(before, after, offsets[i], offsets[j], offsets[j] + |values[j]|);
      }
    }
  }

  lemma SameBefore(before: seq<Byte>, after: seq<Byte>, n: nat, lo: nat, hi: nat)
    requires lo <= hi <= n <= |before| && n <= |after| && before[..n] == after[..n]
    ensures before[lo..hi] == after[lo..hi]
  {
    forall i | lo <= i < hi ensures before[i] == after[i] {
      assert before[..n][i] == after[..n][i];
    }
  }

  lemma HoldsOneMore(payload: seq<Byte>, offsets: seq<nat>, values: seq<seq<Byte>>, end: nat)
    requires |values| < |offsets| && Holds(payload, offsets, values) && offsets[|values|] <= end <= |payload|
    ensures Holds(payload, offsets, values + [payload[offsets[|values|]..end]])
  {
  }

  lemma FitOneMore(fields: seq<Type>, i: nat, values: seq<seq<Byte>>, bytes: seq<Byte>)
    requires i < |fields| && Fit(fields[..i], values) && SizeOf(fields[i]) == Some(|bytes|)
    ensures Fit(fields[..i + 1], values + [bytes])
  {
    assert fields[..i + 1] == fields[..i] + [fields[i]];
  }

  /** What is held is determined by the payload. */
  lemma HeldOnce(payload: seq<Byte>, fields: seq<Type>, a: seq<seq<Byte>>, b: seq<seq<Byte>>)
    requires End(fields, 0).Some? && Fit(fields, a) && Fit(fields, b)
    requires Holds(payload, Offsets(fields, 0), a) && Holds(payload, Offsets(fields, 0), b)
    ensures a == b
  {
    forall i | 0 <= i < |fields| ensures a[i] == b[i] {
      assert SizeOf(fields[i]) == Some(|a[i]|) == Some(|b[i]|);
    }
  }

  /** Constructing a variant and matching on it gives back the variant and all its values. */
  method ConstructAndMatch(variants: seq<Variant>, k: nat, values: seq<seq<Byte>>)
    returns (tag: nat, bound: seq<seq<Byte>>)
    requires PayloadSize(variants).Some? && k < |variants| && Fit(variants[k].payload, values)
    ensures tag == k && bound == values
  {
    var cell := new EnumCell(variants);
    cell.Construct(variants, k, values);
    tag := cell.tag;
    bound := cell.ReadBindings(variants, k);
    HeldOnce(cell.payload[..], variants[k].payload, values, bound);
  }
}
