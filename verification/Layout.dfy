/** How types are laid out in memory, and where `getelementptr` finds a component. */
module Layout {
  import opened IR

  /** The largest 32-bit size. */
  const U32_MAX: nat := 0xFFFF_FFFF

  /** A struct may have as many fields as there are 8-bit indices. */
  const MAX_FIELDS: nat := 256

  type Alignment = a: nat | 1 <= a <= 0xFFFF witness 1

  datatype Repr = Default | Align(align: Alignment) | Packed(align: Alignment) | Transparent

  datatype Type =
    | Unknown | Unit | Never
    | I1 | I8 | U8 | I16 | U16 | I32 | U32 | I64 | U64 | I128 | U128 | U256 | F64 | Felt
    | Ptr(pointee: Type)
    | NativePtr(pointee: Type, space: nat)
    | Struct(repr: Repr, size: nat, fields: seq<Field>)
    | Array(element: Type, len: nat)

  datatype Field = Field(index: nat, align: Alignment, offset: nat, ty: Type)

  // Multiples

  lemma {:induction false} MulMono(m: nat, x: nat, y: nat)
    requires x <= y
    ensures m * x <= m * y
    decreases y - x
  {
    if x < y {
      MulMono(m, x, y - 1);
      assert m * y == m * (y - 1) + m;
    }
  }

  /** Division with remainder is unique. */
  lemma DivModUnique(n: nat, m: nat, q: nat, r: nat)
    requires r < m && n == m * q + r
    ensures n % m == r && n / m == q
  {
    QuotientLe(m, q, r, n / m, n % m);
    QuotientLe(m, n / m, n % m, q, r);
  }

  lemma QuotientLe(m: nat, q: nat, r: nat, q': nat, r': nat)
    requires r < m && r' < m && m * q + r == m * q' + r'
    ensures q <= q'
  {
    assert m * (q' + 1) == m * q' + m;
    if q > q' {
      MulMono(m, q' + 1, q);
    }
  }

  lemma ModOfMultiple(m: nat, x: nat)
    requires m > 0
    ensures (m * x) % m == 0
  {
    DivModUnique(m * x, m, x, 0);
  }

  lemma AddMultiple(a: nat, b: nat, m: nat)
    requires m > 0 && a % m == 0 && b % m == 0
    ensures (a + b) % m == 0
  {
    assert a + b == m * (a / m + b / m);
    ModOfMultiple(m, a / m + b / m);
  }

  /** A multiple of a multiple. */
  lemma DividesTrans(n: nat, b: nat, a: nat)
    requires a > 0 && b > 0 && n % b == 0 && b % a == 0
    ensures n % a == 0
  {
    var x, y := n / b, b / a;
    assert n == b * x && b == a * y;
    assert n == a * (y * x);
    ModOfMultiple(a, y * x);
  }

  /** The smallest multiple of `m` not below `n`. */
  function NextMultipleOf(n: nat, m: nat): (r: nat)
    requires m > 0
    ensures r % m == 0 && n <= r < n + m
  {
    NextMultipleLaw(n, m);
    var offset := n % m;
    n + (m - offset) * (if offset > 0 then 1 else 0)
  }

  lemma NextMultipleLaw(n: nat, m: nat)
    requires m > 0
    ensures var r := n + (m - n % m) * (if n % m > 0 then 1 else 0); r % m == 0 && n <= r < n + m
  {
    var q := n / m;
    assert n == m * q + n % m;
    if n % m > 0 {
      assert n + (m - n % m) == m * (q + 1);
      ModOfMultiple(m, q + 1);
    }
  }

  lemma MultipleUnique(n: nat, m: nat, r: nat, s: nat)
    requires m > 0 && r % m == 0 && s % m == 0 && n <= r < n + m && n <= s < n + m
    ensures r == s
  {
    if r <= s {
      MultipleGap(r, s, m);
    } else {
      MultipleGap(s, r, m);
    }
  }

  /** Different multiples are at least `m` apart. */
  lemma MultipleGap(r: nat, s: nat, m: nat)
    requires m > 0 && r % m == 0 && s % m == 0 && r <= s
    ensures r == s || s >= r + m
  {
    var x, y := r / m, s / m;
    assert r == m * x && s == m * y;
    if x < y {
      MulMono(m, x + 1, y);
      assert m * (x + 1) == m * x + m;
    } else {
      MulMono(m, y, x);
    }
  }

  predicate IsPowerOfTwo(a: nat) {
    a == 1 || (a > 1 && a % 2 == 0 && IsPowerOfTwo(a / 2))
  }

  /** The smaller of two powers of two divides the larger. */
  lemma {:induction false} PowersDivide(a: nat, b: nat)
    requires IsPowerOfTwo(a) && IsPowerOfTwo(b) && a <= b
    ensures b % a == 0
    decreases a
  {
    if a > 1 {
      PowersDivide(a / 2, b / 2);
      var q := b / 2 / (a / 2);
      assert b / 2 == q * (a / 2);
      assert b == q * a;
      ModOfMultiple(a, q);
    }
  }

  // Sizes

  function Max(a: Alignment, b: Alignment): Alignment {
    if a < b then b else a
  }

  function Min(a: Alignment, b: Alignment): Alignment {
    if a < b then a else b
  }

  function MaxFieldAlign(fields: seq<Field>): (a: Alignment)
    ensures forall k :: 0 <= k < |fields| ==> fields[k].align <= a
    ensures a == 1 || exists k :: 0 <= k < |fields| && fields[k].align == a
  {
    if |fields| == 0 then 1
    else
      var rest := MaxFieldAlign(fields[1..]);
      assert rest == 1 || exists k :: 0 <= k < |fields[1..]| && fields[1..][k].align == rest;
      assert forall k :: 1 <= k < |fields| ==> fields[k] == fields[1..][k - 1];
      assert forall k :: 0 <= k < |fields[1..]| ==> fields[k + 1] == fields[1..][k];
      Max(fields[0].align, rest)
  }

  function MinAlignment(ty: Type): Alignment {
    match ty
    case Felt => 4
    case U256 => 16
    case I128 => 16
    case U128 => 16
    case I64 => 4
    case U64 => 4
    case F64 => 4
    case I32 => 4
    case U32 => 4
    case Ptr(_) => 4
    case NativePtr(_, _) => 4
    case I16 => 2
    case U16 => 2
    case Struct(Align(a), _, _) => a
    case Struct(Packed(a), _, _) => a
    case Struct(_, _, fields) => MaxFieldAlign(fields)
    case Array(element, _) => MinAlignment(element)
    case _ => 1
  }

  function SizeInBits(ty: Type): nat {
    match ty
    case Unknown => 0
    case Unit => 0
    case Never => 0
    case I1 => 1
    case I8 => 8
    case U8 => 8
    case I16 => 16
    case U16 => 16
    case I32 => 32
    case U32 => 32
    case Felt => 32
    case I64 => 64
    case U64 => 64
    case F64 => 64
    case I128 => 128
    case U128 => 128
    case U256 => 256
    case Ptr(_) => 32
    case NativePtr(_, _) => 96
    case Struct(_, size, _) => size * 8
    case Array(element, len) =>
      ArrayBits(SizeInBits(element), MinAlignment(element), len)
  }

  /** The last element is not padded. */
  function ArrayBits(bits: nat, align: Alignment, len: nat): nat {
    if len == 0 then 0
    else if len == 1 then bits
    else
      var padded := NextMultipleOf(bits, align * 8);
      MulMono(len - 1, 0, padded);
      bits + padded * (len - 1)
  }

  function BytesOf(bits: nat): nat {
    bits / 8 + if bits % 8 > 0 then 1 else 0
  }

  function SizeInBytes(ty: Type): nat {
    BytesOf(SizeInBits(ty))
  }

  /** The distance from one element of an array to the next. */
  function Stride(element: Type): (r: nat)
    ensures SizeInBytes(element) <= r && r % MinAlignment(element) == 0
  {
    NextMultipleOf(SizeInBytes(element), MinAlignment(element))
  }

  /** Padding in bits and padding in bytes agree. */
  lemma {:induction false} StrideInBits(element: Type)
    ensures NextMultipleOf(SizeInBits(element), MinAlignment(element) * 8) == 8 * Stride(element)
  {
    hide SizeInBits, MinAlignment, NextMultipleOf;
    var n := SizeInBits(element);
    var a: nat := MinAlignment(element);
    var s := Stride(element);
    var m: nat := a * 8;
    ScaledMultiple(s, a, 8);
    BytesBound(n);
    MultipleUnique(n, m, NextMultipleOf(n, m), 8 * s);
  }

  lemma BytesBound(bits: nat)
    ensures bits <= 8 * BytesOf(bits) < bits + 8
  {
  }

  lemma ScaledMultiple(s: nat, a: nat, k: nat)
    requires a > 0 && k > 0 && s % a == 0
    ensures (k * s) % (a * k) == 0
  {
    var q := s / a;
    assert s == a * q;
    assert k * s == (a * k) * q;
    ModOfMultiple(a * k, q);
  }

  /** An array is its elements at multiples of the stride, without padding after the last. */
  lemma ArraySize(element: Type, len: nat)
    requires len > 0
    ensures SizeInBytes(Array(element, len)) == Stride(element) * (len - 1) + SizeInBytes(element)
  {
    var n, p := SizeInBits(element), Stride(element);
    assert SizeInBits(Array(element, len)) == ArrayBits(n, MinAlignment(element), len);
    hide SizeInBits, MinAlignment, NextMultipleOf, Stride;
    StrideInBits(element);
    ArrayBytes(n, MinAlignment(element), len, p);
  }

  lemma ArrayBytes(bits: nat, align: Alignment, len: nat, stride: nat)
    requires len > 0 && NextMultipleOf(bits, align * 8) == 8 * stride
    ensures BytesOf(ArrayBits(bits, align, len)) == stride * (len - 1) + BytesOf(bits)
  {
    hide NextMultipleOf;
    MulMono(stride, 0, len - 1);
    if len > 1 {
      var k: nat := stride * (len - 1);
      assert 8 * stride * (len - 1) == 8 * k;
      WholeBytes(bits, k);
    }
  }

  lemma WholeBytes(bits: nat, k: nat)
    ensures BytesOf(bits + 8 * k) == k + BytesOf(bits)
  {
  }

  // Structs

  function MaxMinAlignment(tys: seq<Type>): (a: Alignment)
    ensures forall k :: 0 <= k < |tys| ==> MinAlignment(tys[k]) <= a
    ensures a == 1 || exists k :: 0 <= k < |tys| && MinAlignment(tys[k]) == a
  {
    if |tys| == 0 then 1
    else
      var rest := MaxMinAlignment(tys[1..]);
      assert rest == 1 || exists k :: 0 <= k < |tys[1..]| && MinAlignment(tys[1..][k]) == rest;
      assert forall k :: 1 <= k < |tys| ==> tys[k] == tys[1..][k - 1];
      assert forall k :: 0 <= k < |tys[1..]| ==> tys[k + 1] == tys[1..][k];
      Max(MinAlignment(tys[0]), rest)
  }

  function FieldAlign(repr: Repr, ty: Type): Alignment {
    match repr
    case Transparent => if SizeInBytes(ty) == 0 then 1 else MinAlignment(ty)
    case Packed(a) => Min(a, MinAlignment(ty))
    case _ => MinAlignment(ty)
  }

  function StructAlign(repr: Repr, tys: seq<Type>): Alignment {
    match repr
    case Transparent => 1
    case Align(a) => Max(a, MaxMinAlignment(tys))
    case Packed(a) => Min(a, MaxMinAlignment(tys))
    case Default => MaxMinAlignment(tys)
  }

  /** Where the first `k` fields end. */
  function End(repr: Repr, tys: seq<Type>, k: nat): nat
    requires k <= |tys|
    decreases k, 0
  {
    if k == 0 then 0 else Offset(repr, tys, k - 1) + SizeInBytes(tys[k - 1])
  }

  function Offset(repr: Repr, tys: seq<Type>, k: nat): nat
    requires k < |tys|
    decreases k, 1
  {
    if repr.Transparent? then End(repr, tys, k) else NextMultipleOf(End(repr, tys, k), FieldAlign(repr, tys[k]))
  }

  /** Field `k` can be placed: it does not break the rules of the representation, nor exceed 32 bits. */
  predicate FieldFits(repr: Repr, tys: seq<Type>, k: nat)
    requires k < |tys|
  {
    && SizeInBytes(tys[k]) <= U32_MAX && End(repr, tys, k + 1) <= U32_MAX
    && if repr.Transparent? then SizeInBytes(tys[k]) == 0 || End(repr, tys, k) == 0
       else IsPowerOfTwo(FieldAlign(repr, tys[k]))
  }

  predicate Buildable(repr: Repr, tys: seq<Type>) {
    && |tys| <= MAX_FIELDS
    && (forall k :: 0 <= k < |tys| ==> FieldFits(repr, tys, k))
    && (repr.Transparent? || End(repr, tys, |tys|) + StructAlign(repr, tys) < U32_MAX)
  }

  function FieldAt(repr: Repr, tys: seq<Type>, k: nat): Field
    requires k < |tys|
  {
    Field(k, FieldAlign(repr, tys[k]), Offset(repr, tys, k), tys[k])
  }

  function FieldsUpTo(repr: Repr, tys: seq<Type>, n: nat): (fields: seq<Field>)
    requires n <= |tys|
    ensures |fields| == n
    ensures forall k :: 0 <= k < n ==> fields[k] == FieldAt(repr, tys, k)
  {
    if n == 0 then [] else FieldsUpTo(repr, tys, n - 1) + [FieldAt(repr, tys, n - 1)]
  }

  function StructOf(repr: Repr, tys: seq<Type>): Type {
    Struct(repr, NextMultipleOf(End(repr, tys, |tys|), StructAlign(repr, tys)), FieldsUpTo(repr, tys, |tys|))
  }

  /** The first `k` fields have been placed. */
  ghost predicate Placed(repr: Repr, tys: seq<Type>, k: nat, fields: seq<Field>, offset: nat) {
    && k <= |tys| && k <= MAX_FIELDS && fields == FieldsUpTo(repr, tys, k) && offset == End(repr, tys, k)
    && forall j :: 0 <= j < k ==> FieldFits(repr, tys, j)
  }

  lemma {:induction false} PlaceNext(repr: Repr, tys: seq<Type>, k: nat, fields: seq<Field>, offset: nat,
          align: Alignment, at: nat)
    requires Placed(repr, tys, k, fields, offset) && k < |tys|
    requires align == FieldAlign(repr, tys[k]) && at == Offset(repr, tys, k)
    ensures (k < MAX_FIELDS && FieldFits(repr, tys, k)) ==>
              Placed(repr, tys, k + 1, fields + [Field(k, align, at, tys[k])], at + SizeInBytes(tys[k]))
    ensures at + SizeInBytes(tys[k]) == End(repr, tys, k + 1)
  {
    hide SizeInBytes, FieldAlign, FieldFits, Offset;
  }

  lemma CannotPlace(repr: Repr, tys: seq<Type>, k: nat)
    requires k < |tys| && (k >= MAX_FIELDS || !FieldFits(repr, tys, k))
    ensures !Buildable(repr, tys)
  {
    hide FieldFits;
  }

  /** The fields of a transparent struct; at most one of them may have a size. */
  method PlaceTransparent(tys: seq<Type>) returns (ok: bool, fields: seq<Field>, offset: nat)
    ensures ok ==> Placed(Transparent, tys, |tys|, fields, offset)
    ensures !ok ==> !Buildable(Transparent, tys)
  {
    hide SizeInBytes, MinAlignment, Placed, Buildable;
    fields, offset := [], 0;
    NothingPlaced(Transparent, tys);
    var k := 0;
    while k < |tys|
      invariant 0 <= k <= |tys| && Placed(Transparent, tys, k, fields, offset)
    {
      PlacedParts(Transparent, tys, k, fields, offset);
      var size := SizeInBytes(tys[k]);
      var align: Alignment := if size == 0 then 1 else MinAlignment(tys[k]);
      PlaceNext(Transparent, tys, k, fields, offset, align, offset);
      if k > 255 || size > U32_MAX || (size != 0 && offset != 0) || offset + size > U32_MAX {
        CannotPlace(Transparent, tys, k);
        return false, fields, offset;
      }
      fields := fields + [Field(k, align, offset, tys[k])];
      offset := offset + size;
      k := k + 1;
    }
    ok := true;
  }

  /** The fields of any other struct, each at the next multiple of its alignment. */
  method PlacePadded(repr: Repr, tys: seq<Type>) returns (ok: bool, fields: seq<Field>, offset: nat)
    requires !repr.Transparent?
    ensures ok ==> Placed(repr, tys, |tys|, fields, offset)
    ensures !ok ==> !Buildable(repr, tys)
  {
    hide SizeInBytes, MinAlignment, NextMultipleOf, IsPowerOfTwo, Placed, Buildable;
    fields, offset := [], 0;
    NothingPlaced(repr, tys);
    var k := 0;
    while k < |tys|
      invariant 0 <= k <= |tys| && Placed(repr, tys, k, fields, offset)
    {
      PlacedParts(repr, tys, k, fields, offset);
      var size := SizeInBytes(tys[k]);
      var align: Alignment := if repr.Packed? then Min(repr.align, MinAlignment(tys[k])) else MinAlignment(tys[k]);
      var at := NextMultipleOf(offset, align);
      PlaceNext(repr, tys, k, fields, offset, align, at);
      if k > 255 || size > U32_MAX || !IsPowerOfTwo(align) || at + size > U32_MAX {
        CannotPlace(repr, tys, k);
        return false, fields, offset;
      }
      fields := fields + [Field(k, align, at, tys[k])];
      offset := at + size;
      k := k + 1;
    }
    ok := true;
  }

  lemma NothingPlaced(repr: Repr, tys: seq<Type>)
    ensures Placed(repr, tys, 0, [], 0)
  {
  }

  lemma {:induction false} PlacedParts(repr: Repr, tys: seq<Type>, k: nat, fields: seq<Field>, offset: nat)
    requires Placed(repr, tys, k, fields, offset)
    ensures k <= |tys| && offset == End(repr, tys, k)
  {
  }

  /** Lays out a struct; fails when the representation does not allow it. */
  method NewWithRepr(repr: Repr, tys: seq<Type>) returns (r: Option<Type>)
    ensures r == if Buildable(repr, tys) then Some(StructOf(repr, tys)) else None
  {
    hide SizeInBytes, MinAlignment, NextMultipleOf, IsPowerOfTwo, MaxMinAlignment, FieldFits;
    if repr.Transparent? {
      var ok, fields, offset := PlaceTransparent(tys);
      NextMultipleOfOne(offset);
      return if ok then Some(Struct(repr, offset, fields)) else None;
    }
    var defaultAlign := MaxMinAlignment(tys);
    var align := match repr
      case Align(a) => Max(a, defaultAlign)
      case Packed(a) => Min(a, defaultAlign)
      case _ => defaultAlign;
    var ok, fields, offset := PlacePadded(repr, tys);
    if !ok || offset + align >= U32_MAX {
      return None;
    }
    r := Some(Struct(repr, NextMultipleOf(offset, align), fields));
  }

  lemma NextMultipleOfOne(n: nat)
    ensures NextMultipleOf(n, 1) == n
  {
  }

  /** Only made of structs that have been laid out by `NewWithRepr`. */
  ghost predicate Built(ty: Type) {
    match ty
    case Struct(repr, _, fields) =>
      && ty == StructOf(repr, TypesOf(fields)) && Buildable(repr, TypesOf(fields))
      && forall k :: 0 <= k < |fields| ==> Built(fields[k].ty)
    case Array(element, _) => Built(element)
    case _ => true
  }

  function TypesOf(fields: seq<Field>): (tys: seq<Type>)
    ensures |tys| == |fields| && forall k :: 0 <= k < |fields| ==> tys[k] == fields[k].ty
  {
    if |fields| == 0 then [] else TypesOf(fields[..|fields| - 1]) + [fields[|fields| - 1].ty]
  }

  /** What is laid out from built types is built. */
  lemma NewIsBuilt(repr: Repr, tys: seq<Type>)
    requires Buildable(repr, tys) && forall k :: 0 <= k < |tys| ==> Built(tys[k])
    ensures Built(StructOf(repr, tys))
  {
    hide Buildable, FieldAt;
    var fields := FieldsUpTo(repr, tys, |tys|);
    forall k | 0 <= k < |tys| ensures fields[k].ty == tys[k] {
      assert FieldAt(repr, tys, k).ty == tys[k] by { FieldAtType(repr, tys, k); }
    }
    assert TypesOf(fields) == tys;
  }

  lemma FieldAtType(repr: Repr, tys: seq<Type>, k: nat)
    requires k < |tys|
    ensures FieldAt(repr, tys, k).ty == tys[k]
  {
  }

  /** Fields follow each other without overlap. */
  lemma {:induction false} FieldsInOrder(repr: Repr, tys: seq<Type>, i: nat, j: nat)
    requires i < j <= |tys|
    ensures Offset(repr, tys, i) + SizeInBytes(tys[i]) <= End(repr, tys, j)
    ensures j < |tys| ==> End(repr, tys, j) <= Offset(repr, tys, j)
    decreases j
  {
    hide SizeInBytes, FieldAlign;
    if i + 1 < j {
      FieldsInOrder(repr, tys, i, j - 1);
    }
  }

  // getelementptr

  /** A component: its type, and where it starts. */
  datatype Component = Component(ty: Type, offset: nat)

  function Shifted(c: Option<Component>, base: nat): Option<Component> {
    if c.None? then None else Some(Component(c.value.ty, base + c.value.offset))
  }

  /** The component of `ty` selected by one index after the other. */
  function Select(ty: Type, indices: seq<nat>): Option<Component>
    decreases |indices|
  {
    if |indices| == 0 then Some(Component(ty, 0))
    else
      match Step(ty, indices[0])
      case None => None
      case Some(c) => Shifted(Select(c.ty, indices[1..]), c.offset)
  }

  /** The component selected by a single index. */
  function Step(ty: Type, index: nat): Option<Component> {
    match ty
    case Array(element, len) =>
      if index < len then
        MulMono(Stride(element), 0, index);
        Some(Component(element, Stride(element) * index))
      else None
    case Struct(_, _, fields) =>
      if index < |fields| then Some(Component(fields[index].ty, fields[index].offset)) else None
    case _ => None
  }

  method GetElementPtr(pointee: Type, indices: seq<nat>) returns (r: Option<Component>)
    ensures r == if |indices| > 0 && Select(pointee, indices).Some? && Select(pointee, indices).value.offset <= U32_MAX
                 then Select(pointee, indices) else None
  {
    hide SizeInBytes, MinAlignment, NextMultipleOf;
    if |indices| == 0 {
      return None;
    }
    var ty, rest := pointee, indices;
    var offset: nat := 0;
    while |rest| > 0
      invariant Select(pointee, indices) == Shifted(Select(ty, rest), offset)
      decreases |rest|
    {
      var index := rest[0];
      rest := rest[1..];
      match ty {
        case Array(element, len) =>
          if index >= len {
            return None;
          }
          var padded := NextMultipleOf(SizeInBytes(element), MinAlignment(element));
          MulMono(padded, 0, index);
          ty := element;
          offset := offset + padded * index;
        case Struct(_, _, fields) =>
          if index >= |fields| {
            return None;
          }
          ty := fields[index].ty;
          offset := offset + fields[index].offset;
        case _ =>
          return None;
      }
    }
    if offset > U32_MAX {
      return None;
    }
    r := Some(Component(ty, offset));
  }

  // Components lie inside, apart, and aligned

  lemma SizeOfStruct(repr: Repr, size: nat, fields: seq<Field>)
    ensures SizeInBytes(Struct(repr, size, fields)) == size
  {
  }

  lemma {:induction false} StepInside(ty: Type, index: nat)
    requires Built(ty) && Step(ty, index).Some?
    ensures var c := Step(ty, index).value; Built(c.ty) && c.offset + SizeInBytes(c.ty) <= SizeInBytes(ty)
  {
    hide SizeInBytes, SizeInBits, MinAlignment, NextMultipleOf, Offset, Buildable;
    match ty {
      case Array(element, len) =>
        ArraySize(element, len);
        MulMono(Stride(element), index, len - 1);
      case Struct(repr, size, fields) =>
        var tys := TypesOf(fields);
        assert fields[index] == FieldAt(repr, tys, index);
        FieldsInOrder(repr, tys, index, |tys|);
        SizeOfStruct(repr, size, fields);
    }
  }

  /** Every component lies inside its aggregate. */
  lemma {:induction false} SelectInside(ty: Type, indices: seq<nat>)
    requires Built(ty) && Select(ty, indices).Some?
    ensures var c := Select(ty, indices).value; Built(c.ty) && c.offset + SizeInBytes(c.ty) <= SizeInBytes(ty)
    decreases |indices|
  {
    hide SizeInBytes, Step, Built;
    if |indices| > 0 {
      StepInside(ty, indices[0]);
      SelectInside(Step(ty, indices[0]).value.ty, indices[1..]);
    }
  }

  /** `a` ends before `b` starts. */
  predicate Before(a: Component, b: Component) {
    a.offset + SizeInBytes(a.ty) <= b.offset
  }

  lemma {:induction false} StepInOrder(ty: Type, i: nat, j: nat)
    requires Built(ty) && Step(ty, i).Some? && Step(ty, j).Some? && i < j
    ensures Before(Step(ty, i).value, Step(ty, j).value)
  {
    hide SizeInBytes, SizeInBits, MinAlignment, NextMultipleOf, Offset, Buildable;
    match ty {
      case Array(element, len) =>
        var s := Stride(element);
        MulMono(s, i + 1, j);
        assert s * (i + 1) == s * i + s;
      case Struct(repr, size, fields) =>
        var tys := TypesOf(fields);
        assert fields[i] == FieldAt(repr, tys, i) && fields[j] == FieldAt(repr, tys, j);
        FieldsInOrder(repr, tys, i, j);
    }
  }

  /** The two paths part ways at step `k`. */
  predicate PathsPart(p: seq<nat>, q: seq<nat>, k: nat) {
    k < |p| && k < |q| && p[..k] == q[..k] && p[k] != q[k]
  }

  /** The smaller index at the step where the paths part selects the component that comes first, and the two
      share no byte, however the paths go on. */
  lemma {:induction false} SelectInOrder(ty: Type, p: seq<nat>, q: seq<nat>, k: nat)
    requires Built(ty) && Select(ty, p).Some? && Select(ty, q).Some? && PathsPart(p, q, k)
    ensures if p[k] < q[k] then Before(Select(ty, p).value, Select(ty, q).value)
            else Before(Select(ty, q).value, Select(ty, p).value)
    decreases k
  {
    hide SizeInBytes, Step, Built;
    StepInside(ty, p[0]);
    StepInside(ty, q[0]);
    var a, b := Step(ty, p[0]).value, Step(ty, q[0]).value;
    if k == 0 {
      SelectInside(a.ty, p[1..]);
      SelectInside(b.ty, q[1..]);
      if p[0] < q[0] {
        StepInOrder(ty, p[0], q[0]);
      } else {
        StepInOrder(ty, q[0], p[0]);
      }
    } else {
      assert p[..k][0] == q[..k][0];
      assert p[1..][..k - 1] == p[..k][1..] == q[..k][1..] == q[1..][..k - 1];
      SelectInOrder(a.ty, p[1..], q[1..], k - 1);
    }
  }

  /** Selecting along one path and then another is selecting along both. */
  lemma {:induction false} SelectAlong(ty: Type, p: seq<nat>, q: seq<nat>)
    ensures Select(ty, p + q) ==
            match Select(ty, p)
            case None => None
            case Some(c) => Shifted(Select(c.ty, q), c.offset)
    decreases |p|
  {
    hide Step;
    if |p| == 0 {
      assert p + q == q;
    } else {
      assert (p + q)[1..] == p[1..] + q;
      if Step(ty, p[0]).Some? {
        SelectAlong(Step(ty, p[0]).value.ty, p[1..], q);
      }
    }
  }

  /** The first component of every aggregate starts where the aggregate does. */
  lemma {:induction false} SelectFirst(ty: Type, p: seq<nat>)
    requires Built(ty) && Select(ty, p).Some? && forall k :: 0 <= k < |p| ==> p[k] == 0
    ensures Select(ty, p).value.offset == 0
    decreases |p|
  {
    hide SizeInBytes, Step, Built;
    if |p| > 0 {
      StepFirst(ty);
      StepInside(ty, 0);
      SelectFirst(Step(ty, 0).value.ty, p[1..]);
    }
  }

  lemma {:induction false} StepFirst(ty: Type)
    requires Built(ty) && Step(ty, 0).Some?
    ensures Step(ty, 0).value.offset == 0
  {
    hide SizeInBytes, SizeInBits, MinAlignment, FieldAlign, Buildable;
    if ty.Struct? {
      var tys := TypesOf(ty.fields);
      assert ty.fields[0] == FieldAt(ty.repr, tys, 0);
      assert End(ty.repr, tys, 0) == 0;
      MultipleUnique(0, FieldAlign(ty.repr, tys[0]), Offset(ty.repr, tys, 0), 0);
    }
  }

  /** The elements of an array fill it: the last one ends where the array does, and neighbours are equally far
      apart, wherever the array is and whatever is selected inside its elements. */
  lemma {:induction false} ElementsFill(ty: Type, p: seq<nat>, i: nat, r: seq<nat>)
    requires Select(ty, p).Some? && Select(ty, p).value.ty.Array? && i < Select(ty, p).value.ty.len
    requires Select(Select(ty, p).value.ty.element, r).Some?
    ensures var a := Select(ty, p).value; var len := a.ty.len;
            && Select(ty, p + [len - 1]).Some?
            && var last := Select(ty, p + [len - 1]).value;
            && last.ty == a.ty.element
            && last.offset + SizeInBytes(last.ty) == a.offset + SizeInBytes(a.ty)
    ensures var a := Select(ty, p).value;
            && Select(ty, p + [0] + r).Some? && Select(ty, p + [i] + r).Some?
            && Select(ty, p + [i] + r).value.ty == Select(ty, p + [0] + r).value.ty
            && (i + 1 < a.ty.len ==>
                  && Select(ty, p + [1] + r).Some? && Select(ty, p + [i + 1] + r).Some?
                  && Select(ty, p + [i + 1] + r).value.offset - Select(ty, p + [i] + r).value.offset
                     == Select(ty, p + [1] + r).value.offset - Select(ty, p + [0] + r).value.offset)
  {
    hide SizeInBytes, Stride;
    var a := Select(ty, p).value;
    var s: nat := Stride(a.ty.element);
    ArraySize(a.ty.element, a.ty.len);
    ElementAt(ty, p, a.ty.len - 1, []);
    assert p + [a.ty.len - 1] + [] == p + [a.ty.len - 1];
    ElementAt(ty, p, 0, r);
    ElementAt(ty, p, i, r);
    if i + 1 < a.ty.len {
      ElementAt(ty, p, 1, r);
      ElementAt(ty, p, i + 1, r);
      assert s * (i + 1) == s * i + s;
    }
  }

  lemma {:induction false} ElementAt(ty: Type, p: seq<nat>, i: nat, r: seq<nat>)
    requires Select(ty, p).Some? && Select(ty, p).value.ty.Array? && i < Select(ty, p).value.ty.len
    requires Select(Select(ty, p).value.ty.element, r).Some?
    ensures var a, c := Select(ty, p).value, Select(Select(ty, p).value.ty.element, r).value;
            && Stride(a.ty.element) * i >= 0
            && Select(ty, p + [i] + r) == Some(Component(c.ty, a.offset + Stride(a.ty.element) * i + c.offset))
  {
    hide Stride, Select;
    var a := Select(ty, p).value;
    assert p + [i] + r == p + ([i] + r);
    SelectAlong(ty, p, [i] + r);
    ElementHere(a.ty, i, r);
  }

  lemma {:induction false} ElementHere(ty: Type, i: nat, r: seq<nat>)
    requires ty.Array? && i < ty.len && Select(ty.element, r).Some?
    ensures Stride(ty.element) * i >= 0
    ensures Select(ty, [i] + r) == Shifted(Select(ty.element, r), Stride(ty.element) * i)
  {
    hide SizeInBytes, MinAlignment, NextMultipleOf, Select;
    SelectHead(ty, i, r);
  }

  lemma {:induction false} SelectHead(ty: Type, i: nat, r: seq<nat>)
    ensures Select(ty, [i] + r) ==
            match Step(ty, i)
            case None => None
            case Some(c) => Shifted(Select(c.ty, r), c.offset)
  {
    hide Step;
    assert ([i] + r)[1..] == r;
  }

  /** No struct inside lowers the alignment of its fields: all have the default representation, or raise
      the alignment to a power of two. */
  ghost predicate NaturallyAligned(ty: Type) {
    match ty
    case Struct(repr, _, fields) =>
      && (repr.Default? || (repr.Align? && IsPowerOfTwo(repr.align) && MaxMinAlignment(TypesOf(fields)) <= repr.align))
      && forall k :: 0 <= k < |fields| ==> NaturallyAligned(fields[k].ty)
    case Array(element, _) => NaturallyAligned(element)
    case _ => true
  }

  lemma SmallPowers()
    ensures IsPowerOfTwo(1) && IsPowerOfTwo(2) && IsPowerOfTwo(4) && IsPowerOfTwo(16)
  {
    assert IsPowerOfTwo(8);
  }

  /** The field of a built struct, and what was checked when it was placed. */
  lemma {:induction false} BuiltField(ty: Type, k: nat)
    requires Built(ty) && ty.Struct? && !ty.repr.Transparent? && k < |ty.fields|
    ensures var f := ty.fields[k];
            f.align == FieldAlign(ty.repr, f.ty) && IsPowerOfTwo(f.align) && f.offset % f.align == 0
  {
    hide SizeInBytes, MinAlignment, NextMultipleOf, IsPowerOfTwo, MaxMinAlignment;
    var tys := TypesOf(ty.fields);
    assert ty.fields[k] == FieldAt(ty.repr, tys, k) && FieldFits(ty.repr, tys, k);
  }

  lemma {:induction false} AlignmentIsPower(ty: Type)
    requires Built(ty) && NaturallyAligned(ty)
    ensures IsPowerOfTwo(MinAlignment(ty))
  {
    SmallPowers();
    match ty {
      case Array(element, _) => AlignmentIsPower(element);
      case Struct(Default, _, fields) =>
        hide Built, IsPowerOfTwo, NaturallyAligned, FieldAlign;
        if k :| 0 <= k < |fields| && fields[k].align == MaxFieldAlign(fields) {
          BuiltField(ty, k);
        }
      case _ =>
    }
  }

  lemma {:induction false} StepAligned(ty: Type, index: nat)
    requires Built(ty) && NaturallyAligned(ty) && Step(ty, index).Some?
    ensures var c := Step(ty, index).value; var a: nat := MinAlignment(c.ty);
            NaturallyAligned(c.ty) && c.offset % a == 0 && MinAlignment(ty) % a == 0
  {
    match ty {
      case Array(element, _) =>
        StrideMultiple(element, index);
      case Struct(repr, _, fields) =>
        BuiltField(ty, index);
        FieldAlignBelow(ty, index);
        AlignmentIsPower(ty);
        PowersDivide(fields[index].align, MinAlignment(ty));
    }
  }

  lemma {:induction false} StrideMultiple(element: Type, index: nat)
    ensures Stride(element) * index >= 0 && (Stride(element) * index) % MinAlignment(element) == 0
    ensures MinAlignment(element) % MinAlignment(element) == 0
  {
    hide MinAlignment, SizeInBytes, NextMultipleOf, Stride;
    var s: nat := Stride(element);
    var a: nat := MinAlignment(element);
    MulMono(s, 0, index);
    ModOfMultiple(a, 1);
    if s > 0 {
      ModOfMultiple(s, index);
      DividesTrans(s * index, s, a);
    }
  }

  lemma {:induction false} FieldAlignBelow(ty: Type, k: nat)
    requires Built(ty) && NaturallyAligned(ty) && ty.Struct? && k < |ty.fields|
    ensures ty.fields[k].align == MinAlignment(ty.fields[k].ty) && ty.fields[k].align <= MinAlignment(ty)
    ensures NaturallyAligned(ty.fields[k].ty)
  {
    hide SizeInBytes, NextMultipleOf, IsPowerOfTwo;
    BuiltField(ty, k);
    assert TypesOf(ty.fields)[k] == ty.fields[k].ty;
  }

  /** Where no struct is packed, every component is aligned for its type, relative to an aligned aggregate. */
  lemma {:induction false} SelectAligned(ty: Type, indices: seq<nat>)
    requires Built(ty) && NaturallyAligned(ty) && Select(ty, indices).Some?
    ensures var c := Select(ty, indices).value; var a: nat := MinAlignment(c.ty);
            c.offset % a == 0 && MinAlignment(ty) % a == 0
    decreases |indices|
  {
    hide MinAlignment, Step, Built, NaturallyAligned;
    if |indices| == 0 {
      ModOfMultiple(MinAlignment(ty), 1);
    } else {
      StepAligned(ty, indices[0]);
      StepInside(ty, indices[0]);
      var s := Step(ty, indices[0]).value;
      SelectAligned(s.ty, indices[1..]);
      var c := Select(s.ty, indices[1..]).value;
      DividesTrans(s.offset, MinAlignment(s.ty), MinAlignment(c.ty));
      DividesTrans(MinAlignment(ty), MinAlignment(s.ty), MinAlignment(c.ty));
      AddMultiple(s.offset, c.offset, MinAlignment(c.ty));
    }
  }

  /** A packed struct puts a field where its type is not aligned. */
  lemma PackedMisaligns()
    ensures var ty := StructOf(Packed(1), [U8, U32]);
            Buildable(Packed(1), [U8, U32]) && Step(ty, 1) == Some(Component(U32, 1)) && MinAlignment(U32) == 4
  {
    SmallPowers();
    var tys := [U8, U32];
    assert MaxMinAlignment(tys[1..]) == 4;
    assert End(Packed(1), tys, 1) == 1 && Offset(Packed(1), tys, 1) == 1 && End(Packed(1), tys, 2) == 5;
    assert StructOf(Packed(1), tys).fields[1] == FieldAt(Packed(1), tys, 1);
  }

  // Where fields are placed

  /** `r` is the least number from `n` on that is a multiple of `m`. */
  ghost predicate IsLeastMultiple(r: nat, n: nat, m: nat) {
    m > 0 && n <= r && r % m == 0 && forall s: nat {:trigger s % m} :: n <= s && s % m == 0 ==> r <= s
  }

  lemma NextIsLeast(n: nat, m: nat)
    requires m > 0
    ensures IsLeastMultiple(NextMultipleOf(n, m), n, m)
  {
    var r := NextMultipleOf(n, m);
    forall s: nat | n <= s && s % m == 0 ensures r <= s {
      if s < r {
        MultipleGap(s, r, m);
      }
    }
  }

  /** Where field `k` of a struct may start. */
  function EndBefore(fields: seq<Field>, k: nat): nat
    requires k <= |fields|
  {
    if k == 0 then 0 else fields[k - 1].offset + SizeInBytes(fields[k - 1].ty)
  }

  /** Each field of a packed struct starts at the least possible multiple of its own alignment or of the
      requested one, whichever is smaller; the size of the struct is rounded up in the same way. */
  lemma {:induction false} PackedPlacement(tys: seq<Type>, a: Alignment, k: nat)
    requires k < |tys|
    ensures var ty := StructOf(Packed(a), tys);
            && ty.fields[k].ty == tys[k]
            && IsLeastMultiple(ty.fields[k].offset, EndBefore(ty.fields, k),
                               if MinAlignment(tys[k]) < a then MinAlignment(tys[k]) else a)
            && IsLeastMultiple(ty.size, EndBefore(ty.fields, |tys|),
                               if MaxMinAlignment(tys) < a then MaxMinAlignment(tys) else a)
  {
    hide SizeInBytes, MinAlignment, MaxMinAlignment, NextMultipleOf;
    EndIsBefore(Packed(a), tys, k);
    EndIsBefore(Packed(a), tys, |tys|);
    NextIsLeast(End(Packed(a), tys, k), FieldAlign(Packed(a), tys[k]));
    NextIsLeast(End(Packed(a), tys, |tys|), StructAlign(Packed(a), tys));
  }

  /** With the default representation the alignments of the types are kept, and a raised alignment only
      changes the size. */
  lemma {:induction false} DefaultPlacement(tys: seq<Type>, repr: Repr, k: nat)
    requires PlacesByDefault(repr) && k < |tys|
    ensures var ty := StructOf(repr, tys);
            && ty.fields[k].ty == tys[k]
            && IsLeastMultiple(ty.fields[k].offset, EndBefore(ty.fields, k), MinAlignment(tys[k]))
            && IsLeastMultiple(ty.size, EndBefore(ty.fields, |tys|),
                               if repr.Align? && MaxMinAlignment(tys) < repr.align then repr.align
                               else MaxMinAlignment(tys))
  {
    hide SizeInBytes, MinAlignment, MaxMinAlignment, NextMultipleOf;
    EndIsBefore(repr, tys, k);
    EndIsBefore(repr, tys, |tys|);
    NextIsLeast(End(repr, tys, k), FieldAlign(repr, tys[k]));
    NextIsLeast(End(repr, tys, |tys|), StructAlign(repr, tys));
  }

  lemma {:induction false} EndIsBefore(repr: Repr, tys: seq<Type>, k: nat)
    requires k <= |tys|
    ensures EndBefore(FieldsUpTo(repr, tys, |tys|), k) == End(repr, tys, k)
  {
    hide SizeInBytes, Offset, FieldAlign;
    if k > 0 {
      assert FieldsUpTo(repr, tys, |tys|)[k - 1] == FieldAt(repr, tys, k - 1);
    }
  }

  function TotalSize(tys: seq<Type>): nat {
    if |tys| == 0 then 0 else TotalSize(tys[..|tys| - 1]) + SizeInBytes(tys[|tys| - 1])
  }

  /** With `Packed(1)` there is no padding anywhere. */
  lemma {:induction false} PackedOneIsTight(tys: seq<Type>, k: nat)
    requires k <= |tys|
    ensures k < |tys| ==> StructOf(Packed(1), tys).fields[k].offset == TotalSize(tys[..k])
    ensures StructOf(Packed(1), tys).size == TotalSize(tys)
  {
    hide SizeInBytes, MinAlignment, MaxMinAlignment, NextMultipleOf;
    TightEnd(tys, k);
    TightEnd(tys, |tys|);
    assert tys[..|tys|] == tys;
    NextMultipleOfOne(End(Packed(1), tys, |tys|));
    if k < |tys| {
      NextMultipleOfOne(End(Packed(1), tys, k));
    }
  }

  lemma {:induction false} TightEnd(tys: seq<Type>, k: nat)
    requires k <= |tys|
    ensures End(Packed(1), tys, k) == TotalSize(tys[..k])
    decreases k
  {
    hide SizeInBytes, MinAlignment, NextMultipleOf;
    if k > 0 {
      TightEnd(tys, k - 1);
      assert tys[..k][..k - 1] == tys[..k - 1];
      NextMultipleOfOne(End(Packed(1), tys, k - 1));
    }
  }

  /** A packed alignment no smaller than the default one leaves size and fields as they are. */
  lemma {:induction false} HighPackedKeepsLayout(tys: seq<Type>, a: Alignment)
    requires MaxMinAlignment(tys) <= a
    ensures Buildable(Packed(a), tys) <==> Buildable(Default, tys)
    ensures StructOf(Packed(a), tys).size == StructOf(Default, tys).size
    ensures StructOf(Packed(a), tys).fields == StructOf(Default, tys).fields
  {
    hide SizeInBytes, MinAlignment, NextMultipleOf, End, Offset, MaxMinAlignment, FieldFits, FieldsUpTo;
    HighPackedOffsets(tys, a, |tys|);
    forall k | 0 <= k < |tys| ensures FieldFits(Packed(a), tys, k) <==> FieldFits(Default, tys, k) {
      HighPackedFits(tys, a, k);
    }
  }

  lemma {:induction false} HighPackedOffsets(tys: seq<Type>, a: Alignment, k: nat)
    requires MaxMinAlignment(tys) <= a && k <= |tys|
    ensures End(Packed(a), tys, k) == End(Default, tys, k)
    ensures k < |tys| ==> Offset(Packed(a), tys, k) == Offset(Default, tys, k)
    ensures FieldsUpTo(Packed(a), tys, k) == FieldsUpTo(Default, tys, k)
    decreases k
  {
    hide SizeInBytes, MinAlignment, NextMultipleOf, MaxMinAlignment;
    if k > 0 {
      HighPackedOffsets(tys, a, k - 1);
    }
  }

  lemma {:induction false} HighPackedFits(tys: seq<Type>, a: Alignment, k: nat)
    requires MaxMinAlignment(tys) <= a && k < |tys|
    ensures FieldFits(Packed(a), tys, k) <==> FieldFits(Default, tys, k)
  {
    hide SizeInBytes, MinAlignment, End, IsPowerOfTwo, MaxMinAlignment;
    HighPackedOffsets(tys, a, k + 1);
  }

  /** The alignment of a packed struct is the requested one, so it is left alone exactly if the request equals
      the default. */
  lemma {:induction false} PackedAlignmentIff(tys: seq<Type>, a: Alignment)
    ensures MinAlignment(StructOf(Packed(a), tys)) == MinAlignment(StructOf(Default, tys))
            <==> a == MaxMinAlignment(tys)
  {
    DefaultAlignment(tys);
    hide SizeInBytes, NextMultipleOf, End, Offset, MaxMinAlignment, FieldsUpTo;
  }

  /** A transparent struct is laid out like its only field with a size: same place, size and alignment. */
  lemma {:induction false} TransparentIsField(tys: seq<Type>, k: nat)
    requires Buildable(Transparent, tys) && k < |tys| && SizeInBytes(tys[k]) > 0
    ensures var ty := StructOf(Transparent, tys);
            && ty.fields[k].ty == tys[k] && ty.fields[k].offset == 0
            && ty.size == SizeInBytes(tys[k]) && MinAlignment(ty) == MinAlignment(tys[k])
  {
    hide SizeInBytes, MaxMinAlignment, MaxFieldAlign;
    forall j | 0 <= j < |tys| && j != k ensures SizeInBytes(tys[j]) == 0 {
      if j < k {
        FieldsInOrder(Transparent, tys, j, k);
        assert FieldFits(Transparent, tys, k);
      } else {
        FieldsInOrder(Transparent, tys, k, j);
        assert FieldFits(Transparent, tys, j);
      }
    }
    assert FieldFits(Transparent, tys, k);
    TransparentEnd(tys, k, |tys|);
    NextMultipleOfOne(End(Transparent, tys, |tys|));
    OneAlignment(FieldsUpTo(Transparent, tys, |tys|), k);
  }

  /** The fields before `k` end with the only one that has a size. */
  lemma {:induction false} TransparentEnds(tys: seq<Type>, k: nat)
    requires k <= |tys| && forall i, j :: 0 <= i < j < |tys| ==> SizeInBytes(tys[i]) == 0 || SizeInBytes(tys[j]) == 0
    ensures if forall j :: 0 <= j < k ==> SizeInBytes(tys[j]) == 0 then End(Transparent, tys, k) == 0
            else exists j :: 0 <= j < k && End(Transparent, tys, k) == SizeInBytes(tys[j]) > 0
    decreases k
  {
    hide SizeInBytes;
    if k > 0 {
      TransparentEnds(tys, k - 1);
    }
  }

  /** A transparent struct is accepted exactly if there are not too many fields, none is too large, and at most one
      has a size. */
  lemma {:induction false} TransparentFitsIff(tys: seq<Type>)
    ensures Buildable(Transparent, tys) <==>
            && |tys| <= MAX_FIELDS
            && (forall k :: 0 <= k < |tys| ==> SizeInBytes(tys[k]) <= U32_MAX)
            && forall i, j :: 0 <= i < j < |tys| ==> SizeInBytes(tys[i]) == 0 || SizeInBytes(tys[j]) == 0
  {
    hide SizeInBytes;
    if Buildable(Transparent, tys) {
      forall i, j | 0 <= i < j < |tys| ensures SizeInBytes(tys[i]) == 0 || SizeInBytes(tys[j]) == 0 {
        FieldsInOrder(Transparent, tys, i, j);
        assert FieldFits(Transparent, tys, j);
      }
      forall k | 0 <= k < |tys| ensures SizeInBytes(tys[k]) <= U32_MAX {
        assert FieldFits(Transparent, tys, k);
      }
    }
    if !Buildable(Transparent, tys) && |tys| <= MAX_FIELDS {
      var k :| 0 <= k < |tys| && !FieldFits(Transparent, tys, k);
      if forall i, j :: 0 <= i < j < |tys| ==> SizeInBytes(tys[i]) == 0 || SizeInBytes(tys[j]) == 0 {
        TransparentEnds(tys, k);
        TransparentEnds(tys, k + 1);
        assert exists j :: 0 <= j < |tys| && SizeInBytes(tys[j]) > U32_MAX;
      }
    }
  }

  lemma {:induction false} TransparentEnd(tys: seq<Type>, k: nat, n: nat)
    requires k < n <= |tys| && End(Transparent, tys, k) == 0
    requires forall j :: k < j < |tys| ==> SizeInBytes(tys[j]) == 0
    ensures End(Transparent, tys, n) == SizeInBytes(tys[k])
    decreases n
  {
    hide SizeInBytes;
    if n > k + 1 {
      TransparentEnd(tys, k, n - 1);
    }
  }

  lemma {:induction false} OneAlignment(fields: seq<Field>, k: nat)
    requires k < |fields| && forall j :: 0 <= j < |fields| && j != k ==> fields[j].align == 1
    ensures MaxFieldAlign(fields) == fields[k].align
  {
    hide MaxFieldAlign;
    var a := MaxFieldAlign(fields);
    if a != 1 {
      var j :| 0 <= j < |fields| && fields[j].align == a;
    }
  }

  // What a requested alignment changes

  predicate PlacesByDefault(repr: Repr) {
    repr.Default? || repr.Align?
  }

  /** Raising the alignment of a struct does not move its fields. */
  lemma {:induction false} SameOffsets(repr: Repr, tys: seq<Type>, k: nat)
    requires PlacesByDefault(repr) && k <= |tys|
    ensures End(repr, tys, k) == End(Default, tys, k)
    ensures k < |tys| ==> Offset(repr, tys, k) == Offset(Default, tys, k)
    ensures FieldsUpTo(repr, tys, k) == FieldsUpTo(Default, tys, k)
    decreases k
  {
    hide SizeInBytes, MinAlignment, NextMultipleOf;
    if k > 0 {
      SameOffsets(repr, tys, k - 1);
    }
  }

  lemma SameFits(repr: Repr, tys: seq<Type>, k: nat)
    requires PlacesByDefault(repr) && k < |tys|
    ensures FieldFits(repr, tys, k) <==> FieldFits(Default, tys, k)
  {
    hide SizeInBytes, MinAlignment, End, IsPowerOfTwo;
    SameOffsets(repr, tys, k + 1);
  }

  /** The alignment of a struct with the default representation is the largest among its fields. */
  lemma {:induction false} DefaultAlignment(tys: seq<Type>)
    ensures MinAlignment(StructOf(Default, tys)) == MaxMinAlignment(tys)
  {
    hide SizeInBytes, NextMultipleOf, End, Offset, MaxMinAlignment, MaxFieldAlign;
    var fields := FieldsUpTo(Default, tys, |tys|);
    assert forall k :: 0 <= k < |tys| ==> fields[k].align == MinAlignment(tys[k]);
    var a, b := MaxFieldAlign(fields), MaxMinAlignment(tys);
    if a != 1 {
      var k :| 0 <= k < |fields| && fields[k].align == a;
      assert MinAlignment(tys[k]) <= b;
    }
    if b != 1 {
      var k :| 0 <= k < |tys| && MinAlignment(tys[k]) == b;
      assert fields[k].align <= a;
    }
  }

  /** A requested alignment no larger than the default one leaves size and fields as they are. */
  lemma {:induction false} LowAlignKeepsLayout(tys: seq<Type>, a: Alignment)
    requires Buildable(Default, tys) && a <= MaxMinAlignment(tys)
    ensures Buildable(Align(a), tys)
    ensures StructOf(Align(a), tys).size == StructOf(Default, tys).size
    ensures StructOf(Align(a), tys).fields == StructOf(Default, tys).fields
  {
    hide SizeInBytes, MinAlignment, NextMultipleOf, End, Offset, MaxMinAlignment, FieldFits;
    SameOffsets(Align(a), tys, |tys|);
    forall k | 0 <= k < |tys| ensures FieldFits(Align(a), tys, k) {
      SameFits(Align(a), tys, k);
    }
  }

  /** Its alignment agrees with the way it is laid out exactly if the request is no smaller than the default;
      below the default the request has no effect on the alignment exactly if it asks for the default. */
  lemma {:induction false} AlignEffectIff(tys: seq<Type>, a: Alignment)
    ensures MinAlignment(StructOf(Align(a), tys)) == StructAlign(Align(a), tys) <==> MaxMinAlignment(tys) <= a
    ensures a <= MaxMinAlignment(tys) ==>
              (MinAlignment(StructOf(Align(a), tys)) == MinAlignment(StructOf(Default, tys))
               <==> a == MaxMinAlignment(tys))
  {
    DefaultAlignment(tys);
    hide SizeInBytes, NextMultipleOf, End, Offset, MaxMinAlignment, FieldsUpTo;
  }

  /** A requested alignment below that of the fields still becomes the alignment of the struct, although
      its documentation says that it has no effect. */
  lemma LowAlignHasEffect()
    ensures Buildable(Align(2), [U32]) && MinAlignment(StructOf(Align(2), [U32])) == 2 < MinAlignment(U32)
  {
    SmallPowers();
    assert MaxMinAlignment([U32][1..]) == 1;
    assert End(Align(2), [U32], 1) == 4;
  }
}
