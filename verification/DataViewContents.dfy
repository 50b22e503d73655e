/** What elements of a DataView hold, kind by kind, in numbers and bytes. */
module DataViewContents {
  import opened Prelude
  import opened Arith
  import opened BigIntOps
  import opened ByteOrder
  import opened ArrayBuffers
  import opened DataViews
  import opened BufferHistories
  import opened DataViewElements

  // ----- the kinds, written out -----

  function Size(k: Kind): nat {
    match k
    case Uint8 => 1
    case Int8 => 1
    case Uint16 => 2
    case Int16 => 2
    case Uint32 => 4
    case Int32 => 4
    case BigUint64 => 8
    case BigInt64 => 8
  }

  predicate SameModulo(x: int, y: int, m: int)
    requires m > 0
  {
    (x - y) % m == 0
  }

  /** The value an element of that kind has for an integer. */
  predicate Holds(k: Kind, x: int, r: int) {
    match k
    case Uint8 => 0 <= r <= 0xff && SameModulo(x, r, 0x100)
    case Int8 => -0x80 <= r <= 0x7f && SameModulo(x, r, 0x100)
    case Uint16 => 0 <= r <= 0xffff && SameModulo(x, r, 0x1_0000)
    case Int16 => -0x8000 <= r <= 0x7fff && SameModulo(x, r, 0x1_0000)
    case Uint32 => 0 <= r <= 0xffff_ffff && SameModulo(x, r, 0x1_0000_0000)
    case Int32 => -0x8000_0000 <= r <= 0x7fff_ffff && SameModulo(x, r, 0x1_0000_0000)
    case BigUint64 => 0 <= r <= 0xffff_ffff_ffff_ffff && SameModulo(x, r, 0x1_0000_0000_0000_0000)
    case BigInt64 => -0x8000_0000_0000_0000 <= r <= 0x7fff_ffff_ffff_ffff && SameModulo(x, r, 0x1_0000_0000_0000_0000)
  }

  /** The integer that an operand stands for: a number's integer part, 0 when it has none, or the BigInt itself. */
  predicate Stands(x: Operand, n: int) {
    match x
    case Num(Finite(v)) => IntegerPart(v, n)
    case Num(_) => n == 0
    case Big(v) => n == v
  }

  /** Numbers are written without loss, and BigInts that an i128 has room for or that are multiples of 2^64. */
  predicate Survives(x: Operand) {
    x.Big? ==>
      -0x8000_0000_0000_0000_0000_0000_0000_0000 <= x.v <= 0x7fff_ffff_ffff_ffff_ffff_ffff_ffff_ffff
      || x.v % 0x1_0000_0000_0000_0000 == 0
  }

  // ----- powers of two -----

  lemma Powers()
    ensures Pow2(7) == 0x80 && Pow2(8) == 0x100 && Pow2(15) == 0x8000 && Pow2(16) == 0x1_0000
    ensures Pow2(31) == 0x8000_0000 && Pow2(32) == 0x1_0000_0000
    ensures Pow2(63) == 0x8000_0000_0000_0000 && Pow2(64) == 0x1_0000_0000_0000_0000
  {
    assert Pow2(4) == 16;
    Pow2Add(4, 3);
    Pow2Add(4, 4);
    Pow2Add(8, 7);
    Pow2Add(8, 8);
    Pow2Add(16, 15);
    Pow2Add(16, 16);
    Pow2Add(32, 31);
    Pow2Add(32, 32);
  }

  lemma SizeIsWidth(k: Kind)
    ensures Size(k) == Width(k)
  {
  }

  lemma ResidueSame(x: int, m: int)
    requires m > 0
    ensures SameModulo(x, x % m, m)
  {
    DivModForm(x, m);
    MultipleMod(x / m, m);
  }

  lemma SameUnique(x: int, r: int, s: int, m: int)
    requires m > 0 && SameModulo(x, r, m) && SameModulo(x, s, m) && -m < r - s < m
    ensures r == s
  {
    DivModForm(x - r, m);
    DivModForm(x - s, m);
    var d := (x - s) / m - (x - r) / m;
    assert r - s == d * m;
    MulAtLeast(d, m);
  }

  lemma RepresentativeHolds(k: Kind, x: int)
    ensures Holds(k, x, Representative(k, x))
  {
    Powers();
    SizeIsWidth(k);
    var m := Pow2(8 * Width(k));
    ResidueSame(x, m);
    assert (x - (x % m - m)) % m == (x - x % m + m) % m;
    ModAddMultiple(x - x % m, 1, m);
  }

  /** No other value would do. */
  lemma HoldsUnique(k: Kind, x: int, r: int, s: int)
    requires Holds(k, x, r) && Holds(k, x, s)
    ensures r == s
  {
    Powers();
    SameUnique(x, r, s, Pow2(8 * Size(k)));
  }

  lemma MeantStands(x: Operand, n: int)
    requires Stands(x, n)
    ensures Meant(x) == n
  {
  }

  lemma CarriedIsSurvives(x: Operand)
    ensures Carried(x) <==> Survives(x)
  {
    Powers();
  }

  // ----- a get after a set -----

  /** Reading, in the same byte order and with nothing in between, an element of the same size as was written. For every
      kind the value is the written integer's, exactly when the operand survives. */
  lemma GetReadsSet(b: BufferState, v: View, k: Kind, offset: Coercion<Number>, value: Coercion<Operand>, little: bool,
                    reader: Kind, again: Coercion<Number>, n: int)
    requires Consistent(b) && ViewOk(b, v)
    requires Set(b, v, k, offset, value, little).0.Ok?
    requires Suits(k, value.outcome.value) && Stands(value.outcome.value, n)
    requires Size(reader) == Size(k) && again.actions == [] && IndexOf(again) == IndexOf(offset)
    ensures var (r, _) := Get(Set(b, v, k, offset, value, little).1, v, reader, again, little);
            r.Ok? && (Holds(reader, n, r.value) <==> Survives(value.outcome.value))
  {
    assert value.outcome.Ok?;
    hide Set, Get, Representative, Holds, Survives, Carried, Stands, ViewOk, IndexOf;
    SizeIsWidth(k);
    SizeIsWidth(reader);
    GetAfterSet(b, v, k, offset, value, little, reader, again);
    MeantStands(value.outcome.value, n);
    CarriedIsSurvives(value.outcome.value);
    RepresentativeHolds(reader, n);
    var r := Get(Set(b, v, k, offset, value, little).1, v, reader, again, little).0.value;
    if Holds(reader, n, r) { HoldsUnique(reader, n, r, Representative(reader, n)); }
  }

  // ----- the bytes of a set -----

  /** 256 to the power of j. */
  function PlaceValue(j: nat): (p: nat)
    ensures p > 0
  {
    if j == 0 then 1 else 0x100 * PlaceValue(j - 1)
  }

  /** The byte of an integer in that place, in two's complement for a negative one. */
  function ByteOf(n: int, j: nat): (b: byte) {
    n / PlaceValue(j) % 0x100
  }

  lemma {:induction false} PlacesArePowers(j: nat)
    ensures PlaceValue(j) == Modulus(j)
  {
    if j > 0 {
      PlacesArePowers(j - 1);
      ModulusStep(j);
    }
  }

  lemma DivTwice(n: int, a: int, b: int)
    requires a > 0 && b > 0
    ensures a * b > 0 && n / a / b == n / (a * b)
  {
    DivModForm(n, a);
    DivModForm(n / a, b);
    var q, r, s := n / a / b, n / a % b, n % a;
    assert n == (q * b + r) * a + s;
    assert (q * b + r) * a == q * (a * b) + r * a;
    assert r * a + s < b * a by { assert r * a <= (b - 1) * a; assert (b - 1) * a == b * a - a; }
    assert r * a >= 0;
    DivModUnique(n, q, a * b, r * a + s);
  }

  lemma {:induction false} LittleByte(n: nat, w: nat, j: nat)
    requires j < w
    ensures ToLittle(n, w)[j] == ByteOf(n, j)
    decreases j
  {
    if j > 0 {
      LittleByte(n / 256, w - 1, j - 1);
      DivTwice(n, 256, PlaceValue(j - 1));
    }
  }

  /** A residue has the bytes of the integer. */
  lemma ResidueByte(n: int, w: nat, j: nat)
    requires j < w
    ensures ByteOf(n % Modulus(w), j) == ByteOf(n, j)
  {
    hide PlaceValue;
    var m, p := Modulus(w), PlaceValue(j);
    var c := HigherPlaces(w, j);
    DivModForm(n, m);
    var u, k := n % m, n / m;
    Regrouped(k, c, p, m);
    ByteKept(u, k * c, p);
  }

  /** The modulus has the place and one byte more as factors. */
  lemma HigherPlaces(w: nat, j: nat) returns (c: nat)
    requires j < w
    ensures Modulus(w) == c * (0x100 * PlaceValue(j))
  {
    PlacesArePowers(j);
    ModulusStep(w - j);
    Pow2Add(8 * j, 8 * (w - j));
    c := Modulus(w - j - 1);
    assert Modulus(w) == Modulus(j) * (0x100 * c);
  }

  lemma Regrouped(k: int, c: int, p: int, m: int)
    requires m == c * (0x100 * p)
    ensures k * m == (k * c) * 0x100 * p
  {
  }

  lemma ByteKept(u: int, t: int, p: int)
    requires p > 0
    ensures (u + t * 0x100 * p) / p % 0x100 == u / p % 0x100
  {
    DivShift(u, t * 0x100, p);
    ModAddMultiple(u / p, t, 0x100);
  }

  lemma DivShift(u: int, k: int, p: int)
    requires p > 0
    ensures (u + k * p) / p == u / p + k
  {
    DivModForm(u, p);
    assert u + k * p == (u / p + k) * p + u % p;
    DivModUnique(u + k * p, u / p + k, p, u % p);
  }

  lemma EncodedByte(u: nat, w: nat, little: bool, j: nat)
    requires j < w
    ensures Encode(u, w, little)[if little then j else w - 1 - j] == ByteOf(u, j)
  {
    hide ByteOf, ToLittle, ToBig, Modulus;
    LittleByte(u, w, j);
    ToBigReverses(u, w);
  }

  /** The buffer as user code leaves it when both arguments have been coerced. */
  function AfterCoercions(b: BufferState, offset: Coercion<Number>, value: Coercion<Operand>): BufferState {
    ActAll(ActAll(b, offset.actions), value.actions)
  }

  /** A set stores the 1, 2, 4 or 8 bytes of the integer at the view's offset and the index, least significant first or
      last, and changes nothing else. */
  lemma SetStoresBytes(b: BufferState, v: View, k: Kind, offset: Coercion<Number>, value: Coercion<Operand>, little: bool, n: int)
    requires Consistent(b) && ViewOk(b, v)
    requires Set(b, v, k, offset, value, little).0.Ok?
    requires Suits(k, value.outcome.value) && Stands(value.outcome.value, n) && Survives(value.outcome.value)
    ensures var before, after := AfterCoercions(b, offset, value), Set(b, v, k, offset, value, little).1;
      var base := v.byteOffset + IndexOf(offset).value;
      && after == before.(bytes := after.bytes) && |after.bytes| == |before.bytes| && base + Size(k) <= |after.bytes|
      && (forall j :: 0 <= j < Size(k) ==> after.bytes[base + if little then j else Size(k) - 1 - j] == ByteOf(n, j))
      && (forall i :: 0 <= i < |after.bytes| && !(base <= i < base + Size(k)) ==> after.bytes[i] == before.bytes[i])
  {
    hide ActAll, Stored, Encode, Raw, Survives, Carried, Stands, ViewOk, IndexOf, ByteOf, Suits;
    var (r, before) := ValidateSet(b, Some(v), offset, value, Width(k));
    ValidatedSetInBounds(b, v, offset, value, Width(k));
    SizeIsWidth(k);
    var x, w := value.outcome.value, Width(k);
    var data := Encode(Raw(k, x), w, little);
    var base := v.byteOffset + IndexOf(offset).value;
    BytesStored(before.bytes, base, data);
    DataBytes(k, x, n, little);
  }

  lemma DataBytes(k: Kind, x: Operand, n: int, little: bool)
    requires Suits(k, x) && Stands(x, n) && Survives(x)
    ensures var w, data := Width(k), Encode(Raw(k, x), Width(k), little);
      forall j :: 0 <= j < w ==> data[if little then j else w - 1 - j] == ByteOf(n, j)
  {
    hide Encode, Raw, Survives, Carried, Stands, ByteOf;
    var w, data := Width(k), Encode(Raw(k, x), Width(k), little);
    MeantStands(x, n);
    CarriedIsSurvives(x);
    RawExact(k, x);
    forall j | 0 <= j < w ensures data[if little then j else w - 1 - j] == ByteOf(n, j) {
      EncodedByte(Raw(k, x), w, little, j);
      ResidueByte(n, w, j);
    }
  }

  lemma BytesStored(bytes: seq<byte>, base: nat, data: seq<byte>)
    requires base + |data| <= |bytes|
    ensures var s := Stored(bytes, base, data);
      && |s| == |bytes|
      && (forall j :: 0 <= j < |data| ==> s[base + j] == data[j])
      && (forall i :: 0 <= i < |bytes| && !(base <= i < base + |data|) ==> s[i] == bytes[i])
  {
  }

  // ----- which accesses succeed -----

  /** A set succeeds exactly when the buffer may change, both coercions succeed, and the element lies among the bytes
      that the view shows after them. */
  lemma SetSucceedsIff(b: BufferState, v: View, k: Kind, offset: Coercion<Number>, value: Coercion<Operand>, little: bool)
    requires Consistent(b) && ViewOk(b, v)
    ensures Set(b, v, k, offset, value, little).0.Ok? <==>
      && !b.immutable && offset.outcome.Ok? && value.outcome.Ok?
      && exists n: nat :: IsIndex(offset.outcome.value, n) && Fits(AfterCoercions(b, offset, value), v, n, Size(k))
  {
    hide ActAll, IsIndex, Raw, Encode, Stored;
    SizeIsWidth(k);
    if offset.outcome.Ok? && IndexOf(offset).Ok? {
      var n := IndexOf(offset).value;
      IndexIff(offset, n);
      ActAllKeepsView(b, offset.actions, v);
      ActAllKeepsView(ActAll(b, offset.actions), value.actions, v);
      CheckBoundsExact(AfterCoercions(b, offset, value), v, n, Width(k));
    }
    forall n: nat ensures IndexOf(offset) == Ok(n) <==> offset.outcome.Ok? && IsIndex(offset.outcome.value, n) { IndexIff(offset, n); }
  }

  predicate Fits(b: BufferState, v: View, index: nat, size: nat) {
    Shown(b, v).Some? && index + size <= |Shown(b, v).value|
  }

  lemma GetSucceedsIff(b: BufferState, v: View, k: Kind, offset: Coercion<Number>, little: bool)
    requires Consistent(b) && ViewOk(b, v)
    ensures Get(b, v, k, offset, little).0.Ok? <==>
      && offset.outcome.Ok?
      && exists n: nat :: IsIndex(offset.outcome.value, n) && Fits(ActAll(b, offset.actions), v, n, Size(k))
  {
    hide ActAll, IsIndex, Reinterpret, Decode, BytesAt;
    SizeIsWidth(k);
    if offset.outcome.Ok? && IndexOf(offset).Ok? {
      var n := IndexOf(offset).value;
      ActAllKeepsView(b, offset.actions, v);
      CheckBoundsExact(ActAll(b, offset.actions), v, n, Width(k));
    }
    forall n: nat ensures IndexOf(offset) == Ok(n) <==> offset.outcome.Ok? && IsIndex(offset.outcome.value, n) { IndexIff(offset, n); }
  }

  /** Which error a get throws: the coercion's own; out of range for a number that is no index; for its type when the
      view has no bytes to show any more, and else out of range when the element is not among them. */
  lemma GetErrors(b: BufferState, v: View, k: Kind, offset: Coercion<Number>, little: bool, n: nat)
    requires Consistent(b) && ViewOk(b, v)
    ensures var r := Get(b, v, k, offset, little).0;
      && (offset.outcome.Throw? ==> r == Throw(offset.outcome.error))
      && (offset.outcome.Ok? && IsIndex(offset.outcome.value, n) ==> Refusal(r, ActAll(b, offset.actions), v, n, Size(k)))
      && (offset.outcome.Ok? && (forall i: nat :: !IsIndex(offset.outcome.value, i)) ==> r == Throw(RangeError))
  {
    hide ActAll, IsIndex, Reinterpret, Decode, BytesAt, CheckBounds;
    SizeIsWidth(k);
    IndexIff(offset, n);
    IsAnIndex(offset);
    ActAllKeepsView(b, offset.actions, v);
    CheckedRefusal(ActAll(b, offset.actions), v, n, Width(k));
  }

  /** Where a result stands with an element: thrown for its type, out of range, or not thrown. */
  predicate Refusal<T(==)>(r: Result<T>, b: BufferState, v: View, n: nat, size: nat) {
    && (r == Throw(TypeError) <==> Shown(b, v).None?)
    && (r == Throw(RangeError) <==> Shown(b, v).Some? && !Fits(b, v, n, size))
    && (r.Throw? <==> !Fits(b, v, n, size))
  }

  lemma CheckedRefusal(b: BufferState, v: View, n: nat, size: nat)
    requires Consistent(b) && ViewOk(b, v)
    ensures Refusal(CheckBounds(b, v, n, size), b, v, n, size)
  {
    CheckBoundsExact(b, v, n, size);
  }

  /** A set refuses an immutable buffer before anything is coerced, and an index before the value is. */
  lemma SetErrors(b: BufferState, v: View, k: Kind, offset: Coercion<Number>, value: Coercion<Operand>, little: bool, n: nat)
    requires Consistent(b) && ViewOk(b, v)
    ensures var (r, after) := Set(b, v, k, offset, value, little);
      && (b.immutable ==> r == Throw(TypeError) && after == b)
      && (!b.immutable && offset.outcome.Throw? ==> r == Throw(offset.outcome.error) && after == ActAll(b, offset.actions))
      && (!b.immutable && offset.outcome.Ok? && (forall i: nat :: !IsIndex(offset.outcome.value, i)) ==>
            r == Throw(RangeError) && after == ActAll(b, offset.actions))
      && (!b.immutable && offset.outcome.Ok? && IsIndex(offset.outcome.value, n) ==>
            && (value.outcome.Throw? ==> r == Throw(value.outcome.error))
            && (value.outcome.Ok? ==> Refusal(r, AfterCoercions(b, offset, value), v, n, Size(k)))
            && (r.Throw? ==> after == AfterCoercions(b, offset, value)))
  {
    hide ActAll, IsIndex, Raw, Encode, Stored, CheckBounds;
    SizeIsWidth(k);
    IndexIff(offset, n);
    IsAnIndex(offset);
    ActAllKeepsView(b, offset.actions, v);
    ActAllKeepsView(ActAll(b, offset.actions), value.actions, v);
    CheckedRefusal(AfterCoercions(b, offset, value), v, n, Width(k));
  }

  /** A receiver that is no DataView is refused for its type before anything is coerced. */
  lemma WrongReceiver<T>(b: BufferState, offset: Coercion<Number>, value: Coercion<T>, size: nat)
    ensures ValidateGet(b, None, offset, size) == (Throw(TypeError), b)
    ensures ValidateSet(b, None, offset, value, size) == (Throw(TypeError), b)
  {
  }
}
