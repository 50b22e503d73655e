/** Integer and BigInt elements of a DataView: setters, getters and what one reads of the other. */
module DataViewElements {
  import opened Prelude
  import opened Arith
  import opened BigIntOps
  import opened ByteOrder
  import opened ArrayBuffers
  import opened DataViews

  datatype Kind = Uint8 | Int8 | Uint16 | Int16 | Uint32 | Int32 | BigInt64 | BigUint64

  function Width(k: Kind): nat {
    match k
    case Uint8 | Int8 => 1
    case Uint16 | Int16 => 2
    case Uint32 | Int32 => 4
    case BigInt64 | BigUint64 => 8
  }

  predicate Signed(k: Kind) {
    k.Int8? || k.Int16? || k.Int32? || k.BigInt64?
  }

  predicate IsBig(k: Kind) {
    k.BigInt64? || k.BigUint64?
  }

  /** js_to_uint8, js_to_uint16 and js_to_uint32, by their width in bytes. */
  function ToUint(w: nat, val: Number): nat {
    match val
    case NaN => 0
    case Infinite(_) => 0
    case Finite(v) =>
      if v == 0.0 then 0 else
      TruncRemForm(TruncReal(v), Modulus(w));
      var m := TruncRem(TruncReal(v), Modulus(w));
      if m < 0 then m + Modulus(w) else m
  }

  /** The truncated value, 0 when there is none. */
  function Truncated(val: Number): int {
    if val.Finite? then TruncReal(val.value) else 0
  }

  /** Conversion to an unsigned integer is truncation, then the residue. */
  lemma ToUintIsResidue(w: nat, val: Number)
    ensures ToUint(w, val) == AsUintN(8 * w, Truncated(val))
  {
    DivModUnique(0, 0, Modulus(w), 0);
    if val.Finite? { TruncRemForm(TruncReal(val.value), Modulus(w)); }
  }

  const I128_MIN: int := -0x8000_0000_0000_0000_0000_0000_0000_0000
  const I128_MAX: int := 0x7fff_ffff_ffff_ffff_ffff_ffff_ffff_ffff

  /** The 64-bit setters pass the BigInt through an i128, taking 0 for what does not fit, and cast that to 64 bits. */
  function ToUint64(v: int): nat {
    if I128_MIN <= v <= I128_MAX then AsUintN(64, v) else 0
  }

  /** What is written: a number for the narrow kinds, a BigInt for the 64-bit ones. */
  datatype Operand = Num(n: Number) | Big(v: int)

  predicate Suits(k: Kind, x: Operand) {
    IsBig(k) <==> x.Big?
  }

  function Raw(k: Kind, x: Operand): nat {
    match x
    case Num(n) => ToUint(Width(k), n)
    case Big(v) => ToUint64(v)
  }

  /** The mathematical integer an operand stands for. */
  function Meant(x: Operand): int {
    match x
    case Num(n) => Truncated(n)
    case Big(v) => v
  }

  /** Reading unsigned bits as the two's complement of that kind. */
  function Reinterpret(k: Kind, u: nat): int {
    if Signed(k) && u >= Pow2(8 * Width(k) - 1) then u - Modulus(Width(k)) else u
  }

  /** The bytes at base; a missing one reads as 0. */
  function BytesAt(bytes: seq<byte>, base: nat, w: nat): (r: seq<byte>)
    ensures |r| == w
  {
    seq(w, k requires 0 <= k < w => if base + k < |bytes| then bytes[base + k] else 0)
  }

  function Set(b: BufferState, v: View, k: Kind, offset: Coercion<Number>, value: Coercion<Operand>, little: bool)
    : (Result<()>, BufferState)
  {
    var (r, after) := ValidateSet(b, Some(v), offset, value, Width(k));
    match r
    case Throw(e) => (Throw(e), after)
    case Ok(t) => (Ok(()), after.(bytes := Stored(after.bytes, t.0, Encode(Raw(k, t.1), Width(k), little))))
  }

  function Get(b: BufferState, v: View, k: Kind, offset: Coercion<Number>, little: bool): (Result<int>, BufferState) {
    var (r, after) := ValidateGet(b, Some(v), offset, Width(k));
    match r
    case Throw(e) => (Throw(e), after)
    case Ok(base) => (Ok(Reinterpret(k, Decode(BytesAt(after.bytes, base, Width(k)), little))), after)
  }

  // ----- the imperative form -----

  class DataView {
    const buffer: ArrayBuffer
    const view: View

    constructor (buffer: ArrayBuffer, view: View)
      ensures this.buffer == buffer && this.view == view
    {
      this.buffer, this.view := buffer, view;
    }

    method Bounds(index: nat, size: nat) returns (r: Result<nat>)
      ensures r == CheckBounds(buffer.State(), view, index, size)
    {
      if buffer.detached { return Throw(TypeError); }
      var effective := view.byteLength;
      if buffer.resizable {
        if view.autoLength {
          if view.byteOffset > buffer.byteLength { return Throw(TypeError); }
          effective := buffer.byteLength - view.byteOffset;
        } else if view.byteOffset + view.byteLength > buffer.byteLength {
          return Throw(TypeError);
        }
      }
      if index + size > effective { return Throw(RangeError); }
      return Ok(view.byteOffset + index);
    }

    method ValidatedGet(offset: Coercion<Number>, size: nat) returns (r: Result<nat>)
      modifies buffer
      ensures (r, buffer.State()) == ValidateGet(old(buffer.State()), Some(view), offset, size)
    {
      buffer.RunUserCode(offset.actions);
      match IndexOf(offset) {
        case Throw(e) => r := Throw(e);
        case Ok(index) => r := Bounds(index, size);
      }
    }

    method ValidatedSet<T>(offset: Coercion<Number>, value: Coercion<T>, size: nat) returns (r: Result<(nat, T)>)
      modifies buffer
      ensures (r, buffer.State()) == ValidateSet(old(buffer.State()), Some(view), offset, value, size)
    {
      if buffer.immutable { return Throw(TypeError); }
      buffer.RunUserCode(offset.actions);
      match IndexOf(offset) {
        case Throw(e) => return Throw(e);
        case Ok(index) =>
          buffer.RunUserCode(value.actions);
          match value.outcome {
            case Throw(e) => return Throw(e);
            case Ok(x) =>
              var base := Bounds(index, size);
              match base {
                case Throw(e) => return Throw(e);
                case Ok(at) => return Ok((at, x));
              }
          }
      }
    }

    /** The store loop: each byte only if its place is still inside the buffer. */
    method WriteBytes(base: nat, bs: seq<byte>)
      modifies buffer
      ensures buffer.State() == old(buffer.State()).(bytes := Stored(old(buffer.bytes), base, bs))
    {
      for i := 0 to |bs|
        invariant buffer.State() == old(buffer.State()).(bytes := Stored(old(buffer.bytes), base, bs[..i]))
      {
        if base + i < |buffer.bytes| { buffer.bytes := buffer.bytes[base + i := bs[i]]; }
        assert buffer.bytes == Stored(old(buffer.bytes), base, bs[..i + 1]);
      }
      assert bs[..|bs|] == bs;
    }

    method SetElement(k: Kind, offset: Coercion<Number>, value: Coercion<Operand>, little: bool) returns (r: Result<()>)
      modifies buffer
      ensures (r, buffer.State()) == Set(old(buffer.State()), view, k, offset, value, little)
    {
      var checked := ValidatedSet(offset, value, Width(k));
      match checked {
        case Throw(e) => r := Throw(e);
        case Ok(t) =>
          WriteBytes(t.0, Encode(Raw(k, t.1), Width(k), little));
          r := Ok(());
      }
    }

    method GetElement(k: Kind, offset: Coercion<Number>, little: bool) returns (r: Result<int>)
      modifies buffer
      ensures (r, buffer.State()) == Get(old(buffer.State()), view, k, offset, little)
    {
      var checked := ValidatedGet(offset, Width(k));
      match checked {
        case Throw(e) => r := Throw(e);
        case Ok(base) => r := Ok(Reinterpret(k, Decode(BytesAt(buffer.bytes, base, Width(k)), little)));
      }
    }
  }

  // ----- what a get reads after a set -----

  /** The value a kind holds for an integer: its representative modulo 2^bits in the kind's range. */
  function Representative(k: Kind, x: int): int {
    if Signed(k) then AsIntN(8 * Width(k), x) else AsUintN(8 * Width(k), x)
  }

  lemma StoredReadsBack(bytes: seq<byte>, base: nat, data: seq<byte>)
    requires base + |data| <= |bytes|
    ensures BytesAt(Stored(bytes, base, data), base, |data|) == data
  {
  }

  /** Which operands survive the conversion of a setter. */
  predicate Carried(x: Operand) {
    x.Big? ==> I128_MIN <= x.v <= I128_MAX || x.v % Pow2(64) == 0
  }

  lemma RawExact(k: Kind, x: Operand)
    requires Suits(k, x)
    ensures Raw(k, x) < Modulus(Width(k))
    ensures Raw(k, x) == AsUintN(8 * Width(k), Meant(x)) <==> Carried(x)
  {
    match x
    case Num(n) => ToUintIsResidue(Width(k), n);
    case Big(v) => assert Modulus(8) == Pow2(64);
  }

  lemma ReinterpretInjective(k: Kind, u: nat, x: int)
    requires u < Modulus(Width(k))
    ensures Reinterpret(k, u) == Representative(k, x) <==> u == AsUintN(8 * Width(k), x)
  {
  }

  /** A get of the same width and byte order after a successful set, at the same index with nothing in between,
      returns the written integer reduced into the range of the kind that reads it: for a number always, for a
      BigInt exactly when it fits an i128 or is a multiple of 2^64. */
  lemma GetAfterSet(b: BufferState, v: View, k: Kind, offset: Coercion<Number>, value: Coercion<Operand>, little: bool,
                    reader: Kind, again: Coercion<Number>)
    requires Consistent(b) && ViewOk(b, v)
    requires Set(b, v, k, offset, value, little).0.Ok?
    requires Suits(k, value.outcome.value)
    requires Width(reader) == Width(k) && again.actions == [] && IndexOf(again) == IndexOf(offset)
    ensures var (r, _) := Get(Set(b, v, k, offset, value, little).1, v, reader, again, little);
            r.Ok? && (r.value == Representative(reader, Meant(value.outcome.value)) <==> Carried(value.outcome.value))
  {
    hide ActAll, CheckBounds, Encode, Decode, Representative, Reinterpret, Raw, Stored, BytesAt, Carried, AsUintN, ViewOk;
    var (r, after) := ValidateSet(b, Some(v), offset, value, Width(k));
    ValidatedSetInBounds(b, v, offset, value, Width(k));
    var base, x := r.value.0, r.value.1;
    var data := Encode(Raw(k, x), Width(k), little);
    var written := after.(bytes := Stored(after.bytes, base, data));
    BoundsIgnoreContents(after, written, v, IndexOf(offset).value, Width(k));
    NoActions(written);
    StoredReadsBack(after.bytes, base, data);
    RoundTrip(Raw(k, x), Width(k), little);
    RawExact(k, x);
    DivModUnique(Raw(k, x), 0, Modulus(Width(k)), Raw(k, x));
    ReinterpretInjective(reader, Raw(k, x), Meant(x));
  }

  lemma BoundsIgnoreContents(b: BufferState, c: BufferState, v: View, index: nat, size: nat)
    requires c == b.(bytes := c.bytes)
    ensures CheckBounds(c, v, index, size) == CheckBounds(b, v, index, size)
  {
  }

  lemma NoActions(b: BufferState)
    ensures ActAll(b, []) == b
  {
  }

  /** A set changes no byte outside its element, nor the length, beyond what the coercions did; one that throws
      changes nothing beyond that. */
  lemma SetFrame(b: BufferState, v: View, k: Kind, offset: Coercion<Number>, value: Coercion<Operand>, little: bool)
    requires Consistent(b) && ViewOk(b, v)
    ensures var (r, after) := ValidateSet(b, Some(v), offset, value, Width(k));
            var (s, written) := Set(b, v, k, offset, value, little);
      && (s.Throw? ==> r.Throw? && s.error == r.error && written == after)
      && (s.Ok? ==> r.Ok? && written == after.(bytes := written.bytes) && |written.bytes| == |after.bytes|)
      && (s.Ok? ==> forall i :: 0 <= i < |after.bytes| && !(r.value.0 <= i < r.value.0 + Width(k)) ==> written.bytes[i] == after.bytes[i])
  {
    hide ActAll, CheckBounds, Raw, Encode;
  }

  function Swapped(w: nat, u: nat): nat {
    FromLittle(Reverse(ToLittle(u, w)))
  }

  /** Reading an unsigned element in the other byte order gives the byte-reversed number, and twice reversed is
      the number itself. */
  lemma OtherOrderSwaps(b: BufferState, v: View, k: Kind, offset: Coercion<Number>, little: bool)
    requires !Signed(k)
    ensures var r, s := Get(b, v, k, offset, little).0, Get(b, v, k, offset, !little).0;
            if r.Throw? then s == r
            else s.Ok? && 0 <= r.value < Modulus(Width(k)) && s.value == Swapped(Width(k), r.value) && r.value == Swapped(Width(k), s.value)
  {
    hide ActAll, CheckBounds, Decode, BytesAt;
    var (r, after) := ValidateGet(b, Some(v), offset, Width(k));
    if r.Ok? {
      var bs := BytesAt(after.bytes, r.value, Width(k));
      SwapOfBytes(bs, little);
      SwapOfBytes(bs, !little);
    }
  }

  lemma SwapOfBytes(bs: seq<byte>, little: bool)
    ensures Decode(bs, little) < Modulus(|bs|)
    ensures Decode(bs, !little) == Swapped(|bs|, Decode(bs, little))
  {
    LittleOnto(bs);
    FromBigReverses(bs);
    LittleOnto(Reverse(bs));
    ReverseTwice(bs);
  }
}
