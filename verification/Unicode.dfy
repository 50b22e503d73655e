/** Code points, UTF-16 code units and hexadecimal digits. */
module Unicode {
  import opened Prelude

  const MAX_CODE_POINT: int := 0x10ffff

  type CodePoint = c: int | 0 <= c <= 0x10ffff

  predicate IsHigh(u: int) { 0xd800 <= u < 0xdc00 }

  predicate IsLow(u: int) { 0xdc00 <= u < 0xe000 }

  /** The code units of a code point; a surrogate code point is its own unit. */
  function CodeUnits(cp: CodePoint): (us: seq<u16>)
    ensures 1 <= |us| <= 2
  {
    if cp < 0x1_0000 then [cp] else [0xd800 + (cp - 0x1_0000) / 0x400, 0xdc00 + (cp - 0x1_0000) % 0x400]
  }

  function CharUnits(c: char): (us: seq<u16>)
    ensures 1 <= |us| <= 2
  {
    CodeUnits(c as int)
  }

  function StringUnits(s: string): seq<u16> {
    if s == [] then [] else CharUnits(s[0]) + StringUnits(s[1..])
  }

  /** The code point a surrogate pair stands for (section 11.1.3 of ECMA-262). */
  function FromPair(high: u16, low: u16): (cp: int)
    requires IsHigh(high) && IsLow(low)
    ensures 0x1_0000 <= cp <= 0x10ffff
  {
    (high - 0xd800) * 0x400 + (low - 0xdc00) + 0x1_0000
  }

  /** Splitting into a surrogate pair is the inverse of joining one. */
  lemma PairsInverse(cp: CodePoint, high: u16, low: u16)
    requires IsHigh(high) && IsLow(low)
    ensures CodeUnits(FromPair(high, low)) == [high, low]
    ensures cp >= 0x1_0000 ==>
      && |CodeUnits(cp)| == 2 && IsHigh(CodeUnits(cp)[0]) && IsLow(CodeUnits(cp)[1])
      && FromPair(CodeUnits(cp)[0], CodeUnits(cp)[1]) == cp
  {
  }

  // ----- hexadecimal -----

  predicate IsDigit(c: char) { '0' <= c <= '9' }

  predicate IsHex(c: char) { IsDigit(c) || 'a' <= c <= 'f' || 'A' <= c <= 'F' }

  function HexDigit(c: char): (d: nat)
    requires IsHex(c)
    ensures d < 16
  {
    if IsDigit(c) then c as int - '0' as int
    else if 'a' <= c then c as int - 'a' as int + 10
    else c as int - 'A' as int + 10
  }

  predicate AllHex(s: string) {
    forall k :: 0 <= k < |s| ==> IsHex(s[k])
  }

  function HexValue(s: string): nat
    requires AllHex(s)
  {
    if s == [] then 0 else 16 * HexValue(s[..|s| - 1]) + HexDigit(s[|s| - 1])
  }

  /** Parsing of an unsigned integer in base 16, as the standard library does it: one leading plus sign is
      skipped, and there must be at least one digit. */
  function Radix16(s: string, limit: nat): (r: Option<nat>)
    ensures r.Some? ==> r.value < limit
  {
    var digits := if s != [] && s[0] == '+' then s[1..] else s;
    if digits == [] || !AllHex(digits) || HexValue(digits) >= limit then None else Some(HexValue(digits))
  }

  function DigitOf(d: nat): (c: char)
    requires d < 16
    ensures IsHex(c) && HexDigit(c) == d
  {
    if d < 10 then ('0' as int + d) as char else ('a' as int + d - 10) as char
  }

  /** The hexadecimal digits are exactly these, and each stands for its place in its row. */
  lemma HexDigitIs(c: char, d: nat)
    ensures IsHex(c) && HexDigit(c) == d <==> (d < 16 && (c == "0123456789abcdef"[d] || c == "0123456789ABCDEF"[d]))
  {
    if IsHex(c) {
      var i := c as int - (if IsDigit(c) then '0' as int else if 'a' <= c then 'a' as int - 10 else 'A' as int - 10);
      assert c == "0123456789abcdef"[i] || c == "0123456789ABCDEF"[i];
    }
  }

  function FourDigits(u: u16): (s: string)
    ensures |s| == 4 && AllHex(s)
  {
    [DigitOf(u / 0x1000), DigitOf(u / 0x100 % 16), DigitOf(u / 0x10 % 16), DigitOf(u % 16)]
  }

  lemma DigitsSum(u: u16)
    ensures 16 * (16 * (16 * (u / 0x1000) + u / 0x100 % 16) + u / 0x10 % 16) + u % 16 == u
  {
  }

  lemma FourDigitsValue(u: u16)
    ensures Radix16(FourDigits(u), 0x1_0000) == Some(u)
  {
    var s := FourDigits(u);
    var a, b, c := s[..1], s[..2], s[..3];
    assert a[..0] == [] && b[..1] == a && c[..2] == b && s[..3] == c;
    assert HexValue(a) == u / 0x1000;
    assert HexValue(b) == 16 * HexValue(a) + u / 0x100 % 16;
    assert HexValue(c) == 16 * HexValue(b) + u / 0x10 % 16;
    assert HexValue(s) == 16 * HexValue(c) + u % 16;
    DigitsSum(u);
  }
}
