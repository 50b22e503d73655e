/** The string-literal decoder: the loop, its specification, and the grammar of literals it accepts. */
module StringLiterals {
  import opened Prelude
  import opened Unicode

  datatype Fault =
    | UnexpectedEnd | OctalEscape | UnterminatedUnicode | InvalidUnicode | EndOfUnicode
    | EndOfHex | InvalidHex | NewlineInString | Unterminated

  /** One element read off the front of the text: its code units and how many characters it took. */
  datatype Element = Take(units: seq<u16>, width: nat) | Bad(fault: Fault)

  /** The whole literal: its code units and how many characters precede the closing quote. */
  datatype Outcome = Done(units: seq<u16>, width: nat) | Fail(fault: Fault) {
    function After(us: seq<u16>, n: nat): Outcome {
      if Done? then Done(us + units, n + width) else this
    }
  }

  function Find(s: string, c: char): (n: nat)
    ensures n <= |s|
    ensures n < |s| ==> s[n] == c
    ensures c !in s[..n]
  {
    if s == [] || s[0] == c then 0 else
    assert s[..1 + Find(s[1..], c)] == [s[0]] + s[1..][..Find(s[1..], c)];
    1 + Find(s[1..], c)
  }

  const LF: char := '\n'
  const CR: char := '\r'
  const LS: char := '\U{2028}'
  const PS: char := '\U{2029}'

  predicate IsQuote(q: char) { q == '\"' || q == '\'' }

  /** The unit that a backslash and this character stand for; others keep the low 16 bits of the character. */
  function Single(c: char): u16 {
    match c
    case 'n' => 0x0a
    case 't' => 0x09
    case 'r' => 0x0d
    case 'b' => 0x08
    case 'f' => 0x0c
    case 'v' => 0x0b
    case _ => c as int % 0x1_0000
  }

  /** After a backslash and a u. */
  function UnicodeEscape(t: string): Element {
    if t == [] then Bad(UnexpectedEnd)
    else if t[0] == '{' then
      var n := Find(t[1..], '}');
      if 1 + n >= |t| then Bad(UnterminatedUnicode) else
      match Radix16(t[1..1 + n], U32)
      case None => Bad(InvalidUnicode)
      case Some(cp) => if cp <= MAX_CODE_POINT then Take(CodeUnits(cp), 4 + n) else Bad(InvalidUnicode)
    else if |t| < 4 then Bad(EndOfUnicode)
    else
      match Radix16(t[..4], U16)
      case None => Bad(InvalidUnicode)
      case Some(u) => Take([u], 6)
  }

  /** After a backslash and an x. */
  function HexEscape(t: string): Element {
    if |t| < 2 then Bad(EndOfHex) else
    match Radix16(t[..2], 0x100)
    case None => Bad(InvalidHex)
    case Some(b) => Take([b], 4)
  }

  /** After a backslash. */
  function Escape(t: string): Element {
    if t == [] then Bad(UnexpectedEnd)
    else if t[0] == 'u' then UnicodeEscape(t[1..])
    else if t[0] == 'x' then HexEscape(t[1..])
    else if t[0] == '0' then if |t| > 1 && IsDigit(t[1]) then Bad(OctalEscape) else Take([0], 2)
    else if IsDigit(t[0]) then Bad(OctalEscape)
    else if t[0] == LF || t[0] == LS || t[0] == PS then Take([], 2)
    else if t[0] == CR then Take([], if |t| > 1 && t[1] == LF then 3 else 2)
    else Take([Single(t[0])], 2)
  }

  function ElementAt(t: string, q: char): Element
    requires t != []
  {
    if t[0] == '\\' then Escape(t[1..])
    else if IsQuote(q) && (t[0] == LF || t[0] == CR) then Bad(NewlineInString)
    else Take(CharUnits(t[0]), 1)
  }

  lemma ElementFits(t: string, q: char)
    requires t != []
    ensures ElementAt(t, q).Take? ==> 0 < ElementAt(t, q).width <= |t|
  {
  }

  /** Decode the text after an opening quote. */
  function Parse(t: string, q: char): Outcome
    decreases |t|
  {
    if t == [] then Fail(Unterminated)
    else if t[0] == q then Done([], 0)
    else
      ElementFits(t, q);
      match ElementAt(t, q)
      case Bad(f) => Fail(f)
      case Take(us, n) => Parse(t[n..], q).After(us, n)
  }

  /** The decoder: it moves an index over the characters and pushes code units. */
  method ParseStringLiteral(chars: string, from: nat, endChar: char) returns (r: Outcome)
    requires from <= |chars|
    ensures r == Parse(chars[from..], endChar)
  {
    hide Parse, ElementAt;
    ParseEnds(chars[from..], endChar);
    assert Parse(chars[from..], endChar).After([], 0) == Parse(chars[from..], endChar);
    var result: seq<u16> := [];
    var start := from;
    while start < |chars| && chars[start] != endChar
      invariant from <= start <= |chars|
      invariant Parse(chars[from..], endChar) == Parse(chars[start..], endChar).After(result, start - from)
    {
      ghost var t := chars[start..];
      ParseTurn(t, endChar);
      var units, next, fault := ReadElement(chars, start, endChar);
      if fault.Some? { return Fail(fault.value); }
      assert t[next - start..] == chars[next..];
      AfterAfter(Parse(chars[next..], endChar), units, next - start, result, start - from);
      result := result + units;
      start := next;
    }
    ParseEnds(chars[start..], endChar);
    if start >= |chars| { return Fail(Unterminated); }
    assert result + [] == result;
    return Done(result, start - from);
  }

  lemma ParseTurn(t: string, q: char)
    requires t != [] && t[0] != q
    ensures ElementAt(t, q).Bad? ==> Parse(t, q) == Fail(ElementAt(t, q).fault)
    ensures ElementAt(t, q).Take? ==> ElementAt(t, q).width <= |t|
    ensures ElementAt(t, q).Take? ==> Parse(t, q) == Parse(t[ElementAt(t, q).width..], q).After(ElementAt(t, q).units, ElementAt(t, q).width)
  {
    hide ElementAt;
    ElementFits(t, q);
  }

  lemma ParseEnds(t: string, q: char)
    ensures t == [] ==> Parse(t, q) == Fail(Unterminated)
    ensures t != [] && t[0] == q ==> Parse(t, q) == Done([], 0)
  {
  }

  lemma AfterAfter(o: Outcome, us: seq<u16>, n: nat, vs: seq<u16>, m: nat)
    ensures o.After(us, n).After(vs, m) == o.After(vs + us, m + n)
  {
    if o.Done? { assert vs + (us + o.units) == vs + us + o.units; }
  }

  method ReadElement(chars: string, at: nat, endChar: char)
    returns (units: seq<u16>, next: nat, fault: Option<Fault>)
    requires at < |chars|
    ensures at < next <= |chars| || fault.Some?
    ensures ElementAt(chars[at..], endChar) == if fault.Some? then Bad(fault.value) else Take(units, next - at)
  {
    units, next, fault := [], at, None;
    if chars[at] != '\\' {
      if IsQuote(endChar) && (chars[at] == LF || chars[at] == CR) { fault := Some(NewlineInString); return; }
      units, next := CharUnits(chars[at]), at + 1;
      return;
    }
    next := at + 1;
    if next >= |chars| { fault := Some(UnexpectedEnd); return; }
    var c := chars[next];
    assert chars[at..][1..] == chars[next..];
    assert chars[next..][1..] == chars[next + 1..];
    if c == 'u' {
      units, next, fault := ReadUnicode(chars, next + 1);
    } else if c == 'x' {
      next := next + 1;
      if next + 2 > |chars| { fault := Some(EndOfHex); return; }
      assert chars[next..][..2] == chars[next..next + 2];
      var code := Radix16(chars[next..next + 2], 0x100);
      if code.None? { fault := Some(InvalidHex); return; }
      units, next := [code.value], next + 2;
    } else if c == '0' {
      if next + 1 < |chars| && IsDigit(chars[next + 1]) { fault := Some(OctalEscape); return; }
      units, next := [0], next + 1;
    } else if '1' <= c <= '9' {
      fault := Some(OctalEscape);
    } else if c == LF || c == LS || c == PS {
      next := next + 1;
    } else if c == CR {
      if next + 1 < |chars| && chars[next + 1] == LF { next := next + 1; }
      next := next + 1;
    } else {
      units, next := [Single(c)], next + 1;
    }
  }

  method ReadUnicode(chars: string, at: nat) returns (units: seq<u16>, next: nat, fault: Option<Fault>)
    requires 2 <= at <= |chars|
    ensures at <= next <= |chars| || fault.Some?
    ensures UnicodeEscape(chars[at..]) == if fault.Some? then Bad(fault.value) else Take(units, next - at + 2)
  {
    hide Radix16, CodeUnits, Find;
    units, next, fault := [], at, None;
    if next >= |chars| { fault := Some(UnexpectedEnd); return; }
    ghost var t := chars[at..];
    if chars[next] == '{' {
      next := next + 1;
      var hex := "";
      while next < |chars| && chars[next] != '}'
        invariant at < next <= |chars|
        invariant hex == chars[at + 1..next]
        invariant '}' !in hex
      {
        hex := hex + [chars[next]];
        next := next + 1;
      }
      FindIs(t[1..], '}', next - at - 1);
      if next >= |chars| { fault := Some(UnterminatedUnicode); return; }
      assert t[1..next - at] == hex;
      var cp := Radix16(hex, U32);
      if cp.None? || cp.value > MAX_CODE_POINT { fault := Some(InvalidUnicode); return; }
      units, next := CodeUnits(cp.value), next + 1;
    } else {
      if next + 4 > |chars| { fault := Some(EndOfUnicode); return; }
      assert t[..4] == chars[next..next + 4];
      var code := Radix16(chars[next..next + 4], U16);
      if code.None? { fault := Some(InvalidUnicode); return; }
      units, next := [code.value], next + 4;
    }
  }

  lemma {:induction false} FindIs(s: string, c: char, n: nat)
    requires n <= |s| && c !in s[..n] && (n < |s| ==> s[n] == c)
    ensures Find(s, c) == n
  {
    if n > 0 {
      assert s[..n][0] == s[0];
      assert s[1..][..n - 1] == s[..n][1..];
      FindIs(s[1..], c, n - 1);
    }
  }

  // ----- the grammar of accepted literals -----

  datatype Piece =
    | Plain(c: char)
    | Short(c: char)
    | Null
    | Continuation(terminator: string)
    | Hex(digits: string)
    | Unit(digits: string)
    | Braced(digits: string)

  function Text(p: Piece): (t: string)
    ensures t != []
  {
    match p
    case Plain(c) => [c]
    case Short(c) => ['\\', c]
    case Null => "\\0"
    case Continuation(l) => "\\" + l
    case Hex(d) => "\\x" + d
    case Unit(d) => "\\u" + d
    case Braced(d) => "\\u{" + d + "}"
  }

  /** A piece is well formed before the rest of the text. */
  predicate WellFormed(p: Piece, q: char, rest: string) {
    match p
    case Plain(c) => c != q && c != '\\' && !(IsQuote(q) && (c == LF || c == CR))
    case Short(c) => !IsDigit(c) && c !in ['x', 'u', LF, CR, LS, PS]
    case Null => rest == [] || !IsDigit(rest[0])
    case Continuation(l) => l in [[LF], [CR, LF], [LS], [PS]] || (l == [CR] && (rest == [] || rest[0] != LF))
    case Hex(d) => |d| == 2 && Radix16(d, 0x100).Some?
    case Unit(d) => |d| == 4 && Radix16(d, U16).Some?
    case Braced(d) => '}' !in d && Radix16(d, U32).Some? && Radix16(d, U32).value <= MAX_CODE_POINT
  }

  function Units(p: Piece, q: char, rest: string): seq<u16>
    requires WellFormed(p, q, rest)
  {
    match p
    case Plain(c) => CharUnits(c)
    case Short(c) => [Single(c)]
    case Null => [0]
    case Continuation(_) => []
    case Hex(d) => [Radix16(d, 0x100).value]
    case Unit(d) => [Radix16(d, U16).value]
    case Braced(d) => CodeUnits(Radix16(d, U32).value)
  }

  function TextAll(ps: seq<Piece>): string {
    if ps == [] then [] else Text(ps[0]) + TextAll(ps[1..])
  }

  predicate AllWellFormed(ps: seq<Piece>, q: char, rest: string)
    decreases |ps|
  {
    ps == [] || (WellFormed(ps[0], q, TextAll(ps[1..]) + rest) && AllWellFormed(ps[1..], q, rest))
  }

  function UnitsAll(ps: seq<Piece>, q: char, rest: string): seq<u16>
    requires AllWellFormed(ps, q, rest)
    decreases |ps|
  {
    if ps == [] then [] else Units(ps[0], q, TextAll(ps[1..]) + rest) + UnitsAll(ps[1..], q, rest)
  }

  /** A piece in front of any rest is read as exactly that piece. */
  lemma PieceReads(p: Piece, q: char, rest: string)
    requires WellFormed(p, q, rest) && q != '\\'
    ensures Text(p) + rest != [] && (Text(p) + rest)[0] != q
    ensures ElementAt(Text(p) + rest, q) == Take(Units(p, q, rest), |Text(p)|)
    ensures (Text(p) + rest)[|Text(p)|..] == rest
  {
    hide Escape, Radix16, CodeUnits;
    match p
    case Plain(_) =>
    case Short(c) => ShortReads(c, rest);
    case Null => NullReads(rest);
    case Continuation(l) => ContinuationReads(l, rest);
    case Hex(d) => HexReads(d, rest);
    case Unit(d) => UnitReads(d, rest);
    case Braced(d) => BracedReads(d, rest);
  }

  lemma ShortReads(c: char, rest: string)
    requires !IsDigit(c) && c !in ['x', 'u', LF, CR, LS, PS]
    ensures Escape((['\\', c] + rest)[1..]) == Take([Single(c)], 2)
  {
    hide Single;
    assert (['\\', c] + rest)[1..] == [c] + rest;
  }

  lemma NullReads(rest: string)
    requires rest == [] || !IsDigit(rest[0])
    ensures Escape(("\\0" + rest)[1..]) == Take([0], 2)
  {
    assert ("\\0" + rest)[1..] == ['0'] + rest;
  }

  lemma ContinuationReads(l: string, rest: string)
    requires l in [[LF], [CR, LF], [LS], [PS]] || (l == [CR] && (rest == [] || rest[0] != LF))
    ensures Escape(("\\" + l + rest)[1..]) == Take([], |l| + 1)
  {
    assert ("\\" + l + rest)[1..] == l + rest;
  }

  lemma HexReads(d: string, rest: string)
    requires |d| == 2 && Radix16(d, 0x100).Some?
    ensures Escape(("\\x" + d + rest)[1..]) == Take([Radix16(d, 0x100).value], 4)
  {
    hide Radix16;
    assert ("\\x" + d + rest)[1..] == "x" + d + rest;
    assert ("x" + d + rest)[1..] == d + rest;
    assert (d + rest)[..2] == d;
  }

  lemma UnitReads(d: string, rest: string)
    requires |d| == 4 && Radix16(d, U16).Some?
    ensures Escape(("\\u" + d + rest)[1..]) == Take([Radix16(d, U16).value], 6)
  {
    assert d[0] != '{';
    hide Radix16;
    assert ("\\u" + d + rest)[1..] == "u" + d + rest;
    assert ("u" + d + rest)[1..] == d + rest;
    assert (d + rest)[..4] == d;
  }

  lemma BracedReads(d: string, rest: string)
    requires '}' !in d && Radix16(d, U32).Some? && Radix16(d, U32).value <= MAX_CODE_POINT
    ensures Escape(("\\u{" + d + "}" + rest)[1..]) == Take(CodeUnits(Radix16(d, U32).value), |d| + 4)
  {
    var t := "{" + d + "}" + rest;
    assert ("\\u{" + d + "}" + rest)[1..][1..] == t;
    assert t[1..][..|d|] == d;
    FindIs(t[1..], '}', |d|);
    assert t[1..1 + |d|] == d;
  }

  /** Printing well-formed pieces, closing the quote and parsing gives their units and stops at the quote. */
  lemma {:induction false} ParsesPieces(ps: seq<Piece>, q: char, tail: string)
    requires q != '\\' && AllWellFormed(ps, q, [q] + tail)
    ensures Parse(TextAll(ps) + [q] + tail, q) == Done(UnitsAll(ps, q, [q] + tail), |TextAll(ps)|)
    decreases |ps|
  {
    hide ElementAt, Text, Units, WellFormed;
    var rest := [q] + tail;
    if ps == [] {
      assert TextAll(ps) + [q] + tail == rest;
    } else {
      var t, more := TextAll(ps) + [q] + tail, TextAll(ps[1..]) + rest;
      assert TextAll(ps[1..]) + [q] + tail == more;
      assert t == Text(ps[0]) + more;
      PieceReads(ps[0], q, more);
      ElementFits(t, q);
      ParsesPieces(ps[1..], q, tail);
    }
  }

  /** The piece an element was read from. */
  function PieceAt(t: string): Piece
    requires t != []
  {
    if t[0] != '\\' || |t| < 2 then Plain(t[0])
    else if t[1] == 'u' && |t| >= 3 && t[2] == '{' then Braced(t[3..3 + Find(t[3..], '}')])
    else if t[1] == 'u' && |t| >= 6 then Unit(t[2..6])
    else if t[1] == 'x' && |t| >= 4 then Hex(t[2..4])
    else if t[1] == '0' then Null
    else if t[1] == CR && |t| > 2 && t[2] == LF then Continuation([CR, LF])
    else if t[1] == LF || t[1] == CR || t[1] == LS || t[1] == PS then Continuation([t[1]])
    else Short(t[1])
  }

  lemma ElementIsPiece(t: string, q: char)
    requires t != [] && t[0] != q && ElementAt(t, q).Take?
    ensures var n := ElementAt(t, q).width;
      && n <= |t| && t == Text(PieceAt(t)) + t[n..] && WellFormed(PieceAt(t), q, t[n..])
      && Units(PieceAt(t), q, t[n..]) == ElementAt(t, q).units
  {
    hide Radix16, CodeUnits, Single, Find;
    ElementFits(t, q);
    if t[0] == '\\' {
      assert t[1..][1..] == t[2..];
      if t[1] == 'u' {
        UnicodeIsPiece(t, q);
      } else if t[1] == 'x' {
        assert t[2..][..2] == t[2..4];
      }
    }
  }

  lemma UnicodeIsPiece(t: string, q: char)
    requires |t| > 1 && t[0] == '\\' && t[1] == 'u' && UnicodeEscape(t[2..]).Take?
    ensures var e, p := UnicodeEscape(t[2..]), PieceAt(t);
      && e.width <= |t| && t == Text(p) + t[e.width..] && WellFormed(p, q, t[e.width..])
      && Units(p, q, t[e.width..]) == e.units
  {
    hide Radix16, CodeUnits, Single, Find;
    if t[2] == '{' {
      var n := Find(t[3..], '}');
      assert t[2..][1..] == t[3..];
      assert t[2..][1..1 + n] == t[3..3 + n];
      assert t[3..][..n] == t[3..3 + n];
    } else {
      assert t[2..][..4] == t[2..6];
    }
  }

  function Pieces(t: string, q: char): seq<Piece>
    decreases |t|
  {
    if t == [] || t[0] == q || ElementAt(t, q).Bad? then [] else
    ElementFits(t, q);
    [PieceAt(t)] + Pieces(t[ElementAt(t, q).width..], q)
  }

  /** What parses is a text of well-formed pieces, closed by the quote, with their units. */
  lemma {:induction false} ParsedIsPieces(t: string, q: char)
    requires Parse(t, q).Done?
    ensures var ps, n := Pieces(t, q), Parse(t, q).width;
      && n < |t| && t[n] == q && t[..n] == TextAll(ps)
      && AllWellFormed(ps, q, t[n..]) && UnitsAll(ps, q, t[n..]) == Parse(t, q).units
    decreases |t|
  {
    hide ElementAt, PieceAt, Text, Units, WellFormed, CharUnits, IsQuote;
    if t[0] != q {
      ElementFits(t, q);
      ElementIsPiece(t, q);
      var k := ElementAt(t, q).width;
      ParsedIsPieces(t[k..], q);
      var n, m := Parse(t, q).width, Parse(t[k..], q).width;
      var p, more := PieceAt(t), Pieces(t[k..], q);
      assert ([p] + more)[1..] == more;
      assert t[k..][m..] == t[n..];
      assert t[k..] == TextAll(more) + t[n..];
      assert t[..n] == Text(p) + TextAll(more);
    }
  }

  /** Exactly the texts made of well-formed pieces and the closing quote parse, with the units of the pieces. */
  lemma AcceptsExactlyPieces(t: string, q: char, us: seq<u16>, n: nat)
    requires q != '\\'
    ensures Parse(t, q) == Done(us, n) <==> ReadsAs(t, q, us, n)
  {
    hide Parse, AllWellFormed, UnitsAll, TextAll, Pieces;
    if Parse(t, q) == Done(us, n) {
      ParsedIsPieces(t, q);
      assert LiteralOf(Pieces(t, q), t, q, us, n);
    }
    if ReadsAs(t, q, us, n) {
      var ps :| LiteralOf(ps, t, q, us, n);
      assert t[n..] == [q] + t[n + 1..];
      assert t == TextAll(ps) + [q] + t[n + 1..];
      ParsesPieces(ps, q, t[n + 1..]);
    }
  }

  ghost predicate LiteralOf(ps: seq<Piece>, t: string, q: char, us: seq<u16>, n: nat) {
    && n < |t| && t[n] == q && t[..n] == TextAll(ps)
    && AllWellFormed(ps, q, t[n..]) && UnitsAll(ps, q, t[n..]) == us
  }

  ghost predicate ReadsAs(t: string, q: char, us: seq<u16>, n: nat) {
    exists ps :: LiteralOf(ps, t, q, us, n)
  }

  // ----- a printer for any sequence of code units -----

  /** Surrogate pairs and safe units as themselves, quotes, backslashes, line ends, tabs, backspaces and form feeds by
      short escapes, lone surrogates by \u and four digits. */
  function Print(us: seq<u16>, q: char): seq<Piece>
    decreases |us|
  {
    if us == [] then []
    else if |us| >= 2 && IsHigh(us[0]) && IsLow(us[1]) then [Plain(FromPair(us[0], us[1]) as char)] + Print(us[2..], q)
    else [PrintUnit(us[0], q)] + Print(us[1..], q)
  }

  function PrintUnit(u: u16, q: char): Piece {
    if IsHigh(u) || IsLow(u) then Unit(FourDigits(u))
    else if u == 0x08 then Short('b')
    else if u == 0x09 then Short('t')
    else if u == 0x0a then Short('n')
    else if u == 0x0b then Short('v')
    else if u == 0x0c then Short('f')
    else if u == 0x0d then Short('r')
    else if u == q as int || u == '\\' as int then Short(u as char)
    else Plain(u as char)
  }

  lemma PrintUnitGood(u: u16, q: char, rest: string)
    requires IsQuote(q)
    ensures WellFormed(PrintUnit(u, q), q, rest) && Units(PrintUnit(u, q), q, rest) == [u]
  {
    hide Radix16, FourDigits;
    FourDigitsValue(u);
  }

  lemma PrintPairGood(high: u16, low: u16, q: char, rest: string)
    requires IsQuote(q) && IsHigh(high) && IsLow(low)
    ensures var p := Plain(FromPair(high, low) as char); WellFormed(p, q, rest) && Units(p, q, rest) == [high, low]
  {
    PairsInverse(0, high, low);
  }

  lemma {:induction false} PrintGood(us: seq<u16>, q: char, rest: string)
    requires IsQuote(q)
    ensures AllWellFormed(Print(us, q), q, rest)
    ensures UnitsAll(Print(us, q), q, rest) == us
    decreases |us|
  {
    hide WellFormed, Units, PrintUnit, FromPair, FourDigits, IsHigh, IsLow;
    if us != [] {
      var ps := Print(us, q);
      if |us| >= 2 && IsHigh(us[0]) && IsLow(us[1]) {
        PrintGood(us[2..], q, rest);
        assert ps[1..] == Print(us[2..], q);
        PrintPairGood(us[0], us[1], q, TextAll(ps[1..]) + rest);
        assert [us[0], us[1]] + us[2..] == us;
      } else {
        PrintGood(us[1..], q, rest);
        assert ps[1..] == Print(us[1..], q);
        PrintUnitGood(us[0], q, TextAll(ps[1..]) + rest);
        assert [us[0]] + us[1..] == us;
      }
    }
  }

  /** Printing any sequence of code units, lone surrogates included, and parsing it gives the sequence back. */
  lemma PrintThenParse(us: seq<u16>, q: char, tail: string)
    requires IsQuote(q)
    ensures Parse(TextAll(Print(us, q)) + [q] + tail, q) == Done(us, |TextAll(Print(us, q))|)
  {
    PrintGood(us, q, [q] + tail);
    ParsesPieces(Print(us, q), q, tail);
  }

  /** Every spelling of a unit reads as that unit: four digits after \u, the same in braces, two after \x for a byte,
      and \0 for zero unless a digit follows. */
  lemma SpellingsOfUnit(u: u16, t: string, q: char)
    requires IsQuote(q)
    ensures Parse("\\u" + FourDigits(u) + t, q) == Parse(t, q).After([u], 6)
    ensures Parse("\\u{" + FourDigits(u) + "}" + t, q) == Parse(t, q).After([u], 8)
    ensures u < 0x100 ==> Parse("\\x" + FourDigits(u)[2..] + t, q) == Parse(t, q).After([u], 4)
    ensures t == [] || !IsDigit(t[0]) ==> Parse("\\0" + t, q) == Parse(t, q).After([0], 2)
  {
    hide Radix16, FourDigits, ElementAt;
    FourDigitsValue(u);
    PieceGoesFirst(Unit(FourDigits(u)), t, q);
    assert '}' !in FourDigits(u);
    BracedUnit(u);
    PieceGoesFirst(Braced(FourDigits(u)), t, q);
    if u < 0x100 {
      TwoDigitsValue(u);
      PieceGoesFirst(Hex(FourDigits(u)[2..]), t, q);
    }
    if t == [] || !IsDigit(t[0]) { PieceGoesFirst(Null, t, q); }
  }

  lemma BracedUnit(u: u16)
    ensures Radix16(FourDigits(u), U32) == Some(u)
  {
    FourDigitsValue(u);
  }

  lemma TwoDigitsValue(u: u16)
    requires u < 0x100
    ensures Radix16(FourDigits(u)[2..], 0x100) == Some(u)
  {
    var s := FourDigits(u)[2..];
    assert s[..1][..0] == [] && s[..1] == [s[0]];
    assert HexValue(s[..1]) == u / 0x10;
  }

  /** A backslash before a line end spells nothing, and a carriage return and line feed are one line end. */
  lemma ContinuationVanishes(l: string, t: string, q: char)
    requires IsQuote(q)
    requires l in [[LF], [CR, LF], [LS], [PS]] || (l == [CR] && (t == [] || t[0] != LF))
    ensures Parse("\\" + l + t, q) == Parse(t, q).After([], 1 + |l|)
  {
    hide ElementAt;
    PieceGoesFirst(Continuation(l), t, q);
  }

  lemma PieceGoesFirst(p: Piece, t: string, q: char)
    requires IsQuote(q) && WellFormed(p, q, t)
    ensures Parse(Text(p) + t, q) == Parse(t, q).After(Units(p, q, t), |Text(p)|)
  {
    hide ElementAt, Units, Text, WellFormed;
    PieceReads(p, q, t);
  }

  // ----- where the decoder accepts more than the language -----

  /** Digits of an escape in the language: hexadecimal digits only (section 12.9.4 of ECMA-262). */
  predicate Strict(p: Piece) {
    (p.Hex? || p.Unit? || p.Braced?) ==> AllHex(p.digits)
  }

  /** An accepted escape strays from the grammar exactly when its digits start with a plus sign. */
  lemma StrictUnlessPlus(p: Piece, q: char, rest: string)
    requires WellFormed(p, q, rest)
    ensures Strict(p) <==> !((p.Hex? || p.Unit? || p.Braced?) && p.digits[0] == '+')
  {
  }

  /** An escaped character that has no meaning of its own stands for itself exactly when it is one code unit. */
  lemma IdentityEscapeKeepsCharacter(c: char)
    requires c !in "ntrbfv"
    ensures [Single(c)] == CharUnits(c) <==> c as int < 0x1_0000
  {
    assert "ntrbfv" == ['n', 't', 'r', 'b', 'f', 'v'];
  }

  /** A signed escape is taken: \x+7 reads as the unit 7. */
  lemma PlusSignAccepted()
    ensures Parse("\\x+7\"", '\"') == Done([7], 4)
    ensures !Strict(Hex("+7"))
  {
    assert "+7"[1..] == "7";
    assert "7"[..0] == [];
    assert HexValue("7") == 7;
    assert Radix16("+7", 0x100) == Some(7);
    var p := Hex("+7");
    assert !IsHex("+7"[0]);
    PieceReads(p, '\"', "\"");
    assert Text(p) + "\"" == "\\x+7\"";
    assert "\\x+7\""[4..] == "\"";
  }
}
