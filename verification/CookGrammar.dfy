/** The template texts that have a cooked value, as a grammar, and what that value is. */
module CookGrammar {
  import opened Prelude
  import opened Unicode
  import opened TemplateCooking
  import S = StringLiterals

  /** The characters that stand for another after a backslash. */
  const NAMED: map<char, u16> := map['b' := 0x08, 't' := 0x09, 'n' := 0x0a, 'v' := 0x0b, 'f' := 0x0c, 'r' := 0x0d]

  const LF: char := '\n'
  const CR: char := '\r'
  const LINE_ENDS: set<char> := {LF, CR, '\U{2028}', '\U{2029}'}

  datatype Piece =
    | Kept(c: char)
    | Newline(withFeed: bool)
    | Escaped(c: char)
    | Zero
    | Skipped(l: string)
    | Hex(digits: string)
    | Four(digits: string)
    | Braced(digits: string)

  function Text(p: Piece): (t: string)
    ensures t != []
  {
    match p
    case Kept(c) => [c]
    case Newline(withFeed) => if withFeed then [CR, LF] else [CR]
    case Escaped(c) => ['\\', c]
    case Zero => "\\0"
    case Skipped(l) => "\\" + l
    case Hex(d) => "\\x" + d
    case Four(d) => "\\u" + d
    case Braced(d) => "\\u{" + d + "}"
  }

  predicate Follows(rest: string, c: char) { rest != [] && rest[0] == c }

  predicate DigitFollows(rest: string) { rest != [] && '0' <= rest[0] <= '9' }

  /** The piece is valid before the rest of the text. */
  predicate Valid(p: Piece, rest: string) {
    match p
    case Kept(c) => c != '\\' && c != CR
    case Newline(withFeed) => withFeed || !Follows(rest, LF)
    case Escaped(c) => !('0' <= c <= '9') && c != 'x' && c != 'u' && c !in LINE_ENDS
    case Zero => !DigitFollows(rest)
    case Skipped(l) => l == [CR, LF] || (|l| == 1 && l[0] in LINE_ENDS && (l[0] == CR ==> !Follows(rest, LF)))
    case Hex(d) => |d| == 2 && AllHex(d)
    case Four(d) => |d| == 4 && AllHex(d)
    case Braced(d) => d != [] && AllHex(d) && (HexValue(d) < 0xd800 || 0xe000 <= HexValue(d) <= 0x10ffff)
  }

  /** What it cooks to: every line end is a line feed. */
  function Units(p: Piece, rest: string): seq<u16>
    requires Valid(p, rest)
  {
    match p
    case Kept(c) => CharUnits(c)
    case Newline(_) => [0x0a]
    case Escaped(c) => if c in NAMED then [NAMED[c]] else CharUnits(c)
    case Zero => [0]
    case Skipped(_) => []
    case Hex(d) => ShortDigits(d); [HexValue(d)]
    case Four(d) => ShortDigits(d); [HexValue(d)]
    case Braced(d) => CodeUnits(HexValue(d))
  }

  /** The digits of the fixed escapes fit. */
  lemma ShortDigits(d: string)
    requires AllHex(d) && |d| <= 4
    ensures HexValue(d) < 0x1_0000
    ensures |d| <= 2 ==> HexValue(d) < 0x100
  {
    if |d| == 4 { assert d[..3][..2] == d[..2] && d[..2][..1] == d[..1] && d[..1][..0] == []; }
    if |d| == 3 { assert d[..2][..1] == d[..1] && d[..1][..0] == []; }
    if |d| == 2 { assert d[..1][..0] == []; }
  }

  function TextAll(ps: seq<Piece>): string {
    if ps == [] then [] else Text(ps[0]) + TextAll(ps[1..])
  }

  predicate AllValid(ps: seq<Piece>) {
    ps == [] || (Valid(ps[0], TextAll(ps[1..])) && AllValid(ps[1..]))
  }

  function UnitsAll(ps: seq<Piece>): seq<u16>
    requires AllValid(ps)
  {
    if ps == [] then [] else Units(ps[0], TextAll(ps[1..])) + UnitsAll(ps[1..])
  }

  // ----- a valid piece is cooked -----

  lemma DigitsRead(d: string, limit: nat)
    requires d != [] && AllHex(d)
    ensures Radix16(d, limit) == if HexValue(d) < limit then Some(HexValue(d)) else None
  {
    assert IsHex(d[0]);
  }

  lemma BracedCooked(d: string, rest: string)
    requires Valid(Braced(d), rest)
    ensures CookElement("\\u{" + d + "}" + rest) == Some((CodeUnits(HexValue(d)), |d| + 4))
  {
    hide *;
    var t, u := "\\u{" + d + "}" + rest, "{" + (d + ("}" + rest));
    assert t == "\\u" + u;
    BracesCooked(d, rest);
    UnicodeElement(u);
  }

  lemma UnicodeElement(u: string)
    ensures CookElement("\\u" + u) ==
      match CookUnicode(u)
      case None => None
      case Some((us, n)) => Some((us, n + 2))
  {
    hide CookUnicode;
    var t := "\\u" + u;
    assert t[1..] == "u" + u && t[1..][1..] == u;
  }

  lemma BracesCooked(d: string, rest: string)
    requires Valid(Braced(d), rest)
    ensures CookUnicode("{" + (d + ("}" + rest))) == Some((CodeUnits(HexValue(d)), |d| + 2))
  {
    hide HexValue, Radix16, CodeUnits, S.Find;
    var v := d + ("}" + rest);
    assert ("{" + v)[1..] == v && v[..|d|] == d && v[|d|] == '}';
    S.FindIs(v, '}', |d|);
    assert ("{" + v)[1..1 + |d|] == d;
    DigitsRead(d, U32);
  }

  lemma HexCooked(d: string, rest: string)
    requires |d| == 2 && AllHex(d)
    ensures HexValue(d) < 0x100 && CookElement("\\x" + d + rest) == Some(([HexValue(d)], 4))
  {
    hide HexValue, Radix16;
    var t := "\\x" + d + rest;
    assert t[1..] == "x" + (d + rest);
    assert t[1..][1..3] == d;
    ShortDigits(d);
    DigitsRead(d, 0x100);
  }

  lemma FourCooked(d: string, rest: string)
    requires |d| == 4 && AllHex(d)
    ensures HexValue(d) < 0x1_0000 && CookElement("\\u" + d + rest) == Some(([HexValue(d)], 6))
  {
    hide HexValue, Radix16, CookElement;
    var u := d + rest;
    assert "\\u" + d + rest == "\\u" + u;
    assert u[..4] == d && IsHex(d[0]);
    ShortDigits(d);
    DigitsRead(d, U16);
    assert CookUnicode(u) == Some(([HexValue(d)], 4));
    UnicodeElement(u);
  }

  lemma PlainCooked(p: Piece, rest: string)
    requires Valid(p, rest) && (p.Kept? || p.Newline?)
    ensures CookElement(Text(p) + rest) == Some((Units(p, rest), |Text(p)|))
  {
    hide CharUnits, CookEscape;
  }

  lemma EscapedCooked(c: char, rest: string)
    requires Valid(Escaped(c), rest)
    ensures CookElement(['\\', c] + rest) == Some((Units(Escaped(c), rest), 2))
  {
    hide CharUnits, CookUnicode, Radix16;
    assert (['\\', c] + rest)[1..] == [c] + rest;
  }

  lemma SkippedCooked(p: Piece, rest: string)
    requires Valid(p, rest) && (p.Zero? || p.Skipped?)
    ensures CookElement(Text(p) + rest) == Some((Units(p, rest), |Text(p)|))
  {
    hide CharUnits, CookUnicode, Radix16;
    match p
    case Zero => assert ("\\0" + rest)[1..] == ['0'] + rest;
    case Skipped(l) => assert ("\\" + l + rest)[1..] == l + rest;
  }

  lemma PieceCooked(p: Piece, rest: string)
    requires Valid(p, rest)
    ensures CookElement(Text(p) + rest) == Some((Units(p, rest), |Text(p)|))
    ensures (Text(p) + rest)[|Text(p)|..] == rest
  {
    hide HexValue, Radix16, CodeUnits, CharUnits, CookElement;
    match p
    case Kept(_) => PlainCooked(p, rest);
    case Newline(_) => PlainCooked(p, rest);
    case Escaped(c) => EscapedCooked(c, rest);
    case Zero => SkippedCooked(p, rest);
    case Skipped(_) => SkippedCooked(p, rest);
    case Hex(d) => HexCooked(d, rest);
    case Four(d) => FourCooked(d, rest);
    case Braced(d) => BracedCooked(d, rest);
  }

  // ----- what is cooked is a valid piece -----

  ghost predicate Heads(p: Piece, t: string) {
    |Text(p)| <= |t| && t[..|Text(p)|] == Text(p) && Valid(p, t[|Text(p)|..])
  }

  lemma UnicodeWritten(t: string) returns (p: Piece)
    requires |t| > 1 && t[0] == '\\' && t[1] == 'u' && CookUnicode(t[2..]).Some?
    ensures Heads(p, t)
  {
    hide HexValue;
    var u := t[2..];
    if u[0] == '{' {
      var d := u[1..1 + S.Find(u[1..], '}')];
      p := Braced(d);
      DigitsRead(d, U32);
      assert u[..|d| + 2] == "{" + (d + "}");
      assert t[..|d| + 4] == "\\u" + u[..|d| + 2];
      assert "\\u" + ("{" + (d + "}")) == "\\u{" + d + "}";
    } else {
      p := Four(u[..4]);
      assert t[..6] == "\\u" + u[..4];
    }
  }

  lemma PieceWritten(t: string) returns (p: Piece)
    requires t != [] && CookElement(t).Some?
    ensures Heads(p, t)
  {
    hide HexValue, Radix16, CodeUnits, CharUnits, CookUnicode, S.Find;
    if t[0] == CR {
      p := Newline(|t| > 1 && t[1] == LF);
      assert t[..|Text(p)|] == Text(p);
    } else if t[0] != '\\' {
      p := Kept(t[0]);
    } else {
      var u := t[1..];
      var c := u[0];
      if c in LINE_ENDS {
        var l := if c == CR && |u| > 1 && u[1] == LF then [CR, LF] else [c];
        p := Skipped(l);
        assert t[..1 + |l|] == "\\" + l;
      } else if c == '0' {
        p := Zero;
        assert t[..2] == "\\0";
      } else if c == 'x' {
        p := Hex(u[1..3]);
        assert t[..4] == "\\x" + u[1..3];
      } else if c == 'u' {
        assert t[2..] == u[1..];
        p := UnicodeWritten(t);
      } else {
        p := Escaped(c);
        assert t[..2] == ['\\', c];
      }
    }
  }

  // ----- whole texts -----

  lemma {:induction false} PiecesCooked(ps: seq<Piece>)
    requires AllValid(ps)
    ensures Cook(TextAll(ps)) == Some(UnitsAll(ps))
  {
    hide CookElement, Text, Units, Valid;
    if ps != [] {
      var p, rest := ps[0], TextAll(ps[1..]);
      PieceCooked(p, rest);
      CookFits(Text(p) + rest);
      PiecesCooked(ps[1..]);
    }
  }

  lemma {:induction false} CookedPieces(t: string) returns (ps: seq<Piece>)
    requires Cook(t).Some?
    ensures AllValid(ps) && TextAll(ps) == t
    decreases |t|
  {
    hide CookElement, Text, Units, Valid;
    if t == [] {
      ps := [];
    } else {
      CookFits(t);
      var p := PieceWritten(t);
      var rest := t[|Text(p)|..];
      assert t == Text(p) + rest;
      PieceCooked(p, rest);
      var more := CookedPieces(rest);
      ps := [p] + more;
      assert ps[1..] == more;
    }
  }

  /** A chunk has that cooked value exactly when it is made of valid pieces that cook to it. */
  lemma CooksIff(t: string, us: seq<u16>)
    ensures Cook(t) == Some(us) <==> exists ps :: TextAll(ps) == t && AllValid(ps) && UnitsAll(ps) == us
  {
    hide Cook, TextAll, AllValid, UnitsAll;
    if Cook(t) == Some(us) {
      var ps := CookedPieces(t);
      PiecesCooked(ps);
    }
    if exists ps :: TextAll(ps) == t && AllValid(ps) && UnitsAll(ps) == us {
      var ps :| TextAll(ps) == t && AllValid(ps) && UnitsAll(ps) == us;
      PiecesCooked(ps);
    }
  }
}
