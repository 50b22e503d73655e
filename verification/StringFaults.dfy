/** Which texts the string decoder refuses, and for what. */
module StringFaults {
  import opened Prelude
  import opened Unicode
  import opened StringLiterals

  /** What goes wrong at the front of a text, where the quote does not stand. */
  predicate Wrong(t: string, q: char, f: Fault) {
    match f
    case Unterminated => t == []
    case NewlineInString => t != [] && IsQuote(q) && (t[0] == '\n' || t[0] == '\r')
    case UnexpectedEnd => t == "\\" || t == "\\u"
    case OctalEscape => |t| > 1 && t[0] == '\\' && IsDigit(t[1]) && (t[1] == '0' ==> |t| > 2 && IsDigit(t[2]))
    case EndOfHex => "\\x" <= t && |t| < 4
    case InvalidHex => "\\x" <= t && |t| >= 4 && Radix16(t[2..4], 0x100).None?
    case UnterminatedUnicode => "\\u{" <= t && '}' !in t[3..]
    case EndOfUnicode => "\\u" <= t && 2 < |t| < 6 && t[2] != '{'
    case InvalidUnicode =>
      "\\u" <= t && |t| > 2 && if t[2] == '{' then BadBraces(t[3..]) else |t| >= 6 && Radix16(t[2..6], U16).None?
  }

  /** The digits before the first closing brace stand for no code point. */
  predicate BadBraces(u: string) {
    exists n :: 0 <= n < |u| && u[n] == '}' && '}' !in u[..n]
      && (Radix16(u[..n], U32).None? || Radix16(u[..n], U32).value > 0x10ffff)
  }

  lemma BracesIff(u: string, n: nat)
    requires n < |u| && u[n] == '}' && '}' !in u[..n]
    ensures BadBraces(u) <==> Radix16(u[..n], U32).None? || Radix16(u[..n], U32).value > 0x10ffff
  {
    hide Radix16;
    if BadBraces(u) {
      var k :| 0 <= k < |u| && u[k] == '}' && '}' !in u[..k]
        && (Radix16(u[..k], U32).None? || Radix16(u[..k], U32).value > 0x10ffff);
      assert forall i :: 0 <= i < n ==> u[..n][i] == u[i];
      assert forall i :: 0 <= i < k ==> u[..k][i] == u[i];
      assert k == n;
    }
  }

  lemma UnicodeWrong(t: string, f: Fault)
    requires |t| > 1 && t[0] == '\\' && t[1] == 'u'
    ensures UnicodeEscape(t[2..]) == Bad(f) <==> Wrong(t, '\"', f)
  {
    hide Radix16, BadBraces;
    var u := t[2..];
    if u != [] && u[0] == '{' {
      assert t[3..] == u[1..];
      var n := Find(u[1..], '}');
      if n < |u| - 1 {
        assert '}' in u[1..];
        BracesIff(u[1..], n);
        assert u[1..][..n] == u[1..1 + n];
      } else {
        assert u[1..][..n] == u[1..];
        NoBraces(u[1..]);
      }
    } else if |u| >= 4 {
      assert u[..4] == t[2..6];
    }
  }

  lemma NoBraces(u: string)
    requires '}' !in u
    ensures !BadBraces(u)
  {
    hide Radix16;
  }

  lemma ElementWrong(t: string, q: char, f: Fault)
    requires t != [] && IsQuote(q)
    ensures ElementAt(t, q) == Bad(f) <==> Wrong(t, q, f)
  {
    hide Radix16, BadBraces, UnicodeEscape, CodeUnits, CharUnits;
    if t[0] == '\\' {
      if |t| > 1 {
        assert t[1..][1..] == t[2..];
        if t[1] == 'u' {
          UnicodeWrong(t, f);
        } else if t[1] == 'x' {
          if |t| >= 4 { assert t[2..][..2] == t[2..4]; }
        }
      }
    }
  }

  /** After some well-formed pieces the text goes wrong, short of the quote. */
  ghost predicate GoesWrong(ps: seq<Piece>, t: string, q: char, f: Fault) {
    && TextAll(ps) <= t && AllWellFormed(ps, q, t[|TextAll(ps)|..])
    && (t[|TextAll(ps)|..] != [] ==> t[|TextAll(ps)|] != q)
    && Wrong(t[|TextAll(ps)|..], q, f)
  }

  lemma {:induction false} WrongRefused(ps: seq<Piece>, t: string, rest: string, q: char, f: Fault)
    requires IsQuote(q) && t == TextAll(ps) + rest && AllWellFormed(ps, q, rest)
    requires (rest != [] ==> rest[0] != q) && Wrong(rest, q, f)
    ensures Parse(t, q) == Fail(f)
    decreases |ps|
  {
    hide ElementAt, Text, Units, WellFormed, Wrong;
    if ps == [] {
      assert t == rest;
      if rest == [] { OnlyUnterminated(q, f); } else { ElementWrong(rest, q, f); }
    } else {
      var more := TextAll(ps[1..]) + rest;
      assert t == Text(ps[0]) + more;
      PieceReads(ps[0], q, more);
      WrongRefused(ps[1..], more, rest, q, f);
    }
  }

  lemma OnlyUnterminated(q: char, f: Fault)
    ensures Wrong([], q, f) <==> f == Unterminated
  {
  }

  lemma {:induction false} RefusedWrong(t: string, q: char) returns (ps: seq<Piece>, rest: string)
    requires IsQuote(q) && Parse(t, q).Fail?
    ensures t == TextAll(ps) + rest && AllWellFormed(ps, q, rest)
    ensures (rest != [] ==> rest[0] != q) && Wrong(rest, q, Parse(t, q).fault)
    decreases |t|
  {
    hide ElementAt, Text, Units, WellFormed, Wrong, PieceAt;
    if t == [] {
      ps, rest := [], [];
      OnlyUnterminated(q, Unterminated);
    } else {
      var e := ElementAt(t, q);
      ElementFits(t, q);
      if e.Bad? {
        ps, rest := [], t;
        ElementWrong(t, q, e.fault);
        assert TextAll([]) + t == t;
      } else {
        ElementIsPiece(t, q);
        var p, u := PieceAt(t), t[e.width..];
        var more, last := RefusedWrong(u, q);
        ps, rest := [p] + more, last;
        assert ps[1..] == more;
        assert t == Text(p) + u;
        assert Text(p) + (TextAll(more) + rest) == Text(p) + TextAll(more) + rest;
      }
    }
  }

  /** The decoder refuses a text for a fault exactly when well-formed pieces come before where that goes wrong. */
  lemma FailsIff(t: string, q: char, f: Fault)
    requires IsQuote(q)
    ensures Parse(t, q) == Fail(f) <==> exists ps :: GoesWrong(ps, t, q, f)
  {
    hide Parse, Wrong, TextAll, AllWellFormed;
    if Parse(t, q) == Fail(f) {
      var ps, rest := RefusedWrong(t, q);
      assert t[|TextAll(ps)|..] == rest;
      assert GoesWrong(ps, t, q, f);
    }
    if exists ps :: GoesWrong(ps, t, q, f) {
      var ps :| GoesWrong(ps, t, q, f);
      var rest := t[|TextAll(ps)|..];
      assert t == TextAll(ps) + rest;
      WrongRefused(ps, t, rest, q, f);
    }
  }
}
