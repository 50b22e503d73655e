/** The grammar of the names the tokenizer accepts, that it accepts exactly these, and where it strays from the
    language. */
module NameGrammar {
  import opened Prelude
  import opened Unicode
  import opened Lexemes
  import opened Names
  import S = StringLiterals

  /** A character of a name as it is written. */
  datatype Piece = Bare(c: char) | Four(c: char, hex: string) | Braced(c: char, hex: string)

  function Text(p: Piece): (t: string)
    ensures t != []
  {
    match p
    case Bare(c) => [c]
    case Four(_, hex) => "\\u" + hex
    case Braced(_, hex) => "\\u{" + hex + "}"
  }

  predicate PieceOk(p: Piece, name: string, tables: Tables) {
    match p
    case Bare(c) => c != '\\' && IsPart(c, tables)
    case Four(c, hex) => |hex| == 4 && AllHex(hex) && FromHex(hex) == Some(c) && Allowed(c, name, tables)
    case Braced(c, hex) => hex != [] && '}' !in hex && FromHex(hex) == Some(c) && Allowed(c, name, tables)
  }

  function TextAll(ps: seq<Piece>): string {
    if ps == [] then [] else Text(ps[0]) + TextAll(ps[1..])
  }

  /** The name that some pieces spell. */
  function Spelled(ps: seq<Piece>): (s: string)
    ensures |s| == |ps|
  {
    if ps == [] then [] else [ps[0].c] + Spelled(ps[1..])
  }

  predicate AllOk(ps: seq<Piece>, name: string, tables: Tables)
    decreases |ps|
  {
    ps == [] || (PieceOk(ps[0], name, tables) && AllOk(ps[1..], name + [ps[0].c], tables))
  }

  predicate HasEscape(ps: seq<Piece>) {
    ps != [] && (!ps[0].Bare? || HasEscape(ps[1..]))
  }

  /** No name goes on there. */
  predicate EndsName(rest: string, tables: Tables) {
    (rest == [] || rest[0] == '\\' || !IsPart(rest[0], tables)) && !IsEscape(rest)
  }

  // ----- what is written is read -----

  lemma EscapeRead(p: Piece, rest: string, name: string, tables: Tables)
    requires !p.Bare? && PieceOk(p, name, tables)
    ensures var t := Text(p) + rest; IsEscape(t) && EscapedChar(t[2..]) == Some((p.c, |Text(p)| - 2)) && t[|Text(p)|..] == rest
  {
    hide FromHex, Allowed, S.Find, EscapedChar, AllHex;
    var t := Text(p) + rest;
    if p.Four? {
      assert t[2..] == p.hex + rest;
      FourRead(p.hex, p.c, rest);
    } else {
      assert t == "\\u" + ("{" + p.hex + "}" + rest);
      assert t[2..] == "{" + p.hex + "}" + rest;
      BracedRead(p.hex, p.c, rest);
    }
  }

  lemma FourRead(hex: string, c: char, rest: string)
    requires |hex| == 4 && AllHex(hex) && FromHex(hex) == Some(c)
    ensures EscapedChar(hex + rest) == Some((c, 4))
  {
    hide FromHex, S.Find, AllHex;
    var u := hex + rest;
    assert u[..4] == hex;
    NotBrace(hex);
    assert u[0] == hex[0];
  }

  lemma BracedRead(hex: string, c: char, rest: string)
    requires hex != [] && '}' !in hex && FromHex(hex) == Some(c)
    ensures EscapedChar("{" + hex + "}" + rest) == Some((c, |hex| + 2))
  {
    hide FromHex, S.Find, AllHex;
    var u := "{" + hex + "}" + rest;
    assert u == "{" + (hex + "}" + rest);
    var v := u[1..];
    assert v == hex + "}" + rest;
    assert v[..|hex|] == hex;
    S.FindIs(v, '}', |hex|);
    assert u[1..1 + |hex|] == v[..|hex|];
  }

  lemma NotBrace(hex: string)
    requires |hex| == 4 && AllHex(hex)
    ensures hex[0] != '{'
  {
    assert IsHex(hex[0]);
  }

  /** A piece goes on a name by its character. */
  lemma PieceTaken(p: Piece, more: string, name: string, tables: Tables)
    requires PieceOk(p, name, tables)
    ensures Take(Text(p) + more, name, tables) == Further(Take(more, name + [p.c], tables), !p.Bare?, |Text(p)|)
  {
    hide Take, EscapedChar, Allowed, IsPart, FromHex, AllHex;
    var t := Text(p) + more;
    TakeTurn(t, name, tables);
    if p.Bare? {
      assert t[1..] == more;
    } else {
      EscapeRead(p, more, name, tables);
    }
  }

  lemma NoPieces(ps: seq<Piece>, t: string, rest: string, name: string, full: string, tables: Tables)
    requires ps == [] && t == TextAll(ps) + rest && full == name + Spelled(ps) && EndsName(rest, tables)
    ensures Take(t, name, tables) == Some(Taken(full, HasEscape(ps) || Begins(rest, "\\"), |t| - |rest|))
  {
    hide Take, IsPart;
    assert t == rest && full == name;
    TakeTurn(rest, name, tables);
  }

  lemma Unfold(ps: seq<Piece>, t: string, rest: string, name: string, full: string)
    requires ps != [] && t == TextAll(ps) + rest && full == name + Spelled(ps)
    ensures var n := |Text(ps[0])|;
      n <= |t| && t == Text(ps[0]) + t[n..] && t[n..] == TextAll(ps[1..]) + rest && |rest| <= |t| - n
    ensures full == (name + [ps[0].c]) + Spelled(ps[1..])
  {
    hide Text;
    var x, y := Text(ps[0]), TextAll(ps[1..]);
    assert TextAll(ps) == x + y;
    ThreeParts(t, x, y, rest);
    assert Spelled(ps) == [ps[0].c] + Spelled(ps[1..]);
    ThreeParts(name + [ps[0].c] + Spelled(ps[1..]), name, [ps[0].c], Spelled(ps[1..]));
  }

  lemma {:induction false} PiecesTaken(ps: seq<Piece>, t: string, rest: string, name: string, full: string, tables: Tables)
    requires t == TextAll(ps) + rest && full == name + Spelled(ps)
    requires AllOk(ps, name, tables) && EndsName(rest, tables)
    ensures Take(t, name, tables) == Some(Taken(full, HasEscape(ps) || Begins(rest, "\\"), |t| - |rest|))
    decreases |ps|
  {
    hide Take, PieceOk, Text, TextAll, Spelled, EndsName;
    if ps == [] {
      NoPieces(ps, t, rest, name, full, tables);
    } else {
      Unfold(ps, t, rest, name, full);
      var p, more := ps[0], t[|Text(ps[0])|..];
      PieceTaken(p, more, name, tables);
      PiecesTaken(ps[1..], more, rest, name + [p.c], full, tables);
    }
  }

  // ----- what is read is written -----

  lemma EscapeWritten(t: string, name: string, tables: Tables) returns (p: Piece)
    requires IsEscape(t) && EscapedChar(t[2..]).Some? && Allowed(EscapedChar(t[2..]).value.0, name, tables)
    ensures !p.Bare? && PieceOk(p, name, tables) && p.c == EscapedChar(t[2..]).value.0
    ensures Text(p) == t[..2 + EscapedChar(t[2..]).value.1]
  {
    hide FromHex, Allowed, S.Find;
    var u := t[2..];
    var c := EscapedChar(u).value.0;
    if u[0] == '{' {
      var k := S.Find(u[1..], '}');
      assert u[1..1 + k] == u[1..][..k];
      p := Braced(c, u[1..1 + k]);
      assert u[1..][k] == u[1 + k] == t[3 + k];
      assert t[..4 + k] == "\\u{" + u[1..1 + k] + "}";
    } else {
      p := Four(c, u[..4]);
      assert t[..6] == "\\u" + u[..4];
    }
  }

  lemma {:induction false} TakenPieces(t: string, name: string, tables: Tables) returns (ps: seq<Piece>)
    requires Take(t, name, tables).Some?
    ensures var n := Take(t, name, tables).value.width;
      AllOk(ps, name, tables) && TextAll(ps) == t[..n] && EndsName(t[n..], tables)
    decreases |t|
  {
    hide Take, PieceOk, EscapedChar, Allowed, IsPart, Text;
    TakeTurn(t, name, tables);
    if IsEscape(t) {
      var (c, n) := EscapedChar(t[2..]).value;
      var p := EscapeWritten(t, name, tables);
      var rest := t[2 + n..];
      var more := TakenPieces(rest, name + [c], tables);
      ps := Before(p, more, t, 2 + n, name, tables);
    } else if t != [] && t[0] != '\\' && IsPart(t[0], tables) {
      var more := TakenPieces(t[1..], name + [t[0]], tables);
      BareOk(t[0], name, tables);
      assert t[..1] == [t[0]];
      ps := Before(Bare(t[0]), more, t, 1, name, tables);
    } else {
      ps := [];
      assert t[0..] == t;
    }
  }

  lemma BareOk(c: char, name: string, tables: Tables)
    requires c != '\\' && IsPart(c, tables)
    ensures PieceOk(Bare(c), name, tables) && Text(Bare(c)) == [c]
  {
  }

  lemma Before(p: Piece, more: seq<Piece>, t: string, n: nat, name: string, tables: Tables) returns (ps: seq<Piece>)
    requires n <= |t| && Text(p) == t[..n] && PieceOk(p, name, tables) && AllOk(more, name + [p.c], tables)
    requires |TextAll(more)| <= |t| - n && TextAll(more) == t[n..][..|TextAll(more)|]
    ensures ps == [p] + more && AllOk(ps, name, tables)
    ensures TextAll(ps) == t[..n + |TextAll(more)|] && t[n..][|TextAll(more)|..] == t[n + |TextAll(more)|..]
  {
    hide PieceOk, Text;
    ps := [p] + more;
    assert ps[1..] == more;
    var k := |TextAll(more)|;
    assert t[..n + k] == t[..n] + t[n..][..k];
  }

  // ----- names -----

  /** Pieces that make a name at the front of a text. */
  predicate IsNameAt(ps: seq<Piece>, t: string, tables: Tables) {
    ps != [] && AllOk(ps, "", tables) && Begins(t, TextAll(ps)) && EndsName(t[|TextAll(ps)|..], tables)
  }

  /** Only a bare backslash after a name is taken as an escape in it. */
  function TokenAt(ps: seq<Piece>, t: string): (r: (Token, nat))
    requires ps != [] && Begins(t, TextAll(ps))
  {
    var rest := t[|TextAll(ps)|..];
    var (token, more) := TokenOf(Spelled(ps), HasEscape(ps) || Begins(rest, "\\"), rest);
    (token, |TextAll(ps)| + more)
  }

  /** The branch accepts exactly the texts that begin with a name of the grammar, and takes this name. */
  lemma NamesIff(t: string, tables: Tables)
    ensures NameAt(t, tables).Some? <==> exists ps :: IsNameAt(ps, t, tables)
    ensures forall ps :: IsNameAt(ps, t, tables) ==> NameAt(t, tables) == Some(TokenAt(ps, t))
  {
    hide Take, AllOk, EndsName, Spelled, HasEscape, TextAll, TokenOf;
    forall ps | IsNameAt(ps, t, tables) ensures NameAt(t, tables) == Some(TokenAt(ps, t)) {
      var rest := t[|TextAll(ps)|..];
      assert t == TextAll(ps) + rest;
      assert Spelled(ps) == "" + Spelled(ps);
      PiecesTaken(ps, t, rest, "", Spelled(ps), tables);
    }
    if NameAt(t, tables).Some? {
      var ps := TakenPieces(t, "", tables);
      var n := Take(t, "", tables).value.width;
      assert t == TextAll(ps) + t[n..];
      assert Spelled(ps) == "" + Spelled(ps);
      PiecesTaken(ps, t, t[n..], "", Spelled(ps), tables);
      assert Spelled([]) == [];
      assert IsNameAt(ps, t, tables);
    }
  }

  /** Spelling a name with escapes gives the same name, and never a keyword. */
  lemma EscapesSpellTheName(ps: seq<Piece>, rest: string, tables: Tables)
    requires ps != [] && AllOk(ps, "", tables) && EndsName(rest, tables) && HasEscape(ps)
    ensures NameAt(TextAll(ps) + rest, tables)
         == Some((if ps[0].c == '#' then PrivateIdentifier(Spelled(ps)[1..]) else Identifier(Spelled(ps)), |TextAll(ps)|))
  {
    hide Take, AllOk, EndsName, TextAll, HasEscape, IsEscape;
    assert Spelled(ps) == "" + Spelled(ps);
    PiecesTaken(ps, TextAll(ps) + rest, rest, "", Spelled(ps), tables);
  }

  // ----- the language -----

  /** Section 12.7 of ECMA-262, with the tokenizer's tables for the characters of names. */
  predicate LegalPart(p: Piece, tables: Tables) {
    || IsIdContinue(p.c, tables) || (!IsAscii(p.c) && tables.otherContinue(p.c)) || p.c == '$'
    || p.c == '\U{200c}' || p.c == '\U{200d}'
  }

  predicate IsSigned(p: Piece) {
    p.Braced? && p.hex != [] && p.hex[0] == '+'
  }

  predicate LegalName(ps: seq<Piece>, tables: Tables) {
    && ps != [] && CanStart(ps[0].c, tables)
    && (forall i :: 0 <= i < |ps| ==> !IsSigned(ps[i]))
    && (forall i :: 0 < i < |ps| ==> LegalPart(ps[i], tables))
  }

  predicate Legal(ps: seq<Piece>, tables: Tables) {
    if ps != [] && ps[0] == Bare('#') then LegalName(ps[1..], tables) else LegalName(ps, tables)
  }

  /** Exactly which accepted names are not of the language: those with a hash sign after the first character, with a
      signed escape, or whose hash sign is not followed by a character that can start a name. */
  lemma StraysIff(ps: seq<Piece>, tables: Tables)
    requires ps != [] && AllOk(ps, "", tables) && (ps[0].Bare? ==> ps[0].c == '#' || CanStart(ps[0].c, tables))
    ensures Legal(ps, tables) <==>
      && (forall i :: 0 < i < |ps| ==> ps[i] != Bare('#'))
      && (forall i :: 0 <= i < |ps| ==> !IsSigned(ps[i]))
      && (ps[0] == Bare('#') ==> |ps| > 1 && CanStart(ps[1].c, tables))
  {
    hide IsPart, FromHex, IsSigned, CanStart, PieceOk, AllOk;
    FirstOk(ps, tables);
    var from := if ps[0] == Bare('#') then 1 else 0;
    var body := ps[from..];
    assert forall i :: 0 <= i < |body| ==> body[i] == ps[i + from];
    assert forall i :: 0 <= i < |ps| - from ==> ps[i + from] == body[i];
    forall i | from < i < |ps| ensures LegalPart(ps[i], tables) <==> ps[i] != Bare('#') {
      LaterOk(ps, "", i, tables);
      PartOk(ps, i, tables);
    }
    if from == 1 {
      NotSigned(ps[0]);
      if |ps| > 1 { HashStartsNothing(ps[1], tables); }
    }
    assert (forall i :: 0 <= i < |ps| ==> !IsSigned(ps[i])) <==> (forall i :: 0 <= i < |body| ==> !IsSigned(body[i]));
    assert (forall i :: 0 < i < |body| ==> LegalPart(body[i], tables))
      <==> (forall i :: from < i < |ps| ==> ps[i] != Bare('#')) by {
      assert forall i :: from < i < |ps| ==> body[i - from] == ps[i];
    }
  }

  lemma HashStartsNothing(p: Piece, tables: Tables)
    ensures p == Bare('#') ==> !CanStart(p.c, tables)
  {
  }

  lemma NotSigned(p: Piece)
    requires p.Bare?
    ensures !IsSigned(p)
  {
  }

  lemma FirstOk(ps: seq<Piece>, tables: Tables)
    requires ps != [] && AllOk(ps, "", tables) && (ps[0].Bare? ==> ps[0].c == '#' || CanStart(ps[0].c, tables))
    ensures ps[0] == Bare('#') || (CanStart(ps[0].c, tables) && ps[0].c != '#')
  {
  }

  lemma {:induction false} LaterOk(ps: seq<Piece>, name: string, i: nat, tables: Tables)
    requires AllOk(ps, name, tables) && i < |ps|
    ensures PieceOk(ps[i], name + Spelled(ps)[..i], tables)
    decreases i
  {
    hide PieceOk;
    if i == 0 {
      assert name + Spelled(ps)[..0] == name;
    } else {
      LaterOk(ps[1..], name + [ps[0].c], i - 1, tables);
      assert name + [ps[0].c] + Spelled(ps[1..])[..i - 1] == name + Spelled(ps)[..i];
    }
  }

  lemma PartOk(ps: seq<Piece>, i: nat, tables: Tables)
    requires 0 < i < |ps| && PieceOk(ps[i], "" + Spelled(ps)[..i], tables) && (ps[0] == Bare('#') ==> i > 1)
    requires ps[0] == Bare('#') || ps[0].c != '#'
    ensures LegalPart(ps[i], tables) <==> ps[i] != Bare('#')
  {
    hide FromHex;
    var name := "" + Spelled(ps)[..i];
    assert |name| == i && name[0] == ps[0].c;
    assert name != "" && name != "#";
  }
}
