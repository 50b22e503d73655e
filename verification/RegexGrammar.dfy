/** The regular expression literals that the tokenizer's scan accepts: those of the language's grammar. */
module RegexGrammar {
  import opened Prelude
  import opened Lexemes
  import opened Slashes

  /** Section 12.9.5 of ECMA-262: a character or an escaped one, and classes of these. */
  datatype Atom = Plain(c: char) | Escaped(c: char)

  datatype Piece = One(a: Atom) | Class(atoms: seq<Atom>)

  function AtomText(a: Atom): (t: string)
    ensures t != []
  {
    if a.Plain? then [a.c] else ['\\', a.c]
  }

  function AtomsText(atoms: seq<Atom>): string {
    if atoms == [] then [] else AtomText(atoms[0]) + AtomsText(atoms[1..])
  }

  function Text(p: Piece): (t: string)
    ensures t != []
  {
    match p
    case One(a) => AtomText(a)
    case Class(atoms) => "[" + (AtomsText(atoms) + "]")
  }

  function TextAll(ps: seq<Piece>): string {
    if ps == [] then [] else Text(ps[0]) + TextAll(ps[1..])
  }

  predicate AtomOk(a: Atom, inClass: bool) {
    !IsLineEnd(a.c) && (a.Plain? ==> a.c != '\\' && if inClass then a.c != ']' else a.c != '/' && a.c != '[')
  }

  predicate PieceOk(p: Piece) {
    match p
    case One(a) => AtomOk(a, false)
    case Class(atoms) => forall i :: 0 <= i < |atoms| ==> AtomOk(atoms[i], true)
  }

  predicate AllOk(ps: seq<Piece>) {
    forall i :: 0 <= i < |ps| ==> PieceOk(ps[i])
  }

  // ----- patterns are scanned -----

  lemma AtomScanned(a: Atom, t: string, rest: string, inClass: bool)
    requires AtomOk(a, inClass) && t == AtomText(a) + rest
    ensures PatternLength(t, inClass) == More(PatternLength(rest, inClass), |AtomText(a)|)
  {
    hide PatternLength;
    PatternTurn(t, inClass);
    if a.Plain? { assert t[1..] == rest; } else { assert t[2..] == rest; }
  }

  lemma {:induction false} ClassScanned(atoms: seq<Atom>, t: string, rest: string)
    requires PieceOk(Class(atoms)) && t == AtomsText(atoms) + "]" + rest
    ensures PatternLength(t, true) == More(PatternLength(rest, false), |t| - |rest|)
    decreases |atoms|
  {
    hide PatternLength, AtomText, AtomOk;
    if atoms == [] {
      assert t == "]" + rest;
      PatternTurn(t, true);
      assert t[1..] == rest;
    } else {
      var a, more := atoms[0], AtomsText(atoms[1..]) + "]" + rest;
      ThreeParts(t, AtomText(a), AtomsText(atoms[1..]), "]" + rest) by { assert t == AtomsText(atoms) + ("]" + rest); }
      assert AtomsText(atoms[1..]) + ("]" + rest) == more;
      AtomScanned(a, t, more, true);
      ClassScanned(atoms[1..], more, rest);
    }
  }

  lemma PieceScanned(p: Piece, t: string, rest: string)
    requires PieceOk(p) && t == Text(p) + rest
    ensures PatternLength(t, false) == More(PatternLength(rest, false), |Text(p)|)
  {
    hide PatternLength, AtomText, AtomOk;
    match p
    case One(a) => AtomScanned(a, t, rest, false);
    case Class(atoms) =>
      PatternTurn(t, false);
      assert t[1..] == AtomsText(atoms) + "]" + rest;
      ClassScanned(atoms, t[1..], rest);
  }

  lemma {:induction false} PatternScanned(ps: seq<Piece>, t: string, rest: string)
    requires AllOk(ps) && t == TextAll(ps) + rest && rest != [] && rest[0] == '/'
    ensures PatternLength(t, false) == Some(|TextAll(ps)|)
    decreases |ps|
  {
    hide PatternLength, Text, PieceOk;
    if ps == [] {
      assert t == rest;
      PatternTurn(t, false);
    } else {
      var more := TextAll(ps[1..]) + rest;
      ThreeParts(t, Text(ps[0]), TextAll(ps[1..]), rest);
      PieceScanned(ps[0], t, more);
      PatternScanned(ps[1..], more, rest);
    }
  }

  // ----- what is scanned is a pattern -----

  /** Splits what precedes the closing slash: outside a class into pieces, inside into the rest of the class and
      pieces. */
  lemma {:induction false} ScannedPattern(t: string, inClass: bool) returns (atoms: seq<Atom>, ps: seq<Piece>)
    requires PatternLength(t, inClass).Some?
    ensures AllOk(ps) && PieceOk(Class(atoms)) && (!inClass ==> atoms == [])
    ensures t[..PatternLength(t, inClass).value] == (if inClass then AtomsText(atoms) + "]" else []) + TextAll(ps)
    decreases |t|
  {
    hide PatternLength, AtomText, AtomOk;
    NotAtEnd(t, inClass);
    PatternTurn(t, inClass);
    if t[0] == '/' && !inClass {
      atoms, ps := [], [];
    } else if t[0] == '[' && !inClass {
      atoms, ps := ScannedPattern(t[1..], true);
      ps := ClassFirst(t, atoms, ps);
      atoms := [];
    } else if t[0] == ']' && inClass {
      atoms, ps := ScannedPattern(t[1..], false);
      Shift(t, 1, PatternLength(t[1..], false).value);
      assert t[..1] == "]";
    } else {
      var n := if t[0] == '\\' then 2 else 1;
      var a := if t[0] == '\\' then Escaped(t[1]) else Plain(t[0]);
      AtomWritten(t, a, inClass);
      assert (t[0] == '[' || (inClass && t[0] != ']')) == inClass;
      atoms, ps := ScannedPattern(t[n..], inClass);
      atoms, ps := AtomFirst(t, n, a, inClass, atoms, ps);
    }
  }

  lemma NotAtEnd(t: string, inClass: bool)
    requires PatternLength(t, inClass).Some?
    ensures t != [] && !IsLineEnd(t[0])
  {
  }

  lemma Shift(t: string, n: nat, k: nat)
    requires n + k <= |t|
    ensures t[..n + k] == t[..n] + t[n..][..k]
  {
  }

  lemma AtomWritten(t: string, a: Atom, inClass: bool)
    requires PatternLength(t, inClass).Some? && t != []
    requires !(t[0] == '/' && !inClass) && !(t[0] == '[' && !inClass) && !(t[0] == ']' && inClass)
    requires t[0] == '\\' ==> |t| > 1 && a == Escaped(t[1])
    requires t[0] != '\\' ==> a == Plain(t[0])
    ensures AtomOk(a, inClass) && |AtomText(a)| <= |t| && AtomText(a) == t[..|AtomText(a)|]
    ensures |AtomText(a)| == if t[0] == '\\' then 2 else 1
  {
    hide IsLineEnd;
  }

  lemma AtomFirst(t: string, n: nat, a: Atom, inClass: bool, atoms: seq<Atom>, ps: seq<Piece>)
    returns (atoms': seq<Atom>, ps': seq<Piece>)
    requires n <= |t| && AtomText(a) == t[..n] && AtomOk(a, inClass) && AllOk(ps) && PieceOk(Class(atoms))
    requires PatternLength(t[n..], inClass).Some? && (!inClass ==> atoms == [])
    requires t[n..][..PatternLength(t[n..], inClass).value] == (if inClass then AtomsText(atoms) + "]" else []) + TextAll(ps)
    ensures AllOk(ps') && PieceOk(Class(atoms')) && (!inClass ==> atoms' == [])
    ensures t[..n + PatternLength(t[n..], inClass).value] == (if inClass then AtomsText(atoms') + "]" else []) + TextAll(ps')
  {
    hide PatternLength, AtomText, AtomOk;
    Shift(t, n, PatternLength(t[n..], inClass).value);
    if inClass {
      atoms', ps' := [a] + atoms, ps;
      assert atoms'[1..] == atoms;
      assert AtomText(a) + (AtomsText(atoms) + "]" + TextAll(ps)) == AtomsText(atoms') + "]" + TextAll(ps);
    } else {
      atoms', ps' := [], [One(a)] + ps;
      assert ps'[1..] == ps;
      assert [] + TextAll(ps) == TextAll(ps) && [] + TextAll(ps') == TextAll(ps');
    }
  }

  lemma ClassFirst(t: string, atoms: seq<Atom>, ps: seq<Piece>) returns (ps': seq<Piece>)
    requires t != [] && t[0] == '[' && AllOk(ps) && PieceOk(Class(atoms)) && PatternLength(t[1..], true).Some?
    requires t[1..][..PatternLength(t[1..], true).value] == AtomsText(atoms) + "]" + TextAll(ps)
    ensures AllOk(ps') && t[..1 + PatternLength(t[1..], true).value] == [] + TextAll(ps')
  {
    hide PatternLength, AtomsText, PieceOk;
    ps' := [Class(atoms)] + ps;
    assert ps'[1..] == ps;
    Shift(t, 1, PatternLength(t[1..], true).value);
    assert t[..1] == "[";
    var body := AtomsText(atoms) + "]";
    ThreeParts("[" + body + TextAll(ps), "[", body, TextAll(ps));
    assert TextAll(ps') == "[" + body + TextAll(ps);
    assert [] + TextAll(ps') == TextAll(ps');
  }

  /** The scan ends at a slash exactly when what precedes it is a pattern of the grammar. */
  lemma PatternIff(t: string, n: nat)
    requires n < |t|
    ensures PatternLength(t, false) == Some(n) <==> t[n] == '/' && exists ps :: AllOk(ps) && TextAll(ps) == t[..n]
  {
    hide PatternLength, AllOk, TextAll;
    if PatternLength(t, false) == Some(n) {
      var atoms, ps := ScannedPattern(t, false);
      assert [] + TextAll(ps) == TextAll(ps);
    }
    if t[n] == '/' && exists ps :: AllOk(ps) && TextAll(ps) == t[..n] {
      var ps :| AllOk(ps) && TextAll(ps) == t[..n];
      assert t == TextAll(ps) + t[n..];
      PatternScanned(ps, t, t[n..]);
    }
  }

  // ----- whole literals -----

  ghost predicate IsPattern(pattern: string) {
    exists ps :: AllOk(ps) && TextAll(ps) == pattern
  }

  predicate AllAlphabetic(t: string, tables: Tables) {
    forall i :: 0 <= i < |t| ==> IsAlphabetic(t[i], tables)
  }

  /** A text begins with that regular expression literal: a pattern between slashes that the library knows, and all
      letters after it, which are flags. */
  ghost predicate IsRegexAt(t: string, pattern: string, flags: string, tables: Tables) {
    && Begins(t, "/" + pattern + "/" + flags)
    && IsPattern(pattern)
    && AllAlphabetic(flags, tables) && !StartsAlphabetic(t[2 + |pattern| + |flags|..], tables)
    && FlagsOk(flags) && tables.regexOk(pattern, AskedFlags(flags))
  }

  predicate StartsAlphabetic(t: string, tables: Tables) {
    t != [] && IsAlphabetic(t[0], tables)
  }

  lemma {:induction false} FlagsLengthIff(t: string, n: nat, tables: Tables)
    requires n <= |t|
    ensures FlagsLength(t, tables) == n <==> AllAlphabetic(t[..n], tables) && !StartsAlphabetic(t[n..], tables)
  {
    hide IsAlphabetic;
    if n > 0 {
      var d, u := t[..n], t[1..];
      assert u[..n - 1] == d[1..] && u[n - 1..] == t[n..];
      assert d[0] == t[0];
      FlagsLengthIff(u, n - 1, tables);
      if AllAlphabetic(u[..n - 1], tables) && IsAlphabetic(t[0], tables) {
        forall i | 0 <= i < n ensures IsAlphabetic(d[i], tables) { if i > 0 { assert d[i] == d[1..][i - 1]; } }
      }
      if AllAlphabetic(d, tables) {
        forall i | 0 <= i < n - 1 ensures IsAlphabetic(d[1..][i], tables) { assert d[1..][i] == d[i + 1]; }
      }
    } else {
      assert t[0..] == t;
    }
  }

  /** The branch reads exactly these literals and takes them whole. */
  lemma RegexIff(t: string, tables: Tables)
    requires t != [] && t[0] == '/'
    ensures RegexAt(t, tables) == None <==> forall pattern, flags :: !IsRegexAt(t, pattern, flags, tables)
    ensures forall pattern, flags :: IsRegexAt(t, pattern, flags, tables) ==>
      RegexAt(t, tables) == Some((Regex(pattern, flags), 2 + |pattern| + |flags|))
  {
    hide PatternLength, FlagsLength, FlagsOk, AskedFlags, IsRegexAt;
    forall pattern, flags | IsRegexAt(t, pattern, flags, tables)
      ensures RegexAt(t, tables) == Some((Regex(pattern, flags), 2 + |pattern| + |flags|))
    {
      RegexRead(t, pattern, flags, tables);
    }
    if RegexAt(t, tables).Some? {
      var token := RegexAt(t, tables).value.0;
      RegexWritten(t, tables);
      assert IsRegexAt(t, token.pattern, token.flags, tables);
    }
  }

  /** The parts of a text that begins with a literal. */
  lemma RegexParts(t: string, pattern: string, flags: string)
    requires Begins(t, "/" + pattern + "/" + flags)
    ensures var n, k := |pattern|, |flags|;
      && 2 + n + k <= |t| && t[1..1 + n] == pattern && t[1..][..n] == pattern && n < |t[1..]| && t[1..][n] == '/'
      && t[2 + n..2 + n + k] == flags && t[2 + n..][..k] == flags && t[2 + n..][k..] == t[2 + n + k..]
  {
    var whole := "/" + pattern + "/" + flags;
    assert t == whole + t[|whole|..];
    assert whole[1..1 + |pattern|] == pattern;
    assert whole[2 + |pattern|..] == flags;
    assert t[1..1 + |pattern|] == whole[1..1 + |pattern|];
    assert t[2 + |pattern|..2 + |pattern| + |flags|] == whole[2 + |pattern|..];
    assert whole[1 + |pattern|] == '/';
  }

  lemma RegexRead(t: string, pattern: string, flags: string, tables: Tables)
    requires t != [] && t[0] == '/' && IsRegexAt(t, pattern, flags, tables)
    ensures RegexAt(t, tables) == Some((Regex(pattern, flags), 2 + |pattern| + |flags|))
  {
    hide PatternLength, FlagsLength, FlagsOk, AskedFlags, AllOk, TextAll, AllAlphabetic, StartsAlphabetic;
    RegexParts(t, pattern, flags);
    var n := |pattern|;
    PatternIff(t[1..], n);
    FlagsLengthIff(t[2 + n..], |flags|, tables);
  }

  lemma RegexWritten(t: string, tables: Tables)
    requires t != [] && t[0] == '/' && RegexAt(t, tables).Some?
    ensures var r := RegexAt(t, tables).value; r.0.Regex? && IsRegexAt(t, r.0.pattern, r.0.flags, tables)
  {
    hide PatternLength, FlagsLength, FlagsOk, AskedFlags, AllOk, TextAll, AllAlphabetic, StartsAlphabetic;
    var u := t[1..];
    var n := PatternLength(u, false).value;
    PatternIff(u, n);
    assert u[..n] == t[1..1 + n] && u[n] == t[1 + n];
    var v := t[2 + n..];
    var k := FlagsLength(v, tables);
    FlagsLengthIff(v, k, tables);
    assert v[..k] == t[2 + n..2 + n + k] && v[k..] == t[2 + n + k..];
    assert t[..2 + n + k] == "/" + t[1..1 + n] + "/" + t[2 + n..2 + n + k];
  }
}
