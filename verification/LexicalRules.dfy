/** The characters and words of the tokenizer, each against the list that the language or the encoding gives. */
module LexicalRules {
  import opened Prelude
  import opened Unicode
  import opened Lexemes
  import N = Names
  import R = Slashes
  import K = Tokens

  /** The white space of the language (section 12.2 of ECMA-262): tab, vertical tab, form feed, the byte order mark, and
      the space separators of the Unicode standard. */
  const WHITE_SPACE: set<int> :=
    {0x9, 0xb, 0xc, 0xfeff, 0x20, 0xa0, 0x1680, 0x2000, 0x2001, 0x2002, 0x2003, 0x2004, 0x2005, 0x2006, 0x2007, 0x2008,
     0x2009, 0x200a, 0x202f, 0x205f, 0x3000}

  /** Its line terminators (section 12.3). */
  const LINE_ENDS: set<int> := {0xa, 0xd, 0x2028, 0x2029}

  lemma BlanksAre(c: char)
    ensures IsSpace(c) <==> c as int in WHITE_SPACE
    ensures IsLineEnd(c) <==> c as int in LINE_ENDS
  {
  }

  /** Below 0x80 a name starts with a letter, an underscore or a dollar sign, and goes on with these and digits; the
      tokenizer lets it go on with a number sign too. */
  lemma AsciiNamesAre(c: char, name: string, tables: Tables)
    requires c as int < 0x80
    ensures var letter := 65 <= c as int <= 90 || 97 <= c as int <= 122;
      && (N.CanStart(c, tables) <==> letter || c == '_' || c == '$')
      && (N.IsPart(c, tables) <==> letter || c == '_' || c == '$' || c == '#' || 48 <= c as int <= 57)
      && (N.Allowed(c, name, tables) <==> letter || c == '_' || c == '$' || (48 <= c as int <= 57 && name !in ["", "#"]))
      && (IsAlphabetic(c, tables) <==> letter)
  {
  }

  /** Beyond, the Unicode tables decide, and two joiners may stand escaped inside a name. */
  lemma OtherNamesAre(c: char, name: string, tables: Tables)
    requires c as int >= 0x80
    ensures N.CanStart(c, tables) <==> tables.idStart(c)
    ensures N.IsPart(c, tables) <==> tables.idContinue(c) || tables.otherContinue(c)
    ensures N.Allowed(c, name, tables) <==>
      if name in ["", "#"] then tables.idStart(c) else tables.idContinue(c) || c as int in {0x200c, 0x200d}
    ensures IsAlphabetic(c, tables) <==> tables.alphabetic(c)
  {
  }

  /** The digits of an escape stand for the character that has their value, one leading plus sign aside: no surrogate and
      none past the last. */
  lemma EscapesAre(hex: string, c: char)
    ensures var digits := if hex != [] && hex[0] == '+' then hex[1..] else hex;
      N.FromHex(hex) == Some(c) <==> digits != [] && AllHex(digits) && HexValue(digits) == c as int
  {
  }

  /** The reserved words of the language (section 12.7.2). */
  const RESERVED: set<string> :=
    {"await", "break", "case", "catch", "class", "const", "continue", "debugger", "default", "delete", "do", "else", "enum",
     "export", "extends", "false", "finally", "for", "function", "if", "import", "in", "instanceof", "new", "null", "return",
     "super", "switch", "this", "throw", "true", "try", "typeof", "var", "void", "while", "with", "yield"}

  /** Words that the language reserves in strict code only, or nowhere. */
  const CONTEXTUAL: set<string> := {"let", "static", "as", "async"}

  /** The keywords of the tokenizer are the reserved words and these. */
  lemma KeywordsAre(w: string)
    ensures w in N.KEYWORDS <==> w in RESERVED || w in CONTEXTUAL
  {
  }

  /** What a name is made of it: after a number sign a private name; a keyword only if it is one of these words and written
      without escapes, with the asterisk of a generator or of a delegating yield. */
  lemma WordsAre(name: string, escaped: bool, after: string)
    requires name != []
    ensures var (token, more) := N.TokenOf(name, escaped, after);
      && (name[0] == '#' ==> token == PrivateIdentifier(name[1..]) && more == 0)
      && (name[0] != '#' && (escaped || !(name in RESERVED || name in CONTEXTUAL)) ==> token == Identifier(name) && more == 0)
      && (name[0] != '#' && !escaped && (name in RESERVED || name in CONTEXTUAL) ==>
            if (name == "function" || name == "yield") && Begins(after, "*") then token == Keyword(name + "*") && more == 1
            else token == Keyword(name) && more == 0)
  {
    KeywordsAre(name);
  }

  /** The flags of regular expressions (section 22.2.4.1). */
  lemma FlagsAre(c: char)
    ensures R.IsFlag(c) <==> c in ['d', 'g', 'i', 'm', 's', 'u', 'v', 'y']
  {
  }

  /** The library is asked about all flags but d. */
  lemma AskedAre(before: string, after: string)
    requires 'd' !in before && 'd' !in after
    ensures R.AskedFlags(before + after) == before + after
    ensures R.AskedFlags(before + ("d" + after)) == before + after
  {
    AskedConcat(before, after);
    AskedConcat(before, "d" + after);
    AskedConcat("d", after);
    AskedWhole(before);
    AskedWhole(after);
    assert "d"[1..] == [];
    assert R.AskedFlags("d" + after) == after;
  }

  lemma {:induction false} AskedWhole(flags: string)
    requires 'd' !in flags
    ensures R.AskedFlags(flags) == flags
  {
    if flags != [] {
      assert flags[0] in flags;
      AskedWhole(flags[1..]);
    }
  }

  lemma {:induction false} AskedConcat(x: string, y: string)
    ensures R.AskedFlags(x + y) == R.AskedFlags(x) + R.AskedFlags(y)
  {
    if x == [] {
      assert x + y == y;
    } else {
      assert (x + y)[1..] == x[1..] + y;
      AskedConcat(x[1..], y);
    }
  }

  /** Flags are valid when they are such, all different, and not both u and v. */
  lemma ValidFlags(flags: string)
    ensures R.FlagsOk(flags) <==>
      && (forall c :: c in flags ==> c in ['d', 'g', 'i', 'm', 's', 'u', 'v', 'y'])
      && (forall i, j :: 0 <= i < j < |flags| ==> flags[i] != flags[j])
      && ('u' !in flags || 'v' !in flags)
  {
    forall c ensures R.IsFlag(c) <==> c in ['d', 'g', 'i', 'm', 's', 'u', 'v', 'y'] { FlagsAre(c); }
    assert forall i :: 0 <= i < |flags| ==> flags[i] in flags;
  }

  // ----- byte offsets -----

  /** The bytes of a character in UTF-8 (section 3 of RFC 3629). */
  function Utf8(c: char): seq<byte>
    requires c as int < 0xd800 || 0xe000 <= c as int
  {
    var p := c as int;
    if p <= 0x7f then [p]
    else if p <= 0x7ff then [0xc0 + p / 0x40, 0x80 + p % 0x40]
    else if p <= 0xffff then [0xe0 + p / 0x1000, 0x80 + p / 0x40 % 0x40, 0x80 + p % 0x40]
    else [0xf0 + p / 0x4_0000, 0x80 + p / 0x1000 % 0x40, 0x80 + p / 0x40 % 0x40, 0x80 + p % 0x40]
  }

  function Utf8All(s: string): seq<byte> {
    if s == [] then [] else Utf8All(s[..|s| - 1]) + Utf8(s[|s| - 1])
  }

  /** The offset of a token counts the bytes of the text before it. */
  lemma {:induction false} LengthInBytes(s: string)
    ensures K.Utf8Length(s) == |Utf8All(s)|
  {
    if s != [] { LengthInBytes(s[..|s| - 1]); }
  }
}
