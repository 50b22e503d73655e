/** Divisions that the tokenizer takes for regular expressions: after which operands, and what becomes of them. */
module Divisions {
  import opened Prelude
  import opened Lexemes
  import opened Slashes
  import opened Branches
  import opened RegexGrammar
  import opened Tokens
  import N = Names
  import Numbers
  import Punctuators
  import T = TemplateCooking
  import S = StringLiterals

  // ----- after which operands -----

  /** Keyword tokens that can be the name of a variable: some always, some in scripts or in sloppy code only. */
  predicate IsNameWord(word: string) {
    word == "async" || word == "as" || word == "await" || word == "yield" || word == "let" || word == "static"
  }

  predicate IsConstantWord(word: string) {
    word == "true" || word == "false" || word == "null" || word == "this"
  }

  /** After a dot every keyword is the name of a property; a word that has swallowed an asterisk is not one alone. */
  predicate NamesProperty(ts: seq<Token>, at: nat)
    requires at < |ts| && ts[at].Keyword?
  {
    var before := PrevIndex(ts, at);
    before.Some? && (ts[before.value] == Punct(".") || ts[before.value] == Punct("?."))
    && ts[at].word != "function*" && ts[at].word != "yield*"
  }

  /** The last token is an operand by itself, or the name of a variable or a property: a slash after it divides. Words
      that name variables in some code only count here as in that code. */
  predicate EndsInOperand(ts: seq<Token>) {
    var last := PrevIndex(ts, |ts|);
    last.Some? &&
    match ts[last.value]
    case Number(_) | BigInt(_) | StringLit(_) | Template(_) | Regex(_, _) | Identifier(_) | PrivateIdentifier(_) => true
    case Keyword(word) => IsConstantWord(word) || IsNameWord(word) || NamesProperty(ts, last.value)
    case _ => false
  }

  /** The operands after which the tokenizer does not divide: templates, regular expressions, and names that it has made
      keywords. */
  predicate Misjudged(ts: seq<Token>)
    requires EndsInOperand(ts)
  {
    var t := ts[PrevIndex(ts, |ts|).value];
    t.Template? || t.Regex? || (t.Keyword? && !IsConstantWord(t.word))
  }

  predicate MakesComment(u: string) {
    u != [] && (u[0] == '/' || u[0] == '*')
  }

  /** A slash that begins no comment. */
  predicate IsSlash(t: string) {
    t != [] && t[0] == '/' && !MakesComment(t[1..])
  }

  lemma DividesIff(ts: seq<Token>)
    requires EndsInOperand(ts)
    ensures Divides(ts) <==> !Misjudged(ts)
  {
    hide PrevIndex, ClosesHeader, BraceEndsExpression, NamesProperty;
    var t := ts[PrevIndex(ts, |ts|).value];
    assert t != RPAREN && t != RBRACE;
  }

  /** After an operand a slash is read as the division it is exactly when the operand is not misjudged. Otherwise it
      begins a regular expression: the one that stands there, or an error when none does. */
  lemma SlashAfterOperand(ts: seq<Token>, first: bool, t: string, tables: Tables)
    requires EndsInOperand(ts) && IsSlash(t)
    ensures !Misjudged(ts) ==>
      Branch(ts, first, t, tables) == Some(if Begins(t, "/=") then (Some(Punct("/=")), 2) else (Some(Punct("/")), 1))
    ensures Misjudged(ts) ==>
      (Branch(ts, first, t, tables) == None <==> forall pattern, flags :: !IsRegexAt(t, pattern, flags, tables))
    ensures Misjudged(ts) ==> forall pattern, flags :: IsRegexAt(t, pattern, flags, tables) ==>
      Branch(ts, first, t, tables) == Some((Some(Regex(pattern, flags)), 2 + |pattern| + |flags|))
  {
    hide Divides, Misjudged, EndsInOperand, RegexAt, IsRegexAt;
    DividesIff(ts);
    RegexIff(t, tables);
  }

  // ----- what becomes of them -----

  /** A turn at a slash after a misjudged operand. */
  lemma MisjudgedTurn(s: string, i: nat, tokens: seq<TokenData>, tables: Tables)
    requires i < |s| && IsSlash(s[i..]) && EndsInOperand(Kinds(tokens)) && Misjudged(Kinds(tokens))
    ensures (forall pattern, flags :: !IsRegexAt(s[i..], pattern, flags, tables)) ==> Loop(s, i, tokens, tables) == Err
    ensures forall pattern, flags :: IsRegexAt(s[i..], pattern, flags, tables) ==>
      var end := i + 2 + |pattern| + |flags|;
      end <= |s| && Loop(s, i, tokens, tables) == Loop(s, end, tokens + [TokenData(Regex(pattern, flags), Utf8Length(s[..i]))], tables)
  {
    hide Branch, IsRegexAt, Misjudged, EndsInOperand, Utf8Length, BlockComment, LineEnd, TemplateParts, S.Parse;
    var t := s[i..];
    assert t[0] == s[i];
    SlashAfterOperand(Kinds(tokens), i == 0, t, tables);
    SlashTurn(s, i, tokens, tables);
    forall pattern, flags | IsRegexAt(t, pattern, flags, tables)
      ensures i + 2 + |pattern| + |flags| <= |s|
      ensures Loop(s, i, tokens, tables)
           == Loop(s, i + 2 + |pattern| + |flags|, tokens + [TokenData(Regex(pattern, flags), Utf8Length(s[..i]))], tables)
    {
      assert Branch(Kinds(tokens), i == 0, t, tables) == Some((Some(Regex(pattern, flags)), 2 + |pattern| + |flags|));
    }
  }

  lemma SlashTurn(s: string, i: nat, tokens: seq<TokenData>, tables: Tables)
    requires i < |s| && IsSlash(s[i..])
    ensures Iterate(s, i, tokens, tables) ==
      match Branch(Kinds(tokens), i == 0, s[i..], tables)
      case None => Err
      case Some((token, width)) => Ok((At(token, Utf8Length(s[..i])), i + width))
  {
    hide Branch, Utf8Length, BlockComment, LineEnd, TemplateParts, S.Parse;
    var t := s[i..];
    assert t[0] == s[i] && (|t| > 1 ==> t[1] == s[i + 1]);
  }

  // ----- divided names and templates -----

  predicate AllLetters(w: string) {
    forall i :: 0 <= i < |w| ==> IsLetter(w[i])
  }

  lemma {:induction false} LettersTaken(w: string, t: string, rest: string, name: string, tables: Tables)
    requires AllLetters(w) && t == w + rest && (rest == [] || rest[0] == '/')
    ensures N.Take(t, name, tables) == Some(N.Taken(name + w, false, |w|))
    decreases |w|
  {
    hide N.Take;
    N.TakeTurn(t, name, tables);
    if w == [] {
      assert t == rest && name + w == name;
    } else {
      assert t[1..] == w[1..] + rest;
      LettersTaken(w[1..], t[1..], rest, name + [t[0]], tables);
      assert name + [t[0]] + w[1..] == name + w;
    }
  }

  lemma NameWordLetters(w: string)
    requires IsNameWord(w)
    ensures AllLetters(w) && w != [] && w in N.KEYWORDS && w[0] != '#' && w != "function"
  {
    hide AllLetters;
    assert AllLetters(w) by { WordLetters(w); }
  }

  lemma WordLetters(w: string)
    requires IsNameWord(w)
    ensures AllLetters(w)
  {
  }

  /** The first turn on a name that the tokenizer makes a keyword. */
  lemma WordTurn(w: string, u: string, tables: Tables)
    requires IsNameWord(w)
    ensures var s := w + ("/" + u); Tokenize(s, tables) == Loop(s, |w|, [TokenData(Keyword(w), 0)], tables)
  {
    hide N.Take, N.TokenOf, T.Cook, T.Raw, IsNameWord;
    var s, rest := w + ("/" + u), "/" + u;
    NameWordLetters(w);
    LettersTaken(w, s, rest, "", tables);
    assert "" + w == w && s[0] == w[0] && s[|w|..] == rest && s[0..] == s && s[..0] == [];
    assert N.TokenOf(w, false, rest) == (Keyword(w), 0) by { WordToken(w, rest); }
    assert N.NameAt(s, tables) == Some((Keyword(w), |w|));
    LetterBranch(s, tables);
    assert [] + [TokenData(Keyword(w), 0)] == [TokenData(Keyword(w), 0)];
    FirstTurn(s, Keyword(w), |w|, tables);
  }

  lemma WordToken(w: string, rest: string)
    requires IsNameWord(w) && w in N.KEYWORDS && rest != [] && rest[0] == '/'
    ensures N.TokenOf(w, false, rest) == (Keyword(w), 0)
  {
    NameWordLetters(w);
  }

  lemma LetterBranch(s: string, tables: Tables)
    requires s != [] && IsLetter(s[0])
    ensures Branch([], true, s, tables) == Pushing(N.NameAt(s, tables))
  {
    hide N.NameAt, Numbers.NumberAt;
  }

  lemma FirstTurn(s: string, token: Token, width: nat, tables: Tables)
    requires s != [] && IsLetter(s[0]) && Branch([], true, s, tables) == Some((Some(token), width)) && width <= |s|
    ensures Tokenize(s, tables) == Loop(s, width, [TokenData(token, 0)], tables)
  {
    hide Branch, BlockComment, LineEnd, TemplateParts, S.Parse;
    assert s[0..] == s && s[..0] == [] && Kinds([]) == [];
    assert Iterate(s, 0, [], tables) == Ok(([TokenData(token, 0)], width));
    assert [] + [TokenData(token, 0)] == [TokenData(token, 0)];
  }

  lemma SlashesAfter(u: string)
    requires !MakesComment(u)
    ensures IsSlash("/" + u)
  {
    assert ("/" + u)[1..] == u;
  }

  /** The text is tokenized as these tokens and what the loop finds from there on. */
  ghost predicate ReadsOn(s: string, tokens: seq<TokenData>, i: nat, tables: Tables) {
    i <= |s| && Tokenize(s, tables) == Loop(s, i, tokens, tables)
  }

  /** Divided by what follows the slash, the token at the head is refused, or followed by the regular expression that
      the slash begins. */
  ghost predicate RegexOrRefused(head: string, token: Token, u: string, tables: Tables) {
    && ((forall pattern, flags :: !IsRegexAt("/" + u, pattern, flags, tables)) ==> Tokenize(head + ("/" + u), tables) == Err)
    && forall pattern, flags :: IsRegexAt("/" + u, pattern, flags, tables) ==>
      ReadsOn(head + ("/" + u), [TokenData(token, 0), TokenData(Regex(pattern, flags), Utf8Length(head))],
              |head| + 2 + |pattern| + |flags|, tables)
  }

  lemma DividedAfter(head: string, token: Token, u: string, tables: Tables)
    requires !MakesComment(u) && EndsInOperand([token]) && Misjudged([token])
    requires ReadsOn(head + ("/" + u), [TokenData(token, 0)], |head|, tables)
    ensures RegexOrRefused(head, token, u, tables)
  {
    hide IsRegexAt, Misjudged, EndsInOperand, Utf8Length, Tokenize, Loop;
    var s, tokens := head + ("/" + u), [TokenData(token, 0)];
    SlashesAfter(u);
    assert s[|head|..] == "/" + u && s[..|head|] == head && Kinds(tokens) == [token];
    MisjudgedTurn(s, |head|, tokens, tables);
    forall pattern, flags | IsRegexAt("/" + u, pattern, flags, tables)
      ensures ReadsOn(s, [TokenData(token, 0), TokenData(Regex(pattern, flags), Utf8Length(head))], |head| + 2 + |pattern| + |flags|, tables)
    {
      assert tokens + [TokenData(Regex(pattern, flags), Utf8Length(head))]
          == [TokenData(token, 0), TokenData(Regex(pattern, flags), Utf8Length(head))];
    }
  }

  /** async / 2, as / 2 and the like. */
  lemma DividedWord(w: string, u: string, tables: Tables)
    requires IsNameWord(w) && !MakesComment(u)
    ensures RegexOrRefused(w, Keyword(w), u, tables)
  {
    hide RegexOrRefused, Tokenize, Loop, IsNameWord;
    WordTurn(w, u, tables);
    WordOperand(w);
    DividedAfter(w, Keyword(w), u, tables);
  }

  lemma WordOperand(w: string)
    requires IsNameWord(w)
    ensures EndsInOperand([Keyword(w)]) && Misjudged([Keyword(w)])
  {
    assert PrevIndex([Keyword(w)], 1) == Some(0);
  }

  // ----- templates -----

  /** Template text without backslashes and dollar signs. */
  predicate PlainText(body: string) {
    '`' !in body && '\\' !in body && '$' !in body
  }

  lemma {:induction false} PlainParts(s: string, body: string, i: nat, tables: Tables)
    requires i <= |body| && |s| > |body| + 1 && s[1..1 + |body|] == body && s[1 + |body|] == '`' && PlainText(body)
    ensures TemplateParts(s, 1 + i, 1, [], tables) == Ok(([Chunk(s, 1, 1 + |body|)], 1 + |body|))
    decreases |body| - i
  {
    hide Tokenize, SubstitutionEnd, Chunk;
    if i == |body| {
      assert [] + [Chunk(s, 1, 1 + |body|)] == [Chunk(s, 1, 1 + |body|)];
    } else {
      assert s[1 + i] == s[1..1 + |body|][i] == body[i];
      assert body[i] in body;
      PlainParts(s, body, i + 1, tables);
    }
  }

  function PlainTemplate(body: string): Token {
    Template([Str(T.Cook(body), T.Raw(body))])
  }

  function Quoted(body: string): (t: string)
    ensures |t| == |body| + 2
  {
    "`" + body + "`"
  }

  lemma TemplateTurn(body: string, u: string, tables: Tables)
    requires PlainText(body)
    ensures ReadsOn(Quoted(body) + ("/" + u), [TokenData(PlainTemplate(body), 0)], |body| + 2, tables)
  {
    hide Branch, BlockComment, LineEnd, TemplateParts, S.Parse, T.Cook, T.Raw;
    var s := Quoted(body) + ("/" + u);
    assert s[1..1 + |body|] == body && s[1 + |body|] == '`';
    PlainParts(s, body, 0, tables);
    assert s[..0] == [];
    var first := TokenData(PlainTemplate(body), 0);
    assert Iterate(s, 0, [], tables) == Ok(([first], |body| + 2));
    assert [] + [first] == [first];
    assert Tokenize(s, tables) == Loop(s, |body| + 2, [first], tables);
  }

  /** A divided template. */
  lemma DividedTemplate(body: string, u: string, tables: Tables)
    requires PlainText(body) && !MakesComment(u)
    ensures RegexOrRefused(Quoted(body), PlainTemplate(body), u, tables)
  {
    hide RegexOrRefused, ReadsOn, Quoted, T.Cook, T.Raw;
    TemplateTurn(body, u, tables);
    assert PrevIndex([PlainTemplate(body)], 1) == Some(0);
    DividedAfter(Quoted(body), PlainTemplate(body), u, tables);
  }

  // ----- three texts -----

  /** No slash follows, so no regular expression begins there. */
  lemma NoRegexAt(u: string, tables: Tables)
    requires '/' !in u
    ensures forall pattern, flags :: !IsRegexAt("/" + u, pattern, flags, tables)
  {
    hide IsRegexAt;
    forall pattern, flags ensures !IsRegexAt("/" + u, pattern, flags, tables) {
      if IsRegexAt("/" + u, pattern, flags, tables) { RegexCloses(u, pattern, flags, tables); }
    }
  }

  lemma RegexCloses(u: string, pattern: string, flags: string, tables: Tables)
    requires IsRegexAt("/" + u, pattern, flags, tables)
    ensures '/' in u
  {
    hide IsPattern, AllAlphabetic, StartsAlphabetic, FlagsOk, AskedFlags;
    RegexParts("/" + u, pattern, flags);
    assert ("/" + u)[1..] == u;
    assert u[|pattern|] in u;
  }

  lemma DividedTemplateRefused(tables: Tables)
    ensures Tokenize("`a`/2", tables) == Err
  {
    hide Tokenize, IsRegexAt;
    NoRegexAt("2", tables);
    DividedTemplate("a", "2", tables);
    assert Quoted("a") + ("/" + "2") == "`a`/2";
  }

  lemma DividedAsyncRefused(tables: Tables)
    ensures Tokenize("async/2", tables) == Err
  {
    hide Tokenize, IsRegexAt;
    NoRegexAt("2", tables);
    DividedWord("async", "2", tables);
    assert "async" + ("/" + "2") == "async/2";
  }

  /** Divided twice it is read, as a template, a regular expression and a number. */
  lemma DividedTwiceRead(tables: Tables)
    requires tables.regexOk("2", "")
    ensures ReadsOn("`a`/2/1", [TokenData(PlainTemplate("a"), 0), TokenData(Regex("2", ""), Utf8Length("`a`"))], 6, tables)
  {
    hide Tokenize, Loop, PlainTemplate, Utf8Length;
    var ps := [One(Plain('2'))];
    assert ps[1..] == [];
    assert TextAll(ps) == "2";
    assert AllOk(ps);
    var t := "/2/1";
    assert IsPattern("2");
    assert t[..3] == "/2/" && "/" + "2" + "/" + "" == "/2/";
    assert t[3..] == "1";
    assert IsRegexAt(t, "2", "", tables);
    DividedTemplate("a", "2/1", tables);
    assert "/" + "2/1" == t && Quoted("a") == "`a`" && Quoted("a") + t == "`a`/2/1";
  }
}
