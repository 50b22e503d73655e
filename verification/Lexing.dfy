/** The tokenizer as a grammar: a text is accepted exactly when it is a sequence of lexemes, and its tokens are theirs. */
module Lexing {
  import opened Prelude
  import opened Unicode
  import opened Lexemes
  import opened Branches
  import opened Tokens
  import opened LexicalRules
  import D = Slashes
  import G = NumberGrammar
  import L = TemplateTexts
  import M = Numbers
  import N = NameGrammar
  import P = Punctuators
  import R = RegexGrammar
  import S = StringLiterals
  import W = Names

  datatype Lexeme =
    | Blank(c: char)
    | LineBreak(text: string)
    | LineNote(body: string)
    | BlockNote(body: string)
    | HtmlNote(opening: string, body: string)
    | Hashbang(body: string)
    | Quoted(quote: char, pieces: seq<S.Piece>)
    | Written(chunks: seq<string>, subs: seq<string>)
    | Division(sign: string)
    | RegExp(pattern: string, flags: string)
    | Numeral(lit: G.Literal)
    | Sign(sign: string)
    | Word(spelling: seq<N.Piece>, starred: bool)

  function Text(x: Lexeme): string {
    match x
    case Blank(c) => [c]
    case LineBreak(text) => text
    case LineNote(body) => "//" + body
    case BlockNote(body) => "/*" + (body + "*/")
    case HtmlNote(opening, body) => opening + body
    case Hashbang(body) => "#!" + body
    case Quoted(q, pieces) => [q] + (S.TextAll(pieces) + [q])
    case Written(chunks, subs) => if |chunks| == |subs| + 1 then "`" + (L.Text(chunks, subs) + "`") else ""
    case Division(sign) => sign
    case RegExp(pattern, flags) => "/" + pattern + "/" + flags
    case Numeral(lit) => G.Text(lit)
    case Sign(sign) => sign
    case Word(ps, starred) => N.TextAll(ps) + Star(starred)
  }

  function Star(starred: bool): string {
    if starred then "*" else ""
  }

  // ----- where a lexeme may stand -----

  predicate Breaks(c: char) { c as int in LINE_ENDS }

  predicate Next(rest: string, c: char) { rest != [] && rest[0] == c }

  predicate OneLine(body: string) {
    forall k :: 0 <= k < |body| ==> !Breaks(body[k])
  }

  predicate EndsLine(rest: string) {
    rest == [] || Breaks(rest[0])
  }

  predicate Closes(t: string, k: nat) {
    k + 1 < |t| && t[k] == '*' && t[k + 1] == '/'
  }

  /** The first closing sign of the comment is the one after its body. */
  predicate OneComment(body: string) {
    forall k :: 0 <= k < |body| ==> !Closes(body + "*/", k)
  }

  predicate LineStart(before: seq<Token>) {
    before == [] || before[|before| - 1].LineTerminator?
  }

  /** An HTML-like comment could begin there (section B.1.1 of ECMA-262). */
  predicate HtmlBegins(t: string, before: seq<Token>) {
    Begins(t, "<!--") || (Begins(t, "-->") && LineStart(before))
  }

  /** No longer punctuator stands there. */
  ghost predicate Longest(sign: string, t: string) {
    P.StandsAt(sign, t) && forall other :: P.StandsAt(other, t) ==> |other| <= |sign|
  }

  /** The words that take an asterisk right after them. */
  predicate TakesStar(ps: seq<N.Piece>) {
    !N.HasEscape(ps) && (N.Spelled(ps) == "function" || N.Spelled(ps) == "yield")
  }

  predicate NameStarts(c: char, tables: Tables) {
    c == '#' || c == '\\' || c == '_' || c == '$' || IsIdStart(c, tables)
  }

  /** The lexeme may stand after these tokens, or at the very start, and before that text. */
  ghost predicate Stands(x: Lexeme, before: seq<Token>, first: bool, rest: string, tables: Tables) {
    match x
    case Blank(c) => c as int in WHITE_SPACE
    case LineBreak(text) => text in [[LF], [CR, LF], [LS], [PS]] || (text == [CR] && !Next(rest, LF))
    case LineNote(body) => OneLine(body) && EndsLine(rest)
    case BlockNote(body) => OneComment(body)
    case HtmlNote(opening, body) =>
      (opening == "<!--" || (opening == "-->" && LineStart(before))) && !tables.inModule && OneLine(body) && EndsLine(rest)
    case Hashbang(body) => first && LF !in body && (rest != [] ==> Next(rest, LF))
    case Quoted(q, pieces) => (q == '\'' || q == '\"') && S.AllWellFormed(pieces, q, [q] + rest)
    case Written(chunks, subs) => |chunks| == |subs| + 1 && L.Proper(chunks, subs, tables)
    case Division(sign) =>
      D.Divides(before) && (sign == "/=" || (sign == "/" && !Next(rest, '=') && !Next(rest, '/') && !Next(rest, '*')))
    case RegExp(pattern, flags) =>
      !D.Divides(before) && pattern != [] && pattern[0] != '*' && R.IsRegexAt(Text(x) + rest, pattern, flags, tables)
    case Numeral(lit) => G.Accepted(lit) && G.Ends(lit, rest, tables)
    case Sign(sign) =>
      && Longest(sign, sign + rest)
      && !(sign == "." && rest != [] && IsDigit(rest[0])) && !HtmlBegins(sign + rest, before)
    case Word(ps, starred) =>
      && N.IsNameAt(ps, Text(x) + rest, tables)
      && NameStarts(Text(x)[0], tables) && Text(x)[0] as int !in WHITE_SPACE && !Breaks(Text(x)[0])
      && (if starred then TakesStar(ps) else !(TakesStar(ps) && Next(rest, '*')))
      && !(first && Begins(Text(x) + rest, "#!"))
  }

  /** The line ends of a text; a carriage return and the line feed after it are one. */
  function LineCount(t: string): nat {
    if t == [] then 0
    else LineCount(t[..|t| - 1]) + if Breaks(t[|t| - 1]) && !(|t| > 1 && t[|t| - 1] == LF && t[|t| - 2] == CR) then 1 else 0
  }

  function WordToken(ps: seq<N.Piece>, starred: bool, rest: string): Token
    requires ps != []
  {
    var name := N.Spelled(ps);
    if name[0] == '#' then PrivateIdentifier(name[1..])
    else if N.HasEscape(ps) || (!starred && Next(rest, '\\')) || (name !in RESERVED && name !in CONTEXTUAL) then Identifier(name)
    else Keyword(name + Star(starred))
  }

  /** The tokens of a lexeme: none for white space and most comments, a line end for each in a block comment. */
  ghost function Yields(x: Lexeme, rest: string, tables: Tables): seq<Token>
  {
    match x
    case Blank(_) => []
    case LineBreak(_) => [LineTerminator]
    case LineNote(_) => []
    case BlockNote(body) => seq(LineCount(body), _ => LineTerminator)
    case HtmlNote(_, _) => []
    case Hashbang(_) => []
    case Quoted(q, pieces) => if S.AllWellFormed(pieces, q, [q] + rest) then [StringLit(S.UnitsAll(pieces, q, [q] + rest))] else []
    case Written(chunks, subs) => if |chunks| == |subs| + 1 then [Template(L.PartsOf("", chunks, subs, tables))] else []
    case Division(sign) => [Punct(sign)]
    case RegExp(pattern, flags) => [Regex(pattern, flags)]
    case Numeral(lit) => [G.TokenOf(lit)]
    case Sign(sign) => [Punct(sign)]
    case Word(ps, starred) => if ps == [] then [] else [WordToken(ps, starred, rest)]
  }

  function PlacedAt(ts: seq<Token>, offset: nat): (r: seq<TokenData>)
    ensures |r| == |ts|
  {
    seq(|ts|, k requires 0 <= k < |ts| => TokenData(ts[k], offset))
  }

  /** One turn of the main loop reads that lexeme. */
  ghost predicate TurnReads(s: string, i: nat, tokens: seq<TokenData>, x: Lexeme, rest: string, tables: Tables) {
    i < |s| && Iterate(s, i, tokens, tables) == Ok((PlacedAt(Yields(x, rest, tables), Utf8Length(s[..i])), i + |Text(x)|))
  }

  // ----- white space, line ends and comments are read -----

  lemma LettersOf(t: string, x: string, rest: string)
    requires t == x + rest
    ensures forall k :: 0 <= k < |x| ==> t[k] == x[k]
    ensures t[|x|..] == rest
    ensures |t| > |x| <==> rest != []
    ensures rest != [] ==> t[|x|] == rest[0]
  {
  }

  lemma At(s: string, i: nat, k: nat)
    requires i <= |s| && k < |s| - i
    ensures s[i..][k] == s[i + k]
  {
  }

  lemma {:induction false} LineEndIs(s: string, from: nat, n: nat)
    requires from + n <= |s| && OneLine(s[from..from + n]) && EndsLine(s[from + n..])
    ensures LineEnd(s, from) == from + n
    decreases n
  {
    if n > 0 {
      BlanksAre(s[from]);
      assert s[from..from + n][0] == s[from];
      assert s[from + 1..from + n] == s[from..from + n][1..];
      LineEndIs(s, from + 1, n - 1);
    } else if from < |s| {
      BlanksAre(s[from]);
    }
  }

  lemma {:induction false} LineEndEnds(s: string, from: nat)
    requires from <= |s|
    ensures OneLine(s[from..LineEnd(s, from)]) && EndsLine(s[LineEnd(s, from)..])
    decreases |s| - from
  {
    if from < |s| {
      BlanksAre(s[from]);
      if !IsLineEnd(s[from]) {
        LineEndEnds(s, from + 1);
        var n := LineEnd(s, from);
        assert s[from..n] == [s[from]] + s[from + 1..n];
      }
    }
  }

  lemma CountStep(s: string, from: nat, i: nat)
    requires from <= i < |s|
    ensures LineCount(s[from..i + 1])
         == LineCount(s[from..i]) + if Breaks(s[i]) && !(i > from && s[i] == LF && s[i - 1] == CR) then 1 else 0
  {
    var t := s[from..i + 1];
    assert t[..|t| - 1] == s[from..i] && t[|t| - 1] == s[i];
    if |t| > 1 { assert t[|t| - 2] == s[i - 1]; }
  }

  /** The lines of a comment's body as the loop counts them from i on. */
  lemma {:induction false} BlockIs(s: string, from: nat, n: nat, i: nat)
    requires from <= i <= from + n && from + n + 2 <= |s| && Closes(s, from + n)
    requires forall k :: from <= k < from + n ==> !Closes(s, k)
    requires i > from && s[i - 1] == CR ==> i < |s| && s[i] != LF
    ensures BlockComment(s, i) == Some((LineCount(s[from..from + n]) - LineCount(s[from..i]), from + n + 2))
    decreases from + n - i
  {
    hide LineCount;
    if i < from + n {
      BlanksAre(s[i]);
      CountStep(s, from, i);
      if s[i] == CR && s[i + 1] == LF {
        CountStep(s, from, i + 1);
        BlockIs(s, from, n, i + 2);
      } else {
        BlockIs(s, from, n, i + 1);
        assert !Closes(s, i);
        assert BlockComment(s, i).value.0 == BlockComment(s, i + 1).value.0 + if IsLineEnd(s[i]) then 1 else 0;
      }
    }
  }

  lemma {:induction false} BlockEnds(s: string, i: nat)
    requires i <= |s| && BlockComment(s, i).Some?
    ensures var end := BlockComment(s, i).value.1;
      Closes(s, end - 2) && forall k :: i <= k < end - 2 ==> !Closes(s, k)
    decreases |s| - i
  {
    if !Closes(s, i) {
      var next := if s[i] == CR && s[i + 1] == LF then i + 2 else i + 1;
      BlockEnds(s, next);
    }
  }

  lemma OnePlaced(token: Token, offset: nat)
    ensures PlacedAt([token], offset) == [TokenData(token, offset)]
  {
  }

  lemma BlankRead(s: string, i: nat, tokens: seq<TokenData>, c: char, rest: string, tables: Tables)
    requires i < |s| && s[i..] == [c] + rest && c as int in WHITE_SPACE
    ensures TurnReads(s, i, tokens, Blank(c), rest, tables)
  {
    hide Utf8Length, BlockComment, TemplateParts, S.Parse, Branch, Kinds, IsSpace, IsLineEnd;
    At(s, i, 0);
    BlanksAre(c);
  }

  lemma BreakRead(s: string, i: nat, tokens: seq<TokenData>, text: string, rest: string, tables: Tables)
    requires i < |s| && s[i..] == text + rest
    requires text in [[LF], [CR, LF], [LS], [PS]] || (text == [CR] && !Next(rest, LF))
    ensures TurnReads(s, i, tokens, LineBreak(text), rest, tables)
  {
    hide *;
    BreakForm(text, rest, tables);
    BreakLetters(s, i, text, rest);
    BreakTurn(s, i, tokens, tables);
    Finish(s, i, tokens, LineBreak(text), rest, [LineTerminator], tables);
  }

  lemma BreakForm(text: string, rest: string, tables: Tables)
    ensures Text(LineBreak(text)) == text && Yields(LineBreak(text), rest, tables) == [LineTerminator]
  {
  }

  lemma BreakLetters(s: string, i: nat, text: string, rest: string)
    requires i < |s| && s[i..] == text + rest
    requires text in [[LF], [CR, LF], [LS], [PS]] || (text == [CR] && !Next(rest, LF))
    ensures Breaks(s[i]) && |text| == if s[i] == CR && i + 1 < |s| && s[i + 1] == LF then 2 else 1
  {
    LettersOf(s[i..], text, rest);
    At(s, i, 0);
    if |s| - i > 1 { At(s, i, 1); }
  }

  lemma BreakTurn(s: string, i: nat, tokens: seq<TokenData>, tables: Tables)
    requires i < |s| && Breaks(s[i])
    ensures Iterate(s, i, tokens, tables)
         == Ok((PlacedAt([LineTerminator], Utf8Length(s[..i])), if s[i] == CR && i + 1 < |s| && s[i + 1] == LF then i + 2 else i + 1))
  {
    hide Utf8Length, BlockComment, TemplateParts, S.Parse, Branch, Kinds, IsSpace, IsLineEnd;
    BlanksAre(s[i]);
    OnePlaced(LineTerminator, Utf8Length(s[..i]));
  }

  lemma LineNoteRead(s: string, i: nat, tokens: seq<TokenData>, body: string, rest: string, tables: Tables)
    requires i < |s| && s[i..] == "//" + body + rest && OneLine(body) && EndsLine(rest)
    ensures TurnReads(s, i, tokens, LineNote(body), rest, tables)
  {
    hide *;
    Opens(s, i, "//", body, rest);
    LineEndIs(s, i + 2, |body|);
    LineTurn(s, i, tokens, tables);
    NothingPlaced(Utf8Length(s[..i]));
    LineForm(body, rest, tables);
    Finish(s, i, tokens, LineNote(body), rest, [], tables);
  }

  lemma LineForm(body: string, rest: string, tables: Tables)
    ensures Text(LineNote(body)) == "//" + body && Yields(LineNote(body), rest, tables) == []
  {
  }

  lemma NothingPlaced(offset: nat)
    ensures PlacedAt([], offset) == []
  {
  }

  lemma Finish(s: string, i: nat, tokens: seq<TokenData>, x: Lexeme, rest: string, ts: seq<Token>, tables: Tables)
    requires i < |s| && Iterate(s, i, tokens, tables) == Ok((PlacedAt(ts, Utf8Length(s[..i])), i + |Text(x)|))
    requires Yields(x, rest, tables) == ts
    ensures TurnReads(s, i, tokens, x, rest, tables)
  {
    hide Iterate, Text, Yields, Utf8Length;
  }

  /** What follows an opening sign at i. */
  lemma Opens(s: string, i: nat, opening: string, body: string, rest: string)
    requires i <= |s| && s[i..] == opening + body + rest
    ensures var from, n := i + |opening|, |body|;
      from + n <= |s| && s[i..from] == opening && s[from..from + n] == body && s[from + n..] == rest && s[from..] == body + rest
  {
    var a, b, whole := i + |opening|, i + |opening| + |body|, opening + body + rest;
    assert whole == opening + (body + rest);
    assert s[i..a] == whole[..|opening|] && s[a..] == whole[|opening|..];
    assert s[a..b] == s[a..][..|body|] && s[b..] == s[a..][|body|..];
  }

  lemma LineTurn(s: string, i: nat, tokens: seq<TokenData>, tables: Tables)
    requires i + 2 <= |s| && s[i..i + 2] == "//"
    ensures Iterate(s, i, tokens, tables) == Ok(([], LineEnd(s, i + 2)))
  {
    hide Utf8Length, BlockComment, TemplateParts, S.Parse, Branch, Kinds, IsSpace, IsLineEnd, LineEnd;
    assert s[i] == s[i..i + 2][0] && s[i + 1] == s[i..i + 2][1];
    BlanksAre(s[i]);
  }

  lemma BlockRead(s: string, i: nat, tokens: seq<TokenData>, body: string, rest: string, tables: Tables)
    requires i < |s| && s[i..] == Text(BlockNote(body)) + rest && OneComment(body)
    ensures TurnReads(s, i, tokens, BlockNote(body), rest, tables)
  {
    hide *;
    var n, from, lines := |body|, i + 2, LineCount(body);
    BlockForm(body, rest, tables);
    BodyAt(s, i, body, rest);
    BlockIs(s, from, n, from);
    assert s[from..from] == [];
    NoLines();
    BlockTurn(s, i, tokens, lines, from + n + 2, tables);
    Finish(s, i, tokens, BlockNote(body), rest, seq(lines, _ => LineTerminator), tables);
  }

  lemma BlockForm(body: string, rest: string, tables: Tables)
    ensures Text(BlockNote(body)) == "/*" + (body + "*/")
    ensures Yields(BlockNote(body), rest, tables) == seq(LineCount(body), _ => LineTerminator)
  {
    hide LineCount;
  }

  lemma BodyAt(s: string, i: nat, body: string, rest: string)
    requires i < |s| && s[i..] == "/*" + (body + "*/") + rest && OneComment(body)
    ensures var from, n := i + 2, |body|;
      && from + n + 2 <= |s| && s[i..from] == "/*" && s[from..from + n] == body
      && Closes(s, from + n) && forall k :: from <= k < from + n ==> !Closes(s, k)
  {
    hide Closes;
    var n, from, t := |body|, i + 2, body + "*/";
    Opens(s, i, "/*", t, rest);
    assert s[from..from + n] == s[from..from + n + 2][..n];
    ClosedAlike(s, from, t, n);
    LastCloses(body);
    forall k | from <= k < from + n ensures !Closes(s, k) { ClosedAlike(s, from, t, k - from); }
  }

  lemma ClosedAlike(s: string, from: nat, t: string, k: nat)
    requires from + |t| <= |s| && s[from..from + |t|] == t && k + 1 < |t|
    ensures Closes(s, from + k) <==> Closes(t, k)
  {
    assert s[from + k] == t[k] && s[from + k + 1] == t[k + 1];
  }

  lemma LastCloses(body: string)
    ensures Closes(body + "*/", |body|)
  {
  }

  lemma BlockTurn(s: string, i: nat, tokens: seq<TokenData>, lines: nat, end: nat, tables: Tables)
    requires i + 2 <= |s| && s[i..i + 2] == "/*" && BlockComment(s, i + 2) == Some((lines, end))
    ensures Iterate(s, i, tokens, tables) == Ok((PlacedAt(seq(lines, _ => LineTerminator), Utf8Length(s[..i])), end))
  {
    hide Utf8Length, BlockComment, TemplateParts, S.Parse, Branch, Kinds, IsSpace, IsLineEnd, LineEnd;
    var offset := Utf8Length(s[..i]);
    assert s[i] == s[i..i + 2][0] && s[i + 1] == s[i..i + 2][1];
    BlanksAre(s[i]);
    assert Repeat(TokenData(LineTerminator, offset), lines) == PlacedAt(seq(lines, _ => LineTerminator), offset);
  }

  lemma NoLines()
    ensures LineCount([]) == 0
  {
  }

  // ----- strings and templates are read -----

  lemma QuotedRead(s: string, i: nat, tokens: seq<TokenData>, q: char, pieces: seq<S.Piece>, rest: string, tables: Tables)
    requires i < |s| && s[i..] == Text(Quoted(q, pieces)) + rest
    requires (q == '\'' || q == '\"') && S.AllWellFormed(pieces, q, [q] + rest)
    ensures TurnReads(s, i, tokens, Quoted(q, pieces), rest, tables)
  {
    hide *;
    var body, units := S.TextAll(pieces), S.UnitsAll(pieces, q, [q] + rest);
    QuotedForm(q, pieces, rest, tables);
    Opens(s, i, [q], body + [q], rest);
    assert s[i] == s[i..i + 1][0];
    S.ParsesPieces(pieces, q, rest);
    QuoteTurn(s, i, tokens, units, |body|, tables);
    Finish(s, i, tokens, Quoted(q, pieces), rest, [StringLit(units)], tables);
  }

  lemma QuotedForm(q: char, pieces: seq<S.Piece>, rest: string, tables: Tables)
    requires S.AllWellFormed(pieces, q, [q] + rest)
    ensures Text(Quoted(q, pieces)) == [q] + (S.TextAll(pieces) + [q])
    ensures Yields(Quoted(q, pieces), rest, tables) == [StringLit(S.UnitsAll(pieces, q, [q] + rest))]
  {
    hide S.TextAll, S.UnitsAll;
  }

  lemma QuoteTurn(s: string, i: nat, tokens: seq<TokenData>, units: seq<u16>, width: nat, tables: Tables)
    requires i < |s| && (s[i] == '\'' || s[i] == '\"') && S.Parse(s[i + 1..], s[i]) == S.Done(units, width)
    ensures Iterate(s, i, tokens, tables) == Ok((PlacedAt([StringLit(units)], Utf8Length(s[..i])), i + width + 2))
  {
    hide Utf8Length, BlockComment, TemplateParts, S.Parse, Branch, Kinds, IsSpace, IsLineEnd, LineEnd;
    BlanksAre(s[i]);
    OnePlaced(StringLit(units), Utf8Length(s[..i]));
  }

  lemma WrittenRead(s: string, i: nat, tokens: seq<TokenData>, chunks: seq<string>, subs: seq<string>, rest: string, tables: Tables)
    requires i < |s| && s[i..] == Text(Written(chunks, subs)) + rest
    requires |chunks| == |subs| + 1 && L.Proper(chunks, subs, tables)
    ensures TurnReads(s, i, tokens, Written(chunks, subs), rest, tables)
  {
    hide *;
    var body, parts := L.Text(chunks, subs) + "`", L.PartsOf("", chunks, subs, tables);
    WrittenForm(chunks, subs, rest, tables);
    Opens(s, i, "`", body, rest);
    assert s[i] == s[i..i + 1][0];
    ReadsTemplate(s, i + 1, chunks, subs, rest, tables);
    TemplateTurn(s, i, tokens, parts, i + |body|, tables);
    Finish(s, i, tokens, Written(chunks, subs), rest, [Template(parts)], tables);
  }

  lemma WrittenForm(chunks: seq<string>, subs: seq<string>, rest: string, tables: Tables)
    requires |chunks| == |subs| + 1
    ensures Text(Written(chunks, subs)) == "`" + (L.Text(chunks, subs) + "`")
    ensures Yields(Written(chunks, subs), rest, tables) == [Template(L.PartsOf("", chunks, subs, tables))]
  {
    hide L.Text, L.PartsOf;
  }

  lemma ReadsTemplate(s: string, i: nat, chunks: seq<string>, subs: seq<string>, rest: string, tables: Tables)
    requires i <= |s| && |chunks| == |subs| + 1 && L.Proper(chunks, subs, tables) && s[i..] == L.Text(chunks, subs) + "`" + rest
    ensures TemplateParts(s, i, i, [], tables) == Ok((L.PartsOf("", chunks, subs, tables), i + |L.Text(chunks, subs)|))
  {
    hide L.Text, L.PartsOf, L.Proper, TemplateParts;
    L.TemplateIff(s, i, tables);
    assert L.StandsAt(s, i, chunks, subs, tables);
  }

  lemma TemplateTurn(s: string, i: nat, tokens: seq<TokenData>, parts: seq<Part>, end: nat, tables: Tables)
    requires i < |s| && s[i] == '`' && TemplateParts(s, i + 1, i + 1, [], tables) == Ok((parts, end))
    ensures Iterate(s, i, tokens, tables) == Ok((PlacedAt([Template(parts)], Utf8Length(s[..i])), end + 1))
  {
    hide Utf8Length, BlockComment, TemplateParts, S.Parse, Branch, Kinds, IsSpace, IsLineEnd, LineEnd;
    BlanksAre(s[i]);
    OnePlaced(Template(parts), Utf8Length(s[..i]));
  }

  // ----- the other branches -----

  /** The character begins none of the lexemes that the main loop tells apart itself. */
  predicate Plainly(t: string) {
    && t != [] && t[0] as int !in WHITE_SPACE && !Breaks(t[0]) && t[0] != '\'' && t[0] != '\"' && t[0] != '`'
    && !(t[0] == '/' && |t| > 1 && (t[1] == '/' || t[1] == '*'))
  }

  lemma BranchTurn(s: string, i: nat, tokens: seq<TokenData>, tables: Tables)
    requires i < |s| && Plainly(s[i..])
    ensures Iterate(s, i, tokens, tables) ==
      match Branch(Kinds(tokens), i == 0, s[i..], tables)
      case None => Err
      case Some((token, width)) => Ok((Tokens.At(token, Utf8Length(s[..i])), i + width))
  {
    hide Utf8Length, BlockComment, TemplateParts, S.Parse, Branch, Kinds, IsSpace, IsLineEnd, LineEnd;
    At(s, i, 0);
    BlanksAre(s[i]);
    if |s| - i > 1 { At(s, i, 1); }
  }

  /** The branches read that lexeme. */
  ghost predicate BranchReads(t: string, before: seq<Token>, first: bool, x: Lexeme, rest: string, tables: Tables) {
    t != [] && Branch(before, first, t, tables) == Some((if Yields(x, rest, tables) == [] then None else Some(Yields(x, rest, tables)[0]), |Text(x)|))
  }

  lemma ReadsByBranch(s: string, i: nat, tokens: seq<TokenData>, x: Lexeme, rest: string, tables: Tables)
    requires i < |s| && Plainly(s[i..]) && BranchReads(s[i..], Kinds(tokens), i == 0, x, rest, tables)
    requires |Yields(x, rest, tables)| <= 1
    ensures TurnReads(s, i, tokens, x, rest, tables)
  {
    hide Utf8Length, Branch, Kinds, Iterate, Yields, Text;
    BranchTurn(s, i, tokens, tables);
    var ts := Yields(x, rest, tables);
    if ts != [] {
      assert ts == [ts[0]];
      OnePlaced(ts[0], Utf8Length(s[..i]));
    }
  }

  lemma HtmlNoteRead(t: string, before: seq<Token>, first: bool, opening: string, body: string, rest: string, tables: Tables)
    requires t == opening + body + rest && Stands(HtmlNote(opening, body), before, first, rest, tables)
    ensures Plainly(t) && BranchReads(t, before, first, HtmlNote(opening, body), rest, tables)
  {
    hide Branch, LineEnd;
    NoteParts(t, opening, body, rest);
    LineEndIs(t, |opening|, |body|);
    HtmlBranch(t, before, first, opening, tables);
  }

  lemma HtmlBranch(t: string, before: seq<Token>, first: bool, opening: string, tables: Tables)
    requires Begins(t, opening) && (opening == "<!--" || (opening == "-->" && LineStart(before))) && !tables.inModule
    ensures t != [] && Branch(before, first, t, tables) == Some((None, LineEnd(t, |opening|)))
  {
    hide D.SlashAt, M.NumberAt, W.NameAt, P.SignLength, LineEnd;
    if Begins(t, "-->") { assert t[0] == '-'; } else { assert t[0] == '<'; }
  }

  lemma NoteParts(t: string, opening: string, body: string, rest: string)
    requires t == opening + body + rest
    ensures var n := |opening|;
      Begins(t, opening) && n + |body| <= |t| && t[n..n + |body|] == body && t[n + |body|..] == rest
    ensures opening != [] ==> t[0] == opening[0]
  {
    assert t == opening + (body + rest);
  }

  lemma HashbangRead(t: string, before: seq<Token>, body: string, rest: string, tables: Tables)
    requires t == "#!" + body + rest && LF !in body && (rest != [] ==> Next(rest, LF))
    ensures Plainly(t) && BranchReads(t, before, true, Hashbang(body), rest, tables)
  {
    hide D.SlashAt, M.NumberAt, W.NameAt, LineEnd;
    var n := 2 + |body|;
    assert t[0] == '#' && t[1] == '!';
    assert t[..2] == "#!" && t[..n] == "#!" + body && t[n..] == rest;
    assert LF !in t[..n];
    S.FindIs(t, LF, n);
  }

  /** No comment of Annex B begins, so the branch is chosen by the first characters. */
  lemma NoHtml(t: string, before: seq<Token>)
    requires !HtmlBegins(t, before)
    ensures HtmlComment(before, t) == 0
  {
  }

  lemma NotHtml(t: string, before: seq<Token>)
    requires t != [] && t[0] != '<' && t[0] != '-'
    ensures HtmlComment(before, t) == 0
  {
  }

  lemma SlashBranch(t: string, before: seq<Token>, first: bool, tables: Tables)
    requires t != [] && t[0] == '/'
    ensures Branch(before, first, t, tables) == Pushing(D.SlashAt(before, t, tables))
  {
    hide M.NumberAt, W.NameAt, P.SignLength, HtmlComment, D.SlashAt;
    NotHtml(t, before);
  }

  lemma SignBranch(t: string, before: seq<Token>, first: bool, n: nat, tables: Tables)
    requires t != [] && HtmlComment(before, t) == 0 && t[0] != '/' && !M.BeginsNumber(t) && P.SignLength(t) == Some(n)
    ensures Branch(before, first, t, tables) == Some((Some(Punct(t[..n])), n))
  {
    hide M.NumberAt, W.NameAt, P.SignLength, HtmlComment, D.SlashAt, M.BeginsNumber;
  }

  lemma WordBranch(t: string, before: seq<Token>, first: bool, tables: Tables)
    requires t != [] && HtmlComment(before, t) == 0 && t[0] != '/' && !M.BeginsNumber(t) && P.SignLength(t).None?
    requires W.BeginsName(t, tables) && !IsHashbang(t, first)
    ensures Branch(before, first, t, tables) == Pushing(W.NameAt(t, tables))
  {
    hide M.NumberAt, W.NameAt, P.SignLength, HtmlComment, D.SlashAt, M.BeginsNumber, W.BeginsName, IsHashbang;
  }

  lemma DivisionRead(t: string, before: seq<Token>, first: bool, sign: string, rest: string, tables: Tables)
    requires t == sign + rest && Stands(Division(sign), before, first, rest, tables)
    ensures Plainly(t) && BranchReads(t, before, first, Division(sign), rest, tables)
  {
    hide Branch, D.Divides, D.RegexAt;
    LettersOf(t, sign, rest);
    SlashBranch(t, before, first, tables);
  }

  lemma RegExpRead(t: string, before: seq<Token>, first: bool, pattern: string, flags: string, rest: string, tables: Tables)
    requires t == "/" + pattern + "/" + flags + rest && Stands(RegExp(pattern, flags), before, first, rest, tables)
    ensures Plainly(t) && BranchReads(t, before, first, RegExp(pattern, flags), rest, tables)
  {
    hide Branch, D.Divides, D.RegexAt, R.IsRegexAt, Yields, Plainly;
    NoteParts(t, "/", pattern, "/" + flags + rest);
    assert t == "/" + pattern + ("/" + flags + rest);
    SlashBranch(t, before, first, tables);
    R.RegexIff(t, tables);
    assert R.IsRegexAt(t, pattern, flags, tables);
    NoEmptyPattern(t, pattern, flags, tables);
    assert t[1..1 + |pattern|][0] == pattern[0];
    PlainSlash(t);
    assert Yields(RegExp(pattern, flags), rest, tables) == [Regex(pattern, flags)] by { RegExpForm(pattern, flags, rest, tables); }
  }

  lemma PlainSlash(t: string)
    requires |t| > 1 && t[0] == '/' && t[1] != '/' && t[1] != '*'
    ensures Plainly(t)
  {
  }

  lemma RegExpForm(pattern: string, flags: string, rest: string, tables: Tables)
    ensures Yields(RegExp(pattern, flags), rest, tables) == [Regex(pattern, flags)]
  {
  }

  lemma NoEmptyPattern(t: string, pattern: string, flags: string, tables: Tables)
    requires t != [] && t[0] == '/' && pattern != []
    requires D.RegexAt(t, tables) == Some((Regex(pattern, flags), 2 + |pattern| + |flags|))
    ensures |t| > 1 && t[1] != '/'
  {
    hide D.FlagsLength, D.FlagsOk, D.AskedFlags;
  }

  lemma NumeralRead(t: string, before: seq<Token>, first: bool, lit: G.Literal, rest: string, tables: Tables)
    requires t == G.Text(lit) + rest && G.Accepted(lit) && G.Ends(lit, rest, tables)
    ensures Plainly(t) && BranchReads(t, before, first, Numeral(lit), rest, tables)
  {
    hide M.NumberAt, W.NameAt, P.SignLength, HtmlComment, D.SlashAt, G.Text, G.Accepted, G.Ends, G.TokenOf;
    G.LiteralRead(lit, rest, tables);
    NotHtml(t, before);
  }

  /** The characters that punctuators other than slashes begin with. */
  predicate SignCharacter(c: char) {
    c == '!' || c == '%' || c == '&' || '(' <= c <= '.' || ':' <= c <= '?' || c == '[' || c == ']' || c == '^' || '{' <= c <= '~'
  }

  lemma SignBegins(sign: string)
    requires P.IsPunctuator(sign)
    ensures sign != [] && SignCharacter(sign[0])
    ensures sign[0] == '.' ==> sign == "." || sign == "..."
  {
  }

  lemma SignsApart(c: char, tables: Tables)
    requires SignCharacter(c)
    ensures c as int !in WHITE_SPACE && !Breaks(c) && !IsDigit(c) && c !in ['\'', '\"', '`', '/'] && !NameStarts(c, tables)
  {
    hide SignCharacter;
    SignRange(c, tables);
    Visible(c);
  }

  lemma SignRange(c: char, tables: Tables)
    requires SignCharacter(c)
    ensures 0x21 <= c as int <= 0x7e && !IsDigit(c) && c !in ['\'', '\"', '`', '/'] && !NameStarts(c, tables)
  {
  }

  lemma Visible(c: char)
    requires 0x21 <= c as int <= 0x7e
    ensures c as int !in WHITE_SPACE && !Breaks(c)
  {
  }

  lemma SignRead(t: string, before: seq<Token>, first: bool, sign: string, rest: string, tables: Tables)
    requires t == sign + rest && Stands(Sign(sign), before, first, rest, tables)
    ensures Plainly(t) && BranchReads(t, before, first, Sign(sign), rest, tables)
  {
    hide Branch, P.SignLength, HtmlComment, Longest, HtmlBegins, Plainly;
    SignStarts(t, sign, rest, tables);
    NoHtml(t, before);
    LongestIs(t, sign);
    SignBranch(t, before, first, |sign|, tables);
  }

  lemma SignStarts(t: string, sign: string, rest: string, tables: Tables)
    requires t == sign + rest && Longest(sign, t) && !(sign == "." && rest != [] && IsDigit(rest[0]))
    ensures sign != [] && Plainly(t) && t[0] != '/' && !M.BeginsNumber(t)
  {
    hide P.IsPunctuator, SignCharacter, Breaks;
    SignBegins(sign);
    SignsApart(sign[0], tables);
    LettersOf(t, sign, rest);
  }

  lemma LongestIs(t: string, sign: string)
    requires t != []
    ensures Longest(sign, t) <==> P.SignLength(t) == Some(|sign|) && sign == t[..|sign|]
  {
    hide P.SignLength, P.IsPunctuator;
    P.LongestSign(t);
    if Longest(sign, t) {
      assert |t[..P.SignLength(t).value]| <= |sign|;
    }
  }

  lemma WordRead(t: string, before: seq<Token>, first: bool, ps: seq<N.Piece>, starred: bool, rest: string, tables: Tables)
    requires t == N.TextAll(ps) + Star(starred) + rest && Stands(Word(ps, starred), before, first, rest, tables)
    ensures Plainly(t) && BranchReads(t, before, first, Word(ps, starred), rest, tables)
  {
    hide Branch, W.NameAt, P.SignLength, HtmlComment, N.IsNameAt, N.TokenAt, WordToken, TakesStar, N.TextAll;
    var name := N.TextAll(ps);
    SomeText(ps, Text(Word(ps, starred)) + rest, tables);
    assert t == name + (Star(starred) + rest);
    assert t[0] == Text(Word(ps, starred))[0];
    NotHtml(t, before);
    NoSign(t, tables);
    assert IsHashbang(t, first) ==> first && Begins(t, "#!");
    WordBranch(t, before, first, tables);
    N.NamesIff(t, tables);
    assert N.IsNameAt(ps, t, tables);
    WordIs(t, ps, starred, rest, tables);
  }

  lemma SomeText(ps: seq<N.Piece>, t: string, tables: Tables)
    requires N.IsNameAt(ps, t, tables)
    ensures ps != [] && N.TextAll(ps) != []
  {
  }

  lemma NoSign(t: string, tables: Tables)
    requires t != [] && NameStarts(t[0], tables)
    ensures P.SignLength(t).None?
  {
    hide P.SignLength, P.IsPunctuator, SignCharacter, NameStarts;
    P.LongestSign(t);
    if P.SignLength(t).Some? {
      SignBegins(t[..P.SignLength(t).value]);
      SignsApart(t[0], tables);
    }
  }

  lemma WordIs(t: string, ps: seq<N.Piece>, starred: bool, rest: string, tables: Tables)
    requires t == N.TextAll(ps) + (Star(starred) + rest) && N.IsNameAt(ps, t, tables)
    requires if starred then TakesStar(ps) else !(TakesStar(ps) && Next(rest, '*'))
    ensures N.TokenAt(ps, t) == (WordToken(ps, starred, rest), |N.TextAll(ps)| + |Star(starred)|)
  {
    hide N.AllOk, N.EndsName, N.Spelled, N.HasEscape, W.TokenOf, N.TextAll;
    var after := Star(starred) + rest;
    assert t[|N.TextAll(ps)|..] == after;
    assert starred ==> after[0] == '*';
    assert !starred ==> after == rest;
    WordsAre(N.Spelled(ps), N.HasEscape(ps) || Begins(after, "\\"), after);
    assert Begins(after, "*") <==> Next(after, '*');
    assert Begins(after, "\\") <==> Next(after, '\\');
    assert !starred ==> N.Spelled(ps) + "" == N.Spelled(ps);
  }

  // ----- every lexeme is read -----

  lemma LexemeRead(s: string, i: nat, tokens: seq<TokenData>, x: Lexeme, rest: string, tables: Tables)
    requires i < |s| && s[i..] == Text(x) + rest && Stands(x, Kinds(tokens), i == 0, rest, tables)
    ensures TurnReads(s, i, tokens, x, rest, tables)
  {
    hide TurnReads, BranchReads, Plainly, Kinds, D.Divides, R.IsRegexAt, N.IsNameAt, P.StandsAt, G.Text, L.Text, S.TextAll, N.TextAll;
    var t, before, first := s[i..], Kinds(tokens), i == 0;
    match x
    case Blank(c) => BlankRead(s, i, tokens, c, rest, tables);
    case LineBreak(text) => BreakRead(s, i, tokens, text, rest, tables);
    case LineNote(body) => LineNoteRead(s, i, tokens, body, rest, tables);
    case BlockNote(body) => BlockRead(s, i, tokens, body, rest, tables);
    case HtmlNote(opening, body) =>
      HtmlNoteRead(t, before, first, opening, body, rest, tables);
      ReadsByBranch(s, i, tokens, x, rest, tables);
    case Hashbang(body) =>
      HashbangRead(t, before, body, rest, tables);
      ReadsByBranch(s, i, tokens, x, rest, tables);
    case Quoted(q, pieces) => QuotedRead(s, i, tokens, q, pieces, rest, tables);
    case Written(chunks, subs) => WrittenRead(s, i, tokens, chunks, subs, rest, tables);
    case Division(sign) =>
      DivisionRead(t, before, first, sign, rest, tables);
      ReadsByBranch(s, i, tokens, x, rest, tables);
    case RegExp(pattern, flags) =>
      RegExpRead(t, before, first, pattern, flags, rest, tables);
      ReadsByBranch(s, i, tokens, x, rest, tables);
    case Numeral(lit) =>
      NumeralRead(t, before, first, lit, rest, tables);
      ReadsByBranch(s, i, tokens, x, rest, tables);
    case Sign(sign) =>
      SignRead(t, before, first, sign, rest, tables);
      ReadsByBranch(s, i, tokens, x, rest, tables);
    case Word(ps, starred) =>
      WordRead(t, before, first, ps, starred, rest, tables);
      ReadsByBranch(s, i, tokens, x, rest, tables);
  }

  // ----- every turn was written as a lexeme -----

  /** That lexeme stands at i. */
  ghost predicate WrittenAt(s: string, i: nat, tokens: seq<TokenData>, x: Lexeme, tables: Tables) {
    && i < |s| && Begins(s[i..], Text(x)) && Text(x) != []
    && Stands(x, Kinds(tokens), i == 0, s[i..][|Text(x)|..], tables)
  }

  lemma BlankWritten(s: string, i: nat, tokens: seq<TokenData>, tables: Tables) returns (x: Lexeme)
    requires i < |s| && (IsSpace(s[i]) || IsLineEnd(s[i]))
    ensures WrittenAt(s, i, tokens, x, tables)
  {
    hide IsSpace, IsLineEnd, Kinds;
    var c, t := s[i], s[i..];
    BlanksAre(c);
    At(s, i, 0);
    assert t[..1] == [c];
    if IsSpace(c) {
      x := Blank(c);
    } else if c == CR && |t| > 1 && t[1] == LF {
      x := LineBreak([CR, LF]);
      assert t[..2] == [CR, LF];
    } else {
      x := LineBreak([c]);
    }
  }

  lemma LineNoteWritten(s: string, i: nat, tokens: seq<TokenData>, tables: Tables) returns (x: Lexeme)
    requires i + 1 < |s| && s[i] == '/' && s[i + 1] == '/'
    ensures WrittenAt(s, i, tokens, x, tables)
  {
    hide Kinds, LineEnd;
    var t, end := s[i..], LineEnd(s, i + 2);
    LineEndEnds(s, i + 2);
    x := LineNote(s[i + 2..end]);
    assert t[..end - i] == "//" + s[i + 2..end];
    assert t[end - i..] == s[end..];
  }

  lemma BlockNoteWritten(s: string, i: nat, tokens: seq<TokenData>, tables: Tables) returns (x: Lexeme)
    requires i + 1 < |s| && s[i] == '/' && s[i + 1] == '*' && BlockComment(s, i + 2).Some?
    ensures WrittenAt(s, i, tokens, x, tables)
  {
    hide Kinds, BlockComment, OneComment;
    var end := BlockComment(s, i + 2).value.1;
    var body := BodyWritten(s, i, end);
    x := BlockNote(body);
  }

  lemma BodyWritten(s: string, i: nat, end: nat) returns (body: string)
    requires i + 1 < |s| && s[i] == '/' && s[i + 1] == '*' && BlockComment(s, i + 2).Some? && end == BlockComment(s, i + 2).value.1
    ensures Begins(s[i..], "/*" + (body + "*/")) && OneComment(body)
  {
    hide BlockComment, Closes;
    BlockEnds(s, i + 2);
    body := s[i + 2..end - 2];
    var t := body + "*/";
    assert s[i + 2..end] == t by { EndsClosed(s, i + 2, end); }
    assert s[i..][..end - i] == "/*" + t;
    forall k | 0 <= k < |body| ensures !Closes(t, k) { NotClosed(s, i + 2, end, k); }
  }

  lemma EndsClosed(s: string, from: nat, end: nat)
    requires from + 2 <= end <= |s| && Closes(s, end - 2)
    ensures s[from..end] == s[from..end - 2] + "*/"
  {
  }

  lemma NotClosed(s: string, from: nat, end: nat, k: nat)
    requires from + k + 1 < end <= |s| && !Closes(s, from + k)
    ensures !Closes(s[from..end], k)
  {
  }

  lemma QuotedWritten(s: string, i: nat, tokens: seq<TokenData>, tables: Tables) returns (x: Lexeme)
    requires i < |s| && (s[i] == '\'' || s[i] == '\"') && S.Parse(s[i + 1..], s[i]).Done?
    ensures WrittenAt(s, i, tokens, x, tables)
  {
    hide Kinds, S.Parse, S.AllWellFormed, S.TextAll, S.UnitsAll, S.Pieces;
    var q, t, u := s[i], s[i..], s[i + 1..];
    S.ParsedIsPieces(u, q);
    var ps, n := S.Pieces(u, q), S.Parse(u, q).width;
    x := Quoted(q, ps);
    assert t == [q] + u;
    assert t[..n + 2] == [q] + (S.TextAll(ps) + [q]);
    assert u[n..] == [q] + u[n + 1..];
    assert t[n + 2..] == u[n + 1..];
  }

  lemma TemplateWritten(s: string, i: nat, tokens: seq<TokenData>, tables: Tables) returns (x: Lexeme)
    requires i < |s| && s[i] == '`' && TemplateParts(s, i + 1, i + 1, [], tables).Ok?
    ensures WrittenAt(s, i, tokens, x, tables)
  {
    hide Kinds, TemplateParts, L.Proper, L.Text;
    L.TemplateIff(s, i + 1, tables);
    var chunks, subs :| L.StandsAt(s, i + 1, chunks, subs, tables);
    x := Written(chunks, subs);
    var body := L.Text(chunks, subs) + "`";
    assert s[i..] == "`" + s[i + 1..];
    assert s[i..][..1 + |body|] == "`" + body;
  }

  /** That lexeme begins the text and may stand there. */
  ghost predicate Heads(x: Lexeme, t: string, before: seq<Token>, first: bool, tables: Tables) {
    Begins(t, Text(x)) && Text(x) != [] && Stands(x, before, first, t[|Text(x)|..], tables)
  }

  lemma HtmlNoteWritten(t: string, before: seq<Token>, first: bool, tables: Tables) returns (x: Lexeme)
    requires HtmlBegins(t, before) && !tables.inModule
    ensures Heads(x, t, before, first, tables)
  {
    hide LineEnd;
    var opening := if Begins(t, "<!--") then "<!--" else "-->";
    var n, end := |opening|, LineEnd(t, |opening|);
    LineEndEnds(t, n);
    x := HtmlNote(opening, t[n..end]);
    assert t[..end] == opening + t[n..end];
  }

  lemma HashbangWritten(t: string, before: seq<Token>, tables: Tables) returns (x: Lexeme)
    requires Begins(t, "#!")
    ensures Heads(x, t, before, true, tables)
  {
    var n := S.Find(t, LF);
    assert t[0] == '#' && t[1] == '!';
    x := Hashbang(t[2..n]);
    assert t[..n] == "#!" + t[2..n];
    assert forall k :: 0 <= k < n - 2 ==> t[2..n][k] == t[..n][k + 2];
  }

  lemma SlashWritten(t: string, before: seq<Token>, first: bool, tables: Tables) returns (x: Lexeme)
    requires Plainly(t) && t[0] == '/' && D.SlashAt(before, t, tables).Some?
    ensures Heads(x, t, before, first, tables)
  {
    hide D.Divides, D.RegexAt, R.IsRegexAt;
    if D.Divides(before) {
      var n := if |t| > 1 && t[1] == '=' then 2 else 1;
      x := Division(t[..n]);
    } else {
      R.RegexIff(t, tables);
      var pattern, flags :| R.IsRegexAt(t, pattern, flags, tables);
      x := RegExp(pattern, flags);
      RegexText(t, pattern, flags, tables);
    }
  }

  lemma RegexText(t: string, pattern: string, flags: string, tables: Tables)
    requires Plainly(t) && R.IsRegexAt(t, pattern, flags, tables)
    ensures Begins(t, Text(RegExp(pattern, flags))) && pattern != [] && pattern[0] != '*'
    ensures Text(RegExp(pattern, flags)) + t[|Text(RegExp(pattern, flags))|..] == t
  {
    hide R.IsPattern, D.FlagsOk, D.AskedFlags, R.AllAlphabetic;
    var text := "/" + pattern + "/" + flags;
    assert text == "/" + (pattern + ("/" + flags));
    assert t[..|text|] == text;
    assert t[1] == text[1];
  }

  lemma SignWritten(t: string, before: seq<Token>, first: bool, tables: Tables) returns (x: Lexeme)
    requires t != [] && P.SignLength(t).Some? && !M.BeginsNumber(t) && !HtmlBegins(t, before)
    ensures Heads(x, t, before, first, tables)
  {
    hide P.SignLength, Longest, HtmlBegins;
    var n := P.SignLength(t).value;
    LongestIs(t, t[..n]);
    x := Sign(t[..n]);
    assert t[..n] + t[n..] == t;
    if t[..n] == "." && t[n..] != [] { assert t[0] == '.' && t[1] == t[n..][0]; }
  }

  lemma WordWritten(t: string, before: seq<Token>, first: bool, tables: Tables) returns (x: Lexeme)
    requires Plainly(t) && W.BeginsName(t, tables) && !IsHashbang(t, first) && W.NameAt(t, tables).Some?
    ensures Heads(x, t, before, first, tables)
  {
    hide W.NameAt, N.IsNameAt, TakesStar, N.TextAll, IsIdStart;
    N.NamesIff(t, tables);
    var ps :| N.IsNameAt(ps, t, tables);
    SomeText(ps, t, tables);
    NameText(ps, t, tables);
    var starred := TakesStar(ps) && Next(t[|N.TextAll(ps)|..], '*');
    x := Word(ps, starred);
    StarStands(t, N.TextAll(ps), starred);
  }

  lemma StarStands(t: string, name: string, starred: bool)
    requires Begins(t, name) && (starred ==> Next(t[|name|..], '*'))
    ensures var text := name + Star(starred);
      && Begins(t, text) && text + t[|text|..] == t && (!starred ==> t[|text|..] == t[|name|..])
      && (name != [] ==> text[0] == t[0])
  {
    assert t == name + t[|name|..];
  }

  lemma NameText(ps: seq<N.Piece>, t: string, tables: Tables)
    requires N.IsNameAt(ps, t, tables)
    ensures |N.TextAll(ps)| <= |t| && t[..|N.TextAll(ps)|] == N.TextAll(ps)
  {
    hide N.AllOk, N.EndsName, N.TextAll;
  }

  lemma BranchWritten(t: string, before: seq<Token>, first: bool, tables: Tables) returns (x: Lexeme)
    requires Plainly(t) && Branch(before, first, t, tables).Some?
    ensures Heads(x, t, before, first, tables)
  {
    hide D.SlashAt, M.NumberAt, P.SignLength, W.NameAt, W.BeginsName, M.BeginsNumber, Heads, Plainly, LineEnd;
    assert t != [] by { Nonempty(t); }
    assert HtmlComment(before, t) > 0 <==> HtmlBegins(t, before);
    if HtmlComment(before, t) > 0 { x := HtmlNoteWritten(t, before, first, tables); }
    else if t[0] == '/' { x := SlashWritten(t, before, first, tables); }
    else if M.BeginsNumber(t) { x := NumeralWritten(t, before, first, tables); }
    else if P.SignLength(t).Some? { x := SignWritten(t, before, first, tables); }
    else if IsHashbang(t, first) { x := HashbangWritten(t, before, tables); }
    else { x := WordWritten(t, before, first, tables); }
  }

  lemma Nonempty(t: string)
    requires Plainly(t)
    ensures t != []
  {
  }

  lemma NumeralWritten(t: string, before: seq<Token>, first: bool, tables: Tables) returns (x: Lexeme)
    requires M.BeginsNumber(t) && M.NumberAt(t, tables).Some?
    ensures Heads(x, t, before, first, tables)
  {
    hide M.NumberAt, G.Text, G.Accepted, G.Ends, G.TokenOf;
    G.NumbersIff(t, tables);
    var lit :| G.IsAt(lit, t, tables);
    x := Numeral(lit);
    var n := |G.Text(lit)|;
    assert t == G.Text(lit) + t[n..];
    G.LiteralRead(lit, t[n..], tables);
  }

  /** Every turn that does not fail has read a lexeme. */
  lemma LexemeWritten(s: string, i: nat, tokens: seq<TokenData>, tables: Tables) returns (x: Lexeme)
    requires i < |s| && Iterate(s, i, tokens, tables).Ok?
    ensures WrittenAt(s, i, tokens, x, tables)
  {
    hide IsSpace, IsLineEnd, Kinds, Branch, BlockComment, TemplateParts, S.Parse, LineEnd, Utf8Length, Stands, Text, Heads;
    var c := s[i];
    if IsSpace(c) || IsLineEnd(c) {
      x := BlankWritten(s, i, tokens, tables);
    } else if c == '/' && i + 1 < |s| && s[i + 1] == '/' {
      x := LineNoteWritten(s, i, tokens, tables);
    } else if c == '/' && i + 1 < |s| && s[i + 1] == '*' {
      x := BlockNoteWritten(s, i, tokens, tables);
    } else if c == '\'' || c == '\"' {
      x := QuotedWritten(s, i, tokens, tables);
    } else if c == '`' {
      x := TemplateWritten(s, i, tokens, tables);
    } else {
      BlanksAre(c);
      At(s, i, 0);
      if |s| - i > 1 { At(s, i, 1); }
      x := BranchWritten(s[i..], Kinds(tokens), i == 0, tables);
      HeadsAt(s, i, tokens, x, tables);
    }
  }

  lemma HeadsAt(s: string, i: nat, tokens: seq<TokenData>, x: Lexeme, tables: Tables)
    requires i < |s| && Heads(x, s[i..], Kinds(tokens), i == 0, tables)
    ensures WrittenAt(s, i, tokens, x, tables)
  {
    hide Stands, Text, Kinds;
  }

  // ----- whole texts -----

  function TextAll(xs: seq<Lexeme>): string {
    if xs == [] then [] else Text(xs[0]) + TextAll(xs[1..])
  }

  /** Each lexeme may stand where it does, after the tokens of those before it. */
  ghost predicate AllStand(xs: seq<Lexeme>, before: seq<Token>, first: bool, tables: Tables)
    decreases |xs|
  {
    xs == [] || (
      && Text(xs[0]) != [] && Stands(xs[0], before, first, TextAll(xs[1..]), tables)
      && AllStand(xs[1..], before + Yields(xs[0], TextAll(xs[1..]), tables), false, tables))
  }

  /** The tokens of some lexemes, each with the number of bytes before it. */
  ghost function TokensOf(xs: seq<Lexeme>, offset: nat, tables: Tables): seq<TokenData>
    decreases |xs|
  {
    if xs == [] then []
    else PlacedAt(Yields(xs[0], TextAll(xs[1..]), tables), offset) + TokensOf(xs[1..], offset + |Utf8All(Text(xs[0]))|, tables)
  }

  lemma KindsConcat(ts: seq<TokenData>, more: seq<Token>, offset: nat)
    ensures Kinds(ts + PlacedAt(more, offset)) == Kinds(ts) + more
  {
  }

  lemma {:induction false} BytesConcat(x: string, y: string)
    ensures |Utf8All(x + y)| == |Utf8All(x)| + |Utf8All(y)|
  {
    if y == [] {
      assert x + y == x;
    } else {
      assert (x + y)[..|x + y| - 1] == x + y[..|y| - 1];
      BytesConcat(x, y[..|y| - 1]);
    }
  }

  /** The byte offset after a lexeme. */
  lemma OffsetAfter(s: string, i: nat, text: string)
    requires i <= |s| && Begins(s[i..], text)
    ensures i + |text| <= |s| && Utf8Length(s[..i + |text|]) == Utf8Length(s[..i]) + |Utf8All(text)|
  {
    hide Utf8Length, Utf8All;
    assert s[..i + |text|] == s[..i] + text;
    BytesConcat(s[..i], text);
    LengthInBytes(s[..i]);
    LengthInBytes(s[..i + |text|]);
  }

  lemma LoopTurn(s: string, i: nat, tokens: seq<TokenData>, tables: Tables)
    requires i < |s|
    ensures Loop(s, i, tokens, tables) ==
      match Iterate(s, i, tokens, tables)
      case Err => Err
      case Ok((pushed, next)) => Loop(s, next, tokens + pushed, tables)
  {
    hide Iterate;
  }

  lemma {:induction false} AllRead(s: string, i: nat, tokens: seq<TokenData>, xs: seq<Lexeme>, tables: Tables)
    requires i <= |s| && s[i..] == TextAll(xs) && AllStand(xs, Kinds(tokens), i == 0, tables)
    ensures Loop(s, i, tokens, tables) == Ok(tokens + TokensOf(xs, Utf8Length(s[..i]), tables))
    decreases |xs|
  {
    hide Text, Stands, Yields, Iterate, Kinds, Utf8Length, Loop, Utf8All;
    if xs == [] {
      LoopEnds(s, i, tokens, tables);
      assert tokens + [] == tokens;
    } else {
      var x, rest := xs[0], TextAll(xs[1..]);
      var n, offset := |Text(x)|, Utf8Length(s[..i]);
      assert s[i..][..n] == Text(x) && s[i..][n..] == rest && s[i + n..] == s[i..][n..];
      LexemeRead(s, i, tokens, x, rest, tables);
      LoopTurn(s, i, tokens, tables);
      OffsetAfter(s, i, Text(x));
      var pushed := PlacedAt(Yields(x, rest, tables), offset);
      KindsConcat(tokens, Yields(x, rest, tables), offset);
      AllRead(s, i + n, tokens + pushed, xs[1..], tables);
      assert tokens + (pushed + TokensOf(xs[1..], offset + |Utf8All(Text(x))|, tables))
          == tokens + pushed + TokensOf(xs[1..], offset + |Utf8All(Text(x))|, tables);
    }
  }

  lemma LoopEnds(s: string, i: nat, tokens: seq<TokenData>, tables: Tables)
    requires i == |s|
    ensures Loop(s, i, tokens, tables) == Ok(tokens)
  {
  }

  lemma {:induction false} AllWritten(s: string, i: nat, tokens: seq<TokenData>, tables: Tables) returns (xs: seq<Lexeme>)
    requires i <= |s| && Loop(s, i, tokens, tables).Ok?
    ensures s[i..] == TextAll(xs) && AllStand(xs, Kinds(tokens), i == 0, tables)
    decreases |s| - i
  {
    hide Text, Stands, Yields, Iterate, Kinds, Utf8Length, Loop, Utf8All;
    if i == |s| {
      xs := [];
    } else {
      LoopTurn(s, i, tokens, tables);
      var x := LexemeWritten(s, i, tokens, tables);
      var n := |Text(x)|;
      var rest := s[i..][n..];
      assert s[i..] == Text(x) + rest && s[i + n..] == rest;
      LexemeRead(s, i, tokens, x, rest, tables);
      var pushed := PlacedAt(Yields(x, rest, tables), Utf8Length(s[..i]));
      KindsConcat(tokens, Yields(x, rest, tables), Utf8Length(s[..i]));
      var more := AllWritten(s, i + n, tokens + pushed, tables);
      xs := [x] + more;
      assert xs[1..] == more;
    }
  }

  /** The tokenizer accepts a text with these tokens exactly when it is a sequence of lexemes, each standing where it may,
      and the tokens are theirs, each with the number of bytes before its lexeme. */
  lemma TokenizesIff(s: string, tables: Tables, ts: seq<TokenData>)
    ensures Tokenize(s, tables) == Ok(ts) <==>
      exists xs :: TextAll(xs) == s && AllStand(xs, [], true, tables) && ts == TokensOf(xs, 0, tables)
  {
    hide Text, Stands, Yields, Iterate, Loop, TextAll, AllStand, TokensOf;
    assert s[0..] == s && s[..0] == "" && Kinds([]) == [];
    if Tokenize(s, tables).Ok? {
      var xs := AllWritten(s, 0, [], tables);
      AllRead(s, 0, [], xs, tables);
      assert [] + TokensOf(xs, 0, tables) == TokensOf(xs, 0, tables);
    }
    if exists xs :: TextAll(xs) == s && AllStand(xs, [], true, tables) && ts == TokensOf(xs, 0, tables) {
      var xs :| TextAll(xs) == s && AllStand(xs, [], true, tables) && ts == TokensOf(xs, 0, tables);
      AllRead(s, 0, [], xs, tables);
      assert [] + ts == ts;
    }
  }
}
