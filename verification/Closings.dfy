/** After a closing parenthesis or brace: when a slash divides, from what stands before the opening one. */
module Closings {
  import opened Prelude
  import opened Lexemes
  import opened BracketMatch
  import opened Slashes

  // ----- tokens before a place -----

  /** Tokens without the line ends at their end. */
  function Trimmed(ts: seq<Token>): (r: seq<Token>)
    ensures r == [] || !r[|r| - 1].LineTerminator?
    ensures |r| <= |ts| && r == ts[..|r|]
  {
    if ts != [] && ts[|ts| - 1] == LineTerminator then Trimmed(ts[..|ts| - 1]) else ts
  }

  predicate AllLines(ts: seq<Token>) {
    forall i :: 0 <= i < |ts| ==> ts[i] == LineTerminator
  }

  predicate EndsIn(ts: seq<Token>, p: Token -> bool) {
    Trimmed(ts) != [] && p(Trimmed(ts)[|Trimmed(ts)| - 1])
  }

  /** As many closing as opening tokens, and never more opening ones from any place to the end. */
  predicate WellNested(ts: seq<Token>, open: Token, close: Token) {
    && Count(ts, open) == Count(ts, close)
    && forall k :: 0 <= k <= |ts| ==> Count(ts[k..], open) <= Count(ts[k..], close)
  }

  lemma {:induction false} PrevIsTrimmed(ts: seq<Token>, n: nat)
    requires n <= |ts|
    ensures PrevIndex(ts, n) == if Trimmed(ts[..n]) == [] then None else Some(|Trimmed(ts[..n])| - 1)
  {
    if n > 0 {
      assert ts[..n][..n - 1] == ts[..n - 1];
      PrevIsTrimmed(ts, n - 1);
    }
  }

  lemma {:induction false} LinesTrimmed(ts: seq<Token>, lines: seq<Token>)
    requires AllLines(lines)
    ensures Trimmed(ts + lines) == Trimmed(ts)
    decreases |lines|
  {
    if lines == [] {
      assert ts + lines == ts;
    } else {
      var all := ts + lines;
      assert all[..|all| - 1] == ts + lines[..|lines| - 1];
      LinesTrimmed(ts, lines[..|lines| - 1]);
    }
  }

  // ----- the opening one -----

  lemma {:induction false} CountConcat<T>(xs: seq<T>, ys: seq<T>, x: T)
    ensures Count(xs + ys, x) == Count(xs, x) + Count(ys, x)
    decreases |xs|
  {
    if xs == [] {
      assert xs + ys == ys;
    } else {
      assert (xs + ys)[1..] == xs[1..] + ys;
      CountConcat(xs[1..], ys, x);
    }
  }

  lemma CountOne<T>(t: T, x: T)
    ensures Count([t], x) == if t == x then 1 else 0
  {
    assert [t][1..] == [];
  }

  /** Tokens up to a closing one, with what stands between it and its opening one well nested. */
  function Bracketed(pre: seq<Token>, open: Token, inner: seq<Token>, close: Token): (ts: seq<Token>)
    ensures |ts| == |pre| + |inner| + 2
    ensures ts[|pre|] == open && ts[|ts| - 1] == close && ts[..|pre|] == pre
  {
    pre + [open] + inner + [close]
  }

  lemma BracketedFrom(pre: seq<Token>, open: Token, inner: seq<Token>, close: Token, k: nat)
    requires |pre| < k <= |pre| + 1 + |inner|
    ensures Bracketed(pre, open, inner, close)[k..] == inner[k - |pre| - 1..] + [close]
    ensures Bracketed(pre, open, inner, close)[|pre|..] == [open] + (inner + [close])
  {
  }

  /** The search from the closing token finds the opening one, whatever follows. */
  lemma FindsOpening(pre: seq<Token>, open: Token, inner: seq<Token>, close: Token, after: seq<Token>)
    requires open != close && WellNested(inner, open, close)
    ensures var ts := Bracketed(pre, open, inner, close) + after; var from := |pre| + |inner| + 1;
      MatchingOpen(ts, from, from + 1, open, close) == Some(|pre|)
  {
    hide MatchingOpen, Count, Balance, WellNested;
    var all := Bracketed(pre, open, inner, close);
    var ts, from := all + after, |pre| + |inner| + 1;
    assert ts[..from + 1] == all;
    forall j | |pre| <= j <= from ensures Candidate(ts, from, j, open, close) <==> j == |pre| {
      assert ts[j..from + 1] == all[j..];
      BracketedFrom(pre, open, inner, close, if j == |pre| then j + 1 else j);
      CandidateAt(inner, open, close, if j == |pre| then 0 else j - |pre| - 1);
      BalanceIsDifference(all[j..], open, close);
    }
    GreatestIsMatching(ts, from, from + 1, Some(|pre|), open, close);
  }

  lemma CandidateAt(inner: seq<Token>, open: Token, close: Token, k: nat)
    requires open != close && WellNested(inner, open, close) && k <= |inner|
    ensures Count(inner[k..] + [close], open) < Count(inner[k..] + [close], close)
    ensures Count([open] + (inner + [close]), open) == Count([open] + (inner + [close]), close)
  {
    CountConcat(inner[k..], [close], open);
    CountConcat(inner[k..], [close], close);
    CountConcat(inner, [close], open);
    CountConcat(inner, [close], close);
    CountConcat([open], inner + [close], open);
    CountConcat([open], inner + [close], close);
    CountOne(open, open);
    CountOne(open, close);
    CountOne(close, open);
    CountOne(close, close);
  }

  // ----- parentheses -----

  predicate HeadsStatement(t: Token) {
    t == Keyword("with") || t == Keyword("if") || t == Keyword("for") || t == Keyword("while") || t == Keyword("switch")
    || t == Keyword("catch")
  }

  lemma HeaderIff(pre: seq<Token>, inner: seq<Token>, after: seq<Token>)
    requires WellNested(inner, LPAREN, RPAREN)
    ensures var ts := Bracketed(pre, LPAREN, inner, RPAREN) + after;
      ClosesHeader(ts, |pre| + |inner| + 1) <==> EndsIn(pre, HeadsStatement)
  {
    hide MatchingOpen, PrevIndex, WellNested, Trimmed;
    var ts := Bracketed(pre, LPAREN, inner, RPAREN) + after;
    FindsOpening(pre, LPAREN, inner, RPAREN, after);
    PrevIsTrimmed(ts, |pre|);
    assert ts[..|pre|] == pre;
  }

  /** The last token that counts, before some line ends. */
  lemma LastBefore(ts: seq<Token>, lines: seq<Token>)
    requires ts != [] && !ts[|ts| - 1].LineTerminator? && AllLines(lines)
    ensures PrevIndex(ts + lines, |ts + lines|) == Some(|ts| - 1)
  {
    PrevIsTrimmed(ts + lines, |ts + lines|);
    assert (ts + lines)[..|ts + lines|] == ts + lines;
    LinesTrimmed(ts, lines);
  }

  /** After a closing parenthesis a slash divides exactly when the tokens before the opening one do not end in a word
      that heads a statement. */
  lemma AfterParenthesis(pre: seq<Token>, inner: seq<Token>, lines: seq<Token>)
    requires WellNested(inner, LPAREN, RPAREN) && AllLines(lines)
    ensures Divides(Bracketed(pre, LPAREN, inner, RPAREN) + lines) <==> !EndsIn(pre, HeadsStatement)
  {
    hide PrevIndex, ClosesHeader, BraceEndsExpression, WellNested, Trimmed, EndsIn, AllLines;
    HeaderIff(pre, inner, lines);
    LastBefore(Bracketed(pre, LPAREN, inner, RPAREN), lines);
  }

  /** After one that closes nothing it divides. */
  lemma AfterLoneParenthesis(ts: seq<Token>, lines: seq<Token>)
    requires ts != [] && ts[|ts| - 1] == RPAREN && AllLines(lines)
    requires forall j :: 0 <= j < |ts| ==> Count(ts[j..], LPAREN) != Count(ts[j..], RPAREN)
    ensures Divides(ts + lines)
  {
    hide PrevIndex, BraceEndsExpression, AllLines, MatchingOpen, Count;
    LastBefore(ts, lines);
    NothingOpened(ts, LPAREN, RPAREN, lines);
  }

  lemma NothingOpened(ts: seq<Token>, open: Token, close: Token, after: seq<Token>)
    requires ts != [] && ts[|ts| - 1] == close && open != close
    requires forall j :: 0 <= j < |ts| ==> Count(ts[j..], open) != Count(ts[j..], close)
    ensures MatchingOpen(ts + after, |ts| - 1, |ts|, open, close) == None
  {
    hide MatchingOpen, Count, Balance;
    var all, from := ts + after, |ts| - 1;
    forall j | 0 <= j <= from ensures !Balanced(all, from, j, open, close) { assert all[j..from + 1] == ts[j..]; }
    forall j | 0 <= j <= from ensures !Candidate(all, from, j, open, close) {
      PositiveUntilBalanced(all, from, j, open, close);
    }
    GreatestIsMatching(all, from, from + 1, None, open, close);
  }

  // ----- braces -----

  /** Tokens after which a brace begins an object literal. */
  predicate BeforeObject(t: Token) {
    match t
    case Keyword(word) => word == "return" || word == "throw" || word == "case"
    case Punct(sign) => Assigns(sign) || Separates(sign) || Equates(sign)
    case _ => false
  }

  predicate Assigns(sign: string) {
    sign == "=" || sign == "+=" || sign == "-=" || sign == "*=" || sign == "/=" || sign == "%=" || sign == "**="
    || sign == "&&=" || sign == "||=" || sign == "??=" || sign == "&=" || sign == "|=" || sign == "^=" || sign == "<<="
    || sign == ">>=" || sign == ">>>="
  }

  predicate Separates(sign: string) {
    sign == "=>" || sign == "," || sign == ":" || sign == "?" || sign == "(" || sign == "["
  }

  predicate Equates(sign: string) {
    sign == "==" || sign == "===" || sign == "!=" || sign == "!=="
  }

  /** After a brace that closes what follows no parenthesis, a slash divides exactly when the tokens before the opening
      brace end in one of these; otherwise it has closed a block. */
  lemma AfterBrace(pre: seq<Token>, inner: seq<Token>, lines: seq<Token>)
    requires WellNested(inner, LBRACE, RBRACE) && AllLines(lines) && !EndsIn(pre, (t: Token) => t == RPAREN)
    ensures Divides(Bracketed(pre, LBRACE, inner, RBRACE) + lines) <==> EndsIn(pre, BeforeObject)
  {
    hide PrevIndex, ClosesHeader, ClosesFunctionExpression, WellNested, Trimmed, AllLines, PrecedesObject, BeforeObject, MatchingOpen;
    var ts := Bracketed(pre, LBRACE, inner, RBRACE);
    LastBefore(ts, lines);
    FindsOpening(pre, LBRACE, inner, RBRACE, lines);
    PrevIsTrimmed(ts + lines, |pre|);
    assert (ts + lines)[..|pre|] == pre;
    if Trimmed(pre) != [] { ObjectToken(Trimmed(pre)[|Trimmed(pre)| - 1]); }
  }

  lemma ObjectToken(t: Token)
    ensures PrecedesObject(t) <==> BeforeObject(t)
  {
    hide IsAssignment, Assigns;
    AssignmentToken(t);
  }

  lemma AfterLoneBrace(ts: seq<Token>, lines: seq<Token>)
    requires ts != [] && ts[|ts| - 1] == RBRACE && AllLines(lines)
    requires forall j :: 0 <= j < |ts| ==> Count(ts[j..], LBRACE) != Count(ts[j..], RBRACE)
    ensures Divides(ts + lines)
  {
    hide PrevIndex, ClosesHeader, ClosesFunctionExpression, AllLines, MatchingOpen, Count;
    LastBefore(ts, lines);
    NothingOpened(ts, LBRACE, RBRACE, lines);
  }

  // ----- bodies -----

  /** Tokens after which the word function begins an expression. */
  predicate BeforeFunction(t: Token) {
    match t
    case Keyword(word) =>
      word == "return" || word == "throw" || word == "yield" || word == "yield*" || word == "case" || word == "new"
      || word == "delete" || word == "void" || word == "typeof" || word == "instanceof" || word == "in"
    case Punct(sign) => Assigns(sign) || Separates(sign) || sign == "{" || Equates(sign) || Operates(sign)
    case _ => false
  }

  predicate Operates(sign: string) {
    sign == "<" || sign == ">" || sign == "<=" || sign == ">=" || sign == "&&" || sign == "||" || sign == "??" || sign == "&"
    || sign == "|" || sign == "^" || sign == "+" || sign == "-" || sign == "*" || sign == "/" || sign == "%" || sign == "**"
  }

  predicate IsFunction(t: Token) {
    t == Keyword("function") || t == Keyword("function*")
  }

  function WithoutLast(ts: seq<Token>): seq<Token> {
    if Trimmed(ts) == [] then [] else Trimmed(ts)[..|Trimmed(ts)| - 1]
  }

  predicate EndsInName(ts: seq<Token>) {
    Trimmed(ts) != [] && Trimmed(ts)[|Trimmed(ts)| - 1].Identifier?
  }

  /** The tokens before some parameters end in a function expression's word, and perhaps name. */
  predicate HeadsFunction(outer: seq<Token>) {
    var word := if EndsInName(outer) then WithoutLast(outer) else outer;
    EndsIn(word, IsFunction) && EndsIn(WithoutLast(word), BeforeFunction)
  }

  /** After a brace that closes what follows parameters, or a head in parentheses, a slash divides exactly when these
      are the parameters of a function expression. */
  lemma AfterBody(outer: seq<Token>, params: seq<Token>, gap: seq<Token>, inner: seq<Token>, lines: seq<Token>)
    requires WellNested(params, LPAREN, RPAREN) && WellNested(inner, LBRACE, RBRACE) && AllLines(gap) && AllLines(lines)
    ensures var pre := Bracketed(outer, LPAREN, params, RPAREN) + gap;
      Divides(Bracketed(pre, LBRACE, inner, RBRACE) + lines) <==> HeadsFunction(outer)
  {
    hide PrevIndex, ClosesHeader, ClosesFunctionExpression, WellNested, Trimmed, AllLines, PrecedesObject, MatchingOpen, HeadsFunction;
    var head := Bracketed(outer, LPAREN, params, RPAREN);
    var pre := head + gap;
    var ts := Bracketed(pre, LBRACE, inner, RBRACE);
    LastBefore(ts, lines);
    FindsOpening(pre, LBRACE, inner, RBRACE, lines);
    LastBefore(head, gap);
    PrevIsTrimmed(ts + lines, |pre|);
    PrevIsTrimmed(pre, |pre|);
    assert (ts + lines)[..|pre|] == pre == pre[..|pre|];
    var after := gap + [LBRACE] + inner + [RBRACE] + lines;
    assert ts + lines == head + after;
    HeaderIff(outer, params, after);
    FunctionIff(outer, params, after);
    if EndsIn(outer, HeadsStatement) { NoHeaderHeads(outer); }
  }

  lemma NoHeaderHeads(outer: seq<Token>)
    requires EndsIn(outer, HeadsStatement)
    ensures !HeadsFunction(outer)
  {
    hide Trimmed;
  }

  /** One step back over line ends from an index. */
  lemma StepBack(ts: seq<Token>, n: nat)
    requires n <= |ts|
    ensures PrevIndex(ts, n).None? <==> Trimmed(ts[..n]) == []
    ensures PrevIndex(ts, n).Some? ==>
      && ts[PrevIndex(ts, n).value] == Trimmed(ts[..n])[|Trimmed(ts[..n])| - 1]
      && ts[..PrevIndex(ts, n).value] == WithoutLast(ts[..n])
  {
    hide PrevIndex, Trimmed;
    PrevIsTrimmed(ts, n);
  }

  lemma FunctionIff(outer: seq<Token>, params: seq<Token>, after: seq<Token>)
    requires WellNested(params, LPAREN, RPAREN)
    ensures var ts := Bracketed(outer, LPAREN, params, RPAREN) + after;
      ClosesFunctionExpression(ts, |outer| + |params| + 1) <==> HeadsFunction(outer)
  {
    hide WellNested, MatchingOpen, HeadsFunction, PrevIndex, PrecedesFunctionExpression, IsFunctionWord;
    var ts := Bracketed(outer, LPAREN, params, RPAREN) + after;
    FindsOpening(outer, LPAREN, params, RPAREN, after);
    assert ts[..|outer|] == outer;
    WordIff(ts, |outer|);
  }

  /** From the opening parenthesis back over a name to the word, and to what stands before it. */
  lemma WordIff(ts: seq<Token>, n: nat)
    requires n <= |ts|
    ensures HeadsFunction(ts[..n]) <==>
      var before := PrevIndex(ts, n);
      before.Some? &&
      var word := if ts[before.value].Identifier? then PrevIndex(ts, before.value) else before;
      word.Some? && IsFunctionWord(ts[word.value]) &&
      var outside := PrevIndex(ts, word.value);
      outside.Some? && PrecedesFunctionExpression(ts[outside.value])
  {
    hide PrevIndex, Trimmed, WithoutLast, PrecedesFunctionExpression, IsFunctionWord, BeforeFunction, IsFunction;
    StepBack(ts, n);
    if PrevIndex(ts, n).Some? {
      var k := PrevIndex(ts, n).value;
      var m := if ts[k].Identifier? then k else n;
      StepBack(ts, m);
      if PrevIndex(ts, m).Some? {
        var w := PrevIndex(ts, m).value;
        FunctionTokens(ts[w]);
        StepBack(ts, w);
        if PrevIndex(ts, w).Some? { FunctionTokens(ts[PrevIndex(ts, w).value]); }
      }
    } else {
      NoWord(ts[..n]);
    }
  }

  lemma NoWord(outer: seq<Token>)
    requires Trimmed(outer) == []
    ensures !HeadsFunction(outer)
  {
  }

  lemma FunctionTokens(t: Token)
    ensures IsFunctionWord(t) <==> IsFunction(t)
    ensures PrecedesFunctionExpression(t) <==> BeforeFunction(t)
  {
    hide IsAssignment, Assigns;
    AssignmentToken(t);
  }

  lemma AssignmentToken(t: Token)
    ensures IsAssignment(t) <==> t.Punct? && Assigns(t.sign)
  {
  }
}
