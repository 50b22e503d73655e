/** Substitutions of templates as the language divides them, and exactly when the tokenizer, which counts braces wherever
    they stand, ends one where the language does. */
module Substitutions {
  import opened Prelude
  import opened Lexemes
  import opened Tokens
  import G = RegexGrammar
  import S = StringLiterals
  import Slashes

  // ----- the pieces of a substitution -----

  datatype Piece =
    | Code(c: char)
    | Quoted(quote: char, body: string)
    | Block(body: string)
    | Line(body: string)
    | RegExp(pattern: seq<G.Piece>, flags: string)
    | Nested(spans: seq<Span>)

  datatype Span = Text(text: string) | Subst(code: seq<Piece>)

  function PieceText(p: Piece): (t: string)
    decreases p
  {
    match p
    case Code(c) => [c]
    case Quoted(q, body) => [q] + body + [q]
    case Block(body) => "/*" + body + "*/"
    case Line(body) => "//" + body
    case RegExp(pattern, flags) => "/" + G.TextAll(pattern) + "/" + flags
    case Nested(spans) => "`" + SpansText(spans) + "`"
  }

  function TextAll(ps: seq<Piece>): string
    decreases ps
  {
    if ps == [] then [] else PieceText(ps[0]) + TextAll(ps[1..])
  }

  function SpanText(span: Span): string
    decreases span
  {
    match span
    case Text(text) => text
    case Subst(code) => "${" + TextAll(code) + "}"
  }

  function SpansText(spans: seq<Span>): string
    decreases spans
  {
    if spans == [] then [] else SpanText(spans[0]) + SpansText(spans[1..])
  }

  /** Template text: no bare backtick and no substitution. */
  predicate TextOk(t: string) {
    t == [] ||
    if t[0] == '\\' then |t| > 1 && TextOk(t[2..])
    else t[0] != '`' && !Begins(t, "${") && TextOk(t[1..])
  }

  /** A piece of that kind before that text. */
  ghost predicate PieceOk(p: Piece, rest: string)
    decreases p, 0
  {
    match p
    case Code(c) => !S.IsQuote(c) && c != '`' && (c == '/' ==> !Begins(rest, "/") && !Begins(rest, "*"))
    case Quoted(q, body) => S.IsQuote(q) && S.Parse(body + [q], q).Done? && S.Parse(body + [q], q).width == |body|
    case Block(body) => forall i :: 0 <= i < |body| - 1 ==> !(body[i] == '*' && body[i + 1] == '/')
    case Line(body) => (forall i :: 0 <= i < |body| ==> !IsLineEnd(body[i])) && rest != [] && IsLineEnd(rest[0])
    case RegExp(pattern, flags) =>
      pattern != [] && G.AllOk(pattern) && !Begins(G.TextAll(pattern), "*") && forall i :: 0 <= i < |flags| ==> Slashes.IsFlag(flags[i])
    case Nested(spans) => |spans| % 2 == 1 && forall j :: 0 <= j < |spans| ==> (spans[j].Text? <==> j % 2 == 0) && SpanOk(spans[j])
  }

  ghost predicate SpanOk(span: Span)
    decreases span, 0
  {
    match span
    case Text(text) => TextOk(text)
    case Subst(code) => IsSubstitution(code)
  }

  ghost predicate AllOk(ps: seq<Piece>, rest: string)
    decreases ps, 0
  {
    ps == [] || (PieceOk(ps[0], TextAll(ps[1..]) + rest) && AllOk(ps[1..], rest))
  }

  /** A brace of the code opens or closes. */
  function PieceLevel(p: Piece): int {
    if p == Code('{') then 1 else if p == Code('}') then -1 else 0
  }

  function Level(ps: seq<Piece>): int {
    if ps == [] then 0 else PieceLevel(ps[0]) + Level(ps[1..])
  }

  /** Pieces up to the brace that closes the substitution: the braces of the code balance, none closing too much. */
  ghost predicate IsSubstitution(ps: seq<Piece>)
    decreases ps, 1
  {
    AllOk(ps, "}") && Level(ps) == 0 && forall k :: 0 <= k <= |ps| ==> Level(ps[..k]) >= 0
  }

  // ----- braces that are no code -----

  /** Opening braces minus closing ones in strings, comments, regular expressions and the text of nested templates. */
  function Stray(p: Piece): int
    decreases p
  {
    match p
    case Code(_) => 0
    case Nested(spans) => StraySpans(spans)
    case _ => Depth(PieceText(p))
  }

  function StrayAll(ps: seq<Piece>): int
    decreases ps
  {
    if ps == [] then 0 else Stray(ps[0]) + StrayAll(ps[1..])
  }

  function StraySpan(span: Span): int
    decreases span
  {
    match span
    case Text(text) => Depth(text)
    case Subst(code) => StrayAll(code)
  }

  function StraySpans(spans: seq<Span>): int
    decreases spans
  {
    if spans == [] then 0 else StraySpan(spans[0]) + StraySpans(spans[1..])
  }

  lemma {:induction false} DepthConcat(a: string, b: string)
    ensures Depth(a + b) == Depth(a) + Depth(b)
    decreases |b|
  {
    if b == [] {
      assert a + b == a;
    } else {
      var c := b[..|b| - 1];
      assert (a + b)[..|a + b| - 1] == a + c;
      DepthConcat(a, c);
    }
  }

  lemma DepthOne(c: char)
    ensures Depth([c]) == if c == '{' then 1 else if c == '}' then -1 else 0
  {
    assert [c][..0] == [];
  }

  lemma DepthAround(open: string, t: string, close: string)
    ensures Depth(open + t + close) == Depth(open) + Depth(t) + Depth(close)
  {
    DepthConcat(open, t);
    DepthConcat(open + t, close);
  }

  lemma Delimiters()
    ensures Depth("${") == 1 && Depth("}") == -1 && Depth("`") == 0
  {
    assert "${"[..1] == "$" && "$"[..0] == [] && "}"[..0] == [] && "`"[..0] == [];
  }

  /** The raw count of a piece is its braces of code and its stray ones; nested code counts for nothing. */
  lemma {:induction false} PieceDepth(p: Piece, rest: string)
    requires PieceOk(p, rest)
    ensures Depth(PieceText(p)) == PieceLevel(p) + Stray(p)
    decreases p
  {
    hide S.Parse, TextOk, IsLineEnd;
    match p
    case Code(c) => DepthOne(c);
    case Nested(spans) =>
      SpansDepth(spans);
      Delimiters();
      DepthAround("`", SpansText(spans), "`");
    case _ =>
  }

  lemma {:induction false} AllDepth(ps: seq<Piece>, rest: string)
    requires AllOk(ps, rest)
    ensures Depth(TextAll(ps)) == Level(ps) + StrayAll(ps)
    decreases ps
  {
    hide PieceOk, PieceText;
    if ps != [] {
      PieceDepth(ps[0], TextAll(ps[1..]) + rest);
      AllDepth(ps[1..], rest);
      DepthConcat(PieceText(ps[0]), TextAll(ps[1..]));
    }
  }

  lemma {:induction false} SpansDepth(spans: seq<Span>)
    requires forall j :: 0 <= j < |spans| ==> SpanOk(spans[j])
    ensures Depth(SpansText(spans)) == StraySpans(spans)
    decreases spans
  {
    hide TextOk, AllOk;
    if spans != [] {
      DepthConcat(SpanText(spans[0]), SpansText(spans[1..]));
      SpansDepth(spans[1..]);
      assert SpanOk(spans[0]);
      if spans[0].Subst? {
        assert IsSubstitution(spans[0].code);
        AllDepth(spans[0].code, "}");
        Delimiters();
        DepthAround("${", TextAll(spans[0].code), "}");
      }
    }
  }

  // ----- where the count ends the substitution -----

  /** From that count, no prefix of the text brings it below zero. */
  ghost predicate StaysUp(t: string, d: int) {
    forall k :: 0 <= k <= |t| ==> d + Depth(t[..k]) >= 0
  }

  /** Piece by piece: the count of the code and stray braces so far, and those of the piece up to any place in it. */
  ghost predicate NeverEarly(ps: seq<Piece>, d: int)
    decreases |ps|
  {
    d >= 0 && (ps == [] || (StaysUp(PieceText(ps[0]), d) && NeverEarly(ps[1..], d + PieceLevel(ps[0]) + Stray(ps[0]))))
  }

  lemma StaysUpConcat(a: string, b: string, d: int)
    ensures StaysUp(a + b, d) <==> StaysUp(a, d) && StaysUp(b, d + Depth(a))
  {
    hide Depth;
    var t := a + b;
    assert forall k :: 0 <= k <= |a| ==> t[..k] == a[..k];
    forall k | 0 <= k <= |b| ensures Depth(t[..|a| + k]) == Depth(a) + Depth(b[..k]) {
      assert t[..|a| + k] == a + b[..k];
      DepthConcat(a, b[..k]);
    }
    if StaysUp(t, d) {
      forall k | 0 <= k <= |b| ensures d + Depth(a) + Depth(b[..k]) >= 0 { assert d + Depth(t[..|a| + k]) >= 0; }
      forall k | 0 <= k <= |a| ensures d + Depth(a[..k]) >= 0 { assert d + Depth(t[..k]) >= 0; }
    }
    if StaysUp(a, d) && StaysUp(b, d + Depth(a)) {
      forall k | 0 <= k <= |t| ensures d + Depth(t[..k]) >= 0 {
        if k > |a| { assert d + Depth(a) + Depth(b[..k - |a|]) >= 0; }
      }
    }
  }

  lemma {:induction false} NeverEarlyIff(ps: seq<Piece>, rest: string, d: int)
    requires AllOk(ps, rest)
    ensures NeverEarly(ps, d) <==> StaysUp(TextAll(ps), d)
    decreases |ps|
  {
    hide PieceOk, PieceText, StaysUp;
    if ps == [] {
      NothingStaysUp(d);
    } else {
      PieceDepth(ps[0], TextAll(ps[1..]) + rest);
      NeverEarlyIff(ps[1..], rest, d + PieceLevel(ps[0]) + Stray(ps[0]));
      StaysUpConcat(PieceText(ps[0]), TextAll(ps[1..]), d);
      if StaysUp(PieceText(ps[0]), d) { NotBelow(PieceText(ps[0]), d); }
    }
  }

  lemma NothingStaysUp(d: int)
    ensures StaysUp([], d) <==> d >= 0
  {
    assert forall k :: 0 <= k <= 0 ==> ""[..k] == [];
    if StaysUp([], d) { assert d + Depth(""[..0]) >= 0; }
  }

  lemma NotBelow(t: string, d: int)
    requires StaysUp(t, d)
    ensures d >= 0
  {
    assert t[..0] == [];
    assert d + Depth(t[..0]) >= 0;
  }

  /** The count ends the substitution at its own closing brace exactly when its stray braces sum to zero and never
      bring the count below zero before. */
  lemma RightEndIff(s: string, i: nat, ps: seq<Piece>)
    requires i <= |s| && IsSubstitution(ps) && Begins(s[i..], TextAll(ps) + "}")
    ensures SubstitutionEnd(s, i, 1) == Some(i + |TextAll(ps)| + 1) <==> StrayAll(ps) == 0 && NeverEarly(ps, 0)
  {
    hide Depth, SubstitutionEnd, NeverEarly, AllOk;
    var t := TextAll(ps);
    var end := i + |t| + 1;
    assert s[i..end] == t + "}";
    forall k | i <= k < end ensures s[i..k] == t[..k - i] {
      assert (t + "}")[..k - i] == t[..k - i];
    }
    EndsAtFirstSurplus(s, i, end);
    DepthConcat(t, "}");
    Delimiters();
    AllDepth(ps, "}");
    NeverEarlyIff(ps, "}", 0);
    if StaysUp(t, 0) {
      forall k | i <= k < end ensures Depth(s[i..k]) >= 0 { assert 0 + Depth(t[..k - i]) >= 0; }
    }
    if forall k :: i <= k < end ==> Depth(s[i..k]) >= 0 {
      forall k | 0 <= k <= |t| ensures 0 + Depth(t[..k]) >= 0 { assert Depth(s[i..i + k]) >= 0; }
    }
  }

  // ----- pieces that cannot disturb -----

  /** The braces of a piece balance by themselves. */
  ghost predicate Harmless(p: Piece) {
    Stray(p) == 0 && StaysUp(PieceText(p), 0)
  }

  ghost predicate EndsRight(ps: seq<Piece>) {
    SubstitutionEnd(TextAll(ps) + "}", 0, 1) == Some(|TextAll(ps)| + 1)
  }

  predicate OnlyCode(ps: seq<Piece>) {
    forall i :: 0 <= i < |ps| ==> ps[i].Code?
  }

  /** Among any code, every substitution that holds the piece ends right. */
  ghost predicate AlwaysRight(p: Piece) {
    forall before: seq<Piece>, after: seq<Piece> | OnlyCode(before) && OnlyCode(after) && IsSubstitution(before + [p] + after) ::
      EndsRight(before + [p] + after)
  }

  lemma {:induction false} HarmlessNeverEarly(ps: seq<Piece>, rest: string, d: int)
    requires AllOk(ps, rest) && forall i :: 0 <= i < |ps| ==> ps[i].Code? || Harmless(ps[i])
    requires forall k :: 0 <= k <= |ps| ==> d + Level(ps[..k]) >= 0
    ensures NeverEarly(ps, d) && StrayAll(ps) == 0
    decreases |ps|
  {
    hide PieceOk, PieceText, Stray;
    assert ps[..0] == [];
    assert d + Level(ps[..0]) >= 0;
    if ps != [] {
      var p := ps[0];
      forall k | 0 <= k <= |ps| - 1 ensures d + PieceLevel(p) + Level(ps[1..][..k]) >= 0 {
        assert ps[..k + 1][1..] == ps[1..][..k];
        assert d + Level(ps[..k + 1]) >= 0;
      }
      assert d + PieceLevel(p) + Level(ps[1..][..0]) >= 0;
      if p.Code? { CodeStaysUp(p.c, d); } else { Raised(p, d); }
      HarmlessNeverEarly(ps[1..], rest, d + PieceLevel(p));
    }
  }

  lemma CodeStaysUp(c: char, d: int)
    requires d >= 0 && d + PieceLevel(Code(c)) >= 0
    ensures StaysUp(PieceText(Code(c)), d) && Stray(Code(c)) == 0
  {
    DepthOne(c);
    assert [c][..0] == [] && [c][..1] == [c];
  }

  lemma Raised(p: Piece, d: int)
    requires !p.Code? && Harmless(p) && d >= 0
    ensures StaysUp(PieceText(p), d) && Stray(p) == 0
  {
    var t := PieceText(p);
    forall k | 0 <= k <= |t| ensures d + Depth(t[..k]) >= 0 { assert 0 + Depth(t[..k]) >= 0; }
  }

  /** When no piece disturbs, the substitution ends where the language ends it. */
  lemma HarmlessPieces(ps: seq<Piece>)
    requires IsSubstitution(ps) && forall i :: 0 <= i < |ps| ==> ps[i].Code? || Harmless(ps[i])
    ensures EndsRight(ps)
  {
    hide NeverEarly, AllOk, Harmless;
    HarmlessNeverEarly(ps, "}", 0);
    var s := TextAll(ps) + "}";
    assert s[0..] == s;
    RightEndIff(s, 0, ps);
  }

  /** A string, comment, regular expression or nested template disturbs in no substitution exactly when its own braces
      balance. */
  lemma HarmlessIff(p: Piece)
    requires !p.Code? && PieceOk(p, "\n}")
    ensures AlwaysRight(p) <==> Harmless(p)
  {
    hide NeverEarly, AllOk, PieceOk, Stray, StaysUp, Level;
    if Harmless(p) {
      forall before: seq<Piece>, after: seq<Piece> | OnlyCode(before) && OnlyCode(after) && IsSubstitution(before + [p] + after)
        ensures EndsRight(before + [p] + after)
      {
        HarmlessPieces(before + [p] + after);
      }
    }
    if AlwaysRight(p) {
      var ps := [p, Code('\n')];
      Alone(p);
      var before: seq<Piece>, after := [], [Code('\n')];
      assert before + [p] + after == ps;
      assert OnlyCode(before) && OnlyCode(after) && IsSubstitution(before + [p] + after);
      assert EndsRight(before + [p] + after);
      var s := TextAll(ps) + "}";
      assert s[0..] == s;
      RightEndIff(s, 0, ps);
    }
  }

  lemma Alone(p: Piece)
    requires !p.Code? && PieceOk(p, "\n}")
    ensures IsSubstitution([p, Code('\n')])
    ensures StrayAll([p, Code('\n')]) == 0 && NeverEarly([p, Code('\n')], 0) ==> Harmless(p)
  {
    hide PieceOk, Stray, StaysUp, PieceText;
    var ps, last := [p, Code('\n')], [Code('\n')];
    assert ps[1..] == last && last[1..] == [];
    NewlineOk();
    assert AllOk(last, "}");
    assert AllOk(ps, "}");
    forall k | 0 <= k <= |ps| ensures Level(ps[..k]) == 0 { LevelOfTwo(p, k); }
    assert ps[..2] == ps;
    assert StrayAll(ps) == Stray(p) + (Stray(Code('\n')) + StrayAll([]));
  }

  lemma LevelOfTwo(p: Piece, k: nat)
    requires !p.Code? && k <= 2
    ensures Level([p, Code('\n')][..k]) == 0
  {
    var ps := [p, Code('\n')];
    if k == 1 {
      assert ps[..1] == [p] && [p][1..] == [];
    } else if k == 2 {
      assert ps[..2] == ps && ps[1..] == [Code('\n')] && [Code('\n')][1..] == [];
    }
  }

  lemma NewlineOk()
    ensures PieceOk(Code('\n'), TextAll([]) + "}") && Stray(Code('\n')) == 0 && TextAll([Code('\n')]) + "}" == "\n}"
  {
    assert [Code('\n')][1..] == [];
    assert TextAll([Code('\n')]) == "\n" + TextAll([]);
  }

  lemma QuotedBrace()
    ensures PieceOk(Quoted('\'', "}"), "\n}") && Stray(Quoted('\'', "}")) == -1 && !AlwaysRight(Quoted('\'', "}"))
  {
    hide AlwaysRight;
    var p, t := Quoted('\'', "}"), "}'";
    assert t[1..] == "'";
    assert S.Parse("'", '\'') == S.Done([], 0);
    assert S.Parse(t, '\'').Done? && S.Parse(t, '\'').width == 1;
    assert "}" + ['\''] == t;
    DepthAround("'", "}", "'");
    DepthOne('\'');
    Delimiters();
    assert PieceText(p) == "'" + "}" + "'";
    HarmlessIff(p);
  }

  /** A quoted brace in a substitution is counted, so this template is refused although the language has it. */
  lemma QuotedBraceRefused(tables: Tables)
    ensures Tokenize("`${'}'}`", tables) == Err
  {
    var s := "`${'}'}`";
    assert SubstitutionEnd(s, 3, 1) == Some(5) by {
      assert SubstitutionEnd(s, 4, 1) == SubstitutionEnd(s, 5, 0);
    }
    var inner := s[3..4];
    assert inner == "'";
    assert inner[1..] == [];
    assert S.Parse([], '\'') == S.Fail(S.Unterminated);
    assert Iterate(inner, 0, [], tables) == Err;
    assert Tokenize(inner, tables) == Err;
    assert TemplateParts(s, 1, 1, [], tables) == Err;
    assert Iterate(s, 0, [], tables) == Err;
  }
}
