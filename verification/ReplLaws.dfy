/** How the completeness test reads any input: as pieces and an open tail; what the verdict on them is; and which
    templates it passes over. */
module ReplLaws {
  import opened Prelude
  import opened Repl

  // ----- characters -----

  /** The code points with the property White_Space of the Unicode standard. */
  const WHITE_SPACE: set<int> :=
    {0x9, 0xa, 0xb, 0xc, 0xd, 0x20, 0x85, 0xa0, 0x1680, 0x2000, 0x2001, 0x2002, 0x2003, 0x2004, 0x2005, 0x2006, 0x2007,
     0x2008, 0x2009, 0x200a, 0x2028, 0x2029, 0x202f, 0x205f, 0x3000}

  /** A slash starts a regular expression at the start of the input and after these, and divides after anything else. */
  const BEFORE_REGEXP: seq<char> := ['(', '[', '{', '}', ',', ';', ':', '=', '!', '?', ' ', '\t', '\n', '\r']

  predicate Matching(open: char, close: char) {
    (open == '(' && close == ')') || (open == '[' && close == ']') || (open == '{' && close == '}')
  }

  lemma CharactersAre(c: char, d: char)
    ensures IsWhitespace(c) <==> c as int in WHITE_SPACE
    ensures CanStartRegex(Some(c)) <==> c in BEFORE_REGEXP
    ensures CanStartRegex(None)
    ensures IsOpen(c) && Closer(c) == d <==> Matching(c, d)
    ensures IsClose(d) <==> Matching('(', d) || Matching('[', d) || Matching('{', d)
    ensures IsLetter(c) <==> 65 <= c as int <= 90 || 97 <= c as int <= 122
  {
  }

  // ----- pieces -----

  /** The inside of a string, template or regular expression: no bare closing character, and every backslash with the
      character it escapes. */
  predicate Inside(body: string, close: char) {
    body == [] ||
    if body[0] == '\\' then |body| > 1 && Inside(body[2..], close) else body[0] != close && Inside(body[1..], close)
  }

  predicate IsQuote(c: char) { c == '\'' || c == '\"' }

  predicate IsLineEnd(c: char) { c == '\n' || c == '\r' }

  predicate NoCommentEnd(body: string) {
    forall i :: 0 <= i < |body| - 1 ==> !(body[i] == '*' && body[i + 1] == '/')
  }

  datatype Piece =
    | Plain(c: char)
    | Bracket(c: char)
    | Quoted(quote: char, body: string)
    | Template(body: string)
    | Block(body: string)
    | Line(body: string, end: char)
    | Division
    | RegExp(body: string, flags: string)

  /** What the input ends inside of; dangling when it ends in a backslash that escapes nothing. */
  datatype Tail =
    | NoTail
    | OpenLine(body: string)
    | OpenBlock(body: string)
    | OpenQuoted(quote: char, body: string, dangling: bool)
    | OpenTemplate(body: string, dangling: bool)
    | OpenRegExp(body: string, dangling: bool)

  /** A piece may stand after that character and before that text. */
  predicate Proper(p: Piece, prev: Option<char>, rest: string) {
    match p
    case Plain(c) => !IsQuote(c) && c != '`' && c != '/' && !IsOpen(c) && !IsClose(c)
    case Bracket(c) => IsOpen(c) || IsClose(c)
    case Quoted(q, body) => IsQuote(q) && Inside(body, q)
    case Template(body) => Inside(body, '`')
    case Block(body) => NoCommentEnd(body)
    case Line(body, end) => '\n' !in body && '\r' !in body && IsLineEnd(end)
    case Division => !CanStartRegex(prev) && (rest == [] || (rest[0] != '/' && rest[0] != '*'))
    case RegExp(body, flags) =>
      && CanStartRegex(prev) && body != [] && body[0] != '*' && Inside(body, '/')
      && (forall i :: 0 <= i < |flags| ==> IsLetter(flags[i])) && (rest == [] || !IsLetter(rest[0]))
  }

  predicate ProperTail(t: Tail, prev: Option<char>) {
    match t
    case NoTail => true
    case OpenLine(body) => '\n' !in body && '\r' !in body
    case OpenBlock(body) => NoCommentEnd(body)
    case OpenQuoted(q, body, _) => IsQuote(q) && Inside(body, q)
    case OpenTemplate(body, _) => Inside(body, '`')
    case OpenRegExp(body, _) => CanStartRegex(prev) && (body == [] || body[0] != '*') && Inside(body, '/')
  }

  function Text(p: Piece): (t: string)
    ensures t != []
  {
    match p
    case Plain(c) => [c]
    case Bracket(c) => [c]
    case Quoted(q, body) => [q] + body + [q]
    case Template(body) => "`" + body + "`"
    case Block(body) => "/*" + body + "*/"
    case Line(body, end) => "//" + body + [end]
    case Division => "/"
    case RegExp(body, flags) => "/" + body + "/" + flags
  }

  function Dangle(dangling: bool): string {
    if dangling then "\\" else ""
  }

  function TailText(t: Tail): string {
    match t
    case NoTail => ""
    case OpenLine(body) => "//" + body
    case OpenBlock(body) => "/*" + body
    case OpenQuoted(q, body, dangling) => [q] + (body + Dangle(dangling))
    case OpenTemplate(body, dangling) => "`" + (body + Dangle(dangling))
    case OpenRegExp(body, dangling) => "/" + (body + Dangle(dangling))
  }

  function TextAll(ps: seq<Piece>): string {
    if ps == [] then [] else Text(ps[0]) + TextAll(ps[1..])
  }

  /** The last character that counts for telling division from a regular expression. */
  function PrevAfter(p: Piece, prev: Option<char>): Option<char> {
    match p
    case Plain(c) => if IsWhitespace(c) then prev else Some(c)
    case Bracket(c) => Some(c)
    case Quoted(q, _) => Some(q)
    case Template(_) => Some('`')
    case Block(_) => Some('/')
    case Line(_, end) => Some(end)
    case Division => Some('/')
    case RegExp(_, _) => Some('/')
  }

  predicate AllProper(ps: seq<Piece>, prev: Option<char>, rest: string)
    decreases |ps|
  {
    ps == [] || (Proper(ps[0], prev, TextAll(ps[1..]) + rest) && AllProper(ps[1..], PrevAfter(ps[0], prev), rest))
  }

  function PrevAfterAll(ps: seq<Piece>, prev: Option<char>): Option<char>
    decreases |ps|
  {
    if ps == [] then prev else PrevAfterAll(ps[1..], PrevAfter(ps[0], prev))
  }

  // ----- brackets -----

  /** The brackets the test sees in template text: each substitution opens a brace, and each bare closing brace
      closes one, wherever it stands. */
  function Events(body: string): seq<char> {
    if body == [] then []
    else if body[0] == '\\' then if |body| > 1 then Events(body[2..]) else []
    else if body[0] == '$' && Follows(body, '{') then ['{'] + Events(body[2..])
    else if body[0] == '}' then ['}'] + Events(body[1..])
    else Events(body[1..])
  }

  function PieceBrackets(p: Piece): seq<char> {
    match p
    case Bracket(c) => [c]
    case Template(body) => Events(body)
    case _ => []
  }

  function Brackets(ps: seq<Piece>): seq<char> {
    if ps == [] then [] else PieceBrackets(ps[0]) + Brackets(ps[1..])
  }

  function TailBrackets(t: Tail): seq<char> {
    if t.OpenTemplate? then Events(t.body) else []
  }

  /** Inside a string, template, block comment or regular expression. */
  predicate IsOpenTail(t: Tail) {
    !t.NoTail? && !t.OpenLine?
  }

  /** The stack after some brackets; None once a closing one does not match. */
  function Fold(stack: seq<char>, bs: seq<char>): Option<seq<char>>
    decreases |bs|
  {
    if bs == [] then Some(stack)
    else if IsOpen(bs[0]) then Fold(stack + [Closer(bs[0])], bs[1..])
    else
      var popped := Pop(stack, bs[0]);
      if popped.None? then None else Fold(popped.value, bs[1..])
  }

  // ----- balanced brackets -----

  /** Empty, or a bracket pair around a balanced word, then a balanced word. */
  ghost predicate Balanced(bs: seq<char>)
    decreases |bs|
  {
    bs == [] || exists i :: 0 < i < |bs| && Pairs(bs, i) && Balanced(bs[1..i]) && Balanced(bs[i + 1..])
  }

  predicate Pairs(bs: seq<char>, i: int) {
    0 < i < |bs| && Matching(bs[0], bs[i])
  }

  lemma {:induction false} FoldConcat(stack: seq<char>, xs: seq<char>, ys: seq<char>)
    ensures Fold(stack, xs + ys) == if Fold(stack, xs).None? then None else Fold(Fold(stack, xs).value, ys)
    decreases |xs|
  {
    if xs == [] {
      assert xs + ys == ys;
    } else {
      assert (xs + ys)[1..] == xs[1..] + ys;
      if IsOpen(xs[0]) {
        FoldConcat(stack + [Closer(xs[0])], xs[1..], ys);
      } else if Pop(stack, xs[0]).Some? {
        FoldConcat(Pop(stack, xs[0]).value, xs[1..], ys);
      }
    }
  }

  lemma {:induction false} BalancedFolds(bs: seq<char>, stack: seq<char>)
    requires Balanced(bs)
    ensures Fold(stack, bs) == Some(stack)
    decreases |bs|
  {
    if bs != [] {
      var i :| 0 < i < |bs| && Pairs(bs, i) && Balanced(bs[1..i]) && Balanced(bs[i + 1..]);
      var inner := stack + [Closer(bs[0])];
      assert bs[1..] == bs[1..i] + bs[i..];
      BalancedFolds(bs[1..i], inner);
      FoldConcat(inner, bs[1..i], bs[i..]);
      assert inner[..|inner| - 1] == stack;
      assert bs[i..][1..] == bs[i + 1..];
      BalancedFolds(bs[i + 1..], stack);
    }
  }

  /** When the brackets empty a stack, the top of it is closed after a balanced word. */
  lemma {:induction false} ClosesTop(stack: seq<char>, bs: seq<char>) returns (i: nat)
    requires stack != [] && Fold(stack, bs) == Some([])
    ensures i < |bs| && bs[i] == stack[|stack| - 1] && !IsOpen(bs[i])
    ensures Balanced(bs[..i]) && Fold(stack[..|stack| - 1], bs[i + 1..]) == Some([])
    decreases |bs|
  {
    hide Balanced;
    if IsOpen(bs[0]) {
      var inner := stack + [Closer(bs[0])];
      var j := ClosesTop(inner, bs[1..]);
      assert inner[..|inner| - 1] == stack;
      var rest := bs[1..][j + 1..];
      assert rest == bs[j + 2..];
      var k := ClosesTop(stack, rest);
      i := j + 2 + k;
      BalancedPair(bs[..i], j + 1, bs[1..][..j], rest[..k]);
      assert rest[k + 1..] == bs[i + 1..];
    } else {
      i := 0;
      EmptyBalanced(bs[..0]);
    }
  }

  lemma EmptyBalanced(bs: seq<char>)
    requires bs == []
    ensures Balanced(bs)
  {
  }

  lemma BalancedPair(bs: seq<char>, i: int, inner: seq<char>, rest: seq<char>)
    requires Pairs(bs, i) && bs[1..i] == inner && bs[i + 1..] == rest && Balanced(inner) && Balanced(rest)
    ensures Balanced(bs)
  {
  }

  lemma {:induction false} FoldsBalanced(bs: seq<char>)
    requires Fold([], bs) == Some([])
    ensures Balanced(bs)
    decreases |bs|
  {
    if bs != [] {
      var stack := [Closer(bs[0])];
      assert [] + stack == stack;
      var i := ClosesTop(stack, bs[1..]);
      assert stack[..0] == [];
      assert bs[1..][i + 1..] == bs[i + 2..];
      FoldsBalanced(bs[i + 2..]);
      BalancedPair(bs, i + 1, bs[1..][..i], bs[i + 2..]);
    }
  }

  ghost predicate CanBeBalanced(bs: seq<char>) {
    exists more :: Balanced(bs + more)
  }

  predicate AllClosers(s: seq<char>) {
    forall i :: 0 <= i < |s| ==> IsClose(s[i])
  }

  lemma {:induction false} StackHoldsClosers(stack: seq<char>, bs: seq<char>)
    requires AllClosers(stack) && Fold(stack, bs).Some?
    ensures AllClosers(Fold(stack, bs).value)
    decreases |bs|
  {
    if bs != [] {
      if IsOpen(bs[0]) {
        StackHoldsClosers(stack + [Closer(bs[0])], bs[1..]);
      } else {
        StackHoldsClosers(Pop(stack, bs[0]).value, bs[1..]);
      }
    }
  }

  /** Any stack of expected brackets can be emptied. */
  lemma {:induction false} Unwind(stack: seq<char>) returns (more: seq<char>)
    requires AllClosers(stack)
    ensures Fold(stack, more) == Some([])
    decreases |stack|
  {
    if stack == [] {
      more := [];
    } else {
      var last := |stack| - 1;
      var rest := Unwind(stack[..last]);
      more := [stack[last]] + rest;
      assert more[1..] == rest;
    }
  }

  /** A sequence of brackets has no mismatch exactly when it can be balanced by adding to it. */
  lemma FoldsIffCanBeBalanced(bs: seq<char>)
    ensures Fold([], bs).Some? <==> CanBeBalanced(bs)
    ensures Fold([], bs) == Some([]) <==> Balanced(bs)
  {
    if Fold([], bs).Some? {
      var stack := Fold([], bs).value;
      StackHoldsClosers([], bs);
      var more := Unwind(stack);
      FoldConcat([], bs, more);
      FoldsBalanced(bs + more);
      if stack == [] { FoldsBalanced(bs); }
    }
    if CanBeBalanced(bs) {
      var more :| Balanced(bs + more);
      BalancedFolds(bs + more, []);
      FoldConcat([], bs, more);
    }
    if Balanced(bs) { BalancedFolds(bs, []); }
  }

  // ----- reading one piece -----

  lemma OneTurn(t: string, st: State, after: State, width: nat, rest: string)
    requires t != [] && TurnAt(st, t) == Next(after, width) && width <= |t| && t[width..] == rest
    ensures Run(t, st) == Run(rest, after)
  {
    hide TurnAt;
  }

  /** Modes in which only the closing character and the backslash count. */
  predicate IsVerbatim(m: Mode, close: char) {
    (m == Single && close == '\'') || (m == Double && close == '\"') || (m == Regex && close == '/')
  }

  /** Such a mode reads to the end of the body, whatever the body holds. */
  lemma {:induction false} VerbatimBody(body: string, close: char, rest: string, st: State) returns (last: Option<char>)
    requires IsVerbatim(st.mode, close) && Inside(body, close) && !st.escape
    ensures Run(body + rest, st) == Run(rest, st.(prev := last))
    decreases |body|
  {
    hide Run;
    if body == [] {
      assert body + rest == rest;
      last := st.prev;
    } else if body[0] == '\\' {
      var u := body[1..] + rest;
      OneTurn(body + rest, st, st.(escape := true), 1, u);
      OneTurn(u, st.(escape := true), st, 1, body[2..] + rest);
      last := VerbatimBody(body[2..], close, rest, st);
    } else {
      OneTurn(body + rest, st, st.(prev := Some(body[0])), 1, body[1..] + rest);
      last := VerbatimBody(body[1..], close, rest, st.(prev := Some(body[0])));
    }
  }

  lemma QuotedRead(q: char, body: string, rest: string, st: State)
    requires IsQuote(q) && Inside(body, q) && st.mode == Code && !st.escape
    ensures Run([q] + body + [q] + rest, st) == Run(rest, st.(prev := Some(q)))
  {
    hide Run, Inside;
    var in_ := st.(mode := if q == '\'' then Single else Double, prev := Some(q));
    OneTurn([q] + body + [q] + rest, st, in_, 1, body + ([q] + rest));
    var last := VerbatimBody(body, q, [q] + rest, in_);
    OneTurn([q] + rest, in_.(prev := last), st.(prev := Some(q)), 1, rest);
  }

  /** An input that ends inside of such a mode is incomplete. */
  lemma OpenVerbatim(body: string, close: char, dangling: bool, st: State)
    requires IsVerbatim(st.mode, close) && Inside(body, close) && !st.escape
    ensures !Run(body + Dangle(dangling), st)
  {
    hide Run, Inside;
    var last := VerbatimBody(body, close, Dangle(dangling), st);
    if dangling { OneTurn("\\", st.(prev := last), st.(prev := last, escape := true), 1, []); }
    AtEnd(st.(prev := last));
    AtEnd(st.(prev := last, escape := true));
  }

  lemma {:induction false} LettersAll(flags: string, rest: string)
    requires (forall i :: 0 <= i < |flags| ==> IsLetter(flags[i])) && (rest == [] || !IsLetter(rest[0]))
    ensures Letters(flags + rest) == |flags|
  {
    if flags == [] {
      assert flags + rest == rest;
    } else {
      assert (flags + rest)[1..] == flags[1..] + rest;
      LettersAll(flags[1..], rest);
    }
  }

  lemma RegExpRead(body: string, flags: string, rest: string, st: State)
    requires Proper(RegExp(body, flags), st.prev, rest) && st.mode == Code && !st.escape
    ensures Run("/" + body + "/" + flags + rest, st) == Run(rest, st.(prev := Some('/')))
  {
    hide Run;
    var in_ := st.(mode := Regex, prev := Some('/'));
    var tail := "/" + flags + rest;
    OneTurn("/" + body + "/" + flags + rest, st, in_, 1, body + tail);
    var last := VerbatimBody(body, '/', tail, in_);
    assert tail[1..] == flags + rest;
    LettersAll(flags, rest);
    OneTurn(tail, in_.(prev := last), st.(prev := Some('/')), 1 + |flags|, rest);
  }

  lemma {:induction false} BlockBody(body: string, rest: string, st: State)
    requires NoCommentEnd(body) && st.mode == BlockComment && !st.escape
    ensures Run(body + "*/" + rest, st) == Run(rest, st.(mode := Code, prev := Some('/')))
    decreases |body|
  {
    hide Run;
    var t := body + "*/" + rest;
    if body == [] {
      OneTurn(t, st, st.(mode := Code, prev := Some('/')), 2, rest);
    } else {
      assert t[1..] == body[1..] + "*/" + rest;
      OneTurn(t, st, st.(prev := Some(body[0])), 1, body[1..] + "*/" + rest);
      BlockBody(body[1..], rest, st.(prev := Some(body[0])));
    }
  }

  lemma BlockRead(body: string, rest: string, st: State)
    requires NoCommentEnd(body) && st.mode == Code && !st.escape
    ensures Run("/*" + body + "*/" + rest, st) == Run(rest, st.(prev := Some('/')))
  {
    hide Run;
    OneTurn("/*" + body + "*/" + rest, st, st.(mode := BlockComment, prev := Some('/')), 2, body + "*/" + rest);
    BlockBody(body, rest, st.(mode := BlockComment, prev := Some('/')));
  }

  lemma {:induction false} OpenBlockBody(body: string, st: State)
    requires NoCommentEnd(body) && st.mode == BlockComment && !st.escape
    ensures !Run(body, st)
  {
    hide Run;
    if body == [] {
      AtEnd(st);
    } else {
      OneTurn(body, st, st.(prev := Some(body[0])), 1, body[1..]);
      OpenBlockBody(body[1..], st.(prev := Some(body[0])));
    }
  }

  lemma {:induction false} LineBody(body: string, rest: string, st: State) returns (last: Option<char>)
    requires '\n' !in body && '\r' !in body && st.mode == LineComment && !st.escape
    ensures Run(body + rest, st) == Run(rest, st.(prev := last))
    decreases |body|
  {
    hide Run;
    if body == [] {
      assert body + rest == rest;
      last := st.prev;
    } else {
      assert body[0] in body;
      OneTurn(body + rest, st, st.(prev := Some(body[0])), 1, body[1..] + rest);
      last := LineBody(body[1..], rest, st.(prev := Some(body[0])));
    }
  }

  lemma LineRead(body: string, end: char, rest: string, st: State)
    requires '\n' !in body && '\r' !in body && IsLineEnd(end) && st.mode == Code && !st.escape
    ensures Run("//" + body + [end] + rest, st) == Run(rest, st.(prev := Some(end)))
  {
    hide Run;
    var in_ := st.(mode := LineComment, prev := Some('/'));
    OneTurn("//" + body + [end] + rest, st, in_, 2, body + ([end] + rest));
    var last := LineBody(body, [end] + rest, in_);
    OneTurn([end] + rest, in_.(prev := last), st.(prev := Some(end)), 1, rest);
  }

  /** Template text folds its events onto the stack; a mismatch ends the test. */
  lemma {:induction false} TemplateBody(body: string, rest: string, st: State) returns (last: Option<char>)
    requires Inside(body, '`') && st.mode == Backtick && !st.escape && (rest == [] || rest[0] != '{')
    ensures Fold(st.stack, Events(body)).None? ==> Run(body + rest, st)
    ensures Fold(st.stack, Events(body)).Some? ==>
      Run(body + rest, st) == Run(rest, st.(stack := Fold(st.stack, Events(body)).value, prev := last))
    decreases |body|
  {
    hide Run;
    var t := body + rest;
    last := st.prev;
    if body == [] {
      assert t == rest;
    } else if body[0] == '\\' {
      var u := body[1..] + rest;
      OneTurn(t, st, st.(escape := true), 1, u);
      OneTurn(u, st.(escape := true), st, 1, body[2..] + rest);
      last := TemplateBody(body[2..], rest, st);
    } else if body[0] == '$' && Follows(body, '{') {
      var after := st.(stack := st.stack + ['}'], prev := Some('{'));
      assert (['{'] + Events(body[2..]))[1..] == Events(body[2..]);
      assert Inside(body[1..], '`') && Inside(body[2..], '`');
      OneTurn(t, st, after, 2, body[2..] + rest);
      last := TemplateBody(body[2..], rest, after);
    } else if body[0] == '}' {
      assert (['}'] + Events(body[1..]))[1..] == Events(body[1..]);
      if Pop(st.stack, '}').Some? {
        var after := st.(stack := Pop(st.stack, '}').value, prev := Some('}'));
        OneTurn(t, st, after, 1, body[1..] + rest);
        last := TemplateBody(body[1..], rest, after);
      } else {
        RunTurn(t, st);
      }
    } else {
      OneTurn(t, st, st.(prev := Some(body[0])), 1, body[1..] + rest);
      last := TemplateBody(body[1..], rest, st.(prev := Some(body[0])));
    }
  }

  lemma TemplateRead(body: string, rest: string, st: State)
    requires Inside(body, '`') && st.mode == Code && !st.escape
    ensures Run("`" + body + "`" + rest, st) ==
      if Fold(st.stack, Events(body)).None? then true
      else Run(rest, st.(stack := Fold(st.stack, Events(body)).value, prev := Some('`')))
  {
    hide Run, Inside, Events, Fold;
    var in_ := st.(mode := Backtick, prev := Some('`'));
    OneTurn("`" + body + "`" + rest, st, in_, 1, body + ("`" + rest));
    var last := TemplateBody(body, "`" + rest, in_);
    if Fold(st.stack, Events(body)).Some? {
      var s := Fold(st.stack, Events(body)).value;
      OneTurn("`" + rest, in_.(stack := s, prev := last), st.(stack := s, prev := Some('`')), 1, rest);
    }
  }

  // ----- the verdict -----

  /** Reading proper pieces folds their brackets; a mismatch ends the test. */
  lemma {:induction false} PiecesRead(ps: seq<Piece>, rest: string, st: State)
    requires AllProper(ps, st.prev, rest) && st.mode == Code && !st.escape
    ensures Run(TextAll(ps) + rest, st) ==
      if Fold(st.stack, Brackets(ps)).None? then true
      else Run(rest, st.(stack := Fold(st.stack, Brackets(ps)).value, prev := PrevAfterAll(ps, st.prev)))
    decreases |ps|
  {
    hide Run, Proper, Text, PieceBrackets, PrevAfter;
    if ps == [] {
      assert TextAll(ps) + rest == rest;
    } else {
      var p, more := ps[0], TextAll(ps[1..]) + rest;
      assert TextAll(ps) + rest == Text(p) + more;
      PieceRead(p, more, st);
      FoldConcat(st.stack, PieceBrackets(p), Brackets(ps[1..]));
      if Fold(st.stack, PieceBrackets(p)).Some? {
        PiecesRead(ps[1..], rest, st.(stack := Fold(st.stack, PieceBrackets(p)).value, prev := PrevAfter(p, st.prev)));
      }
    }
  }

  lemma PieceRead(p: Piece, rest: string, st: State)
    requires Proper(p, st.prev, rest) && st.mode == Code && !st.escape
    ensures Run(Text(p) + rest, st) ==
      if Fold(st.stack, PieceBrackets(p)).None? then true
      else Run(rest, st.(stack := Fold(st.stack, PieceBrackets(p)).value, prev := PrevAfter(p, st.prev)))
  {
    hide Run, IsWhitespace, Inside, CanStartRegex;
    match p
    case Plain(c) => OneTurn([c] + rest, st, st.(prev := PrevAfter(p, st.prev)), 1, rest);
    case Bracket(c) => BracketRead(c, rest, st);
    case Quoted(q, body) => QuotedRead(q, body, rest, st);
    case Template(body) => TemplateRead(body, rest, st);
    case Block(body) => BlockRead(body, rest, st);
    case Line(body, end) => LineRead(body, end, rest, st);
    case Division => OneTurn("/" + rest, st, st.(prev := Some('/')), 1, rest) by { SlashIsNoSpace(); }
    case RegExp(body, flags) => RegExpRead(body, flags, rest, st);
  }

  lemma SlashIsNoSpace()
    ensures !IsWhitespace('/')
    ensures forall c :: IsOpen(c) || IsClose(c) ==> !IsWhitespace(c)
  {
  }

  lemma BracketRead(c: char, rest: string, st: State)
    requires (IsOpen(c) || IsClose(c)) && st.mode == Code && !st.escape
    ensures Run([c] + rest, st) ==
      if Fold(st.stack, [c]).None? then true else Run(rest, st.(stack := Fold(st.stack, [c]).value, prev := Some(c)))
  {
    hide Run, IsWhitespace;
    SlashIsNoSpace();
    assert [c][1..] == [];
    if IsOpen(c) {
      OneTurn([c] + rest, st, st.(stack := st.stack + [Closer(c)], prev := Some(c)), 1, rest);
    } else if Pop(st.stack, c).Some? {
      OneTurn([c] + rest, st, st.(stack := Pop(st.stack, c).value, prev := Some(c)), 1, rest);
    } else {
      RunTurn([c] + rest, st);
    }
  }

  lemma TailRead(t: Tail, st: State)
    requires ProperTail(t, st.prev) && st.mode == Code && !st.escape
    ensures Run(TailText(t), st) <==>
      Fold(st.stack, TailBrackets(t)).None? || (!IsOpenTail(t) && st.stack == [])
  {
    hide Run, Inside, CanStartRegex, Events;
    match t
    case NoTail => AtEnd(st);
    case OpenLine(body) =>
      var in_ := st.(mode := LineComment, prev := Some('/'));
      OneTurn("//" + body, st, in_, 2, body);
      assert body + [] == body;
      var last := LineBody(body, [], in_);
      AtEnd(in_.(prev := last));
    case OpenBlock(body) =>
      OneTurn("/*" + body, st, st.(mode := BlockComment, prev := Some('/')), 2, body);
      OpenBlockBody(body, st.(mode := BlockComment, prev := Some('/')));
    case OpenQuoted(q, body, dangling) =>
      var in_ := st.(mode := if q == '\'' then Single else Double, prev := Some(q));
      OneTurn(TailText(t), st, in_, 1, body + Dangle(dangling));
      OpenVerbatim(body, q, dangling, in_);
    case OpenTemplate(body, dangling) => OpenTemplateRead(body, dangling, st);
    case OpenRegExp(body, dangling) =>
      var in_ := st.(mode := Regex, prev := Some('/'));
      RegExpStarts(body, dangling, st);
      OneTurn(TailText(t), st, in_, 1, body + Dangle(dangling));
      OpenVerbatim(body, '/', dangling, in_);
  }

  lemma RegExpStarts(body: string, dangling: bool, st: State)
    requires CanStartRegex(st.prev) && (body == [] || body[0] != '*') && Inside(body, '/') && st.mode == Code && !st.escape
    ensures TurnAt(st, "/" + (body + Dangle(dangling))) == Next(st.(mode := Regex, prev := Some('/')), 1)
  {
  }

  lemma OpenTemplateRead(body: string, dangling: bool, st: State)
    requires Inside(body, '`') && st.mode == Code && !st.escape
    ensures Run("`" + (body + Dangle(dangling)), st) <==> Fold(st.stack, Events(body)).None?
  {
    hide Run, Inside, Events, Fold;
    var in_ := st.(mode := Backtick, prev := Some('`'));
    OneTurn("`" + (body + Dangle(dangling)), st, in_, 1, body + Dangle(dangling));
    var last := TemplateBody(body, Dangle(dangling), in_);
    if Fold(st.stack, Events(body)).Some? {
      var at := in_.(stack := Fold(st.stack, Events(body)).value, prev := last);
      if dangling { OneTurn("\\", at, at.(escape := true), 1, []); }
      AtEnd(at);
      AtEnd(at.(escape := true));
    }
  }

  lemma VerdictOnPieces(ps: seq<Piece>, t: Tail)
    requires AllProper(ps, None, TailText(t)) && ProperTail(t, PrevAfterAll(ps, None))
    ensures var bs := Brackets(ps) + TailBrackets(t);
      !Run(TextAll(ps) + TailText(t), START) <==> CanBeBalanced(bs) && (IsOpenTail(t) || !Balanced(bs))
  {
    hide Run, AllProper, ProperTail, Balanced, TailText;
    PiecesRead(ps, TailText(t), START);
    FoldConcat([], Brackets(ps), TailBrackets(t));
    FoldsIffCanBeBalanced(Brackets(ps) + TailBrackets(t));
    if Fold([], Brackets(ps)).Some? {
      TailRead(t, START.(stack := Fold([], Brackets(ps)).value, prev := PrevAfterAll(ps, None)));
    }
  }
}
