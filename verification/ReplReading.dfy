/** Every input is pieces and a tail, so the verdict is known on all of them; and which templates agree with the
    documented behaviour. */
module ReplReading {
  import opened Prelude
  import opened Repl
  import opened ReplLaws

  // ----- reading an input into pieces -----

  datatype Scanned = Closed(n: nat) | Unclosed(n: nat, dangling: bool)

  function Further(s: Scanned, k: nat): Scanned {
    match s
    case Closed(n) => Closed(n + k)
    case Unclosed(n, dangling) => Unclosed(n + k, dangling)
  }

  /** Up to the first bare closing character, or the end. */
  function Scan(t: string, close: char): Scanned {
    if t == [] then Unclosed(0, false)
    else if t[0] == '\\' then if |t| == 1 then Unclosed(0, true) else Further(Scan(t[2..], close), 2)
    else if t[0] == close then Closed(0)
    else Further(Scan(t[1..], close), 1)
  }

  ghost predicate ScannedRight(s: Scanned, t: string, close: char) {
    match s
    case Closed(n) => n < |t| && Inside(t[..n], close) && t[n] == close
    case Unclosed(n, dangling) => n <= |t| && Inside(t[..n], close) && t[n..] == Dangle(dangling)
  }

  lemma {:induction false} ScanRight(t: string, close: char)
    requires close != '\\'
    ensures ScannedRight(Scan(t, close), t, close)
  {
    if t != [] && t[0] == '\\' && |t| > 1 {
      ScanRight(t[2..], close);
      var n := Scan(t[2..], close).n;
      assert t[..n + 2][2..] == t[2..][..n];
      assert t[2..][n..] == t[n + 2..];
    } else if t != [] && t[0] != '\\' && t[0] != close {
      ScanRight(t[1..], close);
      var n := Scan(t[1..], close).n;
      assert t[..n + 1][1..] == t[1..][..n];
      assert t[1..][n..] == t[n + 1..];
    }
  }

  /** The place of the first end of a block comment. */
  function CommentEnd(t: string): Option<nat> {
    if |t| < 2 then None
    else if t[0] == '*' && t[1] == '/' then Some(0)
    else
      var n := CommentEnd(t[1..]);
      if n.None? then None else Some(n.value + 1)
  }

  lemma {:induction false} CommentEndRight(t: string)
    ensures match CommentEnd(t)
      case Some(n) => n + 2 <= |t| && NoCommentEnd(t[..n]) && t[n..n + 2] == "*/"
      case None => NoCommentEnd(t)
  {
    if |t| >= 2 && !(t[0] == '*' && t[1] == '/') {
      CommentEndRight(t[1..]);
      if CommentEnd(t[1..]).Some? {
        var n := CommentEnd(t[1..]).value;
        assert t[1..][n..n + 2] == t[n + 1..n + 3];
        NoEndWith(t, n);
      } else {
        NoEndAtStart(t);
      }
    }
  }

  lemma NoEndWith(t: string, n: nat)
    requires |t| >= 2 && !(t[0] == '*' && t[1] == '/') && n + 1 <= |t| && NoCommentEnd(t[1..][..n])
    ensures NoCommentEnd(t[..n + 1])
  {
    forall i | 0 <= i < n ensures !(t[i] == '*' && t[i + 1] == '/') {
      if i > 0 { assert t[1..][..n][i - 1] == t[i] && t[1..][..n][i] == t[i + 1]; }
    }
  }

  lemma NoEndAtStart(t: string)
    requires |t| >= 2 && !(t[0] == '*' && t[1] == '/') && NoCommentEnd(t[1..])
    ensures NoCommentEnd(t)
  {
    forall i | 0 <= i < |t| - 1 ensures !(t[i] == '*' && t[i + 1] == '/') {
      if i > 0 { assert t[1..][i - 1] == t[i] && t[1..][i] == t[i + 1]; }
    }
  }

  function LineLength(t: string): (n: nat)
    ensures n <= |t| && '\n' !in t[..n] && '\r' !in t[..n] && (n < |t| ==> IsLineEnd(t[n]))
  {
    if t == [] || IsLineEnd(t[0]) then 0 else
    assert t[..1 + LineLength(t[1..])] == [t[0]] + t[1..][..LineLength(t[1..])];
    1 + LineLength(t[1..])
  }

  datatype Found = Got(p: Piece) | Ends(t: Tail)

  /** The first piece of an input, or the tail it is. */
  function FindPiece(t: string, prev: Option<char>): Found
    requires t != []
  {
    var c := t[0];
    if IsQuote(c) then
      match Scan(t[1..], c)
      case Closed(n) => if n >= |t| then Ends(NoTail) else Got(Quoted(c, t[1..1 + n]))
      case Unclosed(n, d) => if n >= |t| then Ends(NoTail) else Ends(OpenQuoted(c, t[1..1 + n], d))
    else if c == '`' then
      match Scan(t[1..], c)
      case Closed(n) => if n >= |t| then Ends(NoTail) else Got(Template(t[1..1 + n]))
      case Unclosed(n, d) => if n >= |t| then Ends(NoTail) else Ends(OpenTemplate(t[1..1 + n], d))
    else if c == '/' then FindSlash(t, prev)
    else if IsOpen(c) || IsClose(c) then Got(Bracket(c))
    else Got(Plain(c))
  }

  function FindSlash(t: string, prev: Option<char>): Found
    requires t != []
  {
    if Follows(t, '/') then
      var n := LineLength(t[2..]);
      if 2 + n < |t| then Got(Line(t[2..2 + n], t[2 + n])) else Ends(OpenLine(t[2..]))
    else if Follows(t, '*') then
      match CommentEnd(t[2..])
      case Some(n) => if 2 + n > |t| then Ends(NoTail) else Got(Block(t[2..2 + n]))
      case None => Ends(OpenBlock(t[2..]))
    else if CanStartRegex(prev) then
      match Scan(t[1..], '/')
      case Closed(n) =>
        if 2 + n > |t| then Ends(NoTail) else
        Got(RegExp(t[1..1 + n], t[2 + n..][..Letters(t[2 + n..])]))
      case Unclosed(n, d) => if n >= |t| then Ends(NoTail) else Ends(OpenRegExp(t[1..1 + n], d))
    else Got(Division)
  }

  ghost predicate FoundRight(f: Found, t: string, prev: Option<char>) {
    match f
    case Got(p) => |Text(p)| <= |t| && t == Text(p) + t[|Text(p)|..] && Proper(p, prev, t[|Text(p)|..])
    case Ends(tail) => !tail.NoTail? && TailText(tail) == t && ProperTail(tail, prev)
  }

  lemma {:induction false} LettersRight(t: string)
    ensures forall i :: 0 <= i < Letters(t) ==> IsLetter(t[i])
    ensures Letters(t) < |t| ==> !IsLetter(t[Letters(t)])
  {
    if t != [] && IsLetter(t[0]) { LettersRight(t[1..]); }
  }

  lemma FindPieceRight(t: string, prev: Option<char>)
    requires t != []
    ensures FoundRight(FindPiece(t, prev), t, prev)
  {
    hide Scan, Inside, IsWhitespace, CanStartRegex, FindSlash;
    if IsQuote(t[0]) || t[0] == '`' {
      ScanRight(t[1..], t[0]);
      var n := Scan(t[1..], t[0]).n;
      assert t[1..][..n] == t[1..1 + n];
      assert t[1..][n..] == t[1 + n..];
    } else if t[0] == '/' {
      FindSlashRight(t, prev);
    }
  }

  lemma FindSlashRight(t: string, prev: Option<char>)
    requires t != [] && t[0] == '/'
    ensures FoundRight(FindSlash(t, prev), t, prev)
  {
    hide Scan, Inside, IsWhitespace, CanStartRegex, CommentEnd, LineLength, Letters;
    if Follows(t, '/') {
      var n := LineLength(t[2..]);
      assert t[2..][..n] == t[2..2 + n];
    } else if Follows(t, '*') {
      BlockFound(t, prev);
    } else if CanStartRegex(prev) {
      RegExpFound(t, prev);
    }
  }

  lemma BlockFound(t: string, prev: Option<char>)
    requires Follows(t, '*') && t[0] == '/'
    ensures FoundRight(FindSlash(t, prev), t, prev)
  {
    hide CommentEnd, NoCommentEnd;
    CommentEndRight(t[2..]);
    if CommentEnd(t[2..]).Some? {
      var n := CommentEnd(t[2..]).value;
      assert t[2..][..n] == t[2..2 + n];
      assert t[2..][n..n + 2] == t[2 + n..4 + n];
    }
  }

  lemma RegExpFound(t: string, prev: Option<char>)
    requires t != [] && t[0] == '/' && !Follows(t, '/') && !Follows(t, '*') && CanStartRegex(prev)
    ensures FoundRight(FindSlash(t, prev), t, prev)
  {
    hide Scan, Inside, CanStartRegex, Letters, FoundRight, Text, Follows, Dangle, LineLength, CommentEnd;
    var u := t[1..];
    ScanRight(u, '/');
    match Scan(u, '/')
    case Closed(n) =>
      assert u[..n] == t[1..1 + n] && u[n] == t[1 + n];
      ClosedRegExp(t, n, prev);
    case Unclosed(n, dangling) =>
      assert u[..n] == t[1..1 + n] && u[n..] == t[1 + n..];
      OpenRegExpFound(t, n, dangling, prev);
  }

  lemma ClosedRegExp(t: string, n: nat, prev: Option<char>)
    requires n + 1 < |t| && t[0] == '/' && t[1 + n] == '/' && Inside(t[1..1 + n], '/')
    requires !Follows(t, '/') && !Follows(t, '*') && CanStartRegex(prev)
    ensures FoundRight(Got(RegExp(t[1..1 + n], t[2 + n..][..Letters(t[2 + n..])])), t, prev)
  {
    hide Inside, CanStartRegex, Letters, IsLetter, Follows;
    var body, rest := t[1..1 + n], t[2 + n..];
    LettersRight(rest);
    var k := Letters(rest);
    var p := RegExp(body, rest[..k]);
    RegExpSplit(t, n, k);
    assert RegExpProper(p, prev, rest[k..]) by { StartsProper(t, n); }
    assert t[|Text(p)|..] == rest[k..];
  }

  lemma StartsProper(t: string, n: nat)
    requires n + 1 < |t| && t[0] == '/' && t[1 + n] == '/' && !Follows(t, '/') && !Follows(t, '*')
    ensures t[1..1 + n] != [] && t[1..1 + n][0] != '*'
  {
  }

  predicate RegExpProper(p: Piece, prev: Option<char>, rest: string) {
    p.RegExp? && Proper(p, prev, rest)
  }

  lemma RegExpSplit(t: string, n: nat, k: nat)
    requires n + 1 < |t| && t[0] == '/' && t[1 + n] == '/' && n + 2 + k <= |t|
    ensures t == "/" + t[1..1 + n] + "/" + t[2 + n..][..k] + t[2 + n..][k..]
    ensures t[n + 2 + k..] == t[2 + n..][k..]
  {
    var rest := t[2 + n..];
    assert rest == rest[..k] + rest[k..];
    assert t == ("/" + t[1..1 + n] + "/") + rest;
  }

  lemma OpenRegExpFound(t: string, n: nat, dangling: bool, prev: Option<char>)
    requires n + 1 <= |t| && t[0] == '/' && Inside(t[1..1 + n], '/') && t[1 + n..] == Dangle(dangling)
    requires !Follows(t, '*') && CanStartRegex(prev)
    ensures FoundRight(Ends(OpenRegExp(t[1..1 + n], dangling)), t, prev)
  {
    hide Inside, CanStartRegex, Dangle;
    assert t == [t[0]] + (t[1..1 + n] + t[1 + n..]);
  }

  /** Any input as pieces and a tail. */
  function Pieces(t: string, prev: Option<char>): (seq<Piece>, Tail)
    decreases |t|
  {
    if t == [] then ([], NoTail) else
    FindPieceRight(t, prev);
    match FindPiece(t, prev)
    case Ends(tail) => ([], tail)
    case Got(p) =>
      var rest := Pieces(t[|Text(p)|..], PrevAfter(p, prev));
      ([p] + rest.0, rest.1)
  }

  lemma {:induction false} PiecesRight(t: string, prev: Option<char>)
    ensures var (ps, tail) := Pieces(t, prev);
      && TextAll(ps) + TailText(tail) == t
      && AllProper(ps, prev, TailText(tail)) && ProperTail(tail, PrevAfterAll(ps, prev))
    decreases |t|
  {
    hide FindPiece, Text, TailText, Proper, ProperTail, PrevAfter;
    if t == [] {
      Nothing(prev);
    } else {
      FindPieceRight(t, prev);
      match FindPiece(t, prev)
      case Ends(tail) => assert TextAll([]) + TailText(tail) == t;
      case Got(p) =>
        PiecesRight(t[|Text(p)|..], PrevAfter(p, prev));
        var (ps, tail) := Pieces(t[|Text(p)|..], PrevAfter(p, prev));
        assert ([p] + ps)[1..] == ps;
        assert Text(p) + TextAll(ps) + TailText(tail) == Text(p) + (TextAll(ps) + TailText(tail));
    }
  }

  lemma Nothing(prev: Option<char>)
    ensures TailText(NoTail) == [] && ProperTail(NoTail, prev)
  {
  }

  /** The brackets of an input as the test reads it: those outside strings, comments and regular expressions, where
      in templates each substitution opens a brace and each bare closing brace closes one. */
  function BracketsOf(src: string): seq<char> {
    var (ps, tail) := Pieces(src, None);
    Brackets(ps) + TailBrackets(tail)
  }

  /** For every input, more is asked for exactly when its brackets can be balanced by adding to them, and they are
      not balanced yet or the input ends inside a string, template, block comment or regular expression. */
  lemma AsksForMoreIff(src: string)
    ensures !Run(src, START) <==>
      CanBeBalanced(BracketsOf(src)) && (IsOpenTail(Pieces(src, None).1) || !Balanced(BracketsOf(src)))
  {
    hide Run, Pieces, AllProper, ProperTail, Balanced, CanBeBalanced, TailText;
    PiecesRight(src, None);
    var (ps, tail) := Pieces(src, None);
    VerdictOnPieces(ps, tail);
  }
}
