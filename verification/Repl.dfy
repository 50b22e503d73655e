/** The completeness test of the read-eval-print loop: one pass over the characters with mode flags and a stack of
    expected closing brackets. */
module Repl {
  import opened Prelude

  datatype Mode = Code | Single | Double | Backtick | LineComment | BlockComment | Regex

  datatype State = State(mode: Mode, escape: bool, stack: seq<char>, prev: Option<char>)

  /** One turn of the loop: a verdict, or a new state after that many characters. */
  datatype Turn = Complete | Next(st: State, width: nat)

  const START := State(Code, false, [], None)

  /** char::is_whitespace. */
  predicate IsWhitespace(c: char) {
    var p := c as int;
    9 <= p <= 13 || p == 0x20 || p == 0x85 || p == 0xa0 || p == 0x1680 || 0x2000 <= p <= 0x200a
    || p == 0x2028 || p == 0x2029 || p == 0x202f || p == 0x205f || p == 0x3000
  }

  predicate IsLetter(c: char) { 'a' <= c <= 'z' || 'A' <= c <= 'Z' }

  function Letters(t: string): (n: nat)
    ensures n <= |t|
  {
    if t == [] || !IsLetter(t[0]) then 0 else 1 + Letters(t[1..])
  }

  predicate CanStartRegex(prev: Option<char>) {
    prev.None? || prev.value in ['(', ',', '=', ':', '[', '!', '?', '{', '}', ';', '\n', '\r', '\t', ' ']
  }

  predicate IsOpen(c: char) { c == '(' || c == '[' || c == '{' }

  predicate IsClose(c: char) { c == ')' || c == ']' || c == '}' }

  function Closer(c: char): char {
    if c == '(' then ')' else if c == '[' then ']' else '}'
  }

  predicate Follows(t: string, c: char) {
    |t| > 1 && t[1] == c
  }

  /** A closing bracket against the stack: None when it does not match, and the input counts as complete. */
  function Pop(stack: seq<char>, c: char): Option<seq<char>> {
    if stack == [] || stack[|stack| - 1] != c then None else Some(stack[..|stack| - 1])
  }

  function QuotedTurn(st: State, c: char, quote: char): Turn {
    if c == '\\' then Next(st.(escape := true), 1)
    else Next(st.(mode := if c == quote then Code else st.mode, prev := Some(c)), 1)
  }

  function BacktickTurn(st: State, t: string): Turn
    requires t != []
  {
    var c := t[0];
    if c == '\\' then Next(st.(escape := true), 1)
    else if c == '`' then Next(st.(mode := Code, prev := Some('`')), 1)
    else if c == '$' && Follows(t, '{') then Next(st.(stack := st.stack + ['}'], prev := Some('{')), 2)
    else if c == '}' then
      match Pop(st.stack, '}')
      case None => Complete
      case Some(rest) => Next(st.(stack := rest, prev := Some('}')), 1)
    else Next(st.(prev := Some(c)), 1)
  }

  function CodeTurn(st: State, t: string): Turn
    requires t != []
  {
    var c := t[0];
    var after := if IsWhitespace(c) then st else st.(prev := Some(c));
    if c == '\'' then Next(after.(mode := Single), 1)
    else if c == '\"' then Next(after.(mode := Double), 1)
    else if c == '`' then Next(after.(mode := Backtick), 1)
    else if c == '/' then
      if Follows(t, '/') then Next(st.(mode := LineComment, prev := Some('/')), 2)
      else if Follows(t, '*') then Next(st.(mode := BlockComment, prev := Some('/')), 2)
      else if CanStartRegex(st.prev) then Next(st.(mode := Regex, prev := Some('/')), 1)
      else Next(after, 1)
    else if IsOpen(c) then Next(after.(stack := st.stack + [Closer(c)]), 1)
    else if IsClose(c) then
      match Pop(st.stack, c)
      case None => Complete
      case Some(rest) => Next(after.(stack := rest), 1)
    else Next(after, 1)
  }

  function TurnAt(st: State, t: string): Turn
    requires t != []
  {
    var c := t[0];
    if st.escape then Next(st.(escape := false), 1) else
    match st.mode
    case LineComment => Next(st.(mode := if c == '\n' || c == '\r' then Code else LineComment, prev := Some(c)), 1)
    case BlockComment =>
      if c == '*' && Follows(t, '/') then Next(st.(mode := Code, prev := Some('/')), 2) else Next(st.(prev := Some(c)), 1)
    case Regex =>
      if c == '\\' then Next(st.(escape := true), 1)
      else if c == '/' then Next(st.(mode := Code, prev := Some(c)), 1 + Letters(t[1..]))
      else Next(st.(prev := Some(c)), 1)
    case Single => QuotedTurn(st, c, '\'')
    case Double => QuotedTurn(st, c, '\"')
    case Backtick => BacktickTurn(st, t)
    case Code => CodeTurn(st, t)
  }

  predicate Accepts(st: State) {
    (st.mode == Code || st.mode == LineComment) && st.stack == []
  }

  /** The verdict on the rest of the input. */
  function Run(t: string, st: State): bool
    decreases |t|
  {
    if t == [] then Accepts(st) else
    match TurnAt(st, t)
    case Complete => true
    case Next(after, width) => Run(t[width..], after)
  }

  // ----- the loop with its flags -----

  method IsCompleteInput(src: string) returns (complete: bool)
    ensures complete == Run(src, START)
  {
    hide Run, CodeTurn, Letters;
    var stack: seq<char> := [];
    var inSingle, inDouble, inBacktick, inLineComment, inBlockComment, inRegex, escape := false, false, false, false, false, false, false;
    var prev: Option<char> := None;
    var i := 0;
    ghost var mode := Code;
    assert src[0..] == src;
    while i < |src|
      invariant 0 <= i <= |src|
      invariant inSingle == (mode == Single) && inDouble == (mode == Double) && inBacktick == (mode == Backtick)
      invariant inLineComment == (mode == LineComment) && inBlockComment == (mode == BlockComment) && inRegex == (mode == Regex)
      invariant Run(src, START) == Run(src[i..], State(mode, escape, stack, prev))
    {
      var ch := src[i];
      ghost var t, st := src[i..], State(mode, escape, stack, prev);
      RunTurn(t, st);
      i := i + 1;
      assert t[1..] == src[i..];
      assert |t| > 1 ==> t[1] == src[i];
      if escape {
        escape := false;
      } else if inLineComment {
        if ch == '\n' || ch == '\r' { inLineComment := false; }
        prev := Some(ch);
      } else if inBlockComment {
        if ch == '*' && i < |src| && src[i] == '/' {
          i := i + 1;
          inBlockComment := false;
          prev := Some('/');
        } else {
          prev := Some(ch);
        }
      } else if inRegex {
        if ch == '\\' {
          escape := true;
        } else {
          if ch == '/' {
            inRegex := false;
            i := SkipLetters(src, i);
          }
          prev := Some(ch);
        }
      } else if inSingle {
        if ch == '\\' { escape := true; } else {
          if ch == '\'' { inSingle := false; }
          prev := Some(ch);
        }
      } else if inDouble {
        if ch == '\\' { escape := true; } else {
          if ch == '\"' { inDouble := false; }
          prev := Some(ch);
        }
      } else if inBacktick {
        if ch == '\\' {
          escape := true;
        } else if ch == '`' {
          inBacktick := false;
          prev := Some('`');
        } else if ch == '$' && i < |src| && src[i] == '{' {
          i := i + 1;
          stack := stack + ['}'];
          prev := Some('{');
        } else if ch == '}' {
          if stack == [] || stack[|stack| - 1] != '}' { return true; }
          stack := stack[..|stack| - 1];
          prev := Some('}');
        } else {
          prev := Some(ch);
        }
      } else {
        var entered: Mode, done: bool;
        done, entered, i, stack, prev := InCode(src, i, stack, prev);
        if done { return true; }
        inSingle, inDouble, inBacktick := entered == Single, entered == Double, entered == Backtick;
        inLineComment, inBlockComment, inRegex := entered == LineComment, entered == BlockComment, entered == Regex;
      }
      mode := if inSingle then Single else if inDouble then Double else if inBacktick then Backtick
              else if inLineComment then LineComment else if inBlockComment then BlockComment
              else if inRegex then Regex else Code;
      assert TurnAt(st, t) == Next(State(mode, escape, stack, prev), i - (|src| - |t|));
      assert t[i - (|src| - |t|)..] == src[i..];
    }
    AtEnd(State(mode, escape, stack, prev));
    assert src[i..] == [];
    return !inSingle && !inDouble && !inBacktick && !inBlockComment && !inRegex && stack == [];
  }

  /** Outside strings, comments and regular expressions: src[i - 1] is the character just taken. */
  method InCode(src: string, i: nat, stack: seq<char>, prev: Option<char>)
    returns (done: bool, entered: Mode, next: nat, left: seq<char>, last: Option<char>)
    requires 0 < i <= |src|
    ensures i <= next <= |src|
    ensures CodeTurn(State(Code, false, stack, prev), src[i - 1..])
         == if done then Complete else Next(State(entered, false, left, last), next - i + 1)
  {
    hide IsWhitespace, CanStartRegex;
    var ch := src[i - 1];
    done, entered, next, left, last := false, Code, i, stack, prev;
    if ch == '/' && i < |src| && src[i] == '/' { return false, LineComment, i + 1, stack, Some('/'); }
    if ch == '/' && i < |src| && src[i] == '*' { return false, BlockComment, i + 1, stack, Some('/'); }
    if ch == '/' && CanStartRegex(prev) { return false, Regex, i, stack, Some('/'); }
    if ch == '\'' { entered := Single; }
    else if ch == '\"' { entered := Double; }
    else if ch == '`' { entered := Backtick; }
    else if IsOpen(ch) { left := stack + [Closer(ch)]; }
    else if IsClose(ch) {
      if stack == [] || stack[|stack| - 1] != ch { done := true; return; }
      left := stack[..|stack| - 1];
    }
    if !IsWhitespace(ch) { last := Some(ch); }
  }

  lemma RunTurn(t: string, st: State)
    requires t != []
    ensures TurnAt(st, t).Next? ==> TurnAt(st, t).width <= |t| && Run(t, st) == Run(t[TurnAt(st, t).width..], TurnAt(st, t).st)
    ensures TurnAt(st, t).Complete? ==> Run(t, st)
  {
  }

  lemma AtEnd(st: State)
    ensures Run([], st) == Accepts(st)
  {
  }

  method SkipLetters(src: string, from: nat) returns (i: nat)
    requires from <= |src|
    ensures from <= i <= |src| && i - from == Letters(src[from..])
  {
    i := from;
    while i < |src| && IsLetter(src[i])
      invariant from <= i <= |src|
      invariant Letters(src[from..]) == i - from + Letters(src[i..])
    {
      assert src[i..][1..] == src[i + 1..];
      i := i + 1;
    }
  }
}
