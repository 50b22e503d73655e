/** Punctuators other than slashes: the branches of the tokenizer, which take the longest one. */
module Punctuators {
  import opened Prelude
  import opened Unicode
  import opened Lexemes

  predicate Second(t: string, c: char) { |t| > 1 && t[1] == c }

  predicate Third(t: string, c: char) { |t| > 2 && t[2] == c }

  predicate Fourth(t: string, c: char) { |t| > 3 && t[3] == c }

  predicate IsSingle(c: char) {
    c == '(' || c == ')' || c == '[' || c == ']' || c == '{' || c == '}' || c == ':' || c == ',' || c == ';' || c == '~'
  }

  /** The length of the punctuator that a text begins with; None when it begins with no such character. */
  function SignLength(t: string): (n: Option<nat>)
    requires t != []
    ensures n.Some? ==> 0 < n.value <= |t|
  {
    match t[0]
    case '+' => Some(if Second(t, '+') || Second(t, '=') then 2 else 1)
    case '-' => Some(if Second(t, '-') || Second(t, '=') then 2 else 1)
    case '*' => Some(if Second(t, '*') && Third(t, '=') then 3 else if Second(t, '*') || Second(t, '=') then 2 else 1)
    case '%' => Some(if Second(t, '=') then 2 else 1)
    case '.' => Some(if Second(t, '.') && Third(t, '.') then 3 else 1)
    case '?' => Some(
      if Second(t, '?') && Third(t, '=') then 3
      else if Second(t, '?') then 2
      else if Second(t, '.') then if |t| > 2 && IsDigit(t[2]) then 1 else 2
      else 1)
    case '!' => Some(if Second(t, '=') && Third(t, '=') then 3 else if Second(t, '=') then 2 else 1)
    case '=' => Some(if Second(t, '=') then if Third(t, '=') then 3 else 2 else if Second(t, '>') then 2 else 1)
    case '<' => Some(
      if Second(t, '=') then 2
      else if Second(t, '<') && Third(t, '=') then 3
      else if Second(t, '<') then 2
      else 1)
    case '>' => Some(
      if Second(t, '=') then 2
      else if Second(t, '>') && Third(t, '>') && Fourth(t, '=') then 4
      else if Second(t, '>') && Third(t, '>') then 3
      else if Second(t, '>') && Third(t, '=') then 3
      else if Second(t, '>') then 2
      else 1)
    case '&' => Some(
      if Second(t, '&') && Third(t, '=') then 3 else if Second(t, '&') || Second(t, '=') then 2 else 1)
    case '|' => Some(
      if Second(t, '|') && Third(t, '=') then 3 else if Second(t, '|') || Second(t, '=') then 2 else 1)
    case '^' => Some(if Second(t, '=') then 2 else 1)
    case c => if IsSingle(c) then Some(1) else None
  }

  // ----- the punctuators of the language -----

  predicate IsOperator(c: char) {
    c == '+' || c == '-' || c == '*' || c == '%' || c == '<' || c == '>' || c == '&' || c == '|' || c == '^' || c == '!'
    || c == '='
  }

  /** Section 12.8 of ECMA-262, those with a slash left out. */
  predicate IsPunctuator(p: string) {
    match |p|
    case 1 => IsOperator(p[0]) || p[0] in ['(', ')', '[', ']', '{', '}', '.', ';', ',', '?', ':', '~']
    case 2 =>
      (IsOperator(p[0]) && p[1] == '=')
      || p == "++" || p == "--" || p == "**" || p == "<<" || p == ">>" || p == "&&" || p == "||" || p == "??" || p == "?." || p == "=>"
    case 3 =>
      p == "..." || p == "===" || p == "!==" || p == "**=" || p == "<<=" || p == ">>=" || p == ">>>" || p == "&&=" || p == "||=" || p == "??="
    case 4 => p == ">>>="
    case _ => false
  }

  /** An optional chain is not one before a digit. */
  predicate StandsAt(p: string, t: string) {
    IsPunctuator(p) && Begins(t, p) && (p == "?." && |t| > 2 ==> !IsDigit(t[2]))
  }

  /** What is taken is a punctuator that stands there, and the longest one. */
  lemma LongestSign(t: string)
    requires t != []
    ensures SignLength(t).Some? ==> StandsAt(t[..SignLength(t).value], t)
    ensures SignLength(t).None? ==> !IsPunctuator(t[..1])
    ensures forall p :: StandsAt(p, t) ==> SignLength(t).Some? && |p| <= SignLength(t).value
  {
    forall p | StandsAt(p, t) ensures SignLength(t).Some? && |p| <= SignLength(t).value {
      NoLonger(p, t);
    }
    TakenStands(t);
  }

  lemma TakenStands(t: string)
    requires t != []
    ensures SignLength(t).Some? ==> StandsAt(t[..SignLength(t).value], t)
    ensures SignLength(t).None? ==> !IsPunctuator(t[..1])
  {
    var n := if SignLength(t).Some? then SignLength(t).value else 1;
    var p := t[..n];
    assert forall i :: 0 <= i < n ==> p[i] == t[i];
  }

  lemma NoLonger(p: string, t: string)
    requires t != [] && StandsAt(p, t)
    ensures SignLength(t).Some? && |p| <= SignLength(t).value
  {
    assert forall i :: 0 <= i < |p| ==> p[i] == t[i];
  }
}
