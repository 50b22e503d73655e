/** What a slash begins: a division after what can end an expression, else a regular expression literal. */
module Slashes {
  import opened Prelude
  import opened Unicode
  import opened Lexemes
  import opened BracketMatch

  // ----- after which tokens a slash divides -----

  /** The last token before an index that is no line end. */
  function PrevIndex(ts: seq<Token>, before: nat): (r: Option<nat>)
    requires before <= |ts|
    ensures r.Some? ==> r.value < before
  {
    if before == 0 then None
    else if !ts[before - 1].LineTerminator? then Some(before - 1)
    else PrevIndex(ts, before - 1)
  }

  const LPAREN := Punct("(")
  const RPAREN := Punct(")")
  const LBRACE := Punct("{")
  const RBRACE := Punct("}")

  predicate IsHeaderWord(t: Token) {
    t.Keyword? && t.word in ["with", "if", "for", "while", "switch", "catch"]
  }

  /** The parenthesis closes the head of a statement. */
  predicate ClosesHeader(ts: seq<Token>, rparen: nat)
    requires rparen < |ts|
  {
    var lparen := MatchingOpen(ts, rparen, rparen + 1, LPAREN, RPAREN);
    lparen.Some? &&
    var before := PrevIndex(ts, lparen.value);
    before.Some? && IsHeaderWord(ts[before.value])
  }

  predicate IsFunctionWord(t: Token) {
    t.Keyword? && t.word in ["function", "function*"]
  }

  predicate IsAssignment(t: Token) {
    t.Punct? && t.sign in
      ["=", "+=", "-=", "*=", "/=", "%=", "**=", "&&=", "||=", "??=", "&=", "|=", "^=", "<<=", ">>=", ">>>="]
  }

  predicate PrecedesFunctionExpression(t: Token) {
    || IsAssignment(t)
    || (t.Keyword? && t.word in
        ["return", "throw", "yield", "yield*", "case", "new", "delete", "void", "typeof", "instanceof", "in"])
    || (t.Punct? && t.sign in
        ["=>", ",", ":", "?", "(", "[", "{", "==", "===", "!=", "!==", "<", ">", "<=", ">=", "&&", "||", "??", "&", "|",
         "^", "+", "-", "*", "/", "%", "**"])
  }

  /** The parenthesis closes the parameters of a function expression, named or not. */
  predicate ClosesFunctionExpression(ts: seq<Token>, rparen: nat)
    requires rparen < |ts|
  {
    var lparen := MatchingOpen(ts, rparen, rparen + 1, LPAREN, RPAREN);
    lparen.Some? &&
    var before := PrevIndex(ts, lparen.value);
    before.Some? &&
    var word := if ts[before.value].Identifier? then PrevIndex(ts, before.value) else before;
    word.Some? && IsFunctionWord(ts[word.value]) &&
    var outside := PrevIndex(ts, word.value);
    outside.Some? && PrecedesFunctionExpression(ts[outside.value])
  }

  predicate PrecedesObject(t: Token) {
    || IsAssignment(t)
    || (t.Keyword? && t.word in ["return", "throw", "case"])
    || (t.Punct? && t.sign in ["=>", ",", ":", "?", "(", "[", "==", "===", "!=", "!=="])
  }

  predicate BraceEndsExpression(ts: seq<Token>, rbrace: nat)
    requires rbrace < |ts|
  {
    var lbrace := MatchingOpen(ts, rbrace, rbrace + 1, LBRACE, RBRACE);
    if lbrace.None? then true else
    var before := PrevIndex(ts, lbrace.value);
    before.Some? &&
    if ts[before.value] == RPAREN then
      !ClosesHeader(ts, before.value) && ClosesFunctionExpression(ts, before.value)
    else PrecedesObject(ts[before.value])
  }

  predicate EndsOperand(t: Token) {
    t.Number? || t.BigInt? || t.StringLit? || t.Identifier? || t.PrivateIdentifier?
    || (t.Punct? && t.sign in ["]", "++", "--"])
    || (t.Keyword? && t.word in ["true", "false", "null", "this"])
  }

  /** A slash after these tokens divides. */
  predicate Divides(ts: seq<Token>) {
    var last := PrevIndex(ts, |ts|);
    last.Some? &&
    var t := ts[last.value];
    if t == RPAREN then !ClosesHeader(ts, last.value)
    else if t == RBRACE then BraceEndsExpression(ts, last.value)
    else EndsOperand(t)
  }

  method FindPrev(ts: seq<Token>, before: nat) returns (r: Option<nat>)
    requires before <= |ts|
    ensures r == PrevIndex(ts, before)
  {
    var i := before;
    while i > 0
      invariant 0 <= i <= before && PrevIndex(ts, before) == PrevIndex(ts, i)
    {
      i := i - 1;
      if !ts[i].LineTerminator? { return Some(i); }
    }
    return None;
  }

  method FindClosesHeader(ts: seq<Token>, rparen: nat) returns (r: bool)
    requires rparen < |ts|
    ensures r == ClosesHeader(ts, rparen)
  {
    hide MatchingOpen, PrevIndex, IsHeaderWord, IsGreatest;
    var lparen := FindMatchingOpenIndex(ts, rparen, LPAREN, RPAREN);
    if lparen.None? { return false; }
    var before := FindPrev(ts, lparen.value);
    if before.None? { return false; }
    return IsHeaderWord(ts[before.value]);
  }

  method FindClosesFunctionExpression(ts: seq<Token>, rparen: nat) returns (r: bool)
    requires rparen < |ts|
    ensures r == ClosesFunctionExpression(ts, rparen)
  {
    hide MatchingOpen, PrevIndex, IsFunctionWord, PrecedesFunctionExpression, IsGreatest;
    var lparen := FindMatchingOpenIndex(ts, rparen, LPAREN, RPAREN);
    if lparen.None? { return false; }
    var before := FindPrev(ts, lparen.value);
    if before.None? { return false; }
    var word := before.value;
    if ts[word].Identifier? {
      var earlier := FindPrev(ts, word);
      if earlier.None? { return false; }
      word := earlier.value;
    }
    if !IsFunctionWord(ts[word]) { return false; }
    var outside := FindPrev(ts, word);
    if outside.None? { return false; }
    return PrecedesFunctionExpression(ts[outside.value]);
  }

  method FindBraceEndsExpression(ts: seq<Token>, rbrace: nat) returns (r: bool)
    requires rbrace < |ts|
    ensures r == BraceEndsExpression(ts, rbrace)
  {
    hide MatchingOpen, PrevIndex, PrecedesObject, ClosesHeader, ClosesFunctionExpression, IsGreatest;
    var lbrace := FindMatchingOpenIndex(ts, rbrace, LBRACE, RBRACE);
    if lbrace.None? { return true; }
    var before := FindPrev(ts, lbrace.value);
    if before.None? { return false; }
    if ts[before.value] == RPAREN {
      var header := FindClosesHeader(ts, before.value);
      if header { return false; }
      r := FindClosesFunctionExpression(ts, before.value);
    } else {
      r := PrecedesObject(ts[before.value]);
    }
  }

  method FindDivides(ts: seq<Token>) returns (r: bool)
    ensures r == Divides(ts)
  {
    hide PrevIndex, BraceEndsExpression, ClosesHeader, EndsOperand;
    var last := FindPrev(ts, |ts|);
    if last.None? { return false; }
    var t := ts[last.value];
    if t == RPAREN {
      r := FindClosesHeader(ts, last.value);
      r := !r;
    } else if t == RBRACE {
      r := FindBraceEndsExpression(ts, last.value);
    } else {
      r := EndsOperand(t);
    }
  }

  // ----- regular expression literals -----

  /** After the opening slash, or inside a class: how far the closing slash is. */
  function PatternLength(t: string, inClass: bool): (r: Option<nat>)
    ensures r.Some? ==> r.value < |t| && t[r.value] == '/'
  {
    if t == [] || IsLineEnd(t[0]) then None
    else if t[0] == '\\' then
      if |t| < 2 || IsLineEnd(t[1]) then None else More(PatternLength(t[2..], inClass), 2)
    else if !inClass && t[0] == '/' then Some(0)
    else More(PatternLength(t[1..], t[0] == '[' || (inClass && t[0] != ']')), 1)
  }

  function More(n: Option<nat>, k: nat): Option<nat> {
    if n.None? then None else Some(n.value + k)
  }

  function FlagsLength(t: string, tables: Tables): (n: nat)
    ensures n <= |t|
  {
    if t == [] || !IsAlphabetic(t[0], tables) then 0 else 1 + FlagsLength(t[1..], tables)
  }

  predicate IsFlag(c: char) {
    c == 'd' || c == 'g' || c == 'i' || c == 'm' || c == 's' || c == 'u' || c == 'v' || c == 'y'
  }

  /** Known flags, none twice, and not both u and v. */
  predicate FlagsOk(flags: string) {
    && (forall i :: 0 <= i < |flags| ==> IsFlag(flags[i]))
    && (forall i, j :: 0 <= i < j < |flags| ==> flags[i] != flags[j])
    && !('u' in flags && 'v' in flags)
  }

  /** The flags that the regular expression library is asked about: all but the one for indices. */
  function AskedFlags(flags: string): string {
    if flags == [] then [] else (if flags[0] == 'd' then [] else [flags[0]]) + AskedFlags(flags[1..])
  }

  function RegexAt(t: string, tables: Tables): (r: Option<(Token, nat)>)
    requires t != [] && t[0] == '/'
    ensures r.Some? ==> 0 < r.value.1 <= |t|
  {
    match PatternLength(t[1..], false)
    case None => None
    case Some(n) =>
      var k := FlagsLength(t[2 + n..], tables);
      var pattern, flags := t[1..1 + n], t[2 + n..2 + n + k];
      if !FlagsOk(flags) || !tables.regexOk(pattern, AskedFlags(flags)) then None
      else Some((Regex(pattern, flags), 2 + n + k))
  }

  /** A slash that begins no comment. */
  function SlashAt(ts: seq<Token>, t: string, tables: Tables): (r: Option<(Token, nat)>)
    requires t != [] && t[0] == '/'
    ensures r.Some? ==> 0 < r.value.1 <= |t|
  {
    if !Divides(ts) then RegexAt(t, tables)
    else if |t| > 1 && t[1] == '=' then Some((Punct("/="), 2))
    else Some((Punct("/"), 1))
  }

  lemma PatternTurn(t: string, inClass: bool)
    requires t != [] && !IsLineEnd(t[0])
    ensures t[0] == '\\' && (|t| < 2 || IsLineEnd(t[1])) ==> PatternLength(t, inClass).None?
    ensures t[0] == '\\' && |t| > 1 && !IsLineEnd(t[1]) ==> PatternLength(t, inClass) == More(PatternLength(t[2..], inClass), 2)
    ensures t[0] == '/' && !inClass ==> PatternLength(t, inClass) == Some(0)
    ensures t[0] != '\\' && (inClass || t[0] != '/') ==>
      PatternLength(t, inClass) == More(PatternLength(t[1..], t[0] == '[' || (inClass && t[0] != ']')), 1)
  {
    hide IsLineEnd;
  }

  lemma NoEnd(t: string, inClass: bool)
    requires t == [] || IsLineEnd(t[0])
    ensures PatternLength(t, inClass).None?
  {
  }

  method FindPatternEnd(s: string, from: nat) returns (j: nat, ok: bool)
    requires from <= |s|
    ensures from <= j <= |s|
    ensures PatternLength(s[from..], false) == if ok then Some(j - from) else None
  {
    hide IsLineEnd, PatternLength;
    j := from;
    var inClass := false;
    while j < |s|
      invariant from <= j <= |s|
      invariant PatternLength(s[from..], false) == More(PatternLength(s[j..], inClass), j - from)
    {
      ghost var t, was := s[j..], inClass;
      assert t[1..] == s[j + 1..];
      if IsLineEnd(s[j]) {
        NoEnd(t, inClass);
        return j, false;
      }
      PatternTurn(t, inClass);
      if s[j] == '\\' {
        if j + 1 >= |s| || IsLineEnd(s[j + 1]) { return j, false; }
        assert t[2..] == s[j + 2..];
        j := j + 2;
        continue;
      }
      if !inClass && s[j] == '/' { return j, true; }
      if s[j] == '[' { inClass := true; } else if s[j] == ']' { inClass := false; }
      assert inClass == (s[j] == '[' || (was && s[j] != ']'));
      j := j + 1;
    }
    NoEnd(s[j..], inClass);
    return j, false;
  }

  method FindFlagsEnd(s: string, from: nat, tables: Tables) returns (j: nat)
    requires from <= |s|
    ensures from <= j <= |s| && FlagsLength(s[from..], tables) == j - from
  {
    hide IsAlphabetic;
    j := from;
    while j < |s| && IsAlphabetic(s[j], tables)
      invariant from <= j <= |s|
      invariant FlagsLength(s[from..], tables) == j - from + FlagsLength(s[j..], tables)
    {
      assert s[j..][1..] == s[j + 1..];
      j := j + 1;
    }
  }

  /** Flags are tested one by one against those seen before. */
  method CheckFlags(flags: string) returns (ok: bool)
    ensures ok == FlagsOk(flags)
  {
    hide IsFlag;
    var seen: set<char> := {};
    for i := 0 to |flags|
      invariant forall k :: 0 <= k < i ==> IsFlag(flags[k])
      invariant forall k, l :: 0 <= k < l < i ==> flags[k] != flags[l]
      invariant forall c :: c in seen <==> c in flags[..i]
    {
      if !IsFlag(flags[i]) || flags[i] in seen { return false; }
      assert forall k :: 0 <= k < i ==> flags[k] in flags[..i];
      seen := seen + {flags[i]};
    }
    return !('u' in flags && 'v' in flags);
  }

  method ReadSlash(s: string, i: nat, ts: seq<Token>, tables: Tables) returns (r: Option<(Token, nat)>)
    requires i < |s| && s[i] == '/'
    ensures r == SlashAt(ts, s[i..], tables)
  {
    hide PatternLength, FlagsLength, FlagsOk, Divides, AskedFlags;
    var divides := FindDivides(ts);
    ghost var t := s[i..];
    if divides {
      if i + 1 < |s| && s[i + 1] == '=' { return Some((Punct("/="), 2)); }
      return Some((Punct("/"), 1));
    }
    var j, ok := FindPatternEnd(s, i + 1);
    assert t[1..] == s[i + 1..];
    if !ok { return None; }
    var end := FindFlagsEnd(s, j + 1, tables);
    assert t[j + 1 - i..] == s[j + 1..];
    var pattern, flags := s[i + 1..j], s[j + 1..end];
    assert t[1..j - i] == pattern && t[j + 1 - i..end - i] == flags;
    ok := CheckFlags(flags);
    if !ok || !tables.regexOk(pattern, AskedFlags(flags)) { return None; }
    return Some((Regex(pattern, flags), end - i));
  }
}
