/** Identifiers, private names and keywords: the branch that reads them, the grammar of what it accepts, and where
    that strays from the language. */
module Names {
  import opened Prelude
  import opened Unicode
  import opened Lexemes
  import S = StringLiterals

  predicate BeginsName(t: string, tables: Tables) {
    t != [] && (t[0] == '#' || t[0] == '_' || t[0] == '$' || IsIdStart(t[0], tables) || t[0] == '\\')
  }

  /** A character that goes on a name. */
  predicate IsPart(c: char, tables: Tables) {
    IsIdContinue(c, tables) || (!IsAscii(c) && tables.otherContinue(c)) || c == '_' || c == '$' || c == '#'
  }

  predicate CanStart(c: char, tables: Tables) {
    IsIdStart(c, tables) || c == '_' || c == '$'
  }

  /** An escaped character may stand after that much of a name. */
  predicate Allowed(c: char, name: string, tables: Tables) {
    if name == "" || name == "#" then CanStart(c, tables)
    else IsIdContinue(c, tables) || c == '_' || c == '$' || c == '\U{200c}' || c == '\U{200d}'
  }

  /** The character of some digits, if they are one. */
  function FromHex(hex: string): Option<char> {
    match Radix16(hex, U32)
    case None => None
    case Some(cp) => if cp < 0xd800 || 0xe000 <= cp <= MAX_CODE_POINT then Some(cp as char) else None
  }

  /** After a backslash and a u: the character and the length of its digits and braces. */
  function EscapedChar(t: string): (r: Option<(char, nat)>)
    ensures r.Some? ==> 0 < r.value.1 <= |t|
  {
    if t != [] && t[0] == '{' then
      var n := S.Find(t[1..], '}');
      if 1 + n >= |t| || n == 0 then None else
      match FromHex(t[1..1 + n])
      case None => None
      case Some(c) => Some((c, n + 2))
    else if |t| < 4 || !AllHex(t[..4]) then None
    else
      match FromHex(t[..4])
      case None => None
      case Some(c) => Some((c, 4))
  }

  /** What the loop has when it ends: the name, whether it met a backslash, and how many characters it took. */
  datatype Taken = Taken(name: string, escaped: bool, width: nat)

  function Further(r: Option<Taken>, escaped: bool, width: nat): Option<Taken> {
    if r.None? then None else Some(Taken(r.value.name, r.value.escaped || escaped, r.value.width + width))
  }

  function Take(t: string, name: string, tables: Tables): (r: Option<Taken>)
    ensures r.Some? ==> r.value.width <= |t| && |r.value.name| - |name| <= r.value.width
    decreases |t|
  {
    if t == [] then Some(Taken(name, false, 0))
    else if t[0] == '\\' then
      if |t| > 1 && t[1] == 'u' then
        match EscapedChar(t[2..])
        case None => None
        case Some((c, n)) =>
          if Allowed(c, name, tables) then Further(Take(t[2 + n..], name + [c], tables), true, 2 + n) else None
      else Some(Taken(name, true, 0))
    else if IsPart(t[0], tables) then Further(Take(t[1..], name + [t[0]], tables), false, 1)
    else Some(Taken(name, false, 0))
  }

  const KEYWORDS := [
    "let", "var", "const", "class", "extends", "super", "this", "static", "new", "instanceof", "typeof", "delete", "void",
    "in", "as", "import", "export", "try", "catch", "finally", "throw", "debugger", "with", "enum", "function", "return",
    "if", "else", "for", "while", "do", "switch", "case", "default", "break", "continue", "true", "false", "null", "async",
    "await", "yield"]

  /** The token of a name, and how many characters more it takes; an asterisk right after two of the keywords is part
      of them. */
  function TokenOf(name: string, escaped: bool, after: string): (r: (Token, nat))
    requires name != []
    ensures r.1 <= |after|
  {
    if name[0] == '#' then (PrivateIdentifier(name[1..]), 0)
    else if escaped || name !in KEYWORDS then (Identifier(name), 0)
    else if (name == "function" || name == "yield") && after != [] && after[0] == '*' then (Keyword(name + "*"), 1)
    else (Keyword(name), 0)
  }

  function NameAt(t: string, tables: Tables): (r: Option<(Token, nat)>)
    ensures r.Some? ==> 0 < r.value.1 <= |t|
  {
    match Take(t, "", tables)
    case None => None
    case Some(Taken(name, escaped, n)) =>
      if name == [] then None else
      var (token, more) := TokenOf(name, escaped, t[n..]);
      Some((token, n + more))
  }

  // ----- the loop -----

  method ReadEscaped(s: string, from: nat) returns (c: char, next: nat, ok: bool)
    requires from <= |s|
    ensures from <= next <= |s|
    ensures EscapedChar(s[from..]) == if ok then Some((c, next - from)) else None
  {
    hide Radix16, S.Find;
    c, next, ok := ' ', from, false;
    ghost var t := s[from..];
    if from < |s| && s[from] == '{' {
      var i, hex := from + 1, "";
      while i < |s| && s[i] != '}'
        invariant from < i <= |s| && hex == s[from + 1..i] && '}' !in hex
      {
        hex := hex + [s[i]];
        i := i + 1;
      }
      S.FindIs(t[1..], '}', i - from - 1);
      assert t[1..i - from] == hex;
      if i >= |s| || hex == [] { return; }
      var decoded := FromHex(hex);
      if decoded.None? { return; }
      return decoded.value, i + 1, true;
    }
    if from + 4 > |s| { return; }
    var hex := s[from..from + 4];
    assert t[..4] == hex;
    if !AllHex(hex) { return; }
    var decoded := FromHex(hex);
    if decoded.None? { return; }
    return decoded.value, from + 4, true;
  }

  lemma TakeTurn(t: string, name: string, tables: Tables)
    ensures t == [] || !(t[0] == '\\' || IsPart(t[0], tables)) ==> Take(t, name, tables) == Some(Taken(name, false, 0))
    ensures t != [] && t[0] == '\\' && !IsEscape(t) ==> Take(t, name, tables) == Some(Taken(name, true, 0))
    ensures IsEscape(t) && EscapedChar(t[2..]).None? ==> Take(t, name, tables) == None
    ensures IsEscape(t) && EscapedChar(t[2..]).Some? && !Allowed(EscapedChar(t[2..]).value.0, name, tables) ==>
      Take(t, name, tables) == None
    ensures IsEscape(t) && EscapedChar(t[2..]).Some? && Allowed(EscapedChar(t[2..]).value.0, name, tables) ==>
      Take(t, name, tables) == AfterEscape(t, EscapedChar(t[2..]).value, name, tables)
    ensures t != [] && t[0] != '\\' && IsPart(t[0], tables) ==>
      Take(t, name, tables) == Further(Take(t[1..], name + [t[0]], tables), false, 1)
  {
    hide EscapedChar, Allowed, IsPart;
  }

  function AfterEscape(t: string, e: (char, nat), name: string, tables: Tables): Option<Taken>
    requires 2 + e.1 <= |t|
  {
    Further(Take(t[2 + e.1..], name + [e.0], tables), true, 2 + e.1)
  }

  predicate IsEscape(t: string) {
    |t| > 1 && t[0] == '\\' && t[1] == 'u'
  }

  method ReadName(s: string, start: nat, tables: Tables) returns (r: Option<(Token, nat)>)
    requires start <= |s|
    ensures r == NameAt(s[start..], tables)
  {
    hide EscapedChar, Allowed, IsPart, TokenOf, Take;
    var name, escaped, i := "", false, start;
    while i < |s|
      invariant start <= i <= |s|
      invariant Take(s[start..], "", tables) == Further(Take(s[i..], name, tables), escaped, i - start)
    {
      ghost var t := s[i..];
      TakeTurn(t, name, tables);
      if s[i] == '\\' {
        if i + 1 < |s| && s[i + 1] == 'u' {
          assert t[2..] == s[i + 2..];
          var c, next, ok := ReadEscaped(s, i + 2);
          if !ok || !Allowed(c, name, tables) { return None; }
          assert t[next - i..] == s[next..];
          name, escaped, i := name + [c], true, next;
          continue;
        }
        escaped := true;
        break;
      }
      if !IsPart(s[i], tables) { break; }
      assert t[1..] == s[i + 1..];
      name, i := name + [s[i]], i + 1;
    }
    TakeTurn(s[i..], name, tables);
    assert Take(s[start..], "", tables) == Some(Taken(name, escaped, i - start));
    assert s[start..][i - start..] == s[i..];
    if name == [] { return None; }
    var (token, more) := TokenOf(name, escaped, s[i..]);
    return Some((token, i - start + more));
  }
}
