/** The tokenizer's main loop: white space, line ends, comments, strings, templates, whose substitutions are tokenized in
    turn, and the branches for the other tokens. */
module Tokens {
  import opened Prelude
  import opened Unicode
  import opened Lexemes
  import opened Branches
  import S = StringLiterals
  import T = TemplateCooking

  datatype Result<+R> = Ok(value: R) | Err

  function Utf8Width(c: char): (n: nat)
    ensures 1 <= n <= 4
  {
    var p := c as int;
    if p < 0x80 then 1 else if p < 0x800 then 2 else if p < 0x1_0000 then 3 else 4
  }

  /** The length of a text in UTF-8. */
  function Utf8Length(s: string): nat {
    if s == [] then 0 else Utf8Length(s[..|s| - 1]) + Utf8Width(s[|s| - 1])
  }

  /** A block comment from i on: how many line ends it holds and where it ends. */
  function BlockComment(s: string, i: nat): (r: Option<(nat, nat)>)
    requires i <= |s|
    ensures r.Some? ==> i + 2 <= r.value.1 <= |s|
    decreases |s| - i
  {
    if i + 1 >= |s| then None
    else if s[i] == '*' && s[i + 1] == '/' then Some((0, i + 2))
    else
      var crlf := s[i] == CR && s[i + 1] == LF;
      var rest := BlockComment(s, if crlf then i + 2 else i + 1);
      if rest.None? then None else Some((rest.value.0 + if IsLineEnd(s[i]) then 1 else 0, rest.value.1))
  }

  /** The index after the brace that closes a substitution, counting braces only. */
  function SubstitutionEnd(s: string, i: nat, depth: nat): (r: Option<nat>)
    requires i <= |s|
    ensures r.Some? && depth > 0 ==> i < r.value <= |s|
    ensures r.Some? && depth == 0 ==> r.value == i
    decreases |s| - i
  {
    if depth == 0 then Some(i)
    else if i >= |s| then None
    else SubstitutionEnd(s, i + 1, if s[i] == '{' then depth + 1 else if s[i] == '}' then depth - 1 else depth)
  }

  function Chunk(s: string, from: nat, to: nat): Part
    requires from <= to <= |s|
  {
    Str(T.Cook(s[from..to]), T.Raw(s[from..to]))
  }

  function Repeat(t: TokenData, n: nat): seq<TokenData> {
    seq(n, _ => t)
  }

  function At(token: Option<Token>, offset: nat): seq<TokenData> {
    if token.None? then [] else [TokenData(token.value, offset)]
  }

  function Tokenize(s: string, tables: Tables): Result<seq<TokenData>>
    decreases |s|, 3, 0
  {
    Loop(s, 0, [], tables)
  }

  /** From the opening backtick's next character: the parts of the template and the index of the closing backtick. */
  function TemplateParts(s: string, i: nat, from: nat, parts: seq<Part>, tables: Tables): (r: Result<(seq<Part>, nat)>)
    requires from <= i <= |s|
    ensures r.Ok? ==> i <= r.value.1 < |s|
    decreases |s|, 0, |s| - i
  {
    if i >= |s| then Err
    else if s[i] == '`' then Ok((parts + [Chunk(s, from, i)], i))
    else if s[i] == '$' && i + 1 < |s| && s[i + 1] == '{' then
      match SubstitutionEnd(s, i + 2, 1)
      case None => Err
      case Some(end) =>
        match Tokenize(s[i + 2..end - 1], tables)
        case Err => Err
        case Ok(tokens) => TemplateParts(s, end, end, parts + [Chunk(s, from, i), Expr(tokens)], tables)
    else if s[i] == '\\' && i + 1 < |s| then TemplateParts(s, i + 2, from, parts, tables)
    else TemplateParts(s, i + 1, from, parts, tables)
  }

  /** One iteration: the tokens pushed and the next index. */
  function Iterate(s: string, i: nat, tokens: seq<TokenData>, tables: Tables): (r: Result<(seq<TokenData>, nat)>)
    requires i < |s|
    ensures r.Ok? ==> i < r.value.1 <= |s|
    decreases |s|, 1, 0
  {
    var offset := Utf8Length(s[..i]);
    var c := s[i];
    if IsSpace(c) then Ok(([], i + 1))
    else if c == CR then
      Ok(([TokenData(LineTerminator, offset)], if i + 1 < |s| && s[i + 1] == LF then i + 2 else i + 1))
    else if IsLineEnd(c) then Ok(([TokenData(LineTerminator, offset)], i + 1))
    else if c == '/' && i + 1 < |s| && s[i + 1] == '/' then Ok(([], LineEnd(s, i + 2)))
    else if c == '/' && i + 1 < |s| && s[i + 1] == '*' then
      match BlockComment(s, i + 2)
      case None => Err
      case Some((lines, end)) => Ok((Repeat(TokenData(LineTerminator, offset), lines), end))
    else if c == '\"' || c == '\'' then
      match S.Parse(s[i + 1..], c)
      case Fail(_) => Err
      case Done(units, width) =>
        S.ParsedIsPieces(s[i + 1..], c);
        Ok(([TokenData(StringLit(units), offset)], i + width + 2))
    else if c == '`' then
      match TemplateParts(s, i + 1, i + 1, [], tables)
      case Err => Err
      case Ok((parts, end)) => Ok(([TokenData(Template(parts), offset)], end + 1))
    else
      match Branch(Kinds(tokens), i == 0, s[i..], tables)
      case None => Err
      case Some((token, width)) => Ok((At(token, offset), i + width))
  }

  function Loop(s: string, i: nat, tokens: seq<TokenData>, tables: Tables): Result<seq<TokenData>>
    requires i <= |s|
    decreases |s|, 2, |s| - i
  {
    if i >= |s| then Ok(tokens) else
    match Iterate(s, i, tokens, tables)
    case Err => Err
    case Ok((pushed, next)) => Loop(s, next, tokens + pushed, tables)
  }

  // ----- the loops -----

  method TokenizeText(s: string, tables: Tables) returns (r: Result<seq<TokenData>>)
    ensures r == Tokenize(s, tables)
    decreases |s|, 2
  {
    hide Iterate;
    var tokens: seq<TokenData> := [];
    var i := 0;
    while i < |s|
      invariant 0 <= i <= |s|
      invariant Loop(s, 0, [], tables) == Loop(s, i, tokens, tables)
    {
      var step := Turn(s, i, tokens, tables);
      match step {
        case Err => return Err;
        case Ok((pushed, next)) => tokens, i := tokens + pushed, next;
      }
    }
    return Ok(tokens);
  }

  method Turn(s: string, i: nat, tokens: seq<TokenData>, tables: Tables) returns (r: Result<(seq<TokenData>, nat)>)
    requires i < |s|
    ensures r == Iterate(s, i, tokens, tables)
    decreases |s|, 1
  {
    hide Utf8Length, LineEnd, BlockComment, TemplateParts, S.Parse, IsSpace, Branch, Kinds;
    var offset := Utf8Length(s[..i]);
    var c := s[i];
    if IsSpace(c) { return Ok(([], i + 1)); }
    if c == CR {
      return Ok(([TokenData(LineTerminator, offset)], if i + 1 < |s| && s[i + 1] == LF then i + 2 else i + 1));
    }
    if IsLineEnd(c) { return Ok(([TokenData(LineTerminator, offset)], i + 1)); }
    if c == '/' && i + 1 < |s| && s[i + 1] == '/' {
      var end := SkipLine(s, i + 2);
      return Ok(([], end));
    }
    if c == '/' && i + 1 < |s| && s[i + 1] == '*' {
      var comment := SkipBlock(s, i + 2);
      match comment {
        case None => return Err;
        case Some((lines, end)) => return Ok((Repeat(TokenData(LineTerminator, offset), lines), end));
      }
    }
    if c == '\"' || c == '\'' {
      var literal := S.ParseStringLiteral(s, i + 1, c);
      match literal {
        case Fail(_) => return Err;
        case Done(units, width) => return Ok(([TokenData(StringLit(units), offset)], i + width + 2));
      }
    }
    if c == '`' {
      var template := ReadTemplate(s, i + 1, tables);
      match template {
        case Err => return Err;
        case Ok((parts, end)) => return Ok(([TokenData(Template(parts), offset)], end + 1));
      }
    }
    var rest := ReadBranch(s, i, Kinds(tokens), tables);
    match rest {
      case None => return Err;
      case Some((token, width)) => return Ok((At(token, offset), i + width));
    }
  }

  method SkipBlock(s: string, from: nat) returns (r: Option<(nat, nat)>)
    requires from <= |s|
    ensures r == BlockComment(s, from)
  {
    var i, lines := from, 0;
    while i + 1 < |s|
      invariant from <= i <= |s|
      invariant BlockComment(s, from) == var rest := BlockComment(s, i); if rest.None? then None else Some((lines + rest.value.0, rest.value.1))
    {
      if s[i] == '*' && s[i + 1] == '/' { return Some((lines, i + 2)); }
      if IsLineEnd(s[i]) { lines := lines + 1; }
      if s[i] == CR && s[i + 1] == LF { i := i + 2; } else { i := i + 1; }
    }
    return None;
  }

  method ReadTemplate(s: string, from: nat, tables: Tables) returns (r: Result<(seq<Part>, nat)>)
    requires from <= |s|
    ensures r == TemplateParts(s, from, from, [], tables)
    decreases |s|, 0
  {
    hide Tokenize, SubstitutionEnd, Chunk;
    var parts: seq<Part> := [];
    var i, start := from, from;
    while i < |s| && s[i] != '`'
      invariant from <= start <= i <= |s|
      invariant TemplateParts(s, from, from, [], tables) == TemplateParts(s, i, start, parts, tables)
    {
      if s[i] == '$' && i + 1 < |s| && s[i + 1] == '{' {
        var end := MatchBrace(s, i + 2);
        if end.None? { return Err; }
        var inner := TokenizeText(s[i + 2..end.value - 1], tables);
        if inner.Err? { return Err; }
        parts := parts + [Chunk(s, start, i), Expr(inner.value)];
        i, start := end.value, end.value;
      } else if s[i] == '\\' && i + 1 < |s| {
        i := i + 2;
      } else {
        i := i + 1;
      }
    }
    if i >= |s| { return Err; }
    return Ok((parts + [Chunk(s, start, i)], i));
  }

  method MatchBrace(s: string, from: nat) returns (r: Option<nat>)
    requires from <= |s|
    ensures r == SubstitutionEnd(s, from, 1)
  {
    var i, depth := from, 1;
    while i < |s| && depth > 0
      invariant from <= i <= |s| && depth >= 0
      invariant SubstitutionEnd(s, from, 1) == SubstitutionEnd(s, i, depth)
    {
      if s[i] == '{' { depth := depth + 1; } else if s[i] == '}' { depth := depth - 1; }
      i := i + 1;
    }
    r := if depth != 0 then None else Some(i);
  }

  // ----- where tokens stand -----

  /** Offsets are byte lengths of proper prefixes of the text, and do not decrease. */
  ghost predicate Placed(s: string, ts: seq<TokenData>) {
    && (forall a :: 0 <= a < |ts| ==> IsPrefixLength(s, ts[a].byteOffset))
    && (forall a, b :: 0 <= a <= b < |ts| ==> ts[a].byteOffset <= ts[b].byteOffset)
  }

  ghost predicate IsPrefixLength(s: string, n: nat) {
    exists k :: 0 <= k < |s| && Utf8Length(s[..k]) == n
  }

  /** Templates hold n + 1 strings around n substitutions. */
  ghost predicate Alternates(parts: seq<Part>) {
    forall j :: 0 <= j < |parts| ==> (parts[j].Str? <==> j % 2 == 0)
  }

  /** Tokens of the text are placed in it, and those of a substitution in a shorter piece of the text. */
  ghost predicate WellPlaced(s: string, ts: seq<TokenData>)
    decreases ts
  {
    Placed(s, ts) && forall a :: 0 <= a < |ts| ==> TokenOk(s, ts[a])
  }

  ghost predicate TokenOk(s: string, t: TokenData)
    decreases t
  {
    t.token.Template? ==> |t.token.parts| % 2 == 1 && Alternates(t.token.parts) && PartsOk(s, t.token.parts)
  }

  ghost predicate PartsOk(s: string, parts: seq<Part>)
    decreases parts
  {
    forall j :: 0 <= j < |parts| && parts[j].Expr? ==>
      exists lo, hi :: 0 <= lo <= hi <= |s| && hi - lo < |s| && WellPlaced(s[lo..hi], parts[j].tokens)
  }

  // ----- every token is well placed -----

  lemma {:induction false} LengthGrows(s: string, i: nat, j: nat)
    requires i <= j <= |s|
    ensures Utf8Length(s[..i]) <= Utf8Length(s[..j])
    ensures i < j ==> Utf8Length(s[..i]) < Utf8Length(s[..j])
    decreases j - i
  {
    if i < j {
      assert s[..j][..j - 1] == s[..j - 1];
      LengthGrows(s, i, j - 1);
    }
  }

  /** What a loop has so far: placed before index i. */
  ghost predicate SoFar(s: string, i: nat, ts: seq<TokenData>) {
    i <= |s| && WellPlaced(s, ts) && forall a :: 0 <= a < |ts| ==> ts[a].byteOffset <= Utf8Length(s[..i])
  }

  /** Tokens pushed by one turn all carry the offset where the turn began. */
  ghost predicate PushedAt(s: string, i: nat, pushed: seq<TokenData>) {
    i < |s| && forall a :: 0 <= a < |pushed| ==> pushed[a].byteOffset == Utf8Length(s[..i]) && TokenOk(s, pushed[a])
  }

  lemma PushKeeps(s: string, i: nat, ts: seq<TokenData>, pushed: seq<TokenData>, next: nat)
    requires SoFar(s, i, ts) && PushedAt(s, i, pushed) && i <= next <= |s|
    ensures SoFar(s, next, ts + pushed)
  {
    hide TokenOk;
    LengthGrows(s, i, next);
    var all := ts + pushed;
    forall a | 0 <= a < |all| ensures IsPrefixLength(s, all[a].byteOffset) && TokenOk(s, all[a]) {
      if a >= |ts| { assert all[a] == pushed[a - |ts|]; }
    }
  }

  lemma {:induction false} TokenizeOk(s: string, tables: Tables)
    requires Tokenize(s, tables).Ok?
    ensures WellPlaced(s, Tokenize(s, tables).value)
    decreases |s|, 3, 0
  {
    LoopOk(s, 0, [], tables);
  }

  lemma {:induction false} LoopOk(s: string, i: nat, tokens: seq<TokenData>, tables: Tables)
    requires SoFar(s, i, tokens) && Loop(s, i, tokens, tables).Ok?
    ensures WellPlaced(s, Loop(s, i, tokens, tables).value)
    decreases |s|, 2, |s| - i
  {
    hide Iterate, WellPlaced, PushedAt;
    if i < |s| {
      TurnOk(s, i, tokens, tables);
      var (pushed, next) := Iterate(s, i, tokens, tables).value;
      PushKeeps(s, i, tokens, pushed, next);
      LoopOk(s, next, tokens + pushed, tables);
    }
  }

  lemma {:induction false} TurnOk(s: string, i: nat, tokens: seq<TokenData>, tables: Tables)
    requires i < |s| && Iterate(s, i, tokens, tables).Ok?
    ensures PushedAt(s, i, Iterate(s, i, tokens, tables).value.0)
    decreases |s|, 1, 0
  {
    hide TemplateParts, Utf8Length, BlockComment, LineEnd, S.Parse, PartsOk, Alternates, Branch, Kinds;
    if s[i] == '`' {
      NoParts(s);
      TemplateOk(s, i + 1, i + 1, [], tables);
    }
  }

  lemma NoParts(s: string)
    ensures Alternates([]) && PartsOk(s, [])
  {
  }

  lemma {:induction false} TemplateOk(s: string, i: nat, from: nat, parts: seq<Part>, tables: Tables)
    requires 0 < from <= i <= |s|
    requires |parts| % 2 == 0 && Alternates(parts) && PartsOk(s, parts)
    requires TemplateParts(s, i, from, parts, tables).Ok?
    ensures var all := TemplateParts(s, i, from, parts, tables).value.0;
            |all| % 2 == 1 && Alternates(all) && PartsOk(s, all)
    decreases |s|, 0, |s| - i
  {
    hide Tokenize, SubstitutionEnd, WellPlaced, PartsOk, Alternates;
    if s[i] == '`' {
      AddString(s, parts, Chunk(s, from, i));
    } else if s[i] == '$' && i + 1 < |s| && s[i + 1] == '{' {
      var end := SubstitutionEnd(s, i + 2, 1).value;
      var inner := s[i + 2..end - 1];
      var tokens := Tokenize(inner, tables).value;
      TokenizeOk(inner, tables);
      AddString(s, parts, Chunk(s, from, i));
      AddExpr(s, parts + [Chunk(s, from, i)], tokens, i + 2, end - 1);
      assert parts + [Chunk(s, from, i)] + [Expr(tokens)] == parts + [Chunk(s, from, i), Expr(tokens)];
      TemplateOk(s, end, end, parts + [Chunk(s, from, i), Expr(tokens)], tables);
    } else if s[i] == '\\' && i + 1 < |s| {
      TemplateOk(s, i + 2, from, parts, tables);
    } else {
      TemplateOk(s, i + 1, from, parts, tables);
    }
  }

  lemma AddString(s: string, parts: seq<Part>, part: Part)
    requires |parts| % 2 == 0 && Alternates(parts) && PartsOk(s, parts) && part.Str?
    ensures Alternates(parts + [part]) && PartsOk(s, parts + [part])
  {
    hide WellPlaced;
    PartsGrow(s, parts, part);
  }

  lemma AddExpr(s: string, parts: seq<Part>, tokens: seq<TokenData>, lo: nat, hi: nat)
    requires |parts| % 2 == 1 && Alternates(parts) && PartsOk(s, parts)
    requires lo <= hi <= |s| && hi - lo < |s| && WellPlaced(s[lo..hi], tokens)
    ensures Alternates(parts + [Expr(tokens)]) && PartsOk(s, parts + [Expr(tokens)])
  {
    hide WellPlaced;
    PartsGrow(s, parts, Expr(tokens));
  }

  lemma PartsGrow(s: string, parts: seq<Part>, part: Part)
    requires PartsOk(s, parts)
    requires part.Expr? ==> exists lo, hi :: 0 <= lo <= hi <= |s| && hi - lo < |s| && WellPlaced(s[lo..hi], part.tokens)
    ensures PartsOk(s, parts + [part])
  {
    hide WellPlaced;
    var all := parts + [part];
    forall j | 0 <= j < |all| && all[j].Expr?
      ensures exists lo, hi :: 0 <= lo <= hi <= |s| && hi - lo < |s| && WellPlaced(s[lo..hi], all[j].tokens)
    {
      if j < |parts| { assert all[j] == parts[j]; }
    }
  }

  // ----- where substitutions end -----

  /** Opening braces minus closing ones. */
  function Depth(s: string): int {
    if s == [] then 0
    else Depth(s[..|s| - 1]) + (if s[|s| - 1] == '{' then 1 else if s[|s| - 1] == '}' then -1 else 0)
  }

  /** The substitution ends after the first brace that outweighs the opening ones, wherever it stands. */
  lemma EndsAtFirstSurplus(s: string, i: nat, end: nat)
    requires i < end <= |s|
    ensures SubstitutionEnd(s, i, 1) == Some(end) <==>
      Depth(s[i..end]) == -1 && forall k :: i <= k < end ==> Depth(s[i..k]) >= 0
  {
    assert s[i..i] == [];
    EndIsFirstSurplus(s, i, i, 1, end);
  }

  lemma {:induction false} EndIsFirstSurplus(s: string, i: nat, at: nat, depth: nat, end: nat)
    requires i <= at < end <= |s| && depth > 0 && depth == 1 + Depth(s[i..at])
    requires forall k :: i <= k <= at ==> Depth(s[i..k]) >= 0
    ensures SubstitutionEnd(s, at, depth) == Some(end) <==>
      Depth(s[i..end]) == -1 && forall k :: i <= k < end ==> Depth(s[i..k]) >= 0
    decreases end - at
  {
    assert s[i..at + 1][..at - i] == s[i..at];
    var next := if s[at] == '{' then depth + 1 else if s[at] == '}' then depth - 1 else depth;
    assert next == 1 + Depth(s[i..at + 1]);
    if at + 1 < end {
      if next > 0 { EndIsFirstSurplus(s, i, at + 1, next, end); }
    }
  }
}
