/** The texts between backticks that the tokenizer takes as one template, and the parts it makes of them. */
module TemplateTexts {
  import opened Prelude
  import opened Lexemes
  import opened Tokens
  import T = TemplateCooking

  /** A chunk of template text before what ends it: no backtick and no opening of a substitution, except escaped. */
  predicate Chunky(c: string, next: string) {
    if c == [] then true
    else if c[0] == '\\' then |c| > 1 && Chunky(c[2..], next)
    else c[0] != '`' && !(c[0] == '$' && Begins(c[1..] + next, "{")) && Chunky(c[1..], next)
  }

  /** Braces balance: no closing one outweighs the opening ones before it, and in all they are as many. */
  ghost predicate Balanced(sub: string) {
    Depth(sub) == 0 && forall k :: 0 <= k <= |sub| ==> Depth(sub[..k]) >= 0
  }

  /** Chunks around substitutions. */
  function Text(chunks: seq<string>, subs: seq<string>): string
    requires |chunks| == |subs| + 1
  {
    chunks[0] + Rest(chunks[1..], subs)
  }

  /** Every substitution with its brackets and the chunk after it. */
  function Rest(chunks: seq<string>, subs: seq<string>): string
    requires |chunks| == |subs|
    decreases |subs|
  {
    if subs == [] then "" else "${" + (subs[0] + ("}" + (chunks[0] + Rest(chunks[1..], subs[1..]))))
  }

  function Ending(subs: seq<string>): string {
    if subs == [] then "`" else "${"
  }

  ghost predicate Proper(chunks: seq<string>, subs: seq<string>, tables: Tables)
    requires |chunks| == |subs| + 1
  {
    && Chunky(chunks[0], Ending(subs))
    && (subs != [] ==> Balanced(subs[0]) && Tokenize(subs[0], tables).Ok? && Proper(chunks[1..], subs[1..], tables))
  }

  /** Every chunk cooked and raw, every substitution as its tokens; head is what comes before the first chunk. */
  function PartsOf(head: string, chunks: seq<string>, subs: seq<string>, tables: Tables): seq<Part>
    requires |chunks| == |subs| + 1
    decreases |subs|
  {
    var text := head + chunks[0];
    [Str(T.Cook(text), T.Raw(text))] +
    if subs == [] then []
    else [Expr(match Tokenize(subs[0], tables) case Ok(ts) => ts case Err => [])] + PartsOf("", chunks[1..], subs[1..], tables)
  }

  // ----- substitutions -----

  lemma {:induction false} DepthEnd(sub: string, c: char)
    ensures Depth(sub + [c]) == Depth(sub) + (if c == '{' then 1 else if c == '}' then -1 else 0)
  {
    assert (sub + [c])[..|sub|] == sub;
  }

  lemma PrefixOf(s: string, i: nat, sub: string, k: nat)
    requires i + |sub| < |s| && s[i..i + |sub|] == sub && k <= |sub|
    ensures s[i..i + k] == sub[..k]
  {
  }

  /** A substitution ends at the brace that closes it exactly when its text is balanced. */
  lemma SubstitutionIff(s: string, i: nat, sub: string)
    requires i + |sub| < |s| && s[i..i + |sub|] == sub && s[i + |sub|] == '}'
    ensures SubstitutionEnd(s, i, 1) == Some(i + |sub| + 1) <==> Balanced(sub)
  {
    var end := i + |sub| + 1;
    EndsAtFirstSurplus(s, i, end);
    assert s[i..end] == sub + ['}'];
    DepthEnd(sub, '}');
    forall k | 0 <= k <= |sub| ensures s[i..i + k] == sub[..k] { PrefixOf(s, i, sub, k); }
    assert sub[..|sub|] == sub;
    if Balanced(sub) {
      forall k | i <= k < end ensures Depth(s[i..k]) >= 0 { assert s[i..k] == sub[..k - i]; }
    }
    if SubstitutionEnd(s, i, 1) == Some(end) {
      forall k | 0 <= k <= |sub| ensures Depth(sub[..k]) >= 0 { assert s[i..i + k] == sub[..k]; }
    }
  }

  /** It never ends elsewhere than at a closing brace. */
  lemma {:induction false} EndsAtBrace(s: string, i: nat, depth: nat)
    requires i <= |s| && depth > 0 && SubstitutionEnd(s, i, depth).Some?
    ensures s[SubstitutionEnd(s, i, depth).value - 1] == '}'
    decreases |s| - i
  {
    var next := if s[i] == '{' then depth + 1 else if s[i] == '}' then depth - 1 else depth;
    if next > 0 { EndsAtBrace(s, i + 1, next); }
  }

  // ----- what is written is read -----

  lemma CharacterTurn(s: string, i: nat, from: nat, parts: seq<Part>, n: nat, tables: Tables)
    requires from <= i && 1 <= n <= 2 && i + n <= |s| && (n == 2 <==> s[i] == '\\')
    requires s[i] != '`' && !(s[i] == '$' && i + 1 < |s| && s[i + 1] == '{')
    ensures TemplateParts(s, i, from, parts, tables) == TemplateParts(s, i + n, from, parts, tables)
  {
    hide Tokenize, SubstitutionEnd, Chunk;
  }

  lemma SubstitutionTurn(s: string, i: nat, from: nat, parts: seq<Part>, sub: string, tables: Tables)
    requires from <= i && i + 2 + |sub| < |s| && s[i] == '$' && s[i + 1] == '{' && s[i + 2..i + 2 + |sub|] == sub
    requires SubstitutionEnd(s, i + 2, 1) == Some(i + 2 + |sub| + 1) && Tokenize(sub, tables).Ok?
    ensures var end := i + 2 + |sub| + 1;
      TemplateParts(s, i, from, parts, tables)
      == TemplateParts(s, end, end, parts + [Chunk(s, from, i), Expr(Tokenize(sub, tables).value)], tables)
  {
    hide Tokenize, SubstitutionEnd, Chunk;
  }

  lemma {:induction false} TextRead(s: string, i: nat, from: nat, parts: seq<Part>, chunks: seq<string>, subs: seq<string>, tables: Tables)
    requires from <= i <= |s| && |chunks| == |subs| + 1
    requires Proper(chunks, subs, tables) && Begins(s[i..], Text(chunks, subs) + "`")
    ensures TemplateParts(s, i, from, parts, tables)
         == Ok((parts + PartsOf(s[from..i], chunks, subs, tables), i + |Text(chunks, subs)|))
    decreases |subs|, |chunks[0]|
  {
    hide SubstitutionEnd, Depth, Tokenize, Balanced, TemplateParts, PartsOf, Chunk;
    if chunks[0] != [] {
      ChunkRead(s, i, from, parts, chunks, subs, tables);
      var n := if chunks[0][0] == '\\' then 2 else 1;
      TextRead(s, i + n, from, parts, chunks[0 := chunks[0][n..]], subs, tables);
    } else if subs == [] {
      assert s[i..][0] == '`';
      LastChunk(s, i, from, parts, tables);
      PartsAfter(s, from, i, chunks, subs, tables);
    } else {
      var sub, end := SubstitutionRead(s, i, from, parts, chunks, subs, tables);
      var ts := Tokenize(sub, tables).value;
      TextRead(s, end, end, parts + [Chunk(s, from, i), Expr(ts)], chunks[1..], subs[1..], tables);
      assert s[end..end] == "";
      PartsAfter(s, from, i, chunks, subs, tables);
      var tail := PartsOf("", chunks[1..], subs[1..], tables);
      assert parts + [Chunk(s, from, i), Expr(ts)] + tail == parts + ([Chunk(s, from, i)] + ([Expr(ts)] + tail));
    }
  }

  lemma PartsAfter(s: string, from: nat, i: nat, chunks: seq<string>, subs: seq<string>, tables: Tables)
    requires from <= i <= |s| && |chunks| == |subs| + 1 && chunks[0] == ""
    requires subs != [] ==> Tokenize(subs[0], tables).Ok?
    ensures PartsOf(s[from..i], chunks, subs, tables) ==
      if subs == [] then [Chunk(s, from, i)]
      else [Chunk(s, from, i)] + ([Expr(Tokenize(subs[0], tables).value)] + PartsOf("", chunks[1..], subs[1..], tables))
  {
    hide Tokenize, T.Cook, T.Raw;
    assert s[from..i] + chunks[0] == s[from..i];
  }

  lemma SubstitutionRead(s: string, i: nat, from: nat, parts: seq<Part>, chunks: seq<string>, subs: seq<string>, tables: Tables)
    returns (sub: string, end: nat)
    requires from <= i <= |s| && |chunks| == |subs| + 1 && chunks[0] == "" && subs != []
    requires Proper(chunks, subs, tables) && Begins(s[i..], Text(chunks, subs) + "`")
    ensures sub == subs[0] && end == i + 2 + |sub| + 1 && end <= |s| && Tokenize(sub, tables).Ok?
    ensures TemplateParts(s, i, from, parts, tables)
         == TemplateParts(s, end, end, parts + [Chunk(s, from, i), Expr(Tokenize(sub, tables).value)], tables)
    ensures Proper(chunks[1..], subs[1..], tables) && Begins(s[end..], Text(chunks[1..], subs[1..]) + "`")
    ensures |Text(chunks, subs)| == 3 + |sub| + |Text(chunks[1..], subs[1..])|
  {
    hide SubstitutionEnd, Depth, Tokenize, Balanced, TemplateParts, PartsOf, Chunk, Text, Rest, Chunky;
    sub := subs[0];
    end := i + 2 + |sub| + 1;
    var rest := Text(chunks[1..], subs[1..]) + "`";
    TextOfSubstitution(chunks, subs);
    SubstitutionStands(s, i, sub, rest);
    SubstitutionIff(s, i + 2, sub);
    SubstitutionTurn(s, i, from, parts, sub, tables);
  }

  lemma LastChunk(s: string, i: nat, from: nat, parts: seq<Part>, tables: Tables)
    requires from <= i < |s| && s[i] == '`'
    ensures TemplateParts(s, i, from, parts, tables) == Ok((parts + [Chunk(s, from, i)], i))
  {
  }

  /** One character of a chunk, or an escaped pair, is passed over. */
  lemma ChunkRead(s: string, i: nat, from: nat, parts: seq<Part>, chunks: seq<string>, subs: seq<string>, tables: Tables)
    requires from <= i <= |s| && |chunks| == |subs| + 1 && chunks[0] != []
    requires Proper(chunks, subs, tables) && Begins(s[i..], Text(chunks, subs) + "`")
    ensures var c := chunks[0];
      var n := if c[0] == '\\' then 2 else 1;
      && n <= |c| && i + n <= |s|
      && TemplateParts(s, i, from, parts, tables) == TemplateParts(s, i + n, from, parts, tables)
      && Proper(chunks[0 := c[n..]], subs, tables) && Begins(s[i + n..], Text(chunks[0 := c[n..]], subs) + "`")
      && |Text(chunks, subs)| == n + |Text(chunks[0 := c[n..]], subs)|
      && PartsOf(s[from..i + n], chunks[0 := c[n..]], subs, tables) == PartsOf(s[from..i], chunks, subs, tables)
  {
    hide Tokenize, Balanced, TemplateParts, Text;
    var c, t := chunks[0], s[i..];
    var n := if c[0] == '\\' then 2 else 1;
    var less := chunks[0 := c[n..]];
    assert less[1..] == chunks[1..];
    TextDrop(chunks, subs, n);
    assert t[n..] == s[i + n..];
    assert Text(chunks, subs)[..n] == c[..n];
    assert t[..n] == c[..n];
    assert s[from..i] + c == s[from..i + n] + c[n..];
    AfterFirst(chunks, subs, t);
    CharacterTurn(s, i, from, parts, n, tables);
  }

  lemma TextDrop(chunks: seq<string>, subs: seq<string>, n: nat)
    requires |chunks| == |subs| + 1 && n <= |chunks[0]|
    ensures Text(chunks, subs) == chunks[0][..n] + Text(chunks[0 := chunks[0][n..]], subs)
  {
    hide Rest;
    var c, less := chunks[0], chunks[0 := chunks[0][n..]];
    assert less[1..] == chunks[1..];
    assert c == c[..n] + c[n..];
    Regroup(c[..n], c[n..], Rest(chunks[1..], subs));
  }

  lemma Regroup(a: string, b: string, c: string)
    ensures a + b + c == a + (b + c)
  {
  }

  /** What follows the first character of a chunk, as the chunk's rule sees it. */
  lemma AfterFirst(chunks: seq<string>, subs: seq<string>, t: string)
    requires |chunks| == |subs| + 1 && chunks[0] != [] && Begins(t, Text(chunks, subs) + "`")
    ensures |t| > 1 && t[0] == chunks[0][0]
    ensures t[1] == (chunks[0][1..] + Ending(subs))[0]
  {
    var all, more := Text(chunks, subs) + "`", Rest(chunks[1..], subs) + "`";
    Regroup(chunks[0], Rest(chunks[1..], subs), "`");
    assert all == chunks[0] + more;
    assert more[0] == Ending(subs)[0];
    assert t[0] == all[0] && t[1] == all[1];
  }

  lemma SubstitutionStands(s: string, i: nat, sub: string, rest: string)
    requires i <= |s| && Begins(s[i..], "${" + (sub + ("}" + rest)))
    ensures i + 2 + |sub| < |s| && s[i] == '$' && s[i + 1] == '{' && s[i + 2..i + 2 + |sub|] == sub && s[i + 2 + |sub|] == '}'
    ensures Begins(s[i + 2 + |sub| + 1..], rest)
  {
    var t, all, n := s[i..], "${" + (sub + ("}" + rest)), |sub|;
    assert all[..|all|] == all;
    assert t[..|all|] == all;
    assert t[2..2 + n] == all[2..2 + n] == sub;
    assert t[2 + n] == all[2 + n] == '}';
    assert all[2 + n + 1..] == rest;
    assert t[2 + n + 1..|all|] == rest;
    assert s[i + 2 + n + 1..] == t[2 + n + 1..];
  }

  // ----- what is read was written -----

  lemma {:induction false} TextWritten(s: string, i: nat, from: nat, parts: seq<Part>, tables: Tables)
    returns (chunks: seq<string>, subs: seq<string>)
    requires from <= i <= |s| && TemplateParts(s, i, from, parts, tables).Ok?
    ensures |chunks| == |subs| + 1 && Proper(chunks, subs, tables) && Begins(s[i..], Text(chunks, subs) + "`")
    decreases |s| - i
  {
    hide SubstitutionEnd, Depth, Tokenize, Balanced, Proper, Text;
    if s[i] == '`' {
      chunks, subs := [""], [];
      EmptyWritten(s, i, tables);
    } else if s[i] == '$' && i + 1 < |s| && s[i + 1] == '{' {
      var end := SubstitutionEnd(s, i + 2, 1).value;
      var sub := s[i + 2..end - 1];
      var more, others := TextWritten(s, end, end, parts + [Chunk(s, from, i), Expr(Tokenize(sub, tables).value)], tables);
      SubstitutionWritten(s, i, end, more, others, tables);
      chunks, subs := [""] + more, [sub] + others;
    } else {
      var n := if s[i] == '\\' && i + 1 < |s| then 2 else 1;
      var more, others := TextWritten(s, i + n, from, parts, tables);
      ChunkWritten(s, i, n, more, others, tables);
      chunks, subs := more[0 := s[i..i + n] + more[0]], others;
    }
  }

  lemma EmptyWritten(s: string, i: nat, tables: Tables)
    requires i < |s| && s[i] == '`'
    ensures Proper([""], [], tables) && Begins(s[i..], Text([""], []) + "`")
  {
    assert s[i..][..1] == "`";
  }

  lemma SubstitutionWritten(s: string, i: nat, end: nat, more: seq<string>, others: seq<string>, tables: Tables)
    requires i + 1 < |s| && s[i] == '$' && s[i + 1] == '{' && SubstitutionEnd(s, i + 2, 1) == Some(end)
    requires Tokenize(s[i + 2..end - 1], tables).Ok?
    requires |more| == |others| + 1 && Proper(more, others, tables) && Begins(s[end..], Text(more, others) + "`")
    ensures var chunks, subs := [""] + more, [s[i + 2..end - 1]] + others;
      Proper(chunks, subs, tables) && Begins(s[i..], Text(chunks, subs) + "`")
  {
    hide Tokenize, Balanced, SubstitutionEnd, Text, Chunky;
    var sub := s[i + 2..end - 1];
    EndsAtBrace(s, i + 2, 1);
    SubstitutionIff(s, i + 2, sub);
    var chunks, subs := [""] + more, [sub] + others;
    assert chunks[1..] == more && subs[1..] == others;
    TextOfSubstitution(chunks, subs);
    var rest := Text(more, others) + "`";
    assert s[i..] == "${" + (sub + ("}" + s[end..]));
    assert s[end..] == rest + s[end..][|rest|..];
    SubstitutionBegins(sub, rest, s[end..][|rest|..]);
    NothingChunky(Ending(subs));
  }

  lemma NothingChunky(next: string)
    ensures Chunky("", next)
  {
  }

  lemma SubstitutionBegins(sub: string, rest: string, more: string)
    ensures Begins("${" + (sub + ("}" + (rest + more))), "${" + (sub + ("}" + rest)))
  {
    assert "${" + (sub + ("}" + (rest + more))) == "${" + (sub + ("}" + rest)) + more;
  }

  lemma TextOfSubstitution(chunks: seq<string>, subs: seq<string>)
    requires |chunks| == |subs| + 1 && chunks[0] == "" && subs != []
    ensures Text(chunks, subs) == "${" + (subs[0] + ("}" + Text(chunks[1..], subs[1..])))
    ensures Text(chunks, subs) + "`" == "${" + (subs[0] + ("}" + (Text(chunks[1..], subs[1..]) + "`")))
  {
    hide Rest;
    var all, more := Rest(chunks[1..], subs), Text(chunks[1..], subs[1..]);
    assert all == "${" + (subs[0] + ("}" + more)) by { RestOf(chunks[1..], subs); }
    assert "" + all == all;
    assert all + "`" == "${" + (subs[0] + ("}" + (more + "`")));
  }

  lemma RestOf(chunks: seq<string>, subs: seq<string>)
    requires |chunks| == |subs| && subs != []
    ensures Rest(chunks, subs) == "${" + (subs[0] + ("}" + (chunks[0] + Rest(chunks[1..], subs[1..]))))
  {
  }

  lemma ChunkWritten(s: string, i: nat, n: nat, more: seq<string>, others: seq<string>, tables: Tables)
    requires 1 <= n <= 2 && i + n <= |s| && |more| == |others| + 1
    requires n == 2 <==> s[i] == '\\'
    requires s[i] != '`' && !(s[i] == '$' && i + 1 < |s| && s[i + 1] == '{')
    requires Proper(more, others, tables) && Begins(s[i + n..], Text(more, others) + "`")
    ensures var chunks := more[0 := s[i..i + n] + more[0]];
      Proper(chunks, others, tables) && Begins(s[i..], Text(chunks, others) + "`")
  {
    hide Tokenize, Balanced, Text;
    var chunks := more[0 := s[i..i + n] + more[0]];
    assert chunks[1..] == more[1..];
    TextDrop(chunks, others, n);
    assert chunks[0][n..] == more[0] && chunks[0 := chunks[0][n..]] == more;
    assert s[i..] == s[i..i + n] + s[i + n..];
    ChunkGrows(s, i, n, more[0], more, others);
  }

  lemma ChunkGrows(s: string, i: nat, n: nat, c: string, chunks: seq<string>, subs: seq<string>)
    requires 1 <= n <= 2 && i + n <= |s| && |chunks| == |subs| + 1 && c == chunks[0]
    requires n == 2 <==> s[i] == '\\'
    requires s[i] != '`' && !(s[i] == '$' && i + 1 < |s| && s[i + 1] == '{')
    requires Chunky(c, Ending(subs)) && Begins(s[i + n..], Text(chunks, subs) + "`")
    ensures Chunky(s[i..i + n] + c, Ending(subs))
  {
    var d := s[i..i + n] + c;
    assert d[n..] == c && d[0] == s[i];
    if n == 1 {
      var t := s[i..];
      var grown := chunks[0 := d];
      assert grown[0 := grown[0][1..]] == chunks;
      TextDrop(grown, subs, 1);
      assert t == s[i..i + 1] + s[i + 1..];
      assert Begins(t, Text(grown, subs) + "`");
      AfterFirst(grown, subs, t);
    }
  }

  /** The tokenizer takes a text as a template, up to its closing backtick, exactly when it is made of chunks around
      balanced substitutions that are texts themselves; the parts are the chunks, cooked and raw, around the tokens of the
      substitutions. */
  lemma TemplateIff(s: string, i: nat, tables: Tables)
    requires i <= |s|
    ensures TemplateParts(s, i, i, [], tables).Ok? <==> exists chunks, subs :: StandsAt(s, i, chunks, subs, tables)
    ensures forall chunks, subs :: StandsAt(s, i, chunks, subs, tables) ==>
      TemplateParts(s, i, i, [], tables) == Ok((PartsOf("", chunks, subs, tables), i + |Text(chunks, subs)|))
  {
    hide Text, Proper, PartsOf, TemplateParts;
    if TemplateParts(s, i, i, [], tables).Ok? {
      var chunks, subs := TextWritten(s, i, i, [], tables);
      assert StandsAt(s, i, chunks, subs, tables);
    }
    forall chunks, subs | StandsAt(s, i, chunks, subs, tables)
      ensures TemplateParts(s, i, i, [], tables) == Ok((PartsOf("", chunks, subs, tables), i + |Text(chunks, subs)|))
    {
      TextRead(s, i, i, [], chunks, subs, tables);
      assert s[i..i] == "";
      assert [] + PartsOf("", chunks, subs, tables) == PartsOf("", chunks, subs, tables);
    }
  }

  ghost predicate StandsAt(s: string, i: nat, chunks: seq<string>, subs: seq<string>, tables: Tables) {
    && i <= |s| && |chunks| == |subs| + 1
    && Proper(chunks, subs, tables) && Begins(s[i..], Text(chunks, subs) + "`")
  }
}
