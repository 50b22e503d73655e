/** The branches of the tokenizer's main loop that read one token, and the comments of one line. */
module Branches {
  import opened Prelude
  import opened Lexemes
  import opened Names
  import opened Numbers
  import opened Punctuators
  import opened Slashes
  import S = StringLiterals

  /** Where a single-line comment ends. */
  function LineEnd(s: string, i: nat): (n: nat)
    requires i <= |s|
    ensures i <= n <= |s|
    decreases |s| - i
  {
    if i >= |s| || IsLineEnd(s[i]) then i else LineEnd(s, i + 1)
  }

  method SkipLine(s: string, from: nat) returns (i: nat)
    requires from <= |s|
    ensures i == LineEnd(s, from)
  {
    i := from;
    while i < |s| && !IsLineEnd(s[i])
      invariant from <= i <= |s| && LineEnd(s, from) == LineEnd(s, i)
    {
      i := i + 1;
    }
  }

  /** The comments of Annex B, where they start one: the closing one only as the first token of a line. */
  function HtmlComment(ts: seq<Token>, t: string): (n: nat)
    ensures n <= |t|
  {
    if Begins(t, "-->") && (ts == [] || ts[|ts| - 1].LineTerminator?) then 3
    else if Begins(t, "<!--") then 4
    else 0
  }

  predicate IsHashbang(t: string, first: bool) {
    first && Begins(t, "#!")
  }

  /** A token or none, and how many characters were taken. */
  type Step = Option<(Option<Token>, nat)>

  function Pushing(r: Option<(Token, nat)>): Step {
    if r.None? then None else Some((Some(r.value.0), r.value.1))
  }

  /** One iteration on a text that begins with no space, line end, quote, backtick or comment between slashes. */
  function Branch(ts: seq<Token>, first: bool, t: string, tables: Tables): (r: Step)
    requires t != []
    ensures r.Some? ==> 0 < r.value.1 <= |t|
    ensures r.Some? && r.value.0.Some? ==> !r.value.0.value.Template?
  {
    var comment := HtmlComment(ts, t);
    if comment > 0 then if tables.inModule then None else Some((None, LineEnd(t, comment)))
    else if t[0] == '/' then Pushing(SlashAt(ts, t, tables))
    else if BeginsNumber(t) then Pushing(NumberAt(t, tables))
    else
      match SignLength(t)
      case Some(n) => Some((Some(Punct(t[..n])), n))
      case None =>
        if !BeginsName(t, tables) then None
        else if IsHashbang(t, first) then Some((None, HashbangLength(t)))
        else Pushing(NameAt(t, tables))
  }

  /** It ends at a line feed only. */
  function HashbangLength(t: string): (n: nat)
    requires Begins(t, "#!")
    ensures 0 < n <= |t|
  {
    S.Find(t, LF)
  }

  method ReadBranch(s: string, i: nat, ts: seq<Token>, tables: Tables) returns (r: Step)
    requires i < |s|
    ensures r == Branch(ts, i == 0, s[i..], tables)
  {
    hide LineEnd, SlashAt, NumberAt, SignLength, NameAt, BeginsName, S.Find;
    ghost var t := s[i..];
    var comment := HtmlComment(ts, s[i..]);
    if comment > 0 {
      if tables.inModule { return None; }
      var end := SkipLine(s, i + comment);
      LineEndShifts(s, i, comment);
      return Some((None, end - i));
    }
    if s[i] == '/' {
      var slash := ReadSlash(s, i, ts, tables);
      return Pushing(slash);
    }
    if BeginsNumber(s[i..]) {
      var number := ReadNumber(s, i, tables);
      return Pushing(number);
    }
    var sign := SignLength(s[i..]);
    if sign.Some? {
      assert t[..sign.value] == s[i..i + sign.value];
      return Some((Some(Punct(s[i..i + sign.value])), sign.value));
    }
    if !BeginsName(s[i..], tables) { return None; }
    if IsHashbang(s[i..], i == 0) {
      var end := SkipHashbang(s);
      assert t == s;
      return Some((None, end));
    }
    var name := ReadName(s, i, tables);
    return Pushing(name);
  }

  method SkipHashbang(s: string) returns (i: nat)
    ensures i == S.Find(s, LF)
  {
    i := 0;
    while i < |s| && s[i] != LF
      invariant 0 <= i <= |s| && LF !in s[..i]
    {
      i := i + 1;
    }
    S.FindIs(s, LF, i);
  }

  lemma {:induction false} LineEndShifts(s: string, i: nat, k: nat)
    requires i <= |s| && k <= |s| - i
    ensures LineEnd(s, i + k) == i + LineEnd(s[i..], k)
    decreases |s| - k
  {
    if k < |s| - i && !IsLineEnd(s[i + k]) { LineEndShifts(s, i, k + 1); }
  }
}
