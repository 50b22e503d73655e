/** Search backward over a token list for the bracket that a closing one matches. */
module BracketMatch {
  import opened Prelude

  function Count<T(==)>(ts: seq<T>, x: T): nat {
    if ts == [] then 0 else Count(ts[1..], x) + if ts[0] == x then 1 else 0
  }

  /** Closing tokens minus opening ones; a token that is both counts as closing. */
  function Balance<T(==)>(ts: seq<T>, open: T, close: T): int {
    if ts == [] then 0
    else Balance(ts[1..], open, close) + if ts[0] == close then 1 else if ts[0] == open then -1 else 0
  }

  /** An opening token from which, up to the starting place, opening tokens are at least as many as closing ones. */
  predicate Candidate<T(==)>(ts: seq<T>, from: nat, k: nat, open: T, close: T) {
    k <= from < |ts| && ts[k] == open && open != close && Balance(ts[k..from + 1], open, close) <= 0
  }

  ghost predicate IsGreatest<T>(ts: seq<T>, from: nat, r: Option<nat>, open: T, close: T) {
    match r
    case Some(k) => Candidate(ts, from, k, open, close) && forall j :: k < j <= from ==> !Candidate(ts, from, j, open, close)
    case None => forall j :: 0 <= j <= from ==> !Candidate(ts, from, j, open, close)
  }

  /** The greatest such index below a bound. */
  function MatchingOpen<T(==)>(ts: seq<T>, from: nat, below: nat, open: T, close: T): (r: Option<nat>)
    requires below <= from + 1 <= |ts|
    ensures r.Some? ==> r.value < below
  {
    if below == 0 then None
    else if Candidate(ts, from, below - 1, open, close) then Some(below - 1)
    else MatchingOpen(ts, from, below - 1, open, close)
  }

  lemma {:induction false} GreatestIsMatching<T>(ts: seq<T>, from: nat, below: nat, r: Option<nat>, open: T, close: T)
    requires below <= from + 1 <= |ts| && IsGreatest(ts, from, r, open, close)
    requires forall j :: below <= j <= from ==> !Candidate(ts, from, j, open, close)
    ensures r == MatchingOpen(ts, from, below, open, close)
  {
    hide Balance;
    if below > 0 {
      if Candidate(ts, from, below - 1, open, close) {
        assert r.Some?;
      } else {
        GreatestIsMatching(ts, from, below - 1, r, open, close);
      }
    }
  }

  method FindMatchingOpenIndex<T(==)>(tokens: seq<T>, closeIndex: nat, open: T, close: T) returns (r: Option<nat>)
    requires closeIndex < |tokens|
    ensures IsGreatest(tokens, closeIndex, r, open, close)
    ensures r == MatchingOpen(tokens, closeIndex, closeIndex + 1, open, close)
  {
    hide MatchingOpen;
    var depth: nat := 0;
    var idx := closeIndex + 1;
    assert tokens[idx..idx] == [];
    while idx > 0
      invariant 0 <= idx <= closeIndex + 1
      invariant depth as int == Balance(tokens[idx..closeIndex + 1], open, close)
      invariant forall j :: idx <= j <= closeIndex ==> !Candidate(tokens, closeIndex, j, open, close)
    {
      idx := idx - 1;
      var tk := tokens[idx];
      assert tokens[idx..closeIndex + 1][1..] == tokens[idx + 1..closeIndex + 1];
      if tk == close {
        depth := depth + 1;
      } else if tk == open {
        depth := if depth > 0 then depth - 1 else 0;
        if depth == 0 {
          r := Some(idx);
          GreatestIsMatching(tokens, closeIndex, closeIndex + 1, r, open, close);
          return;
        }
      }
    }
    r := None;
    GreatestIsMatching(tokens, closeIndex, closeIndex + 1, r, open, close);
  }

  // ----- called on a closing token -----

  /** As many opening as closing tokens from k up to the starting place. */
  predicate Balanced<T(==)>(ts: seq<T>, from: nat, k: nat, open: T, close: T) {
    k <= from < |ts| && Count(ts[k..from + 1], open) == Count(ts[k..from + 1], close)
  }

  lemma {:induction false} BalanceIsDifference<T>(ts: seq<T>, open: T, close: T)
    requires open != close
    ensures Balance(ts, open, close) == Count(ts, close) - Count(ts, open)
  {
    if ts != [] { BalanceIsDifference(ts[1..], open, close); }
  }

  /** Going back from a closing token, the balance is positive until the first place where it is zero, and that
      place holds an opening token. */
  lemma {:induction false} PositiveUntilBalanced<T>(ts: seq<T>, from: nat, k: nat, open: T, close: T)
    requires k <= from < |ts| && ts[from] == close && open != close
    requires forall j :: k < j <= from ==> !Balanced(ts, from, j, open, close)
    ensures Balance(ts[k..from + 1], open, close) >= 0
    ensures Balance(ts[k..from + 1], open, close) == 0 <==> Balanced(ts, from, k, open, close)
    ensures Balance(ts[k..from + 1], open, close) == 0 ==> ts[k] == open
    decreases from - k
  {
    BalanceIsDifference(ts[k..from + 1], open, close);
    if k < from {
      PositiveUntilBalanced(ts, from, k + 1, open, close);
      assert ts[k..from + 1][1..] == ts[k + 1..from + 1];
      assert !Balanced(ts, from, k + 1, open, close);
    } else {
      assert ts[k..from + 1] == [close];
      assert [close][1..] == [];
    }
  }

  /** On a closing token the search finds the greatest index from which opening and closing tokens balance, and
      None exactly when there is no such index. */
  lemma FindsBalancedOpen<T>(ts: seq<T>, from: nat, r: Option<nat>, open: T, close: T)
    requires from < |ts| && ts[from] == close && open != close
    requires IsGreatest(ts, from, r, open, close)
    ensures match r
      case Some(k) => ts[k] == open && Balanced(ts, from, k, open, close) && (forall j :: k < j <= from ==> !Balanced(ts, from, j, open, close))
      case None => (forall j :: 0 <= j <= from ==> !Balanced(ts, from, j, open, close))
  {
    var low := if r.Some? then r.value + 1 else 0;
    NoneBalanced(ts, from, low, open, close);
    if r.Some? { PositiveUntilBalanced(ts, from, r.value, open, close); }
  }

  lemma {:induction false} NoneBalanced<T>(ts: seq<T>, from: nat, low: nat, open: T, close: T)
    requires from < |ts| && low <= from + 1 && ts[from] == close && open != close
    requires forall j :: low <= j <= from ==> !Candidate(ts, from, j, open, close)
    ensures forall j :: low <= j <= from ==> !Balanced(ts, from, j, open, close)
    decreases from + 1 - low
  {
    if low <= from {
      NoneBalanced(ts, from, low + 1, open, close);
      PositiveUntilBalanced(ts, from, low, open, close);
      assert !Candidate(ts, from, low, open, close);
    }
  }
}
