/** Numeric literals: the branch of the tokenizer that reads them, the grammar it accepts, and where that strays from
    the language. */
module Numbers {
  import opened Prelude
  import opened Unicode
  import opened Lexemes

  predicate IsRadixDigit(c: char, radix: nat) {
    IsHex(c) && HexDigit(c) < radix
  }

  predicate IsSign(c: char) { c == '+' || c == '-' }

  function WithoutSeparators(s: string): string {
    if s == [] then [] else (if s[0] == '_' then [] else [s[0]]) + WithoutSeparators(s[1..])
  }

  /** The length of the digits and separators that a text begins with; None when no digit follows a separator. */
  function Digits(t: string, radix: nat): (n: Option<nat>)
    ensures n.Some? ==> n.value <= |t|
  {
    if t == [] || !(IsRadixDigit(t[0], radix) || t[0] == '_') then Some(0)
    else if t[0] == '_' && !(|t| > 1 && IsRadixDigit(t[1], radix)) then None
    else
      var n := Digits(t[1..], radix);
      if n.None? then None else Some(n.value + 1)
  }

  /** A character that may not follow a number. */
  predicate StartsName(t: string, tables: Tables) {
    t != [] && (IsAlphabetic(t[0], tables) || t[0] == '$' || t[0] == '_' || t[0] == '\\')
  }

  function Radix(t: string): nat {
    if |t| > 1 && t[0] == '0' then
      if t[1] == 'b' || t[1] == 'B' then 2
      else if t[1] == 'o' || t[1] == 'O' then 8
      else if t[1] == 'x' || t[1] == 'X' then 16
      else 10
    else 10
  }

  type Reading = Option<(Token, nat)>

  function PrefixedNumber(t: string, tables: Tables): (r: Reading)
    requires Radix(t) != 10
    ensures r.Some? ==> 0 < r.value.1 <= |t|
  {
    if |t| > 2 && t[2] == '_' then None else
    match Digits(t[2..], Radix(t))
    case None => None
    case Some(n) =>
      if 2 + n < |t| && t[2 + n] == 'n' then Some((BigInt(WithoutSeparators(t[..2 + n])), n + 3))
      else if WithoutSeparators(t[2..2 + n]) == [] || StartsName(t[2 + n..], tables) then None
      else Some((Number(WithoutSeparators(t[..2 + n])), n + 2))
  }

  /** The length of a fraction, its point included. */
  function Fraction(t: string): (r: Option<nat>)
    ensures r.Some? ==> r.value <= |t|
  {
    if t == [] || t[0] != '.' then Some(0)
    else if |t| > 1 && t[1] == '_' then None
    else
      var n := Digits(t[1..], 10);
      if n.None? then None else Some(n.value + 1)
  }

  function Exponent(t: string): (r: Option<nat>)
    ensures r.Some? ==> r.value <= |t|
  {
    if t == [] || (t[0] != 'e' && t[0] != 'E') then Some(0) else
    var from := if |t| > 1 && IsSign(t[1]) then 2 else 1;
    if |t| <= from || !IsDigit(t[from]) then None else
    var n := Digits(t[from..], 10);
    if n.None? then None else Some(n.value + from)
  }

  /** The rest of a decimal literal after its first characters. */
  function Finish(t: string, n: nat, tables: Tables): (r: Reading)
    requires 0 < n <= |t|
    ensures r.Some? ==> 0 < r.value.1 <= |t|
  {
    match Exponent(t[n..])
    case None => None
    case Some(e) =>
      if StartsName(t[n + e..], tables) then None else Some((Number(WithoutSeparators(t[..n + e])), n + e))
  }

  function DecimalNumber(t: string, tables: Tables): (r: Reading)
    requires t != [] && IsDigit(t[0])
    ensures r.Some? ==> 0 < r.value.1 <= |t|
  {
    if t[0] == '0' && |t| > 1 && (IsDigit(t[1]) || t[1] == '_') then None else
    match Digits(t, 10)
    case None => None
    case Some(n) =>
      if n < |t| && t[n] == 'n' then Some((BigInt(WithoutSeparators(t[..n])), n + 1)) else
      match Fraction(t[n..])
      case None => None
      case Some(f) =>
        DigitsSome(t);
        Finish(t, n + f, tables)
  }

  lemma DigitsSome(t: string)
    requires t != [] && IsDigit(t[0])
    ensures Digits(t, 10).Some? ==> Digits(t, 10).value > 0
  {
  }

  /** A number that starts with its point. */
  function DottedNumber(t: string, tables: Tables): (r: Reading)
    requires |t| > 1 && t[0] == '.' && IsDigit(t[1])
    ensures r.Some? ==> 0 < r.value.1 <= |t|
  {
    match Digits(t[1..], 10)
    case None => None
    case Some(n) => Finish(t, 1 + n, tables)
  }

  predicate BeginsNumber(t: string) {
    t != [] && (IsDigit(t[0]) || (t[0] == '.' && |t| > 1 && IsDigit(t[1])))
  }

  function NumberAt(t: string, tables: Tables): (r: Reading)
    requires BeginsNumber(t)
    ensures r.Some? ==> 0 < r.value.1 <= |t|
  {
    if t[0] == '.' then DottedNumber(t, tables)
    else if Radix(t) != 10 then PrefixedNumber(t, tables)
    else DecimalNumber(t, tables)
  }

  // ----- the loops -----

  method SkipDigits(s: string, from: nat, radix: nat) returns (i: nat, ok: bool)
    requires from <= |s|
    ensures from <= i <= |s|
    ensures Digits(s[from..], radix) == if ok then Some(i - from) else None
  {
    hide IsRadixDigit;
    i := from;
    while i < |s| && (IsRadixDigit(s[i], radix) || s[i] == '_')
      invariant from <= i <= |s|
      invariant Digits(s[from..], radix) == var n := Digits(s[i..], radix); if n.None? then None else Some(n.value + i - from)
    {
      assert s[i..][1..] == s[i + 1..];
      if s[i] == '_' && (i + 1 >= |s| || !IsRadixDigit(s[i + 1], radix)) { return i, false; }
      i := i + 1;
    }
    return i, true;
  }

  method SkipExponent(s: string, from: nat) returns (i: nat, ok: bool)
    requires from <= |s|
    ensures from <= i <= |s|
    ensures Exponent(s[from..]) == if ok then Some(i - from) else None
  {
    hide Digits;
    if from >= |s| || (s[from] != 'e' && s[from] != 'E') { return from, true; }
    var j := from + 1;
    if j < |s| && IsSign(s[j]) { j := j + 1; }
    if j >= |s| || !IsDigit(s[j]) { return from, false; }
    assert s[from..][j - from..] == s[j..];
    i, ok := SkipDigits(s, j, 10);
  }

  method ReadFinish(s: string, start: nat, at: nat, tables: Tables) returns (r: Reading)
    requires start < at <= |s|
    ensures r == Finish(s[start..], at - start, tables)
  {
    hide Exponent, WithoutSeparators, StartsName;
    var i, ok := SkipExponent(s, at);
    assert s[start..][at - start..] == s[at..];
    if !ok { return None; }
    assert s[start..][i - start..] == s[i..];
    if StartsName(s[i..], tables) { return None; }
    assert s[start..][..i - start] == s[start..i];
    return Some((Number(WithoutSeparators(s[start..i])), i - start));
  }

  method ReadPrefixed(s: string, start: nat, tables: Tables) returns (r: Reading)
    requires start < |s| && Radix(s[start..]) != 10
    ensures r == PrefixedNumber(s[start..], tables)
  {
    hide Digits, WithoutSeparators, StartsName;
    ghost var t := s[start..];
    var radix := Radix(s[start..]);
    if start + 2 < |s| && s[start + 2] == '_' { return None; }
    var i, ok := SkipDigits(s, start + 2, radix);
    assert t[2..] == s[start + 2..];
    if !ok { return None; }
    assert t[i - start..] == s[i..] && t[..i - start] == s[start..i] && t[2..i - start] == s[start + 2..i];
    if i < |s| && s[i] == 'n' { return Some((BigInt(WithoutSeparators(s[start..i])), i - start + 1)); }
    if WithoutSeparators(s[start + 2..i]) == [] || StartsName(s[i..], tables) { return None; }
    return Some((Number(WithoutSeparators(s[start..i])), i - start));
  }

  method ReadDecimal(s: string, start: nat, tables: Tables) returns (r: Reading)
    requires start < |s| && IsDigit(s[start])
    ensures r == DecimalNumber(s[start..], tables)
  {
    hide Digits, WithoutSeparators, StartsName, Finish;
    ghost var t := s[start..];
    if s[start] == '0' && start + 1 < |s| && (IsDigit(s[start + 1]) || s[start + 1] == '_') { return None; }
    var i, ok := SkipDigits(s, start, 10);
    if !ok { return None; }
    assert t[i - start..] == s[i..] && t[..i - start] == s[start..i];
    if i < |s| && s[i] == 'n' { return Some((BigInt(WithoutSeparators(s[start..i])), i - start + 1)); }
    DigitsSome(t);
    if i < |s| && s[i] == '.' {
      if i + 1 < |s| && s[i + 1] == '_' { return None; }
      assert s[i..][1..] == s[i + 1..];
      i, ok := SkipDigits(s, i + 1, 10);
      if !ok { return None; }
    }
    r := ReadFinish(s, start, i, tables);
  }

  method ReadNumber(s: string, start: nat, tables: Tables) returns (r: Reading)
    requires start < |s| && BeginsNumber(s[start..])
    ensures r == NumberAt(s[start..], tables)
  {
    hide Digits, PrefixedNumber, DecimalNumber, Finish, Radix;
    if s[start] == '.' {
      assert s[start..][1..] == s[start + 1..];
      var i, ok := SkipDigits(s, start + 1, 10);
      if !ok { return None; }
      r := ReadFinish(s, start, i, tables);
    } else if Radix(s[start..]) != 10 {
      r := ReadPrefixed(s, start, tables);
    } else {
      r := ReadDecimal(s, start, tables);
    }
  }

  // ----- digits -----

  /** A digit, or a separator between two digits. */
  predicate GroupedAt(d: string, i: nat, radix: nat)
    requires i < |d|
  {
    IsRadixDigit(d[i], radix)
    || (d[i] == '_' && 0 < i < |d| - 1 && IsRadixDigit(d[i - 1], radix) && IsRadixDigit(d[i + 1], radix))
  }

  predicate Grouped(d: string, radix: nat) {
    d != [] && forall i :: 0 <= i < |d| ==> GroupedAt(d, i, radix)
  }

  predicate FollowedAt(d: string, i: nat, radix: nat)
    requires i < |d|
  {
    IsRadixDigit(d[i], radix) || (d[i] == '_' && i < |d| - 1 && IsRadixDigit(d[i + 1], radix))
  }

  predicate Followed(d: string, radix: nat) {
    forall i :: 0 <= i < |d| ==> FollowedAt(d, i, radix)
  }

  predicate Stops(t: string, radix: nat) {
    t == [] || !(IsRadixDigit(t[0], radix) || t[0] == '_')
  }

  lemma FollowedFirst(d: string, radix: nat)
    requires d != []
    ensures Followed(d, radix) <==> FollowedAt(d, 0, radix) && Followed(d[1..], radix)
  {
    hide IsRadixDigit;
    var u := d[1..];
    forall i | 0 <= i < |u| ensures FollowedAt(u, i, radix) <==> FollowedAt(d, i + 1, radix) {
      assert u[i] == d[i + 1];
      if i + 1 < |u| { assert u[i + 1] == d[i + 2]; }
    }
    if FollowedAt(d, 0, radix) && Followed(u, radix) {
      forall i | 0 <= i < |d| ensures FollowedAt(d, i, radix) {
        if i > 0 { assert FollowedAt(u, i - 1, radix); }
      }
    }
  }

  lemma {:induction false} DigitsFollowed(t: string, radix: nat, n: nat)
    requires n <= |t|
    ensures Digits(t, radix) == Some(n) <==> Followed(t[..n], radix) && Stops(t[n..], radix)
  {
    hide IsRadixDigit, Followed, Digits;
    DigitsFirst(t, radix);
    if n == 0 {
      assert t[0..] == t;
      NothingFollows(radix);
      assert t[..0] == [];
    } else {
      var d, u := t[..n], t[1..];
      DigitsFollowed(u, radix, n - 1);
      assert u[n - 1..] == t[n..];
      assert u[..n - 1] == d[1..];
      FollowedFirst(d, radix);
      if n == 1 && |t| > 1 { assert t[n..][0] == t[1]; }
    }
  }

  lemma DigitsFirst(t: string, radix: nat)
    ensures Digits(t, radix) == Some(0) <==> Stops(t, radix)
    ensures t != [] && !Stops(t, radix) ==>
      Digits(t, radix) ==
        if FollowedAt(t, 0, radix) && Digits(t[1..], radix).Some? then Some(Digits(t[1..], radix).value + 1) else None
    ensures !IsRadixDigit('_', radix)
  {
  }

  lemma NothingFollows(radix: nat)
    ensures Followed([], radix)
  {
  }

  lemma UnderscoreIsNoDigit(radix: nat)
    ensures !IsRadixDigit('_', radix)
  {
  }

  lemma GroupedIff(d: string, radix: nat)
    requires d != []
    ensures Grouped(d, radix) <==> d[0] != '_' && Followed(d, radix)
  {
    hide IsRadixDigit;
    UnderscoreIsNoDigit(radix);
    if d[0] != '_' && Followed(d, radix) {
      forall i | 0 <= i < |d| ensures GroupedAt(d, i, radix) {
        assert FollowedAt(d, i, radix);
        if i > 0 { assert FollowedAt(d, i - 1, radix); }
      }
    }
    if Grouped(d, radix) {
      assert GroupedAt(d, 0, radix);
      forall i | 0 <= i < |d| ensures FollowedAt(d, i, radix) {
        assert GroupedAt(d, i, radix);
      }
    }
  }

  /** A run of digits is taken exactly when each separator in it stands between two digits, and to its end. */
  lemma DigitsIff(t: string, radix: nat, n: nat)
    requires n <= |t| && (t == [] || t[0] != '_')
    ensures Digits(t, radix) == Some(n) <==> (n == 0 || Grouped(t[..n], radix)) && Stops(t[n..], radix)
  {
    hide IsRadixDigit, Followed, Grouped, Stops;
    DigitsFollowed(t, radix, n);
    if n > 0 {
      GroupedIff(t[..n], radix);
    } else {
      NothingFollows(radix);
      assert t[..0] == [];
    }
  }
}
