/** The grammar of the numeric literals the tokenizer accepts, that it accepts exactly these, and where it strays from
    the language. */
module NumberGrammar {
  import opened Prelude
  import opened Unicode
  import opened Lexemes
  import opened Numbers

  datatype Power = Power(letter: char, sign: string, digits: string)

  datatype Literal =
    | Prefixed(letter: char, digits: string, big: bool)
    | Decimal(whole: string, fraction: Option<string>, power: Option<Power>)
    | DecimalBig(whole: string)
    | Dotted(decimals: string, power: Option<Power>)

  function PowerText(p: Option<Power>): string {
    if p.None? then "" else [p.value.letter] + p.value.sign + p.value.digits
  }

  function FractionText(f: Option<string>): string {
    if f.None? then "" else "." + f.value
  }

  /** The literal without the suffix of big integers. */
  function Stem(lit: Literal): string {
    match lit
    case Prefixed(c, digits, _) => ['0', c] + digits
    case Decimal(whole, fraction, power) => whole + FractionText(fraction) + PowerText(power)
    case DecimalBig(whole) => whole
    case Dotted(decimals, power) => "." + decimals + PowerText(power)
  }

  predicate IsBig(lit: Literal) {
    lit.DecimalBig? || (lit.Prefixed? && lit.big)
  }

  function Text(lit: Literal): string {
    Stem(lit) + if IsBig(lit) then "n" else ""
  }

  function TokenOf(lit: Literal): Token {
    if IsBig(lit) then BigInt(WithoutSeparators(Stem(lit))) else Number(WithoutSeparators(Stem(lit)))
  }

  function RadixOf(lit: Literal): nat {
    if lit.Prefixed? then Radix(['0', lit.letter]) else 10
  }

  predicate WholeOk(d: string) {
    Grouped(d, 10) && (|d| == 1 || d[0] != '0')
  }

  predicate PowerOk(p: Option<Power>) {
    p.Some? ==>
      && (p.value.letter == 'e' || p.value.letter == 'E')
      && (p.value.sign == "" || p.value.sign == "+" || p.value.sign == "-")
      && Grouped(p.value.digits, 10)
  }

  predicate Accepted(lit: Literal) {
    match lit
    case Prefixed(_, digits, big) => RadixOf(lit) != 10 && (Grouped(digits, RadixOf(lit)) || (digits == [] && big))
    case Decimal(whole, f, power) => WholeOk(whole) && PowerOk(power) && (f.Some? ==> f.value == [] || Grouped(f.value, 10))
    case DecimalBig(whole) => WholeOk(whole)
    case Dotted(decimals, power) => Grouped(decimals, 10) && PowerOk(power)
  }

  /** The literal ends before that text. */
  predicate Ends(lit: Literal, rest: string, tables: Tables) {
    IsBig(lit) || (Stops(rest, RadixOf(lit)) && !StartsName(rest, tables) && (IsBare(lit) ==> !Begins(rest, ".")))
  }

  predicate IsBare(lit: Literal) {
    lit.Decimal? && lit.fraction.None? && lit.power.None?
  }

  // ----- literals are read -----

  lemma DigitsRead(d: string, rest: string, radix: nat)
    requires (d == [] || Grouped(d, radix)) && Stops(rest, radix)
    ensures Digits(d + rest, radix) == Some(|d|)
  {
    hide Followed, IsRadixDigit;
    var t := d + rest;
    assert t[..|d|] == d && t[|d|..] == rest;
    if d != [] { GroupedIff(d, radix); }
    DigitsIff(t, radix, |d|);
  }

  lemma GroupedStarts(d: string)
    requires Grouped(d, 10)
    ensures d != [] && IsDigit(d[0])
  {
    assert GroupedAt(d, 0, 10);
  }

  lemma PowerRead(p: Option<Power>, rest: string, tables: Tables)
    requires PowerOk(p) && Stops(rest, 10) && !StartsName(rest, tables)
    ensures Exponent(PowerText(p) + rest) == Some(|PowerText(p)|)
  {
    hide Grouped, IsRadixDigit, Digits, Stops, StartsName;
    if p.Some? {
      var Power(c, sign, d) := p.value;
      GroupedStarts(d);
      DigitsRead(d, rest, 10);
      PowerParts(c, sign, d + rest);
      assert PowerText(p) + rest == [c] + sign + (d + rest);
    } else {
      assert PowerText(p) + rest == rest;
      NoSuffix(rest, tables);
    }
  }

  lemma PowerParts(c: char, sign: string, more: string)
    requires (sign == "" || sign == "+" || sign == "-") && more != [] && IsDigit(more[0])
    ensures var t := [c] + sign + more;
      && t[1 + |sign|..] == more && t[1 + |sign|] == more[0] && |t| > 1 && (IsSign(t[1]) <==> |sign| == 1)
  {
    if sign == "" { assert [c] + sign + more == [c] + more; }
  }

  lemma FinishRead(head: string, p: Option<Power>, rest: string, tables: Tables)
    requires head != [] && PowerOk(p) && Stops(rest, 10) && !StartsName(rest, tables)
    ensures Finish(head + PowerText(p) + rest, |head|, tables)
         == Some((Number(WithoutSeparators(head + PowerText(p))), |head + PowerText(p)|))
  {
    hide Exponent, PowerText, PowerOk, StartsName, Stops, WithoutSeparators;
    var t := head + PowerText(p) + rest;
    PowerRead(p, rest, tables);
    assert t[|head|..] == PowerText(p) + rest;
    assert t[|head + PowerText(p)|..] == rest;
    assert t[..|head + PowerText(p)|] == head + PowerText(p);
  }

  lemma FractionRead(f: Option<string>, after: string)
    requires (f.Some? ==> f.value == [] || Grouped(f.value, 10)) && Stops(after, 10) && (f.None? ==> !Begins(after, "."))
    ensures Fraction(FractionText(f) + after) == Some(|FractionText(f)|)
  {
    hide Digits, IsRadixDigit;
    var t := FractionText(f) + after;
    if f.Some? {
      assert t[1..] == f.value + after;
      DigitsRead(f.value, after, 10);
      if f.value != [] { GroupedIff(f.value, 10); }
      if |t| > 1 { assert t[1] == (f.value + after)[0]; }
    } else {
      assert t == after;
    }
  }

  lemma PrefixedRead(lit: Literal, rest: string, tables: Tables)
    requires lit.Prefixed? && Accepted(lit) && Ends(lit, rest, tables)
    ensures PrefixedReads(lit, Text(lit) + rest, tables)
  {
    hide Digits, Grouped, IsRadixDigit, WithoutSeparators, Stops, StartsName, PrefixedNumber;
    hide Text, Stem;
    var t, d := Text(lit) + rest, lit.digits;
    var after := if lit.big then "n" + rest else rest;
    PrefixedText(lit, rest, after);
    assert Stops(after, RadixOf(lit)) by { if lit.big { LetterNStops(rest, RadixOf(lit)); } }
    DigitsRead(d, after, RadixOf(lit));
    PrefixedParts(t, lit, d, after);
    if |t| > 2 { FirstNoSeparator(d, after, RadixOf(lit)); }
    if !lit.big {
      SomethingLeft(d, RadixOf(lit));
      NoSuffix(after, tables);
    }
    TakesPrefixed(t, |d|, lit.big, tables);
    assert |Text(lit)| == |d| + if lit.big then 3 else 2 by { PrefixedLength(lit); }
  }

  lemma PrefixedLength(lit: Literal)
    requires lit.Prefixed?
    ensures |Text(lit)| == |lit.digits| + if lit.big then 3 else 2
  {
  }

  lemma TakesPrefixed(t: string, n: nat, big: bool, tables: Tables)
    requires Radix(t) != 10 && 2 + n <= |t| && Digits(t[2..], Radix(t)) == Some(n) && (|t| > 2 ==> t[2] != '_')
    requires big <==> 2 + n < |t| && t[2 + n] == 'n'
    requires !big ==> WithoutSeparators(t[2..2 + n]) != [] && !StartsName(t[2 + n..], tables)
    ensures PrefixedNumber(t, tables) ==
      Some(if big then (BigInt(WithoutSeparators(t[..2 + n])), n + 3) else (Number(WithoutSeparators(t[..2 + n])), n + 2))
  {
    hide Radix, Digits, WithoutSeparators, StartsName;
  }

  lemma PrefixedText(lit: Literal, rest: string, after: string)
    requires lit.Prefixed? && after == if lit.big then "n" + rest else rest
    ensures Text(lit) + rest == ['0', lit.letter] + lit.digits + after
    ensures (Text(lit) + rest)[2..] == lit.digits + after
  {
    if lit.big { assert Text(lit) + rest == ['0', lit.letter] + lit.digits + ("n" + rest); }
    assert ['0', lit.letter] + lit.digits + after == ['0', lit.letter] + (lit.digits + after);
  }

  lemma PrefixedParts(t: string, lit: Literal, d: string, after: string)
    requires lit.Prefixed? && d == lit.digits && t == ['0', lit.letter] + d + after
    ensures t[..2 + |d|] == Stem(lit) && t[2 + |d|..] == after && t[2..2 + |d|] == d
    ensures |t| > 2 ==> t[2] == (d + after)[0]
    ensures after != [] ==> t[2 + |d|] == after[0]
  {
  }

  predicate PrefixedReads(lit: Literal, t: string, tables: Tables) {
    Radix(t) != 10 && PrefixedNumber(t, tables) == Some((TokenOf(lit), |Text(lit)|))
  }

  lemma LetterNStops(rest: string, radix: nat)
    ensures Stops("n" + rest, radix)
  {
  }

  lemma FirstNoSeparator(d: string, after: string, radix: nat)
    requires (d == [] || Grouped(d, radix)) && Stops(after, radix) && d + after != []
    ensures (d + after)[0] != '_'
  {
    if d != [] { GroupedIff(d, radix); }
  }

  lemma SomethingLeft(d: string, radix: nat)
    requires Grouped(d, radix)
    ensures WithoutSeparators(d) != []
  {
    GroupedIff(d, radix);
  }

  lemma NoSuffix(after: string, tables: Tables)
    requires !StartsName(after, tables)
    ensures after != [] ==> !IsLetter(after[0])
  {
  }

  /** A whole part before a text that begins with no digit, separator or prefix letter. */
  lemma WholePart(d: string, after: string)
    requires WholeOk(d) && Stops(after, 10)
    requires after != [] ==> !IsLetter(after[0]) || after[0] == 'n' || after[0] == 'e' || after[0] == 'E'
    ensures BeginsWhole(d, after, d + after)
  {
    hide IsRadixDigit, Digits;
    var t := d + after;
    GroupedStarts(d);
    DigitsRead(d, after, 10);
    assert t[..|d|] == d && t[|d|..] == after;
    if |d| > 1 {
      DigitNotLetter(d);
    } else if after != [] {
      assert t[1] == after[0];
      DecimalDigit(after[0]);
    }
  }

  lemma DigitNotLetter(d: string)
    requires |d| > 1 && Grouped(d, 10)
    ensures IsDigit(d[1]) || d[1] == '_'
  {
    assert GroupedAt(d, 1, 10);
  }

  lemma DecimalDigit(c: char)
    ensures IsRadixDigit(c, 10) <==> IsDigit(c)
  {
  }

  predicate BeginsWhole(d: string, after: string, t: string) {
    && t == d + after && d != [] && IsDigit(t[0]) && Radix(t) == 10 && Digits(t, 10) == Some(|d|)
    && t[..|d|] == d && t[|d|..] == after && !(t[0] == '0' && |t| > 1 && (IsDigit(t[1]) || t[1] == '_'))
  }

  predicate WholeReads(lit: Literal, t: string, tables: Tables) {
    t != [] && IsDigit(t[0]) && Radix(t) == 10 && DecimalNumber(t, tables) == Some((TokenOf(lit), |Text(lit)|))
  }

  lemma DecimalBigRead(lit: Literal, rest: string, tables: Tables)
    requires lit.DecimalBig? && Accepted(lit)
    ensures WholeReads(lit, Text(lit) + rest, tables)
  {
    hide Digits, Grouped, WithoutSeparators, Radix, Finish, Fraction;
    LetterNStops(rest, 10);
    WholePart(lit.whole, "n" + rest);
    assert Text(lit) + rest == lit.whole + ("n" + rest);
  }

  lemma DecimalRead(lit: Literal, rest: string, tables: Tables)
    requires lit.Decimal? && Accepted(lit) && Ends(lit, rest, tables)
    ensures WholeReads(lit, Text(lit) + rest, tables)
  {
    hide Digits, Grouped, WithoutSeparators, Radix, Finish, Fraction, Stops, StartsName, WholeOk, PowerOk, PowerText, FractionText;
    var Decimal(d, f, p) := lit;
    var after := FractionText(f) + (PowerText(p) + rest);
    AfterWhole(lit, rest, tables);
    WholePart(d, after);
    FractionRead(f, PowerText(p) + rest);
    var head := d + FractionText(f);
    FinishRead(head, p, rest, tables);
    assert head + PowerText(p) + rest == d + after;
    assert Text(lit) + rest == d + after;
    assert head + PowerText(p) == Stem(lit);
  }

  lemma AfterWhole(lit: Literal, rest: string, tables: Tables)
    requires lit.Decimal? && Accepted(lit) && Ends(lit, rest, tables)
    ensures var more := PowerText(lit.power) + rest;
      && Stops(more, 10) && Stops(FractionText(lit.fraction) + more, 10)
      && (lit.fraction.None? ==> !Begins(more, "."))
      && AfterOk(FractionText(lit.fraction) + more)
  {
    hide Grouped, IsRadixDigit;
    NoSuffix(rest, tables);
    DecimalDigit('.');
    DecimalDigit('e');
    DecimalDigit('E');
    var more := PowerText(lit.power) + rest;
    if lit.power.None? { assert more == rest; } else { assert more[0] == lit.power.value.letter; }
    if lit.fraction.None? { assert FractionText(lit.fraction) + more == more; }
  }

  predicate AfterOk(after: string) {
    after != [] ==> !IsLetter(after[0]) || after[0] == 'e' || after[0] == 'E'
  }

  lemma DottedRead(lit: Literal, rest: string, tables: Tables)
    requires lit.Dotted? && Accepted(lit) && Ends(lit, rest, tables)
    ensures DottedReads(lit, Text(lit) + rest, tables)
  {
    hide Digits, Grouped, WithoutSeparators, Finish, Stops, StartsName, PowerOk, PowerText, IsRadixDigit;
    var Dotted(d, p) := lit;
    var more := PowerText(p) + rest;
    AfterDecimals(p, rest, tables);
    GroupedStarts(d);
    DigitsRead(d, more, 10);
    var t := Text(lit) + rest;
    assert t == "." + (d + more);
    assert "." + d + PowerText(p) + rest == t;
    assert "." + d + PowerText(p) == Stem(lit);
    FinishRead("." + d, p, rest, tables);
    assert t[1] == d[0];
  }

  predicate DottedReads(lit: Literal, t: string, tables: Tables) {
    |t| > 1 && t[0] == '.' && IsDigit(t[1]) && DottedNumber(t, tables) == Some((TokenOf(lit), |Text(lit)|))
  }

  lemma AfterDecimals(p: Option<Power>, rest: string, tables: Tables)
    requires PowerOk(p) && Stops(rest, 10) && !StartsName(rest, tables)
    ensures Stops(PowerText(p) + rest, 10)
  {
    hide Grouped;
    if p.None? { assert PowerText(p) + rest == rest; }
  }

  /** Every literal of the grammar is read, wherever it ends. */
  lemma LiteralRead(lit: Literal, rest: string, tables: Tables)
    requires Accepted(lit) && Ends(lit, rest, tables)
    ensures BeginsNumber(Text(lit) + rest)
    ensures NumberAt(Text(lit) + rest, tables) == Some((TokenOf(lit), |Text(lit)|))
  {
    hide PrefixedNumber, DecimalNumber, DottedNumber, Text, TokenOf, Accepted, Ends;
    match lit
    case Prefixed(_, _, _) => PrefixedRead(lit, rest, tables);
    case Decimal(_, _, _) => DecimalRead(lit, rest, tables);
    case DecimalBig(_) => DecimalBigRead(lit, rest, tables);
    case Dotted(_, _) => DottedRead(lit, rest, tables);
  }

  // ----- whatever is read is a literal -----

  lemma DigitsWritten(t: string, radix: nat)
    requires Digits(t, radix).Some? && (t == [] || t[0] != '_')
    ensures var n := Digits(t, radix).value; (n == 0 || Grouped(t[..n], radix)) && Stops(t[n..], radix)
  {
    hide Grouped, Stops, Digits;
    DigitsIff(t, radix, Digits(t, radix).value);
  }

  lemma PowerWritten(t: string) returns (p: Option<Power>)
    requires Exponent(t).Some?
    ensures PowerOk(p) && PowerText(p) == t[..Exponent(t).value]
    ensures p.Some? ==> Stops(t[Exponent(t).value..], 10)
    ensures p.None? ==> Exponent(t).value == 0
  {
    hide Grouped, Stops, IsRadixDigit, Digits;
    if t == [] || (t[0] != 'e' && t[0] != 'E') {
      p := None;
    } else {
      var from := if |t| > 1 && IsSign(t[1]) then 2 else 1;
      var n := Digits(t[from..], 10).value;
      DigitsWritten(t[from..], 10);
      DecimalDigit(t[from]);
      NotNone(t[from..]);
      p := Some(Power(t[0], t[1..from], t[from..][..n]));
      assert t[from..][n..] == t[from + n..];
      assert t[..from + n] == [t[0]] + t[1..from] + t[from..][..n];
    }
  }

  lemma NotNone(t: string)
    requires t != [] && IsDigit(t[0]) && Digits(t, 10).Some?
    ensures Digits(t, 10).value > 0
  {
    DecimalDigit(t[0]);
  }

  lemma FractionWritten(t: string) returns (f: Option<string>)
    requires Fraction(t).Some?
    ensures FractionText(f) == t[..Fraction(t).value] && (f.Some? ==> f.value == [] || Grouped(f.value, 10))
    ensures f.Some? ==> Stops(t[Fraction(t).value..], 10)
    ensures f.None? ==> Fraction(t).value == 0 && !Begins(t, ".")
  {
    hide Grouped, Stops, Digits;
    if t == [] || t[0] != '.' {
      f := None;
    } else {
      var n := Digits(t[1..], 10).value;
      DigitsWritten(t[1..], 10);
      f := Some(t[1..][..n]);
      assert t[1..][n..] == t[1 + n..];
      assert t[..1 + n] == "." + t[1..][..n];
    }
  }

  /** A literal that is read off the front of a text. */
  predicate IsAt(lit: Literal, t: string, tables: Tables) {
    Begins(t, Text(lit)) && Accepted(lit) && Ends(lit, t[|Text(lit)|..], tables)
  }

  lemma PrefixedWritten(t: string, tables: Tables) returns (lit: Literal)
    requires t != [] && Radix(t) != 10 && PrefixedNumber(t, tables).Some?
    ensures IsAt(lit, t, tables)
  {
    hide Grouped, Stops, Digits, IsRadixDigit, WithoutSeparators, StartsName;
    var radix, u := Radix(t), t[2..];
    var n := Digits(u, radix).value;
    DigitsWritten(u, radix);
    var d := u[..n];
    assert d == t[2..2 + n] && u[n..] == t[2 + n..];
    var big := 2 + n < |t| && t[2 + n] == 'n';
    lit := Prefixed(t[1], d, big);
    assert ['0', t[1]] == t[..2];
    assert t[..2 + n] == ['0', t[1]] + d;
    if big {
      assert t[..3 + n] == t[..2 + n] + "n";
    } else {
      NothingLeft();
      assert d != [];
      assert Text(lit) == t[..2 + n];
    }
  }

  lemma NothingLeft()
    ensures WithoutSeparators([]) == []
  {
  }

  lemma DecimalWritten(t: string, tables: Tables) returns (lit: Literal)
    requires t != [] && IsDigit(t[0]) && Radix(t) == 10 && DecimalNumber(t, tables).Some?
    ensures IsAt(lit, t, tables)
  {
    hide Grouped, Stops, Digits, IsRadixDigit, WithoutSeparators, StartsName, Fraction, Exponent, Radix, WholeOk;
    var n := Digits(t, 10).value;
    DigitsWritten(t, 10);
    NotNone(t);
    var d := t[..n];
    WholeWritten(t, n);
    if n < |t| && t[n] == 'n' {
      lit := DecimalBig(d);
      assert t[..n + 1] == d + "n";
    } else {
      var k := Fraction(t[n..]).value;
      var e := Exponent(t[n + k..]).value;
      lit := DecimalParts(t, n, k, e, tables);
    }
  }

  lemma DecimalParts(t: string, n: nat, k: nat, e: nat, tables: Tables) returns (lit: Literal)
    requires n + k + e <= |t| && WholeOk(t[..n]) && Stops(t[n..], 10)
    requires Fraction(t[n..]) == Some(k) && Exponent(t[n + k..]) == Some(e) && !StartsName(t[n + k + e..], tables)
    ensures IsAt(lit, t, tables)
  {
    hide Grouped, Stops, StartsName, Fraction, Exponent, PowerOk, PowerText, FractionText, WholeOk;
    var u, v, w := t[n..], t[n + k..], t[n + k + e..];
    assert u[k..] == v && v[e..] == w;
    var f := FractionWritten(u);
    var p := PowerWritten(v);
    lit := Decimal(t[..n], f, p);
    ThreeSlices(t, n, k, e);
    assert Text(lit) == t[..n + k + e];
    EndsDecimal(lit, t, n, k, e, tables);
  }

  lemma WholeWritten(t: string, n: nat)
    requires 0 < n <= |t| && Grouped(t[..n], 10) && !(t[0] == '0' && |t| > 1 && (IsDigit(t[1]) || t[1] == '_'))
    ensures WholeOk(t[..n])
  {
    if n > 1 { DigitNotLetter(t[..n]); }
  }

  lemma ThreeSlices(t: string, n: nat, k: nat, e: nat)
    requires n + k + e <= |t|
    ensures t[..n + k + e] == t[..n] + t[n..][..k] + t[n + k..][..e]
  {
    assert t[n..][..k] == t[n..n + k];
    assert t[n + k..][..e] == t[n + k..n + k + e];
  }

  lemma EndsDecimal(lit: Literal, t: string, n: nat, k: nat, e: nat, tables: Tables)
    requires lit.Decimal? && n + k + e <= |t|
    requires Stops(t[n..], 10) && !StartsName(t[n + k + e..], tables)
    requires lit.fraction.Some? ==> Stops(t[n + k..], 10)
    requires lit.fraction.None? ==> k == 0 && !Begins(t[n..], ".")
    requires lit.power.Some? ==> Stops(t[n + k + e..], 10)
    requires lit.power.None? ==> e == 0
    ensures Ends(lit, t[n + k + e..], tables)
  {
    hide Stops, StartsName;
  }

  lemma DottedWritten(t: string, tables: Tables) returns (lit: Literal)
    requires |t| > 1 && t[0] == '.' && IsDigit(t[1]) && DottedNumber(t, tables).Some?
    ensures IsAt(lit, t, tables)
  {
    hide Grouped, Stops, Digits, IsRadixDigit, WithoutSeparators, StartsName, Exponent, PowerOk;
    var u := t[1..];
    var n := Digits(u, 10).value;
    DigitsWritten(u, 10);
    NotNone(u);
    var v := t[1 + n..];
    var p := PowerWritten(v);
    var e := Exponent(v).value;
    lit := Dotted(u[..n], p);
    assert u[n..] == v;
    assert v[e..] == t[1 + n + e..];
    assert t[..1 + n + e] == "." + u[..n] + v[..e];
    assert Text(lit) == t[..1 + n + e];
  }

  /** The branch accepts exactly the texts that begin with a literal of the grammar that ends there, and takes this
      literal. */
  lemma NumbersIff(t: string, tables: Tables)
    requires BeginsNumber(t)
    ensures NumberAt(t, tables).Some? <==> exists lit :: IsAt(lit, t, tables)
    ensures forall lit :: IsAt(lit, t, tables) ==> NumberAt(t, tables) == Some((TokenOf(lit), |Text(lit)|))
  {
    hide PrefixedNumber, DecimalNumber, DottedNumber, Text, TokenOf, Accepted, Ends, Radix;
    forall lit | IsAt(lit, t, tables) ensures NumberAt(t, tables) == Some((TokenOf(lit), |Text(lit)|)) {
      assert Text(lit) + t[|Text(lit)|..] == t;
      LiteralRead(lit, t[|Text(lit)|..], tables);
    }
    if NumberAt(t, tables).Some? {
      var lit: Literal;
      if t[0] == '.' { lit := DottedWritten(t, tables); }
      else if Radix(t) != 10 { lit := PrefixedWritten(t, tables); }
      else { lit := DecimalWritten(t, tables); }
    }
  }

  // ----- the language -----

  /** Section 12.9.3 of ECMA-262: the literals of strict mode code. */
  predicate Legal(lit: Literal) {
    Accepted(lit) && (lit.Prefixed? ==> lit.digits != [])
  }

  predicate StartsIdentifier(t: string, tables: Tables) {
    t != [] && (IsIdStart(t[0], tables) || t[0] == '$' || t[0] == '_' || t[0] == '\\')
  }

  /** No literal goes on there, and what follows is neither the start of an identifier nor a digit. */
  predicate LegallyEnds(lit: Literal, rest: string, tables: Tables) {
    && !StartsIdentifier(rest, tables) && !(rest != [] && IsDigit(rest[0]))
    && (IsBare(lit) ==> !Begins(rest, "."))
  }

  /** Exactly where an accepted literal is not one of the language: no digits after a prefix, or an identifier or digit
      right after it. */
  lemma StraysIff(lit: Literal, rest: string, tables: Tables)
    requires Accepted(lit) && Ends(lit, rest, tables)
    ensures Legal(lit) && LegallyEnds(lit, rest, tables) <==>
      !(lit.Prefixed? && lit.digits == []) && !StartsIdentifier(rest, tables) && !(rest != [] && IsDigit(rest[0]))
  {
  }

  /** A literal of the language is accepted unless an alphabetic character that starts no identifier follows. */
  lemma LegalAccepted(lit: Literal, rest: string, tables: Tables)
    requires Legal(lit) && LegallyEnds(lit, rest, tables)
    ensures Accepted(lit) && (Ends(lit, rest, tables) <==> IsBig(lit) || !StartsName(rest, tables))
  {
  }

  /** A prefix without digits makes a big integer, a name may follow a big integer, and a digit too large for its
      radix begins another number. */
  lemma StrayLiterals(tables: Tables)
    ensures NumberAt("0xn", tables) == Some((BigInt("0x"), 3))
    ensures NumberAt("1name", tables) == Some((BigInt("1"), 2))
    ensures NumberAt("0b12", tables) == Some((Number("0b1"), 3))
  {
    hide NumberAt;
    Stray(Prefixed('x', "", true), "", "0x", "0xn", tables);
    Stray(DecimalBig("1"), "ame", "1", "1name", tables);
    Stray(Prefixed('b', "1", false), "2", "0b1", "0b12", tables);
  }

  lemma Stray(lit: Literal, rest: string, stem: string, t: string, tables: Tables)
    requires Accepted(lit) && Ends(lit, rest, tables) && Stem(lit) == stem && '_' !in stem
    requires t == stem + (if IsBig(lit) then "n" else "") + rest
    ensures BeginsNumber(t)
    ensures NumberAt(t, tables) == Some(if IsBig(lit) then (BigInt(stem), |stem| + 1) else (Number(stem), |stem|))
  {
    hide NumberAt, Accepted, Ends;
    LiteralRead(lit, rest, tables);
    NoneWithout(stem);
  }

  lemma {:induction false} NoneWithout(s: string)
    requires '_' !in s
    ensures WithoutSeparators(s) == s
  {
    if s != [] { NoneWithout(s[1..]); }
  }
}
