/** The numeric literals of the language, by its own productions, and which of them and of other texts the tokenizer
    accepts. */
module NumericLiterals {
  import opened Prelude
  import opened Unicode
  import opened Lexemes
  import opened Numbers
  import opened NumberGrammar

  // ----- section 12.9.3 of ECMA-262, without the legacy forms that strict mode code lacks -----

  /** A digit, or digits and a digit, perhaps with a separator between. */
  predicate IsDigits(t: string, radix: nat) {
    var n := |t|;
    n > 0 && IsRadixDigit(t[n - 1], radix)
    && (n == 1 || IsDigits(t[..n - 1], radix) || (n > 2 && t[n - 2] == '_' && IsDigits(t[..n - 2], radix)))
  }

  /** Zero, or a digit other than zero and digits, perhaps with a separator between. */
  predicate IsInteger(t: string) {
    t == "0"
    || (t != [] && IsDigit(t[0]) && t[0] != '0'
        && (|t| == 1 || IsDigits(t[1..], 10) || (t[1] == '_' && IsDigits(t[2..], 10))))
  }

  predicate IsExponent(t: string) {
    |t| > 1 && (t[0] == 'e' || t[0] == 'E')
    && (IsDigits(t[1..], 10) || (IsSign(t[1]) && IsDigits(t[2..], 10)))
  }

  /** A whole part, a fraction and an exponent, some of them missing. */
  predicate AreParts(whole: string, fraction: string, exponent: string) {
    && (exponent == [] || IsExponent(exponent))
    && (fraction == [] || fraction[0] == '.')
    && (|fraction| <= 1 || IsDigits(fraction[1..], 10))
    && if whole == [] then |fraction| > 1 else IsInteger(whole)
  }

  ghost predicate IsDecimal(t: string) {
    exists whole, fraction, exponent :: t == whole + fraction + exponent && AreParts(whole, fraction, exponent)
  }

  predicate IsPrefixed(t: string) {
    Radix(t) != 10 && IsDigits(t[2..], Radix(t))
  }

  predicate IsBigInteger(t: string) {
    t != [] && t[|t| - 1] == 'n' && (IsInteger(t[..|t| - 1]) || IsPrefixed(t[..|t| - 1]))
  }

  ghost predicate IsNumericLiteral(t: string) {
    IsDecimal(t) || IsPrefixed(t) || IsBigInteger(t)
  }

  // ----- digits -----

  lemma {:induction false} DigitsAreGrouped(t: string, radix: nat)
    ensures IsDigits(t, radix) <==> Grouped(t, radix)
    decreases |t|
  {
    hide IsRadixDigit, Grouped;
    var n := |t|;
    if n > 0 {
      UnderscoreIsNoDigit(radix);
      DigitsAreGrouped(t[..n - 1], radix);
      LastGrouped(t, radix);
      if n > 2 { DigitsAreGrouped(t[..n - 2], radix); }
    } else {
      NoneGrouped(radix);
    }
  }

  lemma NoneGrouped(radix: nat)
    ensures !Grouped([], radix)
  {
  }

  /** Grouped digits by their last one. */
  lemma LastGrouped(t: string, radix: nat)
    requires t != []
    ensures var n := |t|;
      Grouped(t, radix) <==> (IsRadixDigit(t[n - 1], radix)
        && (n == 1 || Grouped(t[..n - 1], radix) || (n > 2 && t[n - 2] == '_' && Grouped(t[..n - 2], radix))))
  {
    hide IsRadixDigit;
    UnderscoreIsNoDigit(radix);
    var n := |t|;
    if Grouped(t, radix) {
      assert GroupedAt(t, n - 1, radix);
      if n > 1 {
        assert GroupedAt(t, n - 2, radix);
        var k := if t[n - 2] == '_' then n - 2 else n - 1;
        Shortened(t, k, radix);
      }
    }
    if IsRadixDigit(t[n - 1], radix) {
      if n > 1 && Grouped(t[..n - 1], radix) { Lengthened(t, n - 1, radix); }
      if n > 2 && t[n - 2] == '_' && Grouped(t[..n - 2], radix) { Lengthened(t, n - 2, radix); }
    }
  }

  lemma Shortened(t: string, k: nat, radix: nat)
    requires Grouped(t, radix) && 0 < k < |t| && IsRadixDigit(t[k - 1], radix)
    ensures Grouped(t[..k], radix)
  {
    hide IsRadixDigit;
    UnderscoreIsNoDigit(radix);
    var d := t[..k];
    forall i | 0 <= i < k ensures GroupedAt(d, i, radix) { assert GroupedAt(t, i, radix); }
  }

  lemma Lengthened(t: string, k: nat, radix: nat)
    requires 0 < k < |t| && Grouped(t[..k], radix) && IsRadixDigit(t[|t| - 1], radix)
    requires k == |t| - 1 || (k == |t| - 2 && t[k] == '_')
    ensures Grouped(t, radix)
  {
    hide IsRadixDigit;
    UnderscoreIsNoDigit(radix);
    var d := t[..k];
    assert GroupedAt(d, k - 1, radix);
    forall i | 0 <= i < |t| ensures GroupedAt(t, i, radix) {
      if i < k {
        assert GroupedAt(d, i, radix);
        assert d[i] == t[i];
        if i > 0 { assert d[i - 1] == t[i - 1]; }
        if i < k - 1 { assert d[i + 1] == t[i + 1]; }
      }
    }
  }

  lemma IntegerIsWhole(t: string)
    ensures IsInteger(t) <==> WholeOk(t)
  {
    hide IsRadixDigit, Grouped;
    NoneGrouped(10);
    if t != [] {
      DecimalDigit(t[0]);
      FirstGrouped(t);
      if |t| > 1 { DigitsAreGrouped(t[1..], 10); }
      if |t| > 2 { DigitsAreGrouped(t[2..], 10); }
    }
  }

  /** Grouped digits by their first one. */
  lemma FirstGrouped(t: string)
    requires t != []
    ensures Grouped(t, 10) <==> (IsRadixDigit(t[0], 10)
      && (|t| == 1 || Grouped(t[1..], 10) || (t[1] == '_' && Grouped(t[2..], 10))))
  {
    hide IsRadixDigit;
    UnderscoreIsNoDigit(10);
    GroupedIff(t, 10);
    FollowedFirst(t, 10);
    if |t| > 1 {
      var u := t[1..];
      GroupedIff(u, 10);
      FollowedFirst(u, 10);
      assert u[1..] == t[2..];
      NoneGrouped(10);
      if |t| > 2 {
        GroupedIff(t[2..], 10);
        if Grouped(t[2..], 10) { assert GroupedAt(t[2..], 0, 10); }
        if Followed(u, 10) { assert FollowedAt(u, 0, 10); }
      }
    }
  }

  // ----- the tokenizer's grammar against the language's -----

  lemma ExponentIff(t: string) returns (p: Option<Power>)
    requires t == [] || IsExponent(t)
    ensures PowerOk(p) && PowerText(p) == t
  {
    hide IsRadixDigit, Grouped, IsDigits;
    if t == [] {
      p := None;
    } else {
      var from := if IsDigits(t[1..], 10) then 1 else 2;
      DigitsAreGrouped(t[from..], 10);
      p := Some(Power(t[0], t[1..from], t[from..]));
      assert t == [t[0]] + t[1..from] + t[from..];
      if from == 2 { assert t[1..2] == [t[1]]; }
    }
  }

  lemma PowerIsExponent(p: Option<Power>)
    requires PowerOk(p)
    ensures PowerText(p) == [] || IsExponent(PowerText(p))
  {
    hide IsRadixDigit, Grouped, IsDigits;
    if p.Some? {
      var Power(c, sign, d) := p.value;
      var t := PowerText(p);
      NoneGrouped(10);
      DigitsAreGrouped(d, 10);
      assert t == [c] + (sign + d);
      assert t[1..] == sign + d;
      if sign == "" { assert sign + d == d; } else { assert t[2..] == d; }
    }
  }

  /** A literal of the tokenizer's grammar that is legal is one of the language... */
  lemma LegalIsLiteral(lit: Literal)
    requires Legal(lit)
    ensures IsNumericLiteral(Text(lit))
  {
    hide IsRadixDigit, Grouped, IsDigits, IsInteger, WholeOk, Radix, IsDecimal;
    var t := Text(lit);
    match lit
    case Prefixed(c, d, big) =>
      DigitsAreGrouped(d, RadixOf(lit));
      PrefixedStem(lit);
      if big { assert t[..|t| - 1] == Stem(lit); } else { assert t == Stem(lit); }
    case DecimalBig(whole) =>
      IntegerIsWhole(whole);
      assert t[..|t| - 1] == whole;
    case Decimal(_, _, _) => DecimalIsLiteral(lit);
    case Dotted(_, _) => DottedIsLiteral(lit);
  }

  lemma DecimalIsLiteral(lit: Literal)
    requires lit.Decimal? && Legal(lit)
    ensures IsDecimal(Text(lit))
  {
    hide IsRadixDigit, Grouped, IsDigits, IsInteger, IsExponent, WholeOk, PowerText, PowerOk;
    var Decimal(whole, f, p) := lit;
    IntegerIsWhole(whole);
    PowerIsExponent(p);
    if f.Some? {
      DigitsAreGrouped(f.value, 10);
      assert FractionText(f)[1..] == f.value;
    }
    WholeNotEmpty(whole);
    assert Text(lit) == whole + FractionText(f) + PowerText(p);
    assert AreParts(whole, FractionText(f), PowerText(p));
  }

  lemma DottedIsLiteral(lit: Literal)
    requires lit.Dotted? && Legal(lit)
    ensures IsDecimal(Text(lit))
  {
    hide IsRadixDigit, Grouped, IsDigits, IsInteger, IsExponent, PowerText, PowerOk;
    var Dotted(d, p) := lit;
    PowerIsExponent(p);
    DigitsAreGrouped(d, 10);
    NoneGrouped(10);
    var fraction := "." + d;
    assert fraction[1..] == d;
    assert [] + fraction == fraction;
    assert Text(lit) == [] + fraction + PowerText(p);
    assert AreParts([], fraction, PowerText(p));
  }

  lemma WholeNotEmpty(whole: string)
    requires WholeOk(whole)
    ensures whole != []
  {
  }

  lemma PrefixedStem(lit: Literal)
    requires lit.Prefixed?
    ensures Stem(lit)[2..] == lit.digits && Radix(Stem(lit)) == RadixOf(lit)
  {
  }

  /** ...and every literal of the language is one. */
  lemma LiteralIsLegal(t: string) returns (lit: Literal)
    requires IsNumericLiteral(t)
    ensures Legal(lit) && Text(lit) == t
  {
    hide IsRadixDigit, Grouped, IsDigits, IsInteger, IsExponent, WholeOk, PowerText, PowerOk, Radix;
    if IsPrefixed(t) {
      lit := PrefixedLegal(t, false);
    } else if IsBigInteger(t) {
      var stem := t[..|t| - 1];
      assert t == stem + "n";
      if IsInteger(stem) {
        IntegerIsWhole(stem);
        lit := DecimalBig(stem);
      } else {
        lit := PrefixedLegal(stem, true);
      }
    } else {
      var whole, fraction, exponent :| t == whole + fraction + exponent && AreParts(whole, fraction, exponent);
      lit := DecimalLegal(whole, fraction, exponent);
    }
  }

  lemma PrefixedLegal(t: string, big: bool) returns (lit: Literal)
    requires IsPrefixed(t)
    ensures Legal(lit) && Stem(lit) == t && Text(lit) == t + if big then "n" else ""
  {
    hide IsRadixDigit, Grouped, IsDigits;
    var d := t[2..];
    DigitsAreGrouped(d, Radix(t));
    NoneGrouped(Radix(t));
    lit := Prefixed(t[1], d, big);
    assert t == ['0', t[1]] + d;
    assert t + "" == t;
  }

  lemma DecimalLegal(whole: string, fraction: string, exponent: string) returns (lit: Literal)
    requires AreParts(whole, fraction, exponent)
    ensures Legal(lit) && Text(lit) == whole + fraction + exponent
  {
    hide IsRadixDigit, Grouped, IsDigits, IsInteger, IsExponent, WholeOk, PowerText, PowerOk;
    var p := ExponentIff(exponent);
    if |fraction| > 1 { DigitsAreGrouped(fraction[1..], 10); }
    if fraction != [] { assert fraction == "." + fraction[1..]; }
    if whole == [] {
      lit := Dotted(fraction[1..], p);
      assert Text(lit) == fraction + exponent;
      assert [] + fraction == fraction;
    } else {
      IntegerIsWhole(whole);
      var f := if fraction == [] then None else Some(fraction[1..]);
      lit := Decimal(whole, f, p);
      assert FractionText(f) == fraction;
      assert Text(lit) == whole + fraction + exponent;
    }
  }

  /** An accepted literal is one of the language exactly when it has digits. */
  lemma LiteralIff(lit: Literal, tables: Tables)
    requires Accepted(lit)
    ensures IsNumericLiteral(Text(lit)) <==> Legal(lit)
  {
    hide IsNumericLiteral, Accepted, Legal, Stem;
    if Legal(lit) { LegalIsLiteral(lit); }
    if IsNumericLiteral(Text(lit)) {
      var other := LiteralIsLegal(Text(lit));
      LegalIsAccepted(other);
      SameToken(lit, other, tables);
      if IsBig(lit) {
        StemOfText(lit);
        StemOfText(other);
      }
      StemTells(lit);
      StemTells(other);
    }
  }

  lemma StemOfText(lit: Literal)
    requires IsBig(lit)
    ensures Text(lit) != [] && Stem(lit) == Text(lit)[..|Text(lit)| - 1]
  {
  }

  lemma LegalIsAccepted(lit: Literal)
    requires Legal(lit)
    ensures Accepted(lit)
  {
  }

  /** Literals with one text are one token. */
  lemma SameToken(lit: Literal, other: Literal, tables: Tables)
    requires Accepted(lit) && Accepted(other) && Text(lit) == Text(other)
    ensures TokenOf(lit) == TokenOf(other)
  {
    hide Text, Accepted, TokenOf, NumberAt;
    LiteralRead(lit, "", tables) by { NothingEnds(lit, tables); }
    LiteralRead(other, "", tables) by { NothingEnds(other, tables); }
  }

  lemma NothingEnds(lit: Literal, tables: Tables)
    ensures Ends(lit, "", tables)
  {
  }

  /** Whether an accepted literal is legal can be seen from its text without the suffix. */
  lemma StemTells(lit: Literal)
    requires Accepted(lit)
    ensures IsBig(lit) ==>
      (Legal(lit) <==> |Stem(lit)| != 2 || IsDigit(Stem(lit)[1]) || Stem(lit)[1] == '_')
    ensures !IsBig(lit) ==> Legal(lit)
  {
    hide Grouped, IsRadixDigit;
    NoneGrouped(RadixOf(lit));
    if lit.DecimalBig? && |lit.whole| > 1 { DigitNotLetter(lit.whole); }
  }

  /** Exactly where a literal that is read strays from the language: it has a prefix and no digits, or an identifier
      or a digit follows at once. */
  lemma StraysIff(lit: Literal, rest: string, tables: Tables)
    requires Accepted(lit) && Ends(lit, rest, tables)
    ensures IsNumericLiteral(Text(lit)) && LegallyEnds(lit, rest, tables) <==>
      !(lit.Prefixed? && lit.digits == []) && !StartsIdentifier(rest, tables) && !(rest != [] && IsDigit(rest[0]))
  {
    hide IsNumericLiteral, Text, Accepted, Ends;
    LiteralIff(lit, tables);
    NumberGrammar.StraysIff(lit, rest, tables);
  }

  /** Every literal of the language is accepted where it ends, unless an alphabetic character that starts no identifier
      follows. */
  lemma LiteralAccepted(t: string, rest: string, tables: Tables) returns (lit: Literal)
    requires IsNumericLiteral(t)
    ensures Accepted(lit) && Text(lit) == t
    ensures LegallyEnds(lit, rest, tables) ==> (Ends(lit, rest, tables) <==> IsBig(lit) || !StartsName(rest, tables))
  {
    hide IsNumericLiteral, Text, Ends;
    lit := LiteralIsLegal(t);
    if LegallyEnds(lit, rest, tables) { LegalAccepted(lit, rest, tables); }
  }
}
