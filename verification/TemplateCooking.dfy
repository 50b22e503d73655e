/** Cooked and raw values of a template chunk. */
module TemplateCooking {
  import opened Prelude
  import opened Unicode
  import opened StringLiterals

  /** How many characters a line end starting with CR takes. */
  function CrWidth(t: string): (n: nat)
    requires t != []
    ensures 1 <= n <= |t|
  {
    if |t| > 1 && t[1] == LF then 2 else 1
  }

  /** The raw value: line ends become LF, everything else is kept. */
  function Raw(t: string): seq<u16>
    decreases |t|
  {
    if t == [] then []
    else if t[0] == CR then [0x0a] + Raw(t[CrWidth(t)..])
    else CharUnits(t[0]) + Raw(t[1..])
  }

  /** After a backslash and a u: the units, and how many characters follow the u. */
  function CookUnicode(t: string): Option<(seq<u16>, nat)> {
    if t == [] then None
    else if t[0] == '{' then
      var n := Find(t[1..], '}');
      var hex := t[1..1 + n];
      if 1 + n >= |t| || hex == [] || !AllHex(hex) then None else
      match Radix16(hex, U32)
      case None => None
      case Some(cp) =>
        if cp <= MAX_CODE_POINT && !IsHigh(cp) && !IsLow(cp) then Some((CodeUnits(cp), n + 2)) else None
    else if |t| < 4 || !AllHex(t[..4]) then None
    else
      match Radix16(t[..4], U16)
      case None => None
      case Some(u) => Some(([u], 4))
  }

  function OneMore(e: Option<(seq<u16>, nat)>): Option<(seq<u16>, nat)> {
    if e.None? then None else Some((e.value.0, e.value.1 + 1))
  }

  /** After a backslash: the units, and how many characters follow the backslash; None for an invalid escape. */
  function CookEscape(t: string): Option<(seq<u16>, nat)> {
    if t == [] then None
    else if t[0] == LF || t[0] == LS || t[0] == PS then Some(([], 1))
    else if t[0] == CR then Some(([], CrWidth(t)))
    else if t[0] == '0' then if |t| > 1 && IsDigit(t[1]) then None else Some(([0], 1))
    else if IsDigit(t[0]) then None
    else if t[0] == 'x' then
      if |t| < 3 || !IsHex(t[1]) || !IsHex(t[2]) then None else
      match Radix16(t[1..3], 0x100)
      case None => None
      case Some(b) => Some(([b], 3))
    else if t[0] == 'u' then OneMore(CookUnicode(t[1..]))
    else if t[0] in "ntrbfv" then Some(([Single(t[0])], 1))
    else Some((CharUnits(t[0]), 1))
  }

  /** The first cooked element: its units and how many characters it takes. */
  function CookElement(t: string): Option<(seq<u16>, nat)>
    requires t != []
  {
    if t[0] == CR then Some(([0x0a], CrWidth(t)))
    else if t[0] != '\\' then Some((CharUnits(t[0]), 1))
    else OneMore(CookEscape(t[1..]))
  }

  lemma CookFits(t: string)
    requires t != []
    ensures CookElement(t).Some? ==> 0 < CookElement(t).value.1 <= |t|
  {
    hide Radix16, CodeUnits, CharUnits;
  }

  /** The cooked value; None when some escape is invalid. */
  function Cook(t: string): Option<seq<u16>>
    decreases |t|
  {
    if t == [] then Some([]) else
    CookFits(t);
    match CookElement(t)
    case None => None
    case Some((us, n)) =>
      match Cook(t[n..])
      case None => None
      case Some(rest) => Some(us + rest)
  }

  // ----- the two loops -----

  method ParseTemplateLiteralChunk(chars: string, start: nat, end: nat)
    returns (cooked: Option<seq<u16>>, raw: seq<u16>)
    requires start <= end <= |chars|
    ensures raw == Raw(chars[start..end])
    ensures cooked == Cook(chars[start..end])
  {
    raw := RawChunk(chars, start, end);
    cooked := CookChunk(chars, start, end);
  }

  method RawChunk(chars: string, start: nat, end: nat) returns (raw: seq<u16>)
    requires start <= end <= |chars|
    ensures raw == Raw(chars[start..end])
  {
    hide CharUnits;
    raw := [];
    var r := start;
    while r < end
      invariant start <= r <= end
      invariant Raw(chars[start..end]) == raw + Raw(chars[r..end])
    {
      ghost var here, before := chars[r..end], raw;
      assert here[1..] == chars[r + 1..end];
      if chars[r] == CR {
        raw := raw + [0x0a];
        if r + 1 < end && chars[r + 1] == LF {
          assert here[2..] == chars[r + 2..end];
          r := r + 2;
        } else {
          r := r + 1;
        }
        Reassociate(before, [0x0a], Raw(chars[r..end]));
      } else {
        raw := raw + CharUnits(chars[r]);
        r := r + 1;
        Reassociate(before, CharUnits(chars[r - 1]), Raw(chars[r..end]));
      }
    }
  }

  lemma Reassociate(us: seq<u16>, vs: seq<u16>, ws: seq<u16>)
    ensures us + (vs + ws) == us + vs + ws
  {
  }

  function Onto(us: seq<u16>, rest: Option<seq<u16>>): Option<seq<u16>> {
    if rest.None? then None else Some(us + rest.value)
  }

  method CookChunk(chars: string, start: nat, end: nat) returns (cooked: Option<seq<u16>>)
    requires start <= end <= |chars|
    ensures cooked == Cook(chars[start..end])
  {
    hide CookElement;
    var units: seq<u16> := [];
    var i := start;
    OntoEmpty([], Cook(chars[start..end]));
    while i < end
      invariant start <= i <= end
      invariant Cook(chars[start..end]) == Onto(units, Cook(chars[i..end]))
    {
      ghost var here := chars[i..end];
      CookFits(here);
      var next := CookOne(chars, i, end);
      if next.None? { return None; }
      assert here[next.value.1 - i..] == chars[next.value.1..end];
      OntoTwice(units, next.value.0, Cook(chars[next.value.1..end]));
      units, i := units + next.value.0, next.value.1;
    }
    assert chars[end..end] == [];
    OntoEmpty(units, Some([]));
    return Some(units);
  }

  lemma OntoEmpty(us: seq<u16>, rest: Option<seq<u16>>)
    ensures us == [] ==> Onto(us, rest) == rest
    ensures rest == Some([]) ==> Onto(us, rest) == Some(us)
  {
    if rest.Some? { assert [] + rest.value == rest.value; }
    assert us + [] == us;
  }

  lemma OntoTwice(us: seq<u16>, vs: seq<u16>, rest: Option<seq<u16>>)
    ensures Onto(us, Onto(vs, rest)) == Onto(us + vs, rest)
  {
    if rest.Some? { assert us + (vs + rest.value) == us + vs + rest.value; }
  }

  /** One turn of the cooking loop: the units pushed and the next index. */
  method CookOne(chars: string, at: nat, end: nat) returns (r: Option<(seq<u16>, nat)>)
    requires at < end <= |chars|
    ensures r.Some? ==> at < r.value.1 <= end
    ensures CookElement(chars[at..end]) == if r.None? then None else Some((r.value.0, r.value.1 - at))
  {
    ghost var t := chars[at..end];
    if chars[at] == CR { return Some(([0x0a], if at + 1 < end && chars[at + 1] == LF then at + 2 else at + 1)); }
    if chars[at] != '\\' { return Some((CharUnits(chars[at]), at + 1)); }
    var i := at + 1;
    if i >= end { return None; }
    var esc := chars[i];
    assert t[1..] == chars[i..end];
    if esc == LF || esc == LS || esc == PS { return Some(([], i + 1)); }
    if esc == CR { return Some(([], if i + 1 < end && chars[i + 1] == LF then i + 2 else i + 1)); }
    if esc == '0' {
      if i + 1 < end && IsDigit(chars[i + 1]) { return None; }
      return Some(([0], i + 1));
    }
    if '1' <= esc <= '9' { return None; }
    if esc == 'x' {
      if i + 2 >= end || !IsHex(chars[i + 1]) || !IsHex(chars[i + 2]) { return None; }
      assert t[1..][1..3] == chars[i + 1..i + 3];
      var b := Radix16(chars[i + 1..i + 3], 0x100);
      if b.None? { return None; }
      return Some(([b.value], i + 3));
    }
    if esc == 'u' {
      assert t[1..][1..] == chars[i + 1..end];
      r := CookUnicodeAt(chars, i + 1, end);
      return;
    }
    if esc in "ntrbfv" { return Some(([Single(esc)], i + 1)); }
    return Some((CharUnits(esc), i + 1));
  }

  method CookUnicodeAt(chars: string, at: nat, end: nat) returns (r: Option<(seq<u16>, nat)>)
    requires at <= end <= |chars|
    ensures r.Some? ==> at < r.value.1 <= end
    ensures CookUnicode(chars[at..end]) == if r.None? then None else Some((r.value.0, r.value.1 - at))
  {
    hide Radix16, CodeUnits, Find, AllHex;
    ghost var t := chars[at..end];
    if at >= end { return None; }
    if chars[at] == '{' {
      var j := at + 1;
      var hex := "";
      while j < end && chars[j] != '}'
        invariant at < j <= end
        invariant hex == chars[at + 1..j]
        invariant '}' !in hex
      {
        hex := hex + [chars[j]];
        j := j + 1;
      }
      SliceOfSlice(chars, at, end, 1, end - at);
      SliceOfSlice(chars, at + 1, end, 0, j - at - 1);
      SliceOfSlice(chars, at, end, 1, j - at);
      FindIs(t[1..], '}', j - at - 1);
      if j >= end || hex == [] || !AllHex(hex) { return None; }
      var cp := Radix16(hex, U32);
      if cp.None? || cp.value > MAX_CODE_POINT || IsHigh(cp.value) || IsLow(cp.value) { return None; }
      return Some((CodeUnits(cp.value), j + 1));
    }
    if at + 4 > end { return None; }
    SliceOfSlice(chars, at, end, 0, 4);
    if !AllHex(chars[at..at + 4]) { return None; }
    var u := Radix16(chars[at..at + 4], U16);
    if u.None? { return None; }
    return Some(([u.value], at + 4));
  }

  // ----- newline normalisation -----

  /** The source with CRLF and CR replaced by LF. */
  function Normalise(t: string): (r: string)
    ensures |r| <= |t|
    decreases |t|
  {
    if t == [] then [] else if t[0] == CR then [LF] + Normalise(t[CrWidth(t)..]) else [t[0]] + Normalise(t[1..])
  }

  /** The raw value is the normalised source, in code units. */
  lemma {:induction false} RawIsNormalised(t: string)
    ensures Raw(t) == StringUnits(Normalise(t))
    decreases |t|
  {
    if t != [] {
      RawIsNormalised(t[if t[0] == CR then CrWidth(t) else 1..]);
      assert CharUnits(LF) == [0x0a];
    }
  }

  lemma {:induction false} RawHasNoCR(t: string)
    ensures 0x0d !in Raw(t)
    decreases |t|
  {
    if t != [] { RawHasNoCR(t[if t[0] == CR then CrWidth(t) else 1..]); }
  }

  lemma {:induction false} NormalisedHasNoCR(t: string)
    ensures CR !in Normalise(t)
    decreases |t|
  {
    if t != [] { NormalisedHasNoCR(t[if t[0] == CR then CrWidth(t) else 1..]); }
  }

  /** A prefix without CR survives normalisation... */
  lemma {:induction false} PrefixKept(t: string, n: nat)
    requires n <= |t| && CR !in t[..n]
    ensures n <= |Normalise(t)| && Normalise(t)[..n] == t[..n] && Normalise(t)[n..] == Normalise(t[n..])
    decreases n
  {
    if n > 0 {
      assert t[..n][0] == t[0] && t[..n][1..] == t[1..][..n - 1];
      PrefixKept(t[1..], n - 1);
      assert t[1..][n - 1..] == t[n..];
      assert Normalise(t)[n..] == Normalise(t[1..])[n - 1..];
      assert Normalise(t)[..n] == [t[0]] + Normalise(t[1..])[..n - 1];
    } else {
      assert t[0..] == t;
    }
  }

  /** ...and a prefix without LF of the normalised text was there before. */
  lemma {:induction false} PrefixWasThere(t: string, n: nat)
    requires n <= |Normalise(t)| && LF !in Normalise(t)[..n]
    ensures n <= |t| && Normalise(t)[..n] == t[..n]
    decreases n
  {
    if n > 0 {
      var s := Normalise(t);
      assert s[..n][0] == s[0] && s[..n][1..] == s[1..][..n - 1];
      assert t[0] != CR;
      assert s[1..] == Normalise(t[1..]);
      PrefixWasThere(t[1..], n - 1);
      assert t[..n] == [t[0]] + t[1..][..n - 1];
    }
  }

  lemma NormalisedAlready(t: string)
    requires CR !in t
    ensures Normalise(t) == t
  {
    assert t[..|t|] == t;
    PrefixKept(t, |t|);
  }

  // ----- escapes read only themselves -----

  lemma UnicodeFits(t: string)
    requires CookUnicode(t).Some?
    ensures var n := CookUnicode(t).value.1; n <= |t| && CR !in t[..n] && LF !in t[..n]
  {
    hide Radix16, CodeUnits;
    if t[0] == '{' {
      var n := Find(t[1..], '}');
      assert t[..n + 2] == ['{'] + t[1..1 + n] + ['}'];
    }
  }

  lemma UnicodeLocal(t: string, u: string)
    requires CookUnicode(t).Some?
    requires CookUnicode(t).value.1 <= |u| && CookUnicode(t).value.1 <= |t|
    requires u[..CookUnicode(t).value.1] == t[..CookUnicode(t).value.1]
    ensures CookUnicode(u) == CookUnicode(t)
  {
    hide Radix16, CodeUnits, AllHex, Find;
    var k := CookUnicode(t).value.1;
    assert t[..k][0] == u[..k][0];
    if t[0] == '{' {
      var n := Find(t[1..], '}');
      SamePrefix(t, u, k, 1, 1 + n);
      assert u[1..][..n] == u[1..1 + n];
      assert t[1..][..n] == t[1..1 + n];
      assert t[..k][n + 1] == u[..k][n + 1];
      FindIs(u[1..], '}', n);
    } else {
      SamePrefix(t, u, k, 0, 4);
    }
  }

  lemma SamePrefix(t: string, u: string, k: nat, i: nat, j: nat)
    requires i <= j <= k <= |t| && k <= |u| && t[..k] == u[..k]
    ensures t[i..j] == u[i..j]
  {
    SliceOfSlice(t, 0, k, i, j);
    SliceOfSlice(u, 0, k, i, j);
  }

  /** How an element of the text and one of the normalised text must correspond. */
  ghost predicate Matches(e: Option<(seq<u16>, nat)>, t: string, f: Option<(seq<u16>, nat)>, u: string) {
    match e
    case None => f.None?
    case Some((us, n)) =>
      && f.Some? && f.value.0 == us
      && n <= |t| && f.value.1 <= |u| && u[f.value.1..] == Normalise(t[n..])
  }

  lemma UnicodeNormalised(t: string)
    ensures Matches(CookUnicode(t), t, CookUnicode(Normalise(t)), Normalise(t))
  {
    hide CookUnicode;
    var u := Normalise(t);
    if CookUnicode(t).Some? {
      UnicodeFits(t);
      PrefixKept(t, CookUnicode(t).value.1);
      UnicodeLocal(t, u);
    } else if CookUnicode(u).Some? {
      UnicodeFits(u);
      PrefixWasThere(t, CookUnicode(u).value.1);
      UnicodeLocal(u, t);
    }
  }

  lemma HexWasThere(t: string)
    ensures var u := Normalise(t);
      |u| >= 3 && u[0] == 'x' && IsHex(u[1]) && IsHex(u[2]) ==> |t| >= 3 && t[1] == u[1] && t[2] == u[2]
  {
    var u := Normalise(t);
    if |u| >= 3 && u[0] == 'x' && IsHex(u[1]) && IsHex(u[2]) {
      assert u[..3] == ['x', u[1], u[2]];
      PrefixWasThere(t, 3);
      assert t[..3][1] == t[1] && t[..3][2] == t[2];
    }
  }

  lemma HexNormalised(t: string)
    requires t != [] && t[0] == 'x'
    ensures Matches(CookEscape(t), t, CookEscape(Normalise(t)), Normalise(t))
  {
    hide Radix16;
    var u := Normalise(t);
    if |t| >= 3 && IsHex(t[1]) && IsHex(t[2]) {
      PrefixKept(t, 3);
      SamePrefix(t, u, 3, 1, 3);
      assert u[..3] == t[..3];
    } else {
      HexWasThere(t);
    }
  }

  lemma EscapeNormalised(t: string)
    ensures Matches(CookEscape(t), t, CookEscape(Normalise(t)), Normalise(t))
  {
    hide Radix16, CodeUnits, CharUnits, Single, CookUnicode;
    if t != [] {
      if t[0] == 'x' {
        HexNormalised(t);
      } else if t[0] == 'u' {
        UEscapeNormalised(t);
      } else {
        ShortNormalised(t);
      }
    }
  }

  lemma UEscapeNormalised(t: string)
    requires t != [] && t[0] == 'u'
    ensures Matches(CookEscape(t), t, CookEscape(Normalise(t)), Normalise(t))
  {
    hide CookUnicode, OneMore, Matches;
    UnicodeNormalised(t[1..]);
    assert Normalise(t)[1..] == Normalise(t[1..]);
    MatchesOneMore(CookUnicode(t[1..]), t, CookUnicode(Normalise(t[1..])), Normalise(t));
  }

  lemma MatchesOneMore(e: Option<(seq<u16>, nat)>, t: string, f: Option<(seq<u16>, nat)>, u: string)
    requires t != [] && u != [] && Matches(e, t[1..], f, u[1..])
    ensures Matches(OneMore(e), t, OneMore(f), u)
  {
    if e.Some? {
      var n, m := e.value.1, f.value.1;
      assert t[1..][n..] == t[n + 1..];
      assert u[1..][m..] == u[m + 1..];
    }
  }

  lemma ShortNormalised(t: string)
    requires t != [] && t[0] != 'u' && t[0] != 'x'
    ensures Matches(CookEscape(t), t, CookEscape(Normalise(t)), Normalise(t))
  {
    hide CharUnits, Single;
    var u := Normalise(t);
    if t[0] != CR {
      assert u[1..] == Normalise(t[1..]);
      NextNormalised(t[1..]);
    }
  }

  lemma NextNormalised(t: string)
    ensures t == [] <==> Normalise(t) == []
    ensures t != [] ==> Normalise(t)[0] == if t[0] == CR then LF else t[0]
  {
  }

  lemma ElementNormalised(t: string)
    requires t != []
    ensures Normalise(t) != []
    ensures Matches(CookElement(t), t, CookElement(Normalise(t)), Normalise(t))
  {
    hide CookEscape;
    NextNormalised(t);
    if t[0] == '\\' {
      EscapeNormalised(t[1..]);
      assert Normalise(t)[1..] == Normalise(t[1..]);
      MatchesOneMore(CookEscape(t[1..]), t, CookEscape(Normalise(t[1..])), Normalise(t));
    } else if t[0] == CR {
      assert CharUnits(LF) == [0x0a];
    }
  }

  /** Normalising line ends first changes neither value of a chunk (section 12.9.6 of ECMA-262). */
  lemma NormalisingFirst(t: string)
    ensures Cook(Normalise(t)) == Cook(t)
    ensures Raw(Normalise(t)) == Raw(t)
  {
    CookNormalised(t);
    NormalisedHasNoCR(t);
    NormalisedAlready(Normalise(t));
    RawIsNormalised(t);
    RawIsNormalised(Normalise(t));
  }

  lemma {:induction false} CookNormalised(t: string)
    ensures Cook(Normalise(t)) == Cook(t)
    decreases |t|
  {
    hide CookElement, Normalise;
    if t == [] {
      NextNormalised(t);
    } else {
      ElementNormalised(t);
      CookFits(t);
      if CookElement(t).Some? { CookNormalised(t[CookElement(t).value.1..]); }
    }
  }

  /** Without a backslash the two values are the same. */
  lemma {:induction false} CookedIsRaw(t: string)
    requires '\\' !in t
    ensures Cook(t) == Some(Raw(t))
    decreases |t|
  {
    if t != [] { CookedIsRaw(t[if t[0] == CR then CrWidth(t) else 1..]); }
  }

  // ----- templates and string literals -----

  /** Where the two decoders agree on a piece of a string literal: not on signed digits, not on escaped characters
      of two code units, and not on surrogates in braces. */
  predicate Shared(p: Piece) {
    && Strict(p)
    && (p.Short? ==> p.c as int < 0x1_0000)
    && (p.Braced? && Radix16(p.digits, U32).Some? ==>
          !IsHigh(Radix16(p.digits, U32).value) && !IsLow(Radix16(p.digits, U32).value))
  }

  /** Template cooking and string-literal decoding read a piece alike exactly when it is shared. */
  lemma AgreesWithLiteral(p: Piece, q: char, rest: string)
    requires IsQuote(q) && WellFormed(p, q, rest)
    ensures CookElement(Text(p) + rest) == Some((Units(p, q, rest), |Text(p)|)) <==> Shared(p)
  {
    hide CookEscape, Radix16, CodeUnits, CharUnits, Single;
    match p
    case Plain(_) =>
    case Short(c) => ShortAgrees(c, rest);
    case Null => NullAgrees(rest);
    case Continuation(l) => ContinuationAgrees(l, rest);
    case Hex(d) => HexAgrees(d, rest);
    case Unit(d) => UnitAgrees(d, rest);
    case Braced(d) => BracedAgrees(d, rest);
  }

  lemma ShortAgrees(c: char, rest: string)
    requires !IsDigit(c) && c !in ['x', 'u', LF, CR, LS, PS]
    ensures CookElement(['\\', c] + rest) == Some(([Single(c)], 2)) <==> c as int < 0x1_0000
  {
    assert (['\\', c] + rest)[1..] == [c] + rest;
    if c !in "ntrbfv" { IdentityEscapeKeepsCharacter(c); }
  }

  lemma NullAgrees(rest: string)
    requires rest == [] || !IsDigit(rest[0])
    ensures CookElement("\\0" + rest) == Some(([0], 2))
  {
    assert ("\\0" + rest)[1..] == ['0'] + rest;
  }

  lemma ContinuationAgrees(l: string, rest: string)
    requires l in [[LF], [CR, LF], [LS], [PS]] || (l == [CR] && (rest == [] || rest[0] != LF))
    ensures CookElement("\\" + l + rest) == Some(([], |l| + 1))
  {
    assert ("\\" + l + rest)[1..] == l + rest;
  }

  lemma HexAgrees(d: string, rest: string)
    requires |d| == 2 && Radix16(d, 0x100).Some?
    ensures CookElement("\\x" + d + rest) == Some(([Radix16(d, 0x100).value], 4)) <==> AllHex(d)
  {
    var t := "\\x" + d + rest;
    assert t[1..] == "x" + d + rest;
    assert t[1..][1..3] == d;
  }

  lemma UnitAgrees(d: string, rest: string)
    requires |d| == 4 && Radix16(d, U16).Some?
    ensures CookElement("\\u" + d + rest) == Some(([Radix16(d, U16).value], 6)) <==> AllHex(d)
  {
    var t := "\\u" + d + rest;
    assert t[1..] == "u" + d + rest;
    assert t[1..][1..] == d + rest;
    assert (d + rest)[..4] == d;
    if AllHex(d) { assert IsHex(d[0]); }
  }

  lemma BracedAgrees(d: string, rest: string)
    requires '}' !in d && Radix16(d, U32).Some? && Radix16(d, U32).value <= MAX_CODE_POINT
    ensures CookElement("\\u{" + d + "}" + rest) ==
      if AllHex(d) && !IsHigh(Radix16(d, U32).value) && !IsLow(Radix16(d, U32).value)
      then Some((CodeUnits(Radix16(d, U32).value), |d| + 4)) else None
  {
    hide CodeUnits, HexValue;
    var t := "\\u{" + d + "}" + rest;
    var u := "{" + d + "}" + rest;
    assert t[1..] == "u" + u;
    assert t[1..][1..] == u;
    assert u[1..][..|d|] == d;
    FindIs(u[1..], '}', |d|);
    assert u[1..1 + |d|] == d;
  }

  /** A literal made of shared pieces cooks to the units it decodes to. */
  lemma {:induction false} CooksLikeLiteral(ps: seq<Piece>, q: char)
    requires IsQuote(q) && AllWellFormed(ps, q, [])
    requires forall k :: 0 <= k < |ps| ==> Shared(ps[k])
    ensures Cook(TextAll(ps)) == Some(UnitsAll(ps, q, []))
    decreases |ps|
  {
    hide CookElement, Text, Units, WellFormed, Shared, IsQuote;
    if ps != [] {
      var p, more := ps[0], TextAll(ps[1..]);
      assert more + [] == more;
      AgreesWithLiteral(p, q, more);
      CookFits(Text(p) + more);
      assert (Text(p) + more)[|Text(p)|..] == more;
      CooksLikeLiteral(ps[1..], q);
    }
  }

  lemma SurrogateDigits()
    ensures Radix16("d800", U32) == Some(0xd800) && AllHex("d800")
  {
    assert "d800"[..3] == "d80" && "d80"[..2] == "d8" && "d8"[..1] == "d" && "d"[..0] == "";
    assert HexValue("d8") == 0xd8;
    assert HexValue("d80") == 0xd80;
    assert HexValue("d800") == 0xd800;
  }

  /** A surrogate in braces is read by the string decoder and refused by the template one. */
  lemma BracedSurrogateRefused()
    ensures Parse("\\u{d800}\"", '\"') == Done([0xd800], 8)
    ensures Cook("\\u{d800}") == None
  {
    hide Radix16, HexValue, AllHex, ElementAt, CookElement;
    SurrogateDigits();
    PieceReads(Braced("d800"), '\"', "\"");
    assert Text(Braced("d800")) + "\"" == "\\u{d800}\"";
    assert "\\u{d800}\""[8..] == "\"";
    BracedAgrees("d800", "");
    assert "\\u{" + "d800" + "}" + "" == "\\u{d800}";
  }
}
