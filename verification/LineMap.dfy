/** Looking up source positions by instruction pointer, and how lookups answer after writes, records and merges. */
module LineMap {
  import opened Prelude
  import opened Bytecode
  import opened Relocation
  import opened Linker
  import opened MergeLaws

  /** Entry k is one with the greatest offset not above ip. */
  ghost predicate Governs(ls: seq<LineEntry>, k: nat, ip: nat) {
    && k < |ls| && ls[k].offset <= ip
    && forall j :: 0 <= j < |ls| && ls[j].offset <= ip ==> ls[j].offset <= ls[k].offset
  }

  /** The answers a lookup may give: nothing when every entry lies above ip, else the position of a governing entry. */
  ghost predicate Answers(ls: seq<LineEntry>, ip: nat, r: Option<(nat, nat)>) {
    match r
    case None => forall k :: 0 <= k < |ls| ==> ip < ls[k].offset
    case Some((line, column)) => exists k: nat :: Governs(ls, k, ip) && ls[k].line == line && ls[k].column == column
  }

  /** Binary search by offset: a hit, or the insertion point. */
  method BinarySearch(ls: seq<LineEntry>, ip: nat) returns (found: bool, index: nat)
    requires Sorted(ls)
    ensures found ==> index < |ls| && ls[index].offset == ip
    ensures !found ==> index <= |ls|
    ensures !found ==> forall k :: 0 <= k < index ==> ls[k].offset < ip
    ensures !found ==> forall k :: index <= k < |ls| ==> ip < ls[k].offset
  {
    var lo, hi := 0, |ls|;
    while lo < hi
      invariant lo <= hi <= |ls|
      invariant forall k :: 0 <= k < lo ==> ls[k].offset < ip
      invariant forall k :: hi <= k < |ls| ==> ip < ls[k].offset
    {
      var mid := (lo + hi) / 2;
      if ls[mid].offset == ip { return true, mid; }
      if ls[mid].offset < ip { lo := mid + 1; } else { hi := mid; }
    }
    return false, lo;
  }

  method GetLineColForIp(ls: seq<LineEntry>, ip: nat) returns (r: Option<(nat, nat)>)
    requires Sorted(ls)
    ensures Answers(ls, ip, r)
  {
    var found, index := BinarySearch(ls, ip);
    if !found && index == 0 { return None; }
    var at := if found then index else index - 1;
    assert Governs(ls, at, ip);
    r := Some((ls[at].line, ls[at].column));
  }

  /** There is always an answer, and it is nothing exactly when no position could be one. */
  lemma NothingIff(ls: seq<LineEntry>, ip: nat)
    requires Sorted(ls)
    ensures Answers(ls, ip, None) <==> forall at :: !Answers(ls, ip, Some(at))
    ensures Answers(ls, ip, None) <==> ls == [] || ip < ls[0].offset
  {
    if ls != [] && ls[0].offset <= ip {
      var k := GoverningEntry(ls, ip);
      assert Answers(ls, ip, Some((ls[k].line, ls[k].column)));
    }
  }

  lemma {:induction false} GoverningEntry(ls: seq<LineEntry>, ip: nat) returns (k: nat)
    requires Sorted(ls) && ls != [] && ls[0].offset <= ip
    ensures Governs(ls, k, ip)
    decreases |ls|
  {
    var n := |ls| - 1;
    if ls[n].offset <= ip {
      k := n;
    } else {
      k := GoverningEntry(ls[..n], ip);
    }
  }

  // ----- runs of writes, records and merges -----

  datatype Action =
    | Write(bytes: seq<byte>)
    | Record(line: nat, column: nat)
    | MergeIn(dep: ChunkData, checked: bool)

  function Perform(c: ChunkData, a: Action): Option<ChunkData> {
    match a
    case Write(bytes) => Some(c.(code := c.code + bytes))
    case Record(line, column) => Some(c.(lines := Recorded(c.lines, |c.code|, line, column)))
    case MergeIn(dep, checked) => Merge(c, dep, checked)
  }

  function PerformAll(c: ChunkData, actions: seq<Action>): Option<ChunkData>
    decreases |actions|
  {
    if actions == [] then Some(c) else
    match Perform(c, actions[0])
    case None => None
    case Some(c') => PerformAll(c', actions[1..])
  }

  /** Over any run that does not panic, the line map stays sorted and within the code. */
  lemma {:induction false} RunsStayLocated(c: ChunkData, actions: seq<Action>)
    requires Located(c)
    requires forall k :: 0 <= k < |actions| ==> actions[k].MergeIn? ==> Located(actions[k].dep)
    ensures PerformAll(c, actions).Some? ==> Located(PerformAll(c, actions).value)
    decreases |actions|
  {
    hide Merge;
    if actions != [] && Perform(c, actions[0]).Some? {
      if actions[0].MergeIn? {
        MergeKeepsLocated(c, actions[0].dep, actions[0].checked);
      }
      RunsStayLocated(Perform(c, actions[0]).value, actions[1..]);
    }
  }

  /** Recording a position at the end of the code makes it an answer from there on, keeps every answer below, and adds
      no entry when the last one has that position already. Line 0 records nothing. */
  lemma RecordAnswers(c: ChunkData, line: nat, column: nat, ip: nat, r: Option<(nat, nat)>)
    requires Located(c)
    ensures var after := Recorded(c.lines, |c.code|, line, column);
      && (line == 0 || (c.lines != [] && (Last(c.lines).line, Last(c.lines).column) == (line, column)) ==> after == c.lines)
      && (line != 0 && ip >= |c.code| ==> Answers(after, ip, Some((line, column))))
      && (ip < |c.code| ==> (Answers(after, ip, r) <==> Answers(c.lines, ip, r)))
  {
    hide Answers;
    var after := Recorded(c.lines, |c.code|, line, column);
    if line != 0 {
      assert c.lines <= after;
      if ip >= |c.code| {
        LastAnswers(after, ip);
      } else if after != c.lines {
        SameBelow(c.lines, after, ip, r);
      }
    }
  }

  /** From the last entry on, its position is an answer. */
  lemma LastAnswers(ls: seq<LineEntry>, ip: nat)
    requires Sorted(ls) && ls != [] && Last(ls).offset <= ip
    ensures Answers(ls, ip, Some((Last(ls).line, Last(ls).column)))
  {
    assert Governs(ls, |ls| - 1, ip);
  }

  function Last(ls: seq<LineEntry>): LineEntry
    requires ls != []
  {
    ls[|ls| - 1]
  }

  /** Entries above an IP do not bear on its answer. */
  lemma SameBelow(ls: seq<LineEntry>, more: seq<LineEntry>, ip: nat, r: Option<(nat, nat)>)
    requires ls <= more
    requires forall k :: |ls| <= k < |more| ==> ip < more[k].offset
    ensures Answers(more, ip, r) <==> Answers(ls, ip, r)
  {
    assert forall k :: 0 <= k < |ls| ==> more[k] == ls[k];
    forall k: nat ensures Governs(more, k, ip) <==> Governs(ls, k, ip) {
    }
    if r.Some? {
      if Answers(ls, ip, r) {
        var k: nat :| Governs(ls, k, ip) && ls[k].line == r.value.0 && ls[k].column == r.value.1;
        assert Governs(more, k, ip);
      }
      if Answers(more, ip, r) {
        var k: nat :| Governs(more, k, ip) && more[k].line == r.value.0 && more[k].column == r.value.1;
        assert Governs(ls, k, ip);
      }
    }
  }

  // ----- lookups across a merge -----

  /** Entry k governs ip and gives that position. */
  ghost predicate GivenBy(ls: seq<LineEntry>, k: nat, ip: nat, at: (nat, nat)) {
    Governs(ls, k, ip) && (ls[k].line, ls[k].column) == at
  }

  /** Every entry of the dependency at or before ip stands at its very start. */
  ghost predicate OnlyAtStart(dep: seq<LineEntry>, ip: nat) {
    forall k :: 0 <= k < |dep| && dep[k].offset <= ip ==> dep[k].offset == 0
  }

  /** Some entry recorded at the end of the base's code gives that position. */
  ghost predicate TrailingEntry(base: seq<LineEntry>, end: nat, at: (nat, nat)) {
    exists j :: 0 <= j < |base| && base[j].offset == end && (base[j].line, base[j].column) == at
  }

  /** After a merge, looking up a shifted IP can answer what the dependency's own map answers, and besides only the
      position of an entry at the very end of the base, when the dependency has nothing but its start before ip. */
  lemma LookupAfterMergeExactly(base: ChunkData, dep: ChunkData, checked: bool, ip: nat, at: (nat, nat))
    requires Merge(base, dep, checked).Some? && Located(base)
    requires exists k :: 0 <= k < |dep.lines| && dep.lines[k].offset <= ip
    ensures Answers(Merge(base, dep, checked).value.lines, ip + |base.code|, Some(at)) <==>
      Answers(dep.lines, ip, Some(at)) || (OnlyAtStart(dep.lines, ip) && TrailingEntry(base.lines, |base.code|, at))
  {
    hide Relocate;
    LookupMoves(base.lines, dep.lines, |base.code|, ip, at);
  }

  /** So with every base entry below the end of the base's code the two maps answer alike. */
  lemma LookupAfterMerge(base: ChunkData, dep: ChunkData, checked: bool, ip: nat, at: (nat, nat))
    requires Merge(base, dep, checked).Some? && Located(base)
    requires forall k :: 0 <= k < |base.lines| ==> base.lines[k].offset < |base.code|
    requires exists k :: 0 <= k < |dep.lines| && dep.lines[k].offset <= ip
    ensures Answers(Merge(base, dep, checked).value.lines, ip + |base.code|, Some(at)) <==> Answers(dep.lines, ip, Some(at))
  {
    LookupAfterMergeExactly(base, dep, checked, ip, at);
  }

  lemma AnswersIsGivenBy(ls: seq<LineEntry>, ip: nat, at: (nat, nat))
    ensures Answers(ls, ip, Some(at)) <==> exists k: nat :: GivenBy(ls, k, ip, at)
  {
    if Answers(ls, ip, Some(at)) {
      var k: nat :| Governs(ls, k, ip) && ls[k].line == at.0 && ls[k].column == at.1;
      assert GivenBy(ls, k, ip, at);
    }
  }

  lemma LookupMoves(base: seq<LineEntry>, dep: seq<LineEntry>, off: nat, ip: nat, at: (nat, nat))
    requires forall j :: 0 <= j < |base| ==> base[j].offset <= off
    requires exists k :: 0 <= k < |dep| && dep[k].offset <= ip
    ensures Answers(base + MoveLines(dep, off), ip + off, Some(at)) <==>
      Answers(dep, ip, Some(at)) || (OnlyAtStart(dep, ip) && TrailingEntry(base, off, at))
  {
    hide Answers, Governs, MoveLines, OnlyAtStart;
    var merged, n, to := base + MoveLines(dep, off), |base|, ip + off;
    AnswersIsGivenBy(merged, to, at);
    AnswersIsGivenBy(dep, ip, at);
    if exists k: nat :: GivenBy(merged, k, to, at) {
      var k: nat :| GivenBy(merged, k, to, at);
      if k >= n { GivenAbove(base, dep, off, k - n, ip, at); } else { GivenBelow(base, dep, off, k, ip, at); }
    }
    if exists k: nat :: GivenBy(dep, k, ip, at) {
      var k: nat :| GivenBy(dep, k, ip, at);
      GivenAbove(base, dep, off, k, ip, at);
    }
    if OnlyAtStart(dep, ip) && TrailingEntry(base, off, at) {
      var j :| 0 <= j < |base| && base[j].offset == off && (base[j].line, base[j].column) == at;
      GivenBelow(base, dep, off, j, ip, at);
    }
  }

  lemma Moved(base: seq<LineEntry>, dep: seq<LineEntry>, off: nat, k: nat)
    requires k < |dep|
    ensures (base + MoveLines(dep, off))[|base| + k] == dep[k].(offset := dep[k].offset + off)
  {
  }

  /** A dependency entry governs the shifted IP exactly when it governs the IP alone. */
  lemma GivenAbove(base: seq<LineEntry>, dep: seq<LineEntry>, off: nat, k: nat, ip: nat, at: (nat, nat))
    requires forall j :: 0 <= j < |base| ==> base[j].offset <= off
    ensures GivenBy(base + MoveLines(dep, off), |base| + k, ip + off, at) <==> GivenBy(dep, k, ip, at)
  {
    hide MoveLines;
    var merged := base + MoveLines(dep, off);
    if k < |dep| { Moved(base, dep, off, k); }
    if GivenBy(merged, |base| + k, ip + off, at) {
      forall j | 0 <= j < |dep| && dep[j].offset <= ip ensures dep[j].offset <= dep[k].offset {
        Moved(base, dep, off, j);
        assert merged[|base| + j].offset <= ip + off;
      }
    }
    if GivenBy(dep, k, ip, at) {
      forall j | 0 <= j < |merged| && merged[j].offset <= ip + off ensures merged[j].offset <= merged[|base| + k].offset {
        if j >= |base| { Moved(base, dep, off, j - |base|); }
      }
    }
  }

  /** A base entry governs it exactly when it stands at the end and the dependency has only its start to offer. */
  lemma GivenBelow(base: seq<LineEntry>, dep: seq<LineEntry>, off: nat, k: nat, ip: nat, at: (nat, nat))
    requires forall j :: 0 <= j < |base| ==> base[j].offset <= off
    requires exists w :: 0 <= w < |dep| && dep[w].offset <= ip
    requires k < |base|
    ensures GivenBy(base + MoveLines(dep, off), k, ip + off, at) <==>
      base[k].offset == off && (base[k].line, base[k].column) == at && OnlyAtStart(dep, ip)
  {
    hide MoveLines;
    var merged := base + MoveLines(dep, off);
    var w :| 0 <= w < |dep| && dep[w].offset <= ip;
    Moved(base, dep, off, w);
    assert merged[|base| + w].offset <= ip + off;
    if GivenBy(merged, k, ip + off, at) {
      forall j | 0 <= j < |dep| && dep[j].offset <= ip ensures dep[j].offset == 0 {
        Moved(base, dep, off, j);
        assert merged[|base| + j].offset <= merged[k].offset;
      }
    }
    if base[k].offset == off && OnlyAtStart(dep, ip) {
      forall j | 0 <= j < |merged| && merged[j].offset <= ip + off ensures merged[j].offset <= merged[k].offset {
        if j >= |base| { Moved(base, dep, off, j - |base|); }
      }
    }
  }
}
