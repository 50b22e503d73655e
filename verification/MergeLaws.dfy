/** What a merge keeps of the base, what it carries over from the dependency, and that merging is associative. */
module MergeLaws {
  import opened Prelude
  import opened Bytecode
  import opened Relocation
  import opened Linker
  import Arith

  // ----- frame and carry-over -----

  /** The base chunk's code, constants, line entries and IP-keyed metadata below the seam are those of the base alone. */
  lemma MergeKeepsBase(base: ChunkData, dep: ChunkData, checked: bool)
    requires Merge(base, dep, checked).Some?
    ensures var m := Merge(base, dep, checked).value;
      && m.code[..|base.code|] == base.code
      && |m.code| == |base.code| + |dep.code|
      && |m.constants| == |base.constants| + |dep.constants| && m.constants[..|base.constants|] == base.constants
      && |m.lines| == |base.lines| + |dep.lines| && m.lines[..|base.lines|] == base.lines
      && (forall e: Key<IpSet> | e.ip < |base.code| :: e in m.ipSets <==> e in base.ipSets)
      && (forall e: Key<IpMap> | e.ip < |base.code| ::
            (e in m.ipMaps <==> e in base.ipMaps) && (e in base.ipMaps ==> m.ipMaps[e] == base.ipMaps[e]))
  {
    hide Relocate;
  }

  /** Above the seam, the side tables, constants and line entries answer as the dependency's do, shifted. */
  lemma MergeCarriesDependency(base: ChunkData, dep: ChunkData, checked: bool)
    requires Located(base)
    requires Merge(base, dep, checked).Some?
    ensures var m := Merge(base, dep, checked).value; var off := |base.code|;
      && (forall e: Key<IpSet> :: MoveKey(e, off) in m.ipSets <==> e in dep.ipSets)
      && (forall e: Key<IpMap> :: MoveKey(e, off) in m.ipMaps <==> e in dep.ipMaps)
      && (forall e: Key<IpMap> | e in dep.ipMaps :: m.ipMaps[MoveKey(e, off)] == dep.ipMaps[e])
      && |m.constants| == |base.constants| + |dep.constants|
      && (forall k | 0 <= k < |dep.constants| ::
            m.constants[|base.constants| + k] == MoveValue(dep.constants[k], off))
  {
    hide Relocate, MoveKeys, MoveMap, MoveKey, MoveLines, MoveValues, MoveValue;
    SetsCarried(base.ipSets, dep.ipSets, |base.code|);
    MapsCarried(base.ipMaps, dep.ipMaps, |base.code|);
  }

  lemma MergeCarriesLines(base: ChunkData, dep: ChunkData, checked: bool)
    requires Merge(base, dep, checked).Some?
    ensures var m := Merge(base, dep, checked).value;
      && |m.lines| == |base.lines| + |dep.lines|
      && (forall k | 0 <= k < |dep.lines| ::
            m.lines[|base.lines| + k] == LineEntry(dep.lines[k].offset + |base.code|, dep.lines[k].line, dep.lines[k].column))
  {
    hide Relocate, MoveKeys, MoveMap, MoveValues, MoveLines;
    var m := Merge(base, dep, checked).value;
    assert m.lines == base.lines + MoveLines(dep.lines, |base.code|);
    forall k | 0 <= k < |dep.lines|
      ensures m.lines[|base.lines| + k] == LineEntry(dep.lines[k].offset + |base.code|, dep.lines[k].line, dep.lines[k].column)
    {
      assert m.lines[|base.lines| + k] == MoveLines(dep.lines, |base.code|)[k];
      assert MoveLines(dep.lines, |base.code|)[k] == LineEntry(dep.lines[k].offset + |base.code|, dep.lines[k].line, dep.lines[k].column);
    }
  }

  // ----- names over any list of merges -----

  /** Merge dependencies one after another; None when one of the merges panics. */
  function MergeAll(base: ChunkData, deps: seq<ChunkData>, checked: bool): Option<ChunkData>
    decreases |deps|
  {
    if deps == [] then Some(base) else
    match Merge(base, deps[0], checked)
    case None => None
    case Some(m) => MergeAll(m, deps[1..], checked)
  }

  /** Some chunk of the list declares the name in that set. */
  ghost predicate Declared(chunks: seq<ChunkData>, which: NameSet, name: string) {
    exists k :: 0 <= k < |chunks| && (which, name) in chunks[k].nameSets
  }

  predicate Knows(c: ChunkData, alias: string, original: string) {
    alias in c.blockAliases && c.blockAliases[alias] == original
  }

  /** The alias as the last chunk that knows it has it. */
  ghost predicate AliasIs(chunks: seq<ChunkData>, alias: string, original: string) {
    exists k :: 0 <= k < |chunks| && alias in chunks[k].blockAliases && chunks[k].blockAliases[alias] == original
      && forall j :: k < j < |chunks| ==> alias !in chunks[j].blockAliases
  }

  /** A name is declared in the merged chunk exactly when the base or the dependency declares it, and an alias answers
      as in the dependency when that knows it, and as in the base otherwise. */
  lemma MergeDeclares(base: ChunkData, dep: ChunkData, checked: bool)
    requires Merge(base, dep, checked).Some?
    ensures var m := Merge(base, dep, checked).value;
      forall which, name :: (which, name) in m.nameSets <==> (which, name) in base.nameSets || (which, name) in dep.nameSets
    ensures var m := Merge(base, dep, checked).value;
      forall alias, original :: Knows(m, alias, original) <==>
        if alias in dep.blockAliases then Knows(dep, alias, original) else Knows(base, alias, original)
  {
    hide Relocate;
  }

  /** Over any list of merges: a name is declared exactly when some chunk declares it, and an alias answers as in the
      last chunk that knows it. */
  lemma {:induction false} MergesDeclare(base: ChunkData, deps: seq<ChunkData>, checked: bool, which: NameSet, name: string)
    requires MergeAll(base, deps, checked).Some?
    ensures (which, name) in MergeAll(base, deps, checked).value.nameSets <==> Declared([base] + deps, which, name)
    decreases |deps|
  {
    hide Merge;
    var all := [base] + deps;
    if deps == [] {
      assert all[0] == base;
    } else {
      var m := Merge(base, deps[0], checked).value;
      MergeDeclares(base, deps[0], checked);
      MergesDeclare(m, deps[1..], checked, which, name);
      var fewer := [m] + deps[1..];
      assert forall k :: 1 <= k < |fewer| ==> fewer[k] == all[k + 1];
      if Declared(all, which, name) {
        var k :| 0 <= k < |all| && (which, name) in all[k].nameSets;
        assert (which, name) in fewer[if k == 0 then 0 else k - 1].nameSets;
      }
      if Declared(fewer, which, name) {
        var k :| 0 <= k < |fewer| && (which, name) in fewer[k].nameSets;
        assert all[0] == base && all[1] == deps[0];
        if k > 0 { assert (which, name) in all[k + 1].nameSets; }
      }
    }
  }

  lemma {:induction false} MergesAlias(base: ChunkData, deps: seq<ChunkData>, checked: bool, alias: string, original: string)
    requires MergeAll(base, deps, checked).Some?
    ensures var m := MergeAll(base, deps, checked).value;
      Knows(m, alias, original) <==> AliasIs([base] + deps, alias, original)
    decreases |deps|
  {
    hide Merge;
    var all := [base] + deps;
    if deps == [] {
      assert all[0] == base;
    } else {
      var m := Merge(base, deps[0], checked).value;
      MergeDeclares(base, deps[0], checked);
      MergesAlias(m, deps[1..], checked, alias, original);
      FirstTwo(base, deps, m, alias, original);
    }
  }

  /** The last chunk that knows an alias, with the first two chunks made one. */
  lemma FirstTwo(base: ChunkData, deps: seq<ChunkData>, m: ChunkData, alias: string, original: string)
    requires deps != []
    requires forall o :: Knows(m, alias, o) <==> if alias in deps[0].blockAliases then Knows(deps[0], alias, o) else Knows(base, alias, o)
    ensures AliasIs([m] + deps[1..], alias, original) <==> AliasIs([base] + deps, alias, original)
  {
    var all, fewer := [base] + deps, [m] + deps[1..];
    assert all[0] == base && all[1] == deps[0] && fewer[0] == m;
    assert forall k :: 1 <= k < |fewer| ==> fewer[k] == all[k + 1];
    assert forall k :: 2 <= k < |all| ==> all[k] == fewer[k - 1];
    if AliasIs(all, alias, original) {
      var k :| 0 <= k < |all| && alias in all[k].blockAliases && all[k].blockAliases[alias] == original
        && forall j :: k < j < |all| ==> alias !in all[j].blockAliases;
      if k < 2 {
        assert Knows(all[k], alias, original);
        assert Knows(m, alias, original);
        assert forall j :: 0 < j < |fewer| ==> alias !in fewer[j].blockAliases;
      } else {
        assert fewer[k - 1] == all[k];
      }
    }
    if AliasIs(fewer, alias, original) {
      var k :| 0 <= k < |fewer| && alias in fewer[k].blockAliases && fewer[k].blockAliases[alias] == original
        && forall j :: k < j < |fewer| ==> alias !in fewer[j].blockAliases;
      if k == 0 {
        assert Knows(m, alias, original);
        assert forall j :: 2 <= j < |all| ==> alias !in all[j].blockAliases;
        var at := if alias in deps[0].blockAliases then 1 else 0;
        assert Knows(all[at], alias, original);
        assert forall j :: at < j < |all| ==> alias !in all[j].blockAliases;
      } else {
        assert all[k + 1] == fewer[k];
      }
    }
  }

  lemma SetsCarried<T(!new)>(base: set<Key<T>>, dep: set<Key<T>>, off: nat)
    requires forall e :: e in base ==> e.ip < off
    ensures forall e: Key<T> :: MoveKey(e, off) in base + MoveKeys(dep, off) <==> e in dep
  {
    forall e: Key<T> ensures MoveKey(e, off) in base + MoveKeys(dep, off) <==> e in dep {
      assert KeyIn(MoveKey(e, off), off) == e;
      assert MoveKey(e, off) !in base;
    }
  }

  lemma MapsCarried<T(!new)>(base: map<Key<T>, Info>, dep: map<Key<T>, Info>, off: nat)
    requires forall e :: e in base ==> e.ip < off
    ensures forall e: Key<T> :: MoveKey(e, off) in base + MoveMap(dep, off) <==> e in dep
    ensures forall e: Key<T> | e in dep :: (base + MoveMap(dep, off))[MoveKey(e, off)] == dep[e]
  {
    forall e: Key<T>
      ensures MoveKey(e, off) in base + MoveMap(dep, off) <==> e in dep
      ensures e in dep ==> (base + MoveMap(dep, off))[MoveKey(e, off)] == dep[e]
    {
      assert KeyIn(MoveKey(e, off), off) == e;
      assert MoveKey(e, off) !in base;
    }
  }

  /** Merging located chunks gives a located chunk. */
  lemma MergeKeepsLocated(base: ChunkData, dep: ChunkData, checked: bool)
    requires Located(base) && Located(dep)
    requires Merge(base, dep, checked).Some?
    ensures Located(Merge(base, dep, checked).value)
  {
    hide Relocate;
  }

  /** Merging whole-instruction code gives whole-instruction code. */
  lemma MergeKeepsWellFormed(base: ChunkData, dep: ChunkData, checked: bool)
    requires WellFormed(base.code) && WellFormed(dep.code)
    requires Merge(base, dep, checked).Some?
    ensures WellFormed(Merge(base, dep, checked).value.code)
  {
    hide Relocate, Assemble, ShiftAll;
    var p :| AssembledFrom(base.code, p);
    var q :| AssembledFrom(dep.code, q);
    var o := Offsets(|base.code|, |base.constants|, checked);
    RelocateAssembled(q, o);
    var r := ShiftAll(q, o).value;
    AssembleConcat(p, r);
    assert AssembledFrom(Merge(base, dep, checked).value.code, p + r);
  }

  // ----- associativity -----

  /** The summed offsets can be held by the u32 jump operands, and by the u16 operands when overflow panics. */
  predicate OffsetsAdd(o1: Offsets, o2: Offsets) {
    && o1.checked == o2.checked
    && o1.ip + o2.ip < U32
    && (o1.checked ==> o1.constant + o2.constant < U16)
  }

  function SumOf(o1: Offsets, o2: Offsets): Offsets {
    Offsets(o1.ip + o2.ip, o1.constant + o2.constant, o1.checked)
  }

  function ThenShift(r: Option<Instr>, o: Offsets): Option<Instr>
    requires r.Some? ==> Valid(r.value)
  {
    match r case None => None case Some(j) => ShiftInstr(j, o)
  }

  lemma Shift16Twice(v: u16, a: nat, b: nat, checked: bool)
    requires checked ==> a + b < U16
    ensures (match Shift16(v, a, checked) case None => None case Some(w) => Shift16(w, b, checked))
         == Shift16(v, a + b, checked)
  {
    if checked {
      Arith.DivModUnique(a, 0, U16, a);
      Arith.DivModUnique(b, 0, U16, b);
      Arith.DivModUnique(a + b, 0, U16, a + b);
      SumBelow(v, a, b);
    } else {
      ModTwice(v as int, a, b, U16);
      ModZero(v);
    }
  }

  lemma ModZero(v: u16)
    ensures v as int % U16 == v
  {
    Arith.DivModUnique(v as int, 0, U16, v as int);
  }

  lemma SumBelow(v: u16, a: nat, b: nat)
    ensures v as int + a < U16 ==> (v as int + a) % U16 == v as int + a
    ensures v as int + a + b < U16 ==> (v as int + a + b) % U16 == v as int + a + b
  {
    if v as int + a < U16 { Arith.DivModUnique(v as int + a, 0, U16, v as int + a); }
    if v as int + a + b < U16 { Arith.DivModUnique(v as int + a + b, 0, U16, v as int + a + b); }
  }

  lemma ModTwice(v: int, a: nat, b: nat, m: int)
    requires m > 0
    ensures ((v + a % m) % m + b % m) % m == (v + (a + b) % m) % m
  {
    Arith.DivModForm(v + a % m, m);
    Arith.DivModForm(a, m);
    Arith.DivModForm(b, m);
    Arith.DivModForm(a + b, m);
    var k1, k2, k3, k4 := (v + a % m) / m, a / m, b / m, (a + b) / m;
    assert (v + a % m) % m + b % m == (v + (a + b) % m) + (k4 - k1 - k2 - k3) * m;
    Arith.ModAddMultiple(v + (a + b) % m, k4 - k1 - k2 - k3, m);
  }

  lemma Shift32Twice(v: u32, a: nat, b: nat)
    requires a + b < U32
    ensures (match Shift32(v, a) case None => None case Some(w) => Shift32(w, b)) == Shift32(v, a + b)
  {
  }

  /** Two relocations of an instruction are one by the summed offsets, panics included. */
  lemma ShiftTwice(i: Instr, o1: Offsets, o2: Offsets)
    requires Valid(i) && OffsetsAdd(o1, o2)
    ensures ThenShift(ShiftInstr(i, o1), o2) == ShiftInstr(i, SumOf(o1, o2))
  {
    hide Shift16, Shift32;
    match i
    case ConstInstr(_, k) => Shift16Twice(k, o1.constant, o2.constant, o1.checked);
    case JumpInstr(_, t) => Shift32Twice(t, o1.ip, o2.ip);
    case TryInstr(t, b, _) =>
      Shift32Twice(t, o1.ip, o2.ip);
      Shift16Twice(b, o1.constant, o2.constant, o1.checked);
    case ClosureInstr(k, _) => Shift16Twice(k, o1.constant, o2.constant, o1.checked);
    case _ =>
  }

  function ThenShiftAll(r: Option<seq<Instr>>, o: Offsets): Option<seq<Instr>>
    requires r.Some? ==> AllValid(r.value)
  {
    match r case None => None case Some(q) => ShiftAll(q, o)
  }

  lemma {:induction false} ShiftAllTwice(p: seq<Instr>, o1: Offsets, o2: Offsets)
    requires AllValid(p) && OffsetsAdd(o1, o2)
    ensures ThenShiftAll(ShiftAll(p, o1), o2) == ShiftAll(p, SumOf(o1, o2))
  {
    hide ShiftInstr;
    if p != [] {
      ShiftTwice(p[0], o1, o2);
      ShiftAllTwice(p[1..], o1, o2);
      if ShiftAll(p, o1).Some? {
        var q := ShiftAll(p[1..], o1).value;
        var j := ShiftInstr(p[0], o1).value;
        assert ([j] + q)[1..] == q;
      }
    }
  }

  function Both<T>(a: Option<seq<T>>, b: Option<seq<T>>): Option<seq<T>> {
    if a.Some? && b.Some? then Some(a.value + b.value) else None
  }

  lemma {:induction false} ShiftAllConcat(p: seq<Instr>, q: seq<Instr>, o: Offsets)
    requires AllValid(p) && AllValid(q)
    ensures AllValid(p + q)
    ensures ShiftAll(p + q, o) == Both(ShiftAll(p, o), ShiftAll(q, o))
    decreases |p|
  {
    hide ShiftInstr;
    if p == [] {
      assert p + q == q;
      if ShiftAll(q, o).Some? { assert [] + ShiftAll(q, o).value == ShiftAll(q, o).value; }
    } else {
      ConsConcat(p, q);
      ShiftAllConcat(p[1..], q, o);
      if ShiftAll(p, o).Some? && ShiftAll(q, o).Some? {
        AssociateCons(ShiftInstr(p[0], o).value, ShiftAll(p[1..], o).value, ShiftAll(q, o).value);
      }
    }
  }

  lemma AssociateCons<T>(x: T, a: seq<T>, b: seq<T>)
    ensures [x] + (a + b) == [x] + a + b
  {
  }

  function ThenMerge(a: Option<ChunkData>, c: ChunkData, checked: bool): Option<ChunkData> {
    match a case None => None case Some(ab) => Merge(ab, c, checked)
  }

  function MergeInto(a: ChunkData, bc: Option<ChunkData>, checked: bool): Option<ChunkData> {
    match bc case None => None case Some(m) => Merge(a, m, checked)
  }

  /** Relocating b followed by an already relocated c is relocating each, c by the summed offsets. */
  lemma CodeAssociates(pb: seq<Instr>, pc: seq<Instr>, oa: Offsets, ob: Offsets)
    requires AllValid(pb) && AllValid(pc) && OffsetsAdd(ob, oa)
    ensures (match Relocate(Assemble(pc), ob)
             case None => Relocate(Assemble(pc), SumOf(ob, oa)) == None
             case Some(moved) =>
               Relocate(Assemble(pb) + moved, oa)
               == Both(Relocate(Assemble(pb), oa), Relocate(Assemble(pc), SumOf(ob, oa))))
  {
    hide ShiftAll, Assemble, Relocate;
    RelocateAssembled(pc, ob);
    ShiftAllTwice(pc, ob, oa);
    RelocateAssembled(pc, SumOf(ob, oa));
    if ShiftAll(pc, ob).Some? {
      var qc := ShiftAll(pc, ob).value;
      AssembleConcat(pb, qc);
      RelocateAssembled(pb + qc, oa);
      RelocateAssembled(qc, oa);
      ShiftAllConcat(pb, qc, oa);
      RelocateAssembled(pb, oa);
      if ShiftAll(pb, oa).Some? && ShiftAll(qc, oa).Some? {
        AssembleConcat(ShiftAll(pb, oa).value, ShiftAll(qc, oa).value);
      }
    }
  }

  lemma ConstantsAssociate(b: seq<Value>, c: seq<Value>, m: nat, n: nat)
    ensures MoveValues(b + MoveValues(c, m), n) == MoveValues(b, n) + MoveValues(c, n + m)
  {
  }

  lemma LinesAssociate(b: seq<LineEntry>, c: seq<LineEntry>, m: nat, n: nat)
    ensures MoveLines(b + MoveLines(c, m), n) == MoveLines(b, n) + MoveLines(c, n + m)
  {
  }

  lemma KeysAssociate<T(!new)>(b: set<Key<T>>, c: set<Key<T>>, m: nat, n: nat)
    ensures MoveKeys(b + MoveKeys(c, m), n) == MoveKeys(b, n) + MoveKeys(c, n + m)
  {
    forall e: Key<T>
      ensures e in MoveKeys(b + MoveKeys(c, m), n) <==> e in MoveKeys(b, n) + MoveKeys(c, n + m)
    {
      if e.ip >= n + m { assert KeyIn(KeyIn(e, n), m) == KeyIn(e, n + m); }
    }
  }

  lemma MapsAssociate<T(!new)>(b: map<Key<T>, Info>, c: map<Key<T>, Info>, m: nat, n: nat)
    ensures MoveMap(b + MoveMap(c, m), n) == MoveMap(b, n) + MoveMap(c, n + m)
  {
    hide MoveMap;
    var cm := MoveMap(c, m);
    var left, right1, right2 := MoveMap(b + cm, n), MoveMap(b, n), MoveMap(c, n + m);
    forall e: Key<T>
      ensures e in left <==> e in right1 + right2
      ensures e in left ==> left[e] == (right1 + right2)[e]
    {
      if e.ip >= n {
        assert KeyIn(e, n) in cm <==> e in right2 by {
          if e.ip >= n + m { assert KeyIn(KeyIn(e, n), m) == KeyIn(e, n + m); }
        }
        if e in right2 { assert KeyIn(KeyIn(e, n), m) == KeyIn(e, n + m); }
      }
    }
  }

  lemma SumAssociates<K, V>(a: map<K, V>, b: map<K, V>, c: map<K, V>)
    ensures a + (b + c) == a + b + c
  {
  }

  lemma SetAssociates<T>(a: set<T>, b: set<T>, c: set<T>)
    ensures a + (b + c) == a + b + c
  {
  }

  lemma SeqAssociates<T>(a: seq<T>, b: seq<T>, c: seq<T>)
    ensures a + (b + c) == a + b + c
  {
  }

  /** (a + b) + c and a + (b + c) are the same chunk in every table, or both panic. */
  lemma MergeAssociates(a: ChunkData, b: ChunkData, c: ChunkData, checked: bool)
    requires WellFormed(b.code) && WellFormed(c.code)
    requires OffsetsAdd(Offsets(|b.code|, |b.constants|, checked), Offsets(|a.code|, |a.constants|, checked))
    ensures ThenMerge(Merge(a, b, checked), c, checked) == MergeInto(a, Merge(b, c, checked), checked)
  {
    hide Relocate, MoveKeys, MoveMap, MoveLines, MoveValues, AssembledFrom;
    var la, lb := |a.code|, |b.code|;
    var oa, ob := Offsets(la, |a.constants|, checked), Offsets(lb, |b.constants|, checked);
    var pb :| AssembledFrom(b.code, pb);
    var pc :| AssembledFrom(c.code, pc);
    CodeAssociatesFor(b.code, c.code, pb, pc, oa, ob);
    ConstantsAssociate(b.constants, c.constants, lb, la);
    SeqAssociates(a.constants, MoveValues(b.constants, la), MoveValues(c.constants, la + lb));
    LinesAssociate(b.lines, c.lines, lb, la);
    SeqAssociates(a.lines, MoveLines(b.lines, la), MoveLines(c.lines, la + lb));
    KeysAssociate(b.ipSets, c.ipSets, lb, la);
    MapsAssociate(b.ipMaps, c.ipMaps, lb, la);
    SumAssociates(a.ipMaps, MoveMap(b.ipMaps, la), MoveMap(c.ipMaps, la + lb));
    SetAssociates(a.ipSets, MoveKeys(b.ipSets, la), MoveKeys(c.ipSets, la + lb));
    SetAssociates(a.nameSets, b.nameSets, c.nameSets);
    SumAssociates(a.blockAliases, b.blockAliases, c.blockAliases);
    if Relocate(b.code, oa).Some? && Relocate(c.code, SumOf(ob, oa)).Some? {
      SeqAssociates(a.code, Relocate(b.code, oa).value, Relocate(c.code, SumOf(ob, oa)).value);
    }
  }

  lemma CodeAssociatesFor(b: seq<byte>, c: seq<byte>, pb: seq<Instr>, pc: seq<Instr>, oa: Offsets, ob: Offsets)
    requires AssembledFrom(b, pb) && AssembledFrom(c, pc) && OffsetsAdd(ob, oa)
    ensures (match Relocate(c, ob)
             case None => Relocate(c, SumOf(ob, oa)) == None
             case Some(moved) => Relocate(b + moved, oa) == Both(Relocate(b, oa), Relocate(c, SumOf(ob, oa))))
  {
    CodeAssociates(pb, pc, oa, ob);
  }
}
