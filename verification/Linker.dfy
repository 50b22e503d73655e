/**
 Chunks and the merge that appends a dependency's chunk to a base chunk.
 The IP-keyed sets and maps of a chunk are kept in two tables keyed by table name and IP.
 */
module Linker {
  import opened Prelude
  import opened Bytecode
  import opened Relocation

  /** Constants and runtime values, as far as linking distinguishes them. */
  datatype Value =
    | Function(ip: nat, arity: byte)
    | Closure(ip: nat, arity: byte, captures: seq<byte>)
    | Text(text: string)
    | Opaque(tag: int, truthy: bool)

  datatype IpSet = ClassConstructor | DerivedConstructor | AsyncFn | ArrowFn | GeneratorFn | MethodFn | NamedFnSelf

  datatype IpMap =
    | FnName | FnLength | FnStrictness | FnSimpleParameters | FnLocalNames | FnConstLocalNames | CalleeName
    | PrivateNameContext | EvalContext | BrandUpvalue | UpvalueNames | SourcePath | SourceText

  /** Contents of an IP-keyed map entry; linking copies it. */
  type Info = int

  /** An entry of an IP-keyed table: which table, and the key. */
  datatype Key<T> = Key(table: T, ip: nat)

  datatype NameSet = DeclaredGlobals | LexicalDeclaredGlobals | FnDeclaredGlobals

  datatype LineEntry = LineEntry(offset: nat, line: nat, column: nat)

  datatype ChunkData = ChunkData(
    code: seq<byte>,
    constants: seq<Value>,
    ipSets: set<Key<IpSet>>,
    ipMaps: map<Key<IpMap>, Info>,
    lines: seq<LineEntry>,
    nameSets: set<(NameSet, string)>,
    blockAliases: map<string, string>)

  function MoveValue(v: Value, off: nat): Value {
    match v
    case Function(ip, arity) => Function(ip + off, arity)
    case Closure(ip, arity, captures) => Closure(ip + off, arity, captures)
    case _ => v
  }

  function MoveValues(vs: seq<Value>, off: nat): (r: seq<Value>)
    ensures |r| == |vs| && forall k :: 0 <= k < |vs| ==> r[k] == MoveValue(vs[k], off)
  {
    seq(|vs|, k requires 0 <= k < |vs| => MoveValue(vs[k], off))
  }

  function MoveKey<T>(e: Key<T>, off: nat): Key<T> {
    e.(ip := e.ip + off)
  }

  /** The key in the dependency that a merged key comes from. */
  function KeyIn<T>(e: Key<T>, off: nat): Key<T>
    requires e.ip >= off
  {
    e.(ip := e.ip - off)
  }

  function MoveKeys<T(==,!new)>(s: set<Key<T>>, off: nat): (r: set<Key<T>>)
    ensures forall e :: e in r <==> e.ip >= off && KeyIn(e, off) in s
  {
    var r := set e | e in s :: MoveKey(e, off);
    assert forall e: Key<T> | e.ip >= off :: MoveKey(KeyIn(e, off), off) == e;
    assert forall e: Key<T> | e in s :: KeyIn(MoveKey(e, off), off) == e;
    r
  }

  function MoveMap<T(==,!new)>(m: map<Key<T>, Info>, off: nat): (r: map<Key<T>, Info>)
    ensures forall e :: e in r <==> e.ip >= off && KeyIn(e, off) in m
    ensures forall e :: e in r ==> r[e] == m[KeyIn(e, off)]
  {
    map e | e in MoveKeys(m.Keys, off) :: m[KeyIn(e, off)]
  }

  lemma MoveKeysAdd<T(!new)>(s: set<Key<T>>, e: Key<T>, off: nat)
    ensures MoveKeys(s + {e}, off) == MoveKeys(s, off) + {MoveKey(e, off)}
  {
    forall f: Key<T> ensures f in MoveKeys(s + {e}, off) <==> f in MoveKeys(s, off) + {MoveKey(e, off)} {
      if f.ip >= off { assert KeyIn(f, off) == e <==> f == MoveKey(e, off); }
    }
  }

  lemma MoveMapAdd<T(!new)>(m: map<Key<T>, Info>, e: Key<T>, v: Info, off: nat)
    ensures MoveMap(m[e := v], off) == MoveMap(m, off)[MoveKey(e, off) := v]
  {
    var left, right := MoveMap(m[e := v], off), MoveMap(m, off)[MoveKey(e, off) := v];
    forall f: Key<T> ensures f in left <==> f in right {
      if f.ip >= off { assert KeyIn(f, off) == e <==> f == MoveKey(e, off); }
    }
    forall f | f in left ensures left[f] == right[f] {
      assert KeyIn(f, off) == e <==> f == MoveKey(e, off);
    }
  }

  lemma MoveMapEmpty<T(!new)>(m: map<Key<T>, Info>, off: nat)
    requires m == map[]
    ensures MoveMap(m, off) == map[]
  {
  }

  lemma OneLess<K, V>(m: map<K, V>, keys: set<K>, k: K)
    requires k in keys && k in m
    ensures m - (keys - {k}) == (m - keys)[k := m[k]]
  {
  }

  lemma PutSum<K, V>(a: map<K, V>, b: map<K, V>, k: K, v: V)
    ensures (a + b)[k := v] == a + b[k := v]
  {
  }

  function MoveLines(ls: seq<LineEntry>, off: nat): (r: seq<LineEntry>)
    ensures |r| == |ls| && forall k :: 0 <= k < |ls| ==> r[k] == ls[k].(offset := ls[k].offset + off)
  {
    seq(|ls|, k requires 0 <= k < |ls| => ls[k].(offset := ls[k].offset + off))
  }

  /** What merging yields; None is a panic while relocating the dependency's code. */
  function Merge(base: ChunkData, dep: ChunkData, checked: bool): Option<ChunkData> {
    var off := |base.code|;
    match Relocate(dep.code, Offsets(off, |base.constants|, checked))
    case None => None
    case Some(moved) =>
      Some(ChunkData(
        base.code + moved,
        base.constants + MoveValues(dep.constants, off),
        base.ipSets + MoveKeys(dep.ipSets, off),
        base.ipMaps + MoveMap(dep.ipMaps, off),
        base.lines + MoveLines(dep.lines, off),
        base.nameSets + dep.nameSets,
        base.blockAliases + dep.blockAliases))
  }

  // ----- well-formed chunks -----

  ghost predicate Sorted(ls: seq<LineEntry>) {
    forall i, j :: 0 <= i < j < |ls| ==> ls[i].offset <= ls[j].offset
  }

  /** Every IP the side tables know lies inside the code, and the line map is sorted and stays within the code. */
  ghost predicate Located(c: ChunkData) {
    && (forall e :: e in c.ipSets ==> e.ip < |c.code|)
    && (forall e :: e in c.ipMaps ==> e.ip < |c.code|)
    && Sorted(c.lines)
    && (forall k :: 0 <= k < |c.lines| ==> c.lines[k].offset <= |c.code|)
  }

  ghost predicate AssembledFrom(code: seq<byte>, p: seq<Instr>) {
    AllValid(p) && code == Assemble(p)
  }

  /** The code is a sequence of whole instructions. */
  ghost predicate WellFormed(code: seq<byte>) {
    exists p :: AssembledFrom(code, p)
  }

  // ----- the class the linker updates in place -----

  class Chunk {
    var code: seq<byte>
    var constants: seq<Value>
    var ipSets: set<Key<IpSet>>
    var ipMaps: map<Key<IpMap>, Info>
    var lines: seq<LineEntry>
    var nameSets: set<(NameSet, string)>
    var blockAliases: map<string, string>

    ghost function Data(): ChunkData
      reads this
    {
      ChunkData(code, constants, ipSets, ipMaps, lines, nameSets, blockAliases)
    }

    constructor ()
      ensures Data() == ChunkData([], [], {}, map[], [], {}, map[])
    {
      code, constants, ipSets, ipMaps, lines, nameSets, blockAliases := [], [], {}, map[], [], {}, map[];
    }

    method WriteByte(b: byte)
      modifies this`code
      ensures code == old(code) + [b]
    {
      code := code + [b];
    }

    method WriteU16(v: u16)
      modifies this`code
      ensures code == old(code) + Bytes16(v)
    {
      code := code + [v % 0x100];
      code := code + [v / 0x100 % 0x100];
    }

    method WriteU32(v: u32)
      modifies this`code
      ensures code == old(code) + Bytes32(v)
    {
      code := code + [v % 0x100];
      code := code + [v / 0x100 % 0x100];
      code := code + [v / 0x1_0000 % 0x100];
      code := code + [v / 0x100_0000 % 0x100];
    }

    /** The returned index is narrowed to u16; it names the new constant exactly while the pool has at most 65536 entries. */
    method AddConstant(v: Value) returns (index: u16)
      modifies this`constants
      ensures constants == old(constants) + [v]
      ensures (index as int < |constants| && index as int == |old(constants)|) <==> |constants| <= U16
    {
      constants := constants + [v];
      index := (|constants| - 1) % U16;
    }

    method RecordLine(line: nat, column: nat)
      modifies this`lines
      ensures lines == Recorded(old(lines), |code|, line, column)
    {
      if line == 0 { return; }
      var ip := |code|;
      if lines == [] || (lines[|lines| - 1].line, lines[|lines| - 1].column) != (line, column) {
        lines := lines + [LineEntry(ip, line, column)];
      }
    }

    /** Append the dependency and return where its code starts; `ok` is false when relocation panics. */
    method MergeDependencyChunk(dep: Chunk, checked: bool) returns (ok: bool, ipOffset: nat)
      requires dep != this
      modifies this
      ensures ipOffset == |old(code)|
      ensures ok <==> Merge(old(Data()), dep.Data(), checked).Some?
      ensures ok ==> Data() == Merge(old(Data()), dep.Data(), checked).value
    {
      ipOffset := |code|;
      var constOffset := |constants|;

      var adjusted := dep.constants;
      for k := 0 to |adjusted|
        invariant |adjusted| == |dep.constants|
        invariant forall m :: 0 <= m < k ==> adjusted[m] == MoveValue(dep.constants[m], ipOffset)
        invariant forall m :: k <= m < |adjusted| ==> adjusted[m] == dep.constants[m]
      {
        adjusted := adjusted[k := MoveValue(adjusted[k], ipOffset)];
      }
      assert adjusted == MoveValues(dep.constants, ipOffset);
      constants := constants + adjusted;

      var depBytes := dep.code;
      var depCode := new byte[|depBytes|](k requires 0 <= k < |depBytes| => depBytes[k]);
      assert depCode[..] == dep.code;
      ok := AdjustBytecodeOffsets(depCode, Offsets(ipOffset, constOffset, checked));
      if !ok { return; }
      code := code + depCode[..];

      MergeIpSets(dep, ipOffset);
      MergeIpMaps(dep, ipOffset);
      MergeLines(dep, ipOffset);

      nameSets := nameSets + dep.nameSets;
      blockAliases := blockAliases + dep.blockAliases;
    }

    method MergeIpSets(dep: Chunk, off: nat)
      requires dep != this
      modifies this`ipSets
      ensures ipSets == old(ipSets) + MoveKeys(dep.ipSets, off)
    {
      var rest := dep.ipSets;
      ghost var done: set<Key<IpSet>> := {};
      while rest != {}
        invariant done + rest == dep.ipSets
        invariant ipSets == old(ipSets) + MoveKeys(done, off)
        decreases |rest|
      {
        var e :| e in rest;
        ipSets := ipSets + {MoveKey(e, off)};
        rest := rest - {e};
        MoveKeysAdd(done, e, off);
        done := done + {e};
      }
    }

    method MergeIpMaps(dep: Chunk, off: nat)
      requires dep != this
      modifies this`ipMaps
      ensures ipMaps == old(ipMaps) + MoveMap(dep.ipMaps, off)
    {
      hide MoveMap, MoveKeys, MoveKey;
      var source := dep.ipMaps;
      var rest := source.Keys;
      ghost var before := ipMaps;
      MoveMapEmpty(source - rest, off);
      assert before + MoveMap(source - rest, off) == before;
      while rest != {}
        invariant rest <= source.Keys
        invariant ipMaps == before + MoveMap(source - rest, off)
        decreases |rest|
      {
        var e :| e in rest;
        MoveMapAdd(source - rest, e, source[e], off);
        PutSum(before, MoveMap(source - rest, off), MoveKey(e, off), source[e]);
        OneLess(source, rest, e);
        ipMaps := ipMaps[MoveKey(e, off) := source[e]];
        rest := rest - {e};
      }
      assert source - rest == source;
    }

    method MergeLines(dep: Chunk, off: nat)
      requires dep != this
      modifies this`lines
      ensures lines == old(lines) + MoveLines(dep.lines, off)
    {
      for k := 0 to |dep.lines|
        invariant lines == old(lines) + MoveLines(dep.lines[..k], off)
      {
        lines := lines + [dep.lines[k].(offset := dep.lines[k].offset + off)];
      }
      assert dep.lines[..|dep.lines|] == dep.lines;
    }
  }

  function Recorded(ls: seq<LineEntry>, ip: nat, line: nat, column: nat): seq<LineEntry> {
    if line == 0 || (ls != [] && (ls[|ls| - 1].line, ls[|ls| - 1].column) == (line, column)) then ls
    else ls + [LineEntry(ip, line, column)]
  }

  // ----- when relocation keeps the meaning of operands -----

  const NO_BINDING: u16 := 0xffff

  /** j names the same jump target, constants and catch binding in the merged chunk as i does in the dependency. */
  ghost predicate SameOperands(i: Instr, j: Instr, o: Offsets) {
    match (i, j)
    case (ConstInstr(op, k), ConstInstr(op', k')) => op' == op && k' as int == k as int + o.constant
    case (JumpInstr(op, t), JumpInstr(op', t')) => op' == op && t' as int == t as int + o.ip
    case (TryInstr(t, b, f), TryInstr(t', b', f')) =>
      && t' as int == t as int + o.ip && f' == f
      && (if b == NO_BINDING then b' == NO_BINDING else b' as int == b as int + o.constant && b' != NO_BINDING)
    case (ClosureInstr(k, c), ClosureInstr(k', c')) => k' as int == k as int + o.constant && c' == c
    case _ => j == i
  }

  /** The operands leave room for the offsets, the opcode is one the walk knows, and no binding-less SetupTry meets a constant offset. */
  predicate Fits(i: Instr, o: Offsets)
    requires Valid(i)
  {
    && LinkerShape(OpcodeOf(i)).Some?
    && match i
       case ConstInstr(_, k) => k as int + o.constant < U16
       case JumpInstr(_, t) => t as int + o.ip < U32
       case TryInstr(t, b, _) =>
         && t as int + o.ip < U32
         && (if b == NO_BINDING then o.constant % U16 == 0 else b as int + o.constant < NO_BINDING as int)
       case ClosureInstr(k, _) => k as int + o.constant < U16
       case _ => true
  }

  /** Relocation keeps an instruction's meaning exactly when it fits. */
  lemma RelocationKeepsMeaningIff(i: Instr, o: Offsets)
    requires Valid(i)
    ensures (ShiftInstr(i, o).Some? && SameOperands(i, ShiftInstr(i, o).value, o)) <==> Fits(i, o)
  {
  }
}
