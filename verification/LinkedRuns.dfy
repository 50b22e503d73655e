/** Runs of merged code in which functions of both modules meet: the merged chunk runs as two modules that each keep
    their own instructions and constants, loaded one after the other. */
module LinkedRuns {
  import opened Prelude
  import opened Bytecode
  import opened Relocation
  import opened Linker
  import opened MergeLaws
  import opened Machine

  // ----- two modules side by side -----

  /** A module as its code sees it when loaded at an address: its constants name addresses, and the function tables
      are those of all that is loaded. */
  function Loaded(c: ChunkData, at: nat, known: set<Key<IpSet>>): ChunkData {
    c.(constants := MoveValues(c.constants, at), ipSets := known)
  }

  predicate Addressable(i: Instr, at: nat) {
    match i
    case JumpInstr(_, t) => t as int + at < U32
    case TryInstr(t, _, _) => t as int + at < U32
    case _ => true
  }

  /** The targets of an instruction as addresses; its constants stay those of its module. */
  function Retarget(i: Instr, at: nat): (j: Instr)
    requires Valid(i) && Addressable(i, at)
    ensures Valid(j)
  {
    match i
    case JumpInstr(op, t) => JumpInstr(op, t as int + at)
    case TryInstr(t, b, f) => TryInstr(t as int + at, b, f)
    case _ => i
  }

  /** One step of a module loaded at an address. */
  function StepIn(c: ChunkData, at: nat, known: set<Key<IpSet>>, s: State): Outcome
    requires s.ip >= at
  {
    match Fetch(c.code, s.ip - at)
    case None => Crash
    case Some(i) =>
      if !Addressable(i, at) then Crash
      else Execute(Loaded(c, at, known), Retarget(i, at), s.(ip := s.ip + |Encode(i)|))
  }

  function KnownFunctions(base: ChunkData, dep: ChunkData): set<Key<IpSet>> {
    base.ipSets + MoveKeys(dep.ipSets, |base.code|)
  }

  /** The module in whose code the state stands takes the step. */
  function StepApart(base: ChunkData, dep: ChunkData, s: State): Outcome {
    var known := KnownFunctions(base, dep);
    if s.ip < |base.code| then StepIn(base, 0, known, s) else StepIn(dep, |base.code|, known, s)
  }

  function RunApart(base: ChunkData, dep: ChunkData, s: State, n: nat, answers: seq<State>): (seq<Outcome>, Outcome)
    decreases n
  {
    if n == 0 then ([], Next(s)) else
    match StepApart(base, dep, s)
    case Next(s') => RunApart(base, dep, s', n - 1, answers)
    case External(_, _, _, _) =>
      if answers == [] then ([], StepApart(base, dep, s)) else
      var rest := RunApart(base, dep, answers[0], n - 1, answers[1..]);
      ([StepApart(base, dep, s)] + rest.0, rest.1)
    case other => ([], other)
  }

  // ----- one instruction -----

  /** The constants an instruction names are in a pool of that size. */
  predicate NamesOwn(i: Instr, n: nat) {
    match i
    case ConstInstr(_, k) => k as int < n
    case TryInstr(_, b, _) => b == NO_BINDING || b as int < n
    case ClosureInstr(k, _) => k as int < n
    case _ => true
  }

  lemma SameTablesCall(c: ChunkData, d: ChunkData, flags: byte, argc: nat, s: State, operands: seq<byte>)
    requires c.ipSets == d.ipSets
    ensures Calling(c, flags, argc, s, operands) == Calling(d, flags, argc, s, operands)
  {
    hide Arguments;
  }

  lemma ExecuteBaseApart(base: ChunkData, m: ChunkData, i: Instr, s: State)
    requires Valid(i) && NamesOwn(i, |base.constants|) && |base.constants| <= |m.constants|
    requires forall k :: 0 <= k < |base.constants| ==> m.constants[k] == base.constants[k]
    ensures Addressable(i, 0) && Retarget(i, 0) == i
    ensures Execute(m, i, s) == Execute(Loaded(base, 0, m.ipSets), i, s)
  {
    hide Calling, Returning, Throwing, Operands, MoveValue;
    var c := Loaded(base, 0, m.ipSets);
    forall k | 0 <= k < |base.constants| ensures c.constants[k] == m.constants[k] { MoveByNothing(base.constants[k]); }
    if i.CallInstr? {
      SameTablesCall(m, c, i.flags, if i.wide.Some? then i.wide.value as int else i.flags % 64, s, Operands(i));
    }
  }

  lemma MoveByNothing(v: Value)
    ensures MoveValue(v, 0) == v
  {
  }

  lemma ExecuteDepApart(base: ChunkData, dep: ChunkData, m: ChunkData, i: Instr, j: Instr, o: Offsets, s: State)
    requires o.ip == |base.code| && o.constant == |base.constants|
    requires |m.constants| == |base.constants| + |dep.constants|
    requires forall k :: 0 <= k < |dep.constants| ==> m.constants[|base.constants| + k] == MoveValue(dep.constants[k], o.ip)
    requires Valid(i) && Valid(j) && SameOperands(i, j, o)
    ensures Addressable(i, o.ip)
    ensures Execute(m, j, s) == Execute(Loaded(dep, o.ip, m.ipSets), Retarget(i, o.ip), s)
  {
    hide Calling, Returning, Throwing, Operands, MoveValue;
    var c := Loaded(dep, o.ip, m.ipSets);
    if i.CallInstr? {
      SameTablesCall(m, c, i.flags, if i.wide.Some? then i.wide.value as int else i.flags % 64, s, Operands(i));
    }
  }

  // ----- one step -----

  ghost predicate Joined(base: ChunkData, dep: ChunkData, m: ChunkData, checked: bool, q: seq<Instr>, p: seq<Instr>) {
    && Linked(base, dep, m, checked, p)
    && AssembledFrom(base.code, q)
    && forall k :: 0 <= k < |q| ==> NamesOwn(q[k], |base.constants|)
  }

  /** An instruction boundary of one of the modules, as an address. */
  ghost predicate Lands(base: ChunkData, q: seq<Instr>, p: seq<Instr>, ip: nat)
    requires AllValid(q) && AllValid(p)
  {
    (ip < |base.code| && Boundary(q, ip)) || (ip >= |base.code| && Boundary(p, ip - |base.code|))
  }

  lemma MergedTables(base: ChunkData, dep: ChunkData, m: ChunkData, checked: bool)
    requires Merge(base, dep, checked) == Some(m)
    ensures m.ipSets == KnownFunctions(base, dep)
    ensures |m.constants| == |base.constants| + |dep.constants|
    ensures forall k :: 0 <= k < |base.constants| ==> m.constants[k] == base.constants[k]
    ensures forall k :: 0 <= k < |dep.constants| ==> m.constants[|base.constants| + k] == MoveValue(dep.constants[k], |base.code|)
  {
    hide Relocate, MoveKeys, MoveMap, MoveLines;
  }

  lemma StepInBase(base: ChunkData, dep: ChunkData, m: ChunkData, checked: bool, q: seq<Instr>, p: seq<Instr>, s: State)
    requires Joined(base, dep, m, checked, q, p) && Boundary(q, s.ip) && s.ip < |base.code|
    ensures Step(m, s) == StepIn(base, 0, KnownFunctions(base, dep), s)
  {
    hide Fetch, Encode, Execute, Merge, KnownFunctions, Fits, Loaded, Retarget, Addressable, Assemble;
    TablesKeptByMerge(base, dep, m, checked);
    MergedTables(base, dep, m, checked);
    assert q[..|q|] == q;
    var k :| 0 <= k <= |q| && OffsetOf(q, k) == s.ip;
    FetchInBase(base, m, q, k);
    ExecuteBaseApart(base, m, q[k], s.(ip := s.ip + |Encode(q[k])|));
  }

  lemma FetchInBase(base: ChunkData, m: ChunkData, q: seq<Instr>, k: nat)
    requires AssembledFrom(base.code, q) && k < |q| && |base.code| <= |m.code| && m.code[..|base.code|] == base.code
    ensures Fetch(base.code, OffsetOf(q, k)) == Some(q[k]) && Fetch(m.code, OffsetOf(q, k)) == Some(q[k])
  {
    hide Fetch, Encode, Assemble, OffsetOf;
    FetchAtBoundary([], q, [], k);
    assert [] + Assemble(q) + [] == base.code;
    FetchAtBoundary([], q, m.code[|base.code|..], k);
    assert [] + Assemble(q) + m.code[|base.code|..] == m.code;
  }

  lemma StepInDep(base: ChunkData, dep: ChunkData, m: ChunkData, checked: bool, q: seq<Instr>, p: seq<Instr>, s: State)
    requires Joined(base, dep, m, checked, q, p) && s.ip >= |base.code| && Boundary(p, s.ip - |base.code|)
    ensures Step(m, s) == StepIn(dep, |base.code|, KnownFunctions(base, dep), s)
  {
    hide Fetch, Encode, Execute, Merge, KnownFunctions, Fits, Loaded, Retarget, Addressable, ShiftInstr, SameOperands;
    var o := SeamOf(base, checked);
    MergedTables(base, dep, m, checked);
    var k :| 0 <= k <= |p| && OffsetOf(p, k) == s.ip - |base.code|;
    if k == |p| {
      assert p[..k] == p;
      MergedLength(base, dep, m, checked);
      PastEnd(dep.code, s.ip - |base.code|);
      PastEnd(m.code, s.ip);
    } else {
      FetchMoves(base, dep, m, checked, p, k);
      ShiftKeepsLength(p[k], o);
      RelocationKeepsMeaningIff(p[k], o);
      ExecuteDepApart(base, dep, m, p[k], ShiftInstr(p[k], o).value, o, s.(ip := s.ip + |Encode(p[k])|));
    }
  }

  lemma MergedLength(base: ChunkData, dep: ChunkData, m: ChunkData, checked: bool)
    requires Merge(base, dep, checked) == Some(m)
    ensures |m.code| == |base.code| + |dep.code|
  {
    hide Merge;
    MergeKeepsBase(base, dep, checked);
  }

  /** From any instruction of either module, whatever functions the state holds, a step of the merged chunk is the step
      of the module the state stands in. */
  lemma StepsApart(base: ChunkData, dep: ChunkData, m: ChunkData, checked: bool, q: seq<Instr>, p: seq<Instr>, s: State)
    requires Joined(base, dep, m, checked, q, p) && Lands(base, q, p, s.ip)
    ensures Step(m, s) == StepApart(base, dep, s)
  {
    hide Step, StepIn, Joined, Boundary;
    if s.ip < |base.code| {
      StepInBase(base, dep, m, checked, q, p, s);
    } else {
      StepInDep(base, dep, m, checked, q, p, s);
    }
  }

  // ----- whole runs -----

  ghost predicate ValueLands(base: ChunkData, q: seq<Instr>, p: seq<Instr>, v: Value)
    requires AllValid(q) && AllValid(p)
  {
    match v
    case Function(ip, _) => Lands(base, q, p, ip)
    case Closure(ip, _, _) => Lands(base, q, p, ip)
    case _ => true
  }

  /** Every address the state can come back to is an instruction of one of the modules: its functions, frames and catch
      targets may belong to either. */
  ghost predicate StateLands(base: ChunkData, q: seq<Instr>, p: seq<Instr>, s: State)
    requires AllValid(q) && AllValid(p)
  {
    && Lands(base, q, p, s.ip)
    && (forall k :: 0 <= k < |s.stack| ==> ValueLands(base, q, p, s.stack[k]))
    && (forall k :: 0 <= k < |s.tries| ==> Lands(base, q, p, s.tries[k].catchIp))
    && (forall k :: 0 <= k < |s.frames| ==> Lands(base, q, p, s.frames[k].returnIp))
    && (forall g :: g in s.globals ==> ValueLands(base, q, p, s.globals[g]))
  }

  lemma OffsetsInFront(q: seq<Instr>, r: seq<Instr>, k: nat)
    requires AllValid(q) && AllValid(r) && k <= |q|
    ensures AllValid(q + r) && OffsetOf(q + r, k) == OffsetOf(q, k)
  {
    assert (q + r)[..k] == q[..k];
  }

  lemma OffsetsBehind(q: seq<Instr>, r: seq<Instr>, k: nat)
    requires AllValid(q) && AllValid(r) && k <= |r|
    ensures AllValid(q + r) && OffsetOf(q + r, |q| + k) == |Assemble(q)| + OffsetOf(r, k)
  {
    hide Encode;
    assert (q + r)[..|q| + k] == q + r[..k];
    AssembleConcat(q, r[..k]);
  }

  /** The boundaries of the merged code are those of its modules. */
  lemma JointBoundary(base: ChunkData, dep: ChunkData, q: seq<Instr>, p: seq<Instr>, o: Offsets, ip: nat)
    requires AssembledFrom(base.code, q) && AllValid(p) && ShiftAll(p, o).Some?
    ensures AllValid(q + ShiftAll(p, o).value)
    ensures Boundary(q + ShiftAll(p, o).value, ip) <==> Lands(base, q, p, ip)
  {
    hide Encode, ShiftInstr, Assemble, ShiftAll;
    var r, at := ShiftAll(p, o).value, |base.code|;
    if Lands(base, q, p, ip) {
      if ip < at {
        var k :| 0 <= k <= |q| && OffsetOf(q, k) == ip;
        OffsetsInFront(q, r, k);
      } else {
        var k :| 0 <= k <= |p| && OffsetOf(p, k) == ip - at;
        OffsetsAgree(p, o, k);
        OffsetsBehind(q, r, k);
      }
    }
    if Boundary(q + r, ip) {
      var k :| 0 <= k <= |q + r| && OffsetOf(q + r, k) == ip;
      BoundaryLands(base, q, p, o, k);
    }
  }

  lemma BoundaryLands(base: ChunkData, q: seq<Instr>, p: seq<Instr>, o: Offsets, k: nat)
    requires AssembledFrom(base.code, q) && AllValid(p) && ShiftAll(p, o).Some? && k <= |q| + |p|
    ensures AllValid(q + ShiftAll(p, o).value)
    ensures Lands(base, q, p, OffsetOf(q + ShiftAll(p, o).value, k))
  {
    hide Encode, ShiftInstr, Assemble, ShiftAll;
    var r := ShiftAll(p, o).value;
    if k < |q| {
      OffsetsInFront(q, r, k);
      OffsetBelow(q, k);
    } else {
      OffsetsBehind(q, r, k - |q|);
      OffsetsAgree(p, o, k - |q|);
    }
  }

  lemma OffsetBelow(q: seq<Instr>, k: nat)
    requires AllValid(q) && k < |q|
    ensures OffsetOf(q, k) < |Assemble(q)|
  {
    hide Encode;
    assert q == q[..k] + q[k..];
    AssembleConcat(q[..k], q[k..]);
    SomeBytes(q[k..]);
  }

  lemma SomeBytes(q: seq<Instr>)
    requires AllValid(q) && q != []
    ensures |Assemble(q)| > 0
  {
  }

  lemma JointState(base: ChunkData, dep: ChunkData, q: seq<Instr>, p: seq<Instr>, o: Offsets, s: State)
    requires AssembledFrom(base.code, q) && AllValid(p) && ShiftAll(p, o).Some?
    ensures AllValid(q + ShiftAll(p, o).value)
    ensures StateOk(q + ShiftAll(p, o).value, s) <==> StateLands(base, q, p, s)
  {
    hide Encode, ShiftInstr, Assemble, ShiftAll, Boundary, Lands;
    forall ip: nat
      ensures AllValid(q + ShiftAll(p, o).value) && (Boundary(q + ShiftAll(p, o).value, ip) <==> Lands(base, q, p, ip))
    {
      JointBoundary(base, dep, q, p, o, ip);
    }
    JointBoundary(base, dep, q, p, o, 0);
  }

  /** Jumps, catch targets and functions of the merged chunk lead to instructions when those of its modules do. */
  lemma JointClosed(base: ChunkData, dep: ChunkData, m: ChunkData, checked: bool, q: seq<Instr>, p: seq<Instr>)
    requires Joined(base, dep, m, checked, q, p) && Closed(q, base.constants) && Closed(p, dep.constants)
    requires ShiftAll(p, SeamOf(base, checked)).Some?
    ensures AllValid(q + ShiftAll(p, SeamOf(base, checked)).value)
    ensures Closed(q + ShiftAll(p, SeamOf(base, checked)).value, m.constants)
  {
    hide Encode, ShiftInstr, Assemble, ShiftAll, Boundary, Lands, Merge, Fits;
    var o := SeamOf(base, checked);
    var r := ShiftAll(p, o).value;
    MergedTables(base, dep, m, checked);
    JointBoundary(base, dep, q, p, o, 0);
    forall ip: nat ensures Boundary(q + r, ip) <==> Lands(base, q, p, ip) { JointBoundary(base, dep, q, p, o, ip); }
    forall ip: nat | Boundary(q, ip) ensures Lands(base, q, p, ip) { BaseLands(base, q, p, ip); }
    forall ip: nat | Boundary(p, ip) ensures Lands(base, q, p, ip + |base.code|) { DepLands(base, q, p, ip); }
    forall k | 0 <= k < |q + r| ensures TargetsOk(q + r, (q + r)[k]) {
      if k >= |q| { ShiftedTargets(p[k - |q|], r[k - |q|], o, base, q, p, r); }
    }
    forall k | 0 <= k < |m.constants| ensures ValueOk(q + r, m.constants[k]) {
      if k >= |base.constants| {
        assert m.constants[k] == MoveValue(dep.constants[k - |base.constants|], |base.code|);
        assert ValueOk(p, dep.constants[k - |base.constants|]);
      } else {
        assert ValueOk(q, base.constants[k]);
      }
    }
  }

  /** Falling off the base's end is arriving at the dependency's first instruction. */
  lemma BaseLands(base: ChunkData, q: seq<Instr>, p: seq<Instr>, ip: nat)
    requires AssembledFrom(base.code, q) && AllValid(p) && Boundary(q, ip)
    ensures Lands(base, q, p, ip)
  {
    hide Encode, Assemble;
    var k :| 0 <= k <= |q| && OffsetOf(q, k) == ip;
    if ip >= |base.code| {
      if k < |q| { OffsetBelow(q, k); }
      assert q[..|q|] == q;
      Begins(p);
    }
  }

  lemma Begins(p: seq<Instr>)
    requires AllValid(p)
    ensures Boundary(p, 0)
  {
    assert OffsetOf(p, 0) == 0;
  }

  lemma DepLands(base: ChunkData, q: seq<Instr>, p: seq<Instr>, ip: nat)
    requires AllValid(q) && AllValid(p) && Boundary(p, ip)
    ensures Lands(base, q, p, ip + |base.code|)
  {
    hide Boundary;
  }

  lemma ShiftedTargets(i: Instr, j: Instr, o: Offsets, base: ChunkData, q: seq<Instr>, p: seq<Instr>, r: seq<Instr>)
    requires Valid(i) && Fits(i, o) && ShiftInstr(i, o) == Some(j) && o.ip == |base.code|
    requires AllValid(q) && AllValid(p) && AllValid(q + r) && TargetsOk(p, i)
    requires forall ip: nat :: Boundary(p, ip) ==> Lands(base, q, p, ip + |base.code|)
    requires forall ip: nat :: Lands(base, q, p, ip) ==> Boundary(q + r, ip)
    ensures TargetsOk(q + r, j)
  {
    hide Boundary, Lands, Fits, ShiftInstr;
    RelocationKeepsMeaningIff(i, o);
  }

  /** Any number of steps, through whatever the environment answers, with functions of both modules on the stack, in
      globals and in frames: the merged chunk hands out what the two modules hand out, and ends as they do. */
  lemma {:induction false} RunsApart(base: ChunkData, dep: ChunkData, m: ChunkData, checked: bool,
                                     q: seq<Instr>, p: seq<Instr>, s: State, n: nat, answers: seq<State>)
    requires Joined(base, dep, m, checked, q, p) && Closed(q, base.constants) && Closed(p, dep.constants)
    requires StateLands(base, q, p, s) && forall k :: 0 <= k < |answers| ==> StateLands(base, q, p, answers[k])
    ensures RunThrough(m, s, n, answers) == RunApart(base, dep, s, n, answers)
    decreases n
  {
    hide Step, StepApart, Joined, Closed, StateLands, Lands;
    if n > 0 {
      StandsSomewhere(base, dep, m, checked, q, p, s);
      StepsApart(base, dep, m, checked, q, p, s);
      StepLands(base, dep, m, checked, q, p, s);
      var r := Step(m, s);
      if r.Next? {
        RunsApart(base, dep, m, checked, q, p, r.s, n - 1, answers);
      } else if r.External? && answers != [] {
        RunsApart(base, dep, m, checked, q, p, answers[0], n - 1, answers[1..]);
      }
    }
  }

  lemma StandsSomewhere(base: ChunkData, dep: ChunkData, m: ChunkData, checked: bool, q: seq<Instr>, p: seq<Instr>, s: State)
    requires Joined(base, dep, m, checked, q, p) && StateLands(base, q, p, s)
    ensures AllValid(q) && AllValid(p) && Lands(base, q, p, s.ip)
  {
    hide Lands, Merge, Fits;
  }

  lemma StepLands(base: ChunkData, dep: ChunkData, m: ChunkData, checked: bool, q: seq<Instr>, p: seq<Instr>, s: State)
    requires Joined(base, dep, m, checked, q, p) && Closed(q, base.constants) && Closed(p, dep.constants)
    requires StateLands(base, q, p, s)
    ensures Step(m, s).Next? ==> StateLands(base, q, p, Step(m, s).s)
  {
    hide Step, Closed, StateLands, StateOk, Merge, ShiftAll, Assemble, Fits;
    var o := SeamOf(base, checked);
    MergedCode(base, dep, m, checked, p);
    var r := ShiftAll(p, o).value;
    JointClosed(base, dep, m, checked, q, p);
    JointState(base, dep, q, p, o, s);
    AssembleConcat(q, r);
    StepOk(m, q + r, s);
    if Step(m, s).Next? { JointState(base, dep, q, p, o, Step(m, s).s); }
  }
}
