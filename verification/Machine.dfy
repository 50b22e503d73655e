/**
 The machine's control flow over a chunk: constants, jumps, try frames, throws, closures,
 plain calls and returns. Every other instruction is handed out as External, with its
 constant already looked up. Merged code simulates the dependency's code.
 */
module Machine {
  import opened Prelude
  import opened Bytecode
  import opened Relocation
  import opened Linker
  import opened MergeLaws
  import Arith

  const UNDEFINED: Value := Opaque(0, false)

  datatype TryFrame = TryFrame(catchIp: nat, stackDepth: nat, frameDepth: nat, binding: Option<string>, forFinally: bool)

  datatype Frame = Frame(returnIp: nat, bp: nat, funcIp: nat)

  datatype State = State(ip: nat, stack: seq<Value>, tries: seq<TryFrame>, frames: seq<Frame>, globals: map<string, Value>)

  datatype Outcome =
    | Next(s: State)
    | Exit(result: Value)
    | Uncaught(thrown: Value)
    | External(op: byte, operands: seq<byte>, constant: Option<Value>, after: State)
    | Crash   // a read past the code, the constants or the stack

  predicate Truthy(v: Value) {
    match v
    case Opaque(_, truthy) => truthy
    case Text(t) => t != ""
    case _ => true
  }

  function Top(stack: seq<Value>): Value {
    if stack == [] then UNDEFINED else stack[|stack| - 1]
  }

  function Popped(stack: seq<Value>): seq<Value> {
    if stack == [] then [] else stack[..|stack| - 1]
  }

  function Truncated<T>(s: seq<T>, n: nat): seq<T> {
    if n < |s| then s[..n] else s
  }

  function Push(s: State, v: Value): State {
    s.(stack := s.stack + [v])
  }

  function Throwing(s: State, thrown: Value): Outcome {
    if s.tries == [] then Uncaught(thrown) else
    var t := s.tries[|s.tries| - 1];
    Next(State(
      t.catchIp,
      Truncated(s.stack, t.stackDepth),
      s.tries[..|s.tries| - 1],
      Truncated(s.frames, t.frameDepth),
      if t.binding.Some? then s.globals[t.binding.value := thrown] else s.globals))
  }

  function DropTries(tries: seq<TryFrame>, depth: nat): seq<TryFrame> {
    if tries != [] && tries[|tries| - 1].frameDepth > depth then DropTries(tries[..|tries| - 1], depth) else tries
  }

  function Returning(s: State): Outcome {
    var result := Top(s.stack);
    if s.frames == [] then Exit(result) else
    var f := s.frames[|s.frames| - 1];
    if f.bp == 0 then Crash else
    Next(State(
      f.returnIp,
      Truncated(Popped(s.stack), f.bp - 1) + [result],
      DropTries(s.tries, |s.frames| - 1),
      s.frames[..|s.frames| - 1],
      s.globals))
  }

  /** Functions whose call only pushes a frame. */
  predicate IsPlainFunction(c: ChunkData, ip: nat) {
    && Key(ClassConstructor, ip) !in c.ipSets
    && Key(AsyncFn, ip) !in c.ipSets
    && Key(GeneratorFn, ip) !in c.ipSets
  }

  /** The callee's argument slots: missing arguments padded, surplus ones cut off. */
  function Arguments(args: seq<Value>, arity: byte): seq<Value> {
    if |args| > arity as int then args[..arity] else args + seq(arity as int - |args|, _ => UNDEFINED)
  }

  function Calling(c: ChunkData, flags: byte, argc: nat, s: State, operands: seq<byte>): Outcome {
    if |s.stack| < argc + 1 then Crash else
    var callee := |s.stack| - argc - 1;
    match s.stack[callee]
    case Function(target, arity) =>
      if flags >= 0x40 || !IsPlainFunction(c, target) then External(15, operands, None, s)
      else if argc > arity as int && argc % 0x100 < arity as int then Crash
      else Next(s.(
        ip := target,
        stack := s.stack[..callee + 1] + Arguments(s.stack[callee + 1..], arity),
        frames := s.frames + [Frame(s.ip, callee + 1, target)]))
    case _ => External(15, operands, None, s)
  }

  function Binding(constants: seq<Value>, b: u16): Option<string>
    requires b == NO_BINDING || b as int < |constants|
  {
    if b != NO_BINDING && constants[b].Text? then Some(constants[b].text) else None
  }

  /** Execute i, with s.ip already past it. */
  function Execute(c: ChunkData, i: Instr, s: State): Outcome
    requires Valid(i)
  {
    match i
    case Plain(op) =>
      if op == 0 then Returning(s)
      else if op == 6 then Next(s.(stack := Popped(s.stack)))
      else if op == 35 then Throwing(s.(stack := Popped(s.stack)), Top(s.stack))
      else if op == 37 then Next(s.(tries := if s.tries == [] then [] else s.tries[..|s.tries| - 1]))
      else if op == 42 then Next(Push(s, Top(s.stack)))
      else if op == 48 then
        var n := |s.stack|;
        Next(if n < 2 then s else s.(stack := s.stack[..n - 2] + [s.stack[n - 1], s.stack[n - 2]]))
      else External(op, [], None, s)
    case Small(op, operand) => External(op, [operand], None, s)
    case CallInstr(flags, wide) =>
      Calling(c, flags, if wide.Some? then wide.value as int else flags % 64, s, Operands(i))
    case ConstInstr(op, k) =>
      if k as int >= |c.constants| then Crash
      else if op == 1 then Next(Push(s, c.constants[k]))
      else External(op, [], Some(c.constants[k]), s)
    case JumpInstr(op, t) =>
      if op == 10 then Next(s.(ip := t))
      else Next(s.(stack := Popped(s.stack), ip := if Truthy(Top(s.stack)) == (op == 26) then t else s.ip))
    case TryInstr(t, b, flags) =>
      if b != NO_BINDING && b as int >= |c.constants| then Crash
      else Next(s.(tries := s.tries + [TryFrame(t, |s.stack|, |s.frames|, Binding(c.constants, b), flags % 2 == 1)]))
    case ClosureInstr(k, captures) =>
      if k as int >= |c.constants| then Crash
      else Next(Push(s, match c.constants[k] case Function(ip, arity) => Closure(ip, arity, captures) case _ => UNDEFINED))
  }

  function Step(c: ChunkData, s: State): Outcome {
    match Fetch(c.code, s.ip)
    case None => Crash
    case Some(i) => Execute(c, i, s.(ip := s.ip + |Encode(i)|))
  }

  /** At most n steps, stopping at the first outcome that is not Next. */
  function Run(c: ChunkData, s: State, n: nat): Outcome
    decreases n
  {
    if n == 0 then Next(s) else
    match Step(c, s)
    case Next(s') => Run(c, s', n - 1)
    case other => other
  }

  // ----- moving a state by an offset -----

  function MoveTries(ts: seq<TryFrame>, off: nat): (r: seq<TryFrame>)
    ensures |r| == |ts| && forall k :: 0 <= k < |ts| ==> r[k] == ts[k].(catchIp := ts[k].catchIp + off)
  {
    seq(|ts|, k requires 0 <= k < |ts| => ts[k].(catchIp := ts[k].catchIp + off))
  }

  function MoveFrames(fs: seq<Frame>, off: nat): (r: seq<Frame>)
    ensures |r| == |fs|
    ensures forall k :: 0 <= k < |fs| ==> r[k] == Frame(fs[k].returnIp + off, fs[k].bp, fs[k].funcIp + off)
  {
    seq(|fs|, k requires 0 <= k < |fs| => Frame(fs[k].returnIp + off, fs[k].bp, fs[k].funcIp + off))
  }

  function MoveGlobals(g: map<string, Value>, off: nat): (r: map<string, Value>)
    ensures r.Keys == g.Keys && forall k :: k in g ==> r[k] == MoveValue(g[k], off)
  {
    map k | k in g :: MoveValue(g[k], off)
  }

  function MoveState(s: State, off: nat): State {
    State(s.ip + off, MoveValues(s.stack, off), MoveTries(s.tries, off), MoveFrames(s.frames, off), MoveGlobals(s.globals, off))
  }

  function MoveOutcome(r: Outcome, off: nat): Outcome {
    match r
    case Next(s) => Next(MoveState(s, off))
    case Exit(v) => Exit(MoveValue(v, off))
    case Uncaught(v) => Uncaught(MoveValue(v, off))
    case External(op, operands, None, s) => External(op, operands, None, MoveState(s, off))
    case External(op, operands, Some(v), s) => External(op, operands, Some(MoveValue(v, off)), MoveState(s, off))
    case Crash => Crash
  }

  // ----- pieces of a step commute with moving -----

  lemma MoveTop(stack: seq<Value>, off: nat)
    ensures Top(MoveValues(stack, off)) == MoveValue(Top(stack), off)
    ensures Popped(MoveValues(stack, off)) == MoveValues(Popped(stack), off)
  {
  }

  lemma MovePush(stack: seq<Value>, v: Value, off: nat)
    ensures MoveValues(stack + [v], off) == MoveValues(stack, off) + [MoveValue(v, off)]
  {
  }

  lemma MovePushTry(ts: seq<TryFrame>, t: TryFrame, off: nat)
    ensures MoveTries(ts + [t], off) == MoveTries(ts, off) + [t.(catchIp := t.catchIp + off)]
  {
  }

  lemma MoveTruncated(stack: seq<Value>, frames: seq<Frame>, n: nat, off: nat)
    ensures Truncated(MoveValues(stack, off), n) == MoveValues(Truncated(stack, n), off)
    ensures Truncated(MoveFrames(frames, off), n) == MoveFrames(Truncated(frames, n), off)
  {
  }

  lemma MovePutGlobal(g: map<string, Value>, name: string, v: Value, off: nat)
    ensures MoveGlobals(g[name := v], off) == MoveGlobals(g, off)[name := MoveValue(v, off)]
  {
  }

  lemma MoveThrowing(s: State, v: Value, off: nat)
    ensures Throwing(MoveState(s, off), MoveValue(v, off)) == MoveOutcome(Throwing(s, v), off)
  {
    if s.tries != [] {
      var t := s.tries[|s.tries| - 1];
      MoveTruncated(s.stack, s.frames, t.stackDepth, off);
      MoveTruncated(s.stack, s.frames, t.frameDepth, off);
      assert MoveTries(s.tries, off)[..|s.tries| - 1] == MoveTries(s.tries[..|s.tries| - 1], off);
      if t.binding.Some? { MovePutGlobal(s.globals, t.binding.value, v, off); }
    }
  }

  lemma {:induction false} MoveDropTries(ts: seq<TryFrame>, depth: nat, off: nat)
    ensures DropTries(MoveTries(ts, off), depth) == MoveTries(DropTries(ts, depth), off)
  {
    if ts != [] && ts[|ts| - 1].frameDepth > depth {
      assert MoveTries(ts, off)[..|ts| - 1] == MoveTries(ts[..|ts| - 1], off);
      MoveDropTries(ts[..|ts| - 1], depth, off);
    }
  }

  lemma MoveReturning(s: State, off: nat)
    ensures Returning(MoveState(s, off)) == MoveOutcome(Returning(s), off)
  {
    hide DropTries, Truncated, Popped, Top, MoveGlobals, MoveValues, MoveTries;
    MoveTop(s.stack, off);
    if s.frames != [] {
      var f := s.frames[|s.frames| - 1];
      if f.bp > 0 {
        MoveTruncated(Popped(s.stack), s.frames, f.bp - 1, off);
        MovePush(Truncated(Popped(s.stack), f.bp - 1), Top(s.stack), off);
        MoveDropTries(s.tries, |s.frames| - 1, off);
        assert MoveFrames(s.frames, off)[..|s.frames| - 1] == MoveFrames(s.frames[..|s.frames| - 1], off);
      }
    }
  }

  lemma MoveArguments(args: seq<Value>, arity: byte, off: nat)
    ensures Arguments(MoveValues(args, off), arity) == MoveValues(Arguments(args, arity), off)
  {
  }

  lemma MoveCallStack(stack: seq<Value>, callee: nat, arity: byte, off: nat)
    requires callee < |stack|
    ensures var moved := MoveValues(stack, off);
      moved[..callee + 1] + Arguments(moved[callee + 1..], arity)
      == MoveValues(stack[..callee + 1] + Arguments(stack[callee + 1..], arity), off)
  {
    var moved := MoveValues(stack, off);
    MoveArguments(stack[callee + 1..], arity, off);
    assert moved[callee + 1..] == MoveValues(stack[callee + 1..], off);
    assert moved[..callee + 1] == MoveValues(stack[..callee + 1], off);
    MoveValuesConcat(stack[..callee + 1], Arguments(stack[callee + 1..], arity), off);
  }

  lemma MoveValuesConcat(a: seq<Value>, b: seq<Value>, off: nat)
    ensures MoveValues(a + b, off) == MoveValues(a, off) + MoveValues(b, off)
  {
  }

  lemma MovePushFrame(fs: seq<Frame>, f: Frame, off: nat)
    ensures MoveFrames(fs + [f], off) == MoveFrames(fs, off) + [Frame(f.returnIp + off, f.bp, f.funcIp + off)]
  {
  }

  // ----- one instruction -----

  /** m is what merging dep into base gives, and every instruction of dep fits the offsets. */
  ghost predicate Linked(base: ChunkData, dep: ChunkData, m: ChunkData, checked: bool, p: seq<Instr>) {
    && Located(base)
    && Merge(base, dep, checked) == Some(m)
    && AssembledFrom(dep.code, p)
    && forall k :: 0 <= k < |p| ==> Fits(p[k], SeamOf(base, checked))
  }

  function SeamOf(base: ChunkData, checked: bool): Offsets {
    Offsets(|base.code|, |base.constants|, checked)
  }

  /** The constants and function tables of m answer, above the seam, as those of dep do. */
  ghost predicate TablesCarried(base: ChunkData, dep: ChunkData, m: ChunkData) {
    var off := |base.code|;
    && |m.constants| == |base.constants| + |dep.constants|
    && (forall k | 0 <= k < |dep.constants| :: m.constants[|base.constants| + k] == MoveValue(dep.constants[k], off))
    && (forall ip: nat :: IsPlainFunction(m, ip + off) == IsPlainFunction(dep, ip))
  }

  lemma TablesCarriedByMerge(base: ChunkData, dep: ChunkData, m: ChunkData, checked: bool)
    requires Located(base) && Merge(base, dep, checked) == Some(m)
    ensures TablesCarried(base, dep, m)
  {
    hide Merge;
    MergeCarriesDependency(base, dep, checked);
    forall ip: nat ensures IsPlainFunction(m, ip + |base.code|) == IsPlainFunction(dep, ip) {
      assert forall t: IpSet :: MoveKey(Key(t, ip), |base.code|) == Key(t, ip + |base.code|);
    }
  }

  lemma ExecuteCallMoves(dep: ChunkData, m: ChunkData, base: ChunkData, flags: byte, argc: nat, s: State, operands: seq<byte>)
    requires TablesCarried(base, dep, m)
    ensures Calling(m, flags, argc, MoveState(s, |base.code|), operands)
         == MoveOutcome(Calling(dep, flags, argc, s, operands), |base.code|)
  {
    hide IsPlainFunction, MoveValues, MoveFrames, MoveTries, MoveGlobals, Arguments;
    if |s.stack| >= argc + 1 {
      var callee := |s.stack| - argc - 1;
      match s.stack[callee]
      case Function(target, arity) =>
        MoveCallStack(s.stack, callee, arity, |base.code|);
        MovePushFrame(s.frames, Frame(s.ip, callee + 1, target), |base.code|);
      case _ =>
    }
  }

  lemma MoveDroppedTry(ts: seq<TryFrame>, off: nat)
    ensures ts != [] ==> MoveTries(ts, off)[..|ts| - 1] == MoveTries(ts[..|ts| - 1], off)
    ensures MoveTries([], off) == []
  {
  }

  lemma MoveSwapped(stack: seq<Value>, off: nat)
    requires |stack| >= 2
    ensures var n, moved := |stack|, MoveValues(stack, off);
      moved[..n - 2] + [moved[n - 1], moved[n - 2]] == MoveValues(stack[..n - 2] + [stack[n - 1], stack[n - 2]], off)
  {
  }

  lemma ExecutePlainMoves(dep: ChunkData, m: ChunkData, op: byte, s: State, off: nat)
    requires Valid(Plain(op))
    ensures Execute(m, Plain(op), MoveState(s, off)) == MoveOutcome(Execute(dep, Plain(op), s), off)
  {
    hide Returning, Throwing, MoveFrames, MoveGlobals, MoveTries, MoveValues;
    MoveTop(s.stack, off);
    if op == 0 {
      MoveReturning(s, off);
    } else if op == 35 {
      MoveThrowing(s.(stack := Popped(s.stack)), Top(s.stack), off);
    } else if op == 37 {
      MoveDroppedTry(s.tries, off);
    } else if op == 42 {
      MovePush(s.stack, Top(s.stack), off);
    } else if op == 48 && |s.stack| >= 2 {
      MoveSwapped(s.stack, off);
    }
  }

  /** An instruction and its relocated form do the same, up to the offset. */
  lemma ExecuteMoves(base: ChunkData, dep: ChunkData, m: ChunkData, i: Instr, j: Instr, o: Offsets, s: State)
    requires TablesCarried(base, dep, m)
    requires o.ip == |base.code| && o.constant == |base.constants|
    requires Valid(i) && Valid(j) && SameOperands(i, j, o)
    ensures Execute(m, j, MoveState(s, o.ip)) == MoveOutcome(Execute(dep, i, s), o.ip)
  {
    hide Calling, IsPlainFunction, Operands, MoveValues, MoveFrames, MoveTries, MoveGlobals;
    var off := o.ip;
    match i
    case Plain(op) => ExecutePlainMoves(dep, m, op, s, off);
    case Small(_, _) =>
    case CallInstr(flags, wide) =>
      ExecuteCallMoves(dep, m, base, flags, if wide.Some? then wide.value as int else flags % 64, s, Operands(i));
    case ConstInstr(op, k) =>
      if k as int < |dep.constants| { MovePush(s.stack, dep.constants[k], off); }
    case JumpInstr(_, _) => MoveTop(s.stack, off);
    case TryInstr(t, b, f) =>
      if b == NO_BINDING || b as int < |dep.constants| {
        MovePushTry(s.tries, TryFrame(t, |s.stack|, |s.frames|, Binding(dep.constants, b), f % 2 == 1), off);
      }
    case ClosureInstr(k, captures) =>
      if k as int < |dep.constants| {
        MovePush(s.stack, match dep.constants[k] case Function(ip, a) => Closure(ip, a, captures) case _ => UNDEFINED, off);
      }
  }

  // ----- one step, at an instruction boundary -----

  lemma {:induction false} LengthsAgree(p: seq<Instr>, o: Offsets)
    requires AllValid(p) && ShiftAll(p, o).Some?
    ensures |Assemble(ShiftAll(p, o).value)| == |Assemble(p)|
  {
    RelocateAssembled(p, o);
  }

  lemma OffsetsAgree(p: seq<Instr>, o: Offsets, k: nat)
    requires AllValid(p) && ShiftAll(p, o).Some? && k <= |p|
    ensures OffsetOf(ShiftAll(p, o).value, k) == OffsetOf(p, k)
  {
    hide ShiftInstr, Encode;
    assert p == p[..k] + p[k..];
    ShiftAllConcat(p[..k], p[k..], o);
    var q := ShiftAll(p, o).value;
    assert ShiftAll(p[..k], o).value == q[..k];
    LengthsAgree(p[..k], o);
  }

  /** At an instruction boundary of the dependency, the merged code holds the shifted instruction above the seam. */
  lemma FetchMoves(base: ChunkData, dep: ChunkData, m: ChunkData, checked: bool, p: seq<Instr>, k: nat)
    requires Merge(base, dep, checked) == Some(m) && AssembledFrom(dep.code, p) && k < |p|
    ensures Fetch(dep.code, OffsetOf(p, k)) == Some(p[k])
    ensures ShiftInstr(p[k], SeamOf(base, checked)).Some?
    ensures Fetch(m.code, OffsetOf(p, k) + |base.code|) == ShiftInstr(p[k], SeamOf(base, checked))
  {
    hide Fetch, Encode, ShiftInstr, Merge, Assemble;
    var o := SeamOf(base, checked);
    FetchAtBoundary([], p, [], k);
    assert [] + Assemble(p) + [] == Assemble(p);
    MergedCode(base, dep, m, checked, p);
    var q := ShiftAll(p, o).value;
    FetchAtBoundary(base.code, q, [], k);
    assert base.code + Assemble(q) + [] == m.code;
    OffsetsAgree(p, o, k);
  }

  /** The merged code is the base's and the shifted instructions of the dependency. */
  lemma MergedCode(base: ChunkData, dep: ChunkData, m: ChunkData, checked: bool, p: seq<Instr>)
    requires Merge(base, dep, checked) == Some(m) && AssembledFrom(dep.code, p)
    ensures ShiftAll(p, SeamOf(base, checked)).Some?
    ensures var q := ShiftAll(p, SeamOf(base, checked)).value; AllValid(q) && m.code == base.code + Assemble(q)
    ensures |ShiftAll(p, SeamOf(base, checked)).value| == |p|
    ensures forall k :: 0 <= k < |p| ==> ShiftInstr(p[k], SeamOf(base, checked)) == Some(ShiftAll(p, SeamOf(base, checked)).value[k])
  {
    hide Relocate, ShiftInstr, Assemble;
    RelocateAssembled(p, SeamOf(base, checked));
  }

  /** One step of the merged chunk above the seam is the dependency's step, moved. */
  lemma StepMoves(base: ChunkData, dep: ChunkData, m: ChunkData, checked: bool, p: seq<Instr>, s: State)
    requires Linked(base, dep, m, checked, p) && Boundary(p, s.ip)
    ensures Step(m, MoveState(s, |base.code|)) == MoveOutcome(Step(dep, s), |base.code|)
  {
    var o := SeamOf(base, checked);
    var k :| 0 <= k <= |p| && OffsetOf(p, k) == s.ip;
    if k == |p| {
      assert p[..k] == p;
      AtEnd(base, dep, m, checked, p, s);
    } else {
      StepMovesAt(base, dep, m, checked, p, k, s);
    }
  }

  lemma AtEnd(base: ChunkData, dep: ChunkData, m: ChunkData, checked: bool, p: seq<Instr>, s: State)
    requires Linked(base, dep, m, checked, p) && s.ip == |dep.code|
    ensures Step(dep, s) == Crash && Step(m, MoveState(s, |base.code|)) == Crash
  {
    hide Relocate;
  }

  lemma StepMovesAt(base: ChunkData, dep: ChunkData, m: ChunkData, checked: bool, p: seq<Instr>, k: nat, s: State)
    requires Linked(base, dep, m, checked, p) && k < |p| && OffsetOf(p, k) == s.ip
    ensures Step(m, MoveState(s, |base.code|)) == MoveOutcome(Step(dep, s), |base.code|)
  {
    hide Fetch, Encode, ShiftInstr, Execute, Merge, Fits, SameOperands, OffsetOf, AssembledFrom;
    var o := SeamOf(base, checked);
    FetchMoves(base, dep, m, checked, p, k);
    var j := ShiftInstr(p[k], o).value;
    ShiftKeepsLength(p[k], o);
    RelocationKeepsMeaningIff(p[k], o);
    TablesCarriedByMerge(base, dep, m, checked);
    ExecuteMoves(base, dep, m, p[k], j, o, s.(ip := s.ip + |Encode(p[k])|));
  }

  // ----- whole runs -----

  ghost predicate Boundary(p: seq<Instr>, ip: nat)
    requires AllValid(p)
  {
    exists k :: 0 <= k <= |p| && OffsetOf(p, k) == ip
  }

  ghost predicate ValueOk(p: seq<Instr>, v: Value)
    requires AllValid(p)
  {
    match v
    case Function(ip, _) => Boundary(p, ip)
    case Closure(ip, _, _) => Boundary(p, ip)
    case _ => true
  }

  /** Every instruction pointer the state can come back to is an instruction boundary. */
  ghost predicate StateOk(p: seq<Instr>, s: State)
    requires AllValid(p)
  {
    && Boundary(p, s.ip)
    && (forall k :: 0 <= k < |s.stack| ==> ValueOk(p, s.stack[k]))
    && (forall k :: 0 <= k < |s.tries| ==> Boundary(p, s.tries[k].catchIp))
    && (forall k :: 0 <= k < |s.frames| ==> Boundary(p, s.frames[k].returnIp))
    && (forall g :: g in s.globals ==> ValueOk(p, s.globals[g]))
  }

  /** Jumps, catch targets and the functions in the pool lead to instruction boundaries. */
  ghost predicate Closed(p: seq<Instr>, constants: seq<Value>)
    requires AllValid(p)
  {
    && (forall k :: 0 <= k < |p| ==> TargetsOk(p, p[k]))
    && (forall k :: 0 <= k < |constants| ==> ValueOk(p, constants[k]))
  }

  ghost predicate TargetsOk(p: seq<Instr>, i: Instr)
    requires AllValid(p)
  {
    match i
    case JumpInstr(_, t) => Boundary(p, t)
    case TryInstr(t, _, _) => Boundary(p, t)
    case _ => true
  }

  lemma {:induction false} DropTriesOk(p: seq<Instr>, ts: seq<TryFrame>, depth: nat)
    requires AllValid(p) && forall k :: 0 <= k < |ts| ==> Boundary(p, ts[k].catchIp)
    ensures forall k :: 0 <= k < |DropTries(ts, depth)| ==> Boundary(p, DropTries(ts, depth)[k].catchIp)
  {
    hide Boundary;
    if ts != [] && ts[|ts| - 1].frameDepth > depth {
      DropTriesOk(p, ts[..|ts| - 1], depth);
    }
  }

  lemma CallingOk(c: ChunkData, p: seq<Instr>, flags: byte, argc: nat, s: State, operands: seq<byte>)
    requires AllValid(p) && StateOk(p, s)
    ensures Calling(c, flags, argc, s, operands).Next? ==> StateOk(p, Calling(c, flags, argc, s, operands).s)
  {
    hide Boundary, IsPlainFunction;
    if Calling(c, flags, argc, s, operands).Next? {
      var callee := |s.stack| - argc - 1;
      assert ValueOk(p, s.stack[callee]);
    }
  }

  lemma ThrowingOk(p: seq<Instr>, s: State, v: Value)
    requires AllValid(p) && StateOk(p, s) && ValueOk(p, v)
    ensures Throwing(s, v).Next? ==> StateOk(p, Throwing(s, v).s)
  {
    hide Boundary;
  }

  lemma ReturningOk(p: seq<Instr>, s: State)
    requires AllValid(p) && StateOk(p, s)
    ensures Returning(s).Next? ==> StateOk(p, Returning(s).s)
  {
    hide Boundary;
    if s.frames != [] {
      DropTriesOk(p, s.tries, |s.frames| - 1);
    }
  }

  lemma ExecuteOk(c: ChunkData, p: seq<Instr>, i: Instr, s: State)
    requires AllValid(p) && Valid(i) && StateOk(p, s) && Closed(p, c.constants) && TargetsOk(p, i)
    ensures Execute(c, i, s).Next? ==> StateOk(p, Execute(c, i, s).s)
  {
    hide Boundary, Calling, Throwing, Returning, Operands;
    match i
    case Plain(op) =>
      if op == 0 { ReturningOk(p, s); }
      else if op == 35 { ThrowingOk(p, s.(stack := Popped(s.stack)), Top(s.stack)); }
    case CallInstr(flags, wide) =>
      CallingOk(c, p, flags, if wide.Some? then wide.value as int else flags % 64, s, Operands(i));
    case ClosureInstr(k, _) => if k as int < |c.constants| { assert ValueOk(p, c.constants[k]); }
    case _ =>
  }

  lemma StepOk(c: ChunkData, p: seq<Instr>, s: State)
    requires AssembledFrom(c.code, p) && Closed(p, c.constants) && StateOk(p, s)
    ensures Step(c, s).Next? ==> StateOk(p, Step(c, s).s)
  {
    hide Fetch, Encode, Execute, TargetsOk;
    var k :| 0 <= k <= |p| && OffsetOf(p, k) == s.ip;
    if k == |p| {
      assert p[..k] == p;
      assert Fetch(c.code, s.ip).None? by { PastEnd(c.code, s.ip); }
    } else {
      FetchAtBoundary([], p, [], k);
      assert [] + Assemble(p) + [] == Assemble(p);
      var s' := s.(ip := s.ip + |Encode(p[k])|);
      assert OffsetOf(p, k + 1) == s'.ip;
      assert StateOk(p, s');
      ExecuteOk(c, p, p[k], s');
    }
  }

  lemma PastEnd(code: seq<byte>, ip: nat)
    requires ip >= |code|
    ensures Fetch(code, ip) == None
  {
  }

  /** Any number of steps of the merged chunk, started above the seam, is the dependency's run, moved by the seam. */
  lemma {:induction false} RunMoves(base: ChunkData, dep: ChunkData, m: ChunkData, checked: bool, p: seq<Instr>, s: State, n: nat)
    requires Linked(base, dep, m, checked, p) && Closed(p, dep.constants) && StateOk(p, s)
    ensures Run(m, MoveState(s, |base.code|), n) == MoveOutcome(Run(dep, s, n), |base.code|)
    decreases n
  {
    hide Step, Linked, Closed;
    if n > 0 {
      assert AssembledFrom(dep.code, p) by { LinkedCode(base, dep, m, checked, p); }
      StepMoves(base, dep, m, checked, p, s);
      StepOk(dep, p, s);
      if Step(dep, s).Next? {
        RunMoves(base, dep, m, checked, p, Step(dep, s).s, n - 1);
      }
    }
  }

  lemma LinkedCode(base: ChunkData, dep: ChunkData, m: ChunkData, checked: bool, p: seq<Instr>)
    requires Linked(base, dep, m, checked, p)
    ensures AssembledFrom(dep.code, p)
  {
  }

  // ----- runs through the instructions handed out -----

  /** At most n steps, where the environment answers each External with the state to go on from: what was handed
      out, and how the run ends. */
  function RunThrough(c: ChunkData, s: State, n: nat, answers: seq<State>): (seq<Outcome>, Outcome)
    decreases n
  {
    if n == 0 then ([], Next(s)) else
    match Step(c, s)
    case Next(s') => RunThrough(c, s', n - 1, answers)
    case External(_, _, _, _) =>
      if answers == [] then ([], Step(c, s)) else
      var rest := RunThrough(c, answers[0], n - 1, answers[1..]);
      ([Step(c, s)] + rest.0, rest.1)
    case other => ([], other)
  }

  function MoveOutcomes(rs: seq<Outcome>, off: nat): (moved: seq<Outcome>)
    ensures |moved| == |rs| && forall k :: 0 <= k < |rs| ==> moved[k] == MoveOutcome(rs[k], off)
  {
    seq(|rs|, k requires 0 <= k < |rs| => MoveOutcome(rs[k], off))
  }

  function MoveStates(ss: seq<State>, off: nat): (moved: seq<State>)
    ensures |moved| == |ss| && forall k :: 0 <= k < |ss| ==> moved[k] == MoveState(ss[k], off)
  {
    seq(|ss|, k requires 0 <= k < |ss| => MoveState(ss[k], off))
  }

  lemma MoveRequests(r: Outcome, rs: seq<Outcome>, off: nat)
    ensures MoveOutcomes([r] + rs, off) == [MoveOutcome(r, off)] + MoveOutcomes(rs, off)
  {
    hide MoveOutcome;
  }

  /** Whatever the environment does to the dependency's states, provided it does the same to the moved ones, the
      merged run hands out the same instructions in the same states, moved, and ends alike. */
  lemma {:induction false} RunThroughMoves(base: ChunkData, dep: ChunkData, m: ChunkData, checked: bool, p: seq<Instr>,
                                           s: State, n: nat, answers: seq<State>)
    requires Linked(base, dep, m, checked, p) && Closed(p, dep.constants) && StateOk(p, s)
    requires forall k :: 0 <= k < |answers| ==> StateOk(p, answers[k])
    ensures var there, here := RunThrough(dep, s, n, answers), RunThrough(m, MoveState(s, |base.code|), n, MoveStates(answers, |base.code|));
            here.0 == MoveOutcomes(there.0, |base.code|) && here.1 == MoveOutcome(there.1, |base.code|)
    decreases n
  {
    hide Step, Linked, Closed, MoveState, StateOk;
    if n > 0 {
      assert AssembledFrom(dep.code, p) by { LinkedCode(base, dep, m, checked, p); }
      BoundaryOf(p, s);
      StepMoves(base, dep, m, checked, p, s);
      StepOk(dep, p, s);
      var off, r := |base.code|, Step(dep, s);
      if r.Next? {
        RunThroughMoves(base, dep, m, checked, p, r.s, n - 1, answers);
      } else if r.External? && answers != [] {
        RunThroughMoves(base, dep, m, checked, p, answers[0], n - 1, answers[1..]);
        assert MoveStates(answers, off)[1..] == MoveStates(answers[1..], off);
        MoveRequests(r, RunThrough(dep, answers[0], n - 1, answers[1..]).0, off);
      }
    }
  }

  lemma BoundaryOf(p: seq<Instr>, s: State)
    requires AllValid(p) && StateOk(p, s)
    ensures Boundary(p, s.ip)
  {
  }

  // ----- the base keeps running as before -----

  ghost predicate FunctionsBelow(vs: seq<Value>, limit: nat) {
    forall k :: 0 <= k < |vs| ==> vs[k].Function? ==> vs[k].ip < limit
  }

  ghost predicate CallsWithin(s: State, limit: nat) {
    FunctionsBelow(s.stack, limit)
  }

  lemma ExecuteCallsWithin(c: ChunkData, i: Instr, s: State, limit: nat)
    requires Valid(i) && CallsWithin(s, limit) && FunctionsBelow(c.constants, limit)
    ensures Execute(c, i, s).Next? ==> CallsWithin(Execute(c, i, s).s, limit)
  {
    hide Operands, Calling, Returning, Throwing;
    match i
    case Plain(op) =>
      if op == 0 { ReturningCallsWithin(s, limit); } else { ThrowingCallsWithin(s, limit); }
    case CallInstr(flags, wide) =>
      CallingCallsWithin(c, flags, if wide.Some? then wide.value as int else flags % 64, s, Operands(i), limit);
    case _ =>
  }

  lemma ReturningCallsWithin(s: State, limit: nat)
    requires CallsWithin(s, limit)
    ensures Returning(s).Next? ==> CallsWithin(Returning(s).s, limit)
  {
    hide DropTries;
  }

  lemma ThrowingCallsWithin(s: State, limit: nat)
    requires CallsWithin(s, limit)
    ensures var t := s.(stack := Popped(s.stack)); Throwing(t, Top(s.stack)).Next? ==> CallsWithin(Throwing(t, Top(s.stack)).s, limit)
  {
  }

  lemma CallingCallsWithin(c: ChunkData, flags: byte, argc: nat, s: State, operands: seq<byte>, limit: nat)
    requires CallsWithin(s, limit)
    ensures Calling(c, flags, argc, s, operands).Next? ==> CallsWithin(Calling(c, flags, argc, s, operands).s, limit)
  {
    hide IsPlainFunction;
  }

  lemma ExecuteKept(base: ChunkData, m: ChunkData, i: Instr, s: State)
    requires Valid(i) && CallsWithin(s, |base.code|)
    requires |base.constants| <= |m.constants|
    requires forall k :: 0 <= k < |base.constants| ==> m.constants[k] == base.constants[k]
    requires forall ip: nat :: ip < |base.code| ==> IsPlainFunction(m, ip) == IsPlainFunction(base, ip)
    requires Execute(base, i, s) != Crash
    ensures Execute(m, i, s) == Execute(base, i, s)
  {
    hide IsPlainFunction, Throwing, Returning, Operands;
  }

  lemma TablesKeptByMerge(base: ChunkData, dep: ChunkData, m: ChunkData, checked: bool)
    requires Merge(base, dep, checked) == Some(m)
    ensures |base.code| <= |m.code| && m.code[..|base.code|] == base.code
    ensures |base.constants| <= |m.constants|
    ensures forall k :: 0 <= k < |base.constants| ==> m.constants[k] == base.constants[k]
    ensures forall ip: nat :: ip < |base.code| ==> IsPlainFunction(m, ip) == IsPlainFunction(base, ip)
  {
    hide Merge;
    MergeKeepsBase(base, dep, checked);
    assert forall j :: 0 <= j < |base.constants| ==> m.constants[j] == m.constants[..|base.constants|][j];
  }

  /** Below the seam, a step that does not crash in the base is the same step in the merged chunk. */
  lemma StepKept(base: ChunkData, dep: ChunkData, m: ChunkData, checked: bool, p: seq<Instr>, s: State)
    requires Merge(base, dep, checked) == Some(m)
    requires AssembledFrom(base.code, p) && Boundary(p, s.ip) && CallsWithin(s, |base.code|)
    requires Step(base, s) != Crash
    ensures Step(m, s) == Step(base, s)
  {
    hide Fetch, Encode, Execute, Merge, IsPlainFunction;
    TablesKeptByMerge(base, dep, m, checked);
    var k :| 0 <= k <= |p| && OffsetOf(p, k) == s.ip;
    if k == |p| {
      assert p[..k] == p;
      PastEnd(base.code, s.ip);
    } else {
      FetchAtBoundary([], p, [], k);
      assert [] + Assemble(p) + [] == base.code;
      FetchAtBoundary([], p, m.code[|base.code|..], k);
      assert [] + Assemble(p) + m.code[|base.code|..] == m.code;
      ExecuteKept(base, m, p[k], s.(ip := s.ip + |Encode(p[k])|));
    }
  }

  /** So a run of the base that never crashes is the same run in the merged chunk, for any number of steps. */
  lemma {:induction false} RunKept(base: ChunkData, dep: ChunkData, m: ChunkData, checked: bool, p: seq<Instr>, s: State, n: nat)
    requires Merge(base, dep, checked) == Some(m)
    requires AssembledFrom(base.code, p) && Closed(p, base.constants) && StateOk(p, s)
    requires CallsWithin(s, |base.code|) && FunctionsBelow(base.constants, |base.code|)
    requires Run(base, s, n) != Crash
    ensures Run(m, s, n) == Run(base, s, n)
    decreases n
  {
    hide Merge, Closed, Execute, Fetch, FunctionsBelow, AssembledFrom;
    if n > 0 {
      StepKept(base, dep, m, checked, p, s);
      if Step(base, s).Next? {
        StepOk(base, p, s);
        ExecuteCallsWithin(base, Fetch(base.code, s.ip).value, s.(ip := s.ip + |Encode(Fetch(base.code, s.ip).value)|), |base.code|);
        RunKept(base, dep, m, checked, p, Step(base, s).s, n - 1);
      }
    }
  }

  // ----- where the linker does not keep the meaning -----

  /** The state after a try at s.ip with that catch target and binding. */
  function WithTry(s: State, t: nat, binding: Option<string>, f: byte): State {
    s.(ip := s.ip + 8, tries := s.tries + [TryFrame(t, |s.stack|, |s.frames|, binding, f % 2 == 1)])
  }

  function AtSeam(s: State, base: ChunkData): State {
    s.(ip := s.ip + |base.code|)
  }

  function MovedTarget(t: u32, base: ChunkData): nat {
    t as int + |base.code| % U32
  }

  /** What the wrapped binding index names: the last constant, for a pool of at most 2^16. */
  function LastName(constants: seq<Value>): Option<string> {
    var c := |constants| % U16;
    if c == 0 || c > |constants| || !constants[c - 1].Text? then None else Some(constants[c - 1].text)
  }

  lemma BindinglessShift(t: u32, f: byte, o: Offsets)
    requires o.constant % U16 != 0
    ensures o.checked ==> ShiftInstr(TryInstr(t, NO_BINDING, f), o) == None
    ensures ShiftInstr(TryInstr(t, NO_BINDING, f), o).Some? ==>
      t as int + o.ip % U32 < U32
      && ShiftInstr(TryInstr(t, NO_BINDING, f), o) == Some(TryInstr(t as int + o.ip % U32, o.constant % U16 - 1, f))
  {
    var c := o.constant % U16;
    Arith.DivModUnique(NO_BINDING as int + c, 1, U16, c - 1);
  }

  lemma TryStep(c: ChunkData, s: State, t: u32, b: u16, f: byte)
    requires Fetch(c.code, s.ip) == Some(TryInstr(t, b, f)) && (b == NO_BINDING || b as int < |c.constants|)
    ensures Step(c, s) == Next(WithTry(s, t, Binding(c.constants, b), f))
  {
    hide Fetch;
  }

  /** A try without a catch binding, merged onto a constant pool whose size is not a multiple of 2^16, panics with
      overflow checks... */
  lemma BindinglessTryPanics(base: ChunkData, dep: ChunkData, p: seq<Instr>, k: nat, t: u32, f: byte)
    requires AssembledFrom(dep.code, p) && k < |p| && p[k] == TryInstr(t, NO_BINDING, f)
    requires |base.constants| % U16 != 0
    ensures Merge(base, dep, true) == None
  {
    hide ShiftInstr;
    RelocateAssembled(p, SeamOf(base, true));
    BindinglessShift(t, f, SeamOf(base, true));
  }

  /** ...and without them it is fetched and executed, at its shifted place, as a try that stores what it catches in
      the global that the base's last constant names. */
  lemma BindinglessTryIsCaptured(base: ChunkData, dep: ChunkData, m: ChunkData, p: seq<Instr>, k: nat, t: u32, f: byte, s: State)
    requires Merge(base, dep, false) == Some(m)
    requires AssembledFrom(dep.code, p) && k < |p| && p[k] == TryInstr(t, NO_BINDING, f) && s.ip == OffsetOf(p, k)
    requires |base.constants| % U16 != 0
    ensures Step(dep, s) == Next(WithTry(s, t, None, f))
    ensures Step(m, AtSeam(s, base)) == Next(WithTry(AtSeam(s, base), MovedTarget(t, base), LastName(base.constants), f))
  {
    hide Fetch, Merge, ShiftInstr, AssembledFrom, OffsetOf, Execute;
    var o := SeamOf(base, false);
    FetchMoves(base, dep, m, false, p, k);
    BindinglessShift(t, f, o);
    TablesKeptByMerge(base, dep, m, false);
    TryStep(dep, s, t, NO_BINDING, f);
    TryStep(m, AtSeam(s, base), MovedTarget(t, base), |base.constants| % U16 - 1, f);
  }

  /** Code holding ClearGeneratorReturn (111), DisposeResources (115) or DisposeResourcesAsync (116) cannot be merged. */
  lemma UnwalkableOpcodePanics(base: ChunkData, dep: ChunkData, checked: bool, p: seq<Instr>, k: nat)
    requires AssembledFrom(dep.code, p) && k < |p|
    requires OpcodeOf(p[k]) in {111, 115, 116}
    ensures Merge(base, dep, checked) == None
  {
    hide LinkerShape, MachineShape, Relocate, Encode;
    TablesAgree(OpcodeOf(p[k]));
    RelocateAssembled(p, SeamOf(base, checked));
  }
}
