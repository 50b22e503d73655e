/** Structured control on the machine: what a call leaves its caller, where a throw lands, and how branches choose. */
module ControlFlow {
  import opened Prelude
  import opened Bytecode
  import opened Linker
  import opened Machine

  // ----- try frames nest in the call frames -----

  /** Later try frames were set up in frames at least as deep, and none in a frame deeper than there is. */
  ghost predicate TriesNested(s: State) {
    && (forall j, k :: 0 <= j < k < |s.tries| ==> s.tries[j].frameDepth <= s.tries[k].frameDepth)
    && (forall k :: 0 <= k < |s.tries| ==> s.tries[k].frameDepth <= |s.frames|)
  }

  lemma {:induction false} DropNested(tries: seq<TryFrame>, depth: nat)
    requires forall j, k :: 0 <= j < k < |tries| ==> tries[j].frameDepth <= tries[k].frameDepth
    ensures var left := DropTries(tries, depth);
      left <= tries && forall k :: 0 <= k < |left| ==> left[k].frameDepth <= depth
  {
    if tries != [] && tries[|tries| - 1].frameDepth > depth { DropNested(tries[..|tries| - 1], depth); }
  }

  lemma ExecuteKeepsNesting(c: ChunkData, i: Instr, s: State)
    requires Valid(i) && TriesNested(s)
    ensures Execute(c, i, s).Next? ==> TriesNested(Execute(c, i, s).s)
  {
    hide IsPlainFunction, Operands, Arguments, Truthy;
    match i
    case Plain(op) => if op == 0 && s.frames != [] { DropNested(s.tries, |s.frames| - 1); }
    case _ =>
  }

  /** Every step keeps the try frames nested. */
  lemma StepKeepsNesting(c: ChunkData, s: State)
    requires TriesNested(s)
    ensures Step(c, s).Next? ==> TriesNested(Step(c, s).s)
  {
    hide TriesNested, Execute, Fetch, Encode;
    var i := Fetch(c.code, s.ip);
    if i.Some? {
      NestingIgnoresIp(s, s.ip + |Encode(i.value)|);
      ExecuteKeepsNesting(c, i.value, s.(ip := s.ip + |Encode(i.value)|));
    }
  }

  lemma NestingIgnoresIp(s: State, ip: nat)
    requires TriesNested(s)
    ensures TriesNested(s.(ip := ip))
  {
  }

  // ----- what runs leave alone -----

  /** How much of the stack, the frames and the try frames belongs to whoever waits below. */
  datatype Floor = Floor(stack: nat, frames: nat, tries: nat)

  predicate Deep(s: State, f: Floor) {
    f.stack <= |s.stack| && f.frames <= |s.frames| && f.tries <= |s.tries|
  }

  predicate SameBottom(s: State, t: State, f: Floor) {
    && Deep(s, f) && Deep(t, f)
    && s.stack[..f.stack] == t.stack[..f.stack] && s.frames[..f.frames] == t.frames[..f.frames]
    && s.tries[..f.tries] == t.tries[..f.tries]
  }

  /** The frames and try frames above the floor do not reach below it. */
  ghost predicate Owned(s: State, f: Floor) {
    && (forall k :: f.frames <= k < |s.frames| ==> s.frames[k].bp > f.stack)
    && (forall k :: f.tries <= k < |s.tries| ==> s.tries[k].frameDepth >= f.frames)
  }

  /** How many values an instruction takes off the stack, or moves on it. */
  function Taken(i: Instr): nat {
    match i
    case Plain(op) => if op == 0 || op == 6 || op == 35 then 1 else if op == 48 then 2 else 0
    case CallInstr(flags, wide) => 1 + if wide.Some? then wide.value as int else flags % 64
    case JumpInstr(op, _) => if op == 10 then 0 else 1
    case _ => 0
  }

  predicate TakesAbove(c: ChunkData, s: State, f: Floor) {
    match Fetch(c.code, s.ip)
    case None => true
    case Some(i) => |s.stack| >= f.stack + Taken(i)
  }

  /** One move of a run: a step that takes nothing from below the floor, or whatever the environment makes of an
      instruction handed out to it, if that leaves the bottom as it was. */
  ghost predicate Moves(c: ChunkData, s: State, t: State, f: Floor) {
    || (Step(c, s) == Next(t) && TakesAbove(c, s, f))
    || (Step(c, s).External? && SameBottom(s, t, f) && Owned(t, f))
  }

  /** The states of a run that never goes below the floor. */
  ghost predicate Undisturbed(c: ChunkData, path: seq<State>, f: Floor) {
    && path != []
    && (forall k :: 0 <= k < |path| ==> Deep(path[k], f))
    && (forall k :: 0 <= k < |path| - 1 ==> Moves(c, path[k], path[k + 1], f))
  }

  lemma ReturnKeepsBottom(s: State, t: State, f: Floor)
    requires Deep(s, f) && Owned(s, f) && |s.stack| > f.stack
    requires Returning(s) == Next(t) && Deep(t, f)
    ensures SameBottom(s, t, f) && Owned(t, f)
  {
    DropIsPrefix(s.tries, |s.frames| - 1);
  }

  lemma {:induction false} DropIsPrefix(tries: seq<TryFrame>, depth: nat)
    ensures DropTries(tries, depth) <= tries
  {
    if tries != [] && tries[|tries| - 1].frameDepth > depth { DropIsPrefix(tries[..|tries| - 1], depth); }
  }

  lemma ThrowKeepsBottom(s: State, v: Value, t: State, f: Floor)
    requires Deep(s, f) && Owned(s, f)
    requires Throwing(s, v) == Next(t) && Deep(t, f)
    ensures SameBottom(s, t, f) && Owned(t, f)
  {
  }

  lemma CallKeepsBottom(c: ChunkData, flags: byte, argc: nat, s: State, operands: seq<byte>, t: State, f: Floor)
    requires Deep(s, f) && Owned(s, f) && |s.stack| >= f.stack + argc + 1
    requires Calling(c, flags, argc, s, operands) == Next(t)
    ensures SameBottom(s, t, f) && Owned(t, f)
  {
    hide IsPlainFunction, Arguments;
  }

  lemma PlainKeepsBottom(c: ChunkData, op: byte, s: State, t: State, f: Floor)
    requires Valid(Plain(op)) && Deep(s, f) && Owned(s, f) && |s.stack| >= f.stack + Taken(Plain(op))
    requires Execute(c, Plain(op), s) == Next(t) && Deep(t, f)
    ensures SameBottom(s, t, f) && Owned(t, f)
  {
    hide Returning, Throwing;
    if op == 0 {
      ReturnKeepsBottom(s, t, f);
    } else if op == 35 {
      ThrowKeepsBottom(s.(stack := Popped(s.stack)), Top(s.stack), t, f);
    }
  }

  lemma ExecuteKeepsBottom(c: ChunkData, i: Instr, s: State, t: State, f: Floor)
    requires Valid(i) && Deep(s, f) && Owned(s, f) && |s.stack| >= f.stack + Taken(i)
    requires Execute(c, i, s) == Next(t) && Deep(t, f)
    ensures SameBottom(s, t, f) && Owned(t, f)
  {
    hide Calling, Operands, Truthy;
    match i
    case Plain(op) => PlainKeepsBottom(c, op, s, t, f);
    case CallInstr(flags, wide) =>
      CallKeepsBottom(c, flags, if wide.Some? then wide.value as int else flags % 64, s, Operands(i), t, f);
    case _ =>
  }

  lemma MoveKeepsBottom(c: ChunkData, s: State, t: State, f: Floor)
    requires Deep(s, f) && Deep(t, f) && Owned(s, f) && Moves(c, s, t, f)
    ensures SameBottom(s, t, f) && Owned(t, f)
  {
    hide Execute, Fetch, Encode, Taken;
    var i := Fetch(c.code, s.ip);
    if Step(c, s) == Next(t) && TakesAbove(c, s, f) {
      ExecuteKeepsBottom(c, i.value, s.(ip := s.ip + |Encode(i.value)|), t, f);
    }
  }

  /** A run that never goes below the floor leaves everything below it as it was. */
  lemma {:induction false} BottomKept(c: ChunkData, path: seq<State>, f: Floor)
    requires Undisturbed(c, path, f) && Owned(path[0], f)
    ensures SameBottom(path[0], path[|path| - 1], f) && Owned(path[|path| - 1], f)
    decreases |path|
  {
    hide Moves, Owned;
    if |path| > 1 {
      var rest := path[1..];
      assert forall k :: 0 <= k < |rest| ==> rest[k] == path[k + 1];
      MoveKeepsBottom(c, path[0], path[1], f);
      BottomKept(c, rest, f);
      assert rest[|rest| - 1] == path[|path| - 1];
    }
  }

  // ----- calls -----

  function ArgumentCount(i: Instr): nat
    requires i.CallInstr?
  {
    if i.wide.Some? then i.wide.value as int else i.flags % 64
  }

  /** The state stands at an instruction. */
  predicate At(c: ChunkData, s: State, i: Instr) {
    Fetch(c.code, s.ip) == Some(i)
  }

  /** The machine itself enters only functions that it can call by pushing a frame. */
  predicate Enters(c: ChunkData, i: Instr, callee: Value) {
    i.CallInstr? && i.flags < 0x40 && callee.Function? && IsPlainFunction(c, callee.ip)
  }

  /** The slots above a callee: each parameter's argument if there is one, else undefined. */
  predicate Passed(slots: seq<Value>, arguments: seq<Value>, arity: byte) {
    |slots| == arity as int && forall j :: 0 <= j < |slots| ==> slots[j] == if j < |arguments| then arguments[j] else UNDEFINED
  }

  lemma ArgumentsPassed(arguments: seq<Value>, arity: byte)
    ensures Passed(Arguments(arguments, arity), arguments, arity)
  {
  }

  /** A plain call stands at the function's first instruction over a new frame, with its arguments passed above the
      callee; unless more arguments than parameters are given, and the low eight bits of their number are below the arity. */
  lemma CallEnters(c: ChunkData, s: State, i: Instr)
    requires Valid(i) && At(c, s, i) && i.CallInstr?
    requires |s.stack| > ArgumentCount(i) && Enters(c, i, s.stack[|s.stack| - ArgumentCount(i) - 1])
    ensures var at, argc := |s.stack| - ArgumentCount(i) - 1, ArgumentCount(i);
      var callee, e := s.stack[at], Step(c, s);
      && (argc > callee.arity as int > argc % 0x100 ==> e == Crash)
      && (!(argc > callee.arity as int > argc % 0x100) ==>
            && e.Next? && e.s.ip == callee.ip && e.s.tries == s.tries && e.s.globals == s.globals
            && e.s.frames == s.frames + [Frame(s.ip + |Encode(i)|, at + 1, callee.ip)]
            && at + 1 <= |e.s.stack| && e.s.stack[..at + 1] == s.stack[..at + 1]
            && Passed(e.s.stack[at + 1..], s.stack[at + 1..], callee.arity))
  {
    hide IsPlainFunction, Encode, Fetch, Operands, Arguments, Passed;
    var at := |s.stack| - ArgumentCount(i) - 1;
    ArgumentsPassed(s.stack[at + 1..], s.stack[at].arity);
    var slots := Arguments(s.stack[at + 1..], s.stack[at].arity);
    assert (s.stack[..at + 1] + slots)[..at + 1] == s.stack[..at + 1];
    assert (s.stack[..at + 1] + slots)[at + 1..] == slots;
  }

  /** The floor of a called function: the callee's slot and what is below, the caller's frames and the new one, and the
      caller's try frames. */
  function CallFloor(s: State, i: Instr): Floor
    requires i.CallInstr? && |s.stack| > ArgumentCount(i)
  {
    Floor(|s.stack| - ArgumentCount(i), |s.frames| + 1, |s.tries|)
  }

  lemma CallStep(c: ChunkData, s: State, i: Instr)
    requires Valid(i) && At(c, s, i) && i.CallInstr? && Step(c, s).Next?
    ensures |s.stack| > ArgumentCount(i)
    ensures var e, callee := Step(c, s).s, |s.stack| - ArgumentCount(i) - 1;
      && callee + 1 <= |e.stack| && e.stack[..callee + 1] == s.stack[..callee + 1]
      && |e.frames| == |s.frames| + 1 && e.frames[..|s.frames|] == s.frames && e.tries == s.tries
      && e.frames[|s.frames|].returnIp == s.ip + |Encode(i)| && e.frames[|s.frames|].bp == callee + 1
  {
    hide IsPlainFunction, Encode, Fetch, Operands, Arguments;
  }

  lemma {:induction false} DropAbove(tries: seq<TryFrame>, kept: nat, depth: nat)
    requires kept <= |tries|
    requires forall k :: kept <= k < |tries| ==> tries[k].frameDepth > depth
    requires kept > 0 ==> tries[kept - 1].frameDepth <= depth
    ensures DropTries(tries, depth) == tries[..kept]
    decreases |tries|
  {
    if |tries| > kept {
      DropAbove(tries[..|tries| - 1], kept, depth);
      assert tries[..|tries| - 1][..kept] == tries[..kept];
    } else {
      assert tries[..kept] == tries;
    }
  }

  /** Whatever a called function does, as long as it never goes below its floor, its return takes the machine back behind
      the call: callee and arguments replaced by the result, frames and try frames as they were before the call. */
  lemma CallReturns(c: ChunkData, s: State, i: Instr, path: seq<State>)
    requires TriesNested(s)
    requires Valid(i) && At(c, s, i) && i.CallInstr? && path != [] && Step(c, s) == Next(path[0])
    requires |s.stack| > ArgumentCount(i) && Undisturbed(c, path, CallFloor(s, i))
    requires At(c, path[|path| - 1], Plain(0)) && |path[|path| - 1].frames| == |s.frames| + 1
    ensures var last := path[|path| - 1];
      Step(c, last) == Next(State(
        s.ip + |Encode(i)|,
        s.stack[..|s.stack| - ArgumentCount(i) - 1] + [Top(last.stack)],
        s.tries,
        s.frames,
        last.globals))
  {
    hide Moves, Encode, Fetch, Undisturbed, Step, DropTries, Returning;
    var f, first, last := CallFloor(s, i), path[0], path[|path| - 1];
    CallStep(c, s, i);
    assert Owned(first, f);
    BottomKept(c, path, f);
    SamePrefix(last.stack, first.stack, f.stack, f.stack - 1);
    SamePrefix(s.stack, first.stack, f.stack, f.stack - 1);
    SamePrefix(last.frames, first.frames, f.frames, f.frames - 1);
    assert last.tries[..|s.tries|] == s.tries;
    NestedBelow(s, last.tries);
    DropAbove(last.tries, |s.tries|, |s.frames|);
    ReturnsTo(last, last.frames[|s.frames|]);
    ReturnStep(c, last);
  }

  lemma SamePrefix<T>(xs: seq<T>, ys: seq<T>, n: nat, k: nat)
    requires n <= |xs| && n <= |ys| && xs[..n] == ys[..n] && k < n
    ensures xs[..k] == ys[..k] && xs[k] == ys[k]
  {
    assert xs[..k] == xs[..n][..k] && xs[k] == xs[..n][k];
    assert ys[..k] == ys[..n][..k] && ys[k] == ys[..n][k];
  }

  lemma NestedBelow(s: State, tries: seq<TryFrame>)
    requires TriesNested(s) && |s.tries| <= |tries| && tries[..|s.tries|] == s.tries
    ensures |s.tries| > 0 ==> tries[|s.tries| - 1].frameDepth <= |s.frames|
  {
    if |s.tries| > 0 { assert tries[|s.tries| - 1] == s.tries[|s.tries| - 1]; }
  }

  lemma ReturnsTo(s: State, top: Frame)
    requires s.frames != [] && s.frames[|s.frames| - 1] == top && 0 < top.bp <= |s.stack|
    ensures Returning(s) == Next(State(
      top.returnIp, s.stack[..top.bp - 1] + [Top(s.stack)], DropTries(s.tries, |s.frames| - 1), s.frames[..|s.frames| - 1], s.globals))
  {
    assert Truncated(Popped(s.stack), top.bp - 1) == s.stack[..top.bp - 1];
  }

  lemma ReturnStep(c: ChunkData, s: State)
    requires At(c, s, Plain(0))
    ensures Step(c, s) == Returning(s)
  {
    hide Fetch, DropTries, Truncated;
  }

  // ----- tries -----

  function TryFloor(s: State): Floor {
    Floor(|s.stack|, |s.frames|, |s.tries| + 1)
  }

  /** What a catch binds: the thrown value to the name in the constant that the try names, if it is a name. */
  predicate Catches(c: ChunkData, binding: u16, before: map<string, Value>, thrown: Value, after: map<string, Value>) {
    && (binding == 0xffff ==> after == before)
    && (binding != 0xffff ==>
          binding as int < |c.constants|
          && after == match c.constants[binding]
                      case Text(name) => before[name := thrown]
                      case _ => before)
  }

  lemma TryStep(c: ChunkData, s: State, t: u32, b: u16, flags: byte)
    requires At(c, s, TryInstr(t, b, flags)) && Step(c, s).Next?
    ensures b != NO_BINDING ==> b as int < |c.constants|
    ensures var e := Step(c, s).s;
      e == s.(ip := e.ip, tries := s.tries + [TryFrame(t, |s.stack|, |s.frames|, Binding(c.constants, b), flags % 2 == 1)])
  {
    hide Fetch, Encode, Binding;
  }

  /** A throw inside a try block, however deep in calls, lands at the catch target with the stack, the frames and the
      other try frames as they were at the start of the block, and binds the thrown value. */
  lemma ThrowLands(c: ChunkData, s: State, t: u32, b: u16, flags: byte, path: seq<State>, thrown: Value)
    requires At(c, s, TryInstr(t, b, flags)) && path != [] && Step(c, s) == Next(path[0])
    requires Undisturbed(c, path, TryFloor(s)) && |path[|path| - 1].tries| == |s.tries| + 1
    ensures var r := Throwing(path[|path| - 1], thrown);
      && r.Next? && r.s == State(t, s.stack, s.tries, s.frames, r.s.globals)
      && Catches(c, b, path[|path| - 1].globals, thrown, r.s.globals)
  {
    hide Moves, Fetch, Undisturbed;
    var f, last := TryFloor(s), path[|path| - 1];
    TryStep(c, s, t, b, flags);
    BottomKept(c, path, f);
    assert last.tries == last.tries[..f.tries];
    assert path[0].tries == path[0].tries[..f.tries];
    assert last.tries[..|s.tries|] == s.tries;
    assert s.stack[..|s.stack|] == s.stack && s.frames[..|s.frames|] == s.frames;
    TruncatedToPrefix(last.stack, s.stack);
    TruncatedToPrefix(last.frames, s.frames);
  }

  lemma TruncatedToPrefix<T>(whole: seq<T>, prefix: seq<T>)
    requires |prefix| <= |whole| && whole[..|prefix|] == prefix
    ensures Truncated(whole, |prefix|) == prefix
  {
  }

  /** The end of a try block takes down that block's try frame, and a throw instruction throws the top of the stack. */
  lemma BlockEnds(c: ChunkData, s: State, t: u32, b: u16, flags: byte, path: seq<State>)
    requires At(c, s, TryInstr(t, b, flags)) && path != [] && Step(c, s) == Next(path[0])
    requires Undisturbed(c, path, TryFloor(s)) && |path[|path| - 1].tries| == |s.tries| + 1
    ensures var last := path[|path| - 1];
      && (At(c, last, Plain(37)) ==> Step(c, last) == Next(last.(ip := last.ip + 1, tries := s.tries)))
      && (At(c, last, Plain(35)) && last.stack != [] ==>
            Step(c, last) == Throwing(last.(ip := last.ip + 1, stack := last.stack[..|last.stack| - 1]), last.stack[|last.stack| - 1]))
  {
    hide Moves, Fetch, Undisturbed, Throwing;
    var f, last := TryFloor(s), path[|path| - 1];
    TryStep(c, s, t, b, flags);
    BottomKept(c, path, f);
    assert last.tries == last.tries[..f.tries];
    assert path[0].tries == path[0].tries[..f.tries];
    assert last.tries[..|s.tries|] == s.tries;
  }

  /** With no try frame left a throw ends the run. */
  lemma NothingCatches(s: State, thrown: Value)
    requires s.tries == []
    ensures Throwing(s, thrown) == Uncaught(thrown)
  {
  }

  // ----- branches and the stack -----

  /** The values that a condition takes for true. */
  predicate IsTrue(v: Value) {
    !(v == Text("") || (v.Opaque? && !v.truthy))
  }

  /** Jump goes to its target, JumpIfTrue (26) exactly on a true value and JumpIfFalse (11) exactly on a false one, and
      both take the value off the stack. */
  lemma BranchesChoose(c: ChunkData, s: State, op: byte, t: u32)
    requires At(c, s, JumpInstr(op, t)) && s.stack != []
    ensures op in {10, 11, 26}
    ensures var taken := op == 10 || (op == 26 && IsTrue(s.stack[|s.stack| - 1])) || (op == 11 && !IsTrue(s.stack[|s.stack| - 1]));
      Step(c, s) == Next(s.(
        ip := if taken then t else s.ip + 5,
        stack := if op == 10 then s.stack else s.stack[..|s.stack| - 1]))
  {
  }

  /** Duplicating and popping, swapping twice, and pushing a constant and popping change nothing but the position. */
  lemma StackLaws(c: ChunkData, s: State, k: u16)
    requires s.stack != []
    ensures var twice := Execute(c, Plain(42), s);
      twice.Next? && Top(twice.s.stack) == Top(s.stack) && Execute(c, Plain(6), twice.s) == Next(s)
    ensures var swapped := Execute(c, Plain(48), s);
      && swapped.Next? && Execute(c, Plain(48), swapped.s) == Next(s)
      && (|s.stack| > 1 ==> Top(swapped.s.stack) == s.stack[|s.stack| - 2])
    ensures k as int < |c.constants| ==>
      var pushed := Execute(c, ConstInstr(1, k), s);
      pushed.Next? && Top(pushed.s.stack) == c.constants[k] && Execute(c, Plain(6), pushed.s) == Next(s)
  {
  }

  /** Exactly the instructions that do none of this are handed out, as they stand: with their opcode and their operand
      bytes, or the constant that these name, and nothing else changed than the position. */
  lemma HandedOutIff(c: ChunkData, s: State, i: Instr)
    requires Valid(i) && At(c, s, i)
    ensures Step(c, s).External? <==>
      || i.Small? || (i.Plain? && i.op !in {0, 6, 35, 37, 42, 48}) || (i.ConstInstr? && i.op != 1 && i.index as int < |c.constants|)
      || (i.CallInstr? && |s.stack| > ArgumentCount(i) && !Enters(c, i, s.stack[|s.stack| - ArgumentCount(i) - 1]))
    ensures Step(c, s).External? ==>
      var r := Step(c, s);
      && r.op == OpcodeOf(i) && r.after == s.(ip := s.ip + |Encode(i)|)
      && (if i.ConstInstr? then i.index as int < |c.constants| && r.constant == Some(c.constants[i.index]) && r.operands == []
          else r.constant == None && r.operands == Operands(i))
  {
    hide IsPlainFunction, Fetch, Encode, Arguments, Truthy, Binding, DropTries, Truncated;
  }

  /** A function is called by pushing a frame unless its code is in one of three tables. */
  lemma PlainFunctions(c: ChunkData, ip: nat)
    ensures IsPlainFunction(c, ip) <==> forall t :: t in {ClassConstructor, AsyncFn, GeneratorFn} ==> Key(t, ip) !in c.ipSets
  {
  }
}
