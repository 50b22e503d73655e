/**
 The instruction format of the bytecode: which operands follow an opcode, how an
 instruction is laid out as bytes, and how the machine reads it back.
 */
module Bytecode {
  import opened Prelude

  /** The operand layout that follows an opcode byte. */
  datatype Shape =
    | NoOperand
    | OneByte
    | CallOperands      // flags, then a u16 argument count when the low six bits are all set
    | ConstIndex        // u16
    | JumpTarget        // u32
    | TryOperands       // u32 catch target, u16 binding index, u8 flags
    | ClosureOperands   // u16 constant index, u8 capture count, two bytes per capture
    | NotAnOpcode

  /** The layout with which the machine reads each opcode. */
  function MachineShape(op: byte): Shape {
    if op == 15 then CallOperands
    else if op in {10, 11, 26} then JumpTarget
    else if op == 36 then TryOperands
    else if op == 71 then ClosureOperands
    else if op in {1, 7, 8, 9, 29, 30, 40, 45, 52, 53, 54, 55, 73, 78, 101, 104, 112, 113, 114} then ConstIndex
    else if op in {16, 17, 27, 28, 46, 50, 66, 69, 70, 96, 108, 109, 110, 115, 116} then OneByte
    else if op <= 117 then NoOperand
    else NotAnOpcode
  }

  /** The layout with which the linker walks each opcode, in its own table; None is its panic arm. */
  function LinkerShape(op: byte): Option<Shape> {
    if op == 0 || 2 <= op <= 6 || 12 <= op <= 14 || 18 <= op <= 25 || 31 <= op <= 35 || 37 <= op <= 39 || 41 <= op <= 44
       || 47 <= op <= 49 || op == 51 || 56 <= op <= 65 || 67 <= op <= 68 || op == 72 || 74 <= op <= 77 || 79 <= op <= 95
       || 97 <= op <= 100 || 102 <= op <= 103 || 105 <= op <= 107 || op == 117 then Some(NoOperand)
    else if op in {16, 17, 27, 28, 46, 50, 66, 69, 70, 96, 108, 109, 110} then Some(OneByte)
    else if op == 15 then Some(CallOperands)
    else if op in {1, 7, 8, 9, 29, 30, 40, 45, 52, 53, 54, 55, 73, 78, 101, 104, 112, 113, 114} then Some(ConstIndex)
    else if op == 10 || op == 11 || op == 26 then Some(JumpTarget)
    else if op == 36 then Some(TryOperands)
    else if op == 71 then Some(ClosureOperands)
    else None
  }

  /** The two tables agree on every opcode but the three that the linker does not know, and on what is no opcode. */
  lemma TablesAgree(op: byte)
    ensures LinkerShape(op) == if op in {111, 115, 116} || op > 117 then None else Some(MachineShape(op))
    ensures MachineShape(op) == NotAnOpcode <==> op > 117
  {
  }

  // ----- little-endian operands -----

  function Bytes16(v: u16): (s: seq<byte>)
    ensures |s| == 2
  {
    [v % 0x100, v / 0x100]
  }

  function Bytes32(v: u32): (s: seq<byte>)
    ensures |s| == 4
  {
    [v % 0x100, v / 0x100 % 0x100, v / 0x1_0000 % 0x100, v / 0x100_0000]
  }

  function Read16(code: seq<byte>, pos: nat): u16
    requires pos + 2 <= |code|
  {
    code[pos] as int + 0x100 * code[pos + 1] as int
  }

  function Read32(code: seq<byte>, pos: nat): u32
    requires pos + 4 <= |code|
  {
    code[pos] as int + 0x100 * code[pos + 1] as int + 0x1_0000 * code[pos + 2] as int + 0x100_0000 * code[pos + 3] as int
  }

  lemma Read16Bytes16(code: seq<byte>, pos: nat, v: u16)
    requires pos + 2 <= |code| && code[pos..pos + 2] == Bytes16(v)
    ensures Read16(code, pos) == v
  {
    assert code[pos] == code[pos..pos + 2][0];
    assert code[pos + 1] == code[pos..pos + 2][1];
  }

  lemma Bytes16Read16(code: seq<byte>, pos: nat)
    requires pos + 2 <= |code|
    ensures Bytes16(Read16(code, pos)) == code[pos..pos + 2]
  {
  }

  lemma Read32Bytes32(code: seq<byte>, pos: nat, v: u32)
    requires pos + 4 <= |code| && code[pos..pos + 4] == Bytes32(v)
    ensures Read32(code, pos) == v
  {
    var s := code[pos..pos + 4];
    assert code[pos] == s[0] && code[pos + 1] == s[1] && code[pos + 2] == s[2] && code[pos + 3] == s[3];
    BytesSum(v);
  }

  lemma BytesSum(v: u32)
    ensures v as int == v % 0x100 + 0x100 * (v / 0x100 % 0x100) + 0x1_0000 * (v / 0x1_0000 % 0x100) + 0x100_0000 * (v / 0x100_0000)
  {
    assert v / 0x1_0000 == v / 0x100 / 0x100;
    assert v / 0x100_0000 == v / 0x1_0000 / 0x100;
  }

  lemma Bytes32Read32(code: seq<byte>, pos: nat)
    requires pos + 4 <= |code|
    ensures Bytes32(Read32(code, pos)) == code[pos..pos + 4]
  {
    var a: int, b: int, c: int, d: int := code[pos], code[pos + 1], code[pos + 2], code[pos + 3];
    var v := a + 0x100 * b + 0x1_0000 * c + 0x100_0000 * d;
    assert v / 0x100 == b + 0x100 * c + 0x1_0000 * d;
    assert v / 0x1_0000 == c + 0x100 * d;
    assert v / 0x100_0000 == d;
  }

  // ----- instructions -----

  datatype Instr =
    | Plain(op: byte)
    | Small(op: byte, operand: byte)
    | CallInstr(flags: byte, wide: Option<u16>)
    | ConstInstr(op: byte, index: u16)
    | JumpInstr(op: byte, target: u32)
    | TryInstr(catchTarget: u32, binding: u16, tryFlags: byte)
    | ClosureInstr(index: u16, captures: seq<byte>)

  predicate Valid(i: Instr) {
    match i
    case Plain(op) => MachineShape(op) == NoOperand
    case Small(op, _) => MachineShape(op) == OneByte
    case CallInstr(flags, wide) => wide.Some? <==> flags % 64 == 63
    case ConstInstr(op, _) => MachineShape(op) == ConstIndex
    case JumpInstr(op, _) => MachineShape(op) == JumpTarget
    case TryInstr(_, _, _) => true
    case ClosureInstr(_, captures) => |captures| % 2 == 0 && |captures| / 2 < 0x100
  }

  function OpcodeOf(i: Instr): byte {
    match i
    case Plain(op) => op
    case Small(op, _) => op
    case CallInstr(_, _) => 15
    case ConstInstr(op, _) => op
    case JumpInstr(op, _) => op
    case TryInstr(_, _, _) => 36
    case ClosureInstr(_, _) => 71
  }

  function Operands(i: Instr): seq<byte>
    requires Valid(i)
  {
    match i
    case Plain(_) => []
    case Small(_, operand) => [operand]
    case CallInstr(flags, None) => [flags]
    case CallInstr(flags, Some(count)) => [flags] + Bytes16(count)
    case ConstInstr(_, index) => Bytes16(index)
    case JumpInstr(_, target) => Bytes32(target)
    case TryInstr(catchTarget, binding, flags) => Bytes32(catchTarget) + Bytes16(binding) + [flags]
    case ClosureInstr(index, captures) => Bytes16(index) + [|captures| / 2] + captures
  }

  function Encode(i: Instr): (s: seq<byte>)
    requires Valid(i)
    ensures |s| > 0 && s[0] == OpcodeOf(i)
  {
    [OpcodeOf(i)] + Operands(i)
  }

  ghost predicate AllValid(p: seq<Instr>) {
    forall k :: 0 <= k < |p| ==> Valid(p[k])
  }

  /** The bytes of an instruction sequence. */
  function Assemble(p: seq<Instr>): seq<byte>
    requires AllValid(p)
  {
    if p == [] then [] else Encode(p[0]) + Assemble(p[1..])
  }

  /** The offset of instruction k. */
  function OffsetOf(p: seq<Instr>, k: nat): nat
    requires AllValid(p) && k <= |p|
  {
    |Assemble(p[..k])|
  }

  /** The machine's fetch at an instruction pointer: None when it would read past the code or not find an opcode. */
  function Fetch(code: seq<byte>, ip: nat): (r: Option<Instr>)
    ensures r.Some? ==> Valid(r.value)
  {
    if ip >= |code| then None else
    var op := code[ip];
    match MachineShape(op)
    case NoOperand => Some(Plain(op))
    case OneByte => if ip + 2 <= |code| then Some(Small(op, code[ip + 1])) else None
    case CallOperands =>
      if ip + 2 > |code| then None
      else if code[ip + 1] % 64 != 63 then Some(CallInstr(code[ip + 1], None))
      else if ip + 4 <= |code| then Some(CallInstr(code[ip + 1], Some(Read16(code, ip + 2))))
      else None
    case ConstIndex => if ip + 3 <= |code| then Some(ConstInstr(op, Read16(code, ip + 1))) else None
    case JumpTarget => if ip + 5 <= |code| then Some(JumpInstr(op, Read32(code, ip + 1))) else None
    case TryOperands =>
      if ip + 8 <= |code| then Some(TryInstr(Read32(code, ip + 1), Read16(code, ip + 5), code[ip + 7])) else None
    case ClosureOperands =>
      if ip + 4 <= |code| && ip + 4 + 2 * code[ip + 3] as int <= |code|
      then Some(ClosureInstr(Read16(code, ip + 1), code[ip + 4..ip + 4 + 2 * code[ip + 3] as int]))
      else None
    case NotAnOpcode => None
  }

  /** Fetch reads exactly the bytes of one instruction: it inverts Encode wherever the instruction stands. */
  lemma FetchEncode(pre: seq<byte>, i: Instr, post: seq<byte>)
    requires Valid(i)
    ensures Fetch(pre + Encode(i) + post, |pre|) == Some(i)
  {
    var code := pre + Encode(i) + post;
    var at := |pre|;
    var ops := Operands(i);
    assert code[at] == OpcodeOf(i);
    assert forall k :: 0 <= k < |ops| ==> code[at + 1 + k] == ops[k];
    match i
    case Plain(_) =>
    case Small(_, _) =>
    case CallInstr(_, None) =>
    case CallInstr(_, Some(count)) =>
      assert code[at + 2..at + 4] == Bytes16(count);
      Read16Bytes16(code, at + 2, count);
    case ConstInstr(_, index) =>
      assert code[at + 1..at + 3] == Bytes16(index);
      Read16Bytes16(code, at + 1, index);
    case JumpInstr(_, target) =>
      assert code[at + 1..at + 5] == Bytes32(target);
      Read32Bytes32(code, at + 1, target);
    case TryInstr(catchTarget, binding, flags) =>
      assert code[at + 1..at + 5] == Bytes32(catchTarget);
      Read32Bytes32(code, at + 1, catchTarget);
      assert code[at + 5..at + 7] == Bytes16(binding);
      Read16Bytes16(code, at + 5, binding);
    case ClosureInstr(index, captures) =>
      assert code[at + 1..at + 3] == Bytes16(index);
      Read16Bytes16(code, at + 1, index);
      assert code[at + 3] == |captures| / 2;
      assert code[at + 4..at + 4 + |captures|] == captures;
  }

  lemma SliceJoin(code: seq<byte>, a: nat, b: nat, c: nat)
    requires a <= b <= c <= |code|
    ensures code[a..c] == code[a..b] + code[b..c]
  {
  }

  lemma TryOperandsFetch(code: seq<byte>, ip: nat)
    requires ip + 8 <= |code|
    ensures code[ip + 1..ip + 8] == Bytes32(Read32(code, ip + 1)) + Bytes16(Read16(code, ip + 5)) + [code[ip + 7]]
  {
    Bytes32Read32(code, ip + 1);
    Bytes16Read16(code, ip + 5);
    SliceJoin(code, ip + 1, ip + 5, ip + 7);
    SliceJoin(code, ip + 1, ip + 7, ip + 8);
  }

  lemma ClosureOperandsFetch(code: seq<byte>, ip: nat, end: nat)
    requires ip + 4 <= end <= |code|
    ensures code[ip + 1..end] == Bytes16(Read16(code, ip + 1)) + [code[ip + 3]] + code[ip + 4..end]
  {
    Bytes16Read16(code, ip + 1);
    SliceJoin(code, ip + 1, ip + 3, ip + 4);
    SliceJoin(code, ip + 1, ip + 4, end);
  }

  lemma CallOperandsFetch(code: seq<byte>, ip: nat)
    requires ip + 4 <= |code|
    ensures code[ip + 1..ip + 4] == [code[ip + 1]] + Bytes16(Read16(code, ip + 2))
  {
    Bytes16Read16(code, ip + 2);
    SliceJoin(code, ip + 1, ip + 2, ip + 4);
  }

  ghost predicate OperandsStandAt(code: seq<byte>, ip: nat, i: Instr)
    requires Valid(i)
  {
    var o := Operands(i);
    ip + 1 + |o| <= |code| && code[ip + 1..ip + 1 + |o|] == o
  }

  lemma ShortOperandsFetch(code: seq<byte>, ip: nat)
    requires Fetch(code, ip).Some? && MachineShape(code[ip]) in {NoOperand, OneByte, ConstIndex, JumpTarget}
    ensures OperandsStandAt(code, ip, Fetch(code, ip).value)
  {
    match MachineShape(code[ip])
    case NoOperand =>
    case OneByte =>
    case ConstIndex => Bytes16Read16(code, ip + 1);
    case JumpTarget => Bytes32Read32(code, ip + 1);
  }

  /** The operand bytes of a fetched instruction are what stands after its opcode. */
  lemma OperandsFetch(code: seq<byte>, ip: nat)
    requires Fetch(code, ip).Some?
    ensures OperandsStandAt(code, ip, Fetch(code, ip).value)
  {
    hide Bytes16, Bytes32, Read16, Read32;
    match MachineShape(code[ip])
    case CallOperands => if code[ip + 1] % 64 == 63 { CallOperandsFetch(code, ip); }
    case TryOperands => TryOperandsFetch(code, ip);
    case ClosureOperands => ClosureOperandsFetch(code, ip, ip + 4 + 2 * code[ip + 3] as int);
    case _ => ShortOperandsFetch(code, ip);
  }

  /** A fetched instruction's encoding is what stands in the code. */
  lemma EncodeFetch(code: seq<byte>, ip: nat)
    requires Fetch(code, ip).Some?
    ensures var e := Encode(Fetch(code, ip).value); ip + |e| <= |code| && code[ip..ip + |e|] == e
  {
    OperandsFetch(code, ip);
    var e := Encode(Fetch(code, ip).value);
    SliceJoin(code, ip, ip + 1, ip + |e|);
  }

  lemma Associate(a: seq<byte>, b: seq<byte>, c: seq<byte>)
    ensures a + (b + c) == a + b + c
  {
  }

  lemma ConsConcat<T>(p: seq<T>, q: seq<T>)
    requires p != []
    ensures (p + q)[0] == p[0] && (p + q)[1..] == p[1..] + q && p + q != []
  {
  }

  lemma {:induction false} AssembleConcat(p: seq<Instr>, q: seq<Instr>)
    requires AllValid(p) && AllValid(q)
    ensures AllValid(p + q)
    ensures Assemble(p + q) == Assemble(p) + Assemble(q)
  {
    if p == [] {
      assert p + q == q;
    } else {
      ConsConcat(p, q);
      AssembleConcat(p[1..], q);
      Associate(Encode(p[0]), Assemble(p[1..]), Assemble(q));
    }
  }

  lemma SplitAt<T>(p: seq<T>, k: nat)
    requires k < |p|
    ensures p == p[..k] + p[k..] && p[..k + 1] == p[..k] + [p[k]]
    ensures p[k..] != [] && p[k..][0] == p[k] && p[k..][1..] == p[k + 1..]
  {
  }

  lemma AssembleOne(i: Instr)
    requires Valid(i)
    ensures Assemble([i]) == Encode(i)
  {
    hide Encode;
    assert Encode(i) + [] == Encode(i);
  }

  lemma AssembleSplit(p: seq<Instr>, k: nat)
    requires AllValid(p) && k < |p|
    ensures Assemble(p) == Assemble(p[..k]) + Encode(p[k]) + Assemble(p[k + 1..])
    ensures OffsetOf(p, k + 1) == OffsetOf(p, k) + |Encode(p[k])|
  {
    hide Encode;
    SplitAt(p, k);
    AssembleConcat(p[..k], p[k..]);
    Associate(Assemble(p[..k]), Encode(p[k]), Assemble(p[k + 1..]));
    AssembleOne(p[k]);
    AssembleConcat(p[..k], [p[k]]);
  }

  /** At every instruction boundary of assembled code, in any surroundings, the machine fetches that instruction. */
  lemma FetchAtBoundary(pre: seq<byte>, p: seq<Instr>, post: seq<byte>, k: nat)
    requires AllValid(p) && k < |p|
    ensures Fetch(pre + Assemble(p) + post, |pre| + OffsetOf(p, k)) == Some(p[k])
    ensures OffsetOf(p, k + 1) == OffsetOf(p, k) + |Encode(p[k])|
  {
    hide Encode, Fetch;
    AssembleSplit(p, k);
    FetchInside(pre, Assemble(p[..k]), p[k], Assemble(p[k + 1..]), post);
  }

  lemma FetchInside(pre: seq<byte>, left: seq<byte>, i: Instr, right: seq<byte>, post: seq<byte>)
    requires Valid(i)
    ensures Fetch(pre + (left + Encode(i) + right) + post, |pre| + |left|) == Some(i)
  {
    hide Encode, Fetch;
    FetchEncode(pre + left, i, right + post);
    Reassociate(pre, left, Encode(i), right, post);
  }

  lemma Reassociate(a: seq<byte>, b: seq<byte>, c: seq<byte>, d: seq<byte>, e: seq<byte>)
    ensures a + (b + c + d) + e == a + b + c + (d + e)
  {
  }
}
