/**
 The linker's in-place walk over bytecode. `checked` is the build's overflow-checks
 setting: with it a u16 overflow panics, without it the sum wraps. A panic is None.
 */
module Relocation {
  import opened Prelude
  import opened Bytecode

  datatype Offsets = Offsets(ip: nat, constant: nat, checked: bool)

  // ----- the walk on bytes -----

  function Adjust16(code: seq<byte>, pos: nat, off: nat, checked: bool): (r: Option<seq<byte>>)
    ensures r.Some? ==> |r.value| == |code|
  {
    if off == 0 || pos + 1 >= |code| then Some(code) else
    var sum := Read16(code, pos) as int + off % U16;
    if checked && sum >= U16 then None
    else Some(code[pos := sum % 0x100][pos + 1 := sum / 0x100 % 0x100])
  }

  function Adjust32(code: seq<byte>, pos: nat, off: nat): (r: Option<seq<byte>>)
    ensures r.Some? ==> |r.value| == |code|
  {
    if off == 0 || pos + 3 >= |code| then Some(code) else
    var sum := Read32(code, pos) as int + off % U32;
    if sum >= U32 then None
    else Some(code[pos := sum % 0x100][pos + 1 := sum / 0x100 % 0x100]
                  [pos + 2 := sum / 0x1_0000 % 0x100][pos + 3 := sum / 0x100_0000 % 0x100])
  }

  /** What remains of the walk when it stands at i, on the code as rewritten so far. */
  function Walk(code: seq<byte>, i: nat, o: Offsets): (r: Option<seq<byte>>)
    ensures r.Some? ==> |r.value| == |code|
    decreases |code| - i
  {
    if i >= |code| then Some(code) else
    match LinkerShape(code[i])
    case None => None
    case Some(NoOperand) => Walk(code, i + 1, o)
    case Some(OneByte) => Walk(code, i + 2, o)
    case Some(CallOperands) =>
      if i + 1 >= |code| then None
      else if code[i + 1] % 64 == 63 then Walk(code, i + 4, o)
      else Walk(code, i + 2, o)
    case Some(ConstIndex) =>
      (match Adjust16(code, i + 1, o.constant, o.checked)
       case None => None
       case Some(c) => Walk(c, i + 3, o))
    case Some(JumpTarget) =>
      (match Adjust32(code, i + 1, o.ip)
       case None => None
       case Some(c) => Walk(c, i + 5, o))
    case Some(TryOperands) =>
      (match Adjust32(code, i + 1, o.ip)
       case None => None
       case Some(c) =>
         (match Adjust16(c, i + 5, o.constant, o.checked)
          case None => None
          case Some(d) => Walk(d, i + 8, o)))
    case Some(ClosureOperands) =>
      (match Adjust16(code, i + 1, o.constant, o.checked)
       case None => None
       case Some(c) => if i + 3 >= |c| then None else Walk(c, i + 4 + 2 * c[i + 3] as int, o))
    case Some(NotAnOpcode) => None
  }

  /** The linker's relocation of a whole code buffer. */
  function Relocate(code: seq<byte>, o: Offsets): (r: Option<seq<byte>>)
    ensures r.Some? ==> |r.value| == |code|
  {
    Walk(code, 0, o)
  }

  method AdjustU16At(code: array<byte>, pos: nat, off: nat, checked: bool) returns (ok: bool)
    modifies code
    ensures ok <==> Adjust16(old(code[..]), pos, off, checked).Some?
    ensures ok ==> code[..] == Adjust16(old(code[..]), pos, off, checked).value
  {
    ok := true;
    if off == 0 || pos + 1 >= code.Length { return; }
    var lo: int, hi: int := code[pos], code[pos + 1];
    var sum := hi * 0x100 + lo + off % U16;
    if checked && sum >= U16 { return false; }
    code[pos] := sum % 0x100;
    code[pos + 1] := sum / 0x100 % 0x100;
  }

  method AdjustU32At(code: array<byte>, pos: nat, off: nat) returns (ok: bool)
    modifies code
    ensures ok <==> Adjust32(old(code[..]), pos, off).Some?
    ensures ok ==> code[..] == Adjust32(old(code[..]), pos, off).value
  {
    ok := true;
    if off == 0 || pos + 3 >= code.Length { return; }
    var b0: int, b1: int, b2: int, b3: int := code[pos], code[pos + 1], code[pos + 2], code[pos + 3];
    var sum := b3 * 0x100_0000 + b2 * 0x1_0000 + b1 * 0x100 + b0 + off % U32;
    if sum >= U32 { return false; }
    code[pos] := sum % 0x100;
    code[pos + 1] := sum / 0x100 % 0x100;
    code[pos + 2] := sum / 0x1_0000 % 0x100;
    code[pos + 3] := sum / 0x100_0000 % 0x100;
  }

  /** The while loop of the linker, rewriting the buffer in place; false is a panic. */
  method AdjustBytecodeOffsets(code: array<byte>, o: Offsets) returns (ok: bool)
    modifies code
    ensures ok <==> Relocate(old(code[..]), o).Some?
    ensures ok ==> code[..] == Relocate(old(code[..]), o).value
  {
    var i := 0;
    ghost var target := Relocate(code[..], o);
    while i < code.Length
      invariant 0 <= i
      invariant Walk(code[..], i, o) == target
      decreases code.Length - i
    {
      var opcode := code[i];
      match LinkerShape(opcode) {
        case None => return false;
        case Some(NoOperand) => i := i + 1;
        case Some(OneByte) => i := i + 2;
        case Some(CallOperands) =>
          if i + 1 >= code.Length { return false; }
          i := if code[i + 1] % 64 == 63 then i + 4 else i + 2;
        case Some(ConstIndex) =>
          ok := AdjustU16At(code, i + 1, o.constant, o.checked);
          if !ok { return; }
          i := i + 3;
        case Some(JumpTarget) =>
          ok := AdjustU32At(code, i + 1, o.ip);
          if !ok { return; }
          i := i + 5;
        case Some(TryOperands) =>
          ok := AdjustU32At(code, i + 1, o.ip);
          if !ok { return; }
          ok := AdjustU16At(code, i + 5, o.constant, o.checked);
          if !ok { return; }
          i := i + 8;
        case Some(ClosureOperands) =>
          ok := AdjustU16At(code, i + 1, o.constant, o.checked);
          if !ok { return; }
          if i + 3 >= code.Length { return false; }
          i := i + 4 + 2 * code[i + 3] as int;
        case Some(NotAnOpcode) => return false;
      }
    }
    ok := true;
  }

  // ----- relocation of instructions -----

  function Shift16(v: u16, off: nat, checked: bool): Option<u16> {
    var sum := v as int + off % U16;
    if off == 0 then Some(v) else if checked && sum >= U16 then None else Some(sum % U16)
  }

  function Shift32(v: u32, off: nat): Option<u32> {
    var sum := v as int + off % U32;
    if off == 0 then Some(v) else if sum >= U32 then None else Some(sum)
  }

  function ShiftInstr(i: Instr, o: Offsets): (r: Option<Instr>)
    requires Valid(i)
    ensures r.Some? ==> Valid(r.value) && OpcodeOf(r.value) == OpcodeOf(i)
  {
    if LinkerShape(OpcodeOf(i)) == None then None else
    match i
    case Plain(_) => Some(i)
    case Small(_, _) => Some(i)
    case CallInstr(_, _) => Some(i)
    case ConstInstr(op, k) =>
      (match Shift16(k, o.constant, o.checked)
       case None => None
       case Some(k') => Some(ConstInstr(op, k')))
    case JumpInstr(op, t) =>
      (match Shift32(t, o.ip)
       case None => None
       case Some(t') => Some(JumpInstr(op, t')))
    case TryInstr(t, b, f) =>
      (match Shift32(t, o.ip)
       case None => None
       case Some(t') =>
         (match Shift16(b, o.constant, o.checked)
          case None => None
          case Some(b') => Some(TryInstr(t', b', f))))
    case ClosureInstr(k, c) =>
      (match Shift16(k, o.constant, o.checked)
       case None => None
       case Some(k') => Some(ClosureInstr(k', c)))
  }

  function ShiftAll(p: seq<Instr>, o: Offsets): (r: Option<seq<Instr>>)
    requires AllValid(p)
    ensures r.Some? ==> |r.value| == |p| && AllValid(r.value)
    ensures r.Some? ==> forall k :: 0 <= k < |p| ==> ShiftInstr(p[k], o) == Some(r.value[k])
    ensures r.None? ==> exists k :: 0 <= k < |p| && ShiftInstr(p[k], o) == None
  {
    if p == [] then Some([]) else
    match ShiftInstr(p[0], o)
    case None => None
    case Some(j) =>
      (match ShiftAll(p[1..], o)
       case None => None
       case Some(q) => Some([j] + q))
  }

  lemma ShiftKeepsLength(i: Instr, o: Offsets)
    requires Valid(i) && ShiftInstr(i, o).Some?
    ensures |Encode(ShiftInstr(i, o).value)| == |Encode(i)|
  {
  }

  // ----- the walk relocates instructions -----

  lemma Patch16(pre: seq<byte>, v: u16, w: u16, post: seq<byte>)
    ensures (pre + Bytes16(v) + post)[|pre| := w % 0x100][|pre| + 1 := w / 0x100] == pre + Bytes16(w) + post
  {
  }

  lemma Patch32(pre: seq<byte>, v: u32, w: u32, post: seq<byte>)
    ensures (pre + Bytes32(v) + post)[|pre| := Bytes32(w)[0]][|pre| + 1 := Bytes32(w)[1]]
              [|pre| + 2 := Bytes32(w)[2]][|pre| + 3 := Bytes32(w)[3]]
         == pre + Bytes32(w) + post
  {
  }

  lemma Adjust16Splice(pre: seq<byte>, v: u16, post: seq<byte>, off: nat, checked: bool)
    ensures Adjust16(pre + Bytes16(v) + post, |pre|, off, checked)
         == match Shift16(v, off, checked) case None => None case Some(w) => Some(pre + Bytes16(w) + post)
  {
    var code := pre + Bytes16(v) + post;
    assert code[|pre|..|pre| + 2] == Bytes16(v);
    Read16Bytes16(code, |pre|, v);
    if off != 0 && Shift16(v, off, checked).Some? {
      var sum := v as int + off % U16;
      var w := Shift16(v, off, checked).value;
      assert w % 0x100 == sum % 0x100 && w / 0x100 == sum / 0x100 % 0x100;
      Patch16(pre, v, w, post);
    }
  }

  lemma Adjust32Splice(pre: seq<byte>, v: u32, post: seq<byte>, off: nat)
    ensures Adjust32(pre + Bytes32(v) + post, |pre|, off)
         == match Shift32(v, off) case None => None case Some(w) => Some(pre + Bytes32(w) + post)
  {
    var code := pre + Bytes32(v) + post;
    assert code[|pre|..|pre| + 4] == Bytes32(v);
    Read32Bytes32(code, |pre|, v);
    if off != 0 && Shift32(v, off).Some? {
      var w := Shift32(v, off).value;
      assert w / 0x100_0000 == w / 0x100_0000 % 0x100;
      Patch32(pre, v, w, post);
    }
  }

  /** One iteration of the walk at an instruction boundary shifts that instruction, or panics when it cannot. */
  ghost predicate WalksAs(pre: seq<byte>, i: Instr, post: seq<byte>, o: Offsets)
    requires Valid(i)
  {
    Walk(pre + Encode(i) + post, |pre|, o)
    == match ShiftInstr(i, o)
       case None => None
       case Some(j) => Walk(pre + Encode(j) + post, |pre| + |Encode(i)|, o)
  }

  lemma OperandShapes()
    ensures MachineShape(15) == CallOperands && MachineShape(36) == TryOperands && MachineShape(71) == ClosureOperands
  {
  }

  lemma WalkStep(pre: seq<byte>, i: Instr, post: seq<byte>, o: Offsets)
    requires Valid(i)
    ensures WalksAs(pre, i, post, o)
  {
    hide LinkerShape, MachineShape;
    TablesAgree(OpcodeOf(i));
    OperandShapes();
    var at := |pre|;
    var code := pre + Encode(i) + post;
    assert code[at] == OpcodeOf(i);
    if LinkerShape(OpcodeOf(i)) == None { return; }
    match i
    case Plain(op) =>
    case Small(op, operand) =>
    case CallInstr(flags, wide) => assert code[at + 1] == flags;
    case ConstInstr(op, k) => WalkConst(pre, op, k, post, o);
    case JumpInstr(op, t) => WalkJump(pre, op, t, post, o);
    case TryInstr(t, b, f) => WalkTry(pre, t, b, f, post, o);
    case ClosureInstr(k, c) => WalkClosure(pre, k, c, post, o);
  }

  lemma WalkConst(pre: seq<byte>, op: byte, k: u16, post: seq<byte>, o: Offsets)
    requires Valid(ConstInstr(op, k))
    ensures WalksAs(pre, ConstInstr(op, k), post, o)
  {
    hide LinkerShape, MachineShape, Adjust16, Shift16, Bytes16;
    TablesAgree(op);
    Adjust16Splice(pre + [op], k, post, o.constant, o.checked);
    assert forall v: u16 :: pre + [op] + Bytes16(v) + post == pre + ([op] + Bytes16(v)) + post;
  }

  lemma WalkJump(pre: seq<byte>, op: byte, t: u32, post: seq<byte>, o: Offsets)
    requires Valid(JumpInstr(op, t))
    ensures WalksAs(pre, JumpInstr(op, t), post, o)
  {
    hide LinkerShape, MachineShape, Adjust32, Shift32, Bytes32;
    TablesAgree(op);
    Adjust32Splice(pre + [op], t, post, o.ip);
    assert forall v: u32 :: pre + [op] + Bytes32(v) + post == pre + ([op] + Bytes32(v)) + post;
  }

  lemma WalkTry(pre: seq<byte>, t: u32, b: u16, f: byte, post: seq<byte>, o: Offsets)
    ensures WalksAs(pre, TryInstr(t, b, f), post, o)
  {
    hide Walk, Adjust16, Adjust32, Encode, Bytes16, Bytes32, Shift16, Shift32;
    WalkAtTry(pre + Encode(TryInstr(t, b, f)) + post, |pre|, o);
    TrySplice(pre, t, b, f, post);
    Adjust32Splice(pre + [36], t, Bytes16(b) + [f] + post, o.ip);
    if Shift32(t, o.ip).Some? {
      var t' := Shift32(t, o.ip).value;
      TrySplice(pre, t', b, f, post);
      Adjust16Splice(pre + [36] + Bytes32(t'), b, [f] + post, o.constant, o.checked);
      if Shift16(b, o.constant, o.checked).Some? {
        TrySplice(pre, t', Shift16(b, o.constant, o.checked).value, f, post);
      }
    }
  }

  lemma WalkAtTry(code: seq<byte>, at: nat, o: Offsets)
    requires at < |code| && code[at] == 36
    ensures Walk(code, at, o)
         == match Adjust32(code, at + 1, o.ip)
            case None => None
            case Some(c) =>
              (match Adjust16(c, at + 5, o.constant, o.checked)
               case None => None
               case Some(d) => Walk(d, at + 8, o))
  {
    hide Adjust16, Adjust32;
  }

  lemma TrySplice(pre: seq<byte>, t: u32, b: u16, f: byte, post: seq<byte>)
    ensures pre + Encode(TryInstr(t, b, f)) + post == pre + [36] + Bytes32(t) + (Bytes16(b) + [f] + post)
    ensures pre + Encode(TryInstr(t, b, f)) + post == pre + [36] + Bytes32(t) + Bytes16(b) + ([f] + post)
    ensures |Encode(TryInstr(t, b, f))| == 8
  {
  }

  lemma WalkClosure(pre: seq<byte>, k: u16, c: seq<byte>, post: seq<byte>, o: Offsets)
    requires Valid(ClosureInstr(k, c))
    ensures WalksAs(pre, ClosureInstr(k, c), post, o)
  {
    hide Adjust16, Walk, Encode;
    ClosureSplice(pre, k, c, post);
    Adjust16Splice(pre + [71], k, [|c| / 2] + c + post, o.constant, o.checked);
    WalkAtClosure(pre + Encode(ClosureInstr(k, c)) + post, |pre|, o);
    if Shift16(k, o.constant, o.checked).Some? {
      ClosureSplice(pre, Shift16(k, o.constant, o.checked).value, c, post);
    }
  }

  lemma WalkAtClosure(code: seq<byte>, at: nat, o: Offsets)
    requires at + 3 < |code| && code[at] == 71
    ensures Walk(code, at, o)
         == match Adjust16(code, at + 1, o.constant, o.checked)
            case None => None
            case Some(c) => Walk(c, at + 4 + 2 * code[at + 3] as int, o)
  {
  }

  lemma ClosureSplice(pre: seq<byte>, k: u16, c: seq<byte>, post: seq<byte>)
    requires Valid(ClosureInstr(k, c))
    ensures var code := pre + Encode(ClosureInstr(k, c)) + post;
            code == pre + [71] + Bytes16(k) + ([|c| / 2] + c + post) && code[|pre|] == 71 && code[|pre| + 3] == |c| / 2
            && |Encode(ClosureInstr(k, c))| == 4 + |c|
  {
  }

  lemma WalkAssembledStep(pre: seq<byte>, i: Instr, a: seq<byte>, post: seq<byte>, o: Offsets)
    requires Valid(i)
    ensures Walk(pre + (Encode(i) + a) + post, |pre|, o)
         == match ShiftInstr(i, o)
            case None => None
            case Some(j) => Walk((pre + Encode(j)) + a + post, |pre + Encode(j)|, o)
    ensures ShiftInstr(i, o).Some? ==> |Encode(ShiftInstr(i, o).value)| == |Encode(i)|
  {
    hide Encode, ShiftInstr, Walk;
    WalkStep(pre, i, a + post, o);
    Regroup(pre, Encode(i), a, post);
    if ShiftInstr(i, o).Some? {
      ShiftKeepsLength(i, o);
      Regroup(pre, Encode(ShiftInstr(i, o).value), a, post);
    }
  }

  lemma Regroup(pre: seq<byte>, e: seq<byte>, a: seq<byte>, post: seq<byte>)
    ensures pre + (e + a) + post == pre + e + (a + post)
    ensures pre + e + a + post == pre + e + (a + post)
  {
  }

  /** The walk over the rest of the code, entered at an instruction boundary. */
  lemma {:induction false} WalkAssembled(pre: seq<byte>, p: seq<Instr>, post: seq<byte>, o: Offsets)
    requires AllValid(p)
    ensures Walk(pre + Assemble(p) + post, |pre|, o)
         == match ShiftAll(p, o)
            case None => None
            case Some(q) => Walk(pre + Assemble(q) + post, |pre| + |Assemble(p)|, o)
    ensures ShiftAll(p, o).Some? ==> |Assemble(ShiftAll(p, o).value)| == |Assemble(p)|
    decreases |p|
  {
    hide Encode, ShiftInstr, Walk;
    if p != [] {
      var i, rest := p[0], p[1..];
      WalkAssembledStep(pre, i, Assemble(rest), post, o);
      if ShiftInstr(i, o).Some? {
        var j := ShiftInstr(i, o).value;
        WalkAssembled(pre + Encode(j), rest, post, o);
        if ShiftAll(rest, o).Some? {
          var q := ShiftAll(rest, o).value;
          assert ([j] + q)[1..] == q;
          Regroup(pre, Encode(j), Assemble(q), post);
        }
      }
    }
  }

  /** Relocating assembled code is relocating each instruction, and panics exactly when one of them cannot be shifted. */
  lemma RelocateAssembled(p: seq<Instr>, o: Offsets)
    requires AllValid(p)
    ensures Relocate(Assemble(p), o)
         == match ShiftAll(p, o) case None => None case Some(q) => Some(Assemble(q))
    ensures ShiftAll(p, o).Some? ==> |Assemble(ShiftAll(p, o).value)| == |Assemble(p)|
  {
    hide ShiftAll, Assemble, Encode;
    WalkAssembled([], p, [], o);
    assert [] + Assemble(p) + [] == Assemble(p);
    if ShiftAll(p, o).Some? {
      var q := ShiftAll(p, o).value;
      assert [] + Assemble(q) + [] == Assemble(q);
    }
  }
}
