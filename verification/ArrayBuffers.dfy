/** Array buffers that can be resized or detached, and user code that may do either while an argument is coerced. */
module ArrayBuffers {
  import opened Prelude
  import opened BigIntOps

  datatype Error = TypeError | RangeError | UserError

  datatype Result<+T> = Ok(value: T) | Throw(error: Error)

  datatype BufferState = BufferState(
    bytes: seq<byte>,
    byteLength: nat,
    detached: bool,
    resizable: bool,
    maxByteLength: nat,
    immutable: bool)

  ghost predicate Consistent(b: BufferState) {
    b.byteLength == |b.bytes| && (b.detached ==> b.byteLength == 0)
  }

  /** What user code can do to the buffer. */
  datatype Action = Resize(newLength: nat) | Detach | Poke(index: nat, value: byte)

  function Resized(bytes: seq<byte>, n: nat): (r: seq<byte>)
    ensures |r| == n
  {
    if n <= |bytes| then bytes[..n] else bytes + seq(n - |bytes|, _ => 0)
  }

  function Act(b: BufferState, a: Action): BufferState {
    match a
    case Resize(n) =>
      if !b.resizable || b.detached || b.immutable || n > b.maxByteLength then b
      else b.(byteLength := n, bytes := Resized(b.bytes, n))
    case Detach => b.(bytes := [], byteLength := 0, detached := true)
    case Poke(i, v) => if i < |b.bytes| then b.(bytes := b.bytes[i := v]) else b
  }

  function ActAll(b: BufferState, actions: seq<Action>): BufferState
    decreases |actions|
  {
    if actions == [] then b else ActAll(Act(b, actions[0]), actions[1..])
  }

  /** Coercing an argument: the user code it runs, then its value or what it throws. */
  datatype Coercion<+T> = Coercion(actions: seq<Action>, outcome: Result<T>)

  // ----- numbers -----

  datatype Number = NaN | Infinite(negative: bool) | Finite(value: real)

  function TruncReal(v: real): int {
    if v >= 0.0 then v.Floor else -((-v).Floor)
  }

  const MAX_INDEX: int := 0x1f_ffff_ffff_ffff   // 2^53 - 1

  /** ToIndex on a coerced number. */
  function ToIndex(n: Number): Result<nat> {
    match n
    case NaN => Ok(0)
    case Infinite(_) => Throw(RangeError)
    case Finite(v) => if TruncReal(v) < 0 || TruncReal(v) > MAX_INDEX then Throw(RangeError) else Ok(TruncReal(v))
  }

  function IndexOf(c: Coercion<Number>): Result<nat> {
    match c.outcome
    case Throw(e) => Throw(e)
    case Ok(n) => ToIndex(n)
  }

  class ArrayBuffer {
    var bytes: seq<byte>
    var byteLength: nat
    var detached: bool
    const resizable: bool
    const maxByteLength: nat
    const immutable: bool

    ghost function State(): BufferState
      reads this
    {
      BufferState(bytes, byteLength, detached, resizable, maxByteLength, immutable)
    }

    constructor (length: nat, resizable: bool, maxByteLength: nat, immutable: bool)
      ensures State() == BufferState(seq(length, _ => 0), length, false, resizable, maxByteLength, immutable)
      ensures Consistent(State())
    {
      bytes, byteLength, detached := seq(length, _ => 0), length, false;
      this.resizable, this.maxByteLength, this.immutable := resizable, maxByteLength, immutable;
    }

    method ResizeTo(n: nat)
      modifies this
      ensures State() == Act(old(State()), Resize(n))
    {
      if !resizable || detached || immutable || n > maxByteLength { return; }
      byteLength := n;
      bytes := Resized(bytes, n);
    }

    method DetachNow()
      modifies this
      ensures State() == Act(old(State()), Detach)
    {
      bytes := [];
      byteLength := 0;
      detached := true;
    }

    method RunUserCode(actions: seq<Action>)
      modifies this
      ensures State() == ActAll(old(State()), actions)
    {
      for k := 0 to |actions|
        invariant ActAll(State(), actions[k..]) == ActAll(old(State()), actions)
      {
        match actions[k] {
          case Resize(n) => ResizeTo(n);
          case Detach => DetachNow();
          case Poke(i, v) => if i < |bytes| { bytes := bytes[i := v]; }
        }
        assert actions[k..][1..] == actions[k + 1..];
      }
    }
  }

  lemma {:induction false} DetachedForGood(b: BufferState, actions: seq<Action>)
    requires b.detached
    ensures ActAll(b, actions).detached
    decreases |actions|
  {
    if actions != [] { DetachedForGood(Act(b, actions[0]), actions[1..]); }
  }

  lemma {:induction false} ActAllKeeps(b: BufferState, actions: seq<Action>)
    requires Consistent(b)
    ensures Consistent(ActAll(b, actions))
    ensures ActAll(b, actions).resizable == b.resizable
    ensures !b.resizable ==> ActAll(b, actions).detached || |ActAll(b, actions).bytes| == |b.bytes|
    decreases |actions|
  {
    if actions != [] {
      var after := Act(b, actions[0]);
      ActAllKeeps(after, actions[1..]);
      if after.detached { DetachedForGood(after, actions[1..]); }
    }
  }

  lemma {:induction false} ActAllConcat(b: BufferState, xs: seq<Action>, ys: seq<Action>)
    ensures ActAll(b, xs + ys) == ActAll(ActAll(b, xs), ys)
    decreases |xs|
  {
    if xs == [] {
      assert xs + ys == ys;
    } else {
      assert (xs + ys)[1..] == xs[1..] + ys;
      ActAllConcat(Act(b, xs[0]), xs[1..], ys);
    }
  }
}
