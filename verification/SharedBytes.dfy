/** The bytes of a shared buffer: bounds-checked reads, writes and compare-exchanges under the byte lock. */
module SharedBytes {
  import opened Prelude

  const USIZE: int := 0x1_0000_0000_0000_0000

  /** The range is addressable (no usize overflow) and lies inside the buffer. */
  predicate InRange(bytes: seq<byte>, base: nat, len: nat) {
    base + len < USIZE && base + len <= |bytes|
  }

  function Overwritten(bytes: seq<byte>, base: nat, data: seq<byte>): (r: seq<byte>)
    requires base + |data| <= |bytes|
    ensures |r| == |bytes|
  {
    bytes[..base] + data + bytes[base + |data|..]
  }

  datatype Exchange = Exchange(base: nat, expected: seq<byte>, replacement: seq<byte>)

  /** What a compare-exchange returns, and the bytes it leaves. */
  function Exchanged(bytes: seq<byte>, x: Exchange): (r: (Option<seq<byte>>, seq<byte>))
    ensures |r.1| == |bytes|
  {
    if |x.expected| != |x.replacement| || !InRange(bytes, x.base, |x.expected|) then (None, bytes) else
    var current := bytes[x.base..x.base + |x.expected|];
    (Some(current), if current == x.expected then Overwritten(bytes, x.base, x.replacement) else bytes)
  }

  class SharedBuffer {
    const bytes: array<byte>

    constructor (initial: seq<byte>)
      ensures fresh(bytes) && bytes[..] == initial
    {
      bytes := new byte[|initial|](i requires 0 <= i < |initial| => initial[i]);
    }

    method Read(base: nat, len: nat) returns (r: Option<seq<byte>>)
      ensures r.Some? <==> InRange(bytes[..], base, len)
      ensures r.Some? ==> r.value == bytes[base..base + len]
    {
      if base + len >= USIZE { return None; }
      if base + len > bytes.Length { return None; }
      r := Some(bytes[base..base + len]);
    }

    method Write(base: nat, data: seq<byte>) returns (ok: bool)
      modifies bytes
      ensures ok <==> InRange(old(bytes[..]), base, |data|)
      ensures bytes[..] == if ok then Overwritten(old(bytes[..]), base, data) else old(bytes[..])
    {
      if base + |data| >= USIZE { return false; }
      if base + |data| > bytes.Length { return false; }
      CopyIn(base, data);
      ok := true;
    }

    method CopyIn(base: nat, data: seq<byte>)
      requires base + |data| <= bytes.Length
      modifies bytes
      ensures bytes[..] == Overwritten(old(bytes[..]), base, data)
    {
      for i := 0 to |data|
        invariant forall k :: 0 <= k < bytes.Length ==>
          bytes[k] == if base <= k < base + i then data[k - base] else old(bytes[k])
      {
        bytes[base + i] := data[i];
      }
    }

    method CompareExchange(x: Exchange) returns (r: Option<seq<byte>>)
      modifies bytes
      ensures (r, bytes[..]) == Exchanged(old(bytes[..]), x)
    {
      if |x.expected| != |x.replacement| { return None; }
      var end := x.base + |x.expected|;
      if end >= USIZE { return None; }
      if end > bytes.Length { return None; }
      var current := bytes[x.base..end];
      if current == x.expected { CopyIn(x.base, x.replacement); }
      r := Some(current);
    }
  }

  /** Overwriting reads back, and leaves every byte outside the range alone. */
  lemma OverwrittenReads(bytes: seq<byte>, base: nat, data: seq<byte>, k: nat)
    requires base + |data| <= |bytes| && k < |bytes|
    ensures Overwritten(bytes, base, data)[base..base + |data|] == data
    ensures !(base <= k < base + |data|) ==> Overwritten(bytes, base, data)[k] == bytes[k]
  {
  }

  // ----- compare-exchange picks one winner -----

  function Wins(bytes: seq<byte>, xs: seq<Exchange>): nat
    decreases |xs|
  {
    if xs == [] then 0 else
    var (r, after) := Exchanged(bytes, xs[0]);
    (if r == Some(xs[0].expected) then 1 else 0) + Wins(after, xs[1..])
  }

  predicate Competes(bytes: seq<byte>, x: Exchange, base: nat, expected: seq<byte>) {
    x.base == base && x.expected == expected && |x.replacement| == |expected| && x.replacement != expected
  }

  /** Of any number of calls racing to replace the same expected value with something else, in any order, exactly
      one succeeds when the value is there at the start, and none otherwise. */
  lemma {:induction false} OneWinner(bytes: seq<byte>, xs: seq<Exchange>, base: nat, expected: seq<byte>)
    requires InRange(bytes, base, |expected|)
    requires forall k :: 0 <= k < |xs| ==> Competes(bytes, xs[k], base, expected)
    ensures Wins(bytes, xs) == if xs != [] && bytes[base..base + |expected|] == expected then 1 else 0
    decreases |xs|
  {
    if xs != [] {
      var after := Exchanged(bytes, xs[0]).1;
      if bytes[base..base + |expected|] == expected {
        assert after[base..base + |expected|] == xs[0].replacement;
      }
      OneWinner(after, xs[1..], base, expected);
    }
  }
}
