/** Unsigned integers as byte sequences in either order. */
module ByteOrder {
  import opened Prelude
  import opened Arith

  /** The low w bytes of n, least significant first. */
  function ToLittle(n: nat, w: nat): (bs: seq<byte>)
    ensures |bs| == w
  {
    if w == 0 then [] else [n % 256] + ToLittle(n / 256, w - 1)
  }

  /** The low w bytes of n, most significant first. */
  function ToBig(n: nat, w: nat): (bs: seq<byte>)
    ensures |bs| == w
  {
    if w == 0 then [] else ToBig(n / 256, w - 1) + [n % 256]
  }

  function FromLittle(bs: seq<byte>): nat {
    if bs == [] then 0 else bs[0] + 256 * FromLittle(bs[1..])
  }

  function FromBig(bs: seq<byte>): nat {
    if bs == [] then 0 else 256 * FromBig(bs[..|bs| - 1]) + bs[|bs| - 1]
  }

  function Encode(n: nat, w: nat, little: bool): (bs: seq<byte>)
    ensures |bs| == w
  {
    if little then ToLittle(n, w) else ToBig(n, w)
  }

  function Decode(bs: seq<byte>, little: bool): nat {
    if little then FromLittle(bs) else FromBig(bs)
  }

  function Reverse(bs: seq<byte>): (r: seq<byte>)
    ensures |r| == |bs|
    ensures forall k :: 0 <= k < |bs| ==> r[k] == bs[|bs| - 1 - k]
  {
    seq(|bs|, k requires 0 <= k < |bs| => bs[|bs| - 1 - k])
  }

  function Modulus(w: nat): nat {
    Pow2(8 * w)
  }

  lemma ModulusStep(w: nat)
    requires w > 0
    ensures Modulus(w) == 256 * Modulus(w - 1)
  {
    assert Pow2(8) == 256 by { assert Pow2(4) == 16; Pow2Add(4, 4); }
    Pow2Add(8, 8 * (w - 1));
  }

  /** One byte split off a residue. */
  lemma ResidueStep(n: nat, w: nat)
    requires w > 0
    ensures n % Modulus(w) == n % 256 + 256 * (n / 256 % Modulus(w - 1))
  {
    ModulusStep(w);
    var m, h := Modulus(w - 1), n / 256;
    DivModForm(n, 256);
    DivModForm(h, m);
    var q, r := h / m, h % m;
    assert 256 * (q * m) == q * (256 * m);
    DivModUnique(n, q, 256 * m, 256 * r + n % 256);
  }

  lemma {:induction false} LittleRoundTrip(n: nat, w: nat)
    ensures FromLittle(ToLittle(n, w)) == n % Modulus(w)
  {
    if w > 0 {
      LittleRoundTrip(n / 256, w - 1);
      ResidueStep(n, w);
      assert ToLittle(n, w)[1..] == ToLittle(n / 256, w - 1);
    }
  }

  /** The two orders are reversals of each other, for writing... */
  lemma {:induction false} ToBigReverses(n: nat, w: nat)
    ensures ToBig(n, w) == Reverse(ToLittle(n, w))
  {
    if w > 0 {
      ToBigReverses(n / 256, w - 1);
      var rest := ToLittle(n / 256, w - 1);
      assert Reverse([n % 256] + rest) == Reverse(rest) + [n % 256];
    }
  }

  /** ...and for reading. */
  lemma {:induction false} FromBigReverses(bs: seq<byte>)
    ensures FromBig(bs) == FromLittle(Reverse(bs))
  {
    if bs != [] {
      var init := bs[..|bs| - 1];
      FromBigReverses(init);
      assert Reverse(bs)[1..] == Reverse(init);
    }
  }

  lemma ReverseTwice(bs: seq<byte>)
    ensures Reverse(Reverse(bs)) == bs
  {
  }

  lemma {:induction false} LittleOnto(bs: seq<byte>)
    ensures FromLittle(bs) < Modulus(|bs|)
    ensures ToLittle(FromLittle(bs), |bs|) == bs
  {
    if bs != [] {
      LittleOnto(bs[1..]);
      ModulusStep(|bs|);
      var rest := FromLittle(bs[1..]);
      DivModUnique(FromLittle(bs), rest, 256, bs[0]);
      assert [bs[0]] + bs[1..] == bs;
    }
  }

  /** Decoding what was encoded in the same order gives the residue modulo 2^(8w). */
  lemma RoundTrip(n: nat, w: nat, little: bool)
    ensures Decode(Encode(n, w, little), little) == n % Modulus(w)
  {
    LittleRoundTrip(n, w);
    if !little {
      ToBigReverses(n, w);
      FromBigReverses(ToBig(n, w));
      ReverseTwice(ToLittle(n, w));
    }
  }

  /** Encoding what was decoded gives the bytes back. */
  lemma Onto(bs: seq<byte>, little: bool)
    ensures Decode(bs, little) < Modulus(|bs|)
    ensures Encode(Decode(bs, little), |bs|, little) == bs
  {
    if little {
      LittleOnto(bs);
    } else {
      FromBigReverses(bs);
      LittleOnto(Reverse(bs));
      ToBigReverses(FromBig(bs), |bs|);
      ReverseTwice(bs);
    }
  }
}
