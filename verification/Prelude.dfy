/** Shared value types. */
module Prelude {

  datatype Option<+T> = None | Some(value: T)

  /** A byte of code or of a buffer. */
  type byte = b: int | 0 <= b < 0x100

  const U16: int := 0x1_0000
  const U32: int := 0x1_0000_0000

  /** A slice of a slice. */
  lemma SliceOfSlice<T>(s: seq<T>, a: nat, b: nat, i: nat, j: nat)
    requires a <= b <= |s| && i <= j <= b - a
    ensures s[a..b][i..j] == s[a + i..a + j]
  {
    forall m | 0 <= m < j - i ensures s[a..b][i..j][m] == s[a + i..a + j][m] {
      assert s[a..b][i + m] == s[a + i + m];
    }
  }

  /** The first of three parts, and the other two. */
  lemma ThreeParts<T>(t: seq<T>, x: seq<T>, y: seq<T>, z: seq<T>)
    requires t == x + y + z
    ensures |t| == |x| + |y| + |z| && t == x + t[|x|..] && t[|x|..] == y + z && t == x + (y + z)
  {
    assert x + y + z == x + (y + z);
  }

  type u16 = n: int | 0 <= n < 0x1_0000
  type u32 = n: int | 0 <= n < 0x1_0000_0000
}
