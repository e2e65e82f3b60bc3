/** Small definitions shared by the models. */
module Common {

  type Byte = b: int | 0 <= b < 256 witness 0

  datatype Option<+T> = None | Some(value: T)

  /** The elements of `s` from last to first. */
  function Reverse<T>(s: seq<T>): (r: seq<T>)
    ensures |r| == |s|
    ensures forall i :: 0 <= i < |s| ==> r[i] == s[|s| - 1 - i]
  {
    seq(|s|, i requires 0 <= i < |s| => s[|s| - 1 - i])
  }

  lemma ReverseConcat<T>(a: seq<T>, b: seq<T>)
    ensures Reverse(a + b) == Reverse(b) + Reverse(a)
  {
  }

  lemma ReverseReverse<T>(a: seq<T>)
    ensures Reverse(Reverse(a)) == a
  {
  }

  /** The bytes in a word. */
  const WORD := 4

  /** The whole words in `n` bytes. */
  function RoundDown(n: nat): (r: nat)
    ensures r % WORD == 0 && r <= n < r + WORD
  {
    n / WORD * WORD
  }

  function Min(a: int, b: int): (m: int)
    ensures m <= a && m <= b && (m == a || m == b)
  {
    if a <= b then a else b
  }

  /** Bytes with `x` written at `off`. */
  function Put(b: seq<Byte>, off: nat, x: seq<Byte>): (r: seq<Byte>)
    requires off + |x| <= |b|
    ensures |r| == |b|
  {
    b[..off] + x + b[off + |x|..]
  }

  lemma PutAt(b: seq<Byte>, off: nat, x: seq<Byte>, i: nat)
    requires off + |x| <= |b| && i < |b|
    ensures Put(b, off, x)[i] == if off <= i < off + |x| then x[i - off] else b[i]
  {
  }
}
