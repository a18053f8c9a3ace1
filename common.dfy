/** Values shared by every part of the model: bytes, optional values, and the
    way a JavaScript Buffer answers an index or a slice that runs past its end. */
module Common {

  /** One octet of a Node.js Buffer. */
  type byte = x: int | 0 <= x < 256

  datatype Option<T> = None | Some(value: T)

  /** `buf[i]` of a Buffer: a position past the end reads `undefined`, which every
      bitwise operator and every `> 127` test of the codec treats as 0. */
  function ByteAt(buf: seq<byte>, i: nat): (b: byte)
    ensures i < |buf| ==> b == buf[i]
    ensures |buf| <= i ==> b == 0
  {
    if i < |buf| then buf[i] else 0
  }

  /** `buf.slice(from, to)`: both ends are clamped to the length of the buffer,
      and an empty slice results when `to` does not exceed `from`. */
  function Slice(buf: seq<byte>, from: nat, to: nat): (r: seq<byte>)
    ensures to <= |buf| && from <= to ==> r == buf[from..to]
    ensures |r| == if from <= to && from <= |buf| then Min(to, |buf|) - from else 0
    ensures forall k :: 0 <= k < |r| ==> from + k < |buf| && r[k] == buf[from + k]
  {
    var lo := Min(from, |buf|);
    var hi := Min(to, |buf|);
    if hi <= lo then [] else buf[lo..hi]
  }

  function Min(a: int, b: int): int
  {
    if a <= b then a else b
  }

  /** A slice that ends inside the left part of a concatenation lies in that part. */
  lemma SliceAppendLeft<T>(a: seq<T>, b: seq<T>, lo: nat, hi: nat)
    requires lo <= hi <= |a|
    ensures (a + b)[lo..hi] == a[lo..hi]
  {
  }

  /** The right part of a concatenation is the slice after the left part. */
  lemma SliceAppendRight<T>(a: seq<T>, b: seq<T>)
    ensures (a + b)[|a|..|a| + |b|] == b
  {
  }
}
