/**
 * Pre-sized output buffers. A buffer is allocated once with its final size and
 * then filled by positional writes; each primitive encoder writes its bytes at
 * a given position and returns the position just past them.
 */
module Buffers {
  import opened Wire

  datatype BufferValue = BufferValue(data: seq<byte>)

  /**
   * A fresh buffer of `size` bytes. Its initial contents are irrelevant: the
   * encoder overwrites every byte.
   */
  function Alloc(size: nat): (b: BufferValue)
    ensures |b.data| == size
  {
    BufferValue(seq(size, _ => 0))
  }

  /**
   * Writes `bytes` at `pos`. The caller must have sized the buffer so that the
   * bytes fit; the size never changes, the bytes outside the written window
   * keep their values, and the prefix up to the returned end position is the
   * old prefix followed by the new bytes.
   */
  function Write(buf: BufferValue, pos: nat, bytes: seq<byte>): (r: (BufferValue, nat))
    requires pos + |bytes| <= |buf.data|
    ensures |r.0.data| == |buf.data|
    ensures r.1 == pos + |bytes|
    ensures r.0.data[..r.1] == buf.data[..pos] + bytes
    ensures r.0.data[r.1..] == buf.data[r.1..]
  {
    (BufferValue(buf.data[..pos] + bytes + buf.data[pos + |bytes|..]), pos + |bytes|)
  }

  /** The bytes of several buffers, in the order they are sent. */
  function Concat(bufs: seq<BufferValue>): seq<byte>
  {
    if |bufs| == 0 then [] else bufs[0].data + Concat(bufs[1..])
  }

  /** The sum of the sizes of several buffers. */
  function TotalLength(bufs: seq<BufferValue>): nat
  {
    if |bufs| == 0 then 0 else |bufs[0].data| + TotalLength(bufs[1..])
  }

  lemma {:induction false} ConcatLength(bufs: seq<BufferValue>)
    ensures |Concat(bufs)| == TotalLength(bufs)
    decreases |bufs|
  {
    if |bufs| > 0 {
      ConcatLength(bufs[1..]);
    }
  }

  lemma {:induction false} ConcatAppend(a: seq<BufferValue>, b: seq<BufferValue>)
    ensures Concat(a + b) == Concat(a) + Concat(b)
    decreases |a|
  {
    if |a| == 0 {
      assert a + b == b;
    } else {
      assert (a + b)[1..] == a[1..] + b;
      ConcatAppend(a[1..], b);
    }
  }
}
