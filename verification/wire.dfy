/**
 * The primitive notations of the CQL binary protocol, version 2 (section 3 of
 * native_protocol_v2.spec): [byte], [short], [int], [bytes] and [short bytes],
 * all big-endian, together with readers for each of them. The readers are the
 * partners of the writers: every writer is proved to be undone by its reader.
 */
module Wire {
  import opened Options

  newtype byte = x: int | 0 <= x < 0x100

  const ShortRange: int := 0x1_0000
  const IntRange: int := 0x1_0000_0000
  const IntMax: int := 0x7fff_ffff
  const IntMin: int := -0x8000_0000

  /** The values a C++ `uint16_t` can hold. */
  predicate IsShort(n: int) {
    0 <= n < ShortRange
  }

  /** The values a C++ `int32_t` can hold. */
  predicate IsInt(n: int) {
    IntMin <= n <= IntMax
  }

  type uint16 = n: int | IsShort(n)
  type int32 = n: int | IsInt(n)

  /**
   * A [short]: the argument is converted to `uint16_t` first, which keeps it
   * modulo 2^16, then written most significant byte first.
   */
  function Short(n: int): (r: seq<byte>)
    ensures |r| == 2
    ensures r[0] as int * 0x100 + r[1] as int == n % ShortRange
  {
    var u := n % ShortRange;
    [(u / 0x100) as byte, (u % 0x100) as byte]
  }

  /**
   * An [int]: the argument is converted to 32 bits (two's complement, modulo
   * 2^32), then written most significant byte first.
   */
  function Int(n: int): (r: seq<byte>)
    ensures |r| == 4
    ensures UnsignedOf(r) == n % IntRange
  {
    var u := n % IntRange;
    var u1 := u / 0x100;
    var u2 := u1 / 0x100;
    assert u == u1 * 0x100 + u % 0x100;
    assert u1 == u2 * 0x100 + u1 % 0x100;
    assert u2 == u2 / 0x100 * 0x100 + u2 % 0x100;
    [(u2 / 0x100) as byte, (u2 % 0x100) as byte, (u1 % 0x100) as byte, (u % 0x100) as byte]
  }

  /** The unsigned value of four big-endian bytes. */
  function UnsignedOf(s: seq<byte>): nat
    requires |s| == 4
  {
    s[0] as nat * 0x100_0000 + s[1] as nat * 0x1_0000 + s[2] as nat * 0x100 + s[3] as nat
  }

  /** A [short bytes]: a [short] length, then the bytes. */
  function ShortBytes(b: seq<byte>): (r: seq<byte>)
    ensures |r| == 2 + |b|
    ensures r[..2] == Short(|b|)
    ensures r[2..] == b
  {
    Short(|b|) + b
  }

  /** A [bytes]: an [int] length, then the bytes. */
  function Bytes(b: seq<byte>): (r: seq<byte>)
    ensures |r| == 4 + |b|
    ensures r[..4] == Int(|b|)
    ensures r[4..] == b
  {
    Int(|b|) + b
  }

  /** Reads a [byte]; fails on empty input. */
  function ReadByte(s: seq<byte>): (r: Option<(byte, seq<byte>)>)
    ensures r.Some? <==> |s| >= 1
    ensures r.Some? ==> r.value.1 == s[1..]
  {
    if |s| < 1 then None else Some((s[0], s[1..]))
  }

  /** Reads a [short] as an unsigned value; fails on fewer than two bytes. */
  function ReadShort(s: seq<byte>): (r: Option<(nat, seq<byte>)>)
    ensures r.Some? <==> |s| >= 2
    ensures r.Some? ==> IsShort(r.value.0) && r.value.1 == s[2..]
  {
    if |s| < 2 then None else Some((s[0] as nat * 0x100 + s[1] as nat, s[2..]))
  }

  /** Reads an [int] as a signed 32-bit value; fails on fewer than four bytes. */
  function ReadInt(s: seq<byte>): (r: Option<(int, seq<byte>)>)
    ensures r.Some? <==> |s| >= 4
    ensures r.Some? ==> IsInt(r.value.0) && r.value.1 == s[4..]
  {
    if |s| < 4 then None
    else
      var u := UnsignedOf(s[..4]);
      Some((if u <= IntMax then u else u - IntRange, s[4..]))
  }

  /** Reads a [short bytes]. */
  function ReadShortBytes(s: seq<byte>): (r: Option<(seq<byte>, seq<byte>)>)
    ensures r.Some? ==> |r.value.0| + 2 + |r.value.1| == |s|
  {
    var (n, t) :- ReadShort(s);
    if |t| < n then None else Some((t[..n], t[n..]))
  }

  /**
   * Reads a [bytes]. A negative length stands for a null value in the
   * protocol; the encoder modelled here never writes one, so it is refused.
   */
  function ReadBytes(s: seq<byte>): (r: Option<(seq<byte>, seq<byte>)>)
    ensures r.Some? ==> |r.value.0| + 4 + |r.value.1| == |s|
  {
    var (n, t) :- ReadInt(s);
    if n < 0 || |t| < n then None else Some((t[..n], t[n..]))
  }

  lemma ShortRoundTrip(n: int, rest: seq<byte>)
    requires IsShort(n)
    ensures ReadShort(Short(n) + rest) == Some((n, rest))
  {
  }

  lemma IntRoundTrip(n: int, rest: seq<byte>)
    requires IsInt(n)
    ensures ReadInt(Int(n) + rest) == Some((n, rest))
  {
  }

  lemma ShortBytesRoundTrip(b: seq<byte>, rest: seq<byte>)
    requires IsShort(|b|)
    ensures ReadShortBytes(ShortBytes(b) + rest) == Some((b, rest))
  {
    var s := ShortBytes(b) + rest;
    assert s == Short(|b|) + (b + rest);
    ShortRoundTrip(|b|, b + rest);
    assert (b + rest)[..|b|] == b;
    assert (b + rest)[|b|..] == rest;
  }

  lemma BytesRoundTrip(b: seq<byte>, rest: seq<byte>)
    requires IsInt(|b|)
    ensures ReadBytes(Bytes(b) + rest) == Some((b, rest))
  {
    var s := Bytes(b) + rest;
    assert s == Int(|b|) + (b + rest);
    IntRoundTrip(|b|, b + rest);
    assert (b + rest)[..|b|] == b;
    assert (b + rest)[|b|..] == rest;
  }
}
