/**
 * The body of an EXECUTE request of the CQL binary protocol, version 2
 * (section 4.1.6 of native_protocol_v2.spec, with the query flags of section
 * 4.1.4):
 *
 *   <id><consistency><flags>[<n><value_1>...<value_n>][<page_size>][<paging_state>][<serial_consistency>]
 *
 * `Encode` follows the driver: it sizes a query buffer and an optional paging
 * buffer first, derives the flags from which fields are present, then fills
 * each buffer with positional writes. `Body` is the layout the protocol
 * prescribes and `Decode` reads a body back, so the encoder is tied both to the
 * prescribed layout and to a reader that recovers what the server is meant to
 * see.
 */
module ExecuteRequests {
  import opened Options
  import opened Wire
  import opened Buffers

  /** The only protocol version this encoder supports. */
  const ProtocolVersion: int := 2

  /** Query flags, section 4.1.4 of the version 2 protocol. */
  const FlagValues: bv8 := 0x01
  const FlagPageSize: bv8 := 0x04
  const FlagPagingState: bv8 := 0x08
  const FlagSerialConsistency: bv8 := 0x10

  /** The bits the execute encoder may set. */
  const KnownFlags: bv8 := FlagValues | FlagPageSize | FlagPagingState | FlagSerialConsistency

  /** A bound value, sent as a [bytes]. */
  type Value = seq<byte>

  /**
   * The fields of an execute request. A negative `pageSize` means "no page
   * size", an empty `pagingState` means "no paging state" and a zero
   * `serialConsistency` means "no serial consistency".
   */
  datatype ExecuteRequest = ExecuteRequest(
    preparedId: seq<byte>,
    consistency: uint16,
    values: seq<Value>,
    pageSize: int32,
    pagingState: seq<byte>,
    serialConsistency: uint16)

  predicate HasValues(req: ExecuteRequest) {
    |req.values| > 0
  }

  predicate HasPageSize(req: ExecuteRequest) {
    req.pageSize >= 0
  }

  predicate HasPagingState(req: ExecuteRequest) {
    |req.pagingState| > 0
  }

  predicate HasSerialConsistency(req: ExecuteRequest) {
    req.serialConsistency != 0
  }

  /** Whether any field of the paging buffer is present. */
  predicate HasPagingBuffer(req: ExecuteRequest) {
    HasPageSize(req) || HasPagingState(req) || HasSerialConsistency(req)
  }

  /**
   * The flags byte: one bit per optional field, set exactly when that field is
   * present, and no other bit.
   */
  function Flags(req: ExecuteRequest): (f: bv8)
    ensures (f & FlagValues != 0) <==> HasValues(req)
    ensures (f & FlagPageSize != 0) <==> HasPageSize(req)
    ensures (f & FlagPagingState != 0) <==> HasPagingState(req)
    ensures (f & FlagSerialConsistency != 0) <==> HasSerialConsistency(req)
    ensures f & !KnownFlags == 0
  {
    (if HasValues(req) then FlagValues else 0)
    | (if HasPageSize(req) then FlagPageSize else 0)
    | (if HasPagingState(req) then FlagPagingState else 0)
    | (if HasSerialConsistency(req) then FlagSerialConsistency else 0)
  }

  function FlagsByte(req: ExecuteRequest): byte {
    Flags(req) as int as byte
  }

  /** The bound values, each as a [bytes], back to back. */
  function ValuesPart(values: seq<Value>): seq<byte>
  {
    if |values| == 0 then [] else Bytes(values[0]) + ValuesPart(values[1..])
  }

  /** The query part of the body as the protocol lays it out. */
  function QueryPart(req: ExecuteRequest): seq<byte> {
    ShortBytes(req.preparedId) + Short(req.consistency) + [FlagsByte(req)]
    + (if HasValues(req) then Short(|req.values|) else [])
  }

  /** The paging part of the body as the protocol lays it out. */
  function PagingPart(req: ExecuteRequest): seq<byte> {
    (if HasPageSize(req) then Int(req.pageSize) else [])
    + (if HasPagingState(req) then Bytes(req.pagingState) else [])
    + (if HasSerialConsistency(req) then Short(req.serialConsistency) else [])
  }

  /** The whole EXECUTE body, section 4.1.6. */
  function Body(req: ExecuteRequest): seq<byte> {
    QueryPart(req) + ValuesPart(req.values) + PagingPart(req)
  }

  lemma {:induction false} ValuesPartAppend(values: seq<Value>, v: Value)
    ensures ValuesPart(values + [v]) == ValuesPart(values) + Bytes(v)
    decreases |values|
  {
    if |values| == 0 {
      assert values + [v] == [v];
    } else {
      assert (values + [v])[1..] == values[1..] + [v];
      ValuesPartAppend(values[1..], v);
    }
  }

  /**
   * Appends one buffer per bound value, each holding the value as a [bytes],
   * and returns the number of bytes appended.
   */
  method EncodeValues(bufs: seq<BufferValue>, values: seq<Value>) returns (out: seq<BufferValue>, count: int)
    ensures |out| == |bufs| + |values|
    ensures out[..|bufs|] == bufs
    ensures forall i :: 0 <= i < |values| ==> out[|bufs| + i].data == Bytes(values[i])
    ensures Concat(out[|bufs|..]) == ValuesPart(values)
    ensures count == TotalLength(out[|bufs|..])
  {
    out := bufs;
    count := 0;
    var i := 0;
    while i < |values|
      invariant 0 <= i <= |values|
      invariant |out| == |bufs| + i
      invariant out[..|bufs|] == bufs
      invariant forall k :: 0 <= k < i ==> out[|bufs| + k].data == Bytes(values[k])
      invariant Concat(out[|bufs|..]) == ValuesPart(values[..i])
      invariant count == |ValuesPart(values[..i])|
    {
      var buf := BufferValue(Bytes(values[i]));
      ConcatAppend(out[|bufs|..], [buf]);
      assert (out + [buf])[|bufs|..] == out[|bufs|..] + [buf];
      assert Concat([buf]) == buf.data;
      assert values[..i + 1] == values[..i] + [values[i]];
      ValuesPartAppend(values[..i], values[i]);
      out := out + [buf];
      count := count + |buf.data|;
      i := i + 1;
    }
    assert values[..i] == values;
    ConcatLength(out[|bufs|..]);
  }

  /**
   * The sizing phase: the exact sizes of the query and paging buffers, and the
   * flags, all derived from which fields are present.
   */
  method Plan(req: ExecuteRequest) returns (queryBufSize: nat, pagingBufSize: nat, flags: bv8)
    ensures queryBufSize == 2 + |req.preparedId| + 2 + 1 + (if HasValues(req) then 2 else 0)
    ensures pagingBufSize ==
      (if HasPageSize(req) then 4 else 0)
      + (if HasPagingState(req) then 4 + |req.pagingState| else 0)
      + (if HasSerialConsistency(req) then 2 else 0)
    ensures pagingBufSize > 0 <==> HasPagingBuffer(req)
    ensures flags == Flags(req)
  {
    flags := 0;
    queryBufSize := 2 + |req.preparedId| + 2 + 1;
    pagingBufSize := 0;

    if |req.values| > 0 {
      queryBufSize := queryBufSize + 2;
      flags := flags | FlagValues;
    }
    if req.pageSize >= 0 {
      pagingBufSize := pagingBufSize + 4;
      flags := flags | FlagPageSize;
    }
    if |req.pagingState| > 0 {
      pagingBufSize := pagingBufSize + 4 + |req.pagingState|;
      flags := flags | FlagPagingState;
    }
    if req.serialConsistency != 0 {
      pagingBufSize := pagingBufSize + 2;
      flags := flags | FlagSerialConsistency;
    }
  }

  /**
   * Fills a query buffer of the planned size: id, consistency, flags and, when
   * there are values, their count. The writes end exactly at the end of the
   * buffer, so the buffer holds the query part and nothing else.
   */
  method FillQuery(req: ExecuteRequest, size: nat, flags: bv8) returns (buf: BufferValue)
    requires size == 2 + |req.preparedId| + 2 + 1 + (if HasValues(req) then 2 else 0)
    requires flags == Flags(req)
    ensures |buf.data| == size
    ensures buf.data == QueryPart(req)
    ensures buf.data[2 + |req.preparedId| + 2] == FlagsByte(req)
  {
    var w := Write(Alloc(size), 0, ShortBytes(req.preparedId));
    w := Write(w.0, w.1, Short(req.consistency));
    w := Write(w.0, w.1, [flags as int as byte]);
    if |req.values| > 0 {
      w := Write(w.0, w.1, Short(|req.values|));
    }
    assert w.1 == size;
    buf := w.0;
    assert buf.data == buf.data[..w.1];
  }

  /**
   * Fills a paging buffer of the planned size: page size, paging state and
   * serial consistency, each only when present. The writes end exactly at the
   * end of the buffer.
   */
  method FillPaging(req: ExecuteRequest, size: nat) returns (buf: BufferValue)
    requires size ==
      (if HasPageSize(req) then 4 else 0)
      + (if HasPagingState(req) then 4 + |req.pagingState| else 0)
      + (if HasSerialConsistency(req) then 2 else 0)
    ensures |buf.data| == size
    ensures buf.data == PagingPart(req)
  {
    ghost var pageSizePart := if HasPageSize(req) then Int(req.pageSize) else [];
    ghost var statePart := if HasPagingState(req) then Bytes(req.pagingState) else [];
    ghost var serialPart := if HasSerialConsistency(req) then Short(req.serialConsistency) else [];
    var p := (Alloc(size), 0);
    if req.pageSize >= 0 {
      p := Write(p.0, p.1, Int(req.pageSize));
    }
    assert p.0.data[..p.1] == pageSizePart;
    if |req.pagingState| > 0 {
      p := Write(p.0, p.1, Bytes(req.pagingState));
    }
    assert p.0.data[..p.1] == pageSizePart + statePart;
    if req.serialConsistency != 0 {
      p := Write(p.0, p.1, Short(req.serialConsistency));
    }
    assert p.0.data[..p.1] == pageSizePart + statePart + serialPart;
    assert p.1 == size;
    buf := p.0;
    assert buf.data == buf.data[..p.1];
  }

  /**
   * The query block of the encoder: appends the filled query buffer and, when
   * there are values, one buffer per value, and counts the bytes appended.
   */
  method AppendQuery(bufs: seq<BufferValue>, req: ExecuteRequest, size: nat, flags: bv8)
    returns (out: seq<BufferValue>, length: int)
    requires size == 2 + |req.preparedId| + 2 + 1 + (if HasValues(req) then 2 else 0)
    requires flags == Flags(req)
    ensures |out| == |bufs| + 1 + |req.values|
    ensures out[..|bufs|] == bufs
    ensures |out[|bufs|].data| == size
    ensures out[|bufs|].data == QueryPart(req)
    ensures out[|bufs|].data[2 + |req.preparedId| + 2] == FlagsByte(req)
    ensures forall i :: 0 <= i < |req.values| ==> out[|bufs| + 1 + i].data == Bytes(req.values[i])
    ensures Concat(out[|bufs|..]) == QueryPart(req) + ValuesPart(req.values)
    ensures length == |Concat(out[|bufs|..])|
  {
    var query := FillQuery(req, size, flags);
    out := bufs + [query];
    length := size;
    assert out[|bufs|..] == [query];
    assert Concat([query]) == query.data;
    if |req.values| > 0 {
      var n;
      out, n := EncodeValues(out, req.values);
      length := length + n;
      ConcatLength(out[|bufs| + 1..]);
      assert out[|bufs|..][1..] == out[|bufs| + 1..];
    }
  }

  /**
   * Encodes the request for protocol `version`, appending its buffers to
   * `bufs`, and returns the number of bytes appended. Only version 2 is
   * supported; any other version is a contract violation of the caller.
   */
  method Encode(version: int, bufs: seq<BufferValue>, req: ExecuteRequest) returns (out: seq<BufferValue>, length: int)
    requires version == ProtocolVersion
    ensures |out| == |bufs| + 1 + |req.values| + (if HasPagingBuffer(req) then 1 else 0)
    ensures out[..|bufs|] == bufs
    // the query buffer: exact size, layout, and the flags at their offset
    ensures |out[|bufs|].data| == 2 + |req.preparedId| + 2 + 1 + (if HasValues(req) then 2 else 0)
    ensures out[|bufs|].data == QueryPart(req)
    ensures out[|bufs|].data[2 + |req.preparedId| + 2] == FlagsByte(req)
    // one buffer per value
    ensures forall i :: 0 <= i < |req.values| ==> out[|bufs| + 1 + i].data == Bytes(req.values[i])
    // the paging buffer, present only when one of its fields is
    ensures HasPagingBuffer(req) ==>
      |out[|out| - 1].data| ==
        (if HasPageSize(req) then 4 else 0)
        + (if HasPagingState(req) then 4 + |req.pagingState| else 0)
        + (if HasSerialConsistency(req) then 2 else 0)
    ensures HasPagingBuffer(req) ==> out[|out| - 1].data == PagingPart(req)
    // the appended bytes are the protocol body, and their count is returned
    ensures Concat(out[|bufs|..]) == Body(req)
    ensures length == TotalLength(out[|bufs|..])
  {
    var queryBufSize, pagingBufSize, flags := Plan(req);
    out, length := AppendQuery(bufs, req, queryBufSize, flags);

    if pagingBufSize > 0 {
      var paging := FillPaging(req, pagingBufSize);
      length := length + pagingBufSize;
      ghost var appended := out[|bufs|..];
      ConcatAppend(appended, [paging]);
      assert Concat([paging]) == paging.data;
      assert (out + [paging])[|bufs|..] == appended + [paging];
      out := out + [paging];
      assert out[..|bufs|] == bufs;
    }
    ConcatLength(out[|bufs|..]);
  }

  /**
   * What a server reads from an EXECUTE body: the optional fields are present
   * or absent rather than carried by sentinel values.
   */
  datatype ExecuteBody = ExecuteBody(
    preparedId: seq<byte>,
    consistency: nat,
    values: seq<Value>,
    pageSize: Option<int>,
    pagingState: Option<seq<byte>>,
    serialConsistency: Option<nat>)

  /** The body a request is meant to convey. */
  function View(req: ExecuteRequest): ExecuteBody {
    ExecuteBody(
      req.preparedId,
      req.consistency,
      req.values,
      if HasPageSize(req) then Some(req.pageSize as int) else None,
      if HasPagingState(req) then Some(req.pagingState) else None,
      if HasSerialConsistency(req) then Some(req.serialConsistency as nat) else None)
  }

  /**
   * Every length fits its length prefix: the id and the value count fit a
   * [short], each value and the paging state fit an [int].
   */
  predicate WellSized(req: ExecuteRequest) {
    && IsShort(|req.preparedId|)
    && IsShort(|req.values|)
    && (forall i :: 0 <= i < |req.values| ==> IsInt(|req.values[i]|))
    && IsInt(|req.pagingState|)
  }

  /** Reads `n` values, each a [bytes]. */
  function ReadValues(s: seq<byte>, n: nat): (r: Option<(seq<Value>, seq<byte>)>)
    ensures r.Some? ==> |r.value.0| == n && |r.value.1| <= |s|
    decreases n
  {
    if n == 0 then Some(([], s))
    else
      var (v, t) :- ReadBytes(s);
      var (vs, u) :- ReadValues(t, n - 1);
      Some(([v] + vs, u))
  }

  /** Reads the value count and the values, when the VALUES flag is set. */
  function ReadValuesSection(s: seq<byte>, present: bool): Option<(seq<Value>, seq<byte>)>
  {
    if present then
      var (n, t) :- ReadShort(s);
      ReadValues(t, n)
    else Some(([], s))
  }

  /** Reads an optional [int]. */
  function ReadOptInt(s: seq<byte>, present: bool): Option<(Option<int>, seq<byte>)>
  {
    if present then
      var (p, t) :- ReadInt(s);
      Some((Some(p), t))
    else Some((None, s))
  }

  /** Reads an optional [bytes]. */
  function ReadOptBytes(s: seq<byte>, present: bool): Option<(Option<seq<byte>>, seq<byte>)>
  {
    if present then
      var (b, t) :- ReadBytes(s);
      Some((Some(b), t))
    else Some((None, s))
  }

  /** Reads an optional [short]. */
  function ReadOptShort(s: seq<byte>, present: bool): Option<(Option<nat>, seq<byte>)>
  {
    if present then
      var (c, t) :- ReadShort(s);
      Some((Some(c), t))
    else Some((None, s))
  }

  /** Reads the paging fields the flags announce; nothing may follow them. */
  function ReadPaging(s: seq<byte>, flags: bv8): Option<(Option<int>, Option<seq<byte>>, Option<nat>)>
  {
    var (pageSize, s1) :- ReadOptInt(s, flags & FlagPageSize != 0);
    var (pagingState, s2) :- ReadOptBytes(s1, flags & FlagPagingState != 0);
    var (serial, s3) :- ReadOptShort(s2, flags & FlagSerialConsistency != 0);
    if |s3| != 0 then None else Some((pageSize, pagingState, serial))
  }

  /** Reads an EXECUTE body, section 4.1.6; the whole input must be consumed. */
  function Decode(s: seq<byte>): Option<ExecuteBody>
  {
    var (id, s1) :- ReadShortBytes(s);
    var (consistency, s2) :- ReadShort(s1);
    var (flagsByte, s3) :- ReadByte(s2);
    var flags := flagsByte as int as bv8;
    var (values, s4) :- ReadValuesSection(s3, flags & FlagValues != 0);
    var (pageSize, pagingState, serial) :- ReadPaging(s4, flags);
    Some(ExecuteBody(id, consistency, values, pageSize, pagingState, serial))
  }

  lemma {:induction false} ValuesRoundTrip(values: seq<Value>, rest: seq<byte>)
    requires forall i :: 0 <= i < |values| ==> IsInt(|values[i]|)
    ensures ReadValues(ValuesPart(values) + rest, |values|) == Some((values, rest))
    decreases |values|
  {
    if |values| > 0 {
      var tail := ValuesPart(values[1..]) + rest;
      assert ValuesPart(values) + rest == Bytes(values[0]) + tail;
      BytesRoundTrip(values[0], tail);
      assert ReadBytes(ValuesPart(values) + rest) == Some((values[0], tail));
      ValuesRoundTrip(values[1..], rest);
      assert ReadValues(tail, |values| - 1) == Some((values[1..], rest));
      assert [values[0]] + values[1..] == values;
    } else {
      assert ValuesPart(values) + rest == rest;
    }
  }

  /** The flags byte read back as bits is the flags the encoder computed. */
  lemma FlagsByteBits(req: ExecuteRequest)
    ensures FlagsByte(req) as int as bv8 == Flags(req)
  {
  }

  /** The values section (count and values) reads back to the request's values. */
  lemma ValuesSectionRoundTrip(req: ExecuteRequest, rest: seq<byte>)
    requires WellSized(req)
    ensures ReadValuesSection(
              (if HasValues(req) then Short(|req.values|) else []) + ValuesPart(req.values) + rest,
              HasValues(req))
            == Some((req.values, rest))
  {
    var vp := ValuesPart(req.values);
    if HasValues(req) {
      ShortRoundTrip(|req.values|, vp + rest);
      assert Short(|req.values|) + vp + rest == Short(|req.values|) + (vp + rest);
      ValuesRoundTrip(req.values, rest);
    } else {
      assert vp == [];
      assert [] + vp + rest == rest;
    }
  }

  /** The paging part reads back to the request's optional paging fields. */
  lemma PagingRoundTrip(req: ExecuteRequest)
    requires IsInt(|req.pagingState|)
    ensures ReadPaging(PagingPart(req), Flags(req))
            == Some((View(req).pageSize, View(req).pagingState, View(req).serialConsistency))
  {
    var serialPart := if HasSerialConsistency(req) then Short(req.serialConsistency) else [];
    var statePart := (if HasPagingState(req) then Bytes(req.pagingState) else []) + serialPart;
    assert PagingPart(req) == (if HasPageSize(req) then Int(req.pageSize) else []) + statePart;
    if HasPageSize(req) {
      IntRoundTrip(req.pageSize, statePart);
      assert ReadInt(PagingPart(req)) == Some((req.pageSize as int, statePart));
    } else {
      assert PagingPart(req) == statePart;
    }
    assert ReadOptInt(PagingPart(req), HasPageSize(req)) == Some((View(req).pageSize, statePart));
    if HasPagingState(req) {
      BytesRoundTrip(req.pagingState, serialPart);
    } else {
      assert statePart == serialPart;
    }
    assert ReadOptBytes(statePart, HasPagingState(req)) == Some((View(req).pagingState, serialPart));
    if HasSerialConsistency(req) {
      ShortRoundTrip(req.serialConsistency, []);
      assert Short(req.serialConsistency) + [] == serialPart;
    }
    assert ReadOptShort(serialPart, HasSerialConsistency(req)) == Some((View(req).serialConsistency, []));
  }

  /**
   * The encoder's body decodes to exactly what the request is meant to convey:
   * flags and present fields correspond, and every field comes back.
   */
  lemma DecodeBody(req: ExecuteRequest)
    requires WellSized(req)
    ensures Decode(Body(req)) == Some(View(req))
  {
    FlagsByteBits(req);
    var pp := PagingPart(req);
    var s3 := (if HasValues(req) then Short(|req.values|) else []) + ValuesPart(req.values) + pp;
    var s2 := [FlagsByte(req)] + s3;
    var s1 := Short(req.consistency) + s2;
    assert Body(req) == ShortBytes(req.preparedId) + s1;
    ShortBytesRoundTrip(req.preparedId, s1);
    ShortRoundTrip(req.consistency, s2);
    assert ReadByte(s2) == Some((FlagsByte(req), s3));
    ValuesSectionRoundTrip(req, pp);
    PagingRoundTrip(req);
  }
}
