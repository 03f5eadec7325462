# EXECUTE encoder and request handler of the Cassandra C++ driver, in Dafny

This project models the request-execution core of the DataStax C++ driver for
Cassandra (2014):

- `ExecuteRequest::encode` (`src/execute_request.cpp`): the body of an
  EXECUTE request of the CQL binary protocol, version 2 (section 4.1.6 of
  `native_protocol_v2.spec`, query flags from section 4.1.4, primitive
  notations [byte], [short], [int], [bytes] and [short bytes] from section 3).
  The encoder sizes a query buffer and an optional paging buffer, derives the
  flags byte from which fields are present, fills each buffer with positional
  writes, and returns the number of bytes appended.
- `RequestHandler` (`src/request_handler.hpp`): the per-request state — the
  queue of candidate hosts, the attempted-host history, the retry and finished
  callbacks and the response future — and its entry points `on_set`,
  `on_error`, `on_timeout`, `retry`, `get_current_host`, `next_host`.
- `Host` (`src/host.hpp`): a node identified by its address alone.

Files:

| file | module | contents |
|---|---|---|
| `options.dfy` | `Options` | an `Option` type usable with `:-` |
| `wire.dfy` | `Wire` | bytes, the protocol primitives, their readers and round trips |
| `buffer.dfy` | `Buffers` | pre-sized buffers, positional writes, concatenation |
| `execute_request.dfy` | `ExecuteRequests` | the request, flags, the encoder in its three phases, the protocol layout, a decoder and the round trip |
| `host.dfy` | `Hosts` | `Host`, its equality, order and hash |
| `request_handler.dfy` | `RequestHandlers` | the handler record, its entry points, runs of events and their invariants |

How the pieces fit. `Encode` is proved to append buffers whose concatenation
is `Body(req)`, the layout of section 4.1.6, and to return their total size.
`Decode` reads a body as a server would, driven by the flags it finds;
`DecodeBody` proves that it recovers every field of the request, so the flags
and the fields present agree. The handler's entry points are functions on a
`Handler` record. The calls it makes into collaborators are recorded in the
record: calls into the future in `futureCalls`, invocations of the retry
callback in `retryCalls`, invocations of the finished callback in
`finishedCalls`. Lemmas over arbitrary runs of events state what is conserved
and what is counted.

The handler has no guard against repeated completion. `on_set`, `on_error`
and `on_timeout` each call `notify_finished` (src/request_handler.hpp:85, 90,
96), so a response followed by a timeout notifies a registered finished
callback twice. `RunNotifications` and `NotifiesPerEvent` state this.

## Model

| member | source | states |
|---|---|---|
| `ExecuteRequests.Encode` | src/execute_request.cpp:21-90 | requires protocol version 2. Appends one query buffer, one buffer per value, and a paging buffer only when a paging field is present. The query buffer is 2 + len(id) + 2 + 1 bytes, plus 2 exactly when there are values, and holds id, consistency, flags and the value count. The flags byte sits at offset 2 + len(id) + 2. The appended bytes are the protocol body. The returned length is their total size. |
| `ExecuteRequests.Plan` | src/execute_request.cpp:24-50 | sizing phase. The query size is 5 + len(id) (+2 with values). The paging size is 4 if page_size >= 0, plus 4 + len(paging_state) if that is non-empty, plus 2 if serial consistency != 0. The paging size is non-zero iff a paging field is present. The flags equal `Flags(req)`. |
| `ExecuteRequests.Flags` | src/execute_request.cpp:24-50 | VALUES is set iff there are values. PAGE_SIZE is set iff page_size >= 0, so 0 counts. PAGING_STATE is set iff paging_state is non-empty. SERIAL_CONSISTENCY is set iff serial consistency != 0. No other bit is ever set. |
| `ExecuteRequests.FillQuery` | src/execute_request.cpp:52-64 | the writes into the pre-sized query buffer end exactly at its size. The buffer then holds id, consistency, flags and (with values) the count, in that order, with the flags byte computed in the sizing phase at offset 2 + len(id) + 2. |
| `ExecuteRequests.FillPaging` | src/execute_request.cpp:69-86 | the writes into the pre-sized paging buffer end exactly at its size. The buffer then holds page size, paging state and serial consistency in that order, each only when present. |
| `ExecuteRequests.AppendQuery` | src/execute_request.cpp:52-67 | appends the query buffer, with its layout and flags byte, followed by one buffer per value. The appended bytes are the query part followed by the values. The count it returns is their total length. |
| `ExecuteRequests.EncodeValues` | src/execute_request.cpp:63-65 | appends one [bytes] buffer per bound value, in order, and returns the number of bytes appended. |
| `ExecuteRequests.DecodeBody` | src/execute_request.cpp:21-90 | for a request whose lengths fit their prefixes, reading the encoded body back yields every field of the request. Each optional field is present exactly when its sentinel says so. |
| `ExecuteRequests.PagingRoundTrip` | src/execute_request.cpp:73-86 | the paging buffer, read under the encoder's flags, yields page size, paging state and serial consistency exactly when present, and nothing follows them. |
| `ExecuteRequests.ValuesRoundTrip` | src/execute_request.cpp:63-65 | the values written back to back read back as the same values, leaving what follows. |
| `ExecuteRequests.ValuesSectionRoundTrip` | src/execute_request.cpp:63-65 | the value count and values read back under the VALUES flag give the request's values. |
| `Buffers.Alloc` | src/execute_request.cpp:53 | `BufferValue(size)` gives a buffer of exactly `size` bytes. The same constructor allocates the paging buffer at line 70. |
| `Buffers.Write` | src/execute_request.cpp:57-61 | a positional write keeps the buffer size, returns the end position, and extends the written prefix by exactly the bytes written. Later bytes are unchanged. |
| `Buffers.ConcatLength` | src/execute_request.cpp:89 | the total byte count of a list of buffers is the length of their concatenation, which is the quantity `encode` returns. |
| `Wire.Short` | src/execute_request.cpp:60 | `encode_uint16` writes 2 bytes, most significant first, whose big-endian value is the argument modulo 2^16, as the `uint16_t` conversion does. |
| `Wire.Int` | src/execute_request.cpp:77 | `encode_int32` writes 4 bytes whose big-endian unsigned value is the argument modulo 2^32, which is two's complement for negatives. |
| `Wire.ShortBytes` | src/execute_request.cpp:57-59 | `encode_string` writes 2 + n bytes: a [short] length, then the n bytes unchanged. |
| `Wire.Bytes` | src/execute_request.cpp:81 | `encode_bytes` writes 4 + n bytes: an [int] length, then the n bytes unchanged. |
| `Wire.ShortRoundTrip` | src/execute_request.cpp:60 | a [short] written from a 16-bit value reads back as that value. |
| `Wire.IntRoundTrip` | src/execute_request.cpp:77 | an [int] written from a 32-bit value reads back as that value, negative values included. |
| `Wire.ShortBytesRoundTrip` | src/execute_request.cpp:57-59 | a [short bytes] reads back as the same bytes. |
| `Wire.BytesRoundTrip` | src/execute_request.cpp:81 | a [bytes] reads back as the same bytes. |
| `RequestHandlers.OnSet` | src/request_handler.hpp:63-86 | a RESULT response calls `set_result` with the body, then `set_client` with the front host only when the queue is non-empty. An ERROR response calls `set_error` with the server-sourced code and the server's message. Any other opcode sets "Unexpected response". The finished callback fires once if registered. Queue, history and retry calls are unchanged. |
| `RequestHandlers.OnError` | src/request_handler.hpp:88-91 | passes code and message to `set_error` unchanged and fires the finished callback once if registered. Nothing else changes. |
| `RequestHandlers.OnTimeout` | src/request_handler.hpp:93-97 | sets the request-timed-out error with "Request timed out" and fires the finished callback once if registered. Nothing else changes. |
| `RequestHandlers.Retry` | src/request_handler.hpp:103-107 | with no retry callback, nothing changes. With one, it is invoked exactly once with the given retry type. Nothing else changes, the queue included. |
| `RequestHandlers.SetRetryCallback` | src/request_handler.hpp:99-101 | afterwards a retry callback is registered exactly when one was given, and nothing else about the handler changes. |
| `RequestHandlers.SetFinishedCallback` | src/request_handler.hpp:109-111 | afterwards a finished callback is registered exactly when one was given, and nothing else about the handler changes. |
| `RequestHandlers.CurrentHost` | src/request_handler.hpp:115-121 | none iff the queue is empty, otherwise the front host. |
| `RequestHandlers.NextHost` | src/request_handler.hpp:123-129 | on an empty queue it changes nothing. Otherwise the front moves to the end of the history and the queue becomes its tail. History followed by queue is preserved. Nothing else changes. |
| `RequestHandlers.NotifyFinished` | src/request_handler.hpp:137-141 | the finished callback fires once when registered and not at all otherwise. Nothing else changes. |
| `RequestHandlers.Create` | src/request_handler.hpp:46-52 | construction followed by the caller's assignment of the public `hosts` field: the handler has that queue, an empty history, no callbacks, and no calls made. |
| `RequestHandlers.RunConservesHosts` | src/request_handler.hpp:123-129 | over any run of the handler's own entry points, history followed by queue stays the same sequence. Their total length is invariant, and the history only grows. |
| `RequestHandlers.OnlyAdvanceMovesHosts` | src/request_handler.hpp:63-107 | runs of responses, errors, timeouts and retries never change the queue or the history. |
| `RequestHandlers.RunCompletions` | src/request_handler.hpp:63-97 | over any run, each terminal event adds exactly one result-or-error call to the future's log, and other events add none. |
| `RequestHandlers.RunNotifications` | src/request_handler.hpp:85-97 | over any run, a registered finished callback fires once per terminal event, and an unregistered one never fires. |
| `RequestHandlers.RunExtendsLog` | src/request_handler.hpp:63-97 | over any run, the future's call log only grows: earlier calls are never removed or rewritten. |
| `RequestHandlers.StepCompletions` | src/request_handler.hpp:63-97 | one entry point only appends to the future's log. It makes exactly one result-or-error call when it is terminal, and none for a retry or `next_host`. |
| `RequestHandlers.KeepsOutcome` | src/request_handler.hpp:63-97 | once a result or error has been set, no later event changes the first one, which a one-shot future reports. |
| `RequestHandlers.Outcome` | src/request_handler.hpp:63-97 | the outcome a one-shot future reports is present iff some result-or-error call was made, and is one of those calls. |
| `RequestHandlers.OutcomeIsFirst` | src/request_handler.hpp:63-97 | the outcome is the first of those calls: when the call at some index is a result or error and no earlier call is, the outcome is that call. |
| `RequestHandlers.NotifiesPerEvent` | src/request_handler.hpp:85-97 | with a finished callback registered, a response followed by a timeout notifies it twice and makes two more completion calls, because the handler has no guard. |
| `RequestHandlers.NextHostAdvancesCurrent` | src/request_handler.hpp:115-129 | for every queue, after `next_host` the current host is the second host of the queue, or none when the queue held at most one host. The host that was current is now the last entry of the history. |
| `RequestHandlers.NextHostOfTwo` | src/request_handler.hpp:123-129 | with queue [a, b], moving on leaves history [a] and current host b. |
| `RequestHandlers.NextHostOfOne` | src/request_handler.hpp:115-129 | with queue [a], moving on empties the queue, and there is then no current host. |
| `Hosts.Equal` | src/host.hpp:37-39 | host equality, defined on addresses, coincides with equality of hosts as values. |
| `Hosts.EqualIffSameAddress` | src/host.hpp:37-39 | two hosts are equal iff their addresses are. |
| `Hosts.AddressKept` | src/host.hpp:29-30 | a host built from an address has that address. |
| `Hosts.Less` | src/host.hpp:33-35 | the host order is the address order applied to the two hosts' addresses; `OrderInherited` shows it is a strict total order when the address order is. |
| `Hosts.Hash` | src/host.hpp:45-53 | the hash of a host is the address hash of its address; `HashRespectsEquality` shows it agrees with host equality. |
| `Hosts.OrderInherited` | src/host.hpp:33-35 | when the address order is a strict total order, so is the host order. |
| `Hosts.HashRespectsEquality` | src/host.hpp:45-53 | equal hosts hash equally, whatever the address hash is. |

## Left out

- Reference counting: the constructor's `retain` and the destructor's `release` (src/request_handler.hpp:46-57) manage memory of collaborators that are not part of this model.
- The future's internals: `ResultFuture`, its locking and its one-shot rule are not part of this model. The handler's calls into it are logged. `Outcome` states what a one-shot future would report from such a log.
- The bodies of the retry and finished callbacks, the transport and the `Timer` are not part of this model. The retry callback's re-dispatch, and the queue movement a policy may do in it, are therefore not modelled beyond `NextHost`.
- `RequestHandlers.Create`: the constructor (src/request_handler.hpp:46-52) takes only the request and leaves `hosts` empty. `Create(hosts)` stands for construction followed by the caller filling the public `hosts` field (src/request_handler.hpp:133).
- `RequestHandlers.RunConservesHosts`: the conservation covers the handler's own entry points only. Outside code may reassign the public `hosts` field at any time, and such writes are not events of the model.
- `SetRetryCallback` and `SetFinishedCallback` (src/request_handler.hpp:99-101, 109-111) are plain field updates that record whether a callback is registered, and are not events of a run. `Run`, and so `RunNotifications`, keep the registration fixed for the whole run; a callback registered or cleared between events is modelled only by running the setter between two runs.
- The `timer` and `keyspace` fields and the `request()`/`future()` accessors carry no logic here. `ResponseFuture::statement` is diagnostic text.
- The `CASS_ERROR(source, code)` bit-packing is not visible. Errors are a tagged datatype; `Server(code)` stands for the server-sourced code.
- `encode_values` and the `BufferValue` primitive encoders are not visible. They are modelled after section 3 of the version 2 protocol: each value is one buffer holding a [bytes], and integers are big-endian. Null values (negative [bytes] length) are not modelled.
- `Encode`: sizes and the returned length are unbounded integers. In the source the `int32_t` sizes and `length` overflow once the id, the paging state, or the whole body with its values exceeds 2^31 - 1 bytes (src/execute_request.cpp:54, 65, 71). The size conversions to `int32_t` wrap, and the `length +=` additions are signed overflow, which C++ leaves undefined; neither is modelled.
- `RequestHandlers.OnSet`: requires `WellFormed`, which excludes an ERROR-opcode response whose body is not an error body. The source casts such a body to an error response without checking (src/request_handler.hpp:75), so its behaviour there is undefined and not modelled.
- `DecodeBody`: the round trip is stated only for requests whose id and value count fit a [short] and whose values and paging state fit an [int]. Beyond that, the `uint16_t` conversion truncates the length prefix, and the model writes that truncation out in `Wire.Short`.
- `Hosts.Address`: the address type is opaque. Its order and hash come from `address.hpp`, which is not part of this model, so they are parameters of `Less` and `Hash`.
- The integration tests (test/integration_tests/src/consistency.cpp, policy_tools.hpp) drive a live cluster and declare test scaffolding; they hold no logic of the core.

