/**
 * The per-request handler: an ordered queue of candidate hosts, the history of
 * hosts already attempted, the optional retry and finished callbacks, and the
 * response future it completes.
 *
 * The handler is a record and each entry point a function from handler to
 * handler. The calls the handler makes into collaborators whose bodies are not
 * part of this model are recorded rather than interpreted: the calls into the
 * future (`set_result`, `set_error`, `set_client`) are appended to a log, the
 * retry callback's invocations are appended to a list of retry types, and the
 * finished callback's invocations are counted.
 */
module RequestHandlers {
  import opened Options
  import opened Hosts

  datatype RetryType = RetryWithCurrentHost | RetryWithNextHost

  /** Opcodes of the responses the handler distinguishes (CQL version 2, section 2.4). */
  const OpcodeError: nat := 0x00
  const OpcodeResult: nat := 0x08

  /**
   * A driver error code. `Server(code)` is a code tagged with the server
   * source; the two library codes are the ones the handler raises itself;
   * `Other` is any code a transport reports, passed through untouched.
   */
  datatype CassError =
    | Server(code: int)
    | LibUnexpectedResponse
    | LibRequestTimedOut
    | Other(source: nat, code: int)

  /** The body of a response: an error carries a code and a message. */
  datatype ResponseBody =
    | ErrorBody(code: int, message: string)
    | ResultBody(payload: seq<int>)
    | OtherBody

  datatype Response = Response(opcode: nat, body: ResponseBody)

  /** A call made into the response future. */
  datatype FutureCall =
    | SetResult(body: ResponseBody)
    | SetError(error: CassError, message: string)
    | SetClient(host: Host)

  datatype Handler = Handler(
    hosts: seq<Host>,
    attempted: seq<Host>,
    hasRetryCallback: bool,
    hasFinishedCallback: bool,
    futureCalls: seq<FutureCall>,
    retryCalls: seq<RetryType>,
    finishedCalls: nat)

  /**
   * An error response's body must be an error body: the handler reads it as one
   * without checking.
   */
  predicate WellFormed(response: Response) {
    response.opcode == OpcodeError ==> response.body.ErrorBody?
  }

  predicate IsCompletion(call: FutureCall) {
    call.SetResult? || call.SetError?
  }

  /** The number of result/error calls in a future-call log. */
  function Completions(log: seq<FutureCall>): nat
  {
    if |log| == 0 then 0
    else (if IsCompletion(log[|log| - 1]) then 1 else 0) + Completions(log[..|log| - 1])
  }

  /** A handler for a queue of hosts, before any event. */
  function Create(hosts: seq<Host>): (h: Handler)
    ensures h.hosts == hosts && h.attempted == []
    ensures !h.hasRetryCallback && !h.hasFinishedCallback
    ensures h.futureCalls == [] && h.retryCalls == [] && h.finishedCalls == 0
  {
    Handler(hosts, [], false, false, [], [], 0)
  }

  /** Registers (or clears) the retry callback. */
  function SetRetryCallback(h: Handler, present: bool): (r: Handler)
    ensures r.hasRetryCallback == present
    ensures r.(hasRetryCallback := h.hasRetryCallback) == h
  {
    h.(hasRetryCallback := present)
  }

  /** Registers (or clears) the finished callback. */
  function SetFinishedCallback(h: Handler, present: bool): (r: Handler)
    ensures r.hasFinishedCallback == present
    ensures r.(hasFinishedCallback := h.hasFinishedCallback) == h
  {
    h.(hasFinishedCallback := present)
  }

  /** The current host: the front of the queue, or none when it is empty. */
  function CurrentHost(h: Handler): (r: Option<Host>)
    ensures r.None? <==> |h.hosts| == 0
    ensures r.Some? ==> r.value == h.hosts[0]
  {
    if |h.hosts| == 0 then None else Some(h.hosts[0])
  }

  /**
   * Moves the front of the queue to the end of the attempted history; does
   * nothing on an empty queue.
   */
  function NextHost(h: Handler): (h': Handler)
    ensures |h.hosts| == 0 ==> h' == h
    ensures |h.hosts| > 0 ==> h'.attempted == h.attempted + [h.hosts[0]] && h'.hosts == h.hosts[1..]
    ensures h'.attempted + h'.hosts == h.attempted + h.hosts
    ensures h' == h.(hosts := h'.hosts, attempted := h'.attempted)
  {
    if |h.hosts| == 0 then h
    else h.(attempted := h.attempted + [h.hosts[0]], hosts := h.hosts[1..])
  }

  /** Fires the finished callback, if one is registered. */
  function NotifyFinished(h: Handler): (h': Handler)
    ensures h'.finishedCalls == h.finishedCalls + (if h.hasFinishedCallback then 1 else 0)
    ensures h' == h.(finishedCalls := h'.finishedCalls)
  {
    if h.hasFinishedCallback then h.(finishedCalls := h.finishedCalls + 1) else h
  }

  /** Invokes the retry callback with `t`, if one is registered. */
  function Retry(h: Handler, t: RetryType): (h': Handler)
    ensures h.hasRetryCallback ==> h'.retryCalls == h.retryCalls + [t]
    ensures !h.hasRetryCallback ==> h' == h
    ensures h' == h.(retryCalls := h'.retryCalls)
  {
    if h.hasRetryCallback then h.(retryCalls := h.retryCalls + [t]) else h
  }

  /** Appends a call to the future's log. */
  function Call(h: Handler, call: FutureCall): Handler {
    h.(futureCalls := h.futureCalls + [call])
  }

  /**
   * A response arrives. A result sets the future's result and, when there is a
   * current host, names it as the responding client; an error response sets a
   * server-sourced error with the server's message; any other opcode sets the
   * unexpected-response error. The finished callback is notified in all three
   * cases.
   */
  function OnSet(h: Handler, response: Response): (h': Handler)
    requires WellFormed(response)
    ensures h'.hosts == h.hosts && h'.attempted == h.attempted
    ensures h'.retryCalls == h.retryCalls
    ensures h'.hasRetryCallback == h.hasRetryCallback && h'.hasFinishedCallback == h.hasFinishedCallback
    ensures h'.finishedCalls == h.finishedCalls + (if h.hasFinishedCallback then 1 else 0)
    ensures response.opcode == OpcodeResult ==>
      h'.futureCalls == h.futureCalls + [SetResult(response.body)]
        + (if |h.hosts| > 0 then [SetClient(h.hosts[0])] else [])
    ensures response.opcode == OpcodeError ==>
      h'.futureCalls == h.futureCalls + [SetError(Server(response.body.code), response.body.message)]
    ensures response.opcode != OpcodeResult && response.opcode != OpcodeError ==>
      h'.futureCalls == h.futureCalls + [SetError(LibUnexpectedResponse, "Unexpected response")]
  {
    var completed :=
      if response.opcode == OpcodeResult then
        var withResult := Call(h, SetResult(response.body));
        match CurrentHost(withResult)
        case Some(host) => Call(withResult, SetClient(host))
        case None => withResult
      else if response.opcode == OpcodeError then
        Call(h, SetError(Server(response.body.code), response.body.message))
      else
        Call(h, SetError(LibUnexpectedResponse, "Unexpected response"));
    NotifyFinished(completed)
  }

  /** A transport error: the code and message go to the future unchanged. */
  function OnError(h: Handler, code: CassError, message: string): (h': Handler)
    ensures h'.futureCalls == h.futureCalls + [SetError(code, message)]
    ensures h'.finishedCalls == h.finishedCalls + (if h.hasFinishedCallback then 1 else 0)
    ensures h' == h.(futureCalls := h'.futureCalls, finishedCalls := h'.finishedCalls)
  {
    NotifyFinished(Call(h, SetError(code, message)))
  }

  /** The request timed out. */
  function OnTimeout(h: Handler): (h': Handler)
    ensures h'.futureCalls == h.futureCalls + [SetError(LibRequestTimedOut, "Request timed out")]
    ensures h'.finishedCalls == h.finishedCalls + (if h.hasFinishedCallback then 1 else 0)
    ensures h' == h.(futureCalls := h'.futureCalls, finishedCalls := h'.finishedCalls)
  {
    NotifyFinished(Call(h, SetError(LibRequestTimedOut, "Request timed out")))
  }

  /*
   * Runs of events. The transport, the timer and the retry policy drive the
   * handler by calling its entry points in some order; a run is such a
   * sequence of calls.
   */

  datatype Event =
    | Respond(response: Response)
    | TransportError(code: CassError, message: string)
    | Timeout
    | RetryRequested(kind: RetryType)
    | Advance

  /** Events that complete the request: they notify the finished callback. */
  predicate IsTerminal(e: Event) {
    e.Respond? || e.TransportError? || e.Timeout?
  }

  predicate ValidEvent(e: Event) {
    e.Respond? ==> WellFormed(e.response)
  }

  function Step(h: Handler, e: Event): Handler
    requires ValidEvent(e)
  {
    match e
    case Respond(response) => OnSet(h, response)
    case TransportError(code, message) => OnError(h, code, message)
    case Timeout => OnTimeout(h)
    case RetryRequested(kind) => Retry(h, kind)
    case Advance => NextHost(h)
  }

  function Run(h: Handler, events: seq<Event>): Handler
    requires forall i :: 0 <= i < |events| ==> ValidEvent(events[i])
    decreases |events|
  {
    if |events| == 0 then h else Run(Step(h, events[0]), events[1..])
  }

  /** The number of terminal events in a run. */
  function TerminalCount(events: seq<Event>): nat
  {
    if |events| == 0 then 0
    else (if IsTerminal(events[0]) then 1 else 0) + TerminalCount(events[1..])
  }

  /**
   * The outcome a one-shot future reports for a log of calls: the first result
   * or error set, later ones being discarded by the future.
   */
  function Outcome(log: seq<FutureCall>): (r: Option<FutureCall>)
    ensures r.None? ==> forall i :: 0 <= i < |log| ==> !IsCompletion(log[i])
    ensures r.Some? ==> IsCompletion(r.value) && r.value in log
  {
    if |log| == 0 then None
    else if IsCompletion(log[0]) then Some(log[0])
    else
      var r := Outcome(log[1..]);
      assert forall i :: 1 <= i < |log| ==> log[i] == log[1..][i - 1];
      r
  }

  /**
   * The outcome is the first result or error call: when the call at index `i`
   * is one and no earlier call is, the outcome is that call.
   */
  lemma {:induction false} OutcomeIsFirst(log: seq<FutureCall>, i: nat)
    requires i < |log| && IsCompletion(log[i])
    requires forall j :: 0 <= j < i ==> !IsCompletion(log[j])
    ensures Outcome(log) == Some(log[i])
    decreases i
  {
    if i > 0 {
      assert !IsCompletion(log[0]);
      assert forall j :: 0 <= j < i - 1 ==> log[1..][j] == log[j + 1];
      OutcomeIsFirst(log[1..], i - 1);
    }
  }

  /** Calls appended after the first result or error do not change the outcome. */
  lemma {:induction false} OutcomeOfPrefix(log: seq<FutureCall>, extra: seq<FutureCall>)
    requires Outcome(log).Some?
    ensures Outcome(log + extra) == Outcome(log)
    decreases |log|
  {
    if !IsCompletion(log[0]) {
      assert (log + extra)[1..] == log[1..] + extra;
      OutcomeOfPrefix(log[1..], extra);
    }
  }

  /**
   * One entry point appends to the future's log, and the appended calls hold
   * exactly one result or error call when the event is terminal, none
   * otherwise.
   */
  lemma StepCompletions(h: Handler, e: Event)
    requires ValidEvent(e)
    ensures h.futureCalls <= Step(h, e).futureCalls
    ensures Completions(Step(h, e).futureCalls)
            == Completions(h.futureCalls) + (if IsTerminal(e) then 1 else 0)
  {
  }

  /**
   * Over any run, the queue and the history together keep the same hosts in
   * the same order: hosts only move from the front of the queue to the end of
   * the history, and the history only grows.
   */
  lemma {:induction false} RunConservesHosts(h: Handler, events: seq<Event>)
    requires forall i :: 0 <= i < |events| ==> ValidEvent(events[i])
    ensures Run(h, events).attempted + Run(h, events).hosts == h.attempted + h.hosts
    ensures |Run(h, events).attempted| + |Run(h, events).hosts| == |h.attempted| + |h.hosts|
    ensures h.attempted <= Run(h, events).attempted
    decreases |events|
  {
    if |events| > 0 {
      var h1 := Step(h, events[0]);
      assert h1.attempted + h1.hosts == h.attempted + h.hosts;
      assert h.attempted <= h1.attempted;
      RunConservesHosts(h1, events[1..]);
    }
  }

  /**
   * Events other than `next_host` leave the queue and the history alone:
   * responses, errors, timeouts and retries never move a host.
   */
  lemma {:induction false} OnlyAdvanceMovesHosts(h: Handler, events: seq<Event>)
    requires forall i :: 0 <= i < |events| ==> ValidEvent(events[i]) && !events[i].Advance?
    ensures Run(h, events).hosts == h.hosts
    ensures Run(h, events).attempted == h.attempted
    decreases |events|
  {
    if |events| > 0 {
      OnlyAdvanceMovesHosts(Step(h, events[0]), events[1..]);
    }
  }

  /** Over any run, the future gains exactly one result or error call per terminal event. */
  lemma {:induction false} RunCompletions(h: Handler, events: seq<Event>)
    requires forall i :: 0 <= i < |events| ==> ValidEvent(events[i])
    ensures Completions(Run(h, events).futureCalls) == Completions(h.futureCalls) + TerminalCount(events)
    decreases |events|
  {
    if |events| > 0 {
      StepCompletions(h, events[0]);
      RunCompletions(Step(h, events[0]), events[1..]);
    }
  }

  /**
   * Over any run, a registered finished callback fires once per terminal
   * event, and an unregistered one never.
   */
  lemma {:induction false} RunNotifications(h: Handler, events: seq<Event>)
    requires forall i :: 0 <= i < |events| ==> ValidEvent(events[i])
    ensures Run(h, events).finishedCalls
            == h.finishedCalls + (if h.hasFinishedCallback then TerminalCount(events) else 0)
    decreases |events|
  {
    if |events| > 0 {
      var h1 := Step(h, events[0]);
      assert h1.hasFinishedCallback == h.hasFinishedCallback;
      RunNotifications(h1, events[1..]);
    }
  }

  /** Over any run, the future's log only grows. */
  lemma {:induction false} RunExtendsLog(h: Handler, events: seq<Event>)
    requires forall i :: 0 <= i < |events| ==> ValidEvent(events[i])
    ensures h.futureCalls <= Run(h, events).futureCalls
    decreases |events|
  {
    if |events| > 0 {
      StepCompletions(h, events[0]);
      RunExtendsLog(Step(h, events[0]), events[1..]);
    }
  }

  /**
   * Once the future has been given a result or an error, no later event
   * changes what a one-shot future reports.
   */
  lemma KeepsOutcome(h: Handler, events: seq<Event>)
    requires forall i :: 0 <= i < |events| ==> ValidEvent(events[i])
    requires Outcome(h.futureCalls).Some?
    ensures Outcome(Run(h, events).futureCalls) == Outcome(h.futureCalls)
  {
    var log := Run(h, events).futureCalls;
    RunExtendsLog(h, events);
    var extra := log[|h.futureCalls|..];
    assert log == h.futureCalls + extra;
    OutcomeOfPrefix(h.futureCalls, extra);
  }

  /**
   * After moving on, the current host is the second host of the queue, or
   * none when the queue held at most one host.
   */
  lemma NextHostAdvancesCurrent(h: Handler)
    ensures CurrentHost(NextHost(h)) == (if |h.hosts| > 1 then Some(h.hosts[1]) else None)
    ensures |h.hosts| > 0 ==> NextHost(h).attempted[|NextHost(h).attempted| - 1] == CurrentHost(h).value
  {
  }

  /** Retrying with the next host, queue [a, b]: a is attempted, b is current. */
  lemma NextHostOfTwo(a: Host, b: Host)
    ensures NextHost(Create([a, b])).attempted == [a]
    ensures CurrentHost(NextHost(Create([a, b]))) == Some(b)
  {
  }

  /** Queue [a]: after moving on, the queue is exhausted and there is no current host. */
  lemma NextHostOfOne(a: Host)
    ensures NextHost(Create([a])).hosts == []
    ensures CurrentHost(NextHost(Create([a]))) == None
  {
  }

  /**
   * The handler itself does not guard against a second completion: a response
   * followed by a timeout notifies a registered finished callback twice and
   * makes two completion calls into the future.
   */
  lemma NotifiesPerEvent(h: Handler, response: Response)
    requires WellFormed(response)
    requires h.hasFinishedCallback
    ensures OnTimeout(OnSet(h, response)).finishedCalls == h.finishedCalls + 2
    ensures Completions(OnTimeout(OnSet(h, response)).futureCalls) == Completions(h.futureCalls) + 2
  {
    StepCompletions(h, Respond(response));
    StepCompletions(OnSet(h, response), Timeout);
  }
}
