/**
 * The sidecar bridge (server/src/bridge.rs): the lifecycle state of the JVM
 * sidecar, the request-id counter, the table of requests awaiting a response,
 * and the dispatch of each response read from the sidecar to the request it
 * answers.
 *
 * The reader and writer tasks, channels and timeouts are sequentialised: a
 * call that waits for a response (`start`, `request`) is given the response
 * the reader task dispatches while it waits, if any; no matching response
 * means the timeout fires. The oneshot channel of a pending entry is its id.
 */
module SidecarBridge {
  import opened Wrappers
  import opened Text
  import opened Json
  import opened Errors
  import opened JsonRpc
  import opened Configuration
  import opened Seqs

  datatype SidecarState = Starting | Ready | Degraded | Restarting | Stopped

  /** The `{:?}` rendering of a state, as quoted in `NotReady`. */
  function StateName(s: SidecarState): string {
    match s
    case Starting => "Starting"
    case Ready => "Ready"
    case Degraded => "Degraded"
    case Restarting => "Restarting"
    case Stopped => "Stopped"
  }

  /** The params of the `initialize` request `start` sends. */
  function InitParams(config: Config): Value {
    Obj(map[
      "projectRoot" := Str(""),
      "classpath" := Arr([]),
      "compilerFlags" := Arr(seq(|config.compilerFlags|, i requires 0 <= i < |config.compilerFlags| => Str(config.compilerFlags[i]))),
      "jdkHome" := Str(config.javaHome.GetOr(""))])
  }

  // ---------------------------------------------------------------- dispatch

  /** What a matched response resolves its request to. */
  function Outcome(response: Response): Result<Value, Error> {
    match response.error
    case Some(e) => Err(Bridge(MalformedResponse("error " + IntToDecimal(e.code) + ": " + e.message)))
    case None => Ok(response.result.GetOr(Null))
  }

  /**
   * `dispatch_response`: the pending table afterwards, and the id and result
   * handed to the waiting request, if one was waiting for this response.
   */
  function Dispatched(pending: seq<u64>, response: Response): (seq<u64>, Option<(u64, Result<Value, Error>)>) {
    match response.id
    case None => (pending, None)
    case Some(id) =>
      match IndexOf(pending, id)
      case None => (pending, None)
      case Some(k) => (pending[..k] + pending[k + 1..], Some((id, Outcome(response))))
  }

  /** A response without an id, or with an id nobody waits for, changes nothing and resolves nothing. */
  lemma DispatchUnmatched(pending: seq<u64>, response: Response)
    requires response.id.None? || response.id.value !in pending
    ensures Dispatched(pending, response) == (pending, None)
  {
  }

  /**
   * A response whose id is pending removes exactly one entry with that id (the
   * oldest), keeps every other entry in its order, and resolves that request.
   */
  lemma DispatchMatched(pending: seq<u64>, response: Response)
    requires response.id.Some? && response.id.value in pending
    ensures var (after, delivered) := Dispatched(pending, response);
      var id := response.id.value;
      && delivered == Some((id, Outcome(response)))
      && |after| == |pending| - 1
      && multiset(after) == multiset(pending) - multiset{id}
      && exists k :: 0 <= k < |pending| && pending[k] == id && id !in pending[..k] && after == pending[..k] + pending[k + 1..]
  {
    var id := response.id.value;
    var k := IndexOf(pending, id).value;
    assert pending == pending[..k] + [id] + pending[k + 1..];
  }

  /**
   * The reply to the request just registered (its id was not pending before)
   * takes that entry off again and leaves the table as it was before the request.
   */
  lemma {:induction false} OwnReplyResolves(pending: seq<u64>, id: u64, response: Response)
    requires id !in pending && response.id == Some(id)
    ensures Dispatched(pending + [id], response) == (pending, Some((id, Outcome(response))))
  {
    var before := pending + [id];
    assert before[..|pending|] == pending;
    IndexOfFirst(before, id, |pending|);
    assert before[..|pending|] + before[|pending| + 1..] == pending;
  }

  /** An error response resolves to `MalformedResponse("error {code}: {message}")`, whatever else it carries. */
  lemma ErrorResponseResolvesToErr(id: u64, code: i32, message: string)
    ensures var e := Obj(map["code" := Num(code), "message" := Str(message)]);
      var r := DecodeResponse(Obj(map["jsonrpc" := Str("2.0"), "id" := Num(id), "error" := e]));
      r.Some? && Outcome(r.value) == Err(Bridge(MalformedResponse("error " + IntToDecimal(code) + ": " + message)))
  {
    ErrorResponseDecodes(id, code, message);
  }

  /** A success response resolves to its result; a result that is absent or `null` resolves to `null`. */
  lemma SuccessResolvesToResult(response: Response)
    requires response.error.None?
    ensures response.result.Some? ==> Outcome(response) == Ok(response.result.value)
    ensures response.result.None? ==> Outcome(response) == Ok(Null)
  {
  }

  /** A response without a `result` member, or with `"result": null`, resolves to `Ok(null)`. */
  lemma MissingResultIsNull(id: u64, result: Option<Value>)
    requires result.None? || result == Some(Null)
    ensures var f := map["jsonrpc" := Str("2.0"), "id" := Num(id)];
      var v := Obj(if result.Some? then f["result" := Null] else f);
      DecodeResponse(v).Some? && Outcome(DecodeResponse(v).value) == Ok(Null)
  {
    var f := map["jsonrpc" := Str("2.0"), "id" := Num(id)];
    var g := if result.Some? then f["result" := Null] else f;
    assert RequiredField(g, "jsonrpc", DecodeString) == Some("2.0");
    assert OptionalField(g, "id", DecodeU64) == Some(Some(id));
    assert OptionalField(g, "result", DecodeAny) == Some(None);
  }

  // ---------------------------------------------------------------- the bridge

  class Bridge {
    var state: SidecarState
    /** The `AtomicU64` counter: the next id to hand out. */
    var requestId: u64
    /** The ids of `PendingRequest`s, oldest first. */
    var pending: seq<u64>
    /** Whether `request_tx` has a live receiver. */
    var requestChannelOpen: bool
    /** Every request and notification the writer task has received, in order. */
    var sent: seq<Request>
    const config: Config
    /** Whether the counter has wrapped around 2^64 (only then can ids repeat). */
    ghost var wrapped: bool

    /** Every pending id was handed out before the counter's current value. */
    ghost predicate Valid()
      reads this
    {
      !wrapped ==> 1 <= requestId && forall i :: 0 <= i < |pending| ==> pending[i] < requestId
    }

    /**
     * `Bridge::new`: stopped, first id 1, nothing pending. The receiver of
     * `request_tx` is dropped on creation, so the channel starts closed.
     */
    constructor (config: Config)
      ensures Valid() && !wrapped
      ensures state == Stopped && requestId == 1 && pending == [] && sent == []
      ensures !requestChannelOpen && this.config == config
    {
      state := Stopped;
      requestId := 1;
      pending := [];
      requestChannelOpen := false;
      sent := [];
      this.config := config;
      wrapped := false;
    }

    /** `next_id`: `fetch_add(1)`, which returns the old value and wraps at 2^64. */
    method NextId() returns (id: u64)
      requires Valid()
      modifies this`requestId, this`wrapped
      ensures Valid()
      ensures id == old(requestId) && requestId == (old(requestId) + 1) % U64_LIMIT
      ensures !wrapped ==> id !in pending && requestId == id + 1
      ensures wrapped == (old(wrapped) || old(requestId) == U64_LIMIT - 1)
    {
      id := requestId;
      if requestId == U64_LIMIT - 1 {
        wrapped := true;
        requestId := 0;
      } else {
        requestId := requestId + 1;
      }
    }

    /** The search loop and `remove` of `dispatch_response`. */
    method DispatchResponse(response: Response) returns (delivered: Option<(u64, Result<Value, Error>)>)
      requires Valid()
      modifies this`pending
      ensures Valid()
      ensures (pending, delivered) == Dispatched(old(pending), response)
    {
      if response.id.None? {
        return None;
      }
      var id := response.id.value;
      var k := 0;
      while k < |pending| && pending[k] != id
        invariant 0 <= k <= |pending| && id !in pending[..k]
      {
        assert pending[..k + 1] == pending[..k] + [pending[k]];
        k := k + 1;
      }
      if k == |pending| {
        assert pending[..k] == pending;
        return None;
      }
      IndexOfFirst(pending, id, k);
      pending := pending[..k] + pending[k + 1..];
      delivered := Some((id, Outcome(response)));
    }

    /**
     * Waiting on the one-shot channel of the request with id `id`, just
     * registered after `prior`: the reader dispatches `reply` (if any), and the
     * wait ends with the outcome only when that dispatch resolved this id. After
     * the id counter wraps around, an older entry still pending under the same
     * id is the one resolved (the first match in `pending`), and this request
     * then times out.
     */
    method AwaitReply(id: u64, ghost prior: seq<u64>, reply: Option<Response>) returns (outcome: Option<Result<Value, Error>>)
      requires Valid() && pending == prior + [id]
      modifies this`pending
      ensures Valid()
      ensures reply.None? ==> pending == prior + [id] && outcome.None?
      ensures reply.Some? ==>
        (var (after, delivered) := Dispatched(prior + [id], reply.value);
         pending == after &&
         outcome == (if delivered.Some? && delivered.value.0 == id then Some(delivered.value.1) else None))
      ensures reply.Some? && reply.value.id == Some(id) && id !in prior ==>
        (pending == prior && outcome == Some(Outcome(reply.value)))
    {
      outcome := None;
      if reply.Some? {
        if reply.value.id == Some(id) && id !in prior {
          OwnReplyResolves(prior, id, reply.value);
        }
        var delivered := DispatchResponse(reply.value);
        if delivered.Some? && delivered.value.0 == id {
          outcome := Some(delivered.value.1);
        }
      }
    }

    /**
     * `start` as written: the state becomes `Starting`; the `initialize`
     * request is registered and goes out on the writer task's own channel;
     * `Ready` follows only a successful response to it. `request_tx` is left
     * as it was.
     */
    method StartAsWritten(spawnError: Option<string>, reply: Option<Response>) returns (r: Result<(), Error>)
      requires Valid()
      modifies this
      ensures Valid() && requestChannelOpen == old(requestChannelOpen)
      ensures spawnError.Some? ==>
        (r == Err(Bridge(SpawnFailed(spawnError.value))) && state == Starting &&
         pending == old(pending) && sent == old(sent) && requestId == old(requestId))
      ensures spawnError.None? ==>
        (requestId == (old(requestId) + 1) % U64_LIMIT &&
         sent == old(sent) + [NewRequest(old(requestId), "initialize", Some(InitParams(config)))])
      ensures spawnError.None? && reply.None? ==>
        (pending == old(pending) + [old(requestId)] && r == Err(Bridge(Timeout(30000))) && state == Starting)
      ensures spawnError.None? && reply.Some? && reply.value.id == Some(old(requestId)) && old(requestId) !in old(pending) ==>
        (pending == old(pending) &&
         (Outcome(reply.value).Ok? ==> r == Ok(())) &&
         (Outcome(reply.value).Err? ==> r == Err(Outcome(reply.value).error)))
      ensures spawnError.None? && reply.Some? ==>
        (var (after, delivered) := Dispatched(old(pending) + [old(requestId)], reply.value);
         pending == after &&
         if delivered.Some? && delivered.value.0 == old(requestId) then
           (delivered.value.1.Ok? ==> r == Ok(())) && (delivered.value.1.Err? ==> r == Err(delivered.value.1.error))
         else
           r == Err(Bridge(Timeout(30000))) && state == Starting)
      ensures r.Ok? <==> state == Ready
      ensures state == Ready || state == Starting
    {
      state := Starting;
      if spawnError.Some? {
        return Err(Bridge(SpawnFailed(spawnError.value)));
      }
      var id := NextId();
      var request := NewRequest(id, "initialize", Some(InitParams(config)));
      pending := pending + [id];
      sent := sent + [request];
      var outcome := AwaitReply(id, old(pending), reply);
      if outcome.Some? {
        match outcome.value
        case Ok(_) =>
          state := Ready;
          r := Ok(());
        case Err(e) =>
          r := Err(e);
      } else {
        r := Err(Bridge(Timeout(30000)));
      }
    }

    /**
     * `start` as evidently intended: the same, and once the writer task runs,
     * `request_tx` is its channel, so later requests reach the sidecar.
     */
    method Start(spawnError: Option<string>, reply: Option<Response>) returns (r: Result<(), Error>)
      requires Valid()
      modifies this
      ensures Valid()
      ensures requestChannelOpen == (spawnError.None? || old(requestChannelOpen))
      ensures spawnError.Some? ==>
        (r == Err(Bridge(SpawnFailed(spawnError.value))) && state == Starting &&
         pending == old(pending) && sent == old(sent) && requestId == old(requestId))
      ensures spawnError.None? ==> sent == old(sent) + [NewRequest(old(requestId), "initialize", Some(InitParams(config)))]
      ensures spawnError.None? ==> requestId == (old(requestId) + 1) % U64_LIMIT
      ensures spawnError.None? && reply.None? ==>
        (pending == old(pending) + [old(requestId)] && r == Err(Bridge(Timeout(30000))) && state == Starting)
      ensures spawnError.None? && reply.Some? && reply.value.id == Some(old(requestId)) && old(requestId) !in old(pending) ==>
        (pending == old(pending) &&
         (Outcome(reply.value).Ok? ==> r == Ok(())) &&
         (Outcome(reply.value).Err? ==> r == Err(Outcome(reply.value).error)))
      ensures spawnError.None? && reply.Some? ==>
        (var (after, delivered) := Dispatched(old(pending) + [old(requestId)], reply.value);
         pending == after &&
         if delivered.Some? && delivered.value.0 == old(requestId) then
           (delivered.value.1.Ok? ==> r == Ok(())) && (delivered.value.1.Err? ==> r == Err(delivered.value.1.error))
         else
           r == Err(Bridge(Timeout(30000))) && state == Starting)
      ensures r.Ok? <==> state == Ready
      ensures state == Ready || state == Starting
    {
      r := StartAsWritten(spawnError, reply);
      if spawnError.None? {
        requestChannelOpen := true;
      }
    }

    /**
     * `request`: refused with `NotReady` unless the sidecar is ready; otherwise
     * one pending entry with a fresh id is added before sending, and it stays
     * when the send fails or the wait times out.
     */
    method Request(method_: string, params: Option<Value>, reply: Option<Response>) returns (r: Result<Value, Error>)
      requires Valid()
      modifies this`requestId, this`wrapped, this`pending, this`sent
      ensures Valid()
      ensures old(state) != Ready ==>
        (r == Err(Bridge(NotReady("sidecar is " + StateName(old(state))))) &&
         pending == old(pending) && sent == old(sent) && requestId == old(requestId))
      ensures old(state) == Ready ==> requestId == (old(requestId) + 1) % U64_LIMIT
      ensures old(state) == Ready && !old(requestChannelOpen) ==>
        (r == Err(Bridge(Crashed("request channel closed"))) &&
         pending == old(pending) + [old(requestId)] && sent == old(sent))
      ensures old(state) == Ready && old(requestChannelOpen) ==>
        sent == old(sent) + [NewRequest(old(requestId), method_, params)]
      ensures (old(state) == Ready && old(requestChannelOpen) && reply.Some? && reply.value.id == Some(old(requestId)) &&
               old(requestId) !in old(pending)) ==>
        (r == Outcome(reply.value) && pending == old(pending))
      ensures old(state) == Ready && old(requestChannelOpen) && reply.None? ==>
        (r == Err(Bridge(Timeout(60000))) && pending == old(pending) + [old(requestId)])
      ensures old(state) == Ready && old(requestChannelOpen) && reply.Some? ==>
        (var (after, delivered) := Dispatched(old(pending) + [old(requestId)], reply.value);
         pending == after &&
         r == (if delivered.Some? && delivered.value.0 == old(requestId) then delivered.value.1
               else Err(Bridge(Timeout(60000)))))
    {
      if state != Ready {
        return Err(Bridge(NotReady("sidecar is " + StateName(state))));
      }
      var id := NextId();
      pending := pending + [id];
      if !requestChannelOpen {
        return Err(Bridge(Crashed("request channel closed")));
      }
      sent := sent + [NewRequest(id, method_, params)];
      var outcome := AwaitReply(id, old(pending), reply);
      if outcome.Some? {
        r := outcome.value;
      } else {
        r := Err(Bridge(Timeout(60000)));
      }
    }

    /** `notify`: sends without checking the state, without an id and without a pending entry. */
    method Notify(method_: string, params: Option<Value>) returns (r: Result<(), Error>)
      modifies this`sent
      ensures requestChannelOpen ==> r == Ok(()) && sent == old(sent) + [Notification(method_, params)]
      ensures !requestChannelOpen ==> r == Err(Bridge(Crashed("request channel closed"))) && sent == old(sent)
    {
      if !requestChannelOpen {
        return Err(Bridge(Crashed("request channel closed")));
      }
      sent := sent + [Notification(method_, params)];
      r := Ok(());
    }

    /**
     * `shutdown`: nothing to do when stopped; otherwise one id is used for a
     * `shutdown` request (sent if the channel is open, its failure ignored) and
     * the state becomes `Stopped`. The pending table is left alone.
     */
    method Shutdown() returns (r: Result<(), Error>)
      requires Valid()
      modifies this`state, this`requestId, this`wrapped, this`sent
      ensures Valid() && r == Ok(()) && state == Stopped
      ensures old(state) == Stopped ==> requestId == old(requestId) && sent == old(sent)
      ensures old(state) != Stopped ==> requestId == (old(requestId) + 1) % U64_LIMIT
      ensures old(state) != Stopped ==>
        (sent == old(sent) + (if requestChannelOpen then [NewRequest(old(requestId), "shutdown", None)] else []))
    {
      if state == Stopped {
        return Ok(());
      }
      var id := NextId();
      if requestChannelOpen {
        sent := sent + [NewRequest(id, "shutdown", None)];
      }
      state := Stopped;
      r := Ok(());
    }

    /** The reader task at end of the sidecar's output: degraded, unless already stopped. */
    method OnReaderEof()
      modifies this`state
      ensures state == if old(state) == Stopped then Stopped else Degraded
    {
      if state != Stopped {
        state := Degraded;
      }
    }
  }

  // ---------------------------------------------------------------- scenarios

  /** A new bridge hands out 1 and then 2, and is stopped with nothing pending. */
  method FirstIds(config: Config) returns (state: SidecarState, id1: u64, id2: u64, pendingCount: nat)
    ensures state == Stopped && pendingCount == 0
    ensures id1 == 1 && id2 == id1 + 1
  {
    var b := new Bridge(config);
    state := b.state;
    pendingCount := |b.pending|;
    id1 := b.NextId();
    id2 := b.NextId();
  }

  /**
   * With `start` as written, a sidecar that answers `initialize` makes the
   * bridge ready, yet the next `request` fails with `Crashed`, leaving its
   * pending entry behind, because `request_tx` never had a receiver.
   */
  method RequestAfterStartAsWritten(config: Config, method_: string)
    returns (started: Result<(), Error>, r: Result<Value, Error>, pendingAfter: seq<u64>)
    ensures started == Ok(())
    ensures r == Err(Bridge(Crashed("request channel closed")))
    ensures pendingAfter == [2]
  {
    var b := new Bridge(config);
    started := b.StartAsWritten(None, Some(Response("2.0", Some(1), Some(Null), None)));
    r := b.Request(method_, None, Some(Response("2.0", Some(2), Some(Bool(true)), None)));
    pendingAfter := b.pending;
  }

  /** With `start` as intended, the same exchange delivers the request and resolves it with the sidecar's result. */
  method RequestAfterStart(config: Config, method_: string)
    returns (started: Result<(), Error>, r: Result<Value, Error>, sentAfter: seq<Request>, pendingAfter: seq<u64>)
    ensures started == Ok(())
    ensures r == Ok(Bool(true))
    ensures pendingAfter == []
    ensures |sentAfter| == 2 && sentAfter[1] == NewRequest(2, method_, None)
  {
    var b := new Bridge(config);
    started := b.Start(None, Some(Response("2.0", Some(1), Some(Null), None)));
    r := b.Request(method_, None, Some(Response("2.0", Some(2), Some(Bool(true)), None)));
    sentAfter := b.sent;
    pendingAfter := b.pending;
  }
}
