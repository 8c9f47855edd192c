/** The client side of the RPC protocol (`FeederRpcClient`): the allow-list guard,
    the request, the correlation-id match on replies, and the CLI exit code. */
module RpcClient {
  import opened Wrappers
  import opened Errors
  import opened PyValue
  import opened Broker

  const AllowedMethods: seq<string> :=
    ["health", "integrity_check", "integrity_fix", "dump_error_queue", "requeue_errors", "delete_errors"]

  /** A client: where requests go, its private callback queue, and the state of the
      outstanding call. A stored response of JSON null is Python's `None`. */
  datatype FeederRpcClient = FeederRpcClient(
    exchange: string,
    routingKey: string,
    callbackQueue: string,
    response: Json,
    correlationId: Option<string>)

  /** A reply delivered on the callback queue; a missing correlation id means the
      property is absent. */
  datatype Reply = Reply(correlationId: Option<string>, payload: Json)

  /** The state of a fresh client: no response, no outstanding correlation id. */
  function NewClient(exchange: string, routingKey: string, callbackQueue: string): (c: FeederRpcClient)
    ensures c.response == JNull && c.correlationId.None?
    // with no call outstanding, no reply can set a response
    ensures forall r: Reply :: r.correlationId.Some? ==> OnResponse(c, r) == Ok(c)
  {
    FeederRpcClient(exchange, routingKey, callbackQueue, JNull, None)
  }

  /** A reply belongs to the outstanding call exactly when its correlation id is
      the one the client holds. */
  predicate Matches(cl: FeederRpcClient, r: Reply) {
    r.correlationId.Some? && cl.correlationId == r.correlationId
  }

  /** `on_response`: adopt the payload of a matching reply and ignore any other;
      a reply without a correlation id raises KeyError. */
  function OnResponse(cl: FeederRpcClient, r: Reply): (res: Result<FeederRpcClient, Error>)
    ensures res.Err? <==> r.correlationId.None?
    ensures res.Ok? && Matches(cl, r) ==> res.value == cl.(response := r.payload)
    ensures res.Ok? && !Matches(cl, r) ==> res.value == cl
  {
    match r.correlationId
    case None => Err(Error(KeyError, "correlation_id"))
    case Some(id) => if Some(id) == cl.correlationId then Ok(cl.(response := r.payload)) else Ok(cl)
  }

  /** How a call ended: with a response, still waiting when the replies ran out,
      or with an exception. */
  datatype CallOutcome = Answered(payload: Json) | Waiting | Failed(error: Error)

  /** The request for `m`: `{"method": m}` to the configured exchange and routing
      key, with the callback queue as reply_to and the call's correlation id. */
  function Request(cl: FeederRpcClient, m: string): Publication {
    Publication(cl.exchange, cl.routingKey, RequestBody(m), Some(cl.callbackQueue), cl.correlationId)
  }

  /** The wait loop `while self.response is None: drain_events()`, over the finite
      sequence of replies that arrive. `raised` is the exception the connection
      raises once those replies are drained (entering the consumer, or a
      `drain_events` call), if it raises at all; nothing after it is ever seen. */
  function Await(cl: FeederRpcClient, replies: seq<Reply>, raised: Option<Error>): (w: (FeederRpcClient, CallOutcome))
    ensures w.0 == cl.(response := w.0.response)
    ensures w.1.Answered? ==> w.1.payload != JNull && w.1.payload == w.0.response
    ensures w.1.Waiting? ==> w.0.response == JNull && raised.None?
    // the wait fails only with a reply lacking its id, or with the connection's exception
    ensures w.1.Failed? ==> w.1.error == Error(KeyError, "correlation_id") || raised == Some(w.1.error)
    decreases |replies|
  {
    if cl.response != JNull then (cl, Answered(cl.response))
    else if |replies| == 0 then
      (match raised
       case None => (cl, Waiting)
       case Some(e) => (cl, Failed(e)))
    else
      match OnResponse(cl, replies[0])
      case Err(e) => (cl, Failed(e))
      case Ok(next) => Await(next, replies[1..], raised)
  }

  /** The client as `call` leaves it before publishing: no response, the fresh id. */
  function Armed(cl: FeederRpcClient, freshId: string): FeederRpcClient {
    cl.(response := JNull, correlationId := Some(freshId))
  }

  /** The result of `call`: the client's state afterwards, the request it
      published if any, and how the call ended. */
  datatype Call = Call(client: FeederRpcClient, published: Option<Publication>, outcome: CallOutcome)

  /** `call(m)`: refuse a method outside the allow-list before anything else; then
      reset the response, install the fresh correlation id, publish the request
      and wait for the matching reply. */
  function CallMethod(cl: FeederRpcClient, m: string, freshId: string, publish: Publisher,
                      replies: seq<Reply>, raised: Option<Error>): (c: Call)
    ensures m !in AllowedMethods ==>
      c == Call(cl, None, Failed(Error(Exception, "Method '" + m + "' not allowed")))
    ensures m in AllowedMethods ==>
      && c.client.correlationId == Some(freshId)
      && c.client.exchange == cl.exchange && c.client.routingKey == cl.routingKey
      && c.client.callbackQueue == cl.callbackQueue
      && (var request := Publication(cl.exchange, cl.routingKey, RequestBody(m), Some(cl.callbackQueue), Some(freshId));
          && (c.published.Some? <==> publish(request).Pass?)
          && (c.published.Some? ==> c.published.value == request))
      && (c.published.None? ==> c.outcome.Failed?)
      // a failed publish leaves the reset state behind; a published call waits on it
      && (c.published.None? ==> c.client == Armed(cl, freshId))
      && (c.published.Some? ==>
            var w := Await(Armed(cl, freshId), replies, raised);
            c.client == w.0 && c.outcome == w.1)
  {
    if m !in AllowedMethods then
      Call(cl, None, Failed(Error(Exception, "Method '" + m + "' not allowed")))
    else
      var armed := Armed(cl, freshId);
      var request := Request(armed, m);
      match publish(request)
      case Fail(e) => Call(armed, None, Failed(e))
      case Pass =>
        var w := Await(armed, replies, raised);
        Call(w.0, Some(request), w.1)
  }

  // ---------------------------------------------------------------------------
  // What the wait loop returns, read off the replies.

  /** A reply that ends the wait: matching, with a payload other than null. */
  predicate Answers(id: string, r: Reply) {
    r.correlationId == Some(id) && r.payload != JNull
  }

  /** A reply the wait passes over: it has a correlation id and does not answer. */
  predicate Ignorable(id: string, r: Reply) {
    r.correlationId.Some? && !Answers(id, r)
  }

  /** The wait returns the payload of the first reply that is not ignorable, fails
      if that reply has no correlation id, and if there is none it fails with the
      connection's exception or keeps waiting. */
  lemma {:induction false} AwaitFirstRelevant(cl: FeederRpcClient, replies: seq<Reply>, raised: Option<Error>, k: nat)
    requires cl.response == JNull && cl.correlationId.Some?
    requires k <= |replies|
    requires forall j :: 0 <= j < k ==> Ignorable(cl.correlationId.value, replies[j])
    requires k == |replies| || !Ignorable(cl.correlationId.value, replies[k])
    ensures Await(cl, replies, raised).1
         == if k == |replies| then (if raised.Some? then Failed(raised.value) else Waiting)
            else if replies[k].correlationId.None? then Failed(Error(KeyError, "correlation_id"))
            else Answered(replies[k].payload)
  {
    if k == 0 {
      if |replies| > 0 && replies[0].correlationId.Some? {
        assert OnResponse(cl, replies[0]) == Ok(cl.(response := replies[0].payload));
      }
    } else {
      var next := OnResponse(cl, replies[0]).value;
      assert next.response == JNull && next.correlationId == cl.correlationId;
      forall j | 0 <= j < k - 1
        ensures Ignorable(cl.correlationId.value, replies[1..][j])
      {
        assert replies[1..][j] == replies[j + 1];
      }
      AwaitFirstRelevant(next, replies[1..], raised, k - 1);
    }
  }

  /** A reply that does not answer the outstanding call can be dropped from
      anywhere in the stream without changing how the wait ends. */
  lemma {:induction false} IgnorableRepliesDoNotMatter(cl: FeederRpcClient, before: seq<Reply>, r: Reply, after: seq<Reply>,
                                                        raised: Option<Error>)
    requires cl.response == JNull && cl.correlationId.Some?
    requires Ignorable(cl.correlationId.value, r)
    ensures Await(cl, before + [r] + after, raised).1 == Await(cl, before + after, raised).1
  {
    var id := cl.correlationId.value;
    if |before| == 0 {
      assert before + [r] + after == [r] + after;
      assert before + after == after;
      assert ([r] + after)[1..] == after;
      var next := OnResponse(cl, r).value;
      assert next.response == JNull && next.correlationId == cl.correlationId;
      assert Await(cl, [r] + after, raised) == Await(next, after, raised);
      AwaitIgnoresResponseState(next, cl, after, raised);
    } else {
      var x := before[0];
      assert (before + [r] + after)[0] == x && (before + after)[0] == x;
      assert (before + [r] + after)[1..] == before[1..] + [r] + after;
      assert (before + after)[1..] == before[1..] + after;
      match OnResponse(cl, x)
      case Err(_) =>
      case Ok(next) =>
        if next.response == JNull {
          IgnorableRepliesDoNotMatter(next, before[1..], r, after, raised);
        }
    }
  }

  /** Two waiting clients with the same correlation id end the same way. */
  lemma AwaitIgnoresResponseState(a: FeederRpcClient, b: FeederRpcClient, replies: seq<Reply>, raised: Option<Error>)
    requires a.response == JNull && b.response == JNull && a.correlationId == b.correlationId
    ensures Await(a, replies, raised).1 == Await(b, replies, raised).1
    decreases |replies|
  {
    if |replies| > 0 && replies[0].correlationId.Some? {
      var na, nb := OnResponse(a, replies[0]).value, OnResponse(b, replies[0]).value;
      if na.response == JNull {
        AwaitIgnoresResponseState(na, nb, replies[1..], raised);
      }
    }
  }

  /** A reply still carrying the id of an earlier call never answers a call
      that installed a different, fresh id. */
  lemma StaleReplyIgnored(cl: FeederRpcClient, m: string, freshId: string, publish: Publisher, stale: Reply,
                          replies: seq<Reply>, raised: Option<Error>)
    requires m in AllowedMethods && publish(Request(Armed(cl, freshId), m)).Pass?
    requires stale.correlationId == cl.correlationId && cl.correlationId != Some(freshId)
    requires cl.correlationId.Some?
    ensures CallMethod(cl, m, freshId, publish, [stale] + replies, raised).outcome
         == CallMethod(cl, m, freshId, publish, replies, raised).outcome
  {
    var armed := Armed(cl, freshId);
    IgnorableRepliesDoNotMatter(armed, [], stale, replies, raised);
    assert [] + [stale] + replies == [stale] + replies;
    assert [] + replies == replies;
  }

  /** An exception from the connection while no answer has arrived ends the call
      with that exception. */
  lemma ConnectionFailureEndsCall(cl: FeederRpcClient, m: string, freshId: string, publish: Publisher,
                                  replies: seq<Reply>, e: Error)
    requires m in AllowedMethods && publish(Request(Armed(cl, freshId), m)).Pass?
    requires forall j :: 0 <= j < |replies| ==> Ignorable(freshId, replies[j])
    ensures CallMethod(cl, m, freshId, publish, replies, Some(e)).outcome == Failed(e)
  {
    AwaitFirstRelevant(Armed(cl, freshId), replies, Some(e), |replies|);
  }

  // ---------------------------------------------------------------------------
  // The command-line exit code.

  /** The exit decision of `main`: 1 when the response reports failure, 1 when a
      health call's result status is not "OK", 0 otherwise; a response lacking
      the fields it reads raises instead. */
  function ExitStatus(m: string, response: Json): (r: Result<int, Error>)
    ensures r.Ok? ==> r.value == 0 || r.value == 1
    ensures r == Ok(0) <==>
      && GetItem(response, "success").Ok? && Truthy(GetItem(response, "success").value)
      && (m == "health" ==>
            && GetItem(response, "result").Ok?
            && GetItem(GetItem(response, "result").value, "status") == Ok(JStr("OK")))
    ensures GetItem(response, "success").Ok? && !Truthy(GetItem(response, "success").value) ==> r == Ok(1)
    // reading a field the response lacks raises
    ensures GetItem(response, "success").Err? ==> r == Err(GetItem(response, "success").error)
    ensures GetItem(response, "success").Ok? && Truthy(GetItem(response, "success").value) && m == "health" ==>
      var result := GetItem(response, "result");
      && (result.Err? ==> r == Err(result.error))
      && (result.Ok? && GetItem(result.value, "status").Err? ==> r == Err(GetItem(result.value, "status").error))
  {
    var success :- GetItem(response, "success");
    if !Truthy(success) then Ok(1)
    else if m == "health" then
      var result :- GetItem(response, "result");
      var status :- GetItem(result, "status");
      if status != JStr("OK") then Ok(1) else Ok(0)
    else Ok(0)
  }

  /** The exit codes the tests check: a failed response exits 1, and so does a
      health response whose status is BAD. */
  lemma ExitExamples()
    ensures ExitStatus("health", JDict(map["a" := JStr("response"), "success" := JBool(false)])) == Ok(1)
    ensures ExitStatus("health", JDict(map["a" := JStr("response"), "success" := JBool(true),
                                          "result" := JDict(map["status" := JStr("BAD")])])) == Ok(1)
    ensures ExitStatus("integrity_check", JDict(map["a" := JStr("response"), "success" := JBool(true)])) == Ok(0)
  {
  }
}
