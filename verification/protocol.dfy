/** One round of the RPC protocol, client and processor together: the client's
    request reaches the processor, the processor's reply reaches the client's
    callback queue, and the client's exit code follows from the reply. */
module Protocol {
  import opened Wrappers
  import opened Errors
  import opened PyValue
  import opened Broker
  import RpcProcessor
  import RpcClient
  import Health

  /** The replies a callback queue receives from a processor trace: every
      response published to that queue, in order. */
  function Delivered(queue: string, trace: seq<RpcProcessor.Effect>): (rs: seq<RpcClient.Reply>)
    ensures |rs| <= |trace|
  {
    if |trace| == 0 then []
    else
      var rest := Delivered(queue, trace[1..]);
      match trace[0]
      case Respond(pub) =>
        if pub.routingKey == queue then [RpcClient.Reply(pub.correlationId, pub.payload)] + rest else rest
      case _ => rest
  }

  /** The document a processor answers with for the outcome of a method. */
  function ResponseFor(result: Result<Json, Error>): Json {
    match result
    case Ok(v) => RpcProcessor.SuccessResponse(v)
    case Err(e) => RpcProcessor.FailureResponse(e)
  }

  /** The request a call publishes, read as the message the processor receives. */
  function RequestEnvelope(request: Publication): RpcProcessor.Envelope {
    RpcProcessor.Envelope(request.replyTo, request.correlationId)
  }

  /** A reply left over from an earlier call: it carries some other id. */
  predicate Stale(freshId: string, r: RpcClient.Reply) {
    r.correlationId.Some? && r.correlationId != Some(freshId)
  }

  /** With a reliable broker, a call of an allowed method is answered with exactly
      the document the processor built for that method's outcome, whatever stale
      replies reached the callback queue first and whatever the connection raises
      once the answer is in. */
  lemma {:induction false} CallIsAnswered(p: RpcProcessor.RpcMessageProcessor, svc: RpcProcessor.Services,
                                          ctl: RpcProcessor.Controls, cl: RpcClient.FeederRpcClient,
                                          m: string, freshId: string, clientPublish: Publisher,
                                          earlier: seq<RpcClient.Reply>, raised: Option<Error>)
    requires m in RpcClient.AllowedMethods && freshId != "" && cl.callbackQueue != ""
    requires RpcProcessor.Reliable(svc, ctl)
    requires forall pub :: clientPublish(pub).Pass?
    requires forall j :: 0 <= j < |earlier| ==> Stale(freshId, earlier[j])
    ensures var request := RpcClient.Request(RpcClient.Armed(cl, freshId), m);
      var h := RpcProcessor.ProcessRpcMessage(p, svc, ctl, request.payload, RequestEnvelope(request));
      var c := RpcClient.CallMethod(cl, m, freshId, clientPublish, earlier + Delivered(cl.callbackQueue, h.trace), raised);
      && c.published == Some(request)
      && c.outcome == RpcClient.Answered(ResponseFor(RpcProcessor.Execute(p, svc, request.payload).result))
  {
    var armed := RpcClient.Armed(cl, freshId);
    var request := RpcClient.Request(armed, m);
    var h := RpcProcessor.ProcessRpcMessage(p, svc, ctl, request.payload, RequestEnvelope(request));
    var answer := RpcClient.Reply(Some(freshId), ResponseFor(RpcProcessor.Execute(p, svc, request.payload).result));
    ProcessorDelivers(p, svc, ctl, request.payload, cl.callbackQueue, freshId);
    var replies := earlier + [answer];
    assert earlier + Delivered(cl.callbackQueue, h.trace) == replies;
    forall j | 0 <= j < |earlier|
      ensures RpcClient.Ignorable(freshId, replies[j])
    {
      assert replies[j] == earlier[j];
    }
    assert replies[|earlier|] == answer;
    RpcClient.AwaitFirstRelevant(armed, replies, raised, |earlier|);
  }

  /** With a reliable broker, a request with a usable envelope puts exactly one
      reply on its reply_to queue: the response to the method, under the
      request's correlation id. */
  lemma ProcessorDelivers(p: RpcProcessor.RpcMessageProcessor, svc: RpcProcessor.Services,
                          ctl: RpcProcessor.Controls, body: Json, queue: string, id: string)
    requires queue != "" && id != ""
    requires RpcProcessor.Reliable(svc, ctl)
    ensures var h := RpcProcessor.ProcessRpcMessage(p, svc, ctl, body, RpcProcessor.Envelope(Some(queue), Some(id)));
      Delivered(queue, h.trace)
        == [RpcClient.Reply(Some(id), ResponseFor(RpcProcessor.Execute(p, svc, body).result))]
  {
    var env := RpcProcessor.Envelope(Some(queue), Some(id));
    var result := RpcProcessor.Execute(p, svc, body).result;
    var reply := RpcProcessor.ReplyTo(queue, id, ResponseFor(result));
    if result.Ok? {
      RpcProcessor.SuccessTrace(p, svc, ctl, body, env);
      DeliveredPair(queue, reply, RpcProcessor.Ack);
    } else {
      RpcProcessor.FailureTrace(p, svc, ctl, body, env);
      DeliveredPair(queue, reply, RpcProcessor.Reject);
    }
  }

  /** A reply followed by a settle delivers just that reply. */
  lemma DeliveredPair(queue: string, pub: Publication, settle: RpcProcessor.Effect)
    requires pub.routingKey == queue && !settle.Respond?
    ensures Delivered(queue, [RpcProcessor.Respond(pub), settle]) == [RpcClient.Reply(pub.correlationId, pub.payload)]
  {
    assert [RpcProcessor.Respond(pub), settle][1..] == [settle];
    assert [settle][1..] == [];
  }

  /** The exit code of a call answered with a processor's response: 0 exactly when
      the method succeeded and, for "health", reported status "OK". */
  lemma ExitOfResponse(m: string, result: Result<Json, Error>)
    ensures RpcClient.ExitStatus(m, ResponseFor(result)) == Ok(0) <==>
      && result.Ok?
      && (m == "health" ==> GetItem(result.value, "status") == Ok(JStr("OK")))
    ensures result.Err? ==> RpcClient.ExitStatus(m, ResponseFor(result)) == Ok(1)
  {
    var response := ResponseFor(result);
    if result.Ok? {
      assert GetItem(response, "success") == Ok(JBool(true));
      assert GetItem(response, "result") == Ok(result.value);
    } else {
      assert GetItem(response, "success") == Ok(JBool(false));
    }
  }

  /** A health call exits 0 exactly when the report's status is OK. */
  lemma HealthExit(report: Health.HealthReport)
    ensures RpcClient.ExitStatus("health", ResponseFor(Ok(Health.ToJson(report)))) == Ok(0)
        <==> report.status == Health.OK
  {
    ExitOfResponse("health", Ok(Health.ToJson(report)));
    assert GetItem(Health.ToJson(report), "status") == Ok(JStr(Health.StatusName(report.status)));
    if report.status == Health.BAD {
      assert Health.StatusName(report.status) != "OK";
    }
  }
}
