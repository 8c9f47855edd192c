/** The server side of the RPC protocol (`RpcMessageProcessor`): envelope check,
    method dispatch, response, then ack or reject of the request. */
module RpcProcessor {
  import opened Wrappers
  import opened Errors
  import opened PyValue
  import opened Broker
  import Registry
  import Health
  import ErrorQueue

  /** The processor's configuration. */
  datatype RpcMessageProcessor = RpcMessageProcessor(
    appName: string,
    queueName: string,
    rpcQueueName: string,
    errorQueueName: string,
    register: Registry.Register)

  /** Everything the processor consults while handling one request: queue counts,
      the register over HTTP, the integrity checker, what the error queue delivers
      during a drain, and the broker's publish facility. */
  datatype Services = Services(
    queueCount: QueueCounter,
    http: Registry.HttpClient,
    checkIntegrity: Json -> Result<Json, Error>,
    errorQueue: seq<ErrorQueue.Delivery>,
    publish: Publisher)

  /** The transport properties of an inbound request message. */
  datatype Envelope = Envelope(replyTo: Option<string>, correlationId: Option<string>)

  /** What `message.ack()` and `message.reject()` would do. */
  datatype Controls = Controls(ack: Outcome<Error>, reject: Outcome<Error>)

  /** An effect on the request message or its reply. */
  datatype Effect = Respond(publication: Publication) | Ack | Reject

  /** The result of running a method, with what a drain did to the error queue. */
  datatype Execution = Execution(queueEffects: seq<ErrorQueue.QueueEffect>, result: Result<Json, Error>)

  /** The handling of one request: error-queue effects, the effects on the request
      and its reply in order, and the exception that escaped, if any. */
  datatype Handling = Handling(queueEffects: seq<ErrorQueue.QueueEffect>, trace: seq<Effect>, escaped: Option<Error>)

  const HandledMethods: seq<string> :=
    ["health", "integrity_check", "integrity_fix", "dump_error_queue", "requeue_errors", "delete_errors"]

  const MissingMethodMessage: string := "Message body must contain method name"

  /** Python's `not x` on an optional property: None and "" are both falsy. */
  predicate Present(p: Option<string>) {
    p.Some? && |p.value| > 0
  }

  function HealthOf(p: RpcMessageProcessor): Health.FeederHealth {
    Health.FeederHealth(p.appName, p.queueName, p.rpcQueueName, p.errorQueueName)
  }

  function ErrorQueueOf(p: RpcMessageProcessor): ErrorQueue.ErrorQueueClient {
    ErrorQueue.ErrorQueueClient(p.queueName, p.errorQueueName)
  }

  /** The register's gap report: `check_integrity(max_entry())`. */
  function MissingEntries(p: RpcMessageProcessor, svc: Services): Result<Json, Error> {
    var maxEntry :- Registry.MaxEntry(p.register, svc.http);
    svc.checkIntegrity(maxEntry)
  }

  function Single(key: string, value: Json): Json {
    JDict(map[key := value])
  }

  const NothingToFix: Json := JDict(map["entries_not_found" := JList([]), "republished_entries" := JList([])])

  /** A drain of the error queue in mode `action`, its records wrapped under `key`. */
  function DrainInto(p: RpcMessageProcessor, svc: Services, action: ErrorQueue.Action, key: string): (x: Execution)
    ensures var d := ErrorQueue.DrainMessages(ErrorQueueOf(p), action, svc.queueCount, svc.publish, svc.errorQueue);
      && x.queueEffects == d.effects
      && (x.result.Ok? <==> d.result.Ok?)
      && (d.result.Err? ==> x.result.error == d.result.error)
      && (d.result.Ok? ==> x.result.value == Single(key, ErrorQueue.RecordsJson(d.result.value)))
    // dumping the error queue leaves the broker untouched
    ensures action == ErrorQueue.Retrieve ==> x.queueEffects == []
  {
    ErrorQueue.DrainAckDiscipline(ErrorQueueOf(p), action, svc.queueCount, svc.publish, svc.errorQueue);
    var d := ErrorQueue.DrainMessages(ErrorQueueOf(p), action, svc.queueCount, svc.publish, svc.errorQueue);
    Execution(d.effects, if d.result.Ok? then Ok(Single(key, ErrorQueue.RecordsJson(d.result.value))) else Err(d.result.error))
  }

  /** Runs a recognised method, or fails with "Unknown method". */
  function Run(p: RpcMessageProcessor, svc: Services, m: Json): (x: Execution)
    // only the six method names do anything; every other value fails untouched
    ensures !(m.JStr? && m.s in HandledMethods) ==>
      x == Execution([], Err(Error(RpcMessageProcessingException, "Unknown method '" + Str(m) + "'")))
    // only requeue_errors and delete_errors act on the error queue
    ensures x.queueEffects != [] ==> m == JStr("requeue_errors") || m == JStr("delete_errors")
  {
    if m == JStr("health") then
      Execution([], match Health.GenerateHealthMsg(HealthOf(p), svc.queueCount)
                    case Ok(report) => Ok(Health.ToJson(report))
                    case Err(e) => Err(e))
    else if m == JStr("integrity_check") then
      Execution([], var missing :- MissingEntries(p, svc); Ok(Single("missing_entries", missing)))
    else if m == JStr("integrity_fix") then
      Execution([], var missing :- MissingEntries(p, svc);
                    if Truthy(missing) then Registry.RepublishEntries(p.register, svc.http, missing)
                    else Ok(NothingToFix))
    else if m == JStr("dump_error_queue") then DrainInto(p, svc, ErrorQueue.Retrieve, "error_messages")
    else if m == JStr("requeue_errors") then DrainInto(p, svc, ErrorQueue.Requeue, "requeued_messages")
    else if m == JStr("delete_errors") then DrainInto(p, svc, ErrorQueue.Delete, "deleted_messages")
    else Execution([], Err(Error(RpcMessageProcessingException, "Unknown method '" + Str(m) + "'")))
  }

  /** The `try` body up to the response: the body must name a truthy method. */
  function Execute(p: RpcMessageProcessor, svc: Services, body: Json): (x: Execution)
    // anything that succeeds or touches the broker was asked for by name in a dict body
    ensures x.result.Ok? || x.queueEffects != [] ==>
      && body.JDict? && "method" in body.fields
      && body.fields["method"].JStr? && body.fields["method"].s in HandledMethods
    ensures body.JDict? && ("method" !in body.fields || !Truthy(body.fields["method"])) ==>
      x == Execution([], Err(Error(RpcMessageProcessingException, MissingMethodMessage)))
    ensures body.JDict? && "method" in body.fields && Truthy(body.fields["method"]) ==>
      x == Run(p, svc, body.fields["method"])
  {
    match Contains(body, "method")
    case Err(e) => Execution([], Err(e))
    case Ok(has) =>
      if !has then Execution([], Err(Error(RpcMessageProcessingException, MissingMethodMessage)))
      else
        match GetItem(body, "method")
        case Err(e) => Execution([], Err(e))
        case Ok(m) =>
          if !Truthy(m) then Execution([], Err(Error(RpcMessageProcessingException, MissingMethodMessage)))
          else Run(p, svc, m)
  }

  /** An RPC response document: exactly success/result/error, with the error
      populated iff success is false (and the result null then). */
  predicate WellFormedResponse(j: Json) {
    && j.JDict?
    && j.fields.Keys == {"success", "result", "error"}
    && j.fields["success"].JBool?
    && (j.fields["success"].b ==> j.fields["error"] == JNull)
    && (!j.fields["success"].b ==>
          && j.fields["result"] == JNull
          && j.fields["error"].JDict?
          && j.fields["error"].fields.Keys == {"error_message"}
          && j.fields["error"].fields["error_message"].JStr?)
  }

  function SuccessResponse(result: Json): (j: Json)
    ensures WellFormedResponse(j) && j.fields["success"] == JBool(true)
    ensures GetItem(j, "result") == Ok(result)
  {
    JDict(map["success" := JBool(true), "result" := result, "error" := JNull])
  }

  function FailureResponse(e: Error): (j: Json)
    ensures WellFormedResponse(j) && j.fields["success"] == JBool(false)
    ensures var text := j.fields["error"].fields["error_message"].s;
      StartsWith(text, "Exception occured: ") && IsSubstring(e.message, text)
  {
    var text := "Exception occured: " + Repr(e);
    StartsWithConcat("Exception occured: ", Repr(e));
    ReprInterior(e);
    SubstringAt(e.message, text, |"Exception occured: "| + |KindName(e.kind)| + 2);
    JDict(map["success" := JBool(false), "result" := JNull,
              "error" := JDict(map["error_message" := JStr(text)])])
  }

  /** A reply goes to the default exchange, routed by the request's reply_to,
      echoing its correlation id. */
  function ReplyTo(replyTo: string, correlationId: string, response: Json): Publication {
    Publication(DefaultExchange, replyTo, response, None, Some(correlationId))
  }

  /** The document reports success: its `success` field is true. */
  predicate SaysSuccess(j: Json) {
    j.JDict? && "success" in j.fields && j.fields["success"] == JBool(true)
  }

  predicate Settles(e: Effect) {
    e.Ack? || e.Reject?
  }

  /** Every reply in the trace is a well-formed response sent to `replyTo` with `correlationId`. */
  predicate RepliesTo(trace: seq<Effect>, replyTo: string, correlationId: string) {
    forall k :: 0 <= k < |trace| && trace[k].Respond? ==>
      && trace[k].publication.exchange == DefaultExchange
      && trace[k].publication.routingKey == replyTo
      && trace[k].publication.correlationId == Some(correlationId)
      && WellFormedResponse(trace[k].publication.payload)
  }

  /** An ack or reject can only be the last effect, so the request is settled at
      most once (never both acked and rejected); when nothing escapes it is settled. */
  predicate Settled(trace: seq<Effect>, escaped: Option<Error>) {
    && (forall k :: 0 <= k < |trace| - 1 ==> !Settles(trace[k]))
    && (escaped.None? ==> |trace| > 0 && Settles(trace[|trace| - 1]))
  }

  lemma SettledAfter(before: seq<Effect>, trace: seq<Effect>, escaped: Option<Error>)
    requires forall k :: 0 <= k < |before| ==> !Settles(before[k])
    requires Settled(trace, escaped)
    ensures Settled(before + trace, escaped)
  {
    if |trace| > 0 {
      forall k | 0 <= k < |before + trace| - 1
        ensures !Settles((before + trace)[k])
      {
        if k >= |before| {
          assert (before + trace)[k] == trace[k - |before|];
        }
      }
    }
  }

  /** The try block's trace followed by the except block's: settled as the except
      block leaves it, and its replies in the first two places. */
  lemma JoinBlocks(before: seq<Effect>, trace: seq<Effect>, escaped: Option<Error>)
    requires |before| <= 1 && forall k :: 0 <= k < |before| ==> !Settles(before[k])
    requires Settled(trace, escaped)
    requires escaped.Some? ==> forall k :: 0 <= k < |trace| ==> !Settles(trace[k])
    requires forall k :: 0 <= k < |trace| && trace[k].Respond? ==> k == 0
    ensures Settled(before + trace, escaped)
    ensures escaped.Some? ==> forall k :: 0 <= k < |before + trace| ==> !Settles((before + trace)[k])
    ensures forall k :: 0 <= k < |before + trace| && (before + trace)[k].Respond? ==> k < 2
  {
    SettledAfter(before, trace, escaped);
    forall k | 0 <= k < |before + trace|
      ensures (before + trace)[k] == if k < |before| then before[k] else trace[k - |before|]
    {
    }
  }

  lemma RepliesToConcat(a: seq<Effect>, b: seq<Effect>, replyTo: string, correlationId: string)
    requires RepliesTo(a, replyTo, correlationId) && RepliesTo(b, replyTo, correlationId)
    ensures RepliesTo(a + b, replyTo, correlationId)
  {
    forall k | 0 <= k < |a + b|
      ensures (a + b)[k] == if k < |a| then a[k] else b[k - |a|]
    {
    }
  }

  /** The try block after the method ran: publish the success response, then ack.
      The trace holds the reply if its publish went through; a failure of the
      method, the publish or the ack is handed on. */
  function TryBlock(result: Result<Json, Error>, replyTo: string, correlationId: string,
                    publish: Publisher, ctl: Controls): (t: (seq<Effect>, Option<Error>))
    ensures result.Err? ==> t == ([], Some(result.error))
    ensures |t.0| <= 1 && RepliesTo(t.0, replyTo, correlationId)
    ensures forall k :: 0 <= k < |t.0| ==> !Settles(t.0[k])
    ensures result.Ok? ==>
      var reply := ReplyTo(replyTo, correlationId, SuccessResponse(result.value));
      && (t.0 == [] || t.0 == [Respond(reply)])
      && (t.1.None? <==> publish(reply).Pass? && ctl.ack.Pass?)
      && (t.0 != [] && t.1.Some? ==> ctl.ack.Fail?)
      && (t.1.None? ==> t.0 == [Respond(reply)])
      && t.0 == (if publish(reply).Pass? then [Respond(reply)] else [])
  {
    match result
    case Err(e) => ([], Some(e))
    case Ok(v) =>
      var reply := ReplyTo(replyTo, correlationId, SuccessResponse(v));
      match publish(reply)
      case Fail(e) => ([], Some(e))
      case Pass =>
        match ctl.ack
        case Pass => ([Respond(reply)], None)
        case Fail(e) => ([Respond(reply)], Some(e))
  }

  /** The except block: publish the failure response for `e`, then reject. */
  function ExceptBlock(e: Error, replyTo: string, correlationId: string,
                       publish: Publisher, ctl: Controls): (t: (seq<Effect>, Option<Error>))
    ensures var failure := Respond(ReplyTo(replyTo, correlationId, FailureResponse(e)));
      && (t.0 == [] || t.0 == [failure] || t.0 == [failure, Reject])
      && (t.1.None? <==> t.0 == [failure, Reject])
      && (t.1.None? <==> publish(failure.publication).Pass? && ctl.reject.Pass?)
      && t.0 == (if publish(failure.publication).Pass?
                 then [failure] + (if ctl.reject.Pass? then [Reject] else [])
                 else [])
    ensures |t.0| <= 2 && RepliesTo(t.0, replyTo, correlationId)
    ensures Settled(t.0, t.1)
    ensures t.1.Some? ==> forall k :: 0 <= k < |t.0| ==> !Settles(t.0[k])
    ensures forall k :: 0 <= k < |t.0| && t.0[k].Respond? ==> k == 0
  {
    var failure := ReplyTo(replyTo, correlationId, FailureResponse(e));
    match publish(failure)
    case Fail(e2) => ([], Some(e2))
    case Pass =>
      match ctl.reject
      case Pass => ([Respond(failure), Reject], None)
      case Fail(e3) => ([Respond(failure)], Some(e3))
  }

  /** The respond-and-settle stage for a request with a usable envelope. */
  function Answer(result: Result<Json, Error>, replyTo: string, correlationId: string,
                  publish: Publisher, ctl: Controls): (t: (seq<Effect>, Option<Error>))
    ensures Settled(t.0, t.1)
    // an escaping exception leaves the request unsettled
    ensures t.1.Some? ==> forall k :: 0 <= k < |t.0| ==> !Settles(t.0[k])
    ensures RepliesTo(t.0, replyTo, correlationId)
    // at most two replies, and they come first
    ensures |t.0| <= 3
    ensures forall k :: 0 <= k < |t.0| && t.0[k].Respond? ==> k < 2
    ensures Ack in t.0 ==>
      result.Ok? && t.0 == [Respond(ReplyTo(replyTo, correlationId, SuccessResponse(result.value))), Ack]
    // a failed method is answered only with the failure document for its exception
    ensures result.Err? ==> forall k :: 0 <= k < |t.0| && t.0[k].Respond? ==>
      t.0[k].publication.payload == FailureResponse(result.error)
    // a success reply comes first, and only from a method that succeeded
    ensures forall k :: 0 <= k < |t.0| && t.0[k].Respond? && SaysSuccess(t.0[k].publication.payload) ==>
      k == 0 && result.Ok? && t.0[k].publication.payload == SuccessResponse(result.value)
  {
    var attempt := TryBlock(result, replyTo, correlationId, publish, ctl);
    match attempt.1
    case None =>
      assert result.Ok? && attempt.0 == [Respond(ReplyTo(replyTo, correlationId, SuccessResponse(result.value)))];
      (attempt.0 + [Ack], None)
    case Some(e) =>
      var rescue := ExceptBlock(e, replyTo, correlationId, publish, ctl);
      JoinBlocks(attempt.0, rescue.0, rescue.1);
      RepliesToConcat(attempt.0, rescue.0, replyTo, correlationId);
      (attempt.0 + rescue.0, rescue.1)
  }

  /** `process_rpc_message`. */
  function ProcessRpcMessage(p: RpcMessageProcessor, svc: Services, ctl: Controls,
                             body: Json, env: Envelope): (h: Handling)
    // a request without a reply address or correlation id is rejected, unanswered and unexecuted
    ensures !Present(env.replyTo) || !Present(env.correlationId) ==>
      h == Handling([], if ctl.reject.Pass? then [Reject] else [],
                    if ctl.reject.Pass? then None else Some(ctl.reject.error))
    ensures Settled(h.trace, h.escaped)
    ensures Replied(h) ==> Present(env.replyTo) && Present(env.correlationId)
    ensures Present(env.replyTo) && Present(env.correlationId) ==>
      RepliesTo(h.trace, env.replyTo.value, env.correlationId.value)
    // what the method did to the error queue is what the handling did to it
    ensures Present(env.replyTo) && Present(env.correlationId) ==>
      h.queueEffects == Execute(p, svc, body).queueEffects
    // at most two replies: a success reply whose ack failed, then the failure reply
    ensures |h.trace| <= 3
    // a failed method is answered only with the failure document for its exception
    ensures Present(env.replyTo) && Present(env.correlationId) && Execute(p, svc, body).result.Err? ==>
      forall k :: 0 <= k < |h.trace| && h.trace[k].Respond? ==>
        h.trace[k].publication.payload == FailureResponse(Execute(p, svc, body).result.error)
  {
    if !Present(env.replyTo) || !Present(env.correlationId) then
      match ctl.reject
      case Pass => Handling([], [Reject], None)
      case Fail(e) => Handling([], [], Some(e))
    else
      var ex := Execute(p, svc, body);
      var t := Answer(ex.result, env.replyTo.value, env.correlationId.value, svc.publish, ctl);
      Handling(ex.queueEffects, t.0, t.1)
  }

  /** The trace holds a reply. */
  predicate Replied(h: Handling) {
    exists k | 0 <= k < |h.trace| :: h.trace[k].Respond?
  }

  /** `startup_integrity_check`: nothing when no entry is missing, otherwise the
      register's answer to the republish request. */
  function StartupIntegrityCheck(p: RpcMessageProcessor, svc: Services): (r: Result<Option<Json>, Error>)
    ensures MissingEntries(p, svc).Err? ==> r == Err(MissingEntries(p, svc).error)
    ensures MissingEntries(p, svc).Ok? && !Truthy(MissingEntries(p, svc).value) ==> r == Ok(None)
    ensures MissingEntries(p, svc).Ok? && Truthy(MissingEntries(p, svc).value) ==>
      var republished := Registry.RepublishEntries(p.register, svc.http, MissingEntries(p, svc).value);
      r == match republished { case Ok(j) => Ok(Some(j)) case Err(e) => Err(e) }
  {
    var missing :- MissingEntries(p, svc);
    if Truthy(missing) then
      var result :- Registry.RepublishEntries(p.register, svc.http, missing);
      Ok(Some(result))
    else Ok(None)
  }

  // ---------------------------------------------------------------------------
  // The traces and results the processor promises.

  /** Publishing, acking and rejecting all go through. */
  ghost predicate Reliable(svc: Services, ctl: Controls) {
    (forall pub :: svc.publish(pub).Pass?) && ctl.ack.Pass? && ctl.reject.Pass?
  }

  predicate Usable(env: Envelope) {
    Present(env.replyTo) && Present(env.correlationId)
  }

  /** A method that succeeds yields exactly one success reply to reply_to on the
      default exchange, then an ack. */
  lemma SuccessTrace(p: RpcMessageProcessor, svc: Services, ctl: Controls, body: Json, env: Envelope)
    requires Usable(env) && Reliable(svc, ctl)
    requires Execute(p, svc, body).result.Ok?
    ensures var h := ProcessRpcMessage(p, svc, ctl, body, env);
      && h.escaped.None?
      && h.trace == [Respond(Publication(DefaultExchange, env.replyTo.value,
                                         SuccessResponse(Execute(p, svc, body).result.value),
                                         None, env.correlationId)), Ack]
  {
  }

  /** A method that fails yields exactly one failure reply, carrying
      "Exception occured: " and the exception, then a reject. */
  lemma FailureTrace(p: RpcMessageProcessor, svc: Services, ctl: Controls, body: Json, env: Envelope)
    requires Usable(env) && Reliable(svc, ctl)
    requires Execute(p, svc, body).result.Err?
    ensures var h := ProcessRpcMessage(p, svc, ctl, body, env);
      var e := Execute(p, svc, body).result.error;
      && h.escaped.None?
      && h.trace == [Respond(ReplyTo(env.replyTo.value, env.correlationId.value, FailureResponse(e))), Reject]
      && FailureResponse(e).fields["error"].fields["error_message"] == JStr("Exception occured: " + Repr(e))
  {
  }

  /** If the ack fails after the success reply went out, the except block replies
      a second time, with the ack's exception, and rejects the request. */
  lemma AckFailureRepliesTwice(result: Result<Json, Error>, replyTo: string, correlationId: string,
                               publish: Publisher, ctl: Controls)
    requires result.Ok? && ctl.ack.Fail? && ctl.reject.Pass?
    requires publish(ReplyTo(replyTo, correlationId, SuccessResponse(result.value))).Pass?
    requires publish(ReplyTo(replyTo, correlationId, FailureResponse(ctl.ack.error))).Pass?
    ensures Answer(result, replyTo, correlationId, publish, ctl)
         == ([Respond(ReplyTo(replyTo, correlationId, SuccessResponse(result.value))),
              Respond(ReplyTo(replyTo, correlationId, FailureResponse(ctl.ack.error))),
              Reject], None)
  {
    var success := Respond(ReplyTo(replyTo, correlationId, SuccessResponse(result.value)));
    var failure := Respond(ReplyTo(replyTo, correlationId, FailureResponse(ctl.ack.error)));
    assert TryBlock(result, replyTo, correlationId, publish, ctl) == ([success], Some(ctl.ack.error));
    assert ExceptBlock(ctl.ack.error, replyTo, correlationId, publish, ctl) == ([failure, Reject], None);
    assert [success] + [failure, Reject] == [success, failure, Reject];
  }

  /** `startup_integrity_check` does what `integrity_fix` does: the same failures,
      the same republish answer when entries are missing, and None where
      `integrity_fix` reports that there was nothing to fix. */
  lemma StartupAgreesWithIntegrityFix(p: RpcMessageProcessor, svc: Services)
    ensures var start := StartupIntegrityCheck(p, svc);
      var fix := Execute(p, svc, RequestBody("integrity_fix")).result;
      && (start.Err? <==> fix.Err?)
      && (start.Err? ==> start.error == fix.error)
      && (start.Ok? && start.value.Some? ==> fix == Ok(start.value.value))
      && (start == Ok(None) ==> fix == Ok(NothingToFix))
  {
  }

  /** A body without a truthy `method` fails with "Message body must contain method name". */
  lemma MissingMethod(p: RpcMessageProcessor, svc: Services, fields: map<string, Json>)
    requires "method" !in fields || !Truthy(fields["method"])
    ensures Execute(p, svc, JDict(fields)) == Execution([], Err(Error(RpcMessageProcessingException, MissingMethodMessage)))
  {
  }

  /** A request naming a method runs that method; an empty name counts as missing. */
  lemma NamedMethod(p: RpcMessageProcessor, svc: Services, m: string)
    ensures Execute(p, svc, RequestBody(m))
         == if m == "" then Execution([], Err(Error(RpcMessageProcessingException, MissingMethodMessage)))
            else Run(p, svc, JStr(m))
  {
  }

  /** Any name outside the six handled methods fails with "Unknown method '<m>'". */
  lemma UnknownMethod(p: RpcMessageProcessor, svc: Services, m: string)
    requires m != "" && m !in HandledMethods
    ensures Execute(p, svc, RequestBody(m)) == Execution([], Err(Error(RpcMessageProcessingException, "Unknown method '" + m + "'")))
  {
  }

  /** `health` passes the report through unchanged: a BAD report is still a success. */
  lemma HealthResult(p: RpcMessageProcessor, svc: Services)
    ensures var r := Health.GenerateHealthMsg(HealthOf(p), svc.queueCount);
      Execute(p, svc, RequestBody("health")).result == match r { case Ok(report) => Ok(Health.ToJson(report)) case Err(e) => Err(e) }
  {
  }

  /** `integrity_check` answers `{"missing_entries": check_integrity(max_entry)}`. */
  lemma IntegrityCheckResult(p: RpcMessageProcessor, svc: Services)
    ensures var missing := MissingEntries(p, svc);
      Execute(p, svc, RequestBody("integrity_check")).result
        == match missing { case Ok(m) => Ok(Single("missing_entries", m)) case Err(e) => Err(e) }
  {
  }

  /** `integrity_fix` with gaps passes the register's republish answer through unchanged. */
  lemma IntegrityFixRepublishes(p: RpcMessageProcessor, svc: Services)
    requires MissingEntries(p, svc).Ok? && Truthy(MissingEntries(p, svc).value)
    ensures Execute(p, svc, RequestBody("integrity_fix")).result
         == Registry.RepublishEntries(p.register, svc.http, MissingEntries(p, svc).value)
  {
  }

  /** `integrity_fix` without gaps answers empty lists and never asks for a republish:
      the answer is the same whatever the register would say to a POST. */
  lemma IntegrityFixNothingMissing(p: RpcMessageProcessor, svc: Services, http': Registry.HttpClient)
    requires MissingEntries(p, svc).Ok? && !Truthy(MissingEntries(p, svc).value)
    requires http'(Registry.InfoRequest(p.register)) == svc.http(Registry.InfoRequest(p.register))
    ensures Execute(p, svc, RequestBody("integrity_fix")).result == Ok(NothingToFix)
    ensures Execute(p, svc.(http := http'), RequestBody("integrity_fix")).result == Ok(NothingToFix)
  {
    assert MissingEntries(p, svc.(http := http')) == MissingEntries(p, svc);
  }

  /** The three error-queue methods drain in their own mode and wrap the records
      under their own key. */
  lemma DrainResults(p: RpcMessageProcessor, svc: Services)
    ensures Execute(p, svc, RequestBody("dump_error_queue")) == DrainInto(p, svc, ErrorQueue.Retrieve, "error_messages")
    ensures Execute(p, svc, RequestBody("requeue_errors")) == DrainInto(p, svc, ErrorQueue.Requeue, "requeued_messages")
    ensures Execute(p, svc, RequestBody("delete_errors")) == DrainInto(p, svc, ErrorQueue.Delete, "deleted_messages")
  {
  }

  /** The failure text the tests expect for a body without a method, to the character. */
  lemma MissingMethodText()
    ensures "Exception occured: " + Repr(Error(RpcMessageProcessingException, MissingMethodMessage))
         == "Exception occured: " + ("RpcMessageProcessingException" + "(" + ("'" + "Message body must contain method name" + "'") + ")")
  {
    ReprOfMissingMethod();
  }

  /** The failure text the tests expect for the method "rhubarb", to the character. */
  lemma UnknownMethodText()
    ensures "Exception occured: " + Repr(Error(RpcMessageProcessingException, "Unknown method 'rhubarb'"))
         == "Exception occured: " + ("RpcMessageProcessingException" + "(" + ("\"" + "Unknown method 'rhubarb'" + "\"") + ")")
  {
    QuotedUnknownRhubarb();
  }

  lemma QuotedUnknownRhubarb()
    ensures Quoted("Unknown method 'rhubarb'") == "\"" + "Unknown method 'rhubarb'" + "\""
  {
    var unknown := "Unknown method 'rhubarb'";
    assert unknown[15] == '\'';
    assert '"' !in unknown by {
      assert unknown == "Unkno" + "wn me" + "thod " + "'rhub" + "arb'";
    }
  }
}
