/** The feeder health report (`FeederHealth.generate_health_msg`). */
module Health {
  import opened Wrappers
  import opened Errors
  import opened PyValue
  import opened Broker

  datatype Status = OK | BAD

  /** The five fields of a health report; an absent error queue has no size. */
  datatype HealthReport = HealthReport(
    app: string,
    status: Status,
    queueSize: nat,
    rpcQueueSize: nat,
    errorQueueSize: Option<nat>)

  /** The application name and the three queues a health report looks at. */
  datatype FeederHealth = FeederHealth(appName: string, queueName: string, rpcQueueName: string, errorQueueName: string)

  /** A report is BAD exactly when its error queue holds at least one message. */
  predicate Consistent(r: HealthReport) {
    r.status == BAD <==> r.errorQueueSize.Some? && r.errorQueueSize.value > 0
  }

  /** Counts the three queues and classifies the result. A failure counting the
      main or rpc queue propagates; on the error queue only NotFound is absorbed. */
  function GenerateHealthMsg(h: FeederHealth, count: QueueCounter): (r: Result<HealthReport, Error>)
    ensures var q, rq, eq := count(h.queueName), count(h.rpcQueueName), count(h.errorQueueName);
      && (r.Ok? <==> q.Ok? && rq.Ok? && (eq.Ok? || eq.error.kind == NotFound))
      && (q.Err? ==> r == Err(q.error))
      && (q.Ok? && rq.Err? ==> r == Err(rq.error))
      && (q.Ok? && rq.Ok? && eq.Err? && eq.error.kind != NotFound ==> r == Err(eq.error))
      && (r.Ok? ==>
            && r.value.app == h.appName
            && r.value.queueSize == q.value
            && r.value.rpcQueueSize == rq.value
            && r.value.errorQueueSize == (if eq.Ok? then Some(eq.value) else None)
            && (r.value.status == BAD <==> eq.Ok? && eq.value > 0)
            && Consistent(r.value))
  {
    var queueSize :- count(h.queueName);
    var rpcQueueSize :- count(h.rpcQueueName);
    var errorCount := count(h.errorQueueName);
    if errorCount.Err? && errorCount.error.kind != NotFound then
      Err(errorCount.error)
    else
      var errorQueueSize := if errorCount.Ok? then Some(errorCount.value) else None;
      var status := if errorQueueSize.Some? && errorQueueSize.value > 0 then BAD else OK;
      Ok(HealthReport(h.appName, status, queueSize, rpcQueueSize, errorQueueSize))
  }

  function StatusName(s: Status): string {
    match s
    case OK => "OK"
    case BAD => "BAD"
  }

  const ReportKeys: set<string> := {"app", "status", "queue_size", "rpc_queue_size", "error_queue_size"}

  /** The report as the JSON object the RPC response carries. */
  function ToJson(r: HealthReport): (j: Json)
    ensures j.JDict? && j.fields.Keys == ReportKeys
    ensures FromJson(j) == Some(r)
  {
    JDict(map[
      "app" := JStr(r.app),
      "status" := JStr(StatusName(r.status)),
      "queue_size" := JInt(r.queueSize),
      "rpc_queue_size" := JInt(r.rpcQueueSize),
      "error_queue_size" := match r.errorQueueSize { case Some(n) => JInt(n) case None => JNull }])
  }

  function StatusFrom(j: Json): Option<Status> {
    if j == JStr("OK") then Some(OK) else if j == JStr("BAD") then Some(BAD) else None
  }

  function CountFrom(j: Json): Option<nat> {
    if j.JInt? && j.i >= 0 then Some(j.i) else None
  }

  /** Reads a health report back from its JSON object: exactly the five keys,
      each holding a value of the right shape. */
  function FromJson(j: Json): Option<HealthReport> {
    if !j.JDict? || j.fields.Keys != ReportKeys then None
    else
      var f := j.fields;
      var status := StatusFrom(f["status"]);
      var queueSize := CountFrom(f["queue_size"]);
      var rpcQueueSize := CountFrom(f["rpc_queue_size"]);
      var errorSize := f["error_queue_size"];
      if !f["app"].JStr? || status.None? || queueSize.None? || rpcQueueSize.None? then None
      else if errorSize == JNull then
        Some(HealthReport(f["app"].s, status.value, queueSize.value, rpcQueueSize.value, None))
      else if CountFrom(errorSize).Some? then
        Some(HealthReport(f["app"].s, status.value, queueSize.value, rpcQueueSize.value, Some(CountFrom(errorSize).value)))
      else None
  }

  /** The JSON form of a report has exactly the five report keys and decodes back
      to the same report. */
  lemma ToJsonRoundTrip(r: HealthReport)
    ensures ToJson(r).fields.Keys == ReportKeys
    ensures FromJson(ToJson(r)) == Some(r)
  {
  }

  /** A decoded report encodes back to the very document it was read from. */
  lemma FromJsonFaithful(j: Json, r: HealthReport)
    requires FromJson(j) == Some(r)
    ensures ToJson(r) == j
  {
    var f := j.fields;
    assert f["status"] == JStr(StatusName(r.status));
    assert ToJson(r).fields.Keys == f.Keys;
    forall k | k in f
      ensures ToJson(r).fields[k] == f[k]
    {
    }
  }

  /** The `status` field the client reads: "BAD" iff the error queue is non-empty. */
  lemma StatusField(r: HealthReport)
    requires Consistent(r)
    ensures GetItem(ToJson(r), "status")
         == Ok(JStr(if r.errorQueueSize.Some? && r.errorQueueSize.value > 0 then "BAD" else "OK"))
  {
  }

  /** The three cases the tests pin down (counts 1, 1 and then NotFound, 0 or 1). */
  lemma HealthExamples(h: FeederHealth, count: QueueCounter)
    requires count(h.queueName) == Ok(1) && count(h.rpcQueueName) == Ok(1)
    ensures count(h.errorQueueName) == Err(Error(NotFound, "")) ==>
      GenerateHealthMsg(h, count) == Ok(HealthReport(h.appName, OK, 1, 1, None))
    ensures count(h.errorQueueName) == Ok(0) ==>
      GenerateHealthMsg(h, count) == Ok(HealthReport(h.appName, OK, 1, 1, Some(0)))
    ensures count(h.errorQueueName) == Ok(1) ==>
      GenerateHealthMsg(h, count) == Ok(HealthReport(h.appName, BAD, 1, 1, Some(1)))
  {
  }
}
