# feeder-utilities: a Dafny model of the feeder RPC protocol

feeder-utilities is shared plumbing for the register feeders. A feeder consumes
requests from an RPC queue. `RpcMessageProcessor` answers six methods: `health`,
`integrity_check`, `integrity_fix`, `dump_error_queue`, `requeue_errors` and
`delete_errors`. `FeederRpcClient` publishes such a request and waits for the
reply whose correlation id matches. The command-line `main` turns that reply
into an exit code.

The model covers:

- the dispatcher's envelope check, method dispatch, success and failure
  responses, and ack or reject (`rpc_processor.dfy`);
- `startup_integrity_check` (`rpc_processor.dfy`);
- the health report (`health.dfy`);
- the register client (`registry.dfy`);
- the bounded error-queue drain and its three callbacks (`error_queue.dfy`);
- the client's allow-list, request, correlation-id matching, wait loop and exit
  code (`rpc_client.dfy`);
- one full round trip between client and dispatcher (`protocol.dfy`).

Python values are modelled in `pyvalue.dfy` as a JSON-like datatype. It keeps
Python's truthiness and its `in` and `[]` behaviour, including the TypeError
and KeyError cases. Exceptions live in `errors.dfy`: an exception is a kind
plus a message, and `repr` is modelled with Python's quote choice. The broker,
the HTTP client, the integrity checker and the queue counter are passed in as
function parameters. So are the outcome of every publish, ack and reject, the
sequence of deliveries a drain sees, and the replies a client's wait sees
together with the exception its connection may raise. Every failure they can
report follows the same path as in the source.

Four behaviours of the code are easy to miss:

- A request can get two replies. If `message.ack()` raises after the success
  reply went out, the except block sends a failure reply and then rejects.
  `RpcProcessor.Answer` allows at most two replies, and any ack or reject comes
  last.
- A request can be left unsettled. If the failure reply cannot be published,
  or the reject raises, the exception escapes the handler. `Handling.escaped`
  records it.
- The client stops waiting only on a matching reply whose payload is not
  `None`. A matching reply with a null payload keeps the loop running.
- A reply without a correlation id makes `on_response` raise KeyError instead
  of being ignored.

## Model

| member | source | states |
|---|---|---|
| RpcProcessor.ProcessRpcMessage | feeder_utilities/rpc_message_processor.py:34-110 | A request missing reply_to or correlation_id (absent or empty) is only rejected: nothing is executed or published. Otherwise every reply goes to the default exchange, routed by reply_to, with the correlation id echoed and a well-formed response. An ack or reject can only come last, so a request is never both acked and rejected. A request that is not settled has an exception escaping. The error-queue effects are exactly those of the method that ran. When the method failed, every reply is the failure document for its exception, whatever the broker does. |
| RpcProcessor.Answer | feeder_utilities/rpc_message_processor.py:93-110 | The request is settled exactly when no exception escapes. An ack happens only after the method succeeded, and the trace is then exactly [success reply, ack]. There are at most two replies, and they come before any ack or reject. A failed method is answered only with the failure document for its exception. A reply that reports success comes first, and only from a method that succeeded, carrying its value. |
| RpcProcessor.TryBlock | feeder_utilities/rpc_message_processor.py:93-97 | A method failure goes straight to the except block with nothing published. On success the trace holds the success reply exactly when its publish went through. The block completes exactly when both that publish and the ack go through. |
| RpcProcessor.ExceptBlock | feeder_utilities/rpc_message_processor.py:99-110 | The trace is the failure reply if its publish went through, followed by a reject if the reject went through. Nothing escapes exactly when both steps go through. |
| RpcProcessor.SuccessResponse | feeder_utilities/rpc_message_processor.py:93 | The success document has exactly the keys success, result and error. success is true, error is null, and result is the method's value. |
| RpcProcessor.FailureResponse | feeder_utilities/rpc_message_processor.py:101-106 | The failure document has success false, result null, and an error object whose only key is error_message. The message text starts with "Exception occured: " and contains the exception's own message. |
| RpcProcessor.SuccessTrace | feeder_utilities/rpc_message_processor.py:93-97 | When the broker works, a method that succeeds gives exactly one success reply to reply_to, then an ack. |
| RpcProcessor.FailureTrace | feeder_utilities/rpc_message_processor.py:99-110 | When the broker works, a method that fails gives exactly one reply, "Exception occured: " followed by repr of the exception, then a reject. |
| RpcProcessor.AckFailureRepliesTwice | feeder_utilities/rpc_message_processor.py:93-110 | If the ack raises after the success reply went out, the trace is [success reply, failure reply carrying the ack's exception, reject], and nothing escapes. |
| RpcProcessor.Execute | feeder_utilities/rpc_message_processor.py:44-47 | A dict body without a truthy `method` fails with the missing-method exception. A truthy one runs that method. Anything that succeeds or touches the error queue came from a dict body naming one of the six methods. |
| RpcProcessor.Run | feeder_utilities/rpc_message_processor.py:48-91 | Any value other than the six method names fails with "Unknown method '<m>'" and does nothing. Only requeue_errors and delete_errors change the error queue. |
| RpcProcessor.MissingMethod | feeder_utilities/rpc_message_processor.py:46-47 | A body with no `method` key, or a falsy one, fails with RpcMessageProcessingException("Message body must contain method name"). |
| RpcProcessor.NamedMethod | feeder_utilities/rpc_message_processor.py:46-91 | A request `{"method": m}` runs m. An empty name counts as missing. |
| RpcProcessor.UnknownMethod | feeder_utilities/rpc_message_processor.py:90-91 | Any non-empty name outside the six methods fails with "Unknown method '<m>'". |
| RpcProcessor.HealthResult | feeder_utilities/rpc_message_processor.py:48-53 | `health` answers with the report in JSON form. A BAD report is still a success. A failure while counting queues becomes the method's failure. |
| RpcProcessor.IntegrityCheckResult | feeder_utilities/rpc_message_processor.py:54-59 | `integrity_check` answers `{"missing_entries": check_integrity(max_entry)}`. A failure of the register or the checker propagates. |
| RpcProcessor.IntegrityFixRepublishes | feeder_utilities/rpc_message_processor.py:60-68 | When entries are missing, `integrity_fix` answers with the register's republish response, unchanged. |
| RpcProcessor.IntegrityFixNothingMissing | feeder_utilities/rpc_message_processor.py:69-71 | When no entries are missing, `integrity_fix` answers with two empty lists and never sends the republish request. The answer stays the same whatever the register would say to it. |
| RpcProcessor.DrainResults | feeder_utilities/rpc_message_processor.py:72-89 | dump_error_queue, requeue_errors and delete_errors drain in retrieve, requeue and delete mode. Each wraps its records under its own key. |
| RpcProcessor.DrainInto | feeder_utilities/rpc_message_processor.py:72-89 | The method's result holds exactly the drain's records, each as {body, headers}, or the drain's exception. The broker effects are the drain's effects, and dump_error_queue has none. |
| RpcProcessor.StartupIntegrityCheck | feeder_utilities/rpc_message_processor.py:22-32 | Returns None when nothing is missing. Otherwise it returns the register's republish answer. Failures of the register or the checker propagate. |
| RpcProcessor.StartupAgreesWithIntegrityFix | feeder_utilities/rpc_message_processor.py:22-32 | startup_integrity_check fails exactly when integrity_fix fails, with the same exception. When it republishes, it returns the same answer integrity_fix does. When it returns the model's None (nothing missing), integrity_fix reports nothing to fix. |
| RpcProcessor.MissingMethodText | tests/test_rpc_message_processor.py:24-40 | The failure text for a body without a method, character for character. |
| RpcProcessor.UnknownMethodText | tests/test_rpc_message_processor.py:42-57 | The failure text for the method "rhubarb". repr switches to double quotes because the message contains a single quote. |
| Errors.ReprInterior | feeder_utilities/rpc_message_processor.py:105-106 | repr(e) is the exception's class name, an opening parenthesis and a quote, then the message unchanged, then the closing quote and parenthesis. |
| Errors.Repr | feeder_utilities/rpc_message_processor.py:105-106 | repr(e) is the class name followed by the quoted message in parentheses. |
| Errors.QuotedLiteral | feeder_utilities/rpc_message_processor.py:105-106 | A Python string literal is the text between two equal quote characters. Double quotes are chosen exactly when the text holds a single quote and no double quote. |
| Health.GenerateHealthMsg | feeder_utilities/health.py:14-30 | A failure counting the main or RPC queue propagates. On the error queue only NotFound is absorbed, and its size becomes null. The fields are copied from the counts. The status is BAD exactly when the error queue holds a positive number of messages. |
| Health.ToJson | feeder_utilities/health.py:23-29 | The health document has exactly the five report keys and reads back as the same report. |
| Health.ToJsonRoundTrip | feeder_utilities/health.py:23-27 | The health document has exactly the five keys app, status, queue_size, rpc_queue_size and error_queue_size. Reading it back gives the same report. |
| Health.FromJsonFaithful | feeder_utilities/health.py:23-27 | Any document that reads as a report is exactly that report's document. |
| Health.StatusField | feeder_utilities/health.py:28-29 | In a consistent report, the document's status is "BAD" exactly when error_queue_size is a positive count. Otherwise it is "OK". |
| Health.HealthExamples | tests/test_health.py:10-40 | With counts 1 and 1, a missing error queue gives OK with null, an empty one gives OK with 0, and one message gives BAD with 1. |
| Registry.MaxEntry | feeder_utilities/dependencies/register.py:12-20 | A transport failure propagates. A status other than 200 raises RegisterException "Unable to retrieve register information…". A dictionary without total-entries raises "Register response not recognised…". The call succeeds exactly when the answer is a 200 with a decodable body that holds total-entries, and it returns that value. |
| Registry.RepublishEntries | feeder_utilities/dependencies/register.py:22-29 | A status other than 200 raises RegisterException "Unable to republish enties…". The call succeeds exactly on a 200 with a decodable body, and returns that body. |
| Registry.RepublishRequestCarries | feeder_utilities/dependencies/register.py:23-25 | The republish request is a POST to url + "/entries/republish" with a JSON content type. Its body holds exactly the entries and the configured routing key. |
| Registry.MaxEntryOfWellFormedInfo | tests/dependencies/test_register.py:9-16 | A 200 answer `{"total-entries": n}` gives n. |
| ErrorQueue.OnErrorMessage | feeder_utilities/dependencies/rabbitmq.py:321-331 | Retrieve records the message and does nothing else. Requeue publishes the body to the working queue and then acks. If that ack fails, the body has already been republished and the ack's exception is raised. Delete only acks. A callback succeeds exactly when its publish and ack go through, and it acks only in requeue or delete mode, with an ack that passes. |
| ErrorQueue.Sweep | feeder_utilities/dependencies/rabbitmq.py:333-344 | Records at most budget messages and at most one per delivery. |
| ErrorQueue.DrainMessages | feeder_utilities/dependencies/rabbitmq.py:333-344 | A failure to count the error queue propagates. A successful drain records no more messages than the count snapshot. |
| ErrorQueue.RetrieveSweep | feeder_utilities/dependencies/rabbitmq.py:321-322 | A retrieve drain records exactly the leading deliveries within the budget, in order. It stops at a timeout, fails on a broken delivery, and never acks or publishes. |
| ErrorQueue.DeleteSweep | feeder_utilities/dependencies/rabbitmq.py:329-331 | A delete drain records the leading deliveries within the budget and acks each one once, in the same order. |
| ErrorQueue.RequeueSweep | feeder_utilities/dependencies/rabbitmq.py:324-327 | A requeue drain republishes and then acks each leading delivery within the budget, in order, and records them in the same order. |
| ErrorQueue.SweepAckDiscipline | feeder_utilities/dependencies/rabbitmq.py:321-331 | In every drain, retrieve never acks, delete never publishes, and a requeue ack always comes right after its own republish. |
| ErrorQueue.DrainAckDiscipline | feeder_utilities/dependencies/rabbitmq.py:333-344 | The same discipline holds for a whole `drain_messages`, whatever the count snapshot says. |
| ErrorQueue.SnapshotBound | feeder_utilities/dependencies/rabbitmq.py:336-339 | Messages arriving after the count snapshot cannot change the drain. |
| ErrorQueue.TimeoutEndsDrain | feeder_utilities/dependencies/rabbitmq.py:339-343 | A timeout before the count is used up ends the drain normally, with the messages recorded before it. Only delete and requeue need their acks to pass, and only requeue needs its republishes to pass; a retrieve drain ends this way whatever the broker says. |
| ErrorQueue.SweepUntilTimeout | feeder_utilities/dependencies/rabbitmq.py:339-343 | A sweep whose budget outlasts the deliveries before a timeout stops at that timeout and returns exactly the messages delivered before it. Acks must pass for delete and requeue, and republishes for requeue; retrieve needs neither. |
| RpcClient.OnResponse | feeder_utilities/feeder_rpc_client.py:18-20 | A reply without a correlation id raises KeyError. A matching reply sets the response to its payload. Any other reply leaves the client unchanged. |
| RpcClient.NewClient | feeder_utilities/feeder_rpc_client.py:10-16 | A new client has no response and no correlation id, so no reply can set its response. |
| RpcClient.Await | feeder_utilities/feeder_rpc_client.py:39-41 | The wait changes only the response. It returns a non-null response. It fails only on a reply lacking its correlation id, or with the exception the connection raises while waiting. When the replies run out and the connection has not raised, the response is still None. |
| RpcClient.CallMethod | feeder_utilities/feeder_rpc_client.py:22-41 | A method outside the allow-list fails with "Method '<m>' not allowed", leaves the client unchanged and publishes nothing. An allowed method resets the response to None and installs the fresh correlation id. It publishes {"method": m} to the configured exchange and routing key, with the callback queue as reply_to and that id. The request counts as published exactly when the publish goes through. A failed publish leaves the reset client behind. A published call ends as the wait on the reset client ends. |
| RpcClient.AwaitFirstRelevant | feeder_utilities/feeder_rpc_client.py:18-20 | The wait returns the payload of the first matching reply with a non-null payload. It fails if an earlier reply has no correlation id. If no such reply arrives, it fails with the connection's exception when there is one and keeps waiting otherwise. |
| RpcClient.IgnorableRepliesDoNotMatter | feeder_utilities/feeder_rpc_client.py:19 | Removing a non-matching reply from anywhere in the stream does not change how the wait ends. |
| RpcClient.ConnectionFailureEndsCall | feeder_utilities/feeder_rpc_client.py:36-41 | When entering the consumer or `drain_events` raises before an answering reply arrives, `call` ends with that exception. |
| RpcClient.StaleReplyIgnored | feeder_utilities/feeder_rpc_client.py:25-26 | A reply to an earlier call, still carrying the old correlation id, cannot answer a new call. |
| RpcClient.ExitStatus | feeder_utilities/feeder_rpc_client.py:59-62 | The exit code is 0 exactly when success is truthy and, for `health`, result.status is "OK". A falsy success exits 1. A missing success, or for `health` a missing result or status, raises that lookup's exception. |
| RpcClient.ExitExamples | tests/test_feeder_rpc_client.py:60-87 | A failed response exits 1, a health response with status BAD exits 1, and a successful integrity_check exits 0. |
| Protocol.CallIsAnswered | feeder_utilities/feeder_rpc_client.py:22-41 | When the broker works, the dispatcher replies to the client's request on the callback queue. The client's call then returns exactly the document the dispatcher built for that method's outcome, even when stale replies arrived first and whatever the connection raises after the answer. |
| Protocol.ProcessorDelivers | feeder_utilities/rpc_message_processor.py:93-110 | When the broker works, a request with a usable envelope puts exactly one reply on its reply_to queue: the response to the method, under the request's correlation id. |
| Protocol.ExitOfResponse | feeder_utilities/feeder_rpc_client.py:59-62 | For a dispatcher response, the exit code is 0 exactly when the method succeeded and, for `health`, reported status "OK". Every failure response exits 1. |
| Protocol.HealthExit | feeder_utilities/feeder_rpc_client.py:61-62 | A health call exits 0 exactly when the report's status is OK. |

## Left out

- Logging: every `logger` call is left out. The message counts the dispatcher
  logs are never returned.
- Connections, `Consumer`, `Producer` and queue declaration: left out. A
  publish, ack or reject is modelled only by whether it succeeds. For the
  client's wait, an exception from entering the consumer or from
  `drain_events` is modelled as one optional exception after the replies
  drained before it.
- `publish_message`, the `Emitter` retry policy and `get_queue_count`: not part
  of this model. Their results are parameters: a publish outcome and a queue
  counter that may fail, for example with NotFound.
- `Worker`, the consumer loop and the feeders' own `check_integrity`: not part
  of this model. The integrity checker is a parameter.
- argparse and the printing in `main`: left out. Only the exit-code decision is
  modelled.
- Publishing is a pure function of the publication, so two identical
  publications always get the same outcome. No proof relies on a publish
  failing or passing differently on a repeated attempt.
- The random `uuid()` correlation id and the callback queue name are
  parameters of the call and the client.
- RpcClient.Await: the wait is unbounded in the source. The model reads a finite
  sequence of replies, then the connection's exception if it raises one, and
  returns `Waiting` when the replies run out without one.
- ErrorQueue.Sweep: each `drain_events(timeout=1)` call delivers at most one
  message, and the end of the delivery sequence counts as a timeout. The
  one-second timeout itself is not modelled.
- ErrorQueue.DeleteSweep: stated only for deliveries whose acks all succeed.
  With a failing ack, `Sweep` and `OnErrorMessage` still model the failure
  path.
- ErrorQueue.RequeueSweep: stated only when every requeue publish and every ack
  succeeds. The failure path is modelled in `OnErrorMessage`.
- RpcProcessor.SuccessTrace, RpcProcessor.FailureTrace: stated only when every
  publish, ack and reject succeeds. When the broker fails,
  `RpcProcessor.Answer` still fixes what the replies say (a failed method is
  answered only with its failure document, a success reply only first and only
  for a method that succeeded) and the ack and reject order;
  `RpcProcessor.ProcessRpcMessage` lifts the failure-document clause. The exact
  trace for each broker failure is given by `RpcProcessor.TryBlock` and
  `RpcProcessor.ExceptBlock`.
- RpcProcessor.StartupIntegrityCheck: the result is `Option<Json>`, so a
  republish answer that is the JSON `null` comes back as `Some(JNull)`, while
  Python returns `None` for it just as it does when nothing is missing. The
  model keeps the two cases apart; `RpcProcessor.StartupAgreesWithIntegrityFix`
  speaks of the model's `None` only.
- Errors.ReprInterior: Python's `repr` also escapes backslashes and control
  characters. The model only chooses the quote character, so a message holding
  both quote kinds or an escape does not get Python's exact text.
- PyValue.Str: only strings, integers, booleans and None are rendered the way
  Python's `format` renders them. Lists and dictionaries get a placeholder, so
  "Unknown method" texts for such values are not exact.
- Floats and JSON number formatting are left out: integers are unbounded
  `int`s.
- The JSON encoding of request and response bodies (`json.dumps`, the kombu
  serializer) is left out. Bodies are modelled as structured values, and an
  undecodable HTTP body is a JSONDecodeError.
