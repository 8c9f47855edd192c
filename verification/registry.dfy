/** The register service client (`Register`): `max_entry` and `republish_entries`
    over an abstract HTTP exchange. */
module Registry {
  import opened Wrappers
  import opened Errors
  import opened PyValue

  datatype Verb = Get | Post

  /** An outgoing HTTP request; the POST body is the JSON value before `json.dumps`. */
  datatype HttpRequest = HttpRequest(verb: Verb, url: string, body: Option<Json>, headers: map<string, string>)

  /** A response: status code, raw text, and the decoded body (None when the
      text is not JSON, so that `response.json()` raises). */
  datatype HttpResponse = HttpResponse(status: int, text: string, json: Option<Json>)

  /** The `requests` session: a response, or the exception the request raised. */
  type HttpClient = HttpRequest -> Result<HttpResponse, Error>

  /** The configuration of a `Register` client. */
  datatype Register = Register(url: string, routingKey: string)

  const TotalEntries: string := "total-entries"
  const InfoUnavailable: string := "Unable to retrieve register information"
  const InfoUnrecognised: string := "Register response not recognised, did not contain 'total-entries'"
  const RepublishFailed: string := "Unable to republish enties"

  function InfoRequest(reg: Register): HttpRequest {
    HttpRequest(Get, reg.url + "/register", None, map[])
  }

  function RepublishRequest(reg: Register, entries: Json): HttpRequest {
    HttpRequest(Post, reg.url + "/entries/republish",
                Some(JDict(map["entries" := entries, "routing_key" := JStr(reg.routingKey)])),
                map["Content-type" := "application/json", "Accept" := "application/json"])
  }

  /** `response.json()`. */
  function DecodeBody(resp: HttpResponse): Result<Json, Error> {
    match resp.json
    case Some(j) => Ok(j)
    case None => Err(Error(JSONDecodeError, "Expecting value"))
  }

  function Failure(prefix: string, resp: HttpResponse): Error {
    Error(RegisterException, prefix + (", response was: " + IntToString(resp.status) + ", " + resp.text))
  }

  /** True when the register answered 200 with a JSON object holding `total-entries`. */
  predicate RecognisedInfo(a: Result<HttpResponse, Error>) {
    && a.Ok? && a.value.status == 200
    && a.value.json.Some? && a.value.json.value.JDict?
    && TotalEntries in a.value.json.value.fields
  }

  /** The highest entry number the register holds. */
  function MaxEntry(reg: Register, http: HttpClient): (r: Result<Json, Error>)
    ensures var a := http(InfoRequest(reg));
      && (a.Err? ==> r == Err(a.error))
      && (a.Ok? && a.value.status != 200 ==>
            r.Err? && r.error.kind == RegisterException && StartsWith(r.error.message, InfoUnavailable))
      && (a.Ok? && a.value.status == 200 && a.value.json.Some? && a.value.json.value.JDict?
            && TotalEntries !in a.value.json.value.fields ==>
            r == Err(Error(RegisterException, InfoUnrecognised)))
      && (r.Ok? <==> RecognisedInfo(a))
      && (r.Ok? ==> r.value == a.value.json.value.fields[TotalEntries])
  {
    var resp :- http(InfoRequest(reg));
    if resp.status != 200 then
      StartsWithConcat(InfoUnavailable, ", response was: " + IntToString(resp.status) + ", " + resp.text);
      Err(Failure(InfoUnavailable, resp))
    else
      var info :- DecodeBody(resp);
      var present :- Contains(info, TotalEntries);
      if !present then Err(Error(RegisterException, InfoUnrecognised))
      else GetItem(info, TotalEntries)
  }

  /** Asks the register to re-send `entries` on the configured routing key. */
  function RepublishEntries(reg: Register, http: HttpClient, entries: Json): (r: Result<Json, Error>)
    ensures var a := http(RepublishRequest(reg, entries));
      && (a.Err? ==> r == Err(a.error))
      && (a.Ok? && a.value.status != 200 ==>
            r.Err? && r.error.kind == RegisterException && StartsWith(r.error.message, RepublishFailed))
      && (r.Ok? <==> a.Ok? && a.value.status == 200 && a.value.json.Some?)
      && (r.Ok? ==> r.value == a.value.json.value)
  {
    var resp :- http(RepublishRequest(reg, entries));
    if resp.status != 200 then
      StartsWithConcat(RepublishFailed, ", response was: " + IntToString(resp.status) + ", " + resp.text);
      Err(Failure(RepublishFailed, resp))
    else
      DecodeBody(resp)
  }

  /** The republish request is a JSON POST whose body holds exactly the given
      entries and the configured routing key. */
  lemma RepublishRequestCarries(reg: Register, entries: Json)
    ensures var req := RepublishRequest(reg, entries);
      && req.verb == Post
      && req.url == reg.url + "/entries/republish"
      && req.body.Some? && req.body.value.JDict?
      && req.body.value.fields.Keys == {"entries", "routing_key"}
      && GetItem(req.body.value, "entries") == Ok(entries)
      && GetItem(req.body.value, "routing_key") == Ok(JStr(reg.routingKey))
      && req.headers["Content-type"] == "application/json"
  {
  }

  /** The test's register answer: 200 with `{"total-entries": 1}` gives 1. */
  lemma MaxEntryOfWellFormedInfo(reg: Register, http: HttpClient, n: int)
    requires http(InfoRequest(reg)) == Ok(HttpResponse(200, "", Some(JDict(map[TotalEntries := JInt(n)]))))
    ensures MaxEntry(reg, http) == Ok(JInt(n))
  {
  }
}
