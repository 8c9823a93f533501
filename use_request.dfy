/**
 * The dispatcher hook: it collapses the header list into a record, gives
 * the URL a scheme, drops the body for GET and HEAD, and tracks the
 * loading flag, the response and the error around one proxy round trip.
 */
module UseRequest {
  import opened Options
  import opened Text
  import opened VariableSubstitution

  /**
   * The header record: the entries that are enabled and have a key, folded
   * in list order, so a later entry overwrites an earlier one with the
   * same key.
   */
  function HeaderRecord(hs: seq<Parameter>): (r: map<string, string>)
    ensures forall k :: k in r <==> exists i :: 0 <= i < |hs| && hs[i].isEnabled && hs[i].key != "" && hs[i].key == k
    decreases |hs|
  {
    if hs == [] then map[]
    else
      var m := HeaderRecord(hs[..|hs| - 1]);
      var h := hs[|hs| - 1];
      assert forall i :: 0 <= i < |hs| - 1 ==> hs[..|hs| - 1][i] == hs[i];
      if h.isEnabled && h.key != "" then m[h.key := h.value] else m
  }

  /** Counted entries: enabled, with a non-empty key. */
  predicate Counts(h: Parameter) {
    h.isEnabled && h.key != ""
  }

  /** For a duplicated key the record holds the value of the last counted entry with that key. */
  lemma {:induction false} HeaderRecordLastWins(hs: seq<Parameter>, j: nat)
    requires j < |hs| && Counts(hs[j])
    requires forall i :: j < i < |hs| ==> !(Counts(hs[i]) && hs[i].key == hs[j].key)
    ensures hs[j].key in HeaderRecord(hs) && HeaderRecord(hs)[hs[j].key] == hs[j].value
    decreases |hs|
  {
    var init := hs[..|hs| - 1];
    if j < |hs| - 1 {
      assert init[j] == hs[j];
      assert forall i :: j < i < |init| ==> init[i] == hs[i];
      HeaderRecordLastWins(init, j);
    }
  }

  /** Entries that do not count leave the record as it is. */
  lemma HeaderRecordSkips(hs: seq<Parameter>, h: Parameter)
    requires !Counts(h)
    ensures HeaderRecord(hs + [h]) == HeaderRecord(hs)
  {
    assert (hs + [h])[..|hs|] == hs;
  }

  /** `url.startsWith("http") ? url : "https://" + url` */
  function ProcessUrl(url: string): (r: string)
    ensures StartsWith(r, "http")
    ensures StartsWith(url, "http") ==> r == url
    ensures !StartsWith(url, "http") ==> r == "https://" + url
  {
    if StartsWith(url, "http") then url
    else
      var r := "https://" + url;
      assert r[..4] == "http";
      r
  }

  /** Giving the scheme twice is giving it once. */
  lemma ProcessUrlIdempotent(url: string)
    ensures ProcessUrl(ProcessUrl(url)) == ProcessUrl(url)
  {
  }

  /** The body passed to the proxy: none for GET and HEAD, the text as it is otherwise. */
  function BodyFor(httpMethod: string, body: string): (r: Option<string>)
    ensures r.None? <==> httpMethod == "GET" || httpMethod == "HEAD"
    ensures r.Some? ==> r.value == body
  {
    if httpMethod in ["GET", "HEAD"] then None else Some(body)
  }

  /** The JSON object posted to the proxy route. */
  datatype ProxyPayload = ProxyPayload(url: string, httpMethod: string, headers: map<string, string>, body: Option<string>)

  /** The decoded reply of the proxy; `error` is "" when the reply has none. */
  datatype ProxyData = ProxyData(status: int, statusText: string, headers: map<string, string>, body: Option<string>, error: string)

  /** How the round trip ended: `fetch` or decoding threw, or the proxy answered. */
  datatype Outcome = Threw(message: string) | Answered(ok: bool, data: ProxyData)

  /** The response shown to the user, without the timing and the byte size. */
  datatype RequestResponse = RequestResponse(
    status: int, statusText: string, headers: map<string, string>,
    requestHeaders: map<string, string>, body: Option<string>, contentType: Option<string>)

  const FailedToFetch := "Failed to fetch"
  const SomethingWentWrong := "Something went wrong"

  /** `data.headers["content-type"] || null` */
  function ContentType(headers: map<string, string>): (r: Option<string>)
    ensures r.Some? <==> "content-type" in headers && headers["content-type"] != ""
    ensures r.Some? ==> r.value == headers["content-type"]
  {
    if "content-type" in headers && headers["content-type"] != "" then Some(headers["content-type"]) else None
  }

  /** What `sendRequest` posts for a request. */
  function Payload(url: string, httpMethod: string, headers: seq<Parameter>, body: string): (r: ProxyPayload)
    ensures StartsWith(r.url, "http") && r.httpMethod == httpMethod
    ensures r.headers == HeaderRecord(headers)
    ensures r.body.None? <==> httpMethod == "GET" || httpMethod == "HEAD"
    ensures r.body.Some? ==> r.body.value == body
  {
    ProxyPayload(ProcessUrl(url), httpMethod, HeaderRecord(headers), BodyFor(httpMethod, body))
  }

  /** The response and the error the hook ends with. */
  function Settle(outcome: Outcome, requestHeaders: map<string, string>): (r: (Option<RequestResponse>, Option<string>))
    ensures r.0.Some? != r.1.Some?
    ensures r.1.Some? ==> r.1.value != ""
    ensures r.0.Some? ==> outcome.Answered? && outcome.ok && r.0.value.requestHeaders == requestHeaders
    ensures outcome.Answered? && outcome.ok ==>
      var d := outcome.data;
      r == (Some(RequestResponse(d.status, d.statusText, d.headers, requestHeaders, d.body, ContentType(d.headers))), None)
    ensures outcome.Answered? && !outcome.ok ==>
      r == (None, Some(if outcome.data.error != "" then outcome.data.error else FailedToFetch))
    ensures outcome.Threw? ==> r == (None, Some(if outcome.message != "" then outcome.message else SomethingWentWrong))
  {
    match outcome
    case Threw(message) =>
      (None, Some(if message != "" then message else SomethingWentWrong))
    case Answered(ok, data) =>
      if !ok then (None, Some(if data.error != "" then data.error else FailedToFetch))
      else
        (Some(RequestResponse(data.status, data.statusText, data.headers, requestHeaders, data.body, ContentType(data.headers))), None)
  }

  /** A failed reply reports the proxy's error text, or the fixed fallback. */
  lemma FailedReplyMessage(data: ProxyData, requestHeaders: map<string, string>)
    ensures Settle(Answered(false, data), requestHeaders).1 == Some(if data.error == "" then FailedToFetch else data.error)
  {
  }

  /** The hook's state. */
  class RequestState {
    var isLoading: bool
    var response: Option<RequestResponse>
    var error: Option<string>

    constructor ()
      ensures !isLoading && response == None && error == None
    {
      isLoading, response, error := false, None, None;
    }

    /** The start of `sendRequest`: loading, nothing shown. */
    method Begin()
      modifies this
      ensures isLoading && response == None && error == None
    {
      isLoading := true;
      error := None;
      response := None;
    }

    /**
     * `sendRequest`: returns what is posted to the proxy; `outcome`
     * stands for the proxy round trip. Loading is off again on either path.
     */
    method SendRequest(url: string, httpMethod: string, headers: seq<Parameter>, body: string, outcome: Outcome)
      returns (posted: ProxyPayload)
      modifies this
      ensures posted == Payload(url, httpMethod, headers, body)
      ensures !isLoading
      ensures (response, error) == Settle(outcome, HeaderRecord(headers))
    {
      Begin();
      var requestHeaders := HeaderRecord(headers);
      var processedUrl := if StartsWith(url, "http") then url else "https://" + url;
      posted := ProxyPayload(processedUrl, httpMethod, requestHeaders, if httpMethod in ["GET", "HEAD"] then None else Some(body));
      match outcome {
        case Threw(message) =>
          error := Some(if message != "" then message else SomethingWentWrong);
        case Answered(ok, data) =>
          if !ok {
            var message := if data.error != "" then data.error else FailedToFetch;
            error := Some(message);
          } else {
            response := Some(RequestResponse(data.status, data.statusText, data.headers, requestHeaders, data.body, ContentType(data.headers)));
          }
      }
      isLoading := false;
    }
  }
}
