/**
 * The client's request helpers (client/src/services/api.js): the query
 * strings of the schedule and side-effect calls, the headers and the
 * success-or-error decision of `apiCall`, and the shape of the chat
 * requests. The fetch itself is I/O: its outcome is an input here.
 */
module ApiClient {
  import opened Common
  import opened Text

  /** The `?name=value&...` query for a list of `name=value` parameters; empty when there are none. */
  function QueryOf(params: seq<string>): (q: string)
    ensures params == [] <==> q == ""
  {
    if params == [] then "" else "?" + Join(params, '&')
  }

  /** The date-range parameters present: a start date and an end date, each only when non-empty. */
  function RangeParams(startDate: string, endDate: string): seq<string>
  {
    (if startDate != "" then ["startDate=" + startDate] else []) + (if endDate != "" then ["endDate=" + endDate] else [])
  }

  /**
   * The query of `getMySchedule` and `getDoctorSchedule`, built by appending:
   * the start date opens the query, the end date joins it with '&' or opens
   * it with '?'.
   */
  method RangeQuery(startDate: string, endDate: string) returns (query: string)
    ensures query == QueryOf(RangeParams(startDate, endDate))
  {
    var start, end := "startDate=" + startDate, "endDate=" + endDate;
    RangeQueryCases(startDate, endDate);
    query := "";
    if startDate != "" {
      query := query + "?" + start;
      assert query == "?" + start;
    }
    ghost var head := query;
    if endDate != "" {
      var sep := if query != "" then "&" else "?";
      query := query + sep + end;
      assert query == head + sep + end;
    }
  }

  /** The four shapes of the range query. */
  lemma RangeQueryCases(s: string, e: string)
    ensures s == "" && e == "" ==> QueryOf(RangeParams(s, e)) == ""
    ensures s != "" && e == "" ==> QueryOf(RangeParams(s, e)) == "?" + ("startDate=" + s)
    ensures s == "" && e != "" ==> QueryOf(RangeParams(s, e)) == "?" + ("endDate=" + e)
    ensures s != "" && e != "" ==> QueryOf(RangeParams(s, e)) == "?" + ("startDate=" + s) + "&" + ("endDate=" + e)
  {
    var start, end := "startDate=" + s, "endDate=" + e;
    var p := RangeParams(s, e);
    if s != "" && e != "" {
      assert p == [start, end];
      assert Join(p[1..], '&') == end;
      assert Join(p, '&') == start + "&" + end;
    } else if s != "" {
      assert p == [start];
    } else if e != "" {
      assert p == [end];
    }
  }

  /** `?name=value` when the value is truthy, nothing otherwise (the `date` and `status` filters). */
  function OptionalQuery(name: string, value: string): (q: string)
    ensures value == "" ==> q == ""
    ensures value != "" ==> q == QueryOf([name + "=" + value])
  {
    if value != "" then "?" + name + "=" + value else ""
  }

  /** The path of `getAvailableDoctors`. */
  function AvailableDoctorsPath(date: string): string
  {
    "/schedules/available" + OptionalQuery("date", date)
  }

  /** The path of `sideEffectsAPI.getAll`. */
  function SideEffectsPath(status: string): string
  {
    "/side-effects" + OptionalQuery("status", status)
  }

  /** The headers of every call: JSON content, and a bearer token exactly when a non-empty one is stored. */
  function Headers(token: Option<string>): (h: seq<(string, string)>)
    ensures ("Content-Type", "application/json") in h
    ensures (exists v :: ("Authorization", v) in h) <==> token.Some? && token.value != ""
    ensures token.Some? && token.value != "" ==> ("Authorization", "Bearer " + token.value) in h
  {
    if token.Some? && token.value != "" then [("Content-Type", "application/json"), ("Authorization", "Bearer " + token.value)]
    else [("Content-Type", "application/json")]
  }

  /** Why a call failed. */
  datatype Failure =
    | Unreachable       // the fetch itself failed: the server is not started
    | EmptyBody         // the server answered nothing: the database is not running
    | Malformed         // the body is not JSON
    | Refused(message: string)

  /** What the fetch gave back: the body text, the body parsed as JSON (with its `message`, if any), and `response.ok`. */
  datatype Reply = Reply(text: string, parsed: Option<Option<string>>, ok: bool)

  const DefaultError: string := "Une erreur est survenue"

  datatype CallResult = Success(data: Reply) | Failed(failure: Failure)

  /**
   * `apiCall`'s decision: a failed fetch is reported as the server being
   * unreachable; an empty body is an error before anything is parsed; a
   * non-OK status is an error carrying the server's message, or a default
   * one when it sent none; otherwise the parsed body is the result.
   */
  function Outcome(reply: Option<Reply>): (r: CallResult)
    ensures reply.None? ==> r == Failed(Unreachable)
    ensures reply.Some? && reply.value.text == "" ==> r == Failed(EmptyBody)
    ensures r.Success? <==> reply.Some? && reply.value.text != "" && reply.value.parsed.Some? && reply.value.ok
    ensures r.Success? ==> r.data == reply.value
    ensures reply.Some? && reply.value.text != "" && reply.value.parsed.Some? && !reply.value.ok ==>
      r.Failed? && r.failure.Refused? && r.failure.message != "" &&
      (reply.value.parsed.value.Some? && reply.value.parsed.value.value != "" ==> r.failure.message == reply.value.parsed.value.value)
  {
    if reply.None? then Failed(Unreachable)
    else if reply.value.text == "" then Failed(EmptyBody)
    else if reply.value.parsed.None? then Failed(Malformed)
    else if !reply.value.ok then
      Failed(Refused(OrElse(if reply.value.parsed.value.Some? then reply.value.parsed.value.value else "", DefaultError)))
    else Success(reply.value)
  }

  /** A JSON value, as far as request bodies use them. */
  datatype Json = JString(s: string) | JNumber(n: int) | JObject(fields: map<string, Json>)

  /** A request as `apiCall` sends it: the HTTP method, the path under /api, and the JSON body's fields. */
  datatype Request = Request(verb: string, path: string, body: map<string, Json>)

  /** `chatAPI.getMessages`: page 1 unless another page is asked for. */
  function GetMessages(conversationId: string, page: Option<nat>): (r: Request)
    ensures r.verb == "GET" && r.body == map[]
    ensures page.None? ==> r.path == "/chat/conversations/" + conversationId + "/messages?page=1"
  {
    Request("GET", "/chat/conversations/" + conversationId + "/messages?page=" + NatToString(Pick(page, 1)), map[])
  }

  /** `chatAPI.sendMessage`: its second argument, whatever it is, goes under the body's `content` and nowhere else. */
  function SendMessage(conversationId: string, content: Json): (r: Request)
    ensures r.verb == "POST"
    ensures r.body.Keys == {"content"} && r.body["content"] == content
  {
    Request("POST", "/chat/conversations/" + conversationId + "/messages", map["content" := content])
  }
}
