/** `custom_exception_handler`: the body of every handled error response is
    rewritten into the `{status, message, error}` envelope. JSON values are
    modelled with Python's truthiness. */
module ExceptionHandler {
  import opened Wrappers

  datatype Json =
    | JNull
    | JBool(b: bool)
    | JNum(n: int)
    | JStr(s: string)
    | JList(items: seq<Json>)
    | JObject(fields: seq<(string, Json)>)

  /** Python truthiness: `None`, `False`, `0`, empty strings and empty
      containers are false. */
  predicate Truthy(j: Json) {
    match j
    case JNull => false
    case JBool(b) => b
    case JNum(n) => n != 0
    case JStr(s) => s != ""
    case JList(items) => items != []
    case JObject(fields) => fields != []
  }

  /** `d.get(key)` on an object: the value stored under `key` (the first
      entry with that key), `None` (here `JNull`) when the key is absent. */
  function Get(fields: seq<(string, Json)>, key: string): (r: Json)
    ensures (forall i :: 0 <= i < |fields| ==> fields[i].0 != key) ==> r == JNull
    ensures r != JNull ==> exists i :: 0 <= i < |fields| && fields[i] == (key, r)
    ensures forall i :: 0 <= i < |fields| && fields[i].0 == key && KeyAbsent(fields[..i], key) ==>
                          r == fields[i].1
  {
    if fields == [] then JNull
    else if fields[0].0 == key then fields[0].1
    else
      var r := Get(fields[1..], key);
      assert forall i :: 1 <= i < |fields| ==> fields[i] == fields[1..][i - 1] && fields[1..][..i - 1] == fields[1..i];
      r
  }

  predicate KeyAbsent(fields: seq<(string, Json)>, key: string) {
    forall j :: 0 <= j < |fields| ==> fields[j].0 != key
  }

  datatype Response = Response(code: int, body: Json)

  /** The new body: `message` is the old `detail`; `error` is `""` when
      `detail` is truthy, otherwise the old `error` if truthy, else the
      whole old body. A body that is not an object has no `get` and raises. */
  function Envelope(body: Json): (r: Option<Json>)
    ensures r.None? <==> !body.JObject?
    ensures r.Some? ==>
              var detail := Get(body.fields, "detail");
              var error := Get(body.fields, "error");
              && r.value.JObject? && |r.value.fields| == 3
              && r.value.fields[0] == ("status", JStr("error"))
              && r.value.fields[1] == ("message", detail)
              && r.value.fields[2].0 == "error"
              && (Truthy(detail) ==> r.value.fields[2].1 == JStr(""))
              && (!Truthy(detail) && Truthy(error) ==> r.value.fields[2].1 == error)
              && (!Truthy(detail) && !Truthy(error) ==> r.value.fields[2].1 == body)
  {
    match body
    case JObject(fields) =>
      var detail := Get(fields, "detail");
      var error := Get(fields, "error");
      var errorOut := if !Truthy(detail) then (if Truthy(error) then error else body) else JStr("");
      Some(JObject([("status", JStr("error")), ("message", detail), ("error", errorOut)]))
    case _ => None
  }

  datatype HandlerOutcome = Handled(response: Response) | HandlerCrash

  /** `custom_exception_handler(exc, context)` given what DRF's default
      handler returned: `None` for an exception DRF does not handle, on
      which `response.data` raises. The status code is kept. */
  function CustomExceptionHandler(handled: Option<Response>): (r: HandlerOutcome)
    ensures handled.None? ==> r == HandlerCrash
    ensures handled.Some? && !handled.value.body.JObject? ==> r == HandlerCrash
    ensures r.Handled? <==> handled.Some? && handled.value.body.JObject?
    ensures r.Handled? ==> handled.Some? && r.response.code == handled.value.code
    ensures r.Handled? ==> Envelope(handled.value.body) == Some(r.response.body)
  {
    if handled.None? then HandlerCrash
    else match Envelope(handled.value.body)
      case None => HandlerCrash
      case Some(body) => Handled(Response(handled.value.code, body))
  }

  /** A 404 from `get_object_or_404` (body `{"detail": "Not found."}`)
      becomes status "error" with that message and an empty `error`. */
  lemma NotFoundEnvelope()
    ensures CustomExceptionHandler(Some(Response(404, JObject([("detail", JStr("Not found."))])))) ==
            Handled(Response(404, JObject([("status", JStr("error")), ("message", JStr("Not found.")), ("error", JStr(""))])))
  {
  }
}
