/** The JSON-RPC-shaped response envelope and the error values every handler
    can fail with. */
module Envelope {
  import opened Wrappers
  import opened Integers
  import opened JsonValue
  import Codec

  /** The one error code every failure is reported with. */
  const INTERNAL_ERROR: int := -32603

  const JSONRPC_VERSION: string := "2.0"

  /** The `anyhow::Error` a handler can return: a shard that is not an `i64`,
      a boc that is not base64, or a message (a validation message, a
      client error or a serde error). */
  datatype Failure =
    | BadInteger(kind: IntErrorKind)
    | BadBase64(cause: Codec.DecodeError)
    | Failed(message: string)

  /** `e.to_string()`: a client or serde error reaches the caller word for
      word; a shard or boc that does not parse is described by the parse
      error's own text, which names its kind. */
  function Message(e: Failure): (m: string)
    ensures e.Failed? ==> m == e.message
    ensures e.BadInteger? ==> m == IntErrorMessage(e.kind)
    ensures e.BadInteger? ==> |m| > 0 && forall k :: k != e.kind ==> m != IntErrorMessage(k)
    ensures e.BadBase64? ==> |m| > 0
  {
    match e
    case BadInteger(k) => IntErrorMessage(k)
    case BadBase64(d) => Codec.DecodeErrorMessage(d)
    case Failed(m) => m
  }

  datatype JsonError = JsonError(code: int, message: string)

  datatype JsonResponse = JsonResponse(
    ok: bool,
    error: Option<JsonError>,
    result: Option<Json>,
    jsonrpc: string,
    id: u64)

  /** The envelope's invariant: `ok` exactly when a result and no error is
      present, and the version is always "2.0". */
  predicate WellFormed(r: JsonResponse) {
    && (r.ok <==> r.result.Some?)
    && (r.ok <==> r.error.None?)
    && r.jsonrpc == JSONRPC_VERSION
  }

  /** `JsonResponse::new`: a success carrying `result` for request `id`. */
  function Success(id: u64, result: Json): (r: JsonResponse)
    ensures WellFormed(r) && r.ok
    ensures r.id == id && r.result == Some(result)
  {
    JsonResponse(true, None, Some(result), JSONRPC_VERSION, id)
  }

  /** `JsonResponse::error`: a failure for request `id` with the single
      internal error code and the error's text. */
  function Error(id: u64, e: Failure): (r: JsonResponse)
    ensures WellFormed(r) && !r.ok
    ensures r.id == id && r.error == Some(JsonError(INTERNAL_ERROR, Message(e)))
  {
    JsonResponse(false, Some(JsonError(INTERNAL_ERROR, Message(e))), None, JSONRPC_VERSION, id)
  }

  /** The names of the fields `JsonResponse` serialises to: all five in
      declaration order, `error` and `result` left out when absent. */
  function FieldNames(r: JsonResponse): seq<string> {
    ["ok"] + (if r.error.Some? then ["error"] else []) + (if r.result.Some? then ["result"] else []) + ["jsonrpc", "id"]
  }

  /** The wire form of a `JsonError`: its code and its message. */
  function ErrorJson(e: JsonError): Json {
    Object([("code", Number(e.code)), ("message", String(e.message))])
  }

  /** The fields of the envelope, each named as in `FieldNames`. */
  function WireFields(r: JsonResponse): (f: seq<(string, Json)>)
    ensures |f| == |FieldNames(r)| && forall i :: 0 <= i < |f| ==> f[i].0 == FieldNames(r)[i]
  {
    [("ok", Bool(r.ok))]
    + (if r.error.Some? then [("error", ErrorJson(r.error.value))] else [])
    + (if r.result.Some? then [("result", r.result.value)] else [])
    + [("jsonrpc", String(r.jsonrpc)), ("id", Number(r.id))]
  }

  /** The envelope on the wire: exactly the struct's fields, once each, in
      declaration order, with `error` and `result` left out when absent. */
  function ToJson(r: JsonResponse): (j: Json)
    ensures j.Object? && Keys(j.fields) == FieldNames(r)
    ensures "result" in Keys(j.fields) <==> r.result.Some?
    ensures "error" in Keys(j.fields) <==> r.error.Some?
    ensures ("id", Number(r.id)) in j.fields && ("ok", Bool(r.ok)) in j.fields
  {
    var fields := WireFields(r);
    assert Keys(fields) == FieldNames(r);
    assert fields[0] == ("ok", Bool(r.ok)) && fields[|fields| - 1] == ("id", Number(r.id));
    Object(fields)
  }

  /** Each field of the wire object carries the envelope's own value: the
      result as it is, the error as its code and message, and the version. */
  lemma ToJsonValues(r: JsonResponse)
    ensures ("jsonrpc", String(r.jsonrpc)) in ToJson(r).fields
    ensures r.result.Some? ==> ("result", r.result.value) in ToJson(r).fields
    ensures r.error.Some? ==>
      ("error", Object([("code", Number(r.error.value.code)), ("message", String(r.error.value.message))])) in ToJson(r).fields
  {
    var fields := WireFields(r);
    var error := if r.error.Some? then [("error", ErrorJson(r.error.value))] else [];
    var result := if r.result.Some? then [("result", r.result.value)] else [];
    assert fields[|fields| - 2] == ("jsonrpc", String(r.jsonrpc));
    assert r.error.Some? ==> fields[1] == error[0];
    assert r.result.Some? ==> fields[1 + |error|] == result[0];
  }

  /** On the wire a well-formed envelope carries `result` exactly when it is
      a success and `error` exactly when it is a failure. */
  lemma WireShape(r: JsonResponse)
    requires WellFormed(r)
    ensures "result" in Keys(ToJson(r).fields) <==> r.ok
    ensures "error" in Keys(ToJson(r).fields) <==> !r.ok
  {
  }
}
