/** The JSON-RPC 2.0 envelope: request (section 4 of the JSON-RPC 2.0
    Specification), response (section 5) and error object (section 5.1),
    with their encoding to and decoding from a JSON object. */
module JsonRpc {
  import opened Wrappers
  import opened JsonValue
  import Strings

  // Error codes predefined by section 5.1 of the JSON-RPC 2.0 Specification.
  const PARSE_ERROR: int := -32700
  const INVALID_REQUEST: int := -32600
  const METHOD_NOT_FOUND: int := -32601
  const INVALID_PARAMS: int := -32602
  const INTERNAL_ERROR: int := -32603

  /** The five predefined codes, in declaration order. */
  function StandardCodes(): (codes: seq<int>)
    ensures |codes| == 5
    ensures forall i, j :: 0 <= i < j < |codes| ==> codes[i] != codes[j]
    ensures forall i :: 0 <= i < |codes| ==> -32768 <= codes[i] <= -32000
  {
    [PARSE_ERROR, INVALID_REQUEST, METHOD_NOT_FOUND, INVALID_PARAMS, INTERNAL_ERROR]
  }

  // ------------------------------------------------------------------ ids

  /** The correlation id: a string, an integer or null. */
  datatype Id = NullId | StrId(s: string) | IntId(n: int)

  function EncodeId(id: Id): Json {
    match id
    case NullId => JNull
    case StrId(s) => JStr(s)
    case IntId(n) => JInt(n)
  }

  function DecodeId(j: Json): (r: Result<Id, string>)
    ensures r.Success? <==> j.JNull? || j.JStr? || j.JInt?
    ensures r.Success? ==> EncodeId(r.value) == j
  {
    match j
    case JNull => Success(NullId)
    case JStr(s) => Success(StrId(s))
    case JInt(n) => Success(IntId(n))
    case _ => Failure(TypeMismatch("id", "str, int or None", j))
  }

  lemma IdRoundTrip(id: Id)
    ensures DecodeId(EncodeId(id)) == Success(id)
  {
  }

  // ------------------------------------------------------------- requests

  datatype Request = Request(jsonrpc: string, methodName: string, params: Option<Object>, id: Id)

  /** `JSONRPCRequest(method, params, id)` with the version defaulted to "2.0". */
  function MakeRequest(methodName: string, params: Option<Object>, id: Id): (r: Request)
    ensures r.jsonrpc == "2.0" && r.methodName == methodName && r.params == params && r.id == id
  {
    Request("2.0", methodName, params, id)
  }

  /** `JSONRPCRequest.to_dict`: `jsonrpc`, `method` and `id` always, `params`
      only when it is not `None`. */
  function EncodeRequest(r: Request): (o: Object)
    ensures "jsonrpc" in o && "method" in o && "id" in o
    ensures "params" in o <==> r.params.Some?
    ensures o.Keys <= {"jsonrpc", "method", "id", "params"}
    ensures o["jsonrpc"] == JStr(r.jsonrpc) && o["method"] == JStr(r.methodName) && o["id"] == EncodeId(r.id)
    ensures r.params.Some? ==> o["params"] == JObj(r.params.value)
  {
    var base := map["jsonrpc" := JStr(r.jsonrpc), "method" := JStr(r.methodName), "id" := EncodeId(r.id)];
    match r.params
    case None => base
    case Some(p) => base["params" := JObj(p)]
  }

  /** `JSONRPCRequest.from_dict`: `method` is required; `params` and `id` default
      to `None` and `jsonrpc` to "2.0" when absent. */
  function DecodeRequest(data: Json): (r: Result<Request, string>)
    ensures data.JObj? && "method" !in data.fields ==> r == Failure(KeyErrorText("method"))
    ensures r.Success? ==> data.JObj? && "method" in data.fields
    ensures r.Success? ==> data.fields["method"] == JStr(r.value.methodName)
    ensures r.Success? ==> ("jsonrpc" !in data.fields ==> r.value.jsonrpc == "2.0")
    ensures r.Success? ==> ("params" !in data.fields ==> r.value.params == None)
    ensures r.Success? ==> ("id" !in data.fields ==> r.value.id == NullId)
    ensures r.Success? && "id" in data.fields ==> EncodeId(r.value.id) == data.fields["id"]
  {
    match data
    case JObj(obj) =>
      var methodField :- Field(obj, "method");
      var methodName :- AsString(methodField, "method");
      var params :- AsOptObject(Lookup(obj, "params", JNull), "params");
      var id :- DecodeId(Lookup(obj, "id", JNull));
      var version :- AsString(Lookup(obj, "jsonrpc", JStr("2.0")), "jsonrpc");
      Success(Request(version, methodName, params, id))
    case _ => Subscript(data, "method").PropagateFailure()
  }

  /** Decoding an encoded request gives it back, with its id unchanged whether
      it is a string, an integer or null. */
  lemma RequestRoundTrip(r: Request)
    ensures DecodeRequest(JObj(EncodeRequest(r))) == Success(r)
  {
  }

  // --------------------------------------------------------------- errors

  datatype RpcError = RpcError(code: int, message: string, data: Json)

  /** `JSONRPCError.to_dict`: `data` is written only when it is not `None`. */
  function EncodeError(e: RpcError): (o: Object)
    ensures o.Keys == {"code", "message"} + (if e.data == JNull then {} else {"data"})
    ensures o["code"] == JInt(e.code) && o["message"] == JStr(e.message)
    ensures e.data != JNull ==> o["data"] == e.data
  {
    var base := map["code" := JInt(e.code), "message" := JStr(e.message)];
    if e.data != JNull then base["data" := e.data] else base
  }

  /** The error object of a decoded response: `code` and `message` are required. */
  function DecodeError(j: Json): (r: Result<RpcError, string>)
    ensures j.JObj? && ("code" !in j.fields || "message" !in j.fields) ==> r.Failure?
    ensures r.Success? ==> j.JObj? && "code" in j.fields && "message" in j.fields
    ensures r.Success? ==> j.fields["code"] == JInt(r.value.code) && j.fields["message"] == JStr(r.value.message)
    ensures r.Success? ==> ("data" !in j.fields ==> r.value.data == JNull)
  {
    match j
    case JObj(obj) =>
      var codeField :- Field(obj, "code");
      var code :- AsInt(codeField, "code");
      var messageField :- Field(obj, "message");
      var message :- AsString(messageField, "message");
      Success(RpcError(code, message, Lookup(obj, "data", JNull)))
    case _ => Subscript(j, "code").PropagateFailure()
  }

  lemma ErrorRoundTrip(e: RpcError)
    ensures DecodeError(JObj(EncodeError(e))) == Success(e)
  {
  }

  // ------------------------------------------------------------ responses

  /** A response; `result` is `JNull` when the Python field is `None`. */
  datatype Response = Response(jsonrpc: string, id: Id, result: Json, error: Option<RpcError>)

  function ResultResponse(id: Id, result: Json): (r: Response)
    ensures r.jsonrpc == "2.0" && r.id == id && r.result == result && r.error.None?
  {
    Response("2.0", id, result, None)
  }

  function ErrorResponse(id: Id, code: int, message: string): (r: Response)
    ensures r.jsonrpc == "2.0" && r.id == id && r.result == JNull
    ensures r.error == Some(RpcError(code, message, JNull))
  {
    Response("2.0", id, JNull, Some(RpcError(code, message, JNull)))
  }

  /** `JSONRPCResponse.to_dict`: exactly one of `error` and `result` is written,
      and `error` wins when both are set. */
  function EncodeResponse(r: Response): (o: Object)
    ensures ("error" in o) != ("result" in o)
    ensures "error" in o <==> r.error.Some?
    ensures o.Keys <= {"jsonrpc", "id", "error", "result"}
    ensures "jsonrpc" in o && "id" in o
    ensures o["jsonrpc"] == JStr(r.jsonrpc) && o["id"] == EncodeId(r.id)
    ensures r.error.Some? ==> o["error"] == JObj(EncodeError(r.error.value))
    ensures r.error.None? ==> o["result"] == r.result
  {
    var base := map["jsonrpc" := JStr(r.jsonrpc), "id" := EncodeId(r.id)];
    match r.error
    case Some(e) => base["error" := JObj(EncodeError(e))]
    case None => base["result" := r.result]
  }

  /** `JSONRPCResponse.from_dict`: `error` is set exactly when the key `error`
      is present; `result` and `id` default to `None`, `jsonrpc` to "2.0". A
      body that is not a dict fails at `"error" in data`, at `data["error"]` or
      at `data.get`, whichever Python reaches first. */
  function DecodeResponse(data: Json): (r: Result<Response, string>)
    ensures r.Success? ==> data.JObj? && (r.value.error.Some? <==> "error" in data.fields)
    ensures data.JObj? && "error" in data.fields && data.fields["error"].JObj?
      && ("code" !in data.fields["error"].fields || "message" !in data.fields["error"].fields)
      ==> r.Failure?
    ensures r.Success? ==> ("result" !in data.fields ==> r.value.result == JNull)
    ensures r.Success? ==> ("result" in data.fields ==> r.value.result == data.fields["result"])
    ensures r.Success? ==> ("jsonrpc" !in data.fields ==> r.value.jsonrpc == "2.0")
    ensures data.JNull? || data.JBool? || data.JInt? ==>
      r == Failure("argument of type '" + TypeName(data) + "' is not iterable")
    ensures data.JArr? ==> r == Failure(if JStr("error") in data.items
                                        then "list indices must be integers or slices, not str"
                                        else "'" + TypeName(data) + "' object has no attribute 'get'")
    ensures data.JStr? ==> r == Failure(if Strings.Contains(data.s, "error")
                                        then "string indices must be integers, not 'str'"
                                        else "'" + TypeName(data) + "' object has no attribute 'get'")
  {
    var hasError :- PyContains(data, "error");
    var error :- if hasError then
        var field :- Subscript(data, "error");
        var e :- DecodeError(field);
        Success(Some(e))
      else Success(None);
    match data
    case JObj(obj) =>
      var id :- DecodeId(Lookup(obj, "id", JNull));
      var result := Lookup(obj, "result", JNull);
      var version :- AsString(Lookup(obj, "jsonrpc", JStr("2.0")), "jsonrpc");
      Success(Response(version, id, result, error))
    case _ => Failure("'" + TypeName(data) + "' object has no attribute 'get'")
  }

  /** A response with at most one of `result` and `error` set survives a round trip. */
  lemma ResponseRoundTrip(r: Response)
    requires r.error.None? || r.result == JNull
    ensures DecodeResponse(JObj(EncodeResponse(r))) == Success(r)
  {
    if r.error.Some? {
      ErrorRoundTrip(r.error.value);
    }
  }

  /** With both set, the round trip keeps the error and drops the result. */
  lemma ResponseRoundTripDropsResult(r: Response)
    requires r.error.Some?
    ensures DecodeResponse(JObj(EncodeResponse(r))) == Success(r.(result := JNull))
  {
    ErrorRoundTrip(r.error.value);
  }
}
