/**
 * The JSON-RPC client of kodi_rpc/mod.rs, without its transport: the error a
 * Kodi server reports and how it is displayed, the success/error envelope of a
 * reply and how it becomes a result, the shape of a serialised request, and the
 * endpoint URL a request is posted to.
 */
module KodiRpc {
  import opened Wrappers
  import opened Types

  /** The optional detail of a remote error: the remote method that failed and its message. */
  datatype JsonRpcErrorData = JsonRpcErrorData(message: string, methodName: string)

  /** The `error` object of an error envelope. */
  datatype JsonRpcError = JsonRpcError(message: string, data: Option<JsonRpcErrorData>)

  /**
   * What a call through the client can fail with (the source's boxed error):
   * the request could not be built, sent or decoded, or the server answered
   * with an error envelope.
   */
  datatype RpcError = TransportError(description: string) | RemoteError(error: JsonRpcError)

  type RpcResult<T> = Result<T, RpcError>

  // Names of the remote methods the program calls.
  const GetMoviesMethod := "VideoLibrary.GetMovies"
  const GetDirectoryMethod := "Files.GetDirectory"
  const GetInfoBooleansMethod := "XBMC.GetInfoBooleans"
  const CleanMethod := "VideoLibrary.Clean"
  const ScanMethod := "VideoLibrary.Scan"
  const RefreshMovieMethod := "VideoLibrary.RefreshMovie"
  const SetMovieDetailsMethod := "VideoLibrary.SetMovieDetails"

  /**
   * The `Display` text of a remote error: its message, then either
   * " when calling <method>: <detail>" or a single space.
   */
  function ErrorText(e: JsonRpcError): (r: string)
    ensures e.message <= r
    ensures e.data.None? ==> r[|e.message|..] == " "
    ensures e.data.Some? ==>
      r[|e.message|..] == " when calling " + e.data.value.methodName + ": " + e.data.value.message
  {
    match e.data
    case Some(d) => e.message + " when calling " + d.methodName + ": " + d.message
    case None => e.message + " "
  }

  /** The `Display` text of any client failure. */
  function RpcErrorText(e: RpcError): (r: string)
    ensures e.RemoteError? ==> r == ErrorText(e.error)
    ensures e.TransportError? ==> r == e.description
  {
    match e
    case TransportError(d) => d
    case RemoteError(j) => ErrorText(j)
  }

  /** A decoded reply: either `{result}` or `{error}`. */
  datatype JsonRpcResponse<T> = Success(result: T) | Error(error: JsonRpcError)

  /** The final match of `send_rpc_request`: a success envelope is the result, an error envelope the failure. */
  function FromEnvelope<T>(env: JsonRpcResponse<T>): (r: RpcResult<T>)
    ensures r.Ok? <==> env.Success?
    ensures env.Success? ==> r.value == env.result
    ensures env.Error? ==> r.error == RemoteError(env.error)
  {
    match env
    case Success(x) => Ok(x)
    case Error(e) => Err(RemoteError(e))
  }

  /** The envelope a result came from, when it came from one. */
  function ToEnvelope<T>(r: RpcResult<T>): Option<JsonRpcResponse<T>>
  {
    match r
    case Ok(x) => Some(Success(x))
    case Err(RemoteError(e)) => Some(Error(e))
    case Err(TransportError(_)) => None
  }

  /** No information is lost between the envelope and the result. */
  lemma EnvelopeRoundTrip<T>(env: JsonRpcResponse<T>)
    ensures ToEnvelope(FromEnvelope(env)) == Some(env)
  {
  }

  /**
   * One call of `send_rpc_request` seen from its caller: `reply` is what the
   * transport delivered, an envelope or the description of a transport or
   * decoding failure; every failure surfaces as an error, none is retried.
   */
  function Receive<T>(reply: Result<JsonRpcResponse<T>, string>): (r: RpcResult<T>)
    ensures r.Ok? <==> reply.Ok? && reply.value.Success?
    ensures r.Ok? ==> r.value == reply.value.result
    ensures reply.Err? ==> r == Err(TransportError(reply.error))
  {
    match reply
    case Ok(env) => FromEnvelope(env)
    case Err(d) => Err(TransportError(d))
  }

  /** A request before serialisation. */
  datatype JsonRpcRequest<P> = JsonRpcRequest(jsonrpc: string, id: u16, methodName: string, params: Option<P>)

  /** A call to the server as seen by its caller: the request sent and what was made of the reply. */
  datatype Exchange<P, R> = Exchange(sent: JsonRpcRequest<P>, answer: R)

  /** Just enough of JSON to say what a serialised request holds. */
  datatype Json =
    | JNull
    | JBool(b: bool)
    | JNumber(n: int)
    | JString(s: string)
    | JArray(items: seq<Json>)
    | JObject(members: seq<(string, Json)>)

  /** The keys of an object's members, in order. */
  function Keys(members: seq<(string, Json)>): (ks: seq<string>)
    ensures |ks| == |members|
    ensures forall i :: 0 <= i < |members| ==> ks[i] == members[i].0
  {
    if members == [] then [] else [members[0].0] + Keys(members[1..])
  }

  /** The value stored under `key` in an object, the first one if several. */
  function Lookup(members: seq<(string, Json)>, key: string): (r: Option<Json>)
    ensures r.None? <==> key !in Keys(members)
    ensures r.Some? ==> (key, r.value) in members
  {
    if members == [] then None
    else if members[0].0 == key then Some(members[0].1)
    else Lookup(members[1..], key)
  }

  /**
   * Serialisation of a request as serde does it: the `params` member is
   * skipped when there are no parameters, so it is never sent as `null`.
   */
  function SerializeRequest<P>(req: JsonRpcRequest<P>, serializeParams: P -> Json): (r: Json)
    ensures r.JObject?
    ensures Keys(r.members)
      == ["jsonrpc", "id", "method"] + (if req.params.Some? then ["params"] else [])
  {
    var fixed := [("jsonrpc", JString(req.jsonrpc)), ("id", JNumber(req.id as int)), ("method", JString(req.methodName))];
    match req.params
    case None => JObject(fixed)
    case Some(p) => JObject(fixed + [("params", serializeParams(p))])
  }

  /** A request has a `params` member exactly when it has parameters, and then it holds their serialisation. */
  lemma ParamsMember<P>(req: JsonRpcRequest<P>, serializeParams: P -> Json)
    ensures Lookup(SerializeRequest(req, serializeParams).members, "params")
      == if req.params.Some? then Some(serializeParams(req.params.value)) else None
  {
    var members := SerializeRequest(req, serializeParams).members;
    assert Keys(members)[..3] == ["jsonrpc", "id", "method"];
    assert members[0].0 != "params" && members[1].0 != "params" && members[2].0 != "params";
    if req.params.Some? {
      assert members[1..][1..][1..] == [("params", serializeParams(req.params.value))];
    } else {
      assert members[1..][1..][1..] == [];
    }
  }

  /** The URL requests are posted to: the host string followed directly by "jsonrpc", no separator added. */
  function Endpoint(host: string): (url: string)
    ensures |url| == |host| + 7
    ensures host <= url && url[|host|..] == "jsonrpc"
  {
    host + "jsonrpc"
  }
}
