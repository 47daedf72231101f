/**
 * `get_info_boolean` of kodi_rpc/get_info_booleans.rs: asks the server for a
 * list of named booleans and builds a map from the reply. The reply only
 * carries `Library.IsScanningVideo`, so that is the only name that can reach
 * the map.
 */
module InfoBooleans {
  import opened Wrappers
  import opened Types
  import opened KodiRpc

  const IsScanningVideo := "Library.IsScanningVideo"

  datatype InfoBooleansResponse = InfoBooleansResponse(libraryIsScanningVideo: bool)

  datatype InfoBooleansParams = InfoBooleansParams(booleans: seq<string>)

  /**
   * The request for `names`, and the map built from `response`, the reply
   * to it: a failure is passed on; otherwise each requested name the reply
   * knows is inserted with its value, and every other name is skipped.
   */
  method GetInfoBoolean(names: seq<string>, response: RpcResult<InfoBooleansResponse>)
    returns (sent: JsonRpcRequest<InfoBooleansParams>, r: RpcResult<map<string, bool>>)
    ensures sent == JsonRpcRequest("2.0", 1, GetInfoBooleansMethod, Some(InfoBooleansParams(names)))
    ensures r.Err? <==> response.Err?
    ensures response.Err? ==> r.error == response.error
    ensures r.Ok? ==> r.value.Keys == if IsScanningVideo in names then {IsScanningVideo} else {}
    ensures r.Ok? && IsScanningVideo in r.value ==>
      r.value[IsScanningVideo] == response.value.libraryIsScanningVideo
  {
    sent := JsonRpcRequest("2.0", 1, GetInfoBooleansMethod, Some(InfoBooleansParams(names)));
    if response.Err? {
      return sent, Err(response.error);
    }
    var result: map<string, bool> := map[];
    var i := 0;
    while i < |names|
      invariant 0 <= i <= |names|
      invariant result.Keys == if IsScanningVideo in names[..i] then {IsScanningVideo} else {}
      invariant forall k :: k in result ==> result[k] == response.value.libraryIsScanningVideo
    {
      if names[i] == IsScanningVideo {
        result := result[names[i] := response.value.libraryIsScanningVideo];
      }
      assert names[..i + 1] == names[..i] + [names[i]];
      i := i + 1;
    }
    assert names[..i] == names;
    r := Ok(result);
  }
}
