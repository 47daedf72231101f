/**
 * The directory listing of kodi_rpc/get_directory.rs: the entries of a
 * `Files.GetDirectory` reply become the program's `File` records, keeping the
 * path and the label and dropping the file type and entry type.
 */
module GetDirectory {
  import opened Wrappers
  import opened Types
  import opened KodiRpc

  /** One entry of the reply; `entryType` is the server's `type` field. */
  datatype FileEntry = FileEntry(file: string, filetype: string, fileLabel: string, entryType: string)

  datatype DirectoryResponse = DirectoryResponse(files: seq<FileEntry>)

  datatype DirectoryParams = DirectoryParams(directory: string)

  /** The request that lists `path`. */
  function DirectoryRequest(path: string): (req: JsonRpcRequest<DirectoryParams>)
    ensures req.methodName == GetDirectoryMethod && req.params == Some(DirectoryParams(path))
  {
    JsonRpcRequest("2.0", 1, GetDirectoryMethod, Some(DirectoryParams(path)))
  }

  function ToFile(f: FileEntry): (r: File)
    ensures r.path == f.file && r.fileLabel == f.fileLabel
  {
    File(f.file, f.fileLabel)
  }

  /** Every entry in the reply's order, as a `File`. */
  function ToFiles(fs: seq<FileEntry>): (r: seq<File>)
    ensures |r| == |fs|
    ensures forall i :: 0 <= i < |fs| ==> r[i].path == fs[i].file && r[i].fileLabel == fs[i].fileLabel
  {
    if fs == [] then [] else [ToFile(fs[0])] + ToFiles(fs[1..])
  }

  /** The file and entry types do not reach the result: entries that differ only there give the same files. */
  lemma {:induction false} TypesDiscarded(fs: seq<FileEntry>, gs: seq<FileEntry>)
    requires |fs| == |gs|
    requires forall i :: 0 <= i < |fs| ==> fs[i].file == gs[i].file && fs[i].fileLabel == gs[i].fileLabel
    ensures ToFiles(fs) == ToFiles(gs)
  {
    if fs != [] {
      TypesDiscarded(fs[1..], gs[1..]);
    }
  }

  /** `get_directory(path)`, given the reply: the listing of `path` is asked for, and an error is passed on with no files. */
  function GetDirectory(path: string, response: RpcResult<DirectoryResponse>)
    : (r: Exchange<DirectoryParams, RpcResult<seq<File>>>)
    ensures r.sent == DirectoryRequest(path)
    ensures r.answer.Err? <==> response.Err?
    ensures response.Err? ==> r.answer.error == response.error
    ensures response.Ok? ==> r.answer.value == ToFiles(response.value.files)
  {
    var answer := match response
      case Err(e) => Err(e)
      case Ok(data) => Ok(ToFiles(data.files));
    Exchange(DirectoryRequest(path), answer)
  }
}
