/** The OneDrive tools: listing and searching, reading a file (its content
    for text types, a download link otherwise), uploading a small file, and
    creating a sharing link. */
module FilesTools {
  import opened Base
  import opened Text
  import opened Json
  import opened Errors
  import opened GraphClient
  import opened Responses
  import opened Toolkit
  import Base64Url

  const DriveItemFields: string :=
    "id,name,size,createdDateTime,lastModifiedDateTime,file,folder,webUrl,parentReference"
  const MetadataFields: string := "id,name,size,file,@microsoft.graph.downloadUrl"
  const MaxListed: int := 50
  const MaxFound: int := 25
  const DefaultFileTop: int := 25
  const BinaryNote: string := "Binary file \U{2014} use the downloadUrl to access content."
  /** The simple-upload limit: 4 MiB. */
  const MaxUpload: int := 4 * 1024 * 1024
  const TooLargeMessage: string := "File too large. Maximum upload size is 4MB."
  const DefaultShareType: string := "view"
  const DefaultShareScope: string := "organization"

  const ItemsPrefix: string := "/me/drive/items/"

  /** The folder being listed: the drive root, or the folder with that id. */
  function FolderPath(folderId: string): string {
    if folderId != "" then ItemsPrefix + folderId + "/children" else "/me/drive/root/children"
  }

  /** `graph_list_files`' request: the folder's children, at most 50. */
  function ListFilesRequest(folderId: string, top: int): Request {
    GetRequest(FolderPath(folderId), map["$select" := DriveItemFields, "$top" := TopParam(top, MaxListed)], map[])
  }

  /** `graph_search_files`' request: the query inside `search(q='...')`, at
      most 25 results. */
  function SearchFilesRequest(query: string, top: int): Request {
    GetRequest("/me/drive/root/search(q='" + query + "')",
               map["$select" := DriveItemFields, "$top" := TopParam(top, MaxFound)], map[])
  }

  /** An empty folder id lists the drive root; any other id names the
      folder whose children are listed, and reads back from the path. */
  lemma FolderPathMeaning(folderId: string)
    ensures StartsWith(FolderPath(folderId), ItemsPrefix) <==> folderId != ""
    ensures folderId == "" ==> FolderPath(folderId) == "/me/drive/root/children"
    ensures folderId != "" ==> FolderPath(folderId)[|ItemsPrefix|..|FolderPath(folderId)| - |"/children"|] == folderId
  {
    var path := FolderPath(folderId);
    if folderId == "" {
      assert path[10] == 'r' && ItemsPrefix[10] == 'i';
      assert path[..|ItemsPrefix|] != ItemsPrefix;
    } else {
      assert path == ItemsPrefix + folderId + "/children";
      assert path[..|ItemsPrefix|] == ItemsPrefix;
    }
  }

  /** Listing asks for at most 50 items and searching for at most 25. */
  lemma FileClamps(folderId: string, query: string, top: int)
    ensures ParseInt(ListFilesRequest(folderId, top).params["$top"]) == Some(Min(top, MaxListed))
    ensures ParseInt(SearchFilesRequest(query, top).params["$top"]) == Some(Min(top, MaxFound))
  {
    TopParamMeaning(top, MaxListed);
    TopParamMeaning(top, MaxFound);
  }

  function ListFiles(client: Client, folderId: string := "", top: int := DefaultFileTop): (run: Run)
    ensures run.requests == [ListFilesRequest(folderId, top)]
  {
    ListReply(client, ListFilesRequest(folderId, top))
  }

  function SearchFiles(client: Client, query: string, top: int := DefaultFileTop): (run: Run)
    ensures run.requests == [SearchFilesRequest(query, top)]
  {
    ListReply(client, SearchFilesRequest(query, top))
  }

  /** Without arguments the drive root is listed, and both the listing and
      a search ask for 25 items, below the listing's cap of 50. */
  lemma FilesDefaults(client: Client, query: string)
    ensures ListFiles(client).requests == [ListFilesRequest("", 25)]
    ensures ListFiles(client).requests[0].path == "/me/drive/root/children"
    ensures ListFiles(client).requests[0].params["$top"] == "25"
    ensures SearchFiles(client, query).requests[0].params["$top"] == "25"
  {
    TopParamMeaning(DefaultFileTop, MaxListed);
    TopParamMeaning(DefaultFileTop, MaxFound);
  }

  // ------------------------------------------------------------ content

  /** The MIME prefixes whose files are returned as content. */
  const TextPrefixes: seq<string> :=
    ["text/", "application/json", "application/xml", "application/javascript", "application/csv"]

  /** Whether `mime` starts with one of `prefixes`, tried in order. */
  function StartsWithAny(mime: string, prefixes: seq<string>): (b: bool)
    ensures b <==> exists i :: 0 <= i < |prefixes| && StartsWith(mime, prefixes[i])
    decreases |prefixes|
  {
    if |prefixes| == 0 then false
    else StartsWith(mime, prefixes[0]) || StartsWithAny(mime, prefixes[1..])
  }

  /** A text type: one that starts with a listed prefix (so
      `application/jsonl` counts, and `image/png` does not). */
  predicate IsTextMime(mime: string) {
    StartsWithAny(mime, TextPrefixes)
  }

  lemma TextMimeExamples()
    ensures IsTextMime("text/plain")
    ensures IsTextMime("application/json; charset=utf-8")
    ensures !IsTextMime("image/png")
    ensures !IsTextMime("")
  {
    assert StartsWith("text/plain", TextPrefixes[0]);
    assert StartsWith("application/json; charset=utf-8", TextPrefixes[1]);
    assert forall i :: 0 <= i < |TextPrefixes| ==> TextPrefixes[i][0] == 't' || TextPrefixes[i][0] == 'a';
  }

  function MetadataRequest(fileId: string): Request {
    GetRequest("/me/drive/items/" + fileId, map["$select" := MetadataFields], map[])
  }

  function ContentRequest(fileId: string): Request {
    GetRequest("/me/drive/items/" + fileId + "/content", map[], map[])
  }

  /** `metadata.get("file", {}).get("mimeType", "")`, which must be text for
      `startswith`: each `.get` on something that is not a dictionary, and
      `startswith` on something that is not text, raises `AttributeError`. */
  function MimeOf(metadata: Option<Value>): (r: Result<string, GraphError>)
    ensures r.Ok? ==> metadata.Some? && metadata.value.Obj?
    ensures r.Ok? <==>
      && Get(OrNull(metadata), "file", Obj(map[])).Some?
      && Get(Get(OrNull(metadata), "file", Obj(map[])).value, "mimeType", Str("")).Some?
      && Get(Get(OrNull(metadata), "file", Obj(map[])).value, "mimeType", Str("")).value.Str?
    ensures r.Ok? ==>
      Get(Get(OrNull(metadata), "file", Obj(map[])).value, "mimeType", Str("")) == Some(Str(r.value))
    ensures Get(OrNull(metadata), "file", Obj(map[])).None? ==> r == Err(NoGet(OrNull(metadata)))
    ensures var file := Get(OrNull(metadata), "file", Obj(map[]));
      file.Some? && Get(file.value, "mimeType", Str("")).None? ==> r == Err(NoGet(file.value))
    ensures var file := Get(OrNull(metadata), "file", Obj(map[]));
      file.Some? && Get(file.value, "mimeType", Str("")).Some? && !Get(file.value, "mimeType", Str("")).value.Str? ==>
        r == Err(OtherError("'" + TypeName(Get(file.value, "mimeType", Str("")).value) + "' object has no attribute 'startswith'"))
  {
    var meta := OrNull(metadata);
    if !meta.Obj? then Err(NoGet(meta))
    else
      var file := FieldOr(meta, "file", Obj(map[]));
      if !file.Obj? then Err(NoGet(file))
      else
        var mime := FieldOr(file, "mimeType", Str(""));
        if !mime.Str? then Err(OtherError("'" + TypeName(mime) + "' object has no attribute 'startswith'"))
        else Ok(mime.s)
  }

  /** What a binary file answers with: where to download it. */
  function BinaryReply(meta: Value, mime: string): Value {
    Obj(map["name" := FieldOr(meta, "name", Null),
            "mimeType" := Str(mime),
            "size" := FieldOr(meta, "size", Null),
            "downloadUrl" := FieldOr(meta, "@microsoft.graph.downloadUrl", Str("")),
            "note" := Str(BinaryNote)])
  }

  /** What a text file answers with: its content. */
  function TextReply(meta: Value, mime: string, content: Option<Value>): Value {
    Obj(map["name" := FieldOr(meta, "name", Null), "mimeType" := Str(mime), "content" := OrNull(content)])
  }

  /** `graph_get_file_content`: the metadata first; a text file's content is
      fetched with a second request, a binary file is answered with its
      download link and nothing more is requested. */
  function GetFileContent(client: Client, fileId: string): (run: Run)
    ensures 1 <= |run.requests| <= 2 && run.requests[0] == MetadataRequest(fileId)
    ensures |run.requests| == 2 <==>
      client(MetadataRequest(fileId)).Ok? && MimeOf(client(MetadataRequest(fileId)).value).Ok?
      && IsTextMime(MimeOf(client(MetadataRequest(fileId)).value).value)
    ensures |run.requests| == 2 ==> run.requests[1] == ContentRequest(fileId)
  {
    var metaReq := MetadataRequest(fileId);
    match client(metaReq)
    case Err(e) => Run([metaReq], RequireAuth(Err(e)))
    case Ok(metadata) =>
      match MimeOf(metadata)
      case Err(e) => Run([metaReq], RequireAuth(Err(e)))
      case Ok(mime) =>
        if !IsTextMime(mime) then
          Run([metaReq], RequireAuth(Ok(SuccessResponse(BinaryReply(metadata.value, mime), DefaultMessage))))
        else
          var contentReq := ContentRequest(fileId);
          match client(contentReq)
          case Err(e) => Run([metaReq, contentReq], RequireAuth(Err(e)))
          case Ok(content) =>
            Run([metaReq, contentReq],
                RequireAuth(Ok(SuccessResponse(TextReply(metadata.value, mime, content), DefaultMessage))))
  }

  /** A binary file is answered with its download link and no content. */
  lemma BinaryFileShape(client: Client, fileId: string)
    requires client(MetadataRequest(fileId)).Ok? && MimeOf(client(MetadataRequest(fileId)).value).Ok?
    requires !IsTextMime(MimeOf(client(MetadataRequest(fileId)).value).value)
    ensures var mime := MimeOf(client(MetadataRequest(fileId)).value).value;
      var env := ReadEnvelope(GetFileContent(client, fileId).reply);
      && env.Some? && env.value.Success? && env.value.data.Obj?
      && "downloadUrl" in env.value.data.fields && "content" !in env.value.data.fields
      && env.value.data.fields["mimeType"] == Str(mime)
  {
  }

  /** A text file is answered with its content and no download link. */
  lemma TextFileShape(client: Client, fileId: string)
    requires client(MetadataRequest(fileId)).Ok? && MimeOf(client(MetadataRequest(fileId)).value).Ok?
    requires IsTextMime(MimeOf(client(MetadataRequest(fileId)).value).value)
    requires client(ContentRequest(fileId)).Ok?
    ensures var env := ReadEnvelope(GetFileContent(client, fileId).reply);
      && env.Some? && env.value.Success? && env.value.data.Obj?
      && "content" in env.value.data.fields && "downloadUrl" !in env.value.data.fields
      && env.value.data.fields["content"] == OrNull(client(ContentRequest(fileId)).value)
  {
  }

  // ------------------------------------------------------------- upload

  /** The simple-upload request: the bytes PUT to the item's `content` under
      the drive root, as an octet stream. */
  function UploadRequest(filePath: string, bytes: seq<Base64Url.byte>): Request {
    Request(PUT, "/me/drive/root:/" + filePath + ":/content", map[], RawPayload(bytes),
            map["Content-Type" := "application/octet-stream"])
  }

  /** The reply to a file over the limit: a success envelope whose data
      holds the error and whose message is "error". */
  function TooLargeReply(): Value {
    SuccessResponse(Obj(map["error" := Str(TooLargeMessage)]), "error")
  }

  const NoPutMessage: string := "'GraphClient' object has no attribute 'put'"

  /** `graph_upload_file` as written: it calls `graph_client.put`, which
      the client does not define, so every upload within the limit raises
      `AttributeError` before anything is sent. `decoded` is what
      `base64.b64decode` returns or the message it raises with. */
  function UploadFileAsWritten(client: Client, filePath: string, decoded: Result<seq<Base64Url.byte>, string>): (run: Run)
    ensures run.requests == []
    ensures decoded.Err? ==> run.reply == RequireAuth(Err(OtherError(decoded.error)))
    ensures decoded.Ok? && |decoded.value| > MaxUpload ==> run.reply == TooLargeReply()
    ensures decoded.Ok? && |decoded.value| <= MaxUpload ==> run.reply == RequireAuth(Err(OtherError(NoPutMessage)))
  {
    match decoded
    case Err(msg) => Run([], RequireAuth(Err(OtherError(msg))))
    case Ok(bytes) =>
      if |bytes| > MaxUpload then Run([], RequireAuth(Ok(TooLargeReply())))
      else Run([], RequireAuth(Err(OtherError(NoPutMessage))))
  }

  /** The discrepancy: no upload of any size is ever sent, and one within
      the limit fails as an unexpected error. */
  lemma UploadAsWrittenNeverSends(client: Client, filePath: string, bytes: seq<Base64Url.byte>)
    requires |bytes| <= MaxUpload
    ensures UploadFileAsWritten(client, filePath, Ok(bytes)).requests == []
    ensures ReadEnvelope(UploadFileAsWritten(client, filePath, Ok(bytes)).reply)
      == Some(Failure("Unexpected error: " + NoPutMessage, None))
  {
  }

  /** `graph_upload_file` as intended: over the limit nothing is sent and
      the too-large reply is given; otherwise exactly one PUT of the bytes,
      answered with its result. */
  function UploadFile(client: Client, filePath: string, decoded: Result<seq<Base64Url.byte>, string>): (run: Run)
    ensures decoded.Err? ==> run.requests == [] && run.reply == RequireAuth(Err(OtherError(decoded.error)))
    ensures decoded.Ok? && |decoded.value| > MaxUpload ==> run.requests == [] && run.reply == TooLargeReply()
    ensures decoded.Ok? && |decoded.value| <= MaxUpload ==>
      run.requests == [UploadRequest(filePath, decoded.value)]
      && run == ItemReply(client, UploadRequest(filePath, decoded.value))
  {
    match decoded
    case Err(msg) => Run([], RequireAuth(Err(OtherError(msg))))
    case Ok(bytes) =>
      if |bytes| > MaxUpload then Run([], RequireAuth(Ok(TooLargeReply())))
      else ItemReply(client, UploadRequest(filePath, bytes))
  }

  /** The limit is inclusive: exactly 4 MiB is uploaded, one byte more is
      refused without a request. */
  lemma UploadLimitInclusive(client: Client, filePath: string, bytes: seq<Base64Url.byte>)
    ensures |bytes| == MaxUpload ==> |UploadFile(client, filePath, Ok(bytes)).requests| == 1
    ensures |bytes| == MaxUpload + 1 ==> UploadFile(client, filePath, Ok(bytes)).requests == []
  {
  }

  /** The corrected upload sends what the broken one only meant to: the
      bytes as written by the caller, nothing else. */
  lemma UploadFixed(client: Client, filePath: string, bytes: seq<Base64Url.byte>)
    requires |bytes| <= MaxUpload
    ensures var run := UploadFile(client, filePath, Ok(bytes));
      && |run.requests| == 1 && run.requests[0].verb == PUT && run.requests[0].payload == RawPayload(bytes)
      && run.requests[0].path == "/me/drive/root:/" + filePath + ":/content"
      && run.requests[0].headers == map["Content-Type" := "application/octet-stream"]
      && (client(run.requests[0]).Ok? ==>
            ReadEnvelope(run.reply) == Some(Success(OrNull(client(run.requests[0]).value), DefaultMessage)))
    ensures UploadFileAsWritten(client, filePath, Ok(bytes)).requests != UploadFile(client, filePath, Ok(bytes)).requests
  {
    ItemReplyMeaning(client, UploadRequest(filePath, bytes));
  }

  // -------------------------------------------------------------- share

  /** `graph_share_file`'s request: a `createLink` POST with the link type
      and scope. */
  function ShareRequest(fileId: string, shareType: string, scope: string): Request {
    PostRequest("/me/drive/items/" + fileId + "/createLink",
                Obj(map["type" := Str(shareType), "scope" := Str(scope)]), map[], map[])
  }

  /** The link request carries the type and scope asked for, and nothing
      else, to the item's `createLink`; different links make different
      requests. */
  lemma ShareLinkReadsBack(fileId: string, shareType: string, scope: string, otherType: string, otherScope: string)
    ensures var r := ShareRequest(fileId, shareType, scope);
      && r.verb == POST && r.payload.JsonPayload? && r.payload.json.Obj?
      && r.payload.json.fields.Keys == {"type", "scope"}
      && r.payload.json.fields["type"] == Str(shareType) && r.payload.json.fields["scope"] == Str(scope)
    ensures ShareRequest(fileId, shareType, scope) == ShareRequest(fileId, otherType, otherScope)
      <==> shareType == otherType && scope == otherScope
  {
    if ShareRequest(fileId, shareType, scope) == ShareRequest(fileId, otherType, otherScope) {
      assert ShareRequest(fileId, shareType, scope).payload.json.fields["type"] == Str(otherType);
      assert ShareRequest(fileId, shareType, scope).payload.json.fields["scope"] == Str(otherScope);
    }
  }

  /** `graph_share_file`: one `createLink` POST, answered with its result.
      By default the link is a view link for the organization. */
  function ShareFile(client: Client, fileId: string,
                     shareType: string := DefaultShareType, scope: string := DefaultShareScope): (run: Run)
    ensures run.requests == [ShareRequest(fileId, shareType, scope)]
  {
    ItemReply(client, ShareRequest(fileId, shareType, scope))
  }

  /** Without a type or scope, the link asked for is a view link for the
      organization. */
  lemma ShareDefaults(client: Client, fileId: string)
    ensures ShareFile(client, fileId).requests == [ShareRequest(fileId, "view", "organization")]
    ensures var body := ShareFile(client, fileId).requests[0].payload.json;
      body == Obj(map["type" := Str("view"), "scope" := Str("organization")])
  {
  }
}
