/** The attachment routes of src/routes/attachments.ts: the MIME-type to extension
    table, the file name derived for a downloaded file, and the field checks of the
    create and update handlers. The attachments table itself, the HTTP fetch, the
    directory creation and the file write are outside the model: the fetch enters
    as its outcome, and each handler's result is the store call it would make. */
module Attachments {
  import opened Values
  import opened Strings

  /** `mimeToExt`: 21 MIME types and their file extensions. */
  const MimeToExt: map<string, string> := map[
    "image/jpeg" := ".jpg",
    "image/png" := ".png",
    "image/gif" := ".gif",
    "image/svg+xml" := ".svg",
    "image/webp" := ".webp",
    "text/plain" := ".txt",
    "text/html" := ".html",
    "text/css" := ".css",
    "text/csv" := ".csv",
    "application/json" := ".json",
    "application/pdf" := ".pdf",
    "application/zip" := ".zip",
    "application/x-tar" := ".tar",
    "application/javascript" := ".js",
    "application/xml" := ".xml",
    "application/msword" := ".doc",
    "application/vnd.openxmlformats-officedocument.wordprocessingml.document" := ".docx",
    "application/vnd.ms-excel" := ".xls",
    "application/vnd.openxmlformats-officedocument.spreadsheetml.sheet" := ".xlsx",
    "application/vnd.ms-powerpoint" := ".ppt",
    "application/vnd.openxmlformats-officedocument.presentationml.presentation" := ".pptx"
  ]

  const DefaultMimetype: string := "application/octet-stream"

  const DefaultDownloadName: string := "downloaded_file"

  /** `getExtensionFromMimetype`: the listed extension, or "" for any other type. */
  function GetExtensionFromMimetype(mimetype: string): (ext: string)
    ensures mimetype in MimeToExt ==> ext == MimeToExt[mimetype]
    ensures mimetype !in MimeToExt ==> ext == ""
    ensures ext != "" ==> ext[0] == '.'
  {
    if mimetype in MimeToExt && MimeToExt[mimetype] != "" then MimeToExt[mimetype] else ""
  }

  /** Every listed type has a non-empty extension, and the default MIME type has none. */
  lemma ExtensionTable()
    ensures forall m :: m in MimeToExt ==> GetExtensionFromMimetype(m) != ""
    ensures GetExtensionFromMimetype(DefaultMimetype) == ""
  {
  }

  /** `url.split("/").pop() || "downloaded_file"`: the text after the last "/", or the
      default name when that text is empty. */
  function UrlFilename(url: string): (name: string)
    ensures name != "" && '/' !in name
    ensures (url == [] || url[|url| - 1] == '/') ==> name == DefaultDownloadName
    ensures !(url == [] || url[|url| - 1] == '/') ==>
      EndsWith(url, name) && (|name| == |url| || url[|url| - |name| - 1] == '/')
  {
    var parts := Split(url, '/');
    var last := parts[|parts| - 1];
    LastPieceIsSuffix(url, '/');
    assert last != [] ==> last[|last| - 1] == url[|url| - 1];
    if last == "" then DefaultDownloadName else last
  }

  /** Appends `ext` unless the name already ends with it; an empty `ext` changes nothing. */
  function WithExtension(name: string, ext: string): (r: string)
    ensures ext != "" ==> EndsWith(r, ext)
    ensures r == name || r == name + ext
    ensures EndsWith(name, ext) ==> r == name
  {
    if ext != "" && !EndsWith(name, ext) then
      assert (name + ext)[|name + ext| - |ext|..] == ext;
      name + ext
    else name
  }

  /** Adding the extension a second time changes nothing. */
  lemma WithExtensionIdempotent(name: string, ext: string)
    ensures WithExtension(WithExtension(name, ext), ext) == WithExtension(name, ext)
  {
  }

  /** The outcome of `fetch(body.url)`. */
  datatype FetchResult =
    | FetchThrew                                  // network error or malformed URL
    | FetchNotOk                                  // a response whose `ok` is false
    | Fetched(contentType: Option<string>)        // the `content-type` header, if any

  datatype DownloadOutcome =
    | DownloadFailed(status: int, error: string)
    | DownloadSaved(id: string, filename: string, mimetype: string)  // the row to insert

  /** `POST /download`: after the URL check and the fetch, the name is taken from the
      body or the URL, the MIME type from the response or the default, and the
      extension is appended when missing. */
  method DownloadAttachment(url: Option<string>, bodyFilename: Option<string>, fileId: string,
                            fetched: FetchResult)
    returns (r: DownloadOutcome)
    ensures !Present(url) ==> r == DownloadFailed(400, "URL is required")
    ensures Present(url) && fetched.FetchThrew? ==> r == DownloadFailed(500, "Failed to download attachment")
    ensures Present(url) && fetched.FetchNotOk? ==> r == DownloadFailed(400, "Failed to download file from URL")
    ensures Present(url) && fetched.Fetched? ==>
      && r.DownloadSaved? && r.id == fileId
      && r.mimetype == OrElse(fetched.contentType, DefaultMimetype)
      && r.filename == WithExtension(OrElse(bodyFilename, UrlFilename(url.value)),
                                     GetExtensionFromMimetype(r.mimetype))
  {
    if !Present(url) {
      return DownloadFailed(400, "URL is required");
    }
    if fetched.FetchThrew? {
      return DownloadFailed(500, "Failed to download attachment");
    }
    if fetched.FetchNotOk? {
      return DownloadFailed(400, "Failed to download file from URL");
    }
    var urlFilename := UrlFilename(url.value);
    var filename := OrElse(bodyFilename, urlFilename);
    var mimetype := OrElse(fetched.contentType, DefaultMimetype);
    var extension := GetExtensionFromMimetype(mimetype);
    if extension != "" && !EndsWith(filename, extension) {
      filename := filename + extension;
    }
    r := DownloadSaved(fileId, filename, mimetype);
  }

  /** The row `POST /` inserts: the body's fields, as given. */
  datatype NewAttachment = NewAttachment(id: JsValue, filename: JsValue, mimetype: JsValue)

  datatype CreateOutcome =
    | CreateRejected(status: int, error: string)
    | CreateInsert(row: NewAttachment)

  /** `POST /`: the filename is checked before the mimetype; the id is the body's when
      truthy, otherwise the decimal rendering of a random draw below 1000000. */
  function CreateAttachment(body: map<string, JsValue>, draw: nat): (r: CreateOutcome)
    requires draw < 1000000
    ensures !Truthy(Field(body, "filename")) ==> r == CreateRejected(400, "Filename is required")
    ensures Truthy(Field(body, "filename")) && !Truthy(Field(body, "mimetype")) ==>
      r == CreateRejected(400, "Mimetype is required")
    ensures r.CreateInsert? <==> Truthy(Field(body, "filename")) && Truthy(Field(body, "mimetype"))
    ensures r.CreateInsert? ==>
      && r.row.filename == body["filename"] && r.row.mimetype == body["mimetype"]
      && Truthy(r.row.id)
      && ("id" in body && Truthy(body["id"]) ==> r.row.id == body["id"])
      && (!Truthy(Field(body, "id")) ==> r.row.id == Str(DecimalString(draw)))
  {
    if !Truthy(Field(body, "filename")) then CreateRejected(400, "Filename is required")
    else if !Truthy(Field(body, "mimetype")) then CreateRejected(400, "Mimetype is required")
    else
      var id := if Truthy(Field(body, "id")) then Field(body, "id") else Str(DecimalString(draw));
      CreateInsert(NewAttachment(id, Field(body, "filename"), Field(body, "mimetype")))
  }

  datatype UpdateOutcome =
    | UpdateRejected(status: int, error: string)
    | UpdateForward(id: string, fields: map<string, JsValue>)  // `updateAttachmentById(id, fields)`

  /** `PUT /:id`: 404 when the lookup found nothing; otherwise every body field except
      `id` is passed to the update, keyed by the path id. */
  function UpdateAttachment(id: string, found: bool, body: map<string, JsValue>): (r: UpdateOutcome)
    ensures !found <==> r == UpdateRejected(404, "Attachment not found")
    ensures found ==> r.UpdateForward? && r.id == id
    ensures found ==> "id" !in r.fields && r.fields.Keys == body.Keys - {"id"}
    ensures found ==> forall k :: k in r.fields ==> r.fields[k] == body[k]
  {
    if !found then UpdateRejected(404, "Attachment not found")
    else UpdateForward(id, body - {"id"})
  }
}
