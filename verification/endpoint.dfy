/** The web-app entry points of the Apps Script: `doGet` and `doPost` dispatch on the
    requested action and wrap the outcome in a success or error envelope; `uploadImage`
    checks its arguments and stores a file in Drive. Base64 decoding and the Drive
    calls are parameters. */
module Endpoint {
  import opened Wrappers
  import opened JsonValues
  import opened Schema
  import opened RowCodec
  import opened SheetStore

  /** `USE_SHEETS`: whether the store operations may run. */
  const UseSheets := true

  /** The upload fields of a request body; `""` stands for a missing field. */
  datatype UploadRequest = UploadRequest(filename: string, mimeType: string, data: string)

  /** The blob handed to Drive. */
  datatype Blob = Blob(bytes: seq<bv8>, mimeType: string, filename: string)

  /** A file Drive created. */
  datatype DriveFile = DriveFile(id: string, name: string)

  /** Why Drive could not store a file: the image folder could not be found or made,
      or the file could not be created in it. */
  datatype DriveError = FolderError(reason: string) | CreateError(reason: string)

  /** The reply of `uploadImage`. */
  datatype Uploaded = Uploaded(id: string, url: string, name: string)

  const MissingData := "Missing image data"
  const DefaultMimeType := "application/octet-stream"
  const DefaultFilename := "image"
  const ViewUrlPrefix := "https://drive.google.com/uc?export=view&id="

  /** The blob stored for a request: its decoded bytes, with the generic MIME type and
      file name standing in for missing ones. */
  function BlobFor(u: UploadRequest, bytes: seq<bv8>): Blob {
    Blob(bytes,
         if u.mimeType != "" then u.mimeType else DefaultMimeType,
         if u.filename != "" then u.filename else DefaultFilename)
  }

  /** `uploadImage`: rejects a request without data; otherwise decodes it, falls back to
      a generic MIME type and file name, stores the blob and answers with the file's
      id, public view URL and name. Each failing step gives its own message. */
  function UploadImage(req: Option<UploadRequest>,
                       decode: string -> Result<seq<bv8>, string>,
                       store: Blob -> Result<DriveFile, DriveError>): (r: Result<Uploaded, string>)
    ensures r == Failure(MissingData) <==> req.None? || req.value.data == ""
    ensures req.Some? && req.value.data != "" && decode(req.value.data).Failure? ==>
      r == Failure("Failed to decode image data: " + decode(req.value.data).error)
    ensures req.Some? && req.value.data != "" && decode(req.value.data).Success? ==>
      match store(BlobFor(req.value, decode(req.value.data).value))
      case Failure(FolderError(e)) => r == Failure("Failed to get image folder: " + e)
      case Failure(CreateError(e)) => r == Failure("Failed to create file in Drive: " + e)
      case Success(f) => r == Success(Uploaded(f.id, ViewUrlPrefix + f.id, f.name))
    ensures r.Success? ==> r.value.url == ViewUrlPrefix + r.value.id
    ensures r.Failure? && r != Failure(MissingData) ==> |r.error| >= 10 && r.error[..10] == "Failed to "
  {
    if req.None? || req.value.data == "" then Failure(MissingData)
    else
      var u := req.value;
      match decode(u.data)
      case Failure(e) => Failure("Failed to decode image data: " + e)
      case Success(bytes) =>
        match store(BlobFor(u, bytes))
        case Failure(FolderError(e)) => Failure("Failed to get image folder: " + e)
        case Failure(CreateError(e)) => Failure("Failed to create file in Drive: " + e)
        case Success(f) => Success(Uploaded(f.id, ViewUrlPrefix + f.id, f.name))
  }

  /** An upload succeeds exactly when the request carries data that decodes and Drive
      stores the blob; the file named in the reply is the one Drive made. */
  lemma UploadImageSucceedsIff(req: Option<UploadRequest>,
                               decode: string -> Result<seq<bv8>, string>,
                               store: Blob -> Result<DriveFile, DriveError>)
    ensures var r := UploadImage(req, decode, store);
      r.Success? <==>
        && req.Some? && req.value.data != ""
        && decode(req.value.data).Success?
        && store(BlobFor(req.value, decode(req.value.data).value)).Success?
    ensures var r := UploadImage(req, decode, store);
      r.Success? ==>
        store(BlobFor(req.value, decode(req.value.data).value)) == Success(DriveFile(r.value.id, r.value.name))
  {
  }

  /** What a successful POST carries as `result`. */
  datatype PostResult =
    | Saved(obj: Record)
    | Deletion(outcome: DeleteResult)
    | Upload(file: Uploaded)

  /** The JSON envelope of a reply: `{success: true, ...}` or `{success: false, error}`. */
  datatype Reply =
    | Objects(objects: seq<Record>)
    | PostOk(result: PostResult)
    | Fail(error: string)
  {
    predicate Succeeded() { !Fail? }
  }

  /** `error.toString()` of an `Error` thrown with a message. */
  function Thrown(message: string): string {
    "Error: " + message
  }

  /** `doGet`: `getAll` answers with every stored object (with none when the sheet is
      switched off, without touching it); any other action is refused. */
  function DoGet(useSheets: bool, action: string, sheet: Sheet,
                 parse: string -> Option<Json>): (r: (Sheet, Reply))
    ensures action != "getAll" ==> r == (sheet, Fail("Unknown action"))
    ensures action == "getAll" && !useSheets ==> r == (sheet, Objects([]))
    ensures action == "getAll" && useSheets ==>
      r.1.Objects? && r.0 == EnsureHeaders(sheet) && r.1.objects == ReadObjects(r.0, parse)
    ensures r.1.Objects? ==> forall o :: o in r.1.objects ==> HasId(o)
  {
    if action == "getAll" then
      if !useSheets then (sheet, Objects([]))
      else
        var got := GetAllObjects(sheet, parse);
        (got.0, Objects(got.1))
    else
      (sheet, Fail("Unknown action"))
  }

  /** The `object` field of a POST body: missing, `null`, or an object. */
  datatype ObjectField = Absent | NullObject | Given(value: Record)

  /** A parsed POST body that is an object: the action and the fields the actions read.
      An action that is missing or not a string is any text other than the five names. */
  datatype PostBody = PostBody(action: string, obj: ObjectField, id: Json, upload: UploadRequest)

  /** What `JSON.parse` made of the request body: `null`, another value that is not an
      object (a number, string, boolean or array, on which `data.action` is
      `undefined`), or an object. */
  datatype PostData = NullBody | NonObjectBody | Fields(body: PostBody)

  /** The actions that need the sheet. */
  predicate IsStoreAction(action: string) {
    action == "create" || action == "update" || action == "delete"
  }

  /** `error.toString()` of the `TypeError` a property read throws on `null` or
      `undefined`, in the wording of the V8 engine Apps Script runs on. */
  function ReadError(nullish: string, property: string): string {
    "TypeError: Cannot read properties of " + nullish + " (reading '" + property + "')"
  }

  /** The error `createObject` and `updateObject` raise on a missing or `null` object:
      both read `obj.id` after the header check. */
  function NoObjectError(f: ObjectField): string
    requires !f.Given?
  {
    ReadError(if f.Absent? then "undefined" else "null", "id")
  }

  /** `doPost`: a body that does not parse is answered with the parse error, and a
      `null` body with the error of reading its action; the store actions run
      `createObject`, `updateObject` or `deleteObject` (and fail with "Sheets disabled"
      when the sheet is switched off); a create or update without an object fails
      after the header check; `uploadImage` runs regardless; a failure thrown on the
      way is answered as an error; any other action is refused. */
  function DoPost(useSheets: bool, body: Result<PostData, string>, sheet: Sheet,
                  now: string, freshId: string, stringify: Json -> string,
                  decode: string -> Result<seq<bv8>, string>,
                  store: Blob -> Result<DriveFile, DriveError>): (r: (Sheet, Reply))
    ensures body.Failure? ==> r == (sheet, Fail(body.error))
    ensures body == Success(NullBody) ==> r == (sheet, Fail(ReadError("null", "action")))
    ensures body == Success(NonObjectBody) ==> r == (sheet, Fail("Unknown action"))
    ensures body.Success? && body.value.Fields? ==> var b := body.value.body;
      !IsStoreAction(b.action) && b.action != "uploadImage" ==>
      r == (sheet, Fail("Unknown action"))
    ensures body.Success? && body.value.Fields? ==> var b := body.value.body;
      IsStoreAction(b.action) && !useSheets ==> r == (sheet, Fail(Thrown("Sheets disabled")))
    ensures body.Success? && body.value.Fields? ==> var b := body.value.body;
      IsStoreAction(b.action) && useSheets ==>
      (r.1.PostOk? <==> b.action == "delete" || b.obj.Given?)
    ensures body.Success? && body.value.Fields? ==> var b := body.value.body;
      (b.action == "create" || b.action == "update") && useSheets && !b.obj.Given? ==>
      r == (EnsureHeaders(sheet), Fail(NoObjectError(b.obj)))
    ensures body.Success? && body.value.Fields? ==> var b := body.value.body;
      b.action == "create" && useSheets && b.obj.Given? ==>
      r.0 == CreateObject(sheet, b.obj.value, now, freshId, stringify).0
      && r.1 == PostOk(Saved(Stamp(b.obj.value, now, freshId)))
    ensures body.Success? && body.value.Fields? ==> var b := body.value.body;
      b.action == "update" && useSheets && b.obj.Given? ==>
      var u := UpdateObject(sheet, b.obj.value, now, freshId, stringify);
      r == (u.0, PostOk(Saved(u.1)))
    ensures body.Success? && body.value.Fields? ==> var b := body.value.body;
      b.action == "delete" && useSheets ==>
      var d := DeleteObject(sheet, b.id);
      r == (d.0, PostOk(Deletion(d.1)))
    ensures body.Success? && body.value.Fields? ==> var b := body.value.body;
      b.action == "uploadImage" ==>
      r.0 == sheet
      && (b.upload.data == "" ==> r.1 == Fail(Thrown(MissingData)))
      && (r.1.PostOk? <==> UploadImage(Some(b.upload), decode, store).Success?)
    ensures body.Success? && body.value.Fields? ==> var b := body.value.body;
      b.action == "uploadImage" ==>
      r.1 == match UploadImage(Some(b.upload), decode, store)
             case Failure(m) => Fail(Thrown(m))
             case Success(f) => PostOk(Upload(f))
  {
    match body
    case Failure(e) => (sheet, Fail(e))
    case Success(NullBody) => (sheet, Fail(ReadError("null", "action")))
    case Success(NonObjectBody) => (sheet, Fail("Unknown action"))
    case Success(Fields(b)) =>
      if IsStoreAction(b.action) && !useSheets then
        (sheet, Fail(Thrown("Sheets disabled")))
      else if (b.action == "create" || b.action == "update") && !b.obj.Given? then
        (EnsureHeaders(sheet), Fail(NoObjectError(b.obj)))
      else if b.action == "create" then
        var c := CreateObject(sheet, b.obj.value, now, freshId, stringify);
        (c.0, PostOk(Saved(c.1)))
      else if b.action == "update" then
        var u := UpdateObject(sheet, b.obj.value, now, freshId, stringify);
        (u.0, PostOk(Saved(u.1)))
      else if b.action == "delete" then
        var d := DeleteObject(sheet, b.id);
        (d.0, PostOk(Deletion(d.1)))
      else if b.action == "uploadImage" then
        match UploadImage(Some(b.upload), decode, store)
        case Failure(m) => (sheet, Fail(Thrown(m)))
        case Success(f) => (sheet, PostOk(Upload(f)))
      else
        (sheet, Fail("Unknown action"))
  }

  /** A request the deployed script refuses leaves the sheet as it was, with one
      exception: a create or update without an object fails only after the header
      check has run, so the sheet then holds the checked header row. */
  lemma FailedPostKeepsSheet(body: Result<PostData, string>, sheet: Sheet, now: string,
                             freshId: string, stringify: Json -> string,
                             decode: string -> Result<seq<bv8>, string>,
                             store: Blob -> Result<DriveFile, DriveError>)
    ensures var r := DoPost(UseSheets, body, sheet, now, freshId, stringify, decode, store);
      !r.1.Succeeded() ==>
        || r.0 == sheet
        || (&& body.Success? && body.value.Fields? && !body.value.body.obj.Given?
            && r == (EnsureHeaders(sheet), Fail(NoObjectError(body.value.body.obj))))
  {
  }

  /** Posting a create and then asking for every object returns the objects stored
      before followed by the one just created, with its id. */
  lemma PostCreateThenGet(sheet: Sheet, obj: Record, id: Json, upload: UploadRequest,
                          now: string, freshId: string,
                          parse: string -> Option<Json>, stringify: Json -> string,
                          decode: string -> Result<seq<bv8>, string>,
                          store: Blob -> Result<DriveFile, DriveError>)
    requires ArrayFieldsRoundTrip(obj, parse, stringify)
    requires NoStrayHeaders(sheet)
    requires HasId(obj) || freshId != ""
    ensures var body := Success(Fields(PostBody("create", Given(obj), id, upload)));
      var posted := DoPost(UseSheets, body, sheet, now, freshId, stringify, decode, store);
      var before := DoGet(UseSheets, "getAll", sheet, parse).1.objects;
      var after := DoGet(UseSheets, "getAll", posted.0, parse);
      && posted.1 == PostOk(Saved(Stamp(obj, now, freshId)))
      && after.0 == posted.0
      && |after.1.objects| == |before| + 1
      && after.1.objects[..|before|] == before
      && Field(after.1.objects[|before|], "id") == Field(Stamp(obj, now, freshId), "id")
  {
    CreateThenGetAll(sheet, obj, now, freshId, parse, stringify);
  }
}
