# North Star archives: a Dafny model of the list logic and the sheet store

The archive app is a React catalogue of archival objects with a Google Apps Script
backend. The backend keeps one object per row of a spreadsheet. This project models
the two pieces of sequential logic in it as pure functions over immutable
datatypes, and proves their properties.

**The client list operations** (`src/app.jsx`):

- the image editor's add, remove and set-primary, with the "exactly one primary
  image" invariant and the card's choice of image;
- the tag editor, which keeps tags trimmed and distinct;
- the contributor editor;
- wrap-around gallery navigation;
- the related-objects ranking;
- the browse view's search and filters, with its dropdown option lists;
- the admin form's submit check;
- the app's list update on save.

**The Apps Script store** (`google-apps-script.js`):

- the header check run before every sheet access;
- the row codec between objects and rows;
- `getAllObjects`, `createObject`, `updateObject` (an upsert) and `deleteObject`;
- `uploadImage`'s argument handling;
- the `doGet`/`doPost` dispatch with its success and error replies.

Modules follow the program's structure:

| Module | Contents |
|---|---|
| `Wrappers` | `Option` and `Result` |
| `Seqs` | filter, count, remove-at, dedup, take |
| `Text` | ECMAScript `trim`, ASCII `toLowerCase`, `includes`, `join` |
| `Catalog` | the object record |
| `ImageEditing`, `FormLists`, `Gallery`, `Related`, `Browse`, `Editing` | the client half |
| `JsonValues` | JavaScript values, truthiness, `===`, `String()` |
| `Schema` | `HEADERS` and the header check |
| `RowCodec` | the row codec |
| `SheetStore` | the store operations |
| `Endpoint` | the dispatch |

Modelling choices:

- **Cells and request fields** are a small JSON datatype. A missing property and
  `undefined` are both `Null`.
- **A sheet** is a sequence of rows whose row 0 is the header row. A cell past a
  row's stored end reads as `''`, because `getDataRange` is rectangular.
- **Parameters stand in for the world outside.** The clock, the id generator,
  `JSON.parse`/`JSON.stringify`, base64 decoding and the Drive calls are all
  parameters. The real `JSON.stringify` does not round-trip every value: it drops
  properties whose value is `undefined`, for one. So the round-trip lemmas ask only
  that the three array properties of the object being stored survive it. Each
  such value, or `[]` in place of a falsy one, must stringify to non-empty text that
  parses back to the same value.

## Model

| member | source | states |
|---|---|---|
| ImageEditing.AddImage | src/app.jsx:767-774 | A url that trims to empty changes nothing. Otherwise exactly one image is appended, with the trimmed url and caption; it is primary iff the list was empty, and both boxes are cleared. |
| ImageEditing.AddImageKeepsInvariant | src/app.jsx:767-774 | Adding keeps "an empty list, or exactly one primary image". |
| ImageEditing.RemoveImage | src/app.jsx:776-783 | The list loses exactly the image at `idx` (none when `idx` is out of range). The rest keep their order and content. A non-empty result has a primary. When the remaining images already had a primary, nothing else changes; otherwise only the first image's flag changes. |
| ImageEditing.RemoveImageKeepsInvariant | src/app.jsx:776-783 | Removing keeps "at most one primary" and keeps "exactly one primary when non-empty". |
| ImageEditing.SetPrimary | src/app.jsx:785-787 | The length, urls and captions are unchanged, and exactly the image at `idx` is primary. |
| ImageEditing.SetPrimarySelects | src/app.jsx:785-787 | After set-primary on a valid index the invariant holds and the card shows that image. |
| ImageEditing.RemoveUndoesAdd | src/app.jsx:767-783 | Removing the image just added restores the list, provided the list was empty or had a primary. |
| ImageEditing.PrimaryImage | src/app.jsx:541 | The card image is absent iff there are no images. Otherwise it is the first primary image when one exists, and else the first image. |
| ImageEditing.PrimaryImageIsThePrimary | src/app.jsx:541 | Under the one-primary invariant the card shows the primary image. |
| ImageEditing.FindPrimary | src/app.jsx:541 | The first primary image at or after a position, or none when no image there is primary. |
| ImageEditing.HasPrimaryIff | src/app.jsx:779 | `some(isPrimary)` holds iff the primary count is positive. |
| FormLists.AddTag | src/app.jsx:639-645 | Empty or already-present trimmed text changes nothing. Otherwise the trimmed text is appended and the box is cleared. |
| FormLists.AddTagKeepsDistinct | src/app.jsx:639-645 | A duplicate-free tag list stays duplicate-free. |
| FormLists.AddTagIdempotent | src/app.jsx:639-645 | Adding the same text twice gives the same tags as adding it once. |
| FormLists.RemoveTag | src/app.jsx:647-649 | Every occurrence of the tag goes. Every other tag keeps its multiplicity, and the result is an order-preserving subsequence. |
| FormLists.RemoveTagUndoesAdd | src/app.jsx:639-649 | Removing a tag just added restores the earlier list. |
| FormLists.AddMaker | src/app.jsx:703-709 | A blank name changes nothing. Otherwise one contributor is appended, with the trimmed name and the trimmed role (or `Contributor` when that is empty), and both boxes are cleared. |
| FormLists.RemoveMaker | src/app.jsx:711-713 | Exactly the contributor at `idx` is dropped; an out-of-range index drops nothing. |
| FormLists.AddMakerKeepsWellFormed | src/app.jsx:703-709 | Adding keeps every contributor named (trimmed, non-blank) and given a role. |
| FormLists.RemoveMakerKeepsWellFormed | src/app.jsx:711-713 | Removing keeps every remaining contributor well formed. |
| FormLists.RemoveMakerUndoesAdd | src/app.jsx:703-713 | Removing the contributor just added restores the list. |
| Gallery.GoToPrevious | src/app.jsx:359-361 | From a valid position, the result is a valid position, and one step forward from it gives the start position back. |
| Gallery.GoToNext | src/app.jsx:363-365 | From a valid position, the result is the next position modulo the image count. |
| Gallery.PreviousNextInverse | src/app.jsx:359-365 | Previous and next undo each other. |
| Gallery.AdvanceWraps | src/app.jsx:363-365 | Pressing next `n` times moves `n` places round the ring, so a full round returns to the start. |
| Related.Score | src/app.jsx:583-609 | The weighted score: 3 for the same collection, 2 for the same type, 1 per shared keyword and material and 2 per shared maker name, counted over the candidate's lists. Its contract bounds it below by the collection and type points and above by `MaxScore`, the score of every entry shared. |
| Related.ScoreSelf | src/app.jsx:583-609 | An object scored against itself reaches `MaxScore`, so that bound is tight. |
| Related.ScorePositiveIff | src/app.jsx:580-608 | The score is positive iff the candidate shares the collection, the type, a keyword, a material or a maker name. |
| Related.SharedCountPositive | src/app.jsx:592-606 | A shared-entry count is positive iff some entry is shared. |
| Related.Insert | src/app.jsx:612 | Insertion keeps score order, grows the list by one, and puts first either the new entry or the old head. |
| Related.InsertAddsOne | src/app.jsx:612 | Insertion adds exactly the new entry (as a multiset). |
| Related.SortByScore | src/app.jsx:612 | The result is in non-increasing score order and is a permutation of the input. |
| Related.ScoreOthers | src/app.jsx:580-610 | The scored entries are exactly the objects with a different id, each paired with its score. Each such object appears as often as it occurs in the list, so there is one entry per other object. |
| Related.TakeThreeIsBest | src/app.jsx:612-613 | The first three of a sorted permutation are the best three: anything left out scores no higher than the third. |
| Related.Ranked | src/app.jsx:611-612 | The positive-scoring entries, reordered by non-increasing score, none lost or added. |
| Related.RelatedObjects | src/app.jsx:576-616 | At most three entries, in non-increasing score order. Each is an object of the list with a different id, its true score, and a score above 0. No entry appears more often than among the positive-scoring others. The panel is full: it shows three entries, or every positive-scoring other object when there are fewer than three. |
| Related.TopThreeEntries | src/app.jsx:580-613 | Each of the first three ranked entries is another object of the list, paired with its own positive score. |
| Related.RelatedObjectsBest | src/app.jsx:611-613 | Every positive-scoring other object is listed, or three are listed and it scores no higher than the third. |
| Browse.SearchText | src/app.jsx:1254-1263 | The searchable text contains every one of its parts (title, alternate title, about text, type, each keyword, each maker name), lower-cased. |
| Browse.FilterObjects | src/app.jsx:1251-1282 | The grid is an order-preserving subsequence of the objects. Each shown object contains the lower-cased query in its lower-cased searchable text and matches each set filter: type and collection by equality, keyword and material by membership. A shown object keeps its multiplicity. |
| Browse.NoFiltersShowsAll | src/app.jsx:1251-1282 | With no query and no filter every object is shown. |
| Browse.FilterObjectsIdempotent | src/app.jsx:1251-1282 | Filtering again with the same query and filters changes nothing. |
| Browse.SearchFindsOwnText | src/app.jsx:1254-1265 | Searching for any one of an object's searchable texts finds the object. |
| Browse.ObjectTypeOptions | src/app.jsx:1246 | The type options are distinct, are exactly the non-empty types in use, and come in the order in which each type is first used in the list. |
| Browse.CollectionOptions | src/app.jsx:1247 | The collection options are distinct, are exactly the non-empty collections in use, and come in the order of first use. |
| Browse.AllKeywords | src/app.jsx:1248 | A keyword is listed iff some object has it. |
| Browse.KeywordOptions | src/app.jsx:1248 | The keyword options are distinct, are exactly the keywords in use, and come in the order in which each keyword first occurs in the flattened keyword lists. |
| Editing.HandleSubmit | src/app.jsx:870-882 | Failure iff the title trims to empty, with "Title is required". On success, a non-empty id and createdAt are kept (otherwise filled from the generator and the clock), updatedAt is now, and every other field is as entered. |
| Editing.ResubmitKeepsIdentity | src/app.jsx:870-882 | Saving an object a second time keeps the id and creation time of the first save. |
| Editing.HandleSave | src/app.jsx:1468-1480 | Edit mode replaces every object with the saved id and keeps the length and all other objects. Add mode appends the saved object. Either way the detail view shows the saved object and editing ends. |
| Editing.HandleSaveKeepsIdsUnique | src/app.jsx:1468-1480 | Unique ids stay unique, given that an added object's id is new. |
| Editing.HandleSaveStoresObject | src/app.jsx:1468-1480 | The saved object is in the list afterwards, unless an edit found no object with its id; in that case the list is unchanged. |
| Editing.SubmitThenAdd | src/app.jsx:870-882 | A valid new form, submitted and saved, is appended with the fresh id and the submission time. |
| Seqs.Filter | src/app.jsx:648 | Filtering keeps exactly the elements that pass, as an order-preserving subsequence. |
| Seqs.FilterCounts | src/app.jsx:648 | Filtering keeps every copy of an element that passes and none of one that fails. |
| Seqs.Dedup | src/app.jsx:1246-1248 | `[...new Set(xs)]` is duplicate-free, has the same members, and lists them in the order of their first occurrence in `xs`. |
| Seqs.FilterKeepsFirstOccurrenceOrder | src/app.jsx:1246-1247 | Dropping the empty values first does not disturb the first-occurrence order of the values kept. |
| Seqs.Take | src/app.jsx:613 | `slice(0, n)` is the prefix of length `min(n, length)`, and holds no element more often than the whole list. |
| Text.Trim | src/app.jsx:640 | The result has no surrounding whitespace and is no longer than the input. |
| Text.TrimIsSlice | src/app.jsx:640 | The result is a slice of the input with only whitespace cut on either side. |
| Text.TrimEmptyIff | src/app.jsx:640 | A text trims to empty iff it is all whitespace. |
| Text.ToLower | src/app.jsx:1256-1263 | Lower-casing keeps the length and lower-cases each character in place. |
| Text.Join | src/app.jsx:1256-1263 | `join(sep)` is as long as the parts plus one separator between each neighbouring pair, and starts with the first part. |
| Text.JoinIncludesPart | src/app.jsx:1256-1263 | Every part occurs in the joined text. |
| Text.Includes | src/app.jsx:1265 | `includes` holds iff the query occurs at some position. |
| JsonValues.Truthy | google-apps-script.js:233-244 | JavaScript truthiness as the store uses it (`value ? … : []`, `value || []`, `if (obj.id)`): `null`/`undefined`, `false`, `0` and `''` are falsy and everything else, arrays and objects included, is truthy. |
| JsonValues.ToText | google-apps-script.js:233-240 | The text a cell turns into when it names a property (`obj[header]`) or is handed to `JSON.parse`: strings as they are, numbers in decimal, arrays as their items joined by commas, objects as `[object Object]`. |
| Schema.NeedsHeaderUpdate | google-apps-script.js:90-93 | The rewrite is needed iff the cells read are fewer than HEADERS or differ from it at some index. |
| Schema.HeaderCheckFiresIff | google-apps-script.js:89-101 | The check fires on a sheet iff its first row does not start with HEADERS. |
| Schema.EnsureHeaders | google-apps-script.js:89-101 | Afterwards the first row starts with HEADERS. A sheet that had them is unchanged. Cells right of the headers and every data row are kept. A first row shorter than HEADERS becomes exactly HEADERS wide, and an empty sheet gets exactly the header row of HEADERS. |
| Schema.EnsureHeadersIdempotent | google-apps-script.js:89-101 | A second header check changes nothing. |
| RowCodec.EncodeRow | google-apps-script.js:269-278 | One cell per HEADERS column, in order. Array columns hold the stringified value, or `[]` when it is falsy. Other columns hold the value when truthy and `''` otherwise. |
| RowCodec.DecodeRow | google-apps-script.js:227-241 | The object built from a data row, one property per header cell. Its contract is stated by `DecodeRowKeys` and `DecodeRowAt`. |
| RowCodec.DecodeCell | google-apps-script.js:229-238 | Under an array header, an empty or unparsable cell reads as `[]` and parsable text reads as its parse. Any other header takes the cell as it is. |
| RowCodec.DecodeRowKeys | google-apps-script.js:227-241 | The decoded object's properties are exactly the names of the header cells. |
| RowCodec.DecodeRowAt | google-apps-script.js:227-241 | The property named by header `j` holds decoded cell `j` unless a header further right has the same name. |
| RowCodec.RoundTrip | google-apps-script.js:227-241 | An encoded row decoded under a HEADERS header row gives back each column's value (falsy ones as `[]` or `''`), so a truthy id and truthy array fields come back unchanged. It asks only that the object's three array values survive the JSON text. |
| RowCodec.RoundTripColumn | google-apps-script.js:227-241 | One column of the round trip; when a column name repeats, the rightmost cell of that name is read and holds the same value. |
| SheetStore.ReadObjects | google-apps-script.js:214-249 | At most one row yields nothing. Otherwise the result is an order-preserving subsequence of the decoded data rows: exactly those with a truthy id, never the header row. Each object with an id occurs exactly as often as among the decoded rows, and one without occurs not at all. |
| SheetStore.GetAllObjects | google-apps-script.js:212-250 | The sheet is the header-checked one and the objects are exactly `ReadObjects` of it. So only the header row may change, and every returned object has an id. |
| SheetStore.FindRow | google-apps-script.js:294-300 | The first data row (index ≥ 1) whose first cell strictly equals the id, or none. |
| SheetStore.Stamp | google-apps-script.js:258-266 | The id is generated only when falsy. A truthy createdAt is kept, otherwise it is now. updatedAt is now, and all other properties are unchanged. |
| SheetStore.CreateObject | google-apps-script.js:255-284 | The sheet grows by exactly one row, the encoded object, appended after the checked sheet. |
| SheetStore.UpdateObject | google-apps-script.js:289-326 | With no matching row it is exactly `createObject`. Otherwise only the first matching row changes: its first HEADERS cells become the encoded object with updatedAt now, the cells beyond are kept, and the row count stays. |
| SheetStore.DeleteObject | google-apps-script.js:331-344 | The reply echoes the id. A deletion reports no error and removes one row; otherwise the sheet is left as the header check made it and the reply is `Not found`. |
| SheetStore.DeleteRemovesFirstMatch | google-apps-script.js:335-341 | A row is deleted iff some data row matches; the row removed is the first match, and the header row and every other row stay in order. |
| SheetStore.CreateKeepsHeaders | google-apps-script.js:255-284 | After a create the sheet already has its header row, so the next header check changes nothing. |
| SheetStore.StampKeepsArrayFields | google-apps-script.js:258-266 | Stamping leaves the array properties alone, so a value that survived the JSON text before still does. |
| SheetStore.CreateThenGetAll | google-apps-script.js:456-461 | After a create, getAll returns the earlier objects followed by the new one, with its id and each column's value as stored, provided the object's array values survive the JSON text. |
| SheetStore.FindCreatedRow | google-apps-script.js:294-300 | When no earlier row carried the new id, the id search finds exactly the row a create appended. This holds only while Sheets keeps the id as text. |
| SheetStore.DeleteAfterCreate | google-apps-script.js:469-471 | Deleting the created object by its id gives back the checked sheet and `{deleted: true}`. This holds only while Sheets keeps the id as text. |
| SheetStore.UpdateAfterCreate | google-apps-script.js:464-467 | Updating the created object overwrites the appended row and nothing else. This holds only while Sheets keeps the id as text. |
| Endpoint.UploadImage | google-apps-script.js:349-407 | "Missing image data" iff there is no data. A decode failure reports its reason. Otherwise the blob, with the given or default MIME type and file name, goes to Drive: a folder failure gives "Failed to get image folder: " and a create failure "Failed to create file in Drive: ", each with the reason, and success answers the file's id, name and view URL. |
| Endpoint.UploadImageSucceedsIff | google-apps-script.js:349-407 | An upload succeeds iff the request has data, the data decodes and Drive stores the blob; the reply names the file Drive made. |
| Endpoint.DoGet | google-apps-script.js:139-164 | Any action but `getAll` is refused with "Unknown action". With the sheet off, `getAll` answers `[]` and leaves the sheet alone. Otherwise it answers the objects read after the header check, each with an id. |
| Endpoint.DoPost | google-apps-script.js:169-207 | A parse failure is answered with its error. A `null` body gets the TypeError of reading its action, and any other non-object body gets "Unknown action", as does an unknown action. With the sheet off, a store action gets "Error: Sheets disabled" and the sheet is unchanged. With it on, a store action succeeds iff it is a delete or carries an object. A create or update without one fails with the TypeError of reading `id`, after the header check has run. Otherwise each runs its operation and answers its result. An upload never touches the sheet. A failed upload is answered with `Error: ` and `uploadImage`'s message, and a successful one with the stored file. |
| Endpoint.FailedPostKeepsSheet | google-apps-script.js:169-207 | A refused request leaves the sheet as it was, except a create or update without an object, which leaves it as the header check made it. |
| Endpoint.PostCreateThenGet | google-apps-script.js:169-207 | A posted create of an object whose array values survive the JSON text, followed by a getAll, returns the earlier objects plus the created one. |

## Left out

- JSX rendering, icons, styling, `alert` and `window.scrollTo` are presentation only. React state is modelled as plain state-transition functions.
- The sample data `INITIAL_OBJECTS` is not modelled.
- Finding the sheet by name (or falling back to the first sheet) is foreign I/O, and so are `getImageFolder` and the Drive sharing fallbacks. The model starts from the sheet found. A newly inserted sheet gets its header row like an empty one.
- `Logger`, `ContentService` and the MIME type of replies are left out; a reply is the `Reply` datatype.
- Errors thrown by the Google services themselves (quota, permissions) are not modelled. The `catch` in `doGet` is therefore never reached in the model. In `doPost` it is reached through a body that does not parse, a `null` body, `Sheets disabled`, a create or update without an object, and the upload errors.
- The `TypeError` texts are those of the V8 engine ("Cannot read properties of undefined (reading 'id')"). An `object` field that is present but is not an object (a number, string or array) is not modelled; the model treats the field as missing, `null` or an object.
- The clock and id generator are parameters. The formats of `toISOString()` and `getTime()` are not modelled.
- Editing.HandleSubmit: uses one `now` for both `createdAt` and `updatedAt`, where the source reads the clock twice.
- `JSON.parse` and `JSON.stringify` are parameters, not a JSON implementation. A request body that fails to parse arrives as a `Failure` carrying the error's text. One that parses arrives as `null`, as another non-object value, or as an object's fields. An action that is missing or not a string is modelled as text other than the five action names, since the `switch` compares with `===`.
- Numbers are integers. Floating point, and JavaScript's exponent notation for very large numbers in `String()`, are not modelled.
- Spreadsheet auto-conversion is not modelled: text that looks like a number or date is stored as written. Under that conversion a numeric-looking id would read back as a number and miss the strict `===` match in update and delete. Every generated id is numeric-looking (`getTime().toString()`), so the three lemmas below hold only for ids that Sheets keeps as text.
- SheetStore.FindCreatedRow: holds only for an id that Sheets stores as text, not for a generated numeric-looking id that it converts to a number.
- SheetStore.DeleteAfterCreate: holds only for an id that Sheets stores as text, for the same reason.
- SheetStore.UpdateAfterCreate: holds only for an id that Sheets stores as text, for the same reason.
- Text.ToLower: lower-cases ASCII letters only, not the full Unicode mapping of `toLowerCase`.
- Related.SortByScore: fixes no order among equal scores. The source's `sort` is stable, but only the non-increasing order is promised here.
- ImageEditing.RemoveImage: returns a new list. The source sets `isPrimary` on an image object shared with the previous list, so that aliasing mutation is not modelled.
- Optional fields are modelled as present and empty. The client's `?.` guards on missing `keywords`, `materials`, `makers` or `images`, and on a missing current object, are not modelled separately.
- Gallery.GoToPrevious: requires at least one image, because the gallery renders no navigation for an empty list (src/app.jsx:349-355).
- Gallery.GoToNext: requires at least one image, for the same reason.
- Behaviour described for the app but absent from these two files is not modelled: a local cache, a side-cache for pending images, an image resizing loop and an HTTP client for the store.
- Concurrency between clients (last write wins) is out of scope.
