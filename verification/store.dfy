/** The store operations of the Apps Script (`getAllObjects`, `createObject`,
    `updateObject`, `deleteObject`) as functions from a sheet to a new sheet and a
    result. Each first runs the header check of `getSheet`. The clock
    (`new Date().toISOString()`), the id generator (`new Date().getTime().toString()`)
    and `JSON.parse`/`JSON.stringify` are parameters. */
module SheetStore {
  import opened Wrappers
  import opened Seqs
  import opened JsonValues
  import opened Schema
  import opened RowCodec

  /** The number of columns `getDataRange` covers: the length of the longest row. */
  function Width(sheet: Sheet): (w: nat)
    ensures forall i :: 0 <= i < |sheet| ==> |sheet[i]| <= w
    decreases |sheet|
  {
    if |sheet| == 0 then 0
    else
      var front := sheet[..|sheet| - 1];
      var w := Width(front);
      assert forall i :: 0 <= i < |front| ==> front[i] == sheet[i];
      if |sheet[|sheet| - 1]| > w then |sheet[|sheet| - 1]| else w
  }

  /** The header cells as `getDataRange` returns them: row 1 widened with blank cells
      to the sheet's width. */
  function DataHeaders(sheet: Sheet): (h: Row)
    requires |sheet| > 0
    ensures |h| == Width(sheet)
    ensures h[..|sheet[0]|] == sheet[0]
    ensures forall l :: |sheet[0]| <= l < |h| ==> h[l] == Str("")
  {
    sheet[0] + seq(Width(sheet) - |sheet[0]|, _ => Str(""))
  }

  /** Every data row (rows 1..) decoded under the header row, in sheet order. */
  function DecodedRows(sheet: Sheet, parse: string -> Option<Json>): (r: seq<Record>)
    ensures |r| == if |sheet| <= 1 then 0 else |sheet| - 1
  {
    if |sheet| <= 1 then []
    else
      var headers := DataHeaders(sheet);
      seq(|sheet| - 1, i requires 0 <= i < |sheet| - 1 => DecodeRow(headers, sheet[i + 1], parse))
  }

  /** `if (obj.id)`: a decoded row is kept only when its id is truthy. */
  predicate HasId(o: Record) {
    Truthy(Field(o, "id"))
  }

  /** The objects `getAllObjects` returns for a sheet whose header check has run:
      nothing for a sheet of at most one row; otherwise the decoded data rows with a
      truthy id, in sheet order, each as often as it occurs. The header row is never
      among them. */
  function ReadObjects(sheet: Sheet, parse: string -> Option<Json>): (r: seq<Record>)
    ensures |sheet| <= 1 ==> r == []
    ensures IsSubsequence(r, DecodedRows(sheet, parse))
    ensures forall o :: o in r ==>
      HasId(o) && exists i :: 1 <= i < |sheet| && o == DecodeRow(DataHeaders(sheet), sheet[i], parse)
    ensures forall i :: 1 <= i < |sheet| && HasId(DecodeRow(DataHeaders(sheet), sheet[i], parse)) ==>
      DecodeRow(DataHeaders(sheet), sheet[i], parse) in r
    ensures forall o :: multiset(r)[o] == if HasId(o) then multiset(DecodedRows(sheet, parse))[o] else 0
  {
    DecodedRowsMembers(sheet, parse);
    FilterCounts(HasId, DecodedRows(sheet, parse));
    Filter(HasId, DecodedRows(sheet, parse))
  }

  /** The decoded rows are exactly the data rows decoded. */
  lemma DecodedRowsMembers(sheet: Sheet, parse: string -> Option<Json>)
    ensures forall o :: o in DecodedRows(sheet, parse) ==>
      exists i :: 1 <= i < |sheet| && o == DecodeRow(DataHeaders(sheet), sheet[i], parse)
    ensures forall i :: 1 <= i < |sheet| ==> DecodeRow(DataHeaders(sheet), sheet[i], parse) in DecodedRows(sheet, parse)
  {
    var rows := DecodedRows(sheet, parse);
    if |sheet| > 1 {
      forall o | o in rows ensures exists i :: 1 <= i < |sheet| && o == DecodeRow(DataHeaders(sheet), sheet[i], parse) {
        var k :| 0 <= k < |rows| && rows[k] == o;
        assert o == DecodeRow(DataHeaders(sheet), sheet[k + 1], parse);
      }
      forall i | 1 <= i < |sheet| ensures DecodeRow(DataHeaders(sheet), sheet[i], parse) in rows {
        assert rows[i - 1] == DecodeRow(DataHeaders(sheet), sheet[i], parse);
      }
    }
  }

  /** `getAllObjects`: the header check, then the objects read from the checked sheet.
      Only the header row may change, and every object returned has an id. */
  function GetAllObjects(sheet: Sheet, parse: string -> Option<Json>): (r: (Sheet, seq<Record>))
    ensures r.0 == EnsureHeaders(sheet) && r.1 == ReadObjects(r.0, parse)
    ensures HasHeaders(r.0)
    ensures |r.0| == if |sheet| == 0 then 1 else |sheet|
    ensures forall i :: 1 <= i < |sheet| ==> r.0[i] == sheet[i]
    ensures |sheet| <= 1 ==> r.1 == []
    ensures |r.1| <= |r.0| - 1
    ensures forall o :: o in r.1 ==> HasId(o)
  {
    var s := EnsureHeaders(sheet);
    (s, ReadObjects(s, parse))
  }

  /** `data[i][0] === id` for one row. A missing id (`undefined`) matches no cell, as
      no cell read from a sheet is `undefined`. */
  predicate IdMatches(row: Row, id: Json) {
    !id.Null? && StrictEquals(CellAt(row, 0), id)
  }

  /** The first row at or after `from` whose id cell matches. */
  function FindRowFrom(sheet: Sheet, id: Json, from: nat): (r: Option<nat>)
    ensures r.Some? ==>
      && from <= r.value < |sheet|
      && IdMatches(sheet[r.value], id)
      && forall j :: from <= j < r.value ==> !IdMatches(sheet[j], id)
    ensures r.None? ==> forall j :: from <= j < |sheet| ==> !IdMatches(sheet[j], id)
    decreases |sheet| - from
  {
    if from >= |sheet| then None
    else if IdMatches(sheet[from], id) then Some(from)
    else FindRowFrom(sheet, id, from + 1)
  }

  /** The search loop of `updateObject` and `deleteObject`: the first data row whose
      id cell matches; the header row is never searched. */
  function FindRow(sheet: Sheet, id: Json): (r: Option<nat>)
    ensures r.Some? ==> 1 <= r.value < |sheet| && IdMatches(sheet[r.value], id)
    ensures r.Some? ==> forall j :: 1 <= j < r.value ==> !IdMatches(sheet[j], id)
    ensures r.None? ==> forall j :: 1 <= j < |sheet| ==> !IdMatches(sheet[j], id)
  {
    FindRowFrom(sheet, id, 1)
  }

  /** The object `createObject` stores and returns: an id from `freshId` when it has
      none, `createdAt` kept when truthy and set to `now` otherwise, `updatedAt` set to
      `now`, every other property as given. */
  function Stamp(obj: Record, now: string, freshId: string): (o: Record)
    ensures HasId(obj) ==> Field(o, "id") == Field(obj, "id")
    ensures !HasId(obj) ==> Field(o, "id") == Str(freshId)
    ensures Truthy(Field(obj, "createdAt")) ==> Field(o, "createdAt") == Field(obj, "createdAt")
    ensures !Truthy(Field(obj, "createdAt")) ==> Field(o, "createdAt") == Str(now)
    ensures Field(o, "updatedAt") == Str(now)
    ensures forall key :: key != "id" && key != "createdAt" && key != "updatedAt" ==>
      (key in o <==> key in obj) && Field(o, key) == Field(obj, key)
  {
    var withId := if HasId(obj) then obj else obj["id" := Str(freshId)];
    var created := Field(withId, "createdAt");
    withId["createdAt" := if Truthy(created) then created else Str(now)]["updatedAt" := Str(now)]
  }

  /** Stamping leaves the array properties alone, so their values survive the JSON
      text afterwards when they did before. */
  lemma StampKeepsArrayFields(obj: Record, now: string, freshId: string,
                              parse: string -> Option<Json>, stringify: Json -> string)
    requires ArrayFieldsRoundTrip(obj, parse, stringify)
    ensures ArrayFieldsRoundTrip(Stamp(obj, now, freshId), parse, stringify)
  {
  }

  /** The stamped object has an id when the given object has one or a non-empty
      fresh id is supplied. */
  lemma StampHasId(obj: Record, now: string, freshId: string)
    requires HasId(obj) || freshId != ""
    ensures HasId(Stamp(obj, now, freshId))
  {
  }

  /** `createObject`: the header check, then the encoded object appended as the last
      row. Nothing before it changes; the sheet grows by exactly one row. */
  function CreateObject(sheet: Sheet, obj: Record, now: string, freshId: string,
                        stringify: Json -> string): (r: (Sheet, Record))
    ensures r.1 == Stamp(obj, now, freshId)
    ensures var s := EnsureHeaders(sheet);
      && |r.0| == |s| + 1
      && r.0[..|s|] == s
      && r.0[|s|] == EncodeRow(r.1, stringify)
  {
    var s := EnsureHeaders(sheet);
    var o := Stamp(obj, now, freshId);
    (s + [EncodeRow(o, stringify)], o)
  }

  /** `setValues` on the first |cells| columns of a row: those cells are replaced, any
      to their right stay. */
  function Overwrite(row: Row, cells: Row): (r: Row)
    ensures |r| == if |row| > |cells| then |row| else |cells|
    ensures r[..|cells|] == cells
    ensures forall l :: |cells| <= l < |r| ==> r[l] == row[l]
  {
    cells + (if |row| > |cells| then row[|cells|..] else [])
  }

  /** `updateObject`: the header check, then the first data row whose id cell is the
      object's id is overwritten with the object, `updatedAt` set to `now`; no other
      row changes and the row count stays. With no such row it is `createObject`. */
  function UpdateObject(sheet: Sheet, obj: Record, now: string, freshId: string,
                        stringify: Json -> string): (r: (Sheet, Record))
    ensures FindRow(EnsureHeaders(sheet), Field(obj, "id")).None? ==>
      r == CreateObject(sheet, obj, now, freshId, stringify)
    ensures var s := EnsureHeaders(sheet);
      FindRow(s, Field(obj, "id")).Some? ==>
        var i := FindRow(s, Field(obj, "id")).value;
        && r.1 == obj["updatedAt" := Str(now)]
        && |r.0| == |s|
        && (forall j :: 0 <= j < |s| && j != i ==> r.0[j] == s[j])
        && |r.0[i]| >= |HEADERS|
        && r.0[i][..|HEADERS|] == EncodeRow(r.1, stringify)
        && |r.0[i]| == (if |s[i]| > |HEADERS| then |s[i]| else |HEADERS|)
        && forall l :: |HEADERS| <= l < |s[i]| ==> r.0[i][l] == s[i][l]
  {
    var s := EnsureHeaders(sheet);
    match FindRow(s, Field(obj, "id"))
    case None =>
      CreateObject(s, obj, now, freshId, stringify)
    case Some(i) =>
      var o := obj["updatedAt" := Str(now)];
      var row := Overwrite(s[i], EncodeRow(o, stringify));
      (s[i := row], o)
  }

  /** The reply of `deleteObject`. */
  datatype DeleteResult = DeleteResult(deleted: bool, id: Json, error: Option<string>)

  /** `deleteObject`: the header check, then the first data row whose id cell is `id`
      is removed and the reply says so; with no such row the sheet keeps every row and
      the reply is "Not found". */
  function DeleteObject(sheet: Sheet, id: Json): (r: (Sheet, DeleteResult))
    ensures r.1.id == id
    ensures r.1.deleted ==> r.1.error == None && |r.0| == |EnsureHeaders(sheet)| - 1
    ensures !r.1.deleted ==> r.0 == EnsureHeaders(sheet) && r.1.error == Some("Not found")
  {
    var s := EnsureHeaders(sheet);
    match FindRow(s, id)
    case Some(i) => (s[..i] + s[i + 1..], DeleteResult(true, id, None))
    case None => (s, DeleteResult(false, id, Some("Not found")))
  }

  /** A delete succeeds exactly when some data row carries the id; it then removes the
      first such row and keeps every other row, the header row included. */
  lemma DeleteRemovesFirstMatch(sheet: Sheet, id: Json)
    ensures var s := EnsureHeaders(sheet);
      DeleteObject(sheet, id).1.deleted <==> exists i :: 1 <= i < |s| && IdMatches(s[i], id)
    ensures var s := EnsureHeaders(sheet);
      var r := DeleteObject(sheet, id);
      r.1.deleted ==>
        && r.0[0] == s[0]
        && exists i :: 1 <= i < |s| && IdMatches(s[i], id)
             && (forall j :: 1 <= j < i ==> !IdMatches(s[j], id))
             && r.0 == s[..i] + s[i + 1..]
  {
    var s := EnsureHeaders(sheet);
    var f := FindRow(s, id);
    if f.Some? {
      var i := f.value;
      assert DeleteObject(sheet, id).0 == s[..i] + s[i + 1..];
    }
  }

  /** The cells to the right of HEADERS in the header row name no column of HEADERS. */
  predicate NoStrayHeaders(sheet: Sheet) {
    |sheet| > 0 ==> forall l :: |HEADERS| <= l < |sheet[0]| ==> ToText(sheet[0][l]) !in HEADERS
  }

  /** Appending a row no wider than the first leaves the width alone. */
  lemma WidthAppend(sheet: Sheet, row: Row)
    requires |sheet| > 0 && |row| <= |sheet[0]|
    ensures Width(sheet + [row]) == Width(sheet)
  {
    assert (sheet + [row])[..|sheet|] == sheet;
  }

  /** Reading a sheet with one more data row reads the same objects, followed by the
      new row's object when it has an id. */
  lemma {:induction false} ReadObjectsAppend(s: Sheet, row: Row, parse: string -> Option<Json>)
    requires |s| > 0 && |row| <= |s[0]|
    ensures var o := DecodeRow(DataHeaders(s), row, parse);
      ReadObjects(s + [row], parse) == ReadObjects(s, parse) + (if HasId(o) then [o] else [])
  {
    var s1 := s + [row];
    WidthAppend(s, row);
    assert s1[0] == s[0];
    assert DataHeaders(s1) == DataHeaders(s);
    var o := DecodeRow(DataHeaders(s), row, parse);
    var before := DecodedRows(s, parse);
    var after := DecodedRows(s1, parse);
    assert after == before + [o] by {
      forall k | 0 <= k < |after| ensures after[k] == (before + [o])[k] {
        if k < |before| {
          assert after[k] == DecodeRow(DataHeaders(s), s[k + 1], parse) == before[k];
        }
      }
    }
    FilterAppend(HasId, before, o);
  }

  /** A created object is read back: after `createObject`, `getAllObjects` returns the
      objects it returned before, then the new object with its id and every column's
      property as the row codec keeps it, and the header check changes nothing. */
  lemma CreateThenGetAll(sheet: Sheet, obj: Record, now: string, freshId: string,
                         parse: string -> Option<Json>, stringify: Json -> string)
    requires ArrayFieldsRoundTrip(obj, parse, stringify)
    requires NoStrayHeaders(sheet)
    requires HasId(obj) || freshId != ""
    ensures var created := CreateObject(sheet, obj, now, freshId, stringify);
      var before := GetAllObjects(sheet, parse).1;
      var after := GetAllObjects(created.0, parse);
      && after.0 == created.0
      && |after.1| == |before| + 1
      && after.1[..|before|] == before
      && Field(after.1[|before|], "id") == Field(created.1, "id")
      && forall k :: 0 <= k < |HEADERS| ==>
           Field(after.1[|before|], HEADERS[k]) == Stored(HEADERS[k], Field(created.1, HEADERS[k]))
  {
    var s := EnsureHeaders(sheet);
    var created := CreateObject(sheet, obj, now, freshId, stringify);
    var row := EncodeRow(created.1, stringify);
    assert created.0 == s + [row];
    CreateKeepsHeaders(sheet, obj, now, freshId, stringify);
    ReadObjectsAppend(s, row, parse);
    var headers := DataHeaders(s);
    HeadersFirstAfterCheck(sheet);
    StampKeepsArrayFields(obj, now, freshId, parse, stringify);
    RoundTrip(created.1, headers, parse, stringify);
    var o := DecodeRow(headers, row, parse);
    StampHasId(obj, now, freshId);
    assert "id" in o && o["id"] == Field(created.1, "id");
    assert GetAllObjects(created.0, parse).1 == GetAllObjects(sheet, parse).1 + [o];
  }

  /** The sheet `createObject` leaves behind already has its header row, so the next
      header check changes nothing. */
  lemma CreateKeepsHeaders(sheet: Sheet, obj: Record, now: string, freshId: string,
                           stringify: Json -> string)
    ensures var created := CreateObject(sheet, obj, now, freshId, stringify);
      EnsureHeaders(created.0) == created.0
  {
    var s := EnsureHeaders(sheet);
    var created := CreateObject(sheet, obj, now, freshId, stringify);
    assert created.0[0] == s[0];
  }

  /** After the header check, the header row as read starts with HEADERS and names no
      column of HEADERS further right. */
  lemma HeadersFirstAfterCheck(sheet: Sheet)
    requires NoStrayHeaders(sheet)
    ensures HeadersFirst(DataHeaders(EnsureHeaders(sheet)))
  {
    var s := EnsureHeaders(sheet);
    var headers := DataHeaders(s);
    HeadersNonEmpty();
    assert headers[..|HEADERS|] == s[0][..|HEADERS|];
    forall l | |HEADERS| <= l < |headers| ensures ToText(headers[l]) !in HEADERS {
      if l < |s[0]| {
        assert |sheet| > 0 && |sheet[0]| >= |HEADERS|;
        assert s[0][|HEADERS|..] == sheet[0][|HEADERS|..];
        assert s[0][l] == s[0][|HEADERS|..][l - |HEADERS|] == sheet[0][l];
      } else {
        assert headers[l] == Str("");
      }
    }
  }

  /** The row `createObject` appends is the first row the id search finds for the
      created id, provided no earlier row carried that id; and the header check
      leaves the grown sheet alone. */
  lemma FindCreatedRow(sheet: Sheet, obj: Record, now: string, freshId: string,
                       stringify: Json -> string)
    requires HasId(obj) || freshId != ""
    requires !Field(obj, "id").Arr? && !Field(obj, "id").Obj?
    requires FindRow(EnsureHeaders(sheet), Field(Stamp(obj, now, freshId), "id")).None?
    ensures var created := CreateObject(sheet, obj, now, freshId, stringify);
      && EnsureHeaders(created.0) == created.0
      && FindRow(created.0, Field(created.1, "id")) == Some(|EnsureHeaders(sheet)|)
  {
    var s := EnsureHeaders(sheet);
    var created := CreateObject(sheet, obj, now, freshId, stringify);
    var id := Field(created.1, "id");
    var s1 := created.0;
    CreateKeepsHeaders(sheet, obj, now, freshId, stringify);
    assert IdMatches(s1[|s|], id) by {
      assert HEADERS[0] == "id" && !IsArrayColumn("id");
      assert s1[|s|][0] == id;
    }
    forall j | 1 <= j < |s| ensures !IdMatches(s1[j], id) {
      assert s1[j] == s[j];
    }
    assert FindRowFrom(s1, id, |s|) == Some(|s|);
    FindRowSkips(s1, id, 1, |s|);
  }

  /** Deleting the object just created, by the id it was given, removes its row and
      nothing else, provided no earlier row carried that id. */
  lemma DeleteAfterCreate(sheet: Sheet, obj: Record, now: string, freshId: string,
                          stringify: Json -> string)
    requires HasId(obj) || freshId != ""
    requires !Field(obj, "id").Arr? && !Field(obj, "id").Obj?
    requires FindRow(EnsureHeaders(sheet), Field(Stamp(obj, now, freshId), "id")).None?
    ensures var created := CreateObject(sheet, obj, now, freshId, stringify);
      DeleteObject(created.0, Field(created.1, "id")) ==
        (EnsureHeaders(sheet), DeleteResult(true, Field(created.1, "id"), None))
  {
    var s := EnsureHeaders(sheet);
    var created := CreateObject(sheet, obj, now, freshId, stringify);
    FindCreatedRow(sheet, obj, now, freshId, stringify);
    assert created.0[..|s|] + created.0[|s| + 1..] == s;
  }

  /** Updating the object just created (as `testScript` does after editing its title)
      overwrites the row `createObject` appended and no other: the sheet keeps its
      length and every earlier row. */
  lemma UpdateAfterCreate(sheet: Sheet, obj: Record, now: string, freshId: string,
                          edited: Record, later: string, laterId: string, stringify: Json -> string)
    requires HasId(obj) || freshId != ""
    requires !Field(obj, "id").Arr? && !Field(obj, "id").Obj?
    requires FindRow(EnsureHeaders(sheet), Field(Stamp(obj, now, freshId), "id")).None?
    requires Field(edited, "id") == Field(Stamp(obj, now, freshId), "id")
    ensures var created := CreateObject(sheet, obj, now, freshId, stringify);
      var updated := UpdateObject(created.0, edited, later, laterId, stringify);
      && updated.1 == edited["updatedAt" := Str(later)]
      && |updated.0| == |created.0|
      && updated.0[..|created.0| - 1] == EnsureHeaders(sheet)
      && updated.0[|created.0| - 1] == EncodeRow(updated.1, stringify)
  {
    var s := EnsureHeaders(sheet);
    var created := CreateObject(sheet, obj, now, freshId, stringify);
    FindCreatedRow(sheet, obj, now, freshId, stringify);
    var updated := UpdateObject(created.0, edited, later, laterId, stringify);
    assert updated.0[..|s|] == s;
  }

  /** The search moves past rows that do not match. */
  lemma {:induction false} FindRowSkips(sheet: Sheet, id: Json, from: nat, to: nat)
    requires from <= to <= |sheet|
    requires forall j :: from <= j < to ==> !IdMatches(sheet[j], id)
    ensures FindRowFrom(sheet, id, from) == FindRowFrom(sheet, id, to)
    decreases |sheet| - from
  {
    if from < to {
      FindRowSkips(sheet, id, from + 1, to);
    }
  }
}
