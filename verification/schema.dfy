/** The spreadsheet behind the Apps Script store: its fixed column list and the
    header check `getSheet` runs before every read and write. */
module Schema {
  import opened JsonValues
  import opened Seqs

  /** A row of cells as `getValues` returns it. */
  type Row = seq<Json>

  /** A sheet: row 0 is the header row, rows 1.. hold one object each. */
  type Sheet = seq<Row>

  /** The column names, in column order. */
  const HEADERS: seq<string> := [
    "id", "title", "aboutText", "images", "from", "designer", "maker", "makerRole",
    "portfolioTitle", "mediumMaterials", "measurements", "keywords", "collection",
    "objectType", "objectNumber", "accessionDate", "controllingInstitution",
    "collectionType", "classification", "physicalCharacteristics", "cataloguedDate",
    "cataloguer", "relatedAcquisitionRecord", "acquisitionNotes", "parts",
    "createdAt", "updatedAt"]

  /** The header row as cells. */
  function HeaderRow(): (r: Row)
    ensures |r| == |HEADERS|
    ensures forall k :: 0 <= k < |HEADERS| ==> r[k] == Str(HEADERS[k])
  {
    seq(|HEADERS|, k requires 0 <= k < |HEADERS| => Str(HEADERS[k]))
  }

  /** The columns whose cells hold JSON text. */
  predicate IsArrayColumn(h: string) {
    h == "images" || h == "keywords" || h == "parts"
  }

  /** Cell `j` of a row; the sheet is rectangular, so a cell past a row's stored end reads blank. */
  function CellAt(row: Row, j: int): Json {
    if 0 <= j < |row| then row[j] else Str("")
  }

  /** The values of the range `(1, 1, 1, |HEADERS|)`: the first |HEADERS| cells of row 1. */
  function HeaderRange(sheet: Sheet): (r: Row)
    ensures |r| == |HEADERS|
    ensures forall k :: 0 <= k < |HEADERS| ==> r[k] == CellAt(if |sheet| == 0 then [] else sheet[0], k)
  {
    var first := if |sheet| == 0 then [] else sheet[0];
    seq(|HEADERS|, k requires 0 <= k < |HEADERS| => CellAt(first, k))
  }

  /** The header cell at `k` is not (strictly) the column name `HEADERS[k]`; a missing cell is `undefined`. */
  predicate HeaderDiffersAt(existing: Row, k: int)
    requires 0 <= k < |HEADERS|
  {
    k >= |existing| || !StrictEquals(existing[k], Str(HEADERS[k]))
  }

  /** `needsUpdate`: the header row has to be rewritten exactly when the cells read
      do not start with the column names in order. */
  function NeedsHeaderUpdate(existing: Row): (b: bool)
    ensures b <==> !(|existing| >= |HEADERS| && existing[..|HEADERS|] == HeaderRow())
  {
    HeaderMatchIff(existing);
    |existing| < |HEADERS| || SomeHeaderDiffers(existing)
  }

  /** `HEADERS.some((header, index) => existing[index] !== header)`. */
  predicate SomeHeaderDiffers(existing: Row) {
    exists k :: 0 <= k < |HEADERS| && HeaderDiffersAt(existing, k)
  }

  lemma HeaderMatchIff(existing: Row)
    ensures (|existing| >= |HEADERS| && existing[..|HEADERS|] == HeaderRow()) <==>
      (|existing| >= |HEADERS| && !SomeHeaderDiffers(existing))
  {
    if |existing| >= |HEADERS| && !SomeHeaderDiffers(existing) {
      forall k | 0 <= k < |HEADERS| ensures existing[..|HEADERS|][k] == HeaderRow()[k] {
        assert !HeaderDiffersAt(existing, k);
      }
    }
    if |existing| >= |HEADERS| && existing[..|HEADERS|] == HeaderRow() {
      forall k | 0 <= k < |HEADERS| ensures !HeaderDiffersAt(existing, k) {
        assert existing[k] == HeaderRow()[k];
      }
    }
  }

  /** The sheet already starts with the header row. */
  predicate HasHeaders(sheet: Sheet) {
    |sheet| > 0 && |sheet[0]| >= |HEADERS| && sheet[0][..|HEADERS|] == HeaderRow()
  }

  /** The header check of `getSheet`: when the first |HEADERS| cells of row 1 are not
      the column names they are overwritten with them; cells to their right and all
      data rows are left alone, and a sheet with no rows gains the header row. */
  function EnsureHeaders(sheet: Sheet): (r: Sheet)
    ensures HasHeaders(r)
    ensures HasHeaders(sheet) ==> r == sheet
    ensures |r| == if |sheet| == 0 then 1 else |sheet|
    ensures forall i :: 1 <= i < |sheet| ==> r[i] == sheet[i]
    ensures |sheet| > 0 && |sheet[0]| >= |HEADERS| ==> r[0][|HEADERS|..] == sheet[0][|HEADERS|..]
    ensures |sheet| > 0 && |sheet[0]| < |HEADERS| ==> |r[0]| == |HEADERS|
    ensures |sheet| == 0 ==> r == [HeaderRow()]
  {
    HeaderCheckFiresIff(sheet);
    if !NeedsHeaderUpdate(HeaderRange(sheet)) then
      sheet
    else if |sheet| == 0 then
      [HeaderRow()]
    else
      var tail := if |sheet[0]| > |HEADERS| then sheet[0][|HEADERS|..] else [];
      var first := HeaderRow() + tail;
      assert first[..|HEADERS|] == HeaderRow();
      [first] + sheet[1..]
  }

  /** The header check rewrites nothing the second time round. */
  lemma EnsureHeadersIdempotent(sheet: Sheet)
    ensures EnsureHeaders(EnsureHeaders(sheet)) == EnsureHeaders(sheet)
  {
  }

  /** The header check fires on a sheet exactly when its header row is not in place. */
  lemma HeaderCheckFiresIff(sheet: Sheet)
    ensures NeedsHeaderUpdate(HeaderRange(sheet)) <==> !HasHeaders(sheet)
  {
    var range := HeaderRange(sheet);
    HeadersNonEmpty();
    if |sheet| > 0 && |sheet[0]| >= |HEADERS| {
      assert range == sheet[0][..|HEADERS|];
    } else {
      var k := if |sheet| == 0 then 0 else |sheet[0]|;
      assert range[k] == Str("") != HeaderRow()[k];
    }
  }

  /** Every column has a name. */
  lemma HeadersNonEmpty()
    ensures forall k :: 0 <= k < |HEADERS| ==> HEADERS[k] != ""
  {
  }
}
