/** How an object becomes a sheet row (`createObject`/`updateObject`'s `rowData`) and
    how a row becomes an object again (the loop body of `getAllObjects`). `JSON.parse`
    and `JSON.stringify` are parameters. */
module RowCodec {
  import opened Wrappers
  import opened Seqs
  import opened JsonValues
  import opened Schema

  /** An object as the handlers see it: its properties by name. */
  type Record = map<string, Json>

  /** `obj[key]`; a missing property is `undefined`. */
  function Field(o: Record, key: string): Json {
    if key in o then o[key] else Null
  }

  /** `value || []`: what an array column holds, before it is turned into text. */
  function ArrayCell(value: Json): Json {
    if Truthy(value) then value else Arr([])
  }

  /** `JSON.stringify` turns `v` into non-empty text that `JSON.parse` reads back as
      `v`. The real pair does not do this for every value (a property whose value is
      `undefined` is dropped, for one), so the round trip asks it only of the values
      it needs. */
  predicate RoundTrips(v: Json, parse: string -> Option<Json>, stringify: Json -> string) {
    stringify(v) != "" && parse(stringify(v)) == Some(v)
  }

  /** The values `o`'s three array columns are written from survive the JSON text. */
  predicate ArrayFieldsRoundTrip(o: Record, parse: string -> Option<Json>, stringify: Json -> string) {
    && RoundTrips(ArrayCell(Field(o, "images")), parse, stringify)
    && RoundTrips(ArrayCell(Field(o, "keywords")), parse, stringify)
    && RoundTrips(ArrayCell(Field(o, "parts")), parse, stringify)
  }

  /** The cell written for one column: array columns hold the JSON text of the value
      (of `[]` when the value is falsy), other columns the value itself, or `''` when
      it is falsy. */
  function EncodeCell(header: string, value: Json, stringify: Json -> string): Json {
    if IsArrayColumn(header) then Str(stringify(ArrayCell(value)))
    else if Truthy(value) then value
    else Str("")
  }

  /** `rowData`: one cell per column of HEADERS, in column order. */
  function EncodeRow(o: Record, stringify: Json -> string): (r: Row)
    ensures |r| == |HEADERS|
    ensures forall k :: 0 <= k < |HEADERS| && IsArrayColumn(HEADERS[k]) ==>
      r[k].Str? && r[k].s == stringify(ArrayCell(Field(o, HEADERS[k])))
    ensures forall k :: 0 <= k < |HEADERS| && !IsArrayColumn(HEADERS[k]) ==>
      Truthy(r[k]) == Truthy(Field(o, HEADERS[k]))
      && (Truthy(r[k]) ==> r[k] == Field(o, HEADERS[k]))
      && (!Truthy(r[k]) ==> r[k] == Str(""))
  {
    seq(|HEADERS|, k requires 0 <= k < |HEADERS| => EncodeCell(HEADERS[k], Field(o, HEADERS[k]), stringify))
  }

  /** A header cell that is (strictly) one of the array column names. */
  predicate IsArrayHeader(header: Json) {
    header.Str? && IsArrayColumn(header.s)
  }

  /** The value read from a cell under `header`: under an array column an empty cell
      reads as `[]`, other text is parsed and text that does not parse reads as `[]`;
      under any other column the cell is taken as it is. */
  function DecodeCell(header: Json, cell: Json, parse: string -> Option<Json>): (v: Json)
    ensures !IsArrayHeader(header) ==> v == cell
    ensures IsArrayHeader(header) && (!Truthy(cell) || parse(ToText(cell)).None?) ==> v == Arr([])
    ensures IsArrayHeader(header) && Truthy(cell) ==> parse(ToText(cell)).Some? ==> v == parse(ToText(cell)).value
  {
    if IsArrayHeader(header) then
      if !Truthy(cell) then Arr([])
      else match parse(ToText(cell))
        case None => Arr([])
        case Some(parsed) => parsed
    else cell
  }

  /** The object built from a row: each header cell, as text, names a property whose
      value is the decoded cell below it; when two header cells name the same property
      the one further right wins. */
  function DecodeRow(headers: Row, row: Row, parse: string -> Option<Json>): (r: Record)
    decreases |headers|
  {
    if |headers| == 0 then map[]
    else
      var n := |headers| - 1;
      DecodeRow(headers[..n], row, parse)[ToText(headers[n]) := DecodeCell(headers[n], CellAt(row, n), parse)]
  }

  /** The properties of a decoded row are exactly those its header cells name. */
  lemma {:induction false} DecodeRowKeys(headers: Row, row: Row, parse: string -> Option<Json>)
    ensures forall key :: key in DecodeRow(headers, row, parse) <==>
      exists j :: 0 <= j < |headers| && ToText(headers[j]) == key
    decreases |headers|
  {
    if |headers| > 0 {
      var n := |headers| - 1;
      var front := headers[..n];
      DecodeRowKeys(front, row, parse);
      assert forall j :: 0 <= j < n ==> front[j] == headers[j];
    }
  }

  /** The property named by header `j` holds the decoded cell `j` when no header to
      its right names the same property. */
  lemma {:induction false} DecodeRowAt(headers: Row, row: Row, parse: string -> Option<Json>, j: int)
    requires 0 <= j < |headers|
    requires forall l :: j < l < |headers| ==> ToText(headers[l]) != ToText(headers[j])
    ensures ToText(headers[j]) in DecodeRow(headers, row, parse)
    ensures DecodeRow(headers, row, parse)[ToText(headers[j])] == DecodeCell(headers[j], CellAt(row, j), parse)
    decreases |headers|
  {
    var n := |headers| - 1;
    var front := headers[..n];
    var prev := DecodeRow(front, row, parse);
    var last := ToText(headers[n]);
    assert DecodeRow(headers, row, parse) == prev[last := DecodeCell(headers[n], CellAt(row, n), parse)];
    if j < n {
      assert front[j] == headers[j];
      forall l | j < l < |front| ensures ToText(front[l]) != ToText(front[j]) {
        assert front[l] == headers[l];
      }
      DecodeRowAt(front, row, parse, j);
      assert last != ToText(headers[j]);
    }
  }

  /** What a property reads back as after the row is written and read: array
      properties come back as written or as `[]`, the rest as written or as `''`. */
  function Stored(header: string, v: Json): Json {
    if IsArrayColumn(header) then ArrayCell(v)
    else if Truthy(v) then v else Str("")
  }

  /** A header row that starts with HEADERS and whose further cells name no column of
      HEADERS (as `getAllObjects` reads it, widened with blank cells). */
  predicate HeadersFirst(headers: Row) {
    && |headers| >= |HEADERS|
    && headers[..|HEADERS|] == HeaderRow()
    && forall l :: |HEADERS| <= l < |headers| ==> ToText(headers[l]) !in HEADERS
  }

  /** The rightmost header cell before `n` that names `key`, or -1 when none does. */
  function LastNaming(headers: Row, key: string, n: nat): (j: int)
    requires n <= |headers|
    ensures -1 <= j < n
    ensures j >= 0 ==> ToText(headers[j]) == key
    ensures forall l :: j < l < n ==> ToText(headers[l]) != key
  {
    if n == 0 then -1
    else if ToText(headers[n - 1]) == key then n - 1
    else LastNaming(headers, key, n - 1)
  }

  /** The row codec round trip: a row written for `o` and read back under such a
      header row gives every column's property as `Stored` says, so a truthy id and
      truthy array values come back unchanged. */
  lemma RoundTrip(o: Record, headers: Row, parse: string -> Option<Json>, stringify: Json -> string)
    requires ArrayFieldsRoundTrip(o, parse, stringify)
    requires HeadersFirst(headers)
    ensures forall k :: 0 <= k < |HEADERS| ==>
      HEADERS[k] in DecodeRow(headers, EncodeRow(o, stringify), parse)
      && DecodeRow(headers, EncodeRow(o, stringify), parse)[HEADERS[k]] == Stored(HEADERS[k], Field(o, HEADERS[k]))
    ensures Truthy(Field(o, "id")) ==>
      "id" in DecodeRow(headers, EncodeRow(o, stringify), parse)
      && DecodeRow(headers, EncodeRow(o, stringify), parse)["id"] == Field(o, "id")
  {
    forall k | 0 <= k < |HEADERS|
      ensures var r := DecodeRow(headers, EncodeRow(o, stringify), parse);
        HEADERS[k] in r && r[HEADERS[k]] == Stored(HEADERS[k], Field(o, HEADERS[k]))
    {
      RoundTripColumn(o, headers, parse, stringify, k);
    }
    assert HEADERS[0] == "id";
  }

  /** One column of the round trip. When a name occurs in HEADERS more than once,
      the rightmost cell of that name is read, and it holds the same value. */
  lemma RoundTripColumn(o: Record, headers: Row, parse: string -> Option<Json>, stringify: Json -> string, k: nat)
    requires ArrayFieldsRoundTrip(o, parse, stringify)
    requires HeadersFirst(headers)
    requires k < |HEADERS|
    ensures var r := DecodeRow(headers, EncodeRow(o, stringify), parse);
      HEADERS[k] in r && r[HEADERS[k]] == Stored(HEADERS[k], Field(o, HEADERS[k]))
  {
    var row := EncodeRow(o, stringify);
    var h := HEADERS[k];
    assert headers[k] == headers[..|HEADERS|][k] == Str(h);
    var l := LastNaming(headers, h, |headers|);
    assert l >= k;
    assert l < |HEADERS|;
    assert headers[l] == headers[..|HEADERS|][l] == Str(HEADERS[l]);
    assert HEADERS[l] == h;
    DecodeRowAt(headers, row, parse, l);
    var v := Field(o, h);
    if IsArrayColumn(h) {
      var w := ArrayCell(v);
      assert row[l] == Str(stringify(w));
      assert ToText(row[l]) == stringify(w);
    }
  }
}
