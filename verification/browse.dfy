/** The browse view (`BrowseView`): the option lists of its filter dropdowns and the
    filtering of the object grid by search text and by the active filters. */
module Browse {
  import opened Text
  import opened Seqs
  import opened Catalog

  /** The active filters; `""` means the filter is not set. */
  datatype Filters = Filters(objectType: string, collection: string, keyword: string, materials: string)

  const NoFilters := Filters("", "", "", "")

  /** The texts searched, in order: title, alternate title, about text, object type,
      the keywords and the makers' names. */
  function SearchParts(o: ArchiveObject): seq<string> {
    [o.title, o.alternateTitle, o.aboutText, o.objectType] + o.keywords + MakerNames(o.makers)
  }

  /** The searchable text: the parts joined by single spaces, lower-cased. Each part,
      lower-cased, occurs in it. */
  function SearchText(o: ArchiveObject): (r: string)
    ensures forall k :: 0 <= k < |SearchParts(o)| ==> Includes(r, ToLower(SearchParts(o)[k]))
  {
    var parts := SearchParts(o);
    var joined := Join(" ", parts);
    assert forall k :: 0 <= k < |parts| ==> Includes(ToLower(joined), ToLower(parts[k])) by {
      forall k | 0 <= k < |parts| ensures Includes(ToLower(joined), ToLower(parts[k])) {
        JoinIncludesPart(" ", parts, k);
        IncludesToLower(joined, parts[k]);
      }
    }
    ToLower(joined)
  }

  /** The test the grid applies to one object. */
  predicate Shown(query: string, f: Filters, o: ArchiveObject) {
    && (query == "" || Includes(SearchText(o), ToLower(query)))
    && (f.objectType == "" || o.objectType == f.objectType)
    && (f.collection == "" || o.collection == f.collection)
    && (f.keyword == "" || f.keyword in o.keywords)
    && (f.materials == "" || f.materials in o.materials)
  }

  /** The objects shown in the grid: those, in list order, that contain the
      lower-cased query in their searchable text (when a query is typed) and agree
      with every filter that is set. */
  function FilterObjects(objects: seq<ArchiveObject>, query: string, f: Filters): (r: seq<ArchiveObject>)
    ensures IsSubsequence(r, objects)
    ensures forall o :: o in r ==>
      && o in objects
      && (query != "" ==> Includes(SearchText(o), ToLower(query)))
      && (f.objectType != "" ==> o.objectType == f.objectType)
      && (f.collection != "" ==> o.collection == f.collection)
      && (f.keyword != "" ==> f.keyword in o.keywords)
      && (f.materials != "" ==> f.materials in o.materials)
    ensures forall o :: o in objects && Shown(query, f, o) ==> multiset(r)[o] == multiset(objects)[o]
  {
    FilterCounts(o => Shown(query, f, o), objects);
    Filter(o => Shown(query, f, o), objects)
  }

  /** With no query and no filter set, every object is shown. */
  lemma NoFiltersShowsAll(objects: seq<ArchiveObject>)
    ensures FilterObjects(objects, "", NoFilters) == objects
  {
    FilterKeepsAll(o => Shown("", NoFilters, o), objects);
  }

  /** Filtering the grid again with the same query and filters changes nothing. */
  lemma FilterObjectsIdempotent(objects: seq<ArchiveObject>, query: string, f: Filters)
    ensures FilterObjects(FilterObjects(objects, query, f), query, f) == FilterObjects(objects, query, f)
  {
    FilterIdempotent(o => Shown(query, f, o), objects);
  }

  /** Typing any one of an object's searchable texts (title, keyword, maker name, ...)
      with no filter set keeps that object in the grid. */
  lemma SearchFindsOwnText(objects: seq<ArchiveObject>, o: ArchiveObject, k: int)
    requires o in objects
    requires 0 <= k < |SearchParts(o)|
    ensures o in FilterObjects(objects, SearchParts(o)[k], NoFilters)
  {
    var parts := SearchParts(o);
    assert Shown(parts[k], NoFilters, o);
    assert multiset(objects)[o] > 0;
  }

  /** `objects.map(o => o.objectType)`. */
  function ObjectTypes(objects: seq<ArchiveObject>): seq<string> {
    seq(|objects|, i requires 0 <= i < |objects| => objects[i].objectType)
  }

  /** `objects.map(o => o.collection)`. */
  function Collections(objects: seq<ArchiveObject>): seq<string> {
    seq(|objects|, i requires 0 <= i < |objects| => objects[i].collection)
  }

  /** Text that is not empty (`filter(Boolean)` on strings). */
  predicate NonEmpty(t: string) {
    t != ""
  }

  /** The object-type dropdown: the distinct non-empty object types, in order of first use. */
  function ObjectTypeOptions(objects: seq<ArchiveObject>): (r: seq<string>)
    ensures NoDup(r)
    ensures forall t :: t in r <==> t != "" && exists o :: o in objects && o.objectType == t
    ensures InFirstOccurrenceOrder(r, ObjectTypes(objects))
  {
    var types := ObjectTypes(objects);
    assert forall t :: t in types <==> exists o :: o in objects && o.objectType == t by {
      forall t | exists o :: o in objects && o.objectType == t ensures t in types {
        var o :| o in objects && o.objectType == t;
        var i :| 0 <= i < |objects| && objects[i] == o;
        assert types[i] == t;
      }
    }
    var r := Dedup(Filter(NonEmpty, types));
    FilterKeepsFirstOccurrenceOrder(NonEmpty, r, types);
    r
  }

  /** The collection dropdown: the distinct non-empty collections, in order of first use. */
  function CollectionOptions(objects: seq<ArchiveObject>): (r: seq<string>)
    ensures NoDup(r)
    ensures forall c :: c in r <==> c != "" && exists o :: o in objects && o.collection == c
    ensures InFirstOccurrenceOrder(r, Collections(objects))
  {
    var cols := Collections(objects);
    assert forall c :: c in cols <==> exists o :: o in objects && o.collection == c by {
      forall c | exists o :: o in objects && o.collection == c ensures c in cols {
        var o :| o in objects && o.collection == c;
        var i :| 0 <= i < |objects| && objects[i] == o;
        assert cols[i] == c;
      }
    }
    var r := Dedup(Filter(NonEmpty, cols));
    FilterKeepsFirstOccurrenceOrder(NonEmpty, r, cols);
    r
  }

  /** All keywords of all objects, in order (`flatMap`). */
  function AllKeywords(objects: seq<ArchiveObject>): (r: seq<string>)
    ensures forall k :: k in r <==> exists o :: o in objects && k in o.keywords
  {
    if |objects| == 0 then []
    else
      var rest := AllKeywords(objects[1..]);
      assert forall o :: o in objects <==> o == objects[0] || o in objects[1..];
      objects[0].keywords + rest
  }

  /** The keyword dropdown: every distinct keyword, empty ones included, in order of first use. */
  function KeywordOptions(objects: seq<ArchiveObject>): (r: seq<string>)
    ensures NoDup(r)
    ensures forall k :: k in r <==> exists o :: o in objects && k in o.keywords
    ensures InFirstOccurrenceOrder(r, AllKeywords(objects))
  {
    Dedup(AllKeywords(objects))
  }
}
