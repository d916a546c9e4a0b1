/** The "Related Objects" panel of the detail view (`RelatedObjects`): every other
    object is scored against the current one, objects scoring zero are dropped, the
    rest are ordered by descending score and the first three are shown. */
module Related {
  import opened Seqs
  import opened Catalog

  /** How many entries of `xs` also occur in `ys`
      (`xs.filter(x => ys.includes(x)).length`); repeated entries of `xs` count again. */
  function SharedCount(xs: seq<string>, ys: seq<string>): nat {
    CountWhere(x => x in ys, xs)
  }

  lemma SharedCountPositive(xs: seq<string>, ys: seq<string>)
    ensures SharedCount(xs, ys) > 0 <==> exists x :: x in xs && x in ys
  {
    CountWhereZero(x => x in ys, xs);
  }

  /** The relatedness score of `candidate` to `current`: 3 for the same collection,
      2 for the same object type, 1 per shared keyword, 1 per shared material and
      2 per shared maker name, each count taken over the candidate's list. */
  function Score(current: ArchiveObject, candidate: ArchiveObject): (n: nat)
    ensures n >= (if candidate.collection == current.collection then 3 else 0)
                 + (if candidate.objectType == current.objectType then 2 else 0)
    ensures n <= MaxScore(candidate)
  {
    (if candidate.collection == current.collection then 3 else 0)
    + (if candidate.objectType == current.objectType then 2 else 0)
    + SharedCount(candidate.keywords, current.keywords)
    + SharedCount(candidate.materials, current.materials)
    + 2 * SharedCount(MakerNames(candidate.makers), MakerNames(current.makers))
  }

  /** The most any object can score as a candidate: every entry of each of its lists
      shared, and the same collection and type. */
  function MaxScore(candidate: ArchiveObject): nat {
    5 + |candidate.keywords| + |candidate.materials| + 2 * |candidate.makers|
  }

  /** An object scored against itself reaches that bound. */
  lemma ScoreSelf(o: ArchiveObject)
    ensures Score(o, o) == MaxScore(o)
  {
    CountWhereAll(x => x in o.keywords, o.keywords);
    CountWhereAll(x => x in o.materials, o.materials);
    var names := MakerNames(o.makers);
    CountWhereAll(x => x in names, names);
  }

  /** An object scores above zero exactly when it has something in common with the
      current one. */
  lemma ScorePositiveIff(current: ArchiveObject, candidate: ArchiveObject)
    ensures Score(current, candidate) > 0 <==>
      || candidate.collection == current.collection
      || candidate.objectType == current.objectType
      || (exists k :: k in candidate.keywords && k in current.keywords)
      || (exists m :: m in candidate.materials && m in current.materials)
      || (exists i, j :: 0 <= i < |candidate.makers| && 0 <= j < |current.makers|
                         && candidate.makers[i].name == current.makers[j].name)
  {
    SharedCountPositive(candidate.keywords, current.keywords);
    SharedCountPositive(candidate.materials, current.materials);
    var cn, kn := MakerNames(candidate.makers), MakerNames(current.makers);
    SharedCountPositive(cn, kn);
    if exists n :: n in cn && n in kn {
      var n :| n in cn && n in kn;
      var i :| 0 <= i < |cn| && cn[i] == n;
      var j :| 0 <= j < |kn| && kn[j] == n;
      assert candidate.makers[i].name == current.makers[j].name;
    }
    if exists i, j :: 0 <= i < |candidate.makers| && 0 <= j < |current.makers|
                      && candidate.makers[i].name == current.makers[j].name {
      var i, j :| 0 <= i < |candidate.makers| && 0 <= j < |current.makers|
                  && candidate.makers[i].name == current.makers[j].name;
      assert cn[i] in cn && cn[i] in kn by { assert cn[i] == kn[j]; }
    }
  }

  /** An object together with its score (`{ ...obj, score }`). */
  datatype Scored = Scored(obj: ArchiveObject, score: nat)

  /** Non-increasing score order. */
  predicate SortedByScore(s: seq<Scored>) {
    forall i, j :: 0 <= i < j < |s| ==> s[i].score >= s[j].score
  }

  /** A head no lower than the head of an ordered tail keeps the order. */
  lemma SortedCons(h: Scored, t: seq<Scored>)
    requires SortedByScore(t)
    requires |t| == 0 || t[0].score <= h.score
    ensures SortedByScore([h] + t)
  {
    var r := [h] + t;
    forall i, j | 0 <= i < j < |r| ensures r[i].score >= r[j].score {
      assert r[j] == t[j - 1];
      if i > 0 {
        assert r[i] == t[i - 1];
      }
    }
  }

  /** Inserts `x` into a score-ordered list ahead of the first entry not above it. */
  function Insert(x: Scored, s: seq<Scored>): (r: seq<Scored>)
    requires SortedByScore(s)
    ensures SortedByScore(r)
    ensures |r| == |s| + 1 && (r[0] == x || (|s| > 0 && r[0] == s[0]))
  {
    if |s| == 0 then [x]
    else if s[0].score <= x.score then
      SortedCons(x, s);
      [x] + s
    else
      var rest := Insert(x, s[1..]);
      SortedCons(s[0], rest);
      [s[0]] + rest
  }

  /** Insertion adds exactly the new entry. */
  lemma {:induction false} InsertAddsOne(x: Scored, s: seq<Scored>)
    requires SortedByScore(s)
    ensures multiset(Insert(x, s)) == multiset(s) + multiset{x}
  {
    if |s| > 0 && s[0].score > x.score {
      var t := s[1..];
      assert s == [s[0]] + t;
      InsertAddsOne(x, t);
      assert Insert(x, s) == [s[0]] + Insert(x, t);
    }
  }

  /** Orders by non-increasing score, keeping every entry (the `sort` call). */
  function SortByScore(s: seq<Scored>): (r: seq<Scored>)
    ensures SortedByScore(r)
    ensures multiset(r) == multiset(s)
  {
    if |s| == 0 then []
    else
      assert s == [s[0]] + s[1..];
      InsertAddsOne(s[0], SortByScore(s[1..]));
      Insert(s[0], SortByScore(s[1..]))
  }

  /** Every other object with its score, in list order (the first `filter` and the
      `map`): each object whose id differs from the current one, once per
      occurrence. */
  function ScoreOthers(current: ArchiveObject, all: seq<ArchiveObject>): (r: seq<Scored>)
    ensures forall y :: y in r <==> y.obj in all && y.obj.id != current.id && y.score == Score(current, y.obj)
    ensures forall o: ArchiveObject :: o.id != current.id ==> multiset(r)[Scored(o, Score(current, o))] == multiset(all)[o]
    ensures |r| == |Filter((o: ArchiveObject) => o.id != current.id, all)|
  {
    if |all| == 0 then []
    else
      var x, tail := all[0], all[1..];
      var rest := ScoreOthers(current, tail);
      assert all == [x] + tail;
      assert multiset(all) == multiset{x} + multiset(tail);
      if x.id != current.id then [Scored(x, Score(current, x))] + rest else rest
  }

  /** The first three of an ordered permutation of `s` are the best three of `s`:
      an entry of `s` not among them scores no higher than the third. */
  lemma TakeThreeIsBest(s: seq<Scored>, sorted: seq<Scored>)
    requires SortedByScore(sorted) && multiset(sorted) == multiset(s)
    ensures forall y :: y in Take(sorted, 3) ==> y in s
    ensures forall y :: y in s ==> y in Take(sorted, 3) || (|Take(sorted, 3)| == 3 && y.score <= Take(sorted, 3)[2].score)
  {
    var r := Take(sorted, 3);
    forall y | y in r ensures y in s {
      assert y in sorted;
      assert y in multiset(sorted);
    }
    forall y | y in s ensures y in r || (|r| == 3 && y.score <= r[2].score) {
      assert y in multiset(s);
      assert y in sorted;
      var k :| 0 <= k < |sorted| && sorted[k] == y;
      if k < |r| {
        assert r[k] == y;
      }
    }
  }

  /** Scores above zero: the entries the panel may show. */
  predicate PositiveScore(y: Scored) {
    y.score > 0
  }

  /** The entries the panel chooses from, best first. */
  function Ranked(current: ArchiveObject, all: seq<ArchiveObject>): (r: seq<Scored>)
    ensures SortedByScore(r)
    ensures multiset(r) == multiset(Filter(PositiveScore, ScoreOthers(current, all)))
  {
    SortByScore(Filter(PositiveScore, ScoreOthers(current, all)))
  }

  /** The panel's list: at most three objects other than the current one, each
      scoring above zero, by non-increasing score, none listed more often than it
      occurs among the others. */
  function RelatedObjects(current: ArchiveObject, all: seq<ArchiveObject>): (r: seq<Scored>)
    ensures |r| <= 3
    ensures forall i :: 0 <= i < |r| ==>
      && r[i].obj in all
      && r[i].obj.id != current.id
      && r[i].score == Score(current, r[i].obj)
      && r[i].score > 0
    ensures SortedByScore(r)
    ensures multiset(r) <= multiset(Filter(PositiveScore, ScoreOthers(current, all)))
    ensures var n := |Filter(PositiveScore, ScoreOthers(current, all))|;
      |r| == if n < 3 then n else 3
  {
    TopThreeEntries(current, all);
    var sorted := Ranked(current, all);
    assert |sorted| == |multiset(sorted)|;
    Take(sorted, 3)
  }

  /** Each of the first three ranked entries is another object with its own score,
      which is above zero. */
  lemma TopThreeEntries(current: ArchiveObject, all: seq<ArchiveObject>)
    ensures var r := Take(Ranked(current, all), 3);
      forall i :: 0 <= i < |r| ==>
        && r[i].obj in all
        && r[i].obj.id != current.id
        && r[i].score == Score(current, r[i].obj)
        && r[i].score > 0
  {
    var positive := Filter(PositiveScore, ScoreOthers(current, all));
    var sorted := Ranked(current, all);
    TakeThreeIsBest(positive, sorted);
    var r := Take(sorted, 3);
    assert forall i :: 0 <= i < |r| ==> r[i] in r;
  }

  /** An object left off the panel that scores above zero scores no higher than the
      third one shown. */
  lemma RelatedObjectsBest(current: ArchiveObject, all: seq<ArchiveObject>, o: ArchiveObject)
    requires o in all && o.id != current.id && Score(current, o) > 0
    ensures var r := RelatedObjects(current, all);
      Scored(o, Score(current, o)) in r || (|r| == 3 && Score(current, o) <= r[2].score)
  {
    var positive := Filter(PositiveScore, ScoreOthers(current, all));
    TakeThreeIsBest(positive, Ranked(current, all));
    assert Scored(o, Score(current, o)) in positive;
  }
}
