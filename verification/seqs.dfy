/** Sequence helpers shared by the list operations: the array methods
    `filter`, index-based removal, counting and first-occurrence de-duplication
    (what `[...new Set(xs)]` computes). */
module Seqs {

  /** `a` can be obtained from `b` by deleting elements, keeping the order. */
  predicate IsSubsequence<T(==)>(a: seq<T>, b: seq<T>)
    decreases |b|
  {
    || |a| == 0
    || (&& |b| > 0
        && ((a[0] == b[0] && IsSubsequence(a[1..], b[1..])) || IsSubsequence(a, b[1..])))
  }

  /** No element occurs twice. */
  predicate NoDup<T(==)>(s: seq<T>) {
    forall i, j :: 0 <= i < j < |s| ==> s[i] != s[j]
  }

  /** `s.filter(p)`: keeps exactly the elements satisfying `p`, every occurrence of
      them, in their original order. */
  function Filter<T(==,!new)>(p: T -> bool, s: seq<T>): (r: seq<T>)
    ensures |r| <= |s|
    ensures forall x :: x in r <==> x in s && p(x)
    ensures IsSubsequence(r, s)
  {
    if |s| == 0 then []
    else
      var rest := Filter(p, s[1..]);
      if p(s[0]) then
        var r := [s[0]] + rest;
        assert r[1..] == rest;
        r
      else
        rest
  }

  /** The filter keeps every copy of an element that passes and none of one that fails. */
  lemma {:induction false} FilterCounts<T(!new)>(p: T -> bool, s: seq<T>)
    ensures forall x :: p(x) ==> multiset(Filter(p, s))[x] == multiset(s)[x]
    ensures forall x :: !p(x) ==> multiset(Filter(p, s))[x] == 0
  {
    if |s| > 0 {
      FilterCounts(p, s[1..]);
      assert s == [s[0]] + s[1..];
      assert multiset(s) == multiset{s[0]} + multiset(s[1..]);
      if p(s[0]) {
        var r := Filter(p, s);
        assert r == [s[0]] + Filter(p, s[1..]);
        assert multiset(r) == multiset{s[0]} + multiset(Filter(p, s[1..]));
      }
    }
  }

  /** Filtering twice with the same predicate is filtering once. */
  lemma {:induction false} FilterIdempotent<T(!new)>(p: T -> bool, s: seq<T>)
    ensures Filter(p, Filter(p, s)) == Filter(p, s)
  {
    if |s| > 0 {
      FilterIdempotent(p, s[1..]);
      if p(s[0]) {
        var r := Filter(p, s);
        assert r[1..] == Filter(p, s[1..]);
      }
    }
  }

  /** A predicate that holds of every element keeps the whole sequence. */
  lemma {:induction false} FilterKeepsAll<T(!new)>(p: T -> bool, s: seq<T>)
    requires forall i :: 0 <= i < |s| ==> p(s[i])
    ensures Filter(p, s) == s
  {
    if |s| > 0 {
      FilterKeepsAll(p, s[1..]);
      assert s == [s[0]] + s[1..];
    }
  }

  /** Appending an element that fails the predicate does not change the filter;
      appending one that passes appends it to the result. */
  lemma {:induction false} FilterAppend<T(!new)>(p: T -> bool, s: seq<T>, x: T)
    ensures Filter(p, s + [x]) == Filter(p, s) + (if p(x) then [x] else [])
  {
    if |s| == 0 {
      assert s + [x] == [x];
      assert [x][1..] == [];
    } else {
      assert (s + [x])[1..] == s[1..] + [x];
      FilterAppend(p, s[1..], x);
    }
  }

  /** Number of elements satisfying `p`. */
  function CountWhere<T>(p: T -> bool, s: seq<T>): (n: nat)
    ensures n <= |s|
  {
    if |s| == 0 then 0 else (if p(s[0]) then 1 else 0) + CountWhere(p, s[1..])
  }

  /** When every element satisfies `p`, all of them are counted. */
  lemma {:induction false} CountWhereAll<T>(p: T -> bool, s: seq<T>)
    requires forall i :: 0 <= i < |s| ==> p(s[i])
    ensures CountWhere(p, s) == |s|
  {
    if |s| > 0 {
      assert forall i :: 0 <= i < |s| - 1 ==> s[1..][i] == s[i + 1];
      CountWhereAll(p, s[1..]);
    }
  }

  lemma {:induction false} CountWhereAppend<T>(p: T -> bool, s: seq<T>, t: seq<T>)
    ensures CountWhere(p, s + t) == CountWhere(p, s) + CountWhere(p, t)
  {
    if |s| == 0 {
      assert s + t == t;
    } else {
      assert (s + t)[1..] == s[1..] + t;
      CountWhereAppend(p, s[1..], t);
    }
  }

  /** The count is zero exactly when no element satisfies `p`. */
  lemma {:induction false} CountWhereZero<T>(p: T -> bool, s: seq<T>)
    ensures CountWhere(p, s) == 0 <==> forall i :: 0 <= i < |s| ==> !p(s[i])
  {
    if |s| > 0 {
      CountWhereZero(p, s[1..]);
      assert forall i :: 1 <= i < |s| ==> s[i] == s[1..][i - 1];
    }
  }

  /** The count is one exactly when precisely the element at `k` satisfies `p`. */
  lemma {:induction false} CountWhereOne<T>(p: T -> bool, s: seq<T>, k: int)
    requires 0 <= k < |s|
    ensures (CountWhere(p, s) == 1 && p(s[k])) <==> forall i :: 0 <= i < |s| ==> (p(s[i]) <==> i == k)
  {
    assert s == s[..k] + [s[k]] + s[k + 1..];
    CountWhereAppend(p, s[..k] + [s[k]], s[k + 1..]);
    CountWhereAppend(p, s[..k], [s[k]]);
    CountWhereZero(p, s[..k]);
    CountWhereZero(p, s[k + 1..]);
    assert CountWhere(p, [s[k]]) == if p(s[k]) then 1 else 0 by {
      assert [s[k]][1..] == [];
    }
    assert forall i :: 0 <= i < k ==> s[..k][i] == s[i];
    assert forall i :: k < i < |s| ==> s[k + 1..][i - k - 1] == s[i];
  }

  /** Array-order removal of the element at `i`, as `s.filter((_, j) => j !== i)`
      computes it: an index outside the sequence removes nothing. */
  function RemoveAt<T>(s: seq<T>, i: int): (r: seq<T>)
    ensures 0 <= i < |s| ==> |r| == |s| - 1
    ensures !(0 <= i < |s|) ==> r == s
    ensures 0 <= i < |s| ==> forall k :: 0 <= k < |r| ==> r[k] == s[if k < i then k else k + 1]
  {
    if 0 <= i < |s| then s[..i] + s[i + 1..] else s
  }

  /** Removal counts one fewer match exactly when the removed element matched. */
  lemma {:induction false} CountWhereRemoveAt<T>(p: T -> bool, s: seq<T>, i: int)
    requires 0 <= i < |s|
    ensures CountWhere(p, RemoveAt(s, i)) == CountWhere(p, s) - (if p(s[i]) then 1 else 0)
  {
    var a, b := s[..i], s[i + 1..];
    assert s == a + [s[i]] + b;
    CountWhereAppend(p, a + [s[i]], b);
    CountWhereAppend(p, a, [s[i]]);
    CountWhereAppend(p, a, b);
    assert CountWhere(p, [s[i]]) == if p(s[i]) then 1 else 0 by {
      assert [s[i]][1..] == [];
    }
  }

  /** The position of the first `x` in `s` (`s.indexOf(x)`). */
  function FirstIndex<T(==)>(s: seq<T>, x: T): (i: nat)
    requires x in s
    ensures i < |s| && s[i] == x
    ensures forall j :: 0 <= j < i ==> s[j] != x
  {
    if s[0] == x then 0
    else
      assert s == [s[0]] + s[1..];
      FirstIndex(s[1..], x) + 1
  }

  /** `r` lists elements of `s` in the order of their first occurrence in `s`. */
  predicate InFirstOccurrenceOrder<T(==)>(r: seq<T>, s: seq<T>) {
    && (forall k :: 0 <= k < |r| ==> r[k] in s)
    && forall i, j :: 0 <= i < j < |r| ==> FirstIndex(s, r[i]) < FirstIndex(s, r[j])
  }

  /** Appending to a sequence does not move the first occurrence of an element it
      already holds. */
  lemma FirstIndexPrefix<T>(s: seq<T>, t: seq<T>, x: T)
    requires x in s
    ensures x in s + t && FirstIndex(s + t, x) == FirstIndex(s, x)
  {
    var i := FirstIndex(s, x);
    assert (s + t)[i] == x;
  }

  /** Distinct elements in order of first occurrence (`[...new Set(s)]`). */
  function Dedup<T(==,!new)>(s: seq<T>): (r: seq<T>)
    ensures NoDup(r)
    ensures forall x :: x in r <==> x in s
    ensures InFirstOccurrenceOrder(r, s)
    ensures |r| <= |s|
  {
    if |s| == 0 then []
    else
      var init := s[..|s| - 1];
      var d := Dedup(init);
      assert s == init + [s[|s| - 1]];
      DedupStep(init, s[|s| - 1], d);
      if s[|s| - 1] in d then d else d + [s[|s| - 1]]
  }

  /** One step of `Dedup`: adding the next element keeps the listing in
      first-occurrence order. */
  lemma DedupStep<T>(init: seq<T>, last: T, d: seq<T>)
    requires forall x :: x in d <==> x in init
    requires InFirstOccurrenceOrder(d, init)
    ensures InFirstOccurrenceOrder(if last in d then d else d + [last], init + [last])
  {
    var s := init + [last];
    forall x | x in d ensures x in s && FirstIndex(s, x) == FirstIndex(init, x) {
      FirstIndexPrefix(init, [last], x);
    }
    if last !in d {
      var r := d + [last];
      assert FirstIndex(s, last) == |init| by {
        assert s[|init|] == last;
      }
      forall i, j | 0 <= i < j < |r|
        ensures FirstIndex(s, r[i]) < FirstIndex(s, r[j])
      {
        assert r[i] == d[i];
        if j < |d| {
          assert r[j] == d[j];
        }
      }
    }
  }

  /** Filtering keeps the relative order of first occurrences of the elements that
      pass. */
  lemma {:induction false} FilterFirstIndex<T(!new)>(p: T -> bool, s: seq<T>, x: T, y: T)
    requires x in s && y in s && p(x) && p(y)
    ensures x in Filter(p, s) && y in Filter(p, s)
    ensures FirstIndex(Filter(p, s), x) < FirstIndex(Filter(p, s), y) ==> FirstIndex(s, x) < FirstIndex(s, y)
  {
    var f := Filter(p, s);
    if s[0] != x && s[0] != y {
      var t := s[1..];
      assert s == [s[0]] + t;
      FilterFirstIndex(p, t, x, y);
      if p(s[0]) {
        assert f == [s[0]] + Filter(p, t);
        assert f[1..] == Filter(p, t);
      }
    }
  }

  /** A listing in first-occurrence order of the filtered sequence is one of the
      whole sequence too. */
  lemma FilterKeepsFirstOccurrenceOrder<T(!new)>(p: T -> bool, r: seq<T>, s: seq<T>)
    requires forall x :: x in r ==> p(x)
    requires InFirstOccurrenceOrder(r, Filter(p, s))
    ensures InFirstOccurrenceOrder(r, s)
  {
    forall i, j | 0 <= i < j < |r|
      ensures FirstIndex(s, r[i]) < FirstIndex(s, r[j])
    {
      FilterFirstIndex(p, s, r[i], r[j]);
    }
  }

  /** The first `n` elements, or all of them when there are fewer (`s.slice(0, n)`). */
  function Take<T>(s: seq<T>, n: nat): (r: seq<T>)
    ensures |r| == if |s| < n then |s| else n
    ensures r == s[..|r|]
    ensures multiset(r) <= multiset(s)
  {
    if |s| <= n then s
    else
      assert s == s[..n] + s[n..];
      s[..n]
  }
}
