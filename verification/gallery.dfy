/** Wrap-around navigation of the detail view's image gallery (`ImageGallery`).
    The gallery only offers navigation when it has at least one image. */
module Gallery {

  /** `goToPrevious`: from the first image to the last, otherwise one back. */
  function GoToPrevious(count: nat, current: int): (r: int)
    requires count > 0
    ensures 0 <= current < count ==> 0 <= r < count && (r + 1) % count == current
  {
    if current == 0 then count - 1 else current - 1
  }

  /** `goToNext`: from the last image to the first, otherwise one forward. */
  function GoToNext(count: nat, current: int): (r: int)
    requires count > 0
    ensures 0 <= current < count ==> 0 <= r < count && r == (current + 1) % count
  {
    if current == count - 1 then 0 else current + 1
  }

  /** Previous and next undo each other on every valid position. */
  lemma PreviousNextInverse(count: nat, current: int)
    requires 0 <= current < count
    ensures GoToNext(count, GoToPrevious(count, current)) == current
    ensures GoToPrevious(count, GoToNext(count, current)) == current
  {
  }

  /** The position after pressing next `steps` times. */
  function Advance(count: nat, current: int, steps: nat): int
    requires count > 0
  {
    if steps == 0 then current else GoToNext(count, Advance(count, current, steps - 1))
  }

  /** Euclidean remainder is determined by any quotient-remainder split. */
  lemma ModUnique(a: int, n: int, q: int, m: int)
    requires n > 0 && 0 <= m < n && a == q * n + m
    ensures a % n == m
  {
    var q', m' := a / n, a % n;
    assert a == q' * n + m';
    assert (q - q') * n == m' - m;
    if q > q' {
      MulAtLeast(q - q', n);
    } else if q < q' {
      MulAtLeast(q' - q, n);
    }
  }

  lemma MulAtLeast(k: int, n: int)
    requires k >= 1 && n >= 0
    ensures k * n >= n
    decreases k
  {
    if k > 1 {
      MulAtLeast(k - 1, n);
      assert k * n == (k - 1) * n + n;
    }
  }

  /** One step round the ring of residues. */
  lemma ModSucc(a: int, n: int)
    requires n > 0
    ensures (a + 1) % n == if a % n == n - 1 then 0 else a % n + 1
  {
    var q, m := a / n, a % n;
    if m == n - 1 {
      ModUnique(a + 1, n, q + 1, 0);
    } else {
      ModUnique(a + 1, n, q, m + 1);
    }
  }

  /** Pressing next `steps` times moves `steps` places round the ring, so `count`
      presses come back to the start. */
  lemma {:induction false} AdvanceWraps(count: nat, current: int, steps: nat)
    requires 0 <= current < count
    ensures Advance(count, current, steps) == (current + steps) % count
  {
    if steps > 0 {
      AdvanceWraps(count, current, steps - 1);
      ModSucc(current + steps - 1, count);
    }
  }
}
