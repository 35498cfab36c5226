/**
 * What the sorter promises, stated on sequences: non-descending order, the
 * number of adjacent pairs the early-termination check examines, and the
 * number of comparisons the bidirectional sort makes.
 */
module SortSpec {

  /** `s` is in non-descending order. */
  predicate Ordered(s: seq<int>)
  {
    forall a, b :: 0 <= a < b < |s| ==> s[a] <= s[b]
  }

  /** The suffix of `s` from `start` on is in non-descending order. */
  predicate OrderedFrom(s: seq<int>, start: nat)
  {
    forall a, b :: start <= a < b < |s| ==> s[a] <= s[b]
  }

  /** `s` with the elements at `i` and `j` exchanged. */
  function Swapped(s: seq<int>, i: nat, j: nat): (r: seq<int>)
    requires i < |s| && j < |s|
    ensures |r| == |s| && r[i] == s[j] && r[j] == s[i]
    ensures forall k :: 0 <= k < |s| && k != i && k != j ==> r[k] == s[k]
    ensures multiset(r) == multiset(s)
    ensures i == j ==> r == s
  {
    s[i := s[j]][j := s[i]]
  }

  /** Each of the first `k` elements is <= every element after it: they are in their final places. */
  ghost predicate PrefixPlaced(s: seq<int>, k: nat)
  {
    forall a, b :: 0 <= a < k && a < b < |s| ==> s[a] <= s[b]
  }

  /** Each element after position `k` is >= every element before it: they are in their final places. */
  ghost predicate SuffixPlaced(s: seq<int>, k: int)
  {
    forall a, b :: 0 <= a < b < |s| && k < b ==> s[a] <= s[b]
  }

  /** Every element of the window `s[left..right]` (inclusive) lies between `lo` and `hi`. */
  ghost predicate WindowWithin(s: seq<int>, left: nat, right: int, lo: int, hi: int)
  {
    forall k :: left <= k <= right && k < |s| ==> lo <= s[k] <= hi
  }

  /** A placed prefix followed by an ordered suffix is an ordered sequence. */
  lemma PlacedThenOrdered(s: seq<int>, k: nat)
    requires PrefixPlaced(s, k) && OrderedFrom(s, k)
    ensures Ordered(s)
  {
  }

  /**
   * One selection-sort step: moving a minimum of `s[i..]` to `i` extends the
   * placed prefix by one.
   */
  lemma SelectExtendsPrefix(s: seq<int>, i: nat, m: nat)
    requires i <= m < |s|
    requires PrefixPlaced(s, i)
    requires forall k :: i <= k < |s| ==> s[m] <= s[k]
    ensures PrefixPlaced(Swapped(s, i, m), i + 1)
  {
    var r := Swapped(s, i, m);
    forall a, b | 0 <= a < i + 1 && a < b < |r|
      ensures r[a] <= r[b]
    {
      if a < i {
        assert r[a] == s[a];
        assert r[b] == s[b] || r[b] == s[i] || r[b] == s[m];
      } else {
        assert r[b] == s[b] || r[b] == s[i];
      }
    }
  }

  /** A swap inside the window keeps both placed ends and the window's bounds. */
  lemma SwapInsideWindow(s: seq<int>, left: nat, right: nat, lo: int, hi: int, p: nat, q: nat)
    requires left <= p <= right && left <= q <= right && right < |s|
    requires PrefixPlaced(s, left) && SuffixPlaced(s, right)
    requires WindowWithin(s, left, right, lo, hi)
    ensures PrefixPlaced(Swapped(s, p, q), left) && SuffixPlaced(Swapped(s, p, q), right)
    ensures WindowWithin(Swapped(s, p, q), left, right, lo, hi)
  {
    var r := Swapped(s, p, q);
    forall a, b | 0 <= a < left && a < b < |r|
      ensures r[a] <= r[b]
    {
      assert r[a] == s[a];
      assert r[b] == s[b] || r[b] == s[p] || r[b] == s[q];
    }
    forall a, b | 0 <= a < b < |r| && right < b
      ensures r[a] <= r[b]
    {
      assert r[b] == s[b];
      assert r[a] == s[a] || r[a] == s[p] || r[a] == s[q];
    }
  }

  /**
   * One bidirectional step: with the window's minimum at `left` and its
   * maximum at `right`, both placed ends grow by one.
   */
  lemma PlaceWindowEnds(s: seq<int>, left: nat, right: nat)
    requires left < right < |s|
    requires PrefixPlaced(s, left) && SuffixPlaced(s, right)
    requires WindowWithin(s, left, right, s[left], s[right])
    ensures PrefixPlaced(s, left + 1) && SuffixPlaced(s, right - 1)
  {
  }

  /**
   * The number of adjacent pairs a left-to-right scan from `start` examines
   * when it stops at the first inversion (that pair included).
   */
  ghost function ScanLength(s: seq<int>, start: nat): nat
    decreases |s| - start
  {
    if start + 1 >= |s| then 0
    else if s[start] > s[start + 1] then 1
    else 1 + ScanLength(s, start + 1)
  }

  /** On an ordered suffix the scan examines every adjacent pair of it. */
  lemma {:induction false} ScanLengthOfOrdered(s: seq<int>, start: nat)
    requires start < |s|
    requires OrderedFrom(s, start)
    ensures ScanLength(s, start) == |s| - 1 - start
    decreases |s| - start
  {
    if start + 1 < |s| {
      ScanLengthOfOrdered(s, start + 1);
    }
  }

  /** The scan stops right after the first inversion at or after `start`. */
  lemma {:induction false} ScanLengthAtFirstInversion(s: seq<int>, start: nat, k: nat)
    requires start <= k && k + 1 < |s|
    requires s[k] > s[k + 1]
    requires forall m :: start <= m < k ==> s[m] <= s[m + 1]
    ensures ScanLength(s, start) == k - start + 1
    decreases k - start
  {
    if start < k {
      ScanLengthAtFirstInversion(s, start + 1, k);
    }
  }

  /** A suffix whose adjacent pairs are in order is ordered. */
  lemma {:induction false} AdjacentOrderedFrom(s: seq<int>, start: nat)
    requires forall m :: start <= m && m + 1 < |s| ==> s[m] <= s[m + 1]
    ensures OrderedFrom(s, start)
    decreases |s| - start
  {
    if start + 1 < |s| {
      AdjacentOrderedFrom(s, start + 1);
      forall b | start < b < |s|
        ensures s[start] <= s[b]
      {
        assert s[start] <= s[start + 1];
        assert start + 1 == b || s[start + 1] <= s[b];
      }
    }
  }

  /**
   * The index a left-to-right scan of `s[i..j]` with a strict `<` settles on:
   * a minimum of the range, and the first one.
   */
  ghost function FirstMinUpTo(s: seq<int>, i: nat, j: nat): (m: nat)
    requires i < j <= |s|
    ensures i <= m < j
    decreases j
  {
    if j == i + 1 then i
    else
      var m := FirstMinUpTo(s, i, j - 1);
      if s[j - 1] < s[m] then j - 1 else m
  }

  /** The index the scan settles on is a minimum of the range, and no earlier element equals it. */
  lemma {:induction false} FirstMinIsFirstLeast(s: seq<int>, i: nat, j: nat)
    requires i < j <= |s|
    ensures forall k :: i <= k < j ==> s[FirstMinUpTo(s, i, j)] <= s[k]
    ensures forall k :: i <= k < FirstMinUpTo(s, i, j) ==> s[FirstMinUpTo(s, i, j)] < s[k]
    decreases j
  {
    if j > i + 1 {
      FirstMinIsFirstLeast(s, i, j - 1);
    }
  }

  /** What a run of selection sort from pass `i` on yields: the array and the two counts. */
  datatype Run = Run(result: seq<int>, comparisons: nat, swaps: nat)

  /**
   * Selection sort with early termination, from pass `i` on: each pass
   * compares every later element against the running minimum and swaps the
   * first minimum into `i` unless it is already there; a pass that swaps
   * nothing then scans the rest for order and stops if it is ordered.
   */
  ghost function SelectionRun(s: seq<int>, i: nat): Run
    decreases |s| - i
  {
    if i + 1 >= |s| then Run(s, 0, 0)
    else
      var m := FirstMinUpTo(s, i, |s|);
      if m != i then
        var rest := SelectionRun(Swapped(s, i, m), i + 1);
        Run(rest.result, (|s| - 1 - i) + rest.comparisons, 1 + rest.swaps)
      else if OrderedFrom(s, i) then
        Run(s, (|s| - 1 - i) + ScanLength(s, i), 0)
      else
        var rest := SelectionRun(s, i + 1);
        Run(rest.result, (|s| - 1 - i) + ScanLength(s, i) + rest.comparisons, rest.swaps)
  }
  /**
   * `c` comparisons and `w` swaps counted before pass `i`, plus what the run
   * from `i` on still counts, make up `run`, and the run from `i` ends with
   * `run`'s array.
   */
  ghost predicate Accounted(s: seq<int>, i: nat, c: int, w: int, run: Run)
  {
    SelectionRun(s, i).result == run.result &&
    c + SelectionRun(s, i).comparisons == run.comparisons &&
    w + SelectionRun(s, i).swaps == run.swaps
  }

  /** A pass that swaps the first minimum into `i` counts its scan and one swap; the run goes on from `i + 1`. */
  lemma SwapPassAccounted(s: seq<int>, i: nat, c: int, w: int, run: Run, next: seq<int>, c': int, w': int)
    requires i + 1 < |s| && FirstMinUpTo(s, i, |s|) != i
    requires Accounted(s, i, c, w, run)
    requires next == Swapped(s, i, FirstMinUpTo(s, i, |s|))
    requires c' == c + (|s| - 1 - i) && w' == w + 1
    ensures Accounted(next, i + 1, c', w', run)
  {
  }

  /**
   * A pass that swaps nothing counts its scan and the order check; the run
   * then ends with its input if the rest is ordered, and goes on from `i + 1`
   * otherwise.
   */
  lemma NoSwapPassAccounted(s: seq<int>, i: nat, c: int, w: int, run: Run, c': int)
    requires i + 1 < |s| && FirstMinUpTo(s, i, |s|) == i
    requires Accounted(s, i, c, w, run)
    requires c' == c + (|s| - 1 - i) + ScanLength(s, i)
    ensures OrderedFrom(s, i) ==> s == run.result && c' == run.comparisons && w == run.swaps
    ensures !OrderedFrom(s, i) ==> Accounted(s, i + 1, c', w, run)
  {
  }

  /** The run sorts: from a placed prefix it yields an ordered permutation of its input. */
  lemma {:induction false} SelectionRunSorts(s: seq<int>, i: nat)
    requires PrefixPlaced(s, i)
    ensures Ordered(SelectionRun(s, i).result)
    ensures multiset(SelectionRun(s, i).result) == multiset(s)
    decreases |s| - i
  {
    if i + 1 >= |s| {
      PlacedThenOrdered(s, i);
    } else {
      var m := FirstMinUpTo(s, i, |s|);
      FirstMinIsFirstLeast(s, i, |s|);
      SelectExtendsPrefix(s, i, m);
      if m != i {
        SwapPassAccounted(s, i, 0, 0, SelectionRun(s, i), Swapped(s, i, m), |s| - 1 - i, 1);
        SelectionRunSorts(Swapped(s, i, m), i + 1);
      } else {
        NoSwapPassAccounted(s, i, 0, 0, SelectionRun(s, i), (|s| - 1 - i) + ScanLength(s, i));
        if OrderedFrom(s, i) {
          PlacedThenOrdered(s, i);
        } else {
          SelectionRunSorts(s, i + 1);
        }
      }
    }
  }

  /** Each pass from `i` on counts its scan, and swaps at most once. */
  lemma {:induction false} SelectionRunBounds(s: seq<int>, i: nat)
    requires i + 1 < |s|
    ensures |s| - 1 - i <= SelectionRun(s, i).comparisons
    ensures SelectionRun(s, i).swaps <= |s| - 1 - i
    decreases |s| - i
  {
    var m := FirstMinUpTo(s, i, |s|);
    if i + 2 < |s| {
      if m != i {
        SelectionRunBounds(Swapped(s, i, m), i + 1);
      } else if !OrderedFrom(s, i) {
        SelectionRunBounds(s, i + 1);
      }
    }
  }

  /** A run that swaps nothing leaves its input as it was. */
  lemma {:induction false} SelectionRunWithoutSwaps(s: seq<int>, i: nat)
    ensures SelectionRun(s, i).swaps == 0 ==> SelectionRun(s, i).result == s
    decreases |s| - i
  {
    if i + 1 < |s| && FirstMinUpTo(s, i, |s|) == i && !OrderedFrom(s, i) {
      SelectionRunWithoutSwaps(s, i + 1);
    }
  }

  /** On ordered input the first pass swaps nothing, its scan runs to the end, and the run stops. */
  lemma SelectionRunOfOrdered(s: seq<int>)
    requires |s| >= 2 && Ordered(s)
    ensures SelectionRun(s, 0) == Run(s, 2 * (|s| - 1), 0)
  {
    var m := FirstMinUpTo(s, 0, |s|);
    FirstMinIsFirstLeast(s, 0, |s|);
    assert s[0] <= s[m];
    assert m == 0;
    assert OrderedFrom(s, 0);
    ScanLengthOfOrdered(s, 0);
  }
  /** What a whole run promises about its result and its counts. */
  lemma SelectionRunFacts(s: seq<int>)
    requires |s| >= 2
    ensures Ordered(SelectionRun(s, 0).result) && multiset(SelectionRun(s, 0).result) == multiset(s)
    ensures SelectionRun(s, 0).swaps == 0 ==> SelectionRun(s, 0).result == s
    ensures |s| - 1 <= SelectionRun(s, 0).comparisons && SelectionRun(s, 0).swaps <= |s| - 1
    ensures Ordered(s) ==> SelectionRun(s, 0) == Run(s, 2 * (|s| - 1), 0)
  {
    SelectionRunSorts(s, 0);
    SelectionRunBounds(s, 0);
    SelectionRunWithoutSwaps(s, 0);
    if Ordered(s) {
      SelectionRunOfOrdered(s);
    }
  }




  /**
   * Comparisons the bidirectional sort makes on a window of `w` elements and
   * every window inside it: each pass adds 2 per element, then the window
   * shrinks by one at each end.
   */
  ghost function PassComparisons(w: int): nat
    decreases w
  {
    if w <= 1 then 0 else 2 * w + PassComparisons(w - 2)
  }

  /** The arithmetic of one more pass in the closed form below: 2(p+q) + 2(p-1)q = 2p(q+1). */
  lemma OnePassMore(p: int, q: int)
    ensures 2 * (p + q) + 2 * (p - 1) * q == 2 * p * (q + 1)
  {
    assert (p - 1) * q == p * q - q;
    assert p * (q + 1) == p * q + p;
  }

  /** Closed form: floor(w/2) passes over windows w, w-2, ... */
  lemma {:induction false} PassComparisonsClosedForm(w: nat)
    ensures PassComparisons(w) == 2 * (w / 2) * (w - w / 2 + 1)
    decreases w
  {
    if w > 1 {
      PassComparisonsClosedForm(w - 2);
      var p, q := w / 2, w - w / 2;
      assert (w - 2) / 2 == p - 1 && (w - 2) - (p - 1) + 1 == q;
      assert PassComparisons(w - 2) == 2 * (p - 1) * q;
      OnePassMore(p, q);
    }
  }

  /** The first element of an ordered sequence is a least element. */
  lemma HeadIsLeast(s: seq<int>, x: int)
    requires Ordered(s) && x in s
    ensures s[0] <= x
  {
    var k :| 0 <= k < |s| && s[k] == x;
  }

  /** Dropping the first element removes one occurrence of it. */
  lemma TailElements(s: seq<int>)
    requires |s| > 0
    ensures multiset(s[1..]) == multiset(s) - multiset{s[0]}
  {
    assert s == [s[0]] + s[1..];
  }

  /** Every suffix of an ordered sequence is ordered. */
  lemma OrderedTail(s: seq<int>)
    requires Ordered(s) && |s| > 0
    ensures Ordered(s[1..])
  {
  }

  /** Two non-empty ordered sequences with the same elements start with the same element. */
  lemma OrderedHeadsEqual(s: seq<int>, t: seq<int>)
    requires Ordered(s) && Ordered(t) && |s| > 0 && |t| > 0
    requires multiset(s) == multiset(t)
    ensures s[0] == t[0]
  {
    assert t[0] in multiset(s) && s[0] in multiset(t);
    HeadIsLeast(s, t[0]);
    HeadIsLeast(t, s[0]);
  }

  /** Two ordered sequences with the same elements are the same sequence. */
  lemma {:induction false} OrderedPermutationsEqual(s: seq<int>, t: seq<int>)
    requires Ordered(s) && Ordered(t)
    requires multiset(s) == multiset(t)
    ensures s == t
    decreases |s|
  {
    assert |s| == |t| by {
      assert |multiset(s)| == |s| && |multiset(t)| == |t|;
    }
    if |s| > 0 {
      OrderedHeadsEqual(s, t);
      TailElements(s);
      TailElements(t);
      assert multiset(s[1..]) == multiset(t[1..]);
      OrderedTail(s);
      OrderedTail(t);
      OrderedPermutationsEqual(s[1..], t[1..]);
      assert s == [s[0]] + s[1..] && t == [t[0]] + t[1..];
    }
  }
}
