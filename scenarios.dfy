/**
 * Uses of the sorter and the tracker, proved from the contracts of `Sort`,
 * `SortBidirectional` and the tracker alone: properties over every input
 * (both sorts agree, `Sort` matches any reference sort), the fixed arrays of
 * the sorter's test suite, and single cases (the early return, the timer's
 * restart and double stop, a pass over tied maxima). Clock readings are
 * parameters.
 */
module SortingScenarios {
  import opened SortSpec
  import opened Metrics
  import opened Sorting

  /** A fresh array holding `s`. */
  method ArrayOf(s: seq<int>) returns (a: array<int>)
    ensures fresh(a) && a[..] == s
  {
    a := new int[|s|](k requires 0 <= k < |s| => s[k]);
  }

  /** Both sorts, each with its own sorter, on two copies of one input give the same array. */
  method SortBothWays(s: seq<int>, t0: int, t1: int) returns (standard: seq<int>, bidirectional: seq<int>)
    ensures standard == bidirectional
    ensures Ordered(standard) && multiset(standard) == multiset(s)
  {
    var a1 := ArrayOf(s);
    var a2 := ArrayOf(s);
    var sorter1 := new SelectionSort();
    var sorter2 := new SelectionSort();
    var _ := sorter1.Sort(a1, t0, t1);
    var _ := sorter2.SortBidirectional(a2, t0, t1);
    standard, bidirectional := a1[..], a2[..];
    OrderedPermutationsEqual(standard, bidirectional);
  }

  /** Whatever ordered permutation of the input a reference sort produces, `Sort` produces the same. */
  method SortMatchesReference(s: seq<int>, reference: seq<int>, t0: int, t1: int) returns (sorted: seq<int>)
    requires Ordered(reference) && multiset(reference) == multiset(s)
    ensures sorted == reference
  {
    var a := ArrayOf(s);
    var sorter := new SelectionSort();
    var _ := sorter.Sort(a, t0, t1);
    sorted := a[..];
    OrderedPermutationsEqual(sorted, reference);
  }

  // The elements of the two fixed arrays below, one small fact per lemma:
  // a sequence display against its multiset display, then two multiset displays.
  lemma DuplicatesInputElements()
    ensures multiset([3, 1, 4, 1, 5, 9, 2, 6, 5, 3]) == multiset{3, 1, 4, 1, 5, 9, 2, 6, 5, 3}
  {
  }

  lemma DuplicatesExpectedElements()
    ensures multiset([1, 1, 2, 3, 3, 4, 5, 5, 6, 9]) == multiset{1, 1, 2, 3, 3, 4, 5, 5, 6, 9}
  {
  }

  lemma DuplicatesSameElements()
    ensures multiset{3, 1, 4, 1, 5, 9, 2, 6, 5, 3} == multiset{1, 1, 2, 3, 3, 4, 5, 5, 6, 9}
  {
  }

  lemma NinesInputElements()
    ensures multiset([5, 2, 8, 1, 9, 3, 7, 4, 6]) == multiset{5, 2, 8, 1, 9, 3, 7, 4, 6}
  {
  }

  lemma NinesExpectedElements()
    ensures multiset([1, 2, 3, 4, 5, 6, 7, 8, 9]) == multiset{1, 2, 3, 4, 5, 6, 7, 8, 9}
  {
  }

  lemma NinesSameElements()
    ensures multiset{5, 2, 8, 1, 9, 3, 7, 4, 6} == multiset{1, 2, 3, 4, 5, 6, 7, 8, 9}
  {
  }

  lemma DuplicatesExpectedOrdered()
    ensures Ordered([1, 1, 2, 3, 3, 4, 5, 5, 6, 9])
  {
    AdjacentOrderedFrom([1, 1, 2, 3, 3, 4, 5, 5, 6, 9], 0);
  }

  lemma NinesExpectedOrdered()
    ensures Ordered([1, 2, 3, 4, 5, 6, 7, 8, 9])
  {
    AdjacentOrderedFrom([1, 2, 3, 4, 5, 6, 7, 8, 9], 0);
  }

  /** The only ordered arrangement of the duplicates array. */
  lemma DuplicatesOrdered(sorted: seq<int>)
    requires Ordered(sorted) && multiset(sorted) == multiset([3, 1, 4, 1, 5, 9, 2, 6, 5, 3])
    ensures sorted == [1, 1, 2, 3, 3, 4, 5, 5, 6, 9]
  {
    DuplicatesInputElements();
    DuplicatesExpectedElements();
    DuplicatesSameElements();
    DuplicatesExpectedOrdered();
    OrderedPermutationsEqual(sorted, [1, 1, 2, 3, 3, 4, 5, 5, 6, 9]);
  }

  /** The only ordered arrangement of the permutation of 1..9. */
  lemma NinesOrdered(sorted: seq<int>)
    requires Ordered(sorted) && multiset(sorted) == multiset([5, 2, 8, 1, 9, 3, 7, 4, 6])
    ensures sorted == [1, 2, 3, 4, 5, 6, 7, 8, 9]
  {
    NinesInputElements();
    NinesExpectedElements();
    NinesSameElements();
    NinesExpectedOrdered();
    OrderedPermutationsEqual(sorted, [1, 2, 3, 4, 5, 6, 7, 8, 9]);
  }

  /** The array with duplicates comes out in order, duplicates kept, after at least one swap. */
  method DuplicatesScenario(t0: int, t1: int) returns (sorted: seq<int>, swaps: int)
    ensures sorted == [1, 1, 2, 3, 3, 4, 5, 5, 6, 9]
    ensures swaps > 0
  {
    var input := [3, 1, 4, 1, 5, 9, 2, 6, 5, 3];
    var a := ArrayOf(input);
    var sorter := new SelectionSort();
    var _ := sorter.Sort(a, t0, t1);
    sorted := a[..];
    swaps := sorter.tracker.GetSwaps();
    DuplicatesOrdered(sorted);
    assert sorted[0] != input[0];
  }

  /** The bidirectional sort orders a permutation of 1..9. */
  method BidirectionalScenario(t0: int, t1: int) returns (sorted: seq<int>)
    ensures sorted == [1, 2, 3, 4, 5, 6, 7, 8, 9]
  {
    var a := ArrayOf([5, 2, 8, 1, 9, 3, 7, 4, 6]);
    var sorter := new SelectionSort();
    var _ := sorter.SortBidirectional(a, t0, t1);
    sorted := a[..];
    NinesOrdered(sorted);
  }

  /**
   * What one bidirectional pass does to `[5, 5, 1]`, from the postconditions of
   * `BidirectionalPass`: the first 5 is the maximum and sits at `left`, so the
   * retarget sends it where the minimum came from, the second swap exchanges
   * position 2 with itself, and the pass counts one swap.
   */
  lemma TiePassResult(s: seq<int>, minAt: nat, maxAt: nat, target: nat, r: seq<int>)
    requires s == [5, 5, 1]
    requires minAt <= 2 && maxAt <= 2
    requires WindowWithin(s, 0, 2, s[minAt], s[maxAt])
    requires maxAt != 2 ==> forall k :: 0 <= k <= 2 && k < maxAt ==> s[k] < s[maxAt]
    requires target == (if maxAt == 0 then minAt else maxAt) && target <= 2
    requires r == Swapped(Swapped(s, 0, minAt), 2, target)
    ensures minAt == 2 && maxAt == 0 && r == [1, 5, 5]
    ensures (if minAt != 0 then 1 else 0) + (if target != 2 then 1 else 0) == 1
  {
    assert s[minAt] <= s[2] && s[2] <= s[maxAt];
    assert minAt == 2;
    assert maxAt == 0;
    assert Swapped(s, 0, 2) == [1, 5, 5];
  }

  lemma FiveOrdered()
    ensures Ordered([1, 2, 3, 4, 5])
  {
    AdjacentOrderedFrom([1, 2, 3, 4, 5], 0);
  }

  /** An already sorted array: unchanged, no swaps, and 2 * (5 - 1) comparisons. */
  method AlreadySortedScenario(t0: int, t1: int) returns (sorted: seq<int>, comparisons: int, swaps: int)
    ensures sorted == [1, 2, 3, 4, 5] && comparisons == 8 && swaps == 0
  {
    var a := ArrayOf([1, 2, 3, 4, 5]);
    var sorter := new SelectionSort();
    FiveOrdered();
    var _ := sorter.Sort(a, t0, t1);
    sorted := a[..];
    comparisons := sorter.tracker.GetComparisons();
    swaps := sorter.tracker.GetSwaps();
  }

  /** The reference run on `[2, 1]`: one pass, one comparison, one swap, and the loop ends. */
  lemma TwoElementsRun()
    ensures SelectionRun([2, 1], 0) == Run([1, 2], 1, 1)
  {
    assert FirstMinUpTo([2, 1], 0, 2) == 1;
    assert Swapped([2, 1], 0, 1) == [1, 2];
  }

  /** Two elements out of order: one comparison and one swap put them in order. */
  method TwoElementsScenario(t0: int, t1: int) returns (sorted: seq<int>, comparisons: int, swaps: int)
    ensures sorted == [1, 2] && comparisons == 1 && swaps == 1
  {
    var a := ArrayOf([2, 1]);
    var sorter := new SelectionSort();
    var _ := sorter.Sort(a, t0, t1);
    TwoElementsRun();
    sorted := a[..];
    comparisons := sorter.tracker.GetComparisons();
    swaps := sorter.tracker.GetSwaps();
  }

  /**
   * The reference run on `[2, 1, 3, 4]`: pass 0 swaps (3 comparisons); pass 1
   * swaps nothing (2 comparisons), its scan finds `[2, 3, 4]` ordered
   * (2 comparisons), and the run returns there.
   */
  lemma EarlyReturnRun()
    ensures SelectionRun([2, 1, 3, 4], 0) == Run([1, 2, 3, 4], 7, 1)
  {
    assert FirstMinUpTo([2, 1, 3, 4], 0, 4) == 1;
    assert Swapped([2, 1, 3, 4], 0, 1) == [1, 2, 3, 4];
    EarlyReturnPass();
  }

  /** Pass 1 of that run, on `[1, 2, 3, 4]`: no swap, 2 comparisons, then a scan of 2 pairs that ends the run. */
  lemma EarlyReturnPass()
    ensures SelectionRun([1, 2, 3, 4], 1) == Run([1, 2, 3, 4], 4, 0)
  {
    assert FirstMinUpTo([1, 2, 3, 4], 1, 4) == 1;
    assert OrderedFrom([1, 2, 3, 4], 1);
    assert ScanLength([1, 2, 3, 4], 1) == 2;
  }

  /** A pass that swaps nothing on an ordered rest ends the sort: 7 comparisons, not a full 6-comparison run. */
  method EarlyReturnScenario(t0: int, t1: int) returns (sorted: seq<int>, comparisons: int, swaps: int)
    ensures sorted == [1, 2, 3, 4] && comparisons == 7 && swaps == 1
  {
    var a := ArrayOf([2, 1, 3, 4]);
    var sorter := new SelectionSort();
    var _ := sorter.Sort(a, t0, t1);
    EarlyReturnRun();
    sorted := a[..];
    comparisons := sorter.tracker.GetComparisons();
    swaps := sorter.tracker.GetSwaps();
  }

  /** Arrays of length 0 and 1: unchanged, no comparisons, no swaps, and a closed timing window. */
  method TrivialScenario(x: int, t0: int, t1: int)
    returns (empty: seq<int>, single: seq<int>, emptyComparisons: int, emptySwaps: int,
             singleComparisons: int, singleSwaps: int, elapsed: int)
    requires t0 <= t1
    ensures empty == [] && single == [x]
    ensures emptyComparisons == 0 && emptySwaps == 0
    ensures singleComparisons == 0 && singleSwaps == 0
    ensures elapsed == t1 - t0 && elapsed >= 0
  {
    var a := ArrayOf([]);
    var b := ArrayOf([x]);
    var sorter := new SelectionSort();
    var _ := sorter.Sort(a, t0, t1);
    emptyComparisons := sorter.tracker.GetComparisons();
    emptySwaps := sorter.tracker.GetSwaps();
    var _ := sorter.Sort(b, t0, t1);
    singleComparisons := sorter.tracker.GetComparisons();
    singleSwaps := sorter.tracker.GetSwaps();
    empty, single := a[..], b[..];
    elapsed := sorter.tracker.ElapsedTimeNanos(t1);
  }

  /** Sorting five elements records comparisons, a non-negative swap count and a positive duration. */
  method MetricsScenario(t0: int, t1: int) returns (comparisons: int, swaps: int, elapsed: int)
    requires t0 < t1
    ensures comparisons > 0 && swaps >= 0 && elapsed > 0
  {
    var a := ArrayOf([3, 1, 4, 1, 5]);
    var sorter := new SelectionSort();
    var _ := sorter.Sort(a, t0, t1);
    var tracker := sorter.GetTracker();
    comparisons := tracker.GetComparisons();
    swaps := tracker.GetSwaps();
    elapsed := tracker.ElapsedTimeNanos(t1);
  }

  /** The absent array is rejected and the injected tracker keeps its counts. */
  method NullArrayScenario(t0: int, t1: int) returns (status: Status, comparisons: int)
    ensures status == IllegalArgument("Array cannot be null")
    ensures comparisons == 7
  {
    var tracker := new PerformanceTracker();
    tracker.IncrementComparisonsBy(7);
    var sorter := new SelectionSort.WithTracker(tracker);
    status := sorter.Sort(null, t0, t1);
    comparisons := tracker.GetComparisons();
  }

  /** Restarting a running timer moves its start; a second stop changes nothing. */
  method TimerScenario(t0: int, t1: int, t2: int, t3: int) returns (elapsed: int)
    requires t0 <= t1 <= t2 <= t3
    ensures elapsed == t2 - t1 && elapsed >= 0
  {
    var tracker := new PerformanceTracker();
    tracker.StartTimer(t0);
    tracker.StartTimer(t1);
    tracker.StopTimer(t2);
    tracker.StopTimer(t3);
    elapsed := tracker.ElapsedTimeNanos(t3);
  }
}
