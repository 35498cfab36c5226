/**
 * The selection-sort engine: classic selection sort with a skipped no-op swap
 * and early termination, and a double-ended variant that places the minimum
 * and the maximum of a shrinking window on each pass. Both sort an array in
 * place and report every comparison and swap to a shared tracker.
 */
module Sorting {
  import opened SortSpec
  import opened Metrics

  /** How a sort call ends: normally, or rejected because there is no array. */
  datatype Status = Done | IllegalArgument(message: string)

  const NullArrayMessage: string := "Array cannot be null"

  class SelectionSort {
    /** The tracker this sorter resets and updates; shared with the caller when injected. */
    const tracker: PerformanceTracker

    /** A sorter that owns a fresh tracker. */
    constructor ()
      ensures fresh(tracker) && tracker.IsReset()
    {
      tracker := new PerformanceTracker();
    }

    /** A sorter that records into the caller's tracker. */
    constructor WithTracker(shared: PerformanceTracker)
      ensures tracker == shared
    {
      tracker := shared;
    }

    method GetTracker() returns (t: PerformanceTracker)
      ensures t == tracker
    {
      t := tracker;
    }

    /**
     * Selection sort with early termination. The clock is read at entry
     * (`startClock`) and just before returning (`stopClock`).
     */
    method Sort(arr: array?<int>, startClock: int, stopClock: int) returns (status: Status)
      modifies arr, tracker
      ensures arr == null ==> status == IllegalArgument(NullArrayMessage) && unchanged(tracker)
      ensures arr != null ==> status == Done
      ensures arr != null ==> Ordered(arr[..]) && multiset(arr[..]) == multiset(old(arr[..]))
      ensures arr != null ==> tracker.arrayAccesses == 3 * tracker.swaps && tracker.memoryAllocations == 0
      ensures arr != null ==> !tracker.timerRunning && tracker.startTime == startClock && tracker.endTime == stopClock
      ensures arr != null && tracker.swaps == 0 ==> arr[..] == old(arr[..])
      ensures arr != null && arr.Length <= 1 ==> tracker.comparisons == 0 && tracker.swaps == 0
      ensures arr != null && arr.Length >= 2 ==>
                arr.Length - 1 <= tracker.comparisons && 0 <= tracker.swaps <= arr.Length - 1
      ensures arr != null && arr.Length >= 2 && Ordered(old(arr[..])) ==>
                tracker.swaps == 0 && tracker.comparisons == 2 * (arr.Length - 1)
      // the array and both counts are those of the reference run, early return included
      ensures arr != null ==> arr[..] == SelectionRun(old(arr[..]), 0).result
      ensures arr != null ==> tracker.comparisons == SelectionRun(old(arr[..]), 0).comparisons
      ensures arr != null ==> tracker.swaps == SelectionRun(old(arr[..]), 0).swaps
    {
      if arr == null {
        return IllegalArgument(NullArrayMessage);
      }
      tracker.Reset();
      tracker.StartTimer(startClock);
      if arr.Length <= 1 {
        tracker.StopTimer(stopClock);
        return Done;
      }
      SelectionPasses(arr);
      SelectionRunFacts(old(arr[..]));
      tracker.StopTimer(stopClock);
      return Done;
    }

    /**
     * The passes of `Sort` on an array of at least two elements, counted from
     * a reset tracker; returns early once a pass swaps nothing and the rest of
     * the array is already in order.
     */
    method SelectionPasses(arr: array<int>)
      requires arr.Length >= 2
      requires tracker.comparisons == 0 && tracker.swaps == 0 && tracker.arrayAccesses == 0
      modifies arr, tracker`comparisons, tracker`swaps, tracker`arrayAccesses
      ensures tracker.arrayAccesses == 3 * tracker.swaps
      // exactly the passes of the reference run, including the pass that returns early
      ensures arr[..] == SelectionRun(old(arr[..]), 0).result
      ensures tracker.comparisons == SelectionRun(old(arr[..]), 0).comparisons
      ensures tracker.swaps == SelectionRun(old(arr[..]), 0).swaps
    {
      var n := arr.Length;
      ghost var input := arr[..];
      ghost var run := SelectionRun(input, 0);
      var i := 0;
      while i < n - 1
        invariant 0 <= i <= n - 1
        invariant tracker.arrayAccesses == 3 * tracker.swaps
        // what is counted so far plus what the reference run still counts from i on
        invariant Accounted(arr[..], i, tracker.comparisons, tracker.swaps, run)
      {
        var stop := SelectionStep(arr, i, run);
        if stop {
          return;
        }
        i := i + 1;
      }
    }

    /**
     * One iteration of the outer loop of `Sort`: the pass at `i`, then, if it
     * swapped nothing, the order check of `arr[i..]`; `stop` says the sort
     * returns here. Stated against the reference run `run`.
     */
    method SelectionStep(arr: array<int>, i: nat, ghost run: Run) returns (stop: bool)
      requires i + 1 < arr.Length
      requires Accounted(arr[..], i, tracker.comparisons, tracker.swaps, run)
      requires tracker.arrayAccesses == 3 * tracker.swaps
      modifies arr, tracker`comparisons, tracker`swaps, tracker`arrayAccesses
      ensures tracker.arrayAccesses == 3 * tracker.swaps
      ensures stop ==> arr[..] == run.result && tracker.comparisons == run.comparisons && tracker.swaps == run.swaps
      ensures !stop ==> Accounted(arr[..], i + 1, tracker.comparisons, tracker.swaps, run)
    {
      ghost var current, comparisonsBefore, swapsBefore := arr[..], tracker.comparisons, tracker.swaps;
      var swapOccurred := SelectionPass(arr, i);
      stop := false;
      if !swapOccurred {
        var restOrdered := IsSortedFrom(arr, i);
        NoSwapPassAccounted(current, i, comparisonsBefore, swapsBefore, run, tracker.comparisons);
        stop := restOrdered;
      } else {
        SwapPassAccounted(current, i, comparisonsBefore, swapsBefore, run, arr[..], tracker.comparisons, tracker.swaps);
      }
    }

    /**
     * One pass of `Sort` at position `i`: find the first minimum of `arr[i..]`,
     * counting one comparison per element after `i`, and swap it into `i`
     * unless it is already there.
     */
    method SelectionPass(arr: array<int>, i: nat) returns (swapOccurred: bool)
      requires i < arr.Length
      modifies arr, tracker`comparisons, tracker`swaps, tracker`arrayAccesses
      ensures multiset(arr[..]) == multiset(old(arr[..]))
      ensures PrefixPlaced(old(arr[..]), i) ==> PrefixPlaced(arr[..], i + 1)
      ensures tracker.comparisons == old(tracker.comparisons) + (arr.Length - 1 - i)
      ensures tracker.swaps == old(tracker.swaps) + (if swapOccurred then 1 else 0)
      ensures tracker.arrayAccesses == old(tracker.arrayAccesses) + (if swapOccurred then 3 else 0)
      ensures !swapOccurred ==> arr[..] == old(arr[..])
      // a swap happens exactly when some later element is strictly smaller than arr[i]
      ensures swapOccurred <==> exists k :: i < k < arr.Length && old(arr[k]) < old(arr[i])
      // the swap exchanges arr[i] with the first minimum of arr[i..] and moves nothing else
      ensures swapOccurred ==>
                exists m :: (i < m < arr.Length && arr[..] == Swapped(old(arr[..]), i, m) &&
                  (forall k :: i <= k < arr.Length ==> old(arr[m]) <= old(arr[k])) &&
                  (forall k :: i <= k < m ==> old(arr[m]) < old(arr[k])))
      ensures OrderedFrom(old(arr[..]), i) ==> !swapOccurred
      // the index swapped in is the one the scan settles on
      ensures swapOccurred <==> FirstMinUpTo(old(arr[..]), i, arr.Length) != i
      ensures swapOccurred ==> arr[..] == Swapped(old(arr[..]), i, FirstMinUpTo(old(arr[..]), i, arr.Length))
    {
      ghost var current := arr[..];
      var minIdx := ScanMin(arr, i);
      swapOccurred := false;
      assert OrderedFrom(current, i) ==> minIdx == i by {
        if OrderedFrom(current, i) {
          assert current[i] <= current[minIdx];
        }
      }
      if PrefixPlaced(current, i) {
        SelectExtendsPrefix(current, i, minIdx);
      }
      if minIdx != i {
        Swap(arr, i, minIdx);
        swapOccurred := true;
      }
    }

    /**
     * The inner loop of a pass of `Sort`: the first minimum of `arr[i..]`,
     * found with one comparison per element after `i`.
     */
    method ScanMin(arr: array<int>, i: nat) returns (minIdx: nat)
      requires i < arr.Length
      modifies tracker`comparisons
      ensures minIdx == FirstMinUpTo(arr[..], i, arr.Length)
      ensures i <= minIdx < arr.Length
      ensures forall k :: i <= k < arr.Length ==> arr[minIdx] <= arr[k]
      ensures forall k :: i <= k < minIdx ==> arr[minIdx] < arr[k]
      ensures tracker.comparisons == old(tracker.comparisons) + (arr.Length - 1 - i)
    {
      minIdx := i;
      var j := i + 1;
      while j < arr.Length
        invariant i + 1 <= j <= arr.Length
        invariant minIdx == FirstMinUpTo(arr[..], i, j)
        invariant tracker.comparisons == old(tracker.comparisons) + (j - i - 1)
      {
        tracker.IncrementComparisons();
        if arr[j] < arr[minIdx] {
          minIdx := j;
        }
        j := j + 1;
      }
      FirstMinIsFirstLeast(arr[..], i, arr.Length);
    }

    /**
     * Whether `arr[start..]` is non-descending; one comparison is counted per
     * adjacent pair examined, and the scan stops at the first inversion.
     */
    method IsSortedFrom(arr: array<int>, start: nat) returns (ordered: bool)
      modifies tracker`comparisons
      ensures ordered <==> OrderedFrom(arr[..], start)
      ensures tracker.comparisons == old(tracker.comparisons) + ScanLength(arr[..], start)
    {
      var i := start;
      while i < arr.Length - 1
        invariant start <= i && (i == start || i < arr.Length)
        invariant forall m :: start <= m < i ==> arr[m] <= arr[m + 1]
        invariant tracker.comparisons == old(tracker.comparisons) + (i - start)
        invariant ScanLength(arr[..], start) == (i - start) + ScanLength(arr[..], i)
      {
        tracker.IncrementComparisons();
        if arr[i] > arr[i + 1] {
          return false;
        }
        i := i + 1;
      }
      AdjacentOrderedFrom(arr[..], start);
      return true;
    }

    /** Exchanges `arr[i]` and `arr[j]`, counting one swap and three array accesses. */
    method Swap(arr: array<int>, i: int, j: int)
      requires 0 <= i < arr.Length && 0 <= j < arr.Length
      modifies arr, tracker`swaps, tracker`arrayAccesses
      ensures arr[..] == Swapped(old(arr[..]), i, j)
      ensures tracker.swaps == old(tracker.swaps) + 1
      ensures tracker.arrayAccesses == old(tracker.arrayAccesses) + 3
    {
      tracker.IncrementSwaps();
      tracker.IncrementArrayAccessesBy(3);
      var temp := arr[i];
      arr[i] := arr[j];
      arr[j] := temp;
    }

    /**
     * Double-ended selection sort: each pass over the window [left, right]
     * finds the first minimum and the maximum, puts them at the two ends and
     * shrinks the window.
     */
    method SortBidirectional(arr: array?<int>, startClock: int, stopClock: int) returns (status: Status)
      modifies arr, tracker
      ensures arr == null ==> status == IllegalArgument(NullArrayMessage) && unchanged(tracker)
      ensures arr != null ==> status == Done
      ensures arr != null ==> Ordered(arr[..]) && multiset(arr[..]) == multiset(old(arr[..]))
      ensures arr != null ==> tracker.arrayAccesses == 3 * tracker.swaps && tracker.memoryAllocations == 0
      ensures arr != null ==> !tracker.timerRunning && tracker.startTime == startClock && tracker.endTime == stopClock
      ensures arr != null ==> tracker.comparisons == PassComparisons(arr.Length)
      // floor(n/2) passes, over windows of n, n - 2, ... elements
      ensures arr != null ==> tracker.comparisons == 2 * (arr.Length / 2) * (arr.Length - arr.Length / 2 + 1)
      ensures arr != null ==> 0 <= tracker.swaps <= 2 * (arr.Length / 2)
      ensures arr != null && tracker.swaps == 0 ==> arr[..] == old(arr[..])
      ensures arr != null && Ordered(old(arr[..])) ==> tracker.swaps == 0
    {
      if arr == null {
        return IllegalArgument(NullArrayMessage);
      }
      tracker.Reset();
      tracker.StartTimer(startClock);
      if arr.Length <= 1 {
        tracker.StopTimer(stopClock);
        return Done;
      }
      BidirectionalPasses(arr);
      PassComparisonsClosedForm(arr.Length);
      tracker.StopTimer(stopClock);
      return Done;
    }

    /**
     * The passes of `SortBidirectional` on an array of at least two elements,
     * counted from a reset tracker: the window [left, right] closes inward by
     * one at each end per pass.
     */
    method BidirectionalPasses(arr: array<int>)
      requires arr.Length >= 2
      requires tracker.comparisons == 0 && tracker.swaps == 0 && tracker.arrayAccesses == 0
      modifies arr, tracker`comparisons, tracker`swaps, tracker`arrayAccesses
      ensures Ordered(arr[..]) && multiset(arr[..]) == multiset(old(arr[..]))
      ensures tracker.arrayAccesses == 3 * tracker.swaps
      ensures tracker.comparisons == PassComparisons(arr.Length)
      ensures 0 <= tracker.swaps <= 2 * (arr.Length / 2)
      ensures tracker.swaps == 0 ==> arr[..] == old(arr[..])
      ensures Ordered(old(arr[..])) ==> tracker.swaps == 0
    {
      var n := arr.Length;
      ghost var input := arr[..];
      var left := 0;
      var right := n - 1;
      while left < right
        invariant 0 <= left <= n / 2 && right == n - 1 - left
        invariant multiset(arr[..]) == multiset(input)
        // the prefix before left and the suffix after right hold their final values
        invariant PrefixPlaced(arr[..], left) && SuffixPlaced(arr[..], right)
        invariant tracker.comparisons == PassComparisons(n) - PassComparisons(right - left + 1)
        invariant tracker.arrayAccesses == 3 * tracker.swaps && 0 <= tracker.swaps <= 2 * left
        invariant tracker.swaps == 0 ==> arr[..] == input
        invariant Ordered(input) ==> tracker.swaps == 0
      {
        ghost var _, _ := BidirectionalPass(arr, left, right);
        left := left + 1;
        right := right - 1;
      }
      PlacedThenOrdered(arr[..], left);
    }

    /**
     * One pass of `SortBidirectional` over the window [left, right]: find the
     * first minimum and the maximum, then place the minimum at `left` and the
     * maximum at `right`. The ghost results are the two indices the scan found.
     */
    method BidirectionalPass(arr: array<int>, left: nat, right: nat) returns (ghost minAt: nat, ghost maxAt: nat)
      requires left < right < arr.Length
      modifies arr, tracker`comparisons, tracker`swaps, tracker`arrayAccesses
      // minAt is the first minimum of the window; maxAt is right, or the first element strictly larger than it
      ensures left <= minAt <= right && left <= maxAt <= right
      ensures WindowWithin(old(arr[..]), left, right, old(arr[minAt]), old(arr[maxAt]))
      ensures forall k :: left <= k < minAt ==> old(arr[minAt]) < old(arr[k])
      ensures maxAt != right ==> forall k :: left <= k <= right && k < maxAt ==> old(arr[k]) < old(arr[maxAt])
      ensures maxAt != right ==> old(arr[right]) < old(arr[maxAt])
      // the minimum goes to left, then the maximum, retargeted when it sat at left, goes to right
      ensures arr[..] == Swapped(Swapped(old(arr[..]), left, minAt), right, if maxAt == left then minAt else maxAt)
      ensures tracker.swaps == old(tracker.swaps) + (if minAt != left then 1 else 0) +
                (if (if maxAt == left then minAt else maxAt) != right then 1 else 0)
      ensures multiset(arr[..]) == multiset(old(arr[..]))
      ensures PrefixPlaced(old(arr[..]), left) && SuffixPlaced(old(arr[..]), right) ==>
                PrefixPlaced(arr[..], left + 1) && SuffixPlaced(arr[..], right - 1)
      ensures tracker.comparisons == old(tracker.comparisons) + 2 * (right - left + 1)
      ensures old(tracker.swaps) <= tracker.swaps <= old(tracker.swaps) + 2
      ensures tracker.arrayAccesses == old(tracker.arrayAccesses) + 3 * (tracker.swaps - old(tracker.swaps))
      ensures tracker.swaps == old(tracker.swaps) ==> arr[..] == old(arr[..])
      ensures Ordered(old(arr[..])) ==> tracker.swaps == old(tracker.swaps)
    {
      ghost var current := arr[..];
      var minIdx, maxIdx := ScanWindow(arr, left, right);
      minAt, maxAt := minIdx, maxIdx;
      ghost var lo, hi := current[minIdx], current[maxIdx];
      ghost var placedEnds := PrefixPlaced(current, left) && SuffixPlaced(current, right);

      // the maximum sits at left, where the minimum is about to go
      if maxIdx == left {
        maxIdx := minIdx;
      }

      if minIdx != left {
        Swap(arr, left, minIdx);
        if placedEnds {
          SwapInsideWindow(current, left, right, lo, hi, left, minIdx);
        }
      }
      ghost var minPlaced := arr[..];
      assert minPlaced[left] == lo && minPlaced[maxIdx] == hi;

      if maxIdx != right {
        Swap(arr, right, maxIdx);
        if placedEnds {
          SwapInsideWindow(minPlaced, left, right, lo, hi, right, maxIdx);
        }
      }
      assert arr[left] == lo && arr[right] == hi;
      if placedEnds {
        PlaceWindowEnds(arr[..], left, right);
      }
    }

    /**
     * The scan of one bidirectional pass over the window [left, right], two
     * comparisons counted per element: the first minimum, and as maximum
     * `right` itself unless something is strictly larger, in which case the
     * first of the strictly larger maxima.
     */
    method ScanWindow(arr: array<int>, left: nat, right: nat) returns (minIdx: nat, maxIdx: nat)
      requires left < right < arr.Length
      modifies tracker`comparisons
      ensures left <= minIdx <= right && left <= maxIdx <= right
      ensures WindowWithin(arr[..], left, right, arr[minIdx], arr[maxIdx])
      ensures forall k :: left <= k < minIdx ==> arr[minIdx] < arr[k]
      ensures maxIdx != right ==> forall k :: left <= k < maxIdx ==> arr[k] < arr[maxIdx]
      ensures maxIdx != right ==> arr[right] < arr[maxIdx]
      ensures Ordered(arr[..]) ==> minIdx == left && maxIdx == right
      ensures tracker.comparisons == old(tracker.comparisons) + 2 * (right - left + 1)
    {
      minIdx, maxIdx := left, right;
      var i := left;
      while i <= right
        invariant left <= i <= right + 1
        invariant left <= minIdx <= right && left <= maxIdx <= right
        invariant minIdx == left || minIdx < i
        invariant maxIdx == right || maxIdx < i
        invariant forall k :: left <= k < i ==> arr[minIdx] <= arr[k] && arr[k] <= arr[maxIdx]
        invariant forall k :: left <= k < minIdx ==> arr[minIdx] < arr[k]
        invariant arr[right] <= arr[maxIdx] && (maxIdx != right ==> arr[right] < arr[maxIdx])
        // the first of several equal maxima before right wins
        invariant maxIdx != right ==> forall k :: left <= k < maxIdx ==> arr[k] < arr[maxIdx]
        invariant tracker.comparisons == old(tracker.comparisons) + 2 * (i - left)
      {
        tracker.IncrementComparisonsBy(2);
        if arr[i] < arr[minIdx] {
          minIdx := i;
        }
        if arr[i] > arr[maxIdx] {
          maxIdx := i;
        }
        i := i + 1;
      }
      if Ordered(arr[..]) {
        assert arr[left] <= arr[minIdx] && arr[maxIdx] <= arr[right];
      }
    }

    /** Whether the array is non-descending; the absent array and arrays of length <= 1 count as sorted. */
    static method IsSorted(arr: array?<int>) returns (ordered: bool)
      ensures ordered <==> (arr == null || Ordered(arr[..]))
    {
      if arr == null || arr.Length <= 1 {
        return true;
      }
      var i := 0;
      while i < arr.Length - 1
        invariant 0 <= i <= arr.Length - 1
        invariant forall a, b :: 0 <= a < b <= i ==> arr[a] <= arr[b]
      {
        if arr[i] > arr[i + 1] {
          return false;
        }
        i := i + 1;
      }
      return true;
    }
  }
}
