# Selection sort with performance metrics, in Dafny

This project models the sorting engine of a small benchmarking repository and
the metrics object it reports to.

- **`SelectionSort`** sorts an `int[]` in place. It has two algorithms. `sort`
  is selection sort that skips the swap when the minimum is already in place.
  It stops early once a pass has swapped nothing and the rest of the array is
  already in order. `sortBidirectional` finds the minimum and the maximum of a
  shrinking window in one scan. It puts them at the two ends of the window,
  with a retarget step for a maximum that sits where the minimum goes. Every
  comparison and swap is reported to a shared `PerformanceTracker`, and each
  swap also counts three array accesses; the reads made by the scans are not
  counted as accesses.
- **`PerformanceTracker`** is a set of mutable counters: comparisons, swaps,
  array accesses and memory allocations. It also has a start/stop timer and
  the fixed CSV header of a metrics line.

Files:

- `metrics.dfy` (module `Metrics`): the tracker as a class. The CSV header and
  a join/split model of a comma-separated line such as the header are here
  too.
- `sort_spec.dfy` (module `SortSpec`): what the sorts promise, stated on
  sequences. It defines ordering, the placed-prefix and placed-suffix
  invariants, and the exchange of two positions. It also gives the
  comparison counts of the early-termination scan and of the bidirectional
  sort, and proves that two ordered permutations of one sequence are equal.
  `SelectionRun` is a reference run of `sort` on a sequence: pass by pass,
  the array it leaves and the comparisons and swaps it counts, up to and
  including the pass whose order check ends the sort early.
- `selection_sort.dfy` (module `Sorting`): the sorter as a class. Its
  methods work on an `array<int>` and update the tracker in place.
- `scenarios.dfy` (module `SortingScenarios`): uses of the sorter and the
  tracker, proved from the contracts alone. Some are properties over every
  input: both sorts agree, and `Sort` matches any reference sort. Others are
  the fixed arrays of the repository's test suite. The rest are single
  cases: an early return after a swapping pass, the timer's restart and
  double stop, and one bidirectional pass over an array with tied maxima.

The clock is not modelled. Each operation that reads `System.nanoTime` takes
the reading as a parameter: `now` for the timer operations, and
`startClock`/`stopClock` for the two sorts, for the reading at entry and the
reading just before return. A `null` array is an `array?<int>` argument.
Where Java throws `IllegalArgumentException("Array cannot be null")`, the sort
returns `IllegalArgument` with that message and changes nothing.

## Model

| member | source | states |
|---|---|---|
| Metrics.PerformanceTracker.constructor | src/main/java/metrics/PerformanceTracker.java:16-18 | a new tracker has every counter and timestamp at 0 and the timer stopped |
| Metrics.PerformanceTracker.Reset | src/main/java/metrics/PerformanceTracker.java:23-31 | all four counters, both timestamps and the running flag are cleared |
| Metrics.PerformanceTracker.StartTimer | src/main/java/metrics/PerformanceTracker.java:36-39 | the window opens at the given clock reading; only `startTime` and `timerRunning` may change, so a restart overwrites the start instead of stacking |
| Metrics.PerformanceTracker.StopTimer | src/main/java/metrics/PerformanceTracker.java:44-49 | a running timer stops and records the reading; a stopped timer keeps its `endTime`, so a second stop changes nothing |
| Metrics.PerformanceTracker.ElapsedTimeNanos | src/main/java/metrics/PerformanceTracker.java:54-59 | reading minus start while running, otherwise the last window's length; never negative when the clock has not gone backwards; changes no field |
| Metrics.PerformanceTracker.IncrementComparisons | src/main/java/metrics/PerformanceTracker.java:68-70 | adds exactly 1 to `comparisons`; the frame leaves every other field alone |
| Metrics.PerformanceTracker.IncrementComparisonsBy | src/main/java/metrics/PerformanceTracker.java:72-74 | adds exactly `count` to `comparisons` and to nothing else |
| Metrics.PerformanceTracker.IncrementSwaps | src/main/java/metrics/PerformanceTracker.java:76-78 | adds exactly 1 to `swaps` and to nothing else |
| Metrics.PerformanceTracker.IncrementSwapsBy | src/main/java/metrics/PerformanceTracker.java:80-82 | adds exactly `count` to `swaps` and to nothing else |
| Metrics.PerformanceTracker.IncrementArrayAccesses | src/main/java/metrics/PerformanceTracker.java:84-86 | adds exactly 1 to `arrayAccesses` and to nothing else |
| Metrics.PerformanceTracker.IncrementArrayAccessesBy | src/main/java/metrics/PerformanceTracker.java:88-90 | adds exactly `count` to `arrayAccesses` and to nothing else |
| Metrics.PerformanceTracker.IncrementMemoryAllocations | src/main/java/metrics/PerformanceTracker.java:92-94 | adds exactly 1 to `memoryAllocations` and to nothing else |
| Metrics.PerformanceTracker.IncrementMemoryAllocationsBy | src/main/java/metrics/PerformanceTracker.java:96-98 | adds exactly `count` to `memoryAllocations` and to nothing else |
| Metrics.PerformanceTracker.GetComparisons | src/main/java/metrics/PerformanceTracker.java:101-103 | returns the current comparison count without side effects |
| Metrics.PerformanceTracker.GetSwaps | src/main/java/metrics/PerformanceTracker.java:105-107 | returns the current swap count without side effects |
| Metrics.PerformanceTracker.GetArrayAccesses | src/main/java/metrics/PerformanceTracker.java:109-111 | returns the current array-access count without side effects |
| Metrics.PerformanceTracker.GetMemoryAllocations | src/main/java/metrics/PerformanceTracker.java:113-115 | returns the current allocation count without side effects |
| Metrics.PerformanceTracker.CSVHeader | src/main/java/metrics/PerformanceTracker.java:134-136 | the header is the six column names joined by commas, and splitting it at commas gives back exactly those six names in order |
| Metrics.SplitJoin | src/main/java/metrics/PerformanceTracker.java:134-136 | splitting a comma-joined line recovers its fields when no field contains a comma, as holds for the header's column names |
| Sorting.SelectionSort.constructor | main/java/algorithms/SelectionSort.java:9-11 | the default sorter owns a fresh tracker in reset state |
| Sorting.SelectionSort.WithTracker | main/java/algorithms/SelectionSort.java:13-15 | the sorter records into exactly the tracker it was given |
| Sorting.SelectionSort.GetTracker | main/java/algorithms/SelectionSort.java:167-169 | returns the sorter's own tracker, the same object the sort updates |
| Sorting.SelectionSort.Sort | main/java/algorithms/SelectionSort.java:23-66 | null is rejected with the fixed message and the tracker untouched. Otherwise the array ends ordered and a permutation of the input. `arrayAccesses == 3 * swaps` and no allocations are counted. The timer window is [startClock, stopClock]. Length <= 1: nothing counted. Length >= 2: at least n-1 comparisons and at most n-1 swaps. Ordered input: zero swaps, array unchanged, exactly 2*(n-1) comparisons. For every input the array and both counts are exactly those of the reference run `SelectionRun`, so the pass at which the sort returns early is pinned |
| Sorting.SelectionSort.SelectionPasses | main/java/algorithms/SelectionSort.java:39-63 | the outer loop with its early return: the array, the comparisons and the swaps are exactly those of `SelectionRun` on the input, and every swap counts 3 accesses; its invariant is that the counts so far plus what the run still counts from pass `i` make up the whole run |
| Sorting.SelectionSort.SelectionStep | main/java/algorithms/SelectionSort.java:40-62 | one iteration of the outer loop: the pass, then the order check only when the pass swapped nothing; it stops exactly when the reference run ends there, with the run's array and counts, and otherwise leaves the counts in step with the run from pass `i + 1` |
| Sorting.SelectionSort.ScanMin | main/java/algorithms/SelectionSort.java:41-50 | the inner loop: it returns the first minimum of `arr[i..]` (least, and strictly below everything before it), with one comparison per element after `i` |
| Sorting.SelectionSort.SelectionPass | main/java/algorithms/SelectionSort.java:40-56 | one pass counts n-1-i comparisons and moves a minimum of `arr[i..]` to `i` (extends the placed prefix), swapping exactly when some later element is strictly smaller than `arr[i]`; after a swap the array is the input with `arr[i]` exchanged with the first minimum of `arr[i..]` (the index `FirstMinUpTo` gives) and nothing else moved; an ordered suffix gets no swap |
| Sorting.SelectionSort.IsSortedFrom | main/java/algorithms/SelectionSort.java:76-84 | true exactly when `arr[start..]` is non-descending; adds exactly the number of adjacent pairs examined up to and including the first inversion; never writes the array |
| Sorting.SelectionSort.Swap | main/java/algorithms/SelectionSort.java:93-99 | exchanges exactly `arr[i]` and `arr[j]`, all other positions unchanged; adds 1 swap and 3 array accesses |
| Sorting.SelectionSort.SortBidirectional | main/java/algorithms/SelectionSort.java:108-160 | null is rejected as in `Sort`. Otherwise the array ends ordered and a permutation of the input, with `arrayAccesses == 3 * swaps`. The comparisons are exactly 2*(n/2)*(n-n/2+1), i.e. floor(n/2) passes of 2 per window element. At most 2 swaps per pass; no swaps on ordered input |
| Sorting.SelectionSort.BidirectionalPasses | main/java/algorithms/SelectionSort.java:122-157 | the `while (left < right)` loop: it ends ordered and a permutation, with `PassComparisons(n)` comparisons, at most 2 swaps per pass and none on ordered input; its invariant is that the prefix before `left` and the suffix after `right` hold their final values |
| Sorting.SelectionSort.BidirectionalPass | main/java/algorithms/SelectionSort.java:125-157 | one pass over [left, right], retarget included. The array becomes the input with `left` exchanged with the first minimum, then `right` exchanged with the maximum, or with the minimum's old position when the maximum sat at `left`. The swap count is exactly the number of those exchanges that are not no-ops. Both placed ends are extended, and 2 comparisons are added per window element |
| Sorting.SelectionSort.ScanWindow | main/java/algorithms/SelectionSort.java:126-138 | the scan returns the first minimum of the window and its maximum: `right` itself unless something is strictly larger, and otherwise the first of the strictly larger maxima; it counts 2 comparisons per element |
| Sorting.SelectionSort.IsSorted | main/java/algorithms/SelectionSort.java:177-188 | true exactly when the array is null or non-descending (so for every array of length <= 1) |
| SortSpec.Swapped | main/java/algorithms/SelectionSort.java:93-99 | the exchanged sequence has the two values crossed, every other position unchanged and the same multiset of elements |
| SortSpec.SelectExtendsPrefix | main/java/algorithms/SelectionSort.java:40-56 | moving a minimum of the unsorted suffix to position `i` extends the placed prefix to `i + 1` |
| SortSpec.PlacedThenOrdered | main/java/algorithms/SelectionSort.java:58-62 | a placed prefix followed by an ordered suffix is an ordered array, which makes the early return sound |
| SortSpec.SwapInsideWindow | main/java/algorithms/SelectionSort.java:145-153 | a swap inside the window keeps the placed prefix and suffix and the window's bounds |
| SortSpec.PlaceWindowEnds | main/java/algorithms/SelectionSort.java:125-157 | with the window minimum at `left` and maximum at `right`, both placed ends grow by one |
| SortSpec.ScanLengthOfOrdered | main/java/algorithms/SelectionSort.java:76-84 | on an ordered suffix the scan examines all of its adjacent pairs |
| SortSpec.ScanLengthAtFirstInversion | main/java/algorithms/SelectionSort.java:76-84 | the scan stops right after the first inversion, that pair counted |
| SortSpec.AdjacentOrderedFrom | main/java/algorithms/SelectionSort.java:76-84 | a suffix with every adjacent pair in order is ordered, which is why a pair-by-pair scan decides order |
| SortSpec.FirstMinIsFirstLeast | main/java/algorithms/SelectionSort.java:41-50 | the index a strict-`<` scan settles on is a least element of the range and strictly below every element before it, so ties keep the earliest |
| SortSpec.SelectionRunSorts | main/java/algorithms/SelectionSort.java:39-63 | the reference run, started with a placed prefix, ends with an ordered permutation of its input, whether it runs to the end or stops early |
| SortSpec.SelectionRunBounds | main/java/algorithms/SelectionSort.java:39-63 | from pass `i` the run counts at least the first pass's n-1-i comparisons and at most one swap per pass |
| SortSpec.SelectionRunWithoutSwaps | main/java/algorithms/SelectionSort.java:52-56 | a run that counts no swap leaves its input unchanged, since only `swap` writes the array |
| SortSpec.SelectionRunFacts | main/java/algorithms/SelectionSort.java:23-66 | a whole run on n >= 2 elements ends ordered and a permutation, unchanged without swaps, with at least n-1 comparisons and at most n-1 swaps, and on ordered input exactly 2*(n-1) comparisons and no swap |
| SortSpec.SelectionRunOfOrdered | main/java/algorithms/SelectionSort.java:39-63 | on ordered input the run stops after the first pass with no swap and 2*(n-1) comparisons: n-1 for the scan and n-1 for the order check |
| SortSpec.PassComparisonsClosedForm | main/java/algorithms/SelectionSort.java:125-157 | the bidirectional comparison total over windows n, n-2, ... equals 2*(n/2)*(n-n/2+1) |
| SortSpec.OrderedPermutationsEqual | src/test/java/SelectionSortTest.java:146-166 | two ordered sequences with the same elements are equal, so any two correct sorts agree element for element |
| SortingScenarios.SortBothWays | src/test/java/SelectionSortTest.java:146-166 | the standard and bidirectional sorts give the same array on any input, ordered and a permutation of it |
| SortingScenarios.SortMatchesReference | src/test/java/SelectionSortTest.java:191-213 | `Sort` gives exactly what any reference sort gives |
| SortingScenarios.DuplicatesScenario | src/test/java/SelectionSortTest.java:70-78 | `[3,1,4,1,5,9,2,6,5,3]` sorts to `[1,1,2,3,3,4,5,5,6,9]` with at least one swap |
| SortingScenarios.BidirectionalScenario | src/test/java/SelectionSortTest.java:137-144 | the bidirectional sort turns `[5,2,8,1,9,3,7,4,6]` into `[1,...,9]` |
| SortingScenarios.AlreadySortedScenario | src/test/java/SelectionSortTest.java:52-59 | `[1,2,3,4,5]` stays as it is, with 8 comparisons and no swaps |
| SortingScenarios.TwoElementsRun | main/java/algorithms/SelectionSort.java:39-63 | the reference run on `[2,1]` is one pass with one comparison and one swap; the loop then ends without an order check |
| SortingScenarios.TwoElementsScenario | src/test/java/SelectionSortTest.java:43-50 | `[2,1]` becomes `[1,2]` with exactly one comparison and one swap |
| SortingScenarios.EarlyReturnRun | main/java/algorithms/SelectionSort.java:39-63 | the reference run on `[2,1,3,4]`: pass 0 swaps with 3 comparisons; pass 1 swaps nothing with 2, and its order check finds `[2,3,4]` ordered with 2 more, so the sort returns there with 7 comparisons and 1 swap |
| SortingScenarios.EarlyReturnScenario | main/java/algorithms/SelectionSort.java:58-62 | `Sort` on `[2,1,3,4]` returns at pass 1 with `[1,2,3,4]`, 7 comparisons and 1 swap |
| SortingScenarios.TiePassResult | main/java/algorithms/SelectionSort.java:125-157 | from the postconditions of one bidirectional pass on `[5,5,1]`: the first 5 is the maximum, the retarget sends it to position 2, the result is `[1,5,5]` and exactly one swap is counted |
| SortingScenarios.TrivialScenario | src/test/java/SelectionSortTest.java:24-41 | the empty and one-element arrays are unchanged; each sort counts zero comparisons and zero swaps, and the elapsed time is the window length |
| SortingScenarios.MetricsScenario | src/test/java/SelectionSortTest.java:168-180 | sorting `[3,1,4,1,5]` records comparisons, a non-negative swap count and a positive time when the clock advances |
| SortingScenarios.NullArrayScenario | src/test/java/SelectionSortTest.java:107-113 | the null array is rejected with the fixed message, and an injected tracker keeps the counts it had |
| SortingScenarios.TimerScenario | src/main/java/metrics/PerformanceTracker.java:36-59 | start, restart, stop, stop again: the elapsed time is from the restart to the first stop |

## Left out

- `System.nanoTime` is not modelled: every clock reading is a parameter, and the contracts assume nothing about the clock beyond the ordering of readings that some scenarios require.
- `getElapsedTimeMillis`, `toCSV` and `toString` are left out because they are floating-point division and `String.format` output (`%.3f`, `%,d`). The header's CSV shape is modelled by `Join`/`Split` instead.
- `toCSV` is not modelled, so no round trip of a metrics line is claimed. `String.format` uses the default locale, so `%.3f` can write a decimal comma and give a line of seven comma-separated pieces against the header's six; `SplitJoin` covers only comma-free fields such as the header's.
- Sorting.SelectionSort.WithTracker: the tracker is a non-null reference. Java accepts a `null` tracker there, after which `sort` fails with a `NullPointerException` at its `tracker.reset()` call; that failure is not modelled.
- `src/main/java/cli/BenchmarkRunner.java` is not part of this model: it is file and console output, random input generation and timing loops around `sort`.
- Java `long` counters and `int` elements are unbounded integers: elements are only compared, and the counters' overflow is not modelled.
- The `IllegalArgumentException` for a null array is a `Status` result; exceptions and their propagation are not modelled.
- Concurrent use of one shared tracker by several sorters is not modelled; the model is sequential.
- The outer loops of both sorts, one iteration of the outer loop of `sort`, each pass and the inner scans are separate methods (`SelectionPasses`, `SelectionStep`, `SelectionPass`, `ScanMin`, `BidirectionalPasses`, `BidirectionalPass`, `ScanWindow`). The statements and their order are unchanged.
- Sorting.SelectionSort.SortBidirectional: the number of passes is not a separate output; it appears as floor(n/2) through the exact comparison count.
