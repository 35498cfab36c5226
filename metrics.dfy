/**
 * The metrics collector: four counters (comparisons, swaps, array accesses,
 * memory allocations) and a start/stop timer. The clock is not part of the
 * model: every operation that reads it takes the current reading as `now`.
 */
module Metrics {

  /** The column names of a metrics CSV row, in order. */
  const CSVColumns: seq<string> :=
    ["InputSize", "Comparisons", "Swaps", "ArrayAccesses", "MemoryAllocations", "TimeMs"]

  /** The fields joined by `sep`, as a CSV line is built. */
  function Join(fields: seq<string>, sep: char): string
  {
    if |fields| == 0 then ""
    else if |fields| == 1 then fields[0]
    else fields[0] + [sep] + Join(fields[1..], sep)
  }

  /** The pieces of `s` between occurrences of `sep`, as a CSV reader splits a line. */
  function Split(s: string, sep: char): (pieces: seq<string>)
    ensures |pieces| > 0
  {
    if |s| == 0 then [""]
    else
      var rest := Split(s[1..], sep);
      if s[0] == sep then [""] + rest
      else [[s[0]] + rest[0]] + rest[1..]
  }

  /** A string without `sep`, followed by `sep` and a tail, splits into that string and the tail's pieces. */
  lemma {:induction false} SplitField(field: string, sep: char, tail: string)
    requires sep !in field
    ensures Split(field + [sep] + tail, sep) == [field] + Split(tail, sep)
  {
    if |field| > 0 {
      var s := field + [sep] + tail;
      assert s[0] == field[0] && s[0] != sep;
      assert s[1..] == field[1..] + [sep] + tail;
      SplitField(field[1..], sep, tail);
      assert [field[0]] + field[1..] == field;
    } else {
      assert field + [sep] + tail == [sep] + tail;
    }
  }

  /** A string without `sep` is one piece. */
  lemma {:induction false} SplitWhole(field: string, sep: char)
    requires sep !in field
    ensures Split(field, sep) == [field]
  {
    if |field| > 0 {
      assert field[0] != sep;
      SplitWhole(field[1..], sep);
      assert [field[0]] + field[1..] == field;
    }
  }

  /** Splitting undoes joining, when no field contains the separator. */
  lemma {:induction false} SplitJoin(fields: seq<string>, sep: char)
    requires |fields| > 0
    requires forall k :: 0 <= k < |fields| ==> sep !in fields[k]
    ensures Split(Join(fields, sep), sep) == fields
  {
    if |fields| == 1 {
      SplitWhole(fields[0], sep);
    } else {
      SplitJoin(fields[1..], sep);
      SplitField(fields[0], sep, Join(fields[1..], sep));
    }
  }

  /** No column name contains the separator. */
  lemma ColumnsAreCommaFree()
    ensures forall k :: 0 <= k < |CSVColumns| ==> ',' !in CSVColumns[k]
  {
  }

  class PerformanceTracker {
    var comparisons: int
    var swaps: int
    var arrayAccesses: int
    var memoryAllocations: int
    var startTime: int
    var endTime: int
    var timerRunning: bool

    /** Every counter and timestamp is zero and the timer is stopped. */
    ghost predicate IsReset()
      reads this
    {
      comparisons == 0 && swaps == 0 && arrayAccesses == 0 && memoryAllocations == 0 &&
      startTime == 0 && endTime == 0 && !timerRunning
    }

    constructor ()
      ensures IsReset()
    {
      new;
      Reset();
    }

    method Reset()
      modifies this
      ensures IsReset()
    {
      comparisons := 0;
      swaps := 0;
      arrayAccesses := 0;
      memoryAllocations := 0;
      startTime := 0;
      endTime := 0;
      timerRunning := false;
    }

    /** Opens a timing window at clock reading `now`; a running window is restarted, not stacked. */
    method StartTimer(now: int)
      modifies this`startTime, this`timerRunning
      ensures startTime == now && timerRunning
    {
      startTime := now;
      timerRunning := true;
    }

    /** Closes the timing window at clock reading `now`; without an open window it changes nothing. */
    method StopTimer(now: int)
      modifies this`endTime, this`timerRunning
      ensures !timerRunning
      ensures old(timerRunning) ==> endTime == now
      ensures !old(timerRunning) ==> endTime == old(endTime)
    {
      if timerRunning {
        endTime := now;
        timerRunning := false;
      }
    }

    /** Time since the start of the window while it is open, otherwise the length of the last window. */
    method ElapsedTimeNanos(now: int) returns (elapsed: int)
      ensures timerRunning ==> elapsed == now - startTime
      ensures !timerRunning ==> elapsed == endTime - startTime
      ensures (if timerRunning then startTime <= now else startTime <= endTime) ==> elapsed >= 0
    {
      if timerRunning {
        return now - startTime;
      }
      return endTime - startTime;
    }

    method IncrementComparisons()
      modifies this`comparisons
      ensures comparisons == old(comparisons) + 1
    {
      comparisons := comparisons + 1;
    }

    method IncrementComparisonsBy(count: int)
      modifies this`comparisons
      ensures comparisons == old(comparisons) + count
    {
      comparisons := comparisons + count;
    }

    method IncrementSwaps()
      modifies this`swaps
      ensures swaps == old(swaps) + 1
    {
      swaps := swaps + 1;
    }

    method IncrementSwapsBy(count: int)
      modifies this`swaps
      ensures swaps == old(swaps) + count
    {
      swaps := swaps + count;
    }

    method IncrementArrayAccesses()
      modifies this`arrayAccesses
      ensures arrayAccesses == old(arrayAccesses) + 1
    {
      arrayAccesses := arrayAccesses + 1;
    }

    method IncrementArrayAccessesBy(count: int)
      modifies this`arrayAccesses
      ensures arrayAccesses == old(arrayAccesses) + count
    {
      arrayAccesses := arrayAccesses + count;
    }

    method IncrementMemoryAllocations()
      modifies this`memoryAllocations
      ensures memoryAllocations == old(memoryAllocations) + 1
    {
      memoryAllocations := memoryAllocations + 1;
    }

    method IncrementMemoryAllocationsBy(count: int)
      modifies this`memoryAllocations
      ensures memoryAllocations == old(memoryAllocations) + count
    {
      memoryAllocations := memoryAllocations + count;
    }

    method GetComparisons() returns (r: int)
      ensures r == comparisons
    {
      r := comparisons;
    }

    method GetSwaps() returns (r: int)
      ensures r == swaps
    {
      r := swaps;
    }

    method GetArrayAccesses() returns (r: int)
      ensures r == arrayAccesses
    {
      r := arrayAccesses;
    }

    method GetMemoryAllocations() returns (r: int)
      ensures r == memoryAllocations
    {
      r := memoryAllocations;
    }

    /** The header line of the metrics CSV: the six column names, comma-separated. */
    static function CSVHeader(): (header: string)
      ensures header == Join(CSVColumns, ',')
      ensures Split(header, ',') == CSVColumns
    {
      // the fixed header literal, written piece by piece
      var header := "InputSize" + "," + "Comparisons" + "," + "Swaps" + "," +
                    "ArrayAccesses" + "," + "MemoryAllocations" + "," + "TimeMs";
      assert CSVColumns[5..] == [CSVColumns[5]];
      assert CSVColumns[4..][1..] == CSVColumns[5..];
      assert CSVColumns[3..][1..] == CSVColumns[4..];
      assert CSVColumns[2..][1..] == CSVColumns[3..];
      assert CSVColumns[1..][1..] == CSVColumns[2..];
      ColumnsAreCommaFree();
      SplitJoin(CSVColumns, ',');
      header
    }
  }
}
