/**
  The month cursor of test.py's fetcher (lines 53-87): the step that moves a
  date back to day 1 of its month, adds 32 days and moves the result back to
  day 1 again, and the loop that walks that cursor from the start date up to
  today, fetching one month per step.

  Dates follow Python's `datetime`: the proleptic Gregorian calendar with
  years 1 to 9999; a result past 9999-12-31 raises OverflowError.
*/
module Calendar {
  import opened Wrappers

  datatype Date = Date(year: int, month: int, day: int)

  const MinYear: int := 1
  const MaxYear: int := 9999

  predicate IsLeap(y: int)
  {
    y % 4 == 0 && (y % 100 != 0 || y % 400 == 0)
  }

  function DaysInMonth(y: int, m: int): (n: int)
    requires 1 <= m <= 12
    ensures 28 <= n <= 31
  {
    if m == 2 then (if IsLeap(y) then 29 else 28)
    else if m == 4 || m == 6 || m == 9 || m == 11 then 30
    else 31
  }

  /** A calendar date, whatever its year. */
  predicate WellFormed(d: Date)
  {
    1 <= d.month <= 12 && 1 <= d.day <= DaysInMonth(d.year, d.month)
  }

  /** A date `datetime` can hold. */
  predicate Valid(d: Date)
  {
    WellFormed(d) && MinYear <= d.year <= MaxYear
  }

  /** Chronological order, as `datetime` compares dates. */
  predicate LessEq(a: Date, b: Date)
  {
    a.year < b.year || (a.year == b.year && (a.month < b.month || (a.month == b.month && a.day <= b.day)))
  }

  /** Months counted from year 0, so consecutive months differ by one. */
  function MonthIndex(d: Date): int
  {
    d.year * 12 + d.month - 1
  }

  /** The reference answer: day 1 of the month after d's, December rolling over to January. */
  function FirstOfNextMonth(d: Date): Date
  {
    if d.month == 12 then Date(d.year + 1, 1, 1) else Date(d.year, d.month + 1, 1)
  }

  function NextDay(d: Date): (e: Date)
    requires WellFormed(d)
    ensures WellFormed(e)
  {
    if d.day < DaysInMonth(d.year, d.month) then Date(d.year, d.month, d.day + 1)
    else FirstOfNextMonth(d)
  }

  /** `d + timedelta(days=n)`, one day at a time, before the range check. */
  function AddDays(d: Date, n: nat): (e: Date)
    requires WellFormed(d)
    ensures WellFormed(e)
    decreases n
  {
    if n == 0 then d else AddDays(NextDay(d), n - 1)
  }

  lemma {:induction false} AddDaysWithinMonth(d: Date, n: nat)
    requires WellFormed(d) && d.day + n <= DaysInMonth(d.year, d.month)
    ensures AddDays(d, n) == Date(d.year, d.month, d.day + n)
    decreases n
  {
    if n > 0 {
      AddDaysWithinMonth(NextDay(d), n - 1);
    }
  }

  lemma {:induction false} AddDaysSplit(d: Date, a: nat, b: nat)
    requires WellFormed(d)
    ensures AddDays(d, a + b) == AddDays(AddDays(d, a), b)
    decreases a
  {
    if a > 0 {
      AddDaysSplit(NextDay(d), a - 1, b);
    }
  }

  /**
    Thirty-two days after the first of any month is a day in the next month:
    every month has 28 to 31 days, so the step always leaves the month and
    never skips the one after it.
  */
  lemma ThirtyTwoDaysFromFirst(y: int, m: int)
    requires 1 <= m <= 12
    ensures var next := FirstOfNextMonth(Date(y, m, 1));
      AddDays(Date(y, m, 1), 32) == Date(next.year, next.month, 33 - DaysInMonth(y, m))
  {
    var first := Date(y, m, 1);
    var len := DaysInMonth(y, m);
    AddDaysSplit(first, len - 1, 33 - len);
    AddDaysWithinMonth(first, len - 1);
    var last := Date(y, m, len);
    assert AddDays(last, 33 - len) == AddDays(NextDay(last), 32 - len);
    var next := FirstOfNextMonth(first);
    assert NextDay(last) == next;
    AddDaysWithinMonth(next, 32 - len);
  }

  /**
    The cursor step: day 1 of d's month, plus 32 days, back to day 1.
    It fails (OverflowError, here None) only in December 9999; otherwise it
    is day 1 of the following month, one month index further on.
  */
  function NextMonthStart(d: Date): (r: Option<Date>)
    requires Valid(d)
    ensures r.None? <==> d.year == MaxYear && d.month == 12
    ensures r.Some? ==> r.value == FirstOfNextMonth(d)
    ensures r.Some? ==> Valid(r.value) && r.value.day == 1 && MonthIndex(r.value) == MonthIndex(d) + 1
  {
    var t := AddDays(Date(d.year, d.month, 1), 32);
    ThirtyTwoDaysFromFirst(d.year, d.month);
    if t.year > MaxYear then None else Some(Date(t.year, t.month, 1))
  }

  /** For a cursor on day 1, `cursor <= end` compares months only. */
  lemma FirstLessEq(c: Date, end: Date)
    requires c.day == 1 && Valid(end) && 1 <= c.month <= 12
    ensures LessEq(c, end) <==> MonthIndex(c) <= MonthIndex(end)
  {
  }

  /** Chronological order never puts a later month first. */
  lemma LessEqMonths(a: Date, b: Date)
    requires 1 <= a.month <= 12 && 1 <= b.month <= 12 && LessEq(a, b)
    ensures MonthIndex(a) <= MonthIndex(b)
  {
  }

  /**
    What the cursor has visited so far: the months from start's on, each the
    month after the one before, every one a valid date no later than end.
  */
  ghost predicate Visited(visited: seq<Date>, start: Date, end: Date)
  {
    && (forall k :: 1 <= k < |visited| ==> visited[k] == FirstOfNextMonth(visited[k - 1]))
    && (forall k :: 0 <= k < |visited| ==> Valid(visited[k]) && LessEq(visited[k], end))
    && (forall k :: 0 <= k < |visited| ==> MonthIndex(visited[k]) == MonthIndex(start) + k)
  }

  /** One more month fetched keeps the visited months in order. */
  lemma VisitedAppend(visited: seq<Date>, start: Date, end: Date, current: Date)
    requires Visited(visited, start, end)
    requires Valid(current) && LessEq(current, end)
    requires MonthIndex(current) == MonthIndex(start) + |visited|
    requires visited != [] ==> current == FirstOfNextMonth(visited[|visited| - 1])
    ensures Visited(visited + [current], start, end)
  {
    var v := visited + [current];
    forall k | 1 <= k < |v|
      ensures v[k] == FirstOfNextMonth(v[k - 1])
    {
      if k == |visited| {
        assert v[k - 1] == visited[|visited| - 1];
      } else {
        assert v[k] == visited[k] && v[k - 1] == visited[k - 1];
      }
    }
  }

  /**
    `fetch_stock_data`'s loop, with each month's download and append replaced
    by recording the cursor it was called with. The cursor starts at `start`
    and then moves to day 1 of each following month, so every month from
    start's to end's is visited once, in increasing order, and the loop stops
    at the first cursor past `end`. Stepping past December 9999 raises
    OverflowError after that month was fetched: `overflow`.
  */
  method FetchCursor(start: Date, end: Date) returns (visited: seq<Date>, overflow: bool)
    requires Valid(start) && Valid(end)
    ensures |visited| > 0 <==> LessEq(start, end)
    ensures LessEq(start, end) ==> visited[0] == start && |visited| == MonthIndex(end) - MonthIndex(start) + 1
    ensures forall k :: 1 <= k < |visited| ==> visited[k] == FirstOfNextMonth(visited[k - 1])
    ensures forall k :: 0 <= k < |visited| ==> Valid(visited[k]) && LessEq(visited[k], end)
    ensures forall k :: 0 <= k < |visited| ==> MonthIndex(visited[k]) == MonthIndex(start) + k
    ensures overflow <==> LessEq(start, end) && end.year == MaxYear && end.month == 12
  {
    visited, overflow := [], false;
    var current := start;
    while LessEq(current, end)
      invariant Valid(current)
      invariant |visited| == MonthIndex(current) - MonthIndex(start)
      invariant visited == [] ==> current == start
      invariant visited != [] ==> LessEq(start, end) && visited[0] == start
      invariant visited != [] ==> current.day == 1 && current == FirstOfNextMonth(visited[|visited| - 1])
      invariant visited != [] ==> MonthIndex(current) <= MonthIndex(end) + 1
      invariant Visited(visited, start, end)
      decreases MonthIndex(end) - MonthIndex(current)
    {
      LessEqMonths(current, end);
      VisitedAppend(visited, start, end, current);
      visited := visited + [current];
      var next := NextMonthStart(current);
      if next.None? {
        overflow := true;
        return;
      }
      current := next.value;
    }
    if visited != [] {
      FirstLessEq(current, end);
    }
  }
}
