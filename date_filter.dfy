/**
 * The sidebar's date range: the sales table and the transactions table are both cut down
 * to the rows whose date lies between the chosen first and last day, both included.
 */
module DateFilter {
  import opened Wrappers
  import opened Calendar
  import opened Frames

  /** pd.to_datetime(date_range[0]): the first instant of the first day. */
  function RangeStart(start: Date): int
    requires ValidDate(start)
  {
    Midnight(start)
  }

  /** pd.to_datetime(date_range[1]) + 1 day - 1 second, as the program computes the upper bound. */
  function RangeEndAsWritten(end: Date): (hi: int)
    requires ValidDate(end)
    ensures hi == Midnight(end) + 86_399 * NanosPerSecond
  {
    Midnight(end) + NanosPerDay - NanosPerSecond
  }

  /** The last instant of the last day at the timestamps' nanosecond resolution. */
  function RangeEnd(end: Date): (hi: int)
    requires ValidDate(end)
    ensures hi + 1 == Midnight(end) + NanosPerDay
  {
    Midnight(end) + NanosPerDay - 1
  }

  /** The period filter as the program writes it: rows dated from the first bound up to its upper bound. */
  function FilterAsWritten(t: DataFrame, start: Date, end: Date): (r: DataFrame)
    requires ValidDate(start) && ValidDate(end)
  {
    Where(t, DateWithin(RangeStart(start), RangeEndAsWritten(end)))
  }

  /** The same filter with every instant of the last day included. */
  function FilterByDate(t: DataFrame, start: Date, end: Date): (r: DataFrame)
    requires ValidDate(start) && ValidDate(end)
  {
    Where(t, DateWithin(RangeStart(start), RangeEnd(end)))
  }

  /** The row has a date, and that date's day lies between start and end, both included. */
  predicate OnDays(r: Record, start: Date, end: Date)
    requires ValidDate(start) && ValidDate(end)
  {
    match Get(r, "date")
    case Some(Time(m)) => DayNumber(start) <= DayNumber(m.date) <= DayNumber(end)
    case _ => false
  }

  /** The corrected bound admits an instant exactly when its day is within the chosen days. */
  lemma WithinRange(r: Record, start: Date, end: Date)
    requires ValidDate(start) && ValidDate(end)
    ensures Holds(DateWithin(RangeStart(start), RangeEnd(end)), r) <==> OnDays(r, start, end)
  {
    match Get(r, "date")
    case Some(Time(m)) => InstantWithinDays(m, start, end);
    case _ =>
  }

  /**
   * The filtered table keeps the columns, and its rows are, in order and with their labels,
   * exactly the rows whose date falls on one of the chosen days.
   */
  lemma FilterByDateKeeps(t: DataFrame, start: Date, end: Date) returns (idx: seq<int>)
    requires ValidDate(start) && ValidDate(end)
    ensures FilterByDate(t, start, end).columns == t.columns
    ensures Increasing(idx, |t.rows|) && FilterByDate(t, start, end).rows == Pick(t.rows, idx)
    ensures forall j :: 0 <= j < |t.rows| ==> (j in idx <==> OnDays(t.rows[j], start, end))
  {
    idx := WhereKeeps(t, DateWithin(RangeStart(start), RangeEnd(end)));
    forall j | 0 <= j < |t.rows| ensures j in idx <==> OnDays(t.rows[j], start, end) {
      WithinRange(t.rows[j], start, end);
    }
  }

  /** A row is in the filtered table exactly when it is a row of the base table dated on the chosen days. */
  lemma FilterByDateMembers(t: DataFrame, start: Date, end: Date)
    requires ValidDate(start) && ValidDate(end)
    ensures forall x :: x in FilterByDate(t, start, end).rows <==> x in t.rows && OnDays(x, start, end)
  {
    var idx := FilterByDateKeeps(t, start, end);
    var r := FilterByDate(t, start, end).rows;
    forall k | 0 <= k < |r| ensures r[k] in t.rows && OnDays(r[k], start, end) {
      assert r[k] == t.rows[idx[k]] && idx[k] in idx;
    }
    forall j | 0 <= j < |t.rows| && OnDays(t.rows[j], start, end) ensures t.rows[j] in r {
      assert j in idx;
      var k :| 0 <= k < |idx| && idx[k] == j;
      assert r[k] == t.rows[j];
    }
  }

  /** A row without a date, or whose date is not a timestamp, is never kept. */
  lemma MissingDateExcluded(t: DataFrame, start: Date, end: Date)
    requires ValidDate(start) && ValidDate(end)
    ensures forall x :: x in FilterByDate(t, start, end).rows ==> Get(x, "date").Some? && Get(x, "date").value.Time?
    ensures forall x :: x in FilterAsWritten(t, start, end).rows ==> Get(x, "date").Some? && Get(x, "date").value.Time?
  {
    var lo := RangeStart(start);
    forall x | x in FilterByDate(t, start, end).rows ensures Get(x, "date").Some? && Get(x, "date").value.Time? {
      var k :| 0 <= k < |WhereIndices(t.rows, DateWithin(lo, RangeEnd(end)))| && x == t.rows[WhereIndices(t.rows, DateWithin(lo, RangeEnd(end)))[k]];
    }
    forall x | x in FilterAsWritten(t, start, end).rows ensures Get(x, "date").Some? && Get(x, "date").value.Time? {
      var k :| 0 <= k < |WhereIndices(t.rows, DateWithin(lo, RangeEndAsWritten(end)))| && x == t.rows[WhereIndices(t.rows, DateWithin(lo, RangeEndAsWritten(end)))[k]];
    }
  }

  /** Two masks that agree on every row select the same rows. */
  lemma {:induction false} SelectAgree(rs: seq<Record>, c1: Cond, c2: Cond)
    requires forall i :: 0 <= i < |rs| ==> Holds(c1, rs[i]) == Holds(c2, rs[i])
    ensures Select(rs, c1) == Select(rs, c2)
  {
    if rs != [] {
      var n := |rs| - 1;
      SelectAgree(rs[..n], c1, c2);
      SelectSnoc(rs, c1);
      SelectSnoc(rs, c2);
    }
  }

  /** The timestamp has no fraction of a second. */
  predicate WholeSeconds(r: Record) {
    match Get(r, "date")
    case Some(Time(m)) => m.nanos % NanosPerSecond == 0
    case _ => true
  }

  /** On timestamps of whole seconds the program's bound and the corrected one keep the same rows. */
  lemma FiltersAgreeOnWholeSeconds(t: DataFrame, start: Date, end: Date)
    requires ValidDate(start) && ValidDate(end)
    requires forall i :: 0 <= i < |t.rows| ==> WholeSeconds(t.rows[i])
    ensures FilterAsWritten(t, start, end) == FilterByDate(t, start, end)
  {
    var lo := RangeStart(start);
    var a, b := DateWithin(lo, RangeEndAsWritten(end)), DateWithin(lo, RangeEnd(end));
    forall i | 0 <= i < |t.rows| ensures Holds(a, t.rows[i]) == Holds(b, t.rows[i]) {
      BoundsAgree(t.rows[i], start, end);
    }
    SelectAgree(t.rows, a, b);
  }

  /** On one row of whole seconds the two bounds agree. */
  lemma BoundsAgree(r: Record, start: Date, end: Date)
    requires ValidDate(start) && ValidDate(end) && WholeSeconds(r)
    ensures Holds(DateWithin(RangeStart(start), RangeEndAsWritten(end)), r)
        == Holds(DateWithin(RangeStart(start), RangeEnd(end)), r)
  {
    match Get(r, "date")
    case Some(Time(m)) =>
      WholeSecondsOfDay(DayNumber(m.date), m.nanos);
      WholeSecondsOfDay(DayNumber(end), NanosPerDay - NanosPerSecond);
      WholeSecondsBetween(Instant(m), RangeEndAsWritten(end));
    case _ =>
  }

  /** An instant whose time of day is whole seconds is a whole number of seconds. */
  lemma WholeSecondsOfDay(days: int, nanos: int)
    requires nanos % NanosPerSecond == 0
    ensures (days * NanosPerDay + nanos) % NanosPerSecond == 0
  {
    assert days * NanosPerDay + nanos == (days * 86_400 + nanos / NanosPerSecond) * NanosPerSecond;
  }

  /** No whole second lies strictly between a whole second and the next one. */
  lemma WholeSecondsBetween(n: int, hi: int)
    requires n % NanosPerSecond == 0 && hi % NanosPerSecond == 0
    ensures n <= hi <==> n <= hi + NanosPerSecond - 1
  {
    if hi < n {
      var q, s := n / NanosPerSecond, hi / NanosPerSecond;
      assert n == q * NanosPerSecond && hi == s * NanosPerSecond;
      assert s < q;
      assert hi + NanosPerSecond <= n by {
        assert (s + 1) * NanosPerSecond <= q * NanosPerSecond;
      }
    }
  }

  /**
   * A row dated in the last second of the last day, after 23:59:59, is on the chosen days
   * but the program's bound drops it.
   */
  lemma LastSecondDropped(r: Record, start: Date, end: Date, m: Moment)
    requires ValidDate(start) && ValidDate(end) && DayNumber(start) <= DayNumber(end)
    requires Get(r, "date") == Some(Time(m)) && m.date == end && m.nanos > NanosPerDay - NanosPerSecond
    ensures OnDays(r, start, end)
    ensures !Holds(DateWithin(RangeStart(start), RangeEndAsWritten(end)), r)
    ensures Holds(DateWithin(RangeStart(start), RangeEnd(end)), r)
  {
    WithinRange(r, start, end);
  }

  /** Half a second before midnight on 2017-08-15, with both ends of the range on that day. */
  lemma HalfSecondBeforeMidnight()
    ensures var d := Date(2017, 8, 15);
      var t := Table(["date"], [Record(0, map["date" := Time(Timestamp(d, NanosPerDay - NanosPerSecond / 2))])]);
      WellFormed(t) && |FilterAsWritten(t, d, d).rows| == 0 && |FilterByDate(t, d, d).rows| == 1
  {
    var d := Date(2017, 8, 15);
    var m: Moment := Timestamp(d, NanosPerDay - NanosPerSecond / 2);
    var r := Record(0, map["date" := Time(m)]);
    var t: DataFrame := Table(["date"], [r]);
    LastSecondDropped(r, d, d, m);
    assert [r][..0] == [];
    assert WhereIndices([r], DateWithin(RangeStart(d), RangeEndAsWritten(d))) == [];
    assert WhereIndices([r], DateWithin(RangeStart(d), RangeEnd(d))) == [0];
  }
}
