/** The three windows of one analysis: the requested one and the two of the
    same interval that border it, before and after. */
module Windows {
  import opened Common
  import opened Calendar

  /** An inclusive range of days, as SQL `BETWEEN start AND end` reads it. */
  datatype DateWindow = DateWindow(start: Day, end: Day)

  predicate Covers(w: DateWindow, d: Day) {
    w.start <= d <= w.end
  }

  /** Number of days the window covers. */
  function DayCount(w: DateWindow): int {
    if w.end < w.start then 0 else w.end - w.start + 1
  }

  datatype Periods = Periods(current: DateWindow, previous: DateWindow, next: DateWindow)

  /** Datetime plus a number of days: None where the result is no longer a
      representable datetime (Python raises OverflowError). */
  function AddDays(d: Day, delta: int): (r: Option<Day>)
    ensures r.Some? <==> MIN_DAY <= d + delta <= MAX_DAY
    ensures r.Some? ==> r.value == d + delta
  {
    if MIN_DAY <= d + delta <= MAX_DAY then Some(d + delta) else None
  }

  /** The previous window ends the day before `start` and begins `L` days
      before it; the next window begins the day after `end` and ends `L` days
      after it, where `L = end - start`. Each of the four date computations
      may overflow; any overflow yields None. */
  function DerivePeriods(start: Day, end: Day): (r: Option<Periods>)
    requires MIN_DAY <= start < end <= MAX_DAY
    ensures r.Some? <==> MIN_DAY <= start - (end - start) && end + (end - start) <= MAX_DAY
    ensures r.Some? ==> r.value.current == DateWindow(start, end)
    ensures r.Some? ==> r.value.previous == DateWindow(start - (end - start), start - 1)
    ensures r.Some? ==> r.value.next == DateWindow(end + 1, end + (end - start))
  {
    var interval := end - start;
    match (AddDays(start, -interval), AddDays(start, -1), AddDays(end, 1), AddDays(end, interval))
    case (Some(prevStart), Some(prevEnd), Some(nextStart), Some(nextEnd)) =>
      Some(Periods(DateWindow(start, end), DateWindow(prevStart, prevEnd), DateWindow(nextStart, nextEnd)))
    case _ => None
  }

  /** The derived windows border the current one without touching it: the
      previous one ends the day before it starts, the next one starts the day
      after it ends, each covers `L` days where the current one covers
      `L + 1`, and no day lies in the current window and in either of them. */
  lemma PeriodsLayout(start: Day, end: Day)
    requires MIN_DAY <= start < end <= MAX_DAY
    requires DerivePeriods(start, end).Some?
    ensures var p := DerivePeriods(start, end).value;
      && p.previous.end + 1 == p.current.start
      && p.current.end + 1 == p.next.start
      && DayCount(p.current) == (end - start) + 1
      && DayCount(p.previous) == end - start
      && DayCount(p.next) == end - start
      && (forall d :: Covers(p.previous, d) ==> !Covers(p.current, d))
      && (forall d :: Covers(p.next, d) ==> !Covers(p.current, d))
      && MIN_DAY <= p.previous.start && p.next.end <= MAX_DAY
  {
  }
}
