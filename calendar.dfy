/**
 * UTC calendar arithmetic on Unix timestamps (seconds since 1970-01-01T00:00Z),
 * proleptic Gregorian, and the calendar-month chunk planner that both fetch
 * scripts run as a `while` loop.
 */
module Calendar {

  const SecondsPerHour: int := 3600
  const SecondsPerDay: int := 86400

  datatype YearMonth = YearMonth(year: int, month: int)

  predicate ValidMonth(ym: YearMonth) {
    1 <= ym.month <= 12
  }

  predicate IsLeap(y: int) {
    y % 4 == 0 && (y % 100 != 0 || y % 400 == 0)
  }

  function YearDays(y: int): int {
    if IsLeap(y) then 366 else 365
  }

  /** Number of leap years in [1, y) (extended to all integers by floor division). */
  function LeapsBefore(y: int): int {
    (y - 1) / 4 - (y - 1) / 100 + (y - 1) / 400
  }

  /** Days from 1970-01-01 to January 1st of year y. */
  function DaysBeforeYear(y: int): int {
    365 * (y - 1970) + LeapsBefore(y) - LeapsBefore(1970)
  }

  function DaysInMonth(ym: YearMonth): int
    requires ValidMonth(ym)
  {
    match ym.month
    case 2 => if IsLeap(ym.year) then 29 else 28
    case 4 => 30
    case 6 => 30
    case 9 => 30
    case 11 => 30
    case _ => 31
  }

  /** Days from January 1st to the first day of the month. */
  function DaysBeforeMonth(ym: YearMonth): int
    requires ValidMonth(ym)
  {
    var common := [0, 31, 59, 90, 120, 151, 181, 212, 243, 273, 304, 334][ym.month - 1];
    if ym.month > 2 && IsLeap(ym.year) then common + 1 else common
  }

  /** The instant `datetime(year, month, 1, tzinfo=utc)`. */
  function MonthStart(ym: YearMonth): int
    requires ValidMonth(ym)
  {
    (DaysBeforeYear(ym.year) + DaysBeforeMonth(ym)) * SecondsPerDay
  }

  /** The month after `ym`; December rolls over into January of the next year. */
  function Next(ym: YearMonth): (r: YearMonth)
    requires ValidMonth(ym)
    ensures ValidMonth(r)
  {
    if ym.month == 12 then YearMonth(ym.year + 1, 1) else YearMonth(ym.year, ym.month + 1)
  }

  function Prev(ym: YearMonth): (r: YearMonth)
    requires ValidMonth(ym)
    ensures ValidMonth(r) && Next(r) == ym
  {
    if ym.month == 1 then YearMonth(ym.year - 1, 12) else YearMonth(ym.year, ym.month - 1)
  }

  /** The instant `ts` lies in month `ym`. */
  predicate InMonth(ts: int, ym: YearMonth)
    requires ValidMonth(ym)
  {
    MonthStart(ym) <= ts < MonthStart(Next(ym))
  }

  lemma YearStep(y: int)
    ensures DaysBeforeYear(y + 1) == DaysBeforeYear(y) + YearDays(y)
  {
    var q4, q100, q400 := y / 4, y / 100, y / 400;
    assert (y - 1) / 4 == if y % 4 == 0 then q4 - 1 else q4;
    assert (y - 1) / 100 == if y % 100 == 0 then q100 - 1 else q100;
    assert (y - 1) / 400 == if y % 400 == 0 then q400 - 1 else q400;
    assert y % 400 == 0 ==> y % 100 == 0;
    assert y % 100 == 0 ==> y % 4 == 0;
  }

  /** Consecutive months are exactly one month-length apart. */
  lemma MonthStep(ym: YearMonth)
    requires ValidMonth(ym)
    ensures MonthStart(Next(ym)) == MonthStart(ym) + DaysInMonth(ym) * SecondsPerDay
    ensures MonthStart(ym) < MonthStart(Next(ym)) <= MonthStart(ym) + 31 * SecondsPerDay
  {
    if ym.month == 12 {
      YearStep(ym.year);
    }
  }

  /** Months in chronological order: the ordinal used for the monotonicity proof. */
  function Ordinal(ym: YearMonth): int {
    ym.year * 12 + ym.month - 1
  }

  lemma {:induction false} MonthStartMonotone(a: YearMonth, b: YearMonth)
    requires ValidMonth(a) && ValidMonth(b) && Ordinal(a) < Ordinal(b)
    ensures MonthStart(Next(a)) <= MonthStart(b)
    decreases Ordinal(b) - Ordinal(a)
  {
    if Ordinal(b) == Ordinal(a) + 1 {
      assert Next(a) == b;
    } else {
      MonthStartMonotone(a, Prev(b));
      MonthStep(Prev(b));
    }
  }

  /** An instant lies in at most one month. */
  lemma InMonthUnique(ts: int, a: YearMonth, b: YearMonth)
    requires ValidMonth(a) && ValidMonth(b) && InMonth(ts, a) && InMonth(ts, b)
    ensures a == b
  {
    if Ordinal(a) < Ordinal(b) {
      MonthStartMonotone(a, b);
    } else if Ordinal(b) < Ordinal(a) {
      MonthStartMonotone(b, a);
    }
  }

  function {:tailrecursion} FindForward(ts: int, ym: YearMonth): (r: YearMonth)
    requires ValidMonth(ym) && MonthStart(ym) <= ts
    ensures ValidMonth(r) && InMonth(ts, r)
    decreases ts - MonthStart(ym)
  {
    MonthStep(ym);
    if ts < MonthStart(Next(ym)) then ym else FindForward(ts, Next(ym))
  }

  function {:tailrecursion} FindBackward(ts: int, ym: YearMonth): (r: YearMonth)
    requires ValidMonth(ym) && ts < MonthStart(Next(ym))
    ensures ValidMonth(r) && InMonth(ts, r)
    decreases MonthStart(Next(ym)) - ts
  {
    MonthStep(Prev(ym));
    if MonthStart(ym) <= ts then ym else FindBackward(ts, Prev(ym))
  }

  lemma EpochIsMonthStart()
    ensures MonthStart(YearMonth(1970, 1)) == 0
    ensures Next(YearMonth(1969, 12)) == YearMonth(1970, 1)
  {
  }

  /** The `.year` and `.month` of `datetime.fromtimestamp(ts, tz=utc)`. */
  function YearMonthOf(ts: int): (r: YearMonth)
    ensures ValidMonth(r) && InMonth(ts, r)
  {
    EpochIsMonthStart();
    if ts >= 0 then FindForward(ts, YearMonth(1970, 1)) else FindBackward(ts, YearMonth(1969, 12))
  }

  lemma YearMonthOfMonthStart(ym: YearMonth)
    requires ValidMonth(ym)
    ensures YearMonthOf(MonthStart(ym)) == ym
  {
    MonthStep(ym);
    InMonthUnique(MonthStart(ym), ym, YearMonthOf(MonthStart(ym)));
  }

  /** `ts` is 00:00 UTC on the first day of its month. */
  predicate IsMonthStart(ts: int) {
    MonthStart(YearMonthOf(ts)) == ts
  }

  /** The first of a month begins at midnight. */
  lemma MonthStartIsMidnight(ym: YearMonth)
    requires ValidMonth(ym)
    ensures MonthStart(ym) % SecondsPerDay == 0
  {
    WholeDays(DaysBeforeYear(ym.year) + DaysBeforeMonth(ym));
  }

  lemma WholeDays(days: int)
    ensures (days * SecondsPerDay) % SecondsPerDay == 0
  {
  }

  /**
   * `next_chunk_start` of both fetch loops: the first of the month after the
   * month of `ts`, at 00:00 UTC.
   */
  function NextMonthStart(ts: int): (r: int)
    ensures ts < r && IsMonthStart(r)
    ensures r - ts <= 31 * SecondsPerDay
  {
    var ym := YearMonthOf(ts);
    MonthStep(ym);
    YearMonthOfMonthStart(Next(ym));
    MonthStart(Next(ym))
  }

  /** `strftime("%Y-%m-%dT%H:00Z")` as an instant: the start of the UTC hour. */
  function HourFloor(ts: int): (r: int)
    ensures r <= ts < r + SecondsPerHour && r % SecondsPerHour == 0
  {
    ts - ts % SecondsPerHour
  }

  /** `strftime("%Y-%m-%dT00:00Z")` as an instant: the start of the UTC day. */
  function DayFloor(ts: int): (r: int)
    ensures r <= ts < r + SecondsPerDay && r % SecondsPerDay == 0
  {
    ts - ts % SecondsPerDay
  }

  /** One fetch window [start, end) of the chunk loop. */
  datatype Window = Window(start: int, end: int)

  /**
   * The windows the `while current_chunk_start < end_date` loop visits, in
   * order: the first starts at `start`, each next one where the previous one
   * ended, and the last ends at `end`; none is empty and none leaves [start, end).
   */
  function Plan(start: int, end: int): (ws: seq<Window>)
    ensures ws == [] <==> start >= end
    ensures ws != [] ==> ws[0].start == start && ws[|ws| - 1].end == end
    ensures forall i :: 0 <= i < |ws| ==> start <= ws[i].start < ws[i].end <= end
    ensures forall i :: 0 < i < |ws| ==> ws[i].start == ws[i - 1].end
    decreases end - start
  {
    if start >= end then []
    else
      var next := NextMonthStart(start);
      [Window(start, if next < end then next else end)] + Plan(next, end)
  }

  /**
   * Every window ends at the first of the month after its start, clipped to
   * `end`, and every window after the first starts at 00:00 on a 1st.
   */
  lemma {:induction false} PlanWindow(start: int, end: int, i: int)
    requires 0 <= i < |Plan(start, end)|
    ensures var w := Plan(start, end)[i];
      && w.end == (if NextMonthStart(w.start) < end then NextMonthStart(w.start) else end)
      && (i > 0 ==> IsMonthStart(w.start))
    decreases end - start
  {
    if i > 0 {
      var next := NextMonthStart(start);
      assert Plan(start, end)[i] == Plan(next, end)[i - 1];
      PlanWindow(next, end, i - 1);
    }
  }

  /** A window never spans more than one calendar month. */
  lemma PlanWindowWithinMonth(start: int, end: int, i: int)
    requires 0 <= i < |Plan(start, end)|
    ensures var w := Plan(start, end)[i];
      InMonth(w.end - 1, YearMonthOf(w.start))
  {
    PlanWindow(start, end, i);
    var w := Plan(start, end)[i];
    assert w.end <= NextMonthStart(w.start);
  }

  lemma NextMonthStartOf(ts: int, ym: YearMonth)
    requires ValidMonth(ym) && InMonth(ts, ym)
    ensures NextMonthStart(ts) == MonthStart(Next(ym))
  {
    InMonthUnique(ts, ym, YearMonthOf(ts));
  }

  /** January 1st 2024, 00:00 UTC: the first instant either script fetches. */
  function Start2024(): (r: int)
    ensures r == 1704067200
  {
    MonthStart(YearMonth(2024, 1))
  }

  /**
   * The worked example of the chunk planner: [2024-01-15, 2024-04-10) is
   * fetched as four windows split at the first of February, March and April.
   */
  lemma ChunkBoundaries2024()
    ensures NextMonthStart(1705276800) == 1706745600
    ensures NextMonthStart(1706745600) == 1709251200
    ensures NextMonthStart(1709251200) == 1711929600
    ensures NextMonthStart(1711929600) == 1714521600
  {
    MonthStarts2024();
    NextMonthStartOf(1705276800, YearMonth(2024, 1));
    NextMonthStartOf(1706745600, YearMonth(2024, 2));
    NextMonthStartOf(1709251200, YearMonth(2024, 3));
    NextMonthStartOf(1711929600, YearMonth(2024, 4));
  }

  lemma MonthStarts2024()
    ensures MonthStart(YearMonth(2024, 1)) == 1704067200 && MonthStart(YearMonth(2024, 2)) == 1706745600
    ensures MonthStart(YearMonth(2024, 3)) == 1709251200 && MonthStart(YearMonth(2024, 4)) == 1711929600
    ensures MonthStart(YearMonth(2024, 5)) == 1714521600
  {
    assert DaysBeforeYear(2024) == 19723;
  }

  lemma PlanExample()
    ensures
      var jan15, feb1, mar1, apr1, apr10 := 1705276800, 1706745600, 1709251200, 1711929600, 1712707200;
      Plan(jan15, apr10) ==
        [Window(jan15, feb1), Window(feb1, mar1), Window(mar1, apr1), Window(apr1, apr10)]
  {
    ChunkBoundaries2024();
    var tail := Plan(1711929600, 1712707200);
    assert tail == [Window(1711929600, 1712707200)] + Plan(1714521600, 1712707200);
    var tail2 := Plan(1709251200, 1712707200);
    assert tail2 == [Window(1709251200, 1711929600)] + tail;
    var tail3 := Plan(1706745600, 1712707200);
    assert tail3 == [Window(1706745600, 1709251200)] + tail2;
    assert Plan(1705276800, 1712707200) == [Window(1705276800, 1706745600)] + tail3;
  }
}
