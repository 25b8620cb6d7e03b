/**
 * The calendar view's date arithmetic. Dates are proleptic Gregorian civil dates; each has
 * a day number (days since 1970-01-01), and its weekday is that number plus four, modulo
 * seven (1970-01-01 was a Thursday; 0 is Sunday). JavaScript's `setDate` with an
 * out-of-range day rolls over into the neighbouring months; here that is stepping forward
 * or backward one day at a time.
 */
module Calendar {
  import opened Js
  import Listing

  /** A civil date; `month` runs from 1 to 12 (JavaScript's `getMonth() + 1`). */
  datatype Date = Date(year: int, month: int, day: int)

  predicate Leap(y: int) {
    y % 4 == 0 && (y % 100 != 0 || y % 400 == 0)
  }

  function DaysIn(y: int, m: int): int {
    if m == 2 then (if Leap(y) then 29 else 28)
    else if m == 4 || m == 6 || m == 9 || m == 11 then 30
    else 31
  }

  predicate Valid(d: Date) {
    1 <= d.month <= 12 && 1 <= d.day <= DaysIn(d.year, d.month)
  }

  function YearDays(y: int): int {
    if Leap(y) then 366 else 365
  }

  /** Days from 1 January 1970 to 1 January of year `y` (negative before 1970). */
  function DaysBeforeYear(y: int): int
    decreases if y >= 1970 then y - 1970 else 1970 - y
  {
    if y == 1970 then 0
    else if y > 1970 then DaysBeforeYear(y - 1) + YearDays(y - 1)
    else DaysBeforeYear(y + 1) - YearDays(y)
  }

  /** Days from 1 January to the first of month `m`. */
  function DaysBeforeMonth(y: int, m: int): int
    requires 1 <= m <= 12
  {
    var common :=
      if m == 1 then 0 else if m == 2 then 31 else if m == 3 then 59 else if m == 4 then 90
      else if m == 5 then 120 else if m == 6 then 151 else if m == 7 then 181 else if m == 8 then 212
      else if m == 9 then 243 else if m == 10 then 273 else if m == 11 then 304 else 334;
    common + (if m > 2 && Leap(y) then 1 else 0)
  }

  /** Days since 1970-01-01. */
  function DayNumber(d: Date): int
    requires 1 <= d.month <= 12
  {
    DaysBeforeYear(d.year) + DaysBeforeMonth(d.year, d.month) + d.day - 1
  }

  /** `getDay()`: 0 is Sunday, 6 is Saturday. */
  function Weekday(d: Date): int
    requires 1 <= d.month <= 12
  {
    WeekdayOf(DayNumber(d))
  }

  /** The day after. */
  function NextDay(d: Date): (r: Date)
    requires Valid(d)
    ensures Valid(r)
  {
    if d.day < DaysIn(d.year, d.month) then d.(day := d.day + 1)
    else if d.month < 12 then Date(d.year, d.month + 1, 1)
    else Date(d.year + 1, 1, 1)
  }

  /** The day before. */
  function PrevDay(d: Date): (r: Date)
    requires Valid(d)
    ensures Valid(r)
  {
    if d.day > 1 then d.(day := d.day - 1)
    else if d.month > 1 then Date(d.year, d.month - 1, DaysIn(d.year, d.month - 1))
    else Date(d.year - 1, 12, 31)
  }

  /** `k` days later. */
  function Fwd(d: Date, k: nat): (r: Date)
    requires Valid(d)
    ensures Valid(r)
  {
    if k == 0 then d else NextDay(Fwd(d, k - 1))
  }

  /** `k` days earlier. */
  function Bwd(d: Date, k: nat): (r: Date)
    requires Valid(d)
    ensures Valid(r)
    decreases k
  {
    if k == 0 then d else Bwd(PrevDay(d), k - 1)
  }

  // ---------------------------------------------------------------------------
  // Day numbers

  /** One more year of days: 366 after a leap year, 365 otherwise. */
  lemma YearLength(y: int)
    ensures DaysBeforeYear(y + 1) - DaysBeforeYear(y) == YearDays(y)
  {
  }

  lemma MonthLength(y: int, m: int)
    requires 1 <= m < 12
    ensures DaysBeforeMonth(y, m + 1) == DaysBeforeMonth(y, m) + DaysIn(y, m)
  {
  }

  lemma NextDayNumber(d: Date)
    requires Valid(d)
    ensures DayNumber(NextDay(d)) == DayNumber(d) + 1
  {
    if d.day == DaysIn(d.year, d.month) {
      if d.month == 12 {
        YearLength(d.year);
      } else {
        MonthLength(d.year, d.month);
      }
    }
  }

  lemma PrevDayNumber(d: Date)
    requires Valid(d)
    ensures DayNumber(PrevDay(d)) == DayNumber(d) - 1
  {
    if d.day == 1 {
      if d.month == 1 {
        YearLength(d.year - 1);
      } else {
        MonthLength(d.year, d.month - 1);
      }
    }
  }

  /** `k` days later is `k` more on the day count; `k` days earlier is `k` fewer. */
  lemma {:induction false} FwdNumber(d: Date, k: nat)
    requires Valid(d)
    ensures DayNumber(Fwd(d, k)) == DayNumber(d) + k
  {
    if k > 0 {
      FwdNumber(d, k - 1);
      NextDayNumber(Fwd(d, k - 1));
    }
  }

  lemma {:induction false} BwdNumber(d: Date, k: nat)
    requires Valid(d)
    ensures DayNumber(Bwd(d, k)) == DayNumber(d) - k
    decreases k
  {
    if k > 0 {
      PrevDayNumber(d);
      BwdNumber(PrevDay(d), k - 1);
    }
  }

  /** Stepping a day forward and back, or back and forward, returns the same date. */
  lemma PrevNext(d: Date)
    requires Valid(d)
    ensures PrevDay(NextDay(d)) == d
    ensures NextDay(PrevDay(d)) == d
  {
  }

  lemma {:induction false} FwdThenBwd(d: Date, k: nat)
    requires Valid(d)
    ensures Bwd(Fwd(d, k), k) == d
  {
    if k > 0 {
      var p := Fwd(d, k - 1);
      PrevNext(p);
      FwdThenBwd(d, k - 1);
    }
  }

  lemma {:induction false} BwdThenFwd(d: Date, k: nat)
    requires Valid(d)
    ensures Fwd(Bwd(d, k), k) == d
    decreases k
  {
    if k > 0 {
      BwdThenFwd(PrevDay(d), k - 1);
      PrevNext(d);
    }
  }

  lemma {:induction false} FwdAdd(d: Date, a: nat, b: nat)
    requires Valid(d)
    ensures Fwd(Fwd(d, a), b) == Fwd(d, a + b)
  {
    if b > 0 {
      FwdAdd(d, a, b - 1);
    }
  }

  /** Within a month, stepping forward only moves the day of the month. */
  lemma {:induction false} FwdInMonth(d: Date, k: nat)
    requires Valid(d) && d.day + k <= DaysIn(d.year, d.month)
    ensures Fwd(d, k) == d.(day := d.day + k)
  {
    if k > 0 {
      FwdInMonth(d, k - 1);
    }
  }

  // ---------------------------------------------------------------------------
  // Navigation

  datatype View = MonthView | WeekView | DayView

  /** The first day of the month after (or before) the month of `d`. */
  function NeighbourFirst(d: Date, forward: bool): (r: Date)
    requires 1 <= d.month <= 12
    ensures Valid(r) && r.day == 1
  {
    if forward then (if d.month == 12 then Date(d.year + 1, 1, 1) else Date(d.year, d.month + 1, 1))
    else (if d.month == 1 then Date(d.year - 1, 12, 1) else Date(d.year, d.month - 1, 1))
  }

  /** `setMonth(getMonth() ± 1)`: the same day of the month in the neighbouring month,
      rolling over into the month after it when that month is shorter. */
  function ShiftMonth(d: Date, forward: bool): (r: Date)
    requires Valid(d)
    ensures Valid(r)
    ensures DayNumber(r) == DayNumber(NeighbourFirst(d, forward)) + d.day - 1
  {
    FwdNumber(NeighbourFirst(d, forward), d.day - 1);
    Fwd(NeighbourFirst(d, forward), d.day - 1)
  }

  /** `goNext`. */
  function GoNext(v: View, d: Date): (r: Date)
    requires Valid(d)
    ensures Valid(r)
    ensures v == MonthView ==> DayNumber(r) == DayNumber(NeighbourFirst(d, true)) + d.day - 1
    ensures v == WeekView ==> DayNumber(r) == DayNumber(d) + 7
    ensures v == DayView ==> DayNumber(r) == DayNumber(d) + 1
  {
    match v
    case MonthView => ShiftMonth(d, true)
    case WeekView => FwdNumber(d, 7); Fwd(d, 7)
    case DayView => FwdNumber(d, 1); Fwd(d, 1)
  }

  /** `goBack`. */
  function GoBack(v: View, d: Date): (r: Date)
    requires Valid(d)
    ensures Valid(r)
    ensures v == MonthView ==> DayNumber(r) == DayNumber(NeighbourFirst(d, false)) + d.day - 1
    ensures v == WeekView ==> DayNumber(r) == DayNumber(d) - 7
    ensures v == DayView ==> DayNumber(r) == DayNumber(d) - 1
  {
    match v
    case MonthView => ShiftMonth(d, false)
    case WeekView => BwdNumber(d, 7); Bwd(d, 7)
    case DayView => BwdNumber(d, 1); Bwd(d, 1)
  }

  /** In week and day view, going forward and then back (or back and then forward) returns
      to the same date. */
  lemma NavigationRoundTrip(v: View, d: Date)
    requires Valid(d) && v != MonthView
    ensures GoBack(v, GoNext(v, d)) == d
    ensures GoNext(v, GoBack(v, d)) == d
  {
    var k := if v == WeekView then 7 else 1;
    FwdThenBwd(d, k);
    BwdThenFwd(d, k);
  }

  /** In month view a day that exists in the neighbouring month is kept, and the month
      moves by one. */
  lemma MonthShiftKeepsDay(d: Date, forward: bool)
    requires Valid(d)
    requires var n := NeighbourFirst(d, forward); d.day <= DaysIn(n.year, n.month)
    ensures ShiftMonth(d, forward) == NeighbourFirst(d, forward).(day := d.day)
  {
    FwdInMonth(NeighbourFirst(d, forward), d.day - 1);
  }

  /** A day the neighbouring month lacks rolls over into the month after it, by as many
      days as it overshoots. */
  lemma {:induction false} MonthShiftRollsOver(d: Date, forward: bool)
    requires Valid(d)
    requires var n := NeighbourFirst(d, forward); d.day > DaysIn(n.year, n.month)
    ensures var n := NeighbourFirst(d, forward);
      ShiftMonth(d, forward) == NeighbourFirst(n, true).(day := d.day - DaysIn(n.year, n.month))
  {
    var n := NeighbourFirst(d, forward);
    var len := DaysIn(n.year, n.month);
    var last := n.(day := len);
    var next := NeighbourFirst(n, true);
    FwdAdd(n, len - 1, d.day - len);
    FwdInMonth(n, len - 1);
    assert Fwd(last, 1) == next;
    FwdAdd(last, 1, d.day - len - 1);
    FwdInMonth(next, d.day - len - 1);
  }

  /** In month view going forward and back is not a round trip: from 31 January of a leap
      year the next month is 2 March (February has 29 days) and the month before that is
      2 February. */
  lemma MonthNavigationNotRoundTrip(y: int)
    requires Leap(y)
    ensures GoNext(MonthView, Date(y, 1, 31)) == Date(y, 3, 2)
    ensures GoBack(MonthView, Date(y, 3, 2)) == Date(y, 2, 2)
  {
    var feb := Date(y, 2, 1);
    FwdInMonth(feb, 28);
    FwdAdd(feb, 28, 2);
    assert Fwd(Date(y, 2, 29), 1) == Date(y, 3, 1);
    assert Fwd(Date(y, 2, 29), 2) == Date(y, 3, 2);
    FwdInMonth(feb, 1);
  }

  // ---------------------------------------------------------------------------
  // The week and month grids
  //
  // A JavaScript `Date` holds a time value; the grids hold the days they show as day numbers,
  // and stepping with `setDate(getDate() + 1)` is adding one to the day number.

  /** The weekday of a day number: 1 January 1970 was a Thursday. */
  function WeekdayOf(n: int): (w: int)
    ensures 0 <= w < 7
  {
    (n + 4) % 7
  }

  /** Going back by its weekday from any day reaches a Sunday. */
  lemma BackToSunday(n: int)
    ensures WeekdayOf(n - WeekdayOf(n)) == 0
  {
    assert n + 4 == 7 * ((n + 4) / 7) + (n + 4) % 7;
  }

  /** Going forward by six minus its weekday from any day reaches a Saturday. */
  lemma ForwardToSaturday(n: int)
    ensures WeekdayOf(n + (6 - WeekdayOf(n))) == 6
  {
    assert n + 4 == 7 * ((n + 4) / 7) + (n + 4) % 7;
  }

  /** From a Sunday to a Saturday is a whole number of weeks. */
  lemma WholeWeeks(s: int, e: int)
    requires WeekdayOf(s) == 0 && WeekdayOf(e) == 6
    ensures (e - s + 1) % 7 == 0
  {
    assert s + 4 == 7 * ((s + 4) / 7);
    assert e + 4 == 7 * ((e + 4) / 7) + 6;
    assert e - s + 1 == 7 * ((e + 4) / 7 - (s + 4) / 7 + 1);
  }

  /** `getWeekDays`: the week, Sunday to Saturday, that contains `start`. */
  function WeekDays(start: Date): (days: seq<int>)
    requires Valid(start)
    ensures |days| == 7 && WeekdayOf(days[0]) == 0
    ensures forall i :: 0 <= i < 7 ==> days[i] == days[0] + i
    ensures days[Weekday(start)] == DayNumber(start)
  {
    var sunday := DayNumber(start) - Weekday(start);
    BackToSunday(DayNumber(start));
    seq(7, i requires 0 <= i < 7 => sunday + i)
  }

  function FirstOfMonth(d: Date): Date {
    Date(d.year, d.month, 1)
  }

  /** `new Date(year, month + 1, 0)`: the last day of the month. */
  function LastOfMonth(d: Date): Date {
    Date(d.year, d.month, DaysIn(d.year, d.month))
  }

  /** The Sunday on or before the first of the month. */
  function GridStart(cur: Date): int
    requires 1 <= cur.month <= 12
  {
    DayNumber(FirstOfMonth(cur)) - Weekday(FirstOfMonth(cur))
  }

  /** The Saturday on or after the last day of the month. */
  function GridEnd(cur: Date): int
    requires 1 <= cur.month <= 12
  {
    DayNumber(LastOfMonth(cur)) + (6 - Weekday(LastOfMonth(cur)))
  }

  /** The day number of day `dd` of the month of `cur`. */
  lemma DayOfMonth(cur: Date, dd: int)
    requires 1 <= cur.month <= 12
    ensures DayNumber(Date(cur.year, cur.month, dd)) == DayNumber(FirstOfMonth(cur)) + dd - 1
  {
  }

  /** The grid starts on a Sunday, ends on a Saturday, and spans whole weeks. */
  lemma GridWeeks(cur: Date)
    requires Valid(cur)
    ensures WeekdayOf(GridStart(cur)) == 0 && WeekdayOf(GridEnd(cur)) == 6
    ensures (GridEnd(cur) - GridStart(cur) + 1) % 7 == 0
  {
    BackToSunday(DayNumber(FirstOfMonth(cur)));
    ForwardToSaturday(DayNumber(LastOfMonth(cur)));
    WholeWeeks(GridStart(cur), GridEnd(cur));
  }

  /** `getMonthDays`: every day from the Sunday on or before the 1st to the Saturday on or
      after the last day of the month of `cur`. The grid opens with as many days of the
      month before as the weekday of the 1st, then the month's days in order. */
  method MonthDays(cur: Date) returns (days: seq<int>)
    requires Valid(cur)
    ensures |days| > 0 && |days| % 7 == 0
    ensures days[0] == GridStart(cur) && days[|days| - 1] == GridEnd(cur)
    ensures WeekdayOf(days[0]) == 0 && WeekdayOf(days[|days| - 1]) == 6
    ensures forall i :: 0 <= i < |days| ==> days[i] == days[0] + i
    ensures forall dd :: 1 <= dd <= DaysIn(cur.year, cur.month) ==>
      var i := Weekday(FirstOfMonth(cur)) + dd - 1;
      0 <= i < |days| && days[i] == DayNumber(Date(cur.year, cur.month, dd))
  {
    var start, end := GridStart(cur), GridEnd(cur);
    GridWeeks(cur);
    assert DayNumber(LastOfMonth(cur)) == DayNumber(FirstOfMonth(cur)) + DaysIn(cur.year, cur.month) - 1;
    days := [];
    var c := start;
    while c <= end
      invariant c == start + |days| && c <= end + 1
      invariant forall i :: 0 <= i < |days| ==> days[i] == start + i
      decreases end - c
    {
      days := days + [c];
      c := c + 1;
    }
    forall dd | 1 <= dd <= DaysIn(cur.year, cur.month)
      ensures var i := Weekday(FirstOfMonth(cur)) + dd - 1;
        0 <= i < |days| && days[i] == DayNumber(Date(cur.year, cur.month, dd))
    {
      DayOfMonth(cur, dd);
    }
  }

  /** `isSameMonth`: compares the month only. */
  function IsSameMonth(d: Date, cur: Date): bool {
    d.month == cur.month
  }

  /** Every day of the shown month counts as "same month", but so does the same month of
      any other year. */
  lemma SameMonthIgnoresYear(cur: Date, dd: int)
    ensures IsSameMonth(Date(cur.year, cur.month, dd), cur)
    ensures IsSameMonth(Date(cur.year + 1, cur.month, dd), cur)
  {
  }

  // ---------------------------------------------------------------------------
  // Tasks of a day

  /** `getTasksForDate`, given the date's key: the bucket for the key, or no tasks. */
  function TasksForDate(cal: map<string, seq<Listing.Item>>, key: string): (r: seq<Listing.Item>)
    ensures key !in cal ==> r == []
  {
    if key in cal then cal[key] else []
  }

  /** On the listing's calendar a day shows exactly the items whose date key is the day's
      key, in listing order. */
  lemma TasksForDateOfListing(items: seq<Listing.Item>, key: string)
    ensures TasksForDate(Listing.CalendarOf(items), key) == Listing.WithKey(items, key)
    ensures forall x :: x in TasksForDate(Listing.CalendarOf(items), key) <==> x in items && Listing.DateKey(x.date) == key
  {
    Listing.CalendarLookup(items, key);
  }
}
