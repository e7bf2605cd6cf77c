/**
 * `src/components/admin/CalendarWidget.tsx`: the month grid of the admin
 * calendar, its "today" highlight and the month buttons.
 *
 * The calendar is the proleptic Gregorian one that JavaScript's `Date` uses.
 * Only the year and the month of `currentDate` matter to the widget, so the
 * state is a year and a month; `today` is a parameter.
 */
module Calendar {
  import opened Base

  /** A year and a month, the month counted from 0 as `getMonth` does. */
  datatype YearMonth = YearMonth(year: int, month: nat)

  predicate ValidMonth(ym: YearMonth) {
    ym.month < 12
  }

  datatype Date = Date(year: int, month: nat, day: nat)

  predicate IsLeapYear(y: int) {
    y % 4 == 0 && (y % 100 != 0 || y % 400 == 0)
  }

  /** The length of month `m` (0-based) of year `y`: what
      `new Date(y, m + 1, 0).getDate()` gives. */
  function DaysInMonth(y: int, m: nat): (n: nat)
    requires m < 12
    ensures 28 <= n <= 31
    ensures m == 1 ==> (n == 29 <==> IsLeapYear(y))
  {
    if m == 1 then (if IsLeapYear(y) then 29 else 28)
    else if m == 3 || m == 5 || m == 8 || m == 10 then 30
    else 31
  }

  /** The day number of a date counted from 1 January 1970 (negative before
      it), for `m` counted from 0. Euclidean division floors here, since every
      divisor is positive. */
  function DayNumber(y: int, m: nat, d: nat): int
    requires m < 12
  {
    var yy := if m < 2 then y - 1 else y;
    var mp := if m < 2 then m + 10 else m - 2;
    var doy := (153 * mp + 2) / 5 + d - 1;
    MarchFirst(yy) + doy - 719468
  }

  /** The day number of 1 March of year `yy`, plus 719468: the days since
      1 March of the year 0. */
  function MarchFirst(yy: int): int {
    var era := yy / 400;
    var yoe := yy - era * 400;
    era * 146097 + yoe * 365 + yoe / 4 - yoe / 100
  }

  /** `getDay()`: 0 for Sunday. */
  function Weekday(y: int, m: nat, d: nat): (w: nat)
    requires m < 12
    ensures w < 7
  {
    (DayNumber(y, m, d) + 4) % 7
  }

  /** 1 January 1970 was a Thursday, and 1 October 2026 is one too. */
  lemma KnownWeekdays()
    ensures DayNumber(1970, 0, 1) == 0 && Weekday(1970, 0, 1) == 4
    ensures Weekday(2026, 9, 1) == 4
  {
  }

  // ---------------------------------------------------------------------------
  // The day grid

  /** `getDaysInMonth`: `null` for each blank before the first, then the days
      of the month. */
  method GetDaysInMonth(ym: YearMonth) returns (days: seq<Option<nat>>)
    requires ValidMonth(ym)
    ensures var firstDay := Weekday(ym.year, ym.month, 1);
      && |days| == firstDay + DaysInMonth(ym.year, ym.month)
      && (forall i :: 0 <= i < firstDay ==> days[i] == None)
      && (forall i :: firstDay <= i < |days| ==> days[i] == Some(i - firstDay + 1))
  {
    var firstDay := Weekday(ym.year, ym.month, 1);
    var daysInMonth := DaysInMonth(ym.year, ym.month);
    days := [];
    var i := 0;
    while i < firstDay
      invariant 0 <= i <= firstDay
      invariant |days| == i && forall j :: 0 <= j < i ==> days[j] == None
    {
      days := days + [None];
      i := i + 1;
    }
    i := 1;
    while i <= daysInMonth
      invariant 1 <= i <= daysInMonth + 1
      invariant |days| == firstDay + i - 1
      invariant forall j :: 0 <= j < firstDay ==> days[j] == None
      invariant forall j :: firstDay <= j < |days| ==> days[j] == Some(j - firstDay + 1)
    {
      days := days + [Some(i)];
      i := i + 1;
    }
  }

  /** The cell is highlighted: it holds a day, the displayed month and year
      are today's, and the day is today's. */
  predicate IsToday(cell: Option<nat>, ym: YearMonth, today: Date) {
    cell.Some? && cell.value != 0 && ym.month == today.month && ym.year == today.year && cell.value == today.day
  }

  /** At most one cell of a grid is highlighted, and only in today's month. */
  lemma AtMostOneToday(days: seq<Option<nat>>, firstDay: nat, ym: YearMonth, today: Date)
    requires forall i :: 0 <= i < firstDay && i < |days| ==> days[i] == None
    requires forall i :: firstDay <= i < |days| ==> days[i] == Some(i - firstDay + 1)
    ensures forall i, j :: 0 <= i < |days| && 0 <= j < |days| && IsToday(days[i], ym, today) && IsToday(days[j], ym, today) ==> i == j
    ensures forall i :: 0 <= i < |days| && IsToday(days[i], ym, today) ==> ym.year == today.year && ym.month == today.month
  {
  }

  /** The grid of today's month highlights exactly today's cell. */
  lemma TodayIsHighlighted(days: seq<Option<nat>>, firstDay: nat, ym: YearMonth, today: Date)
    requires forall i :: firstDay <= i < |days| ==> days[i] == Some(i - firstDay + 1)
    requires ym.year == today.year && ym.month == today.month
    requires 1 <= today.day && firstDay + today.day <= |days|
    ensures IsToday(days[firstDay + today.day - 1], ym, today)
  {
  }

  // ---------------------------------------------------------------------------
  // The month buttons

  /** `new Date(year, month)` read back with `getFullYear` and `getMonth`,
      for a year argument the constructor takes as it is: months outside
      0..11 carry into the year. */
  function Normalized(year: int, month: int): (ym: YearMonth)
    ensures ValidMonth(ym)
    ensures year * 12 + month == ym.year * 12 + ym.month
  {
    YearMonth(year + month / 12, month % 12)
  }

  function PrevMonth(ym: YearMonth): YearMonth {
    Normalized(ym.year, ym.month - 1)
  }

  function NextMonth(ym: YearMonth): YearMonth {
    Normalized(ym.year, ym.month + 1)
  }

  /** The buttons move by exactly one month, wrapping the year. */
  lemma MonthStep(ym: YearMonth)
    requires ValidMonth(ym)
    ensures NextMonth(ym) == if ym.month == 11 then YearMonth(ym.year + 1, 0) else YearMonth(ym.year, ym.month + 1)
    ensures PrevMonth(ym) == if ym.month == 0 then YearMonth(ym.year - 1, 11) else YearMonth(ym.year, ym.month - 1)
  {
  }

  lemma PrevUndoesNext(ym: YearMonth)
    requires ValidMonth(ym)
    ensures PrevMonth(NextMonth(ym)) == ym
  {
    MonthStep(ym);
    MonthStep(NextMonth(ym));
  }

  lemma NextUndoesPrev(ym: YearMonth)
    requires ValidMonth(ym)
    ensures NextMonth(PrevMonth(ym)) == ym
  {
    MonthStep(ym);
    MonthStep(PrevMonth(ym));
  }

  /** The first of the next month falls exactly as many days after the
      first of this month as this month is long, so the day counting behind
      the weekday agrees with the month lengths. */
  lemma MonthStartsFollow(ym: YearMonth)
    requires ValidMonth(ym)
    ensures DayNumber(NextMonth(ym).year, NextMonth(ym).month, 1)
      == DayNumber(ym.year, ym.month, 1) + DaysInMonth(ym.year, ym.month)
  {
    NextInYear(ym);
    if ym.month == 11 {
      JanuaryFollowsDecember(ym.year);
    } else if ym.month == 1 {
      MarchFollowsFebruary(ym.year);
    } else {
      StepWithinYear(ym.year, ym.month);
    }
  }

  /** Helper: the month after `ym` as a year and a month. */
  lemma NextInYear(ym: YearMonth)
    requires ValidMonth(ym)
    ensures NextMonth(ym) == if ym.month == 11 then YearMonth(ym.year + 1, 0) else YearMonth(ym.year, ym.month + 1)
  {
  }

  /** Helper: the steps that stay in one counting year, which starts in
      March. */
  lemma StepWithinYear(y: int, m: nat)
    requires m < 11 && m != 1
    ensures DayNumber(y, m + 1, 1) == DayNumber(y, m, 1) + DaysInMonth(y, m)
  {
  }

  /** Helper: December to January stays in the counting year of the
      December. */
  lemma JanuaryFollowsDecember(y: int)
    ensures DayNumber(y + 1, 0, 1) == DayNumber(y, 11, 1) + DaysInMonth(y, 11)
  {
  }

  /** Helper: the step over the end of February, where the counting moves
      from the previous year to this one. */
  lemma MarchFollowsFebruary(y: int)
    ensures DayNumber(y, 2, 1) == DayNumber(y, 1, 1) + DaysInMonth(y, 1)
  {
    YearFromMarch(y);
  }

  /** Helper: from 1 March of the year before `y` to 1 March of `y` there
      are 365 days, and one more when `y` is a leap year. */
  lemma YearFromMarch(y: int)
    ensures MarchFirst(y) == MarchFirst(y - 1) + 365 + (if IsLeapYear(y) then 1 else 0)
  {
    var era := y / 400;
    var yoe := y - era * 400;
    LeapOfYearOfEra(y, era, yoe);
    if yoe == 0 {
      assert (y - 1) / 400 == era - 1;
    } else {
      assert (y - 1) / 400 == era;
      DivStep4(yoe);
      DivStep100(yoe);
    }
  }

  /** Helper: a year decides leap years through its place in its 400-year
      era. */
  lemma LeapOfYearOfEra(y: int, era: int, yoe: int)
    requires y == era * 400 + yoe && 0 <= yoe < 400
    ensures IsLeapYear(y) <==> yoe % 4 == 0 && (yoe % 100 != 0 || yoe == 0)
  {
    EraMod4(y, era, yoe);
    EraMod100(y, era, yoe);
    EraMod400(y, era, yoe);
  }

  /** Helper: the place in the era is the remainder by 400. */
  lemma EraMod400(y: int, era: int, yoe: int)
    requires y == era * 400 + yoe && 0 <= yoe < 400
    ensures y % 400 == yoe
  {
  }

  /** Helper: 4 divides 400, so the year and its place in the era leave the
      same remainder. */
  lemma EraMod4(y: int, era: int, yoe: int)
    requires y == era * 400 + yoe
    ensures y % 4 == yoe % 4
  {
    assert y == (era * 100) * 4 + yoe;
  }

  /** Helper: the same for 100. */
  lemma EraMod100(y: int, era: int, yoe: int)
    requires y == era * 400 + yoe
    ensures y % 100 == yoe % 100
  {
    assert y == (era * 4) * 100 + yoe;
  }

  lemma DivStep4(r: int)
    ensures r / 4 - (r - 1) / 4 == (if r % 4 == 0 then 1 else 0)
  {
  }

  lemma DivStep100(r: int)
    ensures r / 100 - (r - 1) / 100 == (if r % 100 == 0 then 1 else 0)
  {
  }

  /** As written, the constructor reads a year argument from 0 to 99 as
      1900 to 1999, before the month carries. */
  function DateYear(year: int): int {
    if 0 <= year <= 99 then 1900 + year else year
  }

  function NextMonthAsWritten(ym: YearMonth): YearMonth {
    Normalized(DateYear(ym.year), ym.month + 1)
  }

  function PrevMonthAsWritten(ym: YearMonth): YearMonth {
    Normalized(DateYear(ym.year), ym.month - 1)
  }

  /** Going back from January 100 reaches December 99; from there the next
      button jumps to January 2000 and the previous one to November 1999. */
  lemma YearNinetyNineJumps()
    ensures PrevMonthAsWritten(YearMonth(100, 0)) == YearMonth(99, 11)
    ensures NextMonthAsWritten(YearMonth(99, 11)) == YearMonth(2000, 0)
    ensures PrevMonthAsWritten(YearMonth(99, 11)) == YearMonth(1999, 10)
  {
  }

  /** Outside the years 0 to 99 the code as written moves by one month. */
  lemma AsWrittenAgreesElsewhere(ym: YearMonth)
    requires ValidMonth(ym) && !(0 <= ym.year <= 99)
    ensures NextMonthAsWritten(ym) == NextMonth(ym) && PrevMonthAsWritten(ym) == PrevMonth(ym)
  {
  }

  // ---------------------------------------------------------------------------
  // The widget

  class CalendarWidget {
    var current: YearMonth
    const today: Date

    constructor (now: Date)
      requires now.month < 12
      ensures current == YearMonth(now.year, now.month) && today == now
    {
      current := YearMonth(now.year, now.month);
      today := now;
    }

    /** The left button. */
    method Prev()
      modifies this
      ensures current == PrevMonth(old(current))
    {
      current := Normalized(current.year, current.month - 1);
    }

    /** The right button. */
    method Next()
      modifies this
      ensures current == NextMonth(old(current))
    {
      current := Normalized(current.year, current.month + 1);
    }

    /** The cells as rendered: each with its highlight. */
    method Cells() returns (days: seq<Option<nat>>, highlighted: seq<bool>)
      requires ValidMonth(current)
      ensures |highlighted| == |days|
      ensures var firstDay := Weekday(current.year, current.month, 1);
        && |days| == firstDay + DaysInMonth(current.year, current.month)
        && (forall i :: 0 <= i < firstDay ==> days[i] == None)
        && (forall i :: firstDay <= i < |days| ==> days[i] == Some(i - firstDay + 1))
      ensures forall i :: 0 <= i < |days| ==> (highlighted[i] <==> IsToday(days[i], current, today))
    {
      days := GetDaysInMonth(current);
      var ym, now := current, today;
      highlighted := seq(|days|, i requires 0 <= i < |days| => IsToday(days[i], ym, now));
    }
  }

  /** Back and forward again shows the same month; a year boundary carries. */
  method NavigationScenario() {
    var w := new CalendarWidget(Date(2026, 0, 14));
    w.Prev();
    assert w.current == YearMonth(2025, 11);
    w.Next();
    assert w.current == YearMonth(2026, 0);
  }
}
