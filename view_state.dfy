/**
  The viewed date and view period of the activity log's navigation: which
  day, month or year the statistics screens show, how the date is stepped
  inside the window 2000..2060, and how the date is re-anchored when the
  user picks another period.
 */
module ViewState {

  /** The period the statistics screens summarise. */
  datatype ViewPeriod = Day | Month | Year

  /** The fields of a C `struct tm` that navigation reads or writes.
      `year` counts years since 1900 and `mon` runs from 0 (January) to 11. */
  datatype Tm = Tm(year: int, mon: int, mday: int, hour: int, min: int, sec: int)

  /** The viewed date together with the period it is viewed by. */
  datatype View = View(tm: Tm, period: ViewPeriod)

  /** tm_year of the year 2000, the first year the view can show. */
  const FirstYear := 100
  /** tm_year of the year 2060, the last year the view can show. */
  const LastYear := 160
  const January := 0
  const December := 11
  const LastDayOfDecember := 31

  /** How coarse a period is: a day lies in a month, a month in a year. */
  function Span(v: ViewPeriod): nat
  {
    match v
    case Day => 0
    case Month => 1
    case Year => 2
  }

  /** The coarser of two periods. */
  function Coarser(a: ViewPeriod, b: ViewPeriod): ViewPeriod
  {
    if Span(a) >= Span(b) then a else b
  }

  /** The unit letter the calendar helpers take for each period. */
  function UnitLetter(v: ViewPeriod): char
  {
    match v
    case Day => 'D'
    case Month => 'M'
    case Year => 'Y'
  }

  /** `a` and `b` lie in the same day, month or year, as `v` says. */
  predicate SamePeriod(a: Tm, b: Tm, v: ViewPeriod)
  {
    a.year == b.year
    && (v != Year ==> a.mon == b.mon)
    && (v == Day ==> a.mday == b.mday)
  }

  /** The date fields of `t` are those of the first day of its `v`-period. */
  predicate Aligned(t: Tm, v: ViewPeriod)
  {
    (v != Day ==> t.mday == 1) && (v == Year ==> t.mon == January)
  }

  /** `t` is midnight of the first day of its `v`-period. */
  predicate IsPeriodStart(t: Tm, v: ViewPeriod)
  {
    t.hour == 0 && t.min == 0 && t.sec == 0 && Aligned(t, v)
  }

  /** `t` moved to the first day of its own `v`-period, time of day kept. */
  function AlignTo(t: Tm, v: ViewPeriod): (r: Tm)
  {
    t.(mon := if v == Year then January else t.mon, mday := if v == Day then t.mday else 1)
  }

  /** A period start is determined by the period it starts: two starts of
      the period containing `now` are the same instant. */
  lemma PeriodStartUnique(a: Tm, b: Tm, now: Tm, v: ViewPeriod)
    requires IsPeriodStart(a, v) && SamePeriod(a, now, v)
    requires IsPeriodStart(b, v) && SamePeriod(b, now, v)
    ensures a == b
  {
  }

  // ---------------------------------------------------------------------
  // Stepping the viewed date (decreaseDate / increaseDate)
  // ---------------------------------------------------------------------

  /** `t` shows the first period of the window, 2000 (and January, and 1 January). */
  predicate AtFirstPeriod(t: Tm, v: ViewPeriod)
  {
    match v
    case Day => t.year == FirstYear && t.mon == January && t.mday == 1
    case Month => t.year == FirstYear && t.mon == January
    case Year => t.year == FirstYear
  }

  /** `t` shows the last period of the window, 2060 (and December, and 31 December). */
  predicate AtLastPeriod(t: Tm, v: ViewPeriod)
  {
    match v
    case Day => t.year == LastYear && t.mon == December && t.mday == LastDayOfDecember
    case Month => t.year == LastYear && t.mon == December
    case Year => t.year == LastYear
  }

  /** The date one period earlier, as given by the calendar helper
      `decreaseTm`, except at the first period of the window. */
  function StepBack(t: Tm, v: ViewPeriod, decreaseTm: (Tm, char) -> Tm): (r: Tm)
  {
    if AtFirstPeriod(t, v) then t else decreaseTm(t, UnitLetter(v))
  }

  /** The date one period later, as given by the calendar helper
      `increaseTm`, except at the last period of the window. */
  function StepForward(t: Tm, v: ViewPeriod, increaseTm: (Tm, char) -> Tm): (r: Tm)
  {
    if AtLastPeriod(t, v) then t else increaseTm(t, UnitLetter(v))
  }

  /** Stepping forward undoes stepping back when the calendar helpers undo
      each other on this date and the step did not happen at a bound. */
  lemma StepForwardUndoesStepBack(t: Tm, v: ViewPeriod, increaseTm: (Tm, char) -> Tm, decreaseTm: (Tm, char) -> Tm)
    requires !AtFirstPeriod(t, v)
    requires !AtLastPeriod(decreaseTm(t, UnitLetter(v)), v)
    requires increaseTm(decreaseTm(t, UnitLetter(v)), UnitLetter(v)) == t
    ensures StepForward(StepBack(t, v, decreaseTm), v, increaseTm) == t
  {
  }

  /** Stepping back undoes stepping forward under the mirrored conditions. */
  lemma StepBackUndoesStepForward(t: Tm, v: ViewPeriod, increaseTm: (Tm, char) -> Tm, decreaseTm: (Tm, char) -> Tm)
    requires !AtLastPeriod(t, v)
    requires !AtFirstPeriod(increaseTm(t, UnitLetter(v)), v)
    requires decreaseTm(increaseTm(t, UnitLetter(v)), UnitLetter(v)) == t
    ensures StepBack(StepForward(t, v, increaseTm), v, decreaseTm) == t
  {
  }

  /** For month and year views: the number of the viewed period counted
      from year 1900 (months for the month view, years for the year view). */
  function PeriodNumber(t: Tm, v: ViewPeriod): (n: int)
    requires v != Day
  {
    if v == Year then t.year else t.year * 12 + t.mon
  }

  /** The period number of the first (2000 or January 2000) and the last
      (2060 or December 2060) period of the window. */
  function FirstNumber(v: ViewPeriod): (n: int)
    requires v != Day
  {
    if v == Year then FirstYear else FirstYear * 12 + January
  }

  function LastNumber(v: ViewPeriod): (n: int)
    requires v != Day
  {
    if v == Year then LastYear else LastYear * 12 + December
  }

  /** `t` is a well-formed month of the window 2000..2060. */
  predicate InWindow(t: Tm, v: ViewPeriod)
    requires v != Day
  {
    January <= t.mon <= December && FirstNumber(v) <= PeriodNumber(t, v) <= LastNumber(v)
  }

  /** Month and year views: when `decreaseTm` moves exactly one period back
      and yields a well-formed month, stepping back never leaves the window,
      and it stays put exactly at the window's first period. */
  lemma StepBackStaysInWindow(t: Tm, v: ViewPeriod, decreaseTm: (Tm, char) -> Tm)
    requires v != Day && InWindow(t, v)
    requires January <= decreaseTm(t, UnitLetter(v)).mon <= December
    requires PeriodNumber(decreaseTm(t, UnitLetter(v)), v) == PeriodNumber(t, v) - 1
    ensures InWindow(StepBack(t, v, decreaseTm), v)
    ensures AtFirstPeriod(t, v) <==> PeriodNumber(t, v) == FirstNumber(v)
    ensures PeriodNumber(StepBack(t, v, decreaseTm), v)
         == if PeriodNumber(t, v) == FirstNumber(v) then PeriodNumber(t, v) else PeriodNumber(t, v) - 1
  {
  }

  /** Month and year views: the mirror image for stepping forward. */
  lemma StepForwardStaysInWindow(t: Tm, v: ViewPeriod, increaseTm: (Tm, char) -> Tm)
    requires v != Day && InWindow(t, v)
    requires January <= increaseTm(t, UnitLetter(v)).mon <= December
    requires PeriodNumber(increaseTm(t, UnitLetter(v)), v) == PeriodNumber(t, v) + 1
    ensures InWindow(StepForward(t, v, increaseTm), v)
    ensures AtLastPeriod(t, v) <==> PeriodNumber(t, v) == LastNumber(v)
    ensures PeriodNumber(StepForward(t, v, increaseTm), v)
         == if PeriodNumber(t, v) == LastNumber(v) then PeriodNumber(t, v) else PeriodNumber(t, v) + 1
  {
  }

  /** Month and year views: inside the window the clamp never blocks an
      undo. Stepping back from any period but the first, and then forward,
      returns the original date when the calendar helpers move exactly one
      period and undo each other on this date. */
  lemma StepBackUndoneInWindow(t: Tm, v: ViewPeriod, increaseTm: (Tm, char) -> Tm, decreaseTm: (Tm, char) -> Tm)
    requires v != Day && InWindow(t, v) && !AtFirstPeriod(t, v)
    requires January <= decreaseTm(t, UnitLetter(v)).mon <= December
    requires PeriodNumber(decreaseTm(t, UnitLetter(v)), v) == PeriodNumber(t, v) - 1
    requires increaseTm(decreaseTm(t, UnitLetter(v)), UnitLetter(v)) == t
    ensures StepForward(StepBack(t, v, decreaseTm), v, increaseTm) == t
  {
    var d := decreaseTm(t, UnitLetter(v));
    StepBackStaysInWindow(t, v, decreaseTm);
    assert !AtLastPeriod(d, v);
  }

  /** Month and year views: the mirror image, stepping forward from any
      period but the last and then back. */
  lemma StepForwardUndoneInWindow(t: Tm, v: ViewPeriod, increaseTm: (Tm, char) -> Tm, decreaseTm: (Tm, char) -> Tm)
    requires v != Day && InWindow(t, v) && !AtLastPeriod(t, v)
    requires January <= increaseTm(t, UnitLetter(v)).mon <= December
    requires PeriodNumber(increaseTm(t, UnitLetter(v)), v) == PeriodNumber(t, v) + 1
    requires decreaseTm(increaseTm(t, UnitLetter(v)), UnitLetter(v)) == t
    ensures StepBack(StepForward(t, v, increaseTm), v, decreaseTm) == t
  {
    var i := increaseTm(t, UnitLetter(v));
    StepForwardStaysInWindow(t, v, increaseTm);
    assert !AtFirstPeriod(i, v);
  }

  // ---------------------------------------------------------------------
  // The period picker (createPeriodPicker)
  // ---------------------------------------------------------------------

  /** One line of the period picker: the period it offers and whether it is ticked. */
  datatype PickerEntry = PickerEntry(period: ViewPeriod, ticked: bool)

  /** The picker lists Day, Month and Year in that order and ticks the one in use. */
  function PeriodEntries(current: ViewPeriod): (es: seq<PickerEntry>)
    ensures |es| == 3 && es[0].period == Day && es[1].period == Month && es[2].period == Year
    ensures forall i :: 0 <= i < |es| ==> (es[i].ticked <==> es[i].period == current)
  {
    [PickerEntry(Day, current == Day), PickerEntry(Month, current == Month), PickerEntry(Year, current == Year)]
  }

  /** The view after the picker entry for `target` is chosen, `now` being
      the current time: the entry for the period in use does nothing;
      otherwise the date is re-anchored for the new period. */
  function Select(view: View, target: ViewPeriod, now: Tm): (r: View)
    ensures r.period == target
    ensures r.tm.year == view.tm.year
    ensures r.tm.hour == view.tm.hour && r.tm.min == view.tm.min && r.tm.sec == view.tm.sec
    ensures target == view.period ==> r == view
    ensures target != view.period ==> Aligned(r.tm, target)
  {
    if target == view.period then view
    else
      var t := view.tm;
      match target
      case Day =>
        if (view.period == Year && t.year == now.year)
           || (view.period == Month && t.mon == now.mon && t.year == now.year)
        then View(t.(mon := now.mon, mday := now.mday), Day)
        else View(t, Day)
      case Month =>
        var t' := if view.period == Year && t.year == now.year then t.(mon := now.mon) else t;
        View(t'.(mday := 1), Month)
      case Year =>
        View(t.(mon := January, mday := 1), Year)
  }

  /** What choosing a period means, stated independently of the picker's
      branches: zooming out moves to the start of the enclosing period;
      zooming in moves to today's part of the viewed period when today lies
      in it, and otherwise to the viewed date's own part. */
  lemma SelectZooms(view: View, target: ViewPeriod, now: Tm)
    ensures Span(target) > Span(view.period) ==>
      Select(view, target, now).tm == AlignTo(view.tm, target)
    ensures Span(target) < Span(view.period) ==>
      Select(view, target, now).tm
        == AlignTo(if SamePeriod(view.tm, now, view.period)
                   then view.tm.(mon := now.mon, mday := now.mday)
                   else view.tm, target)
  {
  }

  /** After choosing another period, the view contains today exactly when
      the coarser of the old and the new period did before. */
  lemma SelectKeepsToday(view: View, target: ViewPeriod, now: Tm)
    requires target != view.period
    ensures SamePeriod(Select(view, target, now).tm, now, target)
        <==> SamePeriod(view.tm, now, Coarser(view.period, target))
  {
  }
}
