/** The date-range picker of src/components/DateRangePicker.tsx: a range state
    and a dropdown flag, the "last N days" and calendar-month presets, and the
    custom start/end inputs, whose handler keeps start <= end by moving the other
    bound. Dates are instants in milliseconds, as JavaScript `Date`s compare; the
    clock and the calendar functions of date-fns are parameters. */
module DatePicker {
  import opened Wrappers

  /** Milliseconds in a day, as `subDays` counts them (no daylight-saving shift). */
  const DayMs: int := 86_400_000

  /** `subDays(t, n)` */
  function SubDays(t: int, n: int): int {
    t - n * DayMs
  }

  datatype DateRange = DateRange(startDate: int, endDate: int)

  datatype Field = StartDate | EndDate

  datatype Preset = Preset(name: string, startDate: int, endDate: int)

  /** date-fns' `startOfMonth`, `endOfMonth` and `subMonths(_, 1)`. */
  datatype Calendar = Calendar(startOfMonth: int -> int, endOfMonth: int -> int, monthBefore: int -> int)

  /** `presetRanges`, with `now` the instant `new Date()` reads. */
  function Presets(now: int, cal: Calendar): (ps: seq<Preset>)
    ensures |ps| == 5
    ensures forall i :: 0 <= i < 3 ==> ps[i].endDate == now && now - ps[i].startDate == [7, 30, 90][i] * DayMs
    ensures ps[3].startDate == cal.startOfMonth(now) && ps[3].endDate == cal.endOfMonth(now)
    ensures ps[4].startDate == cal.startOfMonth(cal.monthBefore(now)) && ps[4].endDate == cal.endOfMonth(cal.monthBefore(now))
  {
    [Preset("Last 7 days", SubDays(now, 7), now),
     Preset("Last 30 days", SubDays(now, 30), now),
     Preset("Last 90 days", SubDays(now, 90), now),
     Preset("This month", cal.startOfMonth(now), cal.endOfMonth(now)),
     Preset("Last month", cal.startOfMonth(cal.monthBefore(now)), cal.endOfMonth(cal.monthBefore(now)))]
  }

  /** The initial range: the given bounds, each defaulting to the last 30 days. */
  function InitialRange(now: int, initialStart: Option<int>, initialEnd: Option<int>): (r: DateRange)
    ensures initialStart.Some? ==> r.startDate == initialStart.value
    ensures initialEnd.Some? ==> r.endDate == initialEnd.value
    ensures initialStart.None? ==> now - r.startDate == 30 * DayMs
    ensures initialEnd.None? ==> r.endDate == now
  {
    DateRange(if initialStart.Some? then initialStart.value else SubDays(now, 30),
              if initialEnd.Some? then initialEnd.value else now)
  }

  /** Without props the picker starts on exactly the "Last 30 days" preset. */
  lemma DefaultIsLast30Days(now: int, cal: Calendar)
    ensures var p := Presets(now, cal)[1];
            InitialRange(now, None, None) == DateRange(p.startDate, p.endDate) && p.name == "Last 30 days"
  {
  }

  /** `handleCustomDateChange` on a valid date `v`: the edited bound takes `v`;
      the other bound moves to `v` only when the range would otherwise be
      inverted. */
  function Clamped(r: DateRange, field: Field, v: int): (c: DateRange)
    ensures c.startDate <= c.endDate
    ensures field == StartDate ==> c.startDate == v && (c.endDate == r.endDate || c.endDate == v)
    ensures field == EndDate ==> c.endDate == v && (c.startDate == r.startDate || c.startDate == v)
    ensures field == StartDate && v <= r.endDate ==> c.endDate == r.endDate
    ensures field == EndDate && r.startDate <= v ==> c.startDate == r.startDate
  {
    var n := if field == StartDate then r.(startDate := v) else r.(endDate := v);
    var n' := if field == StartDate && n.startDate > n.endDate then n.(endDate := n.startDate) else n;
    assert field == StartDate ==> n'.startDate <= n'.endDate;
    if field == EndDate && n'.endDate < n'.startDate then n'.(startDate := n'.endDate) else n'
  }

  /** The picker's state: the range, whether the dropdown is open, and every
      range handed to `onDateRangeChange` so far. */
  class DateRangePicker {
    var range: DateRange
    var showDropdown: bool
    var notified: seq<DateRange>

    constructor (now: int, initialStart: Option<int>, initialEnd: Option<int>)
      ensures range == InitialRange(now, initialStart, initialEnd)
      ensures !showDropdown && notified == []
    {
      range := DateRange(if initialStart.Some? then initialStart.value else SubDays(now, 30),
                         if initialEnd.Some? then initialEnd.value else now);
      showDropdown := false;
      notified := [];
    }

    /** The header's click handler. */
    method ToggleDropdown()
      modifies this
      ensures showDropdown == !old(showDropdown)
      ensures range == old(range) && notified == old(notified)
    {
      showDropdown := !showDropdown;
    }

    /** The "Apply" button. */
    method CloseDropdown()
      modifies this
      ensures !showDropdown
      ensures range == old(range) && notified == old(notified)
    {
      showDropdown := false;
    }

    /** `handlePresetSelect`: the range becomes the preset's bounds, the callback
      receives exactly that range, and the dropdown closes. */
    method HandlePresetSelect(p: Preset)
      modifies this
      ensures range == DateRange(p.startDate, p.endDate)
      ensures notified == old(notified) + [range]
      ensures !showDropdown
    {
      var newRange := DateRange(p.startDate, p.endDate);
      range := newRange;
      notified := notified + [newRange];
      showDropdown := false;
    }

    /** `handleCustomDateChange(field, value)`, with `parsed` what `new Date(value)`
      gives: `None` for an Invalid Date (a cleared input). An Invalid Date is
      ignored; a valid date is stored, clamped, and handed to the callback. */
    method HandleCustomDateChange(field: Field, parsed: Option<int>)
      modifies this
      ensures parsed.None? ==> range == old(range) && notified == old(notified)
      ensures parsed.Some? ==> range == Clamped(old(range), field, parsed.value)
      ensures parsed.Some? ==> range.startDate <= range.endDate && notified == old(notified) + [range]
      ensures showDropdown == old(showDropdown)
    {
      if parsed.None? {
        return;
      }
      var newDate := parsed.value;
      var newRange := if field == StartDate then range.(startDate := newDate) else range.(endDate := newDate);
      if field == StartDate && newRange.startDate > newRange.endDate {
        newRange := newRange.(endDate := newRange.startDate);
      }
      if field == EndDate && newRange.endDate < newRange.startDate {
        newRange := newRange.(startDate := newRange.endDate);
      }
      range := newRange;
      notified := notified + [newRange];
    }
  }

  // ---------------------------------------------------------------------------
  // The handler as written, on JavaScript dates that may be invalid

  /** A range of JavaScript `Date`s; `None` is an Invalid Date (time value NaN). */
  datatype JsRange = JsRange(startDate: Option<int>, endDate: Option<int>)

  /** `a > b` on dates: false whenever either is invalid. */
  predicate After(a: Option<int>, b: Option<int>) {
    a.Some? && b.Some? && a.value > b.value
  }

  predicate Ordered(r: JsRange) {
    r.startDate.Some? && r.endDate.Some? && r.startDate.value <= r.endDate.value
  }

  function Lift(r: DateRange): JsRange {
    JsRange(Some(r.startDate), Some(r.endDate))
  }

  /** The new state `handleCustomDateChange` stores, exactly as written: the
      parsed date replaces the field whether it is valid or not. */
  function CustomChangeAsWritten(r: JsRange, field: Field, parsed: Option<int>): JsRange {
    var n := if field == StartDate then r.(startDate := parsed) else r.(endDate := parsed);
    var n' := if field == StartDate && After(n.startDate, n.endDate) then n.(endDate := n.startDate) else n;
    if field == EndDate && After(n'.startDate, n'.endDate) then n'.(startDate := n'.endDate) else n'
  }

  /** What reaches `onDateRangeChange`: `format` throws a RangeError on an
      Invalid Date, after the state has been set, so nothing is reported. */
  function NotifiedAsWritten(r: JsRange): Option<DateRange> {
    if r.startDate.Some? && r.endDate.Some? then Some(DateRange(r.startDate.value, r.endDate.value)) else None
  }

  /** On valid dates the handler as written and the clamp agree. */
  lemma AsWrittenOnValidDates(r: DateRange, field: Field, v: int)
    ensures CustomChangeAsWritten(Lift(r), field, Some(v)) == Lift(Clamped(r, field, v))
    ensures NotifiedAsWritten(CustomChangeAsWritten(Lift(r), field, Some(v))) == Some(Clamped(r, field, v))
  {
  }

  /** Clearing the start input stores an Invalid Date: the range is no longer
      ordered, the callback is never reached, and a later valid end date does not
      repair the start. */
  lemma ClearedInputIsStored(r: DateRange, v: int)
    ensures var cleared := CustomChangeAsWritten(Lift(r), StartDate, None);
            && cleared == JsRange(None, Some(r.endDate))
            && !Ordered(cleared)
            && NotifiedAsWritten(cleared).None?
            && !Ordered(CustomChangeAsWritten(cleared, EndDate, Some(v)))
  {
  }
}
