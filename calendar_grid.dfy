/** What both clients' calendars share (Mobile/src/screens/Home.tsx,
    Web/src/components/SummaryTable.tsx): each date of the year takes its
    numbers from the first `GET /summary` row on the same calendar day, and
    the grid is padded with empty cells. */
module CalendarGrid {
  import opened Base
  import opened HabitStore
  import opened StoreRows

  /** One square of the calendar: a date with the numbers found for it (none
      when no summary row is on that day), or an empty padding square. */
  datatype Cell = DateCell(date: int, amount: Option<nat>, completed: Option<nat>) | Filler

  /** `dayjs(date).isSame(other, 'day')`. */
  predicate SameDay(startOf: int -> int, date: int, other: int)
  {
    startOf(date) == startOf(other)
  }

  /** The position `summary.find(day => dayjs(date).isSame(day.date, 'day'))`
      stops at: the first row on the same day as `date`. */
  function FirstOnSameDay(summary: seq<SummaryRow>, date: int, startOf: int -> int): (r: Option<nat>)
    ensures r.None? <==> forall i :: 0 <= i < |summary| ==> !SameDay(startOf, date, summary[i].date)
    ensures r.Some? ==>
      && r.value < |summary|
      && SameDay(startOf, date, summary[r.value].date)
      && forall j :: 0 <= j < r.value ==> !SameDay(startOf, date, summary[j].date)
  {
    if summary == [] then None
    else if SameDay(startOf, date, summary[0].date) then Some(0)
    else match FirstOnSameDay(summary[1..], date, startOf)
      case None => None
      case Some(k) => Some(k + 1)
  }

  /** The cell for `date`: `amount` and `completed` of the row found, or
      undefined. */
  function CellFor(summary: seq<SummaryRow>, date: int, startOf: int -> int): (cell: Cell)
    ensures cell.DateCell? && cell.date == date
    ensures FirstOnSameDay(summary, date, startOf).Some? ==>
      var i := FirstOnSameDay(summary, date, startOf).value;
      cell.amount == Some(summary[i].amount) && cell.completed == Some(summary[i].completed)
    ensures cell.amount.None? <==> cell.completed.None?
    ensures cell.amount.None? <==> forall i :: 0 <= i < |summary| ==> !SameDay(startOf, date, summary[i].date)
    ensures cell.amount.Some? ==>
      exists i :: && 0 <= i < |summary|
                  && SameDay(startOf, date, summary[i].date)
                  && cell.amount.value == summary[i].amount
                  && cell.completed.value == summary[i].completed
  {
    match FirstOnSameDay(summary, date, startOf)
    case None => DateCell(date, None, None)
    case Some(i) => DateCell(date, Some(summary[i].amount), Some(summary[i].completed))
  }

  /** `dates.map(date => <HabitDay .../>)`. */
  function DateCells(summary: seq<SummaryRow>, dates: seq<int>, startOf: int -> int): (cells: seq<Cell>)
    ensures |cells| == |dates|
    ensures forall i :: 0 <= i < |dates| ==> cells[i] == CellFor(summary, dates[i], startOf)
  {
    seq(|dates|, i requires 0 <= i < |dates| => CellFor(summary, dates[i], startOf))
  }

  /** `amountOfDaysToFill > 0 && Array.from({ length: amountOfDaysToFill })`. */
  function Fillers(amountOfDaysToFill: int): (cells: seq<Cell>)
    ensures |cells| == Max(0, amountOfDaysToFill)
    ensures forall i :: 0 <= i < |cells| ==> cells[i] == Filler
  {
    if amountOfDaysToFill > 0 then seq(amountOfDaysToFill, _ => Filler) else []
  }

  /** Over rows whose dates are distinct starts of days, the search finds
      the row holding the start of `date`, and nothing when there is none. */
  lemma FirstOnSameDayOfDays(summary: seq<SummaryRow>, days: seq<int>, date: int, startOf: int -> int)
    requires |summary| == |days| && Distinct(days)
    requires forall j :: 0 <= j < |days| ==> summary[j].date == days[j] && startOf(days[j]) == days[j]
    ensures forall i :: 0 <= i < |days| && days[i] == startOf(date) ==> FirstOnSameDay(summary, date, startOf) == Some(i)
    ensures startOf(date) !in days ==> FirstOnSameDay(summary, date, startOf) == None
  {
    forall j | 0 <= j < |summary|
      ensures SameDay(startOf, date, summary[j].date) <==> days[j] == startOf(date)
    {
      assert startOf(days[j]) == days[j];
    }
  }

  /** Against the server's summary, whose Days have distinct day-aligned
      dates, the cell of any date shows the numbers of the Day holding the
      start of that date, and no numbers if there is no such Day. */
  lemma CellShowsItsDay(s: Store, date: int)
    requires s.Valid()
    ensures forall i :: 0 <= i < |s.days| && s.days[i] == s.startOf(date) ==>
      CellFor(s.Summary(), date, s.startOf) ==
        DateCell(date, Some(Amount(s.habits, s.habitWeekDays, s.days[i], s.weekday(s.days[i]))),
                       Some(|RowsOfDay(s.dayHabits, i)|))
    ensures s.startOf(date) !in s.days ==> CellFor(s.Summary(), date, s.startOf) == DateCell(date, None, None)
  {
    FirstOnSameDayOfDays(s.Summary(), s.days, date, s.startOf);
  }
}
