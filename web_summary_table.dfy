/** The web client's calendar table (Web/src/components/SummaryTable.tsx). */
module WebSummaryTable {
  import opened Base
  import opened HabitStore
  import opened CalendarGrid
  import MobileHome

  /** The fixed header: weekday initials, Monday first. */
  const WeekDays: seq<char> := ['S', 'T', 'Q', 'Q', 'S', 'S', 'D']

  /** `minimumSummaryDatesSize`: 52 weeks of 7 days. */
  const MinimumSummaryDatesSize: int := 52 * 7

  /** The table body: date cells only once the fetched summary is non-empty,
      padding up to 364 cells whatever the summary. */
  function Grid(summary: seq<SummaryRow>, dates: seq<int>, startOf: int -> int): (cells: seq<Cell>)
    ensures |summary| == 0 ==> |cells| == Max(0, MinimumSummaryDatesSize - |dates|)
    ensures |summary| == 0 ==> forall i :: 0 <= i < |cells| ==> cells[i] == Filler
    ensures |summary| > 0 ==> |cells| == Max(MinimumSummaryDatesSize, |dates|)
    ensures |summary| > 0 ==> forall i :: 0 <= i < |dates| ==> cells[i] == CellFor(summary, dates[i], startOf)
    ensures |summary| > 0 ==> forall i :: |dates| <= i < |cells| ==> cells[i] == Filler
  {
    var amountOfDaysToFill := MinimumSummaryDatesSize - |dates|;
    var dateCells := if |summary| > 0 then DateCells(summary, dates, startOf) else [];
    dateCells + Fillers(amountOfDaysToFill)
  }

  /** The web header is the mobile header rotated to start on Monday. */
  lemma HeaderIsMobileHeaderFromMonday()
    ensures |WeekDays| == 7
    ensures WeekDays == MobileHome.ReorderWeekDays(1)
  {
  }
}
