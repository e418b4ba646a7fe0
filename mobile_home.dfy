/** The mobile client's calendar screen (Mobile/src/screens/Home.tsx). */
module MobileHome {
  import opened Base
  import opened HabitStore
  import opened CalendarGrid

  /** The weekday initials, Sunday first. */
  const WeekDays: seq<char> := ['D', 'S', 'T', 'Q', 'Q', 'S', 'S']

  /** `minimumSummaryDatesSize`: 18 weeks of 5 days. */
  const MinimumSummaryDatesSize: int := 18 * 5

  /** `[...weekDays.slice(k), ...weekDays.slice(0, k)]`: the header starting
      on weekday `k`. A `k` past the end makes both slices clamp. */
  function ReorderWeekDays(firstDayOfMonth: nat): (r: seq<char>)
    ensures |r| == 7
    ensures firstDayOfMonth >= 7 ==> r == WeekDays
  {
    var k := if firstDayOfMonth < |WeekDays| then firstDayOfMonth else |WeekDays|;
    WeekDays[k..] + WeekDays[..k]
  }

  /** Rotating a sequence keeps its elements. */
  lemma RotatedIsPermutation<T>(s: seq<T>, k: nat)
    requires k <= |s|
    ensures multiset(s[k..] + s[..k]) == multiset(s)
  {
    assert s == s[..k] + s[k..];
  }

  /** Whatever the first weekday, the header holds the same seven initials. */
  lemma ReorderWeekDaysIsPermutation(firstDayOfMonth: nat)
    ensures multiset(ReorderWeekDays(firstDayOfMonth)) == multiset(WeekDays)
  {
    var k := if firstDayOfMonth < |WeekDays| then firstDayOfMonth else |WeekDays|;
    RotatedIsPermutation(WeekDays, k);
  }

  /** Position `i` of a sequence rotated left by `k` holds the element `k`
      places further on, wrapping around the end. */
  lemma RotatedAt<T>(s: seq<T>, k: nat, i: nat)
    requires k <= |s| && i < |s|
    ensures i + k < |s| ==> (s[k..] + s[..k])[i] == s[i + k]
    ensures i + k >= |s| ==> (s[k..] + s[..k])[i] == s[i + k - |s|]
  {
    if i < |s| - k {
      assert (s[k..] + s[..k])[i] == s[k..][i];
    } else {
      assert (s[k..] + s[..k])[i] == s[..k][i - (|s| - k)];
    }
  }

  /** Column `i` of the header starting on weekday `k` is weekday `(i + k) mod 7`. */
  lemma ReorderWeekDaysAt(k: nat, i: nat)
    requires k < 7 && i < 7
    ensures ReorderWeekDays(k)[i] == WeekDays[(i + k) % 7]
  {
    RotatedAt(WeekDays, k, i);
    if i + k < 7 {
      assert (i + k) % 7 == i + k;
    } else {
      assert (i + k) % 7 == i + k - 7;
    }
  }

  /** Starting on Sunday keeps the header as declared. */
  lemma ReorderWeekDaysFromSunday()
    ensures ReorderWeekDays(0) == WeekDays
  {
  }

  /** The calendar: nothing while the summary is `null`; otherwise one cell
      per date and, when there are fewer than 90 dates, padding up to 90. */
  function Grid(summary: Option<seq<SummaryRow>>, dates: seq<int>, startOf: int -> int): (cells: seq<Cell>)
    ensures summary.None? ==> cells == []
    ensures summary.Some? ==> |cells| == Max(MinimumSummaryDatesSize, |dates|)
    ensures summary.Some? ==> forall i :: 0 <= i < |dates| ==> cells[i] == CellFor(summary.value, dates[i], startOf)
    ensures summary.Some? ==> forall i :: |dates| <= i < |cells| ==> cells[i] == Filler
  {
    match summary
    case None => []
    case Some(rows) =>
      var amountOfDaysToFill := MinimumSummaryDatesSize - |dates|;
      DateCells(rows, dates, startOf) + Fillers(amountOfDaysToFill)
  }
}
