/** Small shared vocabulary: optional values, record ids, the calendar that
    dayjs provides, and a few facts about sequences. */
module Base {

  /** Record ids. The server's uuids and the ids the clients hold are modelled
      as naturals; only their equality matters. */
  type Id = nat

  datatype Option<+T> = None | Some(value: T)

  function Max(a: int, b: int): int
  {
    if a < b then b else a
  }

  /** No element occurs twice. */
  ghost predicate Distinct<T>(s: seq<T>)
  {
    forall i, j :: 0 <= i < j < |s| ==> s[i] != s[j]
  }

  /** In a sequence without repeats, an element sits at one index only. */
  lemma DistinctIndex<T>(s: seq<T>, i: nat)
    requires Distinct(s) && i < |s|
    ensures forall j :: 0 <= j < |s| && s[j] == s[i] ==> j == i
  {
  }

  /** What the model needs of dayjs: `startOf('day')` moves an instant back
      to the start of its day (never forward), is idempotent and keeps order;
      `.day()` is a weekday 0 (Sunday) .. 6 (Saturday). Instants are integers. */
  ghost predicate IsCalendar(startOf: int -> int, weekday: int -> int)
  {
    && (forall t :: startOf(t) <= t)
    && (forall t :: startOf(startOf(t)) == startOf(t))
    && (forall t, u :: t <= u ==> startOf(t) <= startOf(u))
    && (forall t :: 0 <= weekday(t) < 7)
  }

  /** For an instant `c` that is itself the start of a day, `c <= t` and
      `c <= startOf(t)` agree: comparing with the raw instant or with the
      start of its day gives the same answer. */
  lemma DayAlignedComparison(startOf: int -> int, weekday: int -> int, c: int, t: int)
    requires IsCalendar(startOf, weekday)
    requires startOf(c) == c
    ensures c <= t <==> c <= startOf(t)
  {
  }
}
