/** The server's relational tables as values, and the row-level queries its
    handlers run (Server/src/lib/routes.ts). Dates and timestamps are integer
    instants; a Day is identified by its index in the `days` table. */
module StoreRows {
  import opened Base

  /** A row of `habits`: `createdAt` is always the start of a day. */
  datatype Habit = Habit(title: string, createdAt: int)

  /** A row of `habit_week_days`: the habit is scheduled on `weekDay`
      (0 = Sunday .. 6 = Saturday). */
  datatype HabitWeekDay = HabitWeekDay(habitId: Id, weekDay: int)

  /** A row of `day_habits`: its presence means the habit was done that Day. */
  datatype DayHabit = DayHabit(dayId: Id, habitId: Id)

  /** A row of `single_tasks`. */
  datatype SingleTask = SingleTask(title: string, date: int, dayId: Id, completed: bool)

  /** `prisma.day.findUnique({ where: { date } })`: the Day dated `date`. */
  function DayOf(days: seq<int>, date: int): (r: Option<Id>)
    ensures r.Some? ==> r.value < |days| && days[r.value] == date
    ensures r.None? <==> date !in days
  {
    if |days| == 0 then None
    else if days[|days| - 1] == date then Some(|days| - 1)
    else DayOf(days[..|days| - 1], date)
  }

  /** With unique dates, the Day found for a date is the one holding it. */
  lemma {:induction false} DayOfUnique(days: seq<int>, i: nat)
    requires Distinct(days)
    requires i < |days|
    ensures DayOf(days, days[i]) == Some(i)
  {
  }

  /** The `habit_week_days` rows a new habit gets: one per element of
      `weekDays`, duplicates included. */
  function RowsFor(habitId: Id, weekDays: seq<int>): (rows: seq<HabitWeekDay>)
    ensures |rows| == |weekDays|
    ensures forall i :: 0 <= i < |rows| ==> rows[i] == HabitWeekDay(habitId, weekDays[i])
  {
    if weekDays == [] then [] else [HabitWeekDay(habitId, weekDays[0])] + RowsFor(habitId, weekDays[1..])
  }

  /** Every element of `weekDays` gives exactly one row, so a weekday listed
      n times is scheduled by n rows. */
  lemma {:induction false} RowsForCountsWeekDays(habitId: Id, weekDays: seq<int>, w: int)
    ensures multiset(RowsFor(habitId, weekDays))[HabitWeekDay(habitId, w)] == multiset(weekDays)[w]
  {
    if weekDays != [] {
      RowsForCountsWeekDays(habitId, weekDays[1..], w);
      assert weekDays == [weekDays[0]] + weekDays[1..];
    }
  }

  /** `deleteMany({ where: { habit_id } })` on `habit_week_days`: every row
      of the habit goes, and every other row stays as often as it was there. */
  function RemoveRowsOf(rows: seq<HabitWeekDay>, habitId: Id): (r: seq<HabitWeekDay>)
    ensures forall row :: row in r <==> row in rows && row.habitId != habitId
    ensures forall row :: multiset(r)[row] == if row.habitId == habitId then 0 else multiset(rows)[row]
    ensures |r| <= |rows|
  {
    if rows == [] then []
    else
      assert rows == [rows[0]] + rows[1..];
      if rows[0].habitId == habitId then RemoveRowsOf(rows[1..], habitId)
      else [rows[0]] + RemoveRowsOf(rows[1..], habitId)
  }

  /** The `day_habits` rows of Day `dayId`. */
  function RowsOfDay(dayHabits: set<DayHabit>, dayId: Id): set<DayHabit>
  {
    set dh | dh in dayHabits && dh.dayId == dayId
  }

  /** `day.dayHabits.map(dayHabit => dayHabit.habit_id)`. */
  function CompletedOn(dayHabits: set<DayHabit>, dayId: Id): (r: set<Id>)
    ensures forall h :: h in r <==> DayHabit(dayId, h) in dayHabits
  {
    set dh | dh in dayHabits && dh.dayId == dayId :: dh.habitId
  }

  /** A Day has as many completed habit ids as `day_habits` rows: a
      (day, habit) pair is a row at most once. */
  lemma {:induction false} CompletedOnCountsRows(dayHabits: set<DayHabit>, dayId: Id)
    ensures |CompletedOn(dayHabits, dayId)| == |RowsOfDay(dayHabits, dayId)|
    decreases |dayHabits|
  {
    if dayHabits == {} {
      assert RowsOfDay(dayHabits, dayId) == {};
    } else {
      var x :| x in dayHabits;
      var rest := dayHabits - {x};
      CompletedOnCountsRows(rest, dayId);
      if x.dayId == dayId {
        assert x == DayHabit(dayId, x.habitId);
        assert RowsOfDay(dayHabits, dayId) == RowsOfDay(rest, dayId) + {x};
        assert CompletedOn(dayHabits, dayId) == CompletedOn(rest, dayId) + {x.habitId};
      } else {
        assert RowsOfDay(dayHabits, dayId) == RowsOfDay(rest, dayId);
        assert CompletedOn(dayHabits, dayId) == CompletedOn(rest, dayId);
      }
    }
  }

  /** The `prisma.habit.findMany` of `GET /day`: habits created no later
      than `date` with a weekday row for `weekDay`. */
  function PossibleHabits(habits: map<Id, Habit>, habitWeekDays: seq<HabitWeekDay>, date: int, weekDay: int): (r: map<Id, Habit>)
    ensures forall h :: h in r <==> h in habits && habits[h].createdAt <= date && HabitWeekDay(h, weekDay) in habitWeekDays
    ensures forall h :: h in r ==> r[h] == habits[h]
  {
    map h | h in habits && habits[h].createdAt <= date && HabitWeekDay(h, weekDay) in habitWeekDays :: habits[h]
  }

  /** Whether a `habit_week_days` row joins a habit that counts towards the
      summary's `amount` for a Day dated `date` falling on `weekDay`. */
  predicate CountsTowards(habits: map<Id, Habit>, row: HabitWeekDay, date: int, weekDay: int)
  {
    row.weekDay == weekDay && row.habitId in habits && habits[row.habitId].createdAt <= date
  }

  /** The summary's `amount`: `count(*)` over the join of `habit_week_days`
      with `habits`, so each matching row counts, duplicates included. */
  function Amount(habits: map<Id, Habit>, rows: seq<HabitWeekDay>, date: int, weekDay: int): (n: nat)
    ensures n <= |rows|
    ensures n == 0 <==> forall i :: 0 <= i < |rows| ==> !CountsTowards(habits, rows[i], date, weekDay)
  {
    if rows == [] then 0
    else
      var rest := rows[..|rows| - 1];
      assert forall i :: 0 <= i < |rest| ==> rest[i] == rows[i];
      Amount(habits, rest, date, weekDay) + (if CountsTowards(habits, rows[|rows| - 1], date, weekDay) then 1 else 0)
  }

  /** When no (habit, weekday) row is repeated, the summary's `amount` is the
      number of habits `GET /day` reports as possible. */
  lemma {:induction false} AmountCountsPossible(habits: map<Id, Habit>, rows: seq<HabitWeekDay>, date: int, weekDay: int)
    requires Distinct(rows)
    ensures Amount(habits, rows, date, weekDay) == |PossibleHabits(habits, rows, date, weekDay).Keys|
  {
    if rows == [] {
      assert PossibleHabits(habits, rows, date, weekDay).Keys == {};
    } else {
      var rest := rows[..|rows| - 1];
      var last := rows[|rows| - 1];
      assert rows == rest + [last];
      assert Distinct(rest);
      AmountCountsPossible(habits, rest, date, weekDay);
      var before := PossibleHabits(habits, rest, date, weekDay).Keys;
      if CountsTowards(habits, last, date, weekDay) {
        assert last == HabitWeekDay(last.habitId, weekDay);
        assert PossibleHabits(habits, rows, date, weekDay).Keys == before + {last.habitId};
        assert last !in rest;
      } else {
        assert PossibleHabits(habits, rows, date, weekDay).Keys == before;
      }
    }
  }

  /** A repeated weekday row counts twice: one habit scheduled twice on
      Monday gives an `amount` of 2 while only one habit is possible. */
  lemma DuplicateRowCountsTwice()
    ensures var habits := map[0 := Habit("Beber água", 0)];
            var rows := [HabitWeekDay(0, 1), HabitWeekDay(0, 1)];
            Amount(habits, rows, 0, 1) == 2 && |PossibleHabits(habits, rows, 0, 1).Keys| == 1
  {
    var habits := map[0 := Habit("Beber água", 0)];
    var rows := [HabitWeekDay(0, 1), HabitWeekDay(0, 1)];
    assert PossibleHabits(habits, rows, 0, 1).Keys == {0};
  }

  /** Adds the element if absent, removes it if present: the habit toggle on
      `day_habits`, where presence of the row is the completion flag. */
  function TogglePresence(s: set<DayHabit>, x: DayHabit): (r: set<DayHabit>)
    ensures x in r <==> x !in s
    ensures forall y :: y != x ==> (y in r <==> y in s)
  {
    if x in s then s - {x} else s + {x}
  }

  /** Toggling the same row twice gives back the table. */
  lemma ToggleTwice(s: set<DayHabit>, x: DayHabit)
    ensures TogglePresence(TogglePresence(s, x), x) == s
  {
  }

  /** `singleTask.update({ data: { completed: !task.completed } })`. */
  function FlipCompleted(tasks: map<Id, SingleTask>, id: Id): (r: map<Id, SingleTask>)
    requires id in tasks
    ensures r.Keys == tasks.Keys
    ensures r[id].completed != tasks[id].completed
    ensures r[id] == tasks[id].(completed := r[id].completed)
    ensures forall k :: k in tasks && k != id ==> r[k] == tasks[k]
  {
    tasks[id := tasks[id].(completed := !tasks[id].completed)]
  }

  /** Toggling a task twice gives back the table. */
  lemma FlipTwice(tasks: map<Id, SingleTask>, id: Id)
    requires id in tasks
    ensures FlipCompleted(FlipCompleted(tasks, id), id) == tasks
  {
  }
}
