/** The server's handlers (Server/src/lib/routes.ts) as operations on an
    in-memory relational store. The Prisma client and the database engine
    are replaced by the fields below; dayjs is the pair of functions the
    store is created with, and the current instant is a parameter. */
module HabitStore {
  import opened Base
  import opened StoreRows

  /** What a handler answers. `Rejected` is a request body refused by its
      zod schema: the parse throws and the handler stops before touching the
      store. No error handler for it is part of this model, so it names the
      outcome, not an HTTP status. `TaskNotFound` is the
      `{ message: "Task not found" }` reply, and `ServerError` a 500: a
      database error, caught or not. */
  datatype Reply = Ok | Rejected | TaskNotFound | ServerError

  /** The reply of `GET /day`. */
  datatype DayReply = DayReply(
    possibleHabits: map<Id, Habit>,
    completedHabits: set<Id>,
    tasks: map<Id, SingleTask>,
    totalPossibleItems: nat,
    totalCompletedItems: nat)

  /** One row of `GET /summary`. */
  datatype SummaryRow = SummaryRow(dayId: Id, date: int, completed: nat, amount: nat)

  /** `weekDays: z.array(z.number().min(0).max(6))`. */
  predicate ValidWeekDays(weekDays: seq<int>)
  {
    forall i :: 0 <= i < |weekDays| ==> 0 <= weekDays[i] <= 6
  }

  /** The body is accepted exactly when every weekday it lists is one of the
      seven days 0 (Sunday) .. 6 (Saturday). */
  lemma ValidWeekDaysInRange(weekDays: seq<int>)
    ensures ValidWeekDays(weekDays) <==> forall w :: w in weekDays ==> 0 <= w < 7
  {
    if ValidWeekDays(weekDays) {
      forall w | w in weekDays
        ensures 0 <= w < 7
      {
        var i :| 0 <= i < |weekDays| && weekDays[i] == w;
      }
    } else {
      var i :| 0 <= i < |weekDays| && !(0 <= weekDays[i] <= 6);
      assert weekDays[i] in weekDays;
    }
  }

  /** Tasks whose owning Day is `dayId`: `day.singleTasks`. */
  function TasksOfDay(tasks: map<Id, SingleTask>, dayId: Id): (r: map<Id, SingleTask>)
    ensures forall id :: id in r <==> id in tasks && tasks[id].dayId == dayId
    ensures forall id :: id in r ==> r[id] == tasks[id]
  {
    map id | id in tasks && tasks[id].dayId == dayId :: tasks[id]
  }

  /** `tasks.filter(task => task.completed).map(task => task.id)`. */
  function CompletedTaskIds(tasks: map<Id, SingleTask>): (r: set<Id>)
    ensures r <= tasks.Keys
    ensures forall id :: id in r <==> id in tasks && tasks[id].completed
  {
    set id | id in tasks && tasks[id].completed
  }

  /** For habits created at starts of days, "created on or before `date`"
      reads the same with the raw instant and with the start of its day. */
  lemma CreatedByDate(startOf: int -> int, weekday: int -> int, habits: map<Id, Habit>, date: int)
    requires IsCalendar(startOf, weekday)
    requires forall h :: h in habits ==> startOf(habits[h].createdAt) == habits[h].createdAt
    ensures forall h :: h in habits ==> (habits[h].createdAt <= date <==> habits[h].createdAt <= startOf(date))
  {
    forall h | h in habits
      ensures habits[h].createdAt <= date <==> habits[h].createdAt <= startOf(date)
    {
      DayAlignedComparison(startOf, weekday, habits[h].createdAt, date);
    }
  }

  class Store {
    /** dayjs `startOf('day')` and `.day()`. */
    const startOf: int -> int
    const weekday: int -> int

    var habits: map<Id, Habit>
    var habitWeekDays: seq<HabitWeekDay>
    /** `days[i]` is the date of the Day with id `i`; no handler deletes a Day. */
    var days: seq<int>
    var dayHabits: set<DayHabit>
    var singleTasks: map<Id, SingleTask>
    /** The next id the database hands out for a habit or a task. */
    var nextId: nat

    /** A Day per date at most, every stored date is the start of a day, and
        every foreign key refers to an existing row. */
    ghost predicate Valid()
      reads this
    {
      && IsCalendar(startOf, weekday)
      && Distinct(days)
      && (forall i :: 0 <= i < |days| ==> startOf(days[i]) == days[i])
      && (forall h :: h in habits ==> h < nextId && startOf(habits[h].createdAt) == habits[h].createdAt)
      && (forall row :: row in habitWeekDays ==> row.habitId in habits && 0 <= row.weekDay <= 6)
      && (forall dh :: dh in dayHabits ==> dh.dayId < |days| && dh.habitId in habits)
      && (forall id :: id in singleTasks ==>
            id < nextId && singleTasks[id].dayId < |days| && days[singleTasks[id].dayId] == singleTasks[id].date)
    }

    /** An empty database. */
    constructor (startOf: int -> int, weekday: int -> int)
      requires IsCalendar(startOf, weekday)
      ensures Valid()
      ensures this.startOf == startOf && this.weekday == weekday
      ensures habits == map[] && habitWeekDays == [] && days == [] && dayHabits == {} && singleTasks == map[]
    {
      this.startOf := startOf;
      this.weekday := weekday;
      habits := map[];
      habitWeekDays := [];
      days := [];
      dayHabits := {};
      singleTasks := map[];
      nextId := 0;
    }

    /** `POST /habits`: a weekday outside 0..6 is rejected before the store is
        touched; otherwise one habit created at the start of today, with one
        weekday row per element of `weekDays`. */
    method CreateHabit(title: string, weekDays: seq<int>, now: int) returns (reply: Reply)
      requires Valid()
      modifies this
      ensures Valid()
      ensures reply == (if ValidWeekDays(weekDays) then Ok else Rejected)
      ensures reply == Rejected ==> unchanged(this)
      ensures reply == Ok ==>
        && old(nextId) !in old(habits)
        && habits == old(habits)[old(nextId) := Habit(title, startOf(now))]
        && habitWeekDays == old(habitWeekDays) + RowsFor(old(nextId), weekDays)
        && nextId == old(nextId) + 1
        && days == old(days) && dayHabits == old(dayHabits) && singleTasks == old(singleTasks)
    {
      if !ValidWeekDays(weekDays) {
        return Rejected;
      }
      var today := startOf(now);
      var id := nextId;
      habits := habits[id := Habit(title, today)];
      habitWeekDays := habitWeekDays + RowsFor(id, weekDays);
      nextId := nextId + 1;
      reply := Ok;
    }

    /** `GET /day`: habits possible on the date, the habits done on its Day,
        the Day's tasks and the two totals. The store is only read. */
    function DayDetail(date: int): (r: DayReply)
      reads this
      requires Valid()
      ensures forall h :: h in r.possibleHabits <==>
        h in habits && habits[h].createdAt <= startOf(date) && HabitWeekDay(h, weekday(startOf(date))) in habitWeekDays
      ensures forall h :: h in r.possibleHabits ==> r.possibleHabits[h] == habits[h]
      ensures startOf(date) !in days ==> r.completedHabits == {} && r.tasks == map[]
      ensures forall i :: 0 <= i < |days| && days[i] == startOf(date) ==>
        && (forall h :: h in r.completedHabits <==> DayHabit(i, h) in dayHabits)
        && (forall id :: id in r.tasks <==> id in singleTasks && singleTasks[id].dayId == i)
      ensures forall id :: id in r.tasks ==> r.tasks[id] == singleTasks[id]
      ensures r.totalPossibleItems == |r.possibleHabits| + |r.tasks|
      ensures r.totalCompletedItems == |r.completedHabits| + |CompletedTaskIds(r.tasks)|
    {
      var parsedDate := startOf(date);
      var weekDay := weekday(parsedDate);
      var possibleHabits := PossibleHabits(habits, habitWeekDays, date, weekDay);
      CreatedByDate(startOf, weekday, habits, date);
      var day := DayOf(days, parsedDate);
      if day.None? then
        DayReply(possibleHabits, {}, map[], |possibleHabits|, 0)
      else
        DistinctIndex(days, day.value);
        var completedHabits := CompletedOn(dayHabits, day.value);
        var tasks := TasksOfDay(singleTasks, day.value);
        DayReply(possibleHabits, completedHabits, tasks,
                 |possibleHabits| + |tasks|, |completedHabits| + |CompletedTaskIds(tasks)|)
    }

    /** `PATCH /habits/:id/toggle`: find or create today's Day, then delete
        the (today, habit) row if present and create it otherwise. Creating
        the row for a habit that does not exist violates its foreign key; the
        Day created before that stays. */
    method ToggleHabit(habitId: Id, now: int) returns (reply: Reply)
      requires Valid()
      modifies this
      ensures Valid()
      ensures days == (if startOf(now) in old(days) then old(days) else old(days) + [startOf(now)])
      ensures DayOf(days, startOf(now)).Some?
      ensures reply == (if habitId in habits then Ok else ServerError)
      ensures reply == Ok ==>
        dayHabits == TogglePresence(old(dayHabits), DayHabit(DayOf(days, startOf(now)).value, habitId))
      ensures reply == ServerError ==> dayHabits == old(dayHabits)
      ensures habits == old(habits) && habitWeekDays == old(habitWeekDays)
      ensures singleTasks == old(singleTasks) && nextId == old(nextId)
    {
      var today := startOf(now);
      var day := DayOf(days, today);
      var dayId: Id;
      if day.None? {
        days := days + [today];
        dayId := |days| - 1;
      } else {
        dayId := day.value;
      }
      DayOfUnique(days, dayId);
      var dayHabit := DayHabit(dayId, habitId);
      if dayHabit in dayHabits {
        dayHabits := dayHabits - {dayHabit};
        reply := Ok;
      } else if habitId in habits {
        dayHabits := dayHabits + {dayHabit};
        reply := Ok;
      } else {
        reply := ServerError;
      }
    }

    /** Two toggles of one habit, requested at two instants of the same day,
        leave the completion rows as they were; only that day's Day may have
        been created. */
    method ToggleHabitTwice(habitId: Id, now1: int, now2: int)
      requires Valid()
      requires habitId in habits
      requires startOf(now1) == startOf(now2)
      modifies this
      ensures Valid()
      ensures dayHabits == old(dayHabits)
      ensures startOf(now1) in days
    {
      var first := ToggleHabit(habitId, now1);
      ghost var toggled := DayHabit(DayOf(days, startOf(now1)).value, habitId);
      assert dayHabits == TogglePresence(old(dayHabits), toggled);
      var second := ToggleHabit(habitId, now2);
      ToggleTwice(old(dayHabits), toggled);
    }

    /** `PATCH /tasks/:id/toggle`: an unknown id answers "Task not found" and
        changes nothing; otherwise only that task's `completed` flips. */
    method ToggleTask(id: Id) returns (reply: Reply)
      requires Valid()
      modifies this
      ensures Valid()
      ensures reply == (if id in old(singleTasks) then Ok else TaskNotFound)
      ensures reply == Ok ==> singleTasks == FlipCompleted(old(singleTasks), id)
      ensures reply == TaskNotFound ==> unchanged(this)
      ensures habits == old(habits) && habitWeekDays == old(habitWeekDays) && days == old(days)
      ensures dayHabits == old(dayHabits) && nextId == old(nextId)
    {
      if id !in singleTasks {
        return TaskNotFound;
      }
      singleTasks := FlipCompleted(singleTasks, id);
      reply := Ok;
    }

    /** `DELETE /habits/:id`: in one transaction, delete the habit's
        `day_habits` rows, its `habit_week_days` rows, then the habit. If the
        habit does not exist the last step fails, the transaction rolls back
        and the reply is a 500. */
    method DeleteHabit(id: Id) returns (reply: Reply)
      requires Valid()
      modifies this
      ensures Valid()
      ensures reply == (if id in old(habits) then Ok else ServerError)
      ensures reply == ServerError ==> unchanged(this)
      ensures reply == Ok ==>
        && habits == old(habits) - {id}
        && dayHabits == set dh | dh in old(dayHabits) && dh.habitId != id
        && habitWeekDays == RemoveRowsOf(old(habitWeekDays), id)
        && days == old(days) && singleTasks == old(singleTasks) && nextId == old(nextId)
    {
      // The transaction works on copies and commits only if every step succeeds.
      var keptDayHabits := set dh | dh in dayHabits && dh.habitId != id;
      var keptWeekDays := RemoveRowsOf(habitWeekDays, id);
      if id !in habits {
        return ServerError;
      }
      dayHabits := keptDayHabits;
      habitWeekDays := keptWeekDays;
      habits := habits - {id};
      reply := Ok;
    }

    /** `DELETE /tasks/:id`: deleting a task that does not exist throws, which
        the framework answers with a 500. */
    method DeleteTask(id: Id) returns (reply: Reply)
      requires Valid()
      modifies this
      ensures Valid()
      ensures reply == (if id in old(singleTasks) then Ok else ServerError)
      ensures reply == ServerError ==> unchanged(this)
      ensures reply == Ok ==> singleTasks == old(singleTasks) - {id}
      ensures habits == old(habits) && habitWeekDays == old(habitWeekDays) && days == old(days)
      ensures dayHabits == old(dayHabits) && nextId == old(nextId)
    {
      if id !in singleTasks {
        return ServerError;
      }
      singleTasks := singleTasks - {id};
      reply := Ok;
    }

    /** `GET /summary`: one row per Day with the number of its `day_habits`
        rows and the number of weekday rows of habits that apply to it. */
    function Summary(): (r: seq<SummaryRow>)
      reads this
      ensures |r| == |days|
      ensures forall i :: 0 <= i < |r| ==>
        && r[i].dayId == i && r[i].date == days[i]
        && r[i].completed == |RowsOfDay(dayHabits, i)|
        && r[i].amount == Amount(habits, habitWeekDays, days[i], weekday(days[i]))
    {
      seq(|days|, i requires 0 <= i < |days| reads this =>
        SummaryRow(i, days[i], |RowsOfDay(dayHabits, i)|, Amount(habits, habitWeekDays, days[i], weekday(days[i]))))
    }

    /** `POST /single-task`: normalise the date to the start of its day, reuse
        the Day with that date or create it, and add an uncompleted task on it. */
    method CreateSingleTask(title: string, date: int) returns (reply: Reply)
      requires Valid()
      modifies this
      ensures Valid()
      ensures reply == Ok
      ensures days == (if startOf(date) in old(days) then old(days) else old(days) + [startOf(date)])
      ensures old(nextId) !in old(singleTasks)
      ensures singleTasks == old(singleTasks)[old(nextId) :=
        SingleTask(title, startOf(date), DayOf(days, startOf(date)).value, false)]
      ensures days[DayOf(days, startOf(date)).value] == startOf(date)
      ensures habits == old(habits) && habitWeekDays == old(habitWeekDays) && dayHabits == old(dayHabits)
      ensures nextId == old(nextId) + 1
    {
      var taskDate := startOf(date);
      var day := DayOf(days, taskDate);
      var dayId: Id;
      if day.None? {
        days := days + [taskDate];
        dayId := |days| - 1;
      } else {
        dayId := day.value;
      }
      DayOfUnique(days, dayId);
      singleTasks := singleTasks[nextId := SingleTask(title, taskDate, dayId, false)];
      nextId := nextId + 1;
      reply := Ok;
    }

    /** `GET /single-task`: the tasks dated the start of the given day. */
    function TasksOn(date: int): (r: map<Id, SingleTask>)
      reads this
      ensures forall id :: id in r <==> id in singleTasks && singleTasks[id].date == startOf(date)
      ensures forall id :: id in r ==> r[id] == singleTasks[id]
    {
      map id | id in singleTasks && singleTasks[id].date == startOf(date) :: singleTasks[id]
    }
  }

  /** A habit is possible on a date exactly when it was created on or before
      that day and is scheduled on the day's weekday; the raw instant and the
      start of its day give the same answer. */
  lemma PossibleIffScheduledAndCreated(s: Store, date: int, h: Id)
    requires s.Valid()
    ensures h in s.DayDetail(date).possibleHabits <==>
      && h in s.habits
      && s.habits[h].createdAt <= date
      && HabitWeekDay(h, s.weekday(s.startOf(date))) in s.habitWeekDays
  {
  }

  /** After a habit is deleted no day-detail reply mentions it. */
  lemma DeletedHabitNeverListed(s: Store, id: Id, date: int)
    requires s.Valid()
    requires id !in s.habits
    ensures id !in s.DayDetail(date).possibleHabits
    ensures id !in s.DayDetail(date).completedHabits
  {
  }

  /** The tasks `GET /day` finds through the Day are exactly the tasks
      `GET /single-task` finds by date. */
  lemma DayTasksAreTasksOnDate(s: Store, date: int)
    requires s.Valid()
    ensures s.DayDetail(date).tasks == s.TasksOn(date)
  {
    var tasks := s.DayDetail(date).tasks;
    forall id | id in s.singleTasks
      ensures id in tasks <==> s.singleTasks[id].date == s.startOf(date)
    {
      assert s.days[s.singleTasks[id].dayId] == s.singleTasks[id].date;
    }
  }

  /** For every Day, the summary's `completed` is the number of habits
      `GET /day` reports done on it and, when no weekday row is repeated, its
      `amount` is the number of habits reported possible, which leaves out
      the Day's tasks. */
  lemma SummaryAgreesWithDayDetail(s: Store, i: nat)
    requires s.Valid()
    requires i < |s.days|
    ensures s.Summary()[i].completed == |s.DayDetail(s.days[i]).completedHabits|
    ensures Distinct(s.habitWeekDays) ==>
      s.Summary()[i].amount == |s.DayDetail(s.days[i]).possibleHabits|
                            == s.DayDetail(s.days[i]).totalPossibleItems - |s.DayDetail(s.days[i]).tasks|
  {
    var date := s.days[i];
    var r := s.DayDetail(date);
    DayOfUnique(s.days, i);
    assert r.completedHabits == CompletedOn(s.dayHabits, i);
    CompletedOnCountsRows(s.dayHabits, i);
    if Distinct(s.habitWeekDays) {
      var wd := s.weekday(date);
      AmountCountsPossible(s.habits, s.habitWeekDays, date, wd);
      assert r.possibleHabits.Keys == PossibleHabits(s.habits, s.habitWeekDays, date, wd).Keys;
    }
  }
}
