/** The mobile client's screen for one day (Mobile/src/screens/Habit.tsx).
    It holds the `GET /day` reply, or nothing before it arrives, and after
    each successful request rebuilds it, including the completed-items
    counter it shows progress with. */
module MobileHabit {
  import opened Base
  import opened ClientLists

  /** `DayInfoProps`. */
  datatype DayInfo = DayInfo(
    completedHabits: seq<Id>,
    possibleHabits: seq<HabitItem>,
    tasks: seq<TaskItem>,
    totalPossibleItems: int,
    totalCompletedItems: int)

  /** The counter agrees with what is marked done, as in a `GET /day` reply. */
  predicate CounterAgrees(info: DayInfo)
  {
    info.totalCompletedItems == |info.completedHabits| + CompletedCount(info.tasks)
  }

  /** The new state `handleToggleHabit` builds: the id removed from or
      appended to the completed habits, the counter moved by one. */
  function AfterToggleHabit(info: DayInfo, habitId: Id): (r: DayInfo)
    ensures r.completedHabits == ToggleId(info.completedHabits, habitId)
    ensures r.totalCompletedItems == info.totalCompletedItems + (if habitId in info.completedHabits then -1 else 1)
    ensures r.possibleHabits == info.possibleHabits && r.tasks == info.tasks
    ensures r.totalPossibleItems == info.totalPossibleItems
  {
    var isHabitAlreadyCompleted := habitId in info.completedHabits;
    var updatedCompletedHabits :=
      if isHabitAlreadyCompleted then Without(info.completedHabits, habitId) else info.completedHabits + [habitId];
    info.(completedHabits := updatedCompletedHabits,
          totalCompletedItems :=
            if isHabitAlreadyCompleted then info.totalCompletedItems - 1 else info.totalCompletedItems + 1)
  }

  /** The new state `handleToggleTask` builds: the matching task flipped and
      the counter recomputed from the lists. */
  function AfterToggleTask(info: DayInfo, taskId: Id): (r: DayInfo)
    ensures CounterAgrees(r)
    ensures r.tasks == FlipTask(info.tasks, taskId)
    ensures r.completedHabits == info.completedHabits && r.possibleHabits == info.possibleHabits
    ensures r.totalPossibleItems == info.totalPossibleItems
  {
    var updatedTasks := FlipTask(info.tasks, taskId);
    var updatedTotalCompletedItems := CompletedCount(updatedTasks) + |info.completedHabits|;
    info.(tasks := updatedTasks, totalCompletedItems := updatedTotalCompletedItems)
  }

  /** Moving the counter by one keeps it in step with the lists as long as
      the toggled id is marked done at most once. */
  lemma ToggleHabitKeepsCounter(info: DayInfo, habitId: Id)
    requires CounterAgrees(info)
    requires multiset(info.completedHabits)[habitId] <= 1
    ensures CounterAgrees(AfterToggleHabit(info, habitId))
  {
  }

  /** With the id marked done twice, removing both occurrences while the
      counter goes down by one leaves the counter one too high. */
  lemma ToggleHabitRepeatedIdBreaksCounter()
    ensures var info := DayInfo([7, 7], [], [], 2, 2);
            CounterAgrees(info) && !CounterAgrees(AfterToggleHabit(info, 7))
  {
  }

  /** A task toggle leaves the set of task ids as it was. */
  lemma ToggleTaskKeepsTaskIds(info: DayInfo, taskId: Id)
    ensures TaskIds(AfterToggleTask(info, taskId).tasks) == TaskIds(info.tasks)
  {
  }

  class HabitScreen {
    /** `dayInfo`: `None` until `GET /day` answers. */
    var dayInfo: Option<DayInfo>

    constructor ()
      ensures dayInfo == None
    {
      dayInfo := None;
    }

    /** `habitsProgress`: the percentage of the held totals, or 0 with no
        reply held. `generateProgressPercentage` is a parameter. */
    function Progress(percentage: (int, int) -> int): (p: int)
      reads this
      ensures dayInfo.None? ==> p == 0
      ensures dayInfo.Some? ==> p == percentage(dayInfo.value.totalPossibleItems, dayInfo.value.totalCompletedItems)
    {
      if dayInfo.Some? then percentage(dayInfo.value.totalPossibleItems, dayInfo.value.totalCompletedItems) else 0
    }

    /** `fetchHabitsAndTasks`: hold the reply, or keep the state if the
        request throws (`None`). */
    method Fetch(response: Option<DayInfo>)
      modifies this
      ensures dayInfo == if response.Some? then response else old(dayInfo)
    {
      if response.Some? {
        dayInfo := response;
      }
    }

    /** `handleToggleHabit`: after the request, with a reply held, toggle the
        id and move the counter by one. A failed request or no reply held
        leaves the state as it was. */
    method ToggleHabit(habitId: Id, requestSucceeded: bool)
      modifies this
      ensures dayInfo == if requestSucceeded && old(dayInfo).Some?
                         then Some(AfterToggleHabit(old(dayInfo).value, habitId))
                         else old(dayInfo)
      ensures old(dayInfo).Some? && CounterAgrees(old(dayInfo).value)
              && multiset(old(dayInfo).value.completedHabits)[habitId] <= 1
              ==> CounterAgrees(dayInfo.value)
    {
      if requestSucceeded && dayInfo.Some? {
        var info := dayInfo.value;
        if CounterAgrees(info) && multiset(info.completedHabits)[habitId] <= 1 {
          ToggleHabitKeepsCounter(info, habitId);
        }
        dayInfo := Some(AfterToggleHabit(info, habitId));
      }
    }

    /** `handleToggleTask`: after the request, with a reply held, flip the
        task and recompute the counter, which then agrees with the lists
        whatever it was before. */
    method ToggleTask(taskId: Id, requestSucceeded: bool)
      modifies this
      ensures dayInfo == if requestSucceeded && old(dayInfo).Some?
                         then Some(AfterToggleTask(old(dayInfo).value, taskId))
                         else old(dayInfo)
      ensures requestSucceeded && old(dayInfo).Some? ==> CounterAgrees(dayInfo.value)
    {
      if requestSucceeded && dayInfo.Some? {
        dayInfo := Some(AfterToggleTask(dayInfo.value, taskId));
      }
    }
  }
}
