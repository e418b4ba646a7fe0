/** The web client's list of a day's habits and tasks
    (Web/src/components/HabitsList.tsx). Each handler awaits its request and
    only then replaces the held `habitsInfo` and reports a completed count to
    the parent through `onCompletedChanged`. */
module WebHabitsList {
  import opened Base
  import opened ClientLists

  /** The `GET /day` reply the list holds. */
  datatype HabitsInfo = HabitsInfo(possibleHabits: seq<HabitItem>, completedHabits: seq<Id>, tasks: seq<TaskItem>)

  /** The completed items the list shows: habits marked done and tasks done. */
  function CompletedItems(info: HabitsInfo): nat
  {
    |info.completedHabits| + CompletedCount(info.tasks)
  }

  /** The count `handleDeleteHabit` reports: the old number of completed
      habits minus one, plus the completed tasks. */
  function DeleteHabitReport(info: HabitsInfo): (n: int)
    ensures n == CompletedItems(info) - 1
  {
    |info.completedHabits| - 1 + CompletedCount(info.tasks)
  }

  /** The count `handleDeleteTask` reports: the completed tasks other than
      the deleted one, plus the completed habits, minus one. */
  function DeleteTaskReport(info: HabitsInfo, taskId: Id): (n: int)
    ensures -1 <= n < CompletedItems(info)
  {
    |info.completedHabits| + CompletedOtherThan(info.tasks, taskId) - 1
  }

  /** The state after a successful habit delete. */
  function AfterDeleteHabit(info: HabitsInfo, habitId: Id): (r: HabitsInfo)
    ensures forall h :: h in r.possibleHabits <==> h in info.possibleHabits && h.id != habitId
    ensures forall h :: multiset(r.possibleHabits)[h] == if h.id == habitId then 0 else multiset(info.possibleHabits)[h]
    ensures habitId !in r.completedHabits
    ensures forall id :: id != habitId ==> multiset(r.completedHabits)[id] == multiset(info.completedHabits)[id]
    ensures r.tasks == info.tasks
  {
    info.(possibleHabits := HabitsWithout(info.possibleHabits, habitId),
          completedHabits := Without(info.completedHabits, habitId))
  }

  /** The state after a successful task delete. */
  function AfterDeleteTask(info: HabitsInfo, taskId: Id): (r: HabitsInfo)
    ensures forall t :: t in r.tasks <==> t in info.tasks && t.id != taskId
    ensures forall t: TaskItem :: t.id != taskId ==> multiset(r.tasks)[t] == multiset(info.tasks)[t]
    ensures r.possibleHabits == info.possibleHabits && r.completedHabits == info.completedHabits
  {
    info.(tasks := TasksWithout(info.tasks, taskId))
  }

  /** The habit-delete report is right only when the habit was marked done
      exactly once; for a habit not marked done it is one too low. */
  lemma DeleteHabitReportOffByOne(info: HabitsInfo, habitId: Id)
    ensures DeleteHabitReport(info) ==
      CompletedItems(AfterDeleteHabit(info, habitId)) + multiset(info.completedHabits)[habitId] - 1
    ensures habitId !in info.completedHabits ==>
      DeleteHabitReport(info) == CompletedItems(AfterDeleteHabit(info, habitId)) - 1
  {
  }

  /** The task-delete report is always one below the completed items the
      list then shows: the deleted task is left out and 1 is subtracted too. */
  lemma DeleteTaskReportOneLow(info: HabitsInfo, taskId: Id)
    ensures DeleteTaskReport(info, taskId) == CompletedItems(AfterDeleteTask(info, taskId)) - 1
  {
    CompletedOtherThanIsCountAfterRemoval(info.tasks, taskId);
  }

  /** In a list without repeated ids an id occurs once if at all. */
  lemma {:induction false} DistinctOccursOnce(ids: seq<Id>, x: Id)
    requires Distinct(ids)
    ensures multiset(ids)[x] == if x in ids then 1 else 0
  {
    if ids != [] {
      assert ids == [ids[0]] + ids[1..];
      assert Distinct(ids[1..]);
      DistinctOccursOnce(ids[1..], x);
      assert ids[0] !in ids[1..];
    }
  }

  /** The corrected habit-delete report: subtract one only when the deleted
      habit was marked done. With the ids the server sends (never repeated)
      it is the number of completed items shown afterwards. */
  function CorrectedDeleteHabitReport(info: HabitsInfo, habitId: Id): (n: int)
    requires Distinct(info.completedHabits)
    ensures n == CompletedItems(AfterDeleteHabit(info, habitId))
  {
    DistinctOccursOnce(info.completedHabits, habitId);
    |info.completedHabits| - (if habitId in info.completedHabits then 1 else 0) + CompletedCount(info.tasks)
  }

  /** The corrected task-delete report: the same count without the extra
      subtraction, which is the number of completed items shown afterwards. */
  function CorrectedDeleteTaskReport(info: HabitsInfo, taskId: Id): (n: nat)
    ensures n == CompletedItems(AfterDeleteTask(info, taskId))
  {
    CompletedOtherThanIsCountAfterRemoval(info.tasks, taskId);
    |info.completedHabits| + CompletedOtherThan(info.tasks, taskId)
  }

  class HabitsList {
    /** `habitsInfo`; the handlers are reachable only from rows rendered out
        of a loaded reply, so the model starts from that reply. */
    var habitsInfo: HabitsInfo

    constructor (loaded: HabitsInfo)
      ensures habitsInfo == loaded
    {
      habitsInfo := loaded;
    }

    /** `handleToggleHabit`: after the toggle request, remove the id from
        the completed habits if present or append it, and report the
        completed items. A failed request changes nothing. */
    method ToggleHabit(habitId: Id, requestSucceeded: bool) returns (reported: Option<int>)
      modifies this
      ensures !requestSucceeded ==> habitsInfo == old(habitsInfo) && reported == None
      ensures requestSucceeded ==>
        && habitsInfo == old(habitsInfo).(completedHabits := ToggleId(old(habitsInfo).completedHabits, habitId))
        && reported == Some(CompletedItems(habitsInfo))
    {
      if !requestSucceeded {
        return None;
      }
      var isHabitAlreadyCompleted := habitId in habitsInfo.completedHabits;
      var completedHabits: seq<Id>;
      if isHabitAlreadyCompleted {
        completedHabits := Without(habitsInfo.completedHabits, habitId);
      } else {
        completedHabits := habitsInfo.completedHabits + [habitId];
      }
      habitsInfo := habitsInfo.(completedHabits := completedHabits);
      reported := Some(|completedHabits| + CompletedCount(habitsInfo.tasks));
    }

    /** `handleDeleteHabit`: after the delete request, drop the habit from the
        possible and the completed habits and report the old number of
        completed habits minus one plus the completed tasks. A failed request
        is caught and changes nothing. */
    method DeleteHabit(habitId: Id, requestSucceeded: bool) returns (reported: Option<int>)
      modifies this
      ensures !requestSucceeded ==> habitsInfo == old(habitsInfo) && reported == None
      ensures requestSucceeded ==>
        && habitsInfo == AfterDeleteHabit(old(habitsInfo), habitId)
        && reported == Some(DeleteHabitReport(old(habitsInfo)))
    {
      if !requestSucceeded {
        return None;
      }
      var before := habitsInfo;
      habitsInfo := AfterDeleteHabit(before, habitId);
      reported := Some(DeleteHabitReport(before));
    }

    /** `handleToggleTask`: after the toggle request, flip the matching task
        and report the completed habits plus the completed updated tasks. */
    method ToggleTask(taskId: Id, requestSucceeded: bool) returns (reported: Option<int>)
      modifies this
      ensures !requestSucceeded ==> habitsInfo == old(habitsInfo) && reported == None
      ensures requestSucceeded ==>
        && habitsInfo == old(habitsInfo).(tasks := FlipTask(old(habitsInfo).tasks, taskId))
        && reported == Some(CompletedItems(habitsInfo))
    {
      if !requestSucceeded {
        return None;
      }
      var updatedTasks := FlipTask(habitsInfo.tasks, taskId);
      habitsInfo := habitsInfo.(tasks := updatedTasks);
      reported := Some(|habitsInfo.completedHabits| + CompletedCount(updatedTasks));
    }

    /** `handleDeleteTask`: after the delete request, drop the task and report
        the completed habits plus the other completed tasks, minus one. */
    method DeleteTask(taskId: Id, requestSucceeded: bool) returns (reported: Option<int>)
      modifies this
      ensures !requestSucceeded ==> habitsInfo == old(habitsInfo) && reported == None
      ensures requestSucceeded ==>
        && habitsInfo == AfterDeleteTask(old(habitsInfo), taskId)
        && reported == Some(DeleteTaskReport(old(habitsInfo), taskId))
    {
      if !requestSucceeded {
        return None;
      }
      var before := habitsInfo;
      habitsInfo := AfterDeleteTask(before, taskId);
      reported := Some(DeleteTaskReport(before, taskId));
    }
  }
}
