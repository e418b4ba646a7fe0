/** The list transforms both clients apply to the `GET /day` reply they hold
    (Web/src/components/HabitsList.tsx, Mobile/src/screens/Habit.tsx):
    `filter`, `map` and spread over habit ids and task items. */
module ClientLists {
  import opened Base

  /** A habit listed as possible (only the fields the handlers use). */
  datatype HabitItem = HabitItem(id: Id, title: string)

  /** A task of the day as the clients hold it. */
  datatype TaskItem = TaskItem(id: Id, title: string, completed: bool)

  /** `tasks.filter(task => task.completed).length`. */
  function CompletedCount(tasks: seq<TaskItem>): (n: nat)
    ensures n <= |tasks|
    ensures n == 0 <==> forall i :: 0 <= i < |tasks| ==> !tasks[i].completed
    ensures n == |tasks| <==> forall i :: 0 <= i < |tasks| ==> tasks[i].completed
  {
    if tasks == [] then 0
    else (if tasks[0].completed then 1 else 0) + CompletedCount(tasks[1..])
  }

  /** `ids.filter(id => id !== x)`: every occurrence of `x` goes, the rest
      stays in order. */
  function Without(ids: seq<Id>, x: Id): (r: seq<Id>)
    ensures x !in r
    ensures forall y :: y != x ==> (y in r <==> y in ids)
    ensures multiset(r) == multiset(ids)[x := 0]
    ensures |r| == |ids| - multiset(ids)[x]
  {
    if ids == [] then []
    else
      assert ids == [ids[0]] + ids[1..];
      (if ids[0] == x then [] else [ids[0]]) + Without(ids[1..], x)
  }

  /** `[...ids, x]` when `x` is absent and `ids.filter(id => id !== x)` when
      it is present: the completion toggle both clients apply locally. */
  function ToggleId(ids: seq<Id>, x: Id): (r: seq<Id>)
    ensures x in r <==> x !in ids
    ensures forall y :: y != x ==> (y in r <==> y in ids)
    ensures x in ids ==> |r| == |ids| - multiset(ids)[x]
    ensures x in ids ==> multiset(r) == multiset(ids)[x := 0]
    ensures x !in ids ==> |r| == |ids| + 1
    ensures x !in ids ==> r[..|ids|] == ids && r[|ids|] == x
  {
    if x in ids then Without(ids, x) else ids + [x]
  }

  /** Toggling the same id twice restores which ids are present, though
      not necessarily their order. */
  lemma ToggleIdTwice(ids: seq<Id>, x: Id, y: Id)
    ensures y in ToggleId(ToggleId(ids, x), x) <==> y in ids
  {
  }

  /** `tasks.filter(task => task.id !== x)`. */
  function TasksWithout(tasks: seq<TaskItem>, x: Id): (r: seq<TaskItem>)
    ensures forall t :: t in r <==> t in tasks && t.id != x
    ensures forall t :: multiset(r)[t] == if t.id == x then 0 else multiset(tasks)[t]
    ensures |r| <= |tasks|
  {
    if tasks == [] then []
    else
      assert tasks == [tasks[0]] + tasks[1..];
      (if tasks[0].id == x then [] else [tasks[0]]) + TasksWithout(tasks[1..], x)
  }

  /** `habits.filter(habit => habit.id !== x)`. */
  function HabitsWithout(habits: seq<HabitItem>, x: Id): (r: seq<HabitItem>)
    ensures forall h :: h in r <==> h in habits && h.id != x
    ensures forall h :: multiset(r)[h] == if h.id == x then 0 else multiset(habits)[h]
    ensures |r| <= |habits|
  {
    if habits == [] then []
    else
      assert habits == [habits[0]] + habits[1..];
      (if habits[0].id == x then [] else [habits[0]]) + HabitsWithout(habits[1..], x)
  }

  /** `tasks.filter(task => task.id !== x && task.completed).length`. */
  function CompletedOtherThan(tasks: seq<TaskItem>, x: Id): (n: nat)
    ensures n <= CompletedCount(tasks)
    ensures (forall t :: t in tasks ==> t.id == x || !t.completed) ==> n == 0
  {
    if tasks == [] then 0
    else (if tasks[0].id != x && tasks[0].completed then 1 else 0) + CompletedOtherThan(tasks[1..], x)
  }

  /** Counting the completed tasks other than `x` is counting the completed
      tasks once `x` is removed. */
  lemma {:induction false} CompletedOtherThanIsCountAfterRemoval(tasks: seq<TaskItem>, x: Id)
    ensures CompletedOtherThan(tasks, x) == CompletedCount(TasksWithout(tasks, x))
  {
    if tasks != [] {
      var rest := TasksWithout(tasks[1..], x);
      CompletedOtherThanIsCountAfterRemoval(tasks[1..], x);
      if tasks[0].id == x {
        assert TasksWithout(tasks, x) == rest;
      } else {
        var kept := [tasks[0]] + rest;
        assert TasksWithout(tasks, x) == kept;
        assert kept[0] == tasks[0] && kept[1..] == rest;
      }
    }
  }

  /** The task with id `x` as `{ ...task, completed: !task.completed }`, the
      others as they are. */
  function Flip(task: TaskItem, x: Id): TaskItem
  {
    if task.id == x then task.(completed := !task.completed) else task
  }

  /** `tasks.map(task => task.id === x ? { ...task, completed: !task.completed } : task)`. */
  function FlipTask(tasks: seq<TaskItem>, x: Id): (r: seq<TaskItem>)
    ensures |r| == |tasks|
    ensures forall i :: 0 <= i < |tasks| ==>
      && r[i].id == tasks[i].id && r[i].title == tasks[i].title
      && (r[i].completed <==> (tasks[i].completed != (tasks[i].id == x)))
  {
    seq(|tasks|, i requires 0 <= i < |tasks| => Flip(tasks[i], x))
  }

  /** Flipping the same task twice gives back the list. */
  lemma FlipTaskTwice(tasks: seq<TaskItem>, x: Id)
    ensures FlipTask(FlipTask(tasks, x), x) == tasks
  {
  }

  /** The ids of the tasks, in order. */
  function TaskIds(tasks: seq<TaskItem>): seq<Id>
  {
    seq(|tasks|, i requires 0 <= i < |tasks| => tasks[i].id)
  }

  /** Flipping changes neither the task ids nor their order. */
  lemma FlipTaskKeepsIds(tasks: seq<TaskItem>, x: Id)
    ensures TaskIds(FlipTask(tasks, x)) == TaskIds(tasks)
  {
  }
}
