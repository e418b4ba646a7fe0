# NLW-Habits in Dafny

A model of the habit and single-task tracker: its server's store operations
and its two clients' local state.

- **Server** (`HabitStore`, `StoreRows`). The database is a `Store` class
  with these tables:
  - `habits`
  - `habitWeekDays` (the `habit_week_days` rows)
  - `days` (one date per Day; a Day's id is its position)
  - `dayHabits` (a set of (day, habit) pairs; a pair is present when the
    habit was done that Day)
  - `singleTasks`

  Each write handler is a method that changes these fields:
  - `POST /habits`
  - `PATCH /habits/:id/toggle`
  - `PATCH /tasks/:id/toggle`
  - `DELETE /habits/:id`
  - `DELETE /tasks/:id`
  - `POST /single-task`

  Each read-only handler is a function:
  - `GET /day`
  - `GET /summary`
  - `GET /single-task`

  Instants and dates are integers. dayjs's `startOf('day')` and `.day()` are
  functions the store is created with. `IsCalendar` states all the model
  assumes of them: start of day is at or before the instant, idempotent and
  monotone, and the weekday is in 0..6. "Now" is a parameter of the
  handlers that read the clock.
- **`Valid()`** is the store invariant:
  - at most one Day per date;
  - every stored date and `created_at` is the start of a day;
  - every foreign key refers to an existing row;
  - every weekday is in 0..6.

  The relational schema is not part of this model, so its foreign keys are
  assumed. `day_habits` to `habits` and `habit_week_days` to `habits` follow
  from `DELETE /habits/:id` deleting the referencing rows before the habit
  (Server/src/lib/routes.ts:185-203). `day_habits` to `days` follows from
  the seed script deleting `day_habits` before `days`
  (Server/prisma/seed.ts:8-10). `single_tasks` to `days` is not implied by
  any delete order: the seed script deletes `days` before `single_tasks`
  (Server/prisma/seed.ts:10-12). It rests on the `singleTasks` relation
  that `GET /day` includes (Server/src/lib/routes.ts:73-76) and on the
  `day_id` that `POST /single-task` writes (Server/src/lib/routes.ts:281).
- **Web client** (`WebHabitsList`). `Web/src/components/HabitsList.tsx`
  holds the `GET /day` reply. Each of its four handlers runs only after its
  request succeeds. It then rebuilds that state and reports a completed
  count to its parent.
- **Mobile client** (`MobileHabit`). `Mobile/src/screens/Habit.tsx` does the
  same for two toggles. It also keeps a `totalCompletedItems` counter, which
  the habit toggle moves by ±1.
- **Calendars** (`CalendarGrid`, `MobileHome`, `WebSummaryTable`). This part
  covers:
  - the weekday header rotation;
  - the per-date lookup of the first summary row on the same day;
  - padding each grid to its minimum size (90 on mobile, 364 on the web).
- **Shared list transforms** (`ClientLists`). The `filter`, `map` and spread
  expressions that both clients use.

## Model

| member | source | states |
|---|---|---|
| `Base.DayAlignedComparison` | Server/src/lib/routes.ts:53-59 | for a day-aligned `created_at`, comparing with the raw query date or with the start of its day gives the same answer |
| `StoreRows.DayOf` | Server/src/lib/routes.ts:69-77 | `findUnique` by date: returns a Day holding that date, and nothing exactly when no Day has it |
| `StoreRows.DayOfUnique` | Server/src/lib/routes.ts:104-108 | with unique dates, the Day found for a Day's date is that Day |
| `StoreRows.RowsFor` | Server/src/lib/routes.ts:37-41 | one `habit_week_days` row per element of `weekDays`, in order, for the new habit |
| `StoreRows.RowsForCountsWeekDays` | Server/src/lib/routes.ts:38-40 | a weekday listed n times gets n rows (duplicates included) |
| `StoreRows.RemoveRowsOf` | Server/src/lib/routes.ts:192-196 | `deleteMany` removes every row of the habit and keeps every other habit's row exactly as many times as it was there |
| `StoreRows.CompletedOn` | Server/src/lib/routes.ts:79 | a habit id is listed as done on a Day exactly when the (Day, habit) `day_habits` row exists |
| `StoreRows.CompletedOnCountsRows` | Server/src/lib/routes.ts:236-240 | the number of habit ids done on a Day equals its number of `day_habits` rows |
| `StoreRows.Amount` | Server/src/lib/routes.ts:241-250 | the summary's `amount` is at most the number of weekday rows, and is 0 exactly when no row matches the Day's weekday with a habit created by then |
| `StoreRows.PossibleHabits` | Server/src/lib/routes.ts:56-67 | a habit is returned exactly when it exists, was created no later than the date, and has a weekday row for the weekday; each with its own row |
| `StoreRows.AmountCountsPossible` | Server/src/lib/routes.ts:241-250 | with no repeated weekday row, `amount` equals the number of habits possible on the date |
| `StoreRows.DuplicateRowCountsTwice` | Server/src/lib/routes.ts:242-249 | a habit with a repeated weekday row gives `amount` 2 while one habit is possible |
| `StoreRows.TogglePresence` | Server/src/lib/routes.ts:127-140 | the toggled row is present exactly when it was absent; every other row keeps its presence |
| `StoreRows.ToggleTwice` | Server/src/lib/routes.ts:127-140 | toggling the same row twice restores the `day_habits` table |
| `StoreRows.FlipCompleted` | Server/src/lib/routes.ts:160-167 | only the task's `completed` changes, and it changes value; other tasks and the set of ids stay |
| `StoreRows.FlipTwice` | Server/src/lib/routes.ts:160-167 | toggling a task twice restores the task table |
| `HabitStore.ValidWeekDaysInRange` | Server/src/lib/routes.ts:26 | a `weekDays` body is accepted exactly when every weekday in it is one of 0..6 |
| `HabitStore.TasksOfDay` | Server/src/lib/routes.ts:73-89 | a Day's `singleTasks`: exactly the tasks whose `day_id` is that Day, unchanged |
| `HabitStore.CompletedTaskIds` | Server/src/lib/routes.ts:80 | exactly the ids of the completed tasks, a subset of the task ids |
| `HabitStore.Store.CreateHabit` | Server/src/lib/routes.ts:23-44 | a weekday outside 0..6 is rejected with the store unchanged; otherwise one fresh habit is added, created at the start of today, with one weekday row per element; other tables are unchanged |
| `HabitStore.Store.DayDetail` | Server/src/lib/routes.ts:46-93 | possible habits are those created on or before the start of the date and scheduled on its weekday; the done habits and tasks are the rows of the Day at that date, or none if there is no such Day; totals are \|possible\| + \|tasks\| and \|done habits\| + \|done tasks\| |
| `HabitStore.Store.ToggleHabit` | Server/src/lib/routes.ts:95-141 | today's Day is reused or created once (dates stay unique); the (today, habit) row is toggled for an existing habit, and no other row changes; for an unknown habit the request fails after the Day is created |
| `HabitStore.Store.ToggleHabitTwice` | Server/src/lib/routes.ts:102-140 | two toggle requests for one habit, made at two instants of the same day (each reads the clock), leave `day_habits` as it was |
| `HabitStore.Store.ToggleTask` | Server/src/lib/routes.ts:143-168 | an unknown id answers "Task not found" with the store unchanged; otherwise only that task's `completed` flips |
| `HabitStore.Store.DeleteHabit` | Server/src/lib/routes.ts:171-212 | all or nothing: on success the habit, its weekday rows and its `day_habits` rows are gone and other habits' rows stay; an unknown habit gives a 500 and no change |
| `HabitStore.Store.DeleteTask` | Server/src/lib/routes.ts:214-228 | an existing task is removed and nothing else changes; an unknown id fails with the store unchanged |
| `HabitStore.Store.Summary` | Server/src/lib/routes.ts:230-255 | one row per Day with its id and date, `completed` = its `day_habits` rows, and `amount` = the matching weekday rows |
| `HabitStore.Store.CreateSingleTask` | Server/src/lib/routes.ts:257-286 | the date is normalised; the Day for it is reused or created once; the new task carries that date and Day and is not completed |
| `HabitStore.Store.TasksOn` | Server/src/lib/routes.ts:288-304 | exactly the tasks dated the start of the given day |
| `HabitStore.PossibleIffScheduledAndCreated` | Server/src/lib/routes.ts:53-67 | a habit is possible exactly when it exists, its `created_at` is at or before the raw date, and it has a weekday row for the date's weekday |
| `HabitStore.DeletedHabitNeverListed` | Server/src/lib/routes.ts:183-204 | after a habit is deleted, no day-detail reply lists it as possible or as done |
| `HabitStore.DayTasksAreTasksOnDate` | Server/src/lib/routes.ts:265-303 | the tasks `GET /day` finds through the Day are exactly those `GET /single-task` finds by date |
| `HabitStore.SummaryAgreesWithDayDetail` | Server/src/lib/routes.ts:231-252 | a Day's summary `completed` equals the day detail's done-habit count; with no repeated weekday row, `amount` equals the possible-habit count, which is the day's total minus its tasks |
| `ClientLists.CompletedCount` | Web/src/components/HabitsList.tsx:63 | the number of completed tasks: 0 exactly when none is completed, the length exactly when all are |
| `ClientLists.Without` | Web/src/components/HabitsList.tsx:52 | every occurrence of the id is removed and all other ids keep their counts |
| `ClientLists.ToggleId` | Web/src/components/HabitsList.tsx:46-56 | a present id loses every occurrence while every other id keeps its count; an absent id is appended at the end after the ids in their order |
| `ClientLists.ToggleIdTwice` | Web/src/components/HabitsList.tsx:50-56 | toggling an id twice restores which ids are in the list (not their order) |
| `ClientLists.TasksWithout` | Web/src/components/HabitsList.tsx:104 | keeps exactly the tasks with another id, each as many times as it was there |
| `ClientLists.HabitsWithout` | Web/src/components/HabitsList.tsx:74 | keeps exactly the habits with another id, each as many times as it was there |
| `ClientLists.CompletedOtherThan` | Web/src/components/HabitsList.tsx:107 | the completed tasks with another id: at most all completed tasks, and none when every completed task has that id |
| `ClientLists.CompletedOtherThanIsCountAfterRemoval` | Web/src/components/HabitsList.tsx:107 | counting completed tasks other than the deleted one equals counting completed tasks after removing it |
| `ClientLists.FlipTask` | Web/src/components/HabitsList.tsx:87-89 | same length, ids and titles; `completed` flips exactly on the tasks with the id |
| `ClientLists.FlipTaskTwice` | Web/src/components/HabitsList.tsx:87-89 | flipping the same task twice restores the list |
| `ClientLists.FlipTaskKeepsIds` | Mobile/src/screens/Habit.tsx:94-96 | a task toggle keeps the task ids and their order |
| `WebHabitsList.DeleteHabitReport` | Web/src/components/HabitsList.tsx:78 | as written: the completed items shown before the delete, minus 1, whatever the habit's state |
| `WebHabitsList.DeleteTaskReport` | Web/src/components/HabitsList.tsx:107 | as written: between -1 and one below the completed items shown before the delete |
| `WebHabitsList.AfterDeleteHabit` | Web/src/components/HabitsList.tsx:72-76 | the habit leaves the possible list and the done ids; other habits and ids keep their multiplicity; tasks stay |
| `WebHabitsList.AfterDeleteTask` | Web/src/components/HabitsList.tsx:102-105 | the task leaves the list; other tasks keep their multiplicity; both habit lists stay |
| `WebHabitsList.DeleteHabitReportOffByOne` | Web/src/components/HabitsList.tsx:78 | the reported count is the completed items shown afterwards plus the habit's occurrences minus 1, so it is one too low for a habit not marked done |
| `WebHabitsList.DeleteTaskReportOneLow` | Web/src/components/HabitsList.tsx:107 | the reported count is always one below the completed items shown afterwards |
| `WebHabitsList.CorrectedDeleteHabitReport` | Web/src/components/HabitsList.tsx:78 | subtracting 1 only for a habit marked done gives the completed items shown afterwards |
| `WebHabitsList.CorrectedDeleteTaskReport` | Web/src/components/HabitsList.tsx:107 | without the extra subtraction the report is the completed items shown afterwards |
| `WebHabitsList.HabitsList.ToggleHabit` | Web/src/components/HabitsList.tsx:43-64 | after a successful request the id is toggled in `completedHabits`, with the other lists kept, and the report equals the completed items shown; a failed request changes nothing |
| `WebHabitsList.HabitsList.DeleteHabit` | Web/src/components/HabitsList.tsx:66-82 | after a successful request the habit leaves both habit lists and the as-written count is reported; a failed request changes nothing |
| `WebHabitsList.HabitsList.ToggleTask` | Web/src/components/HabitsList.tsx:84-97 | after a successful request only the matching tasks flip and the report equals the completed items shown |
| `WebHabitsList.HabitsList.DeleteTask` | Web/src/components/HabitsList.tsx:99-108 | after a successful request the task is removed and the as-written count is reported |
| `MobileHabit.AfterToggleHabit` | Mobile/src/screens/Habit.tsx:71-82 | the id is toggled in `completedHabits`; the counter goes down 1 on removal and up 1 on addition; the other fields are kept |
| `MobileHabit.AfterToggleTask` | Mobile/src/screens/Habit.tsx:94-105 | only the matching tasks flip and the counter equals completed habits plus completed tasks; the other fields are kept |
| `MobileHabit.ToggleHabitKeepsCounter` | Mobile/src/screens/Habit.tsx:76-82 | the ±1 update keeps `totalCompletedItems` = \|completedHabits\| + completed tasks when the id occurs at most once |
| `MobileHabit.ToggleHabitRepeatedIdBreaksCounter` | Mobile/src/screens/Habit.tsx:72-81 | with the id listed twice, the ±1 update leaves the counter out of step |
| `MobileHabit.ToggleTaskKeepsTaskIds` | Mobile/src/screens/Habit.tsx:101-105 | a task toggle leaves the task ids unchanged |
| `MobileHabit.HabitScreen.Progress` | Mobile/src/screens/Habit.tsx:47-49 | progress is 0 with no reply held, otherwise the percentage of the held totals |
| `MobileHabit.HabitScreen.Fetch` | Mobile/src/screens/Habit.tsx:51-65 | a reply replaces the held state; a failed request keeps it |
| `MobileHabit.HabitScreen.ToggleHabit` | Mobile/src/screens/Habit.tsx:67-88 | with a reply held and the request successful, the state becomes `AfterToggleHabit` and an agreeing counter stays in step; otherwise nothing changes |
| `MobileHabit.HabitScreen.ToggleTask` | Mobile/src/screens/Habit.tsx:90-111 | with a reply held and the request successful, the state becomes `AfterToggleTask` and the counter agrees; otherwise nothing changes |
| `CalendarGrid.CellFor` | Web/src/components/SummaryTable.tsx:51-60 | a date cell for the date; no numbers exactly when no summary row is on that day; otherwise the `amount` and `completed` of the first row on that day, as `find` returns |
| `CalendarGrid.FirstOnSameDay` | Mobile/src/screens/Home.tsx:92-95 | `find`: the first row on the same day as the date, and nothing exactly when no row is on that day |
| `CalendarGrid.DateCells` | Mobile/src/screens/Home.tsx:91-106 | one cell per date, holding the numbers of the row found for it |
| `CalendarGrid.Fillers` | Mobile/src/screens/Home.tsx:110-118 | max(0, n) padding cells |
| `CalendarGrid.CellShowsItsDay` | Web/src/components/SummaryTable.tsx:51-60 | against the server's summary, a date's cell shows the numbers of the Day holding the start of that date, and none if there is no such Day |
| `MobileHome.ReorderWeekDays` | Mobile/src/screens/Home.tsx:26-29 | seven labels; a start past the end leaves them as declared |
| `MobileHome.ReorderWeekDaysIsPermutation` | Mobile/src/screens/Home.tsx:27 | whatever the start, the header holds the same seven initials (a permutation of them) |
| `MobileHome.ReorderWeekDaysAt` | Mobile/src/screens/Home.tsx:27 | for a start k in 0..6, column i shows weekday (i + k) mod 7 |
| `MobileHome.ReorderWeekDaysFromSunday` | Mobile/src/screens/Home.tsx:27 | starting at 0 gives the header as declared |
| `MobileHome.Grid` | Mobile/src/screens/Home.tsx:87-121 | no cells while the summary is null; otherwise max(90, \|dates\|) cells, the date cells first, then padding |
| `WebSummaryTable.Grid` | Web/src/components/SummaryTable.tsx:49-73 | while the summary is empty, only max(0, 364 − \|dates\|) padding cells; otherwise max(364, \|dates\|) cells, the date cells first |
| `WebSummaryTable.HeaderIsMobileHeaderFromMonday` | Web/src/components/SummaryTable.tsx:14 | the seven fixed labels are the mobile header rotated to start on Monday |

## Findings

| source | as written | input that shows it | evidently intended | confidence | as-written member | corrected member |
|---|---|---|---|---|---|---|
| Web/src/components/HabitsList.tsx:78 | after deleting a habit, reports `completedHabits.length - 1 +` completed tasks | two habits marked done, no task done; delete a third habit that is not marked done: reports 1, the list then shows 2 | report the completed items the list shows after the delete | medium (not executed) | `WebHabitsList.DeleteHabitReportOffByOne` | `WebHabitsList.CorrectedDeleteHabitReport` |
| Web/src/components/HabitsList.tsx:107 | after deleting a task, counts the other completed tasks and then subtracts 1 as well | one habit marked done, no task done; delete an open task: reports 0, the list then shows 1 | report the completed items the list shows after the delete | high (not executed) | `WebHabitsList.DeleteTaskReportOneLow` | `WebHabitsList.CorrectedDeleteTaskReport` |

`WebHabitsList.HabitsList.DeleteHabit` and `DeleteTask` still report the
as-written count, because they model what the component does. The corrected
functions state the count the parent should receive.

## Left out

- Fastify, Prisma, zod and the database engine are not modelled. Validation
  failures other than an out-of-range weekday are not modelled. These are
  uuid format checks, non-string titles and unparsable dates, all rejected
  before the store is touched. Ids are naturals.
- Weekday values that are not integers (`z.number()` admits 2.5) are not
  modelled; `weekDays` is a sequence of integers.
- The schema file is not part of this model. Its foreign keys are assumed,
  as `Valid()` states. A `day_habits` create that would break one fails
  with a 500. No uniqueness is assumed on `habit_week_days`, so a repeated
  weekday gives a repeated row. A new task's `completed` is taken to be
  false by default.
- Time zones are not modelled. `GET /summary` computes the weekday with
  SQLite's `strftime('%w', …, 'unixepoch')`, which is UTC. `GET /day` uses
  dayjs's local `.day()`. The model uses one weekday function for both. The
  "+3 hour" adjustments in the clients and the `isDateInPast` checks, which
  read the wall clock, are left out too.
- The raw SQL's `cast(count(*) as float)` is modelled as a natural count.
- `HabitStore.Store.DeleteHabit`: concurrency and transaction isolation are
  not modelled. The transaction is atomic: it either succeeds completely
  or changes nothing.
- `HabitStore.Store.ToggleHabit` and `HabitStore.Store.CreateSingleTask`:
  server handlers are modelled one at a time. In the source, finding or
  creating the Day (Server/src/lib/routes.ts:104-116, 267-275) and the
  toggle's find-then-create-or-delete of the `day_habits` row
  (Server/src/lib/routes.ts:118-140) are separate queries outside any
  transaction. Two overlapping first requests of a day can both find no
  Day; the second `day.create` then breaks the unique `date` index and
  answers 500. Likewise two overlapping toggles of one habit can both find
  no row, and the second create breaks the (day, habit) key. These races
  and their 500 replies are not captured. Under overlap, one Day per date
  rests on the unique `date` index, not on the handlers.
- `WebHabitsList.HabitsList.ToggleHabit`, `WebHabitsList.HabitsList.DeleteHabit`,
  `WebHabitsList.HabitsList.ToggleTask`, `WebHabitsList.HabitsList.DeleteTask`,
  `MobileHabit.HabitScreen.ToggleHabit` and `MobileHabit.HabitScreen.ToggleTask`
  run one at a time and rebuild the state held when the request resolves.
  In the source each handler rebuilds from the `habitsInfo`/`dayInfo`
  captured at render time (Web/src/components/HabitsList.tsx:46-107,
  Mobile/src/screens/Habit.tsx:70-105). So when two requests overlap, the
  second update overwrites the first one's change. That lost update is not
  captured.
- Rendering, navigation, alerts and logging are not modelled. This covers
  all JSX, `Mobile/src/components/Header.tsx` and
  `Mobile/src/routes/app.routes.tsx`.
- The `GET /` and `GET /hello` routes are not modelled (a fixed greeting and
  a title search).
- The blank-title guards of `Mobile/src/screens/NewSingleTask.tsx` and
  `Web/src/components/NewTaskForm.tsx` are not modelled; they only post and
  show alerts. `Server/prisma/seed.ts`, a one-shot reset script, is not
  modelled either.
- `generateDatesFromYearBeginning`, `generateProgressPercentage` and
  `HabitDay` are not part of this model. Their outputs are parameters: the
  list of dates, the percentage function and the cells handed to `HabitDay`.
- The Web list's `useEffect` reload when the date changes is not modelled.
  `WebHabitsList.HabitsList` starts from the loaded reply, since no handler
  can run before one is rendered. The Web `created_at` field of a possible
  habit is not modelled because no handler reads it.
