# Task Calendar: a verified model of the scheduling engine

Task Calendar is a study planner. A user schedules a task (a topic, a past-paper
question set, a test, a full revision or a general item) on a day. The backend
then creates the task's future occurrences:

- spaced repetitions 3, 6 and 15 days later for a plain task;
- a repeat every 21, 20 or 30 days, up to fifteen months ahead, for the other types;
- a user-chosen interval for a general item.

The frontend draws the tasks on a month calendar and lists today's tasks by
subject. Tasks that were missed collect in a buffer, where they can be ticked off,
rescheduled or, once old enough, deleted. A form schedules several tasks at once,
and two pages handle login and signup.

This Dafny project models that engine file by file, in each file's own form.

**Backend.**
- The repeating-date generator (`Schedule`) is a loop proved against a closed-form
  definition.
- The fixed revision offsets are in `RevisionDates`, and the task record with its
  schema defaults is in `TaskModel`.
- The occurrence policy and group construction are in `Occurrences`.
- The store queries are in `TaskQueries` (filter, delete, find, sort), and the two
  reports are in `TaskReports`.
- Every request handler of the task controller is a method of the class
  `TaskController.TaskStore`. The class holds the stored records and the next id.
  Each method states the store's whole new state and keeps the store's invariant:
  ids increase along the store and stay below the next id.

**Frontend.**
- The calendar (`DateKeys`, `CalendarView`): the per-day bucketing loop, the month
  grid, month navigation, card borders and indicator circles.
- The today panel (`TodayPanel`): grouping by subject, the completion toggles, the
  selection of status updates, the buffer age gate and the reschedule request.
- The scheduling form (`ScheduleFormModel`), a class whose entry list the handlers
  update.
- The login and signup submit handlers (`AuthNotice`, `LoginForm`, `SignupForm`),
  built on the JavaScript string facts they rely on (`JsText`).

**Modelling conventions.**
- Dates are day ordinals, and instants are milliseconds. `setHours(0, 0, 0, 0)` is
  `DayOf`, which takes the server clock to be in UTC.
- The current time and the fifteen-month horizon (`addMonths(base, 15)`) are
  parameters.
- Each request's parameters, body and outcome are parameters, and so is every
  network reply the frontend receives.

**Scope of the handlers.**
- Lookups by id are not scoped by user. `updateTaskStatus`, `rescheduleTask` and the
  lookups of `rescheduleAllOccurrences`, `deleteBufferTask` and
  `updateTaskTypeAndRepetition` find any user's task, so `UpdateTaskStatus`,
  `RescheduleTask` and `DeleteBufferTask` take no user. The list queries and the bulk
  deletes are scoped by the caller.
- The retype handler reports only the number of new children, without the base, and
  links them to the existing base.

## Model

| member | source | states |
|---|---|---|
| Schedule.GenerateRepeatedDates | Backend/utils/schedule.util.js:7-29 | the loop's output is exactly the closed-form list: entry k is on base + (k+1)·interval with step k+1, for as many steps as stay on or before the limit; a positive interval is required because the loop does not stop otherwise |
| Schedule.StepCountBounds | Backend/utils/schedule.util.js:14-18 | the last counted candidate is on or before the limit and the next one is past it |
| Schedule.RepeatedDatesEntry | Backend/utils/schedule.util.js:9-25 | entry k has step k+1 and date base + (k+1)·interval; the first is one interval after the base and each later one is the previous plus the interval |
| Schedule.RepeatedDatesWithinLimit | Backend/utils/schedule.util.js:12-18 | every produced date is on or before the limit |
| Schedule.RepeatedDatesMaximal | Backend/utils/schedule.util.js:14-18 | the candidate after the last produced one is past the limit |
| Schedule.RepeatedDatesEmpty | Backend/utils/schedule.util.js:18 | the list is empty exactly when base + interval is already past the limit |
| Schedule.RepeatedDatesIncreasing | Backend/utils/schedule.util.js:16 | dates strictly increase and all lie after the base |
| RevisionDates.RevisionDate | Backend/utils/revisionDates.js:1-9 | steps 1, 2 and 3 move the date 3, 6 and 15 days; any other step leaves the base date, and no step moves it more than 15 days |
| RevisionDates.RevisionDatesIncreasing | Backend/utils/revisionDates.js:1-9 | offsets are taken from the original base, not chained, so steps 1 to 3 strictly increase and step 3 is 15 days out |
| TaskModel.CreateRecord | Backend/models/task.model.js:3-55 | validation succeeds iff subject, title, assigned date and type are present; the record carries the given fields, status defaults to pending, the revision step to 0 and the parent to none |
| Occurrences.PolicyOf | Backend/controllers/task.controller.js:32-109 | `task` gets the fixed steps; pyq, fullrevision and test get a positive interval; a general task repeats iff its interval is positive |
| Occurrences.PlanOccurrences | Backend/controllers/task.controller.js:31-109 | the type switch yields the offsets 3, 6 and 15 with steps 1 to 3 for `task`, the generator output at 21, 20 or 30 days, the general interval when it is positive, and nothing otherwise |
| Occurrences.FixedStepsMatchRevisionDate | Backend/controllers/task.controller.js:34-49 | the inline offsets of a `task` agree with getRevisionDate: step k falls on RevisionDate(start, k) |
| Occurrences.MaterializeLinks | Backend/controllers/task.controller.js:36-108 | every generated record is pending, belongs to the caller, carries the seed's type, takes its date and step from its occurrence, points to the parent and gets consecutive ids |
| Occurrences.CreatedGroupWellFormed | Backend/controllers/task.controller.js:19-109 | a created group is well formed: the base has step 0 and no parent, child k points to the base with step k+1, and child dates strictly increase after the base date |
| Occurrences.NewGroup | Backend/controllers/task.controller.js:19-114 | a group is the base followed by one child per planned occurrence, with consecutive ids from the base id, and is well formed |
| TaskQueries.SelectSpec | Backend/controllers/task.controller.js:145-151 | `find` returns exactly the matching records, each as often as it is stored |
| TaskQueries.RemoveSpec | Backend/controllers/task.controller.js:328-334 | `deleteMany` keeps exactly the records that do not match |
| TaskQueries.SelectRemovePartition | Backend/controllers/task.controller.js:328-334 | every stored record is either selected or kept by a delete with the same filter, never both and never lost |
| TaskQueries.SelectAppend | Backend/controllers/task.controller.js:145-151 | selection distributes over appended records |
| TaskQueries.RemoveAppend | Backend/controllers/task.controller.js:505-509 | deletion distributes over appended records |
| TaskQueries.RemoveKeepsOrder | Backend/controllers/task.controller.js:505-509 | a delete keeps the survivors in order, so ids still increase |
| TaskQueries.TailIds | Backend/controllers/task.controller.js:328-334 | the tail of a store with increasing ids has increasing ids, all above the head's |
| TaskQueries.ConsIds | Backend/controllers/task.controller.js:328-334 | a record below every id of an increasing store keeps it increasing when put in front |
| TaskQueries.Find | Backend/controllers/task.controller.js:312 | `findById` finds a position holding that id, and finds nothing iff no record has the id |
| TaskQueries.Insert | Backend/controllers/task.controller.js:152 | inserting into a sorted list keeps it sorted and adds exactly the one record |
| TaskQueries.InsertAfterHead | Backend/controllers/task.controller.js:152 | a record going after the head gives a sorted list that holds the old list plus that record |
| TaskQueries.ConsSorted | Backend/controllers/task.controller.js:152 | a head whose key is no larger than any key of a sorted list keeps it sorted |
| TaskQueries.SortedHead | Backend/controllers/task.controller.js:195 | the tail of a sorted list is sorted, and no key in it is below the head's |
| TaskQueries.Sort | Backend/controllers/task.controller.js:152 | the store's sort returns a permutation of its input, ordered by the requested key |
| TaskReports.CountMatchingIsSelectSize | Backend/controllers/task.controller.js:633-636 | `countDocuments` counts exactly the records `find` would return |
| TaskReports.CappedAppend | Backend/controllers/task.controller.js:643-664 | pushing only while a list is below its cap gives the first cap entries of the uncapped list |
| TaskReports.DaysPrefix | Backend/controllers/task.controller.js:626-668 | scanning further never changes the days found so far |
| TaskReports.CappedStable | Backend/controllers/task.controller.js:667 | once a capped list is full, scanning further leaves it as it is, so stopping early loses nothing |
| TaskReports.FreeDaysSound | Backend/controllers/task.controller.js:626-652 | every free day lies in the window, has no task, and free days strictly increase; every free day of the window is listed |
| TaskReports.LightDaysSound | Backend/controllers/task.controller.js:654-664 | every light day lies in the window with its true count of one or two, and light days strictly increase; every such day of the window is listed |
| TaskReports.TallyPartition | Backend/controllers/task.controller.js:700-711 | every task lands in exactly one bucket, this month holds exactly the tasks of the current month, and each bucket's total is completed + pending + missed |
| TaskController.DayOf | Backend/controllers/task.controller.js:186-187 | midnight truncation: the day's first millisecond is at or before the instant, and the next day's is after it |
| TaskController.ParentOf | Backend/controllers/task.controller.js:322 | the group base is the parent when there is one, else the task itself |
| TaskController.Today | Backend/controllers/task.controller.js:177-184 | the given day, else the current day; an unparseable date gives none |
| TaskController.DeletionAllowed | Backend/controllers/task.controller.js:431-468 | deletion is allowed iff days old ≥ threshold (default 5); a non-numeric threshold compares false and allows it |
| TaskController.DeletionAllowedMonotone | Backend/controllers/task.controller.js:463 | a task old enough to delete stays deletable as it ages |
| TaskController.AppendFreshIds | Backend/controllers/task.controller.js:113 | appending records numbered from the next id keeps ids increasing and below the advanced next id |
| TaskController.FindAfterRemove | Backend/controllers/task.controller.js:505-513 | a record that survives a delete is the record stored under its id before |
| TaskController.UpdateKeepsIds | Backend/controllers/task.controller.js:512-513 | updating a record in place without changing its id keeps the store's invariant |
| TaskController.TaskStore.constructor | Backend/models/task.model.js:57 | an empty store |
| TaskController.TaskStore.StoreGroup | Backend/controllers/task.controller.js:19-114 | appends exactly the new group (base plus the children its type calls for) with fresh ids and reports its size |
| TaskController.TaskStore.StoreChildren | Backend/controllers/task.controller.js:516-578 | appends exactly the planned children, linked to the given base with steps 1 onward and dated after the start, and reports their number |
| TaskController.TaskStore.CreateTask | Backend/controllers/task.controller.js:7-125 | fails and stores nothing iff subject, title, date or type is missing; otherwise appends exactly a well-formed group and replies with 1 + children |
| TaskController.TaskStore.GetTasksByDateRange | Backend/controllers/task.controller.js:128-164 | a missing bound is a 400; otherwise exactly the caller's tasks dated from start through end, as a permutation sorted by date; the store is unchanged |
| TaskController.TaskStore.GetTodayTasks | Backend/controllers/task.controller.js:172-205 | an invalid date is a 400; otherwise the day used and exactly the caller's tasks on it, newest created first |
| TaskController.TaskStore.GetBufferTasks | Backend/controllers/task.controller.js:209-243 | an invalid date is a 400; otherwise exactly the caller's tasks before the day that are not completed, oldest first |
| TaskController.TaskStore.UpdateTaskStatus | Backend/controllers/task.controller.js:247-272 | an unknown id is a 404 with nothing changed; otherwise only that record's status changes |
| TaskController.TaskStore.RescheduleTask | Backend/controllers/task.controller.js:275-303 | an unparseable date is a cast error; an unknown id is a 404; otherwise only that record changes, to the new date and pending |
| TaskController.TaskStore.DeleteMatching | Backend/controllers/task.controller.js:328-334 | the store keeps exactly the non-matching records, in order |
| TaskController.TaskStore.RescheduleAllOccurrences | Backend/controllers/task.controller.js:306-426 | an unknown id is a 404; otherwise the caller's group records dated today or later (base included) are deleted, then a well-formed new group is appended from the new date with 1 + children reported; past records and other users' records survive |
| TaskController.TaskStore.UpdateTaskTypeAndRepetition | Backend/controllers/task.controller.js:484-599 | an unknown id is a 404; without rescheduleAll only the task's type changes; with it, the caller's children dated after today are deleted and the task is retyped, then fresh children from the task's own date are linked to the existing base and only their count is reported |
| TaskController.TaskStore.RetypeAndRegenerate | Backend/controllers/task.controller.js:498-584 | the rescheduleAll branch: deletes first, then fails (keeping the deletion) on a missing type or a task the delete removed, else retypes and appends the new children |
| TaskController.TaskStore.DeleteBufferTask | Backend/controllers/task.controller.js:429-480 | an unknown id is a 404 and an invalid date a 400, both before any change; the task is deleted iff it is at least the threshold's days old, else a 400 with nothing changed |
| TaskController.TaskStore.GetAvailableDates | Backend/controllers/task.controller.js:618-678 | the scan with its early stop returns the first three free days and the first five light days of the 59 days after today |
| TaskController.TaskStore.GetTaskPerformance | Backend/controllers/task.controller.js:680-720 | the counter loop computes the month/status tally of the caller's tasks in the window |
| DateKeys.DigitChar | Frontend/TaskCalender/src/components/BottomCenter.jsx:54 | a decimal digit character denoting the given digit |
| DateKeys.NatText | Frontend/TaskCalender/src/components/BottomCenter.jsx:54 | the decimal text of a number is non-empty digits with no leading zero |
| DateKeys.NatTextValue | Frontend/TaskCalender/src/components/BottomCenter.jsx:54 | reading the decimal text back gives the number |
| DateKeys.NatTextInjective | Frontend/TaskCalender/src/components/BottomCenter.jsx:54 | distinct numbers have distinct texts |
| DateKeys.IntText | Frontend/TaskCalender/src/components/BottomCenter.jsx:54 | an integer's text starts with '-' iff it is negative and has no other '-' |
| DateKeys.IntTextInjective | Frontend/TaskCalender/src/components/BottomCenter.jsx:54 | distinct integers have distinct texts |
| DateKeys.SplitAtLastDash | Frontend/TaskCalender/src/components/BottomCenter.jsx:178-180 | a '-'-joined pair splits back uniquely when the right part has no '-' |
| DateKeys.LastDash | Frontend/TaskCalender/src/components/BottomCenter.jsx:178-180 | the joining '-' is the last one |
| DateKeys.DateKeyInjective | Frontend/TaskCalender/src/components/BottomCenter.jsx:178-185 | unpadded year-month-day keys are equal iff the dates are |
| DateKeys.NoDash | Frontend/TaskCalender/src/components/BottomCenter.jsx:54 | digit strings contain no '-' |
| CalendarView.FormatTasksData | Frontend/TaskCalender/src/components/BottomCenter.jsx:48-84 | the result has an entry for exactly the days that have a task, each holding that day's tasks of each bucketed type in input order |
| CalendarView.AddToDay | Frontend/TaskCalender/src/components/BottomCenter.jsx:52-80 | one pass step keeps the map a correct formatting of the tasks seen so far |
| CalendarView.PushStep | Frontend/TaskCalender/src/components/BottomCenter.jsx:56-80 | the day's entry (empty when new) extended by the task's bucket and stored back keeps the map a formatting |
| CalendarView.PushByType | Frontend/TaskCalender/src/components/BottomCenter.jsx:68-80 | the task joins exactly the bucket named by its type, at the end; any other type changes no bucket |
| CalendarView.BucketsSnoc | Frontend/TaskCalender/src/components/BottomCenter.jsx:51-81 | a new task extends only the bucket of its own day and type |
| CalendarView.BucketsSnocOther | Frontend/TaskCalender/src/components/BottomCenter.jsx:51-81 | the other days keep their buckets |
| CalendarView.DaysSnoc | Frontend/TaskCalender/src/components/BottomCenter.jsx:56-65 | a new task adds its own day to the days with tasks |
| CalendarView.NoneOnDay | Frontend/TaskCalender/src/components/BottomCenter.jsx:56-65 | a day without tasks has nothing in any bucket |
| CalendarView.EmptyDay | Frontend/TaskCalender/src/components/BottomCenter.jsx:57-64 | a day without tasks has the six empty buckets |
| CalendarView.EntryOrEmpty | Frontend/TaskCalender/src/components/BottomCenter.jsx:56-65 | a day's entry, or empty buckets for a day not yet present, holds that day's tasks |
| CalendarView.FormattingSnoc | Frontend/TaskCalender/src/components/BottomCenter.jsx:51-81 | storing the extended buckets of the task's day keeps the map a formatting |
| CalendarView.BucketsPartitionDay | Frontend/TaskCalender/src/components/BottomCenter.jsx:56-80 | a day's buckets hold exactly its tasks of bucketed types, each once; tasks of other types only create the entry |
| CalendarView.DaysInMonth | Frontend/TaskCalender/src/components/BottomCenter.jsx:90-91 | a month has 28 to 31 days and 29 exactly for February of a Gregorian leap year |
| CalendarView.Weekday | Frontend/TaskCalender/src/components/BottomCenter.jsx:92 | `getDay()` is in 0..6 |
| CalendarView.WeekdayAnchors | Frontend/TaskCalender/src/components/BottomCenter.jsx:92 | the weekday count is anchored correctly: 1970-01-01 is day 0 and a Thursday, 2000-03-01 a Wednesday, 2024-01-01 a Monday |
| CalendarView.YearLength | Frontend/TaskCalender/src/components/BottomCenter.jsx:89-92 | the day count gives a leap year 366 days and other years 365 |
| CalendarView.Divisors | Frontend/TaskCalender/src/components/BottomCenter.jsx:89-92 | a multiple of 400 is one of 100, which is one of 4 |
| CalendarView.MonthLength | Frontend/TaskCalender/src/components/BottomCenter.jsx:89-91 | the first of the next month is the month's length after the first of this one |
| CalendarView.NextMonthDayNumber | Frontend/TaskCalender/src/components/BottomCenter.jsx:104-106 | the first of the next month, across a year end too, is the month's length after this month's first |
| CalendarView.NextMonthStart | Frontend/TaskCalender/src/components/BottomCenter.jsx:86-106 | the next month's grid starts on the weekday after this month's last day |
| CalendarView.GetDaysInMonth | Frontend/TaskCalender/src/components/BottomCenter.jsx:86-102 | the grid is one blank per weekday before the first, then the days 1 to the month's length |
| CalendarView.NextMonth | Frontend/TaskCalender/src/components/BottomCenter.jsx:104-106 | the next month is one month later, December rolling over into January |
| CalendarView.PrevMonth | Frontend/TaskCalender/src/components/BottomCenter.jsx:108-110 | the previous month is one month earlier, January rolling back into December |
| CalendarView.MonthIndexInjective | Frontend/TaskCalender/src/components/BottomCenter.jsx:104-110 | a month is determined by its index |
| CalendarView.NextPrevInverse | Frontend/TaskCalender/src/components/BottomCenter.jsx:104-110 | forward then back, or back then forward, returns to the same month |
| CalendarView.IsTodayIff | Frontend/TaskCalender/src/components/BottomCenter.jsx:178-190 | the key comparison holds iff the cell's year, month and day are today's |
| CalendarView.TodayPastExclusive | Frontend/TaskCalender/src/components/BottomCenter.jsx:187-217 | a cell is never both today and past, and a non-blank cell is today, past or later |
| CalendarView.CardBorder | Frontend/TaskCalender/src/components/BottomCenter.jsx:192-210 | each colour iff its case: blank, then today, then past, then no data, then tests, then pyqs, then tasks, else the default accent |
| CalendarView.TestDayBorder | Frontend/TaskCalender/src/components/BottomCenter.jsx:204-205 | on the calendar's own data, a future day with a test gets the test colour whatever else is due |
| CalendarView.OfKindContains | Frontend/TaskCalender/src/components/BottomCenter.jsx:68-80 | a task is in the bucket of its day and type |
| CalendarView.GetIndicatorCircles | Frontend/TaskCalender/src/components/BottomCenter.jsx:229-291 | no circles for a day without data; otherwise the non-empty candidates in the fixed order |
| CalendarView.PushIfAny | Frontend/TaskCalender/src/components/BottomCenter.jsx:236-288 | a circle is pushed exactly when its count is positive |
| CalendarView.CirclesSound | Frontend/TaskCalender/src/components/BottomCenter.jsx:229-291 | every circle is a candidate with a positive count |
| CalendarView.CirclesCount | Frontend/TaskCalender/src/components/BottomCenter.jsx:229-291 | there is one circle per non-empty bucket |
| CalendarView.CirclesFirst | Frontend/TaskCalender/src/components/BottomCenter.jsx:236-242 | a day with tasks shows the tasks circle first, counting them, green iff all of them are completed |
| CalendarView.CountOfSix | Frontend/TaskCalender/src/components/BottomCenter.jsx:229-291 | the non-empty count of six candidates is the sum of their six indicators |
| CalendarView.PushNonEmptySound | Frontend/TaskCalender/src/components/BottomCenter.jsx:229-291 | each pushed circle was already there or is a non-empty candidate |
| CalendarView.PushNonEmptyCount | Frontend/TaskCalender/src/components/BottomCenter.jsx:229-291 | the pushes add one circle per non-empty candidate |
| CalendarView.PushNonEmptyExtends | Frontend/TaskCalender/src/components/BottomCenter.jsx:229-291 | pushes only append: earlier circles stay in front |
| TodayPanel.FindGroup | Frontend/TaskCalender/src/components/BottomLeft.jsx:53 | finds a group of the subject, and finds none iff no group has it |
| TodayPanel.SubjectsDistinct | Frontend/TaskCalender/src/components/BottomLeft.jsx:53-55 | no subject gets two groups |
| TodayPanel.SubjectsComplete | Frontend/TaskCalender/src/components/BottomLeft.jsx:53-55 | a subject has a group iff some task has that subject |
| TodayPanel.NoItemsFor | Frontend/TaskCalender/src/components/BottomLeft.jsx:53-59 | a subject without tasks has no items |
| TodayPanel.GroupingSnocExisting | Frontend/TaskCalender/src/components/BottomLeft.jsx:56-59 | pushing a task onto its subject's existing group keeps the grouping correct |
| TodayPanel.GroupingSnocNew | Frontend/TaskCalender/src/components/BottomLeft.jsx:53-59 | creating the group of a new subject keeps the grouping correct |
| TodayPanel.HasKindSnoc | Frontend/TaskCalender/src/components/BottomLeft.jsx:49-50 | a type occurs after a task iff it occurred before or is that task's |
| TodayPanel.GroupTodayTasks | Frontend/TaskCalender/src/components/BottomLeft.jsx:37-68 | fails (the panel keeps its previous view) iff some subject names an inherited `Object.prototype` property such as "constructor" or "toString", since the push then throws and the catch skips every setter; otherwise one group per subject in order of first appearance, holding that subject's tasks in input order checked iff completed, with hasTest and hasPYQ iff some task has that type |
| TodayPanel.AddToGroup | Frontend/TaskCalender/src/components/BottomLeft.jsx:53-59 | one step of the loop (create the subject's group when missing, then push the marked task) keeps the grouping correct for the tasks seen so far |
| TodayPanel.EachTaskInOneGroup | Frontend/TaskCalender/src/components/BottomLeft.jsx:43-60 | each fetched task sits in the group of its subject, subjects are distinct, and a group holds only its subject's tasks |
| TodayPanel.ItemsForContains | Frontend/TaskCalender/src/components/BottomLeft.jsx:56-59 | each task appears, checked from its status, among its subject's items |
| TodayPanel.ItemsForSound | Frontend/TaskCalender/src/components/BottomLeft.jsx:56-59 | a subject's items are its tasks, each checked iff completed |
| TodayPanel.ToggleIn | Frontend/TaskCalender/src/components/BottomLeft.jsx:101-117 | only the entries with the id flip their checkbox, and the rest stay |
| TodayPanel.ToggleTwice | Frontend/TaskCalender/src/components/BottomLeft.jsx:104-106 | toggling the same id twice restores the list |
| TodayPanel.ToggleTaskComplete | Frontend/TaskCalender/src/components/BottomLeft.jsx:101-108 | the toggle applies within the subject's group only; without such a group the handler fails |
| TodayPanel.ToggleTaskCompleteTwice | Frontend/TaskCalender/src/components/BottomLeft.jsx:101-108 | toggling the same task twice restores the panel |
| TodayPanel.FindGroupStable | Frontend/TaskCalender/src/components/BottomLeft.jsx:101-108 | replacing a group by one of the same subject keeps the lookup in place |
| TodayPanel.ToggleBufferTaskComplete | Frontend/TaskCalender/src/components/BottomLeft.jsx:111-117 | only the buffer entries with the id flip their checkbox, the rest and the length stay, and toggling again restores the list |
| TodayPanel.MarkAll | Frontend/TaskCalender/src/components/BottomLeft.jsx:78-83 | the buffer list is the fetched tasks in order, each checked iff completed |
| TodayPanel.MarkAsComplete | Frontend/TaskCalender/src/components/BottomLeft.jsx:161-199 | the loops send updates for the selected ids, group by group and then the buffer |
| TodayPanel.SelectedIff | Frontend/TaskCalender/src/components/BottomLeft.jsx:179-187 | an id is selected iff an item with it is checked and not yet completed |
| TodayPanel.SelectedInGroupsIff | Frontend/TaskCalender/src/components/BottomLeft.jsx:166-176 | the same, over all groups |
| TodayPanel.ToUpdateIff | Frontend/TaskCalender/src/components/BottomLeft.jsx:166-187 | an update goes out for an id iff a checked item in either list carries it and its status is not "completed" |
| TodayPanel.FreshListsSelectNothing | Frontend/TaskCalender/src/components/BottomLeft.jsx:166-187 | freshly fetched lists select nothing, so only toggles create updates |
| TodayPanel.NoneSelected | Frontend/TaskCalender/src/components/BottomLeft.jsx:179-187 | a list with no item needing an update selects nothing |
| TodayPanel.NoGroupSelects | Frontend/TaskCalender/src/components/BottomLeft.jsx:166-176 | groups with no item needing an update select nothing |
| TodayPanel.EffectiveToday | Frontend/TaskCalender/src/components/BottomLeft.jsx:28-32 | the test date when set, else today |
| TodayPanel.DeleteBufferTask | Frontend/TaskCalender/src/components/BottomLeft.jsx:202-236 | refused iff days old < threshold 1 (the delete button shows otherwise), cancelled iff not confirmed, else a delete carrying the threshold and the test date |
| TodayPanel.ClientGateMatchesServer | Frontend/TaskCalender/src/components/BottomLeft.jsx:202-222 | with the same today, a delete the client sends passes the server's age gate, and the client refuses exactly what the server would |
| TodayPanel.ConfirmReschedule | Frontend/TaskCalender/src/components/BottomLeft.jsx:127-141 | nothing without a date; otherwise the reschedule-all request iff the box is ticked (repeat 7 iff general), else the single request with only the date |
| ScheduleFormModel.DefaultEntry | Frontend/TaskCalender/src/components/BottomRight.jsx:63-75 | the blank entry: empty fields, type "task", repeat 0, id the creation time |
| ScheduleFormModel.Apply | Frontend/TaskCalender/src/components/BottomRight.jsx:59 | only the named field changes |
| ScheduleFormModel.WithoutMembers | Frontend/TaskCalender/src/components/BottomRight.jsx:79 | the filter keeps exactly the entries with other ids |
| ScheduleFormModel.WithoutDistinct | Frontend/TaskCalender/src/components/BottomRight.jsx:79 | the filter keeps ids distinct |
| ScheduleFormModel.WithoutLength | Frontend/TaskCalender/src/components/BottomRight.jsx:77-81 | with distinct ids the filter drops at most one entry, so the list never becomes empty |
| ScheduleFormModel.WithoutAbsent | Frontend/TaskCalender/src/components/BottomRight.jsx:79 | filtering an id nobody has changes nothing |
| ScheduleFormModel.ValidEntriesSpec | Frontend/TaskCalender/src/components/BottomRight.jsx:104-106 | an entry is sent iff its trimmed title and text and its date are non-empty |
| ScheduleFormModel.PayloadOf | Frontend/TaskCalender/src/components/BottomRight.jsx:117-127 | the payload carries the entry's fields under the subject, with the repeat interval iff the entry is general and repeats |
| ScheduleFormModel.Payloads | Frontend/TaskCalender/src/components/BottomRight.jsx:116-131 | one payload per entry, in order |
| ScheduleFormModel.ScheduleForm.constructor | Frontend/TaskCalender/src/components/BottomRight.jsx:9-40 | the form starts with one blank entry, no subject and the picker closed |
| ScheduleFormModel.ScheduleForm.UpdateTask | Frontend/TaskCalender/src/components/BottomRight.jsx:57-61 | entries with the id get the field; the others, the order and the ids are unchanged |
| ScheduleFormModel.ScheduleForm.AddTask | Frontend/TaskCalender/src/components/BottomRight.jsx:63-75 | exactly one blank entry is appended |
| ScheduleFormModel.ScheduleForm.RemoveTask | Frontend/TaskCalender/src/components/BottomRight.jsx:77-81 | with more than one entry, exactly the entries with the id are dropped, else nothing changes; with distinct ids the list never becomes empty |
| ScheduleFormModel.ScheduleForm.OpenCalendar | Frontend/TaskCalender/src/components/BottomRight.jsx:83-87 | the picker opens for the entry with no date chosen |
| ScheduleFormModel.ScheduleForm.ConfirmCalendarDate | Frontend/TaskCalender/src/components/BottomRight.jsx:89-95 | nothing happens without a date or entry; otherwise only that entry's date changes and the picker closes |
| ScheduleFormModel.ScheduleForm.HandleSchedule | Frontend/TaskCalender/src/components/BottomRight.jsx:98-153 | rejects without a subject or a complete entry; otherwise posts the complete entries' payloads in order, resets the form on success and keeps it after a failure |
| ScheduleFormModel.PostEntries | Frontend/TaskCalender/src/components/BottomRight.jsx:115-131 | the request loop sends the payloads in order and stops after the first failing one |
| ScheduleFormModel.PayloadsSnoc | Frontend/TaskCalender/src/components/BottomRight.jsx:116-130 | one more entry adds its payload at the end |
| ScheduleFormModel.SentAreComplete | Frontend/TaskCalender/src/components/BottomRight.jsx:104-131 | every request is the payload of a complete entry under the form's subject |
| JsText.FirstNonSpace | Frontend/TaskCalender/src/components/BottomRight.jsx:105 | the first non-whitespace position, with only whitespace before it |
| JsText.EndOfText | Frontend/TaskCalender/src/components/BottomRight.jsx:105 | the end of the last non-whitespace character, with only whitespace after it |
| JsText.Trim | Frontend/TaskCalender/src/components/BottomRight.jsx:105 | `trim` returns the slice between leading and trailing whitespace, and the result starts and ends with non-whitespace |
| JsText.TrimEmptyIffBlank | Frontend/TaskCalender/src/components/BottomRight.jsx:105 | `s.trim()` is empty iff `s` is all whitespace |
| JsText.Utf16Length | Frontend/TaskCalender/src/pages/auth/Signup.jsx:89 | `length` counts UTF-16 units, between one and two per character |
| JsText.IndexOf | Frontend/TaskCalender/src/pages/auth/Login.jsx:81 | the first position of the character, and none iff it does not occur |
| JsText.IsValidEmail | Frontend/TaskCalender/src/pages/auth/Login.jsx:81-82 | the check holds iff the string matches `^[^\s@]+@[^\s@]+\.[^\s@]+$` |
| JsText.EmailPatternAt | Frontend/TaskCalender/src/pages/auth/Login.jsx:81-82 | the pattern holds iff the local part before the first '@' and the rest after it qualify |
| JsText.EmailPatternForward | Frontend/TaskCalender/src/pages/auth/Login.jsx:81-82 | any match puts its '@' at the first '@' |
| JsText.EmailPatternBackward | Frontend/TaskCalender/src/pages/auth/Login.jsx:81-82 | a '.' strictly inside the part after the '@' gives a match |
| LoginForm.ValidateLogin | Frontend/TaskCalender/src/pages/auth/Login.jsx:75-85 | a request is made iff both fields are filled and the email matches; otherwise the first failing check's message |
| LoginForm.LoginErrorMessage | Frontend/TaskCalender/src/pages/auth/Login.jsx:101-122 | the server's message unless it is absent or "Unauthorized"; else the text for 401, 403 or 404, else the default; without a response, the error's message or the default |
| LoginForm.LoginErrorMessageShown | Frontend/TaskCalender/src/pages/auth/Login.jsx:101-122 | the failure message is never blank, and a server reply never shows "Unauthorized" |
| LoginForm.LoginSubmit | Frontend/TaskCalender/src/pages/auth/Login.jsx:73-127 | a request iff validation passes; submitting ends false on success and on failure; success and error notices as the handler shows them |
| LoginForm.LoginNoticeNeverBlank | Frontend/TaskCalender/src/pages/auth/Login.jsx:73-127 | every submission shows a non-blank message |
| LoginForm.RequestedEmailsMatch | Frontend/TaskCalender/src/pages/auth/Login.jsx:81-90 | a login is only requested for an email with exactly one '@', not first |
| SignupForm.ValidateSignup | Frontend/TaskCalender/src/pages/auth/Signup.jsx:73-92 | checks in order (required fields, email, six-unit password); accepted iff all pass, else only the first failure's message |
| SignupForm.SignupErrorMessage | Frontend/TaskCalender/src/pages/auth/Signup.jsx:112-125 | the server's message when present; else the text for 409 or 400, else the default; without a response, the error's message or the default |
| SignupForm.SignupSubmit | Frontend/TaskCalender/src/pages/auth/Signup.jsx:72-130 | a request iff validation passes; success shows the reply's message or the default and leaves submitting set; failure shows the mapped message and clears it |
| SignupForm.SignupNoticeNeverBlank | Frontend/TaskCalender/src/pages/auth/Signup.jsx:72-130 | every submission shows a non-blank message |
| SignupForm.SignupAcceptedLoginAccepted | Frontend/TaskCalender/src/pages/auth/Signup.jsx:76-92 | what passes the signup checks passes the login checks |
| SignupForm.PasswordBoundary | Frontend/TaskCalender/src/pages/auth/Signup.jsx:89-92 | with the other fields fine, a password is accepted iff it has at least six UTF-16 units |

## Left out

- Calendar arithmetic: `addMonths` month overflow, time of day, daylight saving and time zones. The fifteen-month limit is a `horizon` parameter, and instants become days by UTC truncation (`DayOf`).
- JavaScript `Date` normalisation of out-of-range fields, and the years 0 to 99, which the `Date` constructor maps to 1900 to 1999. The frontend works on calendar dates that are already normalised.
- Locale display labels (`toLocaleDateString`, the `display` field of available dates) and all rendering, styling and animation.
- String-typed `repeatEveryDays` coming from JSON: it is an integer here, and `repeatEveryDays > 0` is integer comparison.
- Type and status strings outside the enumerations: `Status` and `TaskType` hold only the enumerated values; an absent type is modelled (creation then fails), an unknown type string is not. Creation and the retype's `save()` validate against the enumerations, but the status update writes through `findByIdAndUpdate` without validators and so does not.
- TaskController.TaskStore.UpdateTaskStatus: the source stores any status string the request carries, including one outside pending, completed and missed; the model cannot represent such a record.
- TaskReports.TallyPartition: `total == completed + pending + missed` holds for the enumerated statuses only; in the source, a task whose status was set outside the enumeration counts in `total` and in no status counter, so the performance total then exceeds the sum of the status counts.
- `Number(bufferThreshold)` of fractional text: the threshold is an integer or not numeric.
- Network, authentication and the database engine: requests, tokens and Mongoose are replaced by the in-memory store and by parameters carrying replies. Each query is filter-then-sort.
- Concurrency and atomicity: each handler runs alone, so concurrent requests on one group are not modelled. The non-atomic delete-then-create sequences are modelled in order, including the failures that leave the deletion in place.
- TaskController.TaskStore.GetTasksByDateRange: states a permutation of the selected records sorted by date, not the database's order among tasks on the same day.
- TaskController.TaskStore.GetTodayTasks: states a permutation sorted newest first, not the database's order among tasks created in the same millisecond.
- TaskController.TaskStore.GetBufferTasks: states a permutation sorted by date, not the database's order among tasks on the same day.
- `getTaskPerformance` window bounds and month function: `windowStart`, `windowEnd`, `currentMonth` and `monthOf` are parameters, because they come from local calendar arithmetic.
- Task ids: records get consecutive integers, not ObjectIds. Form entry ids are the given `now`. Two entries created in the same millisecond share an id; `AddTask` keeps `Valid()` only when `now` is new.
- Object key order of the grouped today tasks: subjects are kept in order of first appearance, which is the order `Object.keys` gives for keys that are not array indices. A subject that looks like an array index (such as "12") is listed first by `Object.keys`; that order is not modelled. Subjects named after inherited `Object.prototype` properties are modelled: they make the grouping fail.
- Subject management (`addSubject`, `showAllSubjects`, `deleteSubject`), `handleDateClick`, `handleReschedule` and `fetchSubjects`: these are modal and network plumbing with no decision logic beyond a lookup.
- The notification timer (five seconds), navigation after login, and the 2.5-second redirect after signup.
- CalendarView.AddToDay: stores the day's extended buckets in one map update. The source first creates the empty entry and then pushes into it; the resulting map is the same.
- The percentage display of `TopRight.jsx`: floating-point division and rounding. The counts it shows are the ones `GetTaskPerformance` computes.
- `Dashboard.jsx`, `TopCenter.jsx`, `TopLeft.jsx` and `AuthFooter.jsx`: rendering only, with no decision logic.
- The route files, `auth.controller.js` (hashing and tokens), `user.controller.js` and `subject.controller.js`: routing, authentication and thin database updates. Subject uniqueness relies on a database index.
- `index.js`, `Config/db.js` and the keep-alive ping: server setup and I/O.
- Group-wide uniqueness of steps or dates after a retype: regenerated children may reuse step numbers of surviving past children, so no such invariant is stated.
