# Mechanic-shop dashboard: a Dafny model of its core

The dashboard is a React application for a car-repair shop. Repair orders, their detail
rows, customers, vehicles and staff live in a remote database. Beneath the markup sits a
small sequential core, and this project models it with immutable datatypes and pure
functions:

- **Status vocabularies** (`status.dfy`). The persisted strings are "Pending",
  "In Progress" and "Completed". The board uses the columns `todo` / `inProgress` / `done`,
  the details modal uses the stages `not-started` / `in-progress` / `completed`, and the
  quick-add forms use the traffic lights `red` / `yellow` / `green`. Each copy of a mapper
  is modelled separately, so the differences between copies stay visible.
- **Listing projector** (`listing.dfy`). `transformData` turns fetched order rows into
  board buckets, a calendar map keyed by date, and a flat list.
- **Tasks page** (`tasks_page.dfy`) maps fetched rows to flat tasks. **Task statistics**
  (`stats.dfy`) count statuses.
- **Board move** (`board.dfy`). This is the optimistic column transition of
  `handleDragEnd`, followed by a status write that is never rolled back.
- **Write workflows**, expressed as plans of writes (`remote.dfy`). A plan is run against a
  failure oracle (the set of remote calls that fail) and stops at the first failure.
  Three workflows use it:
  - work-order creation on the mechanic hub (`work_order.dfy`);
  - the two `handleSaveTask` editors (`editors.dfy`);
  - the list view's add and save (`list_view.dfy`).
- **Details modal** (`details_modal.dfy`): its initial form and its `handleSave` record
  builder.
- **Work-order form** (`order_form.dfy`) and **add-job modal** (`add_job.dfy`): their
  state transitions.
- **Calendar** (`calendar.dfy`): navigation and the week and month grids. Dates are
  proleptic Gregorian civil dates, each with a day number counted from 1970-01-01. The
  weekday is the day number plus four, modulo seven.
- **JavaScript helpers** (`js.dfy`): the value semantics the code relies on. These are
  `undefined`/`null` as `Option`, string truthiness, `||` and `??` defaults, `trim` over
  the ECMAScript white-space set, `toLowerCase`, `split(sep)[0]`, `includes` and
  `replace` with a string pattern.

Ids, clock values and the store's answers are parameters. A workflow is a function from
(store, inputs, failure oracle) to (writes that took effect, outcome).

The main invariant concerns work-order creation. Whatever the form holds and whichever
call fails, every repair order written references a non-empty vehicle of its customer.
That vehicle is either on file or inserted earlier in the same run. Every order is
"Pending", and no detail row is written before its order (`WorkOrder.CreateKeepsReferences`).

The model also records what the code does where it is surprising:

- The new-customer branch writes the customer and the shop link before it rejects a form
  with no vehicle.
- The two editors write different detail columns.
- The list view's add inserts an order that has no vehicle.
- In month view, "next" and then "back" is not a round trip.
- The tasks page and the listing label a blank vehicle differently.

## Model

| member | source | states |
|---|---|---|
| Js.TrimIsSlice | utils/dataTransform.ts:44 | `trim` returns a slice of its input with only white space removed at either end, and the result neither starts nor ends with white space |
| Js.TrimEmptyIff | utils/dataTransform.ts:44 | a string trims to "" exactly when every character is white space |
| Js.BeforeFirst | utils/dataTransform.ts:59 | `split("T")[0]` is the longest prefix without the separator; the character after it, if any, is the separator |
| Js.IndexOf | components/task-board.tsx:94 | the position found is an occurrence of the pattern with no occurrence before it; none is found only when the pattern occurs nowhere |
| Js.ReplaceFirst | components/task-board.tsx:95 | without an occurrence the string is unchanged; otherwise only the first occurrence is replaced |
| Status.ColumnRoundTrip | components/task-board.tsx:30-55 | a column written as its persisted status reads back as the same column, with the list view's mapper and with the listing's; its board colour equals the listing colour of both its key and its persisted string |
| Status.StageRoundTrip | components/task-details-modal.tsx:71-95 | stage → persisted → stage is the identity; persisted → stage → persisted keeps the three persisted strings and turns anything else into "Pending", which reads as not-started |
| Status.MapStatusCases | utils/dataTransform.ts:68-80 | `mapStatus` gives inProgress / done exactly for "in progress" / "completed" in any letter case; missing, empty and unknown statuses give todo |
| Status.MapStatusCaseInsensitive | utils/dataTransform.ts:68-80 | `mapStatus` of a status equals `mapStatus` of its lower-case form |
| Status.StatusColorCases | utils/dataTransform.ts:82-96 | the listing colour is yellow exactly for "in progress"/"inprogress", green exactly for "completed"/"done" (any case), and red for anything unrecognised |
| Status.ListingColorMatchesBoard | utils/dataTransform.ts:31-32 | an item's listing colour is the board's colour of its column |
| Status.DbToColumnAgreesOnPersisted | components/task-list-view.tsx:46-50 | on the persisted strings the case-sensitive list-view mapper agrees with the listing's case-insensitive one; on "completed" it does not |
| Status.DbToColumnMatchesStage | components/task-details-modal.tsx:71-82 | the list view's mapper and the modal's mapper agree on every string, up to renaming the three values |
| Status.LightToColumnCases | components/add-job-modal.tsx:32 | red ↔ todo, yellow ↔ inProgress, anything else ↔ done, in both directions |
| Status.ColumnToDb | components/task-board.tsx:29-41 | the board's `localStatusToDb` yields one of the persisted strings for every column |
| Status.ListStatusToDb | components/task-list-view.tsx:31-40 | the list view's `localStatusToDb` yields a value exactly for the three column keys, always a persisted string; anything else, `undefined` included, yields `undefined` |
| Status.ListCopyAgreesOnKeys | components/task-list-view.tsx:31-40 | the list view's copy agrees with the board's on the three column keys, and gives `undefined` for `undefined`, for a persisted string and for any other text |
| Status.StageToDb | components/task-details-modal.tsx:84-95 | `mapLocalStatusToDb` always yields one of the persisted strings |
| Remote.Execute | app/mechanic-hub/page.tsx:229-370 | writes are performed in plan order up to the first failing call: the result is a prefix of the plan's writes, every call before it succeeded, and it is the whole plan exactly when nothing failed |
| Remote.ExecutePrefix | app/mechanic-hub/page.tsx:229-370 | whatever fails, the writes performed are a prefix of the failure-free run's writes: nothing is compensated |
| Remote.ExecuteAll | app/mechanic-hub/page.tsx:229-370 | with no failures every write of the plan is performed |
| Listing.TransformData | utils/dataTransform.ts:22-66 | a non-array input gives empty projections; otherwise the list is the rows' items in order, and the board and calendar built by the loop equal their reference definitions over that list; each row has its own clock reading |
| Listing.PushBoard | utils/dataTransform.ts:58 | appending an item to the bucket of its status keeps the board equal to the bucket-by-status of the list |
| Listing.PushCalendar | utils/dataTransform.ts:59-61 | creating the bucket if absent and appending the item keeps the calendar equal to the group-by-date-key of the list |
| Listing.ListFollowsRows | utils/dataTransform.ts:29-53 | the list has one item per row, in row order, with the row's id and mapped status, and its date is the row's creation time or else the clock reading taken for that row |
| Listing.BoardPartitionsList | utils/dataTransform.ts:58 | the board's bucket sizes add up to the number of items |
| Listing.BoardPlacesByStatus | utils/dataTransform.ts:31 | an item is in a bucket exactly when the bucket is its status's column |
| Listing.CalendarPlacesByKey | utils/dataTransform.ts:59-61 | every item is in the bucket of its own date key and in no other bucket |
| Listing.CalendarCountsEveryItemOnce | utils/dataTransform.ts:59-61 | summed over the distinct date keys, the calendar's bucket sizes equal the number of items |
| Listing.DistinctKeys | utils/dataTransform.ts:59-61 | the calendar's keys: no key twice, and exactly the date keys of the items |
| Listing.ItemTitleAndColor | utils/dataTransform.ts:30-35 | the title is the first detail's description, else the order's title, else "Untitled"; the colour is one of the three and is the column's colour |
| Listing.VehicleLabelSpec | utils/dataTransform.ts:41-45 | the vehicle text is never empty; with no vehicle, or with year, make and model all blank, it is "Unknown vehicle"; otherwise it is exactly the trimmed "year make model" |
| Listing.JoinBlankIff | utils/dataTransform.ts:43-44 | "year make model" is all white space exactly when each of the three fields is |
| TaskBoard.DroppedColumn | components/task-board.tsx:93-99 | an id without "column-" names no column; otherwise the first "column-" is cut out, and an empty leftover names no column, a column key names that column, and any other leftover is a stray name |
| TaskBoard.ColumnIdsNameTheirColumn | components/task-board.tsx:93-96 | each column's own droppable id names that column |
| TaskBoard.CardIdsNameNoColumn | components/task-board.tsx:94-96 | an id in which "column-" does not occur names no column |
| TaskBoard.BareAndStrayIds | components/task-board.tsx:94-99 | "column-" alone leaves "", which the guard treats as no column; "column-x" leaves the stray name "x" |
| TaskBoard.EmbeddedPrefixNamesColumn | components/task-board.tsx:94-95 | "todocolumn-" names the todo column, since only the text "column-" is cut out, wherever it stands |
| TaskBoard.Find | components/task-board.tsx:78-82 | the task found is the first on the board with the id; none is found only when no task has the id |
| TaskBoard.RemoveId | components/task-board.tsx:103-105 | the filter drops as many tasks as carry the id |
| TaskBoard.RemoveIdMembers | components/task-board.tsx:103-105 | the filter keeps exactly the tasks with other ids |
| TaskBoard.RemoveIdAppend | components/task-board.tsx:103-105 | filtering a concatenation concatenates the filtered parts, so the kept tasks stay in their order |
| TaskBoard.RemoveIdSingle | components/task-board.tsx:103-105 | one task is kept exactly when its id differs |
| TaskBoard.DragEnd | components/task-board.tsx:88-132 | no write means the columns are unchanged; every write is for a dragged task on the board; a write to a real column holds a persisted status that reads back as a column other than the task's; a stray name writes "Pending" and crashes the local update, leaving the columns; a failed write is only logged |
| TaskBoard.StrayColumnWritesPending | components/task-board.tsx:94-121 | dropping a task on "column-x" writes "Pending" for it and crashes the local update |
| TaskBoard.DropOutsideIsNoOp | components/task-board.tsx:91 | a drop over nothing changes nothing and writes nothing |
| TaskBoard.NonMovesAreNoOps | components/task-board.tsx:94-99 | a drop over an id that names no column, over the task's own column, or of a task that is not on the board changes nothing and writes nothing |
| TaskBoard.MoveShape | components/task-board.tsx:101-128 | a drop over any id naming another column filters the task's id out of its old column, appends it at the end of the target with the target's status and colour, leaves the third column alone, does not crash, and writes the target's persisted status whatever the store answers |
| TaskBoard.MovedKeepsFields | components/task-board.tsx:108-112 | the moved task keeps every field except status and colour |
| TaskBoard.MovePreservesPlacement | components/task-board.tsx:98-114 | if every task sits in the column its status names before the drop, it still does after |
| TaskBoard.MovePreservesCount | components/task-board.tsx:101-114 | with placed tasks and unique ids, the number of tasks on the board is unchanged |
| TaskBoard.MoveKeepsIdsUnique | components/task-board.tsx:101-114 | with placed tasks and unique ids, ids stay unique after the drop |
| TaskBoard.FoundOnce | components/task-board.tsx:78-82 | with placed tasks and unique ids, the found task is the only one with its id, in the column its status names |
| DetailsModal.Save | components/task-details-modal.tsx:168-200 | the saved record keeps id, created_at and customer id, persists the chosen stage, holds at most one detail row (one exactly when the order had one), and carries the form's customer name |
| DetailsModal.SaveRewritesFirstDetail | components/task-details-modal.tsx:175-191 | the kept detail row keeps its id, mechanic and assignee, and takes the seven editable fields from the form |
| DetailsModal.SaveIgnoresVehicleEdits | components/task-details-modal.tsx:192-195 | only the customer's name changes; the form's vehicle fields never affect the saved record |
| DetailsModal.SaveWithoutCustomer | components/task-details-modal.tsx:192-195 | with no customer the record gets one holding just the name |
| DetailsModal.InitialFormDefaults | components/task-details-modal.tsx:103-133 | each of the fifteen copied fields is the first detail's, first vehicle's or customer's value when that is truthy, and otherwise "Unknown Customer" for the name, "Normal" for the priority and "" for the rest, whether the row or just the field is missing; the contact line is the email and the phone joined by a spaced bar with only its outer white space cut, so a lone bar when the customer has neither |
| DetailsModal.SaveUneditedIsNotIdentity | components/task-details-modal.tsx:116-194 | saving untouched persists "Unknown Customer" for a blank name, "Normal" for a missing priority, and "Pending" for an unrecognised status |
| Editors.DetailUpdateOf | app/tasks/page.tsx:211-227 | a detail update holds exactly the chosen columns, with the record's values |
| Editors.EditPlan | app/tasks/page.tsx:204-252 | the plan's first step is the status update, followed by one step for each of the detail, customer and vehicle rows whose id is known |
| Editors.SaveEdit | app/tasks/page.tsx:202-274 | the writes are a prefix of the plan's; the selection is cleared exactly when every write succeeded; a failed status update writes nothing |
| Editors.EditWritesInOrder | app/mechanic-hub/page.tsx:145-197 | without failures: status, then detail, then customer name, then vehicle, each only when its id is known, and the selection is cleared |
| Editors.BareOrderOneWrite | app/mechanic-hub/page.tsx:145-190 | an order without detail, customer or vehicle ids costs one write |
| Editors.FailureKeepsSelection | app/tasks/page.tsx:209-273 | any failure keeps the selection and leaves a strict prefix of the failure-free writes |
| Editors.EditorsDetailColumns | app/mechanic-hub/page.tsx:151-165 | the page's detail update carries priority and description; the hub's carries neither |
| Editors.DetailWrite | app/tasks/page.tsx:211-227 | with a detail id the second write is that row's update with the chosen columns |
| Editors.HubPlanFromPage | app/mechanic-hub/page.tsx:145-197 | the hub's plan is the page's, step by step, with the detail update cut down to the hub's five columns |
| Editors.EditorsAgreeElsewhere | app/mechanic-hub/page.tsx:145-197 | under any failures the two editors perform the same number of writes, identical except for the detail columns, and clear the selection alike |
| Editors.CallsAgree | app/mechanic-hub/page.tsx:145-197 | two plans making the same calls stop at the same place |
| Editors.ModalThenPageEditor | components/task-details-modal.tsx:168-200 | a record saved from the modal and persisted by the page writes the chosen stage and the form's detail edits, but writes the vehicle back with its old values |
| WorkOrder.FirstVehicleOf | app/mechanic-hub/page.tsx:284-289 | the vehicle found is on file for the customer; none is found only when the customer has no vehicle |
| WorkOrder.Resolve | app/mechanic-hub/page.tsx:227-326 | a new customer first writes the customer and the shop link; an existing one writes at most a vehicle; a resolved vehicle is the one inserted last or one on file for the customer |
| WorkOrder.Create | app/mechanic-hub/page.tsx:209-374 | without a signed-in user it does nothing; a created order costs at least two writes; a failure names a call that failed |
| WorkOrder.CreateKeepsReferences | app/mechanic-hub/page.tsx:328-364 | whatever fails, every order written references a non-empty vehicle of its customer, on file or inserted earlier; it is "Pending"; and its detail row follows it |
| WorkOrder.PlanReferential | app/mechanic-hub/page.tsx:328-364 | the failure-free plan satisfies the reference invariant |
| WorkOrder.OrderStepsReferential | app/mechanic-hub/page.tsx:333-364 | the order and its detail appended after the resolver's writes satisfy the reference invariant |
| WorkOrder.PrefixReferential | app/mechanic-hub/page.tsx:229-370 | a log cut short at a failure keeps the invariant |
| WorkOrder.NoUserNoWrites | app/mechanic-hub/page.tsx:210 | with no user nothing is written |
| WorkOrder.NewCustomerWithoutVehicle | app/mechanic-hub/page.tsx:227-278 | a new customer with no vehicle data: the customer and shop link are written, then the form is rejected |
| WorkOrder.NewCustomerWithVehicle | app/mechanic-hub/page.tsx:227-364 | a new customer with vehicle data: customer, shop link, that customer's vehicle, then the order referencing them, then its detail |
| WorkOrder.ExistingCustomerWithVehicle | app/mechanic-hub/page.tsx:284-289 | an existing customer with a vehicle on file: no vehicle is inserted and the first one is used, whatever was typed |
| WorkOrder.ExistingCustomerWithoutVehicle | app/mechanic-hub/page.tsx:291-321 | no vehicle on file: one is inserted if anything was typed; otherwise the form is rejected with nothing written |
| WorkOrder.DetailColumnsFromForm | app/mechanic-hub/page.tsx:348-364 | the detail row takes the task name as description, the total as cost, the priority, and the assignee as mechanic |
| WorkOrder.FailureStopsLaterWrites | app/mechanic-hub/page.tsx:229-370 | whatever fails, the writes are a prefix of the failure-free run's; a run that succeeds is the failure-free run |
| ListView.AddTask | components/task-list-view.tsx:68-114 | a failed insert changes nothing; otherwise exactly one task is appended, the form closes, and the first write is a bare order whose status is the persisted string of the task's column key, or `undefined` when the task's status is no column key |
| ListView.Replace | components/task-list-view.tsx:165 | every task with the saved id is replaced and the others are kept, at the same length |
| ListView.SaveTask | components/task-list-view.tsx:132-170 | a failed status update changes nothing; otherwise the list is replaced by id, the selection is cleared, and a detail write follows exactly when a detail id was found and its update succeeded |
| ListView.AddAppendsOne | components/task-list-view.tsx:97-109 | the appended task has the store's id, the task's status and title, and the creation time or else the current time |
| ListView.FormAddWritesNoStatus | components/task-list-view.tsx:68-110 | given the work-order form's data, which has none of the `Task` keys, the order is inserted with an `undefined` status, the detail row with every column `undefined`, and the appended task has no title and no status |
| ListView.ModalSaveWritesNoStatus | components/task-list-view.tsx:132-166 | given what the details modal saves, the clicked row with its status replaced by the stage's persisted string, the status update writes `undefined` whatever stage was chosen, a detail update carries the row's own title, notes and difficulty, and the listed rows with that id keep the row's title, vehicle and date under the new status |
| ListView.AddWritesBareOrder | components/task-list-view.tsx:73-95 | the list view never writes an order of the kind creation writes: it has no vehicle, customer or shop |
| ListView.AddIgnoresDetailError | components/task-list-view.tsx:84-95 | whether the detail insert fails does not change the list |
| ListView.SaveFailureKeepsList | components/task-list-view.tsx:142 | a failed status update leaves the list and the selection as they were |
| ListView.SaveReplacesById | components/task-list-view.tsx:165 | saving keeps the length, a task ends up as the saved task exactly when its id matched (or it already was that task), and saving again changes nothing |
| ListView.SaveStatusRoundTrip | components/task-list-view.tsx:31-50 | a status that is a column key is written as a persisted string that reads back, by the view's own mapper, as that column; any other status is written as `undefined` |
| TasksPage.FetchTasks | app/tasks/page.tsx:95-136 | an error or missing data gives no tasks; otherwise one task per row, in order, with the row's id |
| TasksPage.FetchedFields | app/tasks/page.tsx:107-132 | title is the description or "Untitled", status the row's or "Pending", assignee the staff name or "Unassigned", difficulty the detail's priority and comments its notes, or "" when those are falsy |
| TasksPage.VehicleTextSpec | app/tasks/page.tsx:110-114 | with year, make and model all falsy the text is "Unknown Vehicle"; otherwise it is "year make model" with exactly its surrounding white space cut off (a slice whose ends are not white space), empty exactly when that is all white space |
| TasksPage.VehicleLabelsAgree | app/tasks/page.tsx:110-114 | when a field is truthy and the text is not empty, the page and the listing label the vehicle alike |
| TasksPage.VehicleLabelsDiffer | app/tasks/page.tsx:110-114 | a vehicle whose only field is " " is "" on the page but "Unknown vehicle" in the listing |
| TasksPage.AddTask | app/tasks/page.tsx:146-149 | the new task is appended at the end and the form is closed |
| TaskStats.Count | components/task-stats.tsx:11-13 | a count is zero exactly when the status is absent, and the total exactly when every status equals it |
| TaskStats.StatsOf | components/task-stats.tsx:10-13 | the total is the number of tasks, and each count is the multiplicity of that exact string |
| TaskStats.CountIsMultiplicity | components/task-stats.tsx:11-13 | counting equals the multiplicity in the multiset of statuses |
| TaskStats.CountsBelowTotal | components/task-stats.tsx:10-13 | completed + pending + in-progress never exceeds the total |
| TaskStats.CountsCoverTotal | components/task-stats.tsx:10-13 | the three counts add up to the total exactly when every status is a persisted string |
| TaskStats.CountsAreCaseSensitive | components/task-stats.tsx:11 | "completed" is not counted as completed |
| TaskStats.FetchedCountsCoverTotal | app/tasks/page.tsx:129 | after a fetch whose statuses are persisted or missing, the counts add up to the number of tasks |
| WorkOrderForm.CustomerOptions | components/work-order-form.tsx:103-107 | one option per shop-customer row, in order, with its id, name, and first vehicle or none |
| WorkOrderForm.FindOption | components/work-order-form.tsx:139 | the first option with the id, or none exactly when no option has it |
| WorkOrderForm.ChangeCustomer | components/work-order-form.tsx:126-153 | "new" clears the name and the five vehicle fields; a known id copies the id, the name and the option's vehicle ("" for missing fields); an unknown id changes nothing; the work fields are never touched |
| WorkOrderForm.ChangeAssignee | components/work-order-form.tsx:155-157 | only the assignee changes |
| WorkOrderForm.BuildTask | components/work-order-form.tsx:159-172 | the task is red in todo with the form's priority; its title is the task name or else the untrimmed "year make model", which is also its vehicle; its date is the ISO date before "T" |
| WorkOrderForm.InitialState | components/work-order-form.tsx:57-74 | the form opens with priority "high", shown in red, and every other field empty |
| WorkOrderForm.ChooseListedCustomer | components/work-order-form.tsx:103-151 | choosing a listed customer copies that row's id and name; with no vehicles no vehicle field is filled |
| WorkOrderForm.LastCustomerChoiceWins | components/work-order-form.tsx:126-153 | a second choice of "new" or of a listed customer overrides the first |
| WorkOrderForm.HandlersCommute | components/work-order-form.tsx:126-157 | choosing a customer and choosing an assignee commute |
| WorkOrderForm.BlankFormTitle | components/work-order-form.tsx:163-164 | a form with nothing typed gives title and vehicle "  " (two spaces) |
| WorkOrderForm.PriorityColorCases | components/work-order-form.tsx:174-185 | high/medium/low give red/yellow/green; anything else gives red |
| Calendar.NextDay | components/calendar-view.tsx:41 | the day after a valid date is valid |
| Calendar.NextDayNumber | components/calendar-view.tsx:41 | the day after has the next day number, across month and year ends |
| Calendar.PrevDayNumber | components/calendar-view.tsx:34 | the day before has the previous day number |
| Calendar.FwdNumber | components/calendar-view.tsx:41 | `k` days later is `k` more on the day count |
| Calendar.BwdNumber | components/calendar-view.tsx:34 | `k` days earlier is `k` fewer on the day count |
| Calendar.FwdThenBwd | components/calendar-view.tsx:31-43 | stepping `k` days forward and then back returns the same date |
| Calendar.BwdThenFwd | components/calendar-view.tsx:31-43 | stepping `k` days back and then forward returns the same date |
| Calendar.GoNext | components/calendar-view.tsx:38-43 | week view moves 7 days on, day view 1; month view lands `day − 1` days after the first of the next month |
| Calendar.GoBack | components/calendar-view.tsx:31-36 | week view moves 7 days back, day view 1; month view lands `day − 1` days after the first of the previous month |
| Calendar.NavigationRoundTrip | components/calendar-view.tsx:31-43 | in week and day view, next then back (and back then next) returns the same date |
| Calendar.MonthShiftKeepsDay | components/calendar-view.tsx:33-40 | in month view a day the neighbouring month has is kept, in that month |
| Calendar.MonthShiftRollsOver | components/calendar-view.tsx:33-40 | a day the neighbouring month lacks rolls over into the month after it, by as many days as it overshoots |
| Calendar.MonthNavigationNotRoundTrip | components/calendar-view.tsx:33-40 | from 31 January of a leap year, next gives 2 March and back from there gives 2 February |
| Calendar.WeekDays | components/calendar-view.tsx:52-61 | seven consecutive days starting on a Sunday, with the start date at its weekday's position |
| Calendar.GridWeeks | components/calendar-view.tsx:63-70 | the month grid starts on a Sunday, ends on a Saturday and spans whole weeks |
| Calendar.MonthDays | components/calendar-view.tsx:63-77 | consecutive days from the Sunday on or before the 1st to the Saturday on or after the last day, a multiple of 7 long, with every day of the month at position weekday-of-the-1st + day − 1 |
| Calendar.SameMonthIgnoresYear | components/calendar-view.tsx:84-86 | every day of the shown month is "same month", and so is that month in another year |
| Calendar.TasksForDate | components/calendar-view.tsx:88-93 | an absent key gives no tasks |
| Calendar.TasksForDateOfListing | components/calendar-view.tsx:88-93 | on the listing's calendar a day shows exactly the items with that date key, in listing order |
| AddJob.Submit | components/add-job-modal.tsx:24-44 | the job takes id, title, vehicle, date and light from the form, the dialog is asked to close, and the form is reset to blank and red |
| AddJob.PressAdd | components/add-job-modal.tsx:60-96 | the browser blocks the submit exactly when the title, vehicle or date is empty; otherwise the handler runs on the form |
| AddJob.SubmitPlacesByLight | components/add-job-modal.tsx:32 | red gives todo, yellow gives inProgress, anything else gives done, and a column's light is the light submitted exactly for the three lights |
| AddJob.LightColumnRoundTrip | components/add-job-modal.tsx:32 | the light of a column places a job back in that column |
| AddJob.SubmittedJobsAreFilled | components/add-job-modal.tsx:60-96 | every job handed on has a title, a vehicle and a date |
| AddJob.ResubmitIsBlocked | components/add-job-modal.tsx:36-44 | the reset leaves the required fields empty, so pressing the button again at once hands nothing on |

## Left out

- Rendering, styling, drag-and-drop collision detection, `alert`, `console` logging and
  React context plumbing. These are presentation only.
- The remote database, authentication and the network. The store is an abstract list of
  vehicles plus a shop id. Each remote call's success is decided by a failure oracle.
  Reads other than the shop lookup and the vehicle lookup are inputs. The list view's
  detail lookup is the `detailId` input of `ListView.SaveTask`, a failed lookup reading
  as `None`.
- `Date.now()`, `new Date()` and `uuidv4()`. These are parameters (`id`, `now`, `nows`,
  `nowIso`, `Fresh`). The creation workflow reads the clock twice, once for the shop link
  and once for the order, and `Fresh` holds the two readings as separate values. The
  listing reads it once per row that lacks a creation time, and `nows` holds one reading
  per row.
- The re-fetch after a save or a creation. It is I/O, and a re-fetch starts a new
  `FetchTasks` or `TransformData`.
- Locale formatting (`toLocaleString`, `toLocaleDateString`, `formatDate`), the tasks
  page's `time` field, `isToday`, and `goToToday`. These depend on the clock and on locale
  data.
- Time of day, time zones and daylight saving. Dates are civil dates, and grid days are day
  numbers.
- Calendar.TasksForDate: takes the date's key as given and does not compute it. The key is
  built from the time-zone offset and `toISOString`.
- Calendar.SameMonthIgnoresYear: is stated on civil dates. The grid's day numbers are not
  converted back to civil dates.
- JavaScript's date range limits. Years are unbounded integers.
- Js.ToLower: lowers ASCII letters only. Full Unicode case mapping is not modelled.
- Vehicle years as numbers. Every vehicle field is an optional string.
- `undefined` and `null` are not told apart. Both are `None`, and the code treats them
  alike everywhere it is modelled.
- TaskBoard.DragEnd: a stray column name (one left once "column-" is cut out that is no
  column key) is modelled only up to the crash. The status write of "Pending" is issued,
  and the result is flagged as crashing, with the columns as they were. What React does
  after the throw while rendering is not modelled.
- The mechanic hub's `handleStatusChange`, `handleTaskClick` and `fetchRepairOrders`, and
  the tasks page's `handleTaskClick`. These are record lookups and I/O outside the
  modelled core.
- The work-order form's data fetching. The shop-customer rows are an input to
  `CustomerOptions`.
- The tasks page's `handleSaveWorkOrder`, which only logs.
- What the add-job modal's `onClose` and the work-order form's `onSave` do. They are
  callbacks, and the model records only that `onClose` is called. The creation workflow is
  modelled on its own in `WorkOrder.Create`, and the list view's `handleAddTask` as `onSave`
  in `ListView.FormAddWritesNoStatus`.
- What the store makes of a list-view insert or update whose status is `undefined`. The
  request body leaves such a key out; the write is recorded with no status, and the
  column default or the unchanged row that results is not modelled.
- ListView.AddTask: the row the store returns for the insert (`id`, `created_at`) is an
  input. The write log holds only the writes that took effect.
