/**
 * The list view's local task list and its two handlers. Adding inserts a bare repair order
 * holding only a status, then (ignoring its error) a detail row, and appends the task.
 * Saving updates the status, then (ignoring its error) the detail row found by a lookup,
 * and replaces the task in the local list. The view's copy of `localStatusToDb` has no
 * default, and both callers pass a status outside its three keys, so both handlers write
 * an `undefined` status as the program is wired.
 */
module ListView {
  import opened Js
  import opened Status
  import opened Remote
  import WorkOrderForm

  /** A task as the handlers receive it: whatever the caller's object holds under the
      `Task` keys, a key it lacks reading as `undefined` (`None`). The declared `Task` type
      promises a column key as the status, but neither caller passes one. */
  datatype ListTask = ListTask(
    id: string,
    title: Option<string>,
    vehicle: Option<string>,
    date: Option<string>,
    status: Option<string>,
    assignee: Option<string>,
    difficulty: Option<string>,
    comments: Option<string>)

  /** The list, whether the work-order form is open, and the selected task. */
  datatype ListState = ListState(tasks: seq<ListTask>, formOpen: bool, selected: Option<ListTask>)

  /** The row the store returns for an inserted order: its id and `created_at`. */
  datatype InsertedRow = InsertedRow(id: string, createdAt: Option<string>)

  /** The view's state after a handler, and the writes that took effect. */
  datatype Step = Step(state: ListState, writes: seq<Write>)

  /** The detail columns the list view writes for a task. */
  function TaskDetail(t: ListTask): map<DetailField, Option<string>> {
    map[Description := t.title, Notes := t.comments, TaskPriority := t.difficulty]
  }

  /** The detail columns of a task with none of the three fields. */
  const NO_DETAIL: map<DetailField, Option<string>> := map[Description := None, Notes := None, TaskPriority := None]

  /** What `handleAddTask` receives from the work-order form: the form's own state, whose
      keys (`taskName`, `priority`, `notes`, `assignedTo`, ...) include none of the `Task`
      keys the handler reads, so every one of them is `undefined`. The id is never read. */
  function FromFormData(w: WorkOrderForm.FormState): ListTask {
    ListTask("", None, None, None, None, None, None, None)
  }

  /** What `handleSaveTask` receives from the details modal: the modal spreads the row the
      user clicked and overwrites its status with the chosen stage's persisted string, so
      every other `Task` key of the row passes through. */
  function FromModalSave(t: ListTask, stage: Stage): ListTask {
    t.(status := Some(StageToDb(stage)))
  }

  /** `handleAddTask`: `row` is what the store returns for the insert, `nowIso` the
      current ISO time. */
  function AddTask(s: ListState, t: ListTask, row: InsertedRow, nowIso: string, fails: Oracle): (r: Step)
    ensures OrderInsert in fails ==> r == Step(s, [])
    ensures OrderInsert !in fails ==>
      && |r.state.tasks| == |s.tasks| + 1 && r.state.tasks[..|s.tasks|] == s.tasks
      && !r.state.formOpen && r.state.selected == s.selected
      && r.writes != [] && r.writes[0].InsertBareOrder?
      && (ColumnOfKey(t.status).Some? ==> r.writes[0].bareStatus == Some(ColumnToDb(ColumnOfKey(t.status).value)))
      && (ColumnOfKey(t.status).None? ==> r.writes[0].bareStatus.None?)
  {
    if OrderInsert in fails then Step(s, [])
    else
      var detail := if row.id != "" && DetailInsert !in fails
                    then [InsertDetail(None, row.id, TaskDetail(t))] else [];
      var added := t.(id := row.id, date := Some(Or(row.createdAt, nowIso)));
      Step(s.(tasks := s.tasks + [added], formOpen := false), [InsertBareOrder(ListStatusToDb(t.status))] + detail)
  }

  /** The list with every task of the same id replaced. */
  function Replace(tasks: seq<ListTask>, u: ListTask): (r: seq<ListTask>)
    ensures |r| == |tasks|
    ensures forall i :: 0 <= i < |tasks| ==> r[i] == (if tasks[i].id == u.id then u else tasks[i])
  {
    seq(|tasks|, i requires 0 <= i < |tasks| => if tasks[i].id == u.id then u else tasks[i])
  }

  /** `handleSaveTask`: `detailId` is what the lookup of the order's detail row returns. */
  function SaveTask(s: ListState, u: ListTask, detailId: Option<string>, fails: Oracle): (r: Step)
    ensures StatusUpdate in fails ==> r == Step(s, [])
    ensures StatusUpdate !in fails ==>
      && r.state.tasks == Replace(s.tasks, u) && r.state.selected.None? && r.state.formOpen == s.formOpen
      && r.writes != [] && r.writes[0] == UpdateOrderStatus(u.id, ListStatusToDb(u.status))
      && (|r.writes| == 2 <==> Truthy(detailId) && DetailUpdate !in fails)
  {
    if StatusUpdate in fails then Step(s, [])
    else
      var detail := if Truthy(detailId) && DetailUpdate !in fails
                    then [UpdateDetail(detailId.value, TaskDetail(u))] else [];
      Step(s.(tasks := Replace(s.tasks, u), selected := None), [UpdateOrderStatus(u.id, ListStatusToDb(u.status))] + detail)
  }

  // ---------------------------------------------------------------------------
  // Properties of the list view

  /** A successful add appends exactly one task at the end: the given one, with the store's
      id and its creation time (or the current time); the status stays local. */
  lemma AddAppendsOne(s: ListState, t: ListTask, row: InsertedRow, nowIso: string, fails: Oracle)
    requires OrderInsert !in fails
    ensures var ts := AddTask(s, t, row, nowIso, fails).state.tasks;
      && ts == s.tasks + [ts[|ts| - 1]]
      && ts[|ts| - 1].id == row.id && ts[|ts| - 1].status == t.status && ts[|ts| - 1].title == t.title
      && ts[|ts| - 1].date == Some(if Truthy(row.createdAt) then row.createdAt.value else nowIso)
  {
  }

  /** The order the list view inserts carries no vehicle, customer or shop: it is never an
      order of the kind the work-order workflow writes, so a store that demands a vehicle
      fails the insert and the list stays as it was. */
  lemma AddWritesBareOrder(s: ListState, t: ListTask, row: InsertedRow, nowIso: string, fails: Oracle)
    ensures forall w :: w in AddTask(s, t, row, nowIso, fails).writes ==> !w.InsertOrder?
    ensures |AddTask(s, t, row, nowIso, fails).writes| <= 2
  {
  }

  /** The detail row's error is ignored: the list changes the same way whether or not it
      fails. */
  lemma AddIgnoresDetailError(s: ListState, t: ListTask, row: InsertedRow, nowIso: string, fails: Oracle)
    ensures AddTask(s, t, row, nowIso, fails).state == AddTask(s, t, row, nowIso, fails - {DetailInsert}).state
    ensures AddTask(s, t, row, nowIso, fails).state == AddTask(s, t, row, nowIso, fails + {DetailInsert}).state
  {
  }

  /** A failed status update leaves the list and the selection untouched. */
  lemma SaveFailureKeepsList(s: ListState, u: ListTask, detailId: Option<string>, fails: Oracle)
    requires StatusUpdate in fails
    ensures SaveTask(s, u, detailId, fails).state == s
    ensures SaveTask(s, u, detailId, fails).writes == []
  {
  }

  /** Saving replaces every task with the saved one's id and leaves the others in place;
      saving the same task again changes nothing more. */
  lemma SaveReplacesById(s: ListState, u: ListTask, detailId: Option<string>, fails: Oracle)
    requires StatusUpdate !in fails
    ensures var ts := SaveTask(s, u, detailId, fails).state.tasks;
      && |ts| == |s.tasks|
      && (forall i :: 0 <= i < |ts| ==> (ts[i] == u <==> s.tasks[i].id == u.id || s.tasks[i] == u))
      && SaveTask(SaveTask(s, u, detailId, fails).state, u, detailId, fails).state.tasks == ts
  {
  }

  /** A status that is a column key is written as a persisted string that the list view's
      own mapper reads back as that column; any other status is written as `undefined`. */
  lemma SaveStatusRoundTrip(s: ListState, u: ListTask, detailId: Option<string>, fails: Oracle)
    requires StatusUpdate !in fails
    ensures var w := SaveTask(s, u, detailId, fails).writes[0];
      && w.UpdateOrderStatus? && w.orderId == u.id
      && (ColumnOfKey(u.status).Some? ==>
            w.newStatus.Some? && IsPersisted(w.newStatus.value)
            && DbToColumn(w.newStatus.value) == ColumnOfKey(u.status).value)
      && (ColumnOfKey(u.status).None? ==> w.newStatus.None?)
  {
    if ColumnOfKey(u.status).Some? {
      ListCopyAgreesOnKeys(ColumnOfKey(u.status).value, u.status);
      ColumnRoundTrip(ColumnOfKey(u.status).value);
    }
  }

  /** As wired to the work-order form, adding inserts an order with an `undefined` status
      and a detail row with every column `undefined`, and appends a task with neither a
      title nor a status. */
  lemma FormAddWritesNoStatus(s: ListState, w: WorkOrderForm.FormState, row: InsertedRow, nowIso: string,
                              fails: Oracle)
    ensures var r := AddTask(s, FromFormData(w), row, nowIso, fails);
      && (forall wr :: wr in r.writes ==> wr == InsertBareOrder(None) || wr == InsertDetail(None, row.id, NO_DETAIL))
      && (OrderInsert !in fails ==>
            && r.writes[0] == InsertBareOrder(None)
            && r.state.tasks[|s.tasks|].status.None? && r.state.tasks[|s.tasks|].title.None?)
  {
  }

  /** As wired to the details modal, saving the clicked row writes `undefined` as the
      order's status whatever stage was chosen; a detail update, when one is made, carries
      the row's own title, notes and difficulty; and every listed row with that id becomes
      the clicked row with the stage's persisted status, keeping its title, vehicle and
      date. */
  lemma ModalSaveWritesNoStatus(s: ListState, t: ListTask, stage: Stage, detailId: Option<string>, fails: Oracle)
    ensures var r := SaveTask(s, FromModalSave(t, stage), detailId, fails);
      && (StatusUpdate !in fails ==> r.writes[0] == UpdateOrderStatus(t.id, None))
      && (forall wr :: wr in r.writes && wr.UpdateDetail? ==> wr.fields == TaskDetail(t))
      && (StatusUpdate !in fails ==>
            forall i :: 0 <= i < |s.tasks| && s.tasks[i].id == t.id ==>
              && r.state.tasks[i].title == t.title && r.state.tasks[i].vehicle == t.vehicle
              && r.state.tasks[i].date == t.date && r.state.tasks[i].status == Some(StageToDb(stage)))
  {
    ListCopyAgreesOnKeys(Todo, Some(StageToDb(stage)));
  }
}
