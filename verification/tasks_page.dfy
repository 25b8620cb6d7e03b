/**
 * The tasks page: `fetchTasks`, which turns fetched repair-order rows into the page's flat
 * tasks, and `handleAddTask`, which appends a task from the work-order form.
 */
module TasksPage {
  import opened Js
  import opened Status
  import Listing

  /** The staff row joined to a detail row. */
  datatype StaffRow = StaffRow(staffName: Option<string>)

  /** A detail row as the page fetches it. */
  datatype PageDetail = PageDetail(description: Option<string>, notes: Option<string>,
                                   taskPriority: Option<string>, staff: Option<StaffRow>)

  /** A vehicle row as the page reads it. */
  datatype PageVehicle = PageVehicle(year: Option<string>, make: Option<string>, model: Option<string>)

  /** A fetched repair-order row. */
  datatype TaskRow = TaskRow(id: string, status: Option<string>, details: Option<seq<PageDetail>>,
                             vehicles: Option<seq<PageVehicle>>)

  /** What the query returns. */
  datatype Fetch = QueryError | NoData | Data(rows: seq<TaskRow>)

  /** The page's task. */
  datatype PageTask = PageTask(id: string, title: string, assignedTo: string, status: string,
                               difficulty: string, vehicle: string, comments: string)

  const UNASSIGNED: string := "Unassigned"
  const UNKNOWN_VEHICLE: string := "Unknown Vehicle"

  /** `repair_order_details?.[0] || {}`: the first detail row, every field missing if none. */
  function DetailOf(row: TaskRow): PageDetail {
    if row.details.Some? && |row.details.value| > 0 then row.details.value[0]
    else PageDetail(None, None, None, None)
  }

  function VehicleOf(row: TaskRow): PageVehicle {
    if row.vehicles.Some? && |row.vehicles.value| > 0 then row.vehicles.value[0]
    else PageVehicle(None, None, None)
  }

  /** The vehicle text: the trimmed "year make model" when any of the three is truthy. */
  function VehicleText(v: PageVehicle): string {
    if Truthy(v.year) || Truthy(v.make) || Truthy(v.model)
    then Trim(Join3(Show(v.year), Show(v.make), Show(v.model)))
    else UNKNOWN_VEHICLE
  }

  function StaffName(d: PageDetail): Option<string> {
    if d.staff.Some? then d.staff.value.staffName else None
  }

  function ToTask(row: TaskRow): PageTask {
    var d := DetailOf(row);
    PageTask(row.id, Or(d.description, Listing.UNTITLED), Or(StaffName(d), UNASSIGNED),
             Or(row.status, PENDING), OrEmpty(d.taskPriority), VehicleText(VehicleOf(row)),
             OrEmpty(d.notes))
  }

  /** `fetchTasks`: the page's tasks after a fetch. */
  function FetchTasks(f: Fetch): (ts: seq<PageTask>)
    ensures !f.Data? ==> ts == []
    ensures f.Data? ==> |ts| == |f.rows| && forall i :: 0 <= i < |ts| ==> ts[i].id == f.rows[i].id
  {
    if f.Data? then seq(|f.rows|, i requires 0 <= i < |f.rows| => ToTask(f.rows[i])) else []
  }

  /** `handleAddTask`: the task list with the new task at the end, and the form closed. */
  function AddTask<T>(tasks: seq<T>, t: T): (r: (seq<T>, bool))
    ensures |r.0| == |tasks| + 1 && r.0[..|tasks|] == tasks && r.0[|tasks|] == t
    ensures !r.1
  {
    (tasks + [t], false)
  }

  // ---------------------------------------------------------------------------
  // Properties of the page

  /** Each task comes from the row at the same place: its title is the first detail's
      description or "Untitled", its status the row's or "Pending", its assignee the staff
      name or "Unassigned", and difficulty and comments are the detail's priority and notes
      or "". */
  lemma FetchedFields(f: Fetch, i: int)
    requires f.Data? && 0 <= i < |f.rows|
    ensures var t := FetchTasks(f)[i];
      var d := DetailOf(f.rows[i]);
      && (Truthy(d.description) ==> t.title == d.description.value)
      && (!Truthy(d.description) ==> t.title == "Untitled")
      && (Truthy(f.rows[i].status) ==> t.status == f.rows[i].status.value)
      && (!Truthy(f.rows[i].status) ==> t.status == PENDING)
      && (Truthy(StaffName(d)) ==> t.assignedTo == StaffName(d).value)
      && (!Truthy(StaffName(d)) ==> t.assignedTo == UNASSIGNED)
      && (Truthy(d.taskPriority) ==> t.difficulty == d.taskPriority.value)
      && (!Truthy(d.taskPriority) ==> t.difficulty == "")
      && (Truthy(d.notes) ==> t.comments == d.notes.value)
      && (!Truthy(d.notes) ==> t.comments == "")
  {
  }

  /** With year, make and model all falsy the vehicle text is "Unknown Vehicle"; otherwise
      it is "year make model" with exactly the surrounding white space cut off (what is left
      neither starts nor ends with it), and it is empty exactly when that text is all white
      space. */
  lemma VehicleTextSpec(v: PageVehicle)
    ensures !(Truthy(v.year) || Truthy(v.make) || Truthy(v.model)) ==> VehicleText(v) == UNKNOWN_VEHICLE
    ensures (Truthy(v.year) || Truthy(v.make) || Truthy(v.model)) ==>
      var j := Join3(Show(v.year), Show(v.make), Show(v.model));
      && (exists a, b :: 0 <= a <= b <= |j| && VehicleText(v) == j[a..b] && AllSpace(j[..a]) && AllSpace(j[b..]))
      && (VehicleText(v) == [] || (!IsSpace(VehicleText(v)[0]) && !IsSpace(VehicleText(v)[|VehicleText(v)| - 1])))
      && (VehicleText(v) == "" <==> AllSpace(j))
  {
    if Truthy(v.year) || Truthy(v.make) || Truthy(v.model) {
      var j := Join3(Show(v.year), Show(v.make), Show(v.model));
      TrimIsSlice(j);
      TrimEmptyIff(j);
    }
  }

  /** When any field is truthy and the trimmed text is not empty, the page and the listing
      label a vehicle alike. */
  lemma VehicleLabelsAgree(v: PageVehicle)
    requires Truthy(v.year) || Truthy(v.make) || Truthy(v.model)
    requires VehicleText(v) != ""
    ensures VehicleText(v) == Listing.VehicleLabel(Some(Listing.VehicleRow(v.year, v.make, v.model)))
  {
    Listing.VehicleLabelSpec(Some(Listing.VehicleRow(v.year, v.make, v.model)));
  }

  /** Otherwise they differ: a vehicle whose only field is a space is labelled "" by the page
      but "Unknown vehicle" by the listing. */
  lemma VehicleLabelsDiffer()
    ensures VehicleText(PageVehicle(Some(" "), None, None)) == ""
    ensures Listing.VehicleLabel(Some(Listing.VehicleRow(Some(" "), None, None))) == Listing.UNKNOWN_VEHICLE
  {
    var j := Join3(" ", "", "");
    assert j == "   ";
    assert AllSpace(j);
    TrimEmptyIff(j);
  }
}
