/**
 * The two `handleSaveTask` editors that persist a record saved from the details modal: one
 * on the mechanic hub, one on the tasks page. Both write the order's status, then the first
 * detail row, then the customer's name, then the first vehicle, each only when the record
 * carries the row's id, and stop at the first failure. They differ only in which detail
 * columns they write. The selection is cleared only when every write succeeded.
 */
module Editors {
  import opened Js
  import opened Status
  import opened Remote
  import opened DetailsModal

  /** The detail columns the mechanic hub's editor writes. */
  const HUB_FIELDS: set<DetailField> := {Labour, Parts, Notes, Cost, Mileage}

  /** The detail columns the tasks page's editor writes: the hub's, plus priority and
      description. */
  const PAGE_FIELDS: set<DetailField> := {Labour, Parts, Notes, Cost, Mileage, TaskPriority, Description}

  /** The value a detail record holds for a column. */
  function DetailValue(d: DetailRecord, k: DetailField): Option<string> {
    match k
    case Description => d.description
    case Labour => d.labour
    case Parts => d.parts
    case Notes => d.notes
    case Cost => d.cost
    case Mileage => d.mileage
    case TaskPriority => d.taskPriority
    case MechanicId => d.mechanicId
  }

  /** The columns of a detail update: the chosen ones, with the record's values. */
  function DetailUpdateOf(d: DetailRecord, fields: set<DetailField>): (m: map<DetailField, Option<string>>)
    ensures m.Keys == fields
    ensures forall k :: k in m ==> m[k] == DetailValue(d, k)
  {
    map k | k in fields :: DetailValue(d, k)
  }

  function VehicleDataOf(v: VehicleRecord): VehicleData {
    VehicleData(v.year, v.make, v.model, v.engineType, v.vin)
  }

  /** The detail row the editor updates: the first one, if its id is truthy. */
  predicate HasDetailId(o: Order) {
    FirstDetail(o).Some? && Truthy(FirstDetail(o).value.id)
  }

  predicate HasCustomerId(o: Order) {
    o.customer.Some? && Truthy(o.customer.value.id)
  }

  predicate HasVehicleId(o: Order) {
    FirstVehicle(o).Some? && Truthy(FirstVehicle(o).value.id)
  }

  function DetailSteps(o: Order, fields: set<DetailField>): seq<Attempt> {
    if HasDetailId(o) then
      var d := FirstDetail(o).value;
      [Attempt(DetailUpdate, UpdateDetail(d.id.value, DetailUpdateOf(d, fields)))]
    else []
  }

  function CustomerSteps(o: Order): seq<Attempt> {
    if HasCustomerId(o) then
      [Attempt(CustomerUpdate, UpdateCustomerName(o.customer.value.id.value, o.customer.value.name))]
    else []
  }

  function VehicleSteps(o: Order): seq<Attempt> {
    if HasVehicleId(o) then
      var v := FirstVehicle(o).value;
      [Attempt(VehicleUpdate, UpdateVehicle(v.id.value, VehicleDataOf(v)))]
    else []
  }

  /** The editor's plan: status, detail, customer name, vehicle. */
  function EditPlan(o: Order, fields: set<DetailField>): (plan: seq<Attempt>)
    ensures |plan| == 1 + |DetailSteps(o, fields)| + |CustomerSteps(o)| + |VehicleSteps(o)|
    ensures plan[0] == Attempt(StatusUpdate, UpdateOrderStatus(o.id, Some(o.status)))
  {
    [Attempt(StatusUpdate, UpdateOrderStatus(o.id, Some(o.status)))] + DetailSteps(o, fields) + CustomerSteps(o) + VehicleSteps(o)
  }

  /** The writes that took effect, and whether the selection was cleared. */
  datatype Edit = Edit(writes: seq<Write>, selectionCleared: bool)

  /** Runs an editor's plan. */
  function SaveEdit(o: Order, fields: set<DetailField>, fails: Oracle): (e: Edit)
    ensures e.writes <= Writes(EditPlan(o, fields))
    ensures e.selectionCleared <==> e.writes == Writes(EditPlan(o, fields))
    ensures e.selectionCleared <==> forall i :: 0 <= i < |EditPlan(o, fields)| ==> EditPlan(o, fields)[i].call !in fails
    ensures StatusUpdate in fails ==> e == Edit([], false)
  {
    var plan := EditPlan(o, fields);
    var run := Execute(plan, fails);
    assert run.failed.Some? ==> |run.done| < |plan| && plan[|run.done|].call in fails;
    Edit(run.done, run.failed.None?)
  }

  /** The mechanic hub's `handleSaveTask`. */
  function HubSave(o: Order, fails: Oracle): Edit {
    SaveEdit(o, HUB_FIELDS, fails)
  }

  /** The tasks page's `handleSaveTask`. */
  function PageSave(o: Order, fails: Oracle): Edit {
    SaveEdit(o, PAGE_FIELDS, fails)
  }

  // ---------------------------------------------------------------------------
  // Properties of the editors

  /** Without failures each editor writes the status, then the detail row when its id is
      known, then the customer name when the customer's id is known, then the first vehicle
      when its id is known, and clears the selection. */
  lemma EditWritesInOrder(o: Order, fields: set<DetailField>)
    ensures var e := SaveEdit(o, fields, {});
      && e.selectionCleared
      && e.writes == [UpdateOrderStatus(o.id, Some(o.status))] + Writes(DetailSteps(o, fields))
                     + Writes(CustomerSteps(o)) + Writes(VehicleSteps(o))
  {
    var plan := EditPlan(o, fields);
    ExecuteAll(plan);
    WritesAppend([Attempt(StatusUpdate, UpdateOrderStatus(o.id, Some(o.status)))], DetailSteps(o, fields));
    WritesAppend([Attempt(StatusUpdate, UpdateOrderStatus(o.id, Some(o.status)))] + DetailSteps(o, fields), CustomerSteps(o));
    WritesAppend([Attempt(StatusUpdate, UpdateOrderStatus(o.id, Some(o.status)))] + DetailSteps(o, fields) + CustomerSteps(o), VehicleSteps(o));
  }

  /** An order carrying no detail, customer or vehicle ids costs exactly one write. */
  lemma BareOrderOneWrite(o: Order, fields: set<DetailField>, fails: Oracle)
    requires !HasDetailId(o) && !HasCustomerId(o) && !HasVehicleId(o)
    ensures StatusUpdate !in fails ==> SaveEdit(o, fields, fails) == Edit([UpdateOrderStatus(o.id, Some(o.status))], true)
  {
  }

  /** A failure anywhere keeps the selection and stops every later write, with nothing
      undone: the writes are those of the failure-free run up to the failing call. */
  lemma FailureKeepsSelection(o: Order, fields: set<DetailField>, fails: Oracle)
    requires exists i :: 0 <= i < |EditPlan(o, fields)| && EditPlan(o, fields)[i].call in fails
    ensures !SaveEdit(o, fields, fails).selectionCleared
    ensures SaveEdit(o, fields, fails).writes < SaveEdit(o, fields, {}).writes
  {
    var plan := EditPlan(o, fields);
    ExecuteAll(plan);
  }

  /** The page writes priority and description with the detail row; the hub never does. */
  lemma EditorsDetailColumns(o: Order)
    requires HasDetailId(o)
    ensures var hub := HubSave(o, {}).writes[1];
      var page := PageSave(o, {}).writes[1];
      && hub.UpdateDetail? && page.UpdateDetail? && hub.detailId == page.detailId
      && TaskPriority !in hub.fields && Description !in hub.fields
      && page.fields[TaskPriority] == FirstDetail(o).value.taskPriority
      && page.fields[Description] == FirstDetail(o).value.description
  {
    DetailWrite(o, HUB_FIELDS);
    DetailWrite(o, PAGE_FIELDS);
  }

  /** With the detail row's id known, the second write is that row's update. */
  lemma DetailWrite(o: Order, fields: set<DetailField>)
    requires HasDetailId(o)
    ensures |SaveEdit(o, fields, {}).writes| >= 2
    ensures var d := FirstDetail(o).value;
      SaveEdit(o, fields, {}).writes[1] == UpdateDetail(d.id.value, DetailUpdateOf(d, fields))
  {
    EditWritesInOrder(o, fields);
  }

  /** A page write as the hub would make it: a detail update cut down to the hub's
      columns, anything else unchanged. */
  function ForHub(w: Write): Write {
    if w.UpdateDetail? then UpdateDetail(w.detailId, map f | f in w.fields && f in HUB_FIELDS :: w.fields[f]) else w
  }

  /** The hub's plan is the page's, step by step, with every write cut down for the hub. */
  lemma HubPlanFromPage(o: Order)
    ensures |EditPlan(o, HUB_FIELDS)| == |EditPlan(o, PAGE_FIELDS)|
    ensures forall i :: 0 <= i < |EditPlan(o, PAGE_FIELDS)| ==>
      EditPlan(o, HUB_FIELDS)[i] == Attempt(EditPlan(o, PAGE_FIELDS)[i].call, ForHub(EditPlan(o, PAGE_FIELDS)[i].write))
  {
    if HasDetailId(o) {
      var d := FirstDetail(o).value;
      assert DetailUpdateOf(d, HUB_FIELDS) == map f | f in DetailUpdateOf(d, PAGE_FIELDS) && f in HUB_FIELDS :: DetailUpdateOf(d, PAGE_FIELDS)[f];
      assert DetailSteps(o, HUB_FIELDS)[0] == Attempt(DetailSteps(o, PAGE_FIELDS)[0].call, ForHub(DetailSteps(o, PAGE_FIELDS)[0].write));
    }
  }

  /** Apart from the detail columns the two editors are the same: the hub's detail update
      is the page's cut down to the hub's columns, and every other write is identical. */
  lemma EditorsAgreeElsewhere(o: Order, fails: Oracle)
    ensures |HubSave(o, fails).writes| == |PageSave(o, fails).writes|
    ensures HubSave(o, fails).selectionCleared == PageSave(o, fails).selectionCleared
    ensures forall k :: 0 <= k < |PageSave(o, fails).writes| ==>
      HubSave(o, fails).writes[k] == ForHub(PageSave(o, fails).writes[k])
  {
    var hp, pp := EditPlan(o, HUB_FIELDS), EditPlan(o, PAGE_FIELDS);
    HubPlanFromPage(o);
    CallsAgree(hp, pp, fails);
    var hr, pr := Execute(hp, fails), Execute(pp, fails);
    forall k | 0 <= k < |pr.done|
      ensures hr.done[k] == ForHub(pr.done[k])
    {
      assert hr.done[k] == hp[k].write && pr.done[k] == pp[k].write;
    }
  }

  /** Two plans that make the same calls stop at the same place. */
  lemma {:induction false} CallsAgree(p: seq<Attempt>, q: seq<Attempt>, fails: Oracle)
    requires |p| == |q| && forall i :: 0 <= i < |p| ==> p[i].call == q[i].call
    ensures |Execute(p, fails).done| == |Execute(q, fails).done|
    ensures Execute(p, fails).failed == Execute(q, fails).failed
  {
    if p != [] && p[0].call !in fails {
      CallsAgree(p[1..], q[1..], fails);
    }
  }

  /** Saving from the details modal and then through the page's editor persists the chosen
      stage and the form's detail edits, while the vehicle row is written back with the
      values it already had: the modal's vehicle fields never reach the store. */
  lemma ModalThenPageEditor(o: Order, stage: Stage, f: Form)
    requires HasDetailId(o) && HasVehicleId(o)
    ensures var ws := PageSave(Save(o, stage, f), {}).writes;
      && ws[0] == UpdateOrderStatus(o.id, Some(StageToDb(stage)))
      && ws[1].UpdateDetail? && ws[1].fields[Labour] == Some(f.labour)
      && ws[1].fields[Cost] == Some(f.totalAmount) && ws[1].fields[Description] == Some(f.detailDescription)
      && ws[|ws| - 1] == UpdateVehicle(FirstVehicle(o).value.id.value, VehicleDataOf(FirstVehicle(o).value))
  {
    var s := Save(o, stage, f);
    SaveRewritesFirstDetail(o, stage, f);
    assert HasCustomerId(s) == HasCustomerId(o);
    assert FirstVehicle(s) == FirstVehicle(o);
    EditWritesInOrder(s, PAGE_FIELDS);
  }
}
