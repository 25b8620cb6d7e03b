/**
 * The work-order form: its state, the customer options it offers, the two handlers that
 * change the state, the task it builds on save, and the priority colours.
 */
module WorkOrderForm {
  import opened Js
  import opened Status

  /** `workOrderData`. */
  datatype FormState = FormState(
    taskName: string,
    customerId: string,
    customerName: string,
    description: string,
    year: string,
    make: string,
    model: string,
    engineType: string,
    vin: string,
    mileage: string,
    priority: string,
    assignedTo: string,
    labor: string,
    parts: string,
    notes: string,
    totalAmount: string)

  const HIGH: string := "high"
  const NEW_CUSTOMER: string := "new"

  /** The state the form opens with. */
  const INITIAL: FormState := FormState("", "", "", "", "", "", "", "", "", "", HIGH, "", "", "", "", "")

  /** A `customer_vehicles` row as an option holds it; `{}` has every field missing. */
  datatype OptionVehicle = OptionVehicle(
    year: Option<string>,
    make: Option<string>,
    model: Option<string>,
    engineType: Option<string>,
    vin: Option<string>)

  const NO_VEHICLE: OptionVehicle := OptionVehicle(None, None, None, None, None)

  /** A `shop_customers` row joined with its customer and the customer's vehicles. */
  datatype ShopCustomerRow = ShopCustomerRow(customerId: string, customerName: string,
                                             vehicles: Option<seq<OptionVehicle>>)

  datatype CustomerOption = CustomerOption(id: string, name: string, vehicle: OptionVehicle)

  /** The task handed to `onAddTask` on save. */
  datatype FormTask = FormTask(id: string, title: string, vehicle: string, date: string,
                               status: string, column: Column, priority: string)

  /** The option built from one shop-customer row. */
  function ToOption(row: ShopCustomerRow): CustomerOption {
    var v := if row.vehicles.Some? && |row.vehicles.value| > 0 then row.vehicles.value[0] else NO_VEHICLE;
    CustomerOption(row.customerId, row.customerName, v)
  }

  /** The customer options: one per shop-customer row, in row order. */
  function CustomerOptions(rows: seq<ShopCustomerRow>): (opts: seq<CustomerOption>)
    ensures |opts| == |rows|
    ensures forall i :: 0 <= i < |rows| ==>
      && opts[i].id == rows[i].customerId && opts[i].name == rows[i].customerName
      && opts[i].vehicle == (if rows[i].vehicles.Some? && |rows[i].vehicles.value| > 0
                             then rows[i].vehicles.value[0] else NO_VEHICLE)
  {
    seq(|rows|, i requires 0 <= i < |rows| => ToOption(rows[i]))
  }

  /** `options.find(opt => opt.id === id)`. */
  function FindOption(opts: seq<CustomerOption>, id: string): (r: Option<CustomerOption>)
    ensures r.None? <==> forall i :: 0 <= i < |opts| ==> opts[i].id != id
    ensures r.Some? ==> exists i :: 0 <= i < |opts| && opts[i] == r.value && r.value.id == id
                                    && forall j :: 0 <= j < i ==> opts[j].id != id
  {
    if opts == [] then None
    else if opts[0].id == id then Some(opts[0])
    else
      var r := FindOption(opts[1..], id);
      if r.Some? then
        ghost var i :| 0 <= i < |opts[1..]| && opts[1..][i] == r.value && r.value.id == id
                       && forall j :: 0 <= j < i ==> opts[1..][j].id != id;
        assert opts[i + 1] == r.value;
        r
      else r
  }

  /** The fields the customer selector does not own are equal in both states. */
  predicate SameWork(s: FormState, r: FormState) {
    && r.taskName == s.taskName && r.description == s.description && r.mileage == s.mileage
    && r.priority == s.priority && r.assignedTo == s.assignedTo && r.labor == s.labor
    && r.parts == s.parts && r.notes == s.notes && r.totalAmount == s.totalAmount
  }

  predicate NoVehicleTyped(s: FormState) {
    s.year == "" && s.make == "" && s.model == "" && s.engineType == "" && s.vin == ""
  }

  /** `handleCustomerChange`. */
  function ChangeCustomer(s: FormState, opts: seq<CustomerOption>, value: string): (r: FormState)
    ensures SameWork(s, r)
    ensures value == NEW_CUSTOMER ==> r.customerId == NEW_CUSTOMER && r.customerName == "" && NoVehicleTyped(r)
    ensures value != NEW_CUSTOMER && FindOption(opts, value).None? ==> r == s
    ensures value != NEW_CUSTOMER && FindOption(opts, value).Some? ==>
      var o := FindOption(opts, value).value;
      && r.customerId == value && r.customerName == o.name
      && r.year == OrEmpty(o.vehicle.year) && r.make == OrEmpty(o.vehicle.make)
      && r.model == OrEmpty(o.vehicle.model) && r.engineType == OrEmpty(o.vehicle.engineType)
      && r.vin == OrEmpty(o.vehicle.vin)
  {
    if value == NEW_CUSTOMER then
      s.(customerId := NEW_CUSTOMER, customerName := "", year := "", make := "", model := "",
         engineType := "", vin := "")
    else
      match FindOption(opts, value)
      case None => s
      case Some(o) =>
        s.(customerId := o.id, customerName := o.name, year := OrEmpty(o.vehicle.year),
           make := OrEmpty(o.vehicle.make), model := OrEmpty(o.vehicle.model),
           engineType := OrEmpty(o.vehicle.engineType), vin := OrEmpty(o.vehicle.vin))
  }

  /** `handleAssignedToChange`. */
  function ChangeAssignee(s: FormState, value: string): (r: FormState)
    ensures r.assignedTo == value
    ensures r.(assignedTo := s.assignedTo) == s
  {
    s.(assignedTo := value)
  }

  /** The form's "year make model" (untrimmed). */
  function VehicleText(s: FormState): string {
    Join3(s.year, s.make, s.model)
  }

  /** The task `handleSave` builds; `id` is `Date.now()` and `nowIso` the current ISO time. */
  function BuildTask(s: FormState, id: string, nowIso: string): (t: FormTask)
    ensures t.id == id && t.priority == s.priority
    ensures t.status == "red" && t.column == Todo && LightToColumn(t.status) == t.column
    ensures t.vehicle == VehicleText(s) && |t.vehicle| >= 2
    ensures t.title == (if s.taskName != "" then s.taskName else t.vehicle) && t.title != ""
    ensures t.date <= nowIso && 'T' !in t.date
  {
    FormTask(id, if s.taskName != "" then s.taskName else VehicleText(s), VehicleText(s),
             BeforeFirst(nowIso, 'T'), "red", Todo, s.priority)
  }

  /** `getPriorityColor` (a Tailwind background class). */
  function PriorityColor(priority: string): string {
    if priority == HIGH then "bg-[#e23232]"
    else if priority == "medium" then "bg-[#d6cd24]"
    else if priority == "low" then "bg-[#1eb386]"
    else "bg-[#e23232]"
  }

  // ---------------------------------------------------------------------------
  // Properties of the form

  /** The form opens with priority "high" and every other field empty, so its priority is
      shown in red. */
  lemma InitialState()
    ensures INITIAL.priority == HIGH && PriorityColor(INITIAL.priority) == "bg-[#e23232]"
    ensures NoVehicleTyped(INITIAL) && INITIAL.customerId == "" && INITIAL.customerName == ""
    ensures INITIAL.(priority := "") == FormState("", "", "", "", "", "", "", "", "", "", "", "", "", "", "", "")
  {
  }

  /** Choosing a customer that the options list comes from a shop-customer row: the row's id
      and name are copied, with the first of its vehicles, if any. */
  lemma ChooseListedCustomer(s: FormState, rows: seq<ShopCustomerRow>, i: int)
    requires 0 <= i < |rows| && rows[i].customerId != NEW_CUSTOMER
    requires forall j :: 0 <= j < |rows| && rows[j].customerId == rows[i].customerId ==> j == i
    ensures var r := ChangeCustomer(s, CustomerOptions(rows), rows[i].customerId);
      && r.customerId == rows[i].customerId && r.customerName == rows[i].customerName
      && (rows[i].vehicles.None? || rows[i].vehicles.value == [] ==> NoVehicleTyped(r))
  {
    var opts := CustomerOptions(rows);
    var found := FindOption(opts, rows[i].customerId);
    assert opts[i].id == rows[i].customerId;
    var k :| 0 <= k < |opts| && opts[k] == found.value && found.value.id == rows[i].customerId
             && forall j :: 0 <= j < k ==> opts[j].id != rows[i].customerId;
    assert k == i;
  }

  /** The last choice of customer wins: choosing again after any earlier choice gives the
      same state as choosing once, for "new" and for every listed customer. */
  lemma LastCustomerChoiceWins(s: FormState, opts: seq<CustomerOption>, first: string, second: string)
    requires second == NEW_CUSTOMER || FindOption(opts, second).Some?
    ensures ChangeCustomer(ChangeCustomer(s, opts, first), opts, second) == ChangeCustomer(s, opts, second)
  {
  }

  /** Picking a customer never touches the assignee, and picking an assignee never touches
      the customer: the two handlers commute. */
  lemma HandlersCommute(s: FormState, opts: seq<CustomerOption>, value: string, assignee: string)
    ensures ChangeAssignee(ChangeCustomer(s, opts, value), assignee)
         == ChangeCustomer(ChangeAssignee(s, assignee), opts, value)
  {
  }

  /** With no task name the title is the vehicle text; a form with nothing typed yields the
      title "  " (two spaces), never an empty one. */
  lemma BlankFormTitle(id: string, nowIso: string)
    ensures BuildTask(INITIAL, id, nowIso).title == "  "
    ensures BuildTask(INITIAL, id, nowIso).vehicle == "  "
  {
  }

  /** High, medium and low get red, yellow and green; any other priority is red. */
  lemma PriorityColorCases(priority: string)
    ensures PriorityColor(HIGH) == "bg-[#e23232]"
    ensures PriorityColor("medium") == "bg-[#d6cd24]"
    ensures PriorityColor("low") == "bg-[#1eb386]"
    ensures priority !in {"medium", "low"} ==> PriorityColor(priority) == "bg-[#e23232]"
  {
  }
}
