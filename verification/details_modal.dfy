/**
 * The work-order details modal: the full nested record it edits, the form it fills from
 * that record, and `handleSave`, which builds the record handed to the page's editor.
 */
module DetailsModal {
  import opened Js
  import opened Status

  /** A `repair_order_details` row as the modal sees it. */
  datatype DetailRecord = DetailRecord(
    id: Option<string>,
    mechanicId: Option<string>,
    labour: Option<string>,
    parts: Option<string>,
    notes: Option<string>,
    cost: Option<string>,
    mileage: Option<string>,
    taskPriority: Option<string>,
    description: Option<string>,
    assignedTo: Option<string>)

  /** A `customer_vehicles` row. */
  datatype VehicleRecord = VehicleRecord(
    id: Option<string>,
    year: Option<string>,
    make: Option<string>,
    model: Option<string>,
    engineType: Option<string>,
    vin: Option<string>)

  /** A `customers` row with its vehicles. */
  datatype CustomerRecord = CustomerRecord(
    id: Option<string>,
    name: Option<string>,
    email: Option<string>,
    phone: Option<string>,
    vehicles: Option<seq<VehicleRecord>>)

  /** `DetailedRepairOrder`: a repair order with its nested detail rows and customer. */
  datatype Order = Order(
    id: string,
    createdAt: string,
    status: string,
    customerId: string,
    details: Option<seq<DetailRecord>>,
    customer: Option<CustomerRecord>)

  /** The modal's `formData`. */
  datatype Form = Form(
    customerName: string,
    contact: string,
    date: string,
    year: string,
    make: string,
    model: string,
    engineType: string,
    vin: string,
    mileage: string,
    labour: string,
    parts: string,
    notes: string,
    totalAmount: string,
    assignedToName: string,
    taskPriority: string,
    detailDescription: string)

  const UNKNOWN_CUSTOMER: string := "Unknown Customer"
  const NORMAL_PRIORITY: string := "Normal"

  function FirstDetail(o: Order): Option<DetailRecord> {
    if o.details.Some? && |o.details.value| > 0 then Some(o.details.value[0]) else None
  }

  function FirstVehicle(o: Order): Option<VehicleRecord> {
    if o.customer.Some? && o.customer.value.vehicles.Some? && |o.customer.value.vehicles.value| > 0
    then Some(o.customer.value.vehicles.value[0])
    else None
  }

  /** A field of an optional record, `record?.field`. */
  function Field<R>(r: Option<R>, get: R -> Option<string>): Option<string> {
    if r.Some? then get(r.value) else None
  }

  /** The status the modal starts with. */
  function InitialStage(o: Order): Stage {
    DbToStage(o.status)
  }

  /** The form the modal starts with: every field from the record, with defaults for the
      missing ones. */
  function InitialForm(o: Order): Form {
    var c := o.customer;
    var d := FirstDetail(o);
    var v := FirstVehicle(o);
    Form(
      Or(Field(c, (x: CustomerRecord) => x.name), UNKNOWN_CUSTOMER),
      Trim(Show(Field(c, (x: CustomerRecord) => x.email)) + " | " + Show(Field(c, (x: CustomerRecord) => x.phone))),
      o.createdAt,
      OrEmpty(Field(v, (x: VehicleRecord) => x.year)),
      OrEmpty(Field(v, (x: VehicleRecord) => x.make)),
      OrEmpty(Field(v, (x: VehicleRecord) => x.model)),
      OrEmpty(Field(v, (x: VehicleRecord) => x.engineType)),
      OrEmpty(Field(v, (x: VehicleRecord) => x.vin)),
      OrEmpty(Field(d, (x: DetailRecord) => x.mileage)),
      OrEmpty(Field(d, (x: DetailRecord) => x.labour)),
      OrEmpty(Field(d, (x: DetailRecord) => x.parts)),
      OrEmpty(Field(d, (x: DetailRecord) => x.notes)),
      OrEmpty(Field(d, (x: DetailRecord) => x.cost)),
      OrEmpty(Field(d, (x: DetailRecord) => x.assignedTo)),
      Or(Field(d, (x: DetailRecord) => x.taskPriority), NORMAL_PRIORITY),
      OrEmpty(Field(d, (x: DetailRecord) => x.description)))
  }

  /** The first detail row with the form's edits written over its editable fields. */
  function EditedDetail(d: DetailRecord, f: Form): DetailRecord {
    d.(mileage := Some(f.mileage), labour := Some(f.labour), parts := Some(f.parts),
       notes := Some(f.notes), cost := Some(f.totalAmount), taskPriority := Some(f.taskPriority),
       description := Some(f.detailDescription))
  }

  /** `handleSave`: the record handed to the page's editor. */
  function Save(o: Order, stage: Stage, f: Form): (r: Order)
    ensures r.id == o.id && r.createdAt == o.createdAt && r.customerId == o.customerId
    ensures IsPersisted(r.status) && DbToStage(r.status) == stage
    ensures r.details.Some? && |r.details.value| <= 1
    ensures |r.details.value| == 1 <==> FirstDetail(o).Some?
    ensures r.customer.Some? && r.customer.value.name == Some(f.customerName)
  {
    StageRoundTrip(stage, o.status);
    var details := if FirstDetail(o).Some? then [EditedDetail(FirstDetail(o).value, f)] else [];
    var customer := if o.customer.Some? then o.customer.value.(name := Some(f.customerName))
                    else CustomerRecord(None, Some(f.customerName), None, None, None);
    o.(status := StageToDb(stage), details := Some(details), customer := Some(customer))
  }

  // ---------------------------------------------------------------------------
  // Properties of the modal

  /** The kept first detail row keeps its id, mechanic and assignee, and takes the seven
      editable fields from the form. */
  lemma SaveRewritesFirstDetail(o: Order, stage: Stage, f: Form)
    requires FirstDetail(o).Some?
    ensures var d := FirstDetail(o).value;
      var d' := Save(o, stage, f).details.value[0];
      && d'.id == d.id && d'.mechanicId == d.mechanicId && d'.assignedTo == d.assignedTo
      && d'.mileage == Some(f.mileage) && d'.labour == Some(f.labour) && d'.parts == Some(f.parts)
      && d'.notes == Some(f.notes) && d'.cost == Some(f.totalAmount)
      && d'.taskPriority == Some(f.taskPriority) && d'.description == Some(f.detailDescription)
  {
  }

  /** Only the customer's name changes: id, email, phone and vehicles pass through, so the
      vehicle fields of the form never reach the saved record. */
  lemma SaveIgnoresVehicleEdits(o: Order, stage: Stage, f: Form, year: string, make: string,
                                model: string, engineType: string, vin: string)
    requires o.customer.Some?
    ensures var c := o.customer.value;
      var c' := Save(o, stage, f).customer.value;
      c'.id == c.id && c'.email == c.email && c'.phone == c.phone && c'.vehicles == c.vehicles
    ensures Save(o, stage, f) ==
            Save(o, stage, f.(year := year, make := make, model := model, engineType := engineType, vin := vin))
  {
  }

  /** Without a customer the saved record gets one holding just the name (no id). */
  lemma SaveWithoutCustomer(o: Order, stage: Stage, f: Form)
    requires o.customer.None?
    ensures Save(o, stage, f).customer == Some(CustomerRecord(None, Some(f.customerName), None, None, None))
  {
  }

  /** `field` holds `src || dflt`: the source value when it is truthy, the default when it
      is missing or empty. */
  predicate CopiedOr(src: Option<string>, field: string, dflt: string) {
    (Truthy(src) ==> field == src.value) && (!Truthy(src) ==> field == dflt)
  }

  /** The form's defaults: a missing name is "Unknown Customer", a missing priority is
      "Normal", every other missing or empty field is empty; present, non-empty values are
      copied. The contact line is "email | phone" with only its outer white space cut, so it
      is "|" when the customer has neither. */
  lemma InitialFormDefaults(o: Order)
    ensures var f := InitialForm(o);
      var d := FirstDetail(o);
      var v := FirstVehicle(o);
      && (d.Some? ==>
            && CopiedOr(d.value.mileage, f.mileage, "") && CopiedOr(d.value.labour, f.labour, "")
            && CopiedOr(d.value.parts, f.parts, "") && CopiedOr(d.value.notes, f.notes, "")
            && CopiedOr(d.value.cost, f.totalAmount, "") && CopiedOr(d.value.assignedTo, f.assignedToName, "")
            && CopiedOr(d.value.description, f.detailDescription, ""))
      && (v.Some? ==>
            && CopiedOr(v.value.year, f.year, "") && CopiedOr(v.value.make, f.make, "")
            && CopiedOr(v.value.model, f.model, "") && CopiedOr(v.value.engineType, f.engineType, "")
            && CopiedOr(v.value.vin, f.vin, ""))
    ensures var f := InitialForm(o);
      (o.customer.None? || (o.customer.value.email.None? && o.customer.value.phone.None?)) ==> f.contact == "|"
    ensures var f := InitialForm(o);
      var e := if o.customer.Some? then o.customer.value.email else None;
      var p := if o.customer.Some? then o.customer.value.phone else None;
      (Truthy(e) && !IsSpace(e.value[0]) && Truthy(p) && !IsSpace(p.value[|p.value| - 1]))
      ==> f.contact == e.value + " | " + p.value
    ensures var f := InitialForm(o);
      && ((o.customer.None? || !Truthy(o.customer.value.name)) ==> f.customerName == UNKNOWN_CUSTOMER)
      && ((o.customer.Some? && Truthy(o.customer.value.name)) ==> f.customerName == o.customer.value.name.value)
      && ((FirstDetail(o).None? || !Truthy(FirstDetail(o).value.taskPriority)) ==> f.taskPriority == NORMAL_PRIORITY)
      && ((FirstDetail(o).Some? && Truthy(FirstDetail(o).value.taskPriority))
          ==> f.taskPriority == FirstDetail(o).value.taskPriority.value)
      && (FirstDetail(o).None? ==> f.mileage == "" && f.labour == "" && f.parts == "" && f.notes == ""
                                   && f.totalAmount == "" && f.assignedToName == "" && f.detailDescription == "")
      && (FirstVehicle(o).None? ==> f.year == "" && f.make == "" && f.model == "" && f.engineType == "" && f.vin == "")
      && f.date == o.createdAt
  {
    var c := o.customer;
    var e := Show(Field(c, (x: CustomerRecord) => x.email));
    var p := Show(Field(c, (x: CustomerRecord) => x.phone));
    if e == "" && p == "" {
      BlankContact();
    } else if e != [] && !IsSpace(e[0]) && p != [] && !IsSpace(p[|p| - 1]) {
      TrimUntrimmed(e + " | " + p);
    }
  }

  /** " | " trims to "|". */
  lemma BlankContact()
    ensures Trim("" + " | " + "") == "|"
  {
    var s := "" + " | " + "";
    assert s == " | ";
    assert LeadingSpaces(s[1..]) == 0;
    assert LeadingSpaces(s) == 1;
    var t := s[1..];
    assert t == "| ";
    assert TrailingSpaces(t[..1]) == 0;
    assert TrailingSpaces(t) == 1;
  }

  /** Saving without touching anything is not the identity: an absent or empty customer
      name is persisted as "Unknown Customer", an absent priority as "Normal", and an
      unrecognised status as "Pending". */
  lemma SaveUneditedIsNotIdentity(o: Order)
    ensures var r := Save(o, InitialStage(o), InitialForm(o));
      && (o.customer.Some? && !Truthy(o.customer.value.name) ==> r.customer.value.name == Some(UNKNOWN_CUSTOMER))
      && ((FirstDetail(o).Some? && FirstDetail(o).value.taskPriority.None?)
          ==> r.details.value[0].taskPriority == Some(NORMAL_PRIORITY))
      && r.status == (if IsPersisted(o.status) then o.status else PENDING)
  {
    StageRoundTrip(InitialStage(o), o.status);
  }
}
