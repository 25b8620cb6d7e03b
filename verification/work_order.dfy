/**
 * Creating a work order from the work-order form (`handleSaveWorkOrder` of the mechanic
 * hub). The entity resolver picks or creates the customer and the vehicle; the writer then
 * inserts the repair order and its detail row. Every write is a step of one plan, executed
 * in order against the failure oracle: a failed step stops the rest, and nothing already
 * written is undone.
 */
module WorkOrder {
  import opened Js
  import opened Status
  import opened Remote
  import opened WorkOrderForm

  /** A `customer_vehicles` row, as far as the vehicle lookup reads it. */
  datatype StoredVehicle = StoredVehicle(id: string, customerId: string)

  /** The store as the workflow reads it: the user's shop and the vehicles on file. The
      lookup of the user's row can still fail through the oracle (`ShopLookup`). */
  datatype Store = Store(shopId: Option<string>, vehicles: seq<StoredVehicle>)

  /** The values the workflow draws: `uuidv4()` once per inserted row, and the two separate
      reads of `new Date().toISOString()`, one for the shop link and one for the order. */
  datatype Fresh = Fresh(customer: string, link: string, vehicle: string, order: string,
                         detail: string, linkTime: string, orderTime: string)

  /** Why the workflow gave up without a remote error. */
  datatype Reason = NoShop | NoVehicleForNewCustomer | NoVehicleOnFile | NoVehicleId

  /** What the resolver settles on: the customer and vehicle the order will reference. */
  datatype Target = Resolved(customer: string, vehicle: string) | Unresolved(reason: Reason)

  datatype Outcome = Created | NotSignedIn | Rejected(reason: Reason) | Failed(call: Call)

  /** The writes that took effect, and how the workflow ended. */
  datatype Creation = Creation(writes: seq<Write>, outcome: Outcome)

  /** A plan of writes, and the rejection that follows it, if the plan does not end in a
      complete order. */
  datatype Plan = Plan(steps: seq<Attempt>, rejection: Option<Reason>)

  /** The customer id the form asks for a new customer with. */
  predicate IsNewCustomer(f: FormState) {
    f.customerId == NEW_CUSTOMER || f.customerId == ""
  }

  /** At least one of the five vehicle fields was typed. */
  predicate AnyVehicleTyped(f: FormState) {
    !NoVehicleTyped(f)
  }

  function TypedVehicle(f: FormState): VehicleData {
    VehicleData(Some(f.year), Some(f.make), Some(f.model), Some(f.engineType), Some(f.vin))
  }

  /** The detail row's columns, taken from the form. */
  function DetailColumns(f: FormState): map<DetailField, Option<string>> {
    map[Description := Some(f.taskName), Labour := Some(f.labor), Parts := Some(f.parts),
        Notes := Some(f.notes), Cost := Some(f.totalAmount), Mileage := Some(f.mileage),
        TaskPriority := Some(f.priority), MechanicId := Some(f.assignedTo)]
  }

  /** The first vehicle on file for a customer (`limit(1)`), in store order. */
  function FirstVehicleOf(vs: seq<StoredVehicle>, customerId: string): (r: Option<string>)
    ensures r.None? <==> forall i :: 0 <= i < |vs| ==> vs[i].customerId != customerId
    ensures r.Some? ==> exists i :: 0 <= i < |vs| && vs[i].id == r.value && vs[i].customerId == customerId
  {
    if vs == [] then None
    else if vs[0].customerId == customerId then Some(vs[0].id)
    else
      var r := FirstVehicleOf(vs[1..], customerId);
      if r.Some? then
        ghost var i :| 0 <= i < |vs[1..]| && vs[1..][i].id == r.value && vs[1..][i].customerId == customerId;
        assert vs[i + 1] == vs[1..][i];
        r
      else r
  }

  function InsertVehicleStep(ids: Fresh, owner: string, f: FormState): Attempt {
    Attempt(VehicleInsert, InsertVehicle(ids.vehicle, owner, TypedVehicle(f)))
  }

  /** The entity resolver: the writes that make sure a customer and a vehicle exist, and
      the (customer, vehicle) pair the order will reference. */
  function Resolve(f: FormState, shop: string, vs: seq<StoredVehicle>, ids: Fresh)
    : (r: (seq<Attempt>, Target))
    ensures IsNewCustomer(f) ==> |r.0| >= 2 && r.0[0].write == InsertCustomer(ids.customer, f.customerName)
                                 && r.0[1].write == InsertShopLink(ids.link, shop, ids.customer, ids.linkTime)
    ensures !IsNewCustomer(f) ==> |r.0| <= 1
    ensures r.1.Resolved? ==> r.1.customer == (if IsNewCustomer(f) then ids.customer else f.customerId)
    ensures r.1.Resolved? ==>
      || (r.0 != [] && r.0[|r.0| - 1].write == InsertVehicle(r.1.vehicle, r.1.customer, TypedVehicle(f)))
      || (r.0 == [] && exists i :: 0 <= i < |vs| && vs[i].id == r.1.vehicle && vs[i].customerId == r.1.customer)
  {
    if IsNewCustomer(f) then
      var base := [Attempt(CustomerInsert, InsertCustomer(ids.customer, f.customerName)),
                   Attempt(LinkInsert, InsertShopLink(ids.link, shop, ids.customer, ids.linkTime))];
      if AnyVehicleTyped(f) then (base + [InsertVehicleStep(ids, ids.customer, f)], Resolved(ids.customer, ids.vehicle))
      else (base, Unresolved(NoVehicleForNewCustomer))
    else
      match FirstVehicleOf(vs, f.customerId)
      case Some(v) => ([], Resolved(f.customerId, v))
      case None =>
        if AnyVehicleTyped(f) then ([InsertVehicleStep(ids, f.customerId, f)], Resolved(f.customerId, ids.vehicle))
        else ([], Unresolved(NoVehicleOnFile))
  }

  /** The writer: the order, then its detail row. */
  function OrderSteps(f: FormState, shop: string, customer: string, vehicle: string, ids: Fresh): seq<Attempt> {
    [Attempt(OrderInsert, InsertOrder(ids.order, shop, customer, vehicle, PENDING, ids.orderTime)),
     Attempt(DetailInsert, InsertDetail(Some(ids.detail), ids.order, DetailColumns(f)))]
  }

  /** The whole plan for a signed-in user whose shop is known. */
  function CreationPlan(f: FormState, shop: string, vs: seq<StoredVehicle>, ids: Fresh): Plan {
    var (steps, target) := Resolve(f, shop, vs, ids);
    match target
    case Unresolved(reason) => Plan(steps, Some(reason))
    case Resolved(customer, vehicle) =>
      if vehicle == "" then Plan(steps, Some(NoVehicleId))
      else Plan(steps + OrderSteps(f, shop, customer, vehicle, ids), None)
  }

  /** `handleSaveWorkOrder`: `user` is the signed-in user's id. */
  function Create(user: Option<string>, f: FormState, store: Store, ids: Fresh, fails: Oracle): (c: Creation)
    ensures c.outcome == NotSignedIn <==> !Truthy(user)
    ensures c.outcome == Created ==> |c.writes| >= 2
    ensures c.outcome.Failed? ==> c.outcome.call in fails
  {
    if !Truthy(user) then Creation([], NotSignedIn)
    else if ShopLookup in fails then Creation([], Failed(ShopLookup))
    else if !Truthy(store.shopId) then Creation([], Rejected(NoShop))
    else if !IsNewCustomer(f) && VehicleLookup in fails then Creation([], Failed(VehicleLookup))
    else
      var plan := CreationPlan(f, store.shopId.value, store.vehicles, ids);
      var run := Execute(plan.steps, fails);
      if run.failed.Some? then Creation(run.done, Failed(run.failed.value))
      else if plan.rejection.Some? then Creation(run.done, Rejected(plan.rejection.value))
      else
        assert |plan.steps| >= 2;
        Creation(run.done, Created)
  }

  // ---------------------------------------------------------------------------
  // The load-bearing invariant: orders reference vehicles that exist

  /** The vehicle is on file and belongs to the customer. */
  ghost predicate OnFile(vs: seq<StoredVehicle>, vehicle: string, customer: string) {
    exists i :: 0 <= i < |vs| && vs[i].id == vehicle && vs[i].customerId == customer
  }

  predicate InsertsVehicleOf(w: Write, vehicle: string, customer: string) {
    w.InsertVehicle? && w.vehicleId == vehicle && w.owner == customer
  }

  /** The k-th write, if it is an order, references a non-empty vehicle of the order's
      customer that is on file or inserted earlier in the log, and is "Pending". */
  ghost predicate OrderOk(ws: seq<Write>, k: int, vs: seq<StoredVehicle>)
    requires 0 <= k < |ws|
  {
    ws[k].InsertOrder? ==>
      && ws[k].vehicleRef != "" && ws[k].status == PENDING
      && (|| OnFile(vs, ws[k].vehicleRef, ws[k].orderCustomer)
          || exists j :: 0 <= j < k && InsertsVehicleOf(ws[j], ws[k].vehicleRef, ws[k].orderCustomer))
  }

  /** The k-th write, if it is a detail row, follows the order it belongs to. */
  ghost predicate DetailOk(ws: seq<Write>, k: int)
    requires 0 <= k < |ws|
  {
    ws[k].InsertDetail? ==> exists j :: 0 <= j < k && ws[j].InsertOrder? && ws[j].newOrder == ws[k].detailOrder
  }

  /** Every order in a log references a vehicle that exists, and every detail row follows
      its order. */
  ghost predicate Referential(ws: seq<Write>, vs: seq<StoredVehicle>) {
    forall k :: 0 <= k < |ws| ==> OrderOk(ws, k, vs) && DetailOk(ws, k)
  }

  /** The failure-free plan keeps the invariant. */
  lemma PlanReferential(f: FormState, shop: string, vs: seq<StoredVehicle>, ids: Fresh)
    ensures Referential(Writes(CreationPlan(f, shop, vs, ids).steps), vs)
  {
    var r := Resolve(f, shop, vs, ids);
    var steps, target := r.0, r.1;
    ResolverWritesNoOrder(f, shop, vs, ids);
    if target.Resolved? && target.vehicle != "" {
      var order := OrderSteps(f, shop, target.customer, target.vehicle, ids);
      assert CreationPlan(f, shop, vs, ids).steps == steps + order;
      ResolvedTargetAnchored(f, shop, vs, ids);
      WritesAppend(steps, order);
      OrderStepsReferential(Writes(steps), f, shop, target.customer, target.vehicle, ids, vs);
    } else {
      assert CreationPlan(f, shop, vs, ids).steps == steps;
    }
  }

  /** A resolved vehicle is either the one the resolver inserted last or one on file for
      the customer. */
  lemma ResolvedTargetAnchored(f: FormState, shop: string, vs: seq<StoredVehicle>, ids: Fresh)
    requires Resolve(f, shop, vs, ids).1.Resolved?
    ensures var r := Resolve(f, shop, vs, ids);
      var rs := Writes(r.0);
      (rs != [] && InsertsVehicleOf(rs[|rs| - 1], r.1.vehicle, r.1.customer)) || OnFile(vs, r.1.vehicle, r.1.customer)
  {
  }

  /** The resolver writes no order and no detail row. */
  lemma ResolverWritesNoOrder(f: FormState, shop: string, vs: seq<StoredVehicle>, ids: Fresh)
    ensures var rs := Writes(Resolve(f, shop, vs, ids).0);
      forall k :: 0 <= k < |rs| ==> !rs[k].InsertOrder? && !rs[k].InsertDetail?
  {
  }

  /** An order and its detail row appended after writes that insert, last, the vehicle they
      reference (or after any order-free writes when that vehicle is on file) keep the
      invariant. */
  lemma OrderStepsReferential(rs: seq<Write>, f: FormState, shop: string, customer: string, vehicle: string,
                              ids: Fresh, vs: seq<StoredVehicle>)
    requires forall k :: 0 <= k < |rs| ==> !rs[k].InsertOrder? && !rs[k].InsertDetail?
    requires vehicle != ""
    requires (rs != [] && InsertsVehicleOf(rs[|rs| - 1], vehicle, customer)) || OnFile(vs, vehicle, customer)
    ensures Referential(rs + Writes(OrderSteps(f, shop, customer, vehicle, ids)), vs)
  {
    var ws := rs + Writes(OrderSteps(f, shop, customer, vehicle, ids));
    var n := |rs|;
    forall k | 0 <= k < |ws|
      ensures OrderOk(ws, k, vs) && DetailOk(ws, k)
    {
      if k < n {
        assert ws[k] == rs[k];
      } else if k == n {
        if !OnFile(vs, vehicle, customer) {
          assert InsertsVehicleOf(ws[n - 1], vehicle, customer);
        }
      } else {
        assert ws[n].InsertOrder? && ws[n].newOrder == ws[k].detailOrder;
      }
    }
  }

  /** A log cut short keeps the invariant. */
  lemma PrefixReferential(ws: seq<Write>, k: nat, vs: seq<StoredVehicle>)
    requires k <= |ws| && Referential(ws, vs)
    ensures Referential(ws[..k], vs)
  {
    var p := ws[..k];
    forall m | 0 <= m < |p|
      ensures OrderOk(p, m, vs) && DetailOk(p, m)
    {
      assert OrderOk(ws, m, vs) && DetailOk(ws, m);
      assert p[m] == ws[m];
      if p[m].InsertOrder? && !OnFile(vs, p[m].vehicleRef, p[m].orderCustomer) {
        var j :| 0 <= j < m && InsertsVehicleOf(ws[j], ws[m].vehicleRef, ws[m].orderCustomer);
        assert p[j] == ws[j];
      }
      if p[m].InsertDetail? {
        var j :| 0 <= j < m && ws[j].InsertOrder? && ws[j].newOrder == ws[m].detailOrder;
        assert p[j] == ws[j];
      }
    }
  }

  /** Whatever fails and whatever the form holds, no repair order is written without a
      non-empty vehicle id of its customer that exists on file or was inserted just before,
      every order is "Pending", and no detail row precedes its order. */
  lemma CreateKeepsReferences(user: Option<string>, f: FormState, store: Store, ids: Fresh, fails: Oracle)
    ensures Referential(Create(user, f, store, ids, fails).writes, store.vehicles)
  {
    if Truthy(user) && ShopLookup !in fails && Truthy(store.shopId) && !(!IsNewCustomer(f) && VehicleLookup in fails) {
      var plan := CreationPlan(f, store.shopId.value, store.vehicles, ids);
      var run := Execute(plan.steps, fails);
      PlanReferential(f, store.shopId.value, store.vehicles, ids);
      PrefixReferential(Writes(plan.steps), |run.done|, store.vehicles);
    }
  }

  // ---------------------------------------------------------------------------
  // The branches of the resolver

  /** Without a signed-in user nothing is written. */
  lemma NoUserNoWrites(f: FormState, store: Store, ids: Fresh, fails: Oracle)
    ensures Create(None, f, store, ids, fails) == Creation([], NotSignedIn)
    ensures Create(Some(""), f, store, ids, fails) == Creation([], NotSignedIn)
  {
  }

  /** A new customer with all five vehicle fields empty: the customer and the shop link are
      written, and only then is the form rejected. No vehicle, order or detail is written. */
  lemma NewCustomerWithoutVehicle(user: string, f: FormState, store: Store, ids: Fresh)
    requires user != "" && Truthy(store.shopId) && IsNewCustomer(f) && NoVehicleTyped(f)
    ensures Create(Some(user), f, store, ids, {}) ==
      Creation([InsertCustomer(ids.customer, f.customerName),
                InsertShopLink(ids.link, store.shopId.value, ids.customer, ids.linkTime)],
               Rejected(NoVehicleForNewCustomer))
  {
  }

  /** A new customer with a vehicle typed: one customer, one link to the user's shop and one
      vehicle owned by that customer, then the order referencing both, then its detail. */
  lemma NewCustomerWithVehicle(user: string, f: FormState, store: Store, ids: Fresh)
    requires user != "" && Truthy(store.shopId) && IsNewCustomer(f) && AnyVehicleTyped(f) && ids.vehicle != ""
    ensures var shop := store.shopId.value;
      Create(Some(user), f, store, ids, {}) ==
      Creation([InsertCustomer(ids.customer, f.customerName),
                InsertShopLink(ids.link, shop, ids.customer, ids.linkTime),
                InsertVehicle(ids.vehicle, ids.customer, TypedVehicle(f)),
                InsertOrder(ids.order, shop, ids.customer, ids.vehicle, PENDING, ids.orderTime),
                InsertDetail(Some(ids.detail), ids.order, DetailColumns(f))],
               Created)
  {
  }

  /** An existing customer with a vehicle on file: no vehicle is inserted and the first one
      on file is used, whatever vehicle fields were typed. */
  lemma ExistingCustomerWithVehicle(user: string, f: FormState, store: Store, ids: Fresh, v: string)
    requires user != "" && Truthy(store.shopId) && !IsNewCustomer(f)
    requires FirstVehicleOf(store.vehicles, f.customerId) == Some(v) && v != ""
    ensures var shop := store.shopId.value;
      Create(Some(user), f, store, ids, {}) ==
      Creation([InsertOrder(ids.order, shop, f.customerId, v, PENDING, ids.orderTime),
                InsertDetail(Some(ids.detail), ids.order, DetailColumns(f))],
               Created)
  {
  }

  /** An existing customer with no vehicle on file: a vehicle is inserted for them if any
      vehicle field was typed; otherwise the form is rejected with nothing written. */
  lemma ExistingCustomerWithoutVehicle(user: string, f: FormState, store: Store, ids: Fresh)
    requires user != "" && Truthy(store.shopId) && !IsNewCustomer(f)
    requires FirstVehicleOf(store.vehicles, f.customerId).None?
    ensures NoVehicleTyped(f) ==> Create(Some(user), f, store, ids, {}) == Creation([], Rejected(NoVehicleOnFile))
    ensures AnyVehicleTyped(f) && ids.vehicle != "" ==>
      var shop := store.shopId.value;
      Create(Some(user), f, store, ids, {}) ==
      Creation([InsertVehicle(ids.vehicle, f.customerId, TypedVehicle(f)),
                InsertOrder(ids.order, shop, f.customerId, ids.vehicle, PENDING, ids.orderTime),
                InsertDetail(Some(ids.detail), ids.order, DetailColumns(f))],
               Created)
  {
  }

  /** The detail row holds the form's task name as description, its labour, parts, notes,
      total as cost, mileage, priority and assignee as mechanic. */
  lemma DetailColumnsFromForm(f: FormState)
    ensures var m := DetailColumns(f);
      && m.Keys == {Description, Labour, Parts, Notes, Cost, Mileage, TaskPriority, MechanicId}
      && m[Description] == Some(f.taskName) && m[Cost] == Some(f.totalAmount)
      && m[TaskPriority] == Some(f.priority) && m[MechanicId] == Some(f.assignedTo)
  {
  }

  /** Writes happen in a fixed order and a failure stops everything after it with nothing
      undone: whatever fails, the writes are a prefix of the failure-free run's writes. */
  lemma FailureStopsLaterWrites(user: Option<string>, f: FormState, store: Store, ids: Fresh, fails: Oracle)
    ensures Create(user, f, store, ids, fails).writes <= Create(user, f, store, ids, {}).writes
    ensures Create(user, f, store, ids, fails).outcome == Created ==>
            Create(user, f, store, ids, fails) == Create(user, f, store, ids, {})
  {
    if Truthy(user) && ShopLookup !in fails && Truthy(store.shopId) && !(!IsNewCustomer(f) && VehicleLookup in fails) {
      ExecutePrefix(CreationPlan(f, store.shopId.value, store.vehicles, ids).steps, fails);
    }
  }
}
