/**
 * The hosted store as the workflows see it: the remote calls they make, the writes those
 * calls perform, and a failure oracle standing in for the store's errors. A workflow is a
 * plan of attempted writes; running the plan performs them in order and stops at the
 * first one the oracle fails, with no compensation for the writes already done.
 */
module Remote {
  import opened Js

  /** Every remote call a workflow can make, so the oracle can name the ones that fail. */
  datatype Call =
    | ShopLookup | VehicleLookup
    | CustomerInsert | LinkInsert | VehicleInsert | OrderInsert | DetailInsert
    | StatusUpdate | DetailUpdate | CustomerUpdate | VehicleUpdate

  /** The failure oracle: the calls the store rejects. */
  type Oracle = set<Call>

  /** The detail-row columns the workflows write. */
  datatype DetailField = Description | Labour | Parts | Notes | Cost | Mileage | TaskPriority | MechanicId

  /** The vehicle columns the workflows write. */
  datatype VehicleData = VehicleData(
    year: Option<string>,
    make: Option<string>,
    model: Option<string>,
    engineType: Option<string>,
    vin: Option<string>)

  /** A write that took effect in the store, with the columns it sets. A status of `None`
      is a JavaScript `undefined`, which the request body leaves out. */
  datatype Write =
    | InsertCustomer(newCustomer: string, customerName: string)
    | InsertShopLink(linkId: string, linkShop: string, linkCustomer: string, linkCreatedAt: string)
    | InsertVehicle(vehicleId: string, owner: string, vehicle: VehicleData)
    | InsertOrder(newOrder: string, orderShop: string, orderCustomer: string,
                  vehicleRef: string, status: string, orderCreatedAt: string)
    | InsertBareOrder(bareStatus: Option<string>)
    | InsertDetail(newDetail: Option<string>, detailOrder: string, fields: map<DetailField, Option<string>>)
    | UpdateOrderStatus(orderId: string, newStatus: Option<string>)
    | UpdateDetail(detailId: string, fields: map<DetailField, Option<string>>)
    | UpdateCustomerName(customerId: string, name: Option<string>)
    | UpdateVehicle(vehicleId: string, vehicle: VehicleData)

  /** One step of a plan: the call that performs a write. */
  datatype Attempt = Attempt(call: Call, write: Write)

  /** The writes that took effect, and the call that failed, if one did. */
  datatype Run = Run(done: seq<Write>, failed: Option<Call>)

  function Writes(plan: seq<Attempt>): (ws: seq<Write>)
    ensures |ws| == |plan|
    ensures forall i :: 0 <= i < |plan| ==> ws[i] == plan[i].write
  {
    if plan == [] then [] else [plan[0].write] + Writes(plan[1..])
  }

  /** Performs the plan's writes in order, stopping at the first call the oracle fails. */
  function Execute(plan: seq<Attempt>, fails: Oracle): (r: Run)
    ensures |r.done| <= |plan|
    ensures r.done == Writes(plan)[..|r.done|]
    ensures forall i :: 0 <= i < |r.done| ==> plan[i].call !in fails
    ensures r.failed.None? <==> |r.done| == |plan|
    ensures r.failed.Some? ==> plan[|r.done|].call == r.failed.value && r.failed.value in fails
  {
    if plan == [] then Run([], None)
    else if plan[0].call in fails then Run([], Some(plan[0].call))
    else
      var rest := Execute(plan[1..], fails);
      ConsPrefix(plan[0].write, rest.done, Writes(plan[1..]));
      Run([plan[0].write] + rest.done, rest.failed)
  }

  /** Putting the same element in front keeps a prefix a prefix. */
  lemma ConsPrefix<T>(x: T, a: seq<T>, b: seq<T>)
    requires |a| <= |b| && a == b[..|a|]
    ensures [x] + a == ([x] + b)[..1 + |a|]
  {
  }

  /** With no failures the whole plan is performed. */
  lemma ExecuteAll(plan: seq<Attempt>)
    ensures Execute(plan, {}) == Run(Writes(plan), None)
  {
  }

  /** The writes of two plans run one after the other are the first's, then the second's. */
  lemma WritesAppend(p: seq<Attempt>, q: seq<Attempt>)
    ensures Writes(p + q) == Writes(p) + Writes(q)
  {
  }

  /** Whatever fails, the writes performed are a prefix of the plan's, and they are the
      writes the failure-free run performs up to that point. */
  lemma ExecutePrefix(plan: seq<Attempt>, fails: Oracle)
    ensures Execute(plan, fails).done <= Execute(plan, {}).done
  {
    ExecuteAll(plan);
  }
}
