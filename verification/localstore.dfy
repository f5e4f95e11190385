/**
 * The client's local replica: the customer and vehicle collections kept in
 * the browser's storage, and the `*Local*` functions of the API object that
 * read and write them. The storage is an in-memory `Store`; the clock
 * (`Date.now()`, `new Date()`) is the parameter `now`, and dates are integers.
 */
module LocalStore {
  import opened Wrappers
  import opened Text
  import Seqs

  datatype Customer = Customer(id: int, name: string, dateAdded: int, createdBy: string)

  /** A stored vehicle. A `vin` that is present is stored upper-cased by `SaveLocalVehicle`. */
  datatype Vehicle = Vehicle(
    id: int,
    vin: Option<string>,
    repairOrder: Option<string>,
    customerId: Option<int>,
    status: string,
    notes: string,
    lastUpdated: int,
    dateAdded: int,
    createdBy: string,
    updatedBy: string)

  datatype Store = Store(customers: seq<Customer>, vehicles: seq<Vehicle>)

  /** The shape `getLocalVehicles` hands out: the stored fields plus the customer's name. */
  datatype VehicleView = VehicleView(
    id: int,
    vin: Option<string>,
    repairOrder: Option<string>,
    customerId: Option<int>,
    customerName: string,
    status: string,
    notes: string,
    dateAdded: int,
    lastUpdated: int,
    createdBy: string,
    updatedBy: string)

  /** The vehicle payload of a save: `vin`, `repair_order`, `customer_id`, `status`, `notes`. */
  datatype VehicleInput = VehicleInput(
    vin: Option<string>,
    repairOrder: Option<string>,
    customerId: Option<int>,
    status: string,
    notes: string)

  /** The filters of `getLocalVehicles`; `None` is a falsy argument. */
  datatype Query = Query(customer: Option<int>, start: Option<int>, end: Option<int>)

  const Everything := Query(None, None, None)

  datatype Action = Created | Updated

  datatype ExportRow = ExportRow(
    vin: Option<string>, repairOrder: Option<string>, status: string,
    notes: string, dateAdded: int, lastUpdated: int)

  datatype ExportData = ExportData(
    customer: string, vehicles: seq<ExportRow>,
    rangeStart: Option<int>, rangeEnd: Option<int>, generatedAt: int)

  datatype Stats = Stats(total: nat, preScan: nat, postScan: nat, calibration: nat, completed: nat)

  /** The three errors the local store throws. */
  datatype StoreError =
    | CustomerExists        // "Customer already exists"
    | CustomerHasVehicles   // "Cannot delete customer with existing vehicles"
    | CustomerNotFound      // "Customer not found"

  /** What a local operation returns to its caller. */
  datatype Value =
    | Customers(customers: seq<Customer>)
    | CustomerSaved(id: int, name: string)
    | Deleted
    | Vehicles(views: seq<VehicleView>)
    | MaybeVehicle(found: Option<VehicleView>)
    | VehicleSaved(action: Action)
    | Export(data: ExportData)
    | Counts(stats: Stats)

  datatype LocalResult = Done(store: Store, value: Value) | Rejected(error: StoreError)

  /** JavaScript truthiness of an optional string: present and not empty. */
  predicate Truthy(o: Option<string>) { o.Some? && o.value != "" }

  /** `user || 'local'` */
  function AuthorOr(user: string): string { if user == "" then "local" else user }

  predicate SameName(a: string, b: string) { Lower(a) == Lower(b) }

  // ---------------------------------------------------------------- customers

  /** `c.id || index + 1`: the stored id, or the position counted from 1 when the stored id is falsy. */
  function ListedId(c: Customer, index: nat): int {
    if c.id != 0 then c.id else index + 1
  }

  /** `getLocalCustomers`: the stored customers, in order, with a falsy id replaced by the position. */
  function GetLocalCustomers(st: Store): (r: seq<Customer>)
    ensures |r| == |st.customers|
    ensures forall i :: 0 <= i < |r| ==> r[i].id != 0
    ensures forall i :: 0 <= i < |r| ==>
              && r[i].name == st.customers[i].name
              && r[i].dateAdded == st.customers[i].dateAdded
              && r[i].createdBy == st.customers[i].createdBy
              && (st.customers[i].id != 0 ==> r[i].id == st.customers[i].id)
              && (st.customers[i].id == 0 ==> r[i].id == i + 1)
  {
    seq(|st.customers|, i requires 0 <= i < |st.customers| => st.customers[i].(id := ListedId(st.customers[i], i)))
  }

  predicate NamesDistinct(cs: seq<Customer>) {
    forall i, j :: 0 <= i < j < |cs| ==> !SameName(cs[i].name, cs[j].name)
  }

  /** `saveLocalCustomer`: refuse a name already present in any letter case, else append one record. */
  function SaveLocalCustomer(st: Store, name: string, user: string, now: int): (r: LocalResult)
    ensures r.Rejected? <==> exists i :: 0 <= i < |st.customers| && SameName(st.customers[i].name, name)
    ensures r.Rejected? ==> r.error == CustomerExists
    ensures r.Done? ==>
              && r.store.vehicles == st.vehicles
              && r.store.customers == st.customers + [Customer(now, name, now, AuthorOr(user))]
              && r.value == CustomerSaved(now, name)
  {
    match Seqs.FindIndex(st.customers, (c: Customer) => SameName(c.name, name))
    case Some(_) => Rejected(CustomerExists)
    case None =>
      var customer := Customer(now, name, now, AuthorOr(user));
      Done(st.(customers := st.customers + [customer]), CustomerSaved(customer.id, customer.name))
  }

  /** Saving customers keeps customer names distinct without regard to case. */
  lemma SaveLocalCustomerKeepsNamesDistinct(st: Store, name: string, user: string, now: int)
    requires NamesDistinct(st.customers)
    requires SaveLocalCustomer(st, name, user, now).Done?
    ensures NamesDistinct(SaveLocalCustomer(st, name, user, now).store.customers)
  {
    var cs := SaveLocalCustomer(st, name, user, now).store.customers;
    forall i, j | 0 <= i < j < |cs|
      ensures !SameName(cs[i].name, cs[j].name)
    {
      if j == |st.customers| {
        assert cs[i] == st.customers[i];
      }
    }
  }

  predicate References(v: Vehicle, customerId: int) { v.customerId == Some(customerId) }

  /** Every vehicle that names a customer names one that is stored. */
  predicate ReferencesResolve(st: Store) {
    forall i :: 0 <= i < |st.vehicles| && st.vehicles[i].customerId.Some? ==>
      exists j :: 0 <= j < |st.customers| && st.customers[j].id == st.vehicles[i].customerId.value
  }

  function OtherCustomer(customerId: int): Customer -> bool {
    (c: Customer) => c.id != customerId
  }

  /** `deleteLocalCustomer`: refuse while a vehicle references the customer, else drop every customer with that id. */
  function DeleteLocalCustomer(st: Store, customerId: int): (r: LocalResult)
    ensures r.Rejected? <==> exists i :: 0 <= i < |st.vehicles| && References(st.vehicles[i], customerId)
    ensures r.Rejected? ==> r.error == CustomerHasVehicles
    ensures r.Done? ==>
              && r.store.vehicles == st.vehicles
              && r.value == Deleted
              && (forall i :: 0 <= i < |r.store.customers| ==>
                    r.store.customers[i] in st.customers && r.store.customers[i].id != customerId)
              && (forall i :: 0 <= i < |st.customers| && st.customers[i].id != customerId ==>
                    st.customers[i] in r.store.customers)
    // the survivors keep their stored order
    ensures r.Done? ==> r.store.customers == Seqs.Filter(st.customers, OtherCustomer(customerId))
  {
    match Seqs.FindIndex(st.vehicles, (v: Vehicle) => References(v, customerId))
    case Some(_) => Rejected(CustomerHasVehicles)
    case None => Done(st.(customers := Seqs.Filter(st.customers, OtherCustomer(customerId))), Deleted)
  }

  /** The delete guard keeps every vehicle's customer reference resolvable. */
  lemma DeleteLocalCustomerKeepsReferences(st: Store, customerId: int)
    requires ReferencesResolve(st)
    requires DeleteLocalCustomer(st, customerId).Done?
    ensures ReferencesResolve(DeleteLocalCustomer(st, customerId).store)
  {
    var after := DeleteLocalCustomer(st, customerId).store;
    forall i | 0 <= i < |after.vehicles| && after.vehicles[i].customerId.Some?
      ensures exists j :: 0 <= j < |after.customers| && after.customers[j].id == after.vehicles[i].customerId.value
    {
      var v := st.vehicles[i];
      var j :| 0 <= j < |st.customers| && st.customers[j].id == v.customerId.value;
      assert !References(v, customerId);
      assert st.customers[j] in after.customers;
      var k :| 0 <= k < |after.customers| && after.customers[k] == st.customers[j];
    }
  }

  // ----------------------------------------------------------------- vehicles

  /** The customer filter (skipped for a falsy id) and the inclusive date bounds of `getLocalVehicles`. */
  predicate Matches(v: Vehicle, q: Query) {
    && (q.customer.Some? && q.customer.value != 0 ==> References(v, q.customer.value))
    && (q.start.Some? ==> q.start.value <= v.dateAdded)
    && (q.end.Some? ==> v.dateAdded <= q.end.value)
  }

  function MatchesQuery(q: Query): Vehicle -> bool {
    v => Matches(v, q)
  }

  function CustomerName(customers: seq<Customer>, v: Vehicle): string {
    match Seqs.Find(customers, (c: Customer) => v.customerId == Some(c.id))
    case Some(c) => c.name
    case None => "Unknown Customer"
  }

  function ViewOf(customers: seq<Customer>, v: Vehicle): VehicleView {
    VehicleView(v.id, v.vin, v.repairOrder, v.customerId, CustomerName(customers, v), v.status,
                v.notes, v.dateAdded, v.lastUpdated, v.createdBy, v.updatedBy)
  }

  function Views(customers: seq<Customer>, vs: seq<Vehicle>): (r: seq<VehicleView>)
    ensures |r| == |vs|
    ensures forall i :: 0 <= i < |vs| ==> r[i] == ViewOf(customers, vs[i])
  {
    seq(|vs|, i requires 0 <= i < |vs| => ViewOf(customers, vs[i]))
  }

  /** The customer stage of `getLocalVehicles`, vacuous when the customer id is missing or 0. */
  function ByCustomer(q: Query): Vehicle -> bool {
    (v: Vehicle) => q.customer.Some? && q.customer.value != 0 ==> References(v, q.customer.value)
  }

  /** The start-date stage, vacuous without a start date. */
  function ByStart(q: Query): Vehicle -> bool {
    (v: Vehicle) => q.start.Some? ==> q.start.value <= v.dateAdded
  }

  /** The end-date stage, vacuous without an end date. */
  function ByEnd(q: Query): Vehicle -> bool {
    (v: Vehicle) => q.end.Some? ==> v.dateAdded <= q.end.value
  }

  function ByCustomerAndStart(q: Query): Vehicle -> bool {
    v => ByCustomer(q)(v) && ByStart(q)(v)
  }

  /** The three successive filters of `getLocalVehicles`, each applied only when its argument is truthy. */
  function StagedFilter(vs: seq<Vehicle>, q: Query): (r: seq<Vehicle>)
    ensures |r| <= |vs|
    ensures forall i :: 0 <= i < |r| ==> r[i] in vs && Matches(r[i], q)
  {
    var byCustomer := if q.customer.Some? && q.customer.value != 0 then Seqs.Filter(vs, ByCustomer(q)) else vs;
    var byStart := if q.start.Some? then Seqs.Filter(byCustomer, ByStart(q)) else byCustomer;
    if q.end.Some? then Seqs.Filter(byStart, ByEnd(q)) else byStart
  }

  /** A stage that is skipped is the filter by a predicate every element satisfies. */
  lemma SkippedStage(s: seq<Vehicle>, applied: bool, p: Vehicle -> bool)
    requires !applied ==> forall j :: 0 <= j < |s| ==> p(s[j])
    ensures (if applied then Seqs.Filter(s, p) else s) == Seqs.Filter(s, p)
  {
    if !applied {
      Seqs.FilterKeepsAll(s, p);
    }
  }

  /** Skipped stages are the identity, and chained filters are one filter by their conjunction. */
  lemma StagedFilterIsSelection(vs: seq<Vehicle>, q: Query)
    ensures StagedFilter(vs, q) == Seqs.Filter(vs, MatchesQuery(q))
  {
    var s1 := if q.customer.Some? && q.customer.value != 0 then Seqs.Filter(vs, ByCustomer(q)) else vs;
    SkippedStage(vs, q.customer.Some? && q.customer.value != 0, ByCustomer(q));
    var s2 := if q.start.Some? then Seqs.Filter(s1, ByStart(q)) else s1;
    SkippedStage(s1, q.start.Some?, ByStart(q));
    Seqs.FilterFusion(vs, ByCustomer(q), ByStart(q), ByCustomerAndStart(q));
    assert s2 == Seqs.Filter(vs, ByCustomerAndStart(q));
    SkippedStage(s2, q.end.Some?, ByEnd(q));
    Seqs.FilterFusion(vs, ByCustomerAndStart(q), ByEnd(q), MatchesQuery(q));
  }

  /** `getLocalVehicles`: in stored order, the views of exactly the vehicles matching the query. */
  function GetLocalVehicles(st: Store, q: Query): (r: seq<VehicleView>)
    ensures r == Views(GetLocalCustomers(st), Seqs.Filter(st.vehicles, MatchesQuery(q)))
  {
    StagedFilterIsSelection(st.vehicles, q);
    Views(GetLocalCustomers(st), StagedFilter(st.vehicles, q))
  }

  /** Without a query, `getLocalVehicles` lists every stored vehicle in stored order. */
  lemma ListsEverything(st: Store)
    ensures GetLocalVehicles(st, Everything) == Views(GetLocalCustomers(st), st.vehicles)
  {
    forall j | 0 <= j < |st.vehicles|
      ensures MatchesQuery(Everything)(st.vehicles[j])
    {
    }
    Seqs.FilterKeepsAll(st.vehicles, MatchesQuery(Everything));
  }

  /** The identifier test of `getLocalVehicleByIdentifier`: VIN or repair order, compared upper-cased. */
  predicate IdentifiedBy(vin: Option<string>, repairOrder: Option<string>, identifier: string) {
    || (Truthy(vin) && Upper(vin.value) == Upper(identifier))
    || (Truthy(repairOrder) && Upper(repairOrder.value) == Upper(identifier))
  }

  /** `getLocalVehicleByIdentifier`: the first stored vehicle the identifier names, or `None`. */
  function GetLocalVehicleByIdentifier(st: Store, identifier: string): (r: Option<VehicleView>)
    ensures r.None? <==>
              forall i :: 0 <= i < |st.vehicles| ==>
                !IdentifiedBy(st.vehicles[i].vin, st.vehicles[i].repairOrder, identifier)
    ensures r.Some? ==>
              exists i :: && 0 <= i < |st.vehicles|
                          && r.value == ViewOf(GetLocalCustomers(st), st.vehicles[i])
                          && IdentifiedBy(st.vehicles[i].vin, st.vehicles[i].repairOrder, identifier)
                          && forall j :: 0 <= j < i ==>
                               !IdentifiedBy(st.vehicles[j].vin, st.vehicles[j].repairOrder, identifier)
  {
    var views := GetLocalVehicles(st, Everything);
    ListsEverything(st);
    match Seqs.FindIndex(views, (w: VehicleView) => IdentifiedBy(w.vin, w.repairOrder, identifier))
    case Some(i) =>
      assert views[i] == ViewOf(GetLocalCustomers(st), st.vehicles[i]);
      Some(views[i])
    case None => None
  }

  /** `getLocalVehicleById`: the first stored vehicle with that id, or `None`. */
  function GetLocalVehicleById(st: Store, id: int): (r: Option<VehicleView>)
    ensures r.None? <==> forall i :: 0 <= i < |st.vehicles| ==> st.vehicles[i].id != id
    ensures r.Some? ==>
              exists i :: && 0 <= i < |st.vehicles|
                          && st.vehicles[i].id == id
                          && r.value == ViewOf(GetLocalCustomers(st), st.vehicles[i])
                          && forall j :: 0 <= j < i ==> st.vehicles[j].id != id
  {
    var views := GetLocalVehicles(st, Everything);
    ListsEverything(st);
    match Seqs.FindIndex(views, (w: VehicleView) => w.id == id)
    case Some(i) =>
      assert views[i] == ViewOf(GetLocalCustomers(st), st.vehicles[i]);
      Some(views[i])
    case None => None
  }

  /**
   * The slot test of `saveLocalVehicle`: same customer and the same VIN or
   * repair order. The stored VIN is compared with the payload's VIN as given,
   * not upper-cased.
   */
  predicate SameSlot(v: Vehicle, input: VehicleInput) {
    || (Truthy(input.vin) && v.vin == input.vin && v.customerId == input.customerId)
    || (Truthy(input.repairOrder) && v.repairOrder == input.repairOrder && v.customerId == input.customerId)
  }

  /** The VIN as `saveLocalVehicle` stores it. */
  function StoredVin(input: VehicleInput): Option<string> {
    if Truthy(input.vin) then Some(Upper(input.vin.value)) else None
  }

  /** The record `saveLocalVehicle` writes carries the payload, the clock and the user. */
  predicate Written(rec: Vehicle, input: VehicleInput, user: string, now: int) {
    && rec.vin == StoredVin(input)
    && rec.repairOrder == (if Truthy(input.repairOrder) then input.repairOrder else None)
    && rec.customerId == input.customerId
    && rec.status == input.status
    && rec.notes == input.notes
    && rec.lastUpdated == now
    && rec.createdBy == AuthorOr(user)
    && rec.updatedBy == AuthorOr(user)
  }

  /**
   * `saveLocalVehicle`: overwrite the first vehicle in the same slot, keeping
   * its `id` and `dateAdded`, or append a new one stamped with the clock.
   */
  function SaveLocalVehicle(st: Store, input: VehicleInput, user: string, now: int): (r: LocalResult)
    ensures r.Done? && r.store.customers == st.customers
    ensures r.value == VehicleSaved(Updated) <==> exists i :: 0 <= i < |st.vehicles| && SameSlot(st.vehicles[i], input)
    ensures r.value == VehicleSaved(Updated) ==>
              && |r.store.vehicles| == |st.vehicles|
              && exists i :: && 0 <= i < |st.vehicles| && SameSlot(st.vehicles[i], input)
                             && (forall j :: 0 <= j < i ==> !SameSlot(st.vehicles[j], input))
                             && Written(r.store.vehicles[i], input, user, now)
                             && r.store.vehicles[i].id == st.vehicles[i].id
                             && r.store.vehicles[i].dateAdded == st.vehicles[i].dateAdded
                             && (forall j :: 0 <= j < |st.vehicles| && j != i ==> r.store.vehicles[j] == st.vehicles[j])
    ensures r.value == VehicleSaved(Created) ==>
              && |r.store.vehicles| == |st.vehicles| + 1
              && r.store.vehicles[..|st.vehicles|] == st.vehicles
              && Written(r.store.vehicles[|st.vehicles|], input, user, now)
              && r.store.vehicles[|st.vehicles|].id == now
              && r.store.vehicles[|st.vehicles|].dateAdded == now
  {
    var slot := Seqs.FindIndex(st.vehicles, (v: Vehicle) => SameSlot(v, input));
    var rec := Vehicle(
      id := if slot.Some? then st.vehicles[slot.value].id else now,
      vin := StoredVin(input),
      repairOrder := if Truthy(input.repairOrder) then input.repairOrder else None,
      customerId := input.customerId,
      status := input.status,
      notes := input.notes,
      lastUpdated := now,
      dateAdded := if slot.Some? then st.vehicles[slot.value].dateAdded else now,
      createdBy := AuthorOr(user),
      updatedBy := AuthorOr(user));
    if slot.Some? then
      Done(st.(vehicles := st.vehicles[slot.value := rec]), VehicleSaved(Updated))
    else
      Done(st.(vehicles := st.vehicles + [rec]), VehicleSaved(Created))
  }

  function OtherVehicle(id: int): Vehicle -> bool {
    (v: Vehicle) => v.id != id
  }

  /** `deleteLocalVehicle`: drop every vehicle with that id; nothing else changes. */
  function DeleteLocalVehicle(st: Store, id: int): (r: LocalResult)
    ensures r.Done? && r.value == Deleted && r.store.customers == st.customers
    ensures forall i :: 0 <= i < |r.store.vehicles| ==> r.store.vehicles[i] in st.vehicles && r.store.vehicles[i].id != id
    ensures forall i :: 0 <= i < |st.vehicles| && st.vehicles[i].id != id ==> st.vehicles[i] in r.store.vehicles
    // the survivors keep their stored order
    ensures r.store.vehicles == Seqs.Filter(st.vehicles, OtherVehicle(id))
  {
    Done(st.(vehicles := Seqs.Filter(st.vehicles, OtherVehicle(id))), Deleted)
  }

  function RowOf(w: VehicleView): ExportRow {
    ExportRow(w.vin, w.repairOrder, w.status, w.notes, w.dateAdded, w.lastUpdated)
  }

  /** `getLocalExportData`: the customer's name and the rows of its vehicles in the date range. */
  function GetLocalExportData(st: Store, customerId: int, start: Option<int>, end: Option<int>, now: int): (r: LocalResult)
    // the customer is looked up among the listed customers, whose ids are never 0
    ensures r.Rejected? <==> forall i :: 0 <= i < |st.customers| ==> ListedId(st.customers[i], i) != customerId
    ensures customerId == 0 ==> r.Rejected?
    ensures r.Rejected? ==> r.error == CustomerNotFound
    ensures r.Done? ==> r.store == st && r.value.Export?
    // the exported name is that of the first listed customer with the id (`find`), with the range and the clock
    ensures r.Done? ==>
              exists i :: && 0 <= i < |st.customers| && ListedId(st.customers[i], i) == customerId
                          && r.value.data.customer == st.customers[i].name
                          && forall j :: 0 <= j < i ==> ListedId(st.customers[j], j) != customerId
    ensures r.Done? ==> r.value.data.rangeStart == start && r.value.data.rangeEnd == end && r.value.data.generatedAt == now
    ensures r.Done? ==>
              r.value.data.vehicles == Seqs.Map(GetLocalVehicles(st, Query(Some(customerId), start, end)), RowOf)
  {
    var customers := GetLocalCustomers(st);
    match Seqs.FindIndex(customers, (c: Customer) => c.id == customerId)
    case None => Rejected(CustomerNotFound)
    case Some(i) =>
      var customer := customers[i];
      var views := GetLocalVehicles(st, Query(Some(customerId), start, end));
      Done(st, Export(ExportData(customer.name, Seqs.Map(views, RowOf), start, end, now)))
  }

  predicate HasStatus(w: VehicleView, status: string) { w.status == status }

  function StatusIs(status: string): VehicleView -> bool {
    w => HasStatus(w, status)
  }

  /** The statuses of the stored vehicles, in stored order. */
  function Statuses(vs: seq<Vehicle>): (r: seq<string>)
    ensures |r| == |vs|
    ensures forall i :: 0 <= i < |vs| ==> r[i] == vs[i].status
  {
    seq(|vs|, i requires 0 <= i < |vs| => vs[i].status)
  }

  /** Counting the listed vehicles with a status is counting that status among the stored ones. */
  lemma {:induction false} CountIsMultiplicity(cs: seq<Customer>, vs: seq<Vehicle>, status: string)
    ensures Seqs.Count(Views(cs, vs), StatusIs(status)) == multiset(Statuses(vs))[status]
    decreases |vs|
  {
    if |vs| > 0 {
      var ws := Views(cs, vs);
      assert ws[1..] == Views(cs, vs[1..]);
      assert Statuses(vs) == [vs[0].status] + Statuses(vs[1..]);
      CountIsMultiplicity(cs, vs[1..], status);
    } else {
      assert Views(cs, vs) == [];
      assert Statuses(vs) == [];
    }
  }

  /** `getLocalStats`: the number of stored vehicles, and how many of them carry each of the four statuses. */
  function GetLocalStats(st: Store): (r: Stats)
    ensures r.total == |st.vehicles|
    ensures r.preScan == multiset(Statuses(st.vehicles))["pre-scan"]
    ensures r.postScan == multiset(Statuses(st.vehicles))["post-scan"]
    ensures r.calibration == multiset(Statuses(st.vehicles))["calibration"]
    ensures r.completed == multiset(Statuses(st.vehicles))["completed"]
    ensures r.preScan + r.postScan + r.calibration + r.completed <= r.total
  {
    var views := GetLocalVehicles(st, Everything);
    ListsEverything(st);
    StatusCountsBounded(views);
    CountIsMultiplicity(GetLocalCustomers(st), st.vehicles, "pre-scan");
    CountIsMultiplicity(GetLocalCustomers(st), st.vehicles, "post-scan");
    CountIsMultiplicity(GetLocalCustomers(st), st.vehicles, "calibration");
    CountIsMultiplicity(GetLocalCustomers(st), st.vehicles, "completed");
    Stats(|views|,
          Seqs.Count(views, StatusIs("pre-scan")),
          Seqs.Count(views, StatusIs("post-scan")),
          Seqs.Count(views, StatusIs("calibration")),
          Seqs.Count(views, StatusIs("completed")))
  }

  predicate IsClientStatus(s: string) {
    s == "pre-scan" || s == "post-scan" || s == "calibration" || s == "completed"
  }

  function StatusTotal(ws: seq<VehicleView>): nat {
    Seqs.Count(ws, StatusIs("pre-scan")) + Seqs.Count(ws, StatusIs("post-scan"))
      + Seqs.Count(ws, StatusIs("calibration")) + Seqs.Count(ws, StatusIs("completed"))
  }

  /** The four status counts never exceed the total, and reach it when every status is one of the four. */
  lemma {:induction false} StatusCountsBounded(ws: seq<VehicleView>)
    ensures StatusTotal(ws) <= |ws|
    ensures (forall i :: 0 <= i < |ws| ==> IsClientStatus(ws[i].status)) ==> StatusTotal(ws) == |ws|
    decreases |ws|
  {
    if |ws| > 0 {
      StatusCountsBounded(ws[1..]);
    }
  }

  /** With every stored status one of the four, the counts of `getLocalStats` add up to its total. */
  lemma LocalStatsAddUp(st: Store)
    requires forall i :: 0 <= i < |st.vehicles| ==> IsClientStatus(st.vehicles[i].status)
    ensures var s := GetLocalStats(st); s.preScan + s.postScan + s.calibration + s.completed == s.total
  {
    var views := GetLocalVehicles(st, Everything);
    ListsEverything(st);
    StatusCountsBounded(views);
  }
}
