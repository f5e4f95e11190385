/** Properties relating several calls of the local replica store. */
module LocalStoreProperties {
  import opened Wrappers
  import opened Text
  import Seqs
  import opened LocalStore

  /**
   * The record a save wrote is in the store afterwards, carrying the payload,
   * behind the records stored before it; a created record has the clock as id.
   */
  lemma SavedRecordPresent(st: Store, input: VehicleInput, user: string, now: int)
    returns (k: nat)
    ensures var r := SaveLocalVehicle(st, input, user, now);
            && k < |r.store.vehicles| && Written(r.store.vehicles[k], input, user, now)
            && k <= |st.vehicles|
            && (forall j :: 0 <= j < k ==> r.store.vehicles[j] == st.vehicles[j])
            && (r.value == VehicleSaved(Created) ==> r.store.vehicles[k].id == now)
  {
    var r := SaveLocalVehicle(st, input, user, now);
    if r.value == VehicleSaved(Updated) {
      var i :| && 0 <= i < |st.vehicles| && SameSlot(st.vehicles[i], input)
               && (forall j :: 0 <= j < i ==> !SameSlot(st.vehicles[j], input))
               && Written(r.store.vehicles[i], input, user, now)
               && r.store.vehicles[i].id == st.vehicles[i].id
               && r.store.vehicles[i].dateAdded == st.vehicles[i].dateAdded
               && (forall j :: 0 <= j < |st.vehicles| && j != i ==> r.store.vehicles[j] == st.vehicles[j]);
      k := i;
    } else {
      k := |st.vehicles|;
      assert forall j :: 0 <= j < k ==> r.store.vehicles[j] == r.store.vehicles[..k][j];
    }
  }

  /**
   * Saving the same payload twice leaves one slot: the second save reports
   * `updated` and adds no record, provided the slot is found again, i.e. the
   * VIN was already upper-case or a repair order is present.
   */
  lemma SaveLocalVehicleTwiceUpdates(st: Store, input: VehicleInput, user: string, now1: int, now2: int)
    requires (Truthy(input.vin) && Upper(input.vin.value) == input.vin.value) || Truthy(input.repairOrder)
    ensures var first := SaveLocalVehicle(st, input, user, now1).store;
            var second := SaveLocalVehicle(first, input, user, now2);
            && second.value == VehicleSaved(Updated)
            && |second.store.vehicles| == |first.vehicles|
  {
    var first := SaveLocalVehicle(st, input, user, now1).store;
    var k := SavedRecordPresent(st, input, user, now1);
    assert SameSlot(first.vehicles[k], input);
  }

  /**
   * The slot test compares the stored, upper-cased VIN with the VIN as given:
   * saving a lower-case VIN twice stores two records.
   */
  lemma LowerCaseVinSavedTwiceDuplicates()
    ensures var input := VehicleInput(Some("abc"), None, None, "pre-scan", "");
            var first := SaveLocalVehicle(Store([], []), input, "u", 1);
            var second := SaveLocalVehicle(first.store, input, "u", 2);
            && first.value == VehicleSaved(Created)
            && second.value == VehicleSaved(Created)
            && |second.store.vehicles| == 2
  {
    var input := VehicleInput(Some("abc"), None, None, "pre-scan", "");
    var first := SaveLocalVehicle(Store([], []), input, "u", 1);
    assert |first.store.vehicles| == 1;
    var stored := first.store.vehicles[0];
    assert stored.vin == Some(Upper("abc"));
    assert Upper("abc")[0] == 'A';
    assert !SameSlot(stored, input);
  }

  /** After a save with a VIN, a lookup by that VIN in any letter case finds a vehicle. */
  lemma SaveThenLookupByVin(st: Store, input: VehicleInput, user: string, now: int, identifier: string)
    requires Truthy(input.vin)
    requires Upper(identifier) == Upper(input.vin.value)
    ensures GetLocalVehicleByIdentifier(SaveLocalVehicle(st, input, user, now).store, identifier).Some?
  {
    var after := SaveLocalVehicle(st, input, user, now).store;
    var k := SavedRecordPresent(st, input, user, now);
    var v := input.vin.value;
    UpperIdempotent(v);
    assert |Upper(v)| > 0;
    assert IdentifiedBy(after.vehicles[k].vin, after.vehicles[k].repairOrder, identifier);
  }

  /** After a save with a repair order, a lookup by that repair order in any letter case finds a vehicle. */
  lemma SaveThenLookupByRepairOrder(st: Store, input: VehicleInput, user: string, now: int, identifier: string)
    requires Truthy(input.repairOrder)
    requires Upper(identifier) == Upper(input.repairOrder.value)
    ensures GetLocalVehicleByIdentifier(SaveLocalVehicle(st, input, user, now).store, identifier).Some?
  {
    var after := SaveLocalVehicle(st, input, user, now).store;
    var k := SavedRecordPresent(st, input, user, now);
    assert IdentifiedBy(after.vehicles[k].vin, after.vehicles[k].repairOrder, identifier);
  }

  /** The identifier names the payload: its VIN or its repair order, compared upper-cased. */
  predicate NamesPayload(input: VehicleInput, identifier: string) {
    || (Truthy(input.vin) && Upper(identifier) == Upper(input.vin.value))
    || (Truthy(input.repairOrder) && Upper(identifier) == Upper(input.repairOrder.value))
  }

  function NamedBy(identifier: string): Vehicle -> bool {
    (v: Vehicle) => IdentifiedBy(v.vin, v.repairOrder, identifier)
  }

  /** A lookup returns the first vehicle the identifier names. */
  lemma LookupFindsFirst(st: Store, identifier: string, k: nat)
    requires k < |st.vehicles|
    requires IdentifiedBy(st.vehicles[k].vin, st.vehicles[k].repairOrder, identifier)
    requires forall j :: 0 <= j < k ==> !IdentifiedBy(st.vehicles[j].vin, st.vehicles[j].repairOrder, identifier)
    ensures GetLocalVehicleByIdentifier(st, identifier) == Some(ViewOf(GetLocalCustomers(st), st.vehicles[k]))
  {
    var r := GetLocalVehicleByIdentifier(st, identifier);
    assert r.Some?;
    var i :| && 0 <= i < |st.vehicles|
             && r.value == ViewOf(GetLocalCustomers(st), st.vehicles[i])
             && IdentifiedBy(st.vehicles[i].vin, st.vehicles[i].repairOrder, identifier)
             && forall j :: 0 <= j < i ==> !IdentifiedBy(st.vehicles[j].vin, st.vehicles[j].repairOrder, identifier);
    Seqs.FirstMatchUnique(st.vehicles, NamedBy(identifier), i, k);
  }

  /** The record a save writes is named by any identifier that names the payload. */
  lemma WrittenIsIdentified(rec: Vehicle, input: VehicleInput, user: string, now: int, identifier: string)
    requires Written(rec, input, user, now)
    requires NamesPayload(input, identifier)
    ensures IdentifiedBy(rec.vin, rec.repairOrder, identifier)
  {
    if Truthy(input.vin) && Upper(identifier) == Upper(input.vin.value) {
      UpperIdempotent(input.vin.value);
      assert |Upper(input.vin.value)| > 0;
    }
  }

  /** A written record that the identifier names first is what the lookup returns. */
  lemma LookupFindsWritten(st: Store, k: nat, input: VehicleInput, user: string, now: int, identifier: string)
    requires k < |st.vehicles| && Written(st.vehicles[k], input, user, now)
    requires NamesPayload(input, identifier)
    requires forall j :: 0 <= j < k ==> !IdentifiedBy(st.vehicles[j].vin, st.vehicles[j].repairOrder, identifier)
    ensures var found := GetLocalVehicleByIdentifier(st, identifier);
            && found == Some(ViewOf(GetLocalCustomers(st), st.vehicles[k]))
            && found.value.vin == StoredVin(input)
            && found.value.repairOrder == (if Truthy(input.repairOrder) then input.repairOrder else None)
            && found.value.customerId == input.customerId
            && found.value.status == input.status
            && found.value.notes == input.notes
            && found.value.lastUpdated == now
  {
    WrittenIsIdentified(st.vehicles[k], input, user, now, identifier);
    LookupFindsFirst(st, identifier, k);
  }

  /**
   * When no stored vehicle was named by the identifier before, a lookup right
   * after a save of a payload it names returns the record the save wrote:
   * the payload's fields, the clock, and the id `now` when the save created it.
   */
  lemma SaveThenLookupFindsSaved(st: Store, input: VehicleInput, user: string, now: int, identifier: string)
    requires NamesPayload(input, identifier)
    requires forall i :: 0 <= i < |st.vehicles| ==> !IdentifiedBy(st.vehicles[i].vin, st.vehicles[i].repairOrder, identifier)
    ensures var r := SaveLocalVehicle(st, input, user, now);
            var found := GetLocalVehicleByIdentifier(r.store, identifier);
            && found.Some?
            && found.value.vin == StoredVin(input)
            && found.value.repairOrder == (if Truthy(input.repairOrder) then input.repairOrder else None)
            && found.value.customerId == input.customerId
            && found.value.status == input.status
            && found.value.notes == input.notes
            && found.value.lastUpdated == now
            && (r.value == VehicleSaved(Created) ==> found.value.id == now)
  {
    var k := SavedRecordPresent(st, input, user, now);
    LookupFindsWritten(SaveLocalVehicle(st, input, user, now).store, k, input, user, now, identifier);
  }

  /**
   * Slots are per customer but the lookup is not: after another customer's
   * vehicle with the same VIN is stored, saving that VIN creates a new record,
   * yet a lookup by the VIN returns the older vehicle (id 7), not the one saved.
   */
  lemma OtherCustomersVehicleShadowsSave()
    ensures var earlier := Vehicle(7, Some("V"), None, Some(1), "pre-scan", "", 1, 1, "u", "u");
            var r := SaveLocalVehicle(Store([], [earlier]), VehicleInput(Some("V"), None, Some(2), "pre-scan", ""), "u", 99);
            var found := GetLocalVehicleByIdentifier(r.store, "v");
            && r.value == VehicleSaved(Created)
            && |r.store.vehicles| == 2
            && found.Some? && found.value.id == 7
  {
    var earlier := Vehicle(7, Some("V"), None, Some(1), "pre-scan", "", 1, 1, "u", "u");
    var input := VehicleInput(Some("V"), None, Some(2), "pre-scan", "");
    var r := SaveLocalVehicle(Store([], [earlier]), input, "u", 99);
    assert !SameSlot(earlier, input);
    assert r.store.vehicles[0] == earlier;
    assert Upper("V") == Upper("v") by {
      assert Upper("V")[0] == 'V';
      assert Upper("v")[0] == 'V';
    }
    LookupFindsFirst(r.store, "v", 0);
  }

  /** After a delete by id, a lookup by that id finds nothing. */
  lemma DeleteThenLookupById(st: Store, id: int)
    ensures GetLocalVehicleById(DeleteLocalVehicle(st, id).store, id).None?
  {
  }

  predicate InExport(v: Vehicle, customerId: int, start: Option<int>, end: Option<int>) {
    && v.customerId == Some(customerId)
    && (start.Some? ==> start.value <= v.dateAdded)
    && (end.Some? ==> v.dateAdded <= end.value)
  }

  /**
   * The local export of customer `C` over `[start, end]` lists, in stored
   * order, exactly the vehicles of `C` added within the bounds, both bounds
   * included. (An export that succeeds is never of customer 0.)
   */
  lemma ExportRoundTrip(st: Store, customerId: int, start: Option<int>, end: Option<int>, now: int)
    requires GetLocalExportData(st, customerId, start, end, now).Done?
    ensures var rows := GetLocalExportData(st, customerId, start, end, now).value.data.vehicles;
            var chosen := Seqs.Filter(st.vehicles, MatchesQuery(Query(Some(customerId), start, end)));
            && |rows| == |chosen|
            && (forall i :: 0 <= i < |rows| ==>
                  && InExport(chosen[i], customerId, start, end)
                  && rows[i] == ExportRow(chosen[i].vin, chosen[i].repairOrder, chosen[i].status,
                                          chosen[i].notes, chosen[i].dateAdded, chosen[i].lastUpdated))
            && (forall i :: 0 <= i < |st.vehicles| && InExport(st.vehicles[i], customerId, start, end) ==>
                  st.vehicles[i] in chosen)
  {
    var q := Query(Some(customerId), start, end);
    var chosen := Seqs.Filter(st.vehicles, MatchesQuery(q));
    var views := GetLocalVehicles(st, q);
    var rows := Seqs.Map(views, RowOf);
    assert GetLocalExportData(st, customerId, start, end, now).value.data.vehicles == rows;
    assert views == Views(GetLocalCustomers(st), chosen);
    forall i | 0 <= i < |rows|
      ensures rows[i] == ExportRow(chosen[i].vin, chosen[i].repairOrder, chosen[i].status,
                                   chosen[i].notes, chosen[i].dateAdded, chosen[i].lastUpdated)
    {
      assert rows[i] == RowOf(views[i]);
      assert views[i] == ViewOf(GetLocalCustomers(st), chosen[i]);
    }
    ExportSelection(st.vehicles, customerId, start, end);
  }

  /** The customer query with a non-zero id selects exactly the vehicles `InExport` describes. */
  lemma ExportSelection(vs: seq<Vehicle>, customerId: int, start: Option<int>, end: Option<int>)
    requires customerId != 0
    ensures var chosen := Seqs.Filter(vs, MatchesQuery(Query(Some(customerId), start, end)));
            && (forall i :: 0 <= i < |chosen| ==> InExport(chosen[i], customerId, start, end))
            && (forall i :: 0 <= i < |vs| && InExport(vs[i], customerId, start, end) ==> vs[i] in chosen)
  {
    var q := Query(Some(customerId), start, end);
    var chosen := Seqs.Filter(vs, MatchesQuery(q));
    forall i | 0 <= i < |chosen|
      ensures InExport(chosen[i], customerId, start, end)
    {
      assert MatchesQuery(q)(chosen[i]);
    }
    forall i | 0 <= i < |vs| && InExport(vs[i], customerId, start, end)
      ensures vs[i] in chosen
    {
      assert MatchesQuery(q)(vs[i]);
    }
  }
}
