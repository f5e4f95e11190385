/**
 * The scanner page's logic around the API object: the duplicate check run
 * on every edit of the VIN field, the save of a scanned vehicle and the
 * search box filter of the vehicle list. Rendering is left out; what the
 * page shows is kept as a value.
 */
module Scanner {
  import opened Wrappers
  import opened Text
  import Seqs
  import opened Connectivity
  import opened LocalStore
  import opened Router
  import Vin
  import LocalStoreProperties

  /** What the page's existence lookup produced for a 17-character VIN. */
  datatype DupLookup =
    | Existing(status: string, notes: Option<string>, lastUpdated: int)
    | NoMatch
    | LookupFailed

  /** The feedback line under the VIN field. */
  datatype DupFeedback =
    | NeedsCharacters(current: nat)                   // "VIN must be 17 characters (currently n)"
    | Duplicate(status: string, lastUpdated: int)     // "DUPLICATE!" with status and date and the form pre-filled
    | NewVin                                          // "New VIN - ready to save"
    | CannotCheck                                     // "Unable to check for duplicates - proceeding"
    | Unchanged                                       // longer than 17: nothing is shown

  /** The VIN that was looked up (if any), the feedback, and the status and notes the form is pre-filled with. */
  datatype DupCheck = DupCheck(lookedUp: Option<string>, feedback: DupFeedback, prefill: Option<(string, string)>)

  /** The key `checkDuplicate` works on: upper-cased, then trimmed. */
  function DupKey(vin: string): string { Trim(Upper(vin)) }

  /** `checkDuplicate` */
  function CheckDuplicate(vin: string, lookup: DupLookup): (r: DupCheck)
    ensures r.lookedUp.Some? <==> |DupKey(vin)| == Vin.VinLength
    ensures r.lookedUp.Some? ==> r.lookedUp.value == DupKey(vin)
    ensures r.feedback.NeedsCharacters? <==> |DupKey(vin)| < Vin.VinLength
    ensures r.feedback.NeedsCharacters? ==> r.feedback.current == |DupKey(vin)|
    ensures |DupKey(vin)| > Vin.VinLength ==> r == DupCheck(None, Unchanged, None)
    ensures r.feedback.Duplicate? <==> |DupKey(vin)| == Vin.VinLength && lookup.Existing?
    ensures r.prefill.Some? ==> r.feedback.Duplicate?
  {
    var key := DupKey(vin);
    if |key| < Vin.VinLength then DupCheck(None, NeedsCharacters(|key|), None)
    else if |key| == Vin.VinLength then
      match lookup
      case Existing(status, notes, lastUpdated) =>
        DupCheck(Some(key), Duplicate(status, lastUpdated), Some((status, notes.GetOr(""))))
      case NoMatch => DupCheck(Some(key), NewVin, None)
      case LookupFailed => DupCheck(Some(key), CannotCheck, None)
    else DupCheck(None, Unchanged, None)
  }

  /** Unless the key has exactly 17 characters, the lookup is not consulted. */
  lemma CheckDuplicateLooksUpOnlyAtSeventeen(vin: string, l1: DupLookup, l2: DupLookup)
    requires |DupKey(vin)| != Vin.VinLength
    ensures CheckDuplicate(vin, l1) == CheckDuplicate(vin, l2)
  {
  }

  /** Letter case does not matter to the check. */
  lemma CheckDuplicateIgnoresCase(a: string, b: string, lookup: DupLookup)
    requires Upper(a) == Upper(b)
    ensures CheckDuplicate(a, lookup) == CheckDuplicate(b, lookup)
  {
  }

  /**
   * The save-time validation of the page: the trimmed VIN field must have 17
   * characters; the payload carries it upper-cased and the trimmed notes.
   * The page sends no customer and no repair order.
   */
  function ScanPayload(vinField: string, status: string, notesField: string): (r: Option<VehicleInput>)
    ensures r.None? <==> |Trim(vinField)| != Vin.VinLength
    ensures r.Some? ==>
              && r.value.vin.Some? && |r.value.vin.value| == Vin.VinLength
              && (forall i :: 0 <= i < Vin.VinLength ==> !IsAsciiLower(r.value.vin.value[i]))
              && Upper(r.value.vin.value) == r.value.vin.value
              && r.value.customerId.None? && r.value.repairOrder.None?
    // the payload is the trimmed VIN field upper-cased, the chosen status and the trimmed notes
    ensures r.Some? ==> r.value == VehicleInput(Some(Upper(Trim(vinField))), None, None, status, Trim(notesField))
  {
    var vin := Trim(vinField);
    if vin == "" || |vin| != Vin.VinLength then None
    else
      UpperIdempotent(vin);
      Some(VehicleInput(Some(Upper(vin)), None, None, status, Trim(notesField)))
  }

  /** The alert after a save attempt. */
  datatype SaveNotice =
    | InvalidVin                                         // "Please enter a valid 17-character VIN."
    | Saved(action: Option<Action>, savedLocally: bool)  // the action is known when the local store answered
    | SaveFailed                                         // "Error saving vehicle. Please try again."

  datatype ScanSave = ScanSave(client: Client, notice: SaveNotice)

  /** The action of a save the local store answered; the server's JSON is opaque here. */
  function LocalAction(a: Answer): Option<Action> {
    match a
    case FromStore(VehicleSaved(action)) => Some(action)
    case _ => None
  }

  /**
   * `saveVehicle` of the page: validate, then save through the API object;
   * after a save that did not throw, the notice is shown and the vehicle list
   * is reloaded through `getAllVehicles`, whose own errors the page swallows.
   * `o` is what the network produced for the save, `reload` for the reload.
   */
  function SubmitScan(cfg: Config, c: Client, vinField: string, status: string, notesField: string,
                      now: int, o: Outcome, reload: Outcome): (r: ScanSave)
    ensures r.notice == InvalidVin <==> |Trim(vinField)| != Vin.VinLength
    ensures r.notice == InvalidVin ==> r.client == c
    // a valid scan is saved through the API object with the payload, and the failure alert shows exactly when
    // that save throws; the notice reports the connectivity the save left, before the reload
    ensures |Trim(vinField)| == Vin.VinLength ==>
              var e := Execute(cfg, c, SaveVehicle(ScanPayload(vinField, status, notesField).value), now, o);
              && (r.notice == SaveFailed <==> e.answer.Failed?)
              && (e.answer.Failed? ==> r.client == e.client)
              && (!e.answer.Failed? ==> r.client == Execute(cfg, e.client, GetAllVehicles(Everything), now, reload).client)
              && (r.notice.Saved? ==> r.notice.savedLocally == !e.client.conn.isOnline)
              && (e.answer.FromStore? && e.answer.value.VehicleSaved? ==>
                    r.notice == Saved(Some(e.answer.value.action), !e.client.conn.isOnline))
  {
    match ScanPayload(vinField, status, notesField)
    case None => ScanSave(c, InvalidVin)
    case Some(payload) =>
      var e := Execute(cfg, c, SaveVehicle(payload), now, o);
      match e.answer
      case Failed(_) => ScanSave(e.client, SaveFailed)
      case _ =>
        var reloaded := Execute(cfg, e.client, GetAllVehicles(Everything), now, reload);
        ScanSave(reloaded.client, Saved(LocalAction(e.answer), !e.client.conn.isOnline))
  }

  /** Offline with offline mode on, a valid scan is saved into the local store and nothing else changes. */
  lemma OfflineScanSavesLocally(cfg: Config, c: Client, vinField: string, status: string, notesField: string,
                                now: int, o: Outcome, reload: Outcome)
    requires GoesLocal(cfg, c.conn)
    requires |Trim(vinField)| == Vin.VinLength
    ensures SubmitScan(cfg, c, vinField, status, notesField, now, o, reload).client ==
              Client(c.conn, SaveLocalVehicle(c.store, ScanPayload(vinField, status, notesField).value, cfg.userId, now).store)
  {
    var sp := ScanPayload(vinField, status, notesField);
    assert sp.Some?;
    OfflineSaveIsLocalSave(cfg, c, sp.value, now, o);
    var e := Execute(cfg, c, SaveVehicle(sp.value), now, o);
    assert !e.answer.Failed?;
    OfflineReloadKeepsClient(cfg, e.client, now, reload);
    assert SubmitScan(cfg, c, vinField, status, notesField, now, o, reload).client ==
             Execute(cfg, e.client, GetAllVehicles(Everything), now, reload).client;
  }

  /** Offline with offline mode on, reloading the vehicle list changes nothing. */
  lemma OfflineReloadKeepsClient(cfg: Config, c: Client, now: int, o: Outcome)
    requires GoesLocal(cfg, c.conn)
    ensures Execute(cfg, c, GetAllVehicles(Everything), now, o).client == c
  {
    assert RunLocal(cfg, GetAllVehicles(Everything), c.store, now).store == c.store;
  }

  /** Offline with offline mode on, a search is answered by the local lookup. */
  lemma OfflineSearchIsLocalLookup(cfg: Config, c: Client, identifier: string, now: int, o: Outcome)
    requires GoesLocal(cfg, c.conn)
    ensures var found := Execute(cfg, c, SearchVehicle(identifier), now, o);
            && !found.remoteCalled
            && found.answer == FromStore(MaybeVehicle(GetLocalVehicleByIdentifier(c.store, identifier)))
  {
    var lookup := MaybeVehicle(GetLocalVehicleByIdentifier(c.store, identifier));
    assert RunLocal(cfg, SearchVehicle(identifier), c.store, now) == Done(c.store, lookup);
    assert AnswerLocally(c.conn, c.store, Done(c.store, lookup), false).answer == FromStore(lookup);
  }

  /**
   * Offline with offline mode on, a scan saved on the page is found right
   * after by a search for the same VIN in any letter case, without a remote
   * call, whatever the network would have produced; when no stored vehicle
   * was named by that VIN before, the record found is the scan itself.
   */
  lemma OfflineScanThenSearch(cfg: Config, c: Client, vinField: string, status: string, notesField: string,
                              now: int, o1: Outcome, reload: Outcome, o2: Outcome, identifier: string)
    requires GoesLocal(cfg, c.conn)
    requires |Trim(vinField)| == Vin.VinLength
    requires Upper(identifier) == Upper(Trim(vinField))
    ensures var saved := SubmitScan(cfg, c, vinField, status, notesField, now, o1, reload);
            var found := Execute(cfg, saved.client, SearchVehicle(identifier), now, o2);
            && !found.remoteCalled
            && found.answer.FromStore? && found.answer.value.MaybeVehicle?
            && found.answer.value.found.Some?
            && ((forall i :: 0 <= i < |c.store.vehicles| ==>
                   !IdentifiedBy(c.store.vehicles[i].vin, c.store.vehicles[i].repairOrder, identifier)) ==>
                  var v := found.answer.value.found.value;
                  && v.vin == Some(Upper(Trim(vinField))) && v.repairOrder == None && v.customerId == None
                  && v.status == status && v.notes == Trim(notesField) && v.lastUpdated == now)
  {
    var payload := ScanPayload(vinField, status, notesField).value;
    var vin := Trim(vinField);
    UpperIdempotent(vin);
    assert payload.vin.value == Upper(vin);
    assert |payload.vin.value| > 0;
    OfflineScanSavesLocally(cfg, c, vinField, status, notesField, now, o1, reload);
    var saved := SubmitScan(cfg, c, vinField, status, notesField, now, o1, reload);
    LocalStoreProperties.SaveThenLookupByVin(c.store, payload, cfg.userId, now, identifier);
    OfflineSearchIsLocalLookup(cfg, saved.client, identifier, now, o2);
    if forall i :: 0 <= i < |c.store.vehicles| ==>
         !IdentifiedBy(c.store.vehicles[i].vin, c.store.vehicles[i].repairOrder, identifier) {
      assert LocalStoreProperties.NamesPayload(payload, identifier);
      LocalStoreProperties.SaveThenLookupFindsSaved(c.store, payload, cfg.userId, now, identifier);
    }
  }

  /** A card of the vehicle list, as the search box sees it. */
  datatype ListedVehicle = ListedVehicle(vin: Option<string>, notes: string)

  /** The search term occurs in the VIN or in the notes, without regard to case. */
  predicate Hit(v: ListedVehicle, term: string) {
    v.vin.Some? && (Contains(Lower(v.vin.value), Lower(term)) || Contains(Lower(v.notes), Lower(term)))
  }

  function HitsTerm(term: string): ListedVehicle -> bool {
    v => Hit(v, term)
  }

  /**
   * `filterVehicles`; `None` is the TypeError thrown when a listed vehicle
   * has no VIN (a record saved locally with only a repair order).
   */
  function FilterVehicles(vs: seq<ListedVehicle>, term: string): (r: Option<seq<ListedVehicle>>)
    ensures r.Some? <==> forall i :: 0 <= i < |vs| ==> vs[i].vin.Some?
    ensures r.Some? ==> r.value == Seqs.Filter(vs, HitsTerm(term))
    decreases |vs|
  {
    if |vs| == 0 then Some([])
    else if vs[0].vin.None? then None
    else
      match FilterVehicles(vs[1..], term)
      case None => None
      case Some(rest) => Some((if Hit(vs[0], term) then [vs[0]] else []) + rest)
  }

  lemma ContainsEmpty(s: string)
    ensures Contains(s, "")
  {
    assert StartsWith(s, "");
  }

  /** An empty search term keeps every listed vehicle. */
  lemma EmptyTermKeepsAll(vs: seq<ListedVehicle>)
    requires forall i :: 0 <= i < |vs| ==> vs[i].vin.Some?
    ensures FilterVehicles(vs, "") == Some(vs)
  {
    forall i | 0 <= i < |vs|
      ensures HitsTerm("")(vs[i])
    {
      ContainsEmpty(Lower(vs[i].vin.value));
    }
    Seqs.FilterKeepsAll(vs, HitsTerm(""));
  }
}
