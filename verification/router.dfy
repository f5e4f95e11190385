/**
 * The public operations of the client API object: each one either goes
 * straight to the local store (offline, with offline mode on) or calls the
 * server through `makeRequest` and, on failure, falls back to the local
 * store. Successful remote writes are mirrored into the local store.
 * Also `syncLocalData`, which replays the local store to the server.
 */
module Router {
  import opened Wrappers
  import opened Text
  import Seqs
  import opened Connectivity
  import opened LocalStore

  /** The public operations, with the arguments each passes on. */
  datatype Op =
    | GetAllCustomers
    | AddCustomer(name: string)
    | DeleteCustomer(customerId: int)
    | GetAllVehicles(query: Query)
    | SearchVehicle(identifier: string)
    | GetVehicleById(vehicleId: int)
    | SaveVehicle(payload: VehicleInput)
    | DeleteVehicle(vehicleId: int)
    | ExportCustomerData(customerId: int, start: Option<int>, end: Option<int>)
    | GetStats

  datatype Client = Client(conn: Conn, store: Store)

  datatype Failure = RemoteFailure(remote: RemoteError) | StoreFailure(local: StoreError)

  /** What an operation resolves to: the server's JSON, a local value, `null`, or a thrown error. */
  datatype Answer =
    | FromServer(body: string)
    | FromStore(value: Value)
    | NotFound
    | Failed(failure: Failure)

  /** The client afterwards, the answer, and whether `makeRequest` was called. */
  datatype Exec = Exec(client: Client, answer: Answer, remoteCalled: bool)

  /** `!this.isOnline && CONFIG.ENABLE_OFFLINE_MODE`: skip the server entirely. */
  predicate GoesLocal(cfg: Config, conn: Conn) { !conn.isOnline && cfg.offlineMode }

  /** The writes whose remote success is copied into the local store. */
  predicate MirrorsWrite(op: Op) {
    op.AddCustomer? || op.DeleteCustomer? || op.SaveVehicle? || op.DeleteVehicle?
  }

  /** The reads that answer `null` to a 404 instead of falling back. */
  predicate NullOnNotFound(op: Op) { op.SearchVehicle? || op.GetVehicleById? }

  predicate FailureMentionsNotFound(f: Failure) { f.RemoteFailure? && MentionsNotFound(f.remote) }

  /** The operations that only read the store. */
  predicate IsRead(op: Op) {
    op.GetAllCustomers? || op.GetAllVehicles? || op.SearchVehicle? || op.GetVehicleById?
    || op.ExportCustomerData? || op.GetStats?
  }

  /** The local-store counterpart of each operation. */
  function RunLocal(cfg: Config, op: Op, st: Store, now: int): (r: LocalResult)
    // reads leave the store as it was
    ensures IsRead(op) && r.Done? ==> r.store == st
    // only adding or deleting a customer and exporting can be refused
    ensures r.Rejected? ==> op.AddCustomer? || op.DeleteCustomer? || op.ExportCustomerData?
    // customer writes leave the vehicles alone, vehicle writes the customers
    ensures (op.AddCustomer? || op.DeleteCustomer?) && r.Done? ==> r.store.vehicles == st.vehicles
    ensures (op.SaveVehicle? || op.DeleteVehicle?) && r.Done? ==> r.store.customers == st.customers
  {
    match op
    case GetAllCustomers => Done(st, Customers(GetLocalCustomers(st)))
    case AddCustomer(name) => SaveLocalCustomer(st, Trim(name), cfg.userId, now)
    case DeleteCustomer(id) => DeleteLocalCustomer(st, id)
    case GetAllVehicles(q) => Done(st, Vehicles(GetLocalVehicles(st, q)))
    case SearchVehicle(identifier) => Done(st, MaybeVehicle(GetLocalVehicleByIdentifier(st, identifier)))
    case GetVehicleById(id) => Done(st, MaybeVehicle(GetLocalVehicleById(st, id)))
    case SaveVehicle(payload) => SaveLocalVehicle(st, payload, cfg.userId, now)
    case DeleteVehicle(id) => DeleteLocalVehicle(st, id)
    case ExportCustomerData(id, start, end) => GetLocalExportData(st, id, start, end, now)
    case GetStats => Done(st, Counts(GetLocalStats(st)))
  }

  function AnswerLocally(conn: Conn, st: Store, lr: LocalResult, called: bool): Exec {
    match lr
    case Done(after, value) => Exec(Client(conn, after), FromStore(value), called)
    case Rejected(e) => Exec(Client(conn, st), Failed(StoreFailure(e)), called)
  }

  /** The `catch` block of an operation, entered after `makeRequest` was called. */
  function Catch(cfg: Config, op: Op, conn: Conn, st: Store, now: int, f: Failure): (r: Exec)
    ensures r.remoteCalled && r.client.conn == conn
    // search and lookup by id answer `null` to an error that mentions 404, and touch nothing
    ensures NullOnNotFound(op) && FailureMentionsNotFound(f) ==> r == Exec(Client(conn, st), NotFound, true)
    // otherwise, with offline mode on, the local operation answers on the store as it was
    ensures !(NullOnNotFound(op) && FailureMentionsNotFound(f)) && cfg.offlineMode ==>
              r == AnswerLocally(conn, st, RunLocal(cfg, op, st, now), true)
    // otherwise, with offline mode off, the error is rethrown and the store is untouched
    ensures !(NullOnNotFound(op) && FailureMentionsNotFound(f)) && !cfg.offlineMode ==>
              r == Exec(Client(conn, st), Failed(f), true)
  {
    if NullOnNotFound(op) && FailureMentionsNotFound(f) then Exec(Client(conn, st), NotFound, true)
    else if cfg.offlineMode then AnswerLocally(conn, st, RunLocal(cfg, op, st, now), true)
    else Exec(Client(conn, st), Failed(f), true)
  }

  /** One public operation, given the clock and what the network produced. */
  function Execute(cfg: Config, c: Client, op: Op, now: int, o: Outcome): (r: Exec)
    // offline with offline mode on: the local store answers, the server is not called, connectivity is untouched
    ensures GoesLocal(cfg, c.conn) ==>
              && !r.remoteCalled
              && r.client.conn == c.conn
              && r == AnswerLocally(c.conn, c.store, RunLocal(cfg, op, c.store, now), false)
    ensures !GoesLocal(cfg, c.conn) ==> r.remoteCalled
    // with offline mode off the local store is never read or written
    ensures !cfg.offlineMode ==> r.client.store == c.store && !r.answer.FromStore?
    // the connectivity state moves exactly as one `makeRequest` moves it
    ensures !GoesLocal(cfg, c.conn) ==> r.client.conn == MakeRequest(cfg, c.conn, o).conn
    // a server answer is only ever a delivered 2xx body
    ensures r.answer.FromServer? ==> Delivered(o) && r.answer.body == o.body.value
    // search and lookup by id turn a 404 into `null` and change nothing
    ensures NullOnNotFound(op) && !GoesLocal(cfg, c.conn) && IsNotFound(o) ==>
              r.answer == NotFound && r.client == c
    ensures r.answer == NotFound ==> NullOnNotFound(op) && IsNotFound(o)
    ensures c.conn.retryAttempts <= cfg.maxRetries ==> r.client.conn.retryAttempts <= cfg.maxRetries
    // any failure other than the `null`-answered 404, with or without retry budget left: with offline mode on
    // the local operation answers on the unchanged store, with it off the error propagates
    ensures !GoesLocal(cfg, c.conn) && !Delivered(o) && !(NullOnNotFound(op) && IsNotFound(o)) && cfg.offlineMode ==>
              r == AnswerLocally(MakeRequest(cfg, c.conn, o).conn, c.store, RunLocal(cfg, op, c.store, now), true)
    ensures !GoesLocal(cfg, c.conn) && !Delivered(o) && !(NullOnNotFound(op) && IsNotFound(o)) && !cfg.offlineMode ==>
              r.answer == Failed(RemoteFailure(MakeRequest(cfg, c.conn, o).result.error))
    // a delivered body is the answer, and with offline mode on a write is mirrored into the store
    ensures !GoesLocal(cfg, c.conn) && Delivered(o) && !(cfg.offlineMode && MirrorsWrite(op)) ==>
              r == Exec(Client(Conn(true, 0), c.store), FromServer(o.body.value), true)
    ensures !GoesLocal(cfg, c.conn) && Delivered(o) && cfg.offlineMode && MirrorsWrite(op) ==>
              r.client.conn == Conn(true, 0) && r.remoteCalled &&
              match RunLocal(cfg, op, c.store, now)
              case Done(after, _) => r.client.store == after && r.answer == FromServer(o.body.value)
              case Rejected(e) => r.client.store == c.store && r.answer == Failed(StoreFailure(e))
  {
    if GoesLocal(cfg, c.conn) then
      AnswerLocally(c.conn, c.store, RunLocal(cfg, op, c.store, now), false)
    else
      AfterCall(cfg, op, MakeRequest(cfg, c.conn, o), c.store, now)
  }

  /** The rest of an operation once `makeRequest` has returned or thrown. */
  function AfterCall(cfg: Config, op: Op, call: Call, st: Store, now: int): (r: Exec)
    ensures r.remoteCalled && r.client.conn == call.conn
    ensures !cfg.offlineMode ==> r.client.store == st && !r.answer.FromStore?
    ensures r.answer.FromServer? ==> call.result == Returned(r.answer.body)
    ensures r.answer == NotFound <==>
              NullOnNotFound(op) && call.result.Raised? && MentionsNotFound(call.result.error)
    ensures r.answer == NotFound ==> r.client.store == st
    // any thrown error other than the `null`-answered 404: the local operation answers with offline mode on,
    // the error propagates with it off
    ensures call.result.Raised? && !(NullOnNotFound(op) && MentionsNotFound(call.result.error)) && cfg.offlineMode ==>
              r == AnswerLocally(call.conn, st, RunLocal(cfg, op, st, now), true)
    ensures call.result.Raised? && !(NullOnNotFound(op) && MentionsNotFound(call.result.error)) && !cfg.offlineMode ==>
              r == Exec(Client(call.conn, st), Failed(RemoteFailure(call.result.error)), true)
    // a returned body is the answer; with offline mode on a write is first mirrored into the store
    ensures call.result.Returned? && !(cfg.offlineMode && MirrorsWrite(op)) ==>
              r == Exec(Client(call.conn, st), FromServer(call.result.body), true)
    ensures call.result.Returned? && cfg.offlineMode && MirrorsWrite(op) && RunLocal(cfg, op, st, now).Done? ==>
              r == Exec(Client(call.conn, RunLocal(cfg, op, st, now).store), FromServer(call.result.body), true)
    // a mirror write that throws is run again by the catch block, which throws the same refusal
    ensures call.result.Returned? && cfg.offlineMode && MirrorsWrite(op) && RunLocal(cfg, op, st, now).Rejected? ==>
              r == Exec(Client(call.conn, st), Failed(StoreFailure(RunLocal(cfg, op, st, now).error)), true)
  {
    match call.result
    case Returned(body) =>
      if cfg.offlineMode && MirrorsWrite(op) then
        match RunLocal(cfg, op, st, now)
        case Done(after, _) => Exec(Client(call.conn, after), FromServer(body), true)
        // the mirror write throws inside the `try`, so the `catch` block runs
        case Rejected(e) => Catch(cfg, op, call.conn, st, now, StoreFailure(e))
      else
        Exec(Client(call.conn, st), FromServer(body), true)
    case Raised(e) => Catch(cfg, op, call.conn, st, now, RemoteFailure(e))
  }

  /** Offline with offline mode on, what the network would have produced makes no difference. */
  lemma OfflineIgnoresNetwork(cfg: Config, c: Client, op: Op, now: int, o1: Outcome, o2: Outcome)
    requires GoesLocal(cfg, c.conn)
    ensures Execute(cfg, c, op, now, o1) == Execute(cfg, c, op, now, o2)
  {
  }

  /**
   * A remote write that succeeds is mirrored locally; when the mirror write
   * itself is refused (a customer name already stored locally), the refusal
   * reaches the caller although the server accepted the write.
   */
  lemma MirrorRefusalSurfaces(cfg: Config, c: Client, name: string, now: int, o: Outcome)
    requires cfg.offlineMode && c.conn.isOnline && Delivered(o)
    requires exists i :: 0 <= i < |c.store.customers| && SameName(c.store.customers[i].name, Trim(name))
    ensures var r := Execute(cfg, c, AddCustomer(name), now, o);
            && r.remoteCalled
            && r.client.conn == Conn(true, 0)
            && r.answer == Failed(StoreFailure(CustomerExists))
            && r.client.store == c.store
  {
    var op := AddCustomer(name);
    var call := MakeRequest(cfg, c.conn, o);
    assert call == Call(Conn(true, 0), Returned(o.body.value));
    assert RunLocal(cfg, op, c.store, now) == SaveLocalCustomer(c.store, Trim(name), cfg.userId, now);
    assert RunLocal(cfg, op, c.store, now) == Rejected(CustomerExists);
    assert Execute(cfg, c, op, now, o) == AfterCall(cfg, op, call, c.store, now);
    assert AfterCall(cfg, op, call, c.store, now) == Catch(cfg, op, call.conn, c.store, now, StoreFailure(CustomerExists));
    assert Catch(cfg, op, call.conn, c.store, now, StoreFailure(CustomerExists)) ==
             Exec(Client(call.conn, c.store), Failed(StoreFailure(CustomerExists)), true);
  }

  /** A successful remote vehicle save with offline mode on leaves the local copy saved too. */
  lemma RemoteSaveIsMirrored(cfg: Config, c: Client, payload: VehicleInput, now: int, o: Outcome)
    requires cfg.offlineMode && c.conn.isOnline && Delivered(o)
    ensures var r := Execute(cfg, c, SaveVehicle(payload), now, o);
            && r.answer == FromServer(o.body.value)
            && r.client.store == SaveLocalVehicle(c.store, payload, cfg.userId, now).store
  {
    var call := MakeRequest(cfg, c.conn, o);
    assert call == Call(Conn(true, 0), Returned(o.body.value));
    var local := SaveLocalVehicle(c.store, payload, cfg.userId, now);
    assert local.Done?;
    assert AfterCall(cfg, SaveVehicle(payload), call, c.store, now) ==
             Exec(Client(call.conn, local.store), FromServer(o.body.value), true);
  }

  /** Offline with offline mode on, saving through the API object is the local save. */
  lemma OfflineSaveIsLocalSave(cfg: Config, c: Client, payload: VehicleInput, now: int, o: Outcome)
    requires GoesLocal(cfg, c.conn)
    ensures Execute(cfg, c, SaveVehicle(payload), now, o).client ==
              Client(c.conn, SaveLocalVehicle(c.store, payload, cfg.userId, now).store)
    ensures Execute(cfg, c, SaveVehicle(payload), now, o).answer ==
              FromStore(SaveLocalVehicle(c.store, payload, cfg.userId, now).value)
  {
    var local := SaveLocalVehicle(c.store, payload, cfg.userId, now);
    var e := Execute(cfg, c, SaveVehicle(payload), now, o);
    assert e == AnswerLocally(c.conn, c.store, RunLocal(cfg, SaveVehicle(payload), c.store, now), false);
    assert RunLocal(cfg, SaveVehicle(payload), c.store, now) == local;
    assert local.Done?;
  }

  /**
   * With offline mode on, a transport failure after the retry budget is spent
   * leaves the client online, and the local operation still answers.
   */
  lemma SpentBudgetStillFallsBack(cfg: Config, c: Client, op: Op, now: int)
    requires cfg.offlineMode && c.conn.isOnline && cfg.maxRetries <= c.conn.retryAttempts
    ensures Execute(cfg, c, op, now, NetworkFailure) == AnswerLocally(c.conn, c.store, RunLocal(cfg, op, c.store, now), true)
  {
    assert MakeRequest(cfg, c.conn, NetworkFailure) == Call(c.conn, Raised(Network));
  }

  datatype Step = Step(op: Op, now: int, outcome: Outcome)

  /** A series of operations, one after the other, with the number of remote calls made. */
  function Run(cfg: Config, c: Client, steps: seq<Step>): (Client, nat)
    decreases |steps|
  {
    if |steps| == 0 then (c, 0)
    else
      var e := Execute(cfg, c, steps[0].op, steps[0].now, steps[0].outcome);
      var rest := Run(cfg, e.client, steps[1..]);
      (rest.0, rest.1 + (if e.remoteCalled then 1 else 0))
  }

  /** Starting within budget, `retryAttempts` never exceeds MAX_RETRY_ATTEMPTS. */
  lemma {:induction false} RunKeepsRetryBound(cfg: Config, c: Client, steps: seq<Step>)
    requires c.conn.retryAttempts <= cfg.maxRetries
    ensures Run(cfg, c, steps).0.conn.retryAttempts <= cfg.maxRetries
    decreases |steps|
  {
    if |steps| > 0 {
      var e := Execute(cfg, c, steps[0].op, steps[0].now, steps[0].outcome);
      RunKeepsRetryBound(cfg, e.client, steps[1..]);
    }
  }
  /** The shipped client, started as the constructor starts it, never counts more than two attempts. */
  lemma ShippedClientStaysWithinBudget(userId: string, st: Store, steps: seq<Step>)
    ensures Run(Shipped(userId), Client(Initial, st), steps).0.conn.retryAttempts <= 2
  {
    RunKeepsRetryBound(Shipped(userId), Client(Initial, st), steps);
  }


  /**
   * With offline mode on, offline is never left by the operations: once
   * offline, every later operation is served locally, no remote call is made
   * and the connectivity state stays exactly as it is.
   */
  lemma {:induction false} OfflineIsAbsorbing(cfg: Config, c: Client, steps: seq<Step>)
    requires GoesLocal(cfg, c.conn)
    ensures Run(cfg, c, steps).0.conn == c.conn
    ensures Run(cfg, c, steps).1 == 0
    decreases |steps|
  {
    if |steps| > 0 {
      var e := Execute(cfg, c, steps[0].op, steps[0].now, steps[0].outcome);
      OfflineIsAbsorbing(cfg, e.client, steps[1..]);
    }
  }

  /** With offline mode off, every operation calls the server and the local store is never touched. */
  lemma {:induction false} WithoutOfflineModeAllRemote(cfg: Config, c: Client, steps: seq<Step>)
    requires !cfg.offlineMode
    ensures Run(cfg, c, steps).0.store == c.store
    ensures Run(cfg, c, steps).1 == |steps|
    decreases |steps|
  {
    if |steps| > 0 {
      var e := Execute(cfg, c, steps[0].op, steps[0].now, steps[0].outcome);
      WithoutOfflineModeAllRemote(cfg, e.client, steps[1..]);
    }
  }

  // ------------------------------------------------------------ syncLocalData

  /** The sync result: the client afterwards and the operations that reached the server, in order. */
  datatype SyncLog = SyncLog(client: Client, sent: seq<Op>)

  /** The replay loop: each record's error is caught and logged, and the loop goes on. */
  function Replay(cfg: Config, c: Client, ops: seq<Op>, now: int, outcomes: seq<Outcome>): (r: SyncLog)
    requires |outcomes| == |ops|
    ensures |r.sent| <= |ops|
    ensures forall i :: 0 <= i < |r.sent| ==> r.sent[i] in ops
    decreases |ops|
  {
    if |ops| == 0 then SyncLog(c, [])
    else
      var e := Execute(cfg, c, ops[0], now, outcomes[0]);
      var rest := Replay(cfg, e.client, ops[1..], now, outcomes[1..]);
      SyncLog(rest.client, (if e.remoteCalled then [ops[0]] else []) + rest.sent)
  }

  function CustomerReplayOp(cu: Customer): Op { AddCustomer(cu.name) }

  function VehicleReplayOp(v: Vehicle): Op {
    SaveVehicle(VehicleInput(v.vin, v.repairOrder, v.customerId, v.status, v.notes))
  }

  /**
   * A stored customer whose name is already trimmed (as every name saved
   * through `addCustomer` is) replays, on the local store, into the
   * duplicate-name refusal: the fallback of a sync adds nothing.
   */
  lemma CustomerReplayRefusedLocally(cfg: Config, st: Store, i: nat, now: int)
    requires i < |st.customers|
    requires var n := st.customers[i].name; |n| == 0 || (!IsJsWhitespace(n[0]) && !IsJsWhitespace(n[|n| - 1]))
    ensures RunLocal(cfg, CustomerReplayOp(st.customers[i]), st, now) == Rejected(CustomerExists)
  {
    var n := st.customers[i].name;
    TrimOfTrimmed(n);
    assert SameName(st.customers[i].name, Trim(n));
    var r := SaveLocalCustomer(st, Trim(n), cfg.userId, now);
    assert r.Rejected?;
    assert RunLocal(cfg, AddCustomer(n), st, now) == r;
  }

  /**
   * A stored vehicle with a VIN or a repair order replays, on the local store,
   * into an update of a record already there: the fallback of a sync never
   * grows the vehicle list.
   */
  lemma VehicleReplayUpdatesInPlace(cfg: Config, st: Store, i: nat, now: int)
    requires i < |st.vehicles|
    requires Truthy(st.vehicles[i].vin) || Truthy(st.vehicles[i].repairOrder)
    ensures var r := RunLocal(cfg, VehicleReplayOp(st.vehicles[i]), st, now);
            r.Done? && r.value == VehicleSaved(Updated) && |r.store.vehicles| == |st.vehicles|
  {
    assert SameSlot(st.vehicles[i], VehicleReplayOp(st.vehicles[i]).payload);
  }

  /**
   * The replay payload round-trips a record in stored form (VIN absent or
   * upper case, repair order absent or non-empty): what `saveVehicle` writes
   * from it carries the record's own VIN, repair order, customer, status and notes.
   */
  lemma VehicleReplayRoundTrip(v: Vehicle, rec: Vehicle, user: string, now: int)
    requires v.vin.None? || (Truthy(v.vin) && Upper(v.vin.value) == v.vin.value)
    requires v.repairOrder.None? || Truthy(v.repairOrder)
    requires Written(rec, VehicleReplayOp(v).payload, user, now)
    ensures rec.vin == v.vin && rec.repairOrder == v.repairOrder
    ensures rec.customerId == v.customerId && rec.status == v.status && rec.notes == v.notes
  {
  }

  /** Adding a customer, by any route, leaves the stored vehicles as they are. */
  lemma AddCustomerKeepsVehicles(cfg: Config, c: Client, name: string, now: int, o: Outcome)
    ensures Execute(cfg, c, AddCustomer(name), now, o).client.store.vehicles == c.store.vehicles
  {
    var lr := RunLocal(cfg, AddCustomer(name), c.store, now);
    assert lr.Done? ==> lr.store.vehicles == c.store.vehicles;
    if !GoesLocal(cfg, c.conn) {
      AfterAddCustomerKeepsVehicles(cfg, name, MakeRequest(cfg, c.conn, o), c.store, now);
    }
  }

  lemma AfterAddCustomerKeepsVehicles(cfg: Config, name: string, call: Call, st: Store, now: int)
    ensures AfterCall(cfg, AddCustomer(name), call, st, now).client.store.vehicles == st.vehicles
  {
    var op := AddCustomer(name);
    var lr := SaveLocalCustomer(st, Trim(name), cfg.userId, now);
    assert RunLocal(cfg, op, st, now) == lr;
    var r := AfterCall(cfg, op, call, st, now);
    match call.result {
      case Returned(body) =>
        if cfg.offlineMode {
          match lr {
            case Done(after, _) =>
              assert r == Exec(Client(call.conn, after), FromServer(body), true);
            case Rejected(e) =>
              assert r == Catch(cfg, op, call.conn, st, now, StoreFailure(e));
              CatchAddCustomerKeepsVehicles(cfg, name, call.conn, st, now, StoreFailure(e));
          }
        }
      case Raised(e) =>
        assert r == Catch(cfg, op, call.conn, st, now, RemoteFailure(e));
        CatchAddCustomerKeepsVehicles(cfg, name, call.conn, st, now, RemoteFailure(e));
    }
  }

  lemma CatchAddCustomerKeepsVehicles(cfg: Config, name: string, conn: Conn, st: Store, now: int, f: Failure)
    ensures Catch(cfg, AddCustomer(name), conn, st, now, f).client.store.vehicles == st.vehicles
  {
    if cfg.offlineMode {
      var lr := RunLocal(cfg, AddCustomer(name), st, now);
      assert Catch(cfg, AddCustomer(name), conn, st, now, f) == AnswerLocally(conn, st, lr, true);
    }
  }

  /** Replaying customers never changes the stored vehicles. */
  lemma {:induction false} CustomerReplayKeepsVehicles(cfg: Config, c: Client, ops: seq<Op>, now: int, outcomes: seq<Outcome>)
    requires |outcomes| == |ops|
    requires forall i :: 0 <= i < |ops| ==> ops[i].AddCustomer?
    ensures Replay(cfg, c, ops, now, outcomes).client.store.vehicles == c.store.vehicles
    decreases |ops|
  {
    if |ops| > 0 {
      var e := Execute(cfg, c, ops[0], now, outcomes[0]);
      AddCustomerKeepsVehicles(cfg, c, ops[0].name, now, outcomes[0]);
      CustomerReplayKeepsVehicles(cfg, e.client, ops[1..], now, outcomes[1..]);
    }
  }

  /**
   * `syncLocalData`: nothing when offline; otherwise every stored customer is
   * re-added, then every stored vehicle is re-saved, through the normal
   * operations, one outcome per record.
   */
  function SyncLocalData(cfg: Config, c: Client, now: int, customerOutcomes: seq<Outcome>, vehicleOutcomes: seq<Outcome>): (r: SyncLog)
    requires |customerOutcomes| == |c.store.customers|
    requires |vehicleOutcomes| == |c.store.vehicles|
    ensures !c.conn.isOnline ==> r == SyncLog(c, [])
    ensures |r.sent| <= |c.store.customers| + |c.store.vehicles|
    // only customer adds and vehicle saves are sent, and every customer sent goes before every vehicle sent
    ensures forall i :: 0 <= i < |r.sent| ==> r.sent[i].AddCustomer? || r.sent[i].SaveVehicle?
    ensures forall i, j :: 0 <= i < j < |r.sent| && r.sent[j].AddCustomer? ==> r.sent[i].AddCustomer?
    // the records go out in stored order, and sending stops early only once requests go to the local store
    ensures r.sent == (Seqs.Map(c.store.customers, CustomerReplayOp) + Seqs.Map(c.store.vehicles, VehicleReplayOp))[..|r.sent|]
    ensures c.conn.isOnline && |r.sent| < |c.store.customers| + |c.store.vehicles| ==> GoesLocal(cfg, r.client.conn)
  {
    if !c.conn.isOnline then SyncLog(c, [])
    else
      var customerOps := Seqs.Map(c.store.customers, CustomerReplayOp);
      var afterCustomers := Replay(cfg, c, customerOps, now, customerOutcomes);
      CustomerReplayKeepsVehicles(cfg, c, customerOps, now, customerOutcomes);
      var vehicleOps := Seqs.Map(afterCustomers.client.store.vehicles, VehicleReplayOp);
      var afterVehicles := Replay(cfg, afterCustomers.client, vehicleOps, now, vehicleOutcomes);
      AddsThenSaves(customerOps, afterCustomers.sent, vehicleOps, afterVehicles.sent);
      ReplaysSendPrefix(cfg, c, customerOps, vehicleOps, now, customerOutcomes, vehicleOutcomes);
      SyncLog(afterVehicles.client, afterCustomers.sent + afterVehicles.sent)
  }

  /** Picks from a list of customer adds followed by picks from a list of vehicle saves keep the adds first. */
  lemma AddsThenSaves(adds: seq<Op>, a: seq<Op>, saves: seq<Op>, b: seq<Op>)
    requires forall i :: 0 <= i < |adds| ==> adds[i].AddCustomer?
    requires forall i :: 0 <= i < |saves| ==> saves[i].SaveVehicle?
    requires forall i :: 0 <= i < |a| ==> a[i] in adds
    requires forall i :: 0 <= i < |b| ==> b[i] in saves
    ensures forall i :: 0 <= i < |a + b| ==> (a + b)[i].AddCustomer? || (a + b)[i].SaveVehicle?
    ensures forall i, j :: 0 <= i < j < |a + b| && (a + b)[j].AddCustomer? ==> (a + b)[i].AddCustomer?
  {
    forall i | 0 <= i < |a + b|
      ensures if i < |a| then (a + b)[i].AddCustomer? else (a + b)[i].SaveVehicle?
    {
      if i < |a| {
        assert (a + b)[i] == a[i];
      } else {
        assert (a + b)[i] == b[i - |a|];
      }
    }
  }

  /** Once offline with offline mode on, any later sync is a no-op. */
  lemma SyncAfterOfflineIsNoop(cfg: Config, c: Client, steps: seq<Step>, now: int,
                               customerOutcomes: seq<Outcome>, vehicleOutcomes: seq<Outcome>)
    requires GoesLocal(cfg, c.conn)
    requires |customerOutcomes| == |Run(cfg, c, steps).0.store.customers|
    requires |vehicleOutcomes| == |Run(cfg, c, steps).0.store.vehicles|
    ensures var later := Run(cfg, c, steps).0;
            SyncLocalData(cfg, later, now, customerOutcomes, vehicleOutcomes) == SyncLog(later, [])
  {
    OfflineIsAbsorbing(cfg, c, steps);
  }

  /** From a state that goes local, a replay sends nothing and stays in that state. */
  lemma {:induction false} ReplayWhileOfflineSendsNothing(cfg: Config, c: Client, ops: seq<Op>, now: int, outcomes: seq<Outcome>)
    requires |outcomes| == |ops|
    requires GoesLocal(cfg, c.conn)
    ensures Replay(cfg, c, ops, now, outcomes).sent == []
    ensures Replay(cfg, c, ops, now, outcomes).client.conn == c.conn
    decreases |ops|
  {
    if |ops| > 0 {
      var e := Execute(cfg, c, ops[0], now, outcomes[0]);
      ReplayWhileOfflineSendsNothing(cfg, e.client, ops[1..], now, outcomes[1..]);
    }
  }

  /**
   * A replay sends a prefix of its records, in order: a record is held back
   * only when requests go to the local store, and then so is every later one.
   */
  lemma {:induction false} ReplaySendsPrefix(cfg: Config, c: Client, ops: seq<Op>, now: int, outcomes: seq<Outcome>)
    requires |outcomes| == |ops|
    ensures var r := Replay(cfg, c, ops, now, outcomes);
            && r.sent == ops[..|r.sent|]
            && (|r.sent| < |ops| ==> GoesLocal(cfg, r.client.conn))
    decreases |ops|
  {
    if |ops| > 0 {
      var next := ReplayStep(cfg, c, ops, now, outcomes);
      var rest := Replay(cfg, next, ops[1..], now, outcomes[1..]);
      var r := Replay(cfg, c, ops, now, outcomes);
      if |r.sent| == |rest.sent| + 1 {
        ReplaySendsPrefix(cfg, next, ops[1..], now, outcomes[1..]);
        Seqs.ConsPrefix(ops, rest.sent);
      } else {
        ReplayWhileOfflineSendsNothing(cfg, next, ops[1..], now, outcomes[1..]);
        assert r.sent == [] && r.client.conn == next.conn;
      }
    }
  }

  /** One step of a replay: the first record is sent, or requests already go local and it is not. */
  lemma ReplayStep(cfg: Config, c: Client, ops: seq<Op>, now: int, outcomes: seq<Outcome>) returns (next: Client)
    requires |outcomes| == |ops| > 0
    ensures var rest := Replay(cfg, next, ops[1..], now, outcomes[1..]);
            var r := Replay(cfg, c, ops, now, outcomes);
            && r.client == rest.client
            && (|r.sent| == |rest.sent| + 1 ==> r.sent == [ops[0]] + rest.sent)
            && (|r.sent| != |rest.sent| + 1 ==> r.sent == rest.sent && GoesLocal(cfg, next.conn))
    ensures !cfg.offlineMode ==> next.store == c.store
  {
    var e := Execute(cfg, c, ops[0], now, outcomes[0]);
    next := e.client;
    if !e.remoteCalled {
      assert GoesLocal(cfg, c.conn) && e.client.conn == c.conn;
    }
  }

  /** Two replays in a row send a prefix of the two record lists joined, stopping early only to go local. */
  lemma ReplaysSendPrefix(cfg: Config, c: Client, first: seq<Op>, second: seq<Op>, now: int,
                          firstOutcomes: seq<Outcome>, secondOutcomes: seq<Outcome>)
    requires |firstOutcomes| == |first| && |secondOutcomes| == |second|
    ensures var a := Replay(cfg, c, first, now, firstOutcomes);
            var b := Replay(cfg, a.client, second, now, secondOutcomes);
            && a.sent + b.sent == (first + second)[..|a.sent + b.sent|]
            && (|a.sent + b.sent| < |first| + |second| ==> GoesLocal(cfg, b.client.conn))
  {
    var a := Replay(cfg, c, first, now, firstOutcomes);
    var b := Replay(cfg, a.client, second, now, secondOutcomes);
    ReplaySendsPrefix(cfg, c, first, now, firstOutcomes);
    ReplaySendsPrefix(cfg, a.client, second, now, secondOutcomes);
    if |a.sent| < |first| {
      ReplayWhileOfflineSendsNothing(cfg, a.client, second, now, secondOutcomes);
    }
    Seqs.JoinedPrefix(first, second, a.sent, b.sent);
  }

  /**
   * With offline mode off, a replay sends every record, whatever the server
   * answers to any of them: one failure does not stop the batch.
   */
  lemma {:induction false} ReplayWithoutOfflineModeSendsAll(cfg: Config, c: Client, ops: seq<Op>, now: int, outcomes: seq<Outcome>)
    requires |outcomes| == |ops|
    requires !cfg.offlineMode
    ensures Replay(cfg, c, ops, now, outcomes).sent == ops
    ensures Replay(cfg, c, ops, now, outcomes).client.store == c.store
    decreases |ops|
  {
    if |ops| > 0 {
      var next := ReplayStep(cfg, c, ops, now, outcomes);
      ReplayWithoutOfflineModeSendsAll(cfg, next, ops[1..], now, outcomes[1..]);
      assert ops == [ops[0]] + ops[1..];
    }
  }

  /** With offline mode off, an online sync sends every stored customer and then every stored vehicle. */
  lemma SyncWithoutOfflineModeSendsEveryRecord(cfg: Config, c: Client, now: int,
                                               customerOutcomes: seq<Outcome>, vehicleOutcomes: seq<Outcome>)
    requires !cfg.offlineMode && c.conn.isOnline
    requires |customerOutcomes| == |c.store.customers|
    requires |vehicleOutcomes| == |c.store.vehicles|
    ensures SyncLocalData(cfg, c, now, customerOutcomes, vehicleOutcomes).sent ==
              Seqs.Map(c.store.customers, CustomerReplayOp) + Seqs.Map(c.store.vehicles, VehicleReplayOp)
  {
    var customerOps := Seqs.Map(c.store.customers, CustomerReplayOp);
    ReplayWithoutOfflineModeSendsAll(cfg, c, customerOps, now, customerOutcomes);
    var afterCustomers := Replay(cfg, c, customerOps, now, customerOutcomes);
    var vehicleOps := Seqs.Map(afterCustomers.client.store.vehicles, VehicleReplayOp);
    ReplayWithoutOfflineModeSendsAll(cfg, afterCustomers.client, vehicleOps, now, vehicleOutcomes);
  }

  /**
   * With offline mode on, a record the server refuses with a status other
   * than 404 (a validation 400, say) marks the client offline, so none of the
   * records after it reaches the server: they are written locally instead.
   */
  lemma RefusalStrandsRestOfReplay(cfg: Config, c: Client, ops: seq<Op>, now: int, outcomes: seq<Outcome>)
    requires |outcomes| == |ops| > 0
    requires cfg.offlineMode && c.conn.isOnline
    requires outcomes[0].Response? && !IsOk(outcomes[0].status) && outcomes[0].status != 404
    ensures Replay(cfg, c, ops, now, outcomes).sent == [ops[0]]
  {
    var e := Execute(cfg, c, ops[0], now, outcomes[0]);
    assert !e.client.conn.isOnline;
    ReplayWhileOfflineSendsNothing(cfg, e.client, ops[1..], now, outcomes[1..]);
  }
}
