/**
 * The vehicle endpoints of the server: POST, GET and DELETE of
 * `/api/vehicles`, and `/api/stats`. The `vehicles` table is a map from the
 * (unique, upper-cased) VIN to the rest of the row; the clock is `now`.
 */
module VehicleServer {
  import opened Wrappers
  import opened Text

  const VinLength: nat := 17

  /** The CHECK constraint on `status`. */
  predicate IsStatus(s: string) {
    s == "pending" || s == "in-progress" || s == "completed"
  }

  datatype Row = Row(status: string, notes: string, dateAdded: int, lastUpdated: int, createdBy: string, updatedBy: string)

  type Table = map<string, Row>

  /** The request body `{ vin, status, notes, user }`; `None` is a missing field. */
  datatype PostBody = PostBody(vin: Option<string>, status: Option<string>, notes: Option<string>, user: Option<string>)

  datatype Body =
    | ErrorText(message: string)
    | SavedVin(vin: string, action: string)
    | Found(vin: string, row: Row)
    | DeletedOk
    | Counts(total: nat, pending: nat, inProgress: nat, completed: nat)

  datatype Reply = Reply(code: int, body: Body)

  datatype Served = Served(table: Table, reply: Reply)

  predicate Truthy(o: Option<string>) { o.Some? && o.value != "" }

  /** `x || fallback` */
  function OrElse(o: Option<string>, fallback: string): string {
    if Truthy(o) then o.value else fallback
  }

  /** Every key is an upper-case 17-character VIN and every status passes the CHECK constraint. */
  predicate WellFormed(t: Table) {
    forall k :: k in t ==> |k| == VinLength && Upper(k) == k && IsStatus(t[k].status)
  }

  predicate ValidBody(body: PostBody) {
    Truthy(body.vin) && |body.vin.value| == VinLength && body.status.Some? && IsStatus(body.status.value)
  }

  /** POST `/api/vehicles`: validate, then update the row of the upper-cased VIN or insert one. */
  function PostVehicle(t: Table, body: PostBody, now: int): (r: Served)
    ensures !ValidBody(body) ==> r.reply.code == 400 && r.table == t
    ensures ValidBody(body) ==>
              var key := Upper(body.vin.value);
              var user := OrElse(body.user, "unknown");
              && key in r.table
              && r.table[key].status == body.status.value
              && r.table[key].notes == OrElse(body.notes, "")
              && r.table[key].lastUpdated == now
              && r.table[key].updatedBy == user
              && (forall k :: k in t && k != key ==> k in r.table && r.table[k] == t[k])
              && (forall k :: k in r.table ==> k in t || k == key)
              && (key in t ==>
                    && r.reply == Reply(200, SavedVin(key, "updated"))
                    && r.table.Keys == t.Keys
                    && r.table[key].dateAdded == t[key].dateAdded
                    && r.table[key].createdBy == t[key].createdBy)
              && (key !in t ==>
                    && r.reply == Reply(201, SavedVin(key, "created"))
                    && |r.table| == |t| + 1
                    && r.table[key].dateAdded == now
                    && r.table[key].createdBy == user)
  {
    if !Truthy(body.vin) || |body.vin.value| != VinLength then
      Served(t, Reply(400, ErrorText("VIN must be exactly 17 characters")))
    else if !(body.status.Some? && IsStatus(body.status.value)) then
      Served(t, Reply(400, ErrorText("Invalid status")))
    else
      UpperIdempotent(body.vin.value);
      Upsert(t, Upper(body.vin.value), body.status.value, OrElse(body.notes, ""), OrElse(body.user, "unknown"), now)
  }

  /** The `SELECT` of a validated POST, then the `UPDATE` of the row of `key` if there is one or the `INSERT` of a new row. */
  function Upsert(t: Table, key: string, status: string, notes: string, user: string, now: int): (r: Served)
    ensures key in r.table
    ensures r.table[key].status == status && r.table[key].notes == notes
    ensures r.table[key].lastUpdated == now && r.table[key].updatedBy == user
    ensures forall k :: k in t && k != key ==> k in r.table && r.table[k] == t[k]
    ensures forall k :: k in r.table ==> k in t || k == key
    ensures key in t ==>
              && r.reply == Reply(200, SavedVin(key, "updated"))
              && r.table.Keys == t.Keys
              && r.table[key].dateAdded == t[key].dateAdded
              && r.table[key].createdBy == t[key].createdBy
    ensures key !in t ==>
              && r.reply == Reply(201, SavedVin(key, "created"))
              && |r.table| == |t| + 1
              && r.table[key].dateAdded == now
              && r.table[key].createdBy == user
  {
    if key in t then
      var row := t[key].(status := status, notes := notes, lastUpdated := now, updatedBy := user);
      Served(t[key := row], Reply(200, SavedVin(key, "updated")))
    else
      Served(t[key := Row(status, notes, now, now, user, user)], Reply(201, SavedVin(key, "created")))
  }

  /** A POST keeps every key an upper-case 17-character VIN and every status within the CHECK constraint. */
  lemma PostKeepsWellFormed(t: Table, body: PostBody, now: int)
    requires WellFormed(t)
    ensures WellFormed(PostVehicle(t, body, now).table)
  {
    if ValidBody(body) {
      var key := Upper(body.vin.value);
      var after := PostVehicle(t, body, now).table;
      UpperIdempotent(body.vin.value);
      forall k | k in after
        ensures |k| == VinLength && Upper(k) == k && IsStatus(after[k].status)
      {
        if k != key {
          assert k in t && after[k] == t[k];
        }
      }
    }
  }

  /** GET `/api/vehicles/:vin` */
  function GetVehicle(t: Table, vin: string): (r: Reply)
    ensures Upper(vin) in t <==> r.code == 200
    ensures r.code == 200 ==> r.body == Found(Upper(vin), t[Upper(vin)])
    ensures r.code != 200 ==> r.code == 404
  {
    var key := Upper(vin);
    if key in t then Reply(200, Found(key, t[key])) else Reply(404, ErrorText("Vehicle not found"))
  }

  /** DELETE `/api/vehicles/:vin`: remove the row of the upper-cased VIN; 404 when nothing was removed. */
  function DeleteVehicle(t: Table, vin: string): (r: Served)
    ensures Upper(vin) in t ==> r.reply.code == 200 && r.table == t - {Upper(vin)} && |r.table| == |t| - 1
    ensures Upper(vin) !in t ==> r.reply.code == 404 && r.table == t
    ensures WellFormed(t) ==> WellFormed(r.table)
  {
    var key := Upper(vin);
    if key in t then Served(t - {key}, Reply(200, DeletedOk))
    else Served(t, Reply(404, ErrorText("Vehicle not found")))
  }

  function WithStatus(t: Table, status: string): set<string> {
    set k | k in t && t[k].status == status
  }

  /** GET `/api/stats`: the row count and the count of each status. */
  function Stats(t: Table): (r: Reply)
    ensures r.code == 200 && r.body.Counts?
    ensures r.body.total == |t|
    ensures r.body.pending == |WithStatus(t, "pending")|
    ensures r.body.inProgress == |WithStatus(t, "in-progress")|
    ensures r.body.completed == |WithStatus(t, "completed")|
  {
    Reply(200, Counts(|t|, |WithStatus(t, "pending")|, |WithStatus(t, "in-progress")|, |WithStatus(t, "completed")|))
  }

  /** Under the CHECK constraint, the three status counts add up to the total. */
  lemma StatsAddUp(t: Table)
    requires WellFormed(t)
    ensures var c := Stats(t).body; c.pending + c.inProgress + c.completed == c.total
  {
    var p := WithStatus(t, "pending");
    var i := WithStatus(t, "in-progress");
    var d := WithStatus(t, "completed");
    assert p * i == {} && (p + i) * d == {};
    assert t.Keys == p + i + d;
    assert |p + i| == |p| + |i|;
    assert |p + i + d| == |p + i| + |d|;
  }

  /** Inserting a new VIN raises the count of its status by one and leaves the other counts as they were. */
  lemma InsertRaisesItsStatusCount(t: Table, body: PostBody, now: int, status: string)
    requires ValidBody(body) && Upper(body.vin.value) !in t
    ensures var after := PostVehicle(t, body, now).table;
            |WithStatus(after, status)| ==
              |WithStatus(t, status)| + (if status == body.status.value then 1 else 0)
  {
    var key := Upper(body.vin.value);
    var user := OrElse(body.user, "unknown");
    var row := Row(body.status.value, OrElse(body.notes, ""), now, now, user, user);
    assert PostVehicle(t, body, now).table == t[key := row];
    WithStatusAfterInsert(t, key, row, status);
    if status == row.status {
      assert key !in WithStatus(t, status);
    }
  }

  /** The rows with a status, once a fresh key is inserted. */
  lemma WithStatusAfterInsert(t: Table, key: string, row: Row, status: string)
    requires key !in t
    ensures WithStatus(t[key := row], status) ==
              WithStatus(t, status) + (if row.status == status then {key} else {})
  {
    var after := t[key := row];
    forall k | k in WithStatus(after, status)
      ensures k in WithStatus(t, status) || (k == key && row.status == status)
    {
      if k != key {
        assert after[k] == t[k];
      }
    }
  }

  /** Posting the same valid body twice leaves one row; the second post reports an update. */
  lemma PostTwiceUpdates(t: Table, body: PostBody, now1: int, now2: int)
    requires ValidBody(body)
    ensures var first := PostVehicle(t, body, now1);
            var second := PostVehicle(first.table, body, now2);
            && second.reply == Reply(200, SavedVin(Upper(body.vin.value), "updated"))
            && second.table.Keys == first.table.Keys
  {
  }

  /** VINs that differ only in letter case address the same row. */
  lemma CaseVariantsAddressSameRow(t: Table, a: string, b: string)
    requires Upper(a) == Upper(b)
    ensures GetVehicle(t, a) == GetVehicle(t, b)
    ensures DeleteVehicle(t, a) == DeleteVehicle(t, b)
  {
  }

  /** What a valid POST stored is what GET then returns. */
  lemma PostThenGet(t: Table, body: PostBody, now: int)
    requires ValidBody(body)
    ensures var after := PostVehicle(t, body, now).table;
            var got := GetVehicle(after, body.vin.value);
            && got.code == 200
            && got.body.row.status == body.status.value
            && got.body.row.notes == OrElse(body.notes, "")
  {
  }

  /** After a DELETE, GET of the same VIN is 404, and a second DELETE is 404 too. */
  lemma DeleteThenGetNotFound(t: Table, vin: string)
    ensures GetVehicle(DeleteVehicle(t, vin).table, vin).code == 404
    ensures DeleteVehicle(DeleteVehicle(t, vin).table, vin).reply.code == 404
  {
  }
}
