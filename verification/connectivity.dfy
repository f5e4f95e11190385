/**
 * The connectivity and retry state of the client API object (`isOnline`,
 * `retryAttempts`) and how one remote call moves it.
 *
 * A remote call is not performed: its result arrives as an `Outcome`.
 */
module Connectivity {
  import opened Wrappers

  /** The client settings: ENABLE_OFFLINE_MODE, MAX_RETRY_ATTEMPTS and USER_ID. */
  datatype Config = Config(offlineMode: bool, maxRetries: nat, userId: string)

  /** The shipped settings: offline mode on, two attempts. The user id is random there. */
  function Shipped(userId: string): Config {
    Config(true, 2, userId)
  }

  datatype Conn = Conn(isOnline: bool, retryAttempts: nat)

  /** The state the constructor starts from. */
  const Initial := Conn(true, 0)

  /**
   * What the network produced for one request: an HTTP response with its
   * status and its JSON body (`None` when `response.json()` cannot parse it),
   * or a transport failure (refused connection, aborted on timeout).
   */
  datatype Outcome = Response(status: int, body: Option<string>) | NetworkFailure

  /** `response.ok` */
  predicate IsOk(status: int) { 200 <= status <= 299 }

  predicate Delivered(o: Outcome) { o.Response? && IsOk(o.status) && o.body.Some? }

  predicate IsNotFound(o: Outcome) { o.Response? && o.status == 404 }

  /** A 2xx response whose body `response.json()` rejects. */
  predicate Unreadable(o: Outcome) { o.Response? && IsOk(o.status) && o.body.None? }

  /** A failure that counts against the retry budget: a non-2xx, non-404 status, or no response at all. */
  predicate IsServerFailure(o: Outcome) {
    o.NetworkFailure? || (!IsOk(o.status) && o.status != 404)
  }

  /** The errors `makeRequest` can throw. */
  datatype RemoteError =
    | HttpError(status: int)     // "HTTP <status>: <text>"
    | Network                    // the fetch rejection (connection failure, abort)
    | BadJson                    // `response.json()` rejected a 2xx body
    | ServerUnavailable          // "Server unavailable - using offline mode"

  /**
   * The client recognises "not found" by looking for the text 404 in the
   * error message; only the message of an HTTP 404 contains it here.
   */
  predicate MentionsNotFound(e: RemoteError) { e.HttpError? && e.status == 404 }

  datatype CallResult = Returned(body: string) | Raised(error: RemoteError)

  datatype Call = Call(conn: Conn, result: CallResult)

  predicate CanDegrade(cfg: Config, conn: Conn) {
    cfg.offlineMode && conn.retryAttempts < cfg.maxRetries
  }

  /** The `catch` block of `makeRequest`. */
  function Recover(cfg: Config, conn: Conn, e: RemoteError): (r: Call)
    ensures r.result.Raised?
    ensures MentionsNotFound(e) ==> r == Call(conn, Raised(e))
    ensures !MentionsNotFound(e) && CanDegrade(cfg, conn) ==>
              r == Call(Conn(false, conn.retryAttempts + 1), Raised(ServerUnavailable))
    ensures !MentionsNotFound(e) && !CanDegrade(cfg, conn) ==> r == Call(conn, Raised(e))
  {
    if MentionsNotFound(e) then Call(conn, Raised(e))
    else if CanDegrade(cfg, conn) then Call(Conn(false, conn.retryAttempts + 1), Raised(ServerUnavailable))
    else Call(conn, Raised(e))
  }

  /** One `makeRequest` call, given what the network produced. */
  function MakeRequest(cfg: Config, conn: Conn, o: Outcome): (r: Call)
    // a delivered 2xx response: online, budget reset, body returned
    ensures Delivered(o) ==> r == Call(Conn(true, 0), Returned(o.body.value))
    // 404 is rethrown and moves nothing
    ensures IsNotFound(o) ==> r == Call(conn, Raised(HttpError(404)))
    // any other failure with budget left: exactly one more attempt is spent and the client goes offline
    ensures IsServerFailure(o) && CanDegrade(cfg, conn) ==>
              r == Call(Conn(false, conn.retryAttempts + 1), Raised(ServerUnavailable))
    // any other failure without budget: the counter stays and the original error propagates;
    // a bad status still marks the client offline, a transport failure does not
    ensures IsServerFailure(o) && !CanDegrade(cfg, conn) ==>
              && r.conn.retryAttempts == conn.retryAttempts
              && r.conn.isOnline == (conn.isOnline && o.NetworkFailure?)
              && r.result == Raised(if o.NetworkFailure? then Network else HttpError(o.status))
    // a 2xx body that does not parse: the state is first reset, then the catch block runs from the reset state,
    // so with budget left the client ends offline with one attempt counted, whatever it had counted before
    ensures Unreadable(o) && CanDegrade(cfg, Initial) ==> r == Call(Conn(false, 1), Raised(ServerUnavailable))
    ensures Unreadable(o) && !CanDegrade(cfg, Initial) ==> r == Call(Initial, Raised(BadJson))
    // only a 2xx response can bring the client online
    ensures r.conn.isOnline && !conn.isOnline ==> o.Response? && IsOk(o.status)
    ensures r.result.Returned? <==> Delivered(o)
    // the thrown error mentions 404 exactly when the server answered 404
    ensures r.result.Raised? ==> (MentionsNotFound(r.result.error) <==> IsNotFound(o))
    ensures conn.retryAttempts <= cfg.maxRetries ==> r.conn.retryAttempts <= cfg.maxRetries
  {
    match o
    case Response(status, body) =>
      if IsOk(status) then
        var reset := Conn(true, 0);
        match body
        case Some(json) => Call(reset, Returned(json))
        case None => Recover(cfg, reset, BadJson)
      else
        var marked := if status != 404 then conn.(isOnline := false) else conn;
        Recover(cfg, marked, HttpError(status))
    case NetworkFailure => Recover(cfg, conn, Network)
  }

  /** The state effect of the `/health` probe: online exactly when a 2xx response arrived. */
  function Probe(conn: Conn, o: Outcome): (r: Conn)
    ensures r.isOnline <==> o.Response? && IsOk(o.status)
    ensures r.retryAttempts == conn.retryAttempts
  {
    match o
    case Response(status, _) => conn.(isOnline := IsOk(status))
    case NetworkFailure => conn.(isOnline := false)
  }

  /** The state after a series of `makeRequest` calls. */
  function AfterCalls(cfg: Config, conn: Conn, outcomes: seq<Outcome>): Conn
    decreases |outcomes|
  {
    if |outcomes| == 0 then conn
    else AfterCalls(cfg, MakeRequest(cfg, conn, outcomes[0]).conn, outcomes[1..])
  }

  /** Starting within budget, no series of calls pushes `retryAttempts` past MAX_RETRY_ATTEMPTS. */
  lemma {:induction false} RetryAttemptsBounded(cfg: Config, conn: Conn, outcomes: seq<Outcome>)
    requires conn.retryAttempts <= cfg.maxRetries
    ensures AfterCalls(cfg, conn, outcomes).retryAttempts <= cfg.maxRetries
    decreases |outcomes|
  {
    if |outcomes| > 0 {
      RetryAttemptsBounded(cfg, MakeRequest(cfg, conn, outcomes[0]).conn, outcomes[1..]);
    }
  }

  /** A run of 404 answers leaves the state exactly as it was. */
  lemma {:induction false} NotFoundRunsAreInert(cfg: Config, conn: Conn, outcomes: seq<Outcome>)
    requires forall i :: 0 <= i < |outcomes| ==> IsNotFound(outcomes[i])
    ensures AfterCalls(cfg, conn, outcomes) == conn
    decreases |outcomes|
  {
    if |outcomes| > 0 {
      NotFoundRunsAreInert(cfg, conn, outcomes[1..]);
    }
  }
}
