# VIN scanner: offline-tolerant data access, VIN text and vehicle endpoints

This project is a Dafny model of the core of a VIN scanner. Field technicians use the scanner to record vehicle
identification numbers (VINs) and repair-order numbers against customers, even when the network is intermittent.
The model has four parts:

- **Connectivity and retry state** (`connectivity.dfy`). The client API object keeps a small state,
  `(isOnline, retryAttempts)`. `makeRequest` moves it according to the outcome of a remote call: a delivered
  2xx response, a 404, another status, an unreadable 2xx body, or a transport failure. The network never runs
  here. Each call's result is an input `Outcome`. `ENABLE_OFFLINE_MODE`, `MAX_RETRY_ATTEMPTS` and `USER_ID` are
  the fields of `Config`.
- **Local replica store** (`localstore.dfy`, `localstore_props.dfy`). The customers and vehicles kept in browser
  storage are two in-memory sequences. The `*Local*` functions of the API object become pure functions over
  them. These cover name uniqueness, the delete guard, upsert by slot, inclusive date filtering, lookup by
  identifier, export and stats.
- **Request routing and sync** (`router.dfy`). Every public operation (`getAllCustomers` … `getStats`) goes
  straight to the local store when the client is offline and offline mode is on. Otherwise it calls the server.
  With offline mode on, a failed call falls back to the local store, and a remote write that succeeds is
  mirrored locally. With offline mode off, the error reaches the caller and the local store is never touched.
  `syncLocalData` replays the local store through the same operations.
- **Scanner page logic** (`vin.dfy`, `scanner.dfy`). `cleanVIN` and `extractVIN` work over the VIN alphabet
  `[A-HJ-NPR-Z0-9]`. The page logic covers the duplicate check on the VIN field, the save-time validation, and
  the search-box filter.
- **Server vehicle endpoints** (`server.dfy`). POST, GET and DELETE on `/api/vehicles` and `/api/stats` work
  over a map from the upper-cased VIN to the rest of the row.

Supporting modules: `wrappers.dfy` (`Option`), `text.dfy` (ASCII case mapping, JavaScript `trim` and
`includes`), `seqs.dfy` (`filter`, `findIndex`, `find`, `map` and filter lemmas).

## Behaviour as written

The model follows the code, including these behaviours a reader may not expect:

- Only `searchVehicle` and `getVehicleById` turn a 404 into `null`. Every other operation catches a 404 like any
  other error and answers from the local store when offline mode is on (`Router.Execute`).
- The local mirror of a successful remote write runs inside the `try` block. If the mirror write throws (a
  customer name already stored locally), the `catch` block runs the same local write again. The refusal then
  reaches the caller, although the server accepted the write (`Router.MirrorRefusalSurfaces`).
- Any status other than 2xx and 404 sets `isOnline` to false, even when the retry budget is spent. With offline
  mode on, one record that the server refuses during `syncLocalData` (a validation 400, say) therefore sends
  every later record to the local store instead of the server (`Router.RefusalStrandsRestOfReplay`). With
  offline mode off, every record is sent (`Router.SyncWithoutOfflineModeSendsEveryRecord`).
- The retry counter rises only while it is below `MAX_RETRY_ATTEMPTS`. When the budget is spent, a transport
  failure leaves `isOnline` unchanged.
- Local vehicle uniqueness is scoped to the customer: the slot is (VIN, customer) or (repair order, customer).
  The slot test compares the stored, upper-cased VIN with the VIN as given. Saving a lower-case VIN twice
  therefore stores two records (`LocalStoreProperties.LowerCaseVinSavedTwiceDuplicates`). An update also
  overwrites `createdBy`.
- `checkDuplicate` calls `getVehicleByVIN`, which the API object does not define. In the shipped page the lookup
  always throws and the feedback is "Unable to check for duplicates". The model takes the lookup's result as an
  input (`Scanner.DupLookup`).
- `filterVehicles` throws a TypeError when a listed vehicle has no VIN, such as a locally saved record with only
  a repair order (`Scanner.FilterVehicles` answers `None`).
- `getLocalVehicles` skips the customer filter for a falsy id (0). The export, however, looks the customer up
  among the listed customers, whose ids `getLocalCustomers` replaces by the position when falsy, so no listed
  id is 0 and exporting customer 0 is refused with "customer not found" (`LocalStore.GetLocalExportData`).
- A 2xx response whose body does not parse first resets the state to online with no attempts counted, and then
  runs the `catch` block. With offline mode on, the client therefore ends offline with exactly one attempt
  counted, whatever it had counted before (`Connectivity.MakeRequest`).
- Local vehicle slots are per customer, but the lookup by identifier is not: it returns the first stored vehicle
  with that VIN or repair order, whoever the customer. A save for one customer can therefore be shadowed by
  another customer's earlier vehicle with the same VIN (`LocalStoreProperties.OtherCustomersVehicleShadowsSave`).
  The scanner page saves with no customer, so a scan is shadowed by any earlier record with its VIN that belongs
  to a customer.
- The fallback to the local store does not depend on the retry budget: with offline mode on, a failure with the
  budget spent is still answered locally (`Router.SpentBudgetStillFallsBack`).

## Model

| member | source | states |
|---|---|---|
| Connectivity.MakeRequest | api.js:31-79 | A delivered 2xx response sets online, resets the counter and returns the body. A 404 is rethrown with the state unchanged. Any other failure with budget left spends exactly one attempt and goes offline. Without budget, the counter stays and the original error propagates; a bad status still marks the client offline, a transport failure does not. A 2xx body that does not parse resets the state first: with offline mode on and a positive budget the client ends at (offline, 1) with "server unavailable", otherwise at (online, 0) with the parse error. Only a 2xx response brings the client online. The thrown error mentions 404 exactly when the server answered 404. The counter never passes the maximum. |
| Connectivity.Recover | api.js:62-78 | The catch block rethrows an error that mentions 404 unchanged. Otherwise, with offline mode on and budget left, it goes offline with one more attempt counted and throws "server unavailable". Otherwise it rethrows with the state unchanged. |
| Connectivity.Probe | api.js:12-29 | The health probe sets online exactly when a 2xx response arrived and never touches the retry counter. |
| Connectivity.RetryAttemptsBounded | api.js:71-77 | Starting within budget, no series of remote calls pushes `retryAttempts` past MAX_RETRY_ATTEMPTS. |
| Connectivity.NotFoundRunsAreInert | api.js:51-68 | Any run of 404 answers leaves the connectivity state exactly as it was. |
| LocalStore.SaveLocalCustomer | api.js:327-350 | A name equal to a stored one, ignoring case, is refused with "customer exists" and nothing is written. Otherwise exactly one customer, stamped with the clock and the user (default `local`), is appended and vehicles are untouched. |
| LocalStore.SaveLocalCustomerKeepsNamesDistinct | api.js:329-342 | Successful saves keep stored customer names pairwise distinct, ignoring case. |
| LocalStore.GetLocalCustomers | api.js:316-325 | The stored customers in stored order, each keeping its name, date and author. A non-zero id is kept and a zero id becomes the position counted from 1, so no listed id is 0. |
| LocalStore.DeleteLocalCustomer | api.js:352-365 | Refused, with nothing changed, exactly when a vehicle references the customer. Otherwise the customers with a different id remain, in stored order (the `filter` of the source), and vehicles are untouched. |
| LocalStore.DeleteLocalCustomerKeepsReferences | api.js:356-362 | The delete guard preserves the invariant that every vehicle's customer id names a stored customer. |
| LocalStore.StagedFilter | api.js:372-390 | The successive filters never lengthen the list and keep only stored vehicles that satisfy the whole query. |
| LocalStore.StagedFilterIsSelection | api.js:374-390 | The three successive filters (customer when truthy, start date, end date) select exactly the vehicles that satisfy the single conjunctive query, in stored order. |
| LocalStore.GetLocalVehicles | api.js:368-408 | The result is, in stored order, the views of exactly the vehicles matching the customer filter and the inclusive bounds `start <= date <= end`. |
| LocalStore.ListsEverything | api.js:368-408 | Without a query, `getLocalVehicles` lists the views of every stored vehicle in stored order. |
| LocalStore.GetLocalVehicleByIdentifier | api.js:410-416 | The result is the first stored vehicle whose VIN or repair order equals the identifier, ignoring case, with every earlier vehicle not matching. It is `None` exactly when no vehicle matches. |
| LocalStore.GetLocalVehicleById | api.js:418-421 | The view of the first stored vehicle with that id (the `find` of the source; ids can repeat), or `None` exactly when no vehicle has it. |
| LocalStore.SaveLocalVehicle | api.js:423-454 | It always succeeds and leaves customers alone. It reports `updated` exactly when a slot matches. An update overwrites the first matching slot in place, keeps its `id` and `dateAdded`, changes no other slot and keeps the length. Otherwise one record with `id = dateAdded = now` is appended and `created` is reported. The written record carries the upper-cased VIN, the payload fields, the clock and the user in both author fields. |
| LocalStore.DeleteLocalVehicle | api.js:456-461 | The vehicles with a different id remain, in stored order (the `filter` of the source). Customers are untouched. |
| LocalStore.GetLocalExportData | api.js:463-489 | Refused with "customer not found" exactly when no listed customer has the id, where the listed id of a customer with a zero id is its position; so customer 0 is always refused. Otherwise the store is unchanged, the export names the first listed customer with that id (the `find` of the source), the rows are the projections of that customer's filtered vehicles, the date range is the one asked for and the generation time is the clock. |
| LocalStore.CountIsMultiplicity | api.js:494-497 | Counting the listed vehicles with a status equals the number of times the status occurs among the stored vehicles. |
| LocalStore.GetLocalStats | api.js:491-500 | `total` is the number of stored vehicles, each of the four counts is the number of stored vehicles with that status, and together they never exceed `total`. |
| LocalStore.StatusCountsBounded | api.js:494-498 | The four status counts sum to at most the length, and exactly the length when every status is one of the four. |
| LocalStore.LocalStatsAddUp | api.js:491-500 | When every stored status is one of `pre-scan`, `post-scan`, `calibration` or `completed`, the counts add up to `total`. |
| LocalStoreProperties.SavedRecordPresent | api.js:424-447 | After a save, the store holds a record carrying the payload, the clock and the user. Every record before it is as it was before the save, and a created record, appended at the end, has the clock as its id. |
| LocalStoreProperties.SaveLocalVehicleTwiceUpdates | api.js:425-453 | Saving the same payload twice leaves one slot: the second save reports `updated` and adds no record, provided the VIN is upper-case or a repair order is present. |
| LocalStoreProperties.LowerCaseVinSavedTwiceDuplicates | api.js:426-432 | Saving a lower-case VIN twice stores two records, because the slot test compares the stored upper-cased VIN with the raw one. |
| LocalStoreProperties.SaveThenLookupByVin | api.js:410-432 | After a save with a VIN, a lookup by that VIN in any letter case finds some vehicle; it need not be the one just saved (see `SaveThenLookupFindsSaved` and `OtherCustomersVehicleShadowsSave`). |
| LocalStoreProperties.SaveThenLookupByRepairOrder | api.js:410-433 | After a save with a repair order, a lookup by it in any letter case finds some vehicle; it need not be the one just saved. |
| LocalStoreProperties.LookupFindsFirst | api.js:410-416 | The lookup by identifier returns the view of the first stored vehicle whose VIN or repair order equals the identifier, ignoring case. |
| LocalStoreProperties.SaveThenLookupFindsSaved | api.js:410-454 | When no stored vehicle was named by the identifier before, a lookup right after a save of a payload it names returns the record the save wrote: the payload's VIN upper-cased, repair order, customer, status and notes, the clock as `lastUpdated`, and the id `now` when the save created the record. |
| LocalStoreProperties.OtherCustomersVehicleShadowsSave | api.js:410-454 | Vehicle 7 with VIN "V" for customer 1 is stored; saving VIN "V" for customer 2 at time 99 creates a second record, yet a lookup of "v" returns vehicle 7. |
| LocalStoreProperties.DeleteThenLookupById | api.js:418-461 | After a delete by id, the lookup by that id finds nothing. |
| LocalStoreProperties.ExportRoundTrip | api.js:463-482 | For an export that succeeds (never one of customer 0), the export rows are, in stored order, exactly the customer's vehicles with `start <= dateAdded <= end` (bounds inclusive), field for field. |
| Router.RunLocal | api.js:82-314 | The local counterpart of each operation: reads leave the store as it was, only adding or deleting a customer and exporting can be refused, customer writes leave the vehicles alone and vehicle writes the customers. |
| Router.Catch | api.js:186-198 | The `catch` block (shown here for `searchVehicle`; `addCustomer`'s at api.js:120-126 is the same without the 404 branch): search and lookup by id answer `null` to an error mentioning 404 and touch nothing. Any other error is answered by the local operation on the store as it was when offline mode is on, and reaches the caller unchanged with the store untouched when it is off. |
| Router.Execute | api.js:82-314 | Offline with offline mode on, the local store answers, no remote call is made and connectivity is unchanged. Otherwise the server is called and connectivity moves as one `makeRequest`. Any failure other than the `null`-answered 404 is answered by the local operation on the unchanged store when offline mode is on, whatever the retry budget, and reaches the caller when it is off. A delivered body is the answer, and with offline mode on a write is also mirrored: the store becomes what the local write makes it, or the local refusal is thrown. With offline mode off, the local store is never touched. Search and lookup by id turn a 404 into `null` and change nothing, and only they do. The retry bound is kept. |
| Router.AfterCall | api.js:107-126 | Once `makeRequest` has returned or thrown, the connectivity state is the one it left. A thrown error other than the `null`-answered 404 is answered by the local operation on the store as it was when offline mode is on, and reaches the caller when it is off. A returned body is the answer; with offline mode on a write is mirrored, its local refusal surfacing as the answer. With offline mode off the store is untouched and no local value is returned. |
| Router.SpentBudgetStillFallsBack | api.js:62-78 | With offline mode on and the retry budget spent, a transport failure still has the operation answered by the local store, with the client left online. |
| Router.OfflineIgnoresNetwork | api.js:83-85 | Offline with offline mode on, the outcome the network would have produced makes no difference to any operation. |
| Router.MirrorRefusalSurfaces | api.js:104-126 | When the server accepts a new customer whose name is already stored locally, the caller still receives "customer exists". The client is online and the local store is unchanged. |
| Router.RemoteSaveIsMirrored | api.js:230-241 | A delivered remote vehicle save with offline mode on returns the server's body and leaves the store exactly as the local save would. |
| Router.OfflineSaveIsLocalSave | api.js:220-228 | Offline with offline mode on, saving a vehicle through the API object changes the store exactly as the local save does and leaves connectivity as it is. |
| Router.AddCustomerKeepsVehicles | api.js:98-127 | Adding a customer, by any route, leaves the stored vehicles unchanged. |
| Router.RunKeepsRetryBound | api.js:71-77 | Across any series of operations started within budget, `retryAttempts` stays at most MAX_RETRY_ATTEMPTS. |
| Router.ShippedClientStaysWithinBudget | config.js:9-16 | A client built with the shipped configuration (offline mode on, two retries) and the initial state never counts more than two attempts, whatever happens. |
| Router.OfflineIsAbsorbing | api.js:51-85 | With offline mode on, once offline, every later operation makes no remote call and the connectivity state stays exactly as it is: offline is never left. |
| Router.WithoutOfflineModeAllRemote | api.js:87-95 | With offline mode off, every operation calls the server and the local store is never changed. |
| Router.Replay | api.js:510-531 | The replay loop sends at most one remote call per record, and only records it was given. |
| Router.ReplaySendsPrefix | api.js:510-531 | A replay sends its records in order, with none skipped: what it sends is a prefix of the records. It holds a record back only when requests go to the local store, and it sends nothing after that. |
| Router.CustomerReplayRefusedLocally | api.js:510-512 | A stored customer whose name neither starts nor ends with whitespace (as every name `addCustomer` saves), replayed through `addCustomer` onto the local store, is refused as a duplicate: the local fallback of a sync adds no customer. |
| Router.VehicleReplayUpdatesInPlace | api.js:520-528 | A stored vehicle with a VIN or a repair order, replayed through `saveVehicle` onto the local store, updates a record in place: the local fallback of a sync adds no vehicle. |
| Router.VehicleReplayRoundTrip | api.js:522-528 | The replay payload round-trips a record in stored form: the record `saveLocalVehicle` writes from it has the original VIN, repair order, customer, status and notes. |
| Router.CustomerReplayKeepsVehicles | api.js:508-519 | Replaying customers never changes the stored vehicles, so the vehicle snapshot equals the one before the customer loop. |
| Router.SyncLocalData | api.js:503-535 | When offline it is a no-op. Otherwise the ops sent are a prefix of the replay ops of every stored customer followed by those of every stored vehicle, in stored order: at most one call per record, customers before vehicles. When an online sync sends fewer than all records, the client has ended offline with offline mode on: each record not sent went to the local store instead. |
| Router.SyncAfterOfflineIsNoop | api.js:504 | With offline mode on, once offline, any later sync returns the client unchanged and sends nothing. |
| Router.ReplayWhileOfflineSendsNothing | api.js:520-532 | A replay that starts offline with offline mode on sends nothing and stays offline. |
| Router.ReplayWithoutOfflineModeSendsAll | api.js:520-532 | With offline mode off, a replay sends every record, whatever the server answers to any of them, and leaves the local store unchanged. |
| Router.SyncWithoutOfflineModeSendsEveryRecord | api.js:503-535 | With offline mode off and online, a sync sends every stored customer and then every stored vehicle, in order. |
| Router.RefusalStrandsRestOfReplay | api.js:51-56 | With offline mode on, when the server refuses a record with a status other than 2xx and 404, no later record of that replay reaches the server. |
| Vin.StripNonVin | app.js:193 | Removing every character outside `[A-HJ-NPR-Z0-9]` keeps exactly the class characters in their order (the filter of the text by the class), never lengthens the text, and leaves text made only of class characters unchanged. |
| Vin.StripNonVinAppend | app.js:193 | Stripping a concatenation strips each part: the result for `a + b` is that of `a` followed by that of `b`. |
| Vin.CleanVin | app.js:215-217 | The result has only class characters, at most 17 of them. It is the prefix of the stripped text of length min(stripped length, 17). |
| Vin.CleanVinIdempotent | app.js:215-217 | Cleaning twice gives the same result as cleaning once. |
| Vin.CleanVinKeepsValidVin | app.js:215-217 | A 17-character VIN over the class is its own clean form. |
| Vin.CleanVinDropsLowerCase | app.js:216 | Lower-case letters are dropped rather than upper-cased: `1hgA` cleans to `1A`. |
| Vin.RunLength | app.js:197 | The run of class characters starting at a position stays inside the text and is maximal. |
| Vin.FirstRun | app.js:197-209 | The first match of `[A-HJ-NPR-Z0-9]{lo,hi}` is between `lo` and `hi` class characters long. |
| Vin.FirstRunOfVinText | app.js:196-210 | On text made only of class characters, the first match starts at the search start. It takes up to `hi` characters and exists exactly when at least `lo` remain. |
| Vin.ExtractVin | app.js:191-213 | Whatever `extractVIN` finds is 14 to 17 class characters. |
| Vin.ExtractVinNullIffShort | app.js:191-213 | `extractVIN` returns `null` exactly when the cleaned text is shorter than 14 characters. |
| Vin.ExtractVinTakesFirstSeventeen | app.js:193-202 | When the cleaned text has at least 17 characters, `extractVIN` returns its first 17. |
| Vin.ExtractVinAgreesWithCleanVin | app.js:191-217 | Whenever `extractVIN` finds something, it equals `cleanVIN` of the same text and is 14 to 17 characters long. |
| Text.TrimOfTrimmed | api.js:100 | Text that neither starts nor ends with whitespace is left unchanged by `trim`. |
| Scanner.CheckDuplicate | app.js:245-277 | The key is the input upper-cased and trimmed. A key shorter than 17 reports its current length. The lookup happens exactly when the key has 17 characters, and it is made with the key. A longer key changes nothing. A duplicate is flagged exactly when the lookup found a record. |
| Scanner.CheckDuplicateLooksUpOnlyAtSeventeen | app.js:249-257 | When the key is not 17 characters long, the lookup's result makes no difference. |
| Scanner.CheckDuplicateIgnoresCase | app.js:246 | Inputs that differ only in letter case get the same check. |
| Scanner.ScanPayload | app.js:287-306 | The save is refused exactly when the trimmed VIN field is not 17 characters long, the empty case included. Otherwise the payload is the trimmed VIN field upper-cased, the chosen status and the trimmed notes, with no customer and no repair order. |
| Scanner.SubmitScan | app.js:286-336 | An invalid VIN is reported without any API call and with the client unchanged. A valid scan is saved through the API object with that payload, and the failure alert shows exactly when that call throws, leaving the client as the call left it. After a save that did not throw, the vehicle list is reloaded with `getAllVehicles()` and the client afterwards is the reload's. The saved notice says "saved locally" exactly when the client was offline after the save, and a local answer's action is reported. |
| Scanner.OfflineScanSavesLocally | app.js:302-336 | Offline with offline mode on, a valid scan, reload included, changes only the local store, exactly as the local save does. |
| Scanner.OfflineReloadKeepsClient | app.js:331-336 | Offline with offline mode on, reloading the vehicle list changes neither the connectivity state nor the store. |
| Scanner.OfflineSearchIsLocalLookup | api.js:181-184 | Offline with offline mode on, a search makes no remote call and answers with the local lookup. |
| Scanner.OfflineScanThenSearch | app.js:286-306 | Offline with offline mode on, a search for the scanned VIN in any case right after a valid scan finds a vehicle with no remote call. When no stored vehicle was named by that VIN before, the vehicle found is the scan: the upper-cased VIN, no repair order or customer, the chosen status, the trimmed notes and the clock. |
| Scanner.FilterVehicles | app.js:388-392 | The filter succeeds exactly when every listed vehicle has a VIN. It then keeps, in order, exactly the vehicles whose VIN or notes contain the term, ignoring case. |
| Scanner.EmptyTermKeepsAll | app.js:389-392 | An empty search term keeps every listed vehicle. |
| VehicleServer.PostVehicle | server/server.js:103-166 | A missing or non-17-character VIN, or a status outside pending/in-progress/completed, gives 400 and no change. Otherwise the row of the upper-cased VIN gets the status, the notes (default empty), the time and the user (default `unknown`), and no other row changes. An existing row keeps `date_added` and `created_by` and the row set, and reports 200 `updated`. A new row adds exactly one row with `date_added = last_updated` and `created_by = updated_by`, and reports 201 `created`. |
| VehicleServer.Upsert | server/server.js:119-164 | The row of the key gets the status, notes, time and user, and no other row changes. An existing row keeps its `date_added` and `created_by` and the row set, with 200 `updated`. A new key adds exactly one row with `date_added` and `created_by` set from this post, with 201 `created`. |
| VehicleServer.PostKeepsWellFormed | server/server.js:103-166 | Every POST keeps each key an upper-case 17-character VIN and each status within the CHECK constraint. |
| VehicleServer.GetVehicle | server/server.js:81-100 | The reply is 200 with the row exactly when the upper-cased VIN is stored, else 404. |
| VehicleServer.DeleteVehicle | server/server.js:169-182 | A stored upper-cased VIN is removed, the table shrinks by one and the reply is 200. Otherwise the reply is 404 and nothing changes. The table invariant is preserved. |
| VehicleServer.Stats | server/server.js:185-203 | `total` is the row count and each status count is the number of rows with that status. |
| VehicleServer.StatsAddUp | server/server.js:186-192 | Under the CHECK constraint on status, the three counts add up to `total`. |
| VehicleServer.InsertRaisesItsStatusCount | server/server.js:146-163 | Inserting a new VIN raises its status count by one and leaves the other counts unchanged. |
| VehicleServer.PostTwiceUpdates | server/server.js:119-143 | Posting the same valid body twice leaves one row: the second post reports `updated` and keeps the row set. |
| VehicleServer.CaseVariantsAddressSameRow | server/server.js:169-172 | VINs that differ only in letter case get the same GET reply and the same DELETE result. |
| VehicleServer.PostThenGet | server/server.js:103-166 | After a valid POST, GET of the same VIN returns 200 with the posted status and notes. |
| VehicleServer.DeleteThenGetNotFound | server/server.js:169-182 | After a DELETE, GET of the same VIN is 404, and so is a second DELETE. |

## Left out

- Network I/O: `fetch`, `AbortController` timeouts and the HTTP part of `testConnection`. Each remote result is an input `Outcome`, and an `await` is one step. The model does not cover the probe racing with the first request, which the constructor allows.
- The "not found" test matches the substring `404` in the error message. The model treats it as a tag: only an HTTP 404 carries it, which assumes status texts, transport messages and JSON parse errors do not contain "404". A `SyntaxError` from `response.json()` whose message contains "404" (a position, or a quoted piece of the body) is rethrown by the source with the state unchanged, and `searchVehicle` and `getVehicleById` then answer `null`. The model instead treats every unreadable body as one that does not mention 404 (`Connectivity.MakeRequest`).
- Remote response bodies are opaque strings. The server's JSON is not interpreted by the client model.
- Browser storage JSON parsing and serialisation: the store is two in-memory sequences.
- Legacy records with missing fields: the model's records always carry every field. Of the `||` defaults of `getLocalCustomers` and `getLocalVehicles`, only `id || index + 1` is modelled, with 0 as the falsy id; the date and author defaults (`dateAdded || date_added || now`, and so on, api.js:321-323 and api.js:402-405) are not. Nor are the other view defaults of `getLocalVehicles` (api.js:395-398): `id || Date.now()`, so a stored id of 0 keeps its 0 in the model's view, and `customerId || customer_id`, so a stored customer id of 0 views as `undefined` in the source but as `Some(0)` in `ViewOf`.
- `Date.now()` and `new Date()` are one clock parameter `now`. Dates are integers, so date-string parsing and invalid dates are not modelled.
- Loose `==` comparisons of ids: ids are integers, and a missing customer id is `None`.
- Technicians: the client code has no technician operations.
- Case mapping covers ASCII letters only, unlike JavaScript's full Unicode `toUpperCase`/`toLowerCase`. String lengths count characters, not UTF-16 code units.
- Scanner page: camera, canvas cropping, `enhanceImage` (floating point) and the Tesseract OCR loop of `processVIN` are left out. So are DOM rendering, alerts, the vehicle list's sort by `last_updated`, auto-refresh, `editVehicle` and the global `deleteVehicle`, which passes a VIN where an id is expected.
- Scanner.SubmitScan: when the server answered, the model does not choose between the "updated" and "saved" wordings, because that choice reads the server's JSON, which the model keeps opaque.
- Server: Express middleware, helmet, the rate limiter, `/health`, the SIGINT shutdown and database errors (the 500 replies) are left out. So is the autoincrement `id`, which no endpoint returns.
- Server: `GET /api/vehicles` (every row ordered by `last_updated` descending) is left out, because the map model keeps no row order.
- The client and the server are not related by any theorem. The client calls endpoints and statuses that this server does not serve.
