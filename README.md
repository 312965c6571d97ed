# OBD-II ingestion server: a Dafny model of its request logic

The server (a Node.js Express application, `index.js`) receives vehicle
telemetry over HTTP. Clients post JSON arrays of OBD sensor readings to
`POST /postObd` and of trip summaries to `POST /postTrips`; the server turns
each element into a record, saves every record to MongoDB at once, and
answers when the saves have come back. The OData read side (`/odata`) is
guarded by a basic-auth gate (index.js:220); the two ingestion routes
(index.js:224, 270) are not, and accept posts without any credentials.
This project models three pieces of that logic and proves what they do:

- **The basic-auth gate** (`auth.dfy`, module `BasicAuth`). A pre-flight
  `OPTIONS` request always passes. Any other request needs a non-empty name
  and password. The name must appear in the comma-separated list
  `BASIC_AUTH_USERS` and the password in `BASIC_AUTH_USER_PASSWORDS`. The two
  lookups are independent, so one user's name with another user's password
  is accepted. Every refusal is a 401 with the header
  `WWW-Authenticate: Basic realm=Authorization Required`. The model includes
  the `split(',')` that builds the lists and proves it inverse to `join`.
- **The record mappers** (`json.dfy`, `trips.dfy`, `obd.dfy`). Each mapper
  copies the posted members into the schema's columns. It renames `id` to
  `receivedId`, and for OBD readings `UTCTicks` to `recordedTimestamp`. It
  sets `receivedDate` from the server clock. A member the element lacks is
  stored as absent (`None`).
- **The save fan-in** (`ingest.dfy`, module `Ingest`; `routes.dfy`). Both
  routes run one loop that starts a save per element. Each save's callback
  fires once, in any order:
  - an error completion calls `res.json` with the error at once;
  - a stored document is appended to the shared `saved` array, and
    `res.json` is called with the array when its length equals the number
    of elements posted.

  The callbacks are modelled as completion events fed one at a time to
  `Handler.OnComplete`. `Handler.responses` logs every `res.json` call the
  callbacks make. Functions of the event history (`SavedDocs`,
  `Responses`) specify the handler. The lemmas prove:
  - `res.json` is called with the saved array at most once;
  - that array holds the documents in completion order;
  - every error completion calls `res.json` with its error. Nothing guards
    a second call; once the response is finished, that call throws inside
    the save callback, so the client receives only the first response;
  - after one failure the saved array is never sent;
  - an empty batch never gets an answer.

  Each event names the loop iteration (its `slot`) whose save it ends. The
  handler's code never reads the slot. `OnComplete` requires that the slot
  was started and has not completed yet, which is what the store's
  callback API guarantees.

Behaviours of the code worth knowing, each proved or exhibited in the model:

- The gate looks up the name and the password in separate lists
  (index.js:32), so a name from one configured pair with the password of
  another passes; `BasicAuth.CrossPairGranted` exhibits such a pair.
- For an empty array the loop starts no save (index.js:227-232), so no
  callback ever runs and the request is never answered;
  `Ingest.EmptyBatchSilent`.
- Every error completion calls `res.json` (index.js:252, 313), with no
  check that a response has already gone out; the second such call throws
  in the save callback (`Ingest.EveryErrorSent` counts the calls).
- `receivedDate` is read from `new Date()` while each record is built in
  the dispatch loop (index.js:239, 286), not when the store saves it; the
  model passes a clock reading per loop iteration.

## Model

| member | source | states |
|---|---|---|
| `BasicAuth.Split` | index.js:7-8 | splitting an environment variable on commas always yields at least one piece (the empty string yields `[""]`) |
| `BasicAuth.SplitPiecesFree` | index.js:7-8 | no allow-list entry contains a comma |
| `BasicAuth.SplitJoin` | index.js:7-8 | joining the pieces with commas gives back the variable's value |
| `BasicAuth.JoinSplit` | index.js:7-8 | splitting a comma-join of comma-free entries gives back exactly those entries |
| `BasicAuth.IndexOf` | index.js:32 | `indexOf` is -1 exactly when the entry is absent, and otherwise the first position holding it |
| `BasicAuth.Authenticate` | index.js:15-37 | the gate's only outcomes are passing the request on or the 401 challenge |
| `BasicAuth.OptionsPassesThrough` | index.js:17-19 | an `OPTIONS` request passes whatever credentials it carries |
| `BasicAuth.MissingCredentialsChallenged` | index.js:21-30 | for any other method, absent credentials or an empty name or password get 401 with `WWW-Authenticate: Basic realm=Authorization Required` |
| `BasicAuth.GrantedIff` | index.js:28-36 | for any other method the request passes iff the name and password are present and non-empty, the name is in the user list and the password is in the password list; every other outcome is the 401 challenge |
| `BasicAuth.PairListedGranted` | index.js:32-33 | every configured (name, password) pair at the same position of the two lists is let through |
| `BasicAuth.CrossPairGranted` | index.js:32-33 | the converse fails: a name from one pair with the password of another is let through though it is no configured pair |
| `BasicAuth.CommaNameNeverGranted` | index.js:7-36 | with the lists read from the environment, a name containing a comma never gets past the gate, except on an `OPTIONS` request |
| `Trips.CopiesSchema` | index.js:236-248 | every trip column other than `receivedDate` holds the posted member of the same name (`id` for `receivedId`), absent when missing; `receivedDate` is the server time |
| `Trips.ReadsOnlySources` | index.js:236-248 | two elements that agree on the nine members the trip mapper copies give the same trip record: no other member is read |
| `Trips.TimeOnly` | index.js:239 | mapping an element at two server times gives records that differ only in `receivedDate`, so the same input and time give equal records |
| `ObdRecords.CopiesSchema` | index.js:282-309 | every OBD column other than `receivedDate` holds the posted member of the same name, except `receivedId` from `id` and `recordedTimestamp` from `UTCTicks`; `receivedDate` is the server time |
| `ObdRecords.ReadsOnlySources` | index.js:282-309 | two elements that agree on the 21 members the OBD mapper copies give the same record |
| `ObdRecords.TimeOnly` | index.js:286 | mapping an element at two server times gives records that differ only in `receivedDate` |
| `Ingest.Dispatch` | index.js:227-249 | the loop starts exactly one save per posted element, in posting order, whose record is the mapper applied to that element and to the clock reading of its iteration |
| `Ingest.Handler.constructor` | index.js:227-230 | before any callback has fired, `n` is the number of elements, `saved` is empty and nothing has been sent |
| `Ingest.Handler.OnComplete` | index.js:250-266 | an error callback logs one `res.json` call with its error and leaves `saved` alone; a success callback appends its document to `saved` and sends the whole array iff the new length equals `n`; the handler stays consistent with the history specification |
| `Ingest.CountsAddUp` | index.js:250-259 | every completion either saves one document or reports one error |
| `Ingest.SuccessOnceAtN` | index.js:259-265 | the number of success responses is 1 if `n > 0` and at least `n` documents were saved, and 0 otherwise: the success response is sent at most once, when the count reaches `n` |
| `Ingest.SuccessHoldsFirstN` | index.js:259-264 | a success response holds exactly the first `n` saved documents, in the order their saves completed |
| `Ingest.EveryErrorSent` | index.js:251-255 | the `res.json` calls made with an error are exactly one per failed completion, in completion order: nothing guards a call after the response is finished |
| `Ingest.WellFormedBound` | index.js:232-250 | at most `n` callbacks fire, and when `n` have fired every started save has completed |
| `Ingest.FailureBlocksSuccess` | index.js:251-265 | once any of the `n` saves has failed, `saved` stays shorter than `n` and no success response is ever sent |
| `Ingest.EmptyBatchSilent` | index.js:227-232 | with nothing posted no callback can fire and nothing is sent; whatever happens, no success response is sent |
| `Ingest.QuietUntilLast` | index.js:259-265 | while fewer than `n` saves have completed and none failed, nothing has been sent |
| `Ingest.AllSavedSendsAll` | index.js:259-265 | when all `n` saves succeed, exactly one response is sent, holding every saved document |
| `Ingest.AllSavedCoversBatch` | index.js:232-265 | when all `n` saves succeed, the saved documents are those of the completions in completion order, every posted element has its save among them, and if the store returns records unchanged the `k`-th document holds the record started for the element of the `k`-th completion |
| `Ingest.CompletionOrderNotPostingOrder` | index.js:259-263 | when the second of two saves ends first, the response lists its document first: the order is completion order, not posting order |
| `Routes.PostTrips` | index.js:224-250 | the trip route starts one save per element with the trip mapper and sends nothing yet |
| `Routes.PostObd` | index.js:270-311 | the OBD route starts one save per element with the OBD mapper and sends nothing yet |
| `Routes.TwoReadingsSavedOutOfOrder` | index.js:270-329 | two readings (ids 1 and 2, speeds 60 and 65) saved in reverse order produce one response with both records, second first, each with its own `receivedId`, speed and `receivedDate` |

## Left out

- HTTP plumbing is not modelled: the Express application, the JSON body
  parser, routing, CORS and `app.listen` (index.js:215-222, 332-334).
- The MongoDB connection, the Mongoose schemas' type casting and the
  save I/O are not modelled (index.js:81-140, 203-212). A save appears only
  as a completion event carrying a stored document or an error.
- A stored document is the record plus the identifier the store assigned.
  That the store returns the record unchanged is a hypothesis of
  `Ingest.AllSavedCoversBatch`; the store may normalise field types.
- Service discovery with `cfenv` and connection-string parsing in
  `getMongoUrlForService` are not modelled (index.js:43-78). They read the
  environment and call a foreign parser.
- The OData model and server are not modelled (index.js:143-200). They
  belong to an external library.
- Parsing of the Authorization header (the `basic-auth` package) is not
  modelled. The gate receives its result: credentials, or none.
- Environment variables that are not set (`split` on `undefined` fails at
  start-up) are not modelled.
- Logging (`console.log`, `console.error`) is left out. So is the clock:
  `new Date()` becomes a clock reading passed in per loop iteration.
- JSON numbers are modelled as integers; no claim is made about
  floating-point values.
- A posted element that is `null` makes `received.id` throw in the middle
  of the loop. A body that is not an array gives `n` an odd value. Neither
  is modelled: the body is a sequence of JSON objects.
- The log records every `res.json` call the callbacks make. What Express
  does with a second call on a finished response (it throws) is not
  modelled.
- Real concurrency and interleaving are not modelled: the callbacks run
  one at a time, in an arbitrary order.
- Liveness is not modelled: nothing states that every started save
  eventually completes.
