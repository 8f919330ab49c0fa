# Reporta report store, modelled in Dafny

The Reporta backend keeps citizen reports in memory. The store is an ordered
list of report records plus an id counter. At start-up the list holds two seed
records (ids 1 and 2) and the counter is 3. The store has two operations:

- **list** (`GET /api/reports`) returns the list as it stands.
- **create** (`POST /api/reports`) first checks that title, summary, location
  and photo URL are all present and non-empty.
  - If one is missing, create answers "missing fields" (HTTP 400) and changes nothing.
  - Otherwise it builds a record. The record takes the counter as its id and the
    counter goes up by one. Latitude and longitude default to 0, category
    defaults to `"General"`, and the status is always `"Pendiente"`.
  - The new record goes to the front of the list (`unshift`) and is returned
    (HTTP 201).

The model has two files:

- `reports.dfy` (module `Reports`) holds the values and the pure rules:
  - the `Report` record, the `CreateRequest` body with optional fields, and the
    `CreateOutcome` (`Created(report)` or `MissingFields`);
  - JavaScript truthiness for the `||` defaults and the `!field` guard;
  - `Create`, a pure function giving the new `StoreState` (records plus
    counter) and the outcome of one request;
  - the store invariant `Valid` and lemmas about it, including lemmas over
    `Replay`, which handles a whole sequence of requests.
- `server.dfy` (module `Server`) holds the class `ReportStore`. It has the two
  mutable fields `reports: seq<Report>` and `nextId: int`, a constructor that
  installs the seeds, and `List` and `Create` methods. `Create` updates the
  fields in place, and its contract ties the new state to `Reports.Create`.

The store invariant says:
- the counter is at least 1;
- every id lies in `[1, nextId)`;
- no two records share an id;
- every record has non-empty title, summary, location, photo URL and category;
- every status is `"Pendiente"` or `"En Progreso"`.

The constructor establishes this invariant and every create keeps it.

The list is not ordered newest first throughout. In the code the seeds
are stored as id 1 and then id 2, which is oldest first, and `unshift` only puts
*created* records in front. So the model proves newest-first order for created
records only (`ReplayNewestFirst`), with the seeds kept behind them in their
original order.

## Model

| member | source | states |
|---|---|---|
| `Reports.Truthy` | server/server.js:53-64 | JavaScript truthiness of a text field, as used by `!title` and by the category default: a field is falsy exactly when it is absent or the empty string |
| `Reports.HasRequiredFields` | server/server.js:53 | the create guard passes exactly when none of title, summary, location and photo URL is falsy; one falsy field among the four makes it fail |
| `Reports.OrDefault` | server/server.js:64 | the category default (JavaScript logical or with `'General'`): a truthy field gives the supplied value, otherwise the result is the fallback; the result is empty only when the field is falsy and the fallback is empty too |
| `Reports.CoordinateOrZero` | server/server.js:62-63 | the coordinate default (JavaScript logical or with 0) on integer coordinates: a zero value and an absent value both give 0, so the result is the supplied value if there is one and 0 otherwise |
| `Reports.NewReport` | server/server.js:57-68 | the built record takes the given id and time; title, summary, location and photo URL are copied verbatim; status is `"Pendiente"`; category defaults to `"General"` when absent or empty; coordinates default to 0; the record is well formed |
| `Reports.Seeds` | server/server.js:14-39 | two seed records, with ids 1 and 2 in that order; the first is `"Pendiente"` and the second `"En Progreso"` |
| `Reports.Initial` | server/server.js:14-40 | the start-up state (the seeds and `nextId == 3`) satisfies the store invariant |
| `Reports.Create` | server/server.js:50-76 | create is rejected exactly when a required field is missing or empty, and a rejection leaves the state unchanged; an accepted create gives the record id `nextId`, advances the counter by exactly one, and gives `reports == [record] + old reports` |
| `Reports.CreatePreservesValid` | server/server.js:53-70 | every create, accepted or not, keeps the invariant (ids in `[1, nextId)`, pairwise distinct, records well formed); an accepted record's id is larger than every id already stored |
| `Reports.ReplayPreservesValid` | server/server.js:50-76 | any sequence of creates from a valid state ends in a valid state |
| `Reports.ReplayCounts` | server/server.js:53-70 | after any sequence of creates, the list and the counter have each grown by the number of accepted requests, and the earlier records are an unchanged suffix of the list |
| `Reports.ReplayRejectedUnchanged` | server/server.js:53-55 | a sequence of rejected creates leaves list and counter exactly as they were |
| `Reports.ReplayNewestFirst` | server/server.js:58-70 | after N accepted creates there are N more records; the record at position k was built from request N-1-k with id `nextId + N-1-k`, so the new records are newest first, and the earlier records follow unchanged |
| `Server.ReportStore.constructor` | server/server.js:14-40 | the store starts with the two seeds, `nextId == 3`, and the invariant holding |
| `Server.ReportStore.List` | server/server.js:45-47 | list returns exactly the current `reports` and changes nothing |
| `Server.ReportStore.Create` | server/server.js:50-76 | the new fields and the outcome are those of `Reports.Create` on the old fields; a rejection leaves `reports` and `nextId` unchanged; an accepted create sets `nextId` to old `nextId + 1` and `reports` to `[record] + old reports`, so the returned record is the new head of the list; the invariant is kept; the new id exceeds every earlier id |

## Left out

- The Express app, the `cors` and JSON body-parser middleware, HTTP status codes, the response messages, JSON serialisation and `app.listen` (server/server.js:2-11, 72-75, 79-81). These are framework plumbing; the outcome datatype stands for the 201/400 answers.
- The timestamps from `new Date().toISOString()` (server/server.js:25, 37, 67). The clock is not modelled: the constructor takes the two seed dates and `Create` takes `now` as parameters.
- Floating-point coordinates. Coordinates are integers in ten-thousandths of a degree, which holds the seed values exactly. So the only falsy coordinate is 0: NaN and -0 are not modelled.
- Request fields of other JSON types, for text fields and coordinates alike (a number or boolean in place of a title, a string such as `"-34.6"` in place of a latitude, which the coordinate default would keep as it is). Text fields are `Option<string>`, so truthiness is "present and non-empty"; coordinates are `Option<int>`.
- Ids are unbounded integers. JavaScript numbers lose integer precision beyond 2^53, and that is not modelled.
- Concurrent requests. Each handler runs to completion before the next, so the model handles one request at a time.
- The whole mobile client (client/App.js): rendering, networking, camera, GPS and reverse geocoding, alerts, the stubbed login and the three-screen navigation. These are UI and device I/O with no store logic.
