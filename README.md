# Live bus-position broadcaster: the fetch cycle and the stop catalog

This project models the core of a small Node.js server (`server.js`). The
server polls a GTFS Realtime vehicle-positions feed, turns its entities into
bus records, keeps the latest list in the module-level variable `busData`,
and emits `{buses, busStops}` to connected viewers. `busStops` is a stop
list parsed once from a CSV file at startup.

Modules:

- `Common` (`common.dfy`): `Option`, `Result`, an abstract `Number` for
  JavaScript numbers, and `OrDefault` for the `x || 'default'` idiom on
  strings (an absent or empty string takes the default).
- `GtfsFeed` (`feed.dfy`): the decoded `FeedMessage` as the plain object
  that `toObject` produces. A message field that the wire data did not carry
  is absent: `FeedMessage.entity`, `FeedEntity.vehicle`,
  `VehiclePosition.vehicle`/`trip`/`position`, `VehicleDescriptor.id` and
  `TripDescriptor.routeId` are all optional.
- `BusExtraction` (`buses.dfy`): the `.filter(...).map(...)` pipeline of
  `fetchBusData` as functions (`KeepPositioned`, `ToBus`, `MapToBuses`,
  `ExtractBuses`), with lemmas. They show that the output is map-after-filter
  in feed order, that dropped entities are dropped silently, and that one
  positioned entity without a vehicle descriptor aborts the whole pipeline.
- `StopCatalog` (`stops.dfy`): the per-row object built by `parseCSV`, and
  the `'data'` handler's pushes as a loop (`CollectStops`).
- `BusServer` (`server.dfy`): the class `Server` with the fields `busData`
  and `busStops`; `FetchBusData` (one cycle) and `LoadStops` (the CSV
  promise's `then`/`catch`). The cycle is also a pure step function `Step`,
  and `Run` folds it over a sequence of cycles, for the "last success wins"
  and "stops never change" lemmas.

Behaviour the model follows from the code:

- The filter tests only `entity.vehicle && entity.vehicle.position`. The
  descriptor read `entity.vehicle.vehicle.id` on line 82 has no optional
  chaining. So a kept entity without a vehicle descriptor throws, and the
  whole cycle fails: `busData` is kept and nothing is emitted. The `'Unknown'`
  default applies only when the descriptor exists and its `id` is absent or
  empty. Positioned entities lacking a vehicle descriptor are thus neither
  dropped nor given `'Unknown'`; they abort the cycle. Entities without a
  `vehicle` block or without a `position` are dropped, whatever their
  descriptor.
- `data.entity.filter` on line 79 is unguarded. `toObject` is called without
  the `arrays` or `defaults` option, and then it leaves out an empty repeated
  field. So a feed with no entity has no `entity` array, and the cycle
  throws. This is `EntityListMissing`. A present entity array is never
  empty, so `ExtractBuses` on `Some([])` (an empty bus list) describes no
  real feed.
- The route lookup `entity.vehicle.trip?.routeId` never throws. An absent
  trip, an absent `routeId` or an empty `routeId` all give `'Unknown'`.
- A stop file that fails to parse is logged, and `busStops` stays `[]`. The
  model keeps this; it does not stop the process.

## Model

| member | source | states |
|---|---|---|
| `Common.OrDefault` | server.js:82-83 | the or-default idiom on an optional string: the string itself when present and non-empty, the default otherwise; never empty when the default is not |
| `BusExtraction.KeepPositioned` | server.js:80 | the filter keeps only entities whose `vehicle` block has a `position`, keeps every such entity, and never lengthens the list |
| `BusExtraction.ToBus` | server.js:81-86 | `busNo` is the descriptor's `id` when present and non-empty, else `'Unknown'`; `routeNo` is `trip.routeId` when the trip is present and the id non-empty, else `'Unknown'`; neither is empty; latitude and longitude are the position's, unchanged |
| `BusExtraction.MapToBuses` | server.js:81-86 | the map succeeds exactly when every kept entity has a vehicle descriptor; on success one record per entity, the k-th built from the k-th entity; on failure the error is the missing descriptor |
| `BusExtraction.ExtractBuses` | server.js:79-86 | an absent entity array fails; the pipeline succeeds exactly when the array is present and every positioned entity has a descriptor; the output is no longer than the entity list |
| `BusExtraction.PositionedIndicesBounds` | server.js:80 | there is one positioned index per kept entity, and each lies within the list |
| `BusExtraction.KeptAtIndex` | server.js:80 | the k-th kept entity is the entity at the k-th positioned index |
| `BusExtraction.PositionedIndicesIncrease` | server.js:80 | the positioned indices strictly increase, so the filter keeps feed order |
| `BusExtraction.PositionedIndicesMembers` | server.js:80 | an index is positioned if and only if the entity there has a `vehicle` block with a `position` |
| `BusExtraction.KeepPositionedAppend` | server.js:80 | filtering a concatenation is the concatenation of the filtered parts |
| `BusExtraction.ExtractIsMapAfterFilter` | server.js:79-86 | on success the k-th bus is `ToBus` of the k-th positioned entity in feed order; every bus comes from an entity with a vehicle block, a position and a descriptor; every positioned entity is used |
| `BusExtraction.UnpositionedIsDropped` | server.js:80 | inserting an entity without a vehicle block or position anywhere in the feed does not change the outcome: it is dropped, not an error |
| `BusExtraction.MissingDescriptorAborts` | server.js:82 | a positioned entity without a vehicle descriptor, anywhere in the feed, makes the whole pipeline fail |
| `BusExtraction.OneFullOneUnpositioned` | server.js:79-86 | a feed with a full entity ("BUS1", "R1") and an entity with no position yields exactly that one bus |
| `StopCatalog.StopOf` | server.js:40-44 | the stop is named `stop_name` when present and non-empty, otherwise `'Unknown Stop'`; its coordinates are `parseFloat` of `stop_lat` and `stop_lon` |
| `StopCatalog.CollectStops` | server.js:33-47 | one stop per row, the i-th stop built from the i-th row, so rows keep file order |
| `StopCatalog.TwoGates` | server.js:39-47 | two rows "Gate 1" and "Gate 2" give two stops with those names and the parsed coordinates of their own row, in file order |
| `BusServer.Step` | server.js:68-95 | a cycle never writes `busStops`; it emits exactly when fetch, decode and mapping all succeed; a success replaces `busData` with the new list and emits the new `busData` with the unchanged `busStops`; a failure leaves the state as it was |
| `BusServer.RunKeepsStops` | server.js:68-95 | over any run of cycles `busStops` never changes, every emit carries it, and there are at most as many emits as cycles |
| `BusServer.RunAllFailed` | server.js:92-94 | a run of failed cycles leaves the state unchanged and emits nothing |
| `BusServer.RunLastSuccessWins` | server.js:79-91 | after a run, `busData` is the bus list of the last successful cycle, and the last emit carried exactly that list with the unchanged stops |
| `BusServer.Server.constructor` | server.js:27-28 | `busData` and `busStops` both start empty |
| `BusServer.Server.LoadStops` | server.js:60-65 | a successful parse assigns `busStops` one stop per row in order; a failed parse leaves it as it was; `busData` is not touched |
| `BusServer.Server.FetchBusData` | server.js:68-95 | `busStops` is not written; a failed fetch, decode or mapping keeps `busData` and emits nothing; a success replaces `busData` wholesale and returns the single emit `{buses: busData, busStops}`; the new state and emit are those of `Step` |
| `BusServer.Startup` | server.js:27-65 | the server is new; when the stop file fails to parse, `busStops` stays `[]` and any emit carries an empty stop list; a good parse gives one stop per row, the i-th built from the i-th row; the first cycle then acts as `Step` on `busData = []` and the loaded stops: it emits exactly when it succeeds, with the new bus list, and a failed one leaves `busData` empty |

## Left out

- The Express app, static files, the EJS view engine and the `/` route (server.js:9-17, 100-103): web plumbing with no logic of its own.
- The socket.io transport: an emit is the `Option<Payload>` that `FetchBusData` returns. Delivery to subscribers is not modelled.
- The axios HTTP GET and protobufjs decoding (server.js:19-22, 70-77): foreign code. Their outcome is the input `FetchOutcome`: failure, or a decoded `FeedMessage`.
- `fs.readFileSync` and the csv-parse tokeniser (server.js:35-38, 56-57): file I/O and a foreign parser. The parse outcome is the input `CsvOutcome`. A failing `readFileSync` would crash the process at startup; that is not modelled.
- `parseFloat` is a parameter of type `Option<string> -> Number`, and all numbers are the abstract type `Number`. Floating point is not modelled. Coordinates are only copied.
- `setInterval`, the initial fetch on listen, and overlapping asynchronous cycles (server.js:98, 107-110): timers and concurrency. `Run` models cycles that complete one after another. Out-of-order completion of overlapping requests is not modelled.
- `BusServer.Startup`: it runs the stop load before the first cycle. In the source the CSV promise and the first fetch are both asynchronous, and their order is not fixed.
- Console logging, the hard-coded URL and API key, and the port (server.js:25, 62, 88, 93, 106).
