# EMS backend telemetry pipeline: a Dafny model

This project models the in-memory telemetry pipeline of the EMS backend, a Node/Express server. An ESP32 gateway pushes inverter readings and an energy-management controller pushes summaries. The model covers three route files:

- **`routes/dashboard.js`**: the module-level `dataHistory` array, capped at `MAX_HISTORY = 1000`. It covers `addToHistory`, which pushes the record with `id = length + 1` and then drops the oldest entry once the length is over 1000, and `getLatestData`. It also covers the read-only handlers `/latest`, `/recent`, `/history` and `/stats`, and their helpers `average`, `max` and `min`.
- **`routes/inverter.js`**: `POST /data`. It flattens the gateway payload into one record, caches it in `latestInverterData`, appends it to the history, and sends one serialised message to every WebSocket client whose `readyState` is 1. Also `GET /latest`.
- **`routes/ems.js`**: `POST /`. It validates `ts`, `site`, `dc` and `pv`, builds the `latestEMSData` summary, and answers 400, 200 or 500.

The modules follow the program's structure:

| module | file | form |
|---|---|---|
| `Wrappers` | `wrappers.dfy` | `Option` (an absent or null JSON value) and `Result` |
| `JsSemantics` | `js_semantics.dfy` | `Math.min` and the bound clamping of `Array.prototype.slice` |
| `Telemetry` | `telemetry.dfy` | the flat record built by the inverter route |
| `Dashboard` | `dashboard.dfy` | the `History` class holding the buffer, and functions for the queries |
| `Inverter` | `inverter.dfy` | the pure payload mapping, the broadcast loop as a method, and the route state as a class |
| `Ems` | `ems.dfy` | the pure validation and summary, and the route state as a class |

How the source is represented:

- Readings are integers.
- Timestamps are integer milliseconds.
- The server clock (`new Date().toISOString()`) is the parameter `now`.
- A query parameter that is absent is `None`, and the handler then uses the source's default (50, 1000 or 100).
- WebSocket clients are the sequence of their `readyState` values, in iteration order.
- Each `client.send` is recorded as a `Delivery` of the client's position and the message.

The buffer's specification is `Dashboard.Retained(arrivals)`: the last `min(n, 1000)` records appended, oldest first, and the `k`-th arrival stamped with id `min(k, 1000) + 1`. `History.Valid()` ties the real `entries` field to this function of the ghost list of all arrivals. `AddToHistory` keeps it.

Behaviours of the code that the model reproduces:

- `pv_power` is 0, not null, when either factor is missing or 0.
- `/history` keeps the oldest `limit` matches (`slice(0, limit)`), not the newest.
- `/recent` with limit 0 returns the whole buffer (`slice(-0)`), and a negative limit drops entries from the front.
- `/stats` answers "no data" whenever `min(limit, length)` is 0, including for limit 0 on a non-empty buffer.
- A negative `/stats` limit yields a snapshot over `slice(-count)`, possibly empty with null `from`/`to`.
- The 400 reply of the EMS route does not name the missing field.
- A payload without `mode` passes validation and fails with 500.
- The broadcast only skips clients that are not open. It removes nobody from the client set.
- `avg_power` and `max_power` are always null: the record built by the inverter route has no `power` property (`Dashboard.Stats` proves this).
- Ids are not unique: once the buffer is full, every new entry gets id 1001 (`Dashboard.IdsCollideOnceFull`).

## Model

| member | source | states |
|---|---|---|
| `JsSemantics.SliceFrom` | routes/dashboard.js:54 | `slice(start)` returns a suffix. A non-negative start drops `min(start, n)` entries from the front. A negative start keeps the last `min(-start, n)` entries. |
| `JsSemantics.SliceTo` | routes/dashboard.js:84 | `slice(0, end)` returns a prefix. A non-negative end keeps `min(end, n)` entries. A negative end drops `min(-end, n)` entries from the back. |
| `Dashboard.Retained` | routes/dashboard.js:6-7 | After n appends the buffer holds exactly `min(n, 1000)` entries, so never more than 1000. |
| `Dashboard.AppendRetained` | routes/dashboard.js:10-20 | One append equals "push with id = length + 1, then drop the first entry when the buffer was full". The new record is last, the other entries keep their order, and exactly the oldest entry is evicted. |
| `Dashboard.RetainedIsNewestArrivals` | routes/dashboard.js:11-19 | The buffer's records are the newest appended records in arrival order, a suffix of the whole append history. |
| `Dashboard.IdsCountUpUntilFull` | routes/dashboard.js:13 | Until the buffer first fills, the stamped ids are 1, 2, 3, … in buffer order. |
| `Dashboard.IdsCollideOnceFull` | routes/dashboard.js:13-19 | Once the buffer is full, each new entry is stamped 1001. From the 1002nd append on, the two newest entries share that id. |
| `Dashboard.History.constructor` | routes/dashboard.js:6 | The history starts empty and valid. |
| `Dashboard.History.AddToHistory` | routes/dashboard.js:10-20 | The history stays equal to `Retained` of all arrivals and holds at most 1000 entries. The new state is the old buffer, with its first entry dropped if it was full, plus the record stamped `old length + 1`. |
| `Dashboard.GetLatestData` | routes/dashboard.js:23-25 | Returns null exactly when the buffer is empty, and otherwise its last entry. |
| `Dashboard.LatestHandler` | routes/dashboard.js:31-42 | Returns "no data received yet" exactly when the buffer is empty, and otherwise the newest entry. |
| `Dashboard.LatestAfterAppend` | routes/dashboard.js:10-25 | After an append, the latest entry is the appended record with id `min(n, 1000) + 1`. |
| `Dashboard.Recent` | routes/dashboard.js:49-60 | `count` equals the length of `data`, and `data` is a suffix of the buffer. For a limit k ≥ 1 it holds `min(k, length)` entries. Limit 0 returns the whole buffer. A negative limit drops `min(-k, length)` entries from the front. The default limit is 50. |
| `Dashboard.RecentIsNewestArrivals` | routes/dashboard.js:49-60 | On the live buffer, `/recent?limit=k` (k ≥ 1) returns the newest `min(k, min(n, 1000))` appended records, oldest first. |
| `Dashboard.Between` | routes/dashboard.js:81-83 | The filter keeps exactly the buffer entries whose timestamp lies in the inclusive range `[start, end]`. |
| `Dashboard.BetweenAppend` | routes/dashboard.js:81-83 | The filter keeps buffer order: filtering a concatenation is the concatenation of the filtered parts. |
| `Dashboard.HistoryRange` | routes/dashboard.js:67-90 | Returns 400 exactly when `start` or `end` is missing. Otherwise `data` is the first `count` in-range entries in buffer order. For a non-negative limit (default 1000), `count = min(limit, matches)`. For a negative limit, `slice(0, limit)` drops `min(-limit, matches)` matches from the back. |
| `Dashboard.Present` | routes/dashboard.js:165 | `map` then `filter(v => v != null)`: at most one value per entry. Its meaning is stated by `PresentMembers`, `PresentOfOne` and `PresentAppend`. |
| `Dashboard.PresentMembers` | routes/dashboard.js:165 | The non-null values of a key are exactly the values present in the window's entries. |
| `Dashboard.PresentOfOne` | routes/dashboard.js:165 | A single entry contributes its value if it has the key, and nothing otherwise. |
| `Dashboard.PresentAppend` | routes/dashboard.js:165 | The values of a concatenation are the values of its parts, in order. With `PresentOfOne`, each entry contributes its own value exactly once, in window order. |
| `Dashboard.Largest` | routes/dashboard.js:173 | `Math.max` of a non-empty list is one of its elements and at least every element. |
| `Dashboard.Smallest` | routes/dashboard.js:179 | `Math.min` of a non-empty list is one of its elements and at most every element. |
| `Dashboard.Mean` | routes/dashboard.js:167 | The mean of a non-empty list: multiplied by the list's length, it gives the list's sum. |
| `Dashboard.Average` | routes/dashboard.js:164-168 | Null exactly when no entry in the window has the key, never 0. Otherwise it is the `Mean` of exactly the present values. |
| `Dashboard.Maximum` | routes/dashboard.js:170-174 | Null exactly when no entry has the key. Otherwise it is a value some entry has, and no present value exceeds it. |
| `Dashboard.Minimum` | routes/dashboard.js:176-180 | Null exactly when no entry has the key. Otherwise it is a value some entry has, and no present value is below it. |
| `Dashboard.AverageWithinExtremes` | routes/dashboard.js:164-180 | Whenever the average is defined, min ≤ average ≤ max (before rounding). |
| `Dashboard.Stats` | routes/dashboard.js:97-138 | Returns "no data" exactly when `min(limit, length)` is 0 (default limit 100). Otherwise every aggregate is taken over the trailing `count` entries. `avg_power` and `max_power` are always null. When the window is non-empty, `from` and `to` are its first and last timestamps and the PV aggregates are never null. When it is empty, `from` and `to` are null. For a limit ≥ 1, `count = min(limit, length)`. For a negative limit, `count = length - min(-limit, length)`. |
| `Inverter.SiteOf` | routes/inverter.js:30 | The site is `site_id` when it is present and non-empty, and otherwise `"site-001"`. It is never empty. |
| `Inverter.PvPower` | routes/inverter.js:56-58 | `pv_power` is 0 exactly when the voltage or the current is missing or 0. Otherwise it is their product. |
| `Inverter.Parse` | routes/inverter.js:25-62 | The record carries the clock value, the resolved site, `type` and `ts_ms`. Every other canonical field is copied from its source field in the metric source: the grid, AC-output, load and bus fields under their own names, and the renamed ones (`soc` ← `batt_capacity_percent`, `battery_voltage` ← `batt_voltage`, `battery_temp` ← `heatsink_temp`, the charge and discharge currents, `pv_voltage`/`pv_current` ← `pv_input_*`, `device_status` ← `device_status_bits`). The record's own `pv_power` is consistent with its `pv_voltage` and `pv_current`. |
| `Inverter.MetricsShadowTopLevel` | routes/inverter.js:25 | When a `metrics` object is present, the metric-named fields on the body itself do not affect the record. |
| `Inverter.BodyIsMetricSourceWithoutMetrics` | routes/inverter.js:25 | Without `metrics`, the body's own fields are read exactly as if they had been nested under `metrics`. |
| `Inverter.OpenClients` | routes/inverter.js:80-81 | Lists, in strictly increasing order, exactly the positions of the clients whose `readyState` is 1. |
| `Inverter.Broadcast` | routes/inverter.js:74-85 | The loop sends one delivery per open client, in iteration order, each carrying the same message. `wsClients` equals the number of deliveries and of open clients. |
| `Inverter.BroadcastReachesEachOpenClientOnce` | routes/inverter.js:79-85 | An open client receives exactly one delivery. A client that is not open receives none. |
| `Inverter.LatestHandler` | routes/inverter.js:101-106 | Returns "no inverter data" exactly when nothing is cached, and otherwise the cached record. |
| `Inverter.InverterRoute.constructor` | routes/inverter.js:8 | The cache starts empty. |
| `Inverter.InverterRoute.PostData` | routes/inverter.js:17-89 | After the POST, the cache holds the parsed record, which is also the newest history entry (id `old length + 1`). The history stays valid and gains exactly that arrival. The broadcast delivers `{type: 'inverter_data', data: parsed}` once to each open client, and `wsClients` counts them. |
| `Ems.Summarize` | routes/ems.js:19-31 | Rejects as invalid exactly the payloads with a missing or falsy `ts`, `site`, `dc` or `pv`. Fails on `mode` exactly when validation passes and `mode` is absent. Otherwise the summary has `timestamp = ts` (non-zero), `site = site.id`, `soc = dc.soc_pct`, `pv_power = pv.pv_w`, `temp = dc.temp_c` and `mode = mode.name`. |
| `Ems.EmsRoute.constructor` | routes/ems.js:7 | The EMS cache starts empty. |
| `Ems.EmsRoute.Post` | routes/ems.js:14-44 | The status is 400 exactly for a missing required field, 500 exactly when `mode` is missing, and 200 otherwise. Only a 200 stores the summary. On 400 and 500 the cache is unchanged. |

## Left out

- `Dashboard.Average`: the mean is exact (sum over count, a `real`), without the `toFixed(2)` rounding to two decimals, because floating point is not modelled.
- `Inverter.PvPower`: readings are integers and the product is exact, without `toFixed(2)`, because floating point is not modelled.
- `Dashboard.HistoryRange`: `start`, `end` and record timestamps are integers. A missing or empty query parameter is `None`. `new Date(...)` parsing, including invalid dates that compare false, is not modelled.
- `parseInt` of query strings and its NaN behaviour are not modelled. Limits are integers, and an absent parameter takes the source default.
- The JSON reply bodies are modelled by their variant or status code, not their message text.
- The `try`/`catch` 500 path of `POST /data` is not modelled: no step of the modelled handler can throw. `server.js` neither exports the `wss` that the route imports nor mounts this router.
- `JSON.stringify` and `client.send` are represented by the `WsMessage` value and a `Delivery` record. The transport itself is outside the model.
- `console.log` and `console.table` logging are not modelled.
- The `/status` handler (`routes/dashboard.js:144-161`) is not part of this model: it reports counters and `process.uptime()`.
- `routes/api_b.js`, `db.js`, `server.js`, `simulate.js` and `test_board.js` are not part of this model. They are database queries through an external client, connection setup, app wiring and random payload generators.
- Concurrency is not modelled: Node runs each handler to completion on one thread.
- Payload values of unexpected JSON types are not modelled, for example a string where a number or an object is expected. Each field has the one shape the devices send.
