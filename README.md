# ESP32 uptime monitor: service registry and health-check scheduler

This project models the core of an ESP32 firmware that monitors a small set of
network services. The firmware keeps a fixed table of at most 20 services.
Each service is a Home Assistant hub, a Jellyfin media server, a plain HTTP
endpoint or a ping-only host. Every five seconds the firmware checks the
services whose own interval has run out and records whether each one is up.
It saves the services' configuration to `/services.json` on flash and reads it
back at boot. A small web API lists, adds and deletes services.

The model has these parts:

- `wrappers.dfy`: an `Option` type.
- `clock.dfy`: the 32-bit `millis()` clock. `unsigned long` subtraction wraps
  modulo 2^32. The `int` product `checkInterval * 1000` is converted to
  unsigned for the due test, so it is also taken modulo 2^32.
- `text.dfy`: the Arduino `String` operations the core uses: `String(int)`,
  `indexOf` and `lastIndexOf`.
- `services.dfy`: the `Service` record, its durable projection and the
  type-enum mappings. In the source the type is a C++ enum stored as an
  `int`, and loading casts any integer back to it, so the model keeps it as an
  integer code.
- `checks.dfy`: the four check strategies. Each one is a verdict function of
  what the transport replied.
- `scheduler.dfy`: what one pass of `checkServices` does to one entry.
- `persistence.dfy`: what is saved and what is rebuilt from it.
- `registry.dfy`: the global table as the class `Monitor`. It holds the
  `services` array, `serviceCount`, the static `lastCheckTime` of `loop` and
  the store contents. The list, add and delete handler bodies, `loop`,
  `checkServices`, `saveServices` and `loadServices` are methods of that class.

Some behaviour of the code is easy to mistake for something else. The model
keeps it as the code has it:

- A Jellyfin server that answers with a status other than 200 is down, but
  its `lastError` is not written.
- Adding a service validates neither the host nor the interval.
- A service that was never checked has `lastCheck == 0`. It is due only once
  `millis()` has reached its interval, not at once.
- Nothing makes ids unique. Delete removes the first matching entry only.
  `DeleteRemovesId` shows that it removes the only one when ids are unique.

## Model

| member | source | states |
|---|---|---|
| `Clock.Elapsed` | src/main.cpp:91 | `now - since` on `unsigned long`: the plain difference without roll-over, `2^32 - (since - now)` across it |
| `Clock.IntervalMillis` | src/main.cpp:266 | the threshold `checkInterval*1000` equals the product when it fits in 32 bits, and `2^32` plus the product when the product is negative and above `-2^32` |
| `Clock.ElapsedAcrossWrap` | src/main.cpp:266 | the wrapped subtraction gives the true elapsed time across a `millis()` roll-over, for any elapsed time under 2^32 ms |
| `Clock.Due` | src/main.cpp:266 | the due test; a zero threshold is always due, and an entry stamped at `now` is due again at the same `now` only when its threshold is 0 |
| `Clock.TickDue` | src/main.cpp:91 | without roll-over the outer tick runs iff 5000 ms have passed; it never runs twice at the same instant |
| `Clock.DueWithoutWrap` | src/main.cpp:264-268 | without roll-over, an entry is due iff `now - lastCheck >= checkInterval*1000` |
| `Text.Digits` | src/main.cpp:318 | the decimal digits of a natural number: non-empty, only digits, no leading zero |
| `Text.Decimal` | src/main.cpp:318 | `String(int)`: non-empty, and starts with '-' iff the number is negative |
| `Text.DigitsRoundTrip` | src/main.cpp:318 | reading the digits back gives the number |
| `Text.DecimalRoundTrip` | src/main.cpp:318 | `String(code)` parses back to `code`, so an error message keeps the exact status code |
| `Text.DecimalInjective` | src/main.cpp:318 | different integers render to different decimal texts |
| `Text.IndexFrom` | src/main.cpp:363 | finds the first occurrence of the needle at or after `from`, or returns -1 when none exists there |
| `Text.IndexOf` | src/main.cpp:363 | `indexOf` is non-negative iff the body contains the expected text, and then returns the first occurrence |
| `Text.AbsentFirstChar` | src/main.cpp:363 | a needle whose first character is not in the body is not found |
| `Text.LastIndexOf` | src/main.cpp:228 | `lastIndexOf`: index of a `c` with no `c` after it, or -1 when there is no `c` |
| `Services.Code` | src/main.cpp:19-24 | the enum values are 0 to 3 |
| `Services.KindOf` | src/main.cpp:438 | the stored integer names a strategy iff it is 0..3, and then it is that strategy's code |
| `Services.KindOfCode` | src/main.cpp:401 | casting the written code back gives the same kind |
| `Services.TypeName` | src/main.cpp:456-464 | `getServiceTypeString` gives "unknown" exactly for codes outside the enum |
| `Services.ParseType` | src/main.cpp:187-199 | the request's type is accepted iff it is one of the four names, and `getServiceTypeString` gives that name back |
| `Services.ParseTypeName` | src/main.cpp:456-464 | `getServiceTypeString` inverts the request parse for all four kinds |
| `Services.ToDurable` | src/main.cpp:399-406 | the durable part of a record; for a cold record it determines every field |
| `Services.Blank` | src/main.cpp:45 | a zero-initialised slot: type code 0 (Home Assistant), down, never checked, no error, and 0 seconds since the last check rather than -1, so it is not cold |
| `Services.ColdService` | src/main.cpp:444-448 | a rebuilt entry has the given configuration and a cold status (down, never checked, no error, -1 seconds) |
| `Checks.ConnectionFailed` | src/main.cpp:318 | "Connection failed: " followed by text that reads back as the failure code |
| `Checks.HttpStatusError` | src/main.cpp:369 | "HTTP " followed by text that reads back as the status |
| `Checks.ErrorTextsDistinct` | src/main.cpp:318-382 | different codes give different "Connection failed" and "HTTP" texts, and no transport failure, HTTP status, "Response mismatch" or "Ping timeout" text equals another kind |
| `Checks.Origin` | src/main.cpp:306 | `http://`, then the host, then ':', then text that reads back as the port |
| `Checks.HomeAssistantVerdict` | src/main.cpp:304-323 | up iff the status is positive; otherwise down with "Connection failed: <code>" |
| `Checks.JellyfinVerdict` | src/main.cpp:325-345 | up iff the status is 200; an error is written iff no response arrived (code <= 0) |
| `Checks.HttpGetVerdict` | src/main.cpp:347-377 | up iff the status is 200 and the expected text is `*` or occurs in the body; every down verdict has "Connection failed: <code>", "HTTP <code>" or "Response mismatch" |
| `Checks.PingVerdict` | src/main.cpp:379-385 | up iff the ping succeeded; otherwise down with "Ping timeout" |
| `Checks.ProbeFor` | src/main.cpp:306 | each strategy's request: `/api/`, `/health`, the service path, or 3 echoes to the host |
| `Checks.RunCheck` | src/main.cpp:273-286 | dispatch by kind, stated per kind on the reply to that kind's request: Home Assistant is up iff the status is positive, Jellyfin iff it is 200, HTTP GET iff it is 200 and the body holds the expected text (or that is `*`), ping iff the echo succeeded; an up verdict carries no error, a down one carries "Ping timeout" for ping and "Connection failed: <code>" for a transport failure, every kind but Jellyfin gives an error when down, and each kind's verdict, error text included, is exactly its own table's (`HomeAssistantVerdict`, `JellyfinVerdict`, `HttpGetVerdict`, `PingVerdict`) on that reply, so Jellyfin leaves the error alone on a positive non-200 and HTTP GET writes "HTTP <code>" or "Response mismatch" |
| `Checks.HomeAssistantNotFoundIsUp` | src/main.cpp:314-316 | a hub answering 404 is up |
| `Checks.JellyfinUnavailableIsDown` | src/main.cpp:335-341 | a media server answering 503 is down and writes no error |
| `Checks.HttpGetMismatch` | src/main.cpp:362-366 | status 200, body "status: degraded" and expected "ok" give down with "Response mismatch" |
| `Checks.HttpGetWildcard` | src/main.cpp:359-360 | with expected `*`, any 200 is up |
| `Scheduler.CheckEntry` | src/main.cpp:264-291 | an entry that is not due is unchanged. A due entry gets `lastCheck = now` and the verdict as `isUp`. If up, it gets `lastUptime = now` and an empty error. If down, `lastUptime` is kept and the error is the strategy's or the old one. An entry with an unknown type code runs no strategy: it is stamped, keeps `isUp`, and gets the up-branch updates only if it was already up. The configuration never changes |
| `Scheduler.TenSecondInterval` | src/main.cpp:266-270 | a 10 s service is checked again at or after 10 000 ms and not before |
| `Persistence.Project` | src/main.cpp:397-407 | one durable record per entry |
| `Persistence.Restore` | src/main.cpp:430-451 | at most 20 entries, in store order, each with the record's configuration and a cold status |
| `Persistence.RoundTrip` | src/main.cpp:387-454 | loading what was saved gives the same count and, in order, the same configuration, with every volatile field reset |
| `Persistence.SaveAfterLoad` | src/main.cpp:401 | saving what was loaded writes back the first 20 records unchanged, unknown type codes included |
| `Persistence.SaveLoadIdempotent` | src/main.cpp:387-454 | a second load-and-save leaves the store as the first one did |
| `Persistence.SameConfigurationSameStore` | src/main.cpp:397-407 | tables that agree on the configuration of every entry are saved identically |
| `Registry.AddStatus` | src/main.cpp:170-221 | the add handler answers 200 only on success and 400 otherwise |
| `Registry.Create` | src/main.cpp:183-210 | the new record exists iff the type is known. It carries the id, name and host given, the type's code, and the defaults port 80, path "/", expected "*" and interval 60 for omitted fields. Its status is cold |
| `Registry.FirstMatch` | src/main.cpp:230-236 | the first entry holding the id, or -1 iff no entry holds it |
| `Registry.RemoveAt` | src/main.cpp:243-247 | removing entry k keeps the entries before k and shifts those after it left by one |
| `Registry.IdFromUrl` | src/main.cpp:227-228 | the id is the suffix of the URL after its last '/' and contains no '/' |
| `Registry.ToListed` | src/main.cpp:148-159 | one response object: id, name, host, port, path, expected response, interval, status, last error and seconds since the last check are those of the entry |
| `Registry.ListedTypeReadsBack` | src/main.cpp:151 | a known type is listed under the name the add handler accepts for it, an unknown code under a name it rejects |
| `Registry.SecondsSince` | src/main.cpp:141-146 | -1 iff `lastCheck` is 0; otherwise the whole seconds elapsed, rounded down |
| `Registry.AddKeepsIdsUnique` | src/main.cpp:212 | appending a record with an unused id keeps ids unique |
| `Registry.DeleteRemovesId` | src/main.cpp:230-247 | with unique ids, delete leaves no entry with the id, and the ids stay unique |
| `Registry.CheckSlot` | src/main.cpp:264-291 | the body of the `checkServices` loop for one slot, step by step, yields `CheckEntry` of the slot |
| `Registry.Monitor.constructor` | src/main.cpp:44-46 | the table starts empty with zeroed slots, and the tick clock starts at 0 |
| `Registry.Monitor.Snapshot` | src/main.cpp:397-407 | the save loop yields exactly the durable fields of each live entry, in order |
| `Registry.Monitor.Save` | src/main.cpp:387-412 | after saving, the store holds the configuration of the live table |
| `Registry.Monitor.Load` | src/main.cpp:414-454 | a missing or unparsable store leaves the table untouched; otherwise the table becomes the restored records, at most 20 |
| `Registry.Monitor.IndexOfId` | src/main.cpp:230-236 | the search loop returns the first slot holding the id, or -1 |
| `Registry.Monitor.Add` | src/main.cpp:168-222 | full gives "maximum reached", a non-JSON body gives "invalid JSON" and an unknown type gives "invalid type", each with the table and store unchanged. On success the new record is appended after the old entries and the store is saved |
| `Registry.Monitor.HandleDelete` | src/main.cpp:226-251 | the id comes from the URL; an unknown id gives 404 with nothing changed; otherwise 200, the first match is removed, the order is kept and the store is saved |
| `Registry.Monitor.Delete` | src/main.cpp:230-250 | the same as `HandleDelete`, for an id already taken from the URL |
| `Registry.Monitor.RemoveSlot` | src/main.cpp:243-247 | the shift loop removes slot k, keeps the order of the rest and decrements the count |
| `Registry.Monitor.List` | src/main.cpp:135-165 | each live entry gets its `secondsSinceLastCheck` and nothing else changes; the response lists the entries in order |
| `Registry.Monitor.CheckServices` | src/main.cpp:261-300 | every live entry becomes `CheckEntry` of its old value; other slots and the saved configuration are unchanged |
| `Registry.Monitor.Loop` | src/main.cpp:86-97 | when 5000 ms have passed since the last tick, the pass runs and the tick time becomes `now`; otherwise nothing changes |
| `Registry.Boot` | src/main.cpp:76 | at boot the table is empty when there is no store, and the restored records otherwise |

## Left out

- WiFi bring-up, the LittleFS mount, the rest of `setup`, `delay`, the serial
  log and the up/down change log are hardware and logging side effects. They
  change no table state.
- The web server's routing, request and response objects, and JSON
  (de)serialisation are left out. A request body is a parsed `AddRequest`.
  `None` stands for a body the JSON parser rejects. A body delivered in
  several chunks is not modelled.
- The `HTTPClient` and `Ping` transports are foreign network calls. They are
  replaced by a `transport` function from probe to reply. Within one pass, two
  identical probes get the same reply. The 5 s timeout shows only as a failure
  code.
- `generateServiceId` depends on `millis()` and `random()`. Add takes the
  generated id as a parameter.
- The time source is a parameter. One `now` serves both `loop` and the
  `millis()` read inside `checkServices`.
- `/services.json` is the `store` field: a sequence of durable records, or
  `None` when the file is missing or does not parse. The JSON text, the flash
  bytes, missing keys inside a record, and a save whose file cannot be opened
  are not modelled. In the model a save always succeeds.
- `HttpGetVerdict` and `IndexOf`: the Arduino core's `String::indexOf` returns -1 whenever
  the body is empty, even for an empty needle; `IndexOf` returns the first
  occurrence, so `IndexOf("", "") == 0`. The web form can send an empty
  expected response, and `doc["expectedResponse"] | "*"` keeps it. So on a
  200 with an empty body and expected "", the firmware is down with
  "Response mismatch", while `HttpGetVerdict(200, "", "")` is up.
- Strings are sequences of characters. Byte encoding and embedded NUL
  characters are not modelled.
- `port` and `checkInterval` are unbounded integers. The only 32-bit effect
  modelled is the modulo-2^32 reduction of `checkInterval * 1000`. That equals
  the two's-complement wrap the hardware performs, which is undefined
  behaviour in C++.
- Concurrency between the asynchronous web handlers and `loop` is out of scope
  for this sequential model.
- The HTML, CSS and JavaScript page, with its client-side "ago" formatting, is
  presentation only.
