# Durable-object toolkit (`packages/durable`) in Dafny

This project models the core of the `durable` package of teeny.dev. The package is a set of helpers for Cloudflare durable objects. The model covers six parts:

- **The alarm manager** (`createAlarmManager`). It multiplexes many scheduled alarms onto the host's single wake register.
  - Alarms are stored under `$$_alarm##<ulid>`. The ULID is generated from the due time, so key order is due order.
  - Scheduling stores one record and resets the wake register to the earliest stored alarm.
  - The wake handler runs every due alarm in key order and deletes each one, whether its handler returned or threw. Then it resets the wake register.
- **The SQL migration runner.**
  - `hashMessage` is a 32-bit wrapping polynomial hash, rendered in base 36.
  - `runMigrations` validates the runs already recorded in `__teeny_migrations` against the config, by position and hash. It then executes and records the rest.
  - `initalizeMigrationsTable` and `prepareSqlite` sequence those runs.
- **Typed, namespaced storage** (`createTypedStorage`). Each configured name owns the keys `<name>##<key>` of the shared host storage. Values are validated before they are written and after they are read, and are stored in their `superjson` form.
- **The second copy of the typed storage** in `durable.ts`. Its `list` hands back the stored strings without parsing or validating them.
- **RPC.**
  - The client proxy turns `proxy.a.b(args)` into `{path: ["a", "b"], args}`.
  - The server walks that path through a nested router object and calls the function it finds.
  - Client and server exchange a `{status, data | error}` envelope.
  - The durable object's `fetch` sends requests on its configured pathname (default `/rpc`) to the router, others to a fallthrough handler, and answers 400 otherwise.
- **`mapObject`**: a key-preserving map over an object's own keys.

## Files

| file | module | what it holds |
|---|---|---|
| `wrappers.dfy` | `Wrappers` | `Option` and `Result` |
| `strings.dfy` | `Strings` | lexicographic order on strings (the host storage's key order), `StartsWith`, `Join` (`Array.prototype.join`) |
| `kv_store.dfy` | `KvStore` | the host's `DurableObjectStorage`: a sorted sequence of key/value entries and the wake register |
| `serial.dfy` | `Serial` | structured values, and their `superjson` form |
| `ulid.dfy` | `Ulid` | the ULID layout: 10 Crockford base-32 time digits, 16 random digits |
| `alarm.dfy` | `Alarm` | `alarm.ts` |
| `sql.dfy` | `Sql` | `sql.ts` |
| `storage.dfy` | `TypedStorage` | `storage.ts` |
| `rpc.dfy` | `Rpc` | `rpc.ts` |
| `durable.dfy` | `Durable` | `durable.ts`: the storage copy and `fetch` |
| `utils.dfy` | `Utils` | `mapObject` |

### Modelling choices

- **Host storage.** The host storage is a class, `KvStore.Store`. Its entries are kept sorted by key, so `list` returns them in key order, as the host's storage does.
- **ULIDs.** Ids are concrete: the due time is written in 10 base-32 digits and the random part in 16. This is why key order follows time order in the model. The random part is a parameter of every operation that generates an id.
- **Clock.** `Date.now()` and the ISO date string are parameters.
- **`superjson`.** Serialisation is a constructor. A stored string is either `Serialized(v)`, which parses back to `v`, or `Malformed`, which does not parse.
- **Validators.** A zod schema's `parse` is a partial function `Value -> Option<Value>`. It may return a value other than its input.
- **SQL.** The engine is an executed-command log plus the `__teeny_migrations` table.
  - The only DDL the model interprets is the creation of that table, by a command that begins `CREATE TABLE IF NOT EXISTS __teeny_migrations ` (the initialize migration's first command).
  - `LIKE "<prefix>%"` is a prefix test.
  - Rows come back in insertion order.
- **Router functions.** A function in the router is known by an identity. Calling it is the parameter `call`.

## Model

| member | source | states |
|---|---|---|
| Alarm.AlarmManager.constructor | packages/durable/src/alarm.ts:138 | the manager keeps the configured storage, handler and payload schema; the schema is kept and never applied |
| Alarm.AlarmManager.ListAlarms | packages/durable/src/alarm.ts:164-172 | the listing is the host listing under `$$_alarm##`, with a non-empty `start` put under the prefix and `end` passed raw; it holds stored alarms only, in ascending key order, at most `limit` of them |
| Alarm.ListAlarmsProperties | packages/durable/src/alarm.ts:164-172 | every listed alarm is a stored entry with an alarm key; keys strictly ascend; the count is within `limit` |
| Alarm.ListedInDueOrder | packages/durable/src/alarm.ts:164-172 | any alarm listing is in non-decreasing due-time order |
| Alarm.AlarmManager.GetNextAlarm | packages/durable/src/alarm.ts:177-180 | nothing exactly when no alarm key is stored; otherwise a stored alarm whose due time is the least of all stored alarms |
| Alarm.NextAlarmIsEarliest | packages/durable/src/alarm.ts:177-180 | the same, about the listing with limit 1 |
| Alarm.AlarmManager.SetNextWake | packages/durable/src/alarm.ts:185-191 | the wake register becomes the next alarm's decoded time, and is unchanged when no alarm is stored |
| Alarm.WakeIsEarliest | packages/durable/src/alarm.ts:185-191 | the wake register is unchanged when no alarm is stored; otherwise it is at or below every stored due time and equals one of them |
| Alarm.AlarmManager.ScheduleAlarmAt | packages/durable/src/alarm.ts:196-206 | fails exactly when `ms` is outside 0 .. 2^48-1, changing nothing; otherwise returns `id = nonMonoUlid(ms)` (so `decodeTime(id) == ms` by `Ulid.DecodeTimeOfMake`), inserts exactly one record under `$$_alarm##id` with attempt 0 and no previous error, and leaves the wake register at the earliest stored due time, at or below `ms` |
| Alarm.ScheduleKeepsAlarmStore | packages/durable/src/alarm.ts:196-203 | storing a generated alarm keeps the store sorted and every alarm key equal to `$$_alarm##` plus its record's ULID |
| Alarm.AlarmManager.ScheduleAt | packages/durable/src/alarm.ts:208-211 | `scheduleAlarmAt(at, {type: 'at'})`: fails exactly when `at` is out of range, changing nothing; otherwise the id is the ULID generated for `at`, one record of kind `At(at)` is stored under it, and the wake register becomes the earliest stored due time (`WakeAfter`, see `Alarm.WakeIsEarliest`), at or below `at` |
| Alarm.AlarmManager.ScheduleIn | packages/durable/src/alarm.ts:213-220 | `scheduleAlarmAt(now + ms, {type: 'in'})`: with `due = now + ms` (a ghost result), it fails exactly when `due` is out of range; otherwise the id is the ULID generated for `due`, one record of kind `In(ms)` is stored under it, and the wake register becomes the earliest stored due time (`WakeAfter`, see `Alarm.WakeIsEarliest`), at or below `due` |
| Alarm.AlarmManager.ScheduleEvery | packages/durable/src/alarm.ts:222-224 | returns `'1234'`; touches neither storage nor wake register (no `modifies`) |
| Alarm.AlarmManager.Cancel | packages/durable/src/alarm.ts:226-228 | returns true; removes nothing |
| Alarm.AlarmManager.CancelAll | packages/durable/src/alarm.ts:230-232 | returns true; removes nothing |
| Alarm.AlarmManager.AlarmHandler | packages/durable/src/alarm.ts:142-159 | the handler sees exactly the payloads of the due listing, once each, in key order, whatever it returns or throws; exactly those records are deleted; the wake register is then reset |
| Alarm.DueIncludesPast | packages/durable/src/alarm.ts:143-145 | every stored alarm due at or before `now` is in the handler's listing |
| Alarm.DueExcludesFuture | packages/durable/src/alarm.ts:143-145 | every alarm in the handler's listing is stored and due no later than `now + 1` |
| Alarm.HandlerLeavesLater | packages/durable/src/alarm.ts:150-158 | after the handler no alarm due at or before `now` remains, and every entry it did not list is unchanged |
| Alarm.StoredAlarm | packages/durable/src/alarm.ts:187-188 | a stored alarm's key is `$$_alarm##` plus its id, and its id decodes to its due time |
| Alarm.AlarmKeyLess | packages/durable/src/alarm.ts:198 | keys under the prefix compare as their ids do |
| Ulid.DecodeTimeOfMake | packages/durable/src/alarm.ts:187-197 | `decodeTime` of an id generated for `ms` is `ms` |
| Ulid.IsUlidDecodes | packages/durable/src/alarm.ts:188 | `decodeTime` accepts an id exactly when it has 26 characters whose first ten are Crockford digits led by one of `0`-`7` |
| Ulid.MakeOrder | packages/durable/src/alarm.ts:197 | generated ids sort by time, then by random part |
| Ulid.IdOrderFollowsTime | packages/durable/src/alarm.ts:143-145 | for ids `decodeTime` accepts, key order never contradicts time order, and an earlier time always sorts first |
| KvStore.ListProperties | packages/durable/src/alarm.ts:166-170 | a host listing holds stored entries that meet start/end/prefix, in ascending key order, within the limit |
| KvStore.ListFirstIsLeast | packages/durable/src/alarm.ts:178-179 | a listing with limit 1 is empty exactly when nothing is selected, and otherwise holds the least selected key |
| Sql.ToInt32 | packages/durable/src/sql.ts:31 | `x \| 0` lies in -2^31 .. 2^31-1 and is congruent to `x` modulo 2^32 |
| Sql.ShiftStep | packages/durable/src/sql.ts:30-31 | `((h << 5) - h + c) \| 0` equals `ToInt32(31h + c)` |
| Sql.HashMessage | packages/durable/src/sql.ts:26-34 | the loop returns the fold `h := ToInt32(31h + code)` from 0, rendered in base 36 with a leading `-` when negative |
| Sql.Base36RoundTrip | packages/durable/src/sql.ts:33 | reading back `toString(36)` gives the number |
| Sql.HashTextMatches | packages/durable/src/sql.ts:33 | two hash texts are equal exactly when the hash numbers are |
| Sql.JoinedTextCollision | packages/durable/src/sql.ts:86-87 | an illustration that the hash sees only the `;`-joined text: the different configs `["a;b"]` and `["a", "b"]` hash alike |
| Sql.Database.Exec | packages/durable/src/sql.ts:102 | executing appends the command to the log; the table appears only when a command creates it |
| Sql.Database.SelectByPrefix | packages/durable/src/sql.ts:60-67 | no rows where the table is missing (the SELECT throws); otherwise the rows whose key starts with the prefix, in table order |
| Sql.Database.Insert | packages/durable/src/sql.ts:103-110 | appends the row when the table exists; fails and changes nothing otherwise |
| Sql.RunMigrations | packages/durable/src/sql.ts:55-111 | the loop's outcome and final database are those of the run specification `Migrate` |
| Sql.MissingEntriesExactly | packages/durable/src/sql.ts:78-80 | "missing entries" is thrown exactly when more runs are recorded than configured, and then nothing changes |
| Sql.HashMismatchExactly | packages/durable/src/sql.ts:89-100 | a differing recorded hash below the recorded count throws "Hash doesn't match" with nothing executed; with all hashes equal it is never thrown |
| Sql.CheckPhase | packages/durable/src/sql.ts:82-100 | indices below the recorded count are only compared, never executed; keys and run orders are not compared |
| Sql.ExecPhase | packages/durable/src/sql.ts:102-110 | once the table exists, each remaining entry is executed in config order and recorded with key `prefix$$name`, run order `i`, its description or `''`, its hash and the date |
| Sql.ExecPhaseCreatingTable | packages/durable/src/sql.ts:102-110 | without the table, a run that succeeds executes and records every entry, the first creating the table |
| Sql.MigrateSuccess | packages/durable/src/sql.ts:82-111 | after a successful run, the log has gained exactly the texts of the unrecorded entries and the table exactly their rows, and all recorded hashes matched |
| Sql.RecordedAfterSuccess | packages/durable/src/sql.ts:82-111 | after a successful run the prefix has exactly one recorded row per config entry, each with the config's hash |
| Sql.MigrateIdempotent | packages/durable/src/sql.ts:89-100 | re-running an identical config after success executes nothing and records nothing |
| Sql.FailureKeepsPrefix | packages/durable/src/sql.ts:82-111 | whatever the outcome, a run only appends to the log and to an existing table |
| Sql.FreshSingle | packages/durable/src/sql.ts:102-110 | on an empty database a single migration that creates the table runs and is recorded as run 0 |
| Sql.InitCreatesTable | packages/durable/src/sql.ts:118-128 | the initialize migration's text begins by creating `__teeny_migrations` |
| Sql.MigrateSuccessFresh | packages/durable/src/sql.ts:114-131 | on an empty database `initalizeMigrationsTable` runs its commands and records `_teeny_sql$$initalize` |
| Sql.InitializeMigrationsTable | packages/durable/src/sql.ts:114-131 | runs the `initalize` migration under the prefix `_teeny_sql` |
| Sql.PrepareSqlite | packages/durable/src/sql.ts:136-149 | the outcome is that of `PrepareSpec`: nothing without migrations; otherwise the initialize migration, then the user's under `user` |
| Sql.PrepareFresh | packages/durable/src/sql.ts:136-142 | on an empty database the initialize migration's text is the first command executed and its row the first recorded |
| TypedStorage.KeepValid | packages/durable/src/storage.ts:39-48 | a batch `get` throws exactly when some found text does not parse; otherwise it keeps exactly the found entries the schema accepts, under their host keys |
| TypedStorage.DecodeAll | packages/durable/src/storage.ts:51-58 | `list` throws exactly when some listed value fails to parse or validate; otherwise every value decoded, in order |
| TypedStorage.ValidateAll | packages/durable/src/storage.ts:67-75 | a batch `put` fails exactly when the schema rejects some value; otherwise every value validated and stringified under `name##key` |
| TypedStorage.PrefixedInjective | packages/durable/src/storage.ts:32 | for names without `#`, the host key `name##key` determines both name and key |
| TypedStorage.PrefixedInjectiveKey | packages/durable/src/storage.ts:32 | within one namespace, distinct keys get distinct host keys |
| TypedStorage.PrefixedCollision | packages/durable/src/storage.ts:32 | names containing `##` can share host keys |
| TypedStorage.TypedStorageItem.Get | packages/durable/src/storage.ts:35-38 | nothing exactly when the prefixed key is absent; otherwise `validator.parse(parse(val))` or its error |
| TypedStorage.TypedStorageItem.GetMany | packages/durable/src/storage.ts:39-48 | the loop's result is `KeepValid` of the host's batch read of the prefixed keys |
| TypedStorage.GetManyMeaning | packages/durable/src/storage.ts:39-48 | a successful batch `get` returns exactly the requested, stored entries the schema accepts, under their prefixed keys |
| TypedStorage.TypedStorageItem.List | packages/durable/src/storage.ts:51-58 | decodes the host listing under `name##(prefix ?? '')` |
| TypedStorage.ListWithinNamespace | packages/durable/src/storage.ts:51-58 | a typed listing reaches only host keys starting with `name##(prefix ?? '')` |
| TypedStorage.TypedStorageItem.Put | packages/durable/src/storage.ts:63-66 | validates first: a rejected value fails and leaves the store unchanged; otherwise the stringified validated value is written under `name##key` |
| TypedStorage.PutThenGet | packages/durable/src/storage.ts:34-66 | reading a key after its `put` gives what the schema makes of the stored value |
| TypedStorage.PutThenGetIdempotent | packages/durable/src/storage.ts:34-66 | with a schema that accepts its own output, `get` after `put` returns exactly the validated value |
| TypedStorage.PutIsolated | packages/durable/src/storage.ts:32-66 | a write under one namespace does not change reads under another (names without `#`), reads of other keys of its own, or a raw read of the same key |
| TypedStorage.RawPutIsolated | packages/durable/src/storage.ts:32-38 | a raw write to the host storage does not change a typed read of the same key under any namespace |
| TypedStorage.TypedStorageItem.PutMany | packages/durable/src/storage.ts:67-75 | all-or-nothing: one rejected value means nothing is written; otherwise every validated entry is written in one batch |
| TypedStorage.PutManyThenGet | packages/durable/src/storage.ts:67-75 | after a successful batch `put` with distinct keys, each key reads back as the schema's value |
| TypedStorage.TypedStorageItem.Delete | packages/durable/src/storage.ts:77-79 | removes only `name##key`; reports whether it existed |
| TypedStorage.DeleteThenGet | packages/durable/src/storage.ts:77-79 | a key read right after its `delete` is absent |
| TypedStorage.TypedStorageItem.DeleteMany | packages/durable/src/storage.ts:80-82 | removes only the prefixed keys; returns how many existed |
| TypedStorage.CreateTypedStorage | packages/durable/src/storage.ts:87-99 | one item per configured name, each over the same host storage with its own name and schema |
| Durable.DurableStorageItem.Get | packages/durable/src/durable.ts:155-160 | nothing when absent; otherwise `validator.parse` of the decoded value |
| Durable.DurableStorageItem.GetMany | packages/durable/src/durable.ts:161-170 | drops found entries that fail `safeParse`, keyed by host keys |
| Durable.DurableStorageItem.List | packages/durable/src/durable.ts:173-178 | the raw host listing under `name##(prefix ?? '')`, values neither parsed nor validated |
| Durable.RawListWithinNamespace | packages/durable/src/durable.ts:173-178 | that listing holds stored entries, undecodable ones included, all under the namespace prefix |
| Durable.DurableStorageItem.Put | packages/durable/src/durable.ts:180-185 | validates before writing; a rejected value writes nothing |
| Durable.DurableStorageItem.PutMany | packages/durable/src/durable.ts:186-193 | one rejected value means nothing is written |
| Durable.DurableStorageItem.Delete | packages/durable/src/durable.ts:195-197 | removes only `name##key` |
| Durable.DurableStorageItem.DeleteMany | packages/durable/src/durable.ts:198-200 | removes only the prefixed keys |
| Durable.CreateTypedStorage | packages/durable/src/durable.ts:205-217 | one item per configured name over the same host storage |
| Durable.DispatchCases | packages/durable/src/durable.ts:47-74 | RPC exactly when the pathname equals the configured one (default `/rpc`); otherwise the fallthrough exactly when defined; otherwise 400 with a message naming both pathnames |
| Durable.FetchCases | packages/durable/src/durable.ts:56-75 | `fetch` answers with the fallthrough's response, with status 400, or with the RPC route's response, which fails exactly when `routeHttpToObject` throws |
| Durable.FetchEndToEnd | packages/durable/src/durable.ts:57-64 | a client request on `/rpc` for a router function is answered 200 and the client gets that function's result, `undefined` included |
| Rpc.WalkPath | packages/durable/src/rpc.ts:74-79 | reading string keys other than `then` from a proxy gives a proxy whose path is the old one plus those keys |
| Rpc.WalkStops | packages/durable/src/rpc.ts:75-77 | if any key read is `then` or a symbol, no proxy comes out |
| Rpc.ClientRequest | packages/durable/src/rpc.ts:80-88 | calling `createClientProxy(cb).k1….kn(args)` calls `cb` exactly once, with `{path: [k1…kn], args}`, and returns its result |
| Rpc.RouteRpcToObject | packages/durable/src/rpc.ts:122-140 | the loop's result is `Route` of the request: the value found, its error, or the function's result (None where it returns `undefined`) |
| Rpc.ResolveMeaning | packages/durable/src/rpc.ts:125-134 | the walk succeeds exactly when the path exists in the router, and finds the value there |
| Rpc.ResolveFailure | packages/durable/src/rpc.ts:127-132 | a failed walk stopped at some key: "not an object" when the value before it is not a non-null object, "missing" (naming the whole path) when the object lacks that key |
| Rpc.RouteMeaning | packages/durable/src/rpc.ts:136-139 | routing succeeds exactly when the path holds a function, and then returns that function applied to `args`; any other value throws "to be function" with its `typeof` |
| Rpc.ValueAtAppend | packages/durable/src/rpc.ts:126-134 | walking `a + b` is walking `a`, then `b` |
| Rpc.NestValueAt | packages/durable/src/rpc.ts:126-134 | a router `{p0: {p1: … leaf}}` holds `leaf` at `p` |
| Rpc.ProxyReachesRouter | packages/durable/src/rpc.ts:72-140 | a request the proxy builds for `k1….kn` reaches the router function at that path |
| Rpc.ResponseRoundTrip | packages/durable/src/rpc.ts:53-66 | every envelope passes `RPC_RESPONSE_SCHEMA` unchanged |
| Rpc.RequestRoundTrip | packages/durable/src/rpc.ts:47-50 | every request passes `RPC_REQUEST_SCHEMA` unchanged |
| Rpc.FetchOkOnly | packages/durable/src/rpc.ts:105-114 | the client's call returns data exactly for an `ok` envelope, and then its `data`; `invalid_input` and `server_error` throw "Failure response [status]: error" |
| Rpc.HttpWrapsOk | packages/durable/src/rpc.ts:152-157 | a served response is the `ok` envelope around `Route` of the parsed request, `undefined` included, and the client hands back exactly that result |
| Rpc.EndToEnd | packages/durable/src/rpc.ts:97-158 | a request for a path holding a function comes back as that function's result, `undefined` included |
| Utils.MapObject | packages/durable/src/utils.ts:17-28 | the result has exactly the own keys `for…in` visits other than `__proto__`, whose assignment creates no own key; each maps to `callback(obj[k], k)`; the callback is called once per own visited key, `__proto__` included, in visiting order |
| Utils.OwnVisitedMeaning | packages/durable/src/utils.ts:22-23 | the keys passed to the callback are exactly the own keys `for…in` visits, each once |
| Utils.MapObjectCalls | packages/durable/src/utils.ts:22-26 | the callback is called once per own visited key and with no other key |

## Left out

- Host I/O failures are not modelled: storage operations, `sql.exec` and the handler's own storage writes always complete.
- Concurrency and interleaving are not modelled. Every awaited call runs in sequence.
- `console.error`/`console.log` output is left out. The caught handler error in `alarmHandler` is dropped, which is all the code does with it.
- `alarmHandler`'s `alarmInfo` argument is ignored, as in the code.
- A handler that writes to storage while it runs is not modelled. The handler is a pure function of the payload.
- Retry, recurrence and cancellation are not implemented in the code. `scheduleEvery`, `cancel` and `cancelAll` are stubs, and nothing re-queues a failed alarm.
- The ULID library's internals are left out. Only its layout is modelled; the random digits are a parameter.
- A `Date` argument is its millisecond time.
- `Alarm.AlarmManager.ScheduleAlarmAt` treats any non-integral or out-of-range time as a generation failure, where the library throws.
- `Sql.Database.Exec` does not model the SQL engine. The table's UNIQUE key, its index, `pragma`s and failing commands are out of scope. Only the creation of `__teeny_migrations` is interpreted.
- `Sql.Database.SelectByPrefix` treats `LIKE "<prefix>%"` as a case-sensitive prefix test. SQL's `_` wildcard and ASCII case-folding are not modelled; neither matters for the prefixes `_teeny_sql` and `user`.
- `Sql.Database.SelectByPrefix` returns rows in insertion order. The query has no `ORDER BY`.
- `Sql.HashMessage` reads each Dafny `char` as one UTF-16 code unit. Characters outside the Basic Multilingual Plane are not split into surrogate pairs.
- `tryWithRollback`, `stmt`/`Stmt`/`StmtFn` and the `statements` option of `prepareSqlite` are out of scope. They are unused or type-level only.
- The migration config is a sequence of `(name, migration)` pairs in `Object.entries` order. Integer-like names, which JavaScript orders first, are not reordered.
- `superjson` and zod are represented by what they promise (round trip, partial validation). Their error messages, such as "Error parsing response: …", are not modelled.
- Numbers are integers; floating point is not modelled.
- `TypedStorage.CreateTypedStorage` returns the items as a map. `Object.assign` onto the host storage object (which makes the items properties of it) is not modelled.
- `TypedStorage.PutIsolated` holds only for namespace names without `#`. Names containing `##` really do share host keys (`TypedStorage.PrefixedCollision`).
- The `opts` arguments of the typed storage's `get`/`put`/`delete` (`allowConcurrency`, `noCache`, ...) are left out.
- `Rpc.RouteRpcToObject` takes arguments that are never `undefined`. `Serial.Value` has no `undefined`, so an `undefined` item in `args` is not modelled. A router function's result may be `undefined`, as None.
- `Rpc.RouteRpcToObject` sees own properties only. The `in` operator also finds inherited keys such as `toString`, and property access on a function (`typeof` `'function'`) is refused as the code refuses it.
- The functions a router holds are identities applied through a parameter. Their throwing, their promises and their side effects are not modelled.
- The custom `parseTransform`/`stringifyTransform` of `createDurable` are not modelled. The default `superjson` pair is used.
- The URL parsing of `new URL(req.url)` is not modelled. `fetch` receives the pathname.
- The JSON text of the 400 body (`JSON.stringify({msg})`) is not modelled. The model carries the message.
- The namespace proxy of `createDurable`, `v2/`, `getByName` and `getById` are host/network plumbing and out of scope.
- The commented-out `AlarmManager` class is dead code and out of scope.
- `Utils.MapObject` leaves the result without an own `__proto__` key, as the code does. When the callback returns an object for that key, the assignment replaces the result's prototype; prototypes are not modelled.
- The texts of the errors thrown by `routeRpcToObject` and `fetchAdapter` are not modelled. `Rpc.RouteError` and `Rpc.FetchError` carry the key, path, status and error those texts report.
- `Utils.MapObject` does not say the input is left unmodified, because the input is a value in the model and cannot be modified.
