# upchime pinger, modelled in Dafny

The pinger is the probing service of upchime. A reconciler reads the `target`
table on a fixed period. It keeps one worker per enabled target, and sends a
worker an updated row when the row's fingerprint changes. It aborts the
workers of targets that were not read. Each worker probes its target over HTTP
once per interval. It classifies the answer as up, down or timeout, writes
the target's state when that classification changes, and records every probe
in the `ping` table.

The model has five modules, one per file:

- `Wrappers` (wrappers.dfy): `Option` and `Result`.
- `Db` (db.dfy), from `db.rs`:
  - the integer widths of the columns and Rust's same-width `as` casts;
  - the `TargetState` encoding 0..3;
  - the `TargetIterObject` row;
  - the values bound by `update_target_state` and `inser_http_ping`, as a `StoreWrite`.
- `Http` (http.dfy), from `pinger/http.rs`:
  - `PingResponse` and `HttpMetadata`, with the JSON keys of its serde mapping and a round trip;
  - redirect-policy and timeout selection in `build_request`;
  - the validation order of `ping`: method, client, base64 body, then each header;
  - the status classification.
- `Pinger` (pinger.dfy), from `pinger/mod.rs`:
  - `http_ping_wrapper` as a specification function (`PingWrapper`) and as a method on the `Worker` class (`ApplyOutcome`);
  - the debouncing over a run of probes;
  - the sleep arithmetic;
  - the worker's spawn gate, metadata parse and update hand-off.
- `Dispatch` (dispatch.dfy), from `dispatch.rs`:
  - the fingerprint (`hash`) as CRC32 over the concatenated field encodings;
  - one synchronisation cycle, as specification functions (`VisitRow`, `Scan`, `Sweep`, `Stale`);
  - the `Reconciler` class, whose `Cycle` method updates the cache map in place and is proved against those functions.

Effects are modelled as values:

- A store write is the row of values it binds. The worker's `store` is the sequence of writes the store accepted.
- The reconciler's effects on workers form a ghost event log of `Spawn`, `Send` and `Abort`.
- Clocks, the per-probe deadline, the transport's answer and the store's success are inputs of each step.
- CRC32 is a parameter `crc`.
- Library checks are fields of `HttpEnv`: `Method::from_bytes`, `HeaderName`/`HeaderValue`, base64, `ClientBuilder::build`.
- `serde_json` text parsing is the parameter `parseJson`.

Where the code and its evident intent differ, the model follows the code and
proves what the code does:

- `pinger/mod.rs:28` stores `Down` when a target becomes `Up`, while the worker's own state becomes `Up` (`Pinger.UpIsPersistedAsDown`).
- `pinger/mod.rs:27-28` sets `current_state` before the state write. A failed write is therefore never retried while the classification stays the same, and the probe record of that turn is skipped (`Pinger.FailedStateWriteIsNotRetried`).
- `dispatch.rs:74-75` refreshes the cache entry whether or not the `send` succeeded. A lost update is not sent again (`Dispatch.SecondCycleIsQuiet`).
- `dispatch.rs:113` falls through to the sweep at `dispatch.rs:116-126`. A failed query therefore aborts every worker (`Dispatch.ConnectFailedTearsDownAll`), and a failure mid-stream keeps only the targets read before it (`Dispatch.CycleKeys`).
- The fingerprint concatenates fields without lengths or separators. Moving bytes across a field boundary goes unnoticed (`Dispatch.FieldBoundaryCollision`).
- The ping type is checked only when the worker starts (`pinger/mod.rs:91`). After an update, the target is probed as HTTP whatever its type (`Pinger.Worker.Iterate`).

## Model

| member | source | states |
|---|---|---|
| `Db.U64AsI64` | source/pinger/src/db.rs:115 | `response_time as i64` yields the one `i64` congruent to the `u64` modulo 2^64 |
| `Db.U16AsI16` | source/pinger/src/db.rs:116 | `status as i16` yields the one `i16` congruent to the `u16` modulo 2^16 |
| `Db.I64AsU64` | source/pinger/src/pinger/http.rs:106 | `as u64` on a signed value yields the one `u64` congruent to it modulo 2^64 |
| `Db.I16AsU16` | source/pinger/src/db.rs:116 | reading an `i16` column back as `u16` is the congruent value modulo 2^16 |
| `Db.SignedColumnsAreLossless` | source/pinger/src/db.rs:115-116 | latency and status stored in signed columns are recovered exactly, and values below 2^63 and 2^15 are stored unchanged |
| `Db.Encode` | source/pinger/src/db.rs:21-27 | every state is stored as a discriminant in 0..3 |
| `Db.Decode` | source/pinger/src/db.rs:21-27 | a stored `i8` names a state iff it lies in 0..3, and that state encodes back to it |
| `Db.EncodeIsInjective` | source/pinger/src/db.rs:21-27 | distinct states get distinct discriminants, and each decodes back to itself |
| `Db.UpdateTargetState` | source/pinger/src/db.rs:64-82 | the update binds the discriminant of `state` and the target's id, nothing else |
| `Db.InsertHttpPing` | source/pinger/src/db.rs:84-122 | the insert binds id, time and `up` unchanged; `None` stays `None`; `Some` latency and status are stored as their same-width signed casts, which read back to the originals |
| `Http.MetadataFromJson` | source/pinger/src/pinger/http.rs:19-38 | an object parses iff every key holds a value of its field's type, an optional key being allowed to be absent or null; a parsed metadata has `m`, `mx`, `mi` and `i` with the matching values; each optional field (`b`, `r`, `h`, `t`) is `None` iff its key is absent or null, and otherwise holds the key's value |
| `Http.MetadataJsonRoundTrip` | source/pinger/src/pinger/http.rs:19-38 | every metadata written as JSON under the renamed keys reads back as itself |
| `Http.RedirectPolicyFor` | source/pinger/src/pinger/http.rs:41-49 | redirects are limited to `v` iff `follow_redirects` is `Some(v)` with `v > 0`; otherwise none are followed |
| `Http.ClientTimeoutSecs` | source/pinger/src/pinger/http.rs:61-67 | the client timeout is the default when `t` is absent, otherwise `t` converted to `u64` (congruent modulo 2^64) |
| `Http.ClientFor` | source/pinger/src/pinger/http.rs:40-70 | the client accepts invalid certificates and invalid host names together, exactly when `insecure` is set; its redirect policy and timeout are the two selections above (the default timeout when `t` is absent, `t` itself when it is non-negative); its user agent is the service's |
| `Http.ClientTimeoutSecsValues` | source/pinger/src/pinger/http.rs:61-67 | a non-negative `t` is used as is; a negative `t` sign-extends to at least 2^64 - 2^31 seconds |
| `Http.Classify` | source/pinger/src/pinger/http.rs:102-109 | a response is `Up` iff `min <= status <= max`, otherwise `Down`; it carries the status unchanged and the elapsed time converted to `u64` |
| `Http.ClassifyRanges` | source/pinger/src/pinger/http.rs:105-109 | with `min > max` every response is `Down`; both bounds are inclusive; a non-negative elapsed time is reported unchanged |
| `Http.Outcome` | source/pinger/src/pinger/http.rs:100-118 | a transport timeout gives `Ok(Timeout)`, any other transport error gives `Err`, and a response is classified by the status range |
| `Http.CheckHeaders` | source/pinger/src/pinger/http.rs:87-96 | succeeds iff every header name and value is valid, then yields every map entry once as a header; otherwise it reports an invalid name, or a valid name whose value is invalid |
| `Http.Ping` | source/pinger/src/pinger/http.rs:72-119 | a request is sent iff method, client, body and headers are all valid; the first failing check in that order is the error; the sent request carries the method, URL, client, decoded body and the header entries; the result agrees with `ExpectedResponse` |
| `Pinger.ParseMetadata` | source/pinger/src/pinger/mod.rs:96-97 | the blob yields metadata iff it is JSON text whose value is an object with every field well typed |
| `Pinger.StoredMetadataIsRead` | source/pinger/src/pinger/mod.rs:96-97 | a blob holding the JSON of a metadata value parses back to exactly that value |
| `Pinger.ExpectedOutcome` | source/pinger/src/pinger/mod.rs:16-21 | the deadline counts only for a request that passed validation, since a validation error is returned before `ping` first waits; an invalid request fails whatever the timer; otherwise the probe answers iff `ping` yields a response, and with that response |
| `Pinger.ObservedState` | source/pinger/src/pinger/mod.rs:22-76 | `Up` only for an up response; `Timeout` for a transport timeout or an expired deadline; `Down` otherwise; never `Unknown` |
| `Pinger.PersistedState` | source/pinger/src/pinger/mod.rs:22-76 | the state written is the observed one, except that an observed `Up` is written as `Down` |
| `Pinger.ProbeRecord` | source/pinger/src/pinger/mod.rs:31-75 | the probe record is for the target at `now`; success iff up; latency and status present iff the target answered (up or down), and equal to the response's |
| `Pinger.PingWrapper` | source/pinger/src/pinger/mod.rs:9-80 | the new state is the observed one; a state write happens iff it differs from the current state and the store accepts it, and comes first; the probe record comes last unless the state write failed or the insert failed; the call is `Ok` iff no write failed |
| `Pinger.UpIsPersistedAsDown` | source/pinger/src/pinger/mod.rs:23-31 | a transition to `Up` writes state 2 (`Down`), then a successful probe record |
| `Pinger.FailedStateWriteIsNotRetried` | source/pinger/src/pinger/mod.rs:24-31 | when the state write fails nothing is recorded, and the next probe with the same classification writes no state |
| `Pinger.ReplayWritesOncePerTransition` | source/pinger/src/pinger/mod.rs:22-76 | over a run of probes the state is written once per change of classification, and one probe record is written per probe |
| `Pinger.RepeatedOutcomeWritesStateAtMostOnce` | source/pinger/src/pinger/mod.rs:22-76 | probes that classify alike write the state at most once, and only when the first differs from the current state |
| `Pinger.UpThenDownScenario` | source/pinger/src/pinger/mod.rs:22-41 | a new target answering 200 then 500 with range [200, 299] produces state 2, an up record, state 2, a down record |
| `Pinger.PingDuration` | source/pinger/src/pinger/mod.rs:106-123 | the probe duration is the difference of the two clock readings modulo 2^64, and the plain difference for ordered non-negative readings |
| `Pinger.SaturatingSub` | source/pinger/src/pinger/mod.rs:131 | the result never exceeds the minuend; it is the difference when that is non-negative and 0 otherwise |
| `Pinger.SleepMillis` | source/pinger/src/pinger/mod.rs:123-133 | the sleep is at most `interval*1000`, and probe plus sleep last exactly `interval*1000` unless the probe alone took longer, in which case the sleep is 0 |
| `Pinger.SleepExamples` | source/pinger/src/pinger/mod.rs:123-133 | with a 5 s interval, a 2 s probe sleeps 3000 ms and a 6 s probe does not sleep |
| `Pinger.Worker.Spawn` | source/pinger/src/pinger/mod.rs:82-138 | a worker starts with the row as its target, the row's state as current state, no writes and no parsed metadata; it runs iff the ping type is "HTTP", and otherwise ends with the invalid ping type |
| `Pinger.Worker.LoadMetadata` | source/pinger/src/pinger/mod.rs:96-97 | the metadata is the parse of the active target's blob; unparseable metadata ends the worker |
| `Pinger.Worker.Offer` | source/pinger/src/dispatch.rs:67-72 | a row offered into the empty single-slot channel is accepted iff the worker is running |
| `Pinger.Worker.ApplyOutcome` | source/pinger/src/pinger/mod.rs:9-80 | the current state and the appended writes are those of `PingWrapper`; every write stays about this worker's id |
| `Pinger.Worker.Iterate` | source/pinger/src/pinger/mod.rs:99-134 | a pending row replaces the target, resets the current state to the row's state and drops the parsed metadata, without a probe or a sleep; otherwise the target is probed with the parsed metadata (the ping type is not checked again), the writes are those of `PingWrapper` for the outcome, and the sleep is `SleepMillis`; the worker keeps running either way |
| `Dispatch.I8LeBytes` | source/pinger/src/dispatch.rs:13 | the state is fed to the digest as one byte |
| `Dispatch.I32LeBytes` | source/pinger/src/dispatch.rs:17 | the interval is fed to the digest as four bytes |
| `Dispatch.LeBytesRoundTrip` | source/pinger/src/dispatch.rs:13-17 | the little-endian two's-complement encodings of the state and the interval decode back to the values |
| `Dispatch.Parts` | source/pinger/src/dispatch.rs:12-18 | seven byte strings are fed to the digest; the id, the state and the interval have the fixed widths 16, 1 and 4 |
| `Dispatch.Fingerprint` | source/pinger/src/dispatch.rs:9-21 | the fingerprint is CRC32 of id, state, name, address, ping type, interval and metadata, concatenated in that order without separators |
| `Dispatch.EnabledIsNotHashed` | source/pinger/src/dispatch.rs:9-21 | rows that differ only in `enabled` have the same fingerprint |
| `Dispatch.OneFieldChangeIsSeen` | source/pinger/src/dispatch.rs:9-21 | changing any one of id, state, name, address, ping type, interval or metadata changes the bytes fed to CRC32 |
| `Dispatch.FieldBoundaryCollision` | source/pinger/src/dispatch.rs:14-15 | name `[1,2]` with address `[3]` and name `[1]` with address `[2,3]` have the same fingerprint |
| `Dispatch.VisitRow` | source/pinger/src/dispatch.rs:46-104 | a disabled row changes nothing; an enabled row leaves its fingerprint and the current counter in the cache; it emits nothing iff its id is known with an equal checksum, otherwise one `Send` for a known id or one `Spawn` for a new one |
| `Dispatch.Scan` | source/pinger/src/dispatch.rs:44-112 | the row pass emits at most one event per row read and removes no entry from the cache |
| `Dispatch.Sweep` | source/pinger/src/dispatch.rs:116-126 | the kept entries and the stale ids split the cache's ids; every kept entry is unchanged and carries the current counter |
| `Dispatch.Stale` | source/pinger/src/dispatch.rs:116-126 | the ids dropped are ids of the cache whose entries do not carry the current counter |
| `Dispatch.ScanKeys` | source/pinger/src/dispatch.rs:44-111 | after the rows are read, the cache holds the old ids plus the enabled ids read; those carry the current counter; the other entries are untouched |
| `Dispatch.ScanEntries` | source/pinger/src/dispatch.rs:53-103 | with distinct ids, every enabled row read leaves its own fingerprint and the current counter in the cache |
| `Dispatch.ScanEvents` | source/pinger/src/dispatch.rs:53-103 | with distinct ids, each new enabled id is spawned exactly once, each known id whose fingerprint changed is sent to exactly once, and no other id is spawned or sent to |
| `Dispatch.ScanEventShapes` | source/pinger/src/dispatch.rs:46-104 | the row pass only spawns and sends, each time for an enabled row it read, under that row's id |
| `Dispatch.CycleKeys` | source/pinger/src/dispatch.rs:38-126 | for a complete, a failed-midway or a failed enumeration, the ids kept are exactly the enabled ids read, and the ids dropped are the old ids not read |
| `Dispatch.ConnectFailedTearsDownAll` | source/pinger/src/dispatch.rs:113-126 | when the query fails, no row is visited, every entry is dropped and every worker is aborted |
| `Dispatch.DisabledRowsIgnored` | source/pinger/src/dispatch.rs:47-49 | the row pass over all rows equals the row pass over the enabled rows alone |
| `Dispatch.KnownRowsAreQuiet` | source/pinger/src/dispatch.rs:53-78 | a pass over rows with distinct ids that are all known under their current fingerprints spawns and sends nothing |
| `Dispatch.SecondCycleIsQuiet` | source/pinger/src/dispatch.rs:53-126 | a second cycle over the same rows with distinct ids spawns, sends and aborts nothing, and keeps the same ids |
| `Dispatch.Reconciler.constructor` | source/pinger/src/dispatch.rs:35-36 | the reconciler starts with counter 0, an empty cache and no events |
| `Dispatch.Reconciler.Cycle` | source/pinger/src/dispatch.rs:38-127 | the counter goes up by exactly one; the cache becomes the sweep of the row pass; the log gains the pass's events, then exactly one `Abort` per stale id; every entry then carries the current counter |
| `Dispatch.Reconciler.ScanRows` | source/pinger/src/dispatch.rs:44-112 | the loop over the rows leaves the cache and the events of `Scan` |
| `Dispatch.Reconciler.Visit` | source/pinger/src/dispatch.rs:46-104 | one row updates the cache and the log as `VisitRow` says |
| `Dispatch.Reconciler.Retain` | source/pinger/src/dispatch.rs:116-126 | the entries with the current counter are kept; each other entry is removed and its worker aborted exactly once |

## Left out

- Concurrency is not modelled: tokio tasks, `spawn`, `AbortHandle` and the cancellation of an aborted worker. The reconciler's effects on workers are the events `Spawn`, `Send` and `Abort`, and the worker is modelled on its own.
- The capacity-1 update channel is the worker's `inbox`. A `send` that would block on a full channel is excluded by `Offer`'s precondition. The reconciler does not model the outcome of a `send`, because its cache update does not depend on it.
- Clocks and timers are inputs: `chrono::Utc::now`, `tokio::time::timeout` (the `deadlineElapsed` flag) and `sleep` (its length is computed, not awaited). The probe step requires a non-negative interval and ordered clock readings, because `as u64 * 1000` and the `u64` subtraction at `pinger/mod.rs:123-124` would otherwise overflow or underflow.
- CRC32 is a parameter, so its collisions are not modelled.
- HTTP and the store are not executed. The library checks and the client builder are parameters: `Method::from_bytes`, `HeaderName`/`HeaderValue`, base64, `ClientBuilder::build`.
- `serde_json` text parsing is a parameter (`parseJson`), so the model does not cover JSON syntax.
- JSON numbers are integers only: floats and the array form of a struct are not modelled.
- Unknown JSON keys are ignored, as serde's default does.
- Scylla sessions, prepared statements and paging (`open_conn`, `target_iter`) are not modelled. The enumeration result is the `Snapshot` input.
- The `HashMap` iteration order of the headers is not modelled: `CheckHeaders` may visit them in any order, and its contract holds for every order.
- `HTTP_PING_TIMOUET` and `USER_AGENT` are `HttpEnv` parameters, because `constants.rs` is not part of this model.
- `config.rs` (reading the environment and `db_sync_interval`), `main.rs` and `devops/db/create-http-target.py` are not part of this model.
- Logging (`outputln!`, `errorln!`) and the outer infinite loops are left out. One cycle and one iteration are modelled, so non-termination is not.
- The reconciler's `u64` sync counter is a `nat`. Its overflow after 2^64 cycles is not modelled.
- `Pinger.Worker.Iterate`: the deadline of `tokio::time::timeout(interval as u64, …)` is the input `deadlineElapsed`. It is not derived from the interval and the probe's duration. It takes effect only when the request was sent, because a request that fails validation returns before `ping` first waits.
