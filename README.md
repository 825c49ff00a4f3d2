# Retail analytics data layer, in Dafny

This project models the in-browser data layer of a retail analytics dashboard,
and the script that validates its dataset. The dashboard runs DuckDB-WASM in the
page. It fetches one Parquet file per table (households, products, transactions,
coupons, coupon redemptions, campaigns, campaign descriptions) and caches the bytes
in memory and in IndexedDB. It registers each file as a DuckDB table and reports
loading progress through a small session store that the React views subscribe to.
When a file cannot be fetched or is not Parquet, the table is built from a
synthetic fixture instead. The Python validator checks the generated dataset
before it ships.

Modules, one per source file:

- `ByteCache` (`cache.dfy`, src/lib/cache.ts): the two-tier byte cache as a class
  whose `memory` and `durable` maps its methods update. It also covers
  `fetchWithProgress`, including a rejected `fetch` and a rejected read: its
  streaming loop (`Drain`) is proved against the pure
  `Delivered`/`Flatten`/`ProgressReports`, and its buffer assembly (`Assemble`)
  fills an `array` in place.
- `SessionState` (`db_state.dfy`, src/lib/dbState.ts): the session store as a
  class. Its state is merged with partial updates, and every subscribed listener
  is notified once per update. The notification log records which listener saw
  which state.
- `Metadata` (`metadata.dfy`, src/lib/metadata.ts): the memoized metadata loader,
  and the default record used when the fetch or the JSON parse fails.
- `Format` (`format.dfy`, src/lib/format.ts): `formatBytes` (its scaling loop is a
  method with invariants) and `formatDurationMs`.
- `LoadRules` (`load_rules.dfy`, src/lib/duckdb.ts): the pure rules of the loader.
  These are the table-to-file mapping, the Parquet signature check, the
  synthetic-fallback classifier (a case-insensitive substring search), the
  progress accounting of `reportProgress`, and `getAvailableTables`.
- `Engine` (`engine.dfy`, src/lib/duckdb.ts): the loader's module-level state as
  the class `Manager`. The async code is flattened into the points where it resumes:
  - `Request`: the synchronous part of `ensureTables`. Its `map` callback is
    proved against the pure walk `WalkFrom`, whose lemmas say what the walk
    adds, announces and reports;
  - `BeginFetch`: after `getConnection`;
  - `ReportProgress`: the fetch callback;
  - `Settle`: the rest of the load task, with its `catch` and `finally`.

  `Manager.Valid()` is preserved by every event. It states that:
  - the store's `loadedTables` mirrors the set;
  - no table is both loaded and in flight;
  - every in-flight table has a file mapping;
  - `loadedBytes` equals the bytes of tables loaded from their file plus the
    progress recorded for the loads still running. So the clamp at 0 in
    `clearProgress` never acts.
- `Validator` (`validator.dfy`, scripts/validate_data.py): the validator's
  ordered checks as a function. A declarative statement of what passing means
  is its partner.

DuckDB, the network, IndexedDB, the clock and pandas' date parser are oracles.
They are given as parameters (`Manager`'s `instantiate`/`connect` steps, a
`LoadOracle` per load, a `Response` per fetch, the elapsed time and heap size
per query, a parse function per cell).

Where the code and the design description differ, the model follows the code:

- `ensureTables([])` still awaits `initDuckDB`, so the first call initialises the
  engine and changes the store even when nothing is requested (`Engine.Manager.Request`).
- A stream chunk is pushed and reported whenever the reader returns a value,
  and an empty `Uint8Array` counts, because it is truthy. Successive progress
  reports are therefore non-decreasing, and strictly increasing only across
  non-empty chunks (`ByteCache.ReportsMonotone`).
- The fallback classifier matches the phrase "Failed to fetch". That is the text
  of Chrome's network error and of the loader's own HTTP-error message. Firefox
  ("NetworkError when attempting to fetch resource.") and Safari ("Load failed")
  word their network errors differently, and those errors reject the load.
- A successful response is cached before its signature is checked. A body that
  is not Parquet is therefore kept in IndexedDB, and after a page reload the
  table falls back to the synthetic fixture again without a new fetch.
- The validator's date range check (`parsed.min() > parsed.max()`) can never
  fail (`Validator.RangeCheckNeverFires`).

## Model

| member | source | states |
|---|---|---|
| ByteCache.ContentLength | src/lib/cache.ts:43 | a total is reported exactly when the header parses to a non-zero number, and it is that number; absent, zero and non-numeric headers give no total |
| ByteCache.Find | src/lib/cache.ts:7-20 | memory wins; the durable store is consulted only when memory misses and the host supports it; nothing is found exactly when both miss |
| ByteCache.SetThenFind | src/lib/cache.ts:7-27 | after a store, a lookup of the same key finds the stored bytes, even from a fresh memory tier when the durable tier is supported |
| ByteCache.ReportsAreRunningTotals | src/lib/cache.ts:59-67 | the loop reports once per delivered chunk, and report i carries the byte count of chunks 0..i and the parsed total |
| ByteCache.ReportsMonotone | src/lib/cache.ts:59-67 | reports never decrease, each grows by at least the later chunk's size, and the last equals the whole body's length |
| ByteCache.Drain | src/lib/cache.ts:54-68 | reading until done or a rejected read yields exactly the delivered chunks in order, a count equal to their total size, exactly the running-total reports, and the rejection if there was one |
| ByteCache.CopyInto | src/lib/cache.ts:73-74 | `buffer.set(chunk, offset)` writes the chunk at offset and leaves every other byte unchanged |
| ByteCache.Assemble | src/lib/cache.ts:70-75 | the assembled buffer has the received length and equals the chunks concatenated in order |
| ByteCache.Cache.constructor | src/lib/cache.ts:3-5 | an empty memory tier over the given durable store |
| ByteCache.Cache.Get | src/lib/cache.ts:7-20 | returns what `Find` finds; a durable hit is copied into memory; afterwards a lookup gives the same answer |
| ByteCache.Cache.Set | src/lib/cache.ts:22-27 | writes memory always and the durable store only when supported; a later lookup finds the value |
| ByteCache.Cache.FetchWithProgress | src/lib/cache.ts:29-79 | a hit returns the cached bytes with no request and no report; a rejected `fetch` passes its error on; a non-ok response fails with "Failed to fetch url: statusText"; otherwise the result is the whole body, or the reader's rejection after the running-total reports of the chunks already delivered; the bytes are cached exactly when the call succeeds; a streamed body reports per chunk, a whole body once with its length |
| SessionState.MergeFrame | src/lib/dbState.ts:28-29 | each field of the merged state is the partial's value when present and the old value otherwise |
| SessionState.MergeAlgebra | src/lib/dbState.ts:28-29 | merging the empty partial changes nothing, merging the same partial twice equals merging it once, and two merges equal one merge of the combined partial |
| SessionState.NotifiedOnce | src/lib/dbState.ts:26-30 | with listeners held as a set, one update calls each subscribed listener exactly once and no other, and every call observes the new state |
| SessionState.WithoutSpec | src/lib/dbState.ts:37 | removing a listener keeps exactly the others, stays duplicate-free, and is a no-op for one not subscribed |
| SessionState.Store.constructor | src/lib/dbState.ts:17-26 | status idle, nothing loaded, zero bytes, scanned rows and memory explicitly null, no listeners |
| SessionState.Store.Set | src/lib/dbState.ts:28-31 | the new state is the old state merged with the partial, then each listener is notified of it in subscription order |
| SessionState.Store.Subscribe | src/lib/dbState.ts:35-36 | adds the listener once; subscribing again changes nothing |
| SessionState.Store.Unsubscribe | src/lib/dbState.ts:37 | removes exactly that listener and reports whether it was there |
| SessionState.SubscribeTwiceThenRemove | src/lib/dbState.ts:28-38 | a listener subscribed twice is notified once per update |
| Metadata.Settled | src/lib/metadata.ts:18-27 | a parsed file is used as is; a failed fetch or parse gives source "unknown", no tables, zero bytes, stamped now |
| Metadata.TableBytes | src/lib/metadata.ts:32-35 | a listed table's byte count, and 0 for a table that is not listed or when there are no tables |
| Metadata.DefaultKnowsNothing | src/lib/metadata.ts:22-34 | under the default record every table has 0 bytes and the total is 0 |
| Metadata.Loader.constructor | src/lib/metadata.ts:16 | no metadata fetched yet |
| Metadata.Loader.GetMetadata | src/lib/metadata.ts:18-30 | the settled metadata, fetched at most once for the life of the page |
| Metadata.Loader.GetTableBytes | src/lib/metadata.ts:32-35 | the table's byte count under the settled metadata, through the memoized loader |
| Format.UnitIndex | src/lib/format.ts:34-40 | the unit index never passes GB |
| Format.ScaleBytes | src/lib/format.ts:35-40 | the loop ends with value = bytes / 1024^idx, below 1024 unless the unit is GB, and at least 1 once scaled |
| Format.FormatBytes | src/lib/format.ts:30-42 | non-finite and non-positive inputs render "0 B"; others render the scaled value in its unit, with 0 decimals for bytes and 1 otherwise |
| Format.BytesRenderingFaithful | src/lib/format.ts:30-42 | a positive input renders as a value in [1, 1024) of its unit, or below 1 only as plain bytes, or GB for anything larger; value times the unit size gives back the input |
| Format.OneKilobyte | tests/unit/format.test.ts:14 | 1024 bytes render as 1.0 KB |
| Format.DurationRendering | src/lib/format.ts:27-28 | below 1000 ms: milliseconds with no decimals; otherwise seconds with two decimals, equal to ms / 1000 |
| Format.QuarterSecond | tests/unit/format.test.ts:18 | 250 ms renders as 250 ms |
| LoadRules.ParquetSignature | src/lib/duckdb.ts:175-183 | a buffer passes exactly when it has at least 8 bytes and starts and ends with "PAR1" |
| LoadRules.ContainsIgnoringCase | src/lib/duckdb.ts:187 | the search succeeds exactly when the pattern occurs at some position, ignoring ASCII case |
| LoadRules.ShouldUseSyntheticFallback | src/lib/duckdb.ts:185-188 | an error falls back exactly when its message (or its string form, for a non-Error) contains "Failed to fetch", "No magic bytes found" or "Invalid parquet payload", ignoring case |
| LoadRules.HttpFailureFallsBack | src/lib/cache.ts:39-41 | the cache's HTTP-error message is classified as a fallback |
| LoadRules.InvalidPayloadFallsBack | src/lib/duckdb.ts:272-274 | the loader's invalid-payload error is classified as a fallback |
| LoadRules.FallbackIgnoresCase | src/lib/duckdb.ts:187 | a thrown string "TypeError: failed to fetch" is classified as a fallback |
| LoadRules.Highest | src/lib/duckdb.ts:238-247 | the largest of the recorded value and the reports, and one of them |
| LoadRules.AccountIsHighest | src/lib/duckdb.ts:238-247 | after any sequence of reports the recorded value is the highest seen and the bytes added total exactly its rise |
| LoadRules.RepeatAddsNothing | src/lib/duckdb.ts:239-243 | a report that does not exceed the recorded value adds nothing and records nothing |
| LoadRules.StreamContribution | src/lib/duckdb.ts:238-247 | the progress of a streamed load adds exactly the body's length to `loadedBytes` |
| LoadRules.AvailableTablesLoadable | src/lib/duckdb.ts:149-156 | every table offered has a file mapping and a synthetic fixture; no listed tables means all mapped tables; every listed mapped table is offered |
| LoadRules.InheritedNameSlipsThrough | src/lib/duckdb.ts:155-262 | "constructor" has no file mapping, yet the lookup as written finds it and offers it when the metadata lists it, while the corrected lookup does not |
| Engine.OutcomeCases | src/lib/duckdb.ts:269-302 | a load ends in real data exactly when a valid buffer arrived and registered; it falls back exactly when the try threw a fallback-class error and the fixture loaded; any other error propagates unchanged |
| Engine.HttpErrorLoadsSynthetic | src/lib/duckdb.ts:287-301 | an HTTP error status leads to the synthetic fixture |
| Engine.BadSignatureLoadsSynthetic | src/lib/duckdb.ts:272-301 | a buffer without the Parquet markers leads to the synthetic fixture |
| Engine.Unloaded | src/lib/duckdb.ts:255-256 | keeps exactly the requested tables that are not loaded |
| Engine.UnloadedKeepsOrder | src/lib/duckdb.ts:255-256 | `filter` keeps order and repeats: the result is the requested list at increasing positions, and every position whose table is not loaded is among them |
| Engine.AnnounceLogLength | src/lib/duckdb.ts:266 | each new load task's "Loading t" update calls every listener once |
| Engine.FirstUnmapped | src/lib/duckdb.ts:261-264 | the position of the first table without a file mapping, every table before it being mapped |
| Engine.WalkEntries | src/lib/duckdb.ts:257-308 | the walk keeps every entry it found and adds one exactly for the tables before the first unmapped one, with fresh identities |
| Engine.WalkAnnounced | src/lib/duckdb.ts:265-306 | exactly the new entries announce themselves, each once, and each takes one identity |
| Engine.WalkFailure | src/lib/duckdb.ts:261-264 | the walk fails exactly when a table is unmapped, naming the first one |
| Engine.WalkTasks | src/lib/duckdb.ts:257-308 | each table walked before the stop is awaited through its entry's task, in order |
| Engine.WalkConsequences | src/lib/duckdb.ts:253-311 | the walk succeeds exactly when every pending table is mapped, awaiting each one's entry; otherwise it names an unmapped one; old entries stay and every new entry announced itself |
| Engine.RequestOutcome | src/lib/duckdb.ts:253-311 | in terms of the tables asked for: success exactly when every unloaded one is mapped, with their tasks in `filter` order; otherwise the error names the first unmapped one in that order and only tables before it got entries |
| Engine.WalkPending | src/lib/duckdb.ts:257-308 | the `map` loop computes exactly the walk, and the store holds and has announced the "Loading t" update of each new task in order |
| Engine.Manager.constructor | src/lib/duckdb.ts:169-174 | no engine, no connection, nothing loaded, nothing in flight, no progress |
| Engine.Manager.InitDuckDB | src/lib/duckdb.ts:208-226 | the first call notifies "Initializing DuckDB-WASM" and then ready with the metadata's total bytes, or error with the thrown message or "DuckDB init failed", every other field kept; every later call returns the same outcome and changes nothing |
| Engine.Manager.GetConnection | src/lib/duckdb.ts:228-236 | one connection is opened after a successful initialisation; a failure of either is final; a call that has to start the engine makes exactly `initDuckDB`'s two updates and notifications (`Connected`, `ConnectLog`), and any other call leaves the engine state, the store state and the log unchanged |
| Engine.Manager.Request | src/lib/duckdb.ts:253-311 | after initialisation the result, the in-flight entries, the store and its notifications are exactly those of the walk over the unloaded tables in `filter` order (each reuses its entry, stops at the first table that is not an own key of `tableFiles`, or starts a task announced as "Loading t"); an init failure fails it with that error and changes nothing more |
| Engine.Manager.Enqueue | src/lib/duckdb.ts:255-308 | the entries, the next identity, the result, the store and its notifications are exactly those of the walk over the pending tables |
| Engine.Manager.BeginFetch | src/lib/duckdb.ts:267-305 | with the connection open the fetch starts; otherwise the load task rejects with the connection's error and its entry is removed; the engine state, the store state, its log and listeners and `nextTask` are unchanged |
| Engine.Manager.ReportProgress | src/lib/duckdb.ts:238-247 | a report above the recorded value records it, adds the difference to `loadedBytes` with every other field kept, and notifies every listener once; any other report changes nothing and notifies nobody |
| Engine.Manager.ClearProgress | src/lib/duckdb.ts:190-198 | the entry goes; when asked and positive it is subtracted from `loadedBytes`, clamped at 0, and listeners are notified; otherwise the store is untouched |
| Engine.Manager.KeepProgress | src/lib/duckdb.ts:277-278 | on success the entry leaves the progress map and its bytes stay counted |
| Engine.Manager.DropProgress | src/lib/duckdb.ts:288-292 | on failure the entry leaves the map and `loadedBytes` drops by exactly that amount |
| Engine.Manager.MarkLoaded | src/lib/duckdb.ts:277-305 | the table joins the loaded list, the store shows it ready with the given message, and its entry goes |
| Engine.Manager.Release | src/lib/duckdb.ts:303-305 | a rejected task's entry goes |
| Engine.Manager.Settle | src/lib/duckdb.ts:269-305 | the load task settles as `Outcome` says; on real data the table is loaded and its bytes stay; on fallback it is loaded as "(synthetic fallback)" and its bytes are taken back; on rejection nothing is loaded and its bytes are taken back; in each case the whole new state and the notifications are given, every other field kept, and the entry always goes |
| Engine.Manager.RunQuery | src/lib/duckdb.ts:322-334 | on the shared connection, a successful query returns its columns and rows with the row count, no scanned-row figure and the heap size, and makes one store update recording time, count and memory, with one round of notifications, after what `getConnection` did; a failure is passed on and leaves the store as `getConnection` left it; listeners, loaded bytes and `nextTask` are kept |
| Engine.OverlappingRequestsShareOneLoad | src/lib/duckdb.ts:258-260 | two overlapping requests for one table share one task |
| Engine.NotFoundLoadsSynthetic | src/lib/duckdb.ts:253-305 | a 404 ends with the table loaded from its fixture, status ready, and no bytes counted |
| Engine.FailedInitIsFinal | src/lib/duckdb.ts:208-254 | after a failed initialisation every request fails with the same error |
| Engine.FirstQueryStartsEngine | src/lib/duckdb.ts:208-236 | the first query on a fresh engine starts it and opens the connection, succeeds when both do and the engine answers, ends ready, and calls each listener three times |
| Validator.FirstUnlisted | scripts/validate_data.py:30-33 | the first required table missing from the metadata, with all before it present; none exactly when all are listed |
| Validator.HasDuplicates | scripts/validate_data.py:47 | true exactly when two positions hold equal values |
| Validator.Parsed | scripts/validate_data.py:57-58 | no timestamp is recovered exactly when every cell fails to parse |
| Validator.Min | scripts/validate_data.py:60 | the smallest parsed timestamp, which is one of them |
| Validator.Max | scripts/validate_data.py:60 | the largest parsed timestamp, which is one of them |
| Validator.FirstDateFailure | scripts/validate_data.py:55-61 | no date failure exactly when every date-like column recovers some timestamp; a failure names the first such column with none, in column order |
| Validator.CouponKeys | scripts/validate_data.py:80-85 | one key pair per redemption row, in row order |
| Validator.StructureFailure | scripts/validate_data.py:24-44 | no structural failure exactly when the metadata exists, lists the three tables, and their files exist with rows |
| Validator.ValueFailure | scripts/validate_data.py:46-87 | no value failure exactly when product ids are unique, every transaction's product id is present and found among the products, every date column parses, week and day are never negative, and every redemption matches a coupon |
| Validator.MissingProductIdUnknown | scripts/validate_data.py:50-53 | a missing transaction product id is never found, even among products that hold a missing id |
| Validator.Validate | scripts/validate_data.py:12-89 | the script passes exactly when the dataset has all of those properties |
| Validator.Report | scripts/validate_data.py:12-14 | passing prints "Data validation passed." with status 0; a failure prints "ERROR: " and its message with status 1 |
| Validator.MissingFileReport | scripts/validate_data.py:17-21 | a missing Parquet file is reported as an error naming its path under the data directory, with status 1 |
| Validator.RangeCheckNeverFires | scripts/validate_data.py:60-61 | the "invalid range" failure can never be reported |
| Validator.MissingEntryIsFirst | scripts/validate_data.py:24-33 | a missing entry is reported only after the metadata was found, for the first unlisted required table |
| Validator.ValueChecksFollowStructure | scripts/validate_data.py:35-87 | value checks fail only on a complete dataset whose three tables have rows |
| Validator.DayCheckedAfterWeek | scripts/validate_data.py:63-69 | negative days are reported only when weeks have none |

## Left out

- The SQL text of the synthetic fixtures and of the CREATE TABLE statement is not modelled. Only which tables have a fixture is kept; running a fixture or registering a buffer is a `Step` oracle.
- Bundle selection, the worker, the logger and `db.instantiate` are one `Step` oracle. `db.connect()` is another.
- The table URL (`BASE_URL`, `VITE_DATASET_PATH`) is not modelled: URLs are parameters.
- `Promise.all` in `ensureTables` is not modelled. Which rejection it reports depends on timing; the model gives each task's settlement separately.
- Async interleaving is reduced to events that the caller orders. The one-microtask window between a task settling and its `finally` removing the entry is not modelled. Neither is a listener that re-enters the loader.
- Engine.Manager.MarkLoaded: removes the in-flight entry before adding the table to the loaded set, the reverse of the source's order. No `await` separates the two, and `ensureTables` filters loaded tables first, so no later request can tell the difference.
- IndexedDB `get`/`set` never fail in the model, and the durable tier's support is fixed when the cache is made.
- Format.DurationRendering: takes a finite duration; NaN and the infinities (which `formatDurationMs` renders as "NaN s", "Infinity s" and "-Infinity ms") are not modelled.
- `formatBytes` and `formatDurationMs` produce a `Rendering` (value, decimals, unit), not text: `toFixed` rounding and string building are not modelled.
- Format.FormatBytes: does not model JavaScript floating point; values are exact reals.
- Engine.Manager.Request: checks a table's mapping as an own key of `tableFiles`, the corrected lookup of the Findings table; the source's plain-object lookup is modelled as written by `LoadRules.FileLookupAsWritten`.
- Engine.Manager.Enqueue: likewise uses the own-key lookup of the Findings table.
- Engine.TryError: builds the payload error from the own-key mapping of the Findings table.
- `getAvailableTables` is modelled as a set; the array order of `Object.keys` is not kept.
- Query results are opaque: the cell values, `toArray` and the schema are given by the oracle. `performance.now` and `performance.memory` are parameters.
- The React hook `useDbState` is not modelled; listeners are identities, and the log records what each was called with.
- Validator: reading Parquet and JSON files, and their read errors, are not modelled. The dataset is given as frames and a metadata key set; a `tables` entry that is not an object is not modelled.
- Validator.ValueFailure: comparing a text column with 0 raises an error in pandas; the model treats text cells as not negative. Missing values are equal to each other in the duplicate check and the coupon join, as pandas' `duplicated` and `merge` treat NaN; in the product check's set difference a missing id (a float NaN) never matches, so it is always reported (`Validator.Known`). A `None` in an object column, which a Python set does match, and a float NaN that is not missing data are not modelled.
- `pd.to_datetime(..., errors='coerce')` is a per-cell oracle.

## Findings

| source | as written | input that shows it | evidently intended | confidence | as-written member | corrected member |
|---|---|---|---|---|---|---|
| src/lib/duckdb.ts:155-262 | `tableFiles[table]` is read from a plain object, so names inherited from `Object.prototype` (`constructor`, `toString`, `hasOwnProperty`, ...) are truthy and pass as mapped | metadata listing a table named "constructor": `getAvailableTables` offers it, and `ensureTables(["constructor"])` skips the "Missing file mapping" error and starts a load of a URL built from a function | only the seven own keys of `tableFiles` are mapped | not executed | LoadRules.InheritedNameSlipsThrough | LoadRules.AvailableTablesLoadable |
