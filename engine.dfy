/**
 * The table-load manager of src/lib/duckdb.ts, as a sequential state machine.
 *
 * The module-level bookkeeping (`dbPromise`, `connPromise`, `loadedTables`,
 * `loadPromises`, `progressByTable`) becomes the fields of `Manager`; the
 * session store holds `loadedBytes`. Each load task is flattened into the
 * events at which its code resumes: `Request` (the synchronous part of
 * `ensureTables`), `BeginFetch` (after `getConnection`), `ReportProgress`
 * (the fetch callback) and `Settle` (the rest of the load task's body, its `catch`
 * and its `finally`). DuckDB and the network are oracles: a one-shot call's
 * outcome is fixed when the manager is made, a load's outcomes are passed to
 * `Settle`.
 */
module Engine {
  import opened Wrappers
  import opened LoadRules
  import ByteCache
  import SessionState
  import Metadata

  /** What a foreign call did: finished, or threw. */
  datatype Step = Done | Threw(error: Thrown)

  /** `dbPromise`: not created yet, resolved, or rejected for good. */
  datatype InitState = NotStarted | Initialized | InitFailed(error: Thrown)

  /** `connPromise`: not created yet, resolved, or rejected for good. */
  datatype ConnState = NotOpened | Opened | ConnFailed(error: Thrown)

  /** How a load task's promise settles. */
  datatype Settlement = Loaded | LoadedSynthetic | Rejected(error: Thrown)

  /**
   * The outcomes of the foreign calls of one load once its connection is open:
   * the fetch, `registerFileBuffer` with the CREATE TABLE query, and the
   * synthetic fixture's query.
   */
  datatype LoadOracle = LoadOracle(fetched: Result<ByteCache.Bytes, Thrown>, register: Step, synthetic: Step)

  /** The status message after a failed initialisation: `error.message ?? 'DuckDB init failed'`. */
  function InitFailureMessage(e: Thrown): string {
    match e
    case ErrorObject(m) => m
    case OtherValue(_) => "DuckDB init failed"
  }

  /** The error the `try` block of a load throws, if any. */
  function TryError(table: string, oracle: LoadOracle): Option<Thrown>
    requires table in TableFiles
  {
    match oracle.fetched
    case Failure(e) => Some(e)
    case Success(buffer) =>
      if !IsParquetBuffer(buffer) then Some(ErrorObject("Invalid parquet payload for " + TableFiles[table]))
      else if oracle.register.Threw? then Some(oracle.register.error)
      else None
  }

  /** How a load settles: the `try` block, then the `catch` block when the `try` threw. */
  function Outcome(table: string, oracle: LoadOracle): Settlement
    requires table in TableFiles
  {
    match TryError(table, oracle)
    case None => Loaded
    case Some(e) =>
      if !ShouldUseSyntheticFallback(e) then Rejected(e)
      else if table !in SyntheticTables then Rejected(ErrorObject("No synthetic dataset available for " + table))
      else if oracle.synthetic.Threw? then Rejected(oracle.synthetic.error)
      else LoadedSynthetic
  }

  /**
   * A load ends in real data exactly when a valid Parquet buffer arrived and
   * registered; it falls back exactly when the `try` threw a fallback-class
   * error and the fixture loaded; any other error is passed on unchanged.
   */
  lemma OutcomeCases(table: string, oracle: LoadOracle)
    requires table in TableFiles
    ensures Outcome(table, oracle) == Loaded <==>
      oracle.fetched.Success? && IsParquetBuffer(oracle.fetched.value) && oracle.register.Done?
    ensures Outcome(table, oracle) == LoadedSynthetic <==>
      TryError(table, oracle).Some? && ShouldUseSyntheticFallback(TryError(table, oracle).value) && oracle.synthetic.Done?
    ensures TryError(table, oracle).Some? && !ShouldUseSyntheticFallback(TryError(table, oracle).value) ==>
      Outcome(table, oracle) == Rejected(TryError(table, oracle).value)
  {
  }

  /** An HTTP error status (a 404, say) falls back to the synthetic fixture. */
  lemma HttpErrorLoadsSynthetic(table: string, url: string, statusText: string, register: Step)
    requires table in TableFiles
    ensures Outcome(table, LoadOracle(Failure(ErrorObject("Failed to fetch " + url + ": " + statusText)), register, Done)) == LoadedSynthetic
  {
    HttpFailureFallsBack(url, statusText);
  }

  /** A buffer without the "PAR1" markers falls back to the synthetic fixture. */
  lemma BadSignatureLoadsSynthetic(table: string, buffer: ByteCache.Bytes, register: Step)
    requires table in TableFiles && !IsParquetBuffer(buffer)
    ensures Outcome(table, LoadOracle(Success(buffer), register, Done)) == LoadedSynthetic
  {
    InvalidPayloadFallsBack(TableFiles[table]);
  }

  /** `tables.filter((table) => !loadedTables.has(table))`. */
  function Unloaded(tables: seq<string>, loaded: seq<string>): (r: seq<string>)
    ensures forall t :: t in r <==> t in tables && t !in loaded
    ensures |r| <= |tables|
  {
    if tables == [] then []
    else (if tables[0] in loaded then [] else [tables[0]]) + Unloaded(tables[1..], loaded)
  }

  /** `idx` picks `kept` out of `tables`, in increasing order, and misses none of the positions `loaded` lets through. */
  ghost predicate PicksOut<T>(idx: seq<nat>, kept: seq<T>, tables: seq<T>, loaded: seq<T>) {
    |idx| == |kept| &&
    (forall k :: 0 <= k < |idx| ==> idx[k] < |tables| && kept[k] == tables[idx[k]]) &&
    (forall k, l :: 0 <= k < l < |idx| ==> idx[k] < idx[l]) &&
    (forall j :: 0 <= j < |tables| && tables[j] !in loaded ==> j in idx)
  }

  /** The positions of `tables[1..]` as positions of `tables`, behind position 0 when the head is kept. */
  function Shifted(keepHead: bool, rest: seq<nat>): seq<nat> {
    (if keepHead then [0] else []) + seq(|rest|, k requires 0 <= k < |rest| => rest[k] + 1)
  }

  lemma ShiftedElements<T>(tables: seq<T>, keepHead: bool, tail: seq<T>, rest: seq<nat>)
    requires tables != [] && |rest| == |tail|
    requires forall k :: 0 <= k < |rest| ==> rest[k] < |tables[1..]| && tail[k] == tables[1..][rest[k]]
    ensures var idx := Shifted(keepHead, rest); var kept := (if keepHead then [tables[0]] else []) + tail;
      |idx| == |kept| && forall k :: 0 <= k < |idx| ==> idx[k] < |tables| && kept[k] == tables[idx[k]]
  {
    var idx := Shifted(keepHead, rest);
    var kept := (if keepHead then [tables[0]] else []) + tail;
    var h := if keepHead then 1 else 0;
    forall k | h <= k < |idx|
      ensures idx[k] < |tables| && kept[k] == tables[idx[k]]
    {
      assert idx[k] == rest[k - h] + 1 && kept[k] == tail[k - h];
      assert tables[1..][rest[k - h]] == tables[rest[k - h] + 1];
    }
  }

  lemma ShiftedIncreasing(keepHead: bool, rest: seq<nat>)
    requires forall k, l :: 0 <= k < l < |rest| ==> rest[k] < rest[l]
    ensures var idx := Shifted(keepHead, rest); forall k, l :: 0 <= k < l < |idx| ==> idx[k] < idx[l]
  {
    var idx := Shifted(keepHead, rest);
    var h := if keepHead then 1 else 0;
    forall k, l | 0 <= k < l < |idx|
      ensures idx[k] < idx[l]
    {
      assert idx[l] == rest[l - h] + 1;
      if k >= h {
        assert idx[k] == rest[k - h] + 1;
      }
    }
  }

  lemma ShiftedCovers<T>(tables: seq<T>, loaded: seq<T>, rest: seq<nat>)
    requires tables != []
    requires forall j :: 0 <= j < |tables[1..]| && tables[1..][j] !in loaded ==> j in rest
    ensures var idx := Shifted(tables[0] !in loaded, rest);
      forall j :: 0 <= j < |tables| && tables[j] !in loaded ==> j in idx
  {
    var keepHead := tables[0] !in loaded;
    var idx := Shifted(keepHead, rest);
    var h := if keepHead then 1 else 0;
    forall j | 0 <= j < |tables| && tables[j] !in loaded
      ensures j in idx
    {
      if j == 0 {
        assert idx[0] == 0;
      } else {
        assert tables[1..][j - 1] == tables[j];
        var k :| 0 <= k < |rest| && rest[k] == j - 1;
        assert idx[h + k] == j;
      }
    }
  }

  /** Dropping or keeping the head of `tables` shifts the positions picked from its tail by one. */
  lemma ShiftPicks<T>(tables: seq<T>, loaded: seq<T>, tail: seq<T>, rest: seq<nat>) returns (idx: seq<nat>)
    requires tables != [] && PicksOut(rest, tail, tables[1..], loaded)
    ensures PicksOut(idx, (if tables[0] in loaded then [] else [tables[0]]) + tail, tables, loaded)
  {
    idx := Shifted(tables[0] !in loaded, rest);
    ShiftedElements(tables, tables[0] !in loaded, tail, rest);
    ShiftedIncreasing(tables[0] !in loaded, rest);
    ShiftedCovers(tables, loaded, rest);
  }



  /**
   * The order `filter` keeps: `Unloaded(tables, loaded)` is `tables` with
   * exactly the loaded entries taken out, repeats included and order kept.
   */
  lemma {:induction false} UnloadedKeepsOrder(tables: seq<string>, loaded: seq<string>) returns (idx: seq<nat>)
    ensures PicksOut(idx, Unloaded(tables, loaded), tables, loaded)
    decreases |tables|
  {
    if tables == [] {
      return [];
    }
    var rest := UnloadedKeepsOrder(tables[1..], loaded);
    idx := ShiftPicks(tables, loaded, Unloaded(tables[1..], loaded), rest);
  }

  /** The update `initDuckDB` makes before it suspends. */
  const Initializing := SessionState.Empty.(status := Some(SessionState.Loading), message := Some("Initializing DuckDB-WASM"))

  /** The update that records how initialisation ended; `totalBytes` is the metadata's total. */
  function InitPatch(instantiate: Step, totalBytes: int): SessionState.Patch {
    match instantiate
    case Done => SessionState.Empty.(status := Some(SessionState.Ready), message := Some("DuckDB ready"), totalBytes := Some(totalBytes))
    case Threw(e) => SessionState.Empty.(status := Some(SessionState.Error), message := Some(InitFailureMessage(e)))
  }

  /** The state after the first `initDuckDB` from `s`. */
  function AfterInit(s: SessionState.DbState, instantiate: Step, totalBytes: int): SessionState.DbState {
    SessionState.Merge(SessionState.Merge(s, Initializing), InitPatch(instantiate, totalBytes))
  }

  /** The listener calls the first `initDuckDB` makes: the announcement, then the outcome. */
  function InitLog(listeners: seq<SessionState.Listener>, s: SessionState.DbState, instantiate: Step, totalBytes: int)
    : seq<SessionState.Notification>
  {
    SessionState.Notifications(listeners, SessionState.Merge(s, Initializing)) +
    SessionState.Notifications(listeners, AfterInit(s, instantiate, totalBytes))
  }

  /**
   * The state after `getConnection` from `s`: only a call that has to start
   * the engine (`starts`) changes it, by initialising.
   */
  function Connected(starts: bool, s: SessionState.DbState, instantiate: Step, totalBytes: int): SessionState.DbState {
    if starts then AfterInit(s, instantiate, totalBytes) else s
  }

  /** The log after `getConnection`: the initialisation's two rounds when it `starts` the engine. */
  function ConnectLog(starts: bool, listeners: seq<SessionState.Listener>, s: SessionState.DbState,
                      log: seq<SessionState.Notification>, instantiate: Step, totalBytes: int): seq<SessionState.Notification>
  {
    if starts then log + InitLog(listeners, s, instantiate, totalBytes) else log
  }

  /** The update `runQuery` makes after a successful query. */
  function QueryPatch(elapsedMs: real, rowCount: nat, heapBytes: Option<int>): SessionState.Patch {
    SessionState.Empty.(lastQueryMs := Some(elapsedMs), lastRowCount := Some(rowCount), memoryBytes := Some(heapBytes))
  }

  /** The update a new load task makes before it first suspends. */
  function LoadingPatch(table: string): SessionState.Patch {
    SessionState.Empty.(status := Some(SessionState.Loading), message := Some("Loading " + table))
  }

  /** The state after a run of new load tasks announced themselves, in order, from `s`. */
  function Announced(s: SessionState.DbState, announced: seq<string>): SessionState.DbState {
    if announced == [] then s else SessionState.Merge(s, LoadingPatch(announced[|announced| - 1]))
  }

  /** The listener calls those announcements make: one round per table, each seeing that table's update. */
  function AnnounceLog(listeners: seq<SessionState.Listener>, s: SessionState.DbState, announced: seq<string>)
    : seq<SessionState.Notification>
  {
    if announced == [] then []
    else AnnounceLog(listeners, s, announced[..|announced| - 1]) + SessionState.Notifications(listeners, Announced(s, announced))
  }

  /** One more announcement moves the state on by its update and adds one round of calls seeing it. */
  lemma AnnounceStep(listeners: seq<SessionState.Listener>, s: SessionState.DbState, announced: seq<string>, table: string)
    ensures Announced(s, announced + [table]) == SessionState.Merge(Announced(s, announced), LoadingPatch(table))
    ensures AnnounceLog(listeners, s, announced + [table]) ==
      AnnounceLog(listeners, s, announced) + SessionState.Notifications(listeners, Announced(s, announced + [table]))
  {
    assert (announced + [table])[..|announced|] == announced;
  }

  /** Every announcement is one full round of listener calls. */
  lemma {:induction false} AnnounceLogLength(listeners: seq<SessionState.Listener>, s: SessionState.DbState, announced: seq<string>)
    ensures |AnnounceLog(listeners, s, announced)| == |announced| * |listeners|
    decreases |announced|
  {
    if announced != [] {
      AnnounceLogLength(listeners, s, announced[..|announced| - 1]);
    }
  }

  /**
   * What the synchronous walk of `ensureTables` leaves behind: the in-flight
   * entries and the next task identity, the promise awaited for each table
   * walked, the unmapped table that stopped it, and the tables whose new task
   * announced itself, in order.
   */
  datatype Walk = Walk(entries: map<string, nat>, next: nat, tasks: seq<nat>, failed: Option<string>, announced: seq<string>)

  /** The `map` callback over `pending`: reuse an entry, throw on an unmapped table, or start a task. */
  function WalkFrom(pending: seq<string>, mapped: set<string>, entries: map<string, nat>, next: nat): Walk
    decreases |pending|
  {
    if pending == [] then Walk(entries, next, [], None, [])
    else
      var t := pending[0];
      if t in entries then
        var w := WalkFrom(pending[1..], mapped, entries, next);
        w.(tasks := [entries[t]] + w.tasks)
      else if t !in mapped then Walk(entries, next, [], Some(t), [])
      else
        var w := WalkFrom(pending[1..], mapped, entries[t := next], next + 1);
        w.(tasks := [next] + w.tasks, announced := [t] + w.announced)
  }

  /** `w` resumed after a walked prefix that awaited `tasks` and announced `announced`. */
  function Resumed(tasks: seq<nat>, announced: seq<string>, w: Walk): Walk {
    w.(tasks := tasks + w.tasks, announced := announced + w.announced)
  }

  /** The walk ends where the tables do. */
  lemma WalkEnd(mapped: set<string>, entries: map<string, nat>, next: nat, tasks: seq<nat>, announced: seq<string>)
    ensures Resumed(tasks, announced, WalkFrom([], mapped, entries, next)) == Walk(entries, next, tasks, None, announced)
  {
    assert tasks + [] == tasks && announced + [] == announced;
  }

  /** A table with an entry is awaited through it. */
  lemma WalkReuse(pending: seq<string>, k: nat, mapped: set<string>, entries: map<string, nat>, next: nat,
                  tasks: seq<nat>, announced: seq<string>)
    requires k < |pending| && pending[k] in entries
    ensures Resumed(tasks, announced, WalkFrom(pending[k..], mapped, entries, next)) ==
      Resumed(tasks + [entries[pending[k]]], announced, WalkFrom(pending[k + 1..], mapped, entries, next))
  {
    assert pending[k..][0] == pending[k] && pending[k..][1..] == pending[k + 1..];
    var w := WalkFrom(pending[k + 1..], mapped, entries, next);
    assert tasks + ([entries[pending[k]]] + w.tasks) == tasks + [entries[pending[k]]] + w.tasks;
  }

  /** A table without an entry or a mapping stops the walk. */
  lemma WalkStop(pending: seq<string>, k: nat, mapped: set<string>, entries: map<string, nat>, next: nat,
                 tasks: seq<nat>, announced: seq<string>)
    requires k < |pending| && pending[k] !in entries && pending[k] !in mapped
    ensures Resumed(tasks, announced, WalkFrom(pending[k..], mapped, entries, next)) ==
      Walk(entries, next, tasks, Some(pending[k]), announced)
  {
    assert pending[k..][0] == pending[k];
    assert tasks + [] == tasks && announced + [] == announced;
  }

  /** A mapped table without an entry gets the next identity and announces itself. */
  lemma WalkStart(pending: seq<string>, k: nat, mapped: set<string>, entries: map<string, nat>, next: nat,
                  tasks: seq<nat>, announced: seq<string>)
    requires k < |pending| && pending[k] !in entries && pending[k] in mapped
    ensures Resumed(tasks, announced, WalkFrom(pending[k..], mapped, entries, next)) ==
      Resumed(tasks + [next], announced + [pending[k]], WalkFrom(pending[k + 1..], mapped, entries[pending[k] := next], next + 1))
  {
    var t := pending[k];
    assert pending[k..][0] == t && pending[k..][1..] == pending[k + 1..];
    var w := WalkFrom(pending[k + 1..], mapped, entries[t := next], next + 1);
    assert tasks + ([next] + w.tasks) == tasks + [next] + w.tasks;
    assert announced + ([t] + w.announced) == announced + [t] + w.announced;
  }


  /** The value `ensureTables` settles with after the walk, before awaiting the load promises. */
  function WalkResult(w: Walk): Result<seq<nat>, Thrown> {
    if w.failed.Some? then Failure(ErrorObject("Missing file mapping for table " + w.failed.value)) else Success(w.tasks)
  }

  /** The position of the first table without a file mapping, or the length when every table has one. */
  function FirstUnmapped(pending: seq<string>, mapped: set<string>): (r: nat)
    ensures r <= |pending|
    ensures r < |pending| ==> pending[r] !in mapped
    ensures forall j :: 0 <= j < r ==> pending[j] in mapped
  {
    if pending == [] || pending[0] !in mapped then 0 else 1 + FirstUnmapped(pending[1..], mapped)
  }

  /** The entries every walked table reads from: the ones before the walk. */
  predicate EntriesMapped(entries: map<string, nat>, mapped: set<string>, next: nat) {
    forall t :: t in entries ==> t in mapped && entries[t] < next
  }

  /**
   * The walk keeps every entry it found, adds one for each mapped table it
   * reaches before the first unmapped one, and none for a table after it;
   * the new entries get fresh identities.
   */
  lemma {:induction false} WalkEntries(pending: seq<string>, mapped: set<string>, entries: map<string, nat>, next: nat)
    requires EntriesMapped(entries, mapped, next)
    ensures var w := WalkFrom(pending, mapped, entries, next);
      (forall t :: t in w.entries <==> t in entries || t in pending[..FirstUnmapped(pending, mapped)]) &&
      (forall t :: t in entries ==> w.entries[t] == entries[t]) &&
      next <= w.next && EntriesMapped(w.entries, mapped, w.next) &&
      (forall t :: t in w.entries && t !in entries ==> w.entries[t] >= next)
    decreases |pending|
  {
    if pending != [] {
      var t := pending[0];
      var stop := FirstUnmapped(pending, mapped);
      if t in entries {
        WalkEntries(pending[1..], mapped, entries, next);
        assert pending[..stop] == [t] + pending[1..][..stop - 1];
      } else if t in mapped {
        WalkEntries(pending[1..], mapped, entries[t := next], next + 1);
        assert pending[..stop] == [t] + pending[1..][..stop - 1];
      } else {
        assert stop == 0;
      }
    }
  }

  /** Exactly the new entries announce themselves, each once, and each takes one identity. */
  lemma {:induction false} WalkAnnounced(pending: seq<string>, mapped: set<string>, entries: map<string, nat>, next: nat)
    requires EntriesMapped(entries, mapped, next)
    ensures var w := WalkFrom(pending, mapped, entries, next);
      (forall t :: t in w.announced <==> t in w.entries && t !in entries) &&
      SessionState.NoDuplicates(w.announced) &&
      w.next == next + |w.announced|
    decreases |pending|
  {
    if pending != [] {
      var t := pending[0];
      if t in entries {
        WalkAnnounced(pending[1..], mapped, entries, next);
      } else if t in mapped {
        var e := entries[t := next];
        WalkAnnounced(pending[1..], mapped, e, next + 1);
        WalkEntries(pending[1..], mapped, e, next + 1);
        var w := WalkFrom(pending[1..], mapped, e, next + 1);
        assert t !in w.announced;
        assert ([t] + w.announced)[1..] == w.announced;
      }
    }
  }

  /** The walk fails exactly when some table is unmapped, and then names the first one. */
  lemma {:induction false} WalkFailure(pending: seq<string>, mapped: set<string>, entries: map<string, nat>, next: nat)
    requires EntriesMapped(entries, mapped, next)
    ensures WalkFrom(pending, mapped, entries, next).failed ==
      if FirstUnmapped(pending, mapped) < |pending| then Some(pending[FirstUnmapped(pending, mapped)]) else None
    decreases |pending|
  {
    if pending != [] {
      var t := pending[0];
      if t in entries {
        WalkFailure(pending[1..], mapped, entries, next);
      } else if t in mapped {
        WalkFailure(pending[1..], mapped, entries[t := next], next + 1);
      }
    }
  }

  /** Each table walked before the stop is awaited through its entry's task, in order. */
  lemma {:induction false} WalkTasks(pending: seq<string>, mapped: set<string>, entries: map<string, nat>, next: nat)
    requires EntriesMapped(entries, mapped, next)
    ensures var w := WalkFrom(pending, mapped, entries, next);
      |w.tasks| == FirstUnmapped(pending, mapped) &&
      forall k :: 0 <= k < |w.tasks| ==> pending[k] in w.entries && w.tasks[k] == w.entries[pending[k]]
    decreases |pending|
  {
    if pending != [] {
      var t := pending[0];
      var e := if t in entries then entries else entries[t := next];
      var n := if t in entries then next else next + 1;
      if t in mapped || t in entries {
        WalkTasks(pending[1..], mapped, e, n);
        WalkEntries(pending[1..], mapped, e, n);
        var w := WalkFrom(pending[1..], mapped, e, n);
        forall k | 1 <= k < 1 + |w.tasks|
          ensures pending[k] in w.entries && ([e[t]] + w.tasks)[k] == w.entries[pending[k]]
        {
          assert pending[1..][k - 1] == pending[k];
        }
      }
    }
  }

  /**
   * What the walk means for `ensureTables`' caller: old entries stay, new ones
   * are for requested mapped tables, it succeeds exactly when every pending
   * table is mapped, awaiting each one's entry, and otherwise names an
   * unmapped one; a new entry always announced itself.
   */
  lemma WalkConsequences(pending: seq<string>, mapped: set<string>, entries: map<string, nat>, next: nat)
    requires EntriesMapped(entries, mapped, next)
    ensures var w := WalkFrom(pending, mapped, entries, next); var r := WalkResult(w);
      (forall t :: t in entries ==> t in w.entries && w.entries[t] == entries[t]) &&
      (forall t :: t in w.entries && t !in entries ==> t in pending && t in mapped && w.entries[t] >= next) &&
      (r.Success? <==> forall t :: t in pending ==> t in mapped) &&
      (r.Success? ==> (|r.value| == |pending| &&
        forall k :: 0 <= k < |pending| ==> pending[k] in w.entries && r.value[k] == w.entries[pending[k]])) &&
      (r.Failure? ==> exists t :: t in pending && t !in mapped && r.error == ErrorObject("Missing file mapping for table " + t)) &&
      (w.entries.Keys != entries.Keys ==> w.announced != [])
  {
    var w := WalkFrom(pending, mapped, entries, next);
    var stop := FirstUnmapped(pending, mapped);
    WalkEntries(pending, mapped, entries, next);
    WalkAnnounced(pending, mapped, entries, next);
    WalkFailure(pending, mapped, entries, next);
    WalkTasks(pending, mapped, entries, next);
    if w.entries.Keys != entries.Keys {
      var t :| t in w.entries.Keys && t !in entries.Keys;
      assert t in w.announced;
    }
    if stop == |pending| {
      assert pending[..stop] == pending;
    }
  }

  /**
   * What `ensureTables` settles with, in terms of the tables asked for: it
   * succeeds exactly when every table that is not loaded is mapped, awaiting
   * each one's task in `filter` order; otherwise it names the first unmapped
   * one in that order, and only the tables before it got new entries.
   */
  lemma RequestOutcome(tables: seq<string>, loaded: seq<string>, mapped: set<string>, entries: map<string, nat>, next: nat)
    requires EntriesMapped(entries, mapped, next)
    ensures var pending := Unloaded(tables, loaded);
      var w := WalkFrom(pending, mapped, entries, next); var r := WalkResult(w);
      (r.Success? <==> forall t :: t in tables && t !in loaded ==> t in mapped) &&
      (r.Success? ==> (|r.value| == |pending| &&
        forall k :: 0 <= k < |pending| ==> pending[k] in w.entries && r.value[k] == w.entries[pending[k]]))
    ensures var pending := Unloaded(tables, loaded); var stop := FirstUnmapped(pending, mapped);
      var w := WalkFrom(pending, mapped, entries, next); var r := WalkResult(w);
      r.Failure? ==>
        stop < |pending| && pending[stop] in tables && pending[stop] !in loaded &&
        r.error == ErrorObject("Missing file mapping for table " + pending[stop]) &&
        forall t :: t in w.entries && t !in entries ==> t in pending[..stop]
    ensures var w := WalkFrom(Unloaded(tables, loaded), mapped, entries, next);
      (forall t :: t in entries ==> t in w.entries && w.entries[t] == entries[t]) &&
      (forall t :: t in w.entries && t !in entries ==> t in tables && t !in loaded && t in mapped && w.entries[t] >= next) &&
      (w.entries.Keys != entries.Keys ==> w.announced != [])
  {
    var pending := Unloaded(tables, loaded);
    WalkConsequences(pending, mapped, entries, next);
    WalkEntries(pending, mapped, entries, next);
    WalkFailure(pending, mapped, entries, next);
  }

  /**
   * The loop of the walk: each pending table reuses its entry, stops the
   * walk when it has no mapping, or gets a new entry and announces itself
   * in the store.
   */
  method WalkPending(store: SessionState.Store, pending: seq<string>, mapped: set<string>, entries: map<string, nat>, next: nat)
    returns (w: Walk)
    requires store.Valid()
    modifies store
    ensures w == WalkFrom(pending, mapped, entries, next)
    ensures store.Valid() && store.listeners == old(store.listeners)
    ensures store.state == Announced(old(store.state), w.announced)
    ensures store.log == old(store.log) + AnnounceLog(store.listeners, old(store.state), w.announced)
  {
    ghost var walk := WalkFrom(pending, mapped, entries, next);
    ghost var s0, log0, listeners := store.state, store.log, store.listeners;
    var current, identity := entries, next;
    var tasks: seq<nat> := [];
    var announced: seq<string> := [];
    var k := 0;
    assert pending[0..] == pending;
    while k < |pending|
      invariant 0 <= k <= |pending|
      invariant store.Valid() && store.listeners == listeners
      invariant walk == Resumed(tasks, announced, WalkFrom(pending[k..], mapped, current, identity))
      invariant store.state == Announced(s0, announced)
      invariant store.log == log0 + AnnounceLog(listeners, s0, announced)
    {
      var t := pending[k];
      if t in current {
        WalkReuse(pending, k, mapped, current, identity, tasks, announced);
        tasks := tasks + [current[t]];
      } else if t !in mapped {
        WalkStop(pending, k, mapped, current, identity, tasks, announced);
        return Walk(current, identity, tasks, Some(t), announced);
      } else {
        WalkStart(pending, k, mapped, current, identity, tasks, announced);
        AnnounceStep(listeners, s0, announced, t);
        store.Set(LoadingPatch(t));
        tasks := tasks + [identity];
        current := current[t := identity];
        identity := identity + 1;
        announced := announced + [t];
      }
      k := k + 1;
    }
    assert pending[k..] == [];
    WalkEnd(mapped, current, identity, tasks, announced);
    w := Walk(current, identity, tasks, None, announced);
  }

  // The sum of the recorded progress.

  ghost function SumOver(m: map<string, nat>, keys: set<string>): nat
    requires keys <= m.Keys
    decreases keys
  {
    if keys == {} then 0 else var k :| k in keys; m[k] + SumOver(m, keys - {k})
  }

  ghost function Sum(m: map<string, nat>): nat {
    SumOver(m, m.Keys)
  }

  lemma {:induction false} SumOverRemove(m: map<string, nat>, keys: set<string>, k: string)
    requires keys <= m.Keys && k in keys
    ensures SumOver(m, keys) == m[k] + SumOver(m, keys - {k})
    decreases keys
  {
    var j :| j in keys && SumOver(m, keys) == m[j] + SumOver(m, keys - {j});
    if j != k {
      SumOverRemove(m, keys - {j}, k);
      SumOverRemove(m, keys - {k}, j);
      assert keys - {j} - {k} == keys - {k} - {j};
    }
  }

  lemma {:induction false} SumOverAgree(m1: map<string, nat>, m2: map<string, nat>, keys: set<string>)
    requires keys <= m1.Keys && keys <= m2.Keys
    requires forall k :: k in keys ==> m1[k] == m2[k]
    ensures SumOver(m1, keys) == SumOver(m2, keys)
    decreases keys
  {
    if keys != {} {
      var k :| k in keys;
      SumOverRemove(m1, keys, k);
      SumOverRemove(m2, keys, k);
      SumOverAgree(m1, m2, keys - {k});
    }
  }

  /** Dropping a table's entry lowers the sum by exactly that entry. */
  lemma SumWithout(m: map<string, nat>, k: string)
    ensures Sum(m) == (if k in m then m[k] else 0) + Sum(m - {k})
  {
    if k in m {
      SumOverRemove(m, m.Keys, k);
      assert (m - {k}).Keys == m.Keys - {k};
      SumOverAgree(m, m - {k}, m.Keys - {k});
    } else {
      assert m - {k} == m;
    }
  }

  /** Setting a table's entry replaces its share of the sum. */
  lemma SumWith(m: map<string, nat>, k: string, v: nat)
    ensures Sum(m[k := v]) == v + Sum(m - {k})
  {
    SumWithout(m[k := v], k);
    assert m[k := v] - {k} == m - {k};
  }

  /** One table's recorded progress never exceeds the whole sum. */
  lemma EntryBelowSum(m: map<string, nat>, k: string)
    requires k in m
    ensures m[k] <= Sum(m)
  {
    SumWithout(m, k);
  }

  /** The cell values a query returns; their meaning is the engine's. */
  datatype Value = Int(i: int) | Decimal(r: real) | Text(s: string) | Null

  /** A result row: column name to value. */
  type Row = map<string, Value>

  /** What `conn.query(sql)` returns: the schema's column names and `toArray()`'s rows. */
  datatype QueryData = QueryData(columns: seq<string>, rows: seq<Row>)

  /** `QueryResult`. */
  datatype QueryResult = QueryResult(
    columns: seq<string>,
    rows: seq<Row>,
    elapsedMs: real,
    rowCount: nat,
    scannedRows: Option<int>,
    memoryBytes: Option<int>)

  /** The module-level state of src/lib/duckdb.ts. */
  class Manager {
    const store: SessionState.Store
    const meta: Metadata.Loader
    /** What selecting the bundle, starting the worker and `instantiate` did. */
    const instantiate: Step
    /** What `db.connect()` did. */
    const connect: Step

    var init: InitState
    var conn: ConnState
    /** The `loadedTables` set, in insertion order. */
    var loadedTables: seq<string>
    /** `loadPromises`: the in-flight task of each table, by promise identity. */
    var loadPromises: map<string, nat>
    var progressByTable: map<string, nat>
    /** The identity the next new promise gets. */
    var nextTask: nat
    /** The in-flight tables whose task got its connection and is fetching. */
    ghost var fetching: set<string>
    /** The bytes kept in `loadedBytes` for tables that loaded from their file. */
    ghost var committed: nat

    ghost predicate Valid()
      reads this, store, meta
    {
      store.Valid() && meta.Valid() &&
      SessionState.NoDuplicates(loadedTables) &&
      store.state.loadedTables == loadedTables &&
      (forall t :: t in loadPromises ==> t !in loadedTables && t in TableFiles && loadPromises[t] < nextTask) &&
      fetching <= loadPromises.Keys &&
      progressByTable.Keys <= fetching &&
      (forall t :: t in progressByTable ==> progressByTable[t] > 0) &&
      store.state.loadedBytes == committed + Sum(progressByTable) &&
      (loadPromises != map[] ==> init.Initialized?) &&
      (fetching != {} ==> conn.Opened?) &&
      (conn.Opened? ==> init.Initialized?)
    }

    constructor (store: SessionState.Store, meta: Metadata.Loader, instantiate: Step, connect: Step)
      requires store.Valid() && meta.Valid()
      requires store.state.loadedBytes == 0 && store.state.loadedTables == []
      ensures Valid()
      ensures this.store == store && this.meta == meta
      ensures this.instantiate == instantiate && this.connect == connect
      ensures init == NotStarted && conn == NotOpened
      ensures loadedTables == [] && loadPromises == map[] && progressByTable == map[]
    {
      this.store := store;
      this.meta := meta;
      this.instantiate := instantiate;
      this.connect := connect;
      init := NotStarted;
      conn := NotOpened;
      loadedTables := [];
      loadPromises := map[];
      progressByTable := map[];
      nextTask := 0;
      fetching := {};
      committed := 0;
    }

    /**
     * `initDuckDB`: the first call initialises and records the outcome; every
     * later call returns that outcome and changes nothing, a failure included.
     */
    method InitDuckDB() returns (r: Result<(), Thrown>)
      requires Valid()
      modifies this`init, store, meta
      ensures Valid()
      ensures old(init).NotStarted? ==> init == (if instantiate.Done? then Initialized else InitFailed(instantiate.error))
      ensures !old(init).NotStarted? ==> init == old(init) && store.state == old(store.state) && store.log == old(store.log)
      ensures r == if init.Initialized? then Success(()) else Failure(init.error)
      ensures old(init).NotStarted? ==>
        var total := Metadata.Settled(meta.parsed, meta.now).totalBytes;
        store.state == AfterInit(old(store.state), instantiate, total) &&
        store.log == old(store.log) + InitLog(store.listeners, old(store.state), instantiate, total)
      ensures old(init).NotStarted? && init.Initialized? ==>
        store.state.status == SessionState.Ready && store.state.message == Some("DuckDB ready") &&
        store.state.totalBytes == Metadata.Settled(meta.parsed, meta.now).totalBytes
      ensures old(init).NotStarted? && init.InitFailed? ==>
        store.state.status == SessionState.Error && store.state.message == Some(InitFailureMessage(init.error))
      ensures store.state.loadedBytes == old(store.state.loadedBytes)
      ensures store.listeners == old(store.listeners)
    {
      if init.NotStarted? {
        store.Set(Initializing);
        var total := 0;
        if instantiate.Threw? {
          init := InitFailed(instantiate.error);
        } else {
          var m := meta.GetMetadata();
          total := m.totalBytes;
          init := Initialized;
        }
        store.Set(InitPatch(instantiate, total));
      }
      r := if init.Initialized? then Success(()) else Failure(init.error);
    }

    /** `getConnection`: opens one connection after initialisation, and memoizes its outcome. */
    method GetConnection() returns (r: Result<(), Thrown>)
      requires Valid()
      modifies this`init, this`conn, store, meta
      ensures Valid()
      ensures old(conn).NotOpened? ==>
        conn == if init.InitFailed? then ConnFailed(init.error) else if connect.Threw? then ConnFailed(connect.error) else Opened
      ensures !old(conn).NotOpened? ==> conn == old(conn) && init == old(init) && store.state == old(store.state)
      ensures old(init).Initialized? ==> init == old(init) && store.state == old(store.state)
      ensures old(conn).NotOpened? && old(init).NotStarted? ==>
        init == (if instantiate.Done? then Initialized else InitFailed(instantiate.error))
      ensures !(old(conn).NotOpened? && old(init).NotStarted?) ==> init == old(init)
      ensures var starts := old(conn).NotOpened? && old(init).NotStarted?;
        var total := Metadata.Settled(meta.parsed, meta.now).totalBytes;
        store.state == Connected(starts, old(store.state), instantiate, total) &&
        store.log == ConnectLog(starts, store.listeners, old(store.state), old(store.log), instantiate, total)
      ensures !conn.NotOpened?
      ensures r == if conn.Opened? then Success(()) else Failure(conn.error)
      ensures store.state.loadedBytes == old(store.state.loadedBytes)
      ensures store.listeners == old(store.listeners)
    {
      if conn.NotOpened? {
        var ready := InitDuckDB();
        if ready.Failure? {
          conn := ConnFailed(ready.error);
        } else if connect.Threw? {
          conn := ConnFailed(connect.error);
        } else {
          conn := Opened;
        }
      }
      r := if conn.Opened? then Success(()) else Failure(conn.error);
    }

    /**
     * The part of `ensureTables` that runs before its tasks suspend: after
     * initialisation, every requested table that is not loaded is awaited
     * through its one in-flight entry, created here when there is none. An
     * unmapped table stops the walk with "Missing file mapping"; the load tasks
     * started before it keep running.
     */
    method Request(tables: seq<string>) returns (r: Result<seq<nat>, Thrown>)
      requires Valid()
      modifies this, store, meta
      ensures Valid()
      ensures conn == old(conn) && loadedTables == old(loadedTables)
      ensures progressByTable == old(progressByTable) && fetching == old(fetching)
      ensures store.listeners == old(store.listeners)
      ensures old(init).NotStarted? ==> init == (if instantiate.Done? then Initialized else InitFailed(instantiate.error))
      ensures !old(init).NotStarted? ==> init == old(init)
      ensures var total := Metadata.Settled(meta.parsed, meta.now).totalBytes;
        var s0 := if old(init).NotStarted? then AfterInit(old(store.state), instantiate, total) else old(store.state);
        var log0 := if old(init).NotStarted? then old(store.log) + InitLog(store.listeners, old(store.state), instantiate, total)
                    else old(store.log);
        var w := WalkFrom(Unloaded(tables, old(loadedTables)), TableFiles.Keys, old(loadPromises), old(nextTask));
        (init.InitFailed? ==>
          r == Failure(init.error) && loadPromises == old(loadPromises) && nextTask == old(nextTask) &&
          store.state == s0 && store.log == log0) &&
        (init.Initialized? ==>
          r == WalkResult(w) && loadPromises == w.entries && nextTask == w.next &&
          store.state == Announced(s0, w.announced) &&
          store.log == log0 + AnnounceLog(store.listeners, s0, w.announced))
    {
      var ready := InitDuckDB();
      if ready.Failure? {
        return Failure(ready.error);
      }
      r := Enqueue(Unloaded(tables, loadedTables));
    }

    /** The walk of `ensureTables` over the tables that are not loaded. */
    method Enqueue(pending: seq<string>) returns (r: Result<seq<nat>, Thrown>)
      requires Valid() && init.Initialized?
      requires forall t :: t in pending ==> t !in loadedTables
      modifies this`loadPromises, this`nextTask, store
      ensures Valid()
      ensures store.listeners == old(store.listeners)
      ensures var w := WalkFrom(pending, TableFiles.Keys, old(loadPromises), old(nextTask));
        r == WalkResult(w) && loadPromises == w.entries && nextTask == w.next &&
        store.state == Announced(old(store.state), w.announced) &&
        store.log == old(store.log) + AnnounceLog(store.listeners, old(store.state), w.announced)
    {
      var w := WalkPending(store, pending, TableFiles.Keys, loadPromises, nextTask);
      WalkEntries(pending, TableFiles.Keys, loadPromises, nextTask);
      loadPromises, nextTask := w.entries, w.next;
      r := WalkResult(w);
    }

    /**
     * A task resumes after `await getConnection()`: it starts its fetch, or,
     * when the connection failed, rejects before its `try` and its `finally`
     * removes the entry.
     */
    method BeginFetch(table: string) returns (r: Option<Settlement>)
      requires Valid() && table in loadPromises && table !in fetching
      modifies this, store, meta
      ensures Valid()
      ensures loadedTables == old(loadedTables) && progressByTable == old(progressByTable)
      ensures init == old(init) && nextTask == old(nextTask) && committed == old(committed)
      ensures store.state == old(store.state) && store.log == old(store.log)
      ensures store.listeners == old(store.listeners)
      ensures !conn.NotOpened? && (!old(conn).NotOpened? ==> conn == old(conn))
      ensures old(conn).NotOpened? ==>
        conn == if init.InitFailed? then ConnFailed(init.error) else if connect.Threw? then ConnFailed(connect.error) else Opened
      ensures r.None? <==> conn.Opened?
      ensures r.None? ==> fetching == old(fetching) + {table} && loadPromises == old(loadPromises)
      ensures r.Some? ==>
        r.value == Rejected(conn.error) && fetching == old(fetching) && loadPromises == old(loadPromises) - {table}
    {
      var c := GetConnection();
      if c.Failure? {
        loadPromises := loadPromises - {table};
        return Some(Rejected(c.error));
      }
      fetching := fetching + {table};
      r := None;
    }

    /**
     * `reportProgress`: a report above the recorded value records it and adds
     * the difference to `loadedBytes`; any other report changes nothing.
     */
    method ReportProgress(table: string, loaded: nat)
      requires Valid() && table in fetching
      modifies this`progressByTable, this`committed, store
      ensures Valid()
      ensures var previous := if table in old(progressByTable) then old(progressByTable)[table] else 0;
        store.state.loadedBytes == old(store.state.loadedBytes) + Added(previous, loaded) &&
        (loaded > previous ==> progressByTable == old(progressByTable)[table := Recorded(previous, loaded)]) &&
        (loaded <= previous ==> progressByTable == old(progressByTable) && store.state == old(store.state) &&
                                store.log == old(store.log))
      ensures var previous := if table in old(progressByTable) then old(progressByTable)[table] else 0;
        loaded > previous ==>
          store.state == old(store.state).(loadedBytes := old(store.state.loadedBytes) + loaded - previous) &&
          store.log == old(store.log) + SessionState.Notifications(store.listeners, store.state)
      ensures committed == old(committed)
      ensures store.listeners == old(store.listeners)
    {
      var previous := if table in progressByTable then progressByTable[table] else 0;
      var delta := loaded - previous;
      if delta <= 0 {
        return;
      }
      SumWithout(progressByTable, table);
      SumWith(progressByTable, table, loaded);
      progressByTable := progressByTable[table := loaded];
      store.Set(SessionState.Empty.(loadedBytes := Some(store.state.loadedBytes + delta)));
    }

    /** `clearProgress`: drops the table's entry and, when asked, subtracts it from `loadedBytes`, clamped at 0. */
    method ClearProgress(table: string, subtractLoadedBytes: bool)
      requires store.Valid()
      modifies this`progressByTable, store
      ensures store.Valid()
      ensures progressByTable == old(progressByTable) - {table}
      ensures var loaded := if table in old(progressByTable) then old(progressByTable)[table] else 0;
        if subtractLoadedBytes && loaded > 0
        then store.state == SessionState.Merge(old(store.state),
          SessionState.Empty.(loadedBytes := Some(if old(store.state.loadedBytes) - loaded > 0 then old(store.state.loadedBytes) - loaded else 0))) &&
          store.log == old(store.log) + SessionState.Notifications(store.listeners, store.state)
        else store.state == old(store.state) && store.log == old(store.log)
      ensures store.listeners == old(store.listeners)
    {
      var loaded := if table in progressByTable then progressByTable[table] else 0;
      progressByTable := progressByTable - {table};
      if !subtractLoadedBytes || loaded <= 0 {
        return;
      }
      var current := store.Get();
      store.Set(SessionState.Empty.(loadedBytes := Some(if current.loadedBytes - loaded > 0 then current.loadedBytes - loaded else 0)));
    }

    /** A load that keeps its data: its progress leaves the map and stays counted in `loadedBytes`. */
    method KeepProgress(table: string)
      requires Valid() && table in fetching
      modifies this`progressByTable, this`committed, store
      ensures Valid()
      ensures progressByTable == old(progressByTable) - {table}
      ensures store.state == old(store.state) && store.log == old(store.log)
      ensures store.listeners == old(store.listeners)
    {
      SumWithout(progressByTable, table);
      committed := committed + if table in progressByTable then progressByTable[table] else 0;
      ClearProgress(table, false);
    }

    /** A load that failed: its progress leaves the map and `loadedBytes`; the clamp at 0 never acts. */
    method DropProgress(table: string)
      requires Valid() && table in fetching
      modifies this`progressByTable, store
      ensures Valid()
      ensures progressByTable == old(progressByTable) - {table}
      ensures var contribution := if table in old(progressByTable) then old(progressByTable)[table] else 0;
        store.state == old(store.state).(loadedBytes := old(store.state.loadedBytes) - contribution) &&
        store.log == old(store.log) + (if contribution > 0 then SessionState.Notifications(store.listeners, store.state) else [])
      ensures store.listeners == old(store.listeners)
    {
      SumWithout(progressByTable, table);
      if table in progressByTable {
        EntryBelowSum(progressByTable, table);
      }
      ClearProgress(table, true);
    }

    /**
     * `loadedTables.add(table)` with the status update that follows it, and
     * the `finally` of the load task. Nothing suspends between them; the model
     * removes the in-flight entry first.
     */
    method MarkLoaded(table: string, message: string)
      requires Valid() && table in fetching && table !in progressByTable
      modifies this`loadedTables, this`loadPromises, this`fetching, store
      ensures Valid()
      ensures loadedTables == old(loadedTables) + [table]
      ensures loadPromises == old(loadPromises) - {table} && fetching == old(fetching) - {table}
      ensures store.state == old(store.state).(status := SessionState.Ready, message := Some(message), loadedTables := loadedTables)
      ensures store.listeners == old(store.listeners)
      ensures store.log == old(store.log) + SessionState.Notifications(store.listeners, store.state)
    {
      loadPromises := loadPromises - {table};
      fetching := fetching - {table};
      loadedTables := loadedTables + [table];
      var current := store.Get();
      store.Set(SessionState.Empty.(status := Some(SessionState.Ready), message := Some(message),
        loadedTables := Some(loadedTables), loadedBytes := Some(current.loadedBytes)));
    }

    /** The `finally` of a task that rejected: the in-flight entry goes. */
    method Release(table: string)
      requires Valid() && table in fetching && table !in progressByTable
      modifies this`loadPromises, this`fetching
      ensures Valid()
      ensures loadPromises == old(loadPromises) - {table} && fetching == old(fetching) - {table}
    {
      loadPromises := loadPromises - {table};
      fetching := fetching - {table};
    }

    /**
     * The rest of a load task once its fetch has started: the `try` block,
     * the `catch` block and the `finally` that removes the entry. A table that
     * loads from its file keeps its progress in `loadedBytes`; any other
     * outcome takes it out again.
     */
    method Settle(table: string, oracle: LoadOracle) returns (s: Settlement)
      requires Valid() && table in fetching
      modifies this`progressByTable, this`committed, this`loadedTables, this`loadPromises, this`fetching, store
      ensures Valid()
      ensures s == Outcome(table, oracle)
      ensures loadPromises == old(loadPromises) - {table} && table !in fetching
      ensures progressByTable == old(progressByTable) - {table}
      ensures store.listeners == old(store.listeners)
      ensures s.Rejected? <==> loadedTables == old(loadedTables)
      ensures !s.Rejected? ==> loadedTables == old(loadedTables) + [table]
      ensures var contribution := if table in old(progressByTable) then old(progressByTable)[table] else 0;
        var dropped := old(store.state).(loadedBytes := old(store.state.loadedBytes) - contribution);
        var dropLog := if contribution > 0 then SessionState.Notifications(store.listeners, dropped) else [];
        match s
        case Loaded =>
          store.state == old(store.state).(status := SessionState.Ready, message := Some("Loaded " + table), loadedTables := loadedTables) &&
          store.log == old(store.log) + SessionState.Notifications(store.listeners, store.state)
        case LoadedSynthetic =>
          store.state == dropped.(status := SessionState.Ready, message := Some("Loaded " + table + " (synthetic fallback)"),
                                  loadedTables := loadedTables) &&
          store.log == old(store.log) + dropLog + SessionState.Notifications(store.listeners, store.state)
        case Rejected(_) =>
          store.state == dropped && store.log == old(store.log) + dropLog
    {
      var failure := TryError(table, oracle);
      if failure.None? {
        KeepProgress(table);
        MarkLoaded(table, "Loaded " + table);
        return Loaded;
      }
      DropProgress(table);
      if !ShouldUseSyntheticFallback(failure.value) {
        s := Rejected(failure.value);
      } else if table !in SyntheticTables {
        s := Rejected(ErrorObject("No synthetic dataset available for " + table));
      } else if oracle.synthetic.Threw? {
        s := Rejected(oracle.synthetic.error);
      } else {
        MarkLoaded(table, "Loaded " + table + " (synthetic fallback)");
        return LoadedSynthetic;
      }
      Release(table);
    }

    /**
     * `runQuery`: on the shared connection, run the statement and record its
     * timing, row count and memory figure; a failure is passed on unchanged.
     * `answer` is what the engine returns for `sql`, `elapsedMs` the measured
     * time and `heapBytes` the heap figure when the host exposes one.
     */
    method RunQuery(sql: string, answer: Result<QueryData, Thrown>, elapsedMs: real, heapBytes: Option<int>)
      returns (r: Result<QueryResult, Thrown>)
      requires Valid()
      modifies this, store, meta
      ensures Valid()
      ensures loadedTables == old(loadedTables) && loadPromises == old(loadPromises)
      ensures progressByTable == old(progressByTable)
      ensures !conn.NotOpened? && (!old(conn).NotOpened? ==> conn == old(conn))
      ensures old(conn).NotOpened? ==>
        conn == if init.InitFailed? then ConnFailed(init.error) else if connect.Threw? then ConnFailed(connect.error) else Opened
      ensures r.Success? <==> conn.Opened? && answer.Success?
      ensures !conn.Opened? ==> r == Failure(conn.error)
      ensures conn.Opened? && answer.Failure? ==> r == Failure(answer.error)
      ensures r.Success? ==>
        r.value == QueryResult(answer.value.columns, answer.value.rows, elapsedMs, |answer.value.rows|, None, heapBytes) &&
        store.state.lastQueryMs == Some(elapsedMs) && store.state.lastRowCount == Some(|answer.value.rows|) &&
        store.state.memoryBytes == Some(heapBytes)
      ensures fetching == old(fetching) && nextTask == old(nextTask) && committed == old(committed)
      ensures store.listeners == old(store.listeners)
      ensures store.state.loadedBytes == old(store.state.loadedBytes)
      ensures old(conn).NotOpened? && old(init).NotStarted? ==>
        init == (if instantiate.Done? then Initialized else InitFailed(instantiate.error))
      ensures !(old(conn).NotOpened? && old(init).NotStarted?) ==> init == old(init)
      ensures var starts := old(conn).NotOpened? && old(init).NotStarted?;
        var total := Metadata.Settled(meta.parsed, meta.now).totalBytes;
        var connected := Connected(starts, old(store.state), instantiate, total);
        var log := ConnectLog(starts, store.listeners, old(store.state), old(store.log), instantiate, total);
        if r.Success? then
          store.state == SessionState.Merge(connected, QueryPatch(elapsedMs, |answer.value.rows|, heapBytes)) &&
          store.log == log + SessionState.Notifications(store.listeners, store.state)
        else
          store.state == connected && store.log == log
    {
      var c := GetConnection();
      if c.Failure? {
        return Failure(c.error);
      }
      if answer.Failure? {
        return Failure(answer.error);
      }
      var rows := answer.value.rows;
      store.Set(QueryPatch(elapsedMs, |rows|, heapBytes));
      r := Success(QueryResult(answer.value.columns, rows, elapsedMs, |rows|, None, heapBytes));
    }
  }

  /**
   * Two overlapping `ensureTables` calls for the same table share one load:
   * the second finds the first one's entry and awaits the same task.
   */
  method OverlappingRequestsShareOneLoad(m: Manager, table: string) returns (first: Result<seq<nat>, Thrown>, second: Result<seq<nat>, Thrown>)
    requires m.Valid() && m.init.Initialized?
    requires table in TableFiles && table !in m.loadedTables && table !in m.loadPromises
    modifies m, m.store, m.meta
    ensures first.Success? && second.Success?
    ensures |first.value| == 1 && second.value == [first.value[0], first.value[0]]
    ensures m.loadPromises == old(m.loadPromises)[table := first.value[0]]
  {
    first := m.Request([table]);
    second := m.Request([table, table]);
    assert m.loadPromises.Keys == old(m.loadPromises).Keys + {table};
  }

  /**
   * A table whose file answers with an HTTP error ends up loaded from its
   * synthetic fixture, with the store showing the fallback and no bytes counted.
   */
  method NotFoundLoadsSynthetic(m: Manager, table: string, url: string, statusText: string, register: Step)
    returns (s: Settlement)
    requires m.Valid() && m.init.Initialized? && m.conn.Opened?
    requires table in TableFiles && table !in m.loadedTables && table !in m.loadPromises
    modifies m, m.store, m.meta
    ensures s == LoadedSynthetic
    ensures table in m.loadedTables && table !in m.loadPromises
    ensures m.store.state.status == SessionState.Ready
    ensures m.store.state.message == Some("Loaded " + table + " (synthetic fallback)")
    ensures m.store.state.loadedBytes == old(m.store.state.loadedBytes)
  {
    var r := m.Request([table]);
    assert table in m.loadPromises && table !in m.fetching;
    var started := m.BeginFetch(table);
    assert started.None?;
    HttpErrorLoadsSynthetic(table, url, statusText, register);
    s := m.Settle(table, LoadOracle(Failure(ErrorObject("Failed to fetch " + url + ": " + statusText)), register, Done));
  }

  /** A failed initialisation is final: a later request fails with the same error and changes nothing. */
  method FailedInitIsFinal(m: Manager, tables: seq<string>) returns (first: Result<(), Thrown>, later: Result<seq<nat>, Thrown>)
    requires m.Valid() && m.init.NotStarted? && m.instantiate.Threw?
    modifies m, m.store, m.meta
    ensures first == Failure(m.instantiate.error) && later == Failure(m.instantiate.error)
    ensures m.store.state.status == SessionState.Error
    ensures m.loadPromises == old(m.loadPromises)
  {
    first := m.InitDuckDB();
    later := m.Request(tables);
  }
  /**
   * The first query on a fresh engine starts it and opens the connection:
   * when both succeed and the engine answers, the query succeeds, the store
   * ends ready and records the query, and every listener was called three
   * times (the announcement, the outcome and the query).
   */
  method FirstQueryStartsEngine(m: Manager, sql: string, answer: Result<QueryData, Thrown>, elapsedMs: real, heapBytes: Option<int>)
    returns (r: Result<QueryResult, Thrown>)
    requires m.Valid() && m.init.NotStarted? && m.conn.NotOpened?
    requires m.instantiate.Done? && m.connect.Done? && answer.Success?
    modifies m, m.store, m.meta
    ensures r.Success? && m.conn.Opened? && m.init.Initialized?
    ensures m.store.state.status == SessionState.Ready && m.store.state.message == Some("DuckDB ready")
    ensures m.store.state.lastRowCount == Some(|answer.value.rows|)
    ensures |m.store.log| == |old(m.store.log)| + 3 * |m.store.listeners|
  {
    r := m.RunQuery(sql, answer, elapsedMs, heapBytes);
  }

}
