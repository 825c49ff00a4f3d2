/**
 * The reactive session store (src/lib/dbState.ts): one state record, replaced
 * by a shallow merge on every update, and a set of listeners that are all
 * called synchronously after each replacement.
 */
module SessionState {
  import opened Wrappers

  datatype Status = Idle | Loading | Ready | Error

  /**
   * `DbState`. A field that may be missing is an `Option`; `lastScannedRows`
   * and `memoryBytes` can also hold null, which is the inner `None`.
   */
  datatype DbState = DbState(
    status: Status,
    message: Option<string>,
    loadedTables: seq<string>,
    loadedBytes: int,
    totalBytes: int,
    lastQueryMs: Option<real>,
    lastRowCount: Option<int>,
    lastScannedRows: Option<Option<int>>,
    memoryBytes: Option<Option<int>>)

  /** `Partial<DbState>`: `None` means the key is not in the partial object. */
  datatype Patch = Patch(
    status: Option<Status>,
    message: Option<string>,
    loadedTables: Option<seq<string>>,
    loadedBytes: Option<int>,
    totalBytes: Option<int>,
    lastQueryMs: Option<real>,
    lastRowCount: Option<int>,
    lastScannedRows: Option<Option<int>>,
    memoryBytes: Option<Option<int>>)

  /** The empty partial `{}`; callers update the fields they set. */
  const Empty := Patch(None, None, None, None, None, None, None, None, None)

  /** The state the module starts with. */
  const Initial := DbState(Idle, None, [], 0, 0, None, None, Some(None), Some(None))

  /** `{ ...state, ...partial }`. */
  function Merge(s: DbState, p: Patch): DbState {
    DbState(
      p.status.GetOr(s.status),
      if p.message.Some? then p.message else s.message,
      p.loadedTables.GetOr(s.loadedTables),
      p.loadedBytes.GetOr(s.loadedBytes),
      p.totalBytes.GetOr(s.totalBytes),
      if p.lastQueryMs.Some? then p.lastQueryMs else s.lastQueryMs,
      if p.lastRowCount.Some? then p.lastRowCount else s.lastRowCount,
      if p.lastScannedRows.Some? then p.lastScannedRows else s.lastScannedRows,
      if p.memoryBytes.Some? then p.memoryBytes else s.memoryBytes)
  }

  /** `{ ...p, ...q }`: the partial whose merge equals merging p and then q. */
  function Combine(p: Patch, q: Patch): Patch {
    Patch(
      if q.status.Some? then q.status else p.status,
      if q.message.Some? then q.message else p.message,
      if q.loadedTables.Some? then q.loadedTables else p.loadedTables,
      if q.loadedBytes.Some? then q.loadedBytes else p.loadedBytes,
      if q.totalBytes.Some? then q.totalBytes else p.totalBytes,
      if q.lastQueryMs.Some? then q.lastQueryMs else p.lastQueryMs,
      if q.lastRowCount.Some? then q.lastRowCount else p.lastRowCount,
      if q.lastScannedRows.Some? then q.lastScannedRows else p.lastScannedRows,
      if q.memoryBytes.Some? then q.memoryBytes else p.memoryBytes)
  }

  /**
   * The frame of a merge: every field present in the partial takes its
   * value, every other field keeps the old one.
   */
  lemma MergeFrame(s: DbState, p: Patch)
    ensures var r := Merge(s, p);
      (p.status.Some? ==> r.status == p.status.value) && (p.status.None? ==> r.status == s.status) &&
      (p.message.Some? ==> r.message == p.message) && (p.message.None? ==> r.message == s.message) &&
      (p.loadedTables.Some? ==> r.loadedTables == p.loadedTables.value) &&
      (p.loadedTables.None? ==> r.loadedTables == s.loadedTables) &&
      (p.loadedBytes.Some? ==> r.loadedBytes == p.loadedBytes.value) &&
      (p.loadedBytes.None? ==> r.loadedBytes == s.loadedBytes) &&
      (p.totalBytes.Some? ==> r.totalBytes == p.totalBytes.value) &&
      (p.totalBytes.None? ==> r.totalBytes == s.totalBytes) &&
      (p.lastQueryMs.Some? ==> r.lastQueryMs == p.lastQueryMs) &&
      (p.lastQueryMs.None? ==> r.lastQueryMs == s.lastQueryMs) &&
      (p.lastRowCount.Some? ==> r.lastRowCount == p.lastRowCount) &&
      (p.lastRowCount.None? ==> r.lastRowCount == s.lastRowCount) &&
      (p.lastScannedRows.Some? ==> r.lastScannedRows == p.lastScannedRows) &&
      (p.lastScannedRows.None? ==> r.lastScannedRows == s.lastScannedRows) &&
      (p.memoryBytes.Some? ==> r.memoryBytes == p.memoryBytes) &&
      (p.memoryBytes.None? ==> r.memoryBytes == s.memoryBytes)
  {
  }

  /** Merging nothing changes nothing; merging twice is merging once; two merges are one combined merge. */
  lemma MergeAlgebra(s: DbState, p: Patch, q: Patch)
    ensures Merge(s, Empty) == s
    ensures Merge(Merge(s, p), p) == Merge(s, p)
    ensures Merge(Merge(s, p), q) == Merge(s, Combine(p, q))
  {
  }

  /** The identity of a subscribed callback. */
  type Listener = nat

  /** One listener call, with the state `getDbState()` returns during it. */
  datatype Notification = Notification(listener: Listener, observed: DbState)

  predicate NoDuplicates<T(==)>(s: seq<T>) {
    forall i, j :: 0 <= i < j < |s| ==> s[i] != s[j]
  }

  /** `listeners.forEach(...)` after a state replacement: each listener, in order, observing `s`. */
  function Notifications(listeners: seq<Listener>, s: DbState): (r: seq<Notification>)
    ensures |r| == |listeners|
  {
    seq(|listeners|, i requires 0 <= i < |listeners| => Notification(listeners[i], s))
  }

  /** How many calls in `log` went to `l`. */
  function CallsTo(log: seq<Notification>, l: Listener): nat {
    if log == [] then 0 else (if log[0].listener == l then 1 else 0) + CallsTo(log[1..], l)
  }

  /** `listeners.delete(l)` on the insertion-ordered set. */
  function Without(listeners: seq<Listener>, l: Listener): seq<Listener> {
    if listeners == [] then []
    else (if listeners[0] == l then [] else [listeners[0]]) + Without(listeners[1..], l)
  }

  lemma {:induction false} CallsToAppend(a: seq<Notification>, b: seq<Notification>, l: Listener)
    ensures CallsTo(a + b, l) == CallsTo(a, l) + CallsTo(b, l)
  {
    if a != [] {
      assert (a + b)[1..] == a[1..] + b;
      CallsToAppend(a[1..], b, l);
    } else {
      assert a + b == b;
    }
  }

  /**
   * One update calls every subscribed listener exactly once and no one else,
   * and every call observes the merged state.
   */
  lemma {:induction false} NotifiedOnce(listeners: seq<Listener>, s: DbState, l: Listener)
    requires NoDuplicates(listeners)
    ensures CallsTo(Notifications(listeners, s), l) == if l in listeners then 1 else 0
    ensures forall n :: n in Notifications(listeners, s) ==> n.observed == s
  {
    if listeners != [] {
      var rest := listeners[1..];
      NotifiedOnce(rest, s, l);
      assert Notifications(listeners, s)[1..] == Notifications(rest, s);
      assert listeners == [listeners[0]] + rest;
      assert listeners[0] == l ==> l !in rest;
    }
  }

  /** Deleting a listener removes exactly that one and keeps the set duplicate-free. */
  lemma {:induction false} WithoutSpec(listeners: seq<Listener>, l: Listener)
    requires NoDuplicates(listeners)
    ensures forall x :: x in Without(listeners, l) <==> x in listeners && x != l
    ensures NoDuplicates(Without(listeners, l))
    ensures l !in listeners ==> Without(listeners, l) == listeners
  {
    if listeners != [] {
      var rest := listeners[1..];
      assert NoDuplicates(rest) by {
        forall i, j | 0 <= i < j < |rest| ensures rest[i] != rest[j] {
          assert rest[i] == listeners[i + 1] && rest[j] == listeners[j + 1];
        }
      }
      WithoutSpec(rest, l);
      assert listeners == [listeners[0]] + rest;
      assert listeners[0] !in rest;
    }
  }

  /** The module-level `state` and `listeners`, with the calls made so far. */
  class Store {
    var state: DbState
    /** The `Set` of listeners, in insertion order. */
    var listeners: seq<Listener>
    /** Every listener call so far, in order. */
    var log: seq<Notification>

    ghost predicate Valid()
      reads this
    {
      NoDuplicates(listeners)
    }

    constructor ()
      ensures Valid()
      ensures state == Initial && listeners == [] && log == []
    {
      state := Initial;
      listeners := [];
      log := [];
    }

    /** `getDbState`. */
    function Get(): DbState
      reads this
    {
      state
    }

    /** `setDbState`: replace the state by the merge, then call every listener once. */
    method Set(p: Patch)
      requires Valid()
      modifies this`state, this`log
      ensures Valid()
      ensures state == Merge(old(state), p)
      ensures listeners == old(listeners)
      ensures log == old(log) + Notifications(listeners, state)
    {
      state := Merge(state, p);
      var i := 0;
      while i < |listeners|
        invariant 0 <= i <= |listeners|
        invariant state == Merge(old(state), p)
        invariant log == old(log) + Notifications(listeners[..i], state)
      {
        assert Notifications(listeners[..i + 1], state) == Notifications(listeners[..i], state) + [Notification(listeners[i], state)];
        log := log + [Notification(listeners[i], state)];
        i := i + 1;
      }
      assert listeners[..i] == listeners;
    }

    /** `subscribe`: adding a listener that is already there changes nothing. */
    method Subscribe(l: Listener)
      requires Valid()
      modifies this`listeners
      ensures Valid()
      ensures l in listeners
      ensures listeners == if l in old(listeners) then old(listeners) else old(listeners) + [l]
    {
      if l !in listeners {
        listeners := listeners + [l];
      }
    }

    /** The function `subscribe` returns: `listeners.delete(l)`, answering whether `l` was there. */
    method Unsubscribe(l: Listener) returns (removed: bool)
      requires Valid()
      modifies this`listeners
      ensures Valid()
      ensures removed == (l in old(listeners))
      ensures listeners == Without(old(listeners), l)
      ensures l !in listeners
      ensures forall x :: x in listeners <==> x in old(listeners) && x != l
    {
      WithoutSpec(listeners, l);
      removed := l in listeners;
      listeners := Without(listeners, l);
    }
  }

  /**
   * Subscribing twice registers once, and a listener removed by its
   * unsubscribe function is not called by later updates.
   */
  method SubscribeTwiceThenRemove(store: Store, l: Listener, p: Patch)
    requires store.Valid() && store.listeners == []
    modifies store
    ensures store.log == old(store.log) + [Notification(l, Merge(old(store.state), p))]
  {
    store.Subscribe(l);
    store.Subscribe(l);
    assert store.listeners == [l];
    store.Set(p);
    var removed := store.Unsubscribe(l);
    assert store.listeners == [];
    store.Set(p);
  }
}
