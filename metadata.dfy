/**
 * The dataset manifest (src/lib/metadata.ts): fetched once, memoized for the
 * page's lifetime, and replaced by an empty default when the fetch or the
 * JSON parse fails.
 */
module Metadata {
  import opened Wrappers

  datatype Column = Column(name: string, kind: string)

  datatype TableMetadata = TableMetadata(
    rows: int,
    bytes: int,
    columns: seq<Column>,
    minDate: Option<string>,
    maxDate: Option<string>)

  /** The parsed manifest; `tables` is `None` when the JSON object has no such key. */
  datatype DatasetMetadata = DatasetMetadata(
    generatedAt: string,
    source: string,
    tables: Option<map<string, TableMetadata>>,
    totalBytes: int)

  /** The manifest substituted on failure, stamped with the clock reading `now`. */
  function Default(now: string): DatasetMetadata {
    DatasetMetadata(now, "unknown", Some(map[]), 0)
  }

  /**
   * What the memoized promise settles to: the parsed manifest, or the default
   * when `parsed` is `None` (the fetch or `res.json()` failed).
   */
  function Settled(parsed: Option<DatasetMetadata>, now: string): (r: DatasetMetadata)
    ensures parsed.Some? ==> r == parsed.value
    ensures parsed.None? ==> r.source == "unknown" && r.tables == Some(map[]) && r.totalBytes == 0 && r.generatedAt == now
  {
    if parsed.Some? then parsed.value else Default(now)
  }

  /** `getTableBytes`: the table's byte count, or 0 when the table or the whole `tables` object is missing. */
  function TableBytes(m: DatasetMetadata, table: string): (r: int)
    ensures m.tables.Some? && table in m.tables.value ==> r == m.tables.value[table].bytes
    ensures m.tables.None? || table !in m.tables.value ==> r == 0
  {
    if m.tables.Some? && table in m.tables.value then m.tables.value[table].bytes else 0
  }

  /** After a failed fetch every table reads as 0 bytes, and so does the total. */
  lemma DefaultKnowsNothing(now: string, table: string)
    ensures TableBytes(Settled(None, now), table) == 0
    ensures Settled(None, now).totalBytes == 0
  {
  }

  /**
   * The module-level `metadataPromise` slot. `parsed` is what the one fetch
   * and parse would give and `now` the clock when the default is built: both
   * are outside the model, so they are fixed when the loader is made.
   */
  class Loader {
    const parsed: Option<DatasetMetadata>
    const now: string
    var memo: Option<DatasetMetadata>
    /** How many times the manifest was requested over the network. */
    var fetches: nat

    ghost predicate Valid()
      reads this
    {
      fetches <= 1 && (memo.None? <==> fetches == 0) &&
      (memo.Some? ==> memo.value == Settled(parsed, now))
    }

    constructor (parsed: Option<DatasetMetadata>, now: string)
      ensures Valid()
      ensures this.parsed == parsed && this.now == now
      ensures memo == None && fetches == 0
    {
      this.parsed := parsed;
      this.now := now;
      memo := None;
      fetches := 0;
    }

    /** `getMetadata`: the first call fetches, every call returns the same settled manifest. */
    method GetMetadata() returns (m: DatasetMetadata)
      requires Valid()
      modifies this
      ensures Valid()
      ensures m == Settled(parsed, now)
      ensures memo == Some(m)
      ensures fetches == 1
      ensures old(memo).Some? ==> fetches == old(fetches)
    {
      if memo.None? {
        fetches := fetches + 1;
        memo := Some(Settled(parsed, now));
      }
      m := memo.value;
    }

    /** `getTableBytes`. */
    method GetTableBytes(table: string) returns (r: int)
      requires Valid()
      modifies this
      ensures Valid() && fetches == 1
      ensures r == TableBytes(Settled(parsed, now), table)
    {
      var m := GetMetadata();
      r := TableBytes(m, table);
    }
  }
}
