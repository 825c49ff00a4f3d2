/**
 * The pure rules of the table-load manager (src/lib/duckdb.ts): the file
 * mapping, the Parquet signature test, the classification of load errors,
 * the accounting of progress reports and the list of available tables.
 */
module LoadRules {
  import opened Wrappers
  import ByteCache
  import Metadata

  /** `tableFiles`: the backing file of each known table. */
  const TableFiles: map<string, string> := map[
    "households" := "households.parquet",
    "products" := "products.parquet",
    "transactions" := "transactions.parquet",
    "coupons" := "coupons.parquet",
    "coupon_redemptions" := "coupon_redemptions.parquet",
    "campaigns" := "campaigns.parquet",
    "campaign_descriptions" := "campaign_descriptions.parquet"]

  /** The keys of `syntheticTableSql`; the SQL text itself is an opaque fixture. */
  const SyntheticTables: set<string> := {
    "households", "products", "transactions", "coupons",
    "coupon_redemptions", "campaigns", "campaign_descriptions"}

  /** "PAR1", the marker that opens and closes every Apache Parquet file. */
  const ParquetMagic: seq<ByteCache.Byte> := [80, 65, 82, 49]

  /**
   * `hasMagicBytes`: the four bytes at `offset` are the marker; an index
   * outside the buffer reads as `undefined` and matches nothing.
   */
  predicate HasMagicBytes(buffer: ByteCache.Bytes, offset: int) {
    forall k :: 0 <= k < |ParquetMagic| ==> 0 <= offset + k < |buffer| && buffer[offset + k] == ParquetMagic[k]
  }

  /** `isParquetBuffer`. */
  predicate IsParquetBuffer(buffer: ByteCache.Bytes) {
    |buffer| >= 8 && HasMagicBytes(buffer, 0) && HasMagicBytes(buffer, |buffer| - |ParquetMagic|)
  }

  /** A buffer is accepted exactly when it has at least 8 bytes and starts and ends with "PAR1". */
  lemma ParquetSignature(buffer: ByteCache.Bytes)
    ensures IsParquetBuffer(buffer) <==>
      |buffer| >= 8 && buffer[..4] == ParquetMagic && buffer[|buffer| - 4..] == ParquetMagic
  {
    if |buffer| >= 8 {
      if buffer[..4] == ParquetMagic && buffer[|buffer| - 4..] == ParquetMagic {
        forall k | 0 <= k < 4 ensures buffer[k] == ParquetMagic[k] && buffer[|buffer| - 4 + k] == ParquetMagic[k] {
          assert buffer[..4][k] == buffer[k];
          assert buffer[|buffer| - 4..][k] == buffer[|buffer| - 4 + k];
        }
      }
      if IsParquetBuffer(buffer) {
        assert buffer[..4] == ParquetMagic;
        assert buffer[|buffer| - 4..] == ParquetMagic;
      }
    }
  }

  /** A value a load step can throw: an `Error` with its message, or any other value and its `String(...)`. */
  datatype Thrown = ErrorObject(message: string) | OtherValue(text: string)

  /** `error instanceof Error ? error.message : String(error)`. */
  function MessageOf(e: Thrown): string {
    match e
    case ErrorObject(m) => m
    case OtherValue(t) => t
  }

  /** ASCII case folding, which is what a case-insensitive regular expression applies to ASCII patterns. */
  function Lower(c: char): char {
    if 'A' <= c <= 'Z' then (c as int + 32) as char else c
  }

  /** `pattern` occurs, ignoring case, at position i of `s`. */
  predicate OccursAt(s: string, pattern: string, i: nat) {
    i + |pattern| <= |s| && forall j :: 0 <= j < |pattern| ==> Lower(s[i + j]) == Lower(pattern[j])
  }

  /** A left-to-right search for `pattern`, ignoring case. */
  function ContainsIgnoringCase(s: string, pattern: string): (r: bool)
    ensures r <==> exists i: nat :: OccursAt(s, pattern, i)
    decreases |s|
  {
    if |s| < |pattern| then false
    else if OccursAt(s, pattern, 0) then true
    else
      ShiftOccurrence(s, pattern);
      ContainsIgnoringCase(s[1..], pattern)
  }

  /** Past position 0, an occurrence in `s` is an occurrence in `s[1..]` one place earlier. */
  lemma ShiftOccurrence(s: string, pattern: string)
    requires |s| > 0
    ensures forall i: nat :: OccursAt(s[1..], pattern, i) <==> OccursAt(s, pattern, i + 1)
    ensures forall i: nat :: i > 0 ==> (OccursAt(s, pattern, i) <==> OccursAt(s[1..], pattern, i - 1))
  {
    forall i: nat ensures OccursAt(s[1..], pattern, i) <==> OccursAt(s, pattern, i + 1) {
      if i + 1 + |pattern| <= |s| {
        forall j | 0 <= j < |pattern|
          ensures Lower(s[1..][i + j]) == Lower(pattern[j]) <==> Lower(s[i + 1 + j]) == Lower(pattern[j])
        {
        }
      }
    }
  }

  /**
   * `shouldUseSyntheticFallback`: the message contains, ignoring case, one of
   * the three phrases of the fallback regular expression.
   */
  function ShouldUseSyntheticFallback(e: Thrown): (r: bool)
    ensures r <==>
      (exists i: nat :: OccursAt(MessageOf(e), "Failed to fetch", i)) ||
      (exists i: nat :: OccursAt(MessageOf(e), "No magic bytes found", i)) ||
      (exists i: nat :: OccursAt(MessageOf(e), "Invalid parquet payload", i))
  {
    var m := MessageOf(e);
    ContainsIgnoringCase(m, "Failed to fetch") || ContainsIgnoringCase(m, "No magic bytes found") ||
      ContainsIgnoringCase(m, "Invalid parquet payload")
  }

  /** Any message that begins with `pattern` contains it. */
  lemma StartsWith(prefix: string, rest: string, pattern: string)
    requires prefix == pattern
    ensures OccursAt(prefix + rest, pattern, 0)
  {
    assert forall j :: 0 <= j < |pattern| ==> (prefix + rest)[j] == pattern[j];
  }

  /** An HTTP failure reported by the fetcher ("Failed to fetch <url>: <status>") takes the synthetic fallback. */
  lemma HttpFailureFallsBack(url: string, statusText: string)
    ensures ShouldUseSyntheticFallback(ErrorObject("Failed to fetch " + url + ": " + statusText))
  {
    StartsWith("Failed to fetch", " " + url + ": " + statusText, "Failed to fetch");
    assert "Failed to fetch " + url + ": " + statusText == "Failed to fetch" + (" " + url + ": " + statusText);
  }

  /** A buffer that fails the signature test ("Invalid parquet payload for <file>") takes the synthetic fallback. */
  lemma InvalidPayloadFallsBack(fileName: string)
    ensures ShouldUseSyntheticFallback(ErrorObject("Invalid parquet payload for " + fileName))
  {
    StartsWith("Invalid parquet payload", " for " + fileName, "Invalid parquet payload");
    assert "Invalid parquet payload for " + fileName == "Invalid parquet payload" + (" for " + fileName);
  }

  /** The match ignores case: a lower-case "failed to fetch" also falls back. */
  lemma FallbackIgnoresCase()
    ensures ShouldUseSyntheticFallback(OtherValue("TypeError: failed to fetch"))
  {
    var m := "TypeError: failed to fetch";
    assert m[11..] == "failed to fetch";
    assert OccursAt(m, "Failed to fetch", 11);
  }

  // Progress accounting (reportProgress).

  /** The value `progressByTable` holds after a report of `loaded` on top of `previous`. */
  function Recorded(previous: nat, loaded: nat): nat {
    if loaded > previous then loaded else previous
  }

  /** The amount a report of `loaded` on top of `previous` adds to `loadedBytes`: positive deltas only. */
  function Added(previous: nat, loaded: nat): nat {
    if loaded > previous then loaded - previous else 0
  }

  /** Replays a table's reports from `previous`: the value finally recorded and the total added. */
  function Account(previous: nat, reports: seq<nat>): (nat, nat) {
    if reports == [] then (previous, 0)
    else
      var (recorded, added) := Account(previous, reports[..|reports| - 1]);
      var last := reports[|reports| - 1];
      (Recorded(recorded, last), added + Added(recorded, last))
  }

  /** The largest of `previous` and every report. */
  function Highest(previous: nat, reports: seq<nat>): (h: nat)
    ensures h >= previous && forall i :: 0 <= i < |reports| ==> h >= reports[i]
    ensures h == previous || h in reports
  {
    if reports == [] then previous
    else
      var h := Highest(previous, reports[..|reports| - 1]);
      var last := reports[|reports| - 1];
      assert forall i :: 0 <= i < |reports| - 1 ==> reports[..|reports| - 1][i] == reports[i];
      if last > h then last else h
  }

  /**
   * However reports arrive, repeated or out of order, a table ends up
   * recording the highest value reported and has added exactly that much
   * over what it started from: nothing is counted twice.
   */
  lemma {:induction false} AccountIsHighest(previous: nat, reports: seq<nat>)
    ensures Account(previous, reports).0 == Highest(previous, reports)
    ensures Account(previous, reports).1 == Highest(previous, reports) - previous
  {
    if reports != [] {
      AccountIsHighest(previous, reports[..|reports| - 1]);
    }
  }

  /** A report no larger than what is recorded adds nothing. */
  lemma RepeatAddsNothing(previous: nat, reports: seq<nat>, again: nat)
    requires again <= Account(previous, reports).0
    ensures Account(previous, reports + [again]) == (Account(previous, reports).0, Account(previous, reports).1)
  {
    assert (reports + [again])[..|reports|] == reports;
  }

  /** The running totals of a streamed fetch add exactly the body's length to a fresh table. */
  lemma StreamContribution(chunks: seq<ByteCache.Bytes>, total: Option<int>)
    ensures var reports := ByteCache.ProgressReports(chunks, total);
      Account(0, seq(|reports|, i requires 0 <= i < |reports| => reports[i].loaded)).1 == |ByteCache.Flatten(chunks)|
  {
    var reports := ByteCache.ProgressReports(chunks, total);
    var loads := seq(|reports|, i requires 0 <= i < |reports| => reports[i].loaded);
    ByteCache.ReportsMonotone(chunks, total);
    AccountIsHighest(0, loads);
    var h := Highest(0, loads);
    if chunks == [] {
      assert ByteCache.Flatten(chunks) == [];
    } else {
      var n := |loads| - 1;
      forall i | 0 <= i < n ensures loads[i] <= loads[n] {
        assert reports[i].loaded + |chunks[n]| <= reports[n].loaded;
      }
      assert h >= loads[n];
    }
  }

  // The available tables and the file mapping.

  /**
   * `getAvailableTables` with own-key lookups: the manifest's tables that have
   * a file mapping, or every mapped table when the manifest lists none.
   */
  function AvailableTables(m: Metadata.DatasetMetadata): set<string> {
    var listed := if m.tables.Some? then m.tables.value.Keys else {};
    if listed == {} then TableFiles.Keys else set t | t in listed && t in TableFiles
  }

  /** Every available table can be loaded from a file and has a synthetic fixture. */
  lemma AvailableTablesLoadable(m: Metadata.DatasetMetadata)
    ensures AvailableTables(m) <= TableFiles.Keys
    ensures AvailableTables(m) <= SyntheticTables
    ensures m.tables.None? || m.tables.value == map[] ==> AvailableTables(m) == TableFiles.Keys
    ensures m.tables.Some? ==> forall t :: t in m.tables.value && t in TableFiles ==> t in AvailableTables(m)
  {
  }

  /** The names every plain JavaScript object inherits from `Object.prototype`, all of them truthy. */
  const InheritedNames: set<string> := {
    "constructor", "hasOwnProperty", "isPrototypeOf", "propertyIsEnumerable", "toString",
    "toLocaleString", "valueOf", "__proto__", "__defineGetter__", "__defineSetter__",
    "__lookupGetter__", "__lookupSetter__"}

  /** What `tableFiles[table]` yields: an own file name, or an inherited member that is not a file name. */
  datatype Lookup = FileName(name: string) | InheritedMember(name: string)

  /** `tableFiles[table]` as written: a property read that also finds inherited members. */
  function FileLookupAsWritten(table: string): Option<Lookup> {
    if table in TableFiles then Some(FileName(TableFiles[table]))
    else if table in InheritedNames then Some(InheritedMember(table))
    else None
  }

  /** `getAvailableTables` as written: its filter keeps any name `tableFiles[name]` finds. */
  function AvailableTablesAsWritten(m: Metadata.DatasetMetadata): set<string> {
    var listed := if m.tables.Some? then m.tables.value.Keys else {};
    if listed == {} then TableFiles.Keys else set t | t in listed && FileLookupAsWritten(t).Some?
  }

  /**
   * As written, a table named "constructor" passes both lookups: it is offered
   * as available and requesting it raises no "Missing file mapping" error,
   * although it has no backing file.
   */
  lemma InheritedNameSlipsThrough()
    ensures "constructor" !in TableFiles
    ensures FileLookupAsWritten("constructor").Some?
    ensures var m := Metadata.DatasetMetadata("", "dunnhumby", Some(map["constructor" := Metadata.TableMetadata(0, 0, [], None, None)]), 0);
      "constructor" in AvailableTablesAsWritten(m) && "constructor" !in AvailableTables(m)
  {
    var m := Metadata.DatasetMetadata("", "dunnhumby", Some(map["constructor" := Metadata.TableMetadata(0, 0, [], None, None)]), 0);
    assert "constructor" in m.tables.value.Keys;
  }
}
