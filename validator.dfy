/**
 * The dataset validator of scripts/validate_data.py: an ordered list of
 * integrity checks over the metadata file and the Parquet tables that stops
 * at the first failure. Reading files is modelled by a `Dataset` value (the
 * files that exist, already read), and `pd.to_datetime(..., errors='coerce')`
 * by a per-cell parse oracle.
 */
module Validator {
  import opened Wrappers

  /**
   * A cell of a data frame. Numbers compare by value whatever their column's
   * dtype (an integer 1 equals a float 1.0), so both are one `Num`. `Missing`
   * is pandas' NaN/None.
   */
  datatype Cell = Num(value: real) | Text(s: string) | Missing

  /** A data frame: ordered column names, each column's cells, and the row count. */
  datatype RawFrame = RawFrame(columns: seq<string>, data: map<string, seq<Cell>>, rows: nat)

  predicate WellFormed(f: RawFrame) {
    (forall i, j :: 0 <= i < j < |f.columns| ==> f.columns[i] != f.columns[j]) &&
    (forall c :: c in f.columns ==> c in f.data) &&
    (forall c :: c in f.data ==> c in f.columns) &&
    (forall c :: c in f.data ==> |f.data[c]| == f.rows)
  }

  type Frame = f: RawFrame | WellFormed(f) witness RawFrame([], map[], 0)

  /** `df.empty`: no rows or no columns. */
  predicate Empty(f: Frame) {
    f.rows == 0 || |f.columns| == 0
  }

  /** data/metadata.json as far as the validator reads it: the keys of its `tables` entry, if any. */
  datatype MetadataFile = MetadataFile(tables: Option<set<string>>)

  /** The metadata file if it exists, and the Parquet files that exist, by table name. */
  datatype Dataset = Dataset(metadata: Option<MetadataFile>, files: map<string, Frame>)

  /** The reason `fail` is called with. */
  datatype Failure =
    | MissingMetadata
    | MissingTableEntry(table: string)
    | MissingParquetFile(table: string)
    | NoRows(name: string)
    | DuplicateProductIds
    | UnknownProductIds
    | UnparsableDates(column: string)
    | InvalidDateRange(column: string)
    | NegativeValues(column: string)
    | MissingCoupons

  /** "Data validation passed." or the first failure (exit status 1). */
  datatype Verdict = Pass | Fail(failure: Failure)

  /** The text after "ERROR: "; `dataDir` is the absolute path of data/parquet. */
  function Message(f: Failure, dataDir: string): string {
    match f
    case MissingMetadata => "Missing data/metadata.json. Run scripts/prepare_data.R to generate data."
    case MissingTableEntry(t) => "Metadata missing table entry: " + t
    case MissingParquetFile(t) => "Missing parquet file: " + dataDir + "/" + t + ".parquet"
    case NoRows(name) => name + " table has no rows."
    case DuplicateProductIds => "Products.product_id has duplicates."
    case UnknownProductIds => "Transactions contain product_id values not found in products."
    case UnparsableDates(c) => "Date column " + c + " could not be parsed."
    case InvalidDateRange(c) => "Date column " + c + " has invalid range."
    case NegativeValues(c) => "Transactions." + c + " has negative values."
    case MissingCoupons => "Coupon redemptions reference missing coupons."
  }

  /** What the script prints, and its exit status: `fail` prefixes "ERROR: " and exits with 1. */
  function Report(v: Verdict, dataDir: string): (r: (string, int))
    ensures r.1 == 0 <==> v.Pass?
    ensures v.Pass? ==> r.0 == "Data validation passed."
    ensures v.Fail? ==> r.1 == 1 && r.0 == "ERROR: " + Message(v.failure, dataDir)
  {
    match v
    case Pass => ("Data validation passed.", 0)
    case Fail(f) => ("ERROR: " + Message(f, dataDir), 1)
  }

  /** A missing file's report names the file under the data directory. */
  lemma MissingFileReport(dataDir: string, table: string)
    ensures Report(Fail(MissingParquetFile(table)), dataDir) == ("ERROR: Missing parquet file: " + dataDir + "/" + table + ".parquet", 1)
  {
    var e, m := "ERROR: ", "Missing parquet file: ";
    assert e + m == "ERROR: Missing parquet file: ";
    assert Message(MissingParquetFile(table), dataDir) == m + dataDir + "/" + table + ".parquet";
    assert e + (m + dataDir + "/" + table + ".parquet") == e + m + dataDir + "/" + table + ".parquet";
  }

  const Required: seq<string> := ["transactions", "products", "households"]

  /** The first required table that the metadata does not list. */
  function FirstUnlisted(required: seq<string>, listed: set<string>): (r: Option<string>)
    ensures r.None? <==> forall t :: t in required ==> t in listed
    ensures r.Some? ==> exists k :: 0 <= k < |required| && required[k] == r.value && r.value !in listed &&
                          forall j :: 0 <= j < k ==> required[j] in listed
  {
    if required == [] then None
    else if required[0] !in listed then Some(required[0])
    else
      var rest := FirstUnlisted(required[1..], listed);
      assert rest.Some? ==> exists k :: 0 <= k < |required| && required[k] == rest.value && rest.value !in listed &&
                              forall j :: 0 <= j < k ==> required[j] in listed by {
        if rest.Some? {
          var k :| 0 <= k < |required[1..]| && required[1..][k] == rest.value && rest.value !in listed &&
            forall j :: 0 <= j < k ==> required[1..][j] in listed;
          assert required[k + 1] == rest.value;
        }
      }
      rest
  }

  /** `series.duplicated().any()`: some value occurs twice (two NaNs count as equal). */
  function HasDuplicates(s: seq<Cell>): (r: bool)
    ensures r <==> exists i, j :: 0 <= i < j < |s| && s[i] == s[j]
  {
    if s == [] then false
    else if s[0] in s[1..] then
      assert exists j :: 0 < j < |s| && s[0] == s[j] by {
        var j :| 0 <= j < |s[1..]| && s[1..][j] == s[0];
        assert s[0] == s[j + 1];
      }
      true
    else
      var rest := HasDuplicates(s[1..]);
      assert rest <==> exists i, j :: 0 <= i < j < |s| && s[i] == s[j] by {
        if rest {
          var i, j :| 0 <= i < j < |s[1..]| && s[1..][i] == s[1..][j];
          assert s[i + 1] == s[j + 1];
        } else {
          forall i, j | 0 <= i < j < |s| ensures s[i] != s[j] {
            if i > 0 {
              assert s[i] == s[1..][i - 1] && s[j] == s[1..][j - 1];
            } else {
              assert s[j] in s[1..];
            }
          }
        }
      }
      rest
  }

  predicate MatchesAt(text: string, pattern: string, i: nat) {
    i + |pattern| <= |text| && text[i..i + |pattern|] == pattern
  }

  /** `pattern in text` for strings. */
  predicate Contains(text: string, pattern: string) {
    exists i :: 0 <= i <= |text| - |pattern| && MatchesAt(text, pattern, i)
  }

  /** A transactions column the date checks look at. */
  predicate DateLike(column: string) {
    Contains(column, "date") || Contains(column, "timestamp")
  }

  /** The timestamps that `pd.to_datetime(..., errors='coerce')` recovers from a column, NaT dropped. */
  function Parsed(cells: seq<Cell>, parse: Cell -> Option<int>): (r: seq<int>)
    ensures |r| <= |cells|
    ensures r == [] <==> forall c :: c in cells ==> parse(c).None?
  {
    if cells == [] then []
    else (if parse(cells[0]).Some? then [parse(cells[0]).value] else []) + Parsed(cells[1..], parse)
  }

  /** `parsed.min()`. */
  function Min(s: seq<int>): (m: int)
    requires s != []
    ensures m in s && forall x :: x in s ==> m <= x
  {
    if |s| == 1 then s[0]
    else
      var rest := Min(s[1..]);
      assert forall x :: x in s ==> x == s[0] || x in s[1..];
      if s[0] <= rest then s[0] else rest
  }

  /** `parsed.max()`. */
  function Max(s: seq<int>): (m: int)
    requires s != []
    ensures m in s && forall x :: x in s ==> x <= m
  {
    if |s| == 1 then s[0]
    else
      var rest := Max(s[1..]);
      assert forall x :: x in s ==> x == s[0] || x in s[1..];
      if s[0] >= rest then s[0] else rest
  }

  /** The first failing date check over the given columns of the transactions frame, in column order. */
  function FirstDateFailure(columns: seq<string>, t: Frame, parse: Cell -> Option<int>): (r: Option<Failure>)
    ensures r.None? <==> forall c :: c in columns && DateLike(c) && c in t.data ==> Parsed(t.data[c], parse) != []
    ensures r.Some? ==> exists k :: 0 <= k < |columns| && r.value == UnparsableDates(columns[k]) &&
                          Undated(columns[k], t, parse) && forall j :: 0 <= j < k ==> !Undated(columns[j], t, parse)
    decreases columns, 1
  {
    if columns == [] then None
    else
      var c := columns[0];
      if DateLike(c) && c in t.data then
        var parsed := Parsed(t.data[c], parse);
        if parsed == [] then Some(UnparsableDates(c))
        else if Min(parsed) > Max(parsed) then Some(InvalidDateRange(c))
        else DateFailureRest(columns, t, parse)
      else DateFailureRest(columns, t, parse)
  }

  /** The date checks after the first column; shifts the witness of `FirstDateFailure`'s contract by one. */
  function DateFailureRest(columns: seq<string>, t: Frame, parse: Cell -> Option<int>): (r: Option<Failure>)
    requires columns != []
    ensures r == FirstDateFailure(columns[1..], t, parse)
    ensures r.Some? ==> exists k :: 1 <= k < |columns| && r.value == UnparsableDates(columns[k]) &&
                          Undated(columns[k], t, parse) && forall j :: 1 <= j < k ==> !Undated(columns[j], t, parse)
    decreases columns, 0
  {
    var r := FirstDateFailure(columns[1..], t, parse);
    assert r.Some? ==> exists k :: 1 <= k < |columns| && r.value == UnparsableDates(columns[k]) &&
                         Undated(columns[k], t, parse) && forall j :: 1 <= j < k ==> !Undated(columns[j], t, parse) by {
      if r.Some? {
        var k :| 0 <= k < |columns[1..]| && r.value == UnparsableDates(columns[1..][k]) &&
          Undated(columns[1..][k], t, parse) && forall j :: 0 <= j < k ==> !Undated(columns[1..][j], t, parse);
        assert columns[k + 1] == columns[1..][k];
        forall j | 1 <= j < k + 1 ensures !Undated(columns[j], t, parse) {
          assert columns[j] == columns[1..][j - 1];
        }
      }
    }
    r
  }

  /** A date-like column present in the frame from which the parse recovers no timestamp. */
  predicate Undated(c: string, t: Frame, parse: Cell -> Option<int>) {
    DateLike(c) && c in t.data && Parsed(t.data[c], parse) == []
  }

  /** `(frame[column] < 0).any()` for one value. */
  predicate Negative(c: Cell) {
    c.Num? && c.value < 0.0
  }

  /** A column exists and holds a negative value. */
  predicate HasNegative(t: Frame, column: string) {
    column in t.data && exists c :: c in t.data[column] && Negative(c)
  }

  /** The `(coupon_upc, campaign_id)` pair of each row of a frame that has both columns. */
  function CouponKeys(f: Frame): (r: seq<(Cell, Cell)>)
    requires "coupon_upc" in f.data && "campaign_id" in f.data
    ensures |r| == f.rows
    ensures forall i :: 0 <= i < f.rows ==> r[i] == (f.data["coupon_upc"][i], f.data["campaign_id"][i])
  {
    seq(f.rows, i requires 0 <= i < f.rows => (f.data["coupon_upc"][i], f.data["campaign_id"][i]))
  }

  /** The coupon join check: runs only when both files and all four key columns exist. */
  predicate CouponsBroken(files: map<string, Frame>) {
    "coupon_redemptions" in files && "coupons" in files &&
    "coupon_upc" in files["coupon_redemptions"].data && "campaign_id" in files["coupon_redemptions"].data &&
    "coupon_upc" in files["coupons"].data && "campaign_id" in files["coupons"].data &&
    exists key :: key in CouponKeys(files["coupon_redemptions"]) && key !in CouponKeys(files["coupons"])
  }

  /** The structural checks: the metadata file, its table entries, the three files, and their rows. */
  function StructureFailure(d: Dataset): (r: Option<Failure>)
    ensures r.None? <==> StructureOk(d)
    ensures r.Some? ==> r.value.MissingMetadata? || r.value.MissingTableEntry? || r.value.MissingParquetFile? || r.value.NoRows?
  {
    if d.metadata.None? then Some(MissingMetadata)
    else
      var unlisted := FirstUnlisted(Required, d.metadata.value.tables.GetOr({}));
      if unlisted.Some? then Some(MissingTableEntry(unlisted.value))
      else if "transactions" !in d.files then Some(MissingParquetFile("transactions"))
      else if "products" !in d.files then Some(MissingParquetFile("products"))
      else if "households" !in d.files then Some(MissingParquetFile("households"))
      else if Empty(d.files["transactions"]) then Some(NoRows("Transactions"))
      else if Empty(d.files["products"]) then Some(NoRows("Products"))
      else if Empty(d.files["households"]) then Some(NoRows("Households"))
      else None
  }

  /**
   * Whether the set difference of the product check removes the transaction
   * id `c`: a missing id is a float NaN there, and no NaN equals another.
   */
  predicate Known(c: Cell, ids: seq<Cell>) {
    !c.Missing? && c in ids
  }

  /**
   * A transaction with a missing product id fails the value checks, even when
   * the products also hold a missing id.
   */
  lemma MissingProductIdUnknown(t: Frame, p: Frame, files: map<string, Frame>, parse: Cell -> Option<int>)
    requires "product_id" in t.data && "product_id" in p.data && Missing in t.data["product_id"]
    ensures ValueFailure(t, p, files, parse) in {Some(DuplicateProductIds), Some(UnknownProductIds)}
  {
  }

  /** The value checks on the transactions and products frames, then the coupon join. */
  function ValueFailure(t: Frame, p: Frame, files: map<string, Frame>, parse: Cell -> Option<int>): (r: Option<Failure>)
    ensures r.None? <==> ValuesOk(t, p, files, parse)
    ensures r.Some? ==> !r.value.InvalidDateRange?
  {
    if "product_id" in p.data && HasDuplicates(p.data["product_id"]) then Some(DuplicateProductIds)
    else if "product_id" in t.data && "product_id" in p.data &&
      (exists c :: c in t.data["product_id"] && !Known(c, p.data["product_id"])) then Some(UnknownProductIds)
    else
      var dates := FirstDateFailure(t.columns, t, parse);
      assert dates.None? <==> forall c :: c in t.data && DateLike(c) ==> Parsed(t.data[c], parse) != [] by {
        assert forall c :: c in t.data <==> c in t.columns;
      }
      if dates.Some? then dates
      else if HasNegative(t, "week") then Some(NegativeValues("week"))
      else if HasNegative(t, "day") then Some(NegativeValues("day"))
      else if CouponsBroken(files) then Some(MissingCoupons)
      else None
  }

  /**
   * The checks of the script in their order; the first failure wins. The
   * script prints "Data validation passed." exactly when the dataset is
   * complete, every date column parses somewhere, and the keys and counts are
   * sound.
   */
  function Validate(d: Dataset, parse: Cell -> Option<int>): (r: Verdict)
    ensures r == Pass <==> StructureOk(d) && ValuesOk(d.files["transactions"], d.files["products"], d.files, parse)
  {
    match StructureFailure(d)
    case Some(f) => Fail(f)
    case None =>
      match ValueFailure(d.files["transactions"], d.files["products"], d.files, parse)
      case Some(f) => Fail(f)
      case None => Pass
  }

  /** The structure the script demands: metadata listing the three tables, whose files exist and have rows. */
  predicate StructureOk(d: Dataset) {
    d.metadata.Some? &&
    (forall t :: t in Required ==> t in d.metadata.value.tables.GetOr({})) &&
    (forall t :: t in Required ==> t in d.files && !Empty(d.files[t]))
  }

  /** The value integrity the script demands of the transactions, products and coupon tables. */
  ghost predicate ValuesOk(t: Frame, p: Frame, files: map<string, Frame>, parse: Cell -> Option<int>) {
    ("product_id" in p.data ==>
      forall i, j :: 0 <= i < j < |p.data["product_id"]| ==> p.data["product_id"][i] != p.data["product_id"][j]) &&
    ("product_id" in t.data && "product_id" in p.data ==>
      forall c :: c in t.data["product_id"] ==> Known(c, p.data["product_id"])) &&
    (forall c :: c in t.data && DateLike(c) ==> Parsed(t.data[c], parse) != []) &&
    (forall x :: "week" in t.data && x in t.data["week"] ==> !Negative(x)) &&
    (forall x :: "day" in t.data && x in t.data["day"] ==> !Negative(x)) &&
    !CouponsBroken(files)
  }

  /** The date range check can never fire: a non-empty set of timestamps has min <= max. */
  lemma RangeCheckNeverFires(d: Dataset, parse: Cell -> Option<int>, column: string)
    ensures Validate(d, parse) != Fail(InvalidDateRange(column))
  {
  }

  /** A missing entry is reported for the first unlisted required table, and only after the metadata was found. */
  lemma MissingEntryIsFirst(d: Dataset, parse: Cell -> Option<int>, table: string)
    requires Validate(d, parse) == Fail(MissingTableEntry(table))
    ensures d.metadata.Some? && table !in d.metadata.value.tables.GetOr({})
    ensures exists k :: 0 <= k < |Required| && Required[k] == table &&
              forall j :: 0 <= j < k ==> Required[j] in d.metadata.value.tables.GetOr({})
  {
  }

  /** The value checks run only on a complete, non-empty dataset. */
  lemma ValueChecksFollowStructure(d: Dataset, parse: Cell -> Option<int>)
    requires Validate(d, parse) in
      {Fail(DuplicateProductIds), Fail(UnknownProductIds), Fail(NegativeValues("week")), Fail(NegativeValues("day")), Fail(MissingCoupons)}
    ensures d.metadata.Some? && forall t :: t in Required ==> t in d.metadata.value.tables.GetOr({})
    ensures forall t :: t in Required ==> t in d.files && !Empty(d.files[t])
  {
  }

  /** A negative `day` is reported only when `week` has none. */
  lemma DayCheckedAfterWeek(d: Dataset, parse: Cell -> Option<int>)
    requires Validate(d, parse) == Fail(NegativeValues("day"))
    ensures HasNegative(d.files["transactions"], "day") && !HasNegative(d.files["transactions"], "week")
  {
  }
}
