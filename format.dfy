/**
 * The unit choice of `formatBytes` and the threshold of `formatDurationMs`
 * (src/lib/format.ts). Values are reals, so division is exact; the digits
 * `toFixed` prints are not modelled, only the value, the number of decimals
 * and the unit.
 */
module Format {

  /** A JavaScript number: a finite value, NaN or an infinity. */
  datatype Number = Finite(value: real) | NaN | PositiveInfinity | NegativeInfinity

  /** `value.toFixed(digits) + " " + unit`. */
  datatype Rendering = Fixed(value: real, digits: nat, unit: string)

  const Units: seq<string> := ["B", "KB", "MB", "GB"]

  function Pow1024(k: nat): (r: real)
    ensures r >= 1.0
  {
    if k == 0 then 1.0 else 1024.0 * Pow1024(k - 1)
  }

  /** The unit to show: the largest of B, KB, MB, GB whose size does not exceed `bytes`. */
  function UnitIndex(bytes: real): (k: nat)
    ensures k <= 3
  {
    if bytes >= Pow1024(3) then 3
    else if bytes >= Pow1024(2) then 2
    else if bytes >= Pow1024(1) then 1
    else 0
  }

  /** What `formatBytes` renders. */
  function BytesRendering(n: Number): Rendering {
    if !n.Finite? || n.value <= 0.0 then Fixed(0.0, 0, "B")
    else
      var k := UnitIndex(n.value);
      Fixed(n.value / Pow1024(k), if k == 0 then 0 else 1, Units[k])
  }

  /**
   * The `while` loop of `formatBytes`: divide by 1024 while the value is at
   * least 1024 and a larger unit remains.
   */
  method ScaleBytes(bytes: real) returns (value: real, idx: nat)
    requires bytes > 0.0
    ensures idx == UnitIndex(bytes)
    ensures value == bytes / Pow1024(idx)
    ensures value < 1024.0 || idx == 3
    ensures idx > 0 ==> value >= 1.0
  {
    idx := 0;
    value := bytes;
    while value >= 1024.0 && idx < |Units| - 1
      invariant 0 <= idx <= 3
      invariant value == bytes / Pow1024(idx)
      invariant idx > 0 ==> bytes >= Pow1024(idx)
      decreases 3 - idx
    {
      value := value / 1024.0;
      idx := idx + 1;
    }
  }

  /** `formatBytes`: non-finite and non-positive inputs print as "0 B". */
  method FormatBytes(n: Number) returns (r: Rendering)
    ensures r == BytesRendering(n)
  {
    if !n.Finite? || n.value <= 0.0 {
      return Fixed(0.0, 0, "B");
    }
    var value, idx := ScaleBytes(n.value);
    r := Fixed(value, if idx == 0 then 0 else 1, Units[idx]);
  }

  /**
   * A rendered size times its unit's size is the input, and the shown value is
   * below 1024 unless the unit is GB, and at least 1 unless the unit is B.
   */
  lemma BytesRenderingFaithful(bytes: real)
    requires bytes > 0.0
    ensures var r := BytesRendering(Finite(bytes));
      var k := UnitIndex(bytes);
      r.unit == Units[k] && r.value * Pow1024(k) == bytes &&
      (r.unit != "GB" ==> r.value < 1024.0) &&
      (r.unit != "B" ==> r.value >= 1.0 && r.digits == 1) &&
      (r.unit == "B" ==> r.digits == 0)
  {
    var k := UnitIndex(bytes);
    assert Pow1024(k + 1) == 1024.0 * Pow1024(k);
    DivBelow(bytes, Pow1024(k));
  }

  lemma DivBelow(x: real, p: real)
    requires p >= 1.0
    ensures (x / p) * p == x
    ensures x < 1024.0 * p ==> x / p < 1024.0
    ensures x >= p ==> x / p >= 1.0
  {
  }

  /** `formatBytes(1024)` is "1.0 KB". */
  lemma OneKilobyte()
    ensures BytesRendering(Finite(1024.0)) == Fixed(1.0, 1, "KB")
  {
  }

  /** `formatDurationMs`: below one second in milliseconds with no decimals, otherwise seconds with two. */
  function DurationRendering(ms: real): (r: Rendering)
    ensures ms < 1000.0 ==> r.unit == "ms" && r.digits == 0 && r.value == ms
    ensures ms >= 1000.0 ==> r.unit == "s" && r.digits == 2 && r.value * 1000.0 == ms && r.value >= 1.0
  {
    if ms < 1000.0 then Fixed(ms, 0, "ms") else Fixed(ms / 1000.0, 2, "s")
  }

  /** `formatDurationMs(250)` is "250 ms". */
  lemma QuarterSecond()
    ensures DurationRendering(250.0) == Fixed(250.0, 0, "ms")
  {
  }
}
