/** The two sidebar metrics over the filtered records: average delivery time and the
    share of late deliveries. Both are undefined (NaN in pandas, None here) for an
    empty selection. */
module Metrics {
  import opened Wrappers
  import Stats
  import opened Enrichment

  /** The `Is_Late` column as `mean()` reads it: 1 for late, 0 otherwise. */
  function LateIndicators(ds: seq<Delivery>): (xs: seq<real>)
    ensures |xs| == |ds|
    ensures forall i :: 0 <= i < |ds| ==> xs[i] == (if ds[i].isLate then 1.0 else 0.0)
  {
    seq(|ds|, i requires 0 <= i < |ds| => if ds[i].isLate then 1.0 else 0.0)
  }

  /** The number of late deliveries. */
  function LateCount(ds: seq<Delivery>): (n: nat)
    ensures n <= |ds|
  {
    if |ds| == 0 then 0 else (if ds[0].isLate then 1 else 0) + LateCount(ds[1..])
  }

  /** Adding up the 0/1 indicators counts the late deliveries. */
  lemma {:induction false} IndicatorSumIsLateCount(ds: seq<Delivery>)
    ensures Stats.Sum(LateIndicators(ds)) == LateCount(ds) as real
    decreases |ds|
  {
    if |ds| != 0 {
      assert LateIndicators(ds)[1..] == LateIndicators(ds[1..]);
      IndicatorSumIsLateCount(ds[1..]);
    }
  }

  /** `filtered_df['Delivery_Time'].mean()`: undefined for no records, otherwise a
      value between the fastest and the slowest delivery whose `|ds|` copies add up
      to the total delivery time. */
  function AverageDeliveryTime(ds: seq<Delivery>): (r: Option<real>)
    ensures r.None? <==> |ds| == 0
    ensures r.Some? ==> r.value == Stats.Sum(Times(RecordsOf(ds))) / (|ds| as real)
    ensures r.Some? ==>
      Stats.Min(Times(RecordsOf(ds))) <= r.value <= Stats.Max(Times(RecordsOf(ds)))
  {
    Stats.Average(Times(RecordsOf(ds)))
  }

  lemma IndicatorsWithinUnit(ds: seq<Delivery>)
    requires |ds| > 0
    ensures 0.0 <= Stats.Min(LateIndicators(ds)) && Stats.Max(LateIndicators(ds)) <= 1.0
  {
  }

  /** The mean of the late indicators is the share of late records. */
  lemma LateShare(ds: seq<Delivery>)
    requires |ds| > 0
    ensures Stats.Mean(LateIndicators(ds)) == (LateCount(ds) as real) / (|ds| as real)
    ensures 0.0 <= Stats.Mean(LateIndicators(ds)) <= 1.0
  {
    IndicatorSumIsLateCount(ds);
    IndicatorsWithinUnit(ds);
  }

  /** `filtered_df['Is_Late'].mean() * 100`: undefined for no records, otherwise 100
      times the share of late records, so a value in [0, 100]. */
  function LatePercentage(ds: seq<Delivery>): (r: Option<real>)
    ensures r.None? <==> |ds| == 0
    ensures r.Some? ==> r.value == 100.0 * ((LateCount(ds) as real) / (|ds| as real))
    ensures r.Some? ==> 0.0 <= r.value <= 100.0
  {
    if |ds| == 0 then None
    else
      LateShare(ds);
      Some(Stats.Mean(LateIndicators(ds)) * 100.0)
  }
}
