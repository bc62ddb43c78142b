/** The two derived columns: `Is_Late` (delivery time strictly above mean plus one
    standard deviation of the whole cleaned dataset) and `Agent_Age_Group`
    (`pd.cut` of the agent's age into right-closed bins). */
module Enrichment {
  import opened Wrappers
  import Stats
  import opened Records

  predicate Increasing(edges: seq<int>) {
    forall i, j :: 0 <= i < j < |edges| ==> edges[i] < edges[j]
  }

  /** `pd.cut(x, bins = edges)` with its default right-closed bins
      `(edges[i], edges[i + 1]]`: the number of the bin holding `x`, or None (NaN)
      when `x` is at or below the first edge or above the last. */
  function Cut(x: int, edges: seq<int>): (r: Option<nat>)
    requires Increasing(edges)
    ensures r.Some? <==> |edges| >= 2 && edges[0] < x <= edges[|edges| - 1]
    ensures r.Some? ==> r.value + 1 < |edges| && edges[r.value] < x <= edges[r.value + 1]
    decreases |edges|
  {
    if |edges| < 2 then None
    else if edges[0] < x <= edges[1] then Some(0)
    else
      match Cut(x, edges[1..])
      case None => None
      case Some(i) => Some(i + 1)
  }

  /** The three age groups, in bin order. */
  datatype AgeGroup = Under25 | From25To40 | Over40 {
    function Label(): string {
      match this
      case Under25 => "<25"
      case From25To40 => "25\U{2013}40"
      case Over40 => "40+"
    }
  }

  const AgeBins: seq<int> := [0, 25, 40, 100]

  /** The labels `pd.cut` gives the bins of `AgeBins`, in bin order. */
  const AgeLabels: seq<string> := ["<25", "25\U{2013}40", "40+"]

  /** The age group of an agent: the bin of `AgeBins` the age falls in. */
  function AgeBucket(age: int): (g: Option<AgeGroup>)
    ensures g == Some(Under25) <==> 0 < age <= 25
    ensures g == Some(From25To40) <==> 25 < age <= 40
    ensures g == Some(Over40) <==> 40 < age <= 100
    ensures g == None <==> age <= 0 || age > 100
    ensures g.Some? ==> g.value.Label() == AgeLabels[Cut(age, AgeBins).value]
  {
    match Cut(age, AgeBins)
    case None => None
    case Some(i) => Some(if i == 0 then Under25 else if i == 1 then From25To40 else Over40)
  }

  /** The delivery-time column. */
  function Times(recs: seq<Record>): (ts: seq<real>)
    ensures |ts| == |recs|
    ensures forall i :: 0 <= i < |recs| ==> ts[i] == recs[i].deliveryTime
  {
    seq(|recs|, i requires 0 <= i < |recs| => recs[i].deliveryTime)
  }

  /** Mean plus `std` over the whole cleaned column, where `std` stands for the sample
      standard deviation (the square root of `Stats.SampleVariance`). With fewer than two
      rows pandas yields NaN for the deviation (and for the mean of no rows), which is None. */
  function LateThreshold(times: seq<real>, std: real): (t: Option<real>)
    ensures t.Some? <==> |times| >= 2
    ensures t.Some? ==> t.value == Stats.Mean(times) + std
    ensures t.Some? && std >= 0.0 ==> Stats.Min(times) <= t.value
  {
    if |times| < 2 then None else Some(Stats.Mean(times) + std)
  }

  /** Strictly above the threshold; a comparison with NaN is false. */
  predicate IsLate(time: real, threshold: Option<real>) {
    threshold.Some? && time > threshold.value
  }

  /** A cleaned record with its two derived columns. */
  datatype Delivery = Delivery(rec: Record, isLate: bool, ageGroup: Option<AgeGroup>)

  /** The cleaned records underneath enriched ones. */
  function RecordsOf(ds: seq<Delivery>): (recs: seq<Record>)
    ensures |recs| == |ds|
    ensures forall i :: 0 <= i < |ds| ==> recs[i] == ds[i].rec
  {
    seq(|ds|, i requires 0 <= i < |ds| => ds[i].rec)
  }

  /** Adds `Is_Late` and `Agent_Age_Group` to every record, with the threshold computed
      once over all of `recs`. */
  function Enrich(recs: seq<Record>, std: real): (ds: seq<Delivery>)
    ensures |ds| == |recs|
    ensures forall i :: 0 <= i < |ds| ==> ds[i].rec == recs[i]
    ensures forall i :: 0 <= i < |ds| ==>
      ds[i].isLate == IsLate(recs[i].deliveryTime, LateThreshold(Times(recs), std))
    ensures forall i :: 0 <= i < |ds| ==> ds[i].ageGroup == AgeBucket(recs[i].agentAge)
  {
    var threshold := LateThreshold(Times(recs), std);
    seq(|recs|, i requires 0 <= i < |recs| =>
      Delivery(recs[i], IsLate(recs[i].deliveryTime, threshold), AgeBucket(recs[i].agentAge)))
  }

  /** The late rule of the whole pipeline step: a record is late exactly when there are
      at least two records and its delivery time is strictly above their mean plus `std`. */
  lemma LateExactly(recs: seq<Record>, std: real, i: nat)
    requires i < |recs|
    ensures Enrich(recs, std)[i].isLate <==>
      |recs| >= 2 && recs[i].deliveryTime > Stats.Mean(Times(recs)) + std
  {
  }

  /** The label shown for an age: `<25` for 1..25, `25–40` for 26..40, `40+` for 41..100,
      and no label outside the bins. */
  lemma AgeLabelOf(age: int)
    ensures AgeBucket(age).Some? <==> 0 < age <= 100
    ensures 0 < age <= 25 ==> AgeBucket(age).value.Label() == "<25"
    ensures 25 < age <= 40 ==> AgeBucket(age).value.Label() == "25\U{2013}40"
    ensures 40 < age <= 100 ==> AgeBucket(age).value.Label() == "40+"
  {
  }

  /** With fewer than two records there is no threshold and no record is late. */
  lemma FewRecordsNoneLate(recs: seq<Record>, std: real)
    requires |recs| < 2
    ensures forall d :: d in Enrich(recs, std) ==> !d.isLate
  {
  }

  /** A delivery exactly at the threshold is not late: the comparison is strict. */
  lemma AtThresholdNotLate(recs: seq<Record>, std: real, i: nat)
    requires i < |recs| && LateThreshold(Times(recs), std).Some?
    requires recs[i].deliveryTime == LateThreshold(Times(recs), std).value
    ensures !Enrich(recs, std)[i].isLate
  {
  }

  /** With a non-negative deviation, no record at or below the mean is late. */
  lemma AtOrBelowMeanNotLate(recs: seq<Record>, std: real, i: nat)
    requires std >= 0.0 && i < |recs|
    requires recs[i].deliveryTime <= Stats.Mean(Times(recs))
    ensures !Enrich(recs, std)[i].isLate
  {
  }

  /** With a non-negative deviation some record of a non-empty dataset is on time:
      the fastest delivery never exceeds the mean. */
  lemma NotAllLate(recs: seq<Record>, std: real) returns (i: nat)
    requires std >= 0.0 && |recs| > 0
    ensures i < |recs| && !Enrich(recs, std)[i].isLate
  {
    var ts := Times(recs);
    var m := Stats.Min(ts);
    i :| 0 <= i < |ts| && ts[i] == m;
  }
}
