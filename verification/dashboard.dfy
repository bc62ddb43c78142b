/** The dashboard's data flow: clean and enrich once, then on every change of the
    sidebar selection filter the enriched records and compute the metrics and the
    three grouped views behind the charts. */
module Dashboard {
  import opened Wrappers
  import Stats
  import Seqs
  import opened Records
  import opened Enrichment
  import opened Filters
  import Metrics
  import Grouping

  /** The enriched dataset every filter starts from: the cleaned rows, each flagged late
      exactly when there are at least two of them and its delivery time is strictly above
      their mean plus `std`, the sample standard deviation of the cleaned delivery times,
      and given its age group. */
  function Prepare(rows: seq<RawRow>, std: real): (ds: seq<Delivery>)
    requires Stats.IsSampleDeviation(Times(Clean(rows)), std)
    ensures |ds| == |Clean(rows)|
    ensures forall i :: 0 <= i < |ds| ==> ds[i].rec == Clean(rows)[i]
    ensures forall i :: 0 <= i < |ds| ==> (ds[i].isLate <==>
      |ds| >= 2 && ds[i].rec.deliveryTime > Stats.Mean(Times(Clean(rows))) + std)
    ensures forall i :: 0 <= i < |ds| ==> ds[i].ageGroup == AgeBucket(ds[i].rec.agentAge)
    ensures |ds| > 0 ==> exists i :: 0 <= i < |ds| && !ds[i].isLate
  {
    var recs := Clean(rows);
    var ds := Enrich(recs, std);
    forall i | 0 <= i < |ds|
      ensures ds[i].isLate <==> |ds| >= 2 && ds[i].rec.deliveryTime > Stats.Mean(Times(recs)) + std
    {
      LateExactly(recs, std, i);
    }
    assert |ds| > 0 ==> exists i :: 0 <= i < |ds| && !ds[i].isLate by {
      if |ds| > 0 {
        var i := NotAllLate(recs, std);
      }
    }
    ds
  }

  /** The grouping columns of the three aggregated charts. */
  function WeatherTrafficKey(d: Delivery): (string, string) {
    (d.rec.weather, d.rec.traffic)
  }

  function VehicleKey(d: Delivery): string {
    d.rec.vehicle
  }

  function AreaKey(d: Delivery): string {
    d.rec.area
  }

  /** The records projected to (key, delivery time) rows, as `groupby` sees them. */
  function Keyed<K>(ds: seq<Delivery>, key: Delivery -> K): (rows: seq<(K, real)>)
    ensures |rows| == |ds|
    ensures forall i :: 0 <= i < |ds| ==> rows[i] == (key(ds[i]), ds[i].rec.deliveryTime)
  {
    seq(|ds|, i requires 0 <= i < |ds| => (key(ds[i]), ds[i].rec.deliveryTime))
  }

  /** The key of one record. */
  function KeyOf<K>(key: Delivery -> K, d: Delivery): K {
    key(d)
  }

  /** The mask `df[key] == k`. */
  function HasKey<K(==)>(key: Delivery -> K, k: K): Delivery -> bool {
    (d: Delivery) => key(d) == k
  }

  /** No key appears twice in the view. */
  ghost predicate DistinctViewKeys<K>(view: seq<(K, real)>) {
    forall i, j :: 0 <= i < j < |view| ==> view[i].0 != view[j].0
  }

  /** Every key of the view is the key of some record. */
  ghost predicate KeysFromRecords<K>(records: seq<Delivery>, key: Delivery -> K, view: seq<(K, real)>) {
    forall i :: 0 <= i < |view| ==> view[i].0 in Grouping.Keys(Keyed(records, key))
  }

  /** Every record's key has a row in the view. */
  ghost predicate CoversRecords<K>(records: seq<Delivery>, key: Delivery -> K, view: seq<(K, real)>) {
    forall j :: 0 <= j < |records| ==> KeyOf(key, records[j]) in Grouping.Keys(view)
  }

  /** Every value of the view is the mean delivery time of the records with its key. */
  ghost predicate MeansOfMembers<K>(records: seq<Delivery>, key: Delivery -> K, view: seq<(K, real)>) {
    forall i :: 0 <= i < |view| ==>
      var members := Seqs.Filter(HasKey(key, view[i].0), records);
      |members| > 0 && view[i].1 == Stats.Mean(Times(RecordsOf(members)))
  }

  /** `view` is `records.groupby(key)['Delivery_Time'].mean()`: one row per distinct key
      of the records and no other, each holding the mean delivery time of the records
      with that key. */
  ghost predicate MeanView<K>(records: seq<Delivery>, key: Delivery -> K, view: seq<(K, real)>) {
    && DistinctViewKeys(view)
    && KeysFromRecords(records, key, view)
    && CoversRecords(records, key, view)
    && MeansOfMembers(records, key, view)
  }

  /** A key's times in the projected rows are the delivery times of the records with
      that key, in order. */
  lemma {:induction false} KeyedTimesOf<K>(ds: seq<Delivery>, key: Delivery -> K, k: K)
    ensures Grouping.TimesOf(Keyed(ds, key), k) == Times(RecordsOf(Seqs.Filter(HasKey(key, k), ds)))
    decreases |ds|
  {
    if |ds| != 0 {
      var n := |ds| - 1;
      var init := ds[..n];
      KeyedTimesOf(init, key, k);
      assert ds == init + [ds[n]];
      KeyedSnoc(init, key, ds[n]);
      Grouping.TimesOfSnoc(Keyed(init, key), (key(ds[n]), ds[n].rec.deliveryTime), k);
      Seqs.FilterSnoc(HasKey(key, k), init, ds[n]);
      TimesOfAppend(Seqs.Filter(HasKey(key, k), init), if key(ds[n]) == k then [ds[n]] else []);
    }
  }

  lemma KeyedSnoc<K>(ds: seq<Delivery>, key: Delivery -> K, d: Delivery)
    ensures Keyed(ds + [d], key) == Keyed(ds, key) + [(key(d), d.rec.deliveryTime)]
  {
  }

  /** The delivery times of two runs of records, one after the other. */
  lemma TimesOfAppend(a: seq<Delivery>, b: seq<Delivery>)
    ensures Times(RecordsOf(a + b)) == Times(RecordsOf(a)) + Times(RecordsOf(b))
  {
    assert forall i :: 0 <= i < |a + b| ==> Times(RecordsOf(a + b))[i] == (a + b)[i].rec.deliveryTime;
  }

  /** A view covering every projected row's key covers every record's key. */
  lemma ViewCoversRecords<K>(records: seq<Delivery>, key: Delivery -> K, view: seq<(K, real)>)
    requires forall j :: 0 <= j < |Keyed(records, key)| ==> Keyed(records, key)[j].0 in Grouping.Keys(view)
    ensures CoversRecords(records, key, view)
  {
    var rows := Keyed(records, key);
    forall j | 0 <= j < |records|
      ensures KeyOf(key, records[j]) in Grouping.Keys(view)
    {
      assert rows[j].0 == KeyOf(key, records[j]);
    }
  }

  /** A view holding the mean of each key's projected times holds the mean delivery time
      of the records with that key. */
  lemma ViewMeans<K>(records: seq<Delivery>, key: Delivery -> K, view: seq<(K, real)>)
    requires forall i :: 0 <= i < |view| ==>
      && |Grouping.TimesOf(Keyed(records, key), view[i].0)| > 0
      && view[i].1 == Stats.Mean(Grouping.TimesOf(Keyed(records, key), view[i].0))
      && Stats.Min(Grouping.TimesOf(Keyed(records, key), view[i].0)) <= view[i].1
          <= Stats.Max(Grouping.TimesOf(Keyed(records, key), view[i].0))
    ensures MeansOfMembers(records, key, view)
  {
    forall i | 0 <= i < |view|
      ensures |Seqs.Filter(HasKey(key, view[i].0), records)| > 0
      ensures view[i].1 == Stats.Mean(Times(RecordsOf(Seqs.Filter(HasKey(key, view[i].0), records))))
    {
      KeyedTimesOf(records, key, view[i].0);
    }
  }

  /** `records.groupby(key)['Delivery_Time'].mean()`: grouping the projected rows and
      taking means yields the grouped view of the records. */
  function GroupedView<K(==)>(records: seq<Delivery>, key: Delivery -> K): (view: seq<(K, real)>)
    ensures MeanView(records, key, view)
  {
    var view := Grouping.GroupMeans(Keyed(records, key));
    ViewCoversRecords(records, key, view);
    ViewMeans(records, key, view);
    view
  }

  /** What the page shows for one selection: the two metrics, the three grouped
      views, and the filtered records the scatter and box plots draw directly. */
  datatype Views = Views(
    averageTime: Option<real>,
    latePercentage: Option<real>,
    byWeatherTraffic: seq<((string, string), real)>,
    byVehicle: seq<(string, real)>,
    byArea: seq<(string, real)>,
    records: seq<Delivery>)

  /** One render of the page for a selection: the metrics and the three grouped views,
      all computed over the records matching the selection, which keep their order. */
  function Render(ds: seq<Delivery>, crit: Criteria): (v: Views)
    ensures v.records == Seqs.Filter(MatchesAll(crit), ds)
  {
    var filtered := ApplyFilters(ds, crit);
    Views(
      Metrics.AverageDeliveryTime(filtered),
      Metrics.LatePercentage(filtered),
      GroupedView(filtered, WeatherTrafficKey),
      GroupedView(filtered, VehicleKey),
      GroupedView(filtered, AreaKey),
      filtered)
  }

  /** The average delivery time of a render: undefined when nothing matches, otherwise
      the total delivery time of the records shown over their count. */
  lemma RenderAverage(ds: seq<Delivery>, crit: Criteria)
    ensures var v := Render(ds, crit);
      && (v.averageTime.None? <==> |v.records| == 0)
      && (v.averageTime.Some? ==>
            v.averageTime.value == Stats.Sum(Times(RecordsOf(v.records))) / (|v.records| as real))
  {
    var filtered := ApplyFilters(ds, crit);
    assert Render(ds, crit).records == filtered;
    assert Render(ds, crit).averageTime == Metrics.AverageDeliveryTime(filtered);
  }

  /** The late percentage of a render: undefined when nothing matches, otherwise 100 times
      the late count of the records shown over their count. */
  lemma RenderLatePercentage(ds: seq<Delivery>, crit: Criteria)
    ensures var v := Render(ds, crit);
      && (v.latePercentage.None? <==> |v.records| == 0)
      && (v.latePercentage.Some? ==>
            v.latePercentage.value
              == 100.0 * ((Metrics.LateCount(v.records) as real) / (|v.records| as real)))
  {
    var filtered := ApplyFilters(ds, crit);
    assert Render(ds, crit).records == filtered;
    assert Render(ds, crit).latePercentage == Metrics.LatePercentage(filtered);
  }

  /** The three grouped views of a render are the mean delivery time per weather and
      traffic pair, per vehicle and per area of the records shown. */
  lemma RenderViews(ds: seq<Delivery>, crit: Criteria)
    ensures var v := Render(ds, crit);
      && MeanView(v.records, WeatherTrafficKey, v.byWeatherTraffic)
      && MeanView(v.records, VehicleKey, v.byVehicle)
      && MeanView(v.records, AreaKey, v.byArea)
  {
  }

  /** An empty selection result is shown as "no data": both metrics undefined and every
      grouped view empty, rather than a failure. */
  lemma EmptySelectionShowsNoData(ds: seq<Delivery>, crit: Criteria)
    requires ApplyFilters(ds, crit) == []
    ensures var v := Render(ds, crit);
      && v.averageTime == None && v.latePercentage == None
      && v.byWeatherTraffic == [] && v.byVehicle == [] && v.byArea == []
  {
  }

  /** Whatever the selection, every record the filters keep carries the late flag computed
      against the threshold of the whole cleaned dataset, and its age group. */
  lemma FlagsIndependentOfSelection(rows: seq<RawRow>, std: real, crit: Criteria)
    requires Stats.IsSampleDeviation(Times(Clean(rows)), std)
    ensures forall d :: d in ApplyFilters(Prepare(rows, std), crit) ==>
      && d.isLate == IsLate(d.rec.deliveryTime, LateThreshold(Times(Clean(rows)), std))
      && d.ageGroup == AgeBucket(d.rec.agentAge)
  {
    var ds := Prepare(rows, std);
    PrepareIsEnrich(rows, std);
    forall d | d in ApplyFilters(ds, crit)
      ensures d.isLate == IsLate(d.rec.deliveryTime, LateThreshold(Times(Clean(rows)), std))
      ensures d.ageGroup == AgeBucket(d.rec.agentAge)
    {
      EnrichedFlags(Clean(rows), std, d);
    }
  }

  /** The prepared dataset is the enrichment of the cleaned rows. */
  lemma PrepareIsEnrich(rows: seq<RawRow>, std: real)
    requires Stats.IsSampleDeviation(Times(Clean(rows)), std)
    ensures Prepare(rows, std) == Enrich(Clean(rows), std)
  {
  }

  /** Every enriched record carries the flag of the whole input's threshold and its age group. */
  lemma EnrichedFlags(recs: seq<Record>, std: real, d: Delivery)
    requires d in Enrich(recs, std)
    ensures d.isLate == IsLate(d.rec.deliveryTime, LateThreshold(Times(recs), std))
    ensures d.ageGroup == AgeBucket(d.rec.agentAge)
  {
    var ds := Enrich(recs, std);
    var i :| 0 <= i < |ds| && ds[i] == d;
  }

  function Sample(weather: string, vehicle: string, time: real): Record {
    Record(weather, "Low", vehicle, "Food", "Urban", 4.5, 30, time, [])
  }

  function ScenarioRecords(): seq<Record> {
    [Sample("Sunny", "Bike", 10.0), Sample("Sunny", "Bike", 20.0),
     Sample("Sunny", "Bike", 30.0), Sample("Sunny", "Bike", 100.0)]
  }

  lemma ScenarioTimes()
    ensures Times(ScenarioRecords()) == [10.0, 20.0, 30.0, 100.0]
  {
  }

  lemma ScenarioSum()
    ensures Stats.Sum([10.0, 20.0, 30.0, 100.0]) == 160.0
  {
    var ts := [10.0, 20.0, 30.0, 100.0];
    assert ts[1..] == [20.0, 30.0, 100.0] && ts[1..][1..] == [30.0, 100.0];
    assert ts[1..][1..][1..] == [100.0] && ts[1..][1..][1..][1..] == [];
  }

  lemma ScenarioDeviations()
    ensures Stats.SquaredDeviations([10.0, 20.0, 30.0, 100.0], 40.0) == 5000.0
  {
    var ts := [10.0, 20.0, 30.0, 100.0];
    assert ts[1..] == [20.0, 30.0, 100.0] && ts[1..][1..] == [30.0, 100.0];
    assert ts[1..][1..][1..] == [100.0] && ts[1..][1..][1..][1..] == [];
  }

  lemma ScenarioStatistics()
    ensures Times(ScenarioRecords()) == [10.0, 20.0, 30.0, 100.0]
    ensures Stats.Mean([10.0, 20.0, 30.0, 100.0]) == 40.0
    ensures Stats.SampleVariance([10.0, 20.0, 30.0, 100.0]) == 5000.0 / 3.0
  {
    ScenarioTimes();
    ScenarioMean();
    ScenarioVariance();
  }

  lemma ScenarioMean()
    ensures Stats.Mean([10.0, 20.0, 30.0, 100.0]) == 40.0
  {
    ScenarioSum();
  }

  lemma ScenarioVariance()
    ensures Stats.SampleVariance([10.0, 20.0, 30.0, 100.0]) == 5000.0 / 3.0
  {
    ScenarioMean();
    ScenarioDeviations();
  }

  /** A non-negative deviation whose square is 5000/3 is below 60. */
  lemma ScenarioDeviationBound(std: real)
    requires std >= 0.0 && std * std == 5000.0 / 3.0
    ensures std < 60.0
  {
  }

  lemma ScenarioFlags(std: real)
    requires 0.0 <= std < 60.0
    ensures var ds := Enrich(ScenarioRecords(), std);
      !ds[0].isLate && !ds[1].isLate && !ds[2].isLate && ds[3].isLate
  {
    ScenarioStatistics();
  }

  lemma OneLateOfFour(ds: seq<Delivery>)
    requires |ds| == 4 && !ds[0].isLate && !ds[1].isLate && !ds[2].isLate && ds[3].isLate
    ensures Metrics.LateCount(ds) == 1
  {
    var d1, d2, d3 := ds[1..], ds[2..], ds[3..];
    assert d3[1..] == [] && d2[1..] == d3 && d1[1..] == d2;
    assert Metrics.LateCount(d3) == 1;
    assert Metrics.LateCount(d2) == 1;
    assert Metrics.LateCount(d1) == 1;
  }

  /** Four deliveries of 10, 20, 30 and 100 minutes: mean 40, sample standard deviation
      about 40.8, so only the 100-minute delivery is late and the late share is 25%. */
  lemma LateScenario(std: real)
    requires std >= 0.0 && std * std == Stats.SampleVariance([10.0, 20.0, 30.0, 100.0])
    ensures Metrics.LatePercentage(Enrich(ScenarioRecords(), std)) == Some(25.0)
  {
    ScenarioStatistics();
    ScenarioDeviationBound(std);
    QuarterLate(std);
  }

  lemma QuarterLate(std: real)
    requires 0.0 <= std < 60.0
    ensures Metrics.LatePercentage(Enrich(ScenarioRecords(), std)) == Some(25.0)
  {
    var ds := Enrich(ScenarioRecords(), std);
    ScenarioFlags(std);
    OneLateOfFour(ds);
    QuarterOfFour(ds);
  }

  lemma QuarterOfFour(ds: seq<Delivery>)
    requires |ds| == 4 && Metrics.LateCount(ds) == 1
    ensures Metrics.LatePercentage(ds) == Some(25.0)
  {
  }

  lemma VehicleKeys()
    ensures Grouping.DistinctKeys(["Bike", "Bike", "Car"]) == ["Bike", "Car"]
  {
    assert ["Bike", "Bike", "Car"][..2] == ["Bike", "Bike"];
    assert ["Bike", "Bike"][..1] == ["Bike"];
    assert |["Bike"][..0]| == 0;
  }

  lemma VehicleTimes()
    ensures Grouping.TimesOf([("Bike", 10.0), ("Bike", 20.0), ("Car", 30.0)], "Bike") == [10.0, 20.0]
    ensures Grouping.TimesOf([("Bike", 10.0), ("Bike", 20.0), ("Car", 30.0)], "Car") == [30.0]
  {
    var rows: seq<(string, real)> := [("Bike", 10.0), ("Bike", 20.0), ("Car", 30.0)];
    assert rows[..2] == [("Bike", 10.0), ("Bike", 20.0)];
    assert rows[..2][..1] == [("Bike", 10.0)];
    assert |rows[..2][..1][..0]| == 0;
  }

  lemma VehicleGroups()
    ensures Grouping.GroupBy([("Bike", 10.0), ("Bike", 20.0), ("Car", 30.0)])
      == [Grouping.Group("Bike", [10.0, 20.0]), Grouping.Group("Car", [30.0])]
  {
    var rows: seq<(string, real)> := [("Bike", 10.0), ("Bike", 20.0), ("Car", 30.0)];
    assert Grouping.Keys(rows) == ["Bike", "Bike", "Car"];
    VehicleKeys();
    VehicleTimes();
  }

  lemma VehicleMeans()
    ensures Stats.Mean([10.0, 20.0]) == 15.0
    ensures Stats.Mean([30.0]) == 30.0
  {
    assert [10.0, 20.0][1..] == [20.0];
    assert [20.0][1..] == [] && [30.0][1..] == [];
  }

  /** Grouping by vehicle two bike deliveries of 10 and 20 minutes and a car delivery of
      30 minutes gives a bike mean of 15 and a car mean of 30. */
  lemma VehicleScenario()
    ensures Grouping.GroupMeans([("Bike", 10.0), ("Bike", 20.0), ("Car", 30.0)])
      == [("Bike", 15.0), ("Car", 30.0)]
  {
    VehicleGroups();
    VehicleMeans();
  }

  function Shown(weather: string, time: real): Delivery {
    Delivery(Sample(weather, "Bike", time), false, Some(From25To40))
  }

  lemma SunnyMatches(t: real)
    ensures MatchesAll(Criteria({"Sunny"}, {}, {}, {}, {}))(Shown("Sunny", t))
    ensures !MatchesAll(Criteria({"Sunny"}, {}, {}, {}, {}))(Shown("Rainy", t))
  {
    assert "Rainy"[0] != "Sunny"[0];
  }

  function SunnyOnly(): Criteria {
    Criteria({"Sunny"}, {}, {}, {}, {})
  }

  function WeatherSample(): seq<Delivery> {
    [Shown("Sunny", 10.0), Shown("Rainy", 20.0), Shown("Sunny", 30.0),
     Shown("Rainy", 40.0), Shown("Sunny", 50.0)]
  }

  /** `SunnyUpTo<n>`: the filter over the first `n` sample deliveries, one delivery
      added per step. */
  lemma SunnyUpTo1()
    ensures Seqs.Filter(MatchesAll(SunnyOnly()), WeatherSample()[..1]) == [Shown("Sunny", 10.0)]
  {
    var ds := WeatherSample();
    SunnyMatches(10.0);
    assert ds[..1][..0] == [];
  }

  lemma SunnyUpTo2()
    ensures Seqs.Filter(MatchesAll(SunnyOnly()), WeatherSample()[..2]) == [Shown("Sunny", 10.0)]
  {
    var ds := WeatherSample();
    SunnyUpTo1();
    SunnyMatches(20.0);
    Seqs.FilterSnoc(MatchesAll(SunnyOnly()), ds[..1], ds[1]);
    assert ds[..1] + [ds[1]] == ds[..2];
  }

  lemma SunnyUpTo3()
    ensures Seqs.Filter(MatchesAll(SunnyOnly()), WeatherSample()[..3])
      == [Shown("Sunny", 10.0), Shown("Sunny", 30.0)]
  {
    var ds := WeatherSample();
    SunnyUpTo2();
    SunnyMatches(30.0);
    Seqs.FilterSnoc(MatchesAll(SunnyOnly()), ds[..2], ds[2]);
    assert ds[..2] + [ds[2]] == ds[..3];
  }

  lemma SunnyUpTo4()
    ensures Seqs.Filter(MatchesAll(SunnyOnly()), WeatherSample()[..4])
      == [Shown("Sunny", 10.0), Shown("Sunny", 30.0)]
  {
    var ds := WeatherSample();
    SunnyUpTo3();
    SunnyMatches(40.0);
    Seqs.FilterSnoc(MatchesAll(SunnyOnly()), ds[..3], ds[3]);
    assert ds[..3] + [ds[3]] == ds[..4];
  }

  lemma SunnyFilter()
    ensures Seqs.Filter(MatchesAll(SunnyOnly()), WeatherSample())
      == [Shown("Sunny", 10.0), Shown("Sunny", 30.0), Shown("Sunny", 50.0)]
  {
    var ds := WeatherSample();
    SunnyUpTo4();
    SunnyMatches(50.0);
    Seqs.FilterSnoc(MatchesAll(SunnyOnly()), ds[..4], ds[4]);
    assert ds[..4] + [ds[4]] == ds;
  }

  /** Selecting the weather "Sunny" from three sunny and two rainy deliveries keeps the
      three sunny ones, in their original order. */
  lemma SunnyScenario()
    ensures ApplyFilters(WeatherSample(), SunnyOnly())
      == [WeatherSample()[0], WeatherSample()[2], WeatherSample()[4]]
  {
    SunnyFilter();
  }
}
