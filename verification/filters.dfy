/** The sidebar filter chain: five optional inclusion lists, applied one after the
    other; an empty list leaves its column unrestricted. */
module Filters {
  import Seqs
  import opened Enrichment

  /** The categorical columns a user can filter on. */
  datatype Column = Weather | Traffic | Vehicle | Category | Area

  function Attr(d: Delivery, c: Column): string {
    match c
    case Weather => d.rec.weather
    case Traffic => d.rec.traffic
    case Vehicle => d.rec.vehicle
    case Category => d.rec.category
    case Area => d.rec.area
  }

  /** The values chosen in each multiselect widget; only membership matters. */
  datatype Criteria = Criteria(
    weather: set<string>,
    traffic: set<string>,
    vehicle: set<string>,
    category: set<string>,
    area: set<string>)

  const NoSelection := Criteria({}, {}, {}, {}, {})

  /** An empty selection admits every value. */
  predicate Admits(selection: set<string>, value: string) {
    selection == {} || value in selection
  }

  function AdmitsOn(selection: set<string>, c: Column): Delivery -> bool {
    (d: Delivery) => Admits(selection, Attr(d, c))
  }

  /** A record passes the criteria when each of its five columns is admitted. */
  predicate Matches(crit: Criteria, d: Delivery) {
    && Admits(crit.weather, d.rec.weather)
    && Admits(crit.traffic, d.rec.traffic)
    && Admits(crit.vehicle, d.rec.vehicle)
    && Admits(crit.category, d.rec.category)
    && Admits(crit.area, d.rec.area)
  }

  function MatchesAll(crit: Criteria): Delivery -> bool {
    (d: Delivery) => Matches(crit, d)
  }

  /** One step of the chain: `if sel: df = df[df[col].isin(sel)]`. */
  function Restrict(ds: seq<Delivery>, selection: set<string>, c: Column): (r: seq<Delivery>)
    ensures r == Seqs.Filter(AdmitsOn(selection, c), ds)
  {
    if selection == {} then
      Seqs.FilterKeepsAll(AdmitsOn(selection, c), ds);
      ds
    else
      var inSelection := (d: Delivery) => Attr(d, c) in selection;
      Seqs.FilterSamePredicate(inSelection, AdmitsOn(selection, c), ds);
      Seqs.Filter(inSelection, ds)
  }

  /** The five restrictions applied in the order the dashboard applies them. The result is
      the single filter by the conjunction of all five admissions: it keeps exactly the
      matching records, in their original order, unchanged. */
  function ApplyFilters(ds: seq<Delivery>, crit: Criteria): (r: seq<Delivery>)
    ensures r == Seqs.Filter(MatchesAll(crit), ds)
    ensures forall d :: d in r ==> d in ds && Matches(crit, d)
    ensures forall d :: d in ds && Matches(crit, d) ==> d in r
  {
    var byWeather := Restrict(ds, crit.weather, Weather);
    var byTraffic := Restrict(byWeather, crit.traffic, Traffic);
    var byVehicle := Restrict(byTraffic, crit.vehicle, Vehicle);
    var byCategory := Restrict(byVehicle, crit.category, Category);
    var byArea := Restrict(byCategory, crit.area, Area);
    ChainIsConjunction(ds, crit);
    byArea
  }

  lemma ChainIsConjunction(ds: seq<Delivery>, crit: Criteria)
    ensures
      var w := Seqs.Filter(AdmitsOn(crit.weather, Weather), ds);
      var t := Seqs.Filter(AdmitsOn(crit.traffic, Traffic), w);
      var v := Seqs.Filter(AdmitsOn(crit.vehicle, Vehicle), t);
      var c := Seqs.Filter(AdmitsOn(crit.category, Category), v);
      Seqs.Filter(AdmitsOn(crit.area, Area), c) == Seqs.Filter(MatchesAll(crit), ds)
  {
    var w := AdmitsOn(crit.weather, Weather);
    var wt := (d: Delivery) => w(d) && AdmitsOn(crit.traffic, Traffic)(d);
    var wtv := (d: Delivery) => wt(d) && AdmitsOn(crit.vehicle, Vehicle)(d);
    var wtvc := (d: Delivery) => wtv(d) && AdmitsOn(crit.category, Category)(d);
    Seqs.FilterFuse(w, AdmitsOn(crit.traffic, Traffic), wt, ds);
    Seqs.FilterFuse(wt, AdmitsOn(crit.vehicle, Vehicle), wtv, ds);
    Seqs.FilterFuse(wtv, AdmitsOn(crit.category, Category), wtvc, ds);
    Seqs.FilterFuse(wtvc, AdmitsOn(crit.area, Area), MatchesAll(crit), ds);
  }

  /** The filtered records sit at the positions `SelectedIndices` lists: an
      order-preserving subsequence made of exactly the matching records. */
  lemma ApplyFiltersSelects(ds: seq<Delivery>, crit: Criteria)
    ensures var idx := Seqs.SelectedIndices(MatchesAll(crit), ds);
      && |ApplyFilters(ds, crit)| == |idx|
      && (forall k :: 0 <= k < |idx| ==> ApplyFilters(ds, crit)[k] == ds[idx[k]])
      && (forall j :: 0 <= j < |ds| ==> (j in idx <==> Matches(crit, ds[j])))
  {
    Seqs.FilterSelects(MatchesAll(crit), ds);
  }

  /** With nothing selected the filtered dataset is the whole dataset. */
  lemma NoSelectionKeepsAll(ds: seq<Delivery>)
    ensures ApplyFilters(ds, NoSelection) == ds
  {
    Seqs.FilterKeepsAll(MatchesAll(NoSelection), ds);
  }

  /** Filtering an already filtered dataset with the same criteria changes nothing. */
  lemma ApplyFiltersIdempotent(ds: seq<Delivery>, crit: Criteria)
    ensures ApplyFilters(ApplyFilters(ds, crit), crit) == ApplyFilters(ds, crit)
  {
    Seqs.FilterIdempotent(MatchesAll(crit), ds);
  }
}
