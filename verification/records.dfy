/** Delivery rows as read from the CSV file, and the `dropna()` step that turns them
    into fully populated records. */
module Records {
  import opened Wrappers
  import Seqs

  /** One CSV row; any cell may be missing. `extra` holds the cells of the columns the
      dashboard never reads (order ids, coordinates, dates, ...), which `dropna()`
      inspects all the same. */
  datatype RawRow = RawRow(
    weather: Option<string>,
    traffic: Option<string>,
    vehicle: Option<string>,
    category: Option<string>,
    area: Option<string>,
    agentRating: Option<real>,
    agentAge: Option<int>,
    deliveryTime: Option<real>,
    extra: seq<Option<string>>)

  /** A row with every cell present; delivery time is in minutes. */
  datatype Record = Record(
    weather: string,
    traffic: string,
    vehicle: string,
    category: string,
    area: string,
    agentRating: real,
    agentAge: int,
    deliveryTime: real,
    extra: seq<string>)

  /** No cell of the row is missing. */
  predicate IsComplete(row: RawRow) {
    && row.weather.Some?
    && row.traffic.Some?
    && row.vehicle.Some?
    && row.category.Some?
    && row.area.Some?
    && row.agentRating.Some?
    && row.agentAge.Some?
    && row.deliveryTime.Some?
    && (forall i :: 0 <= i < |row.extra| ==> row.extra[i].Some?)
  }

  function FromRaw(row: RawRow): Record
    requires IsComplete(row)
  {
    Record(row.weather.value, row.traffic.value, row.vehicle.value, row.category.value,
           row.area.value, row.agentRating.value, row.agentAge.value, row.deliveryTime.value,
           seq(|row.extra|, i requires 0 <= i < |row.extra| => row.extra[i].value))
  }

  /** The CSV row that holds exactly the values of `r`. */
  function ToRaw(r: Record): (row: RawRow)
    ensures IsComplete(row)
    ensures FromRaw(row) == r
  {
    RawRow(Some(r.weather), Some(r.traffic), Some(r.vehicle), Some(r.category),
           Some(r.area), Some(r.agentRating), Some(r.agentAge), Some(r.deliveryTime),
           seq(|r.extra|, i requires 0 <= i < |r.extra| => Some(r.extra[i])))
  }

  /** `df.dropna()`: the complete rows, in their original order, each read as a record. */
  function Clean(rows: seq<RawRow>): (r: seq<Record>)
    ensures |r| == |Seqs.SelectedIndices(IsComplete, rows)|
    ensures forall k :: 0 <= k < |r| ==>
      r[k] == FromRaw(rows[Seqs.SelectedIndices(IsComplete, rows)[k]])
  {
    var kept := Seqs.Filter(IsComplete, rows);
    Seqs.FilterSelects(IsComplete, rows);
    seq(|kept|, i requires 0 <= i < |kept| => FromRaw(kept[i]))
  }

  /** Every complete row reaches the cleaned dataset. */
  lemma CleanKeepsCompleteRow(rows: seq<RawRow>, j: nat)
    requires j < |rows| && IsComplete(rows[j])
    ensures FromRaw(rows[j]) in Clean(rows)
  {
    var idx := Seqs.SelectedIndices(IsComplete, rows);
    assert j in idx;
    var k :| 0 <= k < |idx| && idx[k] == j;
    assert Clean(rows)[k] == FromRaw(rows[j]);
  }

  /** A dataset without missing cells passes through cleaning unchanged. */
  lemma {:induction false} CleanCompleteDataset(recs: seq<Record>)
    ensures Clean(seq(|recs|, i requires 0 <= i < |recs| => ToRaw(recs[i]))) == recs
  {
    var rows := seq(|recs|, i requires 0 <= i < |recs| => ToRaw(recs[i]));
    assert forall row :: row in rows ==> IsComplete(row);
    Seqs.FilterKeepsAll(IsComplete, rows);
    Seqs.FilterSelects(IsComplete, rows);
    var idx := Seqs.SelectedIndices(IsComplete, rows);
    var cleaned := Clean(rows);
    assert |idx| == |recs|;
    forall k | 0 <= k < |recs|
      ensures cleaned[k] == recs[k]
    {
      IndexingIsIdentity(idx, |recs|, k);
      assert cleaned[k] == FromRaw(rows[k]);
    }
  }

  /** A strictly increasing list of `n` positions below `n` is 0, 1, ..., n-1. */
  lemma {:induction false} IndexingIsIdentity(idx: seq<nat>, n: nat, k: nat)
    requires Seqs.IsIndexing(idx, n) && |idx| == n && k < n
    ensures idx[k] == k
    decreases n - k
  {
    if k + 1 < n {
      IndexingIsIdentity(idx, n, k + 1);
    }
    AtLeastPosition(idx, n, k);
  }

  /** In a strictly increasing list of naturals, the entry at position `k` is at least `k`. */
  lemma {:induction false} AtLeastPosition(idx: seq<nat>, n: nat, k: nat)
    requires Seqs.IsIndexing(idx, n) && k < |idx|
    ensures idx[k] >= k
  {
    if k > 0 {
      AtLeastPosition(idx, n, k - 1);
    }
  }
}
