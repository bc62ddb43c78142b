/** `df.groupby(key)['Delivery_Time'].mean()` over rows already projected to
    (key, delivery time) pairs. A key may be a single column or a pair of columns. */
module Grouping {
  import Stats
  import Seqs

  /** The distinct keys of `ks`, each once, in order of first appearance. */
  function DistinctKeys<K(==)>(ks: seq<K>): (r: seq<K>)
    ensures forall i, j :: 0 <= i < j < |r| ==> r[i] != r[j]
    ensures forall i :: 0 <= i < |r| ==> r[i] in ks
    ensures forall j :: 0 <= j < |ks| ==> ks[j] in r
    decreases |ks|
  {
    if |ks| == 0 then []
    else
      var init := ks[..|ks| - 1];
      var last := ks[|ks| - 1];
      assert ks == init + [last];
      var r := DistinctKeys(init);
      if last in r then r else r + [last]
  }

  /** The key column. */
  function Keys<K>(rows: seq<(K, real)>): (ks: seq<K>)
    ensures |ks| == |rows|
    ensures forall i :: 0 <= i < |rows| ==> ks[i] == rows[i].0
  {
    seq(|rows|, i requires 0 <= i < |rows| => rows[i].0)
  }

  /** The mask `df[key] == k`. */
  function KeyIs<K(==)>(k: K): ((K, real)) -> bool {
    (row: (K, real)) => row.0 == k
  }

  /** The delivery times of the rows with key `k`, in row order. */
  function TimesOf<K(==)>(rows: seq<(K, real)>, k: K): (ts: seq<real>)
    ensures |ts| <= |rows|
    ensures |ts| > 0 <==> k in Keys(rows)
    ensures forall t :: t in ts ==> (k, t) in rows
    decreases |rows|
  {
    if |rows| == 0 then []
    else
      var init := rows[..|rows| - 1];
      var last := rows[|rows| - 1];
      assert rows == init + [last];
      assert Keys(rows) == Keys(init) + [last.0];
      TimesOf(init, k) + (if last.0 == k then [last.1] else [])
  }

  /** One more row adds its time to its key's times, at the end. */
  lemma TimesOfSnoc<K>(rows: seq<(K, real)>, x: (K, real), k: K)
    ensures TimesOf(rows + [x], k) == TimesOf(rows, k) + (if x.0 == k then [x.1] else [])
  {
    assert (rows + [x])[..|rows|] == rows;
  }

  /** A key's times are read off exactly the rows the mask `KeyIs(k)` selects: one time
      per row with that key, in row order, and nothing else. */
  lemma {:induction false} TimesOfSelects<K>(rows: seq<(K, real)>, k: K)
    ensures |TimesOf(rows, k)| == |Seqs.SelectedIndices(KeyIs(k), rows)|
    ensures forall i :: 0 <= i < |TimesOf(rows, k)| ==>
      TimesOf(rows, k)[i] == rows[Seqs.SelectedIndices(KeyIs(k), rows)[i]].1
    decreases |rows|
  {
    if |rows| != 0 {
      var n := |rows| - 1;
      var init := rows[..n];
      TimesOfSelects(init, k);
      var before, idx := TimesOf(init, k), Seqs.SelectedIndices(KeyIs(k), init);
      assert TimesOf(rows, k) == before + (if rows[n].0 == k then [rows[n].1] else []);
      assert Seqs.SelectedIndices(KeyIs(k), rows) == idx + (if rows[n].0 == k then [n] else []);
      forall i | 0 <= i < |before|
        ensures TimesOf(rows, k)[i] == rows[Seqs.SelectedIndices(KeyIs(k), rows)[i]].1
      {
        assert init[idx[i]] == rows[idx[i]];
      }
    }
  }

  /** The members' delivery times of one group. */
  datatype Group<K> = Group(key: K, times: seq<real>)

  function GroupsFor<K(==)>(ks: seq<K>, rows: seq<(K, real)>): (gs: seq<Group<K>>)
    ensures |gs| == |ks|
    ensures forall i :: 0 <= i < |ks| ==> gs[i] == Group(ks[i], TimesOf(rows, ks[i]))
  {
    if |ks| == 0 then [] else [Group(ks[0], TimesOf(rows, ks[0]))] + GroupsFor(ks[1..], rows)
  }

  /** Groups the rows by key: one group per distinct key of the input, none empty,
      each holding exactly the times of the rows with its key. */
  function GroupBy<K(==)>(rows: seq<(K, real)>): (gs: seq<Group<K>>)
    ensures forall i, j :: 0 <= i < j < |gs| ==> gs[i].key != gs[j].key
    ensures forall i :: 0 <= i < |gs| ==> gs[i].key in Keys(rows) && |gs[i].times| > 0
    ensures forall i :: 0 <= i < |gs| ==> gs[i].times == TimesOf(rows, gs[i].key)
    ensures forall j :: 0 <= j < |rows| ==> exists i :: 0 <= i < |gs| && gs[i].key == rows[j].0
  {
    var ks := DistinctKeys(Keys(rows));
    var gs := GroupsFor(ks, rows);
    forall i | 0 <= i < |gs|
      ensures gs[i].key in Keys(rows) && |gs[i].times| > 0
      ensures gs[i].times == TimesOf(rows, gs[i].key)
    {
      assert gs[i] == Group(ks[i], TimesOf(rows, ks[i]));
      assert ks[i] in Keys(rows);
    }
    forall j | 0 <= j < |rows|
      ensures exists i :: 0 <= i < |gs| && gs[i].key == rows[j].0
    {
      assert Keys(rows)[j] == rows[j].0;
      var i :| 0 <= i < |ks| && ks[i] == rows[j].0;
      assert gs[i].key == rows[j].0;
    }
    gs
  }

  /** The number of rows held by all groups together. */
  function TotalSize<K>(gs: seq<Group<K>>): nat {
    if |gs| == 0 then 0 else |gs[0].times| + TotalSize(gs[1..])
  }

  function Occurrences<K(==)>(ks: seq<K>, k: K): nat {
    if |ks| == 0 then 0 else (if ks[0] == k then 1 else 0) + Occurrences(ks[1..], k)
  }

  lemma {:induction false} OccursOnce<K>(ks: seq<K>, k: K)
    requires forall i, j :: 0 <= i < j < |ks| ==> ks[i] != ks[j]
    requires k in ks
    ensures Occurrences(ks, k) == 1
    decreases |ks|
  {
    if ks[0] == k {
      NotOccurring(ks[1..], k);
    } else {
      OccursOnce(ks[1..], k);
    }
  }

  lemma {:induction false} NotOccurring<K>(ks: seq<K>, k: K)
    requires k !in ks
    ensures Occurrences(ks, k) == 0
    decreases |ks|
  {
    if |ks| != 0 {
      NotOccurring(ks[1..], k);
    }
  }

  lemma {:induction false} NoRowsNoSize<K>(ks: seq<K>, rows: seq<(K, real)>)
    requires |rows| == 0
    ensures TotalSize(GroupsFor(ks, rows)) == 0
    decreases |ks|
  {
    if |ks| != 0 {
      NoRowsNoSize(ks[1..], rows);
    }
  }

  /** One more row adds one member to every group whose key it has. */
  lemma {:induction false} AddRowSize<K>(ks: seq<K>, rows: seq<(K, real)>, x: (K, real))
    ensures TotalSize(GroupsFor(ks, rows + [x])) == TotalSize(GroupsFor(ks, rows)) + Occurrences(ks, x.0)
    decreases |ks|
  {
    if |ks| != 0 {
      AddRowSize(ks[1..], rows, x);
      assert (rows + [x])[..|rows + [x]| - 1] == rows;
    }
  }

  /** Groups over distinct keys covering every row hold every row exactly once. */
  lemma {:induction false} GroupsCoverRows<K>(ks: seq<K>, rows: seq<(K, real)>)
    requires forall i, j :: 0 <= i < j < |ks| ==> ks[i] != ks[j]
    requires forall i :: 0 <= i < |rows| ==> rows[i].0 in ks
    ensures TotalSize(GroupsFor(ks, rows)) == |rows|
    decreases |rows|
  {
    if |rows| == 0 {
      NoRowsNoSize(ks, rows);
    } else {
      var init := rows[..|rows| - 1];
      var last := rows[|rows| - 1];
      assert rows == init + [last];
      GroupsCoverRows(ks, init);
      AddRowSize(ks, init, last);
      OccursOnce(ks, last.0);
    }
  }

  /** The group sizes add up to the number of rows: every row lands in exactly one group. */
  lemma GroupSizesSum<K>(rows: seq<(K, real)>)
    ensures TotalSize(GroupBy(rows)) == |rows|
  {
    var ks := DistinctKeys(Keys(rows));
    assert forall i :: 0 <= i < |rows| ==> Keys(rows)[i] == rows[i].0;
    GroupsCoverRows(ks, rows);
  }

  /** The mean delivery time per group, as `(key, mean)` rows: one row per distinct key,
      each mean between the fastest and the slowest delivery of its group. */
  function GroupMeans<K(==)>(rows: seq<(K, real)>): (view: seq<(K, real)>)
    ensures forall i, j :: 0 <= i < j < |view| ==> view[i].0 != view[j].0
    ensures forall i :: 0 <= i < |view| ==> view[i].0 in Keys(rows)
    ensures forall j :: 0 <= j < |rows| ==> rows[j].0 in Keys(view)
    ensures forall i :: 0 <= i < |view| ==>
      && |TimesOf(rows, view[i].0)| > 0
      && view[i].1 == Stats.Mean(TimesOf(rows, view[i].0))
      && Stats.Min(TimesOf(rows, view[i].0)) <= view[i].1 <= Stats.Max(TimesOf(rows, view[i].0))
  {
    var gs := GroupBy(rows);
    var view := seq(|gs|, i requires 0 <= i < |gs| => (gs[i].key, Stats.Mean(gs[i].times)));
    forall i | 0 <= i < |view|
      ensures view[i].0 == gs[i].key && view[i].0 in Keys(rows)
      ensures |TimesOf(rows, view[i].0)| > 0
      ensures view[i].1 == Stats.Mean(TimesOf(rows, view[i].0))
      ensures Stats.Min(TimesOf(rows, view[i].0)) <= view[i].1 <= Stats.Max(TimesOf(rows, view[i].0))
    {
      assert gs[i].times == TimesOf(rows, gs[i].key);
    }
    forall j | 0 <= j < |rows|
      ensures rows[j].0 in Keys(view)
    {
      var i :| 0 <= i < |gs| && gs[i].key == rows[j].0;
      assert Keys(view)[i] == view[i].0 == rows[j].0;
    }
    view
  }
}
