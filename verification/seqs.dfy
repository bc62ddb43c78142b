/** Order-preserving selection from a sequence: the pandas boolean-mask indexing
    `df[mask]` and `dropna()` are both instances of it. */
module Seqs {

  /** `idx` lists strictly increasing positions, each below `n`. */
  predicate IsIndexing(idx: seq<nat>, n: nat) {
    && (forall k :: 0 <= k < |idx| ==> idx[k] < n)
    && (forall k, l :: 0 <= k < l < |idx| ==> idx[k] < idx[l])
  }

  /** The elements of `s` that satisfy `p`, in their original order. */
  function Filter<T>(p: T -> bool, s: seq<T>): (r: seq<T>)
    ensures |r| <= |s|
    ensures forall x :: x in r ==> x in s && p(x)
    ensures forall x :: x in s && p(x) ==> x in r
    decreases |s|
  {
    if |s| == 0 then []
    else
      var init := s[..|s| - 1];
      assert s == init + [s[|s| - 1]];
      Filter(p, init) + (if p(s[|s| - 1]) then [s[|s| - 1]] else [])
  }

  /** The positions of the elements of `s` that satisfy `p`, in increasing order. */
  function SelectedIndices<T>(p: T -> bool, s: seq<T>): (idx: seq<nat>)
    ensures IsIndexing(idx, |s|)
    ensures forall j :: 0 <= j < |s| ==> (j in idx <==> p(s[j]))
    decreases |s|
  {
    if |s| == 0 then []
    else
      var n := |s| - 1;
      var before := SelectedIndices(p, s[..n]);
      assert forall j :: 0 <= j < n ==> s[..n][j] == s[j];
      assert n !in before;
      before + (if p(s[n]) then [n] else [])
  }

  /** `Filter(p, s)` is the subsequence of `s` at `SelectedIndices(p, s)`: it keeps
      exactly the elements that satisfy `p`, each once, in their original order. */
  lemma {:induction false} FilterSelects<T>(p: T -> bool, s: seq<T>)
    ensures |Filter(p, s)| == |SelectedIndices(p, s)|
    ensures forall k :: 0 <= k < |SelectedIndices(p, s)| ==>
      Filter(p, s)[k] == s[SelectedIndices(p, s)[k]]
    decreases |s|
  {
    if |s| != 0 {
      var n := |s| - 1;
      var init := s[..n];
      FilterSelects(p, init);
      var f, idx := Filter(p, init), SelectedIndices(p, init);
      assert Filter(p, s) == f + (if p(s[n]) then [s[n]] else []);
      assert SelectedIndices(p, s) == idx + (if p(s[n]) then [n] else []);
      forall k | 0 <= k < |idx|
        ensures Filter(p, s)[k] == s[SelectedIndices(p, s)[k]]
      {
        assert init[idx[k]] == s[idx[k]];
      }
    }
  }

  /** Filtering distributes over concatenation. */
  lemma {:induction false} FilterAppend<T>(p: T -> bool, a: seq<T>, b: seq<T>)
    ensures Filter(p, a + b) == Filter(p, a) + Filter(p, b)
    decreases |b|
  {
    if |b| == 0 {
      assert a + b == a;
    } else {
      var initB := b[..|b| - 1];
      assert (a + b)[..|a + b| - 1] == a + initB;
      FilterAppend(p, a, initB);
    }
  }

  /** Filtering a sequence extended by one element extends the filtered sequence by that
      element exactly when it satisfies the predicate. */
  lemma FilterSnoc<T>(p: T -> bool, s: seq<T>, x: T)
    ensures Filter(p, s + [x]) == Filter(p, s) + (if p(x) then [x] else [])
  {
    assert (s + [x])[..|s + [x]| - 1] == s;
  }

  /** A filter whose predicate holds of every element keeps the whole sequence. */
  lemma {:induction false} FilterKeepsAll<T>(p: T -> bool, s: seq<T>)
    requires forall x :: x in s ==> p(x)
    ensures Filter(p, s) == s
    decreases |s|
  {
    if |s| != 0 {
      var init := s[..|s| - 1];
      forall x | x in init
        ensures p(x)
      {
        var i :| 0 <= i < |init| && init[i] == x;
        assert s[i] == x;
      }
      FilterKeepsAll(p, init);
      assert s == init + [s[|s| - 1]];
    }
  }

  /** Filters by predicates that agree on every element agree. */
  lemma {:induction false} FilterSamePredicate<T>(p: T -> bool, q: T -> bool, s: seq<T>)
    requires forall x :: p(x) == q(x)
    ensures Filter(p, s) == Filter(q, s)
    decreases |s|
  {
    if |s| != 0 {
      FilterSamePredicate(p, q, s[..|s| - 1]);
    }
  }

  /** Re-filtering with the same predicate changes nothing. */
  lemma FilterIdempotent<T>(p: T -> bool, s: seq<T>)
    ensures Filter(p, Filter(p, s)) == Filter(p, s)
  {
    FilterKeepsAll(p, Filter(p, s));
  }

  /** Two successive filters equal one filter by the conjunction of their predicates. */
  lemma {:induction false} FilterFuse<T>(p: T -> bool, q: T -> bool, pq: T -> bool, s: seq<T>)
    requires forall x :: pq(x) == (p(x) && q(x))
    ensures Filter(q, Filter(p, s)) == Filter(pq, s)
    decreases |s|
  {
    if |s| != 0 {
      var init := s[..|s| - 1];
      var last := s[|s| - 1];
      FilterFuse(p, q, pq, init);
      FilterAppend(q, Filter(p, init), if p(last) then [last] else []);
      if p(last) {
        assert Filter(q, [last]) == Filter(q, []) + (if q(last) then [last] else []) by {
          assert [last][..0] == [];
        }
      }
    }
  }
}
