/** Datatypes and small collection facts shared by the models. */
module Common {

  datatype Option<+T> = None | Some(value: T) {

    function GetOr(default: T): T {
      if Some? then value else default
    }
  }

  /** `a` is `b` with some elements left out, order kept and nothing repeated. */
  ghost predicate SubsequenceAt<T>(a: seq<T>, b: seq<T>, at: seq<nat>) {
    && |at| == |a|
    && (forall k :: 0 <= k < |at| ==> at[k] < |b| && a[k] == b[at[k]])
    && (forall j, k :: 0 <= j < k < |at| ==> at[j] < at[k])
  }

  ghost predicate Subsequence<T>(a: seq<T>, b: seq<T>) {
    exists at :: SubsequenceAt(a, b, at)
  }

  /** Sum of the values of a map. */
  ghost function SumMap<K>(m: map<K, nat>): nat
    decreases |m|
  {
    if m == map[] then 0
    else
      var k :| k in m;
      assert |(m - {k})| < |m| by { assert (m - {k}).Keys == m.Keys - {k}; }
      m[k] + SumMap(m - {k})
  }

  /** The sum does not depend on which key is taken out first. */
  lemma {:induction false} SumMapWithout<K>(m: map<K, nat>, k: K)
    requires k in m
    ensures SumMap(m) == m[k] + SumMap(m - {k})
    decreases |m|
  {
    var j :| j in m && SumMap(m) == m[j] + SumMap(m - {j});
    if j != k {
      assert (m - {j}).Keys == m.Keys - {j};
      assert (m - {k}).Keys == m.Keys - {k};
      SumMapWithout(m - {j}, k);
      SumMapWithout(m - {k}, j);
      assert m - {j} - {k} == m - {k} - {j};
    }
  }

  lemma SumMapPut<K>(m: map<K, nat>, k: K, v: nat)
    ensures SumMap(m[k := v]) == (if k in m then SumMap(m) - m[k] else SumMap(m)) + v
  {
    var n := m[k := v];
    SumMapWithout(n, k);
    assert n - {k} == m - {k};
    if k in m {
      SumMapWithout(m, k);
    } else {
      assert m - {k} == m;
    }
  }
}
