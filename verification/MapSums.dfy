/** Sums over finite maps. The node walks unordered maps in an unspecified order;
    these lemmas are why the totals it accumulates do not depend on that order. */
module MapSums {

  ghost function Sum<K>(m: map<K, nat>): nat
    decreases |m|
  {
    if m == map[] then 0
    else
      var k :| k in m;
      SmallerWithout(m, k);
      m[k] + Sum(m - {k})
  }

  lemma SmallerWithout<K, V>(m: map<K, V>, k: K)
    requires k in m
    ensures |m - {k}| == |m| - 1
  {
    assert (m - {k}).Keys == m.Keys - {k};
    assert |m.Keys| == |m| && |(m - {k}).Keys| == |m - {k}|;
  }

  /** Any key may be taken out first. */
  lemma {:induction false} SumSplit<K>(m: map<K, nat>, k: K)
    requires k in m
    ensures Sum(m) == m[k] + Sum(m - {k})
    decreases |m|
  {
    var j :| j in m && Sum(m) == m[j] + Sum(m - {j});
    if j != k {
      SmallerWithout(m, j);
      SmallerWithout(m, k);
      SumSplit(m - {j}, k);
      SumSplit(m - {k}, j);
      assert m - {j} - {k} == m - {k} - {j};
    }
  }

  lemma SumUpdate<K>(m: map<K, nat>, k: K, v: nat)
    ensures Sum(m[k := v]) == v + Sum(m - {k})
    ensures Sum(m[k := v]) == Sum(m) - (if k in m then m[k] else 0) + v
  {
    SumSplit(m[k := v], k);
    assert m[k := v] - {k} == m - {k};
    if k in m {
      SumSplit(m, k);
    } else {
      assert m - {k} == m;
    }
  }

  /** One entry never exceeds the sum. */
  lemma SumAtLeast<K>(m: map<K, nat>, k: K)
    requires k in m
    ensures m[k] <= Sum(m)
  {
    SumSplit(m, k);
  }

  /** The part of a map that a walk has already visited. */
  function Without<K, V>(m: map<K, V>, todo: set<K>): map<K, V>
  {
    map k | k in m && k !in todo :: m[k]
  }

  /** Visiting one more key adds its entry to the partial sum. */
  lemma SumVisit<K>(m: map<K, nat>, todo: set<K>, k: K)
    requires k in m && k in todo
    ensures Sum(Without(m, todo - {k})) == Sum(Without(m, todo)) + m[k]
  {
    var next := Without(m, todo - {k});
    SumSplit(next, k);
    assert next - {k} == Without(m, todo);
  }

  lemma {:induction false} SumWithin<K>(m: map<K, nat>, todo: set<K>)
    ensures Sum(Without(m, todo)) <= Sum(m)
    decreases |todo|
  {
    if todo == {} {
      assert Without(m, todo) == m;
    } else {
      var k :| k in todo;
      SumWithin(m, todo - {k});
      if k in m {
        SumVisit(m, todo, k);
      } else {
        assert Without(m, todo) == Without(m, todo - {k});
      }
    }
  }
}
