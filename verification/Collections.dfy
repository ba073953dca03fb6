/** Sizes of sets and maps, and updates of maps that undo each other. */
module Collections {

  lemma {:induction false} Smaller<K>(a: set<K>, b: set<K>)
    requires a <= b
    ensures |a| <= |b| && (a < b ==> |a| < |b|)
  {
    assert b == a + (b - a);
    assert |b| == |a| + |b - a|;
    if a < b { assert b - a != {}; }
  }

  lemma {:induction false} SmallerMap<K, V>(a: map<K, V>, b: map<K, V>)
    requires a.Keys <= b.Keys
    ensures |a| <= |b| && (a.Keys < b.Keys ==> |a| < |b|)
  {
    assert |a| == |a.Keys| && |b| == |b.Keys|;
    Smaller(a.Keys, b.Keys);
  }

  lemma {:induction false} SameSize<K, V, W>(a: map<K, V>, b: map<K, W>)
    requires forall k :: k in a <==> k in b
    ensures |a| == |b|
  {
    assert a.Keys == b.Keys;
    assert |a| == |a.Keys| && |b| == |b.Keys|;
  }

  lemma {:induction false} PutSize<K, V>(m: map<K, V>, k: K, v: V)
    ensures |m[k := v]| == |m| + if k in m then 0 else 1
  {
    assert m[k := v].Keys == m.Keys + {k};
    assert |m| == |m.Keys| && |m[k := v]| == |m[k := v].Keys|;
  }

  lemma {:induction false} PutDrop<K, V>(m: map<K, V>, k: K, v: V)
    ensures m[k := v] - {k} == m - {k}
    ensures (m - {k})[k := v] == m[k := v]
    ensures k !in m ==> m - {k} == m
  {
  }

  lemma {:induction false} DropMore<K, V>(m: map<K, V>, doomed: set<K>, todo: set<K>, k: K)
    requires k in todo && todo <= doomed
    ensures m - (doomed - todo) - {k} == m - (doomed - (todo - {k}))
  {
  }
}
