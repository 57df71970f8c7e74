/** The sum of the multisets in a map. */
module Multisuma {

  ghost function Suma<K, T>(m: map<K, multiset<T>>): multiset<T>
    decreases |m|
  {
    if m.Keys == {} then multiset{}
    else
      var k :| k in m.Keys;
      assert (m - {k}).Keys == m.Keys - {k};
      m[k] + Suma(m - {k})
  }

  /** Any key may be split off. */
  lemma {:induction false} SumaAparte<K, T>(m: map<K, multiset<T>>, k: K)
    requires k in m
    ensures Suma(m) == m[k] + Suma(m - {k})
    decreases |m|
  {
    var j :| j in m.Keys && Suma(m) == m[j] + Suma(m - {j});
    if j != k {
      assert (m - {j}).Keys == m.Keys - {j};
      assert (m - {k}).Keys == m.Keys - {k};
      SumaAparte(m - {j}, k);
      SumaAparte(m - {k}, j);
      assert m - {j} - {k} == m - {k} - {j};
      Intercambio(m[j], m[k], Suma(m - {j} - {k}));
    }
  }

  lemma {:induction false} SumaVacia<K, T>(m: map<K, multiset<T>>)
    requires forall k :: k in m ==> m[k] == multiset{}
    ensures Suma(m) == multiset{}
    decreases |m|
  {
    if m.Keys != {} {
      var k :| k in m.Keys;
      SumaAparte(m, k);
      assert (m - {k}).Keys == m.Keys - {k};
      SumaVacia(m - {k});
    }
  }

  lemma Intercambio<T>(x: multiset<T>, y: multiset<T>, z: multiset<T>)
    ensures x + (y + z) == y + (x + z)
  {
  }

  lemma SumaActualizada<K, T>(m: map<K, multiset<T>>, k: K, v: multiset<T>)
    requires k in m
    ensures Suma(m[k := v]) + m[k] == Suma(m) + v
  {
    SumaAparte(m, k);
    SumaAparte(m[k := v], k);
    assert m[k := v] - {k} == m - {k};
    Intercambio(v, m[k], Suma(m - {k}));
  }

  lemma Asociativa<T>(a: multiset<T>, x: multiset<T>, y: multiset<T>)
    ensures (a + x) + y == a + (x + y)
  {
  }

  lemma Conmutan<T>(a: multiset<T>, x: multiset<T>, y: multiset<T>)
    ensures (a + y) + x == (a + x) + y
  {
  }

  /** A part may be taken off both sides. */
  lemma Cancela<T>(a: multiset<T>, b: multiset<T>, x: multiset<T>)
    requires a + x == b + x
    ensures a == b
  {
    assert a == (a + x) - x;
    assert b == (b + x) - x;
  }

  lemma EnUnaUOtra<T>(s: multiset<T>, a: multiset<T>, b: multiset<T>, x: T)
    requires s + multiset{x} == a + b
    ensures x in a || x in b
  {
    assert x in s + multiset{x};
  }
}
