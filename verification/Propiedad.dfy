/** Ownership of cells (frames or swap pages) by processes: who holds what, and the set of
    marked cells that must be exactly the held ones. */
module Propiedad {

  /** Owners hold disjoint sets, and a cell is marked exactly when somebody holds it. */
  ghost predicate Particion<K, T>(d: map<K, set<T>>, marcadas: set<T>)
  {
    && (forall p, q :: p in d && q in d && p != q ==> d[p] !! d[q])
    && (forall p :: p in d ==> d[p] <= marcadas)
    && (forall x :: x in marcadas ==> exists p :: p in d && x in d[p])
  }

  /** Giving unmarked cells to `p`, who held none. */
  lemma Agregar<K, T>(d: map<K, set<T>>, marcadas: set<T>, p: K, s: set<T>)
    requires Particion(d, marcadas) && (p in d ==> d[p] == {}) && s !! marcadas
    ensures Particion(d[p := s], marcadas + s)
  {
    var d' := d[p := s];
    forall x | x in marcadas + s
      ensures exists q :: q in d' && x in d'[q]
    {
      if x in s {
        assert p in d' && x in d'[p];
      } else {
        var q :| q in d && x in d[q];
        assert q in d' && x in d'[q];
      }
    }
  }

  /** Taking back all of `p`'s cells; `p` may stay empty-handed or leave. */
  lemma Quitar<K, T>(d: map<K, set<T>>, marcadas: set<T>, p: K)
    requires Particion(d, marcadas) && p in d
    ensures Particion(d[p := {}], marcadas - d[p]) && Particion(d - {p}, marcadas - d[p])
  {
    var e := d - {p};
    forall x | x in marcadas - d[p]
      ensures exists q :: q in e && x in e[q]
    {
      var q :| q in d && x in d[q];
      assert q in e && x in e[q];
    }
    var d' := d[p := {}];
    forall x | x in marcadas - d[p]
      ensures exists q :: q in d' && x in d'[q]
    {
      var q :| q in d && x in d[q];
      assert q in d' && x in d'[q];
    }
  }

  lemma ParteIncluida<K, T>(d: map<K, set<T>>, e: map<K, set<T>>, marcadas: set<T>, p: K)
    requires Particion(d, marcadas) && Particion(e, marcadas) && p in d && p in e && e == d[p := e[p]]
    ensures d[p] <= e[p]
  {
    forall x | x in d[p]
      ensures x in e[p]
    {
      var q :| q in e && x in e[q];
    }
  }

  /** The other owners and the marked cells leave no choice for one owner's share. */
  lemma MismaParte<K, T>(d: map<K, set<T>>, e: map<K, set<T>>, marcadas: set<T>, p: K)
    requires Particion(d, marcadas) && Particion(e, marcadas) && p in d && p in e && e == d[p := e[p]]
    ensures d[p] == e[p]
  {
    ParteIncluida(d, e, marcadas, p);
    assert d == e[p := d[p]];
    ParteIncluida(e, d, marcadas, p);
  }

  /** How many cells the owners hold in all. */
  ghost function Total<K, T>(d: map<K, set<T>>): nat
    decreases |d|
  {
    if d.Keys == {} then 0
    else
      var p :| p in d.Keys;
      assert (d - {p}).Keys == d.Keys - {p};
      |d[p]| + Total(d - {p})
  }

  /** Conservation: the marked cells are as many as the owners hold. */
  lemma {:induction false} Conservacion<K, T>(d: map<K, set<T>>, marcadas: set<T>)
    requires Particion(d, marcadas)
    ensures |marcadas| == Total(d)
    decreases |d|
  {
    if d.Keys == {} {
      assert marcadas == {};
    } else {
      var p :| p in d.Keys && Total(d) == |d[p]| + Total(d - {p});
      assert (d - {p}).Keys == d.Keys - {p};
      Quitar(d, marcadas, p);
      Conservacion(d - {p}, marcadas - d[p]);
    }
  }
}
