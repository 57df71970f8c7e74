/** Smallest-first admission: one round takes as many processes as any choice that fits. */
module Admision {
  import opened Secuencias

  /** Total weight of a set. */
  ghost function Peso<T>(s: set<T>, w: map<T, nat>): nat
    requires s <= w.Keys
    decreases |s|
  {
    if s == {} then 0
    else
      var x :| x in s;
      w[x] + Peso(s - {x}, w)
  }

  lemma {:induction false} PesoAparte<T>(s: set<T>, w: map<T, nat>, x: T)
    requires s <= w.Keys && x in s
    ensures Peso(s, w) == w[x] + Peso(s - {x}, w)
    decreases |s|
  {
    var y :| y in s && Peso(s, w) == w[y] + Peso(s - {y}, w);
    if y != x {
      PesoAparte(s - {y}, w, x);
      PesoAparte(s - {x}, w, y);
      assert s - {y} - {x} == s - {x} - {y};
    }
  }

  ghost predicate EsMinimo<T>(x: T, cola: set<T>, w: map<T, nat>)
    requires cola <= w.Keys
  {
    x in cola && forall y :: y in cola ==> w[x] <= w[y]
  }

  /** A whole round over a queue: take a lightest process while it fits, and stop when the queue
      is empty or its lightest one does not fit. Ties may fall either way. */
  ghost predicate Ronda<T(!new)>(cola: set<T>, libres: nat, w: map<T, nat>, elegidos: seq<T>)
    requires cola <= w.Keys
    decreases |elegidos|
  {
    if elegidos == [] then cola == {} || exists x :: EsMinimo(x, cola, w) && w[x] > libres
    else
      var x := elegidos[0];
      EsMinimo(x, cola, w) && w[x] <= libres && Ronda(cola - {x}, libres - w[x], w, elegidos[1..])
  }

  /** No choice of processes that fits in the free frames is larger than the round's. */
  lemma {:induction false} RondaOptima<T(!new)>(cola: set<T>, libres: nat, w: map<T, nat>, elegidos: seq<T>, s: set<T>)
    requires cola <= w.Keys && Ronda(cola, libres, w, elegidos) && s <= cola && Peso(s, w) <= libres
    ensures |s| <= |elegidos|
    decreases |elegidos|
  {
    if s != {} {
      // Give up the admitted process, or any other one for it: that one weighs no less.
      var y :| y in s && (elegidos != [] && elegidos[0] in s ==> y == elegidos[0]);
      PesoAparte(s, w, y);
      if elegidos != [] {
        RondaOptima(cola - {elegidos[0]}, libres - w[elegidos[0]], w, elegidos[1..], s - {y});
      }
    }
  }

  /** What a round takes is a choice that fits, so the optimum is reached. */
  lemma {:induction false} RondaCabe<T(!new)>(cola: set<T>, libres: nat, w: map<T, nat>, elegidos: seq<T>)
    requires cola <= w.Keys && Ronda(cola, libres, w, elegidos)
    ensures SinRepetidos(elegidos) && Conjunto(elegidos) <= cola && Peso(Conjunto(elegidos), w) <= libres
    decreases |elegidos|
  {
    if elegidos != [] {
      var x, resto := elegidos[0], elegidos[1..];
      RondaCabe(cola - {x}, libres - w[x], w, resto);
      assert elegidos == [x] + resto;
      assert Conjunto(elegidos) == {x} + Conjunto(resto);
      assert x !in Conjunto(resto) && x !in resto;
      PesoAparte(Conjunto(elegidos), w, x);
      assert Conjunto(elegidos) - {x} == Conjunto(resto);
    }
  }

  /** First come first served stops at the first process that does not fit. */
  function RondaFifo(cola: seq<nat>, libres: nat, w: map<nat, nat>): (r: nat)
    requires forall x :: x in cola ==> x in w
    ensures r <= |cola|
  {
    if cola == [] || w[cola[0]] > libres then 0 else 1 + RondaFifo(cola[1..], libres - w[cola[0]], w)
  }

  /** It admits everything or has exactly the longest prefix that fits. */
  lemma {:induction false} RondaFifoPrefijo(cola: seq<nat>, libres: nat, w: map<nat, nat>, n: nat)
    requires (forall x :: x in cola ==> x in w) && n <= |cola|
    ensures n <= RondaFifo(cola, libres, w) <==> PesoPrefijo(cola, w, n) <= libres
  {
    if n > 0 {
      PesoPrefijoCabeza(cola, w, n);
      if w[cola[0]] <= libres { RondaFifoPrefijo(cola[1..], libres - w[cola[0]], w, n - 1); }
    }
  }

  function PesoPrefijo(cola: seq<nat>, w: map<nat, nat>, n: nat): nat
    requires (forall x :: x in cola ==> x in w) && n <= |cola|
  {
    if n == 0 then 0 else PesoPrefijo(cola, w, n - 1) + w[cola[n - 1]]
  }

  lemma {:induction false} PesoPrefijoCabeza(cola: seq<nat>, w: map<nat, nat>, n: nat)
    requires (forall x :: x in cola ==> x in w) && 0 < n <= |cola|
    ensures PesoPrefijo(cola, w, n) == w[cola[0]] + PesoPrefijo(cola[1..], w, n - 1)
  {
    if n > 1 { PesoPrefijoCabeza(cola, w, n - 1); }
  }

  ghost predicate Ascendente(w: map<nat, nat>, orden: seq<nat>)
  {
    && (forall x :: x in orden ==> x in w)
    && (forall i, j :: 0 <= i < j < |orden| ==> w[orden[i]] <= w[orden[j]])
  }

  /** Taking an ascending queue from its head is a smallest-first round. */
  lemma {:induction false} RondaDeOrdenada(orden: seq<nat>, libres: nat, w: map<nat, nat>)
    requires SinRepetidos(orden) && Ascendente(w, orden)
    ensures Ronda(Conjunto(orden), libres, w, orden[..RondaFifo(orden, libres, w)])
  {
    if orden != [] {
      var x, resto := orden[0], orden[1..];
      assert EsMinimo(x, Conjunto(orden), w);
      if w[x] <= libres {
        RondaDeOrdenada(resto, libres - w[x], w);
        assert Conjunto(orden) - {x} == Conjunto(resto);
        assert orden[..RondaFifo(orden, libres, w)][1..] == resto[..RondaFifo(resto, libres - w[x], w)];
      }
    }
  }

  /** No choice that fits is larger than n. */
  ghost predicate Maxima(cola: set<nat>, libres: nat, w: map<nat, nat>, n: nat)
  {
    forall s: set<nat> :: s <= cola && s <= w.Keys && Peso(s, w) <= libres ==> |s| <= n
  }

  /** The largest choice that fits has as many processes as the ascending queue admits. */
  lemma MaximaDeOrdenada(orden: seq<nat>, libres: nat, w: map<nat, nat>, n: nat)
    requires SinRepetidos(orden) && Ascendente(w, orden)
    ensures Maxima(Conjunto(orden), libres, w, n) <==> RondaFifo(orden, libres, w) <= n
  {
    var elegidos := orden[..RondaFifo(orden, libres, w)];
    RondaDeOrdenada(orden, libres, w);
    RondaCabe(Conjunto(orden), libres, w, elegidos);
    CardinalSinRepetidos(elegidos);
    forall s: set<nat> | s <= Conjunto(orden) && s <= w.Keys && Peso(s, w) <= libres
      ensures |s| <= |elegidos|
    {
      RondaOptima(Conjunto(orden), libres, w, elegidos, s);
    }
    assert Conjunto(elegidos) <= w.Keys;
  }

  /** First come first served is optimal exactly when it admits the whole queue or one process more
      would not fit even among the lightest. */
  lemma FifoOptima(cola: seq<nat>, orden: seq<nat>, libres: nat, w: map<nat, nat>)
    requires SinRepetidos(cola) && SinRepetidos(orden) && Conjunto(orden) == Conjunto(cola) && |orden| == |cola|
    requires Ascendente(w, orden) && forall x :: x in cola ==> x in w
    ensures var n := RondaFifo(cola, libres, w);
            Maxima(Conjunto(cola), libres, w, n) <==> n == |cola| || PesoPrefijo(orden, w, n + 1) > libres
  {
    var n := RondaFifo(cola, libres, w);
    MaximaDeOrdenada(orden, libres, w, n);
    if n < |cola| { RondaFifoPrefijo(orden, libres, w, n + 1); }
  }

  /** First come first served is not optimal: a large process at the head keeps a small one out. */
  lemma FifoNoEsOptima()
    ensures var w := map[0 := 5, 1 := 1];
            RondaFifo([0, 1], 2, w) == 0 && Peso({1}, w) <= 2 && Ronda({0, 1}, 2, w, [1])
  {
    var w: map<nat, nat> := map[0 := 5, 1 := 1];
    PesoAparte({1}, w, 1);
    assert EsMinimo(1, {0, 1}, w);
    assert {0, 1} - {1} == {0};
    assert EsMinimo(0, {0}, w) && w[0] > 1;
    assert [1][1..] == [];
  }

  // ----- rounds in progress -----

  /** Part of a round: taking these processes, each a lightest one that fits, leads to this
      queue and this room. */
  ghost predicate Parcial<T>(cola: set<T>, libres: nat, w: map<T, nat>, elegidos: seq<T>, cola': set<T>, libres': nat)
    requires cola <= w.Keys
    decreases |elegidos|
  {
    if elegidos == [] then cola' == cola && libres' == libres
    else
      var x := elegidos[0];
      EsMinimo(x, cola, w) && w[x] <= libres && Parcial(cola - {x}, libres - w[x], w, elegidos[1..], cola', libres')
  }

  lemma {:induction false} ParcialUnoMas<T>(cola: set<T>, libres: nat, w: map<T, nat>, elegidos: seq<T>, cola': set<T>,
                                            libres': nat, x: T)
    requires cola <= w.Keys && Parcial(cola, libres, w, elegidos, cola', libres')
    requires cola' <= w.Keys && EsMinimo(x, cola', w) && w[x] <= libres'
    ensures Parcial(cola, libres, w, elegidos + [x], cola' - {x}, libres' - w[x])
    decreases |elegidos|
  {
    if elegidos == [] {
      assert elegidos + [x] == [x] && [x][1..] == [];
    } else {
      var y := elegidos[0];
      ParcialUnoMas(cola - {y}, libres - w[y], w, elegidos[1..], cola', libres', x);
      assert (elegidos + [x])[1..] == elegidos[1..] + [x];
    }
  }

  lemma {:induction false} ParcialTermina<T(!new)>(cola: set<T>, libres: nat, w: map<T, nat>, elegidos: seq<T>,
                                                   cola': set<T>, libres': nat)
    requires cola <= w.Keys && Parcial(cola, libres, w, elegidos, cola', libres')
    requires cola' <= w.Keys && Ronda(cola', libres', w, [])
    ensures Ronda(cola, libres, w, elegidos)
    decreases |elegidos|
  {
    if elegidos != [] {
      var y := elegidos[0];
      ParcialTermina(cola - {y}, libres - w[y], w, elegidos[1..], cola', libres');
    }
  }
}
