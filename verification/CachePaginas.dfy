/** The page cache as values: its index, the two clock searches, insertion and eviction. */
module CachePaginas {
  import opened Secuencias
  import opened Memoria

  datatype EntradaC = EntradaC(pagina: nat, contenido: seq<byte>, pid: nat, r: bool, d: bool)
  datatype AlgoritmoCache = CLOCK | CLOCKM

  datatype Cache = Cache(entries: seq<EntradaC>, indice: map<nat, nat>, capacidad: nat, algoritmo: AlgoritmoCache,
                         mano: nat)

  function CacheVacia(capacidad: nat, algoritmo: AlgoritmoCache): Cache
  {
    Cache([], map[], capacidad, algoritmo, 0)
  }

  /** The index is an exact bijection between the cached pages and the slots. */
  predicate CacheBien(q: Cache)
  {
    && (forall pg :: pg in q.indice ==> q.indice[pg] < |q.entries| && q.entries[q.indice[pg]].pagina == pg)
    && (forall i :: 0 <= i < |q.entries| ==> q.entries[i].pagina in q.indice && q.indice[q.entries[i].pagina] == i)
    && |q.entries| <= q.capacidad && q.mano < q.capacidad
    && (|q.entries| < q.capacidad ==> q.mano == 0)
  }

  // ----- clock order -----

  /** The slot `i` places after the hand: (mano + i) mod n. */
  function Pos(mano: nat, i: nat, n: nat): (r: nat)
    requires mano < n && i <= n
    ensures r < n
  {
    if mano + i < n then mano + i else mano + i - n
  }

  /** The hand one slot further: (i + 1) mod n. */
  function Siguiente(i: nat, n: nat): (r: nat)
    requires i < n
    ensures r < n
  {
    Pos(i, 1, n)
  }

  /** How many places after the hand slot `j` is. */
  function Dist(mano: nat, j: nat, n: nat): (r: nat)
    requires mano < n && j < n
    ensures r < n && Pos(mano, r, n) == j
  {
    if j >= mano then j - mano else j + n - mano
  }

  /** Reference bits cleared in the first `k` slots from the hand. */
  function Limpiar(es: seq<EntradaC>, mano: nat, k: nat): (r: seq<EntradaC>)
    requires mano < |es|
    ensures |r| == |es|
  {
    seq(|es|, j requires 0 <= j < |es| => if Dist(mano, j, |es|) < k then es[j].(r := false) else es[j])
  }

  /** The class of a slot by its two bits: (0,0) < (0,1) < (1,0) < (1,1). */
  function Clase(e: EntradaC): nat
  {
    (if e.r then 2 else 0) + (if e.d then 1 else 0)
  }

  /** Places to the first slot from the hand, at least `i` away, of a class from lo to hi; |es| if none. */
  function Hasta(es: seq<EntradaC>, mano: nat, lo: nat, hi: nat, i: nat): (r: nat)
    requires mano < |es| && i <= |es|
    ensures i <= r <= |es|
    decreases |es| - i
  {
    if i == |es| then i
    else if lo <= Clase(es[Pos(mano, i, |es|)]) <= hi then i
    else Hasta(es, mano, lo, hi, i + 1)
  }

  lemma {:induction false} HastaDefine(es: seq<EntradaC>, mano: nat, lo: nat, hi: nat, i: nat)
    requires mano < |es| && i <= |es|
    ensures var r := Hasta(es, mano, lo, hi, i);
            && (forall k :: i <= k < r ==> !(lo <= Clase(es[Pos(mano, k, |es|)]) <= hi))
            && (r < |es| ==> lo <= Clase(es[Pos(mano, r, |es|)]) <= hi)
    decreases |es| - i
  {
    if i < |es| { HastaDefine(es, mano, lo, hi, i + 1); }
  }

  lemma HastaPrimera(es: seq<EntradaC>, mano: nat, lo: nat, hi: nat)
    requires mano < |es|
    ensures var k := Hasta(es, mano, lo, hi, 0);
            && (k < |es| ==> Dist(mano, Pos(mano, k, |es|), |es|) == k && lo <= Clase(es[Pos(mano, k, |es|)]) <= hi)
            && forall j :: 0 <= j < |es| && lo <= Clase(es[j]) <= hi ==> k <= Dist(mano, j, |es|)
  {
    HastaDefine(es, mano, lo, hi, 0);
    forall j | 0 <= j < |es| && lo <= Clase(es[j]) <= hi
      ensures Hasta(es, mano, lo, hi, 0) <= Dist(mano, j, |es|)
    {
      assert Pos(mano, Dist(mano, j, |es|), |es|) == j;
    }
  }

  /** CLOCK: the first slot without reference bit, clearing the bits passed; the hand itself
      after a full turn. */
  function VictimaClock(es: seq<EntradaC>, mano: nat): (r: (nat, seq<EntradaC>))
    requires mano < |es|
    ensures r.0 < |es| && |r.1| == |es|
  {
    var k := Hasta(es, mano, 0, 1, 0);
    (Pos(mano, k, |es|), Limpiar(es, mano, k))
  }

  /** CLOCK-M: two passes, and the same two again once every reference bit is clear. */
  function VictimaClockM(es: seq<EntradaC>, mano: nat): (r: (nat, seq<EntradaC>))
    requires mano < |es|
    ensures r.0 < |es| && |r.1| == |es|
  {
    var n := |es|;
    var k0 := Hasta(es, mano, 0, 0, 0);
    if k0 < n then (Pos(mano, k0, n), es)
    else
      var k1 := Hasta(es, mano, 1, 1, 0);
      if k1 < n then (Pos(mano, k1, n), Limpiar(es, mano, k1))
      else
        var k2 := Hasta(es, mano, 2, 2, 0);
        (Pos(mano, if k2 < n then k2 else 0, n), Limpiar(es, mano, n))
  }

  /** Same pages, contents, owners and modified bits. */
  ghost predicate SoloR(a: seq<EntradaC>, b: seq<EntradaC>)
  {
    |a| == |b| && forall j :: 0 <= j < |a| ==> b[j] == a[j].(r := b[j].r)
  }

  lemma LimpiarSoloR(es: seq<EntradaC>, mano: nat, k: nat)
    requires mano < |es|
    ensures SoloR(es, Limpiar(es, mano, k))
  {
  }

  /** The reference bits after a search that ended at `v`: cleared from the hand up to it, kept from
      it on. */
  ghost predicate LimpiaHasta(es: seq<EntradaC>, es': seq<EntradaC>, mano: nat, v: nat)
    requires mano < |es| == |es'| && v < |es|
  {
    forall j :: 0 <= j < |es| ==> (es'[j].r <==> es[j].r && Dist(mano, j, |es|) > Dist(mano, v, |es|))
  }

  lemma LimpiarHasta(es: seq<EntradaC>, mano: nat, k: nat)
    requires mano < |es| && k < |es| && !es[Pos(mano, k, |es|)].r
    ensures LimpiaHasta(es, Limpiar(es, mano, k), mano, Pos(mano, k, |es|))
  {
    assert Dist(mano, Pos(mano, k, |es|), |es|) == k;
    forall j | 0 <= j < |es| && Dist(mano, j, |es|) == k
      ensures j == Pos(mano, k, |es|)
    {
      assert Pos(mano, Dist(mano, j, |es|), |es|) == j;
    }
  }

  /** CLOCK takes the first slot in clock order without reference bit and clears the bits it passed;
      if there is none it takes the hand, and then every bit has been cleared. */
  lemma ClockElige(es: seq<EntradaC>, mano: nat)
    requires mano < |es|
    ensures var (v, es') := VictimaClock(es, mano);
            && SoloR(es, es')
            && (if exists j :: 0 <= j < |es| && !es[j].r
                then !es[v].r && LimpiaHasta(es, es', mano, v)
                     && forall j :: 0 <= j < |es| && !es[j].r ==> Dist(mano, v, |es|) <= Dist(mano, j, |es|)
                else v == mano && forall j :: 0 <= j < |es| ==> !es'[j].r)
  {
    var k := Hasta(es, mano, 0, 1, 0);
    HastaPrimera(es, mano, 0, 1);
    LimpiarSoloR(es, mano, k);
    if k < |es| { LimpiarHasta(es, mano, k); }
  }

  /** CLOCK-M takes the first slot in clock order of the lowest class present, and touches nothing but
      reference bits: none for a victim of class (0,0), those from the hand up to a victim of class
      (0,1), and all of them for a referenced one. */
  lemma ClockMElige(es: seq<EntradaC>, mano: nat)
    requires mano < |es|
    ensures var (v, es') := VictimaClockM(es, mano);
            && SoloR(es, es')
            && (forall j :: 0 <= j < |es| ==> Clase(es[v]) <= Clase(es[j]))
            && (forall j :: 0 <= j < |es| && Clase(es[j]) == Clase(es[v]) ==>
                Dist(mano, v, |es|) <= Dist(mano, j, |es|))
            && (!es[v].r && !es[v].d ==> es' == es)
            && (!es[v].r && es[v].d ==> LimpiaHasta(es, es', mano, v))
            && (es[v].r ==> forall j :: 0 <= j < |es| ==> !es'[j].r)
  {
    var k1 := Hasta(es, mano, 1, 1, 0);
    HastaPrimera(es, mano, 0, 0);
    HastaPrimera(es, mano, 1, 1);
    HastaPrimera(es, mano, 2, 2);
    LimpiarSoloR(es, mano, k1);
    LimpiarSoloR(es, mano, |es|);
    if k1 < |es| { LimpiarHasta(es, mano, k1); }
    assert Dist(mano, Pos(mano, 0, |es|), |es|) == 0;
  }

  // ----- insertion -----

  function Victima(q: Cache): (r: (nat, seq<EntradaC>))
    requires q.mano < |q.entries|
    ensures r.0 < |q.entries| && |r.1| == |q.entries|
  {
    if q.algoritmo == CLOCK then VictimaClock(q.entries, q.mano) else VictimaClockM(q.entries, q.mano)
  }

  lemma VictimaSoloR(q: Cache)
    requires q.mano < |q.entries|
    ensures SoloR(q.entries, Victima(q).1)
  {
    if q.algoritmo == CLOCK { ClockElige(q.entries, q.mano); } else { ClockMElige(q.entries, q.mano); }
  }

  /** The entry that inserting `nueva` throws out, if any. */
  function Expulsada(q: Cache, nueva: EntradaC): Opcion<EntradaC>
    requires CacheBien(q)
  {
    if nueva.pagina in q.indice || |q.entries| < q.capacidad then Nada
    else Algo(Victima(q).1[Victima(q).0])
  }

  /** InsertarOReemplazarEnCache, apart from the write-back. */
  function Insertar(q: Cache, nueva: EntradaC): Cache
    requires CacheBien(q)
  {
    if nueva.pagina in q.indice then q.(entries := q.entries[q.indice[nueva.pagina] := nueva.(r := true)])
    else if |q.entries| < q.capacidad then
      q.(entries := q.entries + [nueva], indice := q.indice[nueva.pagina := |q.entries|])
    else
      var (v, es) := Victima(q);
      q.(entries := es[v := nueva],
         indice := (q.indice - {es[v].pagina})[nueva.pagina := v],
         mano := Siguiente(v, |es|))
  }

  lemma InsertarBien(q: Cache, nueva: EntradaC)
    requires CacheBien(q)
    ensures CacheBien(Insertar(q, nueva))
    ensures nueva.pagina in Insertar(q, nueva).indice
    ensures var e := Insertar(q, nueva).entries[Insertar(q, nueva).indice[nueva.pagina]];
            e == nueva.(r := e.r)
  {
    if nueva.pagina !in q.indice && |q.entries| == q.capacidad {
      VictimaSoloR(q);
    }
  }

  /** The entry `pagina` has, if the page is cached. */
  function EntradaDe(q: Cache, pagina: nat): (r: Opcion<EntradaC>)
    requires CacheBien(q)
  {
    if pagina in q.indice then Algo(q.entries[q.indice[pagina]]) else Nada
  }

  /** For every other page, insertion changes at most the reference bit, or throws it out. */
  lemma InsertarOtras(q: Cache, nueva: EntradaC, pagina: nat)
    requires CacheBien(q) && pagina != nueva.pagina
    ensures CacheBien(Insertar(q, nueva))
    ensures var a, b, x := EntradaDe(q, pagina), EntradaDe(Insertar(q, nueva), pagina), Expulsada(q, nueva);
            if x.Algo? && x.valor.pagina == pagina then b == Nada && a.Algo? && x.valor == a.valor.(r := x.valor.r)
            else (a.Algo? <==> b.Algo?) && (a.Algo? ==> b.valor == a.valor.(r := b.valor.r))
  {
    InsertarBien(q, nueva);
    if nueva.pagina !in q.indice && |q.entries| == q.capacidad {
      VictimaSoloR(q);
    }
  }

  lemma HastaUnica(es: seq<EntradaC>, mano: nat, lo: nat, hi: nat, k: nat)
    requires mano < |es| && k <= |es|
    requires forall i :: 0 <= i < k ==> !(lo <= Clase(es[Pos(mano, i, |es|)]) <= hi)
    requires k < |es| ==> lo <= Clase(es[Pos(mano, k, |es|)]) <= hi
    ensures Hasta(es, mano, lo, hi, 0) == k
  {
    HastaDefine(es, mano, lo, hi, 0);
  }

  lemma LimpiarUno(es: seq<EntradaC>, mano: nat, k: nat)
    requires mano < |es| && k < |es|
    ensures var p := Pos(mano, k, |es|);
            && Limpiar(es, mano, k)[p] == es[p]
            && Limpiar(es, mano, k + 1) == Limpiar(es, mano, k)[p := es[p].(r := false)]
  {
    assert Dist(mano, Pos(mano, k, |es|), |es|) == k;
  }

  lemma LimpiarNada(es: seq<EntradaC>, mano: nat)
    requires mano < |es|
    ensures Limpiar(es, mano, 0) == es
    ensures forall j :: 0 <= j < |es| ==> !Limpiar(es, mano, |es|)[j].r
  {
  }

  lemma SiguientePos(mano: nat, k: nat, n: nat)
    requires mano < n && k < n
    ensures Pos(mano, k + 1, n) == Siguiente(Pos(mano, k, n), n)
  {
  }

  /** Once every bit is clear, the two passes see the modified bits alone. */
  lemma SegundaVuelta(es: seq<EntradaC>, mano: nat)
    requires mano < |es| && forall j :: 0 <= j < |es| ==> es[j].r
    ensures var l := Limpiar(es, mano, |es|);
            && Hasta(l, mano, 0, 0, 0) == Hasta(es, mano, 2, 2, 0)
            && (Hasta(es, mano, 2, 2, 0) == |es| ==> Hasta(l, mano, 1, 1, 0) == 0 && Limpiar(l, mano, 0) == l)
  {
    var l := Limpiar(es, mano, |es|);
    HastaDefine(es, mano, 2, 2, 0);
    HastaUnica(l, mano, 0, 0, Hasta(es, mano, 2, 2, 0));
    LimpiarNada(l, mano);
    if Hasta(es, mano, 2, 2, 0) == |es| { HastaUnica(l, mano, 1, 1, 0); }
  }

  ghost predicate HayReferida(es: seq<EntradaC>)
  {
    exists j :: 0 <= j < |es| && es[j].r
  }

  // ----- the cache updated in place -----

  class CacheEntry {
    const pagina: nat
    var contenido: seq<byte>
    const pid: nat
    var r: bool
    var d: bool

    constructor (pagina: nat, contenido: seq<byte>, pid: nat, r: bool, d: bool)
      ensures Valor() == EntradaC(pagina, contenido, pid, r, d)
    {
      this.pagina, this.contenido, this.pid, this.r, this.d := pagina, contenido, pid, r, d;
    }

    function Valor(): EntradaC
      reads this
    {
      EntradaC(pagina, contenido, pid, r, d)
    }
  }

  class CacheTabla {
    var entries: seq<CacheEntry>
    var paginaIndex: map<nat, nat>
    const capacidad: nat
    const algoritmo: AlgoritmoCache
    var clockHand: nat

    /** Every slot has its own entry. */
    ghost predicate Valid()
      reads this
    {
      forall i, j :: 0 <= i < j < |entries| ==> entries[i] != entries[j]
    }

    function Valores(): (v: seq<EntradaC>)
      reads this`entries, entries
      ensures |v| == |entries|
    {
      var es := entries;
      seq(|es|, i requires 0 <= i < |es| reads es => es[i].Valor())
    }

    function Modelo(): Cache
      reads this, entries
    {
      Cache(Valores(), paginaIndex, capacidad, algoritmo, clockHand)
    }

    /** NuevaCache. */
    constructor (capacidad: nat, algoritmo: AlgoritmoCache)
      requires capacidad >= 1
      ensures Valid() && Modelo() == CacheVacia(capacidad, algoritmo) && CacheBien(Modelo())
    {
      entries, paginaIndex, clockHand := [], map[], 0;
      this.capacidad, this.algoritmo := capacidad, algoritmo;
    }

    /** A hit for this process sets the reference bit; another process's page is a miss. */
    method BuscarPaginaEnCache(paginaVirtual: nat, pid: nat) returns (e: CacheEntry?)
      requires Valid() && CacheBien(Modelo())
      modifies entries
      ensures var a := EntradaDe(old(Modelo()), paginaVirtual);
              if a.Algo? && a.valor.pid == pid then
                && paginaVirtual in paginaIndex && e == entries[paginaIndex[paginaVirtual]]
                && Modelo()
                == old(Modelo()).(entries := old(Valores())[paginaIndex[paginaVirtual] := a.valor.(r := true)])
              else e == null && Modelo() == old(Modelo())
    {
      if paginaVirtual in paginaIndex {
        var index := paginaIndex[paginaVirtual];
        if entries[index].pid != pid {
          return null;
        }
        e := entries[index];
        e.r := true;
        return e;
      }
      return null;
    }

    /** A new entry in a free slot. */
    method Agregar(nueva: CacheEntry)
      requires Valid() && nueva !in entries
      modifies this`entries, this`paginaIndex
      ensures Valid() && entries == old(entries) + [nueva]
      ensures Valores() == old(Valores()) + [nueva.Valor()]
      ensures paginaIndex == old(paginaIndex)[nueva.pagina := |old(entries)|]
    {
      entries := entries + [nueva];
      paginaIndex := paginaIndex[nueva.pagina := |entries| - 1];
    }

    /** A page number already indexed keeps its slot: the new entry takes it over, referenced. */
    method Reemplazar(nueva: CacheEntry)
      requires Valid() && CacheBien(Modelo()) && nueva !in entries && nueva.pagina in paginaIndex
      modifies this`entries, nueva
      ensures Valid() && entries == old(entries)[paginaIndex[nueva.pagina] := nueva]
      ensures Modelo()
           == old(Modelo()).(entries := old(Valores())[paginaIndex[nueva.pagina] := old(nueva.Valor()).(r := true)])
      ensures nueva.Valor() == old(nueva.Valor()).(r := true)
    {
      var idx := paginaIndex[nueva.pagina];
      ghost var vs := Valores();
      nueva.r := true;
      entries := entries[idx := nueva];
      assert Valores() == vs[idx := nueva.Valor()];
    }

    /** A new entry in the victim's slot; the hand moves past it. */
    method Sustituir(v: nat, nueva: CacheEntry)
      requires Valid() && nueva !in entries && v < |entries|
      modifies this
      ensures Valid() && entries == old(entries)[v := nueva]
      ensures Valores() == old(Valores())[v := nueva.Valor()]
      ensures paginaIndex == (old(paginaIndex) - {old(entries[v].pagina)})[nueva.pagina := v]
      ensures clockHand == Siguiente(v, |entries|)
    {
      paginaIndex := paginaIndex - {entries[v].pagina};
      entries := entries[v := nueva];
      paginaIndex := paginaIndex[nueva.pagina := v];
      clockHand := Siguiente(v, |entries|);
    }

    method ApagarR(i: nat)
      requires Valid() && i < |entries|
      modifies entries
      ensures Valores() == old(Valores())[i := old(Valores())[i].(r := false)]
    {
      entries[i].r := false;
    }

    method BuscarVictimaCLOCK() returns (v: nat)
      requires Valid() && clockHand < |entries|
      modifies this`clockHand, entries
      ensures (v, Valores()) == VictimaClock(old(Valores()), old(clockHand)) && clockHand == v
    {
      ghost var es, mano, k := Valores(), clockHand, 0;
      var n := |entries|;
      LimpiarNada(es, mano);
      while entries[clockHand].r
        invariant k <= n && clockHand == Pos(mano, k, n)
        invariant Valores() == Limpiar(es, mano, k)
        invariant forall i :: 0 <= i < k ==> es[Pos(mano, i, n)].r
        decreases n - k
      {
        assert Valores()[clockHand].r;
        LimpiarUno(es, mano, k);
        SiguientePos(mano, k, n);
        ApagarR(clockHand);
        clockHand := Siguiente(clockHand, n);
        k := k + 1;
      }
      assert !Valores()[clockHand].r;
      if k < n { LimpiarUno(es, mano, k); }
      HastaUnica(es, mano, 0, 1, k);
      v := clockHand;
    }

    /** The first pass of CLOCK-M: reference and modified bits both clear. */
    method PrimeraPasada() returns (r: Opcion<nat>)
      requires Valid() && clockHand < |entries|
      modifies this`clockHand
      ensures var k := Hasta(Valores(), old(clockHand), 0, 0, 0);
              if k < |entries|
              then r == Algo(Pos(old(clockHand), k, |entries|)) && clockHand == Siguiente(r.valor, |entries|)
              else r == Nada && clockHand == old(clockHand)
    {
      ghost var es, mano := Valores(), clockHand;
      for i := 0 to |entries|
        invariant clockHand == mano
        invariant forall k :: 0 <= k < i ==> Clase(es[Pos(mano, k, |es|)]) != 0
      {
        var idx := Pos(clockHand, i, |entries|);
        assert Valores()[idx] == entries[idx].Valor();
        if !entries[idx].r && !entries[idx].d {
          HastaUnica(es, mano, 0, 0, i);
          clockHand := Siguiente(idx, |entries|);
          return Algo(idx);
        }
      }
      HastaUnica(es, mano, 0, 0, |es|);
      return Nada;
    }

    /** The second pass: modified but not referenced, clearing the reference bits passed. */
    method SegundaPasada() returns (r: Opcion<nat>)
      requires Valid() && clockHand < |entries|
      requires forall j :: 0 <= j < |entries| ==> Clase(Valores()[j]) != 0
      modifies this`clockHand, entries
      ensures var k := Hasta(old(Valores()), old(clockHand), 1, 1, 0);
              && Valores() == Limpiar(old(Valores()), old(clockHand), k)
              && if k < |entries|
                 then r == Algo(Pos(old(clockHand), k, |entries|)) && clockHand == Siguiente(r.valor, |entries|)
                 else r == Nada && clockHand == old(clockHand)
    {
      ghost var es, mano := Valores(), clockHand;
      LimpiarNada(es, mano);
      for i := 0 to |entries|
        invariant clockHand == mano
        invariant Valores() == Limpiar(es, mano, i)
        invariant forall k :: 0 <= k < i ==> Clase(es[Pos(mano, k, |es|)]) != 1
      {
        LimpiarUno(es, mano, i);
        var idx := Pos(clockHand, i, |entries|);
        assert Valores()[idx] == entries[idx].Valor() == es[idx];
        if !entries[idx].r && entries[idx].d {
          HastaUnica(es, mano, 1, 1, i);
          clockHand := Siguiente(idx, |entries|);
          return Algo(idx);
        }
        ApagarR(idx);
      }
      HastaUnica(es, mano, 1, 1, |es|);
      return Nada;
    }

    /** Two passes, and one more call when every slot was referenced. */
    method BuscarVictimaCLOCKM() returns (v: nat)
      requires Valid() && clockHand < |entries|
      modifies this`clockHand, entries
      ensures (v, Valores()) == VictimaClockM(old(Valores()), old(clockHand))
      ensures clockHand == Siguiente(v, |entries|)
      decreases HayReferida(Valores())
    {
      ghost var es, mano := Valores(), clockHand;
      var a := PrimeraPasada();
      if a.Algo? {
        return a.valor;
      }
      NingunaDeClase(es, mano, 0);
      var b := SegundaPasada();
      if b.Algo? {
        return b.valor;
      }
      NuevaLlamada(es, mano);
      v := BuscarVictimaCLOCKM();
    }
  }

  /** When both passes fail every slot was referenced, none is now, and a new search gives what
      was due. */
  lemma NuevaLlamada(es: seq<EntradaC>, mano: nat)
    requires mano < |es| && Hasta(es, mano, 0, 0, 0) == |es| && Hasta(es, mano, 1, 1, 0) == |es|
    ensures var l := Limpiar(es, mano, |es|);
            && HayReferida(es) && !HayReferida(l)
            && VictimaClockM(l, mano) == VictimaClockM(es, mano)
  {
    NingunaDeClase(es, mano, 0);
    NingunaDeClase(es, mano, 1);
    LimpiarNada(es, mano);
    SegundaVuelta(es, mano);
    assert es[0].r;
  }

  lemma NingunaDeClase(es: seq<EntradaC>, mano: nat, clase: nat)
    requires mano < |es| && Hasta(es, mano, clase, clase, 0) == |es|
    ensures forall j :: 0 <= j < |es| ==> Clase(es[j]) != clase
  {
    HastaPrimera(es, mano, clase, clase);
  }
}
