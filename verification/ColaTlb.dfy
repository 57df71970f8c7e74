/** FIFO replacement in the TLB: it holds exactly the last pages loaded, in the order of a queue that
    is defined on the accesses alone. */
module ColaTlb {
  import opened Secuencias
  import opened TLB

  /** The last elements, as many as there is room for. */
  function Ultimas(s: seq<nat>, capacidad: nat): (r: seq<nat>)
    ensures |r| == Menor(capacidad, |s|)
  {
    if |s| <= capacidad then s else s[|s| - capacidad..]
  }

  /** The pages loaded by a sequence of accesses, in order: an access loads its page unless that is
      one of the last `capacidad` loaded. */
  function Cargadas(s: seq<nat>, capacidad: nat): seq<nat>
  {
    if s == [] then []
    else
      var previas, x := Cargadas(s[..|s| - 1], capacidad), s[|s| - 1];
      if x in Ultimas(previas, capacidad) then previas else previas + [x]
  }

  /** One load more: the queue moves on by one. */
  lemma UltimasUnaMas(s: seq<nat>, x: nat, capacidad: nat)
    requires capacidad >= 1
    ensures Ultimas(s + [x], capacidad)
         == (if |s| < capacidad then Ultimas(s, capacidad) else Ultimas(s, capacidad)[1..]) + [x]
  {
  }

  function Paginas(es: seq<EntradaTlb>): (r: seq<nat>)
    ensures |r| == |es|
  {
    seq(|es|, i requires 0 <= i < |es| => es[i].pagina)
  }

  /** The index is exact: every slot is the one of its page, and all belong to the process. */
  ghost predicate IndiceExacto(t: Tlb, pid: nat)
  {
    && IndiceEnRango(t)
    && forall j :: 0 <= j < |t.entries| ==>
         t.entries[j].pid == pid && t.entries[j].pagina in t.indice && t.indice[t.entries[j].pagina] == j
  }

  /** A FIFO TLB used by one process whose queue is `q`: its slots from the one to be replaced next. */
  ghost predicate EnCola(t: Tlb, pid: nat, q: seq<nat>)
  {
    && IndiceExacto(t, pid) && t.algoritmo == FIFO && t.fifo <= |t.entries|
    && (|t.entries| < t.capacidad ==> t.fifo == 0)
    && Girada(Paginas(t.entries), t.fifo) == q
  }

  lemma HayEnCola(t: Tlb, pid: nat, q: seq<nat>, pagina: nat)
    requires EnCola(t, pid, q)
    ensures pagina in t.indice <==> pagina in q
    ensures Hay(t, pagina, pid) <==> pagina in q
  {
    if pagina in t.indice {
      GiradaTiene(Paginas(t.entries), t.fifo, t.indice[pagina]);
    }
    if pagina in q {
      var j := GiradaViene(Paginas(t.entries), t.fifo, pagina);
      assert t.entries[j].pagina == pagina;
    }
  }

  lemma TocarEnCola(t: Tlb, pid: nat, q: seq<nat>, pagina: nat)
    requires EnCola(t, pid, q) && pagina in t.indice
    ensures EnCola(Tocar(t, pagina), pid, q)
  {
    assert Paginas(Tocar(t, pagina).entries) == Paginas(t.entries);
  }

  lemma AgregarEnCola(t: Tlb, pid: nat, q: seq<nat>, pagina: nat, marco: nat)
    requires EnCola(t, pid, q) && pagina !in t.indice && |q| < t.capacidad
    ensures EnCola(Cargar(t, pagina, marco, pid), pid, q + [pagina])
  {
    assert Paginas(Cargar(t, pagina, marco, pid).entries) == Paginas(t.entries) + [pagina];
  }

  lemma ReemplazarEnCola(t: Tlb, pid: nat, q: seq<nat>, pagina: nat, marco: nat)
    requires EnCola(t, pid, q) && pagina !in t.indice && |q| == t.capacidad
    ensures q != [] && EnCola(Cargar(t, pagina, marco, pid), pid, q[1..] + [pagina])
  {
    var t' := Cargar(t, pagina, marco, pid);
    FifoSiguiente(t.fifo, t.capacidad);
    GirarAlReemplazar(Paginas(t.entries), t.fifo, pagina);
    assert Paginas(t'.entries) == Paginas(t.entries)[t.fifo := pagina];
    IndiceAlReemplazar(t, pid, pagina, marco);
  }

  lemma IndiceAlReemplazar(t: Tlb, pid: nat, pagina: nat, marco: nat)
    requires IndiceExacto(t, pid) && t.algoritmo == FIFO && pagina !in t.indice && |t.entries| == t.capacidad
    ensures IndiceExacto(Cargar(t, pagina, marco, pid), pid)
  {
    FifoSiguiente(t.fifo, t.capacidad);
    var t', sale := Cargar(t, pagina, marco, pid), t.entries[t.fifo].pagina;
    assert t'.entries == t.entries[t.fifo := EntradaTlb(pagina, marco, pid, t.reloj + 1)];
    assert t'.indice == (t.indice - {sale})[pagina := t.fifo];
  }

  lemma FifoSiguiente(fifo: nat, n: nat)
    requires fifo < n
    ensures (fifo + 1) % n == if fifo + 1 == n then 0 else fifo + 1
  {
  }

  /** One access: the queue of the reference. */
  lemma AccesoEnCola(t: Tlb, pid: nat, cargas: seq<nat>, pagina: nat, marco: nat)
    requires t.capacidad >= 1 && EnCola(t, pid, Ultimas(cargas, t.capacidad))
    ensures var q := Ultimas(cargas, t.capacidad);
            EnCola(Acceder(t, pagina, pid, marco).0, pid,
                   if pagina in q then q else Ultimas(cargas + [pagina], t.capacidad))
  {
    var q := Ultimas(cargas, t.capacidad);
    HayEnCola(t, pid, q, pagina);
    UltimasUnaMas(cargas, pagina, t.capacidad);
    if pagina in q {
      TocarEnCola(t, pid, q, pagina);
    } else if |q| < t.capacidad {
      AgregarEnCola(t, pid, q, pagina, marco);
    } else {
      ReemplazarEnCola(t, pid, q, pagina, marco);
    }
  }

  lemma VaciaEnCola(capacidad: nat, pid: nat)
    requires capacidad >= 1
    ensures EnCola(Vacia(capacidad, FIFO), pid, [])
  {
  }

  lemma CapacidadIgual(t: Tlb, pagina: nat, pid: nat, marco: nat)
    requires IndiceEnRango(t)
    ensures Acceder(t, pagina, pid, marco).0.capacidad == t.capacidad
  {
  }

  lemma {:induction false} UsarEnCola(capacidad: nat, pid: nat, marcos: nat -> nat, s: seq<nat>)
    requires capacidad >= 1
    ensures Usar(FIFO, capacidad, pid, marcos, s).capacidad == capacidad
    ensures EnCola(Usar(FIFO, capacidad, pid, marcos, s), pid, Ultimas(Cargadas(s, capacidad), capacidad))
  {
    if s == [] {
      VaciaEnCola(capacidad, pid);
    } else {
      var k := |s| - 1;
      var t := Usar(FIFO, capacidad, pid, marcos, s[..k]);
      UsarEnCola(capacidad, pid, marcos, s[..k]);
      AccesoEnCola(t, pid, Cargadas(s[..k], capacidad), s[k], marcos(s[k]));
      CapacidadIgual(t, s[k], pid, marcos(s[k]));
    }
  }

  lemma ClavesEnCola(t: Tlb, pid: nat, q: seq<nat>, pagina: nat)
    requires EnCola(t, pid, q)
    ensures |t.entries| == |q| && t.indice.Keys == Conjunto(q) && (Hay(t, pagina, pid) <==> pagina in q)
  {
    HayEnCola(t, pid, q, pagina);
    forall pg
      ensures pg in t.indice <==> pg in q
    {
      HayEnCola(t, pid, q, pg);
    }
  }

  /** After any sequence of accesses the FIFO TLB holds exactly the last pages loaded, as many as fit;
      the next access misses exactly if its page is none of them. */
  lemma FifoContieneLasUltimas(capacidad: nat, pid: nat, marcos: nat -> nat, s: seq<nat>, pagina: nat)
    requires capacidad >= 1
    ensures var t, cargas := Usar(FIFO, capacidad, pid, marcos, s), Cargadas(s, capacidad);
            && |t.entries| == Menor(capacidad, |cargas|)
            && t.indice.Keys == Conjunto(Ultimas(cargas, capacidad))
            && (Hay(t, pagina, pid) <==> pagina in Ultimas(cargas, capacidad))
  {
    UsarEnCola(capacidad, pid, marcos, s);
    ClavesEnCola(Usar(FIFO, capacidad, pid, marcos, s), pid, Ultimas(Cargadas(s, capacidad), capacidad), pagina);
  }

  lemma CargadasUnaMas(s: seq<nat>, x: nat, capacidad: nat, cargas: seq<nat>)
    requires cargas == Cargadas(s, capacidad)
    ensures Cargadas(s + [x], capacidad) == if x in Ultimas(cargas, capacidad) then cargas else cargas + [x]
  {
    assert (s + [x])[..|s|] == s;
  }

  /** The first loads of three pages, whatever the capacity. */
  lemma TresCargas(capacidad: nat)
    requires capacidad >= 2
    ensures Cargadas([0, 1, 2], capacidad) == [0, 1, 2]
  {
    CargadasUnaMas([], 0, capacidad, []);
    CargadasUnaMas([0], 1, capacidad, [0]);
    CargadasUnaMas([0, 1], 2, capacidad, [0, 1]);
    assert [] + [0] == [0] && [0] + [1] == [0, 1] && [0, 1] + [2] == [0, 1, 2];
  }

  lemma CargasDeDos(s: seq<nat>)
    requires s == [0, 1, 2, 0, 3]
    ensures 0 in Ultimas(Cargadas(s, 2), 2)
  {
    var s3: seq<nat> := [0, 1, 2];
    assert s == s3 + [0] + [3];
    TresCargas(2);
    CargadasUnaMas(s3, 0, 2, [0, 1, 2]);
    CargadasUnaMas(s3 + [0], 3, 2, [0, 1, 2] + [0]);
    assert Ultimas([0, 1, 2] + [0] + [3], 2)[0] == 0;
  }

  lemma CargasDeTres(s: seq<nat>)
    requires s == [0, 1, 2, 0, 3]
    ensures 0 !in Ultimas(Cargadas(s, 3), 3)
  {
    var s3: seq<nat> := [0, 1, 2];
    assert s == s3 + [0] + [3];
    TresCargas(3);
    CargadasUnaMas(s3, 0, 3, [0, 1, 2]);
    CargadasUnaMas(s3 + [0], 3, 3, [0, 1, 2]);
    assert Ultimas([0, 1, 2] + [3], 3) == [1, 2, 3];
  }

  /** Unlike LRU, a larger FIFO TLB may lack a page that a smaller one holds. */
  lemma FifoSinInclusion(pid: nat, marcos: nat -> nat, s: seq<nat>)
    requires s == [0, 1, 2, 0, 3]
    ensures Hay(Usar(FIFO, 2, pid, marcos, s), 0, pid) && !Hay(Usar(FIFO, 3, pid, marcos, s), 0, pid)
  {
    CargasDeDos(s);
    CargasDeTres(s);
    FifoContieneLasUltimas(2, pid, marcos, s, 0);
    FifoContieneLasUltimas(3, pid, marcos, s, 0);
  }
}
