/** CLOCK as a second-chance queue: whole runs of a process through the cache, against a queue of
    pages with their reference bits that is defined on the accesses alone. */
module RelojCache {
  import opened Secuencias
  import opened Memoria
  import opened CachePaginas
  import opened CpuModelo
  import opened CorridasCpu

  datatype Marca = Marca(pagina: nat, r: bool)

  // ----- the reference -----

  function Referidas(q: seq<Marca>): nat
  {
    if q == [] then 0 else Referidas(q[1..]) + (if q[0].r then 1 else 0)
  }

  lemma {:induction false} ReferidasAlFinal(q: seq<Marca>, x: Marca)
    ensures Referidas(q + [x]) == Referidas(q) + (if x.r then 1 else 0)
  {
    if q == [] {
      assert [] + [x] == [x];
    } else {
      ReferidasAlFinal(q[1..], x);
      assert (q + [x])[1..] == q[1..] + [x];
    }
  }

  /** A referenced page at the front loses its bit and goes to the back, until the front has none. */
  function SegundaOportunidad(q: seq<Marca>): (r: seq<Marca>)
    requires q != []
    ensures |r| == |q|
    decreases Referidas(q)
  {
    if !q[0].r then q
    else
      ReferidasAlFinal(q[1..], q[0].(r := false));
      SegundaOportunidad(q[1..] + [q[0].(r := false)])
  }

  /** An access marks its page; a page that is not there goes to the back, in the place of the front
      after second chances if the queue is full. */
  function TrasUso(q: seq<Marca>, pagina: nat, capacidad: nat): seq<Marca>
  {
    if exists i :: 0 <= i < |q| && q[i].pagina == pagina then
      seq(|q|, i requires 0 <= i < |q| => if q[i].pagina == pagina then q[i].(r := true) else q[i])
    else if |q| < capacidad || q == [] then q + [Marca(pagina, true)]
    else SegundaOportunidad(q)[1..] + [Marca(pagina, true)]
  }

  /** The queue after the accesses of a run. */
  function Cola(accesos: seq<Acceso>, capacidad: nat): seq<Marca>
  {
    if accesos == [] then []
    else
      var k := |accesos| - 1;
      TrasUso(Cola(accesos[..k], capacidad), accesos[k].pag, capacidad)
  }

  // ----- the cache as that queue -----

  function Marcas(es: seq<EntradaC>): (r: seq<Marca>)
    ensures |r| == |es|
  {
    seq(|es|, i requires 0 <= i < |es| => Marca(es[i].pagina, es[i].r))
  }

  /** The slots from the hand on. */
  function EnCola(q: Cache): seq<Marca>
    requires CacheBien(q)
  {
    Girada(Marcas(q.entries), q.mano)
  }

  /** The first k of the queue without their bits. */
  function SinBits(q: seq<Marca>): (r: seq<Marca>)
    ensures |r| == |q|
  {
    seq(|q|, i requires 0 <= i < |q| => q[i].(r := false))
  }

  /** Second chances for the first k, all referenced. */
  lemma {:induction false} OportunidadesSeguidas(q: seq<Marca>, k: nat)
    requires q != [] && k <= |q| && forall i :: 0 <= i < k ==> q[i].r
    ensures SegundaOportunidad(q) == SegundaOportunidad(q[k..] + SinBits(q[..k]))
    decreases k
  {
    if k == 0 {
      assert q[0..] + SinBits(q[..0]) == q;
    } else {
      OportunidadesSeguidas(q, k - 1);
      var a, b := q[k - 1..] + SinBits(q[..k - 1]), q[k..] + SinBits(q[..k]);
      assert a[0] == q[k - 1] && a[1..] + [a[0].(r := false)] == b;
    }
  }

  lemma OportunidadDada(q: seq<Marca>, k: nat)
    requires q != [] && k <= |q| && (forall i :: 0 <= i < k ==> q[i].r) && (k < |q| ==> !q[k].r)
    ensures SegundaOportunidad(q) == q[k..] + SinBits(q[..k])
  {
    OportunidadesSeguidas(q, k);
    var b := q[k..] + SinBits(q[..k]);
    assert !b[0].r;
  }

  /** The search of CLOCK, its victim brought to the front. */
  lemma ClockEnCola(es: seq<EntradaC>, mano: nat)
    requires mano < |es|
    ensures var (v, es') := VictimaClock(es, mano);
            Girada(Marcas(es'), v) == SegundaOportunidad(Girada(Marcas(es), mano))
  {
    var k, n, q := Hasta(es, mano, 0, 1, 0), |es|, Girada(Marcas(es), mano);
    HastaDefine(es, mano, 0, 1, 0);
    forall i | 0 <= i < n
      ensures q[i] == Marca(es[Pos(mano, i, n)].pagina, es[Pos(mano, i, n)].r)
    {
    }
    OportunidadDada(q, k);
    GiradaAlLimpiar(es, mano, k);
  }

  lemma GiradaAlLimpiar(es: seq<EntradaC>, mano: nat, k: nat)
    requires mano < |es| && k <= |es|
    ensures var q := Girada(Marcas(es), mano);
            Girada(Marcas(Limpiar(es, mano, k)), Pos(mano, k, |es|)) == q[k..] + SinBits(q[..k])
  {
    var n, q, l := |es|, Girada(Marcas(es), mano), Marcas(Limpiar(es, mano, k));
    var a, b := Girada(l, Pos(mano, k, n)), q[k..] + SinBits(q[..k]);
    forall i | 0 <= i < n
      ensures a[i] == b[i]
    {
      var j := if i < n - k then k + i else i - (n - k);
      var p := Pos(mano, j, n);
      assert a[i] == l[p] && q[j] == Marcas(es)[p];
      assert Dist(mano, p, n) == j;
    }
  }

  lemma InsertarConLugar(q: Cache, nueva: EntradaC)
    requires CacheBien(q) && nueva.pagina !in q.indice && |q.entries| < q.capacidad && CacheBien(Insertar(q, nueva))
    ensures EnCola(Insertar(q, nueva)) == EnCola(q) + [Marca(nueva.pagina, nueva.r)]
  {
    assert Marcas(q.entries + [nueva]) == Marcas(q.entries) + [Marca(nueva.pagina, nueva.r)];
  }

  lemma InsertarLlena(q: Cache, nueva: EntradaC)
    requires CacheBien(q) && nueva.pagina !in q.indice && |q.entries| == q.capacidad && q.algoritmo == CLOCK
    requires CacheBien(Insertar(q, nueva))
    ensures EnCola(Insertar(q, nueva)) == SegundaOportunidad(EnCola(q))[1..] + [Marca(nueva.pagina, nueva.r)]
  {
    var (v, es) := VictimaClock(q.entries, q.mano);
    ClockEnCola(q.entries, q.mano);
    Reemplazada(es, v, nueva);
    LlenaPartes(q, nueva);
  }

  lemma Reemplazada(es: seq<EntradaC>, v: nat, nueva: EntradaC)
    requires v < |es|
    ensures Girada(Marcas(es[v := nueva]), Siguiente(v, |es|))
         == Girada(Marcas(es), v)[1..] + [Marca(nueva.pagina, nueva.r)]
  {
    var m := Marca(nueva.pagina, nueva.r);
    GirarAlReemplazar(Marcas(es), v, m);
    assert Marcas(es[v := nueva]) == Marcas(es)[v := m];
  }

  lemma LlenaPartes(q: Cache, nueva: EntradaC)
    requires CacheBien(q) && nueva.pagina !in q.indice && |q.entries| == q.capacidad && q.algoritmo == CLOCK
    ensures var (v, es) := VictimaClock(q.entries, q.mano);
            Insertar(q, nueva).entries == es[v := nueva] && Insertar(q, nueva).mano == Siguiente(v, |es|)
  {
  }

  /** Insertion of a page that is not there. */
  lemma InsertarEnCola(q: Cache, nueva: EntradaC)
    requires CacheBien(q) && q.algoritmo == CLOCK && nueva.pagina !in q.indice && nueva.r
    ensures CacheBien(Insertar(q, nueva))
    ensures EnCola(Insertar(q, nueva)) == TrasUso(EnCola(q), nueva.pagina, q.capacidad)
  {
    InsertarBien(q, nueva);
    AusenteEnCola(q, nueva.pagina);
    if |q.entries| < q.capacidad { InsertarConLugar(q, nueva); } else { InsertarLlena(q, nueva); }
  }

  lemma AusenteEnCola(q: Cache, pagina: nat)
    requires CacheBien(q)
    ensures pagina in q.indice <==> exists i :: 0 <= i < |EnCola(q)| && EnCola(q)[i].pagina == pagina
  {
    var ms, mano := Marcas(q.entries), q.mano;
    if pagina in q.indice {
      var j := q.indice[pagina];
      GiradaTiene(ms, mano, j);
      assert ms[j] in EnCola(q) && ms[j].pagina == pagina;
    }
    if i :| 0 <= i < |EnCola(q)| && EnCola(q)[i].pagina == pagina {
      var j := GiradaViene(ms, mano, EnCola(q)[i]);
      assert q.entries[j].pagina == pagina;
    }
  }

  /** A page that is there gets its bit. */
  lemma MarcarEnCola(q: Cache, pagina: nat, e: EntradaC)
    requires CacheBien(q) && pagina in q.indice && e.pagina == pagina && e.r
    ensures var q' := q.(entries := q.entries[q.indice[pagina] := e]);
            CacheBien(q') && EnCola(q') == TrasUso(EnCola(q), pagina, q.capacidad)
  {
    var i, mano := q.indice[pagina], q.mano;
    var q' := q.(entries := q.entries[i := e]);
    var ms, ms' := Marcas(q.entries), Marcas(q'.entries);
    AusenteEnCola(q, pagina);
    assert forall j :: 0 <= j < |ms| ==> (ms[j].pagina == pagina <==> j == i);
    assert forall j :: 0 <= j < |ms| ==> ms'[j] == if j == i then ms[j].(r := true) else ms[j];
    var a, b := EnCola(q), EnCola(q');
    forall j | 0 <= j < |a|
      ensures b[j] == if a[j].pagina == pagina then a[j].(r := true) else a[j]
    {
      var p := if j < |ms| - mano then mano + j else j - (|ms| - mano);
      assert a[j] == ms[p] && b[j] == ms'[p];
    }
  }

  /** Another entry for the same page, with the same bit, is the same queue. */
  lemma MismaCola(q: Cache, pagina: nat, e: EntradaC)
    requires CacheBien(q) && pagina in q.indice && e.pagina == pagina && e.r == q.entries[q.indice[pagina]].r
    ensures var q' := q.(entries := q.entries[q.indice[pagina] := e]); CacheBien(q') && EnCola(q') == EnCola(q)
  {
    assert Marcas(q.entries[q.indice[pagina] := e]) == Marcas(q.entries);
  }

  // ----- runs -----

  /** A cache in CLOCK order whose queue is `q`. */
  ghost predicate Reloj(s: Cpu, capacidad: nat, q: seq<Marca>)
  {
    CacheBien(s.cache) && s.cache.algoritmo == CLOCK && s.cache.capacidad == capacidad && EnCola(s.cache) == q
  }

  /** The load of an access. */
  lemma AsegurarEnCola(pagina: nat, fs: seq<nat>, pid: nat, s: Cpu, pag: nat, d: bool, capacidad: nat, q: seq<Marca>)
    requires CpuBien(pagina, map[pid := fs], s) && pag < |fs| && Reloj(s, capacidad, q)
    ensures Suya(map[pid := fs], pid, pag)
    ensures var s' := Asegurar(pagina, map[pid := fs], pid, s, pag, d);
            && Reloj(s', capacidad, TrasUso(q, pag, capacidad))
            && pag in s'.cache.indice && s'.cache.entries[s'.cache.indice[pag]].r
  {
    if pag in s.cache.indice {
      EntradaDePagina(pagina, map[pid := fs], s, pag);
      MarcarEnCola(s.cache, pag, s.cache.entries[s.cache.indice[pag]].(r := true));
    } else {
      FalloEnCola(pagina, map[pid := fs], pid, s, pag, d);
    }
  }

  /** A miss inserts the page into the cache as it was. */
  lemma FalloEnCola(pagina: nat, tb: Tablas, pid: nat, s: Cpu, pag: nat, d: bool)
    requires CpuBien(pagina, tb, s) && Suya(tb, pid, pag) && pag !in s.cache.indice && s.cache.algoritmo == CLOCK
    ensures var q, q' := s.cache, Asegurar(pagina, tb, pid, s, pag, d).cache;
            && CacheBien(q') && q'.algoritmo == CLOCK && q'.capacidad == q.capacidad
            && pag in q'.indice && q'.entries[q'.indice[pag]].r
            && EnCola(q') == TrasUso(EnCola(q), pag, q.capacidad)
  {
    var s1, e := TraerEs(pagina, tb, pid, s, pag, d);
    FalloPartes(pagina, tb, s, s1, e);
    InsertarEnCola(s.cache, e);
    InsertarConBit(s.cache, e);
  }

  lemma FalloPartes(pagina: nat, tb: Tablas, s: Cpu, s1: Cpu, e: EntradaC)
    requires CpuBien(pagina, tb, s1) && s1.cache == s.cache && e.pagina !in s.cache.indice
    ensures InsertarEnCpu(pagina, tb, s1, e).cache == Insertar(s.cache, e)
  {
    InsertarPartes(pagina, tb, s1, e);
  }

  lemma InsertarConBit(q: Cache, nueva: EntradaC)
    requires CacheBien(q) && nueva.pagina !in q.indice && nueva.r
    ensures var q' := Insertar(q, nueva);
            && q'.algoritmo == q.algoritmo && q'.capacidad == q.capacidad
            && nueva.pagina in q'.indice && q'.indice[nueva.pagina] < |q'.entries|
            && q'.entries[q'.indice[nueva.pagina]].r
  {
  }

  /** One READ or WRITE. */
  lemma AccesoEnCola(pagina: nat, fs: seq<nat>, pid: nat, s: Cpu, a: Acceso, capacidad: nat, q: seq<Marca>)
    requires CpuBien(pagina, map[pid := fs], s) && AccesoValido(pagina, map[pid := fs], a) && Reloj(s, capacidad, q)
    ensures Reloj(PasoCpu(pagina, map[pid := fs], s, a).0, capacidad, TrasUso(q, a.pag, capacidad))
  {
    var tb := map[pid := fs];
    AsegurarEnCola(pagina, fs, pid, s, a.pag, a.Escritura?, capacidad, q);
    var s1 := Asegurar(pagina, tb, pid, s, a.pag, a.Escritura?);
    var e := s1.cache.entries[s1.cache.indice[a.pag]];
    match a {
      case Lectura(_, _, _, _) => MismaCola(s1.cache, a.pag, e.(r := true));
      case Escritura(_, _, desp, dato) =>
        MismaCola(s1.cache, a.pag, e);
        AsegurarBien(pagina, tb, pid, s, a.pag, true);
        EntradaDePagina(pagina, tb, s1, a.pag);
        MismaCola(s1.cache, a.pag, e.(contenido := CopiarEnCache(e.contenido, desp, dato), r := true, d := true));
    }
  }

  /** CLOCK is second chance: over any run of one process from an empty cache, the pages cached, their
      order from the hand and their reference bits are those of the queue of the accesses. */
  lemma {:induction false} ClockEsSegundaOportunidad(pagina: nat, fs: seq<nat>, pid: nat, ss: seq<Cpu>,
                                                     accesos: seq<Acceso>, leidos: seq<seq<byte>>,
                                                     capacidad: nat, n: nat)
    requires Corrida(pagina, map[pid := fs], ss, accesos, leidos) && n <= |accesos|
    requires capacidad >= 1 && ss[0].cache == CacheVacia(capacidad, CLOCK)
    ensures Reloj(ss[n], capacidad, Cola(accesos[..n], capacidad))
  {
    if n > 0 {
      ClockEsSegundaOportunidad(pagina, fs, pid, ss, accesos, leidos, capacidad, n - 1);
      UnAccesoMas(pagina, fs, pid, ss, accesos, leidos, capacidad, n - 1);
      ColaUnaMas(accesos, capacidad, n);
    }
  }

  lemma UnAccesoMas(pagina: nat, fs: seq<nat>, pid: nat, ss: seq<Cpu>, accesos: seq<Acceso>,
                    leidos: seq<seq<byte>>, capacidad: nat, k: nat)
    requires Corrida(pagina, map[pid := fs], ss, accesos, leidos) && k < |accesos|
    requires Reloj(ss[k], capacidad, Cola(accesos[..k], capacidad))
    ensures Reloj(ss[k + 1], capacidad, TrasUso(Cola(accesos[..k], capacidad), accesos[k].pag, capacidad))
  {
    EnCorrida(pagina, map[pid := fs], ss, accesos, leidos, k);
    AccesoEnCola(pagina, fs, pid, ss[k], accesos[k], capacidad, Cola(accesos[..k], capacidad));
  }

  lemma ColaUnaMas(accesos: seq<Acceso>, capacidad: nat, n: nat)
    requires 0 < n <= |accesos|
    ensures Cola(accesos[..n], capacidad)
         == TrasUso(Cola(accesos[..n - 1], capacidad), accesos[n - 1].pag, capacidad)
  {
    assert accesos[..n][..n - 1] == accesos[..n - 1];
  }
}
