/** The admission loops of the long-term planner, run against the memory module: they keep kernel
    and memory in agreement, they end, and one smallest-first round from NEW is optimal. */
module RondaAdmision {
  import opened Aritmetica
  import opened Secuencias
  import opened Memoria
  import opened RefinamientoMemoria
  import opened Kernel
  import opened Admision
  import opened SistemaConjunto
  import opened ModuloMemoria
  import opened ModuloKernel
  import K = KernelPasos
  import KI = KernelInvariante

  /** Pages each live process needs. */
  ghost function Demandas(c: Config, ps: map<nat, Pcb>): (r: map<nat, nat>)
    requires ConfigValida(c)
    ensures r.Keys == ps.Keys
  {
    map pid | pid in ps :: Techo(ps[pid].tamanio, c.pagina)
  }

  ghost predicate TieneLugar(c: Config, m: Estado, tamanio: nat)
    requires ConfigValida(c)
  {
    |Libres(m.ocupados)| >= Techo(tamanio, c.pagina)
  }

  // ----- one turn -----

  method IniciarProceso(mem: MemoriaPrincipal, pid: nat, tamanio: nat) returns (exito: bool)
    requires mem.Valid() && tamanio >= 1
    modifies mem`procesos, mem.marcosOcupados
    ensures mem.Valid() && exito == TieneLugar(mem.c, old(mem.Modelo()), tamanio)
    ensures mem.Modelo() == Almacenar(mem.c, old(mem.Modelo()), pid, tamanio)
  {
    TechoUmbral(tamanio, mem.c.pagina, 0);
    MarcosBuscados(mem.marcosOcupados[..], Techo(tamanio, mem.c.pagina));
    var r := mem.AlmacenarProceso(pid, tamanio);
    exito := r == 0;
  }

  /** One turn of pasar_desde_new. */
  method TurnoNew(k: NucleoKernel, mem: MemoriaPrincipal) returns (pid: nat, exito: bool, ghost orden: seq<nat>)
    requires mem.Valid() && k.colas.nuevos != []
    requires forall x :: x in k.colas.nuevos ==> x in k.procesos && k.procesos[x].tamanio >= 1
    modifies k`colas, k`procesos, k`semReady, mem`procesos, mem.marcosOcupados
    ensures mem.Valid() && orden != [] && pid == orden[0] && pid in old(k.procesos)
    ensures K.OrdenAdmision(k.cfg, old(k.procesos), old(k.colas.nuevos), orden)
    ensures exito == TieneLugar(mem.c, old(mem.Modelo()), old(k.procesos)[pid].tamanio)
    ensures mem.Modelo() == Almacenar(mem.c, old(mem.Modelo()), pid, old(k.procesos)[pid].tamanio)
    ensures k.Modelo() == K.Admitir(old(k.Modelo()), NEW, orden, exito)
  {
    k.PrepararCola(NEW);
    orden := k.colas.nuevos;
    pid := k.colas.nuevos[0];
    CabezaEntre(old(k.colas.nuevos), orden);
    ghost var k1 := k.Modelo();
    assert k1 == K.Reordenar(old(k.Modelo()), NEW, orden);
    exito := IniciarProceso(mem, pid, k.procesos[pid].tamanio);
    assert k.Modelo() == k1;
    if exito { k.PasarAReady(pid, NEW); }
  }

  lemma CabezaEntre(q: seq<nat>, orden: seq<nat>)
    requires orden != [] && multiset(orden) == multiset(q)
    ensures orden[0] in q
  {
    assert orden[0] in multiset(orden);
  }

  /** A turn keeps kernel and memory in agreement. */
  lemma TurnoAcuerdo(c: Config, cfg: ConfigK, s: Sistema, s': Sistema, orden: seq<nat>, exito: bool)
    requires SisInv(c, s) && orden != [] && K.OrdenAdmision(cfg, s.k.procesos, s.k.colas.nuevos, orden)
    requires orden[0] in s.k.procesos && exito == TieneLugar(c, s.m, s.k.procesos[orden[0]].tamanio)
    requires s' == Sistema(K.Admitir(s.k, NEW, orden, exito),
                           Almacenar(c, s.m, orden[0], s.k.procesos[orden[0]].tamanio))
    ensures SisInv(c, s') && BytesIguales(s.m, s'.m)
  {
    OrdenEsPermutacion(cfg, s.k.procesos, s.k.colas.nuevos, orden);
    PasoAdmitirNuevo(c, s, orden, s');
  }

  lemma TurnoMemoria(c: Config, s: Sistema, pid: nat, m': Estado)
    requires SisInv(c, s) && pid in s.k.procesos && s.k.procesos[pid].estado == NEW
    requires m' == Almacenar(c, s.m, pid, s.k.procesos[pid].tamanio)
    ensures var n := Techo(s.k.procesos[pid].tamanio, c.pagina);
            if |Libres(s.m.ocupados)| < n then m' == s.m
            else |Libres(m'.ocupados)| == |Libres(s.m.ocupados)| - n && s.m.procesos.Keys <= m'.procesos.Keys
  {
    LlamadasValidas(c, s, pid);
    AlmacenarRefina(c, s.m, pid, s.k.procesos[pid].tamanio);
    AlmacenarClaves(c, s.m, pid, s.k.procesos[pid].tamanio);
  }

  lemma TurnoKernel(c: Config, k: Kernel, cfg: ConfigK, orden: seq<nat>, exito: bool)
    requires Particionada(k.colas, k.procesos) && ConfigValida(c) && orden != []
    requires K.OrdenAdmision(cfg, k.procesos, k.colas.nuevos, orden)
    ensures orden[0] in k.procesos && k.procesos[orden[0]].estado == NEW
    ensures var k' := K.Admitir(k, NEW, orden, exito);
            && Demandas(c, k'.procesos) == Demandas(c, k.procesos)
            && k'.colas.nuevos == (if exito then orden[1..] else orden)
            && k'.colas.listos == (if exito then k.colas.listos + [orden[0]] else k.colas.listos)
            && k'.colas.suspListos == k.colas.suspListos
  {
    OrdenEsPermutacion(cfg, k.procesos, k.colas.nuevos, orden);
    KI.CabezaEnCola(k, NEW, orden);
    if exito { TurnoConExito(k, orden); }
  }

  /** The head of NEW, left in this order, goes to the end of READY. */
  lemma TurnoConExito(k: Kernel, orden: seq<nat>)
    requires Particionada(k.colas, k.procesos) && orden != [] && multiset(orden) == multiset(k.colas.nuevos)
    requires orden[0] in k.procesos && k.procesos[orden[0]].estado == NEW
    ensures var k' := K.Admitir(k, NEW, orden, true);
            && k'.procesos == k.procesos[orden[0] := k.procesos[orden[0]].(estado := READY)]
            && k'.colas.nuevos == orden[1..] && k'.colas.listos == k.colas.listos + [orden[0]]
            && k'.colas.suspListos == k.colas.suspListos
  {
    K.ReordenarParticion(k.colas, k.procesos, NEW, orden);
    TransicionBien(K.Reordenar(k, NEW, orden), orden[0], NEW, READY);
    KI.SinCabeza(orden);
  }

  // ----- the round -----

  /** A round under way from queue `q0` and room `libres0`. */
  ghost predicate Avance(pmcp: bool, w: map<nat, nat>, q0: seq<nat>, libres0: nat, elegidos: seq<nat>, q: seq<nat>,
                         libres: nat)
  {
    && (forall x :: x in q0 ==> x in w) && (forall x :: x in q ==> x in w)
    && if pmcp then Parcial(Conjunto(q0), libres0, w, elegidos, Conjunto(q), libres)
       else q0 == elegidos + q && RondaFifo(q0, libres0, w) == |elegidos| + RondaFifo(q, libres, w)
  }

  /** A round that has ended, by either policy. */
  ghost predicate RondaCompleta(pmcp: bool, w: map<nat, nat>, q0: seq<nat>, libres0: nat, elegidos: seq<nat>)
  {
    && (forall x :: x in q0 ==> x in w)
    && if pmcp then Ronda(Conjunto(q0), libres0, w, elegidos) else elegidos == q0[..RondaFifo(q0, libres0, w)]
  }

  lemma AvanceSeAgota(pmcp: bool, w: map<nat, nat>, q0: seq<nat>, libres0: nat, elegidos: seq<nat>, libres: nat)
    requires Avance(pmcp, w, q0, libres0, elegidos, [], libres)
    ensures RondaCompleta(pmcp, w, q0, libres0, elegidos)
  {
    assert Conjunto<nat>([]) == {};
    if pmcp { ParcialTermina(Conjunto(q0), libres0, w, elegidos, {}, libres); }
  }

  ghost predicate OrdenadaPor(pmcp: bool, w: map<nat, nat>, q: seq<nat>, orden: seq<nat>)
    requires forall x :: x in q ==> x in w
  {
    if pmcp then
      && multiset(orden) == multiset(q)
      && (forall x :: x in orden ==> x in w)
      && (forall i, j :: 0 <= i < j < |orden| ==> w[orden[i]] <= w[orden[j]])
    else orden == q
  }

  lemma CabezaMinima(w: map<nat, nat>, q: seq<nat>, orden: seq<nat>)
    requires (forall x :: x in q ==> x in w) && OrdenadaPor(true, w, q, orden) && orden != []
    ensures EsMinimo(orden[0], Conjunto(q), w)
    ensures SinRepetidos(q) ==> Conjunto(q) - {orden[0]} == Conjunto(orden[1..])
  {
    forall x
      ensures x in q <==> x in orden
    {
      assert x in q <==> x in multiset(q);
      assert x in orden <==> x in multiset(orden);
    }
    if SinRepetidos(q) { K.Permutada(q, orden); }
  }

  lemma AvanceUnTurno(pmcp: bool, w: map<nat, nat>, q0: seq<nat>, libres0: nat, elegidos: seq<nat>, q: seq<nat>,
                      libres: nat, orden: seq<nat>)
    requires Avance(pmcp, w, q0, libres0, elegidos, q, libres) && OrdenadaPor(pmcp, w, q, orden) && orden != []
    requires SinRepetidos(q)
    ensures orden[0] in w
    ensures w[orden[0]] <= libres ==>
              Avance(pmcp, w, q0, libres0, elegidos + [orden[0]], orden[1..], libres - w[orden[0]])
    ensures w[orden[0]] > libres ==> RondaCompleta(pmcp, w, q0, libres0, elegidos)
  {
    if pmcp {
      CabezaMinima(w, q, orden);
      if w[orden[0]] <= libres {
        ParcialUnoMas(Conjunto(q0), libres0, w, elegidos, Conjunto(q), libres, orden[0]);
      } else {
        ParcialTermina(Conjunto(q0), libres0, w, elegidos, Conjunto(q), libres);
      }
    }
  }

  lemma OrdenPorDemanda(c: Config, cfg: ConfigK, ps: map<nat, Pcb>, q: seq<nat>, orden: seq<nat>)
    requires ConfigValida(c) && K.OrdenAdmision(cfg, ps, q, orden) && forall x :: x in q ==> x in ps
    ensures OrdenadaPor(cfg.pmcp, Demandas(c, ps), q, orden)
  {
    forall i, j | cfg.pmcp && 0 <= i < j < |orden|
      ensures Demandas(c, ps)[orden[i]] <= Demandas(c, ps)[orden[j]]
    {
      TechoMonotono(ps[orden[i]].tamanio, ps[orden[j]].tamanio, c.pagina);
    }
  }

  lemma NuevosListos(c: Config, s: Sistema)
    requires SisInv(c, s)
    ensures SinRepetidos(s.k.colas.nuevos)
    ensures forall x :: x in s.k.colas.nuevos ==> x in s.k.procesos && s.k.procesos[x].tamanio >= 1
  {
    assert ColaBien(s.k.colas.De(NEW), s.k.procesos, NEW);
  }

  ghost function Conjuntos(k: NucleoKernel, mem: MemoriaPrincipal): Sistema
    requires mem.Valid()
    reads k, mem, mem.memoria, mem.marcosOcupados
  {
    Sistema(k.Modelo(), mem.Modelo())
  }

  /** What one turn on NEW, left in order `orden`, has done. */
  ghost predicate TurnoHecho(c: Config, pmcp: bool, s: Sistema, s': Sistema, orden: seq<nat>, exito: bool)
    requires ConfigValida(c)
  {
    var w, q := Demandas(c, s.k.procesos), s.k.colas.nuevos;
    && (forall x :: x in q ==> x in w) && SinRepetidos(q) && OrdenadaPor(pmcp, w, q, orden) && orden != []
    && orden[0] in w
    && Demandas(c, s'.k.procesos) == w && s'.k.colas.suspListos == s.k.colas.suspListos
    && exito == (|Libres(s.m.ocupados)| >= w[orden[0]])
    && BytesIguales(s.m, s'.m) && s.m.procesos.Keys <= s'.m.procesos.Keys
    && if exito
       then s'.k.colas.nuevos == orden[1..] && s'.k.colas.listos == s.k.colas.listos + [orden[0]]
            && |Libres(s'.m.ocupados)| == |Libres(s.m.ocupados)| - w[orden[0]]
       else s'.k.colas.nuevos == orden && s'.k.colas.listos == s.k.colas.listos && s'.m == s.m
  }

  /** One turn on a state that agrees, with all it changes and keeps. */
  method TurnoNewBien(k: NucleoKernel, mem: MemoriaPrincipal) returns (pid: nat, exito: bool, ghost orden: seq<nat>)
    requires mem.Valid() && SisInv(mem.c, Conjuntos(k, mem)) && k.colas.nuevos != []
    modifies k`colas, k`procesos, k`semReady, mem`procesos, mem.marcosOcupados
    ensures mem.Valid() && SisInv(mem.c, Conjuntos(k, mem))
    ensures TurnoHecho(mem.c, k.cfg.pmcp, old(Conjuntos(k, mem)), Conjuntos(k, mem), orden, exito) && pid == orden[0]
  {
    ghost var s := Conjuntos(k, mem);
    NuevosListos(mem.c, s);
    pid, exito, orden := TurnoNew(k, mem);
    ghost var s' := Conjuntos(k, mem);
    TurnoAcuerdo(mem.c, k.cfg, s, s', orden, exito);
    TurnoKernel(mem.c, s.k, k.cfg, orden, exito);
    TurnoMemoria(mem.c, s, pid, s'.m);
    OrdenPorDemanda(mem.c, k.cfg, s.k.procesos, s.k.colas.nuevos, orden);
  }

  /** Where a round that began in `s0` stands. */
  ghost predicate EnRonda(c: Config, pmcp: bool, s0: Sistema, s: Sistema, elegidos: seq<nat>)
    requires ConfigValida(c)
  {
    var w := Demandas(c, s0.k.procesos);
    && Demandas(c, s.k.procesos) == w
    && s.k.colas.suspListos == s0.k.colas.suspListos && s.k.colas.listos == s0.k.colas.listos + elegidos
    && Avance(pmcp, w, s0.k.colas.nuevos, |Libres(s0.m.ocupados)|, elegidos, s.k.colas.nuevos, |Libres(s.m.ocupados)|)
    && BytesIguales(s0.m, s.m) && s0.m.procesos.Keys <= s.m.procesos.Keys
  }

  ghost predicate FinDeRonda(c: Config, pmcp: bool, s0: Sistema, s: Sistema, elegidos: seq<nat>)
    requires ConfigValida(c)
  {
    && s.k.colas.suspListos == s0.k.colas.suspListos && s.k.colas.listos == s0.k.colas.listos + elegidos
    && RondaCompleta(pmcp, Demandas(c, s0.k.procesos), s0.k.colas.nuevos, |Libres(s0.m.ocupados)|, elegidos)
    && BytesIguales(s0.m, s.m) && s0.m.procesos.Keys <= s.m.procesos.Keys
  }

  lemma EmpiezaRonda(c: Config, pmcp: bool, s: Sistema)
    requires SisInv(c, s)
    ensures EnRonda(c, pmcp, s, s, [])
  {
    InvVisible(c, s.m);
    NuevosListos(c, s);
  }

  lemma TerminaRonda(c: Config, pmcp: bool, s0: Sistema, s: Sistema, elegidos: seq<nat>)
    requires ConfigValida(c) && EnRonda(c, pmcp, s0, s, elegidos) && s.k.colas.nuevos == []
    ensures FinDeRonda(c, pmcp, s0, s, elegidos)
  {
    AvanceSeAgota(pmcp, Demandas(c, s0.k.procesos), s0.k.colas.nuevos, |Libres(s0.m.ocupados)|, elegidos,
                  |Libres(s.m.ocupados)|);
  }

  lemma TurnoSigue(c: Config, pmcp: bool, s0: Sistema, s: Sistema, s': Sistema, elegidos: seq<nat>, orden: seq<nat>,
                   exito: bool)
    requires ConfigValida(c) && EnRonda(c, pmcp, s0, s, elegidos) && TurnoHecho(c, pmcp, s, s', orden, exito)
    ensures exito ==> EnRonda(c, pmcp, s0, s', elegidos + [orden[0]]) && |s'.k.colas.nuevos| < |s.k.colas.nuevos|
    ensures !exito ==> FinDeRonda(c, pmcp, s0, s', elegidos)
  {
    var w := Demandas(c, s0.k.procesos);
    AvanceUnTurno(pmcp, w, s0.k.colas.nuevos, |Libres(s0.m.ocupados)|, elegidos, s.k.colas.nuevos,
                  |Libres(s.m.ocupados)|, orden);
    BytesSeguidos(s0.m, s.m, s'.m);
    OrdenLargo(pmcp, w, s.k.colas.nuevos, orden);
  }

  /** No set of processes in NEW whose page demand fits the free frames has more than n. */
  ghost predicate Optima(c: Config, s: Sistema, n: nat)
    requires ConfigValida(c)
  {
    Maxima(Conjunto(s.k.colas.nuevos), |Libres(s.m.ocupados)|, Demandas(c, s.k.procesos), n)
  }

  /** Smallest-first admission is optimal: no choice of new processes that fits in the free
      frames is larger than what the round admitted, and that fits. */
  lemma PmcpOptima(c: Config, s0: Sistema, s: Sistema, elegidos: seq<nat>)
    requires ConfigValida(c) && FinDeRonda(c, true, s0, s, elegidos)
    ensures Optima(c, s0, |elegidos|)
    ensures SinRepetidos(elegidos) && Conjunto(elegidos) <= Conjunto(s0.k.colas.nuevos)
    ensures Conjunto(elegidos) <= s0.k.procesos.Keys
         && Peso(Conjunto(elegidos), Demandas(c, s0.k.procesos)) <= |Libres(s0.m.ocupados)|
  {
    var cola, libres, w := Conjunto(s0.k.colas.nuevos), |Libres(s0.m.ocupados)|, Demandas(c, s0.k.procesos);
    RondaCabe(cola, libres, w, elegidos);
    forall t: set<nat> | t <= cola && t <= w.Keys && Peso(t, w) <= libres
      ensures |t| <= |elegidos|
    {
      RondaOptima(cola, libres, w, elegidos, t);
    }
  }

  /** pasar_desde_new: admit from NEW until it is empty or its head does not fit. Under
      smallest-first nobody could have admitted more. */
  method PasarDesdeNew(k: NucleoKernel, mem: MemoriaPrincipal) returns (ghost elegidos: seq<nat>)
    requires mem.Valid() && SisInv(mem.c, Conjuntos(k, mem))
    modifies k`colas, k`procesos, k`semReady, mem`procesos, mem.marcosOcupados
    ensures mem.Valid() && SisInv(mem.c, Conjuntos(k, mem))
    ensures FinDeRonda(mem.c, k.cfg.pmcp, old(Conjuntos(k, mem)), Conjuntos(k, mem), elegidos)
    ensures k.cfg.pmcp ==> Optima(mem.c, old(Conjuntos(k, mem)), |elegidos|)
  {
    ghost var s0 := Conjuntos(k, mem);
    elegidos := RondaDesdeNew(k, mem);
    if k.cfg.pmcp { PmcpOptima(mem.c, s0, Conjuntos(k, mem), elegidos); }
  }

  method RondaDesdeNew(k: NucleoKernel, mem: MemoriaPrincipal) returns (ghost elegidos: seq<nat>)
    requires mem.Valid() && SisInv(mem.c, Conjuntos(k, mem))
    modifies k`colas, k`procesos, k`semReady, mem`procesos, mem.marcosOcupados
    ensures mem.Valid() && SisInv(mem.c, Conjuntos(k, mem))
    ensures FinDeRonda(mem.c, k.cfg.pmcp, old(Conjuntos(k, mem)), Conjuntos(k, mem), elegidos)
  {
    ghost var s0 := Conjuntos(k, mem);
    elegidos := [];
    EmpiezaRonda(mem.c, k.cfg.pmcp, s0);
    while k.colas.nuevos != []
      invariant mem.Valid() && SisInv(mem.c, Conjuntos(k, mem))
      invariant EnRonda(mem.c, k.cfg.pmcp, s0, Conjuntos(k, mem), elegidos)
      decreases |k.colas.nuevos|
    {
      ghost var s := Conjuntos(k, mem);
      var pid, exito;
      ghost var orden;
      pid, exito, orden := TurnoNewBien(k, mem);
      TurnoSigue(mem.c, k.cfg.pmcp, s0, s, Conjuntos(k, mem), elegidos, orden, exito);
      if !exito {
        return;
      }
      elegidos := elegidos + [pid];
    }
    TerminaRonda(mem.c, k.cfg.pmcp, s0, Conjuntos(k, mem), elegidos);
  }

  lemma OrdenLargo(pmcp: bool, w: map<nat, nat>, q: seq<nat>, orden: seq<nat>)
    requires (forall x :: x in q ==> x in w) && OrdenadaPor(pmcp, w, q, orden)
    ensures |orden| == |q|
  {
    assert |multiset(orden)| == |orden| && |multiset(q)| == |q|;
  }

  lemma BytesSeguidos(m0: Estado, m: Estado, m': Estado)
    requires BytesIguales(m0, m) && BytesIguales(m, m') && m0.procesos.Keys <= m.procesos.Keys
    ensures BytesIguales(m0, m')
  {
  }

  // ----- resuming, which goes first -----

  /** One turn of pasar_desde_susp_ready. */
  method TurnoSusp(k: NucleoKernel, mem: MemoriaPrincipal) returns (pid: nat, r: Respuesta, ghost orden: seq<nat>)
    requires mem.Valid() && Formas(mem.c, mem.Modelo()) && k.colas.suspListos != []
    requires forall x :: x in k.colas.suspListos ==> x in k.procesos && EnSwap(mem.Modelo(), x)
    modifies k`colas, k`procesos, k`semReady, mem, mem.memoria, mem.marcosOcupados
    ensures mem.Valid() && orden != [] && pid == orden[0] && EnSwap(old(mem.Modelo()), pid)
    ensures K.OrdenAdmision(k.cfg, old(k.procesos), old(k.colas.suspListos), orden)
    ensures r == if |Libres(old(mem.marcosOcupados[..]))| >= old(mem.procesos)[pid].cantidad then Bien else NoDisponible
    ensures mem.Modelo() == Reanudar(mem.c, old(mem.Modelo()), pid)
    ensures k.Modelo() == K.Admitir(old(k.Modelo()), SUSP_READY, orden, r == Bien)
  {
    k.PrepararCola(SUSP_READY);
    orden := k.colas.suspListos;
    pid := k.colas.suspListos[0];
    CabezaEntre(old(k.colas.suspListos), orden);
    ghost var k1 := k.Modelo();
    assert k1 == K.Reordenar(old(k.Modelo()), SUSP_READY, orden);
    r := mem.ReanudarProceso(pid);
    assert k.Modelo() == k1;
    if r == Bien { k.PasarAReady(pid, SUSP_READY); }
  }

  /** What a turn of resuming leaves as it was, and how it tells that it is over. */
  ghost predicate TurnoSuspHecho(s: Sistema, s': Sistema, pid: nat, r: Respuesta)
  {
    && s'.k.colas.nuevos == s.k.colas.nuevos
    && BytesIguales(s.m, s'.m) && s'.m.procesos.Keys == s.m.procesos.Keys
    && if r == Bien
       then s'.k.colas.listos == s.k.colas.listos + [pid] && |s'.k.colas.suspListos| < |s.k.colas.suspListos|
       else s'.k.colas.listos == s.k.colas.listos && s'.m == s.m && s'.k.colas.suspListos != []
            && SinLugar(s'.m, s'.k.colas.suspListos[0])
  }

  ghost predicate SinLugar(m: Estado, pid: nat)
  {
    pid in m.procesos && |Libres(m.ocupados)| < m.procesos[pid].cantidad
  }

  lemma TurnoSuspKernel(k: Kernel, cfg: ConfigK, orden: seq<nat>, exito: bool)
    requires Particionada(k.colas, k.procesos) && orden != []
    requires K.OrdenAdmision(cfg, k.procesos, k.colas.suspListos, orden)
    ensures var k' := K.Admitir(k, SUSP_READY, orden, exito);
            && k'.colas.nuevos == k.colas.nuevos
            && k'.colas.suspListos == (if exito then orden[1..] else orden)
            && k'.colas.listos == (if exito then k.colas.listos + [orden[0]] else k.colas.listos)
            && |orden| == |k.colas.suspListos|
  {
    OrdenEsPermutacion(cfg, k.procesos, k.colas.suspListos, orden);
    assert |multiset(orden)| == |multiset(k.colas.suspListos)|;
    KI.CabezaEnCola(k, SUSP_READY, orden);
    var r := K.Reordenar(k, SUSP_READY, orden);
    K.ReordenarParticion(k.colas, k.procesos, SUSP_READY, orden);
    TransicionBien(r, orden[0], SUSP_READY, READY);
    KI.SinCabeza(orden);
  }

  lemma TurnoSuspMemoria(c: Config, m: Estado, pid: nat)
    requires Inv(c, m) && EnSwap(m, pid)
    ensures var m' := Reanudar(c, m, pid);
            m'.procesos.Keys == m.procesos.Keys && (|Libres(m.ocupados)| < m.procesos[pid].cantidad ==> m' == m)
  {
    ReanudarRegistro(c, m, pid);
  }

  method TurnoSuspBien(k: NucleoKernel, mem: MemoriaPrincipal) returns (pid: nat, r: Respuesta)
    requires mem.Valid() && SisInv(mem.c, Conjuntos(k, mem)) && k.colas.suspListos != []
    modifies k`colas, k`procesos, k`semReady, mem, mem.memoria, mem.marcosOcupados
    ensures mem.Valid() && SisInv(mem.c, Conjuntos(k, mem))
    ensures TurnoSuspHecho(old(Conjuntos(k, mem)), Conjuntos(k, mem), pid, r) && r != ErrorInterno
  {
    ghost var s := Conjuntos(k, mem);
    GuardasCiertas(mem.c, s);
    ghost var orden;
    pid, r, orden := TurnoSusp(k, mem);
    ghost var s' := Conjuntos(k, mem);
    OrdenEsPermutacion(k.cfg, s.k.procesos, s.k.colas.suspListos, orden);
    PasoAdmitirSusp(mem.c, s, orden, s');
    TurnoSuspKernel(s.k, k.cfg, orden, r == Bien);
    TurnoSuspMemoria(mem.c, s.m, pid);
  }

  /** Suspended processes brought back so far. */
  ghost predicate EnSusp(s0: Sistema, s: Sistema, vueltos: seq<nat>)
  {
    && s.k.colas.nuevos == s0.k.colas.nuevos && s.k.colas.listos == s0.k.colas.listos + vueltos
    && BytesIguales(s0.m, s.m) && s.m.procesos.Keys == s0.m.procesos.Keys
  }

  /** ... and why no more were. */
  ghost predicate FinDeSusp(s0: Sistema, s: Sistema, vueltos: seq<nat>)
  {
    EnSusp(s0, s, vueltos) && (s.k.colas.suspListos != [] ==> SinLugar(s.m, s.k.colas.suspListos[0]))
  }

  lemma SuspSigue(s0: Sistema, s: Sistema, s': Sistema, vueltos: seq<nat>, pid: nat, r: Respuesta)
    requires EnSusp(s0, s, vueltos) && TurnoSuspHecho(s, s', pid, r)
    ensures if r == Bien then EnSusp(s0, s', vueltos + [pid]) && |s'.k.colas.suspListos| < |s.k.colas.suspListos|
            else FinDeSusp(s0, s', vueltos)
  {
    BytesSeguidos(s0.m, s.m, s'.m);
  }

  lemma EmpiezaSusp(c: Config, s: Sistema)
    requires SisInv(c, s)
    ensures EnSusp(s, s, [])
  {
    InvVisible(c, s.m);
  }

  /** pasar_desde_susp_ready: resume until SUSP_READY is empty or its head does not fit. Memory
      never answers that a process was not suspended. */
  method PasarDesdeSuspReady(k: NucleoKernel, mem: MemoriaPrincipal) returns (ghost vueltos: seq<nat>)
    requires mem.Valid() && SisInv(mem.c, Conjuntos(k, mem))
    modifies k`colas, k`procesos, k`semReady, mem, mem.memoria, mem.marcosOcupados
    ensures mem.Valid() && SisInv(mem.c, Conjuntos(k, mem))
    ensures FinDeSusp(old(Conjuntos(k, mem)), Conjuntos(k, mem), vueltos)
  {
    ghost var s0 := Conjuntos(k, mem);
    vueltos := [];
    EmpiezaSusp(mem.c, s0);
    while k.colas.suspListos != []
      invariant mem.Valid() && SisInv(mem.c, Conjuntos(k, mem))
      invariant EnSusp(s0, Conjuntos(k, mem), vueltos)
      decreases |k.colas.suspListos|
    {
      ghost var s := Conjuntos(k, mem);
      var pid, r := TurnoSuspBien(k, mem);
      SuspSigue(s0, s, Conjuntos(k, mem), vueltos, pid, r);
      if r != Bien {
        return;
      }
      vueltos := vueltos + [pid];
    }
  }

  /** A whole round: who came back, then who was admitted, and nobody new while someone
      suspended still waits. */
  ghost predicate RondaEntera(s0: Sistema, s: Sistema, vueltos: seq<nat>, elegidos: seq<nat>)
  {
    && s.k.colas.listos == s0.k.colas.listos + vueltos + elegidos && BytesIguales(s0.m, s.m)
    && (s.k.colas.suspListos != [] ==> elegidos == [] && s.k.colas.nuevos == s0.k.colas.nuevos)
  }

  lemma RondaEnDosPartes(c: Config, pmcp: bool, s0: Sistema, s1: Sistema, s: Sistema, vueltos: seq<nat>,
                         elegidos: seq<nat>)
    requires ConfigValida(c) && FinDeSusp(s0, s1, vueltos)
    requires if s1.k.colas.suspListos == [] then FinDeRonda(c, pmcp, s1, s, elegidos) else s == s1 && elegidos == []
    ensures RondaEntera(s0, s, vueltos, elegidos)
  {
    if s1.k.colas.suspListos == [] { BytesSeguidos(s0.m, s1.m, s.m); }
  }

  /** One round of pasar_procesos_a_ready: suspended processes first, and new ones only when none
      of those is left waiting. */
  method PasarProcesosAReady(k: NucleoKernel, mem: MemoriaPrincipal)
    returns (ghost vueltos: seq<nat>, ghost elegidos: seq<nat>)
    requires mem.Valid() && SisInv(mem.c, Conjuntos(k, mem))
    modifies k`colas, k`procesos, k`semReady, mem, mem.memoria, mem.marcosOcupados
    ensures mem.Valid() && SisInv(mem.c, Conjuntos(k, mem))
    ensures RondaEntera(old(Conjuntos(k, mem)), Conjuntos(k, mem), vueltos, elegidos)
  {
    ghost var s0 := Conjuntos(k, mem);
    vueltos := PasarDesdeSuspReady(k, mem);
    ghost var s1 := Conjuntos(k, mem);
    elegidos := [];
    if k.colas.suspListos == [] { elegidos := PasarDesdeNew(k, mem); }
    RondaEnDosPartes(mem.c, k.cfg.pmcp, s0, s1, Conjuntos(k, mem), vueltos, elegidos);
  }
}
