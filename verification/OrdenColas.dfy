/** First come first served in the queues of the planners, over whole runs: who enters a queue and who
    leaves it are read off the states of the processes. */
module OrdenColas {
  import opened Secuencias
  import opened Memoria
  import opened Kernel
  import opened SistemaConjunto
  import K = KernelPasos
  import KI = KernelInvariante

  predicate En(s: Sistema, e: EstadoP, p: nat)
  {
    p in s.k.procesos && s.k.procesos[p].estado == e
  }

  /** Who is in that state in `s'` and was not in `s`. */
  ghost function Nuevos(s: Sistema, s': Sistema, e: EstadoP): seq<nat>
  {
    if exists p: nat :: En(s', e, p) && !En(s, e, p) then
      var p: nat :| En(s', e, p) && !En(s, e, p);
      [p]
    else []
  }

  /** Who came into the state in the first n steps, in order. */
  ghost function Entradas(ss: seq<Sistema>, e: EstadoP, n: nat): seq<nat>
    requires n < |ss|
  {
    if n == 0 then [] else Entradas(ss, e, n - 1) + Nuevos(ss[n - 1], ss[n], e)
  }

  /** Who left it, in order. */
  ghost function Salidas(ss: seq<Sistema>, e: EstadoP, n: nat): seq<nat>
    requires n < |ss|
  {
    if n == 0 then [] else Salidas(ss, e, n - 1) + Nuevos(ss[n], ss[n - 1], e)
  }

  /** The queues nobody sorts: READY under FIFO, NEW and SUSP_READY under FIFO admission. */
  predicate SinOrdenar(cfg: ConfigK, e: EstadoP)
  {
    (e == READY && !cfg.sjf) || ((e == NEW || e == SUSP_READY) && !cfg.pmcp)
  }

  // ----- one step -----

  /** Nothing, one more at the back, or the front gone. */
  ghost predicate DePaso(q: seq<nat>, q': seq<nat>)
  {
    q' == q || (q' != [] && q' == q + [q'[|q'| - 1]]) || (q != [] && q' == q[1..])
  }

  /** A queue move seen from a queue that loses its head, gains one, or is another. */
  lemma MovidoDePaso(k: Kernel, pid: nat, de: EstadoP, a: EstadoP, e: EstadoP)
    requires pid in k.procesos && de != a && (e == de ==> k.colas.De(e) != [] && pid == k.colas.De(e)[0])
    ensures DePaso(k.colas.De(e), Movido(k, pid, de, a).colas.De(e))
  {
    if e == de { KI.SinCabeza(k.colas.De(e)); }
  }

  lemma AdmitirDePaso(k: Kernel, de: EstadoP, exito: bool, e: EstadoP)
    requires K.KInv(k) && (de == NEW || de == SUSP_READY) && k.colas.De(de) != []
    ensures DePaso(k.colas.De(e), K.Admitir(k, de, k.colas.De(de), exito).colas.De(e))
  {
    var orden := k.colas.De(de);
    KI.CabezaEnCola(k, de, orden);
    var k1 := K.Reordenar(k, de, orden);
    assert k1.colas == k.colas;
    if exito {
      KI.MoverAReady(k1, orden[0], de);
      MovidoDePaso(k1, orden[0], de, READY, e);
    }
  }

  /** When the other queue of an admission turn is the one looked at, its order does not matter. */
  lemma AdmitirAjena(k: Kernel, de: EstadoP, orden: seq<nat>, exito: bool, e: EstadoP)
    requires K.KInv(k) && (de == NEW || de == SUSP_READY) && e != de
    requires orden != [] && multiset(orden) == multiset(k.colas.De(de))
    ensures DePaso(k.colas.De(e), K.Admitir(k, de, orden, exito).colas.De(e))
  {
    K.ReordenarBien(k, de, orden);
    KI.CabezaEnCola(k, de, orden);
    var k1 := K.Reordenar(k, de, orden);
    if exito {
      KI.MoverAReady(k1, orden[0], de);
      MovidoDePaso(k1, orden[0], de, READY, e);
    }
  }

  lemma AdmisionDePaso(k: Kernel, cfg: ConfigK, de: EstadoP, orden: seq<nat>, exito: bool, e: EstadoP)
    requires K.KInv(k) && (de == NEW || de == SUSP_READY) && orden != [] && SinOrdenar(cfg, e)
    requires K.OrdenAdmision(cfg, k.procesos, k.colas.De(de), orden)
    ensures DePaso(k.colas.De(e), K.Admitir(k, de, orden, exito).colas.De(e))
  {
    if e == de {
      AdmitirDePaso(k, de, exito, e);
    } else {
      OrdenEsPermutacion(cfg, k.procesos, k.colas.De(de), orden);
      AdmitirAjena(k, de, orden, exito, e);
    }
  }

  lemma CrearDePaso(k: Kernel, cfg: ConfigK, tam: nat, orden: seq<nat>, e: EstadoP)
    requires SinOrdenar(cfg, e)
    requires K.OrdenAdmision(cfg, k.procesos[k.proximoPid := Pcb(NEW, tam, cfg.estimadoInicial)],
                             k.colas.nuevos + [k.proximoPid], orden)
    ensures DePaso(k.colas.De(e), K.Crear(k, cfg, tam, orden).colas.De(e))
  {
  }

  lemma DespacharDePaso(k: Kernel, cfg: ConfigK, orden: seq<nat>, e: EstadoP)
    requires K.KInv(k) && k.tomados == 2 && orden != [] && SinOrdenar(cfg, e)
    requires K.OrdenDespacho(cfg, k.procesos, k.colas.listos, orden)
    ensures DePaso(k.colas.De(e), K.Despachar(k, orden).colas.De(e))
  {
    OrdenEsPermutacion(cfg, k.procesos, k.colas.listos, orden);
    KI.DespacharEs(k, orden);
    var i := PrimeraLibre(k.cpus, 0);
    var k1 := K.Reordenar(k, READY, orden).(cpus := k.cpus[i := k.cpus[i].(libre := false, pid := orden[0])],
                                            tomados := 0);
    assert k1.colas.De(e) == k.colas.De(e);
    MovidoDePaso(k1, orden[0], READY, EXECUTE, e);
  }

  lemma BloquearDePaso(k: Kernel, cfg: ConfigK, i: nat, rafaga: real, e: EstadoP)
    requires Particionada(k.colas, k.procesos) && i < |k.cpus| && SinOrdenar(cfg, e)
    requires k.cpus[i].pid in k.procesos && k.procesos[k.cpus[i].pid].estado == EXECUTE
    ensures K.Bloquear(k, cfg, i, rafaga).colas.De(e) == k.colas.De(e)
  {
    KI.BloquearEs(k, cfg, i, rafaga);
  }

  lemma VolcarDePaso(k: Kernel, cfg: ConfigK, i: nat, rafaga: real, e: EstadoP)
    requires Particionada(k.colas, k.procesos) && i < |k.cpus| && SinOrdenar(cfg, e)
    requires k.cpus[i].pid in k.procesos && k.procesos[k.cpus[i].pid].estado == EXECUTE
    ensures DePaso(k.colas.De(e), K.Volcar(k, cfg, i, rafaga).colas.De(e))
  {
    var k1, pid := K.Bloquear(k, cfg, i, rafaga), k.cpus[i].pid;
    KI.BloquearEs(k, cfg, i, rafaga);
    KI.VolcarDef(k, cfg, i, rafaga, k1);
    TransicionBien(k1, pid, BLOCKED, READY);
    BloquearDePaso(k, cfg, i, rafaga, e);
    MovidoDePaso(k1, pid, BLOCKED, READY, e);
  }

  lemma SalirDePaso(k: Kernel, cfg: ConfigK, i: nat, e: EstadoP)
    requires Particionada(k.colas, k.procesos) && i < |k.cpus| && SinOrdenar(cfg, e)
    requires k.cpus[i].pid in k.procesos && k.procesos[k.cpus[i].pid].estado == EXECUTE
    ensures K.Salir(k, i).colas.De(e) == k.colas.De(e)
  {
    QuitarBien(k, k.cpus[i].pid);
  }

  lemma CpuDePaso(c: Config, cfg: ConfigK, s: Sistema, ev: Evento, s': Sistema, e: EstadoP)
    requires SisInv(c, s) && Paso(c, cfg, s, ev, s') && (ev.EvIO? || ev.EvSalir? || ev.EvVolcar?) && SinOrdenar(cfg, e)
    ensures DePaso(s.k.colas.De(e), s'.k.colas.De(e))
  {
    KI.EnCpuEjecuta(s.k, ev.cpu);
    match ev {
      case EvIO(i, nombre, rafaga) =>
        if DispositivoExiste(s.k, nombre) {
          KI.SolicitarIODef(s.k, cfg, i, nombre, rafaga);
          BloquearDePaso(KI.ConPedido(s.k, s.k.cpus[i].pid, nombre), cfg, i, rafaga, e);
        } else {
          SalirDePaso(s.k, cfg, i, e);
        }
      case EvSalir(i) => SalirDePaso(s.k, cfg, i, e);
      case EvVolcar(i, rafaga) => VolcarDePaso(s.k, cfg, i, rafaga, e);
    }
  }

  lemma FinIODePaso(k: Kernel, cfg: ConfigK, nombre: string, pos: nat, pid: nat, e: EstadoP)
    requires K.KInv(k) && nombre in k.ios && pos < |k.ios[nombre].instancias| && SinOrdenar(cfg, e)
    requires k.ios[nombre].instancias[pos].pid == Algo(pid) && pid in k.procesos
    ensures DePaso(k.colas.De(e), K.FinIO(k, nombre, pos).colas.De(e))
  {
    KI.ServidoBloqueado(k, nombre, pos, pid);
    KI.FinIOEs(k, nombre, pos, pid);
    var b := k.procesos[pid].estado;
    MovidoDePaso(k, pid, b, if b == BLOCKED then READY else SUSP_READY, e);
  }

  lemma PlanDePaso(c: Config, cfg: ConfigK, s: Sistema, ev: Evento, s': Sistema, e: EstadoP)
    requires SisInv(c, s) && Paso(c, cfg, s, ev, s') && SinOrdenar(cfg, e)
    requires ev.EvCrear? || ev.EvAdmitirNuevo? || ev.EvAdmitirSusp? || ev.EvDespachar?
    ensures DePaso(s.k.colas.De(e), s'.k.colas.De(e))
  {
    match ev {
      case EvCrear(tam, orden) => CrearDePaso(s.k, cfg, tam, orden, e);
      case EvAdmitirNuevo(orden) =>
        AdmisionDePaso(s.k, cfg, NEW, orden, Iniciar(c, s.m, orden[0], s.k.procesos[orden[0]].tamanio).1, e);
      case EvAdmitirSusp(orden) =>
        AdmisionDePaso(s.k, cfg, SUSP_READY, orden, |Libres(s.m.ocupados)| >= s.m.procesos[orden[0]].cantidad, e);
      case EvDespachar(orden) => DespacharDePaso(s.k, cfg, orden, e);
    }
  }

  lemma OtroDePaso(c: Config, cfg: ConfigK, s: Sistema, ev: Evento, s': Sistema, e: EstadoP)
    requires SisInv(c, s) && Paso(c, cfg, s, ev, s') && SinOrdenar(cfg, e)
    requires ev.EvEsperarCpu? || ev.EvEsperarReady? || ev.EvConectar? || ev.EvEscribir?
    ensures s'.k.colas.De(e) == s.k.colas.De(e)
  {
  }

  lemma TemporizadorDePaso(c: Config, cfg: ConfigK, s: Sistema, ev: Evento, s': Sistema, e: EstadoP)
    requires SisInv(c, s) && Paso(c, cfg, s, ev, s') && SinOrdenar(cfg, e) && ev.EvTemporizador?
    ensures s'.k.colas.De(e) == s.k.colas.De(e)
  {
    if K.SigueBloqueado(s.k, ev.pid, ev.sesiones) { KI.SuspenderBien(s.k, ev.pid); }
  }

  lemma PasoDeCola(c: Config, cfg: ConfigK, s: Sistema, ev: Evento, s': Sistema, e: EstadoP)
    requires SisInv(c, s) && Paso(c, cfg, s, ev, s') && SinOrdenar(cfg, e)
    ensures DePaso(s.k.colas.De(e), s'.k.colas.De(e))
  {
    if ev.EvCrear? || ev.EvAdmitirNuevo? || ev.EvAdmitirSusp? || ev.EvDespachar? {
      PlanDePaso(c, cfg, s, ev, s', e);
    } else if ev.EvIO? || ev.EvSalir? || ev.EvVolcar? {
      CpuDePaso(c, cfg, s, ev, s', e);
    } else if ev.EvFinIO? {
      FinIODePaso(s.k, cfg, ev.nombre, ev.pos, s.k.ios[ev.nombre].instancias[ev.pos].pid.valor, e);
    } else if ev.EvTemporizador? {
      TemporizadorDePaso(c, cfg, s, ev, s', e);
    } else {
      OtroDePaso(c, cfg, s, ev, s', e);
    }
  }

  // ----- the queue as the states tell it -----

  lemma SoloUno(s: Sistema, s': Sistema, e: EstadoP, x: nat)
    requires forall p :: En(s', e, p) && !En(s, e, p) <==> p == x
    ensures Nuevos(s, s', e) == [x]
  {
    assert En(s', e, x) && !En(s, e, x);
  }

  lemma Ninguno(s: Sistema, s': Sistema, e: EstadoP)
    requires forall p :: En(s', e, p) ==> En(s, e, p)
    ensures Nuevos(s, s', e) == []
  {
  }

  /** The queue lists who is in the state. */
  ghost predicate Lista(s: Sistema, e: EstadoP, q: seq<nat>)
  {
    SinRepetidos(q) && forall p :: En(s, e, p) <==> p in q
  }

  lemma AlFinal(s: Sistema, s': Sistema, e: EstadoP, q: seq<nat>, x: nat)
    requires Lista(s, e, q) && Lista(s', e, q + [x])
    ensures Nuevos(s, s', e) == [x] && Nuevos(s', s, e) == []
  {
    var r := q + [x];
    assert forall i :: 0 <= i < |q| ==> q[i] == r[i] && r[i] != r[|q|];
    assert x !in q;
    forall p
      ensures p in r <==> p in q || p == x
    {
    }
    SoloUno(s, s', e, x);
    Ninguno(s', s, e);
  }

  lemma DelFrente(s: Sistema, s': Sistema, e: EstadoP, x: nat, q: seq<nat>)
    requires Lista(s, e, [x] + q) && Lista(s', e, q)
    ensures Nuevos(s, s', e) == [] && Nuevos(s', s, e) == [x]
  {
    var r := [x] + q;
    assert forall i :: 0 <= i < |q| ==> q[i] == r[i + 1] && r[i + 1] != r[0];
    assert x !in q;
    forall p
      ensures p in r <==> p in q || p == x
    {
    }
    Ninguno(s, s', e);
    SoloUno(s', s, e, x);
  }

  /** What a step of a queue says about the states of its processes. */
  lemma CambioDeCola(s: Sistema, s': Sistema, e: EstadoP, q: seq<nat>, q': seq<nat>)
    requires Lista(s, e, q) && Lista(s', e, q') && DePaso(q, q')
    ensures q + Nuevos(s, s', e) == Nuevos(s', s, e) + q'
  {
    if q' == q {
      Ninguno(s, s', e);
      Ninguno(s', s, e);
      assert q + [] == [] + q';
    } else if q' != [] && q' == q + [q'[|q'| - 1]] {
      AlFinal(s, s', e, q, q'[|q'| - 1]);
      assert [] + q' == q';
    } else {
      assert q == [q[0]] + q';
      DelFrente(s, s', e, q[0], q');
      assert q + [] == q;
    }
  }

  lemma ColaLista(c: Config, s: Sistema, e: EstadoP)
    requires SisInv(c, s)
    ensures Lista(s, e, s.k.colas.De(e))
  {
    assert ColaBien(s.k.colas.De(e), s.k.procesos, e);
  }

  // ----- runs -----

  /** At every point of every run, of those who came to an unsorted queue the first have left it, in
      the order in which they came, and the rest wait in that order. */
  lemma {:induction false} ColaPorOrden(c: Config, cfg: ConfigK, marcos: nat, ios: map<string, Dispositivo>,
                                        ss: seq<Sistema>, evs: seq<Evento>, e: EstadoP, n: nat)
    requires ConfigValida(c) && DispositivosNuevos(ios) && Corrida(c, cfg, ss, evs) && SinOrdenar(cfg, e)
    requires ss[0] == SistemaInicial(c, marcos, ios) && n <= |evs|
    ensures Entradas(ss, e, n) == Salidas(ss, e, n) + ss[n].k.colas.De(e)
  {
    if n > 0 {
      ColaPorOrden(c, cfg, marcos, ios, ss, evs, e, n - 1);
      UnPasoDeCola(c, cfg, marcos, ios, ss, evs, e, n - 1);
      Encadenar(Entradas(ss, e, n - 1), Salidas(ss, e, n - 1), ss[n - 1].k.colas.De(e), ss[n].k.colas.De(e),
                Nuevos(ss[n - 1], ss[n], e), Nuevos(ss[n], ss[n - 1], e));
    }
  }

  lemma UnPasoDeCola(c: Config, cfg: ConfigK, marcos: nat, ios: map<string, Dispositivo>,
                     ss: seq<Sistema>, evs: seq<Evento>, e: EstadoP, k: nat)
    requires ConfigValida(c) && DispositivosNuevos(ios) && Corrida(c, cfg, ss, evs) && SinOrdenar(cfg, e)
    requires ss[0] == SistemaInicial(c, marcos, ios) && k < |evs|
    ensures ss[k].k.colas.De(e) + Nuevos(ss[k], ss[k + 1], e) == Nuevos(ss[k + 1], ss[k], e) + ss[k + 1].k.colas.De(e)
  {
    AcuerdoSiempre(c, cfg, marcos, ios, ss, evs, k);
    AcuerdoSiempre(c, cfg, marcos, ios, ss, evs, k + 1);
    assert PasoDeCorrida(c, cfg, ss, evs, k);
    PasoDeCola(c, cfg, ss[k], evs[k], ss[k + 1], e);
    ColaLista(c, ss[k], e);
    ColaLista(c, ss[k + 1], e);
    CambioDeCola(ss[k], ss[k + 1], e, ss[k].k.colas.De(e), ss[k + 1].k.colas.De(e));
  }

  lemma Encadenar(entradas: seq<nat>, salidas: seq<nat>, q: seq<nat>, q': seq<nat>, mas: seq<nat>, menos: seq<nat>)
    requires entradas == salidas + q && q + mas == menos + q'
    ensures entradas + mas == salidas + menos + q'
  {
    assert salidas + q + mas == salidas + (q + mas);
    assert salidas + menos + q' == salidas + (menos + q');
  }
}
