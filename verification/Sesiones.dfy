/** IO sessions: the counter a suspension timer compares is the number of times devices have
    served the process, in every run. */
module Sesiones {
  import opened Secuencias
  import opened Multisuma
  import opened Memoria
  import opened Kernel
  import opened SistemaConjunto
  import K = KernelPasos
  import KI = KernelInvariante

  /** Whom each device has served so far, with repetitions. */
  function Servidos(ios: map<string, Dispositivo>): map<string, multiset<nat>>
  {
    map n | n in ios :: multiset(ios[n].atendidos)
  }

  ghost function Servicios(ios: map<string, Dispositivo>, pid: nat): nat
  {
    Suma(Servidos(ios))[pid]
  }

  ghost predicate SesionesBien(k: Kernel)
  {
    forall pid :: K.Sesiones(k, pid) == Servicios(k.ios, pid)
  }

  lemma DispositivoSirve(ios: map<string, Dispositivo>, n: string, d: Dispositivo, x: multiset<nat>, pid: nat)
    requires n in ios && multiset(d.atendidos) == multiset(ios[n].atendidos) + x
    ensures Servicios(ios[n := d], pid) == Servicios(ios, pid) + x[pid]
  {
    assert Servidos(ios[n := d]) == Servidos(ios)[n := multiset(d.atendidos)];
    SumaActualizada(Servidos(ios), n, multiset(d.atendidos));
    var s, s', a := Suma(Servidos(ios)), Suma(Servidos(ios[n := d])), multiset(ios[n].atendidos);
    assert (s' + a)[pid] == (s + multiset(d.atendidos))[pid];
  }

  lemma PedirSesiones(k: Kernel, pid: nat, nombre: string)
    requires SesionesBien(k) && nombre in k.ios
    ensures SesionesBien(KI.ConPedido(k, pid, nombre))
  {
    var d, k' := k.ios[nombre], KI.ConPedido(k, pid, nombre);
    var servido := InstanciaLibre(d.instancias, 0) < |d.instancias|;
    var x := if servido then multiset{pid} else multiset{};
    assert multiset(PedirIO(d, pid).atendidos) == multiset(d.atendidos) + x;
    forall p
      ensures K.Sesiones(k', p) == Servicios(k'.ios, p)
    {
      DispositivoSirve(k.ios, nombre, PedirIO(d, pid), x, p);
      assert K.Sesiones(k, p) == Servicios(k.ios, p);
    }
  }

  lemma EntregarSesiones(k: Kernel, nombre: string, pos: nat)
    requires SesionesBien(k) && nombre in k.ios && pos < |k.ios[nombre].instancias|
    ensures SesionesBien(K.Entregar(k, nombre, pos))
  {
    var d, k' := k.ios[nombre], K.Entregar(k, nombre, pos);
    var x := if d.cola == [] then multiset{} else multiset{d.cola[0]};
    assert multiset(TerminarIO(d, pos).atendidos) == multiset(d.atendidos) + x;
    forall p
      ensures K.Sesiones(k', p) == Servicios(k'.ios, p)
    {
      DispositivoSirve(k.ios, nombre, TerminarIO(d, pos), x, p);
      assert K.Sesiones(k, p) == Servicios(k.ios, p);
    }
  }

  /** Nothing about devices or sessions changed. */
  predicate MismasSesiones(k: Kernel, k': Kernel)
  {
    k'.ios == k.ios && k'.sesiones == k.sesiones
  }

  lemma SesionesIguales(k: Kernel, k': Kernel)
    requires SesionesBien(k) && MismasSesiones(k, k')
    ensures SesionesBien(k')
  {
    forall p
      ensures K.Sesiones(k', p) == Servicios(k'.ios, p)
    {
      assert K.Sesiones(k, p) == Servicios(k.ios, p);
    }
  }

  lemma BloquearSesiones(k: Kernel, cfg: ConfigK, i: nat, rafaga: real)
    requires i < |k.cpus|
    ensures MismasSesiones(k, K.Bloquear(k, cfg, i, rafaga))
  {
  }

  lemma VolcarSesiones(k: Kernel, cfg: ConfigK, i: nat, rafaga: real)
    requires i < |k.cpus|
    ensures MismasSesiones(k, K.Volcar(k, cfg, i, rafaga))
  {
    BloquearSesiones(k, cfg, i, rafaga);
    KI.VolcarDef(k, cfg, i, rafaga, K.Bloquear(k, cfg, i, rafaga));
  }

  lemma PasoSesionesEnCpu(c: Config, cfg: ConfigK, s: Sistema, ev: Evento, s': Sistema)
    requires ConfigValida(c) && Paso(c, cfg, s, ev, s') && (ev.EvIO? || ev.EvSalir? || ev.EvVolcar?)
    requires SesionesBien(s.k)
    ensures SesionesBien(s'.k)
  {
    match ev {
      case EvIO(i, nombre, rafaga) =>
        if DispositivoExiste(s.k, nombre) {
          var k1 := KI.ConPedido(s.k, s.k.cpus[i].pid, nombre);
          PedirSesiones(s.k, s.k.cpus[i].pid, nombre);
          KI.SolicitarIODef(s.k, cfg, i, nombre, rafaga);
          BloquearSesiones(k1, cfg, i, rafaga);
          SesionesIguales(k1, s'.k);
        } else {
          SesionesIguales(s.k, s'.k);
        }
      case EvSalir(i) => SesionesIguales(s.k, s'.k);
      case EvVolcar(i, rafaga) =>
        VolcarSesiones(s.k, cfg, i, rafaga);
        SesionesIguales(s.k, s'.k);
    }
  }

  lemma MoverSesiones(k: Kernel, pid: nat, de: EstadoP, a: EstadoP)
    ensures MismasSesiones(k, Transicion(k, pid, de, a).0)
  {
  }

  lemma AdmitirSesiones(k: Kernel, de: EstadoP, orden: seq<nat>, exito: bool)
    requires orden != []
    ensures MismasSesiones(k, K.Admitir(k, de, orden, exito))
  {
    MoverSesiones(K.Reordenar(k, de, orden), orden[0], de, READY);
  }

  lemma DespacharSesiones(k: Kernel, orden: seq<nat>)
    requires orden != []
    ensures MismasSesiones(k, K.Despachar(k, orden))
  {
  }

  lemma PasoSesionesAdmision(c: Config, cfg: ConfigK, s: Sistema, ev: Evento, s': Sistema)
    requires ConfigValida(c) && Paso(c, cfg, s, ev, s') && (ev.EvAdmitirNuevo? || ev.EvAdmitirSusp? || ev.EvDespachar?)
    ensures MismasSesiones(s.k, s'.k)
  {
    match ev {
      case EvAdmitirNuevo(orden) =>
        AdmitirSesiones(s.k, NEW, orden, Iniciar(c, s.m, orden[0], s.k.procesos[orden[0]].tamanio).1);
      case EvAdmitirSusp(orden) =>
        AdmitirSesiones(s.k, SUSP_READY, orden, |Libres(s.m.ocupados)| >= s.m.procesos[orden[0]].cantidad);
      case EvDespachar(orden) => DespacharSesiones(s.k, orden);
    }
  }

  lemma DesbloquearSesiones(k: Kernel, pid: nat)
    requires pid in k.procesos
    ensures MismasSesiones(k, K.Desbloquear(k, pid))
  {
  }

  lemma PasoSesiones(c: Config, cfg: ConfigK, s: Sistema, ev: Evento, s': Sistema)
    requires ConfigValida(c) && Paso(c, cfg, s, ev, s') && SesionesBien(s.k)
    ensures SesionesBien(s'.k)
  {
    if ev.EvIO? || ev.EvSalir? || ev.EvVolcar? {
      PasoSesionesEnCpu(c, cfg, s, ev, s');
    } else if ev.EvFinIO? {
      var pid := s.k.ios[ev.nombre].instancias[ev.pos].pid.valor;
      DesbloquearSesiones(s.k, pid);
      SesionesIguales(s.k, K.Desbloquear(s.k, pid));
      EntregarSesiones(K.Desbloquear(s.k, pid), ev.nombre, ev.pos);
    } else {
      if ev.EvAdmitirNuevo? || ev.EvAdmitirSusp? || ev.EvDespachar? { PasoSesionesAdmision(c, cfg, s, ev, s'); }
      SesionesIguales(s.k, s'.k);
    }
  }

  lemma SesionesAlInicio(ios: map<string, Dispositivo>)
    requires forall n :: n in ios ==> ios[n].atendidos == []
    ensures SesionesBien(K.KernelInicial(ios))
  {
    SumaVacia(Servidos(ios));
  }

  /** In every state of every run the session counter of a pid is the number of times devices
      have taken it from their door or their queue. */
  lemma {:induction false} SesionesCuentan(c: Config, cfg: ConfigK, marcos: nat, ios: map<string, Dispositivo>,
                                           ss: seq<Sistema>, evs: seq<Evento>, n: nat)
    requires ConfigValida(c) && DispositivosNuevos(ios) && Corrida(c, cfg, ss, evs)
    requires ss[0] == SistemaInicial(c, marcos, ios) && n <= |evs|
    ensures SesionesBien(ss[n].k)
  {
    if n == 0 {
      SesionesAlInicio(ios);
    } else {
      SesionesCuentan(c, cfg, marcos, ios, ss, evs, n - 1);
      assert PasoDeCorrida(c, cfg, ss, evs, n - 1);
      PasoSesiones(c, cfg, ss[n - 1], evs[n - 1], ss[n]);
    }
  }

  /** A timer armed at point i acts at point j exactly if the process is live and BLOCKED and no
      device has served it since. */
  lemma TemporizadorDeSuSesion(c: Config, cfg: ConfigK, marcos: nat, ios: map<string, Dispositivo>,
                               ss: seq<Sistema>, evs: seq<Evento>, i: nat, j: nat, pid: nat)
    requires ConfigValida(c) && DispositivosNuevos(ios) && Corrida(c, cfg, ss, evs)
    requires ss[0] == SistemaInicial(c, marcos, ios) && i <= j <= |evs|
    ensures K.SigueBloqueado(ss[j].k, pid, K.Sesiones(ss[i].k, pid)) <==>
              pid in ss[j].k.procesos && ss[j].k.procesos[pid].estado == BLOCKED
              && Servicios(ss[j].k.ios, pid) == Servicios(ss[i].k.ios, pid)
  {
    SesionesCuentan(c, cfg, marcos, ios, ss, evs, i);
    SesionesCuentan(c, cfg, marcos, ios, ss, evs, j);
  }

  // ----- a timer outlives its blocking -----

  /** The device has no instance to give. */
  predicate Ocupado(k: Kernel, nombre: string)
    requires nombre in k.ios
  {
    InstanciaLibre(k.ios[nombre].instancias, 0) == |k.ios[nombre].instancias|
  }

  /** After a request the process is BLOCKED, and it has been served once more exactly if the
      device had an instance. */
  lemma TrasPedir(k: Kernel, cfg: ConfigK, i: nat, nombre: string, rafaga: real)
    requires K.KInv(k) && i < |k.cpus| && !k.cpus[i].libre && DispositivoExiste(k, nombre)
    ensures k.cpus[i].pid in k.procesos
    ensures var pid, r := k.cpus[i].pid, K.SolicitarIO(k, cfg, i, nombre, rafaga);
            && pid in r.procesos && r.procesos[pid].estado == BLOCKED
            && K.Sesiones(r, pid) == K.Sesiones(k, pid) + (if Ocupado(k, nombre) then 0 else 1)
  {
    KI.EnCpuEjecuta(k, i);
    var k1 := KI.ConPedido(k, k.cpus[i].pid, nombre);
    KI.SolicitarIODef(k, cfg, i, nombre, rafaga);
    KI.BloquearEs(k1, cfg, i, rafaga);
    BloquearSesiones(k1, cfg, i, rafaga);
  }

  /** A timer is meant for the blocking it was armed in, but it looks at services only. One armed at
      point i acts on a later blocking, the request at point j, exactly when that device is busy
      and no device has served the process since: so after a dump, or after a wait, a process
      that queues for a device is suspended by the older timer. */
  lemma TemporizadorRezagado(c: Config, cfg: ConfigK, marcos: nat, ios: map<string, Dispositivo>,
                             ss: seq<Sistema>, evs: seq<Evento>, i: nat, j: nat)
    requires ConfigValida(c) && DispositivosNuevos(ios) && Corrida(c, cfg, ss, evs)
    requires ss[0] == SistemaInicial(c, marcos, ios) && i <= j < |evs| && evs[j].EvIO?
    requires DispositivoExiste(ss[j].k, evs[j].nombre) && evs[j].cpu < |ss[j].k.cpus|
    ensures var pid := ss[j].k.cpus[evs[j].cpu].pid;
            K.SigueBloqueado(ss[j + 1].k, pid, K.Sesiones(ss[i].k, pid))
            <==> Ocupado(ss[j].k, evs[j].nombre) && Servicios(ss[j].k.ios, pid) == Servicios(ss[i].k.ios, pid)
  {
    AcuerdoSiempre(c, cfg, marcos, ios, ss, evs, j);
    SesionesCuentan(c, cfg, marcos, ios, ss, evs, i);
    SesionesCuentan(c, cfg, marcos, ios, ss, evs, j);
    SesionesMonotonas(c, cfg, marcos, ios, ss, evs, i, j, ss[j].k.cpus[evs[j].cpu].pid);
    assert PasoDeCorrida(c, cfg, ss, evs, j);
    PasoPide(c, cfg, ss[j], evs[j], ss[j + 1], K.Sesiones(ss[i].k, ss[j].k.cpus[evs[j].cpu].pid));
  }

  /** One request, and a timer with an earlier count. */
  lemma PasoPide(c: Config, cfg: ConfigK, s: Sistema, ev: Evento, s': Sistema, antes: nat)
    requires SisInv(c, s) && Paso(c, cfg, s, ev, s') && ev.EvIO? && DispositivoExiste(s.k, ev.nombre)
    requires ev.cpu < |s.k.cpus| && antes <= K.Sesiones(s.k, s.k.cpus[ev.cpu].pid)
    ensures var pid := s.k.cpus[ev.cpu].pid;
            K.SigueBloqueado(s'.k, pid, antes) <==> Ocupado(s.k, ev.nombre) && K.Sesiones(s.k, pid) == antes
  {
    TrasPedir(s.k, cfg, ev.cpu, ev.nombre, ev.rafaga);
  }

  /** Counters never go down. */
  lemma {:induction false} SesionesMonotonas(c: Config, cfg: ConfigK, marcos: nat, ios: map<string, Dispositivo>,
                                             ss: seq<Sistema>, evs: seq<Evento>, i: nat, j: nat, pid: nat)
    requires ConfigValida(c) && Corrida(c, cfg, ss, evs) && i <= j <= |evs|
    ensures K.Sesiones(ss[i].k, pid) <= K.Sesiones(ss[j].k, pid)
    decreases j
  {
    if i < j {
      SesionesMonotonas(c, cfg, marcos, ios, ss, evs, i, j - 1, pid);
      assert PasoDeCorrida(c, cfg, ss, evs, j - 1);
      PasoMonotono(c, cfg, ss[j - 1], evs[j - 1], ss[j], pid);
    }
  }

  lemma PasoMonotono(c: Config, cfg: ConfigK, s: Sistema, ev: Evento, s': Sistema, pid: nat)
    requires ConfigValida(c) && Paso(c, cfg, s, ev, s')
    ensures K.Sesiones(s.k, pid) <= K.Sesiones(s'.k, pid)
  {
    if ev.EvIO? || ev.EvSalir? || ev.EvVolcar? {
      PasoMonotonoEnCpu(c, cfg, s, ev, s', pid);
    } else if ev.EvFinIO? {
      DesbloquearSesiones(s.k, s.k.ios[ev.nombre].instancias[ev.pos].pid.valor);
    } else if ev.EvAdmitirNuevo? || ev.EvAdmitirSusp? || ev.EvDespachar? {
      PasoSesionesAdmision(c, cfg, s, ev, s');
    }
  }

  lemma PasoMonotonoEnCpu(c: Config, cfg: ConfigK, s: Sistema, ev: Evento, s': Sistema, pid: nat)
    requires ConfigValida(c) && Paso(c, cfg, s, ev, s') && (ev.EvIO? || ev.EvSalir? || ev.EvVolcar?)
    ensures K.Sesiones(s.k, pid) <= K.Sesiones(s'.k, pid)
  {
    match ev {
      case EvIO(i, nombre, rafaga) =>
        if DispositivoExiste(s.k, nombre) {
          KI.SolicitarIODef(s.k, cfg, i, nombre, rafaga);
          BloquearSesiones(KI.ConPedido(s.k, s.k.cpus[i].pid, nombre), cfg, i, rafaga);
        }
      case EvSalir(_) =>
      case EvVolcar(i, rafaga) => VolcarSesiones(s.k, cfg, i, rafaga);
    }
  }

  // ----- the dump's timer on one kernel -----

  /** Process 0 executes on the only CPU; process 1 is being served by the only instance of "disco". */
  function UnDisco(): Kernel
  {
    Kernel(Colas([], [], [0], [1], [], []), map[0 := Pcb(EXECUTE, 1, 0.0), 1 := Pcb(BLOCKED, 1, 0.0)], 2, {},
           [CpuK("cpu", false, 0)], 0, 0, 0,
           map["disco" := Dispositivo([Instancia("uno", Algo(1))], [], [1], [1])], map[1 := 1])
  }

  /** A good state. */
  lemma UnDiscoBien()
    ensures K.KInv(UnDisco())
  {
    var k := UnDisco();
    ColasDelEjemplo(k.colas, k.procesos);
    CpusDelEjemplo(k);
    IoDelEjemplo(k);
    PidsDelEjemplo(k);
    assert Particionada(k.colas, k.procesos) && K.PidsBien(k) && K.CpusBien(k) && K.IoBien(k);
  }

  lemma ColasDelEjemplo(c: Colas, ps: map<nat, Pcb>)
    requires c == Colas([], [], [0], [1], [], []) && ps == map[0 := Pcb(EXECUTE, 1, 0.0), 1 := Pcb(BLOCKED, 1, 0.0)]
    ensures Particionada(c, ps)
  {
    forall e
      ensures ColaBien(c.De(e), ps, e)
    {
    }
  }

  lemma PidsDelEjemplo(k: Kernel)
    requires k.procesos == map[0 := Pcb(EXECUTE, 1, 0.0), 1 := Pcb(BLOCKED, 1, 0.0)] && k.proximoPid == 2
    requires k.finalizados == {}
    ensures K.PidsBien(k)
  {
  }

  lemma CpusDelEjemplo(k: Kernel)
    requires k.cpus == [CpuK("cpu", false, 0)] && k.colas == Colas([], [], [0], [1], [], [])
    requires k.semCpus == k.semReady == k.tomados == 0
    ensures K.CpusBien(k)
  {
    assert k.cpus[..0] == [];
    assert EnCpus(k.cpus) == EnCpu(k.cpus[0]);
  }

  lemma IoDelEjemplo(k: Kernel)
    requires k.ios == map["disco" := Dispositivo([Instancia("uno", Algo(1))], [], [1], [1])]
    requires k.colas == Colas([], [], [0], [1], [], [])
    ensures K.IoBien(k)
  {
    UnoServido(k.ios["disco"]);
    UnSoloDispositivo(k.ios, "disco");
  }

  lemma UnoServido(d: Dispositivo)
    requires d == Dispositivo([Instancia("uno", Algo(1))], [], [1], [1])
    ensures DispositivoBien(d) && EnDispositivo(d) == multiset([1])
  {
    assert d.instancias[..0] == [];
    assert EnInstancias(d.instancias) == EnInstancia(d.instancias[0]);
  }

  lemma UnSoloDispositivo(ios: map<string, Dispositivo>, n: string)
    requires ios.Keys == {n}
    ensures Suma(PorDispositivo(ios)) == EnDispositivo(ios[n])
  {
    SumaAparte(PorDispositivo(ios), n);
    assert (PorDispositivo(ios) - {n}).Keys == {};
  }

  function TrasDump(): Kernel
  {
    UnDisco().(colas := Colas([], [0], [], [1], [], []),
               procesos := map[0 := Pcb(READY, 1, 0.0), 1 := Pcb(BLOCKED, 1, 0.0)],
               cpus := [CpuK("cpu", true, 0)], semCpus := 1, semReady := 1)
  }

  function EnDump(): Kernel
  {
    UnDisco().(colas := Colas([], [], [], [1, 0], [], []),
               procesos := map[0 := Pcb(BLOCKED, 1, 0.0), 1 := Pcb(BLOCKED, 1, 0.0)],
               cpus := [CpuK("cpu", true, 0)], semCpus := 1)
  }

  lemma BloqueoDelEjemplo(cfg: ConfigK)
    requires !cfg.sjf
    ensures K.Bloquear(UnDisco(), cfg, 0, 0.0) == EnDump()
  {
    var k := UnDisco();
    assert Sin([0], 0) == [];
    var k1 := Transicion(k, 0, EXECUTE, BLOCKED).0;
    assert k1.colas == Colas([], [], [], [1, 0], [], []);
    assert k1.procesos == EnDump().procesos;
  }

  lemma VueltaDelEjemplo()
    ensures var t := Transicion(EnDump(), 0, BLOCKED, READY).0; t.(semReady := t.semReady + 1) == TrasDump()
  {
    assert Sin([0], 0) == [] && Sin([1, 0], 0) == [1] + Sin([0], 0);
    var k3 := Transicion(EnDump(), 0, BLOCKED, READY).0;
    assert k3.colas == Colas([], [0], [], [1], [], []);
    assert k3.procesos == TrasDump().procesos;
  }

  lemma DumpDelEjemplo(cfg: ConfigK)
    requires !cfg.sjf
    ensures K.Volcar(UnDisco(), cfg, 0, 0.0) == TrasDump()
  {
    BloqueoDelEjemplo(cfg);
    VueltaDelEjemplo();
    KI.VolcarDef(UnDisco(), cfg, 0, 0.0, EnDump());
  }

  lemma DespachoDelEjemplo()
    ensures var k := K.EsperarReady(K.EsperarCpu(TrasDump())); K.Despachar(k, [0]) == UnDisco()
  {
    var k := K.EsperarReady(K.EsperarCpu(TrasDump()));
    assert PrimeraLibre(k.cpus, 0) == 0;
    assert Sin([0], 0) == [];
    assert K.Despachar(k, [0]).procesos == UnDisco().procesos;
  }

  /** The input: process 0 dumps, executes again and asks for the busy disk; the dump's timer, had it
      not expired by then, suspends it although it was armed for a blocking long over. */
  lemma TemporizadorDeUnDump(cfg: ConfigK)
    requires !cfg.sjf
    ensures var k1 := K.Volcar(UnDisco(), cfg, 0, 0.0);
            && k1.semCpus > 0 && k1.semReady > 0
            && var k2 := K.Despachar(K.EsperarReady(K.EsperarCpu(k1)), k1.colas.listos);
            && |k2.cpus| == 1 && k2.cpus[0].pid == 0 && 0 in k2.procesos
            && var k3 := K.SolicitarIO(k2, cfg, 0, "disco", 0.0);
            && k3.ios["disco"].cola == [0] && K.SigueBloqueado(k3, 0, K.Sesiones(k1, 0))
  {
    DumpDelEjemplo(cfg);
    DespachoDelEjemplo();
    var k := UnDisco();
    assert Sin([0], 0) == [];
    KI.SolicitarIODef(k, cfg, 0, "disco", 0.0);
    var k1 := KI.ConPedido(k, 0, "disco");
    assert k1.ios["disco"].cola == [0];
    var t := Transicion(k1, 0, EXECUTE, BLOCKED).0;
    assert t.procesos[0].estado == BLOCKED;
  }
}
