/** Burst estimates along whole runs of the kernel: each process's estimate is the one its own
    history of bursts gives. */
module Estimaciones {
  import opened Secuencias
  import opened Memoria
  import opened Kernel
  import opened Rafagas
  import opened SistemaConjunto
  import K = KernelPasos
  import KI = KernelInvariante

  /** The process an event takes off its CPU into BLOCKED, and the burst it ran. */
  function Rafaga(k: Kernel, ev: Evento): Opcion<(nat, real)>
  {
    match ev
    case EvIO(i, nombre, rafaga) =>
      if i < |k.cpus| && DispositivoExiste(k, nombre) then Algo((k.cpus[i].pid, rafaga)) else Nada
    case EvVolcar(i, rafaga) => if i < |k.cpus| then Algo((k.cpus[i].pid, rafaga)) else Nada
    case _ => Nada
  }

  /** The bursts of `pid` among the first n events, oldest first. */
  function Historia(ss: seq<Sistema>, evs: seq<Evento>, pid: nat, n: nat): seq<real>
    requires n <= |evs| && |ss| == |evs| + 1
  {
    if n == 0 then []
    else
      var previas := Historia(ss, evs, pid, n - 1);
      match Rafaga(ss[n - 1].k, evs[n - 1])
      case Nada => previas
      case Algo(r) => if r.0 == pid then previas + [r.1] else previas
  }

  /** The estimate of `p` after an event. */
  function Siguiente(cfg: ConfigK, b: Opcion<(nat, real)>, p: nat, estimado: real): real
  {
    if cfg.sjf && b.Algo? && b.valor.0 == p then Actualizada(cfg.alpha, b.valor.1, estimado) else estimado
  }

  /** A step that issues no pid renews the estimate of the process that blocks, if any. */
  ghost predicate Renovados(cfg: ConfigK, k: Kernel, k': Kernel, b: Opcion<(nat, real)>)
  {
    && k'.proximoPid == k.proximoPid
    && forall p :: p in k'.procesos ==>
         p in k.procesos && k'.procesos[p].estimado == Siguiente(cfg, b, p, k.procesos[p].estimado)
  }

  lemma MoverNoRenueva(cfg: ConfigK, k: Kernel, pid: nat, de: EstadoP, a: EstadoP)
    ensures Renovados(cfg, k, Transicion(k, pid, de, a).0, Nada)
  {
  }

  lemma BloquearRenueva(cfg: ConfigK, k: Kernel, i: nat, rafaga: real)
    requires CpuOcupada(k, i)
    ensures Renovados(cfg, k, K.Bloquear(k, cfg, i, rafaga), Algo((k.cpus[i].pid, rafaga)))
  {
    MoverNoRenueva(cfg, k, k.cpus[i].pid, EXECUTE, BLOCKED);
  }

  lemma PedirRenueva(cfg: ConfigK, k: Kernel, i: nat, nombre: string, rafaga: real)
    requires CpuOcupada(k, i) && DispositivoExiste(k, nombre)
    ensures Renovados(cfg, k, K.SolicitarIO(k, cfg, i, nombre, rafaga), Algo((k.cpus[i].pid, rafaga)))
  {
    KI.SolicitarIODef(k, cfg, i, nombre, rafaga);
    BloquearRenueva(cfg, KI.ConPedido(k, k.cpus[i].pid, nombre), i, rafaga);
  }

  lemma VolcarRenueva(cfg: ConfigK, k: Kernel, i: nat, rafaga: real)
    requires CpuOcupada(k, i)
    ensures Renovados(cfg, k, K.Volcar(k, cfg, i, rafaga), Algo((k.cpus[i].pid, rafaga)))
  {
    var k1 := K.Bloquear(k, cfg, i, rafaga);
    KI.VolcarDef(k, cfg, i, rafaga, k1);
    BloquearRenueva(cfg, k, i, rafaga);
    MoverNoRenueva(cfg, k1, k.cpus[i].pid, BLOCKED, READY);
  }

  lemma SalirRenueva(cfg: ConfigK, k: Kernel, i: nat)
    requires CpuOcupada(k, i)
    ensures Renovados(cfg, k, K.Salir(k, i), Nada)
  {
  }

  lemma FinIORenueva(cfg: ConfigK, k: Kernel, nombre: string, pos: nat)
    requires nombre in k.ios && pos < |k.ios[nombre].instancias| && k.ios[nombre].instancias[pos].pid.Algo?
    requires k.ios[nombre].instancias[pos].pid.valor in k.procesos
    ensures Renovados(cfg, k, K.FinIO(k, nombre, pos), Nada)
  {
    var pid := k.ios[nombre].instancias[pos].pid.valor;
    MoverNoRenueva(cfg, k, pid, SUSP_BLOCKED, SUSP_READY);
    MoverNoRenueva(cfg, k, pid, BLOCKED, READY);
  }

  lemma PasoRenuevaEnCpu(c: Config, cfg: ConfigK, s: Sistema, ev: Evento, s': Sistema)
    requires ConfigValida(c) && Paso(c, cfg, s, ev, s') && (ev.EvIO? || ev.EvSalir? || ev.EvVolcar?)
    ensures Renovados(cfg, s.k, s'.k, Rafaga(s.k, ev))
  {
    match ev {
      case EvIO(i, nombre, rafaga) =>
        if DispositivoExiste(s.k, nombre) {
          PedirRenueva(cfg, s.k, i, nombre, rafaga);
        } else {
          SalirRenueva(cfg, s.k, i);
        }
      case EvSalir(i) => SalirRenueva(cfg, s.k, i);
      case EvVolcar(i, rafaga) => VolcarRenueva(cfg, s.k, i, rafaga);
    }
  }

  lemma DespacharRenueva(cfg: ConfigK, k: Kernel, orden: seq<nat>)
    requires orden != []
    ensures Renovados(cfg, k, K.Despachar(k, orden), Nada)
  {
    var i := PrimeraLibre(k.cpus, 0);
    if i < |k.cpus| {
      var k1 := K.Reordenar(k, READY, orden).(cpus := k.cpus[i := k.cpus[i].(libre := false, pid := orden[0])],
                                              tomados := 0);
      MoverNoRenueva(cfg, k1, orden[0], READY, EXECUTE);
    }
  }

  lemma AdmitirRenueva(cfg: ConfigK, k: Kernel, de: EstadoP, orden: seq<nat>, exito: bool)
    requires orden != []
    ensures Renovados(cfg, k, K.Admitir(k, de, orden, exito), Nada)
  {
    MoverNoRenueva(cfg, K.Reordenar(k, de, orden), orden[0], de, READY);
  }

  lemma PasoRenuevaAdmision(c: Config, cfg: ConfigK, s: Sistema, ev: Evento, s': Sistema)
    requires ConfigValida(c) && Paso(c, cfg, s, ev, s') && (ev.EvAdmitirNuevo? || ev.EvAdmitirSusp? || ev.EvDespachar?)
    ensures Renovados(cfg, s.k, s'.k, Nada)
  {
    match ev {
      case EvAdmitirNuevo(orden) =>
        AdmitirRenueva(cfg, s.k, NEW, orden, Iniciar(c, s.m, orden[0], s.k.procesos[orden[0]].tamanio).1);
      case EvAdmitirSusp(orden) =>
        AdmitirRenueva(cfg, s.k, SUSP_READY, orden, |Libres(s.m.ocupados)| >= s.m.procesos[orden[0]].cantidad);
      case EvDespachar(orden) => DespacharRenueva(cfg, s.k, orden);
    }
  }

  lemma PasoRenueva(c: Config, cfg: ConfigK, s: Sistema, ev: Evento, s': Sistema)
    requires ConfigValida(c) && Paso(c, cfg, s, ev, s') && !ev.EvCrear?
    ensures Renovados(cfg, s.k, s'.k, Rafaga(s.k, ev))
  {
    match ev {
      case EvAdmitirNuevo(_) => PasoRenuevaAdmision(c, cfg, s, ev, s');
      case EvAdmitirSusp(_) => PasoRenuevaAdmision(c, cfg, s, ev, s');
      case EvDespachar(_) => PasoRenuevaAdmision(c, cfg, s, ev, s');
      case EvIO(_, _, _) => PasoRenuevaEnCpu(c, cfg, s, ev, s');
      case EvSalir(_) => PasoRenuevaEnCpu(c, cfg, s, ev, s');
      case EvVolcar(_, _) => PasoRenuevaEnCpu(c, cfg, s, ev, s');
      case EvTemporizador(pid, _) => MoverNoRenueva(cfg, s.k, pid, BLOCKED, SUSP_BLOCKED);
      case EvFinIO(nombre, pos) => FinIORenueva(cfg, s.k, nombre, pos);
      case _ =>
    }
  }

  /** One step seen from one process: renewed, left alone, or just born. */
  lemma PasoDeUno(c: Config, cfg: ConfigK, s: Sistema, ev: Evento, s': Sistema, pid: nat)
    requires SisInv(c, s) && Paso(c, cfg, s, ev, s')
    ensures s.k.proximoPid <= s'.k.proximoPid
    ensures pid in s'.k.procesos && pid in s.k.procesos ==>
              s'.k.procesos[pid].estimado == Siguiente(cfg, Rafaga(s.k, ev), pid, s.k.procesos[pid].estimado)
    ensures pid in s'.k.procesos && pid !in s.k.procesos ==>
              Rafaga(s.k, ev) == Nada && pid == s.k.proximoPid && s'.k.procesos[pid].estimado == cfg.estimadoInicial
  {
    if !ev.EvCrear? { PasoRenueva(c, cfg, s, ev, s'); }
  }

  /** Only a process that exists runs a burst. */
  lemma RafagaDeConocido(c: Config, cfg: ConfigK, s: Sistema, ev: Evento, s': Sistema)
    requires SisInv(c, s) && Paso(c, cfg, s, ev, s') && Rafaga(s.k, ev).Algo?
    ensures Rafaga(s.k, ev).valor.0 < s.k.proximoPid
  {
    assert Rafaga(s.k, ev).valor.0 in s.k.procesos;
  }

  /** A pid not issued yet has no history. */
  lemma {:induction false} SinHistoria(c: Config, cfg: ConfigK, marcos: nat, ios: map<string, Dispositivo>,
                                       ss: seq<Sistema>, evs: seq<Evento>, pid: nat, n: nat)
    requires ConfigValida(c) && DispositivosNuevos(ios) && Corrida(c, cfg, ss, evs)
    requires ss[0] == SistemaInicial(c, marcos, ios) && n <= |evs| && pid >= ss[n].k.proximoPid
    ensures Historia(ss, evs, pid, n) == []
  {
    if n > 0 {
      AcuerdoSiempre(c, cfg, marcos, ios, ss, evs, n - 1);
      assert PasoDeCorrida(c, cfg, ss, evs, n - 1);
      PasoSinHistoria(c, cfg, ss[n - 1], evs[n - 1], ss[n], pid);
      SinHistoria(c, cfg, marcos, ios, ss, evs, pid, n - 1);
    }
  }

  lemma PasoSinHistoria(c: Config, cfg: ConfigK, s: Sistema, ev: Evento, s': Sistema, pid: nat)
    requires SisInv(c, s) && Paso(c, cfg, s, ev, s') && pid >= s'.k.proximoPid
    ensures pid >= s.k.proximoPid && (Rafaga(s.k, ev).Algo? ==> Rafaga(s.k, ev).valor.0 != pid)
  {
    PasoDeUno(c, cfg, s, ev, s', pid);
    if Rafaga(s.k, ev).Algo? { RafagaDeConocido(c, cfg, s, ev, s'); }
  }

  lemma EstimadoUnaMas(cfg: ConfigK, previas: seq<real>, r: real)
    ensures Estimado(cfg.alpha, cfg.estimadoInicial, previas + [r])
         == Actualizada(cfg.alpha, r, Estimado(cfg.alpha, cfg.estimadoInicial, previas))
  {
    assert (previas + [r])[..|previas|] == previas;
  }

  lemma HistoriaUnaMas(cfg: ConfigK, ss: seq<Sistema>, evs: seq<Evento>, pid: nat, n: nat)
    requires 0 < n <= |evs| && |ss| == |evs| + 1 && cfg.sjf
    ensures Estimado(cfg.alpha, cfg.estimadoInicial, Historia(ss, evs, pid, n))
         == Siguiente(cfg, Rafaga(ss[n - 1].k, evs[n - 1]), pid,
                      Estimado(cfg.alpha, cfg.estimadoInicial, Historia(ss, evs, pid, n - 1)))
  {
    var b := Rafaga(ss[n - 1].k, evs[n - 1]);
    if b.Algo? && b.valor.0 == pid { EstimadoUnaMas(cfg, Historia(ss, evs, pid, n - 1), b.valor.1); }
  }

  /** Under SJF, after any run each process's estimate is its initial one updated with the bursts
      it ran, in order, and nothing else. */
  lemma {:induction false} EstimadosPorHistoria(c: Config, cfg: ConfigK, marcos: nat, ios: map<string, Dispositivo>,
                                                ss: seq<Sistema>, evs: seq<Evento>, pid: nat, n: nat)
    requires ConfigValida(c) && DispositivosNuevos(ios) && Corrida(c, cfg, ss, evs) && cfg.sjf
    requires ss[0] == SistemaInicial(c, marcos, ios) && n <= |evs| && pid in ss[n].k.procesos
    ensures ss[n].k.procesos[pid].estimado == Estimado(cfg.alpha, cfg.estimadoInicial, Historia(ss, evs, pid, n))
  {
    if n > 0 {
      UnPasoPorHistoria(c, cfg, marcos, ios, ss, evs, pid, n);
      if pid in ss[n - 1].k.procesos {
        EstimadosPorHistoria(c, cfg, marcos, ios, ss, evs, pid, n - 1);
      } else {
        SinHistoria(c, cfg, marcos, ios, ss, evs, pid, n - 1);
      }
      HistoriaUnaMas(cfg, ss, evs, pid, n);
    }
  }

  /** Under FIFO no estimate ever changes. */
  lemma {:induction false} EstimadosFijos(c: Config, cfg: ConfigK, marcos: nat, ios: map<string, Dispositivo>,
                                          ss: seq<Sistema>, evs: seq<Evento>, pid: nat, n: nat)
    requires ConfigValida(c) && DispositivosNuevos(ios) && Corrida(c, cfg, ss, evs) && !cfg.sjf
    requires ss[0] == SistemaInicial(c, marcos, ios) && n <= |evs| && pid in ss[n].k.procesos
    ensures ss[n].k.procesos[pid].estimado == cfg.estimadoInicial
  {
    if n > 0 {
      UnPasoPorHistoria(c, cfg, marcos, ios, ss, evs, pid, n);
      if pid in ss[n - 1].k.procesos { EstimadosFijos(c, cfg, marcos, ios, ss, evs, pid, n - 1); }
    }
  }

  lemma UnPasoPorHistoria(c: Config, cfg: ConfigK, marcos: nat, ios: map<string, Dispositivo>,
                          ss: seq<Sistema>, evs: seq<Evento>, pid: nat, n: nat)
    requires ConfigValida(c) && DispositivosNuevos(ios) && Corrida(c, cfg, ss, evs)
    requires ss[0] == SistemaInicial(c, marcos, ios) && 0 < n <= |evs| && pid in ss[n].k.procesos
    ensures var k, b := ss[n - 1].k, Rafaga(ss[n - 1].k, evs[n - 1]);
            if pid in k.procesos then ss[n].k.procesos[pid].estimado == Siguiente(cfg, b, pid, k.procesos[pid].estimado)
            else b == Nada && pid == k.proximoPid && ss[n].k.procesos[pid].estimado == cfg.estimadoInicial
  {
    AcuerdoSiempre(c, cfg, marcos, ios, ss, evs, n - 1);
    assert PasoDeCorrida(c, cfg, ss, evs, n - 1);
    PasoDeUno(c, cfg, ss[n - 1], evs[n - 1], ss[n], pid);
  }

  /** ... so it never leaves the range of the initial estimate and the bursts seen. */
  lemma EstimadosEntre(c: Config, cfg: ConfigK, marcos: nat, ios: map<string, Dispositivo>,
                       ss: seq<Sistema>, evs: seq<Evento>, pid: nat, n: nat, menor: real, mayor: real)
    requires ConfigValida(c) && DispositivosNuevos(ios) && Corrida(c, cfg, ss, evs) && cfg.sjf
    requires ss[0] == SistemaInicial(c, marcos, ios) && n <= |evs| && pid in ss[n].k.procesos
    requires 0.0 <= cfg.alpha <= 1.0 && menor <= cfg.estimadoInicial <= mayor
    requires forall i :: 0 <= i < |Historia(ss, evs, pid, n)| ==> menor <= Historia(ss, evs, pid, n)[i] <= mayor
    ensures menor <= ss[n].k.procesos[pid].estimado <= mayor
  {
    EstimadosPorHistoria(c, cfg, marcos, ios, ss, evs, pid, n);
    EstimadoAcotado(cfg.alpha, cfg.estimadoInicial, Historia(ss, evs, pid, n), menor, mayor);
  }
}
