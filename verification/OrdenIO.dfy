/** First come first served at the devices, over whole runs: requests and services are read off the
    events and states of the run. */
module OrdenIO {
  import opened Secuencias
  import opened Memoria
  import opened RefinamientoMemoria
  import opened Kernel
  import opened SistemaConjunto
  import K = KernelPasos
  import KI = KernelInvariante
  import Sesiones

  /** Who asks for the device in a step: the process of the CPU that sent the request. */
  function Pide(s: Sistema, ev: Evento, nombre: string): Opcion<nat>
  {
    if ev.EvIO? && ev.nombre == nombre && ev.cpu < |s.k.cpus| && DispositivoExiste(s.k, nombre)
    then Algo(s.k.cpus[ev.cpu].pid) else Nada
  }

  predicate EnInstancia(s: Sistema, nombre: string, pid: nat)
  {
    nombre in s.k.ios
    && exists i :: 0 <= i < |s.k.ios[nombre].instancias| && s.k.ios[nombre].instancias[i].pid == Algo(pid)
  }

  /** Whom the device starts to serve in a step: the one who asks, if an instance has it afterwards;
      or whoever the instance has that has just finished. */
  function Empieza(s: Sistema, ev: Evento, s': Sistema, nombre: string): Opcion<nat>
  {
    if Pide(s, ev, nombre).Algo? then
      if EnInstancia(s', nombre, Pide(s, ev, nombre).valor) then Pide(s, ev, nombre) else Nada
    else if ev.EvFinIO? && ev.nombre == nombre && nombre in s'.k.ios && ev.pos < |s'.k.ios[nombre].instancias|
    then s'.k.ios[nombre].instancias[ev.pos].pid
    else Nada
  }

  function Con(q: seq<nat>, x: Opcion<nat>): seq<nat>
  {
    if x.Algo? then q + [x.valor] else q
  }

  /** The requests for the device in the first n steps, in order. */
  function Pedidos(ss: seq<Sistema>, evs: seq<Evento>, nombre: string, n: nat): seq<nat>
    requires n <= |evs| < |ss|
  {
    if n == 0 then [] else Con(Pedidos(ss, evs, nombre, n - 1), Pide(ss[n - 1], evs[n - 1], nombre))
  }

  /** The services begun by the device in the first n steps, in order. */
  function Servicios(ss: seq<Sistema>, evs: seq<Evento>, nombre: string, n: nat): seq<nat>
    requires n <= |evs| < |ss|
  {
    if n == 0 then []
    else Con(Servicios(ss, evs, nombre, n - 1), Empieza(ss[n - 1], evs[n - 1], ss[n], nombre))
  }

  // ----- one step -----

  /** What a step does to a device. */
  ghost predicate CambioDe(s: Sistema, ev: Evento, s': Sistema, nombre: string)
  {
    && nombre in s.k.ios && nombre in s'.k.ios
    && var d, d' := s.k.ios[nombre], s'.k.ios[nombre];
    if Pide(s, ev, nombre).Algo? then d' == PedirIO(d, Pide(s, ev, nombre).valor)
    else if ev.EvFinIO? && ev.nombre == nombre then ev.pos < |d.instancias| && d' == TerminarIO(d, ev.pos)
    else d' == d
  }

  lemma CambioEnCpu(c: Config, cfg: ConfigK, s: Sistema, ev: Evento, s': Sistema, nombre: string)
    requires ConfigValida(c) && Paso(c, cfg, s, ev, s') && (ev.EvIO? || ev.EvSalir? || ev.EvVolcar?)
    requires nombre in s.k.ios
    ensures CambioDe(s, ev, s', nombre)
  {
    match ev {
      case EvIO(i, otro, rafaga) =>
        if DispositivoExiste(s.k, otro) {
          KI.SolicitarIODef(s.k, cfg, i, otro, rafaga);
          Sesiones.BloquearSesiones(KI.ConPedido(s.k, s.k.cpus[i].pid, otro), cfg, i, rafaga);
        }
      case EvSalir(i) =>
      case EvVolcar(i, rafaga) => Sesiones.VolcarSesiones(s.k, cfg, i, rafaga);
    }
  }

  lemma CambioAlTerminar(c: Config, cfg: ConfigK, s: Sistema, ev: Evento, s': Sistema, nombre: string)
    requires ConfigValida(c) && Paso(c, cfg, s, ev, s') && ev.EvFinIO? && nombre in s.k.ios
    ensures CambioDe(s, ev, s', nombre)
  {
    Sesiones.DesbloquearSesiones(s.k, s.k.ios[ev.nombre].instancias[ev.pos].pid.valor);
  }

  lemma Cambio(c: Config, cfg: ConfigK, s: Sistema, ev: Evento, s': Sistema, nombre: string)
    requires ConfigValida(c) && Paso(c, cfg, s, ev, s') && nombre in s.k.ios
    ensures CambioDe(s, ev, s', nombre)
  {
    if ev.EvIO? || ev.EvSalir? || ev.EvVolcar? {
      CambioEnCpu(c, cfg, s, ev, s', nombre);
    } else if ev.EvFinIO? {
      CambioAlTerminar(c, cfg, s, ev, s', nombre);
    } else if ev.EvAdmitirNuevo? || ev.EvAdmitirSusp? || ev.EvDespachar? {
      Sesiones.PasoSesionesAdmision(c, cfg, s, ev, s');
    } else {
      CambioNinguno(c, cfg, s, ev, s', nombre);
    }
  }

  lemma CambioNinguno(c: Config, cfg: ConfigK, s: Sistema, ev: Evento, s': Sistema, nombre: string)
    requires ConfigValida(c) && Paso(c, cfg, s, ev, s') && nombre in s.k.ios
    requires ev.EvCrear? || ev.EvEsperarCpu? || ev.EvEsperarReady? || ev.EvTemporizador? || ev.EvConectar?
             || ev.EvEscribir?
    ensures CambioDe(s, ev, s', nombre)
  {
  }

  /** Who asks is in no instance yet. */
  lemma PideDesdeFuera(k: Kernel, cpu: nat, nombre: string, i: nat)
    requires K.KInv(k) && cpu < |k.cpus| && !k.cpus[cpu].libre && nombre in k.ios && i < |k.ios[nombre].instancias|
    ensures k.ios[nombre].instancias[i].pid != Algo(k.cpus[cpu].pid)
  {
    KI.EnCpuEjecuta(k, cpu);
    if k.ios[nombre].instancias[i].pid == Algo(k.cpus[cpu].pid) {
      KI.ServidoBloqueado(k, nombre, i, k.cpus[cpu].pid);
      assert false;
    }
  }

  /** The requests so far, and the services so far. */
  ghost predicate EnOrden(d: Dispositivo, pedidos: seq<nat>, servicios: seq<nat>)
  {
    d.llegadas == pedidos && d.atendidos == servicios && pedidos == servicios + d.cola
  }

  lemma PasoEnOrden(c: Config, cfg: ConfigK, s: Sistema, ev: Evento, s': Sistema, nombre: string,
                    pedidos: seq<nat>, servicios: seq<nat>)
    requires SisInv(c, s) && Paso(c, cfg, s, ev, s') && nombre in s.k.ios
    requires EnOrden(s.k.ios[nombre], pedidos, servicios)
    ensures nombre in s'.k.ios
    ensures EnOrden(s'.k.ios[nombre], Con(pedidos, Pide(s, ev, nombre)), Con(servicios, Empieza(s, ev, s', nombre)))
  {
    Cambio(c, cfg, s, ev, s', nombre);
    var d := s.k.ios[nombre];
    assert DispositivoBien(d);
    if Pide(s, ev, nombre).Algo? {
      forall i | 0 <= i < |d.instancias|
        ensures d.instancias[i].pid != Algo(s.k.cpus[ev.cpu].pid)
      {
        PideDesdeFuera(s.k, ev.cpu, nombre, i);
      }
      PedirEnOrden(s, ev, s', nombre, d, s.k.cpus[ev.cpu].pid, pedidos, servicios);
    } else if ev.EvFinIO? && ev.nombre == nombre {
      TerminarEnOrden(d, ev.pos, pedidos, servicios);
    }
  }

  lemma PedirEnOrden(s: Sistema, ev: Evento, s': Sistema, nombre: string, d: Dispositivo, pid: nat,
                     pedidos: seq<nat>, servicios: seq<nat>)
    requires EnOrden(d, pedidos, servicios) && Pide(s, ev, nombre) == Algo(pid)
    requires nombre in s'.k.ios && s'.k.ios[nombre] == PedirIO(d, pid) && DispositivoBien(d)
    requires forall i :: 0 <= i < |d.instancias| ==> d.instancias[i].pid != Algo(pid)
    ensures EnOrden(PedirIO(d, pid), Con(pedidos, Algo(pid)), Con(servicios, Empieza(s, ev, s', nombre)))
  {
    var pos := InstanciaLibre(d.instancias, 0);
    if pos < |d.instancias| {
      assert s'.k.ios[nombre].instancias[pos].pid == Algo(pid);
      assert d.cola == [];
    } else {
      assert !EnInstancia(s', nombre, pid);
      assert servicios + d.cola + [pid] == servicios + (d.cola + [pid]);
    }
  }

  lemma TerminarEnOrden(d: Dispositivo, pos: nat, pedidos: seq<nat>, servicios: seq<nat>)
    requires EnOrden(d, pedidos, servicios) && pos < |d.instancias|
    ensures EnOrden(TerminarIO(d, pos), pedidos, Con(servicios, TerminarIO(d, pos).instancias[pos].pid))
  {
    if d.cola != [] { assert servicios + d.cola == servicios + [d.cola[0]] + d.cola[1..]; }
  }

  // ----- runs -----

  /** At every point of every run a device has served, in order, the first of those who asked for it,
      and the rest wait in the order in which they asked. */
  lemma {:induction false} PorOrdenDeLlegada(c: Config, cfg: ConfigK, marcos: nat, ios: map<string, Dispositivo>,
                                             ss: seq<Sistema>, evs: seq<Evento>, nombre: string, n: nat)
    requires ConfigValida(c) && DispositivosNuevos(ios) && Corrida(c, cfg, ss, evs) && nombre in ios
    requires ss[0] == SistemaInicial(c, marcos, ios) && n <= |evs|
    ensures nombre in ss[n].k.ios
    ensures EnOrden(ss[n].k.ios[nombre], Pedidos(ss, evs, nombre, n), Servicios(ss, evs, nombre, n))
  {
    if n > 0 {
      PorOrdenDeLlegada(c, cfg, marcos, ios, ss, evs, nombre, n - 1);
      UnPasoEnOrden(c, cfg, marcos, ios, ss, evs, nombre, n - 1,
                    Pedidos(ss, evs, nombre, n - 1), Servicios(ss, evs, nombre, n - 1));
    }
  }

  lemma UnPasoEnOrden(c: Config, cfg: ConfigK, marcos: nat, ios: map<string, Dispositivo>,
                      ss: seq<Sistema>, evs: seq<Evento>, nombre: string, k: nat,
                      pedidos: seq<nat>, servicios: seq<nat>)
    requires ConfigValida(c) && DispositivosNuevos(ios) && Corrida(c, cfg, ss, evs)
    requires ss[0] == SistemaInicial(c, marcos, ios) && k < |evs|
    requires nombre in ss[k].k.ios && EnOrden(ss[k].k.ios[nombre], pedidos, servicios)
    ensures nombre in ss[k + 1].k.ios
    ensures EnOrden(ss[k + 1].k.ios[nombre], Con(pedidos, Pide(ss[k], evs[k], nombre)),
                    Con(servicios, Empieza(ss[k], evs[k], ss[k + 1], nombre)))
  {
    AcuerdoSiempre(c, cfg, marcos, ios, ss, evs, k);
    assert PasoDeCorrida(c, cfg, ss, evs, k);
    PasoEnOrden(c, cfg, ss[k], evs[k], ss[k + 1], nombre, pedidos, servicios);
  }

  /** A request for a device that is unknown, or has no instance, ends the process. */
  lemma SinInstanciasTermina(c: Config, cfg: ConfigK, s: Sistema, i: nat, nombre: string, rafaga: real, s': Sistema)
    requires SisInv(c, s) && Paso(c, cfg, s, EvIO(i, nombre, rafaga), s')
    requires nombre !in s.k.ios || s.k.ios[nombre].instancias == []
    ensures var pid := s.k.cpus[i].pid;
            && pid in s.k.procesos && pid !in s'.k.procesos && pid in s'.k.finalizados && pid !in s'.m.procesos
            && s'.k.ios == s.k.ios && s'.k.cpus[i].libre
  {
    KI.EnCpuEjecuta(s.k, i);
    InvVisible(c, s.m);
  }
}
