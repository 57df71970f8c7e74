/** The kernel's global state and its functions, updated in place, each proved against the state
    machine of KernelPasos. */
module ModuloKernel {
  import opened Secuencias
  import opened Kernel
  import opened Rafagas
  import opened Ordenamiento
  import K = KernelPasos
  import KI = KernelInvariante

  function TamanioDe(ps: map<nat, Pcb>, pid: nat): nat
  {
    if pid in ps then ps[pid].tamanio else 0
  }

  function EstimadoDe(ps: map<nat, Pcb>, pid: nat): real
  {
    if pid in ps then ps[pid].estimado else 0.0
  }

  // ----- queues -----

  method BuscarPIDEnCola(cola: seq<nat>, pid: nat) returns (pos: int, encontrado: bool)
    ensures encontrado <==> pid in cola
    ensures encontrado ==> 0 <= pos < |cola| && cola[pos] == pid && pid !in cola[..pos]
    ensures !encontrado ==> pos == -1
  {
    for i := 0 to |cola|
      invariant pid !in cola[..i]
    {
      if cola[i] == pid {
        return i, true;
      }
    }
    return -1, false;
  }

  method AgregarProcesoACola(cola: seq<nat>, pid: nat) returns (r: seq<nat>, ok: bool)
    ensures (r, ok) == Agregar(cola, pid)
  {
    var pos, encontrado := BuscarPIDEnCola(cola, pid);
    if !encontrado {
      return cola + [pid], true;
    }
    return cola, false;
  }

  method EliminarProcesoDeCola(cola: seq<nat>, pid: nat) returns (r: seq<nat>, ok: bool)
    ensures (r, ok) == Eliminar(cola, pid)
  {
    var pos, encontrado := BuscarPIDEnCola(cola, pid);
    if encontrado {
      SinEn(cola, pid, pos);
      return cola[..pos] + cola[pos + 1..], true;
    }
    return cola, false;
  }

  /** What the two do: one more at the back unless it is there, and the first occurrence cut out. */
  lemma ColaTras(cola: seq<nat>, pid: nat)
    ensures Agregar(cola, pid) == if pid in cola then (cola, false) else (cola + [pid], true)
    ensures pid !in cola ==> Eliminar(cola, pid) == (cola, false)
    ensures pid in cola ==> exists i :: 0 <= i < |cola| && cola[i] == pid && pid !in cola[..i]
                                 && Eliminar(cola, pid) == (cola[..i] + cola[i + 1..], true)
  {
    if pid in cola {
      var i := PrimeraVez(cola, pid);
      SinEn(cola, pid, i);
    }
  }

  lemma {:induction false} PrimeraVez(cola: seq<nat>, pid: nat) returns (i: nat)
    requires pid in cola
    ensures i < |cola| && cola[i] == pid && pid !in cola[..i]
  {
    if cola[0] == pid {
      i := 0;
    } else {
      var j := PrimeraVez(cola[1..], pid);
      i := j + 1;
      assert cola[..i] == [cola[0]] + cola[1..][..j];
    }
  }

  class NucleoKernel {
    const cfg: ConfigK
    var colas: Colas
    var procesos: map<nat, Pcb>
    var proximoPid: nat
    ghost var finalizados: set<nat>
    var cpus: seq<CpuK>
    var semCpus: nat
    var semReady: nat
    ghost var tomados: nat
    var ios: map<string, Dispositivo>
    var sesiones: map<nat, nat>

    ghost function Modelo(): Kernel
      reads this
    {
      Kernel(colas, procesos, proximoPid, finalizados, cpus, semCpus, semReady, tomados, ios, sesiones)
    }

    constructor (cfg: ConfigK, ios: map<string, Dispositivo>)
      ensures this.cfg == cfg && Modelo() == K.KernelInicial(ios)
    {
      this.cfg := cfg;
      colas := Colas([], [], [], [], [], []);
      procesos, proximoPid, finalizados := map[], 0, {};
      cpus, semCpus, semReady, tomados := [], 0, 0, 0;
      this.ios := ios;
      sesiones := map[];
    }

    /** cambiar_estado. */
    method PonerEstado(pid: nat, e: EstadoP)
      requires pid in procesos
      modifies this`procesos
      ensures procesos == CambiarEstado(old(procesos), pid, e)
    {
      procesos := procesos[pid := procesos[pid].(estado := e)];
    }

    /** The shape all eight queue transitions share. */
    method Mover(pid: nat, de: EstadoP, a: EstadoP) returns (ok: bool)
      requires pid in procesos
      modifies this`colas, this`procesos
      ensures (Modelo(), ok) == Transicion(old(Modelo()), pid, de, a)
    {
      var q, estaba := EliminarProcesoDeCola(colas.De(de), pid);
      colas := colas.Con(de, q);
      if !estaba {
        assert colas == old(colas);
        return false;
      }
      var r, entra := AgregarProcesoACola(colas.De(a), pid);
      if !entra {
        return false;
      }
      colas := colas.Con(a, r);
      PonerEstado(pid, a);
      return true;
    }

    method AvisarProcesoEnReady()
      modifies this`semReady
      ensures semReady == old(semReady) + 1
    {
      semReady := semReady + 1;
    }

    // ----- creation and ordering -----

    /** ordenar_new and ordenar_susp_ready. */
    method OrdenarPorTamanio(e: EstadoP)
      requires forall x :: x in colas.De(e) ==> x in procesos
      modifies this`colas
      ensures colas == old(colas).Con(e, colas.De(e)) && multiset(colas.De(e)) == multiset(old(colas).De(e))
      ensures forall i :: 0 <= i < |colas.De(e)| ==> colas.De(e)[i] in procesos
      ensures forall i, j :: 0 <= i < j < |colas.De(e)| ==>
                procesos[colas.De(e)[i]].tamanio <= procesos[colas.De(e)[j]].tamanio
    {
      var ps := procesos;
      var menor := (a, b) => TamanioDe(ps, a) < TamanioDe(ps, b);
      var r := Ordenar(colas.De(e), menor);
      assert forall i, j :: 0 <= i < j < |r| ==> !menor(r[j], r[i]);
      MismosElementos(colas.De(e), r, procesos);
      colas := colas.Con(e, r);
    }

    /** The queue as an admission turn finds it: ordered by size under smallest-first. */
    method PrepararCola(e: EstadoP)
      requires forall x :: x in colas.De(e) ==> x in procesos
      modifies this`colas
      ensures colas == old(colas).Con(e, colas.De(e))
      ensures K.OrdenAdmision(cfg, procesos, old(colas).De(e), colas.De(e)) && |colas.De(e)| == |old(colas).De(e)|
      ensures forall i :: 0 <= i < |colas.De(e)| ==> colas.De(e)[i] in procesos
    {
      if cfg.pmcp {
        OrdenarPorTamanio(e);
        assert |multiset(colas.De(e))| == |multiset(old(colas).De(e))|;
      }
    }

    method CrearProcesoNuevo(tamanio: nat) returns (pid: nat)
      requires Particionada(colas, procesos)
      modifies this`colas, this`procesos, this`proximoPid
      ensures pid == old(proximoPid)
      ensures Modelo() == K.Crear(old(Modelo()), cfg, tamanio, colas.nuevos)
      ensures K.OrdenAdmision(cfg, procesos, old(colas.nuevos) + [pid], colas.nuevos)
    {
      pid := proximoPid;
      proximoPid := proximoPid + 1;
      procesos := procesos[pid := Pcb(NEW, tamanio, cfg.estimadoInicial)];
      colas := colas.(nuevos := colas.nuevos + [pid]);
      NuevosConocidos(old(colas), old(procesos), pid, procesos[pid]);
      PrepararCola(NEW);
    }

    // ----- CPUs -----

    method ElegirCPULibre() returns (pos: nat, encontrado: bool)
      modifies this`cpus
      ensures pos == PrimeraLibre(old(cpus), 0) && (encontrado <==> pos < |old(cpus)|)
      ensures cpus == if encontrado then old(cpus)[pos := old(cpus)[pos].(libre := false)] else old(cpus)
    {
      for i := 0 to |cpus|
        invariant cpus == old(cpus) && PrimeraLibre(cpus, 0) == PrimeraLibre(cpus, i)
      {
        if cpus[i].libre {
          cpus := cpus[i := cpus[i].(libre := false)];
          return i, true;
        }
      }
      return |cpus|, false;
    }

    method BuscarCpu(nombre: string) returns (pos: int)
      ensures -1 <= pos < |cpus|
      ensures pos >= 0 ==> cpus[pos].nombre == nombre
      ensures pos < 0 ==> forall j :: 0 <= j < |cpus| ==> cpus[j].nombre != nombre
    {
      for i := 0 to |cpus|
        invariant forall j :: 0 <= j < i ==> cpus[j].nombre != nombre
      {
        if cpus[i].nombre == nombre {
          return i;
        }
      }
      return -1;
    }

    /** The part of Enviar_proceso_a_cpu that remembers who runs where. */
    method AnotarPid(nombre: string, pid: nat, ghost i: nat)
      requires NombresDistintos(cpus) && i < |cpus| && cpus[i].nombre == nombre
      modifies this`cpus
      ensures cpus == old(cpus)[i := old(cpus)[i].(pid := pid)]
    {
      var pos := BuscarCpu(nombre);
      assert pos == i;
      cpus := cpus[pos := cpus[pos].(pid := pid)];
    }

    method LiberarCPU(nombre: string, ghost i: nat)
      requires NombresDistintos(cpus) && i < |cpus| && cpus[i].nombre == nombre
      modifies this`cpus, this`semCpus
      ensures Modelo() == LiberarCpu(old(Modelo()), i)
    {
      var pos := BuscarCpu(nombre);
      assert pos == i;
      cpus := cpus[pos := cpus[pos].(libre := true)];
      semCpus := semCpus + 1;
    }

    method ConectarCPU(nombre: string)
      modifies this`cpus, this`semCpus
      ensures Modelo() == K.Conectar(old(Modelo()), nombre)
    {
      cpus := cpus + [CpuK(nombre, true, 0)];
      semCpus := semCpus + 1;
    }

    // ----- short-term planning -----

    method EsperarCpu()
      requires semCpus > 0
      modifies this`semCpus, this`tomados
      ensures Modelo() == K.EsperarCpu(old(Modelo()))
    {
      semCpus, tomados := semCpus - 1, 1;
    }

    method EsperarReady()
      requires semReady > 0
      modifies this`semReady, this`tomados
      ensures Modelo() == K.EsperarReady(old(Modelo()))
    {
      semReady, tomados := semReady - 1, 2;
    }

    method OrdenarReadyPorRafaga()
      requires forall x :: x in colas.listos ==> x in procesos
      modifies this`colas
      ensures colas == old(colas).Con(READY, colas.listos)
      ensures multiset(colas.listos) == multiset(old(colas.listos))
      ensures forall i :: 0 <= i < |colas.listos| ==> colas.listos[i] in procesos
      ensures forall i, j :: 0 <= i < j < |colas.listos| ==>
                procesos[colas.listos[i]].estimado <= procesos[colas.listos[j]].estimado
    {
      var ps := procesos;
      var menor := (a, b) => EstimadoDe(ps, a) < EstimadoDe(ps, b);
      var r := Ordenar(colas.listos, menor);
      assert forall i, j :: 0 <= i < j < |r| ==> !menor(r[j], r[i]);
      MismosElementos(colas.listos, r, procesos);
      colas := colas.(listos := r);
    }

    method PrepararReady()
      requires Particionada(colas, procesos)
      modifies this`colas
      ensures colas == old(colas).Con(READY, colas.listos) && |colas.listos| == |old(colas.listos)|
      ensures K.OrdenDespacho(cfg, procesos, old(colas.listos), colas.listos)
      ensures forall i :: 0 <= i < |colas.listos| ==> colas.listos[i] in procesos
    {
      assert ColaBien(colas.De(READY), procesos, READY);
      if cfg.sjf { OrdenarReadyPorRafaga(); }
      OrdenListo(old(colas), procesos, colas.listos, cfg);
    }

    /** ejecutarUnProcesoFifo and ejecutarUnProcesoSjf: the head of READY, after ordering it under
        SJF, goes to the first free CPU. The order READY was left in is a witness. */
    method EjecutarUnProceso() returns (ghost orden: seq<nat>)
      requires Particionada(colas, procesos) && NombresDistintos(cpus) && colas.listos != []
      modifies this`colas, this`procesos, this`cpus, this`tomados
      ensures orden != []
      ensures PrimeraLibre(old(cpus), 0) < |old(cpus)| ==> K.OrdenDespacho(cfg, old(procesos), old(colas.listos), orden)
      ensures Modelo() == K.Despachar(old(Modelo()), orden)
    {
      ghost var k := Modelo();
      var pos, hayCpu := ElegirCPULibre();
      tomados := 0;
      if !hayCpu {
        return colas.listos;
      }
      PrepararReady();
      orden := colas.listos;
      var pid := colas.listos[0];
      AnotarPid(cpus[pos].nombre, pid, pos);
      assert Modelo() == Enviado(k, orden, pos);
      var ok := Mover(pid, READY, EXECUTE);
    }

    // ----- blocking and ending -----

    method ActualizarRafagas(pid: nat, rafagaReal: real)
      requires pid in procesos
      modifies this`procesos
      ensures procesos == old(procesos)[pid := old(procesos)[pid].(
                estimado := Actualizada(cfg.alpha, rafagaReal, old(procesos)[pid].estimado))]
    {
      var anterior := procesos[pid].estimado;
      procesos := procesos[pid := procesos[pid].(estimado := Actualizada(cfg.alpha, rafagaReal, anterior))];
    }

    method ExecuteABlocked(pid: nat, rafagaReal: real) returns (ok: bool)
      requires pid in procesos
      modifies this`colas, this`procesos
      ensures ok == Transicion(old(Modelo()), pid, EXECUTE, BLOCKED).1
      ensures var t := Transicion(old(Modelo()), pid, EXECUTE, BLOCKED).0;
              Modelo() == if ok then K.Estimar(t, cfg, pid, rafagaReal) else t
    {
      ok := Mover(pid, EXECUTE, BLOCKED);
      if ok && cfg.sjf { ActualizarRafagas(pid, rafagaReal); }
    }

    /** BloquearProceso, with the session count its suspension timer remembers. */
    method BloquearProceso(pid: nat, rafagaReal: real) returns (ok: bool, cantidadSesiones: nat)
      requires pid in procesos
      modifies this`colas, this`procesos
      ensures ok == Transicion(old(Modelo()), pid, EXECUTE, BLOCKED).1
      ensures var t := Transicion(old(Modelo()), pid, EXECUTE, BLOCKED).0;
              Modelo() == if ok then K.Estimar(t, cfg, pid, rafagaReal) else t
      ensures ok ==> cantidadSesiones == K.Sesiones(Modelo(), pid)
    {
      ok := ExecuteABlocked(pid, rafagaReal);
      cantidadSesiones := if pid in sesiones then sesiones[pid] else 0;
    }

    /** The test of sigueBloqueado. */
    method MismaSesionBloqueado(pid: nat, cantidadSesionesPrevia: nat) returns (sigue: bool)
      ensures sigue == K.SigueBloqueado(Modelo(), pid, cantidadSesionesPrevia)
    {
      if pid !in procesos {
        return false;
      }
      var actual := if pid in sesiones then sesiones[pid] else 0;
      return actual == cantidadSesionesPrevia && procesos[pid].estado == BLOCKED;
    }

    /** eliminar_proceso_de. */
    method EliminarProcesoDe(pid: nat, estado: EstadoP) returns (ok: bool)
      modifies this`colas
      ensures colas == old(colas).Con(estado, Eliminar(old(colas).De(estado), pid).0)
      ensures ok <==> pid in old(colas).De(estado)
    {
      var q;
      q, ok := EliminarProcesoDeCola(colas.De(estado), pid);
      colas := colas.Con(estado, q);
    }

    /** The kernel's half of FinalizarProceso. */
    method FinalizarProceso(pid: nat, estadoAnterior: EstadoP)
      requires pid in procesos && procesos[pid].estado == estadoAnterior
      modifies this`colas, this`procesos, this`finalizados
      ensures Modelo() == Quitar(old(Modelo()), pid)
    {
      var ok := EliminarProcesoDe(pid, estadoAnterior);
      procesos := procesos - {pid};
      finalizados := finalizados + {pid};
    }

    /** The end of the process on CPU i, once memory has let it go. */
    method Terminar(pid: nat, nombreCpu: string, ghost i: nat)
      requires Ejecutando(Modelo(), pid, nombreCpu, i) && pid in procesos && procesos[pid].estado == EXECUTE
      modifies this`colas, this`procesos, this`finalizados, this`cpus, this`semCpus
      ensures Modelo() == K.Salir(old(Modelo()), i)
    {
      FinalizarProceso(pid, EXECUTE);
      LiberarCPU(nombreCpu, i);
    }

    // ----- devices -----

    method VerificarExistenciaIO(nombre: string) returns (existe: bool)
      ensures existe <==> nombre in ios && ios[nombre].instancias != []
    {
      if nombre !in ios {
        return false;
      }
      if |ios[nombre].instancias| <= 0 {
        return false;
      }
      return true;
    }

    /** The device's entry, empty if there is none. */
    function Entrada(nombre: string): Dispositivo
      reads this`ios
    {
      if nombre in ios then ios[nombre] else Dispositivo([], [], [], [])
    }

    method BuscarInstanciaIOLibre(nombre: string) returns (pos: int, hayLibre: bool)
      ensures var inst := Entrada(nombre).instancias;
              if hayLibre then pos == InstanciaLibre(inst, 0) < |inst|
              else pos == -1 && InstanciaLibre(inst, 0) == |inst|
    {
      var instancias := Entrada(nombre).instancias;
      for i := 0 to |instancias|
        invariant InstanciaLibre(instancias, 0) == InstanciaLibre(instancias, i)
      {
        if instancias[i].pid == Nada {
          return i, true;
        }
      }
      return -1, false;
    }

    method BuscarInstanciaIO(nombre: string, instancia: string) returns (pos: int)
      ensures -1 <= pos < |Entrada(nombre).instancias|
      ensures pos >= 0 ==> Entrada(nombre).instancias[pos].nombre == instancia
      ensures pos < 0 ==>
                forall j :: 0 <= j < |Entrada(nombre).instancias| ==> Entrada(nombre).instancias[j].nombre != instancia
    {
      var instancias := Entrada(nombre).instancias;
      for i := 0 to |instancias|
        invariant forall j :: 0 <= j < i ==> instancias[j].nombre != instancia
      {
        if instancias[i].nombre == instancia {
          return i;
        }
      }
      return -1;
    }

    /** The device's half of manejarIO: take a free instance or queue up. */
    method PedirInstancia(nombre: string, pid: nat)
      requires nombre in ios
      modifies this`ios, this`sesiones
      ensures Modelo() == KI.ConPedido(old(Modelo()), pid, nombre)
      ensures var d, d' := old(ios)[nombre], ios[nombre];
              if forall i :: 0 <= i < |d.instancias| ==> d.instancias[i].pid.Algo?
              then d'.instancias == d.instancias && d'.cola == d.cola + [pid]
              else && d'.cola == d.cola
                   && (exists pos :: 0 <= pos < |d.instancias| && d.instancias[pos].pid == Nada
                         && (forall i :: 0 <= i < pos ==> d.instancias[i].pid.Algo?)
                         && d'.instancias == d.instancias[pos := d.instancias[pos].(pid := Algo(pid))])
    {
      var io := ios[nombre];
      var pos, hayLibre := BuscarInstanciaIOLibre(nombre);
      if hayLibre {
        io := io.(instancias := io.instancias[pos := io.instancias[pos].(pid := Algo(pid))],
                  atendidos := io.atendidos + [pid]);
        sesiones := sesiones[pid := (if pid in sesiones then sesiones[pid] else 0) + 1];
      } else {
        io := io.(cola := io.cola + [pid]);
      }
      ios := ios[nombre := io.(llegadas := io.llegadas + [pid])];
    }

    /** A request to a device that exists: instance or queue, BLOCKED, CPU given back. */
    method PedirYBloquear(pid: nat, nombreCpu: string, nombreIO: string, rafagaReal: real, ghost i: nat)
      requires Particionada(colas, procesos) && Ejecutando(Modelo(), pid, nombreCpu, i)
      requires pid in procesos && procesos[pid].estado == EXECUTE && nombreIO in ios && ios[nombreIO].instancias != []
      modifies this
      ensures Modelo() == K.SolicitarIO(old(Modelo()), cfg, i, nombreIO, rafagaReal)
    {
      PedirInstancia(nombreIO, pid);
      ghost var k1 := Modelo();
      DeEjecutandoABloqueado(k1, pid);
      BloquearYLiberar(pid, nombreCpu, rafagaReal, i);
      KI.SolicitarIODef(old(Modelo()), cfg, i, nombreIO, rafagaReal);
      assert Modelo() == K.Bloquear(k1, cfg, i, rafagaReal);
    }

    /** BLOCKED, and the CPU given back. */
    method BloquearYLiberar(pid: nat, nombreCpu: string, rafagaReal: real, ghost i: nat)
      requires Ejecutando(Modelo(), pid, nombreCpu, i) && pid in procesos
      requires Transicion(Modelo(), pid, EXECUTE, BLOCKED).1
      modifies this`colas, this`procesos, this`cpus, this`semCpus
      ensures Modelo() == K.Bloquear(old(Modelo()), cfg, i, rafagaReal)
    {
      var ok, cantidadSesiones := BloquearProceso(pid, rafagaReal);
      LiberarCPU(nombreCpu, i);
    }

    /** A dump that memory writes: BLOCKED while it lasts, then READY, the CPU given back. */
    method BloquearPorDump(pid: nat, nombreCpu: string, rafagaReal: real, ghost i: nat)
      requires Particionada(colas, procesos) && Ejecutando(Modelo(), pid, nombreCpu, i)
      requires pid in procesos && procesos[pid].estado == EXECUTE
      modifies this`colas, this`procesos, this`semReady, this`cpus, this`semCpus
      ensures Modelo() == K.Volcar(old(Modelo()), cfg, i, rafagaReal)
    {
      DeEjecutandoABloqueado(Modelo(), pid);
      VolcarPorPartes(Modelo(), cfg, i, pid, rafagaReal);
      BloquearYVolver(pid, rafagaReal);
      LiberarCPU(nombreCpu, i);
    }

    method BloquearYVolver(pid: nat, rafagaReal: real)
      requires pid in procesos && Transicion(Modelo(), pid, EXECUTE, BLOCKED).1
      modifies this`colas, this`procesos, this`semReady
      ensures Modelo() == Volcado(old(Modelo()), cfg, pid, rafagaReal)
    {
      var ok, cantidadSesiones := BloquearProceso(pid, rafagaReal);
      PasarAReady(pid, BLOCKED);
    }

    /** The queue move of manejarFinIO; with the queues in order it does not fail. */
    method DesbloquearProceso(pid: nat)
      requires pid in procesos
      modifies this`colas, this`procesos, this`semReady
      ensures Modelo() == K.Desbloquear(old(Modelo()), pid)
    {
      if procesos[pid].estado == SUSP_BLOCKED {
        var ok := Mover(pid, SUSP_BLOCKED, SUSP_READY);
      } else if procesos[pid].estado == BLOCKED {
        PasarAReady(pid, BLOCKED);
      }
    }

    /** The device's half of manejarFinIO: free the instance, then give it to the next in line. */
    method EntregarInstancia(nombreIO: string, nombreInstancia: string, ghost pos: nat) returns (estaba: bool)
      requires HayInstancia(ios, nombreIO, nombreInstancia) ==>
                 nombreIO in ios && Instancias(ios[nombreIO], pos, nombreInstancia)
      modifies this`ios, this`sesiones
      ensures estaba == HayInstancia(old(ios), nombreIO, nombreInstancia)
      ensures Modelo() == if estaba then K.Entregar(old(Modelo()), nombreIO, pos) else old(Modelo())
    {
      var io := Entrada(nombreIO);
      var donde := BuscarInstanciaIO(nombreIO, nombreInstancia);
      if donde == -1 {
        return false;
      }
      assert donde == pos;
      io := io.(instancias := io.instancias[donde := io.instancias[donde].(pid := Nada)]);
      if |io.cola| > 0 {
        var siguiente := io.cola[0];
        sesiones := sesiones[siguiente := (if siguiente in sesiones then sesiones[siguiente] else 0) + 1];
        io := io.(instancias := io.instancias[donde := io.instancias[donde].(pid := Algo(siguiente))],
                  cola := io.cola[1..], atendidos := io.atendidos + [siguiente]);
        assert io.instancias == TerminarIO(ios[nombreIO], pos).instancias;
      }
      ios := ios[nombreIO := io];
      return true;
    }

    /** Nothing for a process that is gone; only the queue move if the instance is. */
    method ManejarFinIO(pid: nat, nombreIO: string, nombreInstancia: string, ghost pos: nat)
      requires pid in procesos && HayInstancia(ios, nombreIO, nombreInstancia) ==>
                 && nombreIO in ios && Instancias(ios[nombreIO], pos, nombreInstancia)
                 && ios[nombreIO].instancias[pos].pid == Algo(pid)
      modifies this`colas, this`procesos, this`semReady, this`ios, this`sesiones
      ensures pid !in old(procesos) ==> Modelo() == old(Modelo())
      ensures pid in old(procesos) ==>
                Modelo() == if HayInstancia(old(ios), nombreIO, nombreInstancia)
                            then K.FinIO(old(Modelo()), nombreIO, pos)
                            else K.Desbloquear(old(Modelo()), pid)
    {
      if pid !in procesos {
        return;
      }
      DesbloquearProceso(pid);
      var estaba := EntregarInstancia(nombreIO, nombreInstancia, pos);
    }

    // ----- preemption test -----

    /** The executing process with the least burst left, the first of them on a tie; `pasado` is how
        long each has been executing. */
    method BuscarProcesoEnExecuteDeMenorRafagaRestante(pasado: map<nat, real>) returns (pid: nat, restante: real)
      requires colas.ejecutando != [] && forall e :: e in colas.ejecutando ==> e in procesos && e in pasado
      ensures pid in procesos && pid in pasado && restante + pasado[pid] == procesos[pid].estimado
      ensures exists i :: 0 <= i < |colas.ejecutando| && colas.ejecutando[i] == pid
                && forall j :: 0 <= j < i ==> var e := colas.ejecutando[j];
                     procesos[e].estimado + pasado[pid] > procesos[pid].estimado + pasado[e]
      ensures forall e :: e in colas.ejecutando ==>
                procesos[e].estimado + pasado[pid] >= procesos[pid].estimado + pasado[e]
    {
      pid := colas.ejecutando[0];
      restante := RafagaRestante(pid, pasado);
      ghost var k := 0;
      for i := 0 to |colas.ejecutando|
        invariant k <= i && k < |colas.ejecutando| && colas.ejecutando[k] == pid
        invariant restante + pasado[pid] == procesos[pid].estimado
        invariant forall j :: 0 <= j < k ==> var e := colas.ejecutando[j];
                    procesos[e].estimado - pasado[e] > restante
        invariant forall j :: 0 <= j < i ==> var e := colas.ejecutando[j];
                    procesos[e].estimado - pasado[e] >= restante
      {
        var actual := RafagaRestante(colas.ejecutando[i], pasado);
        if actual < restante {
          pid, restante := colas.ejecutando[i], actual;
          k := i;
        }
      }
    }

    /** What is left of an executing process's estimate. */
    method RafagaRestante(pid: nat, pasado: map<nat, real>) returns (restante: real)
      requires pid in procesos && pid in pasado
      ensures restante + pasado[pid] == procesos[pid].estimado
    {
      restante := procesos[pid].estimado - pasado[pid];
    }

    /** Preempt exactly when some ready process is estimated shorter than what is left of every
        executing one; the victim is then an executing process with the least left. */
    method VerificarDesalojo(pasado: map<nat, real>) returns (pid: int, hay: bool)
      requires colas.ejecutando != [] && forall e :: e in colas.ejecutando ==> e in procesos && e in pasado
      requires colas.listos != [] && forall r :: r in colas.listos ==> r in procesos
      modifies this`colas
      ensures colas == old(colas).Con(READY, colas.listos) && multiset(colas.listos) == multiset(old(colas.listos))
      ensures hay <==> exists r :: r in old(colas.listos) && forall e :: e in colas.ejecutando ==>
                procesos[r].estimado + pasado[e] < procesos[e].estimado
      ensures hay ==> pid >= 0 && pid in colas.ejecutando && forall e :: e in colas.ejecutando ==>
                procesos[pid].estimado + pasado[e] <= procesos[e].estimado + pasado[pid]
      ensures !hay ==> pid == -1
    {
      var pidEnExec, restante := BuscarProcesoEnExecuteDeMenorRafagaRestante(pasado);
      OrdenarReadyPorRafaga();
      MenorPrimero(procesos, old(colas.listos), colas.listos);
      if procesos[colas.listos[0]].estimado < restante {
        return pidEnExec, true;
      }
      return -1, false;
    }

    /** A move to READY and its notice. */
    method PasarAReady(pid: nat, de: EstadoP)
      requires pid in procesos
      modifies this`colas, this`procesos, this`semReady
      ensures var t := Transicion(old(Modelo()), pid, de, READY).0; Modelo() == t.(semReady := t.semReady + 1)
    {
      var ok := Mover(pid, de, READY);
      AvisarProcesoEnReady();
    }
  }

  /** CPU i, called `nombreCpu`, is the one that asks, and runs `pid`. */
  ghost predicate Ejecutando(k: Kernel, pid: nat, nombreCpu: string, i: nat)
  {
    NombresDistintos(k.cpus) && i < |k.cpus| && k.cpus[i].nombre == nombreCpu && k.cpus[i].pid == pid
  }

  /** Giving the CPU back before or after a queue move makes no difference. */
  lemma LiberarYMover(k: Kernel, i: nat, pid: nat, de: EstadoP, a: EstadoP)
    requires i < |k.cpus|
    ensures var t := Transicion(k, pid, de, a).0;
            && i < |t.cpus| && t.semReady == k.semReady
            && Transicion(LiberarCpu(k, i), pid, de, a).0 == LiberarCpu(t, i)
  {
  }

  /** The kernel once the dumped process is back in READY, its CPU not yet given back. */
  function Volcado(k: Kernel, cfg: ConfigK, pid: nat, rafaga: real): Kernel
  {
    var t := Transicion(K.Estimar(Transicion(k, pid, EXECUTE, BLOCKED).0, cfg, pid, rafaga), pid, BLOCKED, READY).0;
    t.(semReady := t.semReady + 1)
  }

  lemma VolcarPorPartes(k: Kernel, cfg: ConfigK, i: nat, pid: nat, rafaga: real)
    requires i < |k.cpus| && k.cpus[i].pid == pid
    ensures i < |Volcado(k, cfg, pid, rafaga).cpus|
    ensures K.Volcar(k, cfg, i, rafaga) == LiberarCpu(Volcado(k, cfg, pid, rafaga), i)
  {
    var k1 := K.Estimar(Transicion(k, pid, EXECUTE, BLOCKED).0, cfg, pid, rafaga);
    assert K.Bloquear(k, cfg, i, rafaga) == LiberarCpu(k1, i);
    LiberarYMover(k1, i, pid, BLOCKED, READY);
    KI.VolcarDef(k, cfg, i, rafaga, LiberarCpu(k1, i));
  }

  lemma DeEjecutandoABloqueado(k: Kernel, pid: nat)
    requires Particionada(k.colas, k.procesos) && pid in k.procesos && k.procesos[pid].estado == EXECUTE
    ensures Transicion(k, pid, EXECUTE, BLOCKED).1
  {
    TransicionBien(k, pid, EXECUTE, BLOCKED);
  }

  /** The kernel between sending the head of READY to CPU `pos` and moving it to EXECUTE. */
  function Enviado(k: Kernel, orden: seq<nat>, pos: nat): Kernel
    requires orden != [] && pos < |k.cpus|
  {
    K.Reordenar(k, READY, orden).(cpus := k.cpus[pos := k.cpus[pos].(libre := false, pid := orden[0])], tomados := 0)
  }

  /** The head of an ordered permutation is its least element. */
  lemma MenorPrimero(ps: map<nat, Pcb>, antes: seq<nat>, q: seq<nat>)
    requires antes != [] && multiset(antes) == multiset(q) && forall x :: x in antes ==> x in ps
    requires forall i :: 0 <= i < |q| ==> q[i] in ps
    requires forall i, j :: 0 <= i < j < |q| ==> ps[q[i]].estimado <= ps[q[j]].estimado
    ensures q != [] && q[0] in antes
    ensures forall r :: r in antes ==> ps[q[0]].estimado <= ps[r].estimado
  {
    assert antes[0] in multiset(q);
    assert q[0] in multiset(antes);
    forall r | r in antes
      ensures ps[q[0]].estimado <= ps[r].estimado
    {
      assert r in multiset(q);
    }
  }

  predicate HayInstancia(ios: map<string, Dispositivo>, nombreIO: string, nombreInstancia: string)
  {
    nombreIO in ios
    && exists j :: 0 <= j < |ios[nombreIO].instancias| && ios[nombreIO].instancias[j].nombre == nombreInstancia
  }

  /** Position `pos` is the instance of that name, and no other is. */
  ghost predicate Instancias(d: Dispositivo, pos: nat, nombre: string)
  {
    && pos < |d.instancias| && d.instancias[pos].nombre == nombre
    && forall i, j :: 0 <= i < j < |d.instancias| ==> d.instancias[i].nombre != d.instancias[j].nombre
  }

  ghost predicate NombresDistintos(cpus: seq<CpuK>)
  {
    forall i, j :: 0 <= i < j < |cpus| ==> cpus[i].nombre != cpus[j].nombre
  }

  lemma OrdenListo(c: Colas, ps: map<nat, Pcb>, orden: seq<nat>, cfg: ConfigK)
    requires Particionada(c, ps) && multiset(orden) == multiset(c.listos)
    requires cfg.sjf ==> forall i :: 0 <= i < |orden| ==> orden[i] in ps
    requires cfg.sjf ==> forall i, j :: 0 <= i < j < |orden| ==> ps[orden[i]].estimado <= ps[orden[j]].estimado
    requires !cfg.sjf ==> orden == c.listos
    ensures K.OrdenDespacho(cfg, ps, c.listos, orden) && |orden| == |c.listos|
    ensures forall i :: 0 <= i < |orden| ==> orden[i] in ps
  {
    assert ColaBien(c.De(READY), ps, READY);
    MismosElementos(c.listos, orden, ps);
    assert |multiset(orden)| == |multiset(c.listos)|;
  }

  lemma NuevosConocidos(c: Colas, ps: map<nat, Pcb>, pid: nat, p: Pcb)
    requires Particionada(c, ps)
    ensures forall x :: x in c.nuevos + [pid] ==> x in ps[pid := p]
  {
    assert ColaBien(c.De(NEW), ps, NEW);
  }

  lemma MismosElementos(q: seq<nat>, r: seq<nat>, ps: map<nat, Pcb>)
    requires multiset(q) == multiset(r) && forall x :: x in q ==> x in ps
    ensures forall i :: 0 <= i < |r| ==> r[i] in ps
  {
    forall i | 0 <= i < |r|
      ensures r[i] in ps
    {
      assert r[i] in multiset(r);
      assert r[i] in multiset(q);
    }
  }
}
