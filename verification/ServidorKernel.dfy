/** The kernel's handlers and planners on its state and the memory module, updated in place: each
    call is one step of the runs of SistemaManejador. */
module ServidorKernel {
  import opened Aritmetica
  import opened Secuencias
  import opened TablaPaginas
  import opened Memoria
  import opened RefinamientoMemoria
  import opened Kernel
  import opened SistemaConjunto
  import opened SistemaManejador
  import opened ModuloMemoria
  import opened ModuloKernel
  import opened ServidorMemoria
  import opened RondaAdmision
  import K = KernelPasos
  import KI = KernelInvariante

  /** Kernel and memory are in a good state. */
  ghost predicate Bien(k: NucleoKernel, mem: MemoriaPrincipal)
    reads k, mem, mem.memoria, mem.marcosOcupados
  {
    mem.Valid() && SisInv(mem.c, Conjuntos(k, mem))
  }

  /** What the kernel's methods ask of its queues and CPUs. */
  lemma KernelListo(c: Config, s: Sistema)
    requires SisInv(c, s)
    ensures Particionada(s.k.colas, s.k.procesos) && NombresDistintos(s.k.cpus)
  {
  }

  /** The process on a busy CPU, as kernel and memory know it. */
  lemma EnCpuListo(c: Config, s: Sistema, i: nat)
    requires SisInv(c, s) && i < |s.k.cpus| && !s.k.cpus[i].libre
    ensures var pid := s.k.cpus[i].pid;
            && CpuOcupada(s.k, i) && s.k.procesos[pid].estado == EXECUTE && pid in s.m.procesos && Residente(s.m, pid)
            && ProcesoBien(c, s.m.procesos[pid])
            && forall j :: 0 <= j < |MarcosDe(s.m.procesos[pid].tabla)| ==>
                 s.m.ocupados[MarcosDe(s.m.procesos[pid].tabla)[j]]
  {
    KI.EnCpuEjecuta(s.k, i);
    LlamadasValidas(c, s, s.k.cpus[i].pid);
    ListoParaOperar(c, s.m, s.k.cpus[i].pid);
  }

  // ----- results that are steps -----

  lemma SalirEsPaso(c: Config, cfg: ConfigK, s: Sistema, i: nat)
    requires ConfigValida(c) && CpuOcupada(s.k, i) && Conocido(s.m, s.k.cpus[i].pid)
    ensures PasoEscrito(c, cfg, s, EvSalir(i), Sistema(K.Salir(s.k, i), Finalizar(c, s.m, s.k.cpus[i].pid)))
  {
  }

  lemma IOSinDispositivoEsPaso(c: Config, cfg: ConfigK, s: Sistema, i: nat, nombre: string, rafaga: real)
    requires ConfigValida(c) && CpuOcupada(s.k, i) && Conocido(s.m, s.k.cpus[i].pid) && !DispositivoExiste(s.k, nombre)
    ensures PasoEscrito(c, cfg, s, EvIO(i, nombre, rafaga),
                        Sistema(K.Salir(s.k, i), Finalizar(c, s.m, s.k.cpus[i].pid)))
  {
  }

  lemma IOEsPaso(c: Config, cfg: ConfigK, s: Sistema, i: nat, nombre: string, rafaga: real)
    requires ConfigValida(c) && CpuOcupada(s.k, i) && DispositivoExiste(s.k, nombre)
    ensures PasoEscrito(c, cfg, s, EvIO(i, nombre, rafaga), Sistema(K.SolicitarIO(s.k, cfg, i, nombre, rafaga), s.m))
  {
  }

  lemma VolcarEsPaso(c: Config, cfg: ConfigK, s: Sistema, i: nat, rafaga: real)
    requires ConfigValida(c) && CpuOcupada(s.k, i)
    ensures PasoEscrito(c, cfg, s, EvVolcar(i, rafaga), Sistema(K.Volcar(s.k, cfg, i, rafaga), s.m))
  {
  }

  lemma AdmitirSuspEsPaso(c: Config, cfg: ConfigK, s: Sistema, orden: seq<nat>, exito: bool)
    requires ConfigValida(c) && orden != [] && K.OrdenAdmision(cfg, s.k.procesos, s.k.colas.suspListos, orden)
    requires EnSwap(s.m, orden[0]) && (exito <==> |Libres(s.m.ocupados)| >= s.m.procesos[orden[0]].cantidad)
    ensures PasoEscrito(c, cfg, s, EvAdmitirSusp(orden),
                        Sistema(K.Admitir(s.k, SUSP_READY, orden, exito), Reanudar(c, s.m, orden[0])))
  {
  }

  lemma DespacharEsPaso(c: Config, cfg: ConfigK, s: Sistema, orden: seq<nat>)
    requires ConfigValida(c) && s.k.tomados == 2 && orden != []
    requires K.OrdenDespacho(cfg, s.k.procesos, s.k.colas.listos, orden)
    ensures PasoEscrito(c, cfg, s, EvDespachar(orden), Sistema(K.Despachar(s.k, orden), s.m))
  {
  }

  lemma SuspenderEsPaso(c: Config, cfg: ConfigK, s: Sistema, pid: nat, sesiones: nat)
    requires ConfigValida(c) && K.SigueBloqueado(s.k, pid, sesiones)
    requires Residente(s.m, pid) && |s.m.swap| == |s.m.indices|
    ensures PasoEscrito(c, cfg, s, EvTemporizador(pid, sesiones),
                        Sistema(K.Suspender(s.k, pid), SuspenderManejador(c, s.m, pid)))
  {
  }

  lemma TemporizadorEnVano(c: Config, cfg: ConfigK, s: Sistema, pid: nat, sesiones: nat)
    requires ConfigValida(c) && !K.SigueBloqueado(s.k, pid, sesiones)
    ensures PasoEscrito(c, cfg, s, EvTemporizador(pid, sesiones), s)
  {
  }

  lemma FinIOEsPaso(c: Config, cfg: ConfigK, s: Sistema, nombre: string, pos: nat, pid: nat)
    requires ConfigValida(c) && nombre in s.k.ios && pos < |s.k.ios[nombre].instancias|
    requires s.k.ios[nombre].instancias[pos].pid == Algo(pid) && pid in s.k.procesos
    ensures PasoEscrito(c, cfg, s, EvFinIO(nombre, pos), Sistema(K.FinIO(s.k, nombre, pos), s.m))
  {
  }

  lemma EscribirEsPaso(c: Config, cfg: ConfigK, s: Sistema, pid: nat, pag: nat, desp: nat, dato: seq<byte>)
    requires Inv(c, s.m) && pid in s.k.procesos && s.k.procesos[pid].estado == EXECUTE
    requires EnMemoria(s.m, pid) && desp < c.pagina
    ensures PasoEscrito(c, cfg, s, EvEscribir(pid, pag, desp, dato),
                        Sistema(s.k, Memoria.Escribir(c, s.m, pid, pag, desp, dato)))
  {
  }

  // ----- long-term planning -----

  /** manejarInit_Proc and the first process: CrearProcesoNuevo. */
  method ManejarInitProc(k: NucleoKernel, mem: MemoriaPrincipal, tamanio: nat) returns (pid: nat, ghost orden: seq<nat>)
    requires Bien(k, mem) && tamanio >= 1 && Abarca(mem.c.niveles, mem.c.entradas, Techo(tamanio, mem.c.pagina))
    modifies k`colas, k`procesos, k`proximoPid
    ensures mem.Valid()
    ensures PasoEscrito(mem.c, k.cfg, old(Conjuntos(k, mem)), EvCrear(tamanio, orden), Conjuntos(k, mem))
  {
    KernelListo(mem.c, Conjuntos(k, mem));
    ghost var m := mem.Modelo();
    pid := k.CrearProcesoNuevo(tamanio);
    orden := k.colas.nuevos;
    assert mem.Modelo() == m;
  }

  /** A turn of pasar_desde_new. */
  method AdmitirNuevo(k: NucleoKernel, mem: MemoriaPrincipal) returns (exito: bool, ghost orden: seq<nat>)
    requires Bien(k, mem) && k.colas.nuevos != []
    modifies k`colas, k`procesos, k`semReady, mem`procesos, mem.marcosOcupados
    ensures mem.Valid()
    ensures PasoEscrito(mem.c, k.cfg, old(Conjuntos(k, mem)), EvAdmitirNuevo(orden), Conjuntos(k, mem))
  {
    NuevosListos(mem.c, Conjuntos(k, mem));
    var pid;
    pid, exito, orden := TurnoNew(k, mem);
  }

  /** A turn of pasar_desde_susp_ready. */
  method AdmitirSuspendido(k: NucleoKernel, mem: MemoriaPrincipal) returns (r: Respuesta, ghost orden: seq<nat>)
    requires Bien(k, mem) && k.colas.suspListos != []
    modifies k`colas, k`procesos, k`semReady, mem, mem.memoria, mem.marcosOcupados
    ensures mem.Valid() && r != ErrorInterno
    ensures PasoEscrito(mem.c, k.cfg, old(Conjuntos(k, mem)), EvAdmitirSusp(orden), Conjuntos(k, mem))
  {
    ghost var s := Conjuntos(k, mem);
    GuardasCiertas(mem.c, s);
    var pid;
    pid, r, orden := TurnoSusp(k, mem);
    AdmitirSuspEsPaso(mem.c, k.cfg, s, orden, r == Respuesta.Bien);
  }

  // ----- short-term planning -----

  method EsperarCpu(k: NucleoKernel, mem: MemoriaPrincipal)
    requires Bien(k, mem) && k.tomados == 0 && k.semCpus > 0
    modifies k`semCpus, k`tomados
    ensures mem.Valid() && PasoEscrito(mem.c, k.cfg, old(Conjuntos(k, mem)), EvEsperarCpu, Conjuntos(k, mem))
  {
    ghost var m := mem.Modelo();
    k.EsperarCpu();
    assert mem.Modelo() == m;
  }

  method EsperarReady(k: NucleoKernel, mem: MemoriaPrincipal)
    requires Bien(k, mem) && k.tomados == 1 && k.semReady > 0
    modifies k`semReady, k`tomados
    ensures mem.Valid() && PasoEscrito(mem.c, k.cfg, old(Conjuntos(k, mem)), EvEsperarReady, Conjuntos(k, mem))
  {
    ghost var m := mem.Modelo();
    k.EsperarReady();
    assert mem.Modelo() == m;
  }

  /** ejecutarUnProceso: holding both tokens it always finds a process and a CPU. */
  method EjecutarUnProceso(k: NucleoKernel, mem: MemoriaPrincipal) returns (ghost orden: seq<nat>)
    requires Bien(k, mem) && k.tomados == 2
    modifies k`colas, k`procesos, k`cpus, k`tomados
    ensures mem.Valid() && PasoEscrito(mem.c, k.cfg, old(Conjuntos(k, mem)), EvDespachar(orden), Conjuntos(k, mem))
  {
    ghost var s := Conjuntos(k, mem);
    KernelListo(mem.c, s);
    KI.HayConQueDespachar(s.k);
    orden := k.EjecutarUnProceso();
    DespacharEsPaso(mem.c, k.cfg, s, orden);
    assert mem.Modelo() == s.m;
  }

  method RecibirHandshakeCPU(k: NucleoKernel, mem: MemoriaPrincipal, nombre: string)
    requires Bien(k, mem) && forall i :: 0 <= i < |k.cpus| ==> k.cpus[i].nombre != nombre
    modifies k`cpus, k`semCpus
    ensures mem.Valid() && PasoEscrito(mem.c, k.cfg, old(Conjuntos(k, mem)), EvConectar(nombre), Conjuntos(k, mem))
  {
    ghost var m := mem.Modelo();
    k.ConectarCPU(nombre);
    assert mem.Modelo() == m;
  }

  // ----- system calls -----

  /** FinalizarProceso and the release of the CPU: memory forgets the process, then the kernel. */
  method TerminarProceso(k: NucleoKernel, mem: MemoriaPrincipal, pid: nat, nombreCpu: string, ghost i: nat)
    requires Bien(k, mem) && Ejecutando(k.Modelo(), pid, nombreCpu, i) && !k.cpus[i].libre
    modifies k`colas, k`procesos, k`finalizados, k`cpus, k`semCpus, mem, mem.memoria, mem.marcosOcupados
    ensures mem.Valid() && CpuOcupada(old(k.Modelo()), i) && Conocido(old(mem.Modelo()), pid)
    ensures k.Modelo() == K.Salir(old(k.Modelo()), i) && mem.Modelo() == Finalizar(mem.c, old(mem.Modelo()), pid)
  {
    EnCpuListo(mem.c, Conjuntos(k, mem), i);
    ghost var k0 := k.Modelo();
    mem.FinalizarProceso(pid);
    assert k.Modelo() == k0;
    ghost var m := mem.Modelo();
    k.Terminar(pid, nombreCpu, i);
    assert mem.Modelo() == m;
  }

  method ManejarEXIT(k: NucleoKernel, mem: MemoriaPrincipal, pid: nat, nombreCpu: string, ghost i: nat)
    requires Bien(k, mem) && Ejecutando(k.Modelo(), pid, nombreCpu, i) && !k.cpus[i].libre
    modifies k`colas, k`procesos, k`finalizados, k`cpus, k`semCpus, mem, mem.memoria, mem.marcosOcupados
    ensures mem.Valid() && PasoEscrito(mem.c, k.cfg, old(Conjuntos(k, mem)), EvSalir(i), Conjuntos(k, mem))
  {
    ghost var s := Conjuntos(k, mem);
    TerminarProceso(k, mem, pid, nombreCpu, i);
    SalirEsPaso(mem.c, k.cfg, s, i);
  }

  /** manejarIO: ignored unless the process exists and executes; the end of it if nobody has the
      device; otherwise an instance or the queue. */
  method ManejarIO(k: NucleoKernel, mem: MemoriaPrincipal, pid: nat, nombreCpu: string, nombreIO: string,
                   rafagaReal: real, ghost i: nat) returns (atendido: bool)
    requires Bien(k, mem) && Ejecutando(k.Modelo(), pid, nombreCpu, i)
    requires pid in k.procesos && k.procesos[pid].estado == EXECUTE ==> !k.cpus[i].libre
    modifies k, mem, mem.memoria, mem.marcosOcupados
    ensures mem.Valid() && (atendido <==> pid in old(k.procesos) && old(k.procesos)[pid].estado == EXECUTE)
    ensures if atendido
            then PasoEscrito(mem.c, k.cfg, old(Conjuntos(k, mem)), EvIO(i, nombreIO, rafagaReal), Conjuntos(k, mem))
            else Conjuntos(k, mem) == old(Conjuntos(k, mem))
  {
    if pid !in k.procesos || k.procesos[pid].estado != EXECUTE {
      return false;
    }
    var existe := k.VerificarExistenciaIO(nombreIO);
    if !existe {
      ghost var s := Conjuntos(k, mem);
      TerminarProceso(k, mem, pid, nombreCpu, i);
      IOSinDispositivoEsPaso(mem.c, k.cfg, s, i, nombreIO, rafagaReal);
    } else {
      PedirIO(k, mem, pid, nombreCpu, nombreIO, rafagaReal, i);
    }
    return true;
  }

  method PedirIO(k: NucleoKernel, mem: MemoriaPrincipal, pid: nat, nombreCpu: string, nombreIO: string,
                 rafagaReal: real, ghost i: nat)
    requires Bien(k, mem) && Ejecutando(k.Modelo(), pid, nombreCpu, i) && !k.cpus[i].libre
    requires pid in k.procesos && k.procesos[pid].estado == EXECUTE && DispositivoExiste(k.Modelo(), nombreIO)
    modifies k
    ensures mem.Valid()
    ensures PasoEscrito(mem.c, k.cfg, old(Conjuntos(k, mem)), EvIO(i, nombreIO, rafagaReal), Conjuntos(k, mem))
  {
    ghost var s := Conjuntos(k, mem);
    KernelListo(mem.c, s);
    IOEsPaso(mem.c, k.cfg, s, i, nombreIO, rafagaReal);
    k.PedirYBloquear(pid, nombreCpu, nombreIO, rafagaReal, i);
    assert mem.Modelo() == s.m;
  }

  /** manejarDUMP_MEMORY: memory has a dump for every process it knows. */
  method ManejarDUMPMEMORY(k: NucleoKernel, mem: MemoriaPrincipal, pid: nat, nombreCpu: string, rafagaReal: real,
                           ghost i: nat)
    returns (dump: Opcion<seq<Pagina>>)
    requires Bien(k, mem) && Ejecutando(k.Modelo(), pid, nombreCpu, i) && !k.cpus[i].libre
    modifies k`colas, k`procesos, k`semReady, k`cpus, k`semCpus
    ensures mem.Valid() && pid in mem.procesos && Visible(mem.Modelo(), mem.procesos[pid])
    ensures dump == Algo(Paginas(mem.Modelo(), mem.procesos[pid]))
    ensures PasoEscrito(mem.c, k.cfg, old(Conjuntos(k, mem)), EvVolcar(i, rafagaReal), Conjuntos(k, mem))
  {
    EnCpuListo(mem.c, Conjuntos(k, mem), i);
    dump := PedirDump(k, mem, pid);
    ghost var m := mem.Modelo();
    BloquearPorDump(k, mem, pid, nombreCpu, rafagaReal, i);
    assert mem.Modelo() == m;
  }

  method BloquearPorDump(k: NucleoKernel, mem: MemoriaPrincipal, pid: nat, nombreCpu: string, rafagaReal: real,
                         ghost i: nat)
    requires Bien(k, mem) && Ejecutando(k.Modelo(), pid, nombreCpu, i) && !k.cpus[i].libre
    requires pid in k.procesos && k.procesos[pid].estado == EXECUTE
    modifies k`colas, k`procesos, k`semReady, k`cpus, k`semCpus
    ensures PasoEscrito(mem.c, k.cfg, old(Conjuntos(k, mem)), EvVolcar(i, rafagaReal), Conjuntos(k, mem))
  {
    ghost var s := Conjuntos(k, mem);
    KernelListo(mem.c, s);
    VolcarEsPaso(mem.c, k.cfg, s, i, rafagaReal);
    k.BloquearPorDump(pid, nombreCpu, rafagaReal, i);
    assert mem.Modelo() == s.m;
  }

  method PedirDump(k: NucleoKernel, mem: MemoriaPrincipal, pid: nat) returns (dump: Opcion<seq<Pagina>>)
    requires Bien(k, mem) && pid in mem.procesos && !mem.procesos[pid].suspendido
    ensures Visible(mem.Modelo(), mem.procesos[pid]) && dump == Algo(Paginas(mem.Modelo(), mem.procesos[pid]))
  {
    DumpDeResidente(mem.c, mem.Modelo(), pid);
    dump := mem.GenerarMemoryDump(pid);
  }

  // ----- suspension and end of IO -----

  /** sigueBloqueado: a suspension in memory, by the handler as written, and one in the kernel. */
  method SigueBloqueado(k: NucleoKernel, mem: MemoriaPrincipal, pid: nat, cantidadSesionesPrevia: nat)
    returns (suspende: bool)
    requires Bien(k, mem)
    modifies k`colas, k`procesos, mem, mem.memoria, mem.marcosOcupados
    ensures mem.Valid()
    ensures PasoEscrito(mem.c, k.cfg, old(Conjuntos(k, mem)), EvTemporizador(pid, cantidadSesionesPrevia),
                        Conjuntos(k, mem))
  {
    suspende := k.MismaSesionBloqueado(pid, cantidadSesionesPrevia);
    if suspende {
      SuspenderBloqueado(k, mem, pid, cantidadSesionesPrevia);
    } else {
      TemporizadorEnVano(mem.c, k.cfg, Conjuntos(k, mem), pid, cantidadSesionesPrevia);
    }
  }

  method SuspenderBloqueado(k: NucleoKernel, mem: MemoriaPrincipal, pid: nat, ghost sesiones: nat)
    requires Bien(k, mem) && K.SigueBloqueado(k.Modelo(), pid, sesiones)
    modifies k`colas, k`procesos, mem, mem.memoria, mem.marcosOcupados
    ensures mem.Valid()
    ensures PasoEscrito(mem.c, k.cfg, old(Conjuntos(k, mem)), EvTemporizador(pid, sesiones), Conjuntos(k, mem))
  {
    ghost var s := Conjuntos(k, mem);
    SuspensionLista(mem.c, k.cfg, s, pid, sesiones);
    SuspenderAmbos(k, mem, pid, s);
  }

  lemma SuspensionLista(c: Config, cfg: ConfigK, s: Sistema, pid: nat, sesiones: nat)
    requires SisInv(c, s) && K.SigueBloqueado(s.k, pid, sesiones)
    ensures Residente(s.m, pid) && ProcesoBien(c, s.m.procesos[pid]) && |s.m.swap| == |s.m.indices|
    ensures forall j :: 0 <= j < |MarcosDe(s.m.procesos[pid].tabla)| ==>
              s.m.ocupados[MarcosDe(s.m.procesos[pid].tabla)[j]]
    ensures PasoEscrito(c, cfg, s, EvTemporizador(pid, sesiones),
                        Sistema(K.Suspender(s.k, pid), SuspenderManejador(c, s.m, pid)))
  {
    LlamadasValidas(c, s, pid);
    ListoParaOperar(c, s.m, pid);
    SuspenderEsPaso(c, cfg, s, pid, sesiones);
  }

  method SuspenderAmbos(k: NucleoKernel, mem: MemoriaPrincipal, pid: nat, ghost s: Sistema)
    requires mem.Valid() && s == Conjuntos(k, mem) && pid in s.k.procesos
    requires Residente(s.m, pid) && ProcesoBien(mem.c, s.m.procesos[pid]) && |s.m.swap| == |s.m.indices|
    requires forall j :: 0 <= j < |MarcosDe(s.m.procesos[pid].tabla)| ==>
               s.m.ocupados[MarcosDe(s.m.procesos[pid].tabla)[j]]
    modifies k`colas, k`procesos, mem, mem.memoria, mem.marcosOcupados
    ensures mem.Valid()
    ensures Conjuntos(k, mem) == Sistema(K.Suspender(s.k, pid), SuspenderManejador(mem.c, s.m, pid))
  {
    mem.SuspenderProceso(pid);
    ghost var m := mem.Modelo();
    var ok := k.Mover(pid, BLOCKED, SUSP_BLOCKED);
    assert mem.Modelo() == m;
  }

  /** manejarFinIO for the process an instance is serving. */
  method ManejarFinIO(k: NucleoKernel, mem: MemoriaPrincipal, pid: nat, nombreIO: string, nombreInstancia: string,
                      ghost pos: nat)
    requires Bien(k, mem) && nombreIO in k.ios && pos < |k.ios[nombreIO].instancias|
    requires k.ios[nombreIO].instancias[pos].nombre == nombreInstancia
    requires k.ios[nombreIO].instancias[pos].pid == Algo(pid)
    modifies k`colas, k`procesos, k`semReady, k`ios, k`sesiones
    ensures mem.Valid() && PasoEscrito(mem.c, k.cfg, old(Conjuntos(k, mem)), EvFinIO(nombreIO, pos), Conjuntos(k, mem))
  {
    ghost var s := Conjuntos(k, mem);
    ServidoListo(mem.c, s, nombreIO, nombreInstancia, pos, pid);
    FinIOEsPaso(mem.c, k.cfg, s, nombreIO, pos, pid);
    k.ManejarFinIO(pid, nombreIO, nombreInstancia, pos);
    assert mem.Modelo() == s.m;
  }

  lemma ServidoListo(c: Config, s: Sistema, nombreIO: string, nombreInstancia: string, pos: nat, pid: nat)
    requires SisInv(c, s) && nombreIO in s.k.ios && pos < |s.k.ios[nombreIO].instancias|
    requires s.k.ios[nombreIO].instancias[pos].nombre == nombreInstancia
    requires s.k.ios[nombreIO].instancias[pos].pid == Algo(pid)
    ensures pid in s.k.procesos && HayInstancia(s.k.ios, nombreIO, nombreInstancia)
    ensures Instancias(s.k.ios[nombreIO], pos, nombreInstancia)
  {
    KI.ServidoBloqueado(s.k, nombreIO, pos, pid);
    assert DispositivoBien(s.k.ios[nombreIO]);
  }

  // ----- user memory -----

  /** A write of an executing process, to any page number; -1 if memory refuses it. */
  method EscribirDatoMemoria(k: NucleoKernel, mem: MemoriaPrincipal, pid: nat, pag: nat, desp: nat, dato: seq<byte>)
    returns (r: int)
    requires Bien(k, mem) && pid in k.procesos && k.procesos[pid].estado == EXECUTE && desp < mem.c.pagina
    modifies mem.memoria
    ensures mem.Valid()
    ensures r == 0 <==> Traducible(mem.c, old(mem.Modelo()), pid, pag) && desp + |dato| <= mem.c.pagina
    ensures PasoEscrito(mem.c, k.cfg, old(Conjuntos(k, mem)), EvEscribir(pid, pag, desp, dato), Conjuntos(k, mem))
  {
    ghost var s := Conjuntos(k, mem);
    LlamadasValidas(mem.c, s, pid);
    MarcoExacto(mem.c, s.m, pid, pag);
    EscribirEsPaso(mem.c, k.cfg, s, pid, pag, desp, dato);
    r := mem.EscribirUsuario(pid, pag, desp, dato);
  }
}
