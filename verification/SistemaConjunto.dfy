/** Kernel and memory together: every call the kernel makes finds the process in the phase memory
    expects, and no amount of scheduling changes what a process has in memory. */
module SistemaConjunto {
  import opened Aritmetica
  import opened Secuencias
  import opened TablaPaginas
  import opened Memoria
  import opened RefinamientoMemoria
  import opened Kernel
  import K = KernelPasos
  import KI = KernelInvariante

  datatype Sistema = Sistema(k: Kernel, m: Estado)

  datatype Evento =
    | EvCrear(tamanio: nat, orden: seq<nat>)
    | EvAdmitirNuevo(orden: seq<nat>)
    | EvAdmitirSusp(orden: seq<nat>)
    | EvEsperarCpu
    | EvEsperarReady
    | EvDespachar(orden: seq<nat>)
    | EvIO(cpu: nat, nombre: string, rafaga: real)
    | EvSalir(cpu: nat)
    | EvVolcar(cpu: nat, rafaga: real)
    | EvTemporizador(pid: nat, sesiones: nat)
    | EvFinIO(nombre: string, pos: nat)
    | EvConectar(nombre: string)
    | EvEscribir(pid: nat, pag: nat, desp: nat, dato: seq<byte>)

  // ----- the joint invariant -----

  predicate EsSuspendido(e: EstadoP)
  {
    e == SUSP_BLOCKED || e == SUSP_READY
  }

  /** Memory knows exactly the admitted processes, and has in swap exactly the suspended ones. */
  ghost predicate Acuerdo(ps: map<nat, Pcb>, ms: map<nat, Proceso>)
  {
    && (forall pid :: pid in ms ==> pid in ps)
    && (forall pid :: pid in ps ==> (pid in ms <==> ps[pid].estado != NEW))
    && (forall pid :: pid in ms && pid in ps ==> (ms[pid].suspendido <==> EsSuspendido(ps[pid].estado)))
  }

  ghost predicate Tamanios(c: Config, ps: map<nat, Pcb>)
    requires ConfigValida(c)
  {
    forall pid :: pid in ps ==> ps[pid].tamanio >= 1 && Abarca(c.niveles, c.entradas, Techo(ps[pid].tamanio, c.pagina))
  }

  ghost predicate SisInv(c: Config, s: Sistema)
  {
    K.KInv(s.k) && Inv(c, s.m) && Acuerdo(s.k.procesos, s.m.procesos) && Tamanios(c, s.k.procesos)
  }

  /** Whatever both states hold, a process has the same pages in both. */
  ghost predicate BytesIguales(m: Estado, m': Estado)
  {
    && TodosVisibles(m) && TodosVisibles(m')
    && forall pid :: pid in m.procesos && pid in m'.procesos ==> Abs(m')[pid] == Abs(m)[pid]
  }

  // ----- steps -----

  /** The memory call of an admission of a new process, and its answer. */
  ghost function Iniciar(c: Config, m: Estado, pid: nat, tamanio: nat): (Estado, bool)
    requires ConfigValida(c)
  {
    (Almacenar(c, m, pid, tamanio), |Libres(m.ocupados)| >= Techo(tamanio, c.pagina))
  }

  /** What the process on CPU i may be asked about. */
  predicate CpuOcupada(k: Kernel, i: nat)
  {
    i < |k.cpus| && !k.cpus[i].libre && k.cpus[i].pid in k.procesos
  }

  predicate DispositivoExiste(k: Kernel, nombre: string)
  {
    nombre in k.ios && k.ios[nombre].instancias != []
  }

  predicate Conocido(m: Estado, pid: nat)
  {
    Residente(m, pid) || EnSwap(m, pid)
  }

  /** One atomic step of the kernel with the memory calls it makes, or a user write of an
      executing process. Suspension is the composition of memory's helper functions. */
  ghost predicate Paso(c: Config, cfg: ConfigK, s: Sistema, ev: Evento, s': Sistema)
    requires ConfigValida(c)
  {
    var k, m := s.k, s.m;
    match ev
    case EvCrear(tam, orden) =>
      tam >= 1 && Abarca(c.niveles, c.entradas, Techo(tam, c.pagina))
      && K.OrdenAdmision(cfg, k.procesos[k.proximoPid := Pcb(NEW, tam, cfg.estimadoInicial)],
                         k.colas.nuevos + [k.proximoPid], orden)
      && s' == Sistema(K.Crear(k, cfg, tam, orden), m)
    case EvAdmitirNuevo(orden) =>
      orden != [] && orden[0] in k.procesos && K.OrdenAdmision(cfg, k.procesos, k.colas.nuevos, orden)
      && var (m', exito) := Iniciar(c, m, orden[0], k.procesos[orden[0]].tamanio);
         s' == Sistema(K.Admitir(k, NEW, orden, exito), m')
    case EvAdmitirSusp(orden) =>
      orden != [] && K.OrdenAdmision(cfg, k.procesos, k.colas.suspListos, orden)
      && EnSwap(m, orden[0])
      && s' == Sistema(K.Admitir(k, SUSP_READY, orden, |Libres(m.ocupados)| >= m.procesos[orden[0]].cantidad),
                       Reanudar(c, m, orden[0]))
    case EvEsperarCpu => k.tomados == 0 && k.semCpus > 0 && s' == Sistema(K.EsperarCpu(k), m)
    case EvEsperarReady => k.tomados == 1 && k.semReady > 0 && s' == Sistema(K.EsperarReady(k), m)
    case EvDespachar(orden) =>
      k.tomados == 2 && orden != [] && K.OrdenDespacho(cfg, k.procesos, k.colas.listos, orden)
      && s' == Sistema(K.Despachar(k, orden), m)
    case EvIO(i, nombre, rafaga) =>
      CpuOcupada(k, i)
      && (if DispositivoExiste(k, nombre) then s' == Sistema(K.SolicitarIO(k, cfg, i, nombre, rafaga), m)
          else Conocido(m, k.cpus[i].pid) && s' == Sistema(K.Salir(k, i), Finalizar(c, m, k.cpus[i].pid)))
    case EvSalir(i) =>
      CpuOcupada(k, i) && Conocido(m, k.cpus[i].pid) && s' == Sistema(K.Salir(k, i), Finalizar(c, m, k.cpus[i].pid))
    case EvVolcar(i, rafaga) => CpuOcupada(k, i) && s' == Sistema(K.Volcar(k, cfg, i, rafaga), m)
    case EvTemporizador(pid, sesiones) =>
      if K.SigueBloqueado(k, pid, sesiones)
      then Residente(m, pid) && |m.swap| == |m.indices|
           && s' == Sistema(K.Suspender(k, pid), Memoria.Suspender(c, m, pid))
      else s' == s
    case EvFinIO(nombre, pos) =>
      nombre in k.ios && pos < |k.ios[nombre].instancias| && k.ios[nombre].instancias[pos].pid.Algo?
      && k.ios[nombre].instancias[pos].pid.valor in k.procesos && s' == Sistema(K.FinIO(k, nombre, pos), m)
    case EvConectar(nombre) =>
      (forall i :: 0 <= i < |k.cpus| ==> k.cpus[i].nombre != nombre) && s' == Sistema(K.Conectar(k, nombre), m)
    case EvEscribir(pid, pag, desp, dato) =>
      pid in k.procesos && k.procesos[pid].estado == EXECUTE && Inv(c, m) && EnMemoria(m, pid) && desp < c.pagina
      && s' == Sistema(k, Memoria.Escribir(c, m, pid, pag, desp, dato))
  }

  /** The guards about memory above are not assumptions: in a good state each call finds what it
      needs. The "not suspended" answer of a resume, in particular, never happens. */
  lemma LlamadasValidas(c: Config, s: Sistema, pid: nat)
    requires SisInv(c, s) && pid in s.k.procesos
    ensures s.k.procesos[pid].estado == NEW <==> pid !in s.m.procesos
    ensures EsSuspendido(s.k.procesos[pid].estado) <==> EnSwap(s.m, pid)
    ensures var e := s.k.procesos[pid].estado;
            e == READY || e == EXECUTE || e == BLOCKED <==> Residente(s.m, pid)
  {
    InvVisible(c, s.m);
  }

  // ----- the agreement, step by step -----

  lemma CambioDeFase(c: Config, ps: map<nat, Pcb>, ms: map<nat, Proceso>, pid: nat, e: EstadoP, r: Proceso)
    requires ConfigValida(c) && Acuerdo(ps, ms) && Tamanios(c, ps)
    requires pid in ps && e != NEW && (r.suspendido <==> EsSuspendido(e))
    ensures var ps' := ps[pid := ps[pid].(estado := e)]; Acuerdo(ps', ms[pid := r]) && Tamanios(c, ps')
  {
  }

  lemma AcuerdoMismo(ps: map<nat, Pcb>, ms: map<nat, Proceso>, ps': map<nat, Pcb>)
    requires Acuerdo(ps, ms) && ps'.Keys == ps.Keys
    requires forall p :: p in ps ==>
               (ps'[p].estado == NEW <==> ps[p].estado == NEW)
               && (EsSuspendido(ps'[p].estado) <==> EsSuspendido(ps[p].estado))
    ensures Acuerdo(ps', ms)
  {
  }

  lemma TamaniosMismos(c: Config, ps: map<nat, Pcb>, ps': map<nat, Pcb>)
    requires ConfigValida(c) && Tamanios(c, ps)
    requires forall p :: p in ps' ==> p in ps && ps'[p].tamanio == ps[p].tamanio
    ensures Tamanios(c, ps')
  {
  }

  // ----- memory's side of each call -----

  /** A record entered or replaced, everybody's pages kept. */
  ghost predicate CambiaUno(c: Config, m: Estado, m': Estado, pid: nat, suspendido: bool)
  {
    && Inv(c, m') && BytesIguales(m, m')
    && pid in m'.procesos && m'.procesos[pid].suspendido == suspendido
    && m'.procesos == m.procesos[pid := m'.procesos[pid]]
  }

  lemma AlmacenarMem(c: Config, m: Estado, pid: nat, tamanio: nat)
    requires Inv(c, m) && pid !in m.procesos && tamanio >= 1 && Abarca(c.niveles, c.entradas, Techo(tamanio, c.pagina))
    ensures var m' := Almacenar(c, m, pid, tamanio);
            if |Libres(m.ocupados)| < Techo(tamanio, c.pagina) then m' == m else CambiaUno(c, m, m', pid, false)
  {
    AlmacenarRefina(c, m, pid, tamanio);
    AlmacenarRegistro(c, m, pid, tamanio);
  }

  lemma AlmacenarRegistro(c: Config, m: Estado, pid: nat, tamanio: nat)
    requires ConfigValida(c) && tamanio >= 1
    ensures var m' := Almacenar(c, m, pid, tamanio);
            if |Libres(m.ocupados)| < Techo(tamanio, c.pagina) then m' == m
            else pid in m'.procesos && !m'.procesos[pid].suspendido
                 && m'.procesos == m.procesos[pid := m'.procesos[pid]]
  {
    TechoUmbral(tamanio, c.pagina, 0);
    MarcosBuscados(m.ocupados, Techo(tamanio, c.pagina));
  }

  lemma ReanudarMem(c: Config, m: Estado, pid: nat)
    requires Inv(c, m) && EnSwap(m, pid)
    ensures var m' := Reanudar(c, m, pid);
            if |Libres(m.ocupados)| < m.procesos[pid].cantidad then m' == m else CambiaUno(c, m, m', pid, false)
  {
    ReanudarRefina(c, m, pid);
    ReanudarRegistro(c, m, pid);
  }

  lemma ReanudarRegistro(c: Config, m: Estado, pid: nat)
    requires Inv(c, m) && EnSwap(m, pid)
    ensures var m' := Reanudar(c, m, pid);
            if |Libres(m.ocupados)| < m.procesos[pid].cantidad then m' == m
            else pid in m'.procesos && !m'.procesos[pid].suspendido
                 && m'.procesos == m.procesos[pid := m'.procesos[pid]]
  {
    assert ProcesoBien(c, m.procesos[pid]);
    MarcosBuscados(m.ocupados, m.procesos[pid].cantidad);
  }

  lemma SuspenderMem(c: Config, m: Estado, pid: nat)
    requires Inv(c, m) && Residente(m, pid)
    ensures |m.swap| == |m.indices| && CambiaUno(c, m, Memoria.Suspender(c, m, pid), pid, true)
  {
    SuspenderRefina(c, m, pid);
  }

  lemma FinalizarMem(c: Config, m: Estado, pid: nat)
    requires Inv(c, m) && Conocido(m, pid)
    ensures var m' := Finalizar(c, m, pid); Inv(c, m') && BytesIguales(m, m') && m'.procesos == m.procesos - {pid}
  {
    FinalizarRefina(c, m, pid);
    FinalizarRegistro(c, m, pid);
    SinUnoIguales(m, Finalizar(c, m, pid), pid);
  }

  lemma FinalizarRegistro(c: Config, m: Estado, pid: nat)
    requires Conocido(m, pid)
    ensures Finalizar(c, m, pid).procesos == m.procesos - {pid}
  {
  }

  lemma SinUnoIguales(m: Estado, m': Estado, pid: nat)
    requires TodosVisibles(m) && TodosVisibles(m') && Abs(m') == Abs(m) - {pid}
    ensures BytesIguales(m, m')
  {
  }

  // ----- each step -----

  /** The same processes of the same sizes, none crossing into or out of NEW or a suspended state. */
  ghost predicate MismasFases(ps: map<nat, Pcb>, ps': map<nat, Pcb>)
  {
    && ps'.Keys == ps.Keys
    && forall p :: p in ps ==>
         && ps'[p].tamanio == ps[p].tamanio
         && (ps'[p].estado == NEW <==> ps[p].estado == NEW)
         && (EsSuspendido(ps'[p].estado) <==> EsSuspendido(ps[p].estado))
  }

  /** One process changes state, within its phase. */
  lemma FasesUno(ps: map<nat, Pcb>, ps': map<nat, Pcb>, pid: nat)
    requires pid in ps && ps'.Keys == ps.Keys && forall p :: p in ps ==> ps'[p].tamanio == ps[p].tamanio
    requires forall p :: p in ps && p != pid ==> ps'[p].estado == ps[p].estado
    requires ps[pid].estado != NEW && ps'[pid].estado != NEW
    requires EsSuspendido(ps'[pid].estado) <==> EsSuspendido(ps[pid].estado)
    ensures MismasFases(ps, ps')
  {
  }

  lemma FasesCambio(ps: map<nat, Pcb>, pid: nat, e: EstadoP)
    requires pid in ps && ps[pid].estado != NEW && e != NEW && (EsSuspendido(e) <==> EsSuspendido(ps[pid].estado))
    ensures MismasFases(ps, ps[pid := ps[pid].(estado := e)])
  {
  }

  lemma MemoriaIgual(c: Config, s: Sistema, k': Kernel)
    requires SisInv(c, s) && K.KInv(k') && MismasFases(s.k.procesos, k'.procesos)
    ensures SisInv(c, Sistema(k', s.m))
  {
    AcuerdoMismo(s.k.procesos, s.m.procesos, k'.procesos);
    TamaniosMismos(c, s.k.procesos, k'.procesos);
  }

  lemma OrdenEsPermutacion(cfg: ConfigK, ps: map<nat, Pcb>, q: seq<nat>, orden: seq<nat>)
    requires K.OrdenAdmision(cfg, ps, q, orden) || K.OrdenDespacho(cfg, ps, q, orden)
    ensures multiset(orden) == multiset(q)
  {
  }

  lemma CrearConjunto(c: Config, cfg: ConfigK, s: Sistema, tam: nat, orden: seq<nat>)
    requires SisInv(c, s) && tam >= 1 && Abarca(c.niveles, c.entradas, Techo(tam, c.pagina))
    requires multiset(orden) == multiset(s.k.colas.nuevos + [s.k.proximoPid])
    ensures SisInv(c, Sistema(K.Crear(s.k, cfg, tam, orden), s.m)) && BytesIguales(s.m, s.m)
  {
    KI.CrearBien(s.k, cfg, tam, orden);
    InvVisible(c, s.m);
    assert s.k.proximoPid !in s.k.procesos;
  }

  lemma AdmitirKernel(k: Kernel, de: EstadoP, orden: seq<nat>, exito: bool)
    requires K.KInv(k) && (de == NEW || de == SUSP_READY) && orden != [] && multiset(orden) == multiset(k.colas.De(de))
    ensures K.KInv(K.Admitir(k, de, orden, exito))
    ensures orden[0] in k.procesos && k.procesos[orden[0]].estado == de
    ensures K.Admitir(k, de, orden, exito).procesos
         == if exito then k.procesos[orden[0] := k.procesos[orden[0]].(estado := READY)] else k.procesos
  {
    KI.AdmitirBien(k, de, orden, exito);
    K.ReordenarBien(k, de, orden);
    if exito { KI.MoverAReady(K.Reordenar(k, de, orden), orden[0], de); }
  }

  /** The kernel moves one process to READY when memory brings it in, and neither changes otherwise. */
  lemma AdmisionConjunta(c: Config, s: Sistema, s': Sistema, pid: nat, exito: bool)
    requires SisInv(c, s) && K.KInv(s'.k) && pid in s.k.procesos
    requires s'.k.procesos == if exito then s.k.procesos[pid := s.k.procesos[pid].(estado := READY)] else s.k.procesos
    requires if exito then CambiaUno(c, s.m, s'.m, pid, false) else s'.m == s.m
    ensures SisInv(c, s') && BytesIguales(s.m, s'.m)
  {
    InvVisible(c, s.m);
    if exito { CambioDeFase(c, s.k.procesos, s.m.procesos, pid, READY, s'.m.procesos[pid]); }
  }

  lemma PasoAdmitirNuevo(c: Config, s: Sistema, orden: seq<nat>, s': Sistema)
    requires SisInv(c, s) && orden != [] && multiset(orden) == multiset(s.k.colas.nuevos)
    requires orden[0] in s.k.procesos
    requires var (m', exito) := Iniciar(c, s.m, orden[0], s.k.procesos[orden[0]].tamanio);
             s' == Sistema(K.Admitir(s.k, NEW, orden, exito), m')
    ensures SisInv(c, s') && BytesIguales(s.m, s'.m)
  {
    var pid := orden[0];
    var (m', exito) := Iniciar(c, s.m, pid, s.k.procesos[pid].tamanio);
    AdmitirKernel(s.k, NEW, orden, exito);
    LlamadasValidas(c, s, pid);
    AlmacenarMem(c, s.m, pid, s.k.procesos[pid].tamanio);
    AdmisionConjunta(c, s, s', pid, exito);
  }

  lemma PasoAdmitirSusp(c: Config, s: Sistema, orden: seq<nat>, s': Sistema)
    requires SisInv(c, s) && orden != [] && multiset(orden) == multiset(s.k.colas.suspListos)
    requires EnSwap(s.m, orden[0])
    requires s' == Sistema(K.Admitir(s.k, SUSP_READY, orden, |Libres(s.m.ocupados)| >= s.m.procesos[orden[0]].cantidad),
                           Reanudar(c, s.m, orden[0]))
    ensures SisInv(c, s') && BytesIguales(s.m, s'.m)
  {
    var exito := |Libres(s.m.ocupados)| >= s.m.procesos[orden[0]].cantidad;
    AdmitirSuspPartes(c, s.k, s.m, orden, exito);
    AdmisionConjunta(c, s, s', orden[0], exito);
  }

  lemma AdmitirSuspPartes(c: Config, k: Kernel, m: Estado, orden: seq<nat>, exito: bool)
    requires K.KInv(k) && Inv(c, m) && orden != [] && multiset(orden) == multiset(k.colas.suspListos)
    requires EnSwap(m, orden[0]) && (exito <==> |Libres(m.ocupados)| >= m.procesos[orden[0]].cantidad)
    ensures var k', m', pid := K.Admitir(k, SUSP_READY, orden, exito), Reanudar(c, m, orden[0]), orden[0];
            && K.KInv(k') && pid in k.procesos
            && k'.procesos == (if exito then k.procesos[pid := k.procesos[pid].(estado := READY)] else k.procesos)
            && (if exito then CambiaUno(c, m, m', pid, false) else m' == m)
  {
    AdmitirKernel(k, SUSP_READY, orden, exito);
    ReanudarMem(c, m, orden[0]);
  }

  lemma DespacharFases(k: Kernel, orden: seq<nat>)
    requires K.KInv(k) && k.tomados == 2 && orden != [] && multiset(orden) == multiset(k.colas.listos)
    ensures MismasFases(k.procesos, K.Despachar(k, orden).procesos)
  {
    KI.DespacharBien(k, orden);
    FasesCambio(k.procesos, orden[0], EXECUTE);
  }

  lemma PasoEspera(c: Config, s: Sistema)
    requires SisInv(c, s)
    ensures s.k.tomados == 0 && s.k.semCpus > 0 ==> SisInv(c, Sistema(K.EsperarCpu(s.k), s.m))
    ensures s.k.tomados == 1 && s.k.semReady > 0 ==> SisInv(c, Sistema(K.EsperarReady(s.k), s.m))
  {
  }

  lemma PasoConectar(c: Config, s: Sistema, nombre: string)
    requires SisInv(c, s) && forall i :: 0 <= i < |s.k.cpus| ==> s.k.cpus[i].nombre != nombre
    ensures SisInv(c, Sistema(K.Conectar(s.k, nombre), s.m))
  {
    KI.ConectarBien(s.k, nombre);
  }

  lemma PasoSalir(c: Config, s: Sistema, i: nat)
    requires SisInv(c, s) && CpuOcupada(s.k, i) && Conocido(s.m, s.k.cpus[i].pid)
    ensures var s' := Sistema(K.Salir(s.k, i), Finalizar(c, s.m, s.k.cpus[i].pid));
            SisInv(c, s') && BytesIguales(s.m, s'.m)
  {
    KI.SalirBien(s.k, i);
    FinalizarMem(c, s.m, s.k.cpus[i].pid);
    SalirProcesos(s.k, i);
    TamaniosMismos(c, s.k.procesos, s.k.procesos - {s.k.cpus[i].pid});
  }

  lemma SalirProcesos(k: Kernel, i: nat)
    requires CpuOcupada(k, i)
    ensures K.Salir(k, i).procesos == k.procesos - {k.cpus[i].pid}
  {
  }

  /** Blocking keeps sizes. */
  lemma BloquearTamanios(k: Kernel, cfg: ConfigK, i: nat, rafaga: real)
    requires CpuOcupada(k, i)
    ensures var v := K.Bloquear(k, cfg, i, rafaga);
            && v.procesos.Keys == k.procesos.Keys
            && forall p :: p in k.procesos ==> v.procesos[p].tamanio == k.procesos[p].tamanio
  {
  }

  /** What blocking asks of the process on CPU i. */
  predicate Ejecuta(k: Kernel, i: nat)
  {
    CpuOcupada(k, i) && k.procesos[k.cpus[i].pid].estado == EXECUTE
  }

  lemma BloquearFases(k: Kernel, cfg: ConfigK, i: nat, rafaga: real)
    requires Particionada(k.colas, k.procesos) && Ejecuta(k, i)
    ensures MismasFases(k.procesos, K.Bloquear(k, cfg, i, rafaga).procesos)
  {
    KI.BloquearEs(k, cfg, i, rafaga);
    BloquearTamanios(k, cfg, i, rafaga);
    FasesUno(k.procesos, K.Bloquear(k, cfg, i, rafaga).procesos, k.cpus[i].pid);
  }

  lemma PedirFases(k: Kernel, cfg: ConfigK, i: nat, nombre: string, rafaga: real)
    requires Particionada(k.colas, k.procesos) && Ejecuta(k, i) && DispositivoExiste(k, nombre)
    ensures MismasFases(k.procesos, K.SolicitarIO(k, cfg, i, nombre, rafaga).procesos)
  {
    var k1 := KI.ConPedido(k, k.cpus[i].pid, nombre);
    assert K.SolicitarIO(k, cfg, i, nombre, rafaga) == K.Bloquear(k1, cfg, i, rafaga);
    BloquearFases(k1, cfg, i, rafaga);
  }

  lemma VolcarFases(k: Kernel, cfg: ConfigK, i: nat, rafaga: real)
    requires Particionada(k.colas, k.procesos) && Ejecuta(k, i)
    ensures MismasFases(k.procesos, K.Volcar(k, cfg, i, rafaga).procesos)
  {
    var k1 := K.Bloquear(k, cfg, i, rafaga);
    KI.VolcarEstados(k, cfg, i, rafaga, k1);
    KI.VolcarDef(k, cfg, i, rafaga, k1);
    VolcarTamanios(k, cfg, i, rafaga);
    FasesUno(k.procesos, K.Volcar(k, cfg, i, rafaga).procesos, k.cpus[i].pid);
  }

  lemma VolcarTamanios(k: Kernel, cfg: ConfigK, i: nat, rafaga: real)
    requires CpuOcupada(k, i)
    ensures var v := K.Volcar(k, cfg, i, rafaga);
            && v.procesos.Keys == k.procesos.Keys
            && forall p :: p in k.procesos ==> v.procesos[p].tamanio == k.procesos[p].tamanio
  {
    BloquearTamanios(k, cfg, i, rafaga);
    KI.VolcarDef(k, cfg, i, rafaga, K.Bloquear(k, cfg, i, rafaga));
  }

  lemma SuspenderKernel(k: Kernel, pid: nat)
    requires K.KInv(k) && pid in k.procesos && k.procesos[pid].estado == BLOCKED
    ensures K.KInv(K.Suspender(k, pid))
    ensures K.Suspender(k, pid).procesos == k.procesos[pid := k.procesos[pid].(estado := SUSP_BLOCKED)]
  {
    KI.SuspenderBien(k, pid);
  }

  lemma PasoSuspender(c: Config, s: Sistema, pid: nat, s': Sistema)
    requires SisInv(c, s) && pid in s.k.procesos && s.k.procesos[pid].estado == BLOCKED && Residente(s.m, pid)
    requires |s.m.swap| == |s.m.indices| && s' == Sistema(K.Suspender(s.k, pid), Memoria.Suspender(c, s.m, pid))
    ensures SisInv(c, s') && BytesIguales(s.m, s'.m)
  {
    SuspenderKernel(s.k, pid);
    SuspenderMem(c, s.m, pid);
    CambioDeFase(c, s.k.procesos, s.m.procesos, pid, SUSP_BLOCKED, s'.m.procesos[pid]);
  }

  lemma FinIOFases(k: Kernel, nombre: string, pos: nat, pid: nat)
    requires Particionada(k.colas, k.procesos) && nombre in k.ios && pos < |k.ios[nombre].instancias|
    requires k.ios[nombre].instancias[pos].pid == Algo(pid) && pid in k.procesos
    requires k.procesos[pid].estado == BLOCKED || k.procesos[pid].estado == SUSP_BLOCKED
    ensures MismasFases(k.procesos, K.FinIO(k, nombre, pos).procesos)
  {
    KI.FinIOEs(k, nombre, pos, pid);
    FasesCambio(k.procesos, pid, if k.procesos[pid].estado == BLOCKED then READY else SUSP_READY);
  }

  /** A user write by its executing process: the others' pages stay as they were. */
  lemma PasoEscribir(c: Config, s: Sistema, pid: nat, pag: nat, desp: nat, dato: seq<byte>)
    requires SisInv(c, s) && EnMemoria(s.m, pid) && desp < c.pagina
    ensures var s' := Sistema(s.k, Memoria.Escribir(c, s.m, pid, pag, desp, dato));
            && SisInv(c, s') && TodosVisibles(s.m) && TodosVisibles(s'.m) && s'.m.procesos == s.m.procesos
            && forall q :: q in s.m.procesos && q != pid ==> Abs(s'.m)[q] == Abs(s.m)[q]
  {
    EscribirRefina(c, s.m, pid, pag, desp, dato);
  }

  /** The steps of a process on its CPU. */
  lemma PasoDeCpu(c: Config, cfg: ConfigK, s: Sistema, ev: Evento, s': Sistema)
    requires SisInv(c, s) && Paso(c, cfg, s, ev, s') && (ev.EvIO? || ev.EvSalir? || ev.EvVolcar?)
    ensures SisInv(c, s') && BytesIguales(s.m, s'.m)
  {
    InvVisible(c, s.m);
    KI.EnCpuEjecuta(s.k, ev.cpu);
    match ev {
      case EvIO(i, nombre, rafaga) =>
        if DispositivoExiste(s.k, nombre) {
          KI.SolicitarIOBien(s.k, cfg, i, nombre, rafaga);
          PedirFases(s.k, cfg, i, nombre, rafaga);
          MemoriaIgual(c, s, s'.k);
        } else {
          PasoSalir(c, s, i);
        }
      case EvSalir(i) => PasoSalir(c, s, i);
      case EvVolcar(i, rafaga) =>
        KI.VolcarBien(s.k, cfg, i, rafaga);
        VolcarFases(s.k, cfg, i, rafaga);
        MemoriaIgual(c, s, s'.k);
    }
  }

  lemma PasoDelKernel(c: Config, cfg: ConfigK, s: Sistema, ev: Evento, s': Sistema)
    requires SisInv(c, s) && Paso(c, cfg, s, ev, s') && (ev.EvDespachar? || ev.EvFinIO?)
    ensures SisInv(c, s') && BytesIguales(s.m, s'.m)
  {
    InvVisible(c, s.m);
    match ev {
      case EvDespachar(orden) =>
        OrdenEsPermutacion(cfg, s.k.procesos, s.k.colas.listos, orden);
        KI.DespacharBien(s.k, orden);
        DespacharFases(s.k, orden);
      case EvFinIO(nombre, pos) =>
        KI.FinIOBien(s.k, nombre, pos, s.k.ios[nombre].instancias[pos].pid.valor);
        FinIOFases(s.k, nombre, pos, s.k.ios[nombre].instancias[pos].pid.valor);
    }
    MemoriaIgual(c, s, s'.k);
  }

  /** Every step keeps the joint invariant, and no step but a process's own writes touches its bytes. */
  lemma PasoConserva(c: Config, cfg: ConfigK, s: Sistema, ev: Evento, s': Sistema)
    requires SisInv(c, s) && Paso(c, cfg, s, ev, s')
    ensures SisInv(c, s') && TodosVisibles(s.m) && TodosVisibles(s'.m)
    ensures forall q :: q in s.m.procesos && q in s'.m.procesos && !(ev.EvEscribir? && ev.pid == q) ==>
              Abs(s'.m)[q] == Abs(s.m)[q]
  {
    InvVisible(c, s.m);
    match ev {
      case EvCrear(tam, orden) =>
        var pid := s.k.proximoPid;
        OrdenEsPermutacion(cfg, s.k.procesos[pid := Pcb(NEW, tam, cfg.estimadoInicial)], s.k.colas.nuevos + [pid],
                           orden);
        CrearConjunto(c, cfg, s, tam, orden);
      case EvAdmitirNuevo(orden) =>
        OrdenEsPermutacion(cfg, s.k.procesos, s.k.colas.nuevos, orden);
        PasoAdmitirNuevo(c, s, orden, s');
      case EvAdmitirSusp(orden) =>
        OrdenEsPermutacion(cfg, s.k.procesos, s.k.colas.suspListos, orden);
        PasoAdmitirSusp(c, s, orden, s');
      case EvEsperarCpu => PasoEspera(c, s);
      case EvEsperarReady => PasoEspera(c, s);
      case EvDespachar(_) => PasoDelKernel(c, cfg, s, ev, s');
      case EvIO(_, _, _) => PasoDeCpu(c, cfg, s, ev, s');
      case EvSalir(_) => PasoDeCpu(c, cfg, s, ev, s');
      case EvVolcar(_, _) => PasoDeCpu(c, cfg, s, ev, s');
      case EvTemporizador(pid, sesiones) => if K.SigueBloqueado(s.k, pid, sesiones) { PasoSuspender(c, s, pid, s'); }
      case EvFinIO(_, _) => PasoDelKernel(c, cfg, s, ev, s');
      case EvConectar(nombre) => PasoConectar(c, s, nombre);
      case EvEscribir(pid, pag, desp, dato) => PasoEscribir(c, s, pid, pag, desp, dato);
    }
  }

  /** What the guards say about memory is no assumption: in a good state whatever the kernel's
      queues and CPUs make it ask, memory is in the phase to answer. */
  lemma GuardasCiertas(c: Config, s: Sistema)
    requires SisInv(c, s)
    ensures forall pid :: pid in s.k.colas.nuevos ==> pid in s.k.procesos && pid !in s.m.procesos
    ensures forall pid :: pid in s.k.colas.suspListos ==> pid in s.k.procesos && EnSwap(s.m, pid)
    ensures forall i :: 0 <= i < |s.k.cpus| && !s.k.cpus[i].libre ==>
              CpuOcupada(s.k, i) && Residente(s.m, s.k.cpus[i].pid)
    ensures forall pid, n :: K.SigueBloqueado(s.k, pid, n) ==> Residente(s.m, pid)
    ensures |s.m.swap| == |s.m.indices|
  {
    forall pid | pid in s.k.colas.nuevos
      ensures pid in s.k.procesos && pid !in s.m.procesos
    {
      KI.DeLaCola(s.k, pid, NEW);
      LlamadasValidas(c, s, pid);
    }
    forall pid | pid in s.k.colas.suspListos
      ensures pid in s.k.procesos && EnSwap(s.m, pid)
    {
      KI.DeLaCola(s.k, pid, SUSP_READY);
      LlamadasValidas(c, s, pid);
    }
    forall i | 0 <= i < |s.k.cpus| && !s.k.cpus[i].libre
      ensures CpuOcupada(s.k, i) && Residente(s.m, s.k.cpus[i].pid)
    {
      KI.EnCpuEjecuta(s.k, i);
      LlamadasValidas(c, s, s.k.cpus[i].pid);
    }
    forall pid, n | K.SigueBloqueado(s.k, pid, n)
      ensures Residente(s.m, pid)
    {
      LlamadasValidas(c, s, pid);
    }
  }

  // ----- runs -----

  ghost predicate Corrida(c: Config, cfg: ConfigK, ss: seq<Sistema>, evs: seq<Evento>)
    requires ConfigValida(c)
  {
    && |ss| == |evs| + 1
    && forall i {:trigger PasoDeCorrida(c, cfg, ss, evs, i)} :: 0 <= i < |evs| ==> PasoDeCorrida(c, cfg, ss, evs, i)
  }

  ghost predicate PasoDeCorrida(c: Config, cfg: ConfigK, ss: seq<Sistema>, evs: seq<Evento>, i: int)
    requires ConfigValida(c) && |ss| == |evs| + 1 && 0 <= i < |evs|
  {
    Paso(c, cfg, ss[i], evs[i], ss[i + 1])
  }

  /** Idle devices, their instances under different names. */
  ghost predicate DispositivosNuevos(ios: map<string, Dispositivo>)
  {
    forall n :: n in ios ==>
      && ios[n].cola == [] && ios[n].llegadas == [] && ios[n].atendidos == []
      && (forall i :: 0 <= i < |ios[n].instancias| ==> ios[n].instancias[i].pid == Nada)
      && (forall i, j :: 0 <= i < j < |ios[n].instancias| ==>
          ios[n].instancias[i].nombre != ios[n].instancias[j].nombre)
  }

  function SistemaInicial(c: Config, marcos: nat, ios: map<string, Dispositivo>): Sistema
  {
    Sistema(K.KernelInicial(ios), Inicial(c, marcos))
  }

  lemma SistemaInicialBien(c: Config, marcos: nat, ios: map<string, Dispositivo>)
    requires ConfigValida(c) && DispositivosNuevos(ios)
    ensures SisInv(c, SistemaInicial(c, marcos, ios))
  {
    InicialBien(c, marcos);
    K.KernelInicialBien(ios);
  }

  /** Kernel and memory agree in every state of every run. */
  lemma {:induction false} AcuerdoSiempre(c: Config, cfg: ConfigK, marcos: nat, ios: map<string, Dispositivo>,
                                          ss: seq<Sistema>, evs: seq<Evento>, n: nat)
    requires ConfigValida(c) && DispositivosNuevos(ios) && Corrida(c, cfg, ss, evs)
    requires ss[0] == SistemaInicial(c, marcos, ios) && n <= |evs|
    ensures SisInv(c, ss[n])
  {
    if n == 0 {
      SistemaInicialBien(c, marcos, ios);
    } else {
      AcuerdoSiempre(c, cfg, marcos, ios, ss, evs, n - 1);
      assert PasoDeCorrida(c, cfg, ss, evs, n - 1);
      PasoConserva(c, cfg, ss[n - 1], evs[n - 1], ss[n]);
    }
  }

  /** A finished pid stays finished, and only finishing takes a process out of memory. */
  lemma UnaVida(c: Config, cfg: ConfigK, s: Sistema, ev: Evento, s': Sistema)
    requires ConfigValida(c) && Paso(c, cfg, s, ev, s')
    ensures s.k.finalizados <= s'.k.finalizados
    ensures forall q :: q in s.m.procesos ==> q in s'.m.procesos || q in s'.k.finalizados
  {
    match ev {
      case EvAdmitirNuevo(_) => UnaVidaAdmitido(c, cfg, s, ev, s');
      case EvAdmitirSusp(_) => UnaVidaAdmitido(c, cfg, s, ev, s');
      case EvIO(_, _, _) => UnaVidaEnCpu(c, cfg, s, ev, s');
      case EvSalir(_) => UnaVidaEnCpu(c, cfg, s, ev, s');
      case EvVolcar(_, _) => UnaVidaEnCpu(c, cfg, s, ev, s');
      case EvTemporizador(_, _) => UnaVidaMemoria(c, cfg, s, ev, s');
      case EvEscribir(_, _, _, _) => UnaVidaMemoria(c, cfg, s, ev, s');
      case _ => UnaVidaKernel(c, cfg, s, ev, s');
    }
  }

  lemma UnaVidaMemoria(c: Config, cfg: ConfigK, s: Sistema, ev: Evento, s': Sistema)
    requires ConfigValida(c) && Paso(c, cfg, s, ev, s') && (ev.EvTemporizador? || ev.EvEscribir?)
    ensures s.k.finalizados <= s'.k.finalizados
    ensures forall q :: q in s.m.procesos ==> q in s'.m.procesos || q in s'.k.finalizados
  {
  }

  lemma UnaVidaKernel(c: Config, cfg: ConfigK, s: Sistema, ev: Evento, s': Sistema)
    requires ConfigValida(c) && Paso(c, cfg, s, ev, s')
    requires ev.EvCrear? || ev.EvEsperarCpu? || ev.EvEsperarReady? || ev.EvDespachar? || ev.EvFinIO? || ev.EvConectar?
    ensures s.k.finalizados <= s'.k.finalizados
    ensures forall q :: q in s.m.procesos ==> q in s'.m.procesos || q in s'.k.finalizados
  {
  }

  lemma UnaVidaAdmitido(c: Config, cfg: ConfigK, s: Sistema, ev: Evento, s': Sistema)
    requires ConfigValida(c) && Paso(c, cfg, s, ev, s') && (ev.EvAdmitirNuevo? || ev.EvAdmitirSusp?)
    ensures s.k.finalizados <= s'.k.finalizados
    ensures forall q :: q in s.m.procesos ==> q in s'.m.procesos || q in s'.k.finalizados
  {
    match ev {
      case EvAdmitirNuevo(orden) => AlmacenarClaves(c, s.m, orden[0], s.k.procesos[orden[0]].tamanio);
      case EvAdmitirSusp(orden) => ReanudarClaves(c, s.m, orden[0]);
    }
  }

  lemma UnaVidaEnCpu(c: Config, cfg: ConfigK, s: Sistema, ev: Evento, s': Sistema)
    requires ConfigValida(c) && Paso(c, cfg, s, ev, s') && (ev.EvIO? || ev.EvSalir? || ev.EvVolcar?)
    ensures s.k.finalizados <= s'.k.finalizados
    ensures forall q :: q in s.m.procesos ==> q in s'.m.procesos || q in s'.k.finalizados
  {
    match ev {
      case EvIO(i, nombre, rafaga) =>
        if DispositivoExiste(s.k, nombre) {
          PedirFinalizados(s.k, cfg, i, nombre, rafaga);
        } else {
          FinalizarRegistro(c, s.m, s.k.cpus[i].pid);
        }
      case EvSalir(i) => FinalizarRegistro(c, s.m, s.k.cpus[i].pid);
      case EvVolcar(i, rafaga) => VolcarFinalizados(s.k, cfg, i, rafaga);
    }
  }

  lemma AlmacenarClaves(c: Config, m: Estado, pid: nat, tamanio: nat)
    requires ConfigValida(c)
    ensures m.procesos.Keys <= Almacenar(c, m, pid, tamanio).procesos.Keys
  {
  }

  lemma ReanudarClaves(c: Config, m: Estado, pid: nat)
    requires EnSwap(m, pid)
    ensures m.procesos.Keys <= Reanudar(c, m, pid).procesos.Keys
  {
  }

  lemma BloquearFinalizados(k: Kernel, cfg: ConfigK, i: nat, rafaga: real)
    requires i < |k.cpus|
    ensures K.Bloquear(k, cfg, i, rafaga).finalizados == k.finalizados
  {
  }

  lemma PedirFinalizados(k: Kernel, cfg: ConfigK, i: nat, nombre: string, rafaga: real)
    requires CpuOcupada(k, i) && DispositivoExiste(k, nombre)
    ensures K.SolicitarIO(k, cfg, i, nombre, rafaga).finalizados == k.finalizados
  {
    var k1 := KI.ConPedido(k, k.cpus[i].pid, nombre);
    assert K.SolicitarIO(k, cfg, i, nombre, rafaga) == K.Bloquear(k1, cfg, i, rafaga);
    BloquearFinalizados(k1, cfg, i, rafaga);
  }

  lemma VolcarFinalizados(k: Kernel, cfg: ConfigK, i: nat, rafaga: real)
    requires CpuOcupada(k, i)
    ensures K.Volcar(k, cfg, i, rafaga).finalizados == k.finalizados
  {
    BloquearFinalizados(k, cfg, i, rafaga);
    KI.VolcarDef(k, cfg, i, rafaga, K.Bloquear(k, cfg, i, rafaga));
  }

  /** What a process has in memory, if anything. */
  function Vista(m: Estado, q: nat): Opcion<seq<Pagina>>
  {
    if q in m.procesos && Visible(m, m.procesos[q]) then Algo(Paginas(m, m.procesos[q])) else Nada
  }

  lemma VistaIgual(c: Config, cfg: ConfigK, s: Sistema, ev: Evento, s': Sistema, q: nat)
    requires SisInv(c, s) && Paso(c, cfg, s, ev, s') && q in s.m.procesos && q in s'.m.procesos
    requires !(ev.EvEscribir? && ev.pid == q)
    ensures Vista(s.m, q).Algo? && Vista(s'.m, q) == Vista(s.m, q)
  {
    PasoConserva(c, cfg, s, ev, s');
    VistaEsAbs(s.m, q);
    VistaEsAbs(s'.m, q);
  }

  lemma VistaEsAbs(m: Estado, q: nat)
    requires TodosVisibles(m) && q in m.procesos
    ensures Vista(m, q) == Algo(Abs(m)[q])
  {
  }

  lemma {:induction false} SigueVivo(c: Config, cfg: ConfigK, ss: seq<Sistema>, evs: seq<Evento>, i: nat, j: nat,
                                     q: nat)
    requires ConfigValida(c) && Corrida(c, cfg, ss, evs) && i <= j <= |evs| && q in ss[i].m.procesos
    ensures q in ss[j].m.procesos || q in ss[j].k.finalizados
    decreases j
  {
    if i < j {
      SigueVivo(c, cfg, ss, evs, i, j - 1, q);
      assert PasoDeCorrida(c, cfg, ss, evs, j - 1);
      UnaVida(c, cfg, ss[j - 1], evs[j - 1], ss[j]);
    }
  }

  /** In memory at both ends of a stretch, in memory all along it. */
  lemma VivoEnMedio(c: Config, cfg: ConfigK, ss: seq<Sistema>, evs: seq<Evento>, i: nat, k: nat, j: nat, q: nat)
    requires ConfigValida(c) && Corrida(c, cfg, ss, evs) && i <= k <= j <= |evs|
    requires q in ss[i].m.procesos && q !in ss[j].k.finalizados
    ensures q in ss[k].m.procesos
  {
    SigueVivo(c, cfg, ss, evs, i, k, q);
    if q in ss[k].k.finalizados { FinalizadosCrecen(c, cfg, ss, evs, k, j, q); }
  }

  lemma VistaUnaMas(c: Config, cfg: ConfigK, marcos: nat, ios: map<string, Dispositivo>,
                    ss: seq<Sistema>, evs: seq<Evento>, k: nat, q: nat)
    requires ConfigValida(c) && DispositivosNuevos(ios) && Corrida(c, cfg, ss, evs)
    requires ss[0] == SistemaInicial(c, marcos, ios) && k < |evs| && !(evs[k].EvEscribir? && evs[k].pid == q)
    requires q in ss[k].m.procesos && q in ss[k + 1].m.procesos
    ensures Vista(ss[k].m, q).Algo? && Vista(ss[k + 1].m, q) == Vista(ss[k].m, q)
  {
    AcuerdoSiempre(c, cfg, marcos, ios, ss, evs, k);
    assert PasoDeCorrida(c, cfg, ss, evs, k);
    VistaIgual(c, cfg, ss[k], evs[k], ss[k + 1], q);
  }

  /** The bytes of a process across scheduling, suspension, IO and everybody else's life: if it
      is in memory at both ends and did not write in between, it has the same pages. */
  lemma {:induction false} BytesPrivados(c: Config, cfg: ConfigK, marcos: nat, ios: map<string, Dispositivo>,
                                         ss: seq<Sistema>, evs: seq<Evento>, i: nat, j: nat, q: nat)
    requires ConfigValida(c) && DispositivosNuevos(ios) && Corrida(c, cfg, ss, evs)
    requires ss[0] == SistemaInicial(c, marcos, ios) && i <= j <= |evs|
    requires q in ss[i].m.procesos && q in ss[j].m.procesos
    requires forall k :: i <= k < j ==> !(evs[k].EvEscribir? && evs[k].pid == q)
    ensures Vista(ss[i].m, q).Algo? && Vista(ss[j].m, q) == Vista(ss[i].m, q)
    decreases j
  {
    MemoriaSinFinalizados(c, cfg, marcos, ios, ss, evs, j, q);
    if i < j {
      VivoEnMedio(c, cfg, ss, evs, i, j - 1, j, q);
      BytesPrivados(c, cfg, marcos, ios, ss, evs, i, j - 1, q);
      VistaUnaMas(c, cfg, marcos, ios, ss, evs, j - 1, q);
    }
  }

  lemma MemoriaSinFinalizados(c: Config, cfg: ConfigK, marcos: nat, ios: map<string, Dispositivo>,
                              ss: seq<Sistema>, evs: seq<Evento>, j: nat, q: nat)
    requires ConfigValida(c) && DispositivosNuevos(ios) && Corrida(c, cfg, ss, evs)
    requires ss[0] == SistemaInicial(c, marcos, ios) && j <= |evs| && q in ss[j].m.procesos
    ensures q !in ss[j].k.finalizados && Vista(ss[j].m, q).Algo?
  {
    AcuerdoSiempre(c, cfg, marcos, ios, ss, evs, j);
    InvVisible(c, ss[j].m);
  }

  lemma {:induction false} FinalizadosCrecen(c: Config, cfg: ConfigK, ss: seq<Sistema>, evs: seq<Evento>, i: nat,
                                             j: nat, q: nat)
    requires ConfigValida(c) && Corrida(c, cfg, ss, evs) && i <= j <= |evs| && q in ss[i].k.finalizados
    ensures q in ss[j].k.finalizados
    decreases j
  {
    if i < j {
      FinalizadosCrecen(c, cfg, ss, evs, i, j - 1, q);
      assert PasoDeCorrida(c, cfg, ss, evs, j - 1);
      UnaVida(c, cfg, ss[j - 1], evs[j - 1], ss[j]);
    }
  }
}
