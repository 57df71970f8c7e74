/** The kernel's steps, and what every one of them keeps: the queue partition, the semaphore
    counts, the CPUs of executing processes and the devices of blocked ones. */
module KernelPasos {
  import opened Secuencias
  import opened Multisuma
  import opened Kernel
  import opened Rafagas

  // ----- steps -----

  /** The order a queue is left in before its head is taken: any order by size under
      smallest-first admission, untouched otherwise. */
  ghost predicate OrdenAdmision(cfg: ConfigK, ps: map<nat, Pcb>, q: seq<nat>, orden: seq<nat>)
  {
    if cfg.pmcp then
      && multiset(orden) == multiset(q)
      && (forall i :: 0 <= i < |orden| ==> orden[i] in ps)
      && (forall i, j :: 0 <= i < j < |orden| ==> ps[orden[i]].tamanio <= ps[orden[j]].tamanio)
    else orden == q
  }

  /** The ready queue by estimate under SJF, untouched under FIFO. */
  ghost predicate OrdenDespacho(cfg: ConfigK, ps: map<nat, Pcb>, q: seq<nat>, orden: seq<nat>)
  {
    if cfg.sjf then
      && multiset(orden) == multiset(q)
      && (forall i :: 0 <= i < |orden| ==> orden[i] in ps)
      && (forall i, j :: 0 <= i < j < |orden| ==> ps[orden[i]].estimado <= ps[orden[j]].estimado)
    else orden == q
  }

  function Reordenar(k: Kernel, e: EstadoP, orden: seq<nat>): Kernel
  {
    k.(colas := k.colas.Con(e, orden))
  }

  /** CrearProcesoNuevo: a fresh pid at the end of NEW, then NEW ordered. */
  function Crear(k: Kernel, cfg: ConfigK, tamanio: nat, orden: seq<nat>): Kernel
  {
    var pid := k.proximoPid;
    Reordenar(k, NEW, orden).(procesos := k.procesos[pid := Pcb(NEW, tamanio, cfg.estimadoInicial)],
                              proximoPid := pid + 1)
  }

  /** One turn of pasar_desde_new or pasar_desde_susp_ready: the head goes to READY if memory took it. */
  function Admitir(k: Kernel, de: EstadoP, orden: seq<nat>, exito: bool): Kernel
    requires orden != []
  {
    var k1 := Reordenar(k, de, orden);
    if !exito then k1
    else
      var k2 := Transicion(k1, orden[0], de, READY).0;
      k2.(semReady := k2.semReady + 1)
  }

  function EsperarCpu(k: Kernel): Kernel
    requires k.semCpus > 0
  {
    k.(semCpus := k.semCpus - 1, tomados := 1)
  }

  function EsperarReady(k: Kernel): Kernel
    requires k.semReady > 0
  {
    k.(semReady := k.semReady - 1, tomados := 2)
  }

  /** ejecutarUnProceso: a free CPU and the head of READY; without a CPU the turn is lost. */
  function Despachar(k: Kernel, orden: seq<nat>): Kernel
    requires orden != []
  {
    var i := PrimeraLibre(k.cpus, 0);
    if i == |k.cpus| then k.(tomados := 0)
    else
      var pid := orden[0];
      var k1 := Reordenar(k, READY, orden).(cpus := k.cpus[i := k.cpus[i].(libre := false, pid := pid)], tomados := 0);
      Transicion(k1, pid, READY, EXECUTE).0
  }

  /** The estimate after a burst, kept by every algorithm but FIFO. */
  function Estimar(k: Kernel, cfg: ConfigK, pid: nat, rafaga: real): Kernel
  {
    if cfg.sjf && pid in k.procesos then
      var previo := k.procesos[pid].estimado;
      k.(procesos := k.procesos[pid := k.procesos[pid].(estimado := Actualizada(cfg.alpha, rafaga, previo))])
    else k
  }

  function Sesiones(k: Kernel, pid: nat): nat
  {
    if pid in k.sesiones then k.sesiones[pid] else 0
  }

  /** Leaving EXECUTE for BLOCKED, the estimate renewed and the CPU given back. */
  function Bloquear(k: Kernel, cfg: ConfigK, i: nat, rafaga: real): Kernel
    requires i < |k.cpus|
  {
    var k1 := Transicion(k, k.cpus[i].pid, EXECUTE, BLOCKED).0;
    LiberarCpu(Estimar(k1, cfg, k.cpus[i].pid, rafaga), i)
  }

  /** manejarEXIT, and the end of a process that asks for a device nobody has. */
  function Salir(k: Kernel, i: nat): Kernel
    requires i < |k.cpus| && k.cpus[i].pid in k.procesos
  {
    LiberarCpu(Quitar(k, k.cpus[i].pid), i)
  }

  /** manejarIO for the process on CPU i. */
  function SolicitarIO(k: Kernel, cfg: ConfigK, i: nat, nombre: string, rafaga: real): Kernel
    requires i < |k.cpus| && k.cpus[i].pid in k.procesos
  {
    var pid := k.cpus[i].pid;
    if nombre !in k.ios || k.ios[nombre].instancias == [] then Salir(k, i)
    else
      var d := k.ios[nombre];
      var servido := InstanciaLibre(d.instancias, 0) < |d.instancias|;
      Bloquear(k.(ios := k.ios[nombre := PedirIO(d, pid)],
                  sesiones := if servido then k.sesiones[pid := Sesiones(k, pid) + 1] else k.sesiones), cfg, i, rafaga)
  }

  /** manejarDUMP_MEMORY when the dump succeeds: blocked for its length, then ready again. */
  function Volcar(k: Kernel, cfg: ConfigK, i: nat, rafaga: real): Kernel
    requires i < |k.cpus|
  {
    var k1 := Bloquear(k, cfg, i, rafaga);
    var k2 := Transicion(k1, k.cpus[i].pid, BLOCKED, READY).0;
    k2.(semReady := k2.semReady + 1)
  }

  /** Whether a suspension timer set when the count was `sesiones` still applies. */
  predicate SigueBloqueado(k: Kernel, pid: nat, sesiones: nat)
  {
    pid in k.procesos && Sesiones(k, pid) == sesiones && k.procesos[pid].estado == BLOCKED
  }

  function Suspender(k: Kernel, pid: nat): Kernel
  {
    Transicion(k, pid, BLOCKED, SUSP_BLOCKED).0
  }

  /** The queue move of manejarFinIO: to SUSP_READY from swap, to READY otherwise. */
  function Desbloquear(k: Kernel, pid: nat): Kernel
    requires pid in k.procesos
  {
    if k.procesos[pid].estado == SUSP_BLOCKED then Transicion(k, pid, SUSP_BLOCKED, SUSP_READY).0
    else if k.procesos[pid].estado == BLOCKED then
      var t := Transicion(k, pid, BLOCKED, READY).0;
      t.(semReady := t.semReady + 1)
    else k
  }

  /** The instance goes on to whoever waits first, whose session begins. */
  function Entregar(k: Kernel, nombre: string, pos: nat): Kernel
    requires nombre in k.ios && pos < |k.ios[nombre].instancias|
  {
    var d := k.ios[nombre];
    k.(ios := k.ios[nombre := TerminarIO(d, pos)],
       sesiones := if d.cola == [] then k.sesiones else k.sesiones[d.cola[0] := Sesiones(k, d.cola[0]) + 1])
  }

  lemma DesbloquearIos(k: Kernel, pid: nat)
    requires pid in k.procesos
    ensures Desbloquear(k, pid).ios == k.ios
  {
  }

  /** manejarFinIO for the process an instance is serving. */
  function FinIO(k: Kernel, nombre: string, pos: nat): Kernel
    requires nombre in k.ios && pos < |k.ios[nombre].instancias| && k.ios[nombre].instancias[pos].pid.Algo?
    requires k.ios[nombre].instancias[pos].pid.valor in k.procesos
  {
    var pid := k.ios[nombre].instancias[pos].pid.valor;
    DesbloquearIos(k, pid);
    Entregar(Desbloquear(k, pid), nombre, pos)
  }

  function Conectar(k: Kernel, nombre: string): Kernel
  {
    k.(cpus := k.cpus + [CpuK(nombre, true, 0)], semCpus := k.semCpus + 1)
  }

  // ----- the invariant -----

  ghost predicate PidsBien(k: Kernel)
  {
    && (forall pid :: pid in k.procesos ==> pid < k.proximoPid && pid !in k.finalizados)
    && (forall pid: nat :: pid < k.proximoPid ==> pid in k.procesos || pid in k.finalizados)
    && (forall pid :: pid in k.finalizados ==> pid < k.proximoPid)
  }

  /** Tokens and the planner's share account for every free CPU and every ready process; busy
      CPUs run exactly the executing processes, one each. */
  ghost predicate CpusBien(k: Kernel)
  {
    && k.tomados <= 2
    && k.semCpus + (if k.tomados >= 1 then 1 else 0) == CpusLibres(k.cpus)
    && k.semReady + (if k.tomados == 2 then 1 else 0) == |k.colas.listos|
    && EnCpus(k.cpus) == multiset(k.colas.ejecutando)
    && (forall i, j :: 0 <= i < j < |k.cpus| ==> k.cpus[i].nombre != k.cpus[j].nombre)
  }

  /** Blocked processes, suspended or not, are exactly those at some device, each once. */
  ghost predicate IoBien(k: Kernel)
  {
    && (forall n :: n in k.ios ==> DispositivoBien(k.ios[n]))
    && Suma(PorDispositivo(k.ios)) == multiset(k.colas.bloqueados) + multiset(k.colas.suspBloqueados)
  }

  ghost predicate KInv(k: Kernel)
  {
    Particionada(k.colas, k.procesos) && PidsBien(k) && CpusBien(k) && IoBien(k)
  }

  function KernelInicial(ios: map<string, Dispositivo>): Kernel
  {
    Kernel(Colas([], [], [], [], [], []), map[], 0, {}, [], 0, 0, 0, ios, map[])
  }

  lemma KernelInicialBien(ios: map<string, Dispositivo>)
    requires forall n :: n in ios ==> DispositivoBien(ios[n]) && ios[n].cola == []
    requires forall n :: n in ios ==> forall i :: 0 <= i < |ios[n].instancias| ==> ios[n].instancias[i].pid == Nada
    ensures KInv(KernelInicial(ios))
  {
    NadieEnDispositivos(ios);
    assert Particionada(Colas([], [], [], [], [], []), map[]) by {
      assert forall e :: Colas([], [], [], [], [], []).De(e) == [];
    }
  }

  lemma NadieEnDispositivos(ios: map<string, Dispositivo>)
    requires forall n :: n in ios ==> ios[n].cola == []
    requires forall n :: n in ios ==> forall i :: 0 <= i < |ios[n].instancias| ==> ios[n].instancias[i].pid == Nada
    ensures Suma(PorDispositivo(ios)) == multiset{}
  {
    forall n | n in ios
      ensures EnDispositivo(ios[n]) == multiset{}
    {
      SinServidos(ios[n].instancias);
    }
    SumaVacia(PorDispositivo(ios));
  }

  lemma {:induction false} SinServidos(inst: seq<Instancia>)
    requires forall i :: 0 <= i < |inst| ==> inst[i].pid == Nada
    ensures EnInstancias(inst) == multiset{}
  {
    if inst != [] {
      SinServidos(inst[..|inst| - 1]);
      assert inst[|inst| - 1].pid == Nada;
    }
  }

  // ----- reordering -----

  lemma {:induction false} UnaVez<T>(s: seq<T>)
    ensures SinRepetidos(s) <==> forall x :: multiset(s)[x] <= 1
  {
    if s != [] {
      var t, x := s[..|s| - 1], s[|s| - 1];
      UnaVez(t);
      assert s == t + [x];
      assert multiset(s) == multiset(t) + multiset{x};
      if SinRepetidos(s) {
        assert SinRepetidos(t) && x !in t;
        assert forall y :: multiset(s)[y] == multiset(t)[y] + if y == x then 1 else 0;
      } else if forall y :: multiset(s)[y] <= 1 {
        assert forall y :: multiset(t)[y] <= multiset(s)[y];
        assert multiset(s)[x] == multiset(t)[x] + 1;
        assert x !in t;
        AgregarAlFinal(t, x);
        assert false;
      }
    }
  }

  lemma Permutada<T>(q: seq<T>, r: seq<T>)
    requires SinRepetidos(q) && multiset(r) == multiset(q)
    ensures SinRepetidos(r) && |r| == |q| && forall x :: x in r <==> x in q
  {
    UnaVez(q);
    UnaVez(r);
    assert |multiset(q)| == |q| && |multiset(r)| == |r|;
    forall x
      ensures x in r <==> x in q
    {
      assert x in r <==> x in multiset(r);
      assert x in q <==> x in multiset(q);
    }
  }

  lemma ReordenarParticion(c: Colas, ps: map<nat, Pcb>, e: EstadoP, orden: seq<nat>)
    requires Particionada(c, ps) && multiset(orden) == multiset(c.De(e))
    ensures Particionada(c.Con(e, orden), ps)
  {
    assert ColaBien(c.De(e), ps, e);
    Permutada(c.De(e), orden);
    forall f
      ensures ColaBien(c.Con(e, orden).De(f), ps, f)
    {
      assert ColaBien(c.De(f), ps, f);
    }
  }

  lemma ReordenarBien(k: Kernel, e: EstadoP, orden: seq<nat>)
    requires KInv(k) && multiset(orden) == multiset(k.colas.De(e))
    ensures KInv(Reordenar(k, e, orden)) && |orden| == |k.colas.De(e)|
  {
    ReordenarParticion(k.colas, k.procesos, e, orden);
    assert |multiset(orden)| == |orden| && |multiset(k.colas.De(e))| == |k.colas.De(e)|;
  }
}
