/** Every kernel step keeps the invariant, and the failure branches are never taken. */
module KernelInvariante {
  import opened Secuencias
  import opened Multisuma
  import opened Kernel
  import opened KernelPasos

  // ----- creation and admission -----

  lemma CrearBien(k: Kernel, cfg: ConfigK, tamanio: nat, orden: seq<nat>)
    requires KInv(k) && multiset(orden) == multiset(k.colas.nuevos + [k.proximoPid])
    ensures KInv(Crear(k, cfg, tamanio, orden))
  {
    var pid, p := k.proximoPid, Pcb(NEW, tamanio, cfg.estimadoInicial);
    NuevoEnCola(k.colas, k.procesos, pid, p);
    var c := k.colas.Con(NEW, k.colas.nuevos + [pid]);
    ReordenarParticion(c, k.procesos[pid := p], NEW, orden);
    assert c.Con(NEW, orden) == k.colas.Con(NEW, orden);
    CrearResto(k, Crear(k, cfg, tamanio, orden), p);
  }

  lemma NuevoEnCola(c: Colas, ps: map<nat, Pcb>, pid: nat, p: Pcb)
    requires Particionada(c, ps) && pid !in ps && p.estado == NEW
    ensures Particionada(c.Con(NEW, c.nuevos + [pid]), ps[pid := p])
  {
    var c', ps' := c.Con(NEW, c.nuevos + [pid]), ps[pid := p];
    assert ColaBien(c.De(NEW), ps, NEW);
    AgregarAlFinal(c.nuevos, pid);
    forall e
      ensures ColaBien(c'.De(e), ps', e)
    {
      assert ColaBien(c.De(e), ps, e);
    }
  }

  lemma CrearResto(k: Kernel, r: Kernel, p: Pcb)
    requires PidsBien(k) && CpusBien(k) && IoBien(k)
    requires r.procesos == k.procesos[k.proximoPid := p] && r.proximoPid == k.proximoPid + 1
    requires r.finalizados == k.finalizados
    requires r.colas.listos == k.colas.listos && r.colas.ejecutando == k.colas.ejecutando
    requires r.colas.bloqueados == k.colas.bloqueados && r.colas.suspBloqueados == k.colas.suspBloqueados
    requires r.cpus == k.cpus && r.semCpus == k.semCpus && r.semReady == k.semReady && r.tomados == k.tomados
    requires r.ios == k.ios
    ensures PidsBien(r) && CpusBien(r) && IoBien(r)
  {
    CrearPids(k, r, p);
    CpusIguales(k, r);
    IoIgual(k, r);
  }

  lemma CrearPids(k: Kernel, r: Kernel, p: Pcb)
    requires PidsBien(k) && r.procesos == k.procesos[k.proximoPid := p] && r.proximoPid == k.proximoPid + 1
    requires r.finalizados == k.finalizados
    ensures PidsBien(r)
  {
  }

  lemma CpusIguales(k: Kernel, r: Kernel)
    requires CpusBien(k) && r.colas.listos == k.colas.listos && r.colas.ejecutando == k.colas.ejecutando
    requires r.cpus == k.cpus && r.semCpus == k.semCpus && r.semReady == k.semReady && r.tomados == k.tomados
    ensures CpusBien(r)
  {
  }

  /** A move that touches neither CPUs nor devices. */
  lemma MoverAReady(k: Kernel, pid: nat, de: EstadoP)
    requires KInv(k) && pid in k.procesos && k.procesos[pid].estado == de && (de == NEW || de == SUSP_READY)
    ensures Transicion(k, pid, de, READY).1
    ensures var k' := Transicion(k, pid, de, READY).0;
            KInv(k'.(semReady := k'.semReady + 1)) && k' == Movido(k, pid, de, READY)
  {
    TransicionBien(k, pid, de, READY);
    MovidoResto(k, pid, de);
  }

  lemma MovidoResto(k: Kernel, pid: nat, de: EstadoP)
    requires PidsBien(k) && CpusBien(k) && IoBien(k) && pid in k.procesos && (de == NEW || de == SUSP_READY)
    ensures var t := Movido(k, pid, de, READY);
            var r := t.(semReady := t.semReady + 1); PidsBien(r) && CpusBien(r) && IoBien(r)
  {
    var t := Movido(k, pid, de, READY);
    var r := t.(semReady := t.semReady + 1);
    PidsIguales(k, r);
    VolcarCpus(k, r);
    IoIgual(k, r);
  }

  lemma AdmitirBien(k: Kernel, de: EstadoP, orden: seq<nat>, exito: bool)
    requires KInv(k) && (de == NEW || de == SUSP_READY)
    requires orden != [] && multiset(orden) == multiset(k.colas.De(de))
    ensures KInv(Admitir(k, de, orden, exito))
    ensures orden[0] in k.procesos && k.procesos[orden[0]].estado == de
  {
    ReordenarBien(k, de, orden);
    CabezaEnCola(k, de, orden);
    if exito { MoverAReady(Reordenar(k, de, orden), orden[0], de); }
  }

  lemma CabezaEnCola(k: Kernel, e: EstadoP, orden: seq<nat>)
    requires Particionada(k.colas, k.procesos) && orden != [] && multiset(orden) == multiset(k.colas.De(e))
    ensures orden[0] in k.procesos && k.procesos[orden[0]].estado == e
  {
    assert ColaBien(k.colas.De(e), k.procesos, e);
    assert orden[0] in multiset(orden);
    assert orden[0] in k.colas.De(e);
  }

  // ----- dispatch -----

  /** When the planner holds both tokens there is a free CPU and a ready process. */
  lemma HayConQueDespachar(k: Kernel)
    requires KInv(k) && k.tomados == 2
    ensures PrimeraLibre(k.cpus, 0) < |k.cpus| && k.colas.listos != []
  {
    HayLibre(k.cpus);
    var j :| 0 <= j < |k.cpus| && k.cpus[j].libre;
    PrimeraLibreExiste(k.cpus, 0, j);
  }

  lemma EjecutarEnCpu(k: Kernel, i: nat, pid: nat)
    requires i < |k.cpus| && k.cpus[i].libre
    ensures var cpus := k.cpus[i := k.cpus[i].(libre := false, pid := pid)];
            EnCpus(cpus) == EnCpus(k.cpus) + multiset{pid} && CpusLibres(cpus) + 1 == CpusLibres(k.cpus)
  {
    var c := k.cpus[i].(libre := false, pid := pid);
    CambiarCpu(k.cpus, i, c);
    CambiarLibres(k.cpus, i, c);
    assert EnCpu(k.cpus[i]) == multiset{};
    assert EnCpus(k.cpus[i := c]) + multiset{} == EnCpus(k.cpus[i := c]);
  }

  lemma CpusTrasDespacho(k: Kernel, r: Kernel, i: nat, pid: nat)
    requires CpusBien(k) && k.tomados == 2 && i < |k.cpus| && k.cpus[i].libre
    requires r.cpus == k.cpus[i := k.cpus[i].(libre := false, pid := pid)] && r.tomados == 0
    requires r.semCpus == k.semCpus && r.semReady == k.semReady && |r.colas.listos| == |k.colas.listos| - 1
    requires r.colas.ejecutando == k.colas.ejecutando + [pid]
    ensures CpusBien(r)
  {
    EjecutarEnCpu(k, i, pid);
    assert multiset(k.colas.ejecutando + [pid]) == multiset(k.colas.ejecutando) + multiset{pid};
  }

  lemma DespacharEs(k: Kernel, orden: seq<nat>)
    requires KInv(k) && k.tomados == 2 && multiset(orden) == multiset(k.colas.listos)
    ensures orden != [] && orden[0] in k.procesos && k.procesos[orden[0]].estado == READY
    ensures var i := PrimeraLibre(k.cpus, 0);
            && i < |k.cpus|
            && Despachar(k, orden) == Movido(Reordenar(k, READY, orden).(
                 cpus := k.cpus[i := k.cpus[i].(libre := false, pid := orden[0])], tomados := 0), orden[0],
               READY, EXECUTE)
            && Particionada(Despachar(k, orden).colas, Despachar(k, orden).procesos)
            && |Despachar(k, orden).colas.listos| == |k.colas.listos| - 1
  {
    HayConQueDespachar(k);
    assert |multiset(orden)| == |orden| && |multiset(k.colas.listos)| == |k.colas.listos|;
    ReordenarParticion(k.colas, k.procesos, READY, orden);
    CabezaEnCola(k, READY, orden);
    var i := PrimeraLibre(k.cpus, 0);
    var k1 := Reordenar(k, READY, orden).(cpus := k.cpus[i := k.cpus[i].(libre := false, pid := orden[0])],
                                          tomados := 0);
    TransicionBien(k1, orden[0], READY, EXECUTE);
    SinCabeza(orden);
  }

  lemma DespacharBien(k: Kernel, orden: seq<nat>)
    requires KInv(k) && k.tomados == 2 && multiset(orden) == multiset(k.colas.listos)
    ensures orden != [] && orden[0] in k.procesos && k.procesos[orden[0]].estado == READY
    ensures KInv(Despachar(k, orden))
    ensures Despachar(k, orden).procesos == k.procesos[orden[0] := k.procesos[orden[0]].(estado := EXECUTE)]
  {
    DespacharEs(k, orden);
    CpusTrasDespacho(k, Despachar(k, orden), PrimeraLibre(k.cpus, 0), orden[0]);
  }

  lemma SinCabeza(q: seq<nat>)
    requires q != []
    ensures Sin(q, q[0]) == q[1..]
  {
  }

  // ----- leaving the CPU -----

  /** The process on a busy CPU is executing. */
  lemma EnCpuEjecuta(k: Kernel, i: nat)
    requires KInv(k) && i < |k.cpus| && !k.cpus[i].libre
    ensures k.cpus[i].pid in k.procesos && k.procesos[k.cpus[i].pid].estado == EXECUTE
    ensures k.cpus[i].pid in k.colas.ejecutando
  {
    PidEnCpus(k.cpus, i);
    assert k.cpus[i].pid in multiset(k.colas.ejecutando);
    assert ColaBien(k.colas.De(EXECUTE), k.procesos, EXECUTE);
  }

  lemma {:induction false} PidEnCpus(cpus: seq<CpuK>, i: nat)
    requires i < |cpus| && !cpus[i].libre
    ensures cpus[i].pid in EnCpus(cpus)
  {
    if i < |cpus| - 1 { PidEnCpus(cpus[..|cpus| - 1], i); }
  }

  /** Distinct busy CPUs run distinct processes. */
  lemma CpusDistintas(k: Kernel, i: nat, j: nat)
    requires KInv(k) && i < j < |k.cpus| && !k.cpus[i].libre && !k.cpus[j].libre
    ensures k.cpus[i].pid != k.cpus[j].pid
  {
    assert ColaBien(k.colas.De(EXECUTE), k.procesos, EXECUTE);
    UnaVez(k.colas.ejecutando);
    DosCpus(k.cpus, i, j);
  }

  lemma DosCpus(cpus: seq<CpuK>, i: nat, j: nat)
    requires i < j < |cpus| && !cpus[i].libre && !cpus[j].libre
    ensures cpus[i].pid == cpus[j].pid ==> EnCpus(cpus)[cpus[i].pid] >= 2
  {
    var c := cpus[i].(libre := true);
    CambiarCpuEn(cpus, i, c, cpus[i].pid);
    PidEnCpus(cpus[i := c], j);
  }

  /** Giving a CPU back and leaving the EXECUTE queue keep the CPU account. */
  lemma LiberarCuadra(cpus: seq<CpuK>, i: nat, q: seq<nat>)
    requires i < |cpus| && !cpus[i].libre && EnCpus(cpus) == multiset(q) && cpus[i].pid in q
    ensures var cpus' := cpus[i := cpus[i].(libre := true)];
            EnCpus(cpus') == multiset(Sin(q, cpus[i].pid)) && CpusLibres(cpus') == CpusLibres(cpus) + 1
  {
    var c := cpus[i].(libre := true);
    CambiarCpu(cpus, i, c);
    CambiarLibres(cpus, i, c);
    SinMultiset(q, cpus[i].pid);
    assert EnCpus(cpus) + EnCpu(c) == EnCpus(cpus);
    Cancela(EnCpus(cpus[i := c]), multiset(Sin(q, cpus[i].pid)), multiset{cpus[i].pid});
  }

  lemma SalirBien(k: Kernel, i: nat)
    requires KInv(k) && i < |k.cpus| && !k.cpus[i].libre
    ensures k.cpus[i].pid in k.procesos && KInv(Salir(k, i))
  {
    EnCpuEjecuta(k, i);
    QuitarBien(k, k.cpus[i].pid);
    SalirCpus(k, Salir(k, i), i);
    IoIgual(k, Salir(k, i));
    SalirPids(k, Salir(k, i), k.cpus[i].pid);
  }

  lemma SalirCpus(k: Kernel, r: Kernel, i: nat)
    requires CpusBien(k) && i < |k.cpus| && !k.cpus[i].libre && k.cpus[i].pid in k.colas.ejecutando
    requires r.cpus == k.cpus[i := k.cpus[i].(libre := true)] && r.semCpus == k.semCpus + 1
    requires r.semReady == k.semReady && r.tomados == k.tomados
    requires r.colas.listos == k.colas.listos && r.colas.ejecutando == Sin(k.colas.ejecutando, k.cpus[i].pid)
    ensures CpusBien(r)
  {
    LiberarCuadra(k.cpus, i, k.colas.ejecutando);
  }

  lemma SalirPids(k: Kernel, r: Kernel, pid: nat)
    requires PidsBien(k) && pid in k.procesos && r.procesos == k.procesos - {pid}
    requires r.finalizados == k.finalizados + {pid} && r.proximoPid == k.proximoPid
    ensures PidsBien(r)
  {
  }

  lemma EstimarParticion(k: Kernel, cfg: ConfigK, pid: nat, rafaga: real)
    requires Particionada(k.colas, k.procesos)
    ensures Particionada(k.colas, Estimar(k, cfg, pid, rafaga).procesos)
    ensures Estimar(k, cfg, pid, rafaga).procesos.Keys == k.procesos.Keys
    ensures forall p :: p in k.procesos ==> Estimar(k, cfg, pid, rafaga).procesos[p].estado == k.procesos[p].estado
  {
    var k' := Estimar(k, cfg, pid, rafaga);
    forall e
      ensures ColaBien(k.colas.De(e), k'.procesos, e)
    {
      assert ColaBien(k.colas.De(e), k.procesos, e);
    }
  }

  /** What blocking does to each part of the state. */
  lemma BloquearEs(k: Kernel, cfg: ConfigK, i: nat, rafaga: real)
    requires Particionada(k.colas, k.procesos) && i < |k.cpus|
    requires k.cpus[i].pid in k.procesos && k.procesos[k.cpus[i].pid].estado == EXECUTE
    ensures var k', pid := Bloquear(k, cfg, i, rafaga), k.cpus[i].pid;
            && Particionada(k'.colas, k'.procesos)
            && k'.colas == k.colas.(ejecutando := Sin(k.colas.ejecutando, pid),
                                    bloqueados := k.colas.bloqueados + [pid])
            && k'.ios == k.ios && k'.cpus == k.cpus[i := k.cpus[i].(libre := true)] && k'.semCpus == k.semCpus + 1
            && k'.semReady == k.semReady && k'.tomados == k.tomados
            && k'.proximoPid == k.proximoPid && k'.finalizados == k.finalizados
            && k'.procesos.Keys == k.procesos.Keys && k'.procesos[pid].estado == BLOCKED
            && forall p :: p in k.procesos && p != pid ==> k'.procesos[p].estado == k.procesos[p].estado
  {
    var pid := k.cpus[i].pid;
    TransicionBien(k, pid, EXECUTE, BLOCKED);
    EstimarParticion(Movido(k, pid, EXECUTE, BLOCKED), cfg, pid, rafaga);
  }

  lemma BloquearCpus(k: Kernel, r: Kernel, i: nat)
    requires CpusBien(k) && i < |k.cpus| && !k.cpus[i].libre && k.cpus[i].pid in k.colas.ejecutando
    requires r.colas.ejecutando == Sin(k.colas.ejecutando, k.cpus[i].pid) && r.colas.listos == k.colas.listos
    requires r.cpus == k.cpus[i := k.cpus[i].(libre := true)] && r.semCpus == k.semCpus + 1
    requires r.semReady == k.semReady && r.tomados == k.tomados
    ensures CpusBien(r)
  {
    LiberarCuadra(k.cpus, i, k.colas.ejecutando);
  }

  /** Blocking, up to the device: all of the invariant but the account of blocked processes. */
  lemma BloquearParcial(k: Kernel, cfg: ConfigK, i: nat, rafaga: real)
    requires Particionada(k.colas, k.procesos) && PidsBien(k) && CpusBien(k) && i < |k.cpus| && !k.cpus[i].libre
    requires k.cpus[i].pid in k.procesos && k.procesos[k.cpus[i].pid].estado == EXECUTE
    requires k.cpus[i].pid in k.colas.ejecutando
    ensures PidsBien(Bloquear(k, cfg, i, rafaga)) && CpusBien(Bloquear(k, cfg, i, rafaga))
  {
    BloquearEs(k, cfg, i, rafaga);
    BloquearCpus(k, Bloquear(k, cfg, i, rafaga), i);
    PidsIguales(k, Bloquear(k, cfg, i, rafaga));
  }

  /** A device changing by its own account changes the total as much. */
  lemma DispositivoCambia(ios: map<string, Dispositivo>, n: string, d: Dispositivo)
    requires n in ios
    ensures Suma(PorDispositivo(ios[n := d])) + EnDispositivo(ios[n]) == Suma(PorDispositivo(ios)) + EnDispositivo(d)
  {
    assert PorDispositivo(ios[n := d]) == PorDispositivo(ios)[n := EnDispositivo(d)];
    SumaActualizada(PorDispositivo(ios), n, EnDispositivo(d));
  }

  lemma PedirCuadra(ios: map<string, Dispositivo>, n: string, pid: nat)
    requires n in ios
    ensures Suma(PorDispositivo(ios[n := PedirIO(ios[n], pid)])) == Suma(PorDispositivo(ios)) + multiset{pid}
  {
    var d := PedirIO(ios[n], pid);
    DispositivoCambia(ios, n, d);
    PedirIOSuma(ios[n], pid);
    Asociativa(Suma(PorDispositivo(ios)), EnDispositivo(ios[n]), multiset{pid});
    Conmutan(Suma(PorDispositivo(ios)), multiset{pid}, EnDispositivo(ios[n]));
    Cancela(Suma(PorDispositivo(ios[n := d])), Suma(PorDispositivo(ios)) + multiset{pid}, EnDispositivo(ios[n]));
  }

  lemma TerminarCuadra(ios: map<string, Dispositivo>, n: string, pos: nat)
    requires n in ios && pos < |ios[n].instancias| && ios[n].instancias[pos].pid.Algo?
    ensures Suma(PorDispositivo(ios[n := TerminarIO(ios[n], pos)])) + multiset{ios[n].instancias[pos].pid.valor}
         == Suma(PorDispositivo(ios))
  {
    var d, x := TerminarIO(ios[n], pos), multiset{ios[n].instancias[pos].pid.valor};
    var s, s' := Suma(PorDispositivo(ios)), Suma(PorDispositivo(ios[n := d]));
    DispositivoCambia(ios, n, d);
    TerminarIOSuma(ios[n], pos);
    assert s' + (EnDispositivo(d) + x) == s + EnDispositivo(d);
    Conmutan(s', EnDispositivo(d), x);
    Asociativa(s', EnDispositivo(d), x);
    Cancela(s' + x, s, EnDispositivo(d));
  }

  lemma IoTrasPedir(k: Kernel, r: Kernel, nombre: string, pid: nat)
    requires IoBien(k) && nombre in k.ios && r.ios == k.ios[nombre := PedirIO(k.ios[nombre], pid)]
    requires r.colas.bloqueados == k.colas.bloqueados + [pid] && r.colas.suspBloqueados == k.colas.suspBloqueados
    ensures IoBien(r)
  {
    PedirIOBien(k.ios[nombre], pid);
    PedirCuadra(k.ios, nombre, pid);
    assert multiset(r.colas.bloqueados) == multiset(k.colas.bloqueados) + multiset{pid};
    Conmutan(multiset(k.colas.bloqueados), multiset(k.colas.suspBloqueados), multiset{pid});
  }

  /** The state in which manejarIO blocks the process. */
  function ConPedido(k: Kernel, pid: nat, nombre: string): Kernel
    requires nombre in k.ios
  {
    var d := k.ios[nombre];
    k.(ios := k.ios[nombre := PedirIO(d, pid)],
       sesiones := if InstanciaLibre(d.instancias, 0) < |d.instancias| then k.sesiones[pid := Sesiones(k, pid) + 1]
                   else k.sesiones)
  }

  lemma SolicitarIOBien(k: Kernel, cfg: ConfigK, i: nat, nombre: string, rafaga: real)
    requires KInv(k) && i < |k.cpus| && !k.cpus[i].libre && nombre in k.ios && k.ios[nombre].instancias != []
    ensures k.cpus[i].pid in k.procesos && KInv(SolicitarIO(k, cfg, i, nombre, rafaga))
  {
    EnCpuEjecuta(k, i);
    var k1 := ConPedido(k, k.cpus[i].pid, nombre);
    SolicitarIODef(k, cfg, i, nombre, rafaga);
    BloquearParcial(k1, cfg, i, rafaga);
    PedirIOBloquea(k, cfg, i, nombre, rafaga);
  }

  lemma SolicitarIODef(k: Kernel, cfg: ConfigK, i: nat, nombre: string, rafaga: real)
    requires i < |k.cpus| && k.cpus[i].pid in k.procesos && nombre in k.ios && k.ios[nombre].instancias != []
    ensures SolicitarIO(k, cfg, i, nombre, rafaga) == Bloquear(ConPedido(k, k.cpus[i].pid, nombre), cfg, i, rafaga)
  {
  }

  lemma PedirIOBloquea(k: Kernel, cfg: ConfigK, i: nat, nombre: string, rafaga: real)
    requires Particionada(k.colas, k.procesos) && IoBien(k) && i < |k.cpus| && nombre in k.ios
    requires k.cpus[i].pid in k.procesos && k.procesos[k.cpus[i].pid].estado == EXECUTE
    ensures var r := Bloquear(ConPedido(k, k.cpus[i].pid, nombre), cfg, i, rafaga);
            IoBien(r) && Particionada(r.colas, r.procesos)
  {
    var k1 := ConPedido(k, k.cpus[i].pid, nombre);
    BloquearEs(k1, cfg, i, rafaga);
    IoTrasPedir(k, Bloquear(k1, cfg, i, rafaga), nombre, k.cpus[i].pid);
  }

  lemma VolcarCpus(k: Kernel, r: Kernel)
    requires CpusBien(k) && r.cpus == k.cpus && r.semCpus == k.semCpus && r.tomados == k.tomados
    requires r.semReady == k.semReady + 1 && |r.colas.listos| == |k.colas.listos| + 1
    requires r.colas.ejecutando == k.colas.ejecutando
    ensures CpusBien(r)
  {
  }

  lemma VolcarEs(k1: Kernel, pid: nat, bloqueados: seq<nat>)
    requires Particionada(k1.colas, k1.procesos) && pid in k1.procesos && k1.procesos[pid].estado == BLOCKED
    requires k1.colas.bloqueados == bloqueados + [pid] && pid !in bloqueados
    ensures Transicion(k1, pid, BLOCKED, READY) == (Movido(k1, pid, BLOCKED, READY), true)
    ensures var r := Movido(k1, pid, BLOCKED, READY);
            Particionada(r.colas, r.procesos) && r.colas.bloqueados == bloqueados
            && r.colas.suspBloqueados == k1.colas.suspBloqueados
  {
    TransicionBien(k1, pid, BLOCKED, READY);
    SinUltimo(bloqueados, pid);
  }

  lemma VolcarVuelve(k: Kernel, k1: Kernel, pid: nat)
    requires Particionada(k1.colas, k1.procesos) && PidsBien(k1) && CpusBien(k1) && IoBien(k) && k1.ios == k.ios
    requires pid in k1.procesos && k1.procesos[pid].estado == BLOCKED && pid !in k.colas.bloqueados
    requires k1.colas.bloqueados == k.colas.bloqueados + [pid] && k1.colas.suspBloqueados == k.colas.suspBloqueados
    ensures var t := Movido(k1, pid, BLOCKED, READY);
            && Transicion(k1, pid, BLOCKED, READY) == (t, true) && Particionada(t.colas, t.procesos)
            && t.colas.bloqueados == k.colas.bloqueados && t.colas.suspBloqueados == k.colas.suspBloqueados
  {
    VolcarEs(k1, pid, k.colas.bloqueados);
  }

  lemma VolcarResto(k: Kernel, k1: Kernel, t: Kernel, pid: nat)
    requires PidsBien(k1) && CpusBien(k1) && IoBien(k) && k1.ios == k.ios
    requires pid in k1.procesos && t == Movido(k1, pid, BLOCKED, READY)
    requires t.colas.bloqueados == k.colas.bloqueados && t.colas.suspBloqueados == k.colas.suspBloqueados
    ensures var r := t.(semReady := t.semReady + 1); PidsBien(r) && CpusBien(r) && IoBien(r)
  {
    var r := t.(semReady := t.semReady + 1);
    VolcarCpus(k1, r);
    PidsIguales(k1, r);
    IoIgual(k, r);
  }

  lemma VolcarInv(k: Kernel, cfg: ConfigK, i: nat, rafaga: real, k1: Kernel)
    requires KInv(k) && i < |k.cpus| && !k.cpus[i].libre && k1 == Bloquear(k, cfg, i, rafaga)
    ensures var t := Transicion(k1, k.cpus[i].pid, BLOCKED, READY).0; KInv(t.(semReady := t.semReady + 1))
  {
    var pid := k.cpus[i].pid;
    EnCpuEjecuta(k, i);
    DeLaCola(k, pid, BLOCKED);
    BloquearEs(k, cfg, i, rafaga);
    BloquearParcial(k, cfg, i, rafaga);
    VolcarVuelve(k, k1, pid);
    VolcarResto(k, k1, Movido(k1, pid, BLOCKED, READY), pid);
  }

  lemma VolcarEstados(k: Kernel, cfg: ConfigK, i: nat, rafaga: real, k1: Kernel)
    requires Particionada(k.colas, k.procesos) && i < |k.cpus| && k1 == Bloquear(k, cfg, i, rafaga)
    requires k.cpus[i].pid in k.procesos && k.procesos[k.cpus[i].pid].estado == EXECUTE
    ensures var t, pid := Transicion(k1, k.cpus[i].pid, BLOCKED, READY).0, k.cpus[i].pid;
            && t.procesos.Keys == k.procesos.Keys && t.procesos[pid].estado == READY
            && forall p :: p in k.procesos && p != pid ==> t.procesos[p].estado == k.procesos[p].estado
  {
    BloquearEs(k, cfg, i, rafaga);
    EstadosAlVolver(k1, k.cpus[i].pid);
  }

  lemma EstadosAlVolver(k1: Kernel, pid: nat)
    requires Particionada(k1.colas, k1.procesos) && pid in k1.procesos && k1.procesos[pid].estado == BLOCKED
    ensures Transicion(k1, pid, BLOCKED, READY).0.procesos == k1.procesos[pid := k1.procesos[pid].(estado := READY)]
  {
    TransicionBien(k1, pid, BLOCKED, READY);
  }

  lemma VolcarBien(k: Kernel, cfg: ConfigK, i: nat, rafaga: real)
    requires KInv(k) && i < |k.cpus| && !k.cpus[i].libre
    ensures KInv(Volcar(k, cfg, i, rafaga)) && k.cpus[i].pid in k.procesos
    ensures var k', pid := Volcar(k, cfg, i, rafaga), k.cpus[i].pid;
            && k'.procesos.Keys == k.procesos.Keys && k'.procesos[pid].estado == READY
            && forall p :: p in k.procesos && p != pid ==> k'.procesos[p].estado == k.procesos[p].estado
  {
    var k1 := Bloquear(k, cfg, i, rafaga);
    EnCpuEjecuta(k, i);
    VolcarInv(k, cfg, i, rafaga, k1);
    VolcarEstados(k, cfg, i, rafaga, k1);
    VolcarDef(k, cfg, i, rafaga, k1);
  }

  lemma VolcarDef(k: Kernel, cfg: ConfigK, i: nat, rafaga: real, k1: Kernel)
    requires i < |k.cpus| && k1 == Bloquear(k, cfg, i, rafaga)
    ensures var t := Transicion(k1, k.cpus[i].pid, BLOCKED, READY).0;
            Volcar(k, cfg, i, rafaga) == t.(semReady := t.semReady + 1)
  {
  }

  lemma PidsIguales(k: Kernel, r: Kernel)
    requires PidsBien(k) && r.procesos.Keys == k.procesos.Keys && r.proximoPid == k.proximoPid
    requires r.finalizados == k.finalizados
    ensures PidsBien(r)
  {
  }

  lemma IoIgual(k: Kernel, r: Kernel)
    requires IoBien(k) && r.ios == k.ios && r.colas.bloqueados == k.colas.bloqueados
    requires r.colas.suspBloqueados == k.colas.suspBloqueados
    ensures IoBien(r)
  {
  }

  lemma {:induction false} SinUltimo(q: seq<nat>, x: nat)
    requires x !in q
    ensures Sin(q + [x], x) == q
  {
    if q != [] {
      SinUltimo(q[1..], x);
      assert (q + [x])[1..] == q[1..] + [x];
    }
  }

  // ----- suspension and end of IO -----

  lemma SuspenderBien(k: Kernel, pid: nat)
    requires KInv(k) && pid in k.procesos && k.procesos[pid].estado == BLOCKED
    ensures KInv(Suspender(k, pid)) && Suspender(k, pid) == Movido(k, pid, BLOCKED, SUSP_BLOCKED)
  {
    TransicionBien(k, pid, BLOCKED, SUSP_BLOCKED);
    DeLaCola(k, pid, BLOCKED);
    SuspenderResto(k, pid);
  }

  lemma SuspenderResto(k: Kernel, pid: nat)
    requires PidsBien(k) && CpusBien(k) && IoBien(k) && pid in k.procesos && pid in k.colas.bloqueados
    ensures var r := Movido(k, pid, BLOCKED, SUSP_BLOCKED); PidsBien(r) && CpusBien(r) && IoBien(r)
  {
    var r := Movido(k, pid, BLOCKED, SUSP_BLOCKED);
    ColasAlSuspender(k, pid);
    SuspenderIo(k, r, pid);
    PidsIguales(k, r);
    CpusIguales(k, r);
  }

  lemma ColasAlSuspender(k: Kernel, pid: nat)
    requires pid in k.procesos
    ensures var c := Movido(k, pid, BLOCKED, SUSP_BLOCKED).colas;
            && c.bloqueados == Sin(k.colas.bloqueados, pid) && c.suspBloqueados == k.colas.suspBloqueados + [pid]
            && c.listos == k.colas.listos && c.ejecutando == k.colas.ejecutando
  {
  }

  lemma SuspenderIo(k: Kernel, r: Kernel, pid: nat)
    requires IoBien(k) && r.ios == k.ios && pid in k.colas.bloqueados
    requires r.colas.bloqueados == Sin(k.colas.bloqueados, pid)
    requires r.colas.suspBloqueados == k.colas.suspBloqueados + [pid]
    ensures IoBien(r)
  {
    SinMultiset(k.colas.bloqueados, pid);
    assert multiset(k.colas.suspBloqueados + [pid]) == multiset(k.colas.suspBloqueados) + multiset{pid};
    Conmutan(multiset(Sin(k.colas.bloqueados, pid)), multiset(k.colas.suspBloqueados), multiset{pid});
    Asociativa(multiset(Sin(k.colas.bloqueados, pid)), multiset(k.colas.suspBloqueados), multiset{pid});
  }

  lemma ServidoEnCola(k: Kernel, nombre: string, pos: nat, pid: nat)
    requires Suma(PorDispositivo(k.ios)) == multiset(k.colas.bloqueados) + multiset(k.colas.suspBloqueados)
    requires nombre in k.ios && pos < |k.ios[nombre].instancias| && k.ios[nombre].instancias[pos].pid == Algo(pid)
    ensures pid in k.colas.bloqueados || pid in k.colas.suspBloqueados
  {
    var s := Suma(PorDispositivo(k.ios[nombre := TerminarIO(k.ios[nombre], pos)]));
    TerminarCuadra(k.ios, nombre, pos);
    EnUnaUOtra(s, multiset(k.colas.bloqueados), multiset(k.colas.suspBloqueados), pid);
  }

  /** Whoever an instance is serving is blocked, suspended or not. */
  lemma ServidoBloqueado(k: Kernel, nombre: string, pos: nat, pid: nat)
    requires Suma(PorDispositivo(k.ios)) == multiset(k.colas.bloqueados) + multiset(k.colas.suspBloqueados)
    requires Particionada(k.colas, k.procesos)
    requires nombre in k.ios && pos < |k.ios[nombre].instancias| && k.ios[nombre].instancias[pos].pid == Algo(pid)
    ensures pid in k.procesos && (k.procesos[pid].estado == BLOCKED || k.procesos[pid].estado == SUSP_BLOCKED)
    ensures pid in k.colas.De(k.procesos[pid].estado)
  {
    ServidoEnCola(k, nombre, pos, pid);
    EnUnaColaDeBloqueados(k, pid);
  }

  lemma EnUnaColaDeBloqueados(k: Kernel, pid: nat)
    requires Particionada(k.colas, k.procesos) && (pid in k.colas.bloqueados || pid in k.colas.suspBloqueados)
    ensures pid in k.procesos && (k.procesos[pid].estado == BLOCKED || k.procesos[pid].estado == SUSP_BLOCKED)
    ensures pid in k.colas.De(k.procesos[pid].estado)
  {
    if pid in k.colas.De(BLOCKED) {
      DeLaCola(k, pid, BLOCKED);
    } else {
      DeLaCola(k, pid, SUSP_BLOCKED);
    }
  }

  lemma DeLaCola(k: Kernel, pid: nat, e: EstadoP)
    requires Particionada(k.colas, k.procesos)
    ensures pid in k.colas.De(e) <==> pid in k.procesos && k.procesos[pid].estado == e
  {
    assert ColaBien(k.colas.De(e), k.procesos, e);
  }

  lemma IoTrasTerminar(k: Kernel, r: Kernel, nombre: string, pos: nat, e: EstadoP)
    requires IoBien(k) && nombre in k.ios && pos < |k.ios[nombre].instancias| && k.ios[nombre].instancias[pos].pid.Algo?
    requires r.ios == k.ios[nombre := TerminarIO(k.ios[nombre], pos)]
    requires (e == BLOCKED || e == SUSP_BLOCKED) && k.ios[nombre].instancias[pos].pid.valor in k.colas.De(e)
    requires r.colas.bloqueados == if e == BLOCKED then Sin(k.colas.bloqueados, k.ios[nombre].instancias[pos].pid.valor)
                                   else k.colas.bloqueados
    requires r.colas.suspBloqueados == if e == BLOCKED then k.colas.suspBloqueados
                                       else Sin(k.colas.suspBloqueados, k.ios[nombre].instancias[pos].pid.valor)
    ensures IoBien(r)
  {
    TerminarIOBien(k.ios[nombre], pos);
    SumaTrasTerminar(k.ios, nombre, pos, k.colas, e);
  }

  lemma SumaTrasTerminar(ios: map<string, Dispositivo>, nombre: string, pos: nat, c: Colas, e: EstadoP)
    requires nombre in ios && pos < |ios[nombre].instancias| && ios[nombre].instancias[pos].pid.Algo?
    requires Suma(PorDispositivo(ios)) == multiset(c.bloqueados) + multiset(c.suspBloqueados)
    requires (e == BLOCKED || e == SUSP_BLOCKED) && ios[nombre].instancias[pos].pid.valor in c.De(e)
    ensures var s, pid := Suma(PorDispositivo(ios[nombre := TerminarIO(ios[nombre], pos)])),
              ios[nombre].instancias[pos].pid.valor;
            s == if e == BLOCKED then multiset(Sin(c.bloqueados, pid)) + multiset(c.suspBloqueados)
                 else multiset(c.bloqueados) + multiset(Sin(c.suspBloqueados, pid))
  {
    var pid := ios[nombre].instancias[pos].pid.valor;
    TerminarCuadra(ios, nombre, pos);
    QuitarDeColas(Suma(PorDispositivo(ios[nombre := TerminarIO(ios[nombre], pos)])), c, e, pid);
  }

  lemma QuitarDeColas(s: multiset<nat>, c: Colas, e: EstadoP, pid: nat)
    requires (e == BLOCKED || e == SUSP_BLOCKED) && pid in c.De(e)
    requires s + multiset{pid} == multiset(c.bloqueados) + multiset(c.suspBloqueados)
    ensures s == if e == BLOCKED then multiset(Sin(c.bloqueados, pid)) + multiset(c.suspBloqueados)
                 else multiset(c.bloqueados) + multiset(Sin(c.suspBloqueados, pid))
  {
    SinMultiset(c.De(e), pid);
    QuitarDeUna(s, multiset(c.bloqueados), multiset(c.suspBloqueados), multiset(Sin(c.De(e), pid)), multiset{pid},
                e == BLOCKED);
  }

  /** The state after the queue move, the device handed on. */
  lemma FinIOEs(k: Kernel, nombre: string, pos: nat, pid: nat)
    requires Particionada(k.colas, k.procesos) && pid in k.procesos
    requires k.procesos[pid].estado == BLOCKED || k.procesos[pid].estado == SUSP_BLOCKED
    requires nombre in k.ios && pos < |k.ios[nombre].instancias| && k.ios[nombre].instancias[pos].pid == Algo(pid)
    ensures var r, e := FinIO(k, nombre, pos), k.procesos[pid].estado;
            var m := Movido(k, pid, e, if e == BLOCKED then READY else SUSP_READY);
            && r.colas == m.colas && r.procesos == m.procesos && Particionada(r.colas, r.procesos)
            && r.cpus == k.cpus && r.semCpus == k.semCpus && r.tomados == k.tomados
            && r.semReady == k.semReady + (if e == BLOCKED then 1 else 0)
            && r.proximoPid == k.proximoPid && r.finalizados == k.finalizados
            && r.ios == k.ios[nombre := TerminarIO(k.ios[nombre], pos)]
  {
    var e := k.procesos[pid].estado;
    TransicionBien(k, pid, e, if e == BLOCKED then READY else SUSP_READY);
  }

  lemma FinIOBien(k: Kernel, nombre: string, pos: nat, pid: nat)
    requires KInv(k) && nombre in k.ios && pos < |k.ios[nombre].instancias|
    requires k.ios[nombre].instancias[pos].pid == Algo(pid)
    ensures pid in k.procesos && (k.procesos[pid].estado == BLOCKED || k.procesos[pid].estado == SUSP_BLOCKED)
    ensures KInv(FinIO(k, nombre, pos))
    ensures FinIO(k, nombre, pos).procesos
         == k.procesos[pid := k.procesos[pid].(estado := if k.procesos[pid].estado == BLOCKED then READY
                                               else SUSP_READY)]
  {
    ServidoBloqueado(k, nombre, pos, pid);
    FinIOEs(k, nombre, pos, pid);
    FinIOTodo(k, FinIO(k, nombre, pos), nombre, pos, pid, k.procesos[pid].estado);
  }

  lemma FinIOTodo(k: Kernel, r: Kernel, nombre: string, pos: nat, pid: nat, e: EstadoP)
    requires PidsBien(k) && CpusBien(k) && IoBien(k) && (e == BLOCKED || e == SUSP_BLOCKED) && pid in k.procesos
    requires pid in k.colas.De(e)
    requires nombre in k.ios && pos < |k.ios[nombre].instancias| && k.ios[nombre].instancias[pos].pid == Algo(pid)
    requires var m := Movido(k, pid, e, if e == BLOCKED then READY else SUSP_READY);
             r.colas == m.colas && r.procesos == m.procesos
    requires r.cpus == k.cpus && r.semCpus == k.semCpus && r.tomados == k.tomados
    requires r.semReady == k.semReady + (if e == BLOCKED then 1 else 0)
    requires r.proximoPid == k.proximoPid && r.finalizados == k.finalizados
    requires r.ios == k.ios[nombre := TerminarIO(k.ios[nombre], pos)]
    ensures PidsBien(r) && CpusBien(r) && IoBien(r)
  {
    PidsIguales(k, r);
    if e == BLOCKED { VolcarCpus(k, r); }
    IoTrasTerminar(k, r, nombre, pos, e);
  }

  lemma QuitarDeUna<T>(s: multiset<T>, a: multiset<T>, b: multiset<T>, r: multiset<T>, x: multiset<T>, primera: bool)
    requires s + x == a + b && (if primera then a == r + x else b == r + x)
    ensures s == if primera then r + b else a + r
  {
    if primera {
      Conmutan(r, x, b);
      Cancela(s, r + b, x);
    } else {
      Asociativa(a, r, x);
      Cancela(s, a + r, x);
    }
  }

  /** A CPU joins without harm exactly under a name that no other has: CPUs are found by name. */
  lemma ConectarBien(k: Kernel, nombre: string)
    requires KInv(k)
    ensures KInv(Conectar(k, nombre)) <==> forall i :: 0 <= i < |k.cpus| ==> k.cpus[i].nombre != nombre
  {
    var r := Conectar(k, nombre);
    assert r.cpus[..|k.cpus|] == k.cpus;
    ConectarCpus(k, r, nombre);
    PidsIguales(k, r);
    IoIgual(k, r);
  }

  lemma ConectarCpus(k: Kernel, r: Kernel, nombre: string)
    requires CpusBien(k) && r.cpus == k.cpus + [CpuK(nombre, true, 0)] && r.cpus[..|k.cpus|] == k.cpus
    requires r.semCpus == k.semCpus + 1 && r.semReady == k.semReady && r.tomados == k.tomados
    requires r.colas.listos == k.colas.listos && r.colas.ejecutando == k.colas.ejecutando
    ensures CpusBien(r) <==> forall i :: 0 <= i < |k.cpus| ==> k.cpus[i].nombre != nombre
  {
    assert EnCpus(r.cpus) == EnCpus(k.cpus) + multiset{};
    if i :| 0 <= i < |k.cpus| && k.cpus[i].nombre == nombre {
      assert r.cpus[i].nombre == r.cpus[|k.cpus|].nombre;
    }
  }

  // ----- what the invariant says about one process -----

  /** Every live process is in exactly one queue, the one its state names. */
  lemma UnaSolaCola(k: Kernel, pid: nat)
    requires KInv(k)
    ensures pid in k.procesos ==> forall e :: pid in k.colas.De(e) <==> e == k.procesos[pid].estado
    ensures pid !in k.procesos ==> forall e :: pid !in k.colas.De(e)
    ensures pid < k.proximoPid <==> pid in k.procesos || pid in k.finalizados
    ensures !(pid in k.procesos && pid in k.finalizados)
  {
    forall e
      ensures pid in k.colas.De(e) <==> pid in k.procesos && k.procesos[pid].estado == e
    {
      DeLaCola(k, pid, e);
    }
  }

  lemma {:induction false} VecesEnCola(q: seq<nat>, pid: nat)
    requires SinRepetidos(q)
    ensures multiset(q)[pid] == if pid in q then 1 else 0
  {
    UnaVez(q);
    assert pid in q <==> pid in multiset(q);
  }

  /** Over all instances and waiting queues a process appears once if it is blocked, suspended
      or not, and never otherwise. */
  lemma UnaVezEnIO(k: Kernel, pid: nat)
    requires KInv(k)
    ensures Suma(PorDispositivo(k.ios))[pid]
         == if pid in k.procesos && (k.procesos[pid].estado == BLOCKED || k.procesos[pid].estado == SUSP_BLOCKED)
            then 1 else 0
  {
    CuentaDeIO(k, pid);
    DeBloqueados(k, pid);
  }

  lemma DeBloqueados(k: Kernel, pid: nat)
    requires Particionada(k.colas, k.procesos)
    ensures multiset(k.colas.bloqueados)[pid] + multiset(k.colas.suspBloqueados)[pid]
         == if pid in k.procesos && (k.procesos[pid].estado == BLOCKED || k.procesos[pid].estado == SUSP_BLOCKED)
            then 1 else 0
  {
    VecesDe(k, pid, BLOCKED);
    VecesDe(k, pid, SUSP_BLOCKED);
    assert k.colas.De(BLOCKED) == k.colas.bloqueados && k.colas.De(SUSP_BLOCKED) == k.colas.suspBloqueados;
  }

  lemma CuentaDeIO(k: Kernel, pid: nat)
    requires IoBien(k)
    ensures Suma(PorDispositivo(k.ios))[pid]
             == multiset(k.colas.bloqueados)[pid] + multiset(k.colas.suspBloqueados)[pid]
  {
  }

  lemma VecesDe(k: Kernel, pid: nat, e: EstadoP)
    requires Particionada(k.colas, k.procesos)
    ensures multiset(k.colas.De(e))[pid] == if pid in k.procesos && k.procesos[pid].estado == e then 1 else 0
  {
    assert ColaBien(k.colas.De(e), k.procesos, e);
    VecesEnCola(k.colas.De(e), pid);
  }
}
