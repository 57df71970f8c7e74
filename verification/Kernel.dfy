/** The kernel as a state machine on values: six queues, CPUs with their semaphore, ready
    semaphore and planner, IO devices, admission. Each operation is one atomic step under FIFO
    or SJF short-term planning. */
module Kernel {
  import opened Secuencias
  import opened Multisuma

  datatype EstadoP = NEW | READY | EXECUTE | BLOCKED | SUSP_BLOCKED | SUSP_READY

  datatype Pcb = Pcb(estado: EstadoP, tamanio: nat, estimado: real)

  datatype CpuK = CpuK(nombre: string, libre: bool, pid: nat)

  datatype Instancia = Instancia(nombre: string, pid: Opcion<nat>)

  /** `llegadas` and `atendidos` record who asked for the device and who got an instance. */
  datatype Dispositivo = Dispositivo(instancias: seq<Instancia>, cola: seq<nat>, llegadas: seq<nat>,
                                     atendidos: seq<nat>)

  datatype Colas = Colas(nuevos: seq<nat>, listos: seq<nat>, ejecutando: seq<nat>, bloqueados: seq<nat>,
                         suspBloqueados: seq<nat>, suspListos: seq<nat>) {
    function De(e: EstadoP): seq<nat> {
      match e
      case NEW => nuevos
      case READY => listos
      case EXECUTE => ejecutando
      case BLOCKED => bloqueados
      case SUSP_BLOCKED => suspBloqueados
      case SUSP_READY => suspListos
    }

    function Con(e: EstadoP, q: seq<nat>): (r: Colas)
      ensures forall f :: r.De(f) == if f == e then q else De(f)
    {
      match e
      case NEW => this.(nuevos := q)
      case READY => this.(listos := q)
      case EXECUTE => this.(ejecutando := q)
      case BLOCKED => this.(bloqueados := q)
      case SUSP_BLOCKED => this.(suspBloqueados := q)
      case SUSP_READY => this.(suspListos := q)
    }
  }

  datatype ConfigK = ConfigK(sjf: bool, pmcp: bool, alpha: real, estimadoInicial: real)

  /** `tomados` counts the semaphores the planner holds: 0, 1 (a CPU) or 2 (a CPU and a process).
      `finalizados` records the pids that have left. */
  datatype Kernel = Kernel(colas: Colas, procesos: map<nat, Pcb>, proximoPid: nat, finalizados: set<nat>,
                           cpus: seq<CpuK>, semCpus: nat, semReady: nat, tomados: nat,
                           ios: map<string, Dispositivo>, sesiones: map<nat, nat>)

  // ----- queues -----

  /** agregarProcesoACola: refuses a duplicate. */
  function Agregar(q: seq<nat>, pid: nat): (seq<nat>, bool)
  {
    if pid in q then (q, false) else (q + [pid], true)
  }

  /** eliminarProcesoDeCola. */
  function Eliminar(q: seq<nat>, pid: nat): (seq<nat>, bool)
  {
    if pid in q then (Sin(q, pid), true) else (q, false)
  }

  function CambiarEstado(ps: map<nat, Pcb>, pid: nat, e: EstadoP): map<nat, Pcb>
  {
    if pid in ps then ps[pid := ps[pid].(estado := e)] else ps
  }

  /** A queue move with its failure returns; the state changes only if both queues agree. */
  function Transicion(k: Kernel, pid: nat, de: EstadoP, a: EstadoP): (Kernel, bool)
  {
    var (q, estaba) := Eliminar(k.colas.De(de), pid);
    if !estaba then (k, false)
    else
      var k1 := k.(colas := k.colas.Con(de, q));
      var (r, entra) := Agregar(k1.colas.De(a), pid);
      if !entra then (k1, false)
      else (k1.(colas := k1.colas.Con(a, r), procesos := CambiarEstado(k.procesos, pid, a)), true)
  }

  /** Each queue has no repetitions and lists exactly the live processes in its state. */
  ghost predicate Particionada(c: Colas, ps: map<nat, Pcb>)
  {
    forall e :: ColaBien(c.De(e), ps, e)
  }

  ghost predicate ColaBien(q: seq<nat>, ps: map<nat, Pcb>, e: EstadoP)
  {
    SinRepetidos(q) && forall pid :: pid in q <==> pid in ps && ps[pid].estado == e
  }

  lemma MoverParticion(c: Colas, ps: map<nat, Pcb>, pid: nat, de: EstadoP, a: EstadoP)
    requires Particionada(c, ps) && pid in ps && ps[pid].estado == de && de != a
    ensures pid in c.De(de) && pid !in c.De(a)
    ensures Particionada(c.Con(de, Sin(c.De(de), pid)).Con(a, c.De(a) + [pid]), ps[pid := ps[pid].(estado := a)])
  {
    var d, ps' := c.Con(de, Sin(c.De(de), pid)).Con(a, c.De(a) + [pid]), ps[pid := ps[pid].(estado := a)];
    assert ColaBien(c.De(de), ps, de) && ColaBien(c.De(a), ps, a);
    SinCaracterizado(c.De(de), pid);
    AgregarAlFinal(c.De(a), pid);
    forall e
      ensures ColaBien(d.De(e), ps', e)
    {
      assert ColaBien(c.De(e), ps, e);
      if e == a {
        assert d.De(e) == c.De(a) + [pid];
      } else if e == de {
        assert d.De(e) == Sin(c.De(de), pid);
      } else {
        assert d.De(e) == c.De(e);
      }
    }
  }

  /** A move succeeds exactly for a live process in the state it leaves, and keeps the partition:
      the failure returns of the transition functions are unreachable. */
  lemma TransicionBien(k: Kernel, pid: nat, de: EstadoP, a: EstadoP)
    requires Particionada(k.colas, k.procesos) && de != a
    ensures var (k', ok) := Transicion(k, pid, de, a);
            && (ok <==> pid in k.procesos && k.procesos[pid].estado == de)
            && Particionada(k'.colas, k'.procesos)
            && (if ok then k' == Movido(k, pid, de, a) else k' == k)
  {
    if pid in k.procesos && k.procesos[pid].estado == de {
      MoverParticion(k.colas, k.procesos, pid, de, a);
      assert k.colas.Con(de, Sin(k.colas.De(de), pid)).De(a) == k.colas.De(a);
    } else {
      assert ColaBien(k.colas.De(de), k.procesos, de);
    }
  }

  /** A process moved from one queue to the end of another, its state changed to match. */
  function Movido(k: Kernel, pid: nat, de: EstadoP, a: EstadoP): (r: Kernel)
    requires pid in k.procesos && de != a
    ensures r.colas.De(a) == k.colas.De(a) + [pid] && r.colas.De(de) == Sin(k.colas.De(de), pid)
    ensures forall e :: e != a && e != de ==> r.colas.De(e) == k.colas.De(e)
  {
    k.(colas := k.colas.Con(de, Sin(k.colas.De(de), pid)).Con(a, k.colas.De(a) + [pid]),
       procesos := k.procesos[pid := k.procesos[pid].(estado := a)])
  }

  /** Dropping a live process from the queue of its state and from the map. */
  function Quitar(k: Kernel, pid: nat): Kernel
    requires pid in k.procesos
  {
    var e := k.procesos[pid].estado;
    k.(colas := k.colas.Con(e, Eliminar(k.colas.De(e), pid).0), procesos := k.procesos - {pid},
       finalizados := k.finalizados + {pid})
  }

  lemma QuitarBien(k: Kernel, pid: nat)
    requires Particionada(k.colas, k.procesos) && pid in k.procesos
    ensures Particionada(Quitar(k, pid).colas, Quitar(k, pid).procesos)
    ensures var e := k.procesos[pid].estado;
            && pid in k.colas.De(e) && Quitar(k, pid).colas.De(e) == Sin(k.colas.De(e), pid)
            && forall f :: f != e ==> Quitar(k, pid).colas.De(f) == k.colas.De(f)
  {
    var e, k' := k.procesos[pid].estado, Quitar(k, pid);
    assert ColaBien(k.colas.De(e), k.procesos, e);
    SinCaracterizado(k.colas.De(e), pid);
    forall f
      ensures ColaBien(k'.colas.De(f), k'.procesos, f)
    {
      assert ColaBien(k.colas.De(f), k.procesos, f);
      assert k'.colas.De(f) == if f == e then Sin(k.colas.De(e), pid) else k.colas.De(f);
    }
  }

  // ----- CPUs -----

  /** The processes on busy CPUs. */
  function EnCpus(cpus: seq<CpuK>): multiset<nat>
  {
    if cpus == [] then multiset{}
    else EnCpus(cpus[..|cpus| - 1]) + EnCpu(cpus[|cpus| - 1])
  }

  function EnCpu(c: CpuK): multiset<nat>
  {
    if c.libre then multiset{} else multiset{c.pid}
  }

  function CpusLibres(cpus: seq<CpuK>): nat
  {
    if cpus == [] then 0 else CpusLibres(cpus[..|cpus| - 1]) + (if cpus[|cpus| - 1].libre then 1 else 0)
  }

  lemma {:induction false} CambiarCpuEn(cpus: seq<CpuK>, i: nat, c: CpuK, p: nat)
    requires i < |cpus|
    ensures EnCpus(cpus[i := c])[p] + EnCpu(cpus[i])[p] == EnCpus(cpus)[p] + EnCpu(c)[p]
  {
    var k := |cpus| - 1;
    var cpus' := cpus[i := c];
    if i < k {
      CambiarCpuEn(cpus[..k], i, c, p);
      assert cpus'[..k] == cpus[..k][i := c];
    } else {
      assert cpus'[..k] == cpus[..k];
    }
  }

  lemma CambiarCpu(cpus: seq<CpuK>, i: nat, c: CpuK)
    requires i < |cpus|
    ensures EnCpus(cpus[i := c]) + EnCpu(cpus[i]) == EnCpus(cpus) + EnCpu(c)
  {
    forall p: nat
      ensures (EnCpus(cpus[i := c]) + EnCpu(cpus[i]))[p] == (EnCpus(cpus) + EnCpu(c))[p]
    {
      CambiarCpuEn(cpus, i, c, p);
    }
  }

  lemma {:induction false} CambiarLibres(cpus: seq<CpuK>, i: nat, c: CpuK)
    requires i < |cpus|
    ensures CpusLibres(cpus[i := c]) + (if cpus[i].libre then 1 else 0) == CpusLibres(cpus) + (if c.libre then 1 else 0)
  {
    var k := |cpus| - 1;
    if i < k {
      CambiarLibres(cpus[..k], i, c);
      assert cpus[i := c][..k] == cpus[..k][i := c];
    } else {
      assert cpus[i := c][..k] == cpus[..k];
    }
  }

  /** elegirCPUlibre: the first free one. */
  function PrimeraLibre(cpus: seq<CpuK>, i: nat): (r: nat)
    requires i <= |cpus|
    ensures i <= r <= |cpus| && (r < |cpus| ==> cpus[r].libre)
    ensures forall j :: i <= j < r ==> !cpus[j].libre
    decreases |cpus| - i
  {
    if i == |cpus| || cpus[i].libre then i else PrimeraLibre(cpus, i + 1)
  }

  lemma {:induction false} HayLibre(cpus: seq<CpuK>)
    ensures CpusLibres(cpus) > 0 ==> exists i :: 0 <= i < |cpus| && cpus[i].libre
  {
    if cpus != [] {
      var k := |cpus| - 1;
      HayLibre(cpus[..k]);
      if CpusLibres(cpus[..k]) > 0 {
        var i :| 0 <= i < k && cpus[..k][i].libre;
        assert cpus[i].libre;
      } else {
        assert CpusLibres(cpus) > 0 ==> cpus[k].libre;
      }
    }
  }

  lemma {:induction false} PrimeraLibreExiste(cpus: seq<CpuK>, i: nat, j: nat)
    requires i <= j < |cpus| && cpus[j].libre
    ensures PrimeraLibre(cpus, i) <= j
    decreases j - i
  {
    if i < j && !cpus[i].libre { PrimeraLibreExiste(cpus, i + 1, j); }
  }

  function LiberarCpu(k: Kernel, i: nat): Kernel
    requires i < |k.cpus|
  {
    k.(cpus := k.cpus[i := k.cpus[i].(libre := true)], semCpus := k.semCpus + 1)
  }

  // ----- IO -----

  function EnInstancias(inst: seq<Instancia>): multiset<nat>
  {
    if inst == [] then multiset{}
    else EnInstancias(inst[..|inst| - 1]) + EnInstancia(inst[|inst| - 1])
  }

  function EnInstancia(x: Instancia): multiset<nat>
  {
    if x.pid.Nada? then multiset{} else multiset{x.pid.valor}
  }

  lemma {:induction false} CambiarInstanciaEn(inst: seq<Instancia>, i: nat, x: Instancia, p: nat)
    requires i < |inst|
    ensures EnInstancias(inst[i := x])[p] + EnInstancia(inst[i])[p] == EnInstancias(inst)[p] + EnInstancia(x)[p]
  {
    var k := |inst| - 1;
    var inst' := inst[i := x];
    if i < k {
      CambiarInstanciaEn(inst[..k], i, x, p);
      assert inst'[..k] == inst[..k][i := x];
    } else {
      assert inst'[..k] == inst[..k];
    }
  }

  lemma CambiarInstancia(inst: seq<Instancia>, i: nat, x: Instancia)
    requires i < |inst|
    ensures EnInstancias(inst[i := x]) + EnInstancia(inst[i]) == EnInstancias(inst) + EnInstancia(x)
  {
    forall p: nat
      ensures (EnInstancias(inst[i := x]) + EnInstancia(inst[i]))[p] == (EnInstancias(inst) + EnInstancia(x))[p]
    {
      CambiarInstanciaEn(inst, i, x, p);
    }
  }

  /** Everybody at a device: being served or waiting. */
  function EnDispositivo(d: Dispositivo): multiset<nat>
  {
    EnInstancias(d.instancias) + multiset(d.cola)
  }

  function PorDispositivo(ios: map<string, Dispositivo>): map<string, multiset<nat>>
  {
    map n | n in ios :: EnDispositivo(ios[n])
  }

  function InstanciaLibre(inst: seq<Instancia>, i: nat): (r: nat)
    requires i <= |inst|
    ensures i <= r <= |inst| && (r < |inst| ==> inst[r].pid == Nada)
    ensures forall j :: i <= j < r ==> inst[j].pid.Algo?
    decreases |inst| - i
  {
    if i == |inst| || inst[i].pid == Nada then i else InstanciaLibre(inst, i + 1)
  }

  /** With a free instance the process goes in at once, otherwise to the end of the queue. */
  function PedirIO(d: Dispositivo, pid: nat): Dispositivo
  {
    var pos := InstanciaLibre(d.instancias, 0);
    if pos < |d.instancias| then
      d.(instancias := d.instancias[pos := d.instancias[pos].(pid := Algo(pid))],
         llegadas := d.llegadas + [pid], atendidos := d.atendidos + [pid])
    else d.(cola := d.cola + [pid], llegadas := d.llegadas + [pid])
  }

  /** The instance is freed, and goes to the head of the queue if somebody waits. */
  function TerminarIO(d: Dispositivo, pos: nat): Dispositivo
    requires pos < |d.instancias|
  {
    if d.cola == [] then d.(instancias := d.instancias[pos := d.instancias[pos].(pid := Nada)])
    else
      d.(instancias := d.instancias[pos := d.instancias[pos].(pid := Algo(d.cola[0]))],
         cola := d.cola[1..], atendidos := d.atendidos + [d.cola[0]])
  }

  /** Work conserving, and first come first served over its whole history. */
  ghost predicate DispositivoBien(d: Dispositivo)
  {
    && (d.cola != [] ==> forall i :: 0 <= i < |d.instancias| ==> d.instancias[i].pid.Algo?)
    && d.llegadas == d.atendidos + d.cola
    && (forall i, j :: 0 <= i < j < |d.instancias| ==> d.instancias[i].nombre != d.instancias[j].nombre)
  }

  lemma PedirIOBien(d: Dispositivo, pid: nat)
    requires DispositivoBien(d)
    ensures DispositivoBien(PedirIO(d, pid))
  {
    var pos := InstanciaLibre(d.instancias, 0);
    if pos < |d.instancias| {
      assert d.cola == [];
    } else {
      assert PedirIO(d, pid).llegadas == d.atendidos + (d.cola + [pid]);
    }
  }

  lemma PedirIOSuma(d: Dispositivo, pid: nat)
    ensures EnDispositivo(PedirIO(d, pid)) == EnDispositivo(d) + multiset{pid}
  {
    var pos := InstanciaLibre(d.instancias, 0);
    if pos < |d.instancias| {
      CambiarInstancia(d.instancias, pos, d.instancias[pos].(pid := Algo(pid)));
      assert EnInstancia(d.instancias[pos]) == multiset{};
      Conmutan(EnInstancias(d.instancias), multiset(d.cola), multiset{pid});
    } else {
      assert multiset(d.cola + [pid]) == multiset(d.cola) + multiset{pid};
      Asociativa(EnInstancias(d.instancias), multiset(d.cola), multiset{pid});
    }
  }

  lemma TerminarIOBien(d: Dispositivo, pos: nat)
    requires DispositivoBien(d) && pos < |d.instancias| && d.instancias[pos].pid.Algo?
    ensures DispositivoBien(TerminarIO(d, pos))
  {
    if d.cola != [] {
      assert d.atendidos + d.cola == d.atendidos + [d.cola[0]] + d.cola[1..];
    }
  }

  lemma TerminarIOSuma(d: Dispositivo, pos: nat)
    requires pos < |d.instancias| && d.instancias[pos].pid.Algo?
    ensures EnDispositivo(TerminarIO(d, pos)) + multiset{d.instancias[pos].pid.valor} == EnDispositivo(d)
  {
    var x, a := multiset{d.instancias[pos].pid.valor}, EnInstancias(d.instancias);
    if d.cola == [] {
      CambiarInstancia(d.instancias, pos, d.instancias[pos].(pid := Nada));
      var a' := EnInstancias(TerminarIO(d, pos).instancias);
      assert a' + x == a;
      Conmutan(a', x, multiset(d.cola));
    } else {
      CambiarInstancia(d.instancias, pos, d.instancias[pos].(pid := Algo(d.cola[0])));
      var a', h, r := EnInstancias(TerminarIO(d, pos).instancias), multiset{d.cola[0]}, multiset(d.cola[1..]);
      assert d.cola == [d.cola[0]] + d.cola[1..];
      assert multiset(d.cola) == h + r;
      assert a' + x == a + h;
      Conmutan(a', x, r);
      Asociativa(a, h, r);
      assert (a' + r) + x == (a + h) + r;
    }
  }
}
