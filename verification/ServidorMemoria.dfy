/** One request served by the memory module is one step of the runs of ManejadorMemoria. */
module ServidorMemoria {
  import opened Aritmetica
  import opened Secuencias
  import opened TablaPaginas
  import opened Memoria
  import opened RefinamientoMemoria
  import opened CorridasMemoria
  import opened ManejadorMemoria
  import opened ModuloMemoria

  /** What the callers guarantee. */
  ghost predicate Atendible(c: Config, m: Estado, op: Op)
  {
    match op
    case OpAlmacenar(pid, tam) =>
      pid !in m.procesos && tam >= 1 && ConfigValida(c) && Abarca(c.niveles, c.entradas, Techo(tam, c.pagina))
    case OpLeer(pid, _, desp, tam) => EnMemoria(m, pid) && desp + tam <= c.pagina
    case OpEscribir(pid, _, desp, _) => EnMemoria(m, pid) && desp < c.pagina
    case OpSuspender(pid) => pid in m.procesos && !m.procesos[pid].suspendido
    case OpReanudar(pid) => pid in m.procesos && m.procesos[pid].suspendido
    case OpFinalizar(pid) => pid in m.procesos
  }

  /** A process of a good state meets what the in-place operations ask for. */
  lemma ListoParaOperar(c: Config, m: Estado, pid: nat)
    requires Inv(c, m) && pid in m.procesos
    ensures ProcesoBien(c, m.procesos[pid]) && |m.swap| == |m.indices|
    ensures if m.procesos[pid].suspendido then EnSwap(m, pid)
            else Residente(m, pid) &&
                 forall i :: 0 <= i < |MarcosDe(m.procesos[pid].tabla)| ==>
                   m.ocupados[MarcosDe(m.procesos[pid].tabla)[i]]
  {
    assert ProcesoBien(c, m.procesos[pid]);
    InvVisible(c, m);
    if !m.procesos[pid].suspendido {
      assert DuenosMarcos(m.procesos)[pid] <= Ocupadas(m.ocupados);
      ResidenteBien(m, pid);
    }
  }

  /** The moves of a process between phases. */
  method AtenderCambio(mem: MemoriaPrincipal, op: Op)
    requires mem.Valid() && Inv(mem.c, mem.Modelo()) && Atendible(mem.c, mem.Modelo(), op)
    requires op.OpSuspender? || op.OpReanudar? || op.OpFinalizar?
    modifies mem, mem.memoria, mem.marcosOcupados
    ensures mem.Valid() && PasoManejador(mem.c, old(mem.Modelo()), op, mem.Modelo())
  {
    ghost var m := mem.Modelo();
    ListoParaOperar(mem.c, m, op.pid);
    match op {
      case OpSuspender(pid) => mem.SuspenderProceso(pid);
      case OpReanudar(pid) => var r := mem.ReanudarProceso(pid);
      case OpFinalizar(pid) => mem.FinalizarProceso(pid);
    }
  }

  method AtenderLectura(mem: MemoriaPrincipal, op: Op) returns (r: Opcion<seq<byte>>)
    requires mem.Valid() && op.OpLeer? && op.pid in mem.procesos && op.desp + op.tam <= mem.c.pagina
    requires mem.MarcosExisten(op.pid, op.pag)
    ensures r == Leido(mem.c, mem.Modelo(), op)
  {
    r := mem.LeerUsuario(op.pid, op.pag, op.desp, op.tam);
  }

  lemma LecturaEsPaso(c: Config, m: Estado, op: Op)
    requires Inv(c, m) && Atendible(c, m, op) && op.OpLeer?
    ensures PasoManejador(c, m, op, m)
  {
  }

  method AtenderEscritura(mem: MemoriaPrincipal, op: Op)
    requires mem.Valid() && Inv(mem.c, mem.Modelo()) && Atendible(mem.c, mem.Modelo(), op) && op.OpEscribir?
    modifies mem.memoria
    ensures mem.Valid() && PasoManejador(mem.c, old(mem.Modelo()), op, mem.Modelo())
  {
    MarcoExacto(mem.c, mem.Modelo(), op.pid, op.pag);
    var e := mem.EscribirUsuario(op.pid, op.pag, op.desp, op.dato);
  }

  /** One request, and what a read answers. */
  method Atender(mem: MemoriaPrincipal, op: Op) returns (r: Opcion<seq<byte>>)
    requires mem.Valid() && Inv(mem.c, mem.Modelo()) && Atendible(mem.c, mem.Modelo(), op)
    modifies mem, mem.memoria, mem.marcosOcupados
    ensures mem.Valid() && PasoManejador(mem.c, old(mem.Modelo()), op, mem.Modelo())
    ensures r == Leido(mem.c, old(mem.Modelo()), op)
  {
    r := Nada;
    if op.OpLeer? {
      MarcoExacto(mem.c, mem.Modelo(), op.pid, op.pag);
      LecturaEsPaso(mem.c, mem.Modelo(), op);
      r := AtenderLectura(mem, op);
    } else if op.OpEscribir? {
      AtenderEscritura(mem, op);
    } else if op.OpAlmacenar? {
      var e := mem.AlmacenarProceso(op.pid, op.tamanio);
    } else {
      AtenderCambio(mem, op);
    }
  }
}
