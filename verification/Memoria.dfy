/** The memory module as a state machine on values: frames, bitmap, page tables and swap, the
    operations of memoria/utils, and the refinement theorem that they act like one private
    array of pages per process. */
module Memoria {
  import opened Aritmetica
  import opened Secuencias
  import opened TablaPaginas
  import opened Propiedad

  newtype byte = x: int | 0 <= x < 256
  type Pagina = seq<byte>

  datatype Config = Config(pagina: nat, niveles: nat, entradas: nat)

  predicate ConfigValida(c: Config)
  {
    c.pagina >= 1 && c.niveles >= 1 && c.entradas >= 1
  }

  datatype Proceso = Proceso(suspendido: bool, tabla: Tabla, inicioSwap: nat, cantidad: nat)

  /** `marcos` is physical memory cut into frames; `swap` is the swap file cut into pages. */
  datatype Estado = Estado(marcos: seq<Pagina>, ocupados: seq<bool>, procesos: map<nat, Proceso>,
                           indices: seq<bool>, swap: seq<Pagina>)

  function Cero(c: Config): Pagina
  {
    seq(c.pagina, _ => 0)
  }

  function Inicial(c: Config, cantidadMarcos: nat): Estado
  {
    Estado(seq(cantidadMarcos, _ => Cero(c)), seq(cantidadMarcos, _ => false), map[], [], [])
  }

  // ----- the two allocators -----

  /** The lowest free frames; asking for none still yields one. */
  function BuscarMarcos(ocupados: seq<bool>, cantidad: nat): (r: Opcion<seq<nat>>)
    ensures r.Algo? ==> |r.valor| == if cantidad == 0 then 1 else cantidad
  {
    var k := if cantidad == 0 then 1 else cantidad;
    if |Libres(ocupados)| >= k then Algo(Libres(ocupados)[..k]) else Nada
  }

  lemma MarcosBuscados(ocupados: seq<bool>, cantidad: nat)
    ensures BuscarMarcos(ocupados, cantidad).Nada? <==> |Libres(ocupados)| < (if cantidad == 0 then 1 else cantidad)
    ensures BuscarMarcos(ocupados, cantidad).Algo? ==>
              var fs := BuscarMarcos(ocupados, cantidad).valor;
              && SinRepetidos(fs)
              && (forall i :: 0 <= i < |fs| ==> 0 <= fs[i] < |ocupados| && !ocupados[fs[i]])
              && (forall x, i :: 0 <= i < |fs| && 0 <= x < fs[i] && !ocupados[x] ==> x in fs)
  {
    var l := Libres(ocupados);
    LibresCaracterizado(ocupados);
    if BuscarMarcos(ocupados, cantidad).Algo? {
      var fs := BuscarMarcos(ocupados, cantidad).valor;
      forall x, i | 0 <= i < |fs| && 0 <= x < fs[i] && !ocupados[x]
        ensures x in fs
      {
        assert x in l;
        var j :| 0 <= j < |l| && l[j] == x;
        assert j < i;
        assert fs[j] == x;
      }
    }
  }

  predicate BloqueLibre(indices: seq<bool>, i: nat, n: nat)
  {
    i + n <= |indices| && forall j :: i <= j < i + n ==> !indices[j]
  }

  /** First fit from position `i`, or the end of the table. */
  function PrimerHueco(indices: seq<bool>, n: nat, i: nat): (r: nat)
    requires i <= |indices|
    ensures r <= |indices|
    decreases |indices| - i
  {
    if i + n > |indices| then |indices|
    else if BloqueLibre(indices, i, n) then i
    else PrimerHueco(indices, n, i + 1)
  }

  lemma {:induction false} HuecoCaracterizado(indices: seq<bool>, n: nat, i: nat)
    requires i <= |indices|
    ensures var r := PrimerHueco(indices, n, i);
            && i <= r
            && (forall k: nat :: i <= k < r ==> !BloqueLibre(indices, k, n))
            && (BloqueLibre(indices, r, n) || r == |indices|)
            && (forall j :: r <= j < r + n && j < |indices| ==> !indices[j])
    decreases |indices| - i
  {
    if i + n <= |indices| && !BloqueLibre(indices, i, n) {
      HuecoCaracterizado(indices, n, i + 1);
    }
  }

  // ----- operations -----

  function Contenidos(marcos: seq<Pagina>, fs: seq<nat>): (r: seq<Pagina>)
    requires forall i :: 0 <= i < |fs| ==> 0 <= fs[i] < |marcos|
    ensures |r| == |fs|
  {
    seq(|fs|, i requires 0 <= i < |fs| => marcos[fs[i]])
  }

  function Vaciar(c: Config, marcos: seq<Pagina>, fs: seq<nat>): (r: seq<Pagina>)
    ensures |r| == |marcos|
  {
    seq(|marcos|, x requires 0 <= x < |marcos| => if x in fs then Cero(c) else marcos[x])
  }

  /** AlmacenarProceso: claim frames, build the table; refuse when there are too few frames. */
  ghost function Almacenar(c: Config, m: Estado, pid: nat, tamanio: nat): Estado
    requires ConfigValida(c)
  {
    var n := Techo(tamanio, c.pagina);
    match BuscarMarcos(m.ocupados, n)
    case Nada => m
    case Algo(fs) =>
      m.(ocupados := if n != 0 then Marcar(m.ocupados, fs, true) else m.ocupados,
         procesos := m.procesos[pid :=
           Proceso(false, if n != 0 then Arbol(c.niveles, c.entradas, 0, fs) else Tabla([]), 0, |fs|)])
  }

  /** What suspending needs of its process: it is resident, on frames that exist. */
  predicate Residente(m: Estado, pid: nat)
  {
    && |m.marcos| == |m.ocupados|
    && pid in m.procesos
    && !m.procesos[pid].suspendido
    && var fs := MarcosDe(m.procesos[pid].tabla);
       forall i :: 0 <= i < |fs| ==> 0 <= fs[i] < |m.marcos|
  }

  /** Frames emptied, pages moved to the first swap block that fits, block start recorded. */
  function Suspender(c: Config, m: Estado, pid: nat): Estado
    requires Residente(m, pid) && |m.swap| == |m.indices|
  {
    var p := m.procesos[pid];
    var fs := MarcosDe(p.tabla);
    var inicio := PrimerHueco(m.indices, |fs|, 0);
    Estado(Vaciar(c, m.marcos, fs),
           Marcar(m.ocupados, fs, false),
           m.procesos[pid := p.(suspendido := true, inicioSwap := inicio)],
           Sobrescribir(m.indices, inicio, Repetido(true, |fs|)),
           Sobrescribir(m.swap, inicio, Contenidos(m.marcos, fs)))
  }

  /** The handler as written: it stores back the record it copied before the block start was set. */
  function SuspenderManejador(c: Config, m: Estado, pid: nat): Estado
    requires Residente(m, pid) && |m.swap| == |m.indices|
  {
    var s := Suspender(c, m, pid);
    s.(procesos := s.procesos[pid := m.procesos[pid].(suspendido := true)])
  }

  predicate EnSwap(m: Estado, pid: nat)
  {
    && |m.marcos| == |m.ocupados| && |m.swap| == |m.indices|
    && pid in m.procesos
    && m.procesos[pid].suspendido
    && m.procesos[pid].inicioSwap + m.procesos[pid].cantidad <= |m.indices|
  }

  function Ceros(c: Config, n: nat): (r: seq<Pagina>)
    ensures |r| == n
  {
    seq(n, _ => Cero(c))
  }

  /** A suspended process's block moved into the frames `fs`, the block cleared and freed. */
  function Reubicar(c: Config, m: Estado, pid: nat, fs: seq<nat>): (r: Estado)
    requires EnSwap(m, pid) && |fs| == m.procesos[pid].cantidad
    requires forall i :: 0 <= i < |fs| ==> fs[i] < |m.marcos|
  {
    var p := m.procesos[pid];
    Estado(Poner(m.marcos, fs, m.swap[p.inicioSwap..p.inicioSwap + |fs|]),
           Marcar(m.ocupados, fs, true),
           m.procesos[pid := p.(suspendido := false, tabla := Tabla(Relinkear(p.tabla.entradas, PorPagina(fs))))],
           Sobrescribir(m.indices, p.inicioSwap, Repetido(false, |fs|)),
           Sobrescribir(m.swap, p.inicioSwap, Ceros(c, |fs|)))
  }

  function PorPagina(fs: seq<nat>): map<nat, nat>
  {
    map i: nat | i < |fs| :: fs[i]
  }

  /** ReanudarProceso of a suspended process: refuse without room, else bring its pages back. */
  function Reanudar(c: Config, m: Estado, pid: nat): Estado
    requires EnSwap(m, pid)
  {
    var p := m.procesos[pid];
    var n := p.cantidad;
    if n == 0 then m.(procesos := m.procesos[pid := p.(suspendido := false)])
    else
      match BuscarMarcos(m.ocupados, n)
      case Nada => m
      case Algo(fs) => MarcosBuscados(m.ocupados, n); Reubicar(c, m, pid, fs)
  }

  /** FinalizarProceso of a known process. */
  function Finalizar(c: Config, m: Estado, pid: nat): Estado
    requires Residente(m, pid) || EnSwap(m, pid)
  {
    var p := m.procesos[pid];
    if p.suspendido then
      m.(indices := Sobrescribir(m.indices, p.inicioSwap, Repetido(false, p.cantidad)),
         swap := Sobrescribir(m.swap, p.inicioSwap, Ceros(c, p.cantidad)),
         procesos := m.procesos - {pid})
    else
      m.(marcos := Vaciar(c, m.marcos, MarcosDe(p.tabla)),
         ocupados := Marcar(m.ocupados, MarcosDe(p.tabla), false),
         procesos := m.procesos - {pid})
  }

  predicate EnMemoria(m: Estado, pid: nat)
  {
    pid in m.procesos && !m.procesos[pid].suspendido
  }

  /** The page number as its digits tell it: modulo entries per table to the levels. */
  function PaginaDe(c: Config, pagina: nat): nat
    requires ConfigValida(c)
  {
    NumeroVisto(pagina, c.entradas, c.niveles)
  }

  /** The number is that of a page of the process, below what the tree can tell apart. */
  predicate Traducible(c: Config, m: Estado, pid: nat, pagina: nat)
    requires ConfigValida(c)
  {
    && EnMemoria(m, pid)
    && PaginaDe(c, pagina) < m.procesos[pid].cantidad && PaginaDe(c, pagina) < Capacidad(c.niveles, c.entradas)
  }

  /** The frame the CPU gets for a page: its digits, then the walk. */
  function Marco(c: Config, m: Estado, pid: nat, pagina: nat): Busqueda
    requires ConfigValida(c) && pid in m.procesos
  {
    Buscar(m.procesos[pid].tabla, Digitos(pagina, c.entradas, c.niveles))
  }

  /** A user write through translation, at an offset of a page: refused if the walk finds no frame
      or the datum would cross the end of the page. */
  function Escribir(c: Config, m: Estado, pid: nat, pag: nat, desp: nat, dato: seq<byte>): Estado
    requires ConfigValida(c) && pid in m.procesos && desp < c.pagina
    requires forall f :: 0 <= f < |m.marcos| ==> |m.marcos[f]| == c.pagina
  {
    var r := Marco(c, m, pid, pag);
    if !r.Encontrado? || !(0 <= r.marco < |m.marcos|) || |dato| > c.pagina - desp then m
    else m.(marcos := m.marcos[r.marco := Sobrescribir(m.marcos[r.marco], desp, dato)])
  }

  // ----- the invariant -----

  function PropiosMarcos(p: Proceso): set<nat>
  {
    if p.suspendido then {} else Conjunto(MarcosDe(p.tabla))
  }

  function PropiosSwap(p: Proceso): set<nat>
  {
    if p.suspendido then Bloque(p.inicioSwap, p.cantidad) else {}
  }

  function DuenosMarcos(ps: map<nat, Proceso>): map<nat, set<nat>>
  {
    map pid | pid in ps :: PropiosMarcos(ps[pid])
  }

  function DuenosSwap(ps: map<nat, Proceso>): map<nat, set<nat>>
  {
    map pid | pid in ps :: PropiosSwap(ps[pid])
  }

  /** A process record: its table is a built tree over its frames, large enough to hold them. */
  ghost predicate ProcesoBien(c: Config, p: Proceso)
    requires ConfigValida(c)
  {
    var fs := MarcosDe(p.tabla);
    && p.tabla == Arbol(c.niveles, c.entradas, 0, fs)
    && |fs| == p.cantidad >= 1
    && Abarca(c.niveles, c.entradas, |fs|)
    && (!p.suspendido ==> SinRepetidos(fs))
  }

  /** Replacing one record, or dropping it, changes one owner. */
  lemma DuenosCambian(ps: map<nat, Proceso>, pid: nat, p: Proceso)
    ensures DuenosMarcos(ps[pid := p]) == DuenosMarcos(ps)[pid := PropiosMarcos(p)]
    ensures DuenosSwap(ps[pid := p]) == DuenosSwap(ps)[pid := PropiosSwap(p)]
  {
    MarcosCambian(ps, pid, p);
    SwapCambia(ps, pid, p);
  }

  lemma MarcosCambian(ps: map<nat, Proceso>, pid: nat, p: Proceso)
    ensures DuenosMarcos(ps[pid := p]) == DuenosMarcos(ps)[pid := PropiosMarcos(p)]
  {
  }

  lemma SwapCambia(ps: map<nat, Proceso>, pid: nat, p: Proceso)
    ensures DuenosSwap(ps[pid := p]) == DuenosSwap(ps)[pid := PropiosSwap(p)]
  {
  }

  lemma DuenoSale(ps: map<nat, Proceso>, pid: nat)
    ensures DuenosMarcos(ps - {pid}) == DuenosMarcos(ps) - {pid}
    ensures DuenosSwap(ps - {pid}) == DuenosSwap(ps) - {pid}
  {
  }

  ghost predicate Formas(c: Config, m: Estado)
  {
    && |m.marcos| == |m.ocupados|
    && |m.swap| == |m.indices|
    && (forall f :: 0 <= f < |m.marcos| ==> |m.marcos[f]| == c.pagina)
    && (forall f :: 0 <= f < |m.swap| ==> |m.swap[f]| == c.pagina)
  }

  ghost predicate LibresEnCero(c: Config, m: Estado)
    requires |m.marcos| == |m.ocupados|
  {
    forall f :: 0 <= f < |m.marcos| && !m.ocupados[f] ==> m.marcos[f] == Cero(c)
  }

  ghost predicate Inv(c: Config, m: Estado)
  {
    && ConfigValida(c)
    && Formas(c, m)
    && LibresEnCero(c, m)
    && (forall pid :: pid in m.procesos ==> ProcesoBien(c, m.procesos[pid]))
    && Particion(DuenosMarcos(m.procesos), Ocupadas(m.ocupados))
    && Particion(DuenosSwap(m.procesos), Ocupadas(m.indices))
  }

  lemma InicialBien(c: Config, n: nat)
    requires ConfigValida(c)
    ensures Inv(c, Inicial(c, n))
  {
    assert Ocupadas(Inicial(c, n).ocupados) == {};
    assert Ocupadas(Inicial(c, n).indices) == {};
  }

  // ----- the abstraction: one array of pages per process -----

  /** The places a process's pages are kept in exist. */
  predicate Visible(m: Estado, p: Proceso)
  {
    if p.suspendido then p.inicioSwap + p.cantidad <= |m.swap|
    else forall i :: 0 <= i < |MarcosDe(p.tabla)| ==> MarcosDe(p.tabla)[i] < |m.marcos|
  }

  /** The pages a process sees: through its table, or in its swap block. */
  function Paginas(m: Estado, p: Proceso): (r: seq<Pagina>)
    requires Visible(m, p)
  {
    if p.suspendido then m.swap[p.inicioSwap..p.inicioSwap + p.cantidad]
    else Contenidos(m.marcos, MarcosDe(p.tabla))
  }

  predicate TodosVisibles(m: Estado)
  {
    forall pid :: pid in m.procesos ==> Visible(m, m.procesos[pid])
  }

  function Abs(m: Estado): map<nat, seq<Pagina>>
    requires TodosVisibles(m)
  {
    map pid | pid in m.procesos :: Paginas(m, m.procesos[pid])
  }

  /** A resident process's frames exist and are marked. */
  lemma ResidenteBien(m: Estado, pid: nat)
    requires |m.marcos| == |m.ocupados|
    requires pid in m.procesos && !m.procesos[pid].suspendido
    requires DuenosMarcos(m.procesos)[pid] <= Ocupadas(m.ocupados)
    ensures Residente(m, pid)
    ensures var fs := MarcosDe(m.procesos[pid].tabla);
            forall i :: 0 <= i < |fs| ==> fs[i] < |m.marcos| && m.ocupados[fs[i]]
  {
    var fs := MarcosDe(m.procesos[pid].tabla);
    forall i | 0 <= i < |fs|
      ensures fs[i] < |m.marcos| && m.ocupados[fs[i]]
    {
      assert fs[i] in Conjunto(fs);
      assert fs[i] in Ocupadas(m.ocupados);
    }
  }

  lemma EnSwapBien(m: Estado, pid: nat)
    requires |m.marcos| == |m.ocupados| && |m.swap| == |m.indices|
    requires pid in m.procesos && m.procesos[pid].suspendido && m.procesos[pid].cantidad >= 1
    requires DuenosSwap(m.procesos)[pid] <= Ocupadas(m.indices)
    ensures EnSwap(m, pid)
  {
    var p := m.procesos[pid];
    assert p.inicioSwap + p.cantidad - 1 in Ocupadas(m.indices);
  }

  lemma InvVisible(c: Config, m: Estado)
    requires Inv(c, m)
    ensures TodosVisibles(m)
    ensures forall pid :: pid in m.procesos ==>
              if m.procesos[pid].suspendido then EnSwap(m, pid) else Residente(m, pid)
  {
    forall pid | pid in m.procesos
      ensures Visible(m, m.procesos[pid])
      ensures if m.procesos[pid].suspendido then EnSwap(m, pid) else Residente(m, pid)
    {
      assert ProcesoBien(c, m.procesos[pid]);
      assert DuenosMarcos(m.procesos)[pid] <= Ocupadas(m.ocupados);
      assert DuenosSwap(m.procesos)[pid] <= Ocupadas(m.indices);
      if m.procesos[pid].suspendido {
        EnSwapBien(m, pid);
      } else {
        ResidenteBien(m, pid);
      }
    }
  }
}
