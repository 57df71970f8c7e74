/** Whole runs of the memory module and the address-space guarantees they give. */
module CorridasMemoria {
  import opened Aritmetica
  import opened Secuencias
  import opened TablaPaginas
  import opened Propiedad
  import opened Memoria
  import opened RefinamientoMemoria
  import opened MemoriaFisica

  // ----- runs -----

  datatype Op =
    | OpAlmacenar(pid: nat, tamanio: nat)
    | OpLeer(pid: nat, pag: nat, desp: nat, tam: nat)
    | OpEscribir(pid: nat, pag: nat, desp: nat, dato: seq<byte>)
    | OpSuspender(pid: nat)
    | OpReanudar(pid: nat)
    | OpFinalizar(pid: nat)

  /** One request and the state it leads to. Guards: sizes fit the table, and processes are in the
      phase the kernel calls for. User addresses, cut into page and offset, may be outside the
      process; a read stays in its page. Suspension is the composition of the helper functions. */
  ghost predicate Paso(c: Config, m: Estado, op: Op, m': Estado)
    requires Inv(c, m)
  {
    match op
    case OpAlmacenar(pid, tam) =>
      && pid !in m.procesos && tam >= 1 && Abarca(c.niveles, c.entradas, Techo(tam, c.pagina))
      && m' == Almacenar(c, m, pid, tam)
    case OpLeer(pid, pag, desp, tam) => EnMemoria(m, pid) && desp + tam <= c.pagina && m' == m
    case OpEscribir(pid, pag, desp, dato) =>
      EnMemoria(m, pid) && desp < c.pagina && m' == Escribir(c, m, pid, pag, desp, dato)
    case OpSuspender(pid) => InvVisible(c, m); Residente(m, pid) && m' == Suspender(c, m, pid)
    case OpReanudar(pid) => EnSwap(m, pid) && m' == Reanudar(c, m, pid)
    case OpFinalizar(pid) => pid in m.procesos && (InvVisible(c, m); m' == Finalizar(c, m, pid))
  }

  /** What a read answers: the walk of the page's digits, then `leer` in the frame found; refused if
      the walk finds none. */
  function Leido(c: Config, m: Estado, op: Op): Opcion<seq<byte>>
    requires ConfigValida(c)
  {
    match op
    case OpLeer(pid, pag, desp, tam) =>
      if pid !in m.procesos then Nada
      else
        var r := Marco(c, m, pid, pag);
        if r.Encontrado? && 0 <= r.marco < |m.marcos| && desp + tam <= |m.marcos[r.marco]|
        then Algo(Texto(m.marcos[r.marco][desp..desp + tam])) else Nada
    case _ => Nada
  }

  /** The page of its array that a process means by a page number, if there is one. */
  predicate Dentro(c: Config, a: map<nat, seq<Pagina>>, pid: nat, pag: nat)
    requires ConfigValida(c)
  {
    pid in a && PaginaDe(c, pag) < |a[pid]| && PaginaDe(c, pag) < Capacidad(c.niveles, c.entradas)
  }

  /** The bytes of the private array that a read asks for; nothing outside it. */
  function BytesAbs(c: Config, a: map<nat, seq<Pagina>>, op: Op): Opcion<seq<byte>>
    requires ConfigValida(c)
  {
    match op
    case OpLeer(pid, pag, desp, tam) =>
      if Dentro(c, a, pid, pag) && desp + tam <= |a[pid][PaginaDe(c, pag)]|
      then Algo(a[pid][PaginaDe(c, pag)][desp..desp + tam]) else Nada
    case _ => Nada
  }

  /** The same request on the abstract map. The number of free frames decides only whether a
      store is accepted. */
  function PasoAbs(c: Config, a: map<nat, seq<Pagina>>, op: Op, libres: nat): map<nat, seq<Pagina>>
    requires ConfigValida(c)
  {
    match op
    case OpAlmacenar(pid, tam) => if libres < Techo(tam, c.pagina) then a else a[pid := Ceros(c, Techo(tam, c.pagina))]
    case OpLeer(_, _, _, _) => a
    case OpEscribir(pid, pag, desp, dato) =>
      if Dentro(c, a, pid, pag) && desp + |dato| <= c.pagina && |a[pid][PaginaDe(c, pag)]| == c.pagina
      then a[pid := EscribirPagina(a[pid], PaginaDe(c, pag), desp, dato)] else a
    case OpSuspender(_) => a
    case OpReanudar(_) => a
    case OpFinalizar(pid) => a - {pid}
  }

  lemma CantidadMarcosFija(c: Config, m: Estado, op: Op, m': Estado)
    requires Inv(c, m) && Paso(c, m, op, m') && (op.OpAlmacenar? || op.OpReanudar?)
    ensures |m'.marcos| == |m.marcos|
  {
  }

  /** The invariant is kept, and the views of the processes change as the abstract map does. */
  ghost predicate Refinado(c: Config, m: Estado, op: Op, m': Estado)
    requires ConfigValida(c)
  {
    && Inv(c, m') && |m'.marcos| == |m.marcos|
    && TodosVisibles(m) && TodosVisibles(m') && Abs(m') == PasoAbs(c, Abs(m), op, |Libres(m.ocupados)|)
  }

  lemma PasoEscribir(c: Config, m: Estado, op: Op, m': Estado)
    requires Inv(c, m) && Paso(c, m, op, m') && op.OpEscribir?
    ensures Refinado(c, m, op, m')
  {
    EscribirRefina(c, m, op.pid, op.pag, op.desp, op.dato);
    EscribirAbs(c, Abs(m), op, |Libres(m.ocupados)|);
    assert |m'.marcos| == |m.marcos|;
  }

  lemma EscribirAbs(c: Config, a: map<nat, seq<Pagina>>, op: Op, libres: nat)
    requires ConfigValida(c) && op.OpEscribir? && op.pid in a && op.desp < c.pagina
    requires forall i :: 0 <= i < |a[op.pid]| ==> |a[op.pid][i]| == c.pagina
    ensures PasoAbs(c, a, op, libres)
         == if !Dentro(c, a, op.pid, op.pag) || op.desp + |op.dato| > c.pagina then a
            else a[op.pid := EscribirPagina(a[op.pid], PaginaDe(c, op.pag), op.desp, op.dato)]
  {
  }

  lemma PasoAlmacenar(c: Config, m: Estado, op: Op, m': Estado)
    requires Inv(c, m) && Paso(c, m, op, m') && op.OpAlmacenar?
    ensures Refinado(c, m, op, m')
  {
    CantidadMarcosFija(c, m, op, m');
    AlmacenarRefina(c, m, op.pid, op.tamanio);
  }

  lemma PasoReanudar(c: Config, m: Estado, op: Op, m': Estado)
    requires Inv(c, m) && Paso(c, m, op, m') && op.OpReanudar?
    ensures Refinado(c, m, op, m')
  {
    CantidadMarcosFija(c, m, op, m');
    ReanudarRefina(c, m, op.pid);
  }

  lemma PasoSale(c: Config, m: Estado, op: Op, m': Estado)
    requires Inv(c, m) && Paso(c, m, op, m') && (op.OpSuspender? || op.OpFinalizar?)
    ensures Refinado(c, m, op, m')
  {
    match op {
      case OpSuspender(pid) => SuspenderRefina(c, m, pid);
      case OpFinalizar(pid) => FinalizarRefina(c, m, pid);
    }
  }

  lemma PasoLeer(c: Config, m: Estado, op: Op, m': Estado)
    requires Inv(c, m) && Paso(c, m, op, m') && op.OpLeer?
    ensures Refinado(c, m, op, m')
  {
    InvVisible(c, m);
  }

  lemma PasoRefina(c: Config, m: Estado, op: Op, m': Estado)
    requires Inv(c, m) && Paso(c, m, op, m')
    ensures Refinado(c, m, op, m')
  {
    match op {
      case OpAlmacenar(_, _) => PasoAlmacenar(c, m, op, m');
      case OpLeer(_, _, _, _) => PasoLeer(c, m, op, m');
      case OpEscribir(_, _, _, _) => PasoEscribir(c, m, op, m');
      case OpSuspender(_) => PasoSale(c, m, op, m');
      case OpReanudar(_) => PasoReanudar(c, m, op, m');
      case OpFinalizar(_) => PasoSale(c, m, op, m');
    }
  }

  /** The bytes as `leer` gives them, each through its rune. */
  function ComoTexto(b: Opcion<seq<byte>>): Opcion<seq<byte>>
  {
    match b
    case Nada => Nada
    case Algo(bytes) => Algo(Texto(bytes))
  }

  /** A read through translation and memory gives the bytes of the process's own array, each
      through its rune, and is refused exactly outside it. */
  lemma PasoLee(c: Config, m: Estado, op: Op, m': Estado)
    requires Inv(c, m) && Paso(c, m, op, m') && op.OpLeer?
    ensures TodosVisibles(m) && Leido(c, m, op) == ComoTexto(BytesAbs(c, Abs(m), op))
    ensures BytesAbs(c, Abs(m), op).Algo? <==> Dentro(c, Abs(m), op.pid, op.pag)
    ensures BytesAbs(c, Abs(m), op).Algo? ==> |BytesAbs(c, Abs(m), op).valor| == op.tam
  {
    MarcoExacto(c, m, op.pid, op.pag);
    PaginasEnteras(c, m, op.pid);
    if Traducible(c, m, op.pid, op.pag) { LeerRefina(c, m, op.pid, op.pag); }
  }

  /** States es[0], es[1], ... linked by the requests ops[0], ops[1], ... */
  ghost predicate Corrida(c: Config, es: seq<Estado>, ops: seq<Op>)
  {
    && |es| == |ops| + 1
    && forall i {:trigger PasoEn(c, es, ops, i)} :: 0 <= i < |ops| ==> PasoEn(c, es, ops, i)
  }

  ghost predicate PasoEn(c: Config, es: seq<Estado>, ops: seq<Op>, i: int)
    requires |es| == |ops| + 1 && 0 <= i < |ops|
  {
    Inv(c, es[i]) ==> Paso(c, es[i], ops[i], es[i + 1])
  }

  /** The abstract map after the first `n` requests. */
  ghost function CorrerAbs(c: Config, es: seq<Estado>, ops: seq<Op>, n: nat): map<nat, seq<Pagina>>
    requires ConfigValida(c) && n <= |ops| < |es|
  {
    if n == 0 then map[]
    else PasoAbs(c, CorrerAbs(c, es, ops, n - 1), ops[n - 1], |Libres(es[n - 1].ocupados)|)
  }

  /** A good state that shows the processes what the abstract map has. */
  ghost predicate Muestra(c: Config, m: Estado, a: map<nat, seq<Pagina>>)
  {
    Inv(c, m) && TodosVisibles(m) && Abs(m) == a
  }

  lemma PasoMuestra(c: Config, m: Estado, op: Op, m': Estado, a: map<nat, seq<Pagina>>)
    requires Muestra(c, m, a) && Paso(c, m, op, m')
    ensures Muestra(c, m', PasoAbs(c, a, op, |Libres(m.ocupados)|)) && |m'.marcos| == |m.marcos|
  {
    PasoRefina(c, m, op, m');
  }

  lemma InicialMuestra(c: Config, marcos: nat)
    requires ConfigValida(c)
    ensures Muestra(c, Inicial(c, marcos), map[]) && |Inicial(c, marcos).marcos| == marcos
  {
    InicialBien(c, marcos);
    assert Abs(Inicial(c, marcos)) == map[];
  }

  /** Virtual memory transparency over every run from the empty memory. */
  lemma {:induction false} MemoriaVirtualTransparente(c: Config, marcos: nat, es: seq<Estado>, ops: seq<Op>, n: nat)
    requires ConfigValida(c) && Corrida(c, es, ops) && es[0] == Inicial(c, marcos) && n <= |ops|
    ensures Muestra(c, es[n], CorrerAbs(c, es, ops, n)) && |es[n].marcos| == marcos
  {
    if n == 0 {
      InicialMuestra(c, marcos);
    } else {
      MemoriaVirtualTransparente(c, marcos, es, ops, n - 1);
      MuestraUnaMas(c, es, ops, n - 1);
    }
  }

  lemma MuestraUnaMas(c: Config, es: seq<Estado>, ops: seq<Op>, k: nat)
    requires ConfigValida(c) && Corrida(c, es, ops) && k < |ops| && Muestra(c, es[k], CorrerAbs(c, es, ops, k))
    ensures Muestra(c, es[k + 1], CorrerAbs(c, es, ops, k + 1)) && |es[k + 1].marcos| == |es[k].marcos|
  {
    assert PasoEn(c, es, ops, k);
    PasoMuestra(c, es[k], ops[k], es[k + 1], CorrerAbs(c, es, ops, k));
  }

  /** ... and in what it answers: every read of every run, of any page number whatever, returns the
      bytes of the process's own array, as its own writes left them, through `leer`; so the bytes
      themselves exactly when all are below 128. Outside the array it is refused. */
  lemma LecturasTransparentes(c: Config, marcos: nat, es: seq<Estado>, ops: seq<Op>, n: nat)
    requires ConfigValida(c) && Corrida(c, es, ops) && es[0] == Inicial(c, marcos) && n < |ops| && ops[n].OpLeer?
    ensures var a := CorrerAbs(c, es, ops, n);
            var bytes := BytesAbs(c, a, ops[n]);
            && Leido(c, es[n], ops[n]) == ComoTexto(bytes)
            && (bytes.Algo? <==> Dentro(c, a, ops[n].pid, ops[n].pag))
            && (bytes.Algo? ==> |bytes.valor| == ops[n].tam)
            && (Leido(c, es[n], ops[n]) == bytes <==>
                bytes.Nada? || forall i :: 0 <= i < |bytes.valor| ==> bytes.valor[i] < 128)
  {
    MemoriaVirtualTransparente(c, marcos, es, ops, n);
    assert PasoEn(c, es, ops, n);
    PasoLee(c, es[n], ops[n], es[n + 1]);
    var bytes := BytesAbs(c, CorrerAbs(c, es, ops, n), ops[n]);
    if bytes.Algo? { TextoFiel(bytes.valor); }
  }

  /** Requests after which a process sees its pages as before: those of others, and its own reads,
      suspensions and resumes. */
  predicate Inofensiva(op: Op, q: nat)
  {
    op.pid != q || op.OpLeer? || op.OpSuspender? || op.OpReanudar?
  }

  lemma PasoAbsAjeno(c: Config, a: map<nat, seq<Pagina>>, op: Op, libres: nat, q: nat)
    requires ConfigValida(c) && Inofensiva(op, q)
    ensures q in a <==> q in PasoAbs(c, a, op, libres)
    ensures q in a ==> PasoAbs(c, a, op, libres)[q] == a[q]
  {
  }

  lemma {:induction false} AislamientoAbs(c: Config, es: seq<Estado>, ops: seq<Op>, i: nat, j: nat, q: nat)
    requires ConfigValida(c) && i <= j <= |ops| < |es| && forall k :: i <= k < j ==> Inofensiva(ops[k], q)
    ensures q in CorrerAbs(c, es, ops, i) <==> q in CorrerAbs(c, es, ops, j)
    ensures q in CorrerAbs(c, es, ops, i) ==> CorrerAbs(c, es, ops, j)[q] == CorrerAbs(c, es, ops, i)[q]
    decreases j
  {
    if i < j {
      AislamientoAbs(c, es, ops, i, j - 1, q);
      PasoAbsAjeno(c, CorrerAbs(c, es, ops, j - 1), ops[j - 1], |Libres(es[j - 1].ocupados)|, q);
    }
  }

  /** Isolation: over any stretch of a run without stores, writes or finishes of `q`, what `q` sees
      stays put. */
  lemma Aislamiento(c: Config, marcos: nat, es: seq<Estado>, ops: seq<Op>, i: nat, j: nat, q: nat)
    requires ConfigValida(c) && Corrida(c, es, ops) && es[0] == Inicial(c, marcos) && i <= j <= |ops|
    requires forall k :: i <= k < j ==> Inofensiva(ops[k], q)
    ensures TodosVisibles(es[i]) && TodosVisibles(es[j])
    ensures q in Abs(es[i]) <==> q in Abs(es[j])
    ensures q in Abs(es[i]) ==> Abs(es[j])[q] == Abs(es[i])[q]
  {
    MemoriaVirtualTransparente(c, marcos, es, ops, i);
    MemoriaVirtualTransparente(c, marcos, es, ops, j);
    AislamientoAbs(c, es, ops, i, j, q);
  }

  // ----- frames -----

  /** Free frames and the frames held by resident processes add up to the whole memory. */
  lemma MarcosConservados(c: Config, m: Estado)
    requires Inv(c, m)
    ensures |Libres(m.ocupados)| + Total(DuenosMarcos(m.procesos)) == |m.marcos|
    ensures |Libres(m.indices)| + Total(DuenosSwap(m.procesos)) == |m.swap|
  {
    Conservacion(DuenosMarcos(m.procesos), Ocupadas(m.ocupados));
    Conservacion(DuenosSwap(m.procesos), Ocupadas(m.indices));
    LibresYOcupadas(m.ocupados);
    LibresYOcupadas(m.indices);
  }

  /** Two page numbers, of one process or of two, lead to the same frame exactly when they are of
      one process and tell the same page. */
  lemma MarcosDistintos(c: Config, m: Estado, p: nat, i: nat, q: nat, j: nat)
    requires Inv(c, m) && EnMemoria(m, p) && EnMemoria(m, q)
    requires Marco(c, m, p, i).Encontrado? && Marco(c, m, q, j).Encontrado?
    ensures Marco(c, m, p, i).marco == Marco(c, m, q, j).marco <==> p == q && PaginaDe(c, i) == PaginaDe(c, j)
  {
    MarcoExacto(c, m, p, i);
    MarcoExacto(c, m, q, j);
    assert ProcesoBien(c, m.procesos[p]);
    var d := DuenosMarcos(m.procesos);
    var f, g := MarcosDe(m.procesos[p].tabla)[PaginaDe(c, i)], MarcosDe(m.procesos[q].tabla)[PaginaDe(c, j)];
    assert f in d[p] && g in d[q];
  }

  /** ... so physical addresses coincide exactly for one process, page and offset. */
  lemma DireccionesDistintas(c: Config, m: Estado, p: nat, i: nat, x: nat, q: nat, j: nat, y: nat)
    requires Inv(c, m) && EnMemoria(m, p) && EnMemoria(m, q) && x < c.pagina && y < c.pagina
    requires Marco(c, m, p, i).Encontrado? && Marco(c, m, q, j).Encontrado?
    ensures Marco(c, m, p, i).marco * c.pagina + x == Marco(c, m, q, j).marco * c.pagina + y
            <==> p == q && PaginaDe(c, i) == PaginaDe(c, j) && x == y
  {
    MarcosDistintos(c, m, p, i, q, j);
    MarcoExacto(c, m, p, i);
    MarcoExacto(c, m, q, j);
    if Marco(c, m, p, i).marco != Marco(c, m, q, j).marco {
      OtraDireccion(Marco(c, m, p, i).marco, x, Marco(c, m, q, j).marco, y, c.pagina);
    }
  }

  lemma OtraDireccion(f: nat, x: nat, g: nat, y: nat, pagina: nat)
    requires x < pagina && y < pagina && f != g
    ensures f * pagina + x != g * pagina + y
  {
    MulLe(f + 1, if f < g then g else f + 1, pagina);
    MulLe(g + 1, if g < f then f else g + 1, pagina);
  }

  // ----- exact conditions -----

  /** A store that finds frames keeps the invariant exactly for a non-empty process that its
      table can hold: an empty one is recorded with one page it lacks, and a one-level table
      that is too small loses the frames beyond it. */
  lemma AlmacenarExacto(c: Config, m: Estado, pid: nat, tamanio: nat)
    requires Inv(c, m) && pid !in m.procesos
    requires BuscarMarcos(m.ocupados, Techo(tamanio, c.pagina)).Algo?
    ensures Inv(c, Almacenar(c, m, pid, tamanio)) <==>
              tamanio >= 1 && Abarca(c.niveles, c.entradas, Techo(tamanio, c.pagina))
  {
    var n, m' := Techo(tamanio, c.pagina), Almacenar(c, m, pid, tamanio);
    TechoUmbral(tamanio, c.pagina, 0);
    if tamanio >= 1 && Abarca(c.niveles, c.entradas, n) {
      AlmacenarInv(c, m, pid, tamanio);
    } else {
      var p := m'.procesos[pid];
      if tamanio > 0 {
        HojasDeNivelUno(p.tabla.entradas, 0, BuscarMarcos(m.ocupados, n).valor);
      }
      assert |MarcosDe(p.tabla)| != p.cantidad;
      assert !ProcesoBien(c, p);
    }
  }
  // ----- nothing stays behind in swap -----

  /** Swap pages that belong to nobody are zero, as free frames are. */
  ghost predicate SwapEnCero(c: Config, m: Estado)
  {
    |m.swap| == |m.indices| && forall j :: 0 <= j < |m.swap| && !m.indices[j] ==> m.swap[j] == Cero(c)
  }

  /** A block taken, with any contents. */
  lemma BloqueTomado(c: Config, swap: seq<Pagina>, indices: seq<bool>, inicio: nat, pags: seq<Pagina>)
    requires |swap| == |indices| && inicio <= |swap|
    requires forall j :: 0 <= j < |swap| && !indices[j] ==> swap[j] == Cero(c)
    ensures var s, i := Sobrescribir(swap, inicio, pags), Sobrescribir(indices, inicio, Repetido(true, |pags|));
            |s| == |i| && forall j :: 0 <= j < |s| && !i[j] ==> s[j] == Cero(c)
  {
  }

  /** A block given back. */
  lemma BloqueDevuelto(c: Config, swap: seq<Pagina>, indices: seq<bool>, inicio: nat, n: nat)
    requires |swap| == |indices| && inicio + n <= |swap|
    requires forall j :: 0 <= j < |swap| && !indices[j] ==> swap[j] == Cero(c)
    ensures var s, i := Sobrescribir(swap, inicio, Ceros(c, n)), Sobrescribir(indices, inicio, Repetido(false, n));
            |s| == |i| && forall j :: 0 <= j < |s| && !i[j] ==> s[j] == Cero(c)
  {
  }

  lemma PasoSwap(c: Config, m: Estado, op: Op, m': Estado)
    requires Inv(c, m) && SwapEnCero(c, m) && Paso(c, m, op, m')
    ensures SwapEnCero(c, m')
  {
    match op {
      case OpSuspender(pid) =>
        var fs := MarcosDe(m.procesos[pid].tabla);
        BloqueTomado(c, m.swap, m.indices, PrimerHueco(m.indices, |fs|, 0), Contenidos(m.marcos, fs));
      case OpReanudar(pid) =>
        BloqueDevuelto(c, m.swap, m.indices, m.procesos[pid].inicioSwap, m.procesos[pid].cantidad);
      case OpFinalizar(pid) =>
        if m.procesos[pid].suspendido {
          InvVisible(c, m);
          BloqueDevuelto(c, m.swap, m.indices, m.procesos[pid].inicioSwap, m.procesos[pid].cantidad);
        }
      case _ =>
    }
  }

  /** In every run, what a process had in swap is gone once it is back in memory or finished. */
  lemma {:induction false} SwapSinRestos(c: Config, marcos: nat, es: seq<Estado>, ops: seq<Op>, n: nat)
    requires ConfigValida(c) && Corrida(c, es, ops) && es[0] == Inicial(c, marcos) && n <= |ops|
    ensures SwapEnCero(c, es[n])
  {
    if n > 0 {
      SwapSinRestos(c, marcos, es, ops, n - 1);
      MemoriaVirtualTransparente(c, marcos, es, ops, n - 1);
      UnPasoDeSwap(c, es, ops, n - 1);
    }
  }

  lemma UnPasoDeSwap(c: Config, es: seq<Estado>, ops: seq<Op>, k: nat)
    requires Corrida(c, es, ops) && k < |ops| && Inv(c, es[k]) && SwapEnCero(c, es[k])
    ensures SwapEnCero(c, es[k + 1])
  {
    assert PasoEn(c, es, ops, k);
    PasoSwap(c, es[k], ops[k], es[k + 1]);
  }
}
