/** The suspend handler as written: it stores back the process record it read before the swap block
    was recorded. When a single suspension is right, and when whole runs are. */
module ManejadorMemoria {
  import opened Secuencias
  import opened TablaPaginas
  import opened Propiedad
  import opened Memoria
  import opened RefinamientoMemoria
  import opened CorridasMemoria

  // ----- one suspension -----

  /** The same state, with another block start recorded for a process. */
  function ConInicio(s: Estado, pid: nat, b: nat): Estado
    requires pid in s.procesos
  {
    s.(procesos := s.procesos[pid := s.procesos[pid].(inicioSwap := b)])
  }

  /** The handler's state is that of the helpers, but for the block start: it is the one recorded
      before. */
  lemma ManejadorEs(c: Config, m: Estado, pid: nat)
    requires Residente(m, pid) && |m.swap| == |m.indices|
    ensures pid in Suspender(c, m, pid).procesos && Suspender(c, m, pid).procesos[pid].suspendido
    ensures Suspender(c, m, pid).procesos[pid].inicioSwap
             == PrimerHueco(m.indices, |MarcosDe(m.procesos[pid].tabla)|, 0)
    ensures SuspenderManejador(c, m, pid) == ConInicio(Suspender(c, m, pid), pid, m.procesos[pid].inicioSwap)
  {
  }

  /** The suspend handler as written keeps the invariant exactly when first fit happens to choose
      the block recorded before; then it is the composition of the helpers. */
  lemma ManejadorExacto(c: Config, m: Estado, pid: nat)
    requires Inv(c, m) && pid in m.procesos && !m.procesos[pid].suspendido
    ensures Residente(m, pid) && |m.swap| == |m.indices|
    ensures var elegido := PrimerHueco(m.indices, m.procesos[pid].cantidad, 0);
            && (Inv(c, SuspenderManejador(c, m, pid)) <==> elegido == m.procesos[pid].inicioSwap)
            && (elegido == m.procesos[pid].inicioSwap ==> SuspenderManejador(c, m, pid) == Suspender(c, m, pid))
  {
    SuspenderRefina(c, m, pid);
    CantidadDeMarcos(c, m, pid);
    ManejadorEs(c, m, pid);
    InicioExacto(c, Suspender(c, m, pid), pid, m.procesos[pid].inicioSwap);
  }

  lemma CantidadDeMarcos(c: Config, m: Estado, pid: nat)
    requires Inv(c, m) && pid in m.procesos
    ensures |MarcosDe(m.procesos[pid].tabla)| == m.procesos[pid].cantidad >= 1
  {
    assert ProcesoBien(c, m.procesos[pid]);
  }

  lemma InicioExacto(c: Config, s: Estado, pid: nat, b: nat)
    requires Inv(c, s) && pid in s.procesos && s.procesos[pid].suspendido
    ensures Inv(c, ConInicio(s, pid, b)) <==> b == s.procesos[pid].inicioSwap
    ensures b == s.procesos[pid].inicioSwap ==> ConInicio(s, pid, b) == s
  {
    ConSuInicio(s, pid);
    if Inv(c, ConInicio(s, pid, b)) { BloqueErrado(c, s, pid, b); }
  }

  lemma ConSuInicio(s: Estado, pid: nat)
    requires pid in s.procesos
    ensures ConInicio(s, pid, s.procesos[pid].inicioSwap) == s
  {
    assert s.procesos[pid].(inicioSwap := s.procesos[pid].inicioSwap) == s.procesos[pid];
  }

  /** Recording another block start for one suspended process cannot be right too. */
  lemma BloqueErrado(c: Config, s: Estado, pid: nat, b: nat)
    requires Inv(c, s) && pid in s.procesos && s.procesos[pid].suspendido
    requires Inv(c, ConInicio(s, pid, b))
    ensures b == s.procesos[pid].inicioSwap
  {
    var p := s.procesos[pid];
    var p' := p.(inicioSwap := b);
    assert p.cantidad >= 1 by { assert ProcesoBien(c, p); }
    DuenosCambian(s.procesos, pid, p');
    MismaParte(DuenosSwap(s.procesos), DuenosSwap(s.procesos[pid := p']), Ocupadas(s.indices), pid);
    assert Bloque(p.inicioSwap, p.cantidad) == Bloque(b, p.cantidad);
    assert p.inicioSwap in Bloque(b, p.cantidad) && b in Bloque(p.inicioSwap, p.cantidad);
  }

  /** Two processes of one page: process 1 is in swap, in block 0, and process 2 in frame 1. */
  function DosProcesos(): Estado
  {
    Estado([[0], [22]], [false, true],
           map[1 := Proceso(true, Tabla([Hoja(0, 0)]), 0, 1), 2 := Proceso(false, Tabla([Hoja(0, 1)]), 0, 1)],
           [true], [[11]])
  }

  lemma UnaHoja(f: nat)
    ensures Hojas([Hoja(0, f)]) == [(0, f)] && MarcosDe(Tabla([Hoja(0, f)])) == [f]
    ensures Tabla([Hoja(0, f)]) == Arbol(1, 1, 0, [f])
  {
    assert [Hoja(0, f)][1..] == [];
  }

  lemma EjemploBien()
    ensures Inv(Config(1, 1, 1), DosProcesos())
  {
    var c, m := Config(1, 1, 1), DosProcesos();
    UnaHoja(0);
    UnaHoja(1);
    assert ProcesoBien(c, m.procesos[1]) && ProcesoBien(c, m.procesos[2]);
    EjemploDuenos();
  }

  lemma EjemploDuenos()
    ensures Particion(DuenosMarcos(DosProcesos().procesos), Ocupadas(DosProcesos().ocupados))
    ensures Particion(DuenosSwap(DosProcesos().procesos), Ocupadas(DosProcesos().indices))
  {
    var m := DosProcesos();
    UnaHoja(1);
    var uno: nat, cero: nat := 1, 0;
    assert PropiosMarcos(m.procesos[2]) == {uno} && PropiosMarcos(m.procesos[1]) == {};
    assert PropiosSwap(m.procesos[1]) == {cero} && PropiosSwap(m.procesos[2]) == {};
    assert Ocupadas(m.ocupados) == {uno} && Ocupadas(m.indices) == {cero};
    UnDueno(DuenosMarcos(m.procesos), 2, uno);
    UnDueno(DuenosSwap(m.procesos), 1, cero);
  }

  lemma UnDueno<K, T>(d: map<K, set<T>>, dueno: K, x: T)
    requires dueno in d && d[dueno] == {x} && forall q :: q in d && q != dueno ==> d[q] == {}
    ensures Particion(d, {x})
  {
    assert x in d[dueno];
  }

  /** The failure on that good state: process 2 is suspended while block 0 belongs to process 1,
      and from then on it is shown process 1's page instead of its own. */
  lemma ManejadorConfundePaginas()
    ensures var c, m := Config(1, 1, 1), DosProcesos();
            && Inv(c, m) && Residente(m, 2) && Visible(m, m.procesos[2]) && Paginas(m, m.procesos[2]) == [[22]]
            && var h := SuspenderManejador(c, m, 2);
            Visible(h, h.procesos[2]) && Paginas(h, h.procesos[2]) == [[11]]
  {
    EjemploBien();
    PaginaDelEjemplo(DosProcesos());
    SuspensionDelEjemplo();
  }

  /** The page of process 2 is the one in frame 1, or in block 0 once it counts as suspended. */
  lemma PaginaDelEjemplo(m: Estado)
    requires 2 in m.procesos && m.procesos[2] == DosProcesos().procesos[2].(suspendido := m.procesos[2].suspendido)
    requires if m.procesos[2].suspendido then |m.swap| > 0 else |m.marcos| > 1 && |m.ocupados| == |m.marcos|
    ensures Visible(m, m.procesos[2])
    ensures Paginas(m, m.procesos[2]) == [if m.procesos[2].suspendido then m.swap[0] else m.marcos[1]]
  {
    UnaHoja(1);
  }

  lemma SuspensionDelEjemplo()
    ensures var c, m := Config(1, 1, 1), DosProcesos();
            && Residente(m, 2)
            && var h := SuspenderManejador(c, m, 2);
            && 2 in h.procesos && h.procesos[2] == m.procesos[2].(suspendido := true)
            && h.swap == [[11], [22]]
            && Visible(h, h.procesos[2]) && Paginas(h, h.procesos[2]) == [[11]]
  {
    var c, m := Config(1, 1, 1), DosProcesos();
    UnaHoja(1);
    HuecoDelEjemplo(m.indices);
    PaginaDelEjemplo(SuspenderManejador(c, m, 2));
  }

  lemma HuecoDelEjemplo(indices: seq<bool>)
    requires indices == [true]
    ensures PrimerHueco(indices, 1, 0) == 1
  {
    assert !BloqueLibre(indices, 0, 1) by { assert indices[0]; }
    assert PrimerHueco(indices, 1, 1) == 1;
  }

  // ----- when the guard holds -----

  /** In the code as written every record has block start 0: it is stored so, and every suspension
      puts the stale record back. */
  ghost predicate SinInicios(m: Estado)
  {
    forall pid :: pid in m.procesos ==> m.procesos[pid].inicioSwap == 0
  }

  /** What a caller can check: nobody is in swap, and the swap table is empty or large enough. */
  predicate SwapLibre(m: Estado, pid: nat)
    requires pid in m.procesos
  {
    && (forall q :: q in m.procesos ==> !m.procesos[q].suspendido)
    && (|m.indices| == 0 || m.procesos[pid].cantidad <= |m.indices|)
  }

  /** With every block start 0, first fit agrees with the record exactly on a swap table with nobody
      in it that is empty or has room; so a lone process larger than the table also fails. */
  lemma GuardaExacta(c: Config, m: Estado, pid: nat)
    requires Inv(c, m) && SinInicios(m) && pid in m.procesos && !m.procesos[pid].suspendido
    ensures PrimerHueco(m.indices, m.procesos[pid].cantidad, 0) == m.procesos[pid].inicioSwap <==> SwapLibre(m, pid)
  {
    var n := m.procesos[pid].cantidad;
    CantidadDeMarcos(c, m, pid);
    if q :| q in m.procesos && m.procesos[q].suspendido {
      CantidadDeMarcos(c, m, q);
      assert DuenosSwap(m.procesos)[q] <= Ocupadas(m.indices);
      assert 0 in PropiosSwap(m.procesos[q]);
      assert 0 in Ocupadas(m.indices);
      HuecoCaracterizado(m.indices, n, 0);
    } else {
      NadieEnSwap(m);
      HuecoEnLibre(m.indices, n);
    }
  }

  lemma NadieEnSwap(m: Estado)
    requires Particion(DuenosSwap(m.procesos), Ocupadas(m.indices))
    requires forall q :: q in m.procesos ==> !m.procesos[q].suspendido
    ensures forall i :: 0 <= i < |m.indices| ==> !m.indices[i]
  {
    assert forall q :: q in DuenosSwap(m.procesos) ==> DuenosSwap(m.procesos)[q] == {};
    assert Ocupadas(m.indices) == {};
    forall i | 0 <= i < |m.indices|
      ensures !m.indices[i]
    {
      assert i in Ocupadas(m.indices) <==> m.indices[i];
    }
  }

  lemma HuecoEnLibre(indices: seq<bool>, n: nat)
    requires n >= 1 && forall i :: 0 <= i < |indices| ==> !indices[i]
    ensures PrimerHueco(indices, n, 0) == 0 <==> |indices| == 0 || n <= |indices|
  {
  }

  /** The handler as written, exactly: in good states with every block start 0 it keeps the
      invariant if and only if the swap table is free in that sense. */
  lemma ManejadorConSwapLibre(c: Config, m: Estado, pid: nat)
    requires Inv(c, m) && SinInicios(m) && pid in m.procesos && !m.procesos[pid].suspendido
    ensures Residente(m, pid) && |m.swap| == |m.indices|
    ensures Inv(c, SuspenderManejador(c, m, pid)) <==> SwapLibre(m, pid)
    ensures SwapLibre(m, pid) ==> SuspenderManejador(c, m, pid) == Suspender(c, m, pid)
  {
    ManejadorExacto(c, m, pid);
    GuardaExacta(c, m, pid);
  }

  // ----- whole runs with the handler as written -----

  /** One request, a suspension being the handler as written. */
  ghost predicate PasoManejador(c: Config, m: Estado, op: Op, m': Estado)
    requires Inv(c, m)
  {
    if op.OpSuspender? then InvVisible(c, m); Residente(m, op.pid) && m' == SuspenderManejador(c, m, op.pid)
    else Paso(c, m, op, m')
  }

  ghost predicate CorridaManejador(c: Config, es: seq<Estado>, ops: seq<Op>)
  {
    && |es| == |ops| + 1
    && forall i {:trigger ManejadorEn(c, es, ops, i)} :: 0 <= i < |ops| ==> ManejadorEn(c, es, ops, i)
  }

  ghost predicate ManejadorEn(c: Config, es: seq<Estado>, ops: seq<Op>, i: int)
    requires |es| == |ops| + 1 && 0 <= i < |ops|
  {
    Inv(c, es[i]) ==> PasoManejador(c, es[i], ops[i], es[i + 1])
  }

  /** The request is no suspension, or finds the swap table free. */
  predicate Guardada(m: Estado, op: Op)
  {
    op.OpSuspender? ==> op.pid in m.procesos && SwapLibre(m, op.pid)
  }

  lemma InicioSeMantiene(c: Config, m: Estado, op: Op, m': Estado)
    requires Inv(c, m) && SinInicios(m) && PasoManejador(c, m, op, m')
    ensures SinInicios(m')
  {
  }

  /** A request keeps a good state good exactly when it is guarded. */
  lemma PasoManejadorExacto(c: Config, m: Estado, op: Op, m': Estado, a: map<nat, seq<Pagina>>)
    requires Muestra(c, m, a) && SinInicios(m) && PasoManejador(c, m, op, m')
    ensures SinInicios(m') && (Muestra(c, m', PasoAbs(c, a, op, |Libres(m.ocupados)|)) <==> Guardada(m, op))
  {
    InicioSeMantiene(c, m, op, m');
    if op.OpSuspender? {
      ManejadorConSwapLibre(c, m, op.pid);
      if SwapLibre(m, op.pid) { PasoMuestra(c, m, op, m', a); }
    } else {
      PasoMuestra(c, m, op, m', a);
    }
  }

  /** Good so far, with every block start 0. */
  lemma {:induction false} ManejadorHasta(c: Config, marcos: nat, es: seq<Estado>, ops: seq<Op>, n: nat)
    requires ConfigValida(c) && CorridaManejador(c, es, ops) && es[0] == Inicial(c, marcos) && n <= |ops|
    requires forall k :: 0 <= k < n ==> Guardada(es[k], ops[k])
    ensures MuestraEn(c, es, ops, n) && SinInicios(es[n])
  {
    if n == 0 {
      InicialMuestra(c, marcos);
    } else {
      ManejadorHasta(c, marcos, es, ops, n - 1);
      ManejadorUnoMas(c, es, ops, n - 1);
    }
  }

  lemma ManejadorUnoMas(c: Config, es: seq<Estado>, ops: seq<Op>, k: nat)
    requires ConfigValida(c) && CorridaManejador(c, es, ops) && k < |ops| && Guardada(es[k], ops[k])
    requires MuestraEn(c, es, ops, k) && SinInicios(es[k])
    ensures MuestraEn(c, es, ops, k + 1) && SinInicios(es[k + 1])
  {
    assert ManejadorEn(c, es, ops, k);
    PasoManejadorExacto(c, es[k], ops[k], es[k + 1], CorrerAbs(c, es, ops, k));
  }

  ghost predicate MuestraEn(c: Config, es: seq<Estado>, ops: seq<Op>, n: int)
    requires ConfigValida(c) && |es| == |ops| + 1 && 0 <= n <= |ops|
  {
    Muestra(c, es[n], CorrerAbs(c, es, ops, n))
  }

  /** The module as written is a virtual memory, at every point of a run from the empty memory,
      exactly when each suspension of the run finds the swap table free. */
  lemma ManejadorEnCorridas(c: Config, marcos: nat, es: seq<Estado>, ops: seq<Op>)
    requires ConfigValida(c) && CorridaManejador(c, es, ops) && es[0] == Inicial(c, marcos)
    ensures (forall n {:trigger MuestraEn(c, es, ops, n)} :: 0 <= n <= |ops| ==> MuestraEn(c, es, ops, n))
            <==> (forall k :: 0 <= k < |ops| ==> Guardada(es[k], ops[k]))
  {
    if forall k :: 0 <= k < |ops| ==> Guardada(es[k], ops[k]) {
      forall n | 0 <= n <= |ops|
        ensures MuestraEn(c, es, ops, n)
      {
        ManejadorHasta(c, marcos, es, ops, n);
      }
    }
    if forall n {:trigger MuestraEn(c, es, ops, n)} :: 0 <= n <= |ops| ==> MuestraEn(c, es, ops, n) {
      SiempreGuardada(c, marcos, es, ops, |ops|);
    }
  }

  lemma {:induction false} SiempreGuardada(c: Config, marcos: nat, es: seq<Estado>, ops: seq<Op>, n: nat)
    requires ConfigValida(c) && CorridaManejador(c, es, ops) && es[0] == Inicial(c, marcos) && n <= |ops|
    requires forall k {:trigger MuestraEn(c, es, ops, k)} :: 0 <= k <= n ==> MuestraEn(c, es, ops, k)
    ensures forall k :: 0 <= k < n ==> Guardada(es[k], ops[k])
  {
    if n > 0 {
      SiempreGuardada(c, marcos, es, ops, n - 1);
      ManejadorHasta(c, marcos, es, ops, n - 1);
      GuardadaPorqueMuestra(c, es, ops, n - 1);
    }
  }

  lemma GuardadaPorqueMuestra(c: Config, es: seq<Estado>, ops: seq<Op>, k: nat)
    requires ConfigValida(c) && CorridaManejador(c, es, ops) && k < |ops| && SinInicios(es[k])
    requires MuestraEn(c, es, ops, k) && MuestraEn(c, es, ops, k + 1)
    ensures Guardada(es[k], ops[k])
  {
    assert ManejadorEn(c, es, ops, k);
    PasoManejadorExacto(c, es[k], ops[k], es[k + 1], CorrerAbs(c, es, ops, k));
  }
}
