/** The refinement theorem: over every run, the memory module acts like a map from process to a
    private array of pages that starts at zero and changes only by that process's writes. */
module RefinamientoMemoria {
  import opened Aritmetica
  import opened Secuencias
  import opened TablaPaginas
  import opened Propiedad
  import opened Memoria

  // ----- what does not change -----

  /** A process whose frames and swap pages are untouched sees the same pages. */
  lemma PaginasIntactas(m: Estado, m': Estado, p: Proceso)
    requires Visible(m, p) && |m.marcos| <= |m'.marcos| && |m.swap| <= |m'.swap|
    requires forall f: nat :: f in PropiosMarcos(p) && f < |m.marcos| ==> m'.marcos[f] == m.marcos[f]
    requires forall i: nat :: i in PropiosSwap(p) && i < |m.swap| ==> m'.swap[i] == m.swap[i]
    ensures Visible(m', p) && Paginas(m', p) == Paginas(m, p)
  {
    var a, b := Paginas(m, p), Paginas(m', p);
    forall i | 0 <= i < |a|
      ensures b[i] == a[i]
    {
      if p.suspendido {
        assert p.inicioSwap + i in PropiosSwap(p);
      } else {
        assert MarcosDe(p.tabla)[i] in PropiosMarcos(p);
      }
    }
  }

  /** If a step changes only cells that were free or belonged to `pid`, nobody else sees it. */
  lemma LosDemasIntactos(m: Estado, m': Estado, pid: nat)
    requires TodosVisibles(m) && |m.marcos| == |m.ocupados| == |m'.marcos| && |m.swap| == |m.indices| <= |m'.swap|
    requires Particion(DuenosMarcos(m.procesos), Ocupadas(m.ocupados))
    requires Particion(DuenosSwap(m.procesos), Ocupadas(m.indices))
    requires forall f: nat :: f < |m.marcos| && m.ocupados[f]
               && (pid in m.procesos ==> f !in PropiosMarcos(m.procesos[pid]))
               ==> m'.marcos[f] == m.marcos[f]
    requires forall i: nat :: i < |m.swap| && m.indices[i] && (pid in m.procesos ==> i !in PropiosSwap(m.procesos[pid]))
               ==> m'.swap[i] == m.swap[i]
    ensures forall q :: q in m.procesos && q != pid ==>
              Visible(m', m.procesos[q]) && Paginas(m', m.procesos[q]) == Paginas(m, m.procesos[q])
  {
    forall q | q in m.procesos && q != pid
      ensures Visible(m', m.procesos[q]) && Paginas(m', m.procesos[q]) == Paginas(m, m.procesos[q])
    {
      var dm, ds := DuenosMarcos(m.procesos), DuenosSwap(m.procesos);
      assert dm[q] <= Ocupadas(m.ocupados) && ds[q] <= Ocupadas(m.indices);
      assert pid in m.procesos ==> dm[q] !! dm[pid] && ds[q] !! ds[pid];
      PaginasIntactas(m, m', m.procesos[q]);
    }
  }

  /** The abstraction after a step that concerns `pid` alone. */
  lemma AbsActualizada(m: Estado, m': Estado, pid: nat, pags: seq<Pagina>)
    requires TodosVisibles(m) && pid in m'.procesos && m'.procesos == m.procesos[pid := m'.procesos[pid]]
    requires forall q :: q in m.procesos && q != pid ==>
               Visible(m', m.procesos[q]) && Paginas(m', m.procesos[q]) == Paginas(m, m.procesos[q])
    requires Visible(m', m'.procesos[pid]) && Paginas(m', m'.procesos[pid]) == pags
    ensures TodosVisibles(m') && Abs(m') == Abs(m)[pid := pags]
  {
    forall q | q in m'.procesos
      ensures Visible(m', m'.procesos[q])
    {
    }
    assert Abs(m').Keys == Abs(m)[pid := pags].Keys;
    forall q | q in m'.procesos
      ensures Abs(m')[q] == Abs(m)[pid := pags][q]
    {
    }
  }

  // ----- store -----

  lemma AlmacenarParticion(m: Estado, pid: nat, p: Proceso, fs: seq<nat>)
    requires |m.marcos| == |m.ocupados| && pid !in m.procesos
    requires Particion(DuenosMarcos(m.procesos), Ocupadas(m.ocupados))
    requires Particion(DuenosSwap(m.procesos), Ocupadas(m.indices))
    requires !p.suspendido && MarcosDe(p.tabla) == fs
    requires forall i :: 0 <= i < |fs| ==> 0 <= fs[i] < |m.ocupados| && !m.ocupados[fs[i]]
    ensures Particion(DuenosMarcos(m.procesos[pid := p]), Ocupadas(Marcar(m.ocupados, fs, true)))
    ensures Particion(DuenosSwap(m.procesos[pid := p]), Ocupadas(m.indices))
  {
    DuenosCambian(m.procesos, pid, p);
    OcupadasTrasMarcar(m.ocupados, fs);
    Agregar(DuenosMarcos(m.procesos), Ocupadas(m.ocupados), pid, Conjunto(fs));
    Agregar(DuenosSwap(m.procesos), Ocupadas(m.indices), pid, {});
    assert Ocupadas(m.indices) + {} == Ocupadas(m.indices);
  }

  lemma AlmacenarInv(c: Config, m: Estado, pid: nat, tamanio: nat)
    requires Inv(c, m) && pid !in m.procesos && tamanio >= 1
    requires Abarca(c.niveles, c.entradas, Techo(tamanio, c.pagina))
    ensures Inv(c, Almacenar(c, m, pid, tamanio))
  {
    var n := Techo(tamanio, c.pagina);
    TechoUmbral(tamanio, c.pagina, 0);
    MarcosBuscados(m.ocupados, n);
    match BuscarMarcos(m.ocupados, n) {
      case Nada =>
      case Algo(fs) =>
        RecorridoEnOrden(c.niveles, c.entradas, fs);
        var p := Proceso(false, Arbol(c.niveles, c.entradas, 0, fs), 0, |fs|);
        AlmacenarParticion(m, pid, p, fs);
    }
  }

  lemma AlmacenarPaginas(c: Config, m: Estado, pid: nat, p: Proceso, fs: seq<nat>)
    requires TodosVisibles(m) && |m.marcos| == |m.ocupados| && |m.swap| == |m.indices| && pid !in m.procesos
    requires LibresEnCero(c, m) && !p.suspendido && MarcosDe(p.tabla) == fs
    requires Particion(DuenosMarcos(m.procesos), Ocupadas(m.ocupados))
    requires Particion(DuenosSwap(m.procesos), Ocupadas(m.indices))
    requires forall i :: 0 <= i < |fs| ==> fs[i] < |m.ocupados| && !m.ocupados[fs[i]]
    ensures var m' := m.(ocupados := Marcar(m.ocupados, fs, true), procesos := m.procesos[pid := p]);
            TodosVisibles(m') && Abs(m') == Abs(m)[pid := Ceros(c, |fs|)]
  {
    var m' := m.(ocupados := Marcar(m.ocupados, fs, true), procesos := m.procesos[pid := p]);
    assert Visible(m', p) && Paginas(m', p) == Ceros(c, |fs|);
    LosDemasIntactos(m, m', pid);
    AbsActualizada(m, m', pid, Ceros(c, |fs|));
  }

  /** A store is refused exactly when there are too few free frames, and then changes nothing;
      otherwise an observer sees one more process, all zero. */
  lemma AlmacenarRefina(c: Config, m: Estado, pid: nat, tamanio: nat)
    requires Inv(c, m) && pid !in m.procesos && tamanio >= 1
    requires Abarca(c.niveles, c.entradas, Techo(tamanio, c.pagina))
    ensures var m' := Almacenar(c, m, pid, tamanio);
            var n := Techo(tamanio, c.pagina);
            && Inv(c, m') && TodosVisibles(m) && TodosVisibles(m')
            && (if |Libres(m.ocupados)| < n then m' == m
                else Abs(m') == Abs(m)[pid := Ceros(c, n)] && |Libres(m'.ocupados)| == |Libres(m.ocupados)| - n)
  {
    AlmacenarInv(c, m, pid, tamanio);
    var n := Techo(tamanio, c.pagina);
    InvVisible(c, m);
    TechoUmbral(tamanio, c.pagina, 0);
    MarcosBuscados(m.ocupados, n);
    if |Libres(m.ocupados)| >= n {
      var fs := BuscarMarcos(m.ocupados, n).valor;
      RecorridoEnOrden(c.niveles, c.entradas, fs);
      LibresTrasMarcar(m.ocupados, fs);
      AlmacenarPaginas(c, m, pid, Proceso(false, Arbol(c.niveles, c.entradas, 0, fs), 0, |fs|), fs);
    }
  }

  // ----- suspend -----

  lemma SuspenderParticion(m: Estado, pid: nat, fs: seq<nat>, inicio: nat)
    requires pid in m.procesos && !m.procesos[pid].suspendido && MarcosDe(m.procesos[pid].tabla) == fs
    requires Particion(DuenosMarcos(m.procesos), Ocupadas(m.ocupados))
    requires Particion(DuenosSwap(m.procesos), Ocupadas(m.indices))
    requires forall i :: 0 <= i < |fs| ==> fs[i] < |m.ocupados|
    requires inicio == PrimerHueco(m.indices, |fs|, 0) && m.procesos[pid].cantidad == |fs|
    ensures var ps := m.procesos[pid := m.procesos[pid].(suspendido := true, inicioSwap := inicio)];
            && Particion(DuenosMarcos(ps), Ocupadas(Marcar(m.ocupados, fs, false)))
            && Particion(DuenosSwap(ps), Ocupadas(Sobrescribir(m.indices, inicio, Repetido(true, |fs|))))
  {
    var p' := m.procesos[pid].(suspendido := true, inicioSwap := inicio);
    DuenosCambian(m.procesos, pid, p');
    OcupadasTrasMarcar(m.ocupados, fs);
    OcupadasTrasBloque(m.indices, inicio, |fs|);
    HuecoCaracterizado(m.indices, |fs|, 0);
    Quitar(DuenosMarcos(m.procesos), Ocupadas(m.ocupados), pid);
    Agregar(DuenosSwap(m.procesos), Ocupadas(m.indices), pid, Bloque(inicio, |fs|));
  }

  lemma SuspenderPaginas(c: Config, m: Estado, pid: nat)
    requires TodosVisibles(m) && Residente(m, pid) && |m.swap| == |m.indices|
    requires m.procesos[pid].cantidad == |MarcosDe(m.procesos[pid].tabla)|
    requires Particion(DuenosMarcos(m.procesos), Ocupadas(m.ocupados))
    requires Particion(DuenosSwap(m.procesos), Ocupadas(m.indices))
    ensures TodosVisibles(Suspender(c, m, pid)) && Abs(Suspender(c, m, pid)) == Abs(m)
  {
    var m' := Suspender(c, m, pid);
    var fs := MarcosDe(m.procesos[pid].tabla);
    HuecoCaracterizado(m.indices, |fs|, 0);
    assert Visible(m', m'.procesos[pid]);
    assert Paginas(m', m'.procesos[pid]) == Paginas(m, m.procesos[pid]);
    LosDemasIntactos(m, m', pid);
    AbsActualizada(m, m', pid, Paginas(m, m.procesos[pid]));
    assert Abs(m)[pid := Paginas(m, m.procesos[pid])] == Abs(m);
  }

  /** Suspending a resident process loses nothing and disturbs nobody. */
  lemma SuspenderRefina(c: Config, m: Estado, pid: nat)
    requires Inv(c, m) && pid in m.procesos && !m.procesos[pid].suspendido
    ensures Residente(m, pid) && Inv(c, Suspender(c, m, pid))
    ensures TodosVisibles(m) && TodosVisibles(Suspender(c, m, pid)) && Abs(Suspender(c, m, pid)) == Abs(m)
  {
    InvVisible(c, m);
    assert ProcesoBien(c, m.procesos[pid]);
    var fs := MarcosDe(m.procesos[pid].tabla);
    SuspenderParticion(m, pid, fs, PrimerHueco(m.indices, |fs|, 0));
    SuspenderPaginas(c, m, pid);
  }

  // ----- resume -----

  lemma ReanudarParticion(m: Estado, pid: nat, p': Proceso, fs: seq<nat>)
    requires pid in m.procesos && m.procesos[pid].suspendido
    requires Particion(DuenosMarcos(m.procesos), Ocupadas(m.ocupados))
    requires Particion(DuenosSwap(m.procesos), Ocupadas(m.indices))
    requires !p'.suspendido && MarcosDe(p'.tabla) == fs
    requires forall i :: 0 <= i < |fs| ==> fs[i] < |m.ocupados| && !m.ocupados[fs[i]]
    requires m.procesos[pid].inicioSwap + m.procesos[pid].cantidad <= |m.indices|
    ensures var p := m.procesos[pid];
            && Particion(DuenosMarcos(m.procesos[pid := p']), Ocupadas(Marcar(m.ocupados, fs, true)))
            && Particion(DuenosSwap(m.procesos[pid := p']),
                         Ocupadas(Sobrescribir(m.indices, p.inicioSwap, Repetido(false, p.cantidad))))
  {
    var p := m.procesos[pid];
    DuenosCambian(m.procesos, pid, p');
    OcupadasTrasMarcar(m.ocupados, fs);
    OcupadasTrasBloque(m.indices, p.inicioSwap, p.cantidad);
    Agregar(DuenosMarcos(m.procesos), Ocupadas(m.ocupados), pid, Conjunto(fs));
    Quitar(DuenosSwap(m.procesos), Ocupadas(m.indices), pid);
  }

  lemma ReanudarTabla(c: Config, p: Proceso, fs: seq<nat>)
    requires ConfigValida(c) && ProcesoBien(c, p) && |fs| == p.cantidad && SinRepetidos(fs)
    ensures var t := Tabla(Relinkear(p.tabla.entradas, PorPagina(fs)));
            MarcosDe(t) == fs && ProcesoBien(c, p.(suspendido := false, tabla := t))
  {
    var nuevos := PorPagina(fs);
    RelinkearArbol(c.niveles, c.entradas, 0, MarcosDe(p.tabla), fs, nuevos);
    RecorridoEnOrden(c.niveles, c.entradas, fs);
    assert Tabla(Relinkear(p.tabla.entradas, nuevos)) == Arbol(c.niveles, c.entradas, 0, fs);
  }

  lemma ReubicarFormas(c: Config, m: Estado, pid: nat, fs: seq<nat>)
    requires Formas(c, m) && LibresEnCero(c, m) && EnSwap(m, pid) && |fs| == m.procesos[pid].cantidad
    requires SinRepetidos(fs) && forall i :: 0 <= i < |fs| ==> fs[i] < |m.marcos|
    ensures Formas(c, Reubicar(c, m, pid, fs)) && LibresEnCero(c, Reubicar(c, m, pid, fs))
  {
    var p, m' := m.procesos[pid], Reubicar(c, m, pid, fs);
    var bloque := m.swap[p.inicioSwap..p.inicioSwap + |fs|];
    PonerEn(m.marcos, fs, bloque);
    forall f | 0 <= f < |m'.marcos|
      ensures |m'.marcos[f]| == c.pagina
    {
      if f in fs {
        var i :| 0 <= i < |fs| && fs[i] == f;
        assert m'.marcos[fs[i]] == bloque[i];
      }
    }
  }

  lemma ReanudarInv(c: Config, m: Estado, pid: nat)
    requires Inv(c, m) && EnSwap(m, pid)
    ensures Inv(c, Reanudar(c, m, pid))
  {
    var p := m.procesos[pid];
    assert ProcesoBien(c, p);
    MarcosBuscados(m.ocupados, p.cantidad);
    match BuscarMarcos(m.ocupados, p.cantidad) {
      case Nada =>
      case Algo(fs) =>
        ReanudarTabla(c, p, fs);
        ReanudarParticion(m, pid, Reubicar(c, m, pid, fs).procesos[pid], fs);
        ReubicarFormas(c, m, pid, fs);
    }
  }

  lemma PaginasRepuestas(m: Estado, m': Estado, p': Proceso, fs: seq<nat>, bloque: seq<Pagina>)
    requires !p'.suspendido && MarcosDe(p'.tabla) == fs && |fs| == |bloque| && |m'.marcos| == |m.marcos|
    requires SinRepetidos(fs) && forall i :: 0 <= i < |fs| ==> fs[i] < |m.marcos|
    requires m'.marcos == Poner(m.marcos, fs, bloque)
    ensures Visible(m', p') && Paginas(m', p') == bloque
  {
    PonerEn(m.marcos, fs, bloque);
  }

  lemma ReubicarIntactos(c: Config, m: Estado, pid: nat, fs: seq<nat>)
    requires TodosVisibles(m) && EnSwap(m, pid) && |fs| == m.procesos[pid].cantidad
    requires Particion(DuenosMarcos(m.procesos), Ocupadas(m.ocupados))
    requires Particion(DuenosSwap(m.procesos), Ocupadas(m.indices))
    requires SinRepetidos(fs) && forall i :: 0 <= i < |fs| ==> fs[i] < |m.ocupados| && !m.ocupados[fs[i]]
    ensures forall q :: q in m.procesos && q != pid ==>
              Visible(Reubicar(c, m, pid, fs), m.procesos[q])
              && Paginas(Reubicar(c, m, pid, fs), m.procesos[q]) == Paginas(m, m.procesos[q])
  {
    var p, m' := m.procesos[pid], Reubicar(c, m, pid, fs);
    PonerEn(m.marcos, fs, m.swap[p.inicioSwap..p.inicioSwap + |fs|]);
    assert forall f: nat :: f < |m.marcos| && m.ocupados[f] ==> m'.marcos[f] == m.marcos[f];
    assert forall i: nat :: i < |m.swap| && i !in PropiosSwap(p) ==> m'.swap[i] == m.swap[i];
    LosDemasIntactos(m, m', pid);
  }

  lemma ReubicarPaginas(c: Config, m: Estado, pid: nat, fs: seq<nat>)
    requires TodosVisibles(m) && EnSwap(m, pid) && |fs| == m.procesos[pid].cantidad
    requires Particion(DuenosMarcos(m.procesos), Ocupadas(m.ocupados))
    requires Particion(DuenosSwap(m.procesos), Ocupadas(m.indices))
    requires SinRepetidos(fs) && forall i :: 0 <= i < |fs| ==> fs[i] < |m.ocupados| && !m.ocupados[fs[i]]
    requires MarcosDe(Tabla(Relinkear(m.procesos[pid].tabla.entradas, PorPagina(fs)))) == fs
    ensures TodosVisibles(Reubicar(c, m, pid, fs)) && Abs(Reubicar(c, m, pid, fs)) == Abs(m)
  {
    var p, m' := m.procesos[pid], Reubicar(c, m, pid, fs);
    var bloque := Paginas(m, p);
    ReubicarIntactos(c, m, pid, fs);
    PaginasRepuestas(m, m', m'.procesos[pid], fs, bloque);
    AbsRepuesta(m, m', pid);
  }

  /** The record of one process replaced, its pages and everybody else's kept. */
  lemma AbsRepuesta(m: Estado, m': Estado, pid: nat)
    requires TodosVisibles(m) && pid in m.procesos && pid in m'.procesos
    requires m'.procesos == m.procesos[pid := m'.procesos[pid]]
    requires forall q :: q in m.procesos && q != pid ==>
               Visible(m', m.procesos[q]) && Paginas(m', m.procesos[q]) == Paginas(m, m.procesos[q])
    requires Visible(m', m'.procesos[pid]) && Paginas(m', m'.procesos[pid]) == Paginas(m, m.procesos[pid])
    ensures TodosVisibles(m') && Abs(m') == Abs(m)
  {
    AbsActualizada(m, m', pid, Paginas(m, m.procesos[pid]));
    AbsMisma(m, pid);
  }

  lemma AbsMisma(m: Estado, pid: nat)
    requires TodosVisibles(m) && pid in m.procesos
    ensures Abs(m)[pid := Paginas(m, m.procesos[pid])] == Abs(m)
  {
  }

  lemma ReanudarAbs(c: Config, m: Estado, pid: nat)
    requires Inv(c, m) && TodosVisibles(m) && EnSwap(m, pid)
    ensures TodosVisibles(Reanudar(c, m, pid)) && Abs(Reanudar(c, m, pid)) == Abs(m)
  {
    var p := m.procesos[pid];
    assert ProcesoBien(c, p);
    MarcosBuscados(m.ocupados, p.cantidad);
    match BuscarMarcos(m.ocupados, p.cantidad) {
      case Nada =>
      case Algo(fs) =>
        ReanudarTabla(c, p, fs);
        ReubicarPaginas(c, m, pid, fs);
    }
  }

  /** Resuming needs as many free frames as the process has pages. With fewer it changes nothing;
      otherwise every page comes back, and nobody else notices. */
  lemma ReanudarRefina(c: Config, m: Estado, pid: nat)
    requires Inv(c, m) && pid in m.procesos && m.procesos[pid].suspendido
    ensures EnSwap(m, pid) && TodosVisibles(m)
    ensures var m' := Reanudar(c, m, pid);
            && Inv(c, m') && TodosVisibles(m') && Abs(m') == Abs(m)
            && (if |Libres(m.ocupados)| < m.procesos[pid].cantidad then m' == m
                else pid in m'.procesos && !m'.procesos[pid].suspendido)
  {
    InvVisible(c, m);
    ReanudarInv(c, m, pid);
    ReanudarAbs(c, m, pid);
    ReanudarExito(c, m, pid);
  }

  lemma ReanudarExito(c: Config, m: Estado, pid: nat)
    requires ConfigValida(c) && EnSwap(m, pid) && m.procesos[pid].cantidad >= 1
    ensures var m' := Reanudar(c, m, pid);
            if |Libres(m.ocupados)| < m.procesos[pid].cantidad then m' == m
            else pid in m'.procesos && !m'.procesos[pid].suspendido
  {
    MarcosBuscados(m.ocupados, m.procesos[pid].cantidad);
  }

  // ----- finish -----

  lemma FinalizarParticion(m: Estado, pid: nat)
    requires Residente(m, pid) || EnSwap(m, pid)
    requires Particion(DuenosMarcos(m.procesos), Ocupadas(m.ocupados))
    requires Particion(DuenosSwap(m.procesos), Ocupadas(m.indices))
    ensures var p := m.procesos[pid];
            && Particion(DuenosMarcos(m.procesos - {pid}),
                         Ocupadas(if p.suspendido then m.ocupados else Marcar(m.ocupados, MarcosDe(p.tabla), false)))
            && Particion(DuenosSwap(m.procesos - {pid}),
                         Ocupadas(if p.suspendido
                                  then Sobrescribir(m.indices, p.inicioSwap, Repetido(false, p.cantidad))
                                  else m.indices))
  {
    var p := m.procesos[pid];
    DuenoSale(m.procesos, pid);
    Quitar(DuenosMarcos(m.procesos), Ocupadas(m.ocupados), pid);
    Quitar(DuenosSwap(m.procesos), Ocupadas(m.indices), pid);
    if p.suspendido {
      OcupadasTrasBloque(m.indices, p.inicioSwap, p.cantidad);
      assert Ocupadas(m.ocupados) - {} == Ocupadas(m.ocupados);
    } else {
      OcupadasTrasMarcar(m.ocupados, MarcosDe(p.tabla));
      assert Ocupadas(m.indices) - {} == Ocupadas(m.indices);
    }
  }

  lemma FinalizarPaginas(c: Config, m: Estado, pid: nat)
    requires TodosVisibles(m) && (Residente(m, pid) || EnSwap(m, pid)) && |m.swap| == |m.indices|
    requires Particion(DuenosMarcos(m.procesos), Ocupadas(m.ocupados))
    requires Particion(DuenosSwap(m.procesos), Ocupadas(m.indices))
    ensures var m' := Finalizar(c, m, pid);
            TodosVisibles(m') && Abs(m') == Abs(m) - {pid}
  {
    LosDemasIntactos(m, Finalizar(c, m, pid), pid);
    AbsSinUno(m, Finalizar(c, m, pid), pid);
  }

  lemma AbsSinUno(m: Estado, m': Estado, pid: nat)
    requires TodosVisibles(m) && m'.procesos == m.procesos - {pid}
    requires forall q :: q in m.procesos && q != pid ==>
               Visible(m', m.procesos[q]) && Paginas(m', m.procesos[q]) == Paginas(m, m.procesos[q])
    ensures TodosVisibles(m') && Abs(m') == Abs(m) - {pid}
  {
  }

  lemma FinalizarInv(c: Config, m: Estado, pid: nat)
    requires Inv(c, m) && (Residente(m, pid) || EnSwap(m, pid))
    ensures Inv(c, Finalizar(c, m, pid))
  {
    FinalizarParticion(m, pid);
  }

  /** Finishing a process removes it and nothing else; its frames are free and zero again. */
  lemma FinalizarRefina(c: Config, m: Estado, pid: nat)
    requires Inv(c, m) && pid in m.procesos
    ensures Residente(m, pid) || EnSwap(m, pid)
    ensures var m' := Finalizar(c, m, pid);
            Inv(c, m') && TodosVisibles(m) && TodosVisibles(m') && Abs(m') == Abs(m) - {pid}
  {
    InvVisible(c, m);
    FinalizarInv(c, m, pid);
    FinalizarPaginas(c, m, pid);
  }

  // ----- user writes -----

  /** What translation answers for a process in memory and any page number whatever: one of the
      process's own frames, or nothing. */
  lemma MarcoExacto(c: Config, m: Estado, pid: nat, pagina: nat)
    requires Inv(c, m) && EnMemoria(m, pid)
    ensures var fs := MarcosDe(m.procesos[pid].tabla);
            && |fs| == m.procesos[pid].cantidad
            && (forall i :: 0 <= i < |fs| ==> fs[i] < |m.marcos| && m.ocupados[fs[i]])
            && Marco(c, m, pid, pagina) == Respuesta(c.niveles, c.entradas, fs, PaginaDe(c, pagina))
    ensures Marco(c, m, pid, pagina).Encontrado? <==> Traducible(c, m, pid, pagina)
    ensures Traducible(c, m, pid, pagina) ==>
              && PaginaDe(c, pagina) < |MarcosDe(m.procesos[pid].tabla)|
              && Marco(c, m, pid, pagina) == Encontrado(MarcosDe(m.procesos[pid].tabla)[PaginaDe(c, pagina)])
  {
    InvVisible(c, m);
    assert ProcesoBien(c, m.procesos[pid]);
    assert DuenosMarcos(m.procesos)[pid] <= Ocupadas(m.ocupados);
    ResidenteBien(m, pid);
    BusquedaExacta(c.niveles, c.entradas, MarcosDe(m.procesos[pid].tabla), pagina);
  }

  /** Translation answers with the process's own frame. */
  lemma MarcoPropio(c: Config, m: Estado, pid: nat, pagina: nat)
    requires Inv(c, m) && Traducible(c, m, pid, pagina)
    ensures var fs := MarcosDe(m.procesos[pid].tabla);
            PaginaDe(c, pagina) < |fs| && fs[PaginaDe(c, pagina)] < |m.marcos| && m.ocupados[fs[PaginaDe(c, pagina)]]
            && Marco(c, m, pid, pagina) == Encontrado(fs[PaginaDe(c, pagina)])
  {
    MarcoExacto(c, m, pid, pagina);
  }

  /** One page of an array of pages with `dato` written at an offset. */
  function EscribirPagina(pags: seq<Pagina>, i: nat, desp: nat, dato: seq<byte>): (r: seq<Pagina>)
    requires i < |pags| && desp + |dato| <= |pags[i]|
    ensures |r| == |pags|
  {
    pags[i := Sobrescribir(pags[i], desp, dato)]
  }

  lemma EscribirPaginas(m: Estado, pid: nat, i: nat, desp: nat, dato: seq<byte>)
    requires TodosVisibles(m) && Residente(m, pid) && |m.swap| == |m.indices|
    requires Particion(DuenosMarcos(m.procesos), Ocupadas(m.ocupados))
    requires Particion(DuenosSwap(m.procesos), Ocupadas(m.indices))
    requires var fs := MarcosDe(m.procesos[pid].tabla);
             SinRepetidos(fs) && i < |fs| && desp + |dato| <= |m.marcos[fs[i]]|
    ensures var f := MarcosDe(m.procesos[pid].tabla)[i];
            var m' := m.(marcos := m.marcos[f := Sobrescribir(m.marcos[f], desp, dato)]);
            TodosVisibles(m') && Abs(m') == Abs(m)[pid := EscribirPagina(Abs(m)[pid], i, desp, dato)]
  {
    var p := m.procesos[pid];
    var fs := MarcosDe(p.tabla);
    var m' := m.(marcos := m.marcos[fs[i] := Sobrescribir(m.marcos[fs[i]], desp, dato)]);
    assert fs[i] in PropiosMarcos(p);
    assert Visible(m', p);
    assert Paginas(m', p) == EscribirPagina(Paginas(m, p), i, desp, dato);
    LosDemasIntactos(m, m', pid);
    AbsActualizada(m, m', pid, Paginas(m', p));
  }

  lemma EscribirInv(c: Config, m: Estado, f: nat, desp: nat, dato: seq<byte>)
    requires Inv(c, m) && f < |m.marcos| && m.ocupados[f] && desp + |dato| <= c.pagina
    ensures Inv(c, m.(marcos := m.marcos[f := Sobrescribir(m.marcos[f], desp, dato)]))
  {
  }

  /** A user write changes the writer's own page at the offset, or nothing if it is outside the
      process or would cross the end of the page. */
  lemma EscribirRefina(c: Config, m: Estado, pid: nat, pag: nat, desp: nat, dato: seq<byte>)
    requires Inv(c, m) && EnMemoria(m, pid) && desp < c.pagina
    ensures TodosVisibles(m) && pid in Abs(m) && |Abs(m)[pid]| == m.procesos[pid].cantidad
    ensures forall i :: 0 <= i < |Abs(m)[pid]| ==> |Abs(m)[pid][i]| == c.pagina
    ensures var m' := Escribir(c, m, pid, pag, desp, dato);
            && Inv(c, m') && TodosVisibles(m')
            && (if !Traducible(c, m, pid, pag) || desp + |dato| > c.pagina then m' == m
                else Abs(m') == Abs(m)[pid := EscribirPagina(Abs(m)[pid], PaginaDe(c, pag), desp, dato)])
  {
    InvVisible(c, m);
    MarcoExacto(c, m, pid, pag);
    PaginasEnteras(c, m, pid);
    if Traducible(c, m, pid, pag) && desp + |dato| <= c.pagina { EscribirDentro(c, m, pid, pag, desp, dato); }
  }

  lemma EscribirDentro(c: Config, m: Estado, pid: nat, pag: nat, desp: nat, dato: seq<byte>)
    requires Inv(c, m) && Traducible(c, m, pid, pag) && desp + |dato| <= c.pagina
    ensures var i := PaginaDe(c, pag);
            && TodosVisibles(m) && pid in Abs(m) && i < |Abs(m)[pid]| && |Abs(m)[pid][i]| == c.pagina
            && i < |MarcosDe(m.procesos[pid].tabla)|
            && var f := MarcosDe(m.procesos[pid].tabla)[i];
            && f < |m.marcos| && |m.marcos[f]| == c.pagina
            && var m' := m.(marcos := m.marcos[f := Sobrescribir(m.marcos[f], desp, dato)]);
            && Inv(c, m') && TodosVisibles(m')
            && Abs(m') == Abs(m)[pid := EscribirPagina(Abs(m)[pid], i, desp, dato)]
  {
    LeerRefina(c, m, pid, pag);
    assert ProcesoBien(c, m.procesos[pid]);
    EscribirInv(c, m, MarcosDe(m.procesos[pid].tabla)[PaginaDe(c, pag)], desp, dato);
    EscribirPaginas(m, pid, PaginaDe(c, pag), desp, dato);
  }

  lemma PaginasEnteras(c: Config, m: Estado, pid: nat)
    requires Inv(c, m) && EnMemoria(m, pid)
    ensures TodosVisibles(m) && pid in Abs(m) && |Abs(m)[pid]| == m.procesos[pid].cantidad
    ensures forall i :: 0 <= i < |Abs(m)[pid]| ==> |Abs(m)[pid][i]| == c.pagina
  {
    InvVisible(c, m);
    assert ProcesoBien(c, m.procesos[pid]);
  }

  /** What the walk of a page's digits finds is the page of the process's own array. */
  lemma LeerRefina(c: Config, m: Estado, pid: nat, pag: nat)
    requires Inv(c, m) && Traducible(c, m, pid, pag)
    ensures var r, i := Marco(c, m, pid, pag), PaginaDe(c, pag);
            && r.Encontrado? && 0 <= r.marco < |m.marcos| && m.ocupados[r.marco] && |m.marcos[r.marco]| == c.pagina
            && i < |MarcosDe(m.procesos[pid].tabla)| && r.marco == MarcosDe(m.procesos[pid].tabla)[i]
            && TodosVisibles(m) && pid in Abs(m) && i < |Abs(m)[pid]| && Abs(m)[pid][i] == m.marcos[r.marco]
  {
    InvVisible(c, m);
    MarcoPropio(c, m, pid, pag);
  }
}
