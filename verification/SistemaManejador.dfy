/** Kernel and memory together when the suspension timer calls the suspend handler as written: the
    exact condition under which every reachable state is a good one. */
module SistemaManejador {
  import opened Memoria
  import opened ManejadorMemoria
  import opened Kernel
  import opened SistemaConjunto
  import K = KernelPasos

  /** The timer finds its process still blocked in the same session. */
  predicate Suspende(s: Sistema, ev: Evento)
  {
    ev.EvTemporizador? && K.SigueBloqueado(s.k, ev.pid, ev.sesiones)
  }

  /** One step, a suspension being memory's handler as written. */
  ghost predicate PasoEscrito(c: Config, cfg: ConfigK, s: Sistema, ev: Evento, s': Sistema)
    requires ConfigValida(c)
  {
    if Suspende(s, ev) then
      && Residente(s.m, ev.pid) && |s.m.swap| == |s.m.indices|
      && s' == Sistema(K.Suspender(s.k, ev.pid), SuspenderManejador(c, s.m, ev.pid))
    else Paso(c, cfg, s, ev, s')
  }

  /** The step suspends nobody, or does so on a free swap table. */
  predicate Guardado(s: Sistema, ev: Evento)
  {
    Suspende(s, ev) ==> ev.pid in s.m.procesos && SwapLibre(s.m, ev.pid)
  }

  lemma AlmacenarInicios(c: Config, m: Estado, pid: nat, tamanio: nat)
    requires ConfigValida(c) && SinInicios(m)
    ensures SinInicios(Almacenar(c, m, pid, tamanio))
  {
  }

  lemma ReanudarInicios(c: Config, m: Estado, pid: nat)
    requires EnSwap(m, pid) && SinInicios(m)
    ensures SinInicios(Reanudar(c, m, pid))
  {
  }

  lemma FinalizarInicios(c: Config, m: Estado, pid: nat)
    requires Conocido(m, pid) && SinInicios(m)
    ensures SinInicios(Finalizar(c, m, pid))
  {
  }

  lemma SuspenderInicios(c: Config, m: Estado, pid: nat)
    requires Residente(m, pid) && |m.swap| == |m.indices| && SinInicios(m)
    ensures SinInicios(SuspenderManejador(c, m, pid))
  {
  }

  /** Steps other than suspensions keep every block start 0. */
  lemma PasoInicios(c: Config, cfg: ConfigK, s: Sistema, ev: Evento, s': Sistema)
    requires ConfigValida(c) && SinInicios(s.m) && Paso(c, cfg, s, ev, s') && !Suspende(s, ev)
    ensures SinInicios(s'.m)
  {
    match ev {
      case EvAdmitirNuevo(orden) => AlmacenarInicios(c, s.m, orden[0], s.k.procesos[orden[0]].tamanio);
      case EvAdmitirSusp(orden) => ReanudarInicios(c, s.m, orden[0]);
      case EvIO(i, nombre, _) => if !DispositivoExiste(s.k, nombre) { FinalizarInicios(c, s.m, s.k.cpus[i].pid); }
      case EvSalir(i) => FinalizarInicios(c, s.m, s.k.cpus[i].pid);
      case _ =>
    }
  }

  lemma SuspensionExacta(c: Config, cfg: ConfigK, s: Sistema, ev: Evento, s': Sistema)
    requires SisInv(c, s) && SinInicios(s.m) && Suspende(s, ev) && PasoEscrito(c, cfg, s, ev, s')
    ensures SinInicios(s'.m) && (Inv(c, s'.m) <==> Guardado(s, ev))
    ensures Guardado(s, ev) ==> Paso(c, cfg, s, ev, s')
  {
    SuspenderInicios(c, s.m, ev.pid);
    ManejadorConSwapLibre(c, s.m, ev.pid);
  }

  /** A step keeps a good state good exactly when it is guarded. */
  lemma PasoEscritoExacto(c: Config, cfg: ConfigK, s: Sistema, ev: Evento, s': Sistema)
    requires SisInv(c, s) && SinInicios(s.m) && PasoEscrito(c, cfg, s, ev, s')
    ensures SinInicios(s'.m) && (SisInv(c, s') <==> Guardado(s, ev))
    ensures Guardado(s, ev) ==> Paso(c, cfg, s, ev, s')
  {
    if Suspende(s, ev) { SuspensionExacta(c, cfg, s, ev, s'); } else { PasoInicios(c, cfg, s, ev, s'); }
    if Guardado(s, ev) { PasoConserva(c, cfg, s, ev, s'); }
  }

  // ----- runs -----

  ghost predicate CorridaEscrita(c: Config, cfg: ConfigK, ss: seq<Sistema>, evs: seq<Evento>)
    requires ConfigValida(c)
  {
    && |ss| == |evs| + 1
    && forall i {:trigger EscritoEn(c, cfg, ss, evs, i)} :: 0 <= i < |evs| ==> EscritoEn(c, cfg, ss, evs, i)
  }

  ghost predicate EscritoEn(c: Config, cfg: ConfigK, ss: seq<Sistema>, evs: seq<Evento>, i: int)
    requires ConfigValida(c) && |ss| == |evs| + 1 && 0 <= i < |evs|
  {
    PasoEscrito(c, cfg, ss[i], evs[i], ss[i + 1])
  }

  ghost predicate BienEn(c: Config, ss: seq<Sistema>, n: int)
    requires 0 <= n < |ss|
  {
    SisInv(c, ss[n])
  }

  lemma {:induction false} BienHasta(c: Config, cfg: ConfigK, marcos: nat, ios: map<string, Dispositivo>,
                                     ss: seq<Sistema>, evs: seq<Evento>, n: nat)
    requires ConfigValida(c) && DispositivosNuevos(ios) && CorridaEscrita(c, cfg, ss, evs)
    requires ss[0] == SistemaInicial(c, marcos, ios) && n <= |evs|
    requires forall k :: 0 <= k < n ==> Guardado(ss[k], evs[k])
    ensures SisInv(c, ss[n]) && SinInicios(ss[n].m)
  {
    if n == 0 {
      SistemaInicialBien(c, marcos, ios);
    } else {
      BienHasta(c, cfg, marcos, ios, ss, evs, n - 1);
      UnPasoBien(c, cfg, ss, evs, n - 1);
    }
  }

  lemma UnPasoBien(c: Config, cfg: ConfigK, ss: seq<Sistema>, evs: seq<Evento>, k: nat)
    requires ConfigValida(c) && CorridaEscrita(c, cfg, ss, evs) && k < |evs|
    requires SisInv(c, ss[k]) && SinInicios(ss[k].m) && Guardado(ss[k], evs[k])
    ensures SisInv(c, ss[k + 1]) && SinInicios(ss[k + 1].m)
  {
    assert EscritoEn(c, cfg, ss, evs, k);
    PasoEscritoExacto(c, cfg, ss[k], evs[k], ss[k + 1]);
  }

  /** Every state of the run is good. */
  ghost predicate TodoBien(c: Config, ss: seq<Sistema>)
  {
    forall n {:trigger BienEn(c, ss, n)} :: 0 <= n < |ss| ==> BienEn(c, ss, n)
  }

  lemma GuardadoPorqueBien(c: Config, cfg: ConfigK, ss: seq<Sistema>, evs: seq<Evento>, k: nat)
    requires ConfigValida(c) && CorridaEscrita(c, cfg, ss, evs) && k < |evs| && TodoBien(c, ss) && SinInicios(ss[k].m)
    ensures Guardado(ss[k], evs[k]) && SinInicios(ss[k + 1].m)
  {
    assert BienEn(c, ss, k) && BienEn(c, ss, k + 1) && EscritoEn(c, cfg, ss, evs, k);
    PasoEscritoExacto(c, cfg, ss[k], evs[k], ss[k + 1]);
  }

  lemma {:induction false} SiempreGuardado(c: Config, cfg: ConfigK, marcos: nat, ios: map<string, Dispositivo>,
                                           ss: seq<Sistema>, evs: seq<Evento>, n: nat)
    requires ConfigValida(c) && DispositivosNuevos(ios) && CorridaEscrita(c, cfg, ss, evs)
    requires ss[0] == SistemaInicial(c, marcos, ios) && n <= |evs| && TodoBien(c, ss)
    ensures SinInicios(ss[n].m) && forall k :: 0 <= k < n ==> Guardado(ss[k], evs[k])
  {
    if n > 0 {
      SiempreGuardado(c, cfg, marcos, ios, ss, evs, n - 1);
      GuardadoPorqueBien(c, cfg, ss, evs, n - 1);
    }
  }

  /** The system as written: kernel and memory agree, with all their invariants, at every point of a
      run exactly when each suspension of the run finds the swap table free. */
  lemma AcuerdoConManejador(c: Config, cfg: ConfigK, marcos: nat, ios: map<string, Dispositivo>,
                            ss: seq<Sistema>, evs: seq<Evento>)
    requires ConfigValida(c) && DispositivosNuevos(ios) && CorridaEscrita(c, cfg, ss, evs)
    requires ss[0] == SistemaInicial(c, marcos, ios)
    ensures TodoBien(c, ss) <==> forall k :: 0 <= k < |evs| ==> Guardado(ss[k], evs[k])
  {
    if forall k :: 0 <= k < |evs| ==> Guardado(ss[k], evs[k]) {
      forall n | 0 <= n <= |evs|
        ensures BienEn(c, ss, n)
      {
        BienHasta(c, cfg, marcos, ios, ss, evs, n);
      }
    }
    if TodoBien(c, ss) { SiempreGuardado(c, cfg, marcos, ios, ss, evs, |evs|); }
  }

  /** Such a run is one of SistemaConjunto, so all that is proved of those holds of it. */
  lemma EscritaEsCorrida(c: Config, cfg: ConfigK, marcos: nat, ios: map<string, Dispositivo>,
                         ss: seq<Sistema>, evs: seq<Evento>)
    requires ConfigValida(c) && DispositivosNuevos(ios) && CorridaEscrita(c, cfg, ss, evs)
    requires ss[0] == SistemaInicial(c, marcos, ios) && forall k :: 0 <= k < |evs| ==> Guardado(ss[k], evs[k])
    ensures Corrida(c, cfg, ss, evs)
  {
    forall i | 0 <= i < |evs|
      ensures PasoDeCorrida(c, cfg, ss, evs, i)
    {
      BienHasta(c, cfg, marcos, ios, ss, evs, i);
      assert EscritoEn(c, cfg, ss, evs, i);
      PasoEscritoExacto(c, cfg, ss[i], evs[i], ss[i + 1]);
    }
  }
}
