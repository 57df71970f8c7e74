/** Whole runs of READ and WRITE, interleaved among processes, against flat private memories: the
    exact condition under which TLB and cache cannot be noticed. */
module CorridasCpu {
  import opened Memoria
  import opened MemoriaFisica
  import opened TLB
  import opened CachePaginas
  import opened CpuModelo

  /** READ or WRITE at an offset of a page. */
  datatype Acceso =
    | Lectura(pid: nat, pag: nat, desp: nat, tam: nat)
    | Escritura(pid: nat, pag: nat, desp: nat, dato: seq<byte>)

  /** Private memories: the bytes of each page of each process. */
  type Planas = map<(nat, nat), seq<byte>>

  /** Accesses inside their process; a READ stays in its page, and a WRITE's two limits agree. */
  ghost predicate AccesoValido(pagina: nat, tb: Tablas, a: Acceso)
  {
    && Suya(tb, a.pid, a.pag) && a.desp < pagina
    && match a
       case Lectura(_, _, desp, tam) => desp + tam <= pagina
       case Escritura(_, _, desp, dato) => Ascii(dato) && Coincide(pagina, desp, |dato|)
  }

  predicate EnPlanas(u: Planas, a: Acceso)
  {
    && (a.pid, a.pag) in u && a.desp <= |u[(a.pid, a.pag)]|
    && (a.Lectura? ==> a.desp + a.tam <= |u[(a.pid, a.pag)]|)
  }

  /** The same access on flat private pages, with what it reads. */
  function PasoPlano(u: Planas, a: Acceso): (Planas, seq<byte>)
  {
    var k := (a.pid, a.pag);
    if !EnPlanas(u, a) then (u, [])
    else
      match a
      case Lectura(_, _, desp, tam) => (u, u[k][desp..desp + tam])
      case Escritura(_, _, desp, dato) => (u[k := EscribirPlano(u[k], desp, dato)], [])
  }

  ghost function PasoCpu(pagina: nat, tb: Tablas, s: Cpu, a: Acceso): (Cpu, seq<byte>)
    requires CpuBien(pagina, tb, s) && AccesoValido(pagina, tb, a)
  {
    match a
    case Lectura(pid, pag, desp, tam) => LeerCpuEn(pagina, tb, pid, s, pag, desp, tam)
    case Escritura(pid, pag, desp, dato) => (EscribirCpuEn(pagina, tb, pid, s, pag, desp, dato), [])
  }

  /** The flat memory each process believes in. */
  ghost function Plana(tb: Tablas, s: Cpu): (r: Planas)
    requires CacheBien(s.cache)
  {
    map p, i: nat | p in tb && 0 <= i < |tb[p]| :: (p, i) := Vista(tb, s, p, i)
  }

  lemma PlanaEn(tb: Tablas, s: Cpu, p: nat, i: nat)
    requires CacheBien(s.cache)
    ensures (p, i) in Plana(tb, s) <==> Suya(tb, p, i)
    ensures Suya(tb, p, i) ==> Plana(tb, s)[(p, i)] == Vista(tb, s, p, i)
  {
  }

  /** Private memories are the same if they agree page by page. */
  lemma PlanasIguales(tb: Tablas, s: Cpu, u: Planas)
    requires CacheBien(s.cache)
    requires forall k :: k in u <==> Suya(tb, k.0, k.1)
    requires forall p: nat, i: nat :: Suya(tb, p, i) ==> u[(p, i)] == Vista(tb, s, p, i)
    ensures Plana(tb, s) == u
  {
    forall k
      ensures k in u <==> k in Plana(tb, s)
      ensures k in u ==> u[k] == Plana(tb, s)[k]
    {
      PlanaEn(tb, s, k.0, k.1);
      assert k == (k.0, k.1);
    }
  }

  lemma EnPlana(pagina: nat, tb: Tablas, s: Cpu, a: Acceso)
    requires CpuBien(pagina, tb, s) && AccesoValido(pagina, tb, a)
    ensures EnPlanas(Plana(tb, s), a)
  {
    PlanaEn(tb, s, a.pid, a.pag);
    PaginaDeVista(pagina, tb, s, a.pid, a.pag);
  }

  // ----- one access -----

  /** What an access does to the views, given those after its load; and what it reads. */
  lemma AccesoVista(pagina: nat, tb: Tablas, s: Cpu, a: Acceso, p: nat, i: nat)
    requires CpuBien(pagina, tb, s) && AccesoValido(pagina, tb, a) && Suya(tb, p, i)
    ensures var s', s1 := PasoCpu(pagina, tb, s, a).0, Asegurar(pagina, tb, a.pid, s, a.pag, a.Escritura?);
            && CacheBien(s'.cache) && CacheBien(s1.cache)
            && Vista(tb, s', p, i) == PaginaTras(a, p, i, Vista(tb, s1, p, i))
  {
    AsegurarBien(pagina, tb, a.pid, s, a.pag, a.Escritura?);
    match a {
      case Lectura(pid, pag, desp, tam) => LeerCpuBien(pagina, tb, pid, s, pag, desp, tam);
      case Escritura(pid, pag, desp, dato) =>
        EscribirCpuBien(pagina, tb, pid, s, pag, desp, dato);
        EscriturasCoinciden(pagina, desp, dato);
    }
  }

  lemma AccesoBien(pagina: nat, tb: Tablas, s: Cpu, a: Acceso)
    requires CpuBien(pagina, tb, s) && AccesoValido(pagina, tb, a)
    ensures CpuBien(pagina, tb, PasoCpu(pagina, tb, s, a).0)
    ensures AjenosIgual(tb, s.marcos, PasoCpu(pagina, tb, s, a).0.marcos)
  {
    match a {
      case Lectura(pid, pag, desp, tam) => LeerCpuBien(pagina, tb, pid, s, pag, desp, tam);
      case Escritura(pid, pag, desp, dato) => EscribirCpuBien(pagina, tb, pid, s, pag, desp, dato);
    }
  }

  /** What an access reads is what its process sees, whoever else uses the cache. */
  lemma LecturaExacta(pagina: nat, tb: Tablas, s: Cpu, a: Acceso, u: Planas)
    requires CpuBien(pagina, tb, s) && AccesoValido(pagina, tb, a)
    requires EnPlanas(u, a) && u[(a.pid, a.pag)] == Vista(tb, s, a.pid, a.pag)
    ensures PasoCpu(pagina, tb, s, a).1 == PasoPlano(u, a).1
  {
    if a.Lectura? { LeerCpuBien(pagina, tb, a.pid, s, a.pag, a.desp, a.tam); }
  }

  /** What a page of the private memories is after an access. */
  function PaginaTras(a: Acceso, p: nat, i: nat, v: seq<byte>): seq<byte>
  {
    if a.Escritura? && p == a.pid && i == a.pag && a.desp <= |v| then EscribirPlano(v, a.desp, a.dato) else v
  }

  lemma PlanaTrasPaso(tb: Tablas, s: Cpu, a: Acceso, p: nat, i: nat)
    requires CacheBien(s.cache) && EnPlanas(Plana(tb, s), a)
    ensures (p, i) in PasoPlano(Plana(tb, s), a).0 <==> Suya(tb, p, i)
    ensures Suya(tb, p, i) ==> PasoPlano(Plana(tb, s), a).0[(p, i)] == PaginaTras(a, p, i, Vista(tb, s, p, i))
  {
    PlanaEn(tb, s, p, i);
  }

  /** After one access each process sees what it would on flat memory, except the one whose entry
      the load overwrites, which sees its frame. */
  lemma PasoVista(pagina: nat, tb: Tablas, s: Cpu, a: Acceso, p: nat, i: nat)
    requires CpuBien(pagina, tb, s) && AccesoValido(pagina, tb, a) && Suya(tb, p, i)
    ensures var s' := PasoCpu(pagina, tb, s, a).0;
            && CpuBien(pagina, tb, s')
            && Vista(tb, s', p, i) == if i == a.pag && Pisada(s, a.pid, i, p) then s.marcos[MarcoDe(tb, p, i)]
                                      else PaginaTras(a, p, i, Vista(tb, s, p, i))
  {
    AccesoBien(pagina, tb, s, a);
    AccesoVista(pagina, tb, s, a, p, i);
    AsegurarVista(pagina, tb, a.pid, s, a.pag, a.Escritura?, p, i);
  }

  /** One access commutes with flattening exactly when its load overwrites nothing that another
      process keeps only in the cache. */
  lemma PasoExacto(pagina: nat, tb: Tablas, s: Cpu, a: Acceso)
    requires CpuBien(pagina, tb, s) && AccesoValido(pagina, tb, a)
    ensures CpuBien(pagina, tb, PasoCpu(pagina, tb, s, a).0)
    ensures PasoPlano(Plana(tb, s), a).0 == Plana(tb, PasoCpu(pagina, tb, s, a).0) <==> !Pierde(tb, s, a.pid, a.pag)
  {
    AccesoBien(pagina, tb, s, a);
    EnPlana(pagina, tb, s, a);
    if Pierde(tb, s, a.pid, a.pag) { ConPerdida(pagina, tb, s, a); } else { SinPerdida(pagina, tb, s, a); }
  }

  lemma ConPerdida(pagina: nat, tb: Tablas, s: Cpu, a: Acceso)
    requires CpuBien(pagina, tb, s) && AccesoValido(pagina, tb, a) && Pierde(tb, s, a.pid, a.pag)
    requires EnPlanas(Plana(tb, s), a) && CacheBien(PasoCpu(pagina, tb, s, a).0.cache)
    ensures PasoPlano(Plana(tb, s), a).0 != Plana(tb, PasoCpu(pagina, tb, s, a).0)
  {
    var q := s.cache.entries[s.cache.indice[a.pag]].pid;
    PasoVista(pagina, tb, s, a, q, a.pag);
    PlanaTrasPaso(tb, s, a, q, a.pag);
    PlanaEn(tb, PasoCpu(pagina, tb, s, a).0, q, a.pag);
  }

  lemma SinPerdida(pagina: nat, tb: Tablas, s: Cpu, a: Acceso)
    requires CpuBien(pagina, tb, s) && AccesoValido(pagina, tb, a) && !Pierde(tb, s, a.pid, a.pag)
    requires EnPlanas(Plana(tb, s), a) && CacheBien(PasoCpu(pagina, tb, s, a).0.cache)
    ensures PasoPlano(Plana(tb, s), a).0 == Plana(tb, PasoCpu(pagina, tb, s, a).0)
  {
    var s', u := PasoCpu(pagina, tb, s, a).0, PasoPlano(Plana(tb, s), a).0;
    forall k
      ensures k in u <==> Suya(tb, k.0, k.1)
    {
      PlanaTrasPaso(tb, s, a, k.0, k.1);
      assert k == (k.0, k.1);
    }
    forall p: nat, i: nat | Suya(tb, p, i)
      ensures u[(p, i)] == Vista(tb, s', p, i)
    {
      PasoVista(pagina, tb, s, a, p, i);
      PlanaTrasPaso(tb, s, a, p, i);
    }
    PlanasIguales(tb, s', u);
  }

  /** Only a modified entry can be lost. */
  lemma SoloSucias(pagina: nat, tb: Tablas, s: Cpu, pid: nat, pag: nat)
    requires CpuBien(pagina, tb, s) && Pierde(tb, s, pid, pag)
    ensures s.cache.entries[s.cache.indice[pag]].d
  {
    EntradaDePagina(pagina, tb, s, pag);
  }

  // ----- runs -----

  /** States ss[0], ss[1], ... linked by accesses that read leidos[0], leidos[1], ... */
  ghost predicate Corrida(pagina: nat, tb: Tablas, ss: seq<Cpu>, accesos: seq<Acceso>, leidos: seq<seq<byte>>)
  {
    && |ss| == |accesos| + 1 && |leidos| == |accesos|
    && forall k {:trigger PasoEn(pagina, tb, ss, accesos, leidos, k)} :: 0 <= k < |accesos| ==>
         PasoEn(pagina, tb, ss, accesos, leidos, k)
  }

  ghost predicate PasoEn(pagina: nat, tb: Tablas, ss: seq<Cpu>, accesos: seq<Acceso>, leidos: seq<seq<byte>>, k: int)
    requires |ss| == |accesos| + 1 && |leidos| == |accesos| && 0 <= k < |accesos|
  {
    && AccesoValido(pagina, tb, accesos[k])
    && (if k == 0 then CpuBien(pagina, tb, ss[0]) else true)
    && (CpuBien(pagina, tb, ss[k]) ==> (ss[k + 1], leidos[k]) == PasoCpu(pagina, tb, ss[k], accesos[k]))
  }

  /** The same accesses on private memories us[0], us[1], ... */
  ghost predicate CorridaPlana(us: seq<Planas>, accesos: seq<Acceso>)
  {
    && |us| == |accesos| + 1
    && forall k {:trigger PlanoEn(us, accesos, k)} :: 0 <= k < |accesos| ==> PlanoEn(us, accesos, k)
  }

  ghost predicate PlanoEn(us: seq<Planas>, accesos: seq<Acceso>, k: int)
    requires |us| == |accesos| + 1 && 0 <= k < |accesos|
  {
    us[k + 1] == PasoPlano(us[k], accesos[k]).0
  }

  /** Everybody sees, through TLB and cache, what is in `u`. */
  ghost predicate Ven(tb: Tablas, s: Cpu, u: Planas)
  {
    CacheBien(s.cache) && Plana(tb, s) == u
  }

  /** The access's load overwrites what another process keeps only in the cache. */
  predicate PierdeAhora(tb: Tablas, s: Cpu, a: Acceso)
  {
    CacheBien(s.cache) && Pierde(tb, s, a.pid, a.pag)
  }

  /** In order at every point where the run goes on, and after it. */
  lemma EnCorrida(pagina: nat, tb: Tablas, ss: seq<Cpu>, accesos: seq<Acceso>, leidos: seq<seq<byte>>, k: nat)
    requires Corrida(pagina, tb, ss, accesos, leidos) && k < |accesos|
    ensures CpuBien(pagina, tb, ss[k]) && AccesoValido(pagina, tb, accesos[k])
    ensures (ss[k + 1], leidos[k]) == PasoCpu(pagina, tb, ss[k], accesos[k])
    ensures CpuBien(pagina, tb, ss[k + 1]) && AjenosIgual(tb, ss[k].marcos, ss[k + 1].marcos)
  {
    EnOrden(pagina, tb, ss, accesos, leidos, k);
    CorridaSigue(pagina, tb, ss, accesos, leidos, k);
  }

  lemma {:induction false} EnOrden(pagina: nat, tb: Tablas, ss: seq<Cpu>, accesos: seq<Acceso>,
                                   leidos: seq<seq<byte>>, k: nat)
    requires Corrida(pagina, tb, ss, accesos, leidos) && k < |accesos|
    ensures CpuBien(pagina, tb, ss[k])
  {
    assert PasoEn(pagina, tb, ss, accesos, leidos, k);
    if k > 0 {
      EnOrden(pagina, tb, ss, accesos, leidos, k - 1);
      SigueEnOrden(pagina, tb, ss, accesos, leidos, k - 1, k);
    }
  }

  lemma SigueEnOrden(pagina: nat, tb: Tablas, ss: seq<Cpu>, accesos: seq<Acceso>, leidos: seq<seq<byte>>,
                     k: nat, n: nat)
    requires Corrida(pagina, tb, ss, accesos, leidos) && k < |accesos| && n == k + 1 && CpuBien(pagina, tb, ss[k])
    ensures CpuBien(pagina, tb, ss[n])
  {
    CorridaSigue(pagina, tb, ss, accesos, leidos, k);
  }

  lemma CorridaSigue(pagina: nat, tb: Tablas, ss: seq<Cpu>, accesos: seq<Acceso>, leidos: seq<seq<byte>>, k: nat)
    requires Corrida(pagina, tb, ss, accesos, leidos) && k < |accesos| && CpuBien(pagina, tb, ss[k])
    ensures AccesoValido(pagina, tb, accesos[k])
    ensures (ss[k + 1], leidos[k]) == PasoCpu(pagina, tb, ss[k], accesos[k])
    ensures CpuBien(pagina, tb, ss[k + 1]) && AjenosIgual(tb, ss[k].marcos, ss[k + 1].marcos)
  {
    assert PasoEn(pagina, tb, ss, accesos, leidos, k);
    AccesoBien(pagina, tb, ss[k], accesos[k]);
  }

  lemma PasoVen(pagina: nat, tb: Tablas, s: Cpu, a: Acceso, u: Planas)
    requires CpuBien(pagina, tb, s) && AccesoValido(pagina, tb, a) && Ven(tb, s, u)
    ensures Ven(tb, PasoCpu(pagina, tb, s, a).0, PasoPlano(u, a).0) <==> !PierdeAhora(tb, s, a)
    ensures PasoCpu(pagina, tb, s, a).1 == PasoPlano(u, a).1
  {
    PasoExacto(pagina, tb, s, a);
    EnPlana(pagina, tb, s, a);
    PlanaEn(tb, s, a.pid, a.pag);
    LecturaExacta(pagina, tb, s, a, u);
  }

  /** The two runs side by side. */
  ghost predicate Juntas(pagina: nat, tb: Tablas, ss: seq<Cpu>, accesos: seq<Acceso>, leidos: seq<seq<byte>>,
                         us: seq<Planas>)
  {
    Corrida(pagina, tb, ss, accesos, leidos) && CorridaPlana(us, accesos) && Ven(tb, ss[0], us[0])
  }

  /** What one step does to a view that has been right so far. */
  lemma PasoDeCorrida(pagina: nat, tb: Tablas, ss: seq<Cpu>, accesos: seq<Acceso>, leidos: seq<seq<byte>>,
                      us: seq<Planas>, k: nat)
    requires Juntas(pagina, tb, ss, accesos, leidos, us) && k < |accesos| && Ven(tb, ss[k], us[k])
    ensures Ven(tb, ss[k + 1], us[k + 1]) <==> !PierdeAhora(tb, ss[k], accesos[k])
    ensures leidos[k] == PasoPlano(us[k], accesos[k]).1
  {
    EnCorrida(pagina, tb, ss, accesos, leidos, k);
    assert PlanoEn(us, accesos, k);
    PasoVen(pagina, tb, ss[k], accesos[k], us[k]);
  }

  lemma {:induction false} VenHasta(pagina: nat, tb: Tablas, ss: seq<Cpu>, accesos: seq<Acceso>, leidos: seq<seq<byte>>,
                                    us: seq<Planas>, k: nat)
    requires Juntas(pagina, tb, ss, accesos, leidos, us) && k <= |accesos|
    requires forall j :: 0 <= j < k ==> !PierdeAhora(tb, ss[j], accesos[j])
    ensures Ven(tb, ss[k], us[k])
  {
    if k > 0 {
      VenHasta(pagina, tb, ss, accesos, leidos, us, k - 1);
      PasoDeCorrida(pagina, tb, ss, accesos, leidos, us, k - 1);
    }
  }

  /** Cached execution refines flat memory for any interleaving of any processes: everybody sees
      its own flat memory at every point of the run exactly when no load overwrites another
      process's only copy. */
  lemma CacheTransparente(pagina: nat, tb: Tablas, ss: seq<Cpu>, accesos: seq<Acceso>, leidos: seq<seq<byte>>,
                          us: seq<Planas>)
    requires Juntas(pagina, tb, ss, accesos, leidos, us)
    ensures (forall k :: 0 <= k <= |accesos| ==> Ven(tb, ss[k], us[k]))
            <==> (forall k :: 0 <= k < |accesos| ==> !PierdeAhora(tb, ss[k], accesos[k]))
  {
    if forall k :: 0 <= k < |accesos| ==> !PierdeAhora(tb, ss[k], accesos[k]) {
      forall k | 0 <= k <= |accesos|
        ensures Ven(tb, ss[k], us[k])
      {
        VenHasta(pagina, tb, ss, accesos, leidos, us, k);
      }
    }
    if forall k :: 0 <= k <= |accesos| ==> Ven(tb, ss[k], us[k]) {
      forall k | 0 <= k < |accesos|
        ensures !PierdeAhora(tb, ss[k], accesos[k])
      {
        PasoDeCorrida(pagina, tb, ss, accesos, leidos, us, k);
      }
    }
  }

  /** ... and until something is lost, every READ answers as flat memory does. */
  lemma LecturasTransparentes(pagina: nat, tb: Tablas, ss: seq<Cpu>, accesos: seq<Acceso>, leidos: seq<seq<byte>>,
                              us: seq<Planas>, k: nat)
    requires Juntas(pagina, tb, ss, accesos, leidos, us) && k < |accesos|
    requires forall j :: 0 <= j < k ==> !PierdeAhora(tb, ss[j], accesos[j])
    ensures leidos[k] == PasoPlano(us[k], accesos[k]).1
  {
    VenHasta(pagina, tb, ss, accesos, leidos, us, k);
    PasoDeCorrida(pagina, tb, ss, accesos, leidos, us, k);
  }

  /** A process alone on its CPU loses nothing: transparency without conditions. */
  lemma CacheDeUnProceso(pagina: nat, fs: seq<nat>, pid: nat, ss: seq<Cpu>, accesos: seq<Acceso>,
                         leidos: seq<seq<byte>>, us: seq<Planas>, k: nat)
    requires Juntas(pagina, map[pid := fs], ss, accesos, leidos, us) && k < |accesos|
    ensures Ven(map[pid := fs], ss[k + 1], us[k + 1]) && leidos[k] == PasoPlano(us[k], accesos[k]).1
  {
    forall j | 0 <= j < |accesos|
      ensures !PierdeAhora(map[pid := fs], ss[j], accesos[j])
    {
      EnCorrida(pagina, map[pid := fs], ss, accesos, leidos, j);
      SoloNoPierde(pagina, fs, pid, ss[j], accesos[j]);
    }
    VenHasta(pagina, map[pid := fs], ss, accesos, leidos, us, k + 1);
    LecturasTransparentes(pagina, map[pid := fs], ss, accesos, leidos, us, k);
  }

  lemma SoloNoPierde(pagina: nat, fs: seq<nat>, pid: nat, s: Cpu, a: Acceso)
    requires CpuBien(pagina, map[pid := fs], s) && AccesoValido(pagina, map[pid := fs], a)
    ensures !PierdeAhora(map[pid := fs], s, a)
  {
    if a.pag in s.cache.indice { EntradaDePagina(pagina, map[pid := fs], s, a.pag); }
  }

  /** No frame outside the tables changes in any run. */
  lemma {:induction false} AjenosIntactos(pagina: nat, tb: Tablas, ss: seq<Cpu>, accesos: seq<Acceso>,
                                          leidos: seq<seq<byte>>, k: nat)
    requires Corrida(pagina, tb, ss, accesos, leidos) && k <= |accesos|
    ensures AjenosIgual(tb, ss[0].marcos, ss[k].marcos)
  {
    if k > 0 {
      AjenosIntactos(pagina, tb, ss, accesos, leidos, k - 1);
      AjenosEnPaso(pagina, tb, ss, accesos, leidos, k - 1);
      AjenosSeguidos(tb, ss[0].marcos, ss[k - 1].marcos, ss[k].marcos);
    }
  }

  lemma AjenosEnPaso(pagina: nat, tb: Tablas, ss: seq<Cpu>, accesos: seq<Acceso>, leidos: seq<seq<byte>>, k: nat)
    requires Corrida(pagina, tb, ss, accesos, leidos) && k < |accesos|
    ensures AjenosIgual(tb, ss[k].marcos, ss[k + 1].marcos)
  {
    EnCorrida(pagina, tb, ss, accesos, leidos, k);
  }

  lemma AjenosSeguidos(tb: Tablas, a: seq<Pagina>, b: seq<Pagina>, c: seq<Pagina>)
    requires AjenosIgual(tb, a, b) && AjenosIgual(tb, b, c)
    ensures AjenosIgual(tb, a, c)
  {
  }

  // ----- a loss -----

  /** Two processes of one page of one byte, on a CPU without TLB whose cache has one slot. */
  function DosTablas(): Tablas
  {
    map[1 := [0], 2 := [1]]
  }

  function SinNada(): Cpu
  {
    Cpu(false, Vacia(1, FIFO), CacheVacia(1, CLOCK), [[0], [0]])
  }

  function UnSlot(pid: nat, contenido: seq<byte>, d: bool): Cpu
  {
    SinNada().(cache := Cache([EntradaC(0, contenido, pid, true, d)], map[0 := 0], 1, CLOCK, 0))
  }

  lemma EjemploBien(pid: nat, contenido: seq<byte>, d: bool)
    requires (pid == 1 || pid == 2) && |contenido| == 1 && contenido[0] < 128 && (!d ==> contenido == [0])
    ensures CpuBien(1, DosTablas(), SinNada()) && CpuBien(1, DosTablas(), UnSlot(pid, contenido, d))
  {
    EjemploMarcos();
    var s := UnSlot(pid, contenido, d);
    assert EntradaBien(1, DosTablas(), s.marcos, s.cache.entries[0]);
  }

  lemma EjemploMarcos()
    ensures MarcosBien(1, DosTablas(), SinNada().marcos)
    ensures forall p, i :: Suya(DosTablas(), p, i) <==> (p == 1 || p == 2) && i == 0
    ensures MarcoDe(DosTablas(), 1, 0) == 0 && MarcoDe(DosTablas(), 2, 0) == 1
  {
  }

  /** A miss without TLB, into a slot that is free or holds the same number for another process. */
  lemma FalloSinTlb(pagina: nat, tb: Tablas, pid: nat, s: Cpu, pag: nat, d: bool)
    requires CpuBien(pagina, tb, s) && Suya(tb, pid, pag) && !s.usaTlb && Propia(s.cache, pid, pag).Nada?
    requires pag in s.cache.indice || |s.cache.entries| < s.cache.capacidad
    ensures MarcoDe(tb, pid, pag) < |s.marcos|
    ensures var q, e := s.cache, EntradaC(pag, s.marcos[MarcoDe(tb, pid, pag)], pid, true, d);
            Asegurar(pagina, tb, pid, s, pag, d)
            == s.(cache := if pag in q.indice then q.(entries := q.entries[q.indice[pag] := e])
                           else q.(entries := q.entries + [e], indice := q.indice[pag := |q.entries|]))
  {
    var s1, e := TraerEs(pagina, tb, pid, s, pag, d);
    InsertarPartes(pagina, tb, s1, e);
  }

  lemma CargaEnVacia(pid: nat, d: bool)
    requires pid == 1 || pid == 2
    ensures CpuBien(1, DosTablas(), SinNada()) && Suya(DosTablas(), pid, 0)
    ensures Asegurar(1, DosTablas(), pid, SinNada(), 0, d) == UnSlot(pid, [0], d)
  {
    EjemploBien(pid, [0], true);
    EjemploMarcos();
    FalloSinTlb(1, DosTablas(), pid, SinNada(), 0, d);
    UnaEntrada(pid, d);
  }

  lemma UnaEntrada(pid: nat, d: bool)
    ensures var e, vacio: map<nat, nat> := EntradaC(0, [0], pid, true, d), map[];
            [] + [e] == [e] && vacio[0 := 0] == map[0 := 0]
  {
  }

  /** Whatever of the other process the slot held, the load leaves the page of this one. */
  lemma CargaSobreOtro(pid: nat, d: bool, contenido: seq<byte>, sucia: bool)
    requires (pid == 1 || pid == 2) && |contenido| == 1 && contenido[0] < 128 && (!sucia ==> contenido == [0])
    ensures CpuBien(1, DosTablas(), UnSlot(3 - pid, contenido, sucia)) && Suya(DosTablas(), pid, 0)
    ensures Asegurar(1, DosTablas(), pid, UnSlot(3 - pid, contenido, sucia), 0, d) == UnSlot(pid, [0], d)
  {
    EjemploBien(3 - pid, contenido, sucia);
    EjemploMarcos();
    FalloSinTlb(1, DosTablas(), pid, UnSlot(3 - pid, contenido, sucia), 0, d);
    SlotDeOtro(3 - pid, contenido, sucia, EntradaC(0, [0], pid, true, d));
  }

  lemma SlotDeOtro(pid: nat, contenido: seq<byte>, sucia: bool, e: EntradaC)
    ensures UnSlot(pid, contenido, sucia).cache.entries[0 := e] == [e]
  {
  }

  lemma EscrituraEnVacia()
    ensures CpuBien(1, DosTablas(), SinNada()) && AccesoValido(1, DosTablas(), Escritura(1, 0, 0, [7]))
    ensures PasoCpu(1, DosTablas(), SinNada(), Escritura(1, 0, 0, [7])) == (UnSlot(1, [7], true), [])
  {
    CargaEnVacia(1, true);
    CopiaDeUno();
    CambioDelSlot(1, [0], true, EntradaC(0, [7], 1, true, true));
  }

  lemma CopiaDeUno()
    ensures CopiarEnCache([0], 0, [7]) == [7]
  {
  }

  lemma CambioDelSlot(pid: nat, contenido: seq<byte>, d: bool, e: EntradaC)
    ensures var s := UnSlot(pid, contenido, d);
            && CacheBien(s.cache) && 0 in s.cache.indice
            && s.cache.entries[s.cache.indice[0]] == EntradaC(0, contenido, pid, true, d)
            && (e == EntradaC(0, e.contenido, pid, true, e.d) ==> CambiarSlot(s, 0, e) == UnSlot(pid, e.contenido, e.d))
  {
    assert [EntradaC(0, contenido, pid, true, d)][0 := e] == [e];
  }

  lemma LecturaSobreOtro(pid: nat, contenido: seq<byte>, sucia: bool)
    requires (pid == 1 || pid == 2) && |contenido| == 1 && contenido[0] < 128 && (!sucia ==> contenido == [0])
    ensures var s := UnSlot(3 - pid, contenido, sucia);
            && CpuBien(1, DosTablas(), s) && AccesoValido(1, DosTablas(), Lectura(pid, 0, 0, 1))
            && PasoCpu(1, DosTablas(), s, Lectura(pid, 0, 0, 1)) == (UnSlot(pid, [0], false), [0])
  {
    CargaSobreOtro(pid, false, contenido, sucia);
    LecturaDelSlot(pid, UnSlot(3 - pid, contenido, sucia), UnSlot(pid, [0], false));
  }

  lemma LecturaDelSlot(pid: nat, s: Cpu, s1: Cpu)
    requires CpuBien(1, DosTablas(), s) && Suya(DosTablas(), pid, 0)
    requires s1 == UnSlot(pid, [0], false) && Asegurar(1, DosTablas(), pid, s, 0, false) == s1
    ensures AccesoValido(1, DosTablas(), Lectura(pid, 0, 0, 1))
    ensures PasoCpu(1, DosTablas(), s, Lectura(pid, 0, 0, 1)) == (s1, [0])
  {
    CambioDelSlot(pid, [0], false, EntradaC(0, [0], pid, true, false));
    assert EntradaC(0, [0], pid, true, false).(r := true) == EntradaC(0, [0], pid, true, false);
    var primero: seq<byte> := [0];
    assert primero[0..1] == primero;
  }

  /** A lost write: process 1 writes 7, process 2 reads its own page of the same number, and
      process 1 then reads 0. */
  lemma EscrituraPerdida()
    ensures var a, b, c := Escritura(1, 0, 0, [7]), Lectura(2, 0, 0, 1), Lectura(1, 0, 0, 1);
            && CpuBien(1, DosTablas(), SinNada()) && AccesoValido(1, DosTablas(), a)
            && AccesoValido(1, DosTablas(), b) && AccesoValido(1, DosTablas(), c)
            && var s1 := PasoCpu(1, DosTablas(), SinNada(), a).0;
            && CpuBien(1, DosTablas(), s1)
            && var s2 := PasoCpu(1, DosTablas(), s1, b).0;
            && CpuBien(1, DosTablas(), s2) && PasoCpu(1, DosTablas(), s2, c).1 == [0]
  {
    EscrituraEnVacia();
    LecturaSobreOtro(2, [7], true);
    LecturaSobreOtro(1, [0], false);
  }

  /** ... which on flat memory reads 7. */
  lemma EscrituraEnPlana(u: Planas)
    requires Ven(DosTablas(), SinNada(), u)
    ensures var v := PasoPlano(u, Escritura(1, 0, 0, [7])).0;
            PasoPlano(PasoPlano(v, Lectura(2, 0, 0, 1)).0, Lectura(1, 0, 0, 1)).1 == [7]
  {
    VenAlInicio(u);
    EscrituraQueQueda(u, Escritura(1, 0, 0, [7]), Lectura(2, 0, 0, 1));
  }

  lemma VenAlInicio(u: Planas)
    requires Ven(DosTablas(), SinNada(), u)
    ensures (1, 0) in u && u[(1, 0)] == [0]
  {
    EjemploMarcos();
    assert Vista(DosTablas(), SinNada(), 1, 0) == SinNada().marcos[0];
  }

  lemma EscrituraQueQueda(u: Planas, a: Acceso, b: Acceso)
    requires (1, 0) in u && u[(1, 0)] == [0] && a == Escritura(1, 0, 0, [7]) && b == Lectura(2, 0, 0, 1)
    ensures PasoPlano(PasoPlano(PasoPlano(u, a).0, b).0, Lectura(1, 0, 0, 1)).1 == [7]
  {
    var siete: seq<byte>, cero: seq<byte> := [7], [0];
    SobrescribirTodo(cero, siete);
    var v := PasoPlano(u, a).0;
    assert v[(1, 0)] == siete && PasoPlano(v, b).0 == v;
    assert siete[0..1] == siete;
  }

  lemma SobrescribirTodo(antes: seq<byte>, dato: seq<byte>)
    requires |antes| == |dato|
    ensures EscribirPlano(antes, 0, dato) == dato
  {
  }

  // ----- without a cache -----

  /** Flat memory as the frames hold it. */
  ghost function PlanaDeMarcos(tb: Tablas, marcos: seq<Pagina>): Planas
  {
    map p, i: nat | p in tb && 0 <= i < |tb[p]| ::
      (p, i) := if MarcoDe(tb, p, i) < |marcos| then marcos[MarcoDe(tb, p, i)] else []
  }

  /** Overwriting one frame is the write on flat memory. */
  lemma EscrituraEnMarco(pagina: nat, tb: Tablas, marcos: seq<Pagina>, pid: nat, pag: nat, desp: nat, dato: seq<byte>)
    requires MarcosBien(pagina, tb, marcos) && Suya(tb, pid, pag) && desp < pagina
    ensures var f := MarcoDe(tb, pid, pag);
            && f < |marcos| && |marcos[f]| == pagina
            && PlanaDeMarcos(tb, marcos[f := EscribirPlano(marcos[f], desp, dato)])
            == PasoPlano(PlanaDeMarcos(tb, marcos), Escritura(pid, pag, desp, dato)).0
  {
    var f := MarcoDe(tb, pid, pag);
    var u, pagNueva := PlanaDeMarcos(tb, marcos), EscribirPlano(marcos[f], desp, dato);
    assert (pid, pag) in u && u[(pid, pag)] == marcos[f];
    CambiarMarco(pagina, tb, marcos, pid, pag, pagNueva);
  }

  lemma CambiarMarco(pagina: nat, tb: Tablas, marcos: seq<Pagina>, pid: nat, pag: nat, contenido: Pagina)
    requires MarcosBien(pagina, tb, marcos) && Suya(tb, pid, pag)
    ensures MarcoDe(tb, pid, pag) < |marcos|
    ensures PlanaDeMarcos(tb, marcos[MarcoDe(tb, pid, pag) := contenido])
         == PlanaDeMarcos(tb, marcos)[(pid, pag) := contenido]
  {
    var m := marcos[MarcoDe(tb, pid, pag) := contenido];
    forall k | k in PlanaDeMarcos(tb, m)
      ensures PlanaDeMarcos(tb, m)[k] == PlanaDeMarcos(tb, marcos)[(pid, pag) := contenido][k]
    {
      assert Suya(tb, k.0, k.1) && k == (k.0, k.1);
    }
  }

  /** Reading one frame through `leer` is the read on flat memory. */
  lemma LecturaEnMarco(pagina: nat, tb: Tablas, marcos: seq<Pagina>, pid: nat, pag: nat, desp: nat, tam: nat)
    requires MarcosBien(pagina, tb, marcos) && Suya(tb, pid, pag) && desp + tam <= pagina
    ensures var f := MarcoDe(tb, pid, pag);
            && f < |marcos| && |marcos[f]| == pagina
            && Texto(marcos[f][desp..desp + tam])
              == PasoPlano(PlanaDeMarcos(tb, marcos), Lectura(pid, pag, desp, tam)).1
  {
    assert (pid, pag) in PlanaDeMarcos(tb, marcos);
    TextoAscii(marcos[MarcoDe(tb, pid, pag)][desp..desp + tam]);
  }
}
