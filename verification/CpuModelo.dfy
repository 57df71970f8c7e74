/** READ and WRITE through TLB and write-back cache by any number of processes: when each of them
    sees exactly what it would see on uncached memory. */
module CpuModelo {
  import opened Aritmetica
  import opened Secuencias
  import opened Memoria
  import opened MemoriaFisica
  import opened TLB
  import opened CachePaginas

  datatype Cpu = Cpu(usaTlb: bool, tlb: Tlb, cache: Cache, marcos: seq<Pagina>)

  /** The fixed page tables: the frame of each page of each process. */
  type Tablas = map<nat, seq<nat>>

  /** The limit the cache write checks against, whatever the page size. */
  const LIMITE_CACHE := 64

  ghost predicate Ascii(s: seq<byte>)
  {
    forall i :: 0 <= i < |s| ==> s[i] < 128
  }

  predicate Suya(tb: Tablas, pid: nat, pag: nat)
  {
    pid in tb && pag < |tb[pid]|
  }

  function MarcoDe(tb: Tablas, pid: nat, pag: nat): nat
  {
    if Suya(tb, pid, pag) then tb[pid][pag] else 0
  }

  function Consulta(tb: Tablas): (nat, nat) -> nat
  {
    (pid: nat, pag: nat) => MarcoDe(tb, pid, pag)
  }

  /** Every page of every process has a frame of its own, holding plain text. */
  ghost predicate MarcosBien(pagina: nat, tb: Tablas, marcos: seq<Pagina>)
  {
    && (forall p, i :: Suya(tb, p, i) ==> MarcoDe(tb, p, i) < |marcos| && Ascii(marcos[MarcoDe(tb, p, i)]))
    && (forall p, i, q, j :: Suya(tb, p, i) && Suya(tb, q, j) && MarcoDe(tb, p, i) == MarcoDe(tb, q, j) ==>
        p == q && i == j)
    && (forall f :: 0 <= f < |marcos| ==> |marcos[f]| == pagina)
  }

  ghost predicate EntradaBien(pagina: nat, tb: Tablas, marcos: seq<Pagina>, e: EntradaC)
  {
    && Suya(tb, e.pid, e.pagina) && |e.contenido| == pagina && Ascii(e.contenido)
    && MarcoDe(tb, e.pid, e.pagina) < |marcos|
    && (!e.d ==> e.contenido == marcos[MarcoDe(tb, e.pid, e.pagina)])
  }

  /** The TLB is sound, the index exact, and entries that are not modified agree with memory. */
  ghost predicate CpuBien(pagina: nat, tb: Tablas, s: Cpu)
  {
    && pagina >= 1 && s.cache.capacidad >= 1
    && MarcosBien(pagina, tb, s.marcos)
    && (s.usaTlb ==> Sana(s.tlb, Consulta(tb)))
    && CacheBien(s.cache)
    && (forall i :: 0 <= i < |s.cache.entries| ==> EntradaBien(pagina, tb, s.marcos, s.cache.entries[i]))
  }

  // ----- the operations -----

  /** The TLB after one translation. */
  ghost function TlbTras(usaTlb: bool, t: Tlb, tb: Tablas, pid: nat, pag: nat): Tlb
    requires usaTlb ==> Sana(t, Consulta(tb))
  {
    if usaTlb then Acceder(t, pag, pid, MarcoDe(tb, pid, pag)).0 else t
  }

  /** A page just translated is in the TLB: asked again it needs no page table. */
  lemma TraducidaQueda(t: Tlb, tb: Tablas, pid: nat, pag: nat)
    requires Sana(t, Consulta(tb)) && t.algoritmo != OtroTlb
    ensures var t' := TlbTras(true, t, tb, pid, pag);
            && Sana(t', Consulta(tb)) && Hay(t', pag, pid)
            && t'.entries[t'.indice[pag]].marco == MarcoDe(tb, pid, pag)
  {
    AccesoTransparente(t, Consulta(tb), pag, pid);
    assert Consulta(tb)(pid, pag) == MarcoDe(tb, pid, pag);
  }

  /** ConseguirDireccionFisica: the frame, from the TLB or from the page table. */
  ghost function Traducir(s: Cpu, tb: Tablas, pid: nat, pag: nat): (r: (Cpu, nat))
    requires s.usaTlb ==> Sana(s.tlb, Consulta(tb))
    ensures r.1 == MarcoDe(tb, pid, pag)
    ensures r.0.usaTlb == s.usaTlb && (s.usaTlb ==> Sana(r.0.tlb, Consulta(tb)))
    ensures r.0.cache == s.cache && r.0.marcos == s.marcos
  {
    if s.usaTlb then
      assert MarcoDe(tb, pid, pag) == Consulta(tb)(pid, pag);
      AccesoTransparente(s.tlb, Consulta(tb), pag, pid);
      (s.(tlb := TlbTras(true, s.tlb, tb, pid, pag)), Acceder(s.tlb, pag, pid, MarcoDe(tb, pid, pag)).1)
    else (s, MarcoDe(tb, pid, pag))
  }

  /** Insertion with write-back of a modified victim to its own process's frame. */
  ghost function InsertarEnCpu(pagina: nat, tb: Tablas, s: Cpu, nueva: EntradaC): Cpu
    requires CpuBien(pagina, tb, s)
  {
    ExpulsadaBien(pagina, tb, s, nueva);
    var x := Expulsada(s.cache, nueva);
    var s1 := if x.Algo? && x.valor.d then Traducir(s, tb, x.valor.pid, x.valor.pagina).0 else s;
    s1.(cache := Insertar(s.cache, nueva),
        marcos := if x.Algo? && x.valor.d then s.marcos[MarcoDe(tb, x.valor.pid, x.valor.pagina) := x.valor.contenido]
                  else s.marcos)
  }

  lemma ExpulsadaBien(pagina: nat, tb: Tablas, s: Cpu, nueva: EntradaC)
    requires CpuBien(pagina, tb, s)
    ensures var x := Expulsada(s.cache, nueva);
            x.Algo? ==> && x.valor.pagina in s.cache.indice && x.valor.pagina != nueva.pagina
                        && s.cache.entries[s.cache.indice[x.valor.pagina]] == x.valor.(
                             r := s.cache.entries[s.cache.indice[x.valor.pagina]].r)
                        && EntradaBien(pagina, tb, s.marcos, x.valor)
  {
    var x := Expulsada(s.cache, nueva);
    if x.Algo? {
      VictimaSoloR(s.cache);
      var v := Victima(s.cache).0;
      assert EntradaBien(pagina, tb, s.marcos, s.cache.entries[v]);
    }
  }

  /** Insertion, field by field. */
  lemma InsertarPartes(pagina: nat, tb: Tablas, s: Cpu, nueva: EntradaC)
    requires CpuBien(pagina, tb, s)
    ensures var s', q := InsertarEnCpu(pagina, tb, s, nueva), s.cache;
            if nueva.pagina in q.indice then
              s' == s.(cache := q.(entries := q.entries[q.indice[nueva.pagina] := nueva.(r := true)]))
            else if |q.entries| < q.capacidad then
              s' == s.(cache := q.(entries := q.entries + [nueva], indice := q.indice[nueva.pagina := |q.entries|]))
            else
              var (v, es) := Victima(q);
              var x := es[v];
              && Suya(tb, x.pid, x.pagina) && |x.contenido| == pagina && MarcoDe(tb, x.pid, x.pagina) < |s.marcos|
              && s'.usaTlb == s.usaTlb
              && s'.tlb == (if x.d then TlbTras(s.usaTlb, s.tlb, tb, x.pid, x.pagina) else s.tlb)
              && s'.marcos == (if x.d then s.marcos[MarcoDe(tb, x.pid, x.pagina) := x.contenido] else s.marcos)
              && s'.cache == q.(entries := es[v := nueva], indice := (q.indice - {x.pagina})[nueva.pagina := v],
                                mano := Siguiente(v, |es|))
  {
    ExpulsadaBien(pagina, tb, s, nueva);
  }

  /** The entry a process finds for a page, if the page is cached for it. */
  function Propia(q: Cache, pid: nat, pag: nat): Opcion<EntradaC>
    requires CacheBien(q)
  {
    var e := EntradaDe(q, pag);
    if e.Algo? && e.valor.pid == pid then e else Nada
  }

  /** The miss of READ and WRITE: translate, fetch, insert. */
  ghost function Traer(pagina: nat, tb: Tablas, pid: nat, s: Cpu, pag: nat, d: bool): Cpu
    requires CpuBien(pagina, tb, s) && Suya(tb, pid, pag)
  {
    var (s1, marco) := Traducir(s, tb, pid, pag);
    InsertarEnCpu(pagina, tb, s1, EntradaC(pag, Texto(s.marcos[marco]), pid, true, d))
  }

  /** The page brought into the cache if it is not there for this process. */
  ghost function Asegurar(pagina: nat, tb: Tablas, pid: nat, s: Cpu, pag: nat, d: bool): Cpu
    requires CpuBien(pagina, tb, s) && Suya(tb, pid, pag)
  {
    var e := Propia(s.cache, pid, pag);
    if e.Algo? then
      s.(cache := s.cache.(entries := s.cache.entries[s.cache.indice[pag] := e.valor.(r := true)]))
    else Traer(pagina, tb, pid, s, pag, d)
  }

  /** EscribirCache on the contents of an entry: a limit of 64, and a copy cut at the page's end. */
  function CopiarEnCache(contenido: seq<byte>, desp: nat, dato: seq<byte>): (r: seq<byte>)
    requires desp <= |contenido|
    ensures |r| == |contenido|
  {
    if desp + |dato| > LIMITE_CACHE then contenido
    else Sobrescribir(contenido, desp, if desp + |dato| <= |contenido| then dato else dato[..|contenido| - desp])
  }

  /** WRITE at an offset of a page. */
  ghost function EscribirCpuEn(pagina: nat, tb: Tablas, pid: nat, s: Cpu, pag: nat, desp: nat, dato: seq<byte>): Cpu
    requires CpuBien(pagina, tb, s) && Suya(tb, pid, pag) && desp < pagina
  {
    AsegurarBien(pagina, tb, pid, s, pag, true);
    var s1 := Asegurar(pagina, tb, pid, s, pag, true);
    EntradaDePagina(pagina, tb, s1, pag);
    var e := s1.cache.entries[s1.cache.indice[pag]];
    CambiarSlot(s1, pag, if desp + |dato| > LIMITE_CACHE then e
                        else e.(contenido := CopiarEnCache(e.contenido, desp, dato), r := true, d := true))
  }

  /** READ at an offset of a page. */
  ghost function LeerCpuEn(pagina: nat, tb: Tablas, pid: nat, s: Cpu, pag: nat, desp: nat,
                           tam: nat): (r: (Cpu, seq<byte>))
    requires CpuBien(pagina, tb, s) && Suya(tb, pid, pag) && desp + tam <= pagina
  {
    AsegurarBien(pagina, tb, pid, s, pag, false);
    var s1 := Asegurar(pagina, tb, pid, s, pag, false);
    EntradaDePagina(pagina, tb, s1, pag);
    var e := s1.cache.entries[s1.cache.indice[pag]];
    (CambiarSlot(s1, pag, e.(r := true)), e.contenido[desp..desp + tam])
  }

  /** The slot of a cached page given another entry. */
  function CambiarSlot(s: Cpu, pag: nat, e: EntradaC): Cpu
    requires CacheBien(s.cache) && pag in s.cache.indice
  {
    s.(cache := s.cache.(entries := s.cache.entries[s.cache.indice[pag] := e]))
  }

  lemma EntradaDePagina(pagina: nat, tb: Tablas, s: Cpu, pag: nat)
    requires CpuBien(pagina, tb, s) && pag in s.cache.indice
    ensures EntradaBien(pagina, tb, s.marcos, s.cache.entries[s.cache.indice[pag]])
  {
  }

  ghost function EscribirCpu(pagina: nat, tb: Tablas, pid: nat, s: Cpu, dir: nat, dato: seq<byte>): Cpu
    requires CpuBien(pagina, tb, s) && Suya(tb, pid, dir / pagina)
  {
    DivMod(dir, pagina);
    EscribirCpuEn(pagina, tb, pid, s, dir / pagina, dir % pagina, dato)
  }

  ghost function LeerCpu(pagina: nat, tb: Tablas, pid: nat, s: Cpu, dir: nat, tam: nat): (r: (Cpu, seq<byte>))
    requires CpuBien(pagina, tb, s) && Suya(tb, pid, dir / pagina) && dir % pagina + tam <= pagina
  {
    LeerCpuEn(pagina, tb, pid, s, dir / pagina, dir % pagina, tam)
  }

  // ----- what each process sees -----

  /** Its cached copy if there is one, the frame otherwise: an entry of another process is no copy. */
  function Vista(tb: Tablas, s: Cpu, pid: nat, pag: nat): seq<byte>
    requires CacheBien(s.cache)
  {
    match Propia(s.cache, pid, pag)
    case Algo(e) => e.contenido
    case Nada => if MarcoDe(tb, pid, pag) < |s.marcos| then s.marcos[MarcoDe(tb, pid, pag)] else []
  }

  /** The page `pag` of process `p` is cached, and `pid` needs that page number. */
  predicate Pisada(s: Cpu, pid: nat, pag: nat, p: nat)
    requires CacheBien(s.cache)
  {
    p != pid && Propia(s.cache, p, pag).Algo?
  }

  /** ... and what it holds is nowhere else. */
  predicate Pierde(tb: Tablas, s: Cpu, pid: nat, pag: nat)
    requires CacheBien(s.cache)
  {
    && pag in s.cache.indice
    && var e := s.cache.entries[s.cache.indice[pag]];
       && e.pid != pid && MarcoDe(tb, e.pid, pag) < |s.marcos|
       && e.contenido != s.marcos[MarcoDe(tb, e.pid, pag)]
  }

  /** Frames that none of the processes owns are left alone. */
  ghost predicate AjenosIgual(tb: Tablas, a: seq<Pagina>, b: seq<Pagina>)
  {
    |a| == |b| && forall f :: 0 <= f < |a| && (forall p, i :: Suya(tb, p, i) ==> MarcoDe(tb, p, i) != f) ==>
      b[f] == a[f]
  }

  /** Writing back a modified victim touches its own frame only. */
  lemma DevolverVictima(pagina: nat, tb: Tablas, marcos: seq<Pagina>, x: EntradaC)
    requires MarcosBien(pagina, tb, marcos) && EntradaBien(pagina, tb, marcos, x)
    ensures var m := marcos[MarcoDe(tb, x.pid, x.pagina) := x.contenido];
            && MarcosBien(pagina, tb, m) && AjenosIgual(tb, marcos, m)
            && forall p, i :: Suya(tb, p, i) ==>
                 m[MarcoDe(tb, p, i)] == if p == x.pid && i == x.pagina then x.contenido else marcos[MarcoDe(tb, p, i)]
  {
  }

  /** What a load leaves in every slot. */
  lemma InsertarEntradas(pagina: nat, tb: Tablas, s: Cpu, nueva: EntradaC)
    requires CpuBien(pagina, tb, s) && EntradaBien(pagina, tb, s.marcos, nueva)
    ensures var s' := InsertarEnCpu(pagina, tb, s, nueva);
            && MarcosBien(pagina, tb, s'.marcos) && AjenosIgual(tb, s.marcos, s'.marcos) && CacheBien(s'.cache)
            && forall i :: 0 <= i < |s'.cache.entries| ==> EntradaBien(pagina, tb, s'.marcos, s'.cache.entries[i])
  {
    var s', x := InsertarEnCpu(pagina, tb, s, nueva), Expulsada(s.cache, nueva);
    ExpulsadaBien(pagina, tb, s, nueva);
    if x.Algo? && x.valor.d { DevolverVictima(pagina, tb, s.marcos, x.valor); }
    InsertarBien(s.cache, nueva);
    forall i | 0 <= i < |s'.cache.entries|
      ensures EntradaBien(pagina, tb, s'.marcos, s'.cache.entries[i])
    {
      var e := s'.cache.entries[i];
      if e.pagina != nueva.pagina {
        InsertarOtras(s.cache, nueva, e.pagina);
        assert EntradaDe(s'.cache, e.pagina) == Algo(e);
        assert EntradaBien(pagina, tb, s.marcos, s.cache.entries[s.cache.indice[e.pagina]]);
      }
    }
  }

  /** A load leaves every view as it was, except that of the process whose entry it overwrites:
      that one falls back to the frame. */
  lemma InsertarVista(pagina: nat, tb: Tablas, s: Cpu, nueva: EntradaC, p: nat, i: nat)
    requires CpuBien(pagina, tb, s) && EntradaBien(pagina, tb, s.marcos, nueva) && Suya(tb, p, i)
    requires Propia(s.cache, nueva.pid, nueva.pagina) == Nada
    requires nueva.contenido == s.marcos[MarcoDe(tb, nueva.pid, nueva.pagina)]
    ensures var s' := InsertarEnCpu(pagina, tb, s, nueva);
            && CacheBien(s'.cache) && |s'.marcos| == |s.marcos|
            && Vista(tb, s', p, i) == if i == nueva.pagina && Pisada(s, nueva.pid, i, p)
                                      then s.marcos[MarcoDe(tb, p, i)]
                                      else Vista(tb, s, p, i)
  {
    InsertarBien(s.cache, nueva);
    if i == nueva.pagina {
      InsertarMismoNumero(pagina, tb, s, nueva, p);
    } else {
      InsertarOtroNumero(pagina, tb, s, nueva, p, i);
    }
  }

  /** Memory after a load: what the victim's frame holds. */
  lemma MarcosTrasInsertar(pagina: nat, tb: Tablas, s: Cpu, nueva: EntradaC, p: nat, i: nat)
    requires CpuBien(pagina, tb, s) && Suya(tb, p, i)
    ensures var s', x := InsertarEnCpu(pagina, tb, s, nueva), Expulsada(s.cache, nueva);
            && |s'.marcos| == |s.marcos| && MarcoDe(tb, p, i) < |s.marcos|
            && s'.marcos[MarcoDe(tb, p, i)] == if x.Algo? && p == x.valor.pid && i == x.valor.pagina
                                            then x.valor.contenido
                                               else s.marcos[MarcoDe(tb, p, i)]
  {
    var x := Expulsada(s.cache, nueva);
    ExpulsadaBien(pagina, tb, s, nueva);
    if x.Algo? && x.valor.d { DevolverVictima(pagina, tb, s.marcos, x.valor); }
  }

  lemma InsertarMismoNumero(pagina: nat, tb: Tablas, s: Cpu, nueva: EntradaC, p: nat)
    requires CpuBien(pagina, tb, s) && Suya(tb, p, nueva.pagina) && Suya(tb, nueva.pid, nueva.pagina)
    requires Propia(s.cache, nueva.pid, nueva.pagina) == Nada
    requires nueva.contenido == s.marcos[MarcoDe(tb, nueva.pid, nueva.pagina)]
    ensures var s' := InsertarEnCpu(pagina, tb, s, nueva);
            && CacheBien(s'.cache) && |s'.marcos| == |s.marcos|
            && Vista(tb, s', p, nueva.pagina) == s.marcos[MarcoDe(tb, p, nueva.pagina)]
  {
    InsertarBien(s.cache, nueva);
    MarcosTrasInsertar(pagina, tb, s, nueva, p, nueva.pagina);
    ExpulsadaBien(pagina, tb, s, nueva);
  }

  lemma InsertarOtroNumero(pagina: nat, tb: Tablas, s: Cpu, nueva: EntradaC, p: nat, i: nat)
    requires CpuBien(pagina, tb, s) && Suya(tb, p, i) && i != nueva.pagina
    ensures var s' := InsertarEnCpu(pagina, tb, s, nueva);
            && CacheBien(s'.cache) && |s'.marcos| == |s.marcos| && Vista(tb, s', p, i) == Vista(tb, s, p, i)
  {
    InsertarBien(s.cache, nueva);
    MarcosTrasInsertar(pagina, tb, s, nueva, p, i);
    InsertarOtras(s.cache, nueva, i);
  }

  lemma InsertarCpuBien(pagina: nat, tb: Tablas, s: Cpu, nueva: EntradaC)
    requires CpuBien(pagina, tb, s) && EntradaBien(pagina, tb, s.marcos, nueva)
    ensures var s' := InsertarEnCpu(pagina, tb, s, nueva);
            CpuBien(pagina, tb, s') && AjenosIgual(tb, s.marcos, s'.marcos)
            && Propia(s'.cache, nueva.pid, nueva.pagina).Algo?
  {
    InsertarEntradas(pagina, tb, s, nueva);
    ExpulsadaBien(pagina, tb, s, nueva);
    InsertarBien(s.cache, nueva);
  }

  lemma TraducirBien(pagina: nat, tb: Tablas, pid: nat, s: Cpu, pag: nat)
    requires CpuBien(pagina, tb, s)
    ensures CpuBien(pagina, tb, Traducir(s, tb, pid, pag).0)
  {
  }

  /** The entry a miss inserts holds what the frame does. */
  lemma TraerEs(pagina: nat, tb: Tablas, pid: nat, s: Cpu, pag: nat, d: bool) returns (s1: Cpu, e: EntradaC)
    requires CpuBien(pagina, tb, s) && Suya(tb, pid, pag)
    ensures s1 == Traducir(s, tb, pid, pag).0 && CpuBien(pagina, tb, s1)
    ensures e == EntradaC(pag, s.marcos[MarcoDe(tb, pid, pag)], pid, true, d) && EntradaBien(pagina, tb, s.marcos, e)
    ensures Traer(pagina, tb, pid, s, pag, d) == InsertarEnCpu(pagina, tb, s1, e)
  {
    var f := MarcoDe(tb, pid, pag);
    TextoAscii(s.marcos[f]);
    TraducirBien(pagina, tb, pid, s, pag);
    s1, e := Traducir(s, tb, pid, pag).0, EntradaC(pag, s.marcos[f], pid, true, d);
  }

  lemma AsegurarAcierto(pagina: nat, tb: Tablas, pid: nat, s: Cpu, pag: nat, d: bool)
    requires CpuBien(pagina, tb, s) && Suya(tb, pid, pag) && Propia(s.cache, pid, pag).Algo?
    ensures var s' := Asegurar(pagina, tb, pid, s, pag, d);
            && CpuBien(pagina, tb, s') && s'.marcos == s.marcos && Propia(s'.cache, pid, pag).Algo?
            && forall p, i :: Suya(tb, p, i) ==> Vista(tb, s', p, i) == Vista(tb, s, p, i)
  {
    EntradaDePagina(pagina, tb, s, pag);
    CambiarEntrada(pagina, tb, s, pag, s.cache.entries[s.cache.indice[pag]].(r := true));
  }

  /** After a search and the load on a miss, the CPU is in order and the page is there. */
  lemma AsegurarBien(pagina: nat, tb: Tablas, pid: nat, s: Cpu, pag: nat, d: bool)
    requires CpuBien(pagina, tb, s) && Suya(tb, pid, pag)
    ensures var s' := Asegurar(pagina, tb, pid, s, pag, d);
            CpuBien(pagina, tb, s') && AjenosIgual(tb, s.marcos, s'.marcos) && Propia(s'.cache, pid, pag).Algo?
  {
    if Propia(s.cache, pid, pag).Algo? {
      AsegurarAcierto(pagina, tb, pid, s, pag, d);
    } else {
      var s1, e := TraerEs(pagina, tb, pid, s, pag, d);
      InsertarCpuBien(pagina, tb, s1, e);
    }
  }

  /** Bringing a page in changes nothing anybody sees, but for a process whose entry for that page
      number it overwrites: it sees its frame from then on. */
  lemma AsegurarVista(pagina: nat, tb: Tablas, pid: nat, s: Cpu, pag: nat, d: bool, p: nat, i: nat)
    requires CpuBien(pagina, tb, s) && Suya(tb, pid, pag) && Suya(tb, p, i)
    ensures var s' := Asegurar(pagina, tb, pid, s, pag, d);
            && CpuBien(pagina, tb, s')
            && Vista(tb, s', p, i) == if i == pag && Pisada(s, pid, pag, p) then s.marcos[MarcoDe(tb, p, i)]
                                      else Vista(tb, s, p, i)
  {
    AsegurarBien(pagina, tb, pid, s, pag, d);
    if Propia(s.cache, pid, pag).Algo? {
      AsegurarAcierto(pagina, tb, pid, s, pag, d);
    } else {
      FalloVista(pagina, tb, pid, s, pag, d, p, i);
    }
  }

  lemma FalloVista(pagina: nat, tb: Tablas, pid: nat, s: Cpu, pag: nat, d: bool, p: nat, i: nat)
    requires CpuBien(pagina, tb, s) && Suya(tb, pid, pag) && Suya(tb, p, i) && Propia(s.cache, pid, pag).Nada?
    ensures var s' := Asegurar(pagina, tb, pid, s, pag, d);
            && CacheBien(s'.cache)
            && Vista(tb, s', p, i) == if i == pag && Pisada(s, pid, pag, p) then s.marcos[MarcoDe(tb, p, i)]
                                      else Vista(tb, s, p, i)
  {
    var s1, e := TraerEs(pagina, tb, pid, s, pag, d);
    InsertarVista(pagina, tb, s1, e, p, i);
  }

  /** The cache index is keyed by page number alone. When a process loads a page whose number is
      cached for another, the other's view survives exactly if its entry held what its frame
      holds; a modified entry is not written back. */
  lemma OtroProcesoPisa(pagina: nat, tb: Tablas, pid: nat, s: Cpu, pag: nat, d: bool)
    requires CpuBien(pagina, tb, s) && Suya(tb, pid, pag)
    requires pag in s.cache.indice && s.cache.entries[s.cache.indice[pag]].pid != pid
    ensures var e, s' := s.cache.entries[s.cache.indice[pag]], Asegurar(pagina, tb, pid, s, pag, d);
            && Suya(tb, e.pid, pag) && CpuBien(pagina, tb, s') && s'.marcos == s.marcos
            && Vista(tb, s, e.pid, pag) == e.contenido
            && (Vista(tb, s', e.pid, pag) == Vista(tb, s, e.pid, pag) <==>
                e.contenido == s.marcos[MarcoDe(tb, e.pid, pag)])
            && (!e.d ==> Vista(tb, s', e.pid, pag) == Vista(tb, s, e.pid, pag))
  {
    var e := s.cache.entries[s.cache.indice[pag]];
    EntradaDePagina(pagina, tb, s, pag);
    AsegurarVista(pagina, tb, pid, s, pag, d, e.pid, pag);
    var s1, nueva := TraerEs(pagina, tb, pid, s, pag, d);
    InsertarPartes(pagina, tb, s1, nueva);
  }

  // ----- READ and WRITE against flat memory -----

  /** The uncached write of `escribir` on one page: all or nothing. */
  function EscribirPlano(contenido: seq<byte>, desp: nat, dato: seq<byte>): seq<byte>
    requires desp <= |contenido|
  {
    if |dato| > |contenido| - desp then contenido else Sobrescribir(contenido, desp, dato)
  }

  /** Both writes test the end of the datum, one against 64 and one against the page size. */
  predicate Coincide(pagina: nat, desp: nat, largo: nat)
  {
    largo == 0 || (desp + largo <= LIMITE_CACHE <==> desp + largo <= pagina)
  }

  /** The cached write agrees with the uncached one, whatever the page holds, exactly when both
      tests give the same answer or there is nothing to write. */
  lemma EscriturasCoinciden(pagina: nat, desp: nat, dato: seq<byte>)
    requires desp < pagina
    ensures (forall cont: seq<byte> | |cont| == pagina ::
             CopiarEnCache(cont, desp, dato) == EscribirPlano(cont, desp, dato))
            <==> Coincide(pagina, desp, |dato|)
  {
    if Coincide(pagina, desp, |dato|) {
      forall cont: seq<byte> | |cont| == pagina
        ensures CopiarEnCache(cont, desp, dato) == EscribirPlano(cont, desp, dato)
      {
        if |dato| == 0 {
          assert dato[..0] == dato;
          assert Sobrescribir(cont, desp, dato) == cont;
        }
      }
    } else {
      var otro: byte := if dato[0] == 0 then 1 else 0;
      var cont := seq(pagina, _ => otro);
      assert EscribirPlano(cont, desp, dato)[desp] != CopiarEnCache(cont, desp, dato)[desp];
    }
  }

  lemma CopiarAscii(contenido: seq<byte>, desp: nat, dato: seq<byte>)
    requires desp <= |contenido| && Ascii(contenido) && Ascii(dato)
    ensures Ascii(CopiarEnCache(contenido, desp, dato))
  {
  }

  /** Changing one slot's contents and bits, owner and page staying the same. */
  lemma CambiarEntrada(pagina: nat, tb: Tablas, s: Cpu, pag: nat, e': EntradaC)
    requires CpuBien(pagina, tb, s) && pag in s.cache.indice && EntradaBien(pagina, tb, s.marcos, e')
    requires e'.pagina == pag && e'.pid == s.cache.entries[s.cache.indice[pag]].pid
    ensures var s' := CambiarSlot(s, pag, e');
            && CpuBien(pagina, tb, s')
            && forall p, i :: Suya(tb, p, i) ==>
                 Vista(tb, s', p, i) == if p == e'.pid && i == pag then e'.contenido else Vista(tb, s, p, i)
  {
    var s' := CambiarSlot(s, pag, e');
    CambiarSlotBien(pagina, tb, s, pag, e');
    forall p, i | Suya(tb, p, i)
      ensures Vista(tb, s', p, i) == if p == e'.pid && i == pag then e'.contenido else Vista(tb, s, p, i)
    {
      CambiarSlotVista(tb, s, pag, e', p, i);
    }
  }

  lemma CambiarSlotBien(pagina: nat, tb: Tablas, s: Cpu, pag: nat, e': EntradaC)
    requires CpuBien(pagina, tb, s) && pag in s.cache.indice && EntradaBien(pagina, tb, s.marcos, e')
    requires e'.pagina == pag
    ensures CpuBien(pagina, tb, CambiarSlot(s, pag, e'))
  {
    CambiarSlotIndice(s, pag, e');
  }

  lemma CambiarSlotIndice(s: Cpu, pag: nat, e': EntradaC)
    requires CacheBien(s.cache) && pag in s.cache.indice && e'.pagina == pag
    ensures CacheBien(CambiarSlot(s, pag, e').cache)
  {
  }

  lemma CambiarSlotVista(tb: Tablas, s: Cpu, pag: nat, e': EntradaC, p: nat, i: nat)
    requires CacheBien(s.cache) && pag in s.cache.indice && e'.pagina == pag && MarcoDe(tb, p, i) < |s.marcos|
    requires e'.pid == s.cache.entries[s.cache.indice[pag]].pid
    ensures var s' := CambiarSlot(s, pag, e');
            && CacheBien(s'.cache)
            && Vista(tb, s', p, i) == if p == e'.pid && i == pag then e'.contenido else Vista(tb, s, p, i)
  {
    CambiarSlotIndice(s, pag, e');
  }

  /** A cached WRITE changes its own process's view of its own page as the cached copy says;
      beyond that it is the search and load. */
  lemma EscribirCpuBien(pagina: nat, tb: Tablas, pid: nat, s: Cpu, pag: nat, desp: nat, dato: seq<byte>)
    requires CpuBien(pagina, tb, s) && Suya(tb, pid, pag) && desp < pagina && Ascii(dato)
    ensures var s', s1 := EscribirCpuEn(pagina, tb, pid, s, pag, desp, dato), Asegurar(pagina, tb, pid, s, pag, true);
            && CpuBien(pagina, tb, s') && AjenosIgual(tb, s.marcos, s'.marcos)
            && CpuBien(pagina, tb, s1) && |Vista(tb, s1, pid, pag)| == pagina
            && forall p, i :: Suya(tb, p, i) ==>
                 Vista(tb, s', p, i) == if p == pid && i == pag then CopiarEnCache(Vista(tb, s1, p, i), desp, dato)
                                        else Vista(tb, s1, p, i)
  {
    AsegurarBien(pagina, tb, pid, s, pag, true);
    var s1 := Asegurar(pagina, tb, pid, s, pag, true);
    EntradaDePagina(pagina, tb, s1, pag);
    var e := s1.cache.entries[s1.cache.indice[pag]];
    CopiarAscii(e.contenido, desp, dato);
    CambiarEntrada(pagina, tb, s1, pag,
      if desp + |dato| > LIMITE_CACHE then e
      else e.(contenido := CopiarEnCache(e.contenido, desp, dato), r := true, d := true));
  }

  /** A cached READ returns what the process sees, and beyond that is the search and load. */
  lemma LeerCpuBien(pagina: nat, tb: Tablas, pid: nat, s: Cpu, pag: nat, desp: nat, tam: nat)
    requires CpuBien(pagina, tb, s) && Suya(tb, pid, pag) && desp + tam <= pagina
    ensures var (s', leido) := LeerCpuEn(pagina, tb, pid, s, pag, desp, tam);
            var s1 := Asegurar(pagina, tb, pid, s, pag, false);
            && CpuBien(pagina, tb, s') && AjenosIgual(tb, s.marcos, s'.marcos) && CpuBien(pagina, tb, s1)
            && |Vista(tb, s, pid, pag)| == pagina && leido == Vista(tb, s, pid, pag)[desp..desp + tam]
            && forall p, i :: Suya(tb, p, i) ==> Vista(tb, s', p, i) == Vista(tb, s1, p, i)
  {
    AsegurarBien(pagina, tb, pid, s, pag, false);
    AsegurarVista(pagina, tb, pid, s, pag, false, pid, pag);
    PaginaDeVista(pagina, tb, s, pid, pag);
    var s1 := Asegurar(pagina, tb, pid, s, pag, false);
    EntradaDePagina(pagina, tb, s1, pag);
    CambiarEntrada(pagina, tb, s1, pag, s1.cache.entries[s1.cache.indice[pag]].(r := true));
  }

  lemma PaginaDeVista(pagina: nat, tb: Tablas, s: Cpu, p: nat, i: nat)
    requires CpuBien(pagina, tb, s) && Suya(tb, p, i)
    ensures |Vista(tb, s, p, i)| == pagina && Ascii(Vista(tb, s, p, i))
  {
    if i in s.cache.indice { EntradaDePagina(pagina, tb, s, i); }
  }
}
