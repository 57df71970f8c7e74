/** The READ and WRITE instructions of the CPU over its TLB and cache objects and the memory
    module, updated in place and proved against module CpuModelo. */
module Procesador {
  import opened Aritmetica
  import opened Secuencias
  import opened TablaPaginas
  import opened Memoria
  import opened RefinamientoMemoria
  import opened CorridasMemoria
  import opened MemoriaFisica
  import opened ModuloMemoria
  import opened Traduccion
  import opened TLB
  import opened CachePaginas
  import opened CpuModelo
  import opened CorridasCpu

  /** The walk of the fixed page table finds frame fs[p] for every page p. */
  ghost predicate TablaFija(c: Config, tabla: Tabla, fs: seq<nat>)
  {
    ConfigValida(c) && forall p :: 0 <= p < |fs| ==>
      Buscar(tabla, Digitos(p, c.entradas, c.niveles)) == Encontrado(fs[p])
  }

  class CpuFisica {
    const mem: MemoriaPrincipal
    const tlb: TablaTlb
    const cache: CacheTabla
    const usaTlb: bool

    constructor (mem: MemoriaPrincipal, tlb: TablaTlb, cache: CacheTabla, usaTlb: bool)
      ensures this.mem == mem && this.tlb == tlb && this.cache == cache && this.usaTlb == usaTlb
    {
      this.mem, this.tlb, this.cache, this.usaTlb := mem, tlb, cache, usaTlb;
    }

    ghost predicate Valid()
      reads mem, cache
    {
      mem.Valid() && cache.Valid()
    }

    ghost function Modelo(): Cpu
      requires mem.Valid()
      reads this, mem, mem.memoria, tlb, cache, cache.entries
    {
      Cpu(usaTlb, tlb.Modelo(), cache.Modelo(), mem.Marcos())
    }

    /** Memory translates each of these processes' pages to the frame the tables say. */
    ghost predicate Tabulado(tb: Tablas)
      reads mem
    {
      forall p :: p in tb ==> p in mem.procesos && TablaFija(mem.c, mem.procesos[p].tabla, tb[p])
    }

    /** These are the processes that use this CPU. */
    ghost predicate Atiende(tb: Tablas)
      reads this, mem, mem.memoria, tlb, cache, cache.entries
    {
      Valid() && Tabulado(tb) && CpuBien(mem.c.pagina, tb, Modelo())
    }

    /** The physical address, asking memory for the frame only when the TLB does not know it. */
    method ConseguirDireccionFisica(paginaVirtual: nat, desplazamiento: nat, pid: nat, entradas: seq<nat>,
                                    ghost tb: Tablas)
      returns (direccion: nat)
      requires Tabulado(tb) && Suya(tb, pid, paginaVirtual)
      requires usaTlb ==> Sana(tlb.Modelo(), Consulta(tb))
      requires entradas == Digitos(paginaVirtual, mem.c.entradas, mem.c.niveles)
      modifies tlb
      ensures direccion == MarcoDe(tb, pid, paginaVirtual) * mem.c.pagina + desplazamiento
      ensures tlb.Modelo() == TlbTras(usaTlb, old(tlb.Modelo()), tb, pid, paginaVirtual)
    {
      var marco := ObtenerMarco(paginaVirtual, pid, entradas, tb);
      return marco * mem.c.pagina + desplazamiento;
    }

    /** The frame, from the TLB if it knows it. */
    method ObtenerMarco(paginaVirtual: nat, pid: nat, entradas: seq<nat>, ghost tb: Tablas) returns (marco: nat)
      requires Tabulado(tb) && Suya(tb, pid, paginaVirtual)
      requires usaTlb ==> Sana(tlb.Modelo(), Consulta(tb))
      requires entradas == Digitos(paginaVirtual, mem.c.entradas, mem.c.niveles)
      modifies tlb
      ensures marco == MarcoDe(tb, pid, paginaVirtual)
      ensures tlb.Modelo() == TlbTras(usaTlb, old(tlb.Modelo()), tb, pid, paginaVirtual)
    {
      if !usaTlb {
        marco := PedirMarcoDePagina(pid, entradas, paginaVirtual, tb);
        return;
      }
      assert Consulta(tb)(pid, paginaVirtual) == MarcoDe(tb, pid, paginaVirtual);
      AccesoTransparente(tlb.Modelo(), Consulta(tb), paginaVirtual, pid);
      var m, encontrado := tlb.BuscarMarcoEnTLB(paginaVirtual, pid);
      if encontrado {
        tlb.ActualizarTimestamp(paginaVirtual);
        return m;
      }
      marco := PedirMarcoDePagina(pid, entradas, paginaVirtual, tb);
      tlb.CargarTLB(paginaVirtual, marco, pid);
    }

    /** Memory walks the process's table. */
    method PedirMarcoDePagina(pid: nat, entradas: seq<nat>, ghost paginaVirtual: nat, ghost tb: Tablas)
      returns (marco: nat)
      requires Tabulado(tb) && Suya(tb, pid, paginaVirtual)
      requires entradas == Digitos(paginaVirtual, mem.c.entradas, mem.c.niveles)
      ensures marco == MarcoDe(tb, pid, paginaVirtual)
    {
      var b := ObtenerMarcoDesdeTabla(mem.procesos[pid].tabla, mem.c.niveles, entradas);
      marco := b.marco;
    }

    /** The whole page an address falls in, as memory sends it. */
    method PedirContenidoPagina(direccionFisica: nat, ghost f: nat, ghost desp: nat) returns (contenido: seq<byte>)
      requires mem.Valid() && f < mem.marcosOcupados.Length
      requires direccionFisica == f * mem.c.pagina + desp && desp < mem.c.pagina
      ensures contenido == Texto(mem.Marcos()[f])
    {
      var inicio := direccionFisica - direccionFisica % mem.c.pagina;
      DivUnico(direccionFisica, mem.c.pagina, f, desp);
      TrozoEnRango(mem.c.pagina, f, mem.marcosOcupados.Length, mem.memoria.Length);
      assert mem.memoria[inicio..inicio + mem.c.pagina] == Trozo(mem.memoria[..], mem.c.pagina, f);
      contenido := mem.Leer(inicio, mem.c.pagina);
    }

    /** A page written back to its frame. */
    method ActualizarPaginaMemoria(direccionFisica: nat, contenido: seq<byte>, ghost f: nat)
      requires mem.Valid() && f < mem.marcosOcupados.Length
      requires direccionFisica == f * mem.c.pagina && |contenido| == mem.c.pagina
      modifies mem.memoria
      ensures mem.Marcos() == old(mem.Marcos())[f := contenido]
    {
      EscribirEnMarco(mem.memoria[..], mem.c.pagina, mem.marcosOcupados.Length, f, 0, contenido);
      assert Sobrescribir(mem.Marcos()[f], 0, contenido) == contenido;
      mem.ActualizarPagina(direccionFisica, contenido);
    }

    /** The victim of a full cache, by the configured algorithm. */
    method ElegirVictima() returns (v: nat)
      requires cache.Valid() && cache.clockHand < |cache.entries|
      modifies cache`clockHand, cache.entries
      ensures (v, cache.Valores()) == Victima(old(cache.Modelo()))
    {
      if cache.algoritmo == CLOCK {
        v := cache.BuscarVictimaCLOCK();
      } else {
        v := cache.BuscarVictimaCLOCKM();
      }
    }

    /** A modified victim goes back to its own process's frame. */
    method DevolverVictima(x: CacheEntry, ghost tb: Tablas)
      requires mem.Valid() && Tabulado(tb) && Suya(tb, x.pid, x.pagina)
      requires usaTlb ==> Sana(tlb.Modelo(), Consulta(tb))
      requires MarcoDe(tb, x.pid, x.pagina) < mem.marcosOcupados.Length && |x.contenido| == mem.c.pagina
      modifies tlb, mem.memoria
      ensures mem.Marcos() == old(mem.Marcos())[MarcoDe(tb, x.pid, x.pagina) := x.contenido]
      ensures tlb.Modelo() == TlbTras(usaTlb, old(tlb.Modelo()), tb, x.pid, x.pagina)
    {
      var direccionLogica := x.pagina * mem.c.pagina;
      var entradas, desp, pag := ExtraerEntradasYDesplazamiento(direccionLogica, mem.c.pagina, mem.c.entradas,
                                                                mem.c.niveles);
      DivUnico(direccionLogica, mem.c.pagina, x.pagina, 0);
      DivUnico(direccionLogica, mem.c.pagina, pag, desp);
      var direccionFisica := ConseguirDireccionFisica(x.pagina, 0, x.pid, entradas, tb);
      ActualizarPaginaMemoria(direccionFisica, x.contenido, MarcoDe(tb, x.pid, x.pagina));
    }

    /** A page already indexed is overwritten in place; another takes a free slot or the victim's. */
    method InsertarOReemplazarEnCache(nueva: CacheEntry, ghost tb: Tablas)
      requires Atiende(tb) && nueva !in cache.entries
      modifies tlb, cache, cache.entries, mem.memoria, nueva
      ensures Modelo() == InsertarEnCpu(mem.c.pagina, tb, old(Modelo()), old(nueva.Valor())) && cache.Valid()
      ensures nueva.pagina in cache.paginaIndex && cache.paginaIndex[nueva.pagina] < |cache.entries|
      ensures cache.entries[cache.paginaIndex[nueva.pagina]] == nueva
      ensures forall e :: e in cache.entries ==> e == nueva || e in old(cache.entries)
    {
      if nueva.pagina in cache.paginaIndex {
        InsertarPartes(mem.c.pagina, tb, Modelo(), nueva.Valor());
        cache.Reemplazar(nueva);
      } else {
        InsertarNueva(nueva, tb);
      }
    }

    method InsertarNueva(nueva: CacheEntry, ghost tb: Tablas)
      requires Atiende(tb) && nueva !in cache.entries && nueva.pagina !in cache.paginaIndex
      modifies tlb, cache, cache.entries, mem.memoria
      ensures Modelo() == InsertarEnCpu(mem.c.pagina, tb, old(Modelo()), old(nueva.Valor())) && cache.Valid()
      ensures nueva.pagina in cache.paginaIndex && cache.paginaIndex[nueva.pagina] < |cache.entries|
      ensures cache.entries[cache.paginaIndex[nueva.pagina]] == nueva
      ensures forall e :: e in cache.entries ==> e == nueva || e in old(cache.entries)
    {
      InsertarPartes(mem.c.pagina, tb, Modelo(), nueva.Valor());
      if |cache.entries| < cache.capacidad {
        cache.Agregar(nueva);
      } else {
        InsertarConVictima(nueva, tb);
      }
    }

    method InsertarConVictima(nueva: CacheEntry, ghost tb: Tablas)
      requires Valid() && nueva !in cache.entries && cache.clockHand < |cache.entries| && Tabulado(tb)
      requires usaTlb ==> Sana(tlb.Modelo(), Consulta(tb))
      requires var x := Victima(cache.Modelo()).1[Victima(cache.Modelo()).0];
               && Suya(tb, x.pid, x.pagina) && |x.contenido| == mem.c.pagina
               && MarcoDe(tb, x.pid, x.pagina) < mem.marcosOcupados.Length
      modifies tlb, cache, cache.entries, mem.memoria
      ensures cache.Valid() && nueva.Valor() == old(nueva.Valor())
      ensures var (v, es) := Victima(old(cache.Modelo()));
              var x := es[v];
              && cache.entries == old(cache.entries)[v := nueva]
              && tlb.Modelo() == (if x.d then TlbTras(usaTlb, old(tlb.Modelo()), tb, x.pid, x.pagina)
                                  else old(tlb.Modelo()))
              && mem.Marcos() == (if x.d then old(mem.Marcos())[MarcoDe(tb, x.pid, x.pagina) := x.contenido]
                                  else old(mem.Marcos()))
              && cache.Modelo() == old(cache.Modelo()).(entries := es[v := nueva.Valor()],
                   indice := (old(cache.paginaIndex) - {x.pagina})[nueva.pagina := v], mano := Siguiente(v, |es|))
    {
      var victimaIdx := ElegirVictima();
      var victima := cache.entries[victimaIdx];
      assert victima.Valor() == cache.Valores()[victimaIdx];
      if victima.d {
        DevolverVictima(victima, tb);
      }
      cache.Sustituir(victimaIdx, nueva);
    }

    /** The search and, on a miss, the load that READ and WRITE share. */
    method AsegurarEnCache(paginaVirtual: nat, desplazamiento: nat, pid: nat, entradas: seq<nat>, d: bool,
                           ghost tb: Tablas)
      returns (e: CacheEntry)
      requires Atiende(tb) && Suya(tb, pid, paginaVirtual) && desplazamiento < mem.c.pagina
      requires entradas == Digitos(paginaVirtual, mem.c.entradas, mem.c.niveles)
      modifies tlb, cache, cache.entries, mem.memoria
      ensures Modelo() == Asegurar(mem.c.pagina, tb, pid, old(Modelo()), paginaVirtual, d)
      ensures cache.Valid() && paginaVirtual in cache.paginaIndex && cache.paginaIndex[paginaVirtual] < |cache.entries|
      ensures cache.entries[cache.paginaIndex[paginaVirtual]] == e
      ensures forall x :: x in cache.entries ==> x in old(cache.entries) || fresh(x)
    {
      ghost var s := Modelo();
      var entradaCache := cache.BuscarPaginaEnCache(paginaVirtual, pid);
      if entradaCache != null {
        return entradaCache;
      }
      assert Modelo() == s;
      e := TraerACache(paginaVirtual, desplazamiento, pid, entradas, d, tb);
    }

    /** A page that is not cached for this process: translate, fetch, insert. */
    method TraerACache(paginaVirtual: nat, desplazamiento: nat, pid: nat, entradas: seq<nat>, d: bool, ghost tb: Tablas)
      returns (e: CacheEntry)
      requires Atiende(tb) && Suya(tb, pid, paginaVirtual) && desplazamiento < mem.c.pagina
      requires entradas == Digitos(paginaVirtual, mem.c.entradas, mem.c.niveles)
      modifies tlb, cache, cache.entries, mem.memoria
      ensures Modelo() == Traer(mem.c.pagina, tb, pid, old(Modelo()), paginaVirtual, d)
      ensures cache.Valid() && paginaVirtual in cache.paginaIndex && cache.paginaIndex[paginaVirtual] < |cache.entries|
      ensures cache.entries[cache.paginaIndex[paginaVirtual]] == e
      ensures forall x :: x in cache.entries ==> x in old(cache.entries) || fresh(x)
    {
      ghost var s := Modelo();
      TraducirBien(mem.c.pagina, tb, pid, s, paginaVirtual);
      var direccionFisica := ConseguirDireccionFisica(paginaVirtual, desplazamiento, pid, entradas, tb);
      assert Modelo() == CpuModelo.Traducir(s, tb, pid, paginaVirtual).0;
      var contenidoPag := PedirContenidoPagina(direccionFisica, MarcoDe(tb, pid, paginaVirtual), desplazamiento);
      e := new CacheEntry(paginaVirtual, contenidoPag, pid, true, d);
      assert Modelo() == CpuModelo.Traducir(s, tb, pid, paginaVirtual).0;
      InsertarOReemplazarEnCache(e, tb);
    }

    /** The write into an entry, refused past 64 and cut at the end of the page. */
    method EscribirCache(entradaCache: CacheEntry, desplazamiento: nat, dato: seq<byte>) returns (ok: bool)
      requires desplazamiento <= |entradaCache.contenido|
      modifies entradaCache
      ensures ok <==> desplazamiento + |dato| <= 64
      ensures entradaCache.Valor() == if !ok then old(entradaCache.Valor())
                else old(entradaCache.Valor()).(
                       contenido := CopiarEnCache(old(entradaCache.contenido), desplazamiento, dato),
                       r := true, d := true)
    {
      if desplazamiento + |dato| > LIMITE_CACHE {
        return false;
      }
      var n := |entradaCache.contenido| - desplazamiento;
      var copiado := if |dato| <= n then dato else dato[..n];
      entradaCache.contenido := Sobrescribir(entradaCache.contenido, desplazamiento, copiado);
      entradaCache.r, entradaCache.d := true, true;
      return true;
    }

    method LeerDeCache(entradaCache: CacheEntry, desplazamiento: nat, tamanio: nat) returns (leido: seq<byte>)
      requires desplazamiento + tamanio <= |entradaCache.contenido|
      modifies entradaCache
      ensures leido == old(entradaCache.contenido)[desplazamiento..desplazamiento + tamanio]
      ensures entradaCache.Valor() == old(entradaCache.Valor()).(r := true)
    {
      leido := entradaCache.contenido[desplazamiento..desplazamiento + tamanio];
      entradaCache.r := true;
    }

    /** The WRITE instruction with a cache. */
    method Write(direccion: nat, dato: seq<byte>, pid: nat, ghost tb: Tablas)
      requires Atiende(tb) && Suya(tb, pid, direccion / mem.c.pagina)
      modifies tlb, cache, cache.entries, mem.memoria
      ensures Modelo() == EscribirCpu(mem.c.pagina, tb, pid, old(Modelo()), direccion, dato) && Valid()
    {
      var entradas, desplazamiento, pag := ExtraerEntradasYDesplazamiento(direccion, mem.c.pagina, mem.c.entradas,
                                                                          mem.c.niveles);
      DivUnico(direccion, mem.c.pagina, pag, desplazamiento);
      WriteEn(pag, desplazamiento, dato, pid, entradas, tb);
    }

    method WriteEn(pag: nat, desplazamiento: nat, dato: seq<byte>, pid: nat, entradas: seq<nat>, ghost tb: Tablas)
      requires Atiende(tb) && Suya(tb, pid, pag) && desplazamiento < mem.c.pagina
      requires entradas == Digitos(pag, mem.c.entradas, mem.c.niveles)
      modifies tlb, cache, cache.entries, mem.memoria
      ensures Modelo() == EscribirCpuEn(mem.c.pagina, tb, pid, old(Modelo()), pag, desplazamiento, dato) && Valid()
    {
      AsegurarBien(mem.c.pagina, tb, pid, Modelo(), pag, true);
      var e := AsegurarEnCache(pag, desplazamiento, pid, entradas, true, tb);
      EntradaDePagina(mem.c.pagina, tb, Modelo(), pag);
      assert e in cache.entries;
      EscribirEnLugar(pag, e, desplazamiento, dato);
    }

    method EscribirEnLugar(ghost pag: nat, e: CacheEntry, desplazamiento: nat, dato: seq<byte>)
      requires Valid() && pag in cache.paginaIndex && cache.paginaIndex[pag] < |cache.entries|
      requires e == cache.entries[cache.paginaIndex[pag]] && desplazamiento <= |e.contenido|
      requires CacheBien(cache.Modelo())
      modifies e
      ensures Valid()
      ensures Modelo() == CambiarSlot(old(Modelo()), pag,
                if desplazamiento + |dato| > LIMITE_CACHE then old(e.Valor())
                else old(e.Valor()).(contenido := CopiarEnCache(old(e.contenido), desplazamiento, dato),
                                     r := true, d := true))
    {
      ghost var vs, i := cache.Valores(), cache.paginaIndex[pag];
      var ok := EscribirCache(e, desplazamiento, dato);
      assert cache.Valores() == vs[i := e.Valor()];
    }

    /** The READ instruction with a cache, for a stretch inside one page. */
    method Read(direccion: nat, tamanio: nat, pid: nat, ghost tb: Tablas) returns (leido: seq<byte>)
      requires Atiende(tb) && Suya(tb, pid, direccion / mem.c.pagina)
      requires direccion % mem.c.pagina + tamanio <= mem.c.pagina
      modifies tlb, cache, cache.entries, mem.memoria
      ensures (Modelo(), leido) == LeerCpu(mem.c.pagina, tb, pid, old(Modelo()), direccion, tamanio) && Valid()
    {
      var entradas, desplazamiento, pag := ExtraerEntradasYDesplazamiento(direccion, mem.c.pagina, mem.c.entradas,
                                                                          mem.c.niveles);
      DivUnico(direccion, mem.c.pagina, pag, desplazamiento);
      leido := ReadEn(pag, desplazamiento, tamanio, pid, entradas, tb);
    }

    method ReadEn(pag: nat, desplazamiento: nat, tamanio: nat, pid: nat, entradas: seq<nat>, ghost tb: Tablas)
      returns (leido: seq<byte>)
      requires Atiende(tb) && Suya(tb, pid, pag) && desplazamiento < mem.c.pagina
      requires desplazamiento + tamanio <= mem.c.pagina
      requires entradas == Digitos(pag, mem.c.entradas, mem.c.niveles)
      modifies tlb, cache, cache.entries, mem.memoria
      ensures (Modelo(), leido) == LeerCpuEn(mem.c.pagina, tb, pid, old(Modelo()), pag, desplazamiento, tamanio)
      ensures Valid()
    {
      AsegurarBien(mem.c.pagina, tb, pid, Modelo(), pag, false);
      var e := AsegurarEnCache(pag, desplazamiento, pid, entradas, false, tb);
      EntradaDePagina(mem.c.pagina, tb, Modelo(), pag);
      assert e in cache.entries;
      leido := LeerEnLugar(pag, e, desplazamiento, tamanio);
    }

    method LeerEnLugar(ghost pag: nat, e: CacheEntry, desplazamiento: nat, tamanio: nat) returns (leido: seq<byte>)
      requires Valid() && pag in cache.paginaIndex && cache.paginaIndex[pag] < |cache.entries|
      requires e == cache.entries[cache.paginaIndex[pag]] && desplazamiento + tamanio <= |e.contenido|
      requires CacheBien(cache.Modelo())
      modifies e
      ensures Valid() && leido == old(e.contenido)[desplazamiento..desplazamiento + tamanio]
      ensures Modelo() == CambiarSlot(old(Modelo()), pag, old(e.Valor()).(r := true))
    {
      ghost var vs, i := cache.Valores(), cache.paginaIndex[pag];
      leido := LeerDeCache(e, desplazamiento, tamanio);
      assert cache.Valores() == vs[i := e.Valor()];
    }

    /** WRITE without a cache: translate and write through, which is the write on flat memory. */
    method WriteSinCache(direccion: nat, dato: seq<byte>, pid: nat, ghost tb: Tablas)
      requires mem.Valid() && Tabulado(tb) && Suya(tb, pid, direccion / mem.c.pagina)
      requires usaTlb ==> Sana(tlb.Modelo(), Consulta(tb))
      requires MarcosBien(mem.c.pagina, tb, mem.Marcos())
      modifies tlb, mem.memoria
      ensures PlanaDeMarcos(tb, mem.Marcos())
           == PasoPlano(PlanaDeMarcos(tb, old(mem.Marcos())),
                        Escritura(pid, direccion / mem.c.pagina, direccion % mem.c.pagina, dato)).0
      ensures forall f :: 0 <= f < |mem.Marcos()| && f != MarcoDe(tb, pid, direccion / mem.c.pagina) ==>
                mem.Marcos()[f] == old(mem.Marcos())[f]
      ensures tlb.Modelo() == TlbTras(usaTlb, old(tlb.Modelo()), tb, pid, direccion / mem.c.pagina)
    {
      var entradas, desp, pag := ExtraerEntradasYDesplazamiento(direccion, mem.c.pagina, mem.c.entradas, mem.c.niveles);
      DivUnico(direccion, mem.c.pagina, pag, desp);
      var fisica := ConseguirDireccionFisica(pag, desp, pid, entradas, tb);
      ghost var f := MarcoDe(tb, pid, pag);
      EscrituraEnMarco(mem.c.pagina, tb, mem.Marcos(), pid, pag, desp, dato);
      EscribirEnFrame(fisica, dato, f, desp);
    }

    method EscribirEnFrame(fisica: nat, dato: seq<byte>, ghost f: nat, ghost desp: nat)
      requires mem.Valid() && f < mem.marcosOcupados.Length && desp < mem.c.pagina && fisica == f * mem.c.pagina + desp
      modifies mem.memoria
      ensures mem.Marcos() == old(mem.Marcos())[f := EscribirPlano(old(mem.Marcos())[f], desp, dato)]
    {
      mem.DireccionEnMarco(f, desp);
      if desp + |dato| <= mem.c.pagina {
        EscribirEnMarco(mem.memoria[..], mem.c.pagina, mem.marcosOcupados.Length, f, desp, dato);
      }
      var r := mem.Escribir(fisica, dato);
    }

    /** READ without a cache returns the bytes from the physical address on; inside one page that is
        the read on flat memory. */
    method ReadSinCache(direccion: nat, tamanio: nat, pid: nat, ghost tb: Tablas) returns (leido: seq<byte>)
      requires mem.Valid() && Tabulado(tb) && Suya(tb, pid, direccion / mem.c.pagina)
      requires usaTlb ==> Sana(tlb.Modelo(), Consulta(tb))
      requires MarcosBien(mem.c.pagina, tb, mem.Marcos())
      requires var fisica := MarcoDe(tb, pid, direccion / mem.c.pagina) * mem.c.pagina + direccion % mem.c.pagina;
               0 <= fisica && fisica + tamanio <= mem.memoria.Length
      modifies tlb
      ensures var fisica := MarcoDe(tb, pid, direccion / mem.c.pagina) * mem.c.pagina + direccion % mem.c.pagina;
              leido == Texto(mem.memoria[fisica..fisica + tamanio])
      ensures direccion % mem.c.pagina + tamanio <= mem.c.pagina ==>
                leido == PasoPlano(PlanaDeMarcos(tb, mem.Marcos()),
                                   Lectura(pid, direccion / mem.c.pagina, direccion % mem.c.pagina, tamanio)).1
      ensures tlb.Modelo() == TlbTras(usaTlb, old(tlb.Modelo()), tb, pid, direccion / mem.c.pagina)
    {
      var entradas, desp, pag := ExtraerEntradasYDesplazamiento(direccion, mem.c.pagina, mem.c.entradas, mem.c.niveles);
      DivUnico(direccion, mem.c.pagina, pag, desp);
      ghost var fisica := MarcoDe(tb, pid, direccion / mem.c.pagina) * mem.c.pagina + direccion % mem.c.pagina;
      assert direccion / mem.c.pagina == pag && direccion % mem.c.pagina == desp;
      leido := ReadSinCacheEn(pag, desp, tamanio, pid, entradas, tb, fisica);
    }

    method ReadSinCacheEn(pag: nat, desp: nat, tamanio: nat, pid: nat, entradas: seq<nat>, ghost tb: Tablas,
                          ghost fisica: nat)
      returns (leido: seq<byte>)
      requires mem.Valid() && Tabulado(tb) && Suya(tb, pid, pag) && MarcoDe(tb, pid, pag) < mem.marcosOcupados.Length
      requires usaTlb ==> Sana(tlb.Modelo(), Consulta(tb))
      requires entradas == Digitos(pag, mem.c.entradas, mem.c.niveles) && MarcosBien(mem.c.pagina, tb, mem.Marcos())
      requires fisica == MarcoDe(tb, pid, pag) * mem.c.pagina + desp && fisica + tamanio <= mem.memoria.Length
      modifies tlb
      ensures leido == Texto(mem.memoria[fisica..fisica + tamanio])
      ensures desp + tamanio <= mem.c.pagina ==>
                leido == PasoPlano(PlanaDeMarcos(tb, mem.Marcos()), Lectura(pid, pag, desp, tamanio)).1
      ensures tlb.Modelo() == TlbTras(usaTlb, old(tlb.Modelo()), tb, pid, pag)
    {
      var direccion := ConseguirDireccionFisica(pag, desp, pid, entradas, tb);
      leido := LeerDesdeFrame(direccion, tamanio, MarcoDe(tb, pid, pag), desp);
      if desp + tamanio <= mem.c.pagina { LecturaEnMarco(mem.c.pagina, tb, mem.Marcos(), pid, pag, desp, tamanio); }
    }

    method LeerDesdeFrame(fisica: nat, tamanio: nat, ghost f: nat, ghost desp: nat) returns (leido: seq<byte>)
      requires mem.Valid() && f < mem.marcosOcupados.Length && fisica == f * mem.c.pagina + desp
      requires fisica + tamanio <= mem.memoria.Length
      ensures leido == Texto(mem.memoria[fisica..fisica + tamanio])
      ensures desp + tamanio <= mem.c.pagina ==> leido == Texto(mem.Marcos()[f][desp..desp + tamanio])
    {
      if desp + tamanio <= mem.c.pagina {
        LeerDentro(mem.memoria[..], mem.c.pagina, mem.marcosOcupados.Length, f, desp, tamanio);
        assert mem.memoria[fisica..fisica + tamanio] == mem.memoria[..][fisica..fisica + tamanio];
      }
      leido := mem.Leer(fisica, tamanio);
    }
  }

  /** The memory module gives every resident process that its table can address such a table. */
  lemma TablaDeResidente(c: Config, m: Estado, pid: nat)
    requires Inv(c, m) && pid in m.procesos && !m.procesos[pid].suspendido
    requires m.procesos[pid].cantidad <= Capacidad(c.niveles, c.entradas)
    ensures TablaFija(c, m.procesos[pid].tabla, MarcosDe(m.procesos[pid].tabla))
    ensures forall i :: 0 <= i < |MarcosDe(m.procesos[pid].tabla)| ==> MarcosDe(m.procesos[pid].tabla)[i] < |m.marcos|
  {
    assert ProcesoBien(c, m.procesos[pid]);
    var fs := MarcosDe(m.procesos[pid].tabla);
    forall p | 0 <= p < |fs|
      ensures Buscar(m.procesos[pid].tabla, Digitos(p, c.entradas, c.niveles)) == Encontrado(fs[p])
      ensures fs[p] < |m.marcos|
    {
      VistaPequena(p, c.entradas, c.niveles);
      MarcoPropio(c, m, pid, p);
    }
  }

  /** The frames of the resident processes that their tables can address. */
  ghost function TablasDe(c: Config, m: Estado): Tablas
    requires ConfigValida(c)
  {
    map p | p in m.procesos && !m.procesos[p].suspendido
            && m.procesos[p].cantidad <= Capacidad(c.niveles, c.entradas) ::
      MarcosDe(m.procesos[p].tabla)
  }

  lemma MarcosAparte(c: Config, m: Estado, p: nat, i: nat, q: nat, j: nat)
    requires Inv(c, m) && Suya(TablasDe(c, m), p, i) && Suya(TablasDe(c, m), q, j)
    requires MarcoDe(TablasDe(c, m), p, i) == MarcoDe(TablasDe(c, m), q, j)
    ensures p == q && i == j
  {
    assert ProcesoBien(c, m.procesos[p]) && ProcesoBien(c, m.procesos[q]);
    VistaPequena(i, c.entradas, c.niveles);
    VistaPequena(j, c.entradas, c.niveles);
    MarcoPropio(c, m, p, i);
    MarcoPropio(c, m, q, j);
    MarcosDistintos(c, m, p, i, q, j);
  }

  /** A CPU that starts with empty TLB and cache is in order for all the resident processes of a
      good memory whose frames hold plain text. */
  lemma ArranqueBien(c: Config, m: Estado, entradasTlb: nat, algTlb: AlgoritmoTlb, entradasCache: nat,
                     algCache: AlgoritmoCache)
    requires Inv(c, m) && entradasTlb >= 1 && entradasCache >= 1
    requires forall f :: 0 <= f < |m.marcos| ==> Ascii(m.marcos[f])
    ensures CpuBien(c.pagina, TablasDe(c, m),
                    Cpu(true, Vacia(entradasTlb, algTlb), CacheVacia(entradasCache, algCache), m.marcos))
  {
    forall p, i | Suya(TablasDe(c, m), p, i)
      ensures MarcoDe(TablasDe(c, m), p, i) < |m.marcos|
    {
      TablaDeResidente(c, m, p);
    }
    forall p, i, q, j | Suya(TablasDe(c, m), p, i) && Suya(TablasDe(c, m), q, j)
                        && MarcoDe(TablasDe(c, m), p, i) == MarcoDe(TablasDe(c, m), q, j)
      ensures p == q && i == j
    {
      MarcosAparte(c, m, p, i, q, j);
    }
  }
}
