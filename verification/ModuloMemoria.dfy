/** The memory module's global state and its functions, updated in place, each proved against
    the state machine of module Memoria. */
module ModuloMemoria {
  import opened Aritmetica
  import opened Secuencias
  import opened TablaPaginas
  import opened Memoria
  import opened MemoriaFisica
  import opened Barridos

  lemma SobrescribirDespues<T>(s: seq<T>, desde: nat, t: seq<T>, x: T)
    requires desde <= |s|
    ensures desde + |t| <= |Sobrescribir(s, desde, t)|
    ensures Sobrescribir(Sobrescribir(s, desde, t), desde + |t|, [x]) == Sobrescribir(s, desde, t + [x])
  {
  }

  lemma SobrescribirDosVeces<T>(s: seq<T>, desde: nat, t: seq<T>)
    requires desde <= |s|
    ensures Sobrescribir(Sobrescribir(s, desde, t), desde, t) == Sobrescribir(s, desde, t)
  {
  }

  lemma SobrescribirNada<T>(s: seq<T>, desde: nat, t: seq<T>)
    requires desde <= |s| && t == []
    ensures Sobrescribir(s, desde, t) == s
  {
  }

  /** Page i of a block is untouched while the ones before it are being zeroed. */
  lemma BloqueLimpiado(c: Config, archivo: seq<Pagina>, inicio: nat, i: nat)
    requires inicio + i < |archivo|
    ensures var antes := Sobrescribir(archivo, inicio, Ceros(c, i));
            && |antes| == |archivo| && antes[inicio + i] == archivo[inicio + i]
            && Sobrescribir(antes, inicio + i, [Cero(c)]) == Sobrescribir(archivo, inicio, Ceros(c, i + 1))
  {
    SobrescribirDespues(archivo, inicio, Ceros(c, i), Cero(c));
    assert Ceros(c, i + 1) == Ceros(c, i) + [Cero(c)];
  }

  lemma NumeradasUnaMas(archivo: seq<Pagina>, inicio: nat, i: nat)
    requires inicio + i < |archivo|
    ensures Numeradas(archivo[inicio..inicio + i]) + [(i, archivo[inicio + i])]
             == Numeradas(archivo[inicio..inicio + i + 1])
  {
  }

  /** The pages of a block, as the resume handler passes them on with their new frames. */
  lemma BloqueNumerado(c: Config, archivo: seq<Pagina>, inicio: nat, fs: seq<nat>, paginas: seq<(nat, Pagina)>)
    requires inicio + |fs| <= |archivo| && paginas == Numeradas(archivo[inicio..inicio + |fs|])
    requires forall f :: 0 <= f < |archivo| ==> |archivo[f]| == c.pagina
    ensures SinNumero(paginas) == archivo[inicio..inicio + |fs|]
    ensures forall i :: 0 <= i < |paginas| ==> |paginas[i].1| == c.pagina
    ensures var linkeadas := seq(|fs|, i requires 0 <= i < |fs| => (paginas[i].0, fs[i]));
            fs == seq(|linkeadas|, i requires 0 <= i < |linkeadas| => linkeadas[i].1)
  {
  }

  lemma SinNumeros(paginas: seq<(nat, Pagina)>, contenidos: seq<Pagina>)
    requires paginas == Numeradas(contenidos)
    ensures SinNumero(paginas) == contenidos
  {
  }

  datatype Respuesta = Bien | ErrorInterno | NoDisponible

  function SinNumero(paginas: seq<(nat, Pagina)>): (r: seq<Pagina>)
    ensures |r| == |paginas|
  {
    seq(|paginas|, i requires 0 <= i < |paginas| => paginas[i].1)
  }

  predicate HojasEnRango(hs: seq<(nat, nat)>, marcos: nat)
  {
    forall i :: 0 <= i < |hs| ==> hs[i].1 < marcos
  }

  function Volcado(marcos: seq<Pagina>, hs: seq<(nat, nat)>): seq<Pagina>
    requires HojasEnRango(hs, |marcos|)
  {
    seq(|hs|, i requires 0 <= i < |hs| => marcos[hs[i].1])
  }

  lemma VolcadoConcat(marcos: seq<Pagina>, x: seq<(nat, nat)>, y: seq<(nat, nat)>)
    requires HojasEnRango(x, |marcos|) && HojasEnRango(y, |marcos|)
    ensures HojasEnRango(x + y, |marcos|) && Volcado(marcos, x + y) == Volcado(marcos, x) + Volcado(marcos, y)
  {
  }

  lemma VolcadoUnaMas(marcos: seq<Pagina>, es: seq<Entrada>, i: nat, archivo: seq<Pagina>)
    requires i < |es| && HojasEnRango(Hojas(es), |marcos|) && HojasEnRango(Hojas(es[..i]), |marcos|)
    ensures HojasEnRango(Hojas(es[..i + 1]), |marcos|) && HojasEnRango(HojasEntrada(es[i]), |marcos|)
    ensures archivo + Volcado(marcos, Hojas(es[..i + 1]))
         == archivo + Volcado(marcos, Hojas(es[..i])) + Volcado(marcos, HojasEntrada(es[i]))
  {
    HojasUnaMas(es, i, |marcos|);
    VolcadoConcat(marcos, Hojas(es[..i]), HojasEntrada(es[i]));
  }

  lemma VolcadoDeHoja(marcos: seq<Pagina>, x: Entrada)
    requires x.Hoja? && HojasEnRango(HojasEntrada(x), |marcos|)
    ensures x.marco < |marcos| && Volcado(marcos, HojasEntrada(x)) == [marcos[x.marco]]
  {
    assert HojasEntrada(x)[0].1 == x.marco;
  }

  lemma HojasUnaMas(es: seq<Entrada>, i: nat, marcos: nat)
    requires i < |es| && HojasEnRango(Hojas(es), marcos)
    ensures Hojas(es[..i + 1]) == Hojas(es[..i]) + HojasEntrada(es[i])
    ensures HojasEnRango(HojasEntrada(es[i]), marcos)
  {
    HojasHasta(es, i);
    HojasEnTres(es, i);
    RangoDeParte(Hojas(es[..i]), HojasEntrada(es[i]), Hojas(es[i + 1..]), marcos);
  }

  lemma HojasHasta(es: seq<Entrada>, i: nat)
    requires i < |es|
    ensures Hojas(es[..i + 1]) == Hojas(es[..i]) + HojasEntrada(es[i])
  {
    assert es[..i + 1] == es[..i] + [es[i]];
    HojasConcat(es[..i], [es[i]]);
    HojasDeUna(es[i]);
  }

  lemma HojasEnTres(es: seq<Entrada>, i: nat)
    requires i < |es|
    ensures Hojas(es) == Hojas(es[..i + 1]) + Hojas(es[i + 1..])
  {
    assert es[..i + 1] + es[i + 1..] == es;
    HojasConcat(es[..i + 1], es[i + 1..]);
  }

  lemma HojasDeUna(e: Entrada)
    ensures Hojas([e]) == HojasEntrada(e)
  {
    assert [e][1..] == [];
  }

  lemma RangoDeParte(x: seq<(nat, nat)>, y: seq<(nat, nat)>, z: seq<(nat, nat)>, marcos: nat)
    requires HojasEnRango(x + y + z, marcos)
    ensures HojasEnRango(y, marcos)
  {
    assert forall k :: 0 <= k < |y| ==> y[k] == (x + y + z)[|x| + k];
  }

  class MemoriaPrincipal {
    const c: Config
    const memoria: array<byte>
    const marcosOcupados: array<bool>
    var procesos: map<nat, Proceso>
    var indicesSwap: seq<bool>
    var archivoSwap: seq<Pagina>

    /** The configuration makes sense and the frames fit in memory. */
    ghost predicate Valid()
      reads this
    {
      ConfigValida(c) && marcosOcupados.Length * c.pagina <= memoria.Length
    }

    /** Physical memory cut into frames. */
    ghost function Marcos(): (r: seq<Pagina>)
      requires Valid()
      reads this, memoria
      ensures |r| == marcosOcupados.Length
    {
      EnMarcos(memoria[..], c.pagina, marcosOcupados.Length)
    }

    ghost function Modelo(): Estado
      requires Valid()
      reads this, memoria, marcosOcupados
    {
      Estado(Marcos(), marcosOcupados[..], procesos, indicesSwap, archivoSwap)
    }

    /** InicializarMemoria. */
    constructor (c: Config, tamanioMemoria: nat)
      requires ConfigValida(c)
      ensures Valid() && this.c == c && fresh(memoria) && fresh(marcosOcupados)
      ensures Modelo() == Inicial(c, tamanioMemoria / c.pagina) && Inv(c, Modelo())
    {
      var cantidadMarcos := tamanioMemoria / c.pagina;
      this.c := c;
      memoria := new byte[tamanioMemoria](_ => 0);
      marcosOcupados := new bool[cantidadMarcos](_ => false);
      procesos, indicesSwap, archivoSwap := map[], [], [];
      new;
      DivMod(tamanioMemoria, c.pagina);
      forall f | 0 <= f < cantidadMarcos
        ensures Marcos()[f] == Cero(c)
      {
        TrozoEnRango(c.pagina, f, cantidadMarcos, memoria.Length);
      }
      InicialBien(c, cantidadMarcos);
    }

    // ----- user space -----

    method Leer(direccion: nat, tamanio: nat) returns (leido: seq<byte>)
      requires direccion + tamanio <= memoria.Length
      ensures leido == Texto(memoria[direccion..direccion + tamanio])
    {
      leido := [];
      for i := 0 to tamanio
        invariant leido == Texto(memoria[direccion..direccion + i])
      {
        leido := leido + Runa(memoria[direccion + i]);
        assert memoria[direccion..direccion + i + 1][..i] == memoria[direccion..direccion + i];
      }
    }

    method ActualizarPagina(direccion: nat, dato: seq<byte>)
      requires direccion + |dato| <= memoria.Length
      modifies memoria
      ensures memoria[..] == Sobrescribir(old(memoria[..]), direccion, dato)
    {
      for i := 0 to |dato|
        invariant forall k :: 0 <= k < memoria.Length ==>
                    memoria[k] == if direccion <= k < direccion + i then dato[k - direccion] else old(memoria[k])
      {
        memoria[direccion + i] := dato[i];
      }
    }

    /** Refuses a datum that runs past the end of the page the address is in. */
    method Escribir(direccion: nat, dato: seq<byte>) returns (r: int)
      requires ConfigValida(c) && (|dato| <= c.pagina - direccion % c.pagina ==> direccion + |dato| <= memoria.Length)
      modifies memoria
      ensures r == if |dato| > c.pagina - direccion % c.pagina then -1 else 0
      ensures memoria[..] == if r == 0 then Sobrescribir(old(memoria[..]), direccion, dato) else old(memoria[..])
    {
      var offset := direccion % c.pagina;
      if |dato| > c.pagina - offset {
        return -1;
      }
      ActualizarPagina(direccion, dato);
      return 0;
    }

    /** A frame that translation finds exists. */
    ghost predicate MarcosExisten(pid: nat, pagina: nat)
      requires Valid() && pid in procesos
      reads this
    {
      var b := Buscar(procesos[pid].tabla, Digitos(pagina, c.entradas, c.niveles));
      b.Encontrado? ==> 0 <= b.marco < marcosOcupados.Length
    }

    /** A user write at an offset of a page: translate, then write; -1 if either is refused. */
    method EscribirUsuario(pid: nat, pag: nat, desp: nat, dato: seq<byte>) returns (r: int)
      requires Valid() && pid in procesos && MarcosExisten(pid, pag) && desp < c.pagina
      modifies memoria
      ensures r == if !Marco(c, old(Modelo()), pid, pag).Encontrado? || desp + |dato| > c.pagina then -1 else 0
      ensures Modelo() == Memoria.Escribir(c, old(Modelo()), pid, pag, desp, dato)
    {
      var b := ObtenerMarcoDesdeTabla(procesos[pid].tabla, c.niveles, Digitos(pag, c.entradas, c.niveles));
      if !b.Encontrado? {
        return -1;
      }
      r := EscribirEnFrame(b.marco, desp, dato);
    }

    method EscribirEnFrame(f: nat, desp: nat, dato: seq<byte>) returns (r: int)
      requires Valid() && f < marcosOcupados.Length && desp < c.pagina
      modifies memoria
      ensures r == if desp + |dato| > c.pagina then -1 else 0
      ensures Marcos() == if r == 0 then old(Marcos())[f := Sobrescribir(old(Marcos())[f], desp, dato)]
                          else old(Marcos())
    {
      var direccion := f * c.pagina + desp;
      DireccionEnMarco(f, desp);
      if desp + |dato| <= c.pagina {
        EscribirEnMarco(memoria[..], c.pagina, marcosOcupados.Length, f, desp, dato);
      }
      r := Escribir(direccion, dato);
    }

    /** A user read inside a page: translate, then read. */
    method LeerUsuario(pid: nat, pag: nat, desp: nat, tam: nat) returns (leido: Opcion<seq<byte>>)
      requires Valid() && pid in procesos && MarcosExisten(pid, pag) && desp + tam <= c.pagina
      ensures var b := Marco(c, Modelo(), pid, pag);
              leido == if b.Encontrado? then Algo(Texto(Marcos()[b.marco][desp..desp + tam])) else Nada
    {
      var b := ObtenerMarcoDesdeTabla(procesos[pid].tabla, c.niveles, Digitos(pag, c.entradas, c.niveles));
      if !b.Encontrado? {
        return Nada;
      }
      var bytes := LeerEnFrame(b.marco, desp, tam);
      leido := Algo(bytes);
    }

    method LeerEnFrame(f: nat, desp: nat, tam: nat) returns (leido: seq<byte>)
      requires Valid() && f < marcosOcupados.Length && desp + tam <= c.pagina
      ensures leido == Texto(Marcos()[f][desp..desp + tam])
    {
      var direccion := f * c.pagina + desp;
      LeerDentro(memoria[..], c.pagina, marcosOcupados.Length, f, desp, tam);
      assert memoria[direccion..direccion + tam] == memoria[..][direccion..direccion + tam];
      leido := Leer(direccion, tam);
    }

    lemma DireccionEnMarco(f: nat, desp: nat)
      requires ConfigValida(c) && desp < c.pagina
      ensures (f * c.pagina + desp) % c.pagina == desp && f * c.pagina + desp >= 0
    {
      DivUnico(f * c.pagina + desp, c.pagina, f, desp);
    }

    // ----- frames -----

    method BuscarMarcosDisponibles(cantidad: nat) returns (r: Opcion<seq<nat>>)
      ensures r == BuscarMarcos(marcosOcupados[..], cantidad)
    {
      var result: seq<nat> := [];
      for i := 0 to marcosOcupados.Length
        invariant result == Libres(marcosOcupados[..i])
        invariant |result| < if cantidad == 0 then 1 else cantidad
      {
        assert marcosOcupados[..i + 1][..i] == marcosOcupados[..i];
        if !marcosOcupados[i] {
          result := result + [i];
          if |result| >= cantidad {
            assert marcosOcupados[..][..i + 1] == marcosOcupados[..i + 1];
            assert result == Libres(marcosOcupados[..i + 1]);
            LibresPrefijo(marcosOcupados[..], i + 1);
            assert result == Libres(marcosOcupados[..])[..|result|];
            return Algo(result);
          }
        }
      }
      assert marcosOcupados[..marcosOcupados.Length] == marcosOcupados[..];
      return Nada;
    }

    method AsignarFramesAProceso(fs: seq<nat>)
      requires forall i :: 0 <= i < |fs| ==> fs[i] < marcosOcupados.Length
      modifies marcosOcupados
      ensures marcosOcupados[..] == Marcar(old(marcosOcupados[..]), fs, true)
    {
      for i := 0 to |fs|
        invariant marcosOcupados[..] == Marcar(old(marcosOcupados[..]), fs[..i], true)
      {
        marcosOcupados[fs[i]] := true;
        assert fs[..i + 1] == fs[..i] + [fs[i]];
      }
      assert fs[..|fs|] == fs;
    }

    method AlmacenarProceso(pid: nat, tamanio: nat) returns (r: int)
      requires Valid()
      modifies this`procesos, marcosOcupados
      ensures Modelo() == Almacenar(c, old(Modelo()), pid, tamanio)
      ensures r == if BuscarMarcos(old(marcosOcupados[..]), Techo(tamanio, c.pagina)).Nada? then -1 else 0
    {
      var indicesNecesarios := (tamanio + c.pagina - 1) / c.pagina;
      MarcosBuscados(marcosOcupados[..], indicesNecesarios);
      var indicesDisponibles := BuscarMarcosDisponibles(indicesNecesarios);
      if indicesDisponibles.Nada? {
        return -1;
      }
      var fs := indicesDisponibles.valor;
      var tabla;
      if indicesNecesarios != 0 {
        AsignarFramesAProceso(fs);
        tabla := CrearTabla(c.niveles, c.entradas, fs);
      } else {
        tabla := Tabla([]);
      }
      procesos := procesos[pid := Proceso(false, tabla, 0, |fs|)];
      return 0;
    }

    method PonerEnCero(frame: nat)
      requires Valid() && frame < marcosOcupados.Length
      modifies memoria
      ensures Marcos() == old(Marcos())[frame := Cero(c)]
    {
      var inicio := frame * c.pagina;
      TrozoEnRango(c.pagina, frame, marcosOcupados.Length, memoria.Length);
      EscribirEnMarco(memoria[..], c.pagina, marcosOcupados.Length, frame, 0, Cero(c));
      for j := 0 to c.pagina
        invariant forall k :: 0 <= k < memoria.Length ==>
                    memoria[k] == if inicio <= k < inicio + j then 0 else old(memoria[k])
      {
        memoria[inicio + j] := 0;
      }
      assert memoria[..] == Sobrescribir(old(memoria[..]), inicio, Cero(c));
      assert Sobrescribir(old(Marcos())[frame], 0, Cero(c)) == Cero(c);
    }

    method CopiarMarco(frame: nat) returns (contenido: Pagina)
      requires Valid() && frame < marcosOcupados.Length
      ensures contenido == Marcos()[frame]
    {
      TrozoEnRango(c.pagina, frame, marcosOcupados.Length, memoria.Length);
      contenido := memoria[frame * c.pagina..frame * c.pagina + c.pagina];
      assert contenido == Trozo(memoria[..], c.pagina, frame);
    }

    /** One leaf of the sweep below: copy the frame out, zero it, release it. */
    method LiberarHoja(pagina: nat, frame: nat, paginas: seq<(nat, Pagina)>) returns (r: seq<(nat, Pagina)>)
      requires Valid()
      modifies memoria, marcosOcupados
      ensures Barrido(Marcos(), marcosOcupados[..], r)
           == LiberarUna(c, Barrido(old(Marcos()), old(marcosOcupados[..]), paginas), (pagina, frame))
    {
      r := paginas;
      if frame < marcosOcupados.Length && marcosOcupados[frame] {
        var contenido := CopiarMarco(frame);
        r := r + [(pagina, contenido)];
        PonerEnCero(frame);
        marcosOcupados[frame] := false;
      }
    }

    /** The recursive sweep over a table. */
    method RecorrerTablaYLiberarMarcos(tabla: Tabla, paginas: seq<(nat, Pagina)>) returns (r: seq<(nat, Pagina)>)
      requires Valid()
      modifies memoria, marcosOcupados
      ensures Barrido(Marcos(), marcosOcupados[..], r)
           == LiberarHojas(c, Barrido(old(Marcos()), old(marcosOcupados[..]), paginas), Hojas(tabla.entradas))
      decreases tabla
    {
      r := paginas;
      ghost var inicial := Barrido(Marcos(), marcosOcupados[..], paginas);
      var es := tabla.entradas;
      for i := 0 to |es|
        invariant Barrido(Marcos(), marcosOcupados[..], r) == LiberarHojas(c, inicial, Hojas(es[..i]))
      {
        ghost var antes := Barrido(Marcos(), marcosOcupados[..], r);
        match es[i] {
          case Subtabla(t) =>
            r := RecorrerTablaYLiberarMarcos(t, r);
          case Hoja(pagina, frame) =>
            r := LiberarHoja(pagina, frame, r);
            assert LiberarHojas(c, LiberarUna(c, antes, (pagina, frame)), []) == LiberarUna(c, antes, (pagina, frame));
        }
        HojasHasta(es, i);
        LiberarConcat(c, inicial, Hojas(es[..i]), HojasEntrada(es[i]));
      }
      assert es[..|es|] == es;
    }

    /** The record memory has of a process: the zero record if it does not know it. */
    function Registro(pid: nat): Proceso
      reads this
    {
      if pid in procesos then procesos[pid] else Proceso(false, Tabla([]), 0, 0)
    }

    /** The sweep over the process's leaves; unmarked frames are skipped. */
    method EliminarMarcosFisicos(pid: nat) returns (paginas: seq<(nat, Pagina)>)
      requires Valid()
      modifies memoria, marcosOcupados
      ensures Barrido(Marcos(), marcosOcupados[..], paginas)
           == LiberarHojas(c, Barrido(old(Marcos()), old(marcosOcupados[..]), []), Hojas(Registro(pid).tabla.entradas))
    {
      paginas := RecorrerTablaYLiberarMarcos(Registro(pid).tabla, []);
    }

    /** What that sweep does to a resident process: every frame emptied and released, its pages
        handed back in order. */
    lemma BarridoDeResidente(pid: nat)
      requires Valid() && Residente(Modelo(), pid) && ProcesoBien(c, procesos[pid])
      requires forall i :: 0 <= i < |MarcosDe(procesos[pid].tabla)| ==> marcosOcupados[MarcosDe(procesos[pid].tabla)[i]]
      ensures var fs := MarcosDe(procesos[pid].tabla);
              LiberarHojas(c, Barrido(Marcos(), marcosOcupados[..], []), Hojas(Registro(pid).tabla.entradas))
              == Barrido(Vaciar(c, Marcos(), fs), Marcar(marcosOcupados[..], fs, false),
                         Numeradas(Contenidos(Marcos(), fs)))
    {
      var fs := MarcosDe(procesos[pid].tabla);
      RecorridoEnOrden(c.niveles, c.entradas, fs);
      BarridoCompleto(c, Barrido(Marcos(), marcosOcupados[..], []), fs, |fs|);
      assert fs[..|fs|] == fs;
      assert [] + Numeradas(Contenidos(Marcos(), fs)) == Numeradas(Contenidos(Marcos(), fs));
    }

    /** The frames of the leaves, appended to the file in traversal order. */
    method EscribirContenido(tabla: Tabla, archivo: seq<Pagina>) returns (r: seq<Pagina>)
      requires Valid() && HojasEnRango(Hojas(tabla.entradas), marcosOcupados.Length)
      ensures r == archivo + Volcado(Marcos(), Hojas(tabla.entradas))
      decreases tabla
    {
      r := archivo;
      var es := tabla.entradas;
      ghost var marcos := Marcos();
      for i := 0 to |es|
        invariant HojasEnRango(Hojas(es[..i]), |marcos|)
        invariant r == archivo + Volcado(marcos, Hojas(es[..i]))
      {
        VolcadoUnaMas(marcos, es, i, archivo);
        match es[i] {
          case Subtabla(t) =>
            r := EscribirContenido(t, r);
          case Hoja(_, frame) =>
            VolcadoDeHoja(marcos, es[i]);
            var contenido := CopiarMarco(frame);
            r := r + [contenido];
        }
      }
      assert es[..|es|] == es;
    }

    /** The dump of a known process: the frames of its leaves, in order, whoever has them now. */
    method GenerarMemoryDump(pid: nat) returns (r: Opcion<seq<Pagina>>)
      requires Valid() && HojasEnRango(Hojas(Registro(pid).tabla.entradas), marcosOcupados.Length)
      ensures r == if pid in procesos then Algo(Volcado(Marcos(), Hojas(procesos[pid].tabla.entradas))) else Nada
    {
      if pid !in procesos {
        return Nada;
      }
      var dump := EscribirContenido(procesos[pid].tabla, []);
      assert dump == Volcado(Marcos(), Hojas(procesos[pid].tabla.entradas));
      return Algo(dump);
    }

    // ----- swap -----

    method MarcarIndices(inicio: nat, n: nat, v: bool)
      requires inicio + n <= |indicesSwap|
      modifies this`indicesSwap
      ensures indicesSwap == Sobrescribir(old(indicesSwap), inicio, Repetido(v, n))
    {
      for j := 0 to n
        invariant |indicesSwap| == |old(indicesSwap)|
        invariant indicesSwap == Sobrescribir(old(indicesSwap), inicio, Repetido(v, j))
      {
        indicesSwap := indicesSwap[inicio + j := v];
      }
    }

    /** First fit, or new room at the end of the table. */
    method ObtenerIndiceSwapDisponible(n: nat) returns (inicio: nat)
      modifies this`indicesSwap
      ensures inicio == PrimerHueco(old(indicesSwap), n, 0)
      ensures indicesSwap == Sobrescribir(old(indicesSwap), inicio, Repetido(true, n))
    {
      var i := 0;
      while i + n <= |indicesSwap|
        invariant i <= |indicesSwap| && indicesSwap == old(indicesSwap)
        invariant PrimerHueco(indicesSwap, n, 0) == PrimerHueco(indicesSwap, n, i)
        decreases |indicesSwap| - i
      {
        var encontrado := true;
        var j := 0;
        while j < n
          invariant j <= n && encontrado && forall k :: i <= k < i + j ==> !indicesSwap[k]
        {
          if indicesSwap[i + j] {
            encontrado := false;
            break;
          }
          j := j + 1;
        }
        if encontrado {
          MarcarIndices(i, n, true);
          return i;
        }
        i := i + 1;
      }
      inicio := |indicesSwap|;
      for k := 0 to n
        invariant indicesSwap == old(indicesSwap) + Repetido(true, k)
      {
        indicesSwap := indicesSwap + [true];
      }
    }

    /** The pages in consecutive places of a block; page 0 records where the block starts. */
    method EscribirEnSWAP(pid: nat, paginas: seq<(nat, Pagina)>)
      requires |archivoSwap| == |indicesSwap| && pid in procesos
      requires forall i :: 0 <= i < |paginas| ==> paginas[i].0 == i
      modifies this`indicesSwap, this`archivoSwap, this`procesos
      ensures var inicio := PrimerHueco(old(indicesSwap), |paginas|, 0);
              && indicesSwap == Sobrescribir(old(indicesSwap), inicio, Repetido(true, |paginas|))
              && archivoSwap == Sobrescribir(old(archivoSwap), inicio, SinNumero(paginas))
              && procesos == if paginas == [] then old(procesos)
                             else old(procesos)[pid := old(procesos)[pid].(inicioSwap := inicio)]
    {
      var inicio := ObtenerIndiceSwapDisponible(|paginas|);
      for i := 0 to |paginas|
        invariant indicesSwap == Sobrescribir(old(indicesSwap), inicio, Repetido(true, |paginas|))
        invariant archivoSwap == Sobrescribir(old(archivoSwap), inicio, SinNumero(paginas[..i]))
        invariant procesos == if i == 0 then old(procesos)
                              else old(procesos)[pid := old(procesos)[pid].(inicioSwap := inicio)]
      {
        var pagina := paginas[i];
        SobrescribirDespues(old(archivoSwap), inicio, SinNumero(paginas[..i]), pagina.1);
        assert SinNumero(paginas[..i + 1]) == SinNumero(paginas[..i]) + [pagina.1];
        archivoSwap := Sobrescribir(archivoSwap, inicio + pagina.0, [pagina.1]);
        if pagina.0 == 0 {
          procesos := procesos[pid := procesos[pid].(inicioSwap := inicio)];
        }
      }
      assert paginas[..|paginas|] == paginas;
    }

    /** One turn of the loop below: page read, zeroed, and the whole block marked free. */
    method BorrarPaginaSWAP(inicioSwap: nat, i: nat, cantidad: nat, ghost archivo: seq<Pagina>, ghost libres: seq<bool>)
      returns (contenido: Pagina)
      requires i < cantidad && inicioSwap + cantidad <= |indicesSwap| == |archivoSwap| == |archivo|
      requires archivoSwap == Sobrescribir(archivo, inicioSwap, Ceros(c, i))
      requires libres == Sobrescribir(indicesSwap, inicioSwap, Repetido(false, cantidad))
      modifies this`indicesSwap, this`archivoSwap
      ensures contenido == archivo[inicioSwap + i]
      ensures archivoSwap == Sobrescribir(archivo, inicioSwap, Ceros(c, i + 1))
      ensures indicesSwap == libres
    {
      BloqueLimpiado(c, archivo, inicioSwap, i);
      contenido := archivoSwap[inicioSwap + i];
      archivoSwap := Sobrescribir(archivoSwap, inicioSwap + i, [Cero(c)]);
      MarcarIndices(inicioSwap, cantidad, false);
    }

    /** The block read back page by page, zeroed, and its indices released. */
    method EliminarPaginasSWAP(pid: nat) returns (paginas: seq<(nat, Pagina)>)
      requires pid in procesos && |archivoSwap| == |indicesSwap|
      requires procesos[pid].inicioSwap + procesos[pid].cantidad <= |indicesSwap|
      modifies this`indicesSwap, this`archivoSwap
      ensures var p := procesos[pid];
              && paginas == Numeradas(old(archivoSwap)[p.inicioSwap..p.inicioSwap + p.cantidad])
              && indicesSwap == Sobrescribir(old(indicesSwap), p.inicioSwap, Repetido(false, p.cantidad))
              && archivoSwap == Sobrescribir(old(archivoSwap), p.inicioSwap, Ceros(c, p.cantidad))
    {
      var inicioSwap, cantidadPaginas := procesos[pid].inicioSwap, procesos[pid].cantidad;
      ghost var archivo := archivoSwap;
      ghost var libres := Sobrescribir(indicesSwap, inicioSwap, Repetido(false, cantidadPaginas));
      SobrescribirDosVeces(indicesSwap, inicioSwap, Repetido(false, cantidadPaginas));
      SobrescribirNada(archivoSwap, inicioSwap, Ceros(c, 0));
      SobrescribirNada(indicesSwap, inicioSwap, Repetido(false, 0));
      paginas := [];
      for i := 0 to cantidadPaginas
        invariant |indicesSwap| == |archivoSwap| == |archivo|
        invariant paginas == Numeradas(archivo[inicioSwap..inicioSwap + i])
        invariant archivoSwap == Sobrescribir(archivo, inicioSwap, Ceros(c, i))
        invariant libres == Sobrescribir(indicesSwap, inicioSwap, Repetido(false, cantidadPaginas))
        invariant i > 0 || cantidadPaginas == 0 ==> indicesSwap == libres
      {
        var contenido := BorrarPaginaSWAP(inicioSwap, i, cantidadPaginas, archivo, libres);
        NumeradasUnaMas(archivo, inicioSwap, i);
        paginas := paginas + [(i, contenido)];
      }
    }

    // ----- relinking -----

    /** Pages written into frames, which become marked; the links say which went where. */
    method EscribirPaginas(paginas: seq<(nat, Pagina)>, marcos: seq<nat>) returns (linkeadas: seq<(nat, nat)>)
      requires Valid() && |paginas| == |marcos|
      requires forall i :: 0 <= i < |marcos| ==> marcos[i] < marcosOcupados.Length && |paginas[i].1| == c.pagina
      modifies memoria, marcosOcupados
      ensures Marcos() == Poner(old(Marcos()), marcos, SinNumero(paginas))
      ensures marcosOcupados[..] == Marcar(old(marcosOcupados[..]), marcos, true)
      ensures linkeadas == seq(|marcos|, i requires 0 <= i < |marcos| => (paginas[i].0, marcos[i]))
    {
      linkeadas := [];
      for i := 0 to |marcos|
        invariant Marcos() == Poner(old(Marcos()), marcos[..i], SinNumero(paginas))
        invariant marcosOcupados[..] == Marcar(old(marcosOcupados[..]), marcos[..i], true)
        invariant linkeadas == seq(i, k requires 0 <= k < i => (paginas[k].0, marcos[k]))
      {
        EscribirPaginaEn(marcos[i], paginas[i].1);
        linkeadas := linkeadas + [(paginas[i].0, marcos[i])];
        marcosOcupados[marcos[i]] := true;
        assert marcos[..i + 1] == marcos[..i] + [marcos[i]];
        assert marcos[..i + 1][..i] == marcos[..i];
      }
      assert marcos[..|marcos|] == marcos;
    }

    method EscribirPaginaEn(frame: nat, contenido: Pagina)
      requires Valid() && frame < marcosOcupados.Length && |contenido| == c.pagina
      modifies memoria
      ensures Marcos() == old(Marcos())[frame := contenido]
    {
      DireccionEnMarco(frame, 0);
      EscribirEnMarco(memoria[..], c.pagina, marcosOcupados.Length, frame, 0, contenido);
      assert Sobrescribir(Marcos()[frame], 0, contenido) == contenido;
      var r := Escribir(frame * c.pagina, contenido);
    }

    /** Leaves whose page is linked get the new frame, which is marked already. */
    method RecorrerYActualizar(tabla: Tabla, mapa: map<nat, nat>) returns (r: Tabla)
      requires forall p :: p in mapa ==> mapa[p] < marcosOcupados.Length && marcosOcupados[mapa[p]]
      modifies marcosOcupados
      ensures r == Tabla(Relinkear(tabla.entradas, mapa))
      ensures marcosOcupados[..] == old(marcosOcupados[..])
      decreases tabla
    {
      var es := tabla.entradas;
      var nuevas := [];
      for i := 0 to |es|
        invariant nuevas == Relinkear(es[..i], mapa)
        invariant marcosOcupados[..] == old(marcosOcupados[..])
        invariant forall p :: p in mapa ==> mapa[p] < marcosOcupados.Length && marcosOcupados[mapa[p]]
      {
        var x := es[i];
        match x {
          case Subtabla(t) =>
            var t' := RecorrerYActualizar(t, mapa);
            assert marcosOcupados[..] == old(marcosOcupados[..]);
            assert forall p :: p in mapa ==> marcosOcupados[..][mapa[p]];
            x := Subtabla(t');
          case Hoja(p, _) =>
            if p in mapa {
              x := Hoja(p, mapa[p]);
              marcosOcupados[mapa[p]] := true;
            }
        }
        nuevas := nuevas + [x];
        RelinkearConcat(es[..i], es[i], mapa);
        assert Relinkear([es[i]], mapa) == [RelinkearEntrada(es[i], mapa)];
        assert es[..i + 1] == es[..i] + [es[i]];
      }
      assert es[..|es|] == es;
      r := Tabla(nuevas);
    }

    method ActualizarTablaPaginas(pid: nat, linkeadas: seq<(nat, nat)>)
      requires pid in procesos
      requires forall i :: 0 <= i < |linkeadas| ==>
                 linkeadas[i].0 == i && linkeadas[i].1 < marcosOcupados.Length && marcosOcupados[linkeadas[i].1]
      modifies this`procesos, marcosOcupados
      ensures marcosOcupados[..] == old(marcosOcupados[..])
      ensures var p := old(procesos)[pid];
              var fs := seq(|linkeadas|, i requires 0 <= i < |linkeadas| => linkeadas[i].1);
              procesos == old(procesos)[pid := p.(tabla := Tabla(Relinkear(p.tabla.entradas, PorPagina(fs))))]
    {
      ghost var fs := seq(|linkeadas|, i requires 0 <= i < |linkeadas| => linkeadas[i].1);
      var mapa: map<nat, nat> := map[];
      for i := 0 to |linkeadas|
        invariant mapa == PorPagina(fs[..i])
      {
        mapa := mapa[linkeadas[i].0 := linkeadas[i].1];
      }
      assert fs[..|fs|] == fs;
      var tabla := RecorrerYActualizar(procesos[pid].tabla, mapa);
      procesos := procesos[pid := procesos[pid].(tabla := tabla)];
    }

    // ----- handlers -----

    /** The handler as written: its last assignment puts back the record read at the start. */
    method SuspenderProceso(pid: nat)
      requires Valid() && Residente(Modelo(), pid) && ProcesoBien(c, procesos[pid]) && |archivoSwap| == |indicesSwap|
      requires forall i :: 0 <= i < |MarcosDe(procesos[pid].tabla)| ==> marcosOcupados[MarcosDe(procesos[pid].tabla)[i]]
      modifies this, memoria, marcosOcupados
      ensures Modelo() == SuspenderManejador(c, old(Modelo()), pid)
    {
      var proceso := procesos[pid].(suspendido := true);
      ghost var m := SuspenderManejador(c, Modelo(), pid);
      BarridoDeResidente(pid);
      var paginas := EliminarMarcosFisicos(pid);
      SinNumeros(paginas, Contenidos(old(Marcos()), MarcosDe(proceso.tabla)));
      assert Marcos() == m.marcos && marcosOcupados[..] == m.ocupados;
      EscribirEnSWAP(pid, paginas);
      procesos := procesos[pid := proceso];
      assert Marcos() == m.marcos && procesos == m.procesos;
    }

    /** Refuses a process that is not suspended, or one whose pages do not fit. */
    method ReanudarProceso(pid: nat) returns (r: Respuesta)
      requires Valid() && Formas(c, Modelo()) && (pid in procesos && procesos[pid].suspendido ==> EnSwap(Modelo(), pid))
      modifies this, memoria, marcosOcupados
      ensures pid !in old(procesos) || !old(procesos)[pid].suspendido ==> r == ErrorInterno && Modelo() == old(Modelo())
      ensures pid in old(procesos) && old(procesos)[pid].suspendido ==>
                && Modelo() == Reanudar(c, old(Modelo()), pid)
                && r == if |Libres(old(marcosOcupados[..]))| < old(procesos)[pid].cantidad then NoDisponible else Bien
    {
      if pid !in procesos || !procesos[pid].suspendido {
        return ErrorInterno;
      }
      var cantidadPaginas := procesos[pid].cantidad;
      if cantidadPaginas != 0 {
        MarcosBuscados(marcosOcupados[..], cantidadPaginas);
        var marcosDisponibles := BuscarMarcosDisponibles(cantidadPaginas);
        if marcosDisponibles.Nada? {
          return NoDisponible;
        }
        TraerDeSwap(pid, marcosDisponibles.valor);
      }
      procesos := procesos[pid := procesos[pid].(suspendido := false)];
      return Bien;
    }

    /** The middle of the resume handler: swap block to frames, table relinked. */
    method TraerDeSwap(pid: nat, fs: seq<nat>)
      requires Valid() && Formas(c, Modelo()) && EnSwap(Modelo(), pid) && |fs| == procesos[pid].cantidad >= 1
      requires forall i :: 0 <= i < |fs| ==> fs[i] < marcosOcupados.Length
      modifies this, memoria, marcosOcupados
      ensures var m := Reubicar(c, old(Modelo()), pid, fs);
              Modelo() == m.(procesos := m.procesos[pid := m.procesos[pid].(suspendido := true)])
    {
      ghost var p, m := procesos[pid], Reubicar(c, Modelo(), pid, fs);
      var paginas := EliminarPaginasSWAP(pid);
      BloqueNumerado(c, old(archivoSwap), p.inicioSwap, fs, paginas);
      PonerYEnlazar(pid, fs, paginas);
      assert Modelo().procesos == m.procesos[pid := m.procesos[pid].(suspendido := true)];
    }

    /** Pages numbered 0, 1, ... into frames, and the table linked to those frames. */
    method PonerYEnlazar(pid: nat, fs: seq<nat>, paginas: seq<(nat, Pagina)>)
      requires Valid() && pid in procesos && |paginas| == |fs|
      requires forall i :: 0 <= i < |fs| ==>
                 fs[i] < marcosOcupados.Length && paginas[i].0 == i && |paginas[i].1| == c.pagina
      modifies this`procesos, memoria, marcosOcupados
      ensures Valid() && Marcos() == Poner(old(Marcos()), fs, SinNumero(paginas))
      ensures marcosOcupados[..] == Marcar(old(marcosOcupados[..]), fs, true)
      ensures var p := old(procesos)[pid];
              procesos == old(procesos)[pid := p.(tabla := Tabla(Relinkear(p.tabla.entradas, PorPagina(fs))))]
    {
      var linkeadas := EscribirPaginas(paginas, fs);
      ghost var marcos, ocupados := Marcos(), marcosOcupados[..];
      assert forall i :: 0 <= i < |fs| ==> ocupados[fs[i]];
      assert fs == seq(|linkeadas|, i requires 0 <= i < |linkeadas| => linkeadas[i].1);
      ActualizarTablaPaginas(pid, linkeadas);
      assert Marcos() == marcos;
    }

    /** Releases frames or swap block, then forgets the process; one it does not know has neither. */
    method FinalizarProceso(pid: nat)
      requires Valid()
      requires pid in procesos ==>
                 && ProcesoBien(c, procesos[pid])
                 && if procesos[pid].suspendido then EnSwap(Modelo(), pid)
                    else Residente(Modelo(), pid) && forall i :: 0 <= i < |MarcosDe(procesos[pid].tabla)| ==>
                           marcosOcupados[MarcosDe(procesos[pid].tabla)[i]]
      modifies this, memoria, marcosOcupados
      ensures Modelo() == if pid in old(procesos) then Finalizar(c, old(Modelo()), pid) else old(Modelo())
    {
      if Registro(pid).suspendido {
        var paginas := EliminarPaginasSWAP(pid);
      } else {
        if pid in procesos { BarridoDeResidente(pid); }
        var paginas := EliminarMarcosFisicos(pid);
      }
      procesos := procesos - {pid};
    }
  }

  /** The dump of a resident process of a good memory is its pages 0, 1, ... in order. */
  lemma DumpDeResidente(c: Config, m: Estado, pid: nat)
    requires Inv(c, m) && pid in m.procesos && !m.procesos[pid].suspendido
    ensures Visible(m, m.procesos[pid]) && HojasEnRango(Hojas(m.procesos[pid].tabla.entradas), |m.marcos|)
    ensures Volcado(m.marcos, Hojas(m.procesos[pid].tabla.entradas)) == Paginas(m, m.procesos[pid])
  {
    InvVisible(c, m);
    assert ProcesoBien(c, m.procesos[pid]);
    var hs, fs := Hojas(m.procesos[pid].tabla.entradas), MarcosDe(m.procesos[pid].tabla);
    assert forall i :: 0 <= i < |hs| ==> fs[i] == hs[i].1;
  }
}
