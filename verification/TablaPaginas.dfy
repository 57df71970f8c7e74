/** The n-level page table of memoria/utils/paginacion.go: how it is built, how the CPU's
    digits walk it, how it is traversed, and how a resume relinks its leaves. */
module TablaPaginas {
  import opened Aritmetica

  datatype Tabla = Tabla(entradas: seq<Entrada>)

  /** A last-level entry holds a page and its frame; an intermediate one holds a table. */
  datatype Entrada = Hoja(pagina: nat, marco: nat) | Subtabla(siguiente: Tabla)

  // ----- construction -----

  function CantEntradas(nivel: nat, e: nat, restantes: nat): nat
    requires nivel >= 1 && e >= 1
  {
    if nivel == 1 then (if restantes > e then e else restantes) else Techo(restantes, e)
  }

  /** The tree that construction yields, in closed form. A level-2 table groups the pages by `e`;
      above it the first subtable absorbs every page and the other subtables are empty. */
  ghost function Arbol(nivel: nat, e: nat, desde: nat, marcos: seq<nat>): Tabla
    requires nivel >= 1 && e >= 1 && desde <= |marcos|
    decreases nivel
  {
    var n := |marcos|;
    if nivel == 1 then
      Tabla(seq(CantEntradas(1, e, n - desde),
                i requires 0 <= i < CantEntradas(1, e, n - desde) => Hoja(desde + i, marcos[desde + i])))
    else if nivel == 2 then
      Tabla(seq(CantEntradas(2, e, n - desde), i requires 0 <= i < CantEntradas(2, e, n - desde) =>
        (TechoUmbral(n - desde, e, i); Subtabla(Arbol(1, e, desde + i * e, marcos)))))
    else
      Tabla(seq(CantEntradas(nivel, e, n - desde), i =>
        if i == 0 then Subtabla(Arbol(nivel - 1, e, desde, marcos)) else Subtabla(Tabla([]))))
  }

  /** How far construction at this level moves the frame index. */
  function Avance(nivel: nat, e: nat, desde: nat, n: nat): nat
    requires nivel >= 1 && e >= 1 && desde <= n
  {
    if nivel == 1 && n - desde > e then desde + e else n
  }

  /** The frame index at which construction starts entry i. */
  function InicioEntrada(nivel: nat, e: nat, desde: nat, n: nat, i: nat): (r: nat)
    requires nivel >= 1 && e >= 1 && desde <= n && i <= CantEntradas(nivel, e, n - desde)
    ensures r <= n
  {
    if nivel == 1 then desde + i
    else if nivel == 2 then (if desde + i * e <= n then desde + i * e else n)
    else if i == 0 then desde else n
  }

  /** Entry i of the closed form is what the code builds there, and building it moves the index on. */
  lemma EntradaConstruida(nivel: nat, e: nat, desde: nat, marcos: seq<nat>, i: nat)
    requires nivel >= 1 && e >= 1 && desde <= |marcos| && i < CantEntradas(nivel, e, |marcos| - desde)
    ensures var ini := InicioEntrada(nivel, e, desde, |marcos|, i);
            var sig := InicioEntrada(nivel, e, desde, |marcos|, i + 1);
            var x := Arbol(nivel, e, desde, marcos).entradas[i];
            if nivel == 1 then ini < |marcos| && x == Hoja(ini, marcos[ini]) && sig == ini + 1
            else x == Subtabla(Arbol(nivel - 1, e, ini, marcos)) && sig == Avance(nivel - 1, e, ini, |marcos|)
  {
    if nivel > 1 {
      TechoUmbral(|marcos| - desde, e, i);
      assert (i + 1) * e == i * e + e;
      if nivel > 2 && i > 0 {
        assert Arbol(nivel - 1, e, |marcos|, marcos) == Tabla([]) by {
          TechoUmbral(0, e, 0);
        }
      }
    }
  }

  lemma ConstruccionTermina(nivel: nat, e: nat, desde: nat, n: nat)
    requires nivel >= 1 && e >= 1 && desde <= n
    ensures InicioEntrada(nivel, e, desde, n, CantEntradas(nivel, e, n - desde)) == Avance(nivel, e, desde, n)
  {
    TechoUmbral(n - desde, e, CantEntradas(nivel, e, n - desde));
    TechoUmbral(n - desde, e, 0);
  }

  /** Entries to make at a level: above the last, as many as tables of e pages the rest needs. */
  method EntradasPorNivel(nivel: nat, e: nat, restantes: nat) returns (cant: nat)
    requires nivel >= 1 && e >= 1
    ensures cant == CantEntradas(nivel, e, restantes)
  {
    cant := (restantes + e - 1) / e;
    if nivel == 1 {
      cant := if restantes > e then e else restantes;
    }
  }

  /** The recursive construction with its shared frame index. */
  method ConstruirNivel(nivel: nat, e: nat, frameIndex: nat, marcos: seq<nat>) returns (tabla: Tabla, indice: nat)
    requires nivel >= 1 && e >= 1 && frameIndex <= |marcos|
    ensures tabla == Arbol(nivel, e, frameIndex, marcos)
    ensures indice == Avance(nivel, e, frameIndex, |marcos|)
    decreases nivel
  {
    var cant := EntradasPorNivel(nivel, e, |marcos| - frameIndex);
    ghost var meta := Arbol(nivel, e, frameIndex, marcos).entradas;
    indice := frameIndex;
    var entradas: seq<Entrada> := [];
    var i := 0;
    while i < cant
      invariant i <= cant && i == |entradas|
      invariant indice == InicioEntrada(nivel, e, frameIndex, |marcos|, i)
      invariant entradas == meta[..i]
    {
      EntradaConstruida(nivel, e, frameIndex, marcos, i);
      if nivel == 1 {
        entradas := entradas + [Hoja(indice, marcos[indice])];
        indice := indice + 1;
      } else {
        var sub;
        sub, indice := ConstruirNivel(nivel - 1, e, indice, marcos);
        entradas := entradas + [Subtabla(sub)];
      }
      i := i + 1;
    }
    ConstruccionTermina(nivel, e, frameIndex, |marcos|);
    tabla := Tabla(entradas);
  }

  method CrearTabla(niveles: nat, e: nat, marcos: seq<nat>) returns (tabla: Tabla)
    requires niveles >= 1 && e >= 1
    ensures tabla == Arbol(niveles, e, 0, marcos)
  {
    var indice;
    tabla, indice := ConstruirNivel(niveles, e, 0, marcos);
  }

  // ----- in-order traversal -----

  /** The (page, frame) leaves in traversal order. */
  function Hojas(es: seq<Entrada>): seq<(nat, nat)>
  {
    if es == [] then [] else HojasEntrada(es[0]) + Hojas(es[1..])
  }

  function HojasEntrada(x: Entrada): seq<(nat, nat)>
  {
    match x
    case Hoja(p, m) => [(p, m)]
    case Subtabla(t) => assert t < x; Hojas(t.entradas)
  }

  function MarcosDe(t: Tabla): seq<nat>
  {
    seq(|Hojas(t.entradas)|, i requires 0 <= i < |Hojas(t.entradas)| => Hojas(t.entradas)[i].1)
  }

  /** Pages desde..hasta-1 with their frames. */
  function Tramo(desde: nat, hasta: nat, marcos: seq<nat>): seq<(nat, nat)>
    requires desde <= hasta <= |marcos|
  {
    seq(hasta - desde, i requires 0 <= i < hasta - desde => (desde + i, marcos[desde + i]))
  }

  lemma {:induction false} HojasConcat(a: seq<Entrada>, b: seq<Entrada>)
    ensures Hojas(a + b) == Hojas(a) + Hojas(b)
  {
    if a == [] {
      assert a + b == b;
    } else {
      HojasConcat(a[1..], b);
      assert a + b == [a[0]] + (a[1..] + b);
      assert (a + b)[1..] == a[1..] + b;
      assert Hojas(a + b) == HojasEntrada(a[0]) + Hojas(a[1..] + b);
    }
  }

  lemma {:induction false} HojasDeNivelUno(es: seq<Entrada>, desde: nat, marcos: seq<nat>)
    requires desde + |es| <= |marcos|
    requires forall i :: 0 <= i < |es| ==> es[i] == Hoja(desde + i, marcos[desde + i])
    ensures Hojas(es) == Tramo(desde, desde + |es|, marcos)
  {
    if es != [] {
      HojasDeNivelUno(es[1..], desde + 1, marcos);
      var hasta := desde + |es|;
      assert Tramo(desde, hasta, marcos) == [(desde, marcos[desde])] + Tramo(desde + 1, hasta, marcos);
    }
  }

  /** The leaves under entries i.. of a level-2 table are the pages from i*e on. */
  lemma {:induction false} HojasDeNivelDos(e: nat, i: nat, marcos: seq<nat>)
    requires e >= 1 && i <= Techo(|marcos|, e)
    ensures Hojas(Arbol(2, e, 0, marcos).entradas[i..])
         == Tramo(if i * e < |marcos| then i * e else |marcos|, |marcos|, marcos)
    decreases Techo(|marcos|, e) - i
  {
    var n, es := |marcos|, Arbol(2, e, 0, marcos).entradas;
    TechoUmbral(n, e, i);
    if i < |es| {
      HojasDeNivelDos(e, i + 1, marcos);
      assert es[i..][1..] == es[i + 1..];
      var sub := Arbol(1, e, i * e, marcos).entradas;
      HojasDeNivelUno(sub, i * e, marcos);
      assert (i + 1) * e == i * e + e;
    }
  }

  lemma {:induction false} HojasVacias(es: seq<Entrada>)
    requires forall i :: 0 <= i < |es| ==> es[i] == Subtabla(Tabla([]))
    ensures Hojas(es) == []
  {
    if es != [] {
      HojasVacias(es[1..]);
    }
  }

  /** The tree holds every page: there are two levels or more, or one table is enough. */
  predicate Abarca(niveles: nat, e: nat, n: nat)
  {
    niveles >= 2 || n <= e
  }

  /** Traversal meets pages 0..n-1, in order, each with its own frame, exactly when `Abarca`. */
  lemma {:induction false} RecorridoEnOrden(niveles: nat, e: nat, marcos: seq<nat>)
    requires niveles >= 1 && e >= 1
    ensures Hojas(Arbol(niveles, e, 0, marcos).entradas) == Tramo(0, |marcos|, marcos) <==> Abarca(niveles, e, |marcos|)
    ensures Abarca(niveles, e, |marcos|) ==> MarcosDe(Arbol(niveles, e, 0, marcos)) == marcos
  {
    var es := Arbol(niveles, e, 0, marcos).entradas;
    if niveles == 1 {
      HojasDeNivelUno(es, 0, marcos);
    } else if niveles == 2 {
      HojasDeNivelDos(e, 0, marcos);
      assert es[0..] == es;
    } else {
      RecorridoEnOrden(niveles - 1, e, marcos);
      TechoUmbral(|marcos|, e, 0);
      if |es| > 0 {
        HojasVacias(es[1..]);
      }
    }
  }

  // ----- lookup by digits -----

  datatype Busqueda = Encontrado(marco: int) | FueraDeRango | Panico

  /** Base-e digits of page p, most significant first. */
  function Digitos(p: nat, e: nat, niveles: nat): (d: seq<nat>)
    requires e >= 1
    ensures |d| == niveles
  {
    seq(niveles, x requires 0 <= x < niveles =>
      (PotenciaPositiva(e, niveles - 1 - x); p / Potencia(e, niveles - 1 - x) % e))
  }

  /** Following one digit per level. A missing intermediate entry is an index panic in the
      source; a missing last entry is its -1. */
  function Buscar(t: Tabla, digitos: seq<nat>): Busqueda
    requires |digitos| >= 1
    decreases |digitos|
  {
    var d := digitos[0];
    if |digitos| == 1 then
      if d >= |t.entradas| then FueraDeRango
      else match t.entradas[d]
           case Hoja(_, m) => Encontrado(m)
           case Subtabla(_) => Encontrado(-1)
    else if d >= |t.entradas| || t.entradas[d].Hoja? then Panico
    else Buscar(t.entradas[d].siguiente, digitos[1..])
  }

  /** The walk of the handler, one table per iteration. */
  method ObtenerMarcoDesdeTabla(raiz: Tabla, niveles: nat, entradas: seq<nat>) returns (r: Busqueda)
    requires niveles >= 1 && |entradas| == niveles
    ensures r == Buscar(raiz, entradas)
  {
    var tabla := raiz;
    var i := 0;
    while i < niveles - 1
      invariant 0 <= i <= niveles - 1
      invariant Buscar(raiz, entradas) == Buscar(tabla, entradas[i..])
    {
      var indiceActual := entradas[i];
      if indiceActual >= |tabla.entradas| || tabla.entradas[indiceActual].Hoja? {
        return Panico;
      }
      tabla := tabla.entradas[indiceActual].siguiente;
      assert entradas[i..][1..] == entradas[i + 1..];
      i := i + 1;
    }
    var ultimo := entradas[|entradas| - 1];
    if ultimo >= |tabla.entradas| {
      return FueraDeRango;
    }
    match tabla.entradas[ultimo]
    case Hoja(_, m) => return Encontrado(m);
    case Subtabla(_) => return Encontrado(-1);
  }

  /** The pages the walk can tell apart, whatever the number of levels above two. */
  function Capacidad(niveles: nat, e: nat): nat
  {
    if niveles == 1 then e else e * e
  }

  lemma DigitosCola(p: nat, e: nat, niveles: nat)
    requires e >= 1 && niveles >= 2
    ensures Digitos(p, e, niveles)[1..] == Digitos(p, e, niveles - 1)
  {
  }

  /** The page numbers that as many base-e digits can spell: the walk sees p through its digits. */
  function NumeroVisto(p: nat, e: nat, niveles: nat): (q: nat)
    requires e >= 1
    ensures q <= p
  {
    PotenciaPositiva(e, niveles);
    DivMod(p, Potencia(e, niveles));
    MulLe(0, p / Potencia(e, niveles), Potencia(e, niveles));
    p % Potencia(e, niveles)
  }

  /** One digit more in front. */
  lemma VistaUnDigitoMas(p: nat, e: nat, niveles: nat)
    requires e >= 1 && niveles >= 1
    ensures Digitos(p, e, niveles)[0] < e && Potencia(e, niveles - 1) >= 1
    ensures NumeroVisto(p, e, niveles)
         == Digitos(p, e, niveles)[0] * Potencia(e, niveles - 1) + NumeroVisto(p, e, niveles - 1)
  {
    PotenciaPositiva(e, niveles - 1);
    RestoCompuesto(p, e, Potencia(e, niveles - 1));
    DivMod(p / Potencia(e, niveles - 1), e);
  }

  lemma VistaDosNiveles(p: nat, e: nat)
    requires e >= 1
    ensures e * e >= 1 && Digitos(p, e, 2) == [p / e % e, p % e]
    ensures p / e % e < e && p % e < e && NumeroVisto(p, e, 2) == p / e % e * e + p % e
  {
    assert Potencia(e, 0) == 1 && Potencia(e, 1) == e && Potencia(e, 2) == e * e;
    RestoCompuesto(p, e, e);
    DivMod(p, e);
    DivMod(p / e, e);
  }

  lemma BuscarUnNivel(e: nat, marcos: seq<nat>, p: nat)
    requires e >= 1
    ensures NumeroVisto(p, e, 1) == p % e < e
    ensures Buscar(Arbol(1, e, 0, marcos), Digitos(p, e, 1))
         == if p % e < |marcos| then Encontrado(marcos[p % e]) else FueraDeRango
  {
    assert Potencia(e, 0) == 1 && Potencia(e, 1) == e;
    DivMod(p, e);
    assert Digitos(p, e, 1) == [p % e];
  }

  /** Two levels, by the digits. */
  lemma BuscarDosDigitos(e: nat, marcos: seq<nat>, a: nat, b: nat)
    requires e >= 1 && a < e && b < e
    ensures Buscar(Arbol(2, e, 0, marcos), [a, b])
         == if a * e >= |marcos| then Panico
            else if a * e + b >= |marcos| then FueraDeRango else Encontrado(marcos[a * e + b])
  {
    TechoUmbral(|marcos|, e, a);
    var t := Arbol(2, e, 0, marcos);
    assert [a, b][1..] == [b];
    if a * e < |marcos| {
      assert 0 + a * e == a * e;
      var sub := Arbol(1, e, a * e, marcos);
      assert t.entradas[a] == Subtabla(sub);
      if a * e + b < |marcos| { assert sub.entradas[b] == Hoja(a * e + b, marcos[a * e + b]); }
    }
  }

  lemma BuscarDosNiveles(e: nat, marcos: seq<nat>, p: nat)
    requires e >= 1
    ensures NumeroVisto(p, e, 2) < e * e
    ensures var q, n := NumeroVisto(p, e, 2), |marcos|;
            Buscar(Arbol(2, e, 0, marcos), Digitos(p, e, 2))
            == if q / e * e >= n then Panico else if q >= n then FueraDeRango else Encontrado(marcos[q])
  {
    VistaDosNiveles(p, e);
    var a, b := p / e % e, p % e;
    BuscarDosDigitos(e, marcos, a, b);
    DivUnico(NumeroVisto(p, e, 2), e, a, b);
    MulLe(a + 1, e, e);
    Reparte(0, e, a, e);
  }

  /** Above two levels only digit 0 leads anywhere: to the tree of one level less. */
  lemma BuscarUnNivelMas(niveles: nat, e: nat, marcos: seq<nat>, p: nat)
    requires niveles >= 3 && e >= 1
    ensures var r, d := Buscar(Arbol(niveles, e, 0, marcos), Digitos(p, e, niveles)), Digitos(p, e, niveles)[0];
            if d == 0 && |marcos| > 0 then r == Buscar(Arbol(niveles - 1, e, 0, marcos), Digitos(p, e, niveles - 1))
            else r == Panico
  {
    var t, d := Arbol(niveles, e, 0, marcos), Digitos(p, e, niveles);
    DigitosCola(p, e, niveles);
    TechoUmbral(|marcos|, e, 0);
    if d[0] != 0 && d[0] < |t.entradas| {
      assert t.entradas[d[0]] == Subtabla(Tabla([]));
      assert |d[1..]| > 1;
    }
  }

  /** The answer to number q: the frame at that place of the list if there is one below the
      capacity, and nothing otherwise; -1 when only the last table is too short, an index panic
      before that. */
  function Respuesta(niveles: nat, e: nat, marcos: seq<nat>, q: nat): Busqueda
    requires e >= 1
  {
    if q < |marcos| && q < Capacidad(niveles, e) then Encontrado(marcos[q])
    else if niveles == 1 || (q < e * e && q / e * e < |marcos|) then FueraDeRango
    else Panico
  }

  lemma RespuestaDos(e: nat, marcos: seq<nat>, q: nat)
    requires e >= 1 && q < e * e
    ensures Respuesta(2, e, marcos, q)
         == if q / e * e >= |marcos| then Panico else if q >= |marcos| then FueraDeRango else Encontrado(marcos[q])
  {
    DivMod(q, e);
  }

  lemma RespuestaAlta(niveles: nat, e: nat, marcos: seq<nat>, q: nat)
    requires niveles >= 2 && e >= 1 && (q >= e * e || |marcos| == 0)
    ensures Respuesta(niveles, e, marcos, q) == Panico
  {
    DivMod(q, e);
  }

  /** What the walk answers for every page number whatever: it sees p modulo e^niveles. */
  lemma {:induction false} BusquedaExacta(niveles: nat, e: nat, marcos: seq<nat>, p: nat)
    requires niveles >= 1 && e >= 1
    ensures Buscar(Arbol(niveles, e, 0, marcos), Digitos(p, e, niveles))
         == Respuesta(niveles, e, marcos, NumeroVisto(p, e, niveles))
  {
    if niveles == 1 {
      BuscarUnNivel(e, marcos, p);
    } else if niveles == 2 {
      BuscarDosNiveles(e, marcos, p);
      RespuestaDos(e, marcos, NumeroVisto(p, e, 2));
    } else {
      BusquedaExacta(niveles - 1, e, marcos, p);
      BuscarUnNivelMas(niveles, e, marcos, p);
      DigitoAlto(p, e, niveles);
      if Digitos(p, e, niveles)[0] != 0 || |marcos| == 0 {
        RespuestaAlta(niveles, e, marcos, NumeroVisto(p, e, niveles));
      }
    }
  }

  /** A first digit that is not 0 puts the number past the capacity. */
  lemma DigitoAlto(p: nat, e: nat, niveles: nat)
    requires niveles >= 3 && e >= 1
    ensures if Digitos(p, e, niveles)[0] == 0 then NumeroVisto(p, e, niveles) == NumeroVisto(p, e, niveles - 1)
            else NumeroVisto(p, e, niveles) >= e * e
  {
    VistaUnDigitoMas(p, e, niveles);
    PotenciaAlMenosCuadrado(e, niveles - 1);
    var d := Digitos(p, e, niveles)[0];
    if d > 0 { MulLe(1, d, Potencia(e, niveles - 1)); }
  }

  lemma VistaPequena(p: nat, e: nat, niveles: nat)
    requires e >= 1 && niveles >= 1 && p < Capacidad(niveles, e)
    ensures NumeroVisto(p, e, niveles) == p
  {
    if niveles == 1 {
      assert Potencia(e, 1) == e * Potencia(e, 0);
    } else {
      PotenciaAlMenosCuadrado(e, niveles);
    }
    DivUnico(p, Potencia(e, niveles), 0, p);
  }

  /** Translation is right for page p exactly when p is below the capacity. */
  lemma BusquedaCorrecta(niveles: nat, e: nat, marcos: seq<nat>, p: nat)
    requires niveles >= 1 && e >= 1 && p < |marcos|
    requires forall i, j :: 0 <= i < j < |marcos| ==> marcos[i] != marcos[j]
    ensures Buscar(Arbol(niveles, e, 0, marcos), Digitos(p, e, niveles)) == Encontrado(marcos[p]) <==>
              p < Capacidad(niveles, e)
  {
    BusquedaExacta(niveles, e, marcos, p);
    if p < Capacidad(niveles, e) { VistaPequena(p, e, niveles); }
  }

  // ----- relinking on resume -----

  /** Every leaf whose page is in `nuevos` gets that page's new frame. */
  function Relinkear(es: seq<Entrada>, nuevos: map<nat, nat>): (r: seq<Entrada>)
    ensures |r| == |es|
  {
    if es == [] then [] else [RelinkearEntrada(es[0], nuevos)] + Relinkear(es[1..], nuevos)
  }

  function RelinkearEntrada(x: Entrada, nuevos: map<nat, nat>): Entrada
  {
    match x
    case Hoja(p, m) => Hoja(p, if p in nuevos then nuevos[p] else m)
    case Subtabla(t) => assert t < x; Subtabla(Tabla(Relinkear(t.entradas, nuevos)))
  }

  lemma {:induction false} RelinkearEn(es: seq<Entrada>, nuevos: map<nat, nat>, i: nat)
    requires i < |es|
    ensures Relinkear(es, nuevos)[i] == Relinkear([es[i]], nuevos)[0]
  {
    if i > 0 {
      RelinkearEn(es[1..], nuevos, i - 1);
    }
  }

  lemma RelinkearConcat(a: seq<Entrada>, x: Entrada, nuevos: map<nat, nat>)
    ensures Relinkear(a + [x], nuevos) == Relinkear(a, nuevos) + Relinkear([x], nuevos)
  {
    var s := a + [x];
    forall i | 0 <= i < |s|
      ensures Relinkear(s, nuevos)[i] == (Relinkear(a, nuevos) + Relinkear([x], nuevos))[i]
    {
      RelinkearEn(s, nuevos, i);
      if i < |a| { RelinkearEn(a, nuevos, i); }
    }
  }

  /** Relinking pages 0..n-1 turns the tree of the old frames into the tree of the new ones. */
  lemma {:induction false} RelinkearArbol(nivel: nat, e: nat, desde: nat, viejos: seq<nat>, marcos: seq<nat>,
                                          nuevos: map<nat, nat>)
    requires nivel >= 1 && e >= 1 && |viejos| == |marcos| && desde <= |viejos|
    requires forall i :: 0 <= i < |marcos| ==> i in nuevos && nuevos[i] == marcos[i]
    ensures Relinkear(Arbol(nivel, e, desde, viejos).entradas, nuevos) == Arbol(nivel, e, desde, marcos).entradas
    decreases nivel, 1
  {
    var a, b := Arbol(nivel, e, desde, viejos).entradas, Arbol(nivel, e, desde, marcos).entradas;
    forall i | 0 <= i < |a|
      ensures Relinkear(a, nuevos)[i] == b[i]
    {
      RelinkearEn(a, nuevos, i);
      RelinkearUna(nivel, e, desde, viejos, marcos, nuevos, i);
    }
  }

  lemma {:induction false} RelinkearUna(nivel: nat, e: nat, desde: nat, viejos: seq<nat>, marcos: seq<nat>,
                                        nuevos: map<nat, nat>, i: nat)
    requires nivel >= 1 && e >= 1 && |viejos| == |marcos| && desde <= |viejos|
    requires i < |Arbol(nivel, e, desde, viejos).entradas|
    requires forall i :: 0 <= i < |marcos| ==> i in nuevos && nuevos[i] == marcos[i]
    ensures Relinkear([Arbol(nivel, e, desde, viejos).entradas[i]], nuevos)
             == [Arbol(nivel, e, desde, marcos).entradas[i]]
    decreases nivel, 0
  {
    var x := Arbol(nivel, e, desde, viejos).entradas[i];
    if nivel == 2 {
      TechoUmbral(|viejos| - desde, e, i);
      RelinkearArbol(1, e, desde + i * e, viejos, marcos, nuevos);
    } else if nivel > 2 && i == 0 {
      RelinkearArbol(nivel - 1, e, desde, viejos, marcos, nuevos);
    }
    if x.Subtabla? { RelinkearSubtabla(x, nuevos); }
  }

  lemma RelinkearSubtabla(x: Entrada, nuevos: map<nat, nat>)
    requires x.Subtabla?
    ensures Relinkear([x], nuevos) == [Subtabla(Tabla(Relinkear(x.siguiente.entradas, nuevos)))]
  {
  }
}
