/** Physical memory as one run of bytes, seen as frames; and what `leer` makes of its bytes. */
module MemoriaFisica {
  import opened Aritmetica
  import opened Secuencias
  import opened Memoria

  function Trozo(b: seq<byte>, pagina: nat, f: nat): (r: Pagina)
    requires f * pagina + pagina <= |b|
    ensures |r| == pagina
  {
    b[f * pagina..f * pagina + pagina]
  }

  lemma TrozoEnRango(pagina: nat, f: nat, marcos: nat, largo: nat)
    requires f < marcos && marcos * pagina <= largo
    ensures f * pagina + pagina <= largo
  {
    MulLe(f + 1, marcos, pagina);
  }

  /** The bytes cut into `marcos` frames. */
  function EnMarcos(b: seq<byte>, pagina: nat, marcos: nat): (r: seq<Pagina>)
    requires marcos * pagina <= |b|
    ensures |r| == marcos && forall f :: 0 <= f < marcos ==> |r[f]| == pagina
  {
    seq(marcos, f requires 0 <= f < marcos => (TrozoEnRango(pagina, f, marcos, |b|); Trozo(b, pagina, f)))
  }

  /** Windows of one size that are equal or apart, and a write inside one of them. */
  lemma VentanaTrasEscribir(b: seq<byte>, tam: nat, x: nat, y: nat, desp: nat, dato: seq<byte>)
    requires x + tam <= |b| && y + tam <= |b| && desp + |dato| <= tam
    requires x == y || x + tam <= y || y + tam <= x
    ensures Sobrescribir(b, y + desp, dato)[x..x + tam]
         == if x == y then Sobrescribir(b[y..y + tam], desp, dato) else b[x..x + tam]
  {
  }

  lemma MarcosAparte(pagina: nat, g: nat, f: nat)
    requires g != f
    ensures g * pagina + pagina <= f * pagina || f * pagina + pagina <= g * pagina
  {
    if g < f { MulLe(g + 1, f, pagina); } else { MulLe(f + 1, g, pagina); }
  }

  lemma Separados(pagina: nat, g: nat, f: nat, x: nat, y: nat)
    requires pagina >= 1 && x == g * pagina && y == f * pagina
    ensures if g == f then x == y else x != y && (x + pagina <= y || y + pagina <= x)
  {
    if g != f { MarcosAparte(pagina, g, f); }
  }

  lemma TrozoTrasEscribir(b: seq<byte>, pagina: nat, g: nat, f: nat, desp: nat, dato: seq<byte>)
    requires pagina >= 1
    requires g * pagina + pagina <= |b| && f * pagina + pagina <= |b| && desp + |dato| <= pagina
    ensures Trozo(Sobrescribir(b, f * pagina + desp, dato), pagina, g)
         == if g == f then Sobrescribir(Trozo(b, pagina, f), desp, dato) else Trozo(b, pagina, g)
  {
    var x, y := g * pagina, f * pagina;
    Separados(pagina, g, f, x, y);
    TrozoDeVentana(b, pagina, g, f, x, y, desp, dato);
  }

  lemma TrozoDeVentana(b: seq<byte>, pagina: nat, g: nat, f: nat, x: nat, y: nat, desp: nat, dato: seq<byte>)
    requires x == g * pagina && y == f * pagina && x + pagina <= |b| && y + pagina <= |b| && desp + |dato| <= pagina
    requires if g == f then x == y else x != y && (x + pagina <= y || y + pagina <= x)
    ensures Trozo(Sobrescribir(b, y + desp, dato), pagina, g)
         == if g == f then Sobrescribir(Trozo(b, pagina, f), desp, dato) else Trozo(b, pagina, g)
  {
    VentanaTrasEscribir(b, pagina, x, y, desp, dato);
  }

  /** A write inside one frame changes that frame alone. */
  lemma EscribirEnMarco(b: seq<byte>, pagina: nat, marcos: nat, f: nat, desp: nat, dato: seq<byte>)
    requires pagina >= 1 && marcos * pagina <= |b| && f < marcos && desp + |dato| <= pagina
    ensures f * pagina + desp + |dato| <= |b|
    ensures var vista := EnMarcos(b, pagina, marcos);
            EnMarcos(Sobrescribir(b, f * pagina + desp, dato), pagina, marcos)
              == vista[f := Sobrescribir(vista[f], desp, dato)]
  {
    TrozoEnRango(pagina, f, marcos, |b|);
    var b' := Sobrescribir(b, f * pagina + desp, dato);
    forall g | 0 <= g < marcos
      ensures EnMarcos(b', pagina, marcos)[g]
           == EnMarcos(b, pagina, marcos)[f := Sobrescribir(EnMarcos(b, pagina, marcos)[f], desp, dato)][g]
    {
      TrozoEnRango(pagina, g, marcos, |b|);
      TrozoTrasEscribir(b, pagina, g, f, desp, dato);
    }
  }

  lemma LeerDentro(b: seq<byte>, pagina: nat, marcos: nat, f: nat, desp: nat, tam: nat)
    requires marcos * pagina <= |b| && f < marcos && desp + tam <= pagina
    ensures var d := f * pagina + desp;
            d + tam <= |b| && b[d..d + tam] == EnMarcos(b, pagina, marcos)[f][desp..desp + tam]
  {
    TrozoEnRango(pagina, f, marcos, |b|);
    DentroDelTrozo(b, f * pagina, pagina, desp, tam);
  }

  lemma DentroDelTrozo<T>(s: seq<T>, x: nat, largo: nat, desp: nat, tam: nat)
    requires x + largo <= |s| && desp + tam <= largo
    ensures s[x..x + largo][desp..desp + tam] == s[x + desp..x + desp + tam]
  {
    var trozo, parte := s[x..x + largo], s[x + desp..x + desp + tam];
    forall k | 0 <= k < tam
      ensures trozo[desp + k] == parte[k]
    {
    }
    assert trozo[desp..desp + tam] == parte;
  }

  /** Converting a byte to a rune and that to text encodes it in UTF-8. */
  function Runa(b: byte): seq<byte>
  {
    if b < 128 then [b] else [192 + b / 64, 128 + b % 64]
  }

  function Texto(s: seq<byte>): seq<byte>
  {
    if s == [] then [] else Texto(s[..|s| - 1]) + Runa(s[|s| - 1])
  }

  lemma {:induction false} TextoLargo(s: seq<byte>)
    ensures |Texto(s)| >= |s|
    ensures |Texto(s)| == |s| ==> forall i :: 0 <= i < |s| ==> s[i] < 128
  {
    if s != [] { TextoLargo(s[..|s| - 1]); }
  }

  lemma {:induction false} TextoAscii(s: seq<byte>)
    requires forall i :: 0 <= i < |s| ==> s[i] < 128
    ensures Texto(s) == s
  {
    if s != [] { TextoAscii(s[..|s| - 1]); }
  }

  /** `leer` returns the bytes it read exactly when all of them are below 128. */
  lemma TextoFiel(s: seq<byte>)
    ensures Texto(s) == s <==> forall i :: 0 <= i < |s| ==> s[i] < 128
  {
    TextoLargo(s);
    if forall i :: 0 <= i < |s| ==> s[i] < 128 { TextoAscii(s); }
  }

  /** Reading UTF-8 back, for code points below 256: one byte below 128, or two, whose low two and
      six bits make the byte. */
  function Descifrado(t: seq<byte>): seq<byte>
  {
    if t == [] then []
    else if t[0] < 128 then [t[0]] + Descifrado(t[1..])
    else if |t| >= 2 && 194 <= t[0] <= 195 && 128 <= t[1] < 192 then
      [((t[0] as int - 192) * 64 + (t[1] as int - 128)) as byte] + Descifrado(t[2..])
    else []
  }

  lemma {:induction false} TextoDesdeElPrincipio(x: byte, s: seq<byte>)
    ensures Texto([x] + s) == Runa(x) + Texto(s)
  {
    if s == [] {
      TextoAlFinal([], x);
      assert [] + [x] == [x] + s;
    } else {
      var t, y := s[..|s| - 1], s[|s| - 1];
      assert s == t + [y] && [x] + s == ([x] + t) + [y];
      TextoDesdeElPrincipio(x, t);
      TextoAlFinal([x] + t, y);
      TextoAlFinal(t, y);
    }
  }

  lemma TextoAlFinal(s: seq<byte>, x: byte)
    ensures Texto(s + [x]) == Texto(s) + Runa(x)
  {
    assert (s + [x])[..|s|] == s;
  }

  lemma RunaDescifrada(x: byte, t: seq<byte>)
    ensures Descifrado(Runa(x) + t) == [x] + Descifrado(t)
  {
    var r := Runa(x) + t;
    assert if x < 128 then r[1..] == t else r[2..] == t;
  }

  /** Nothing is lost by going through runes: every string of bytes is read back as it was. */
  lemma {:induction false} TextoDescifrado(s: seq<byte>)
    ensures Descifrado(Texto(s)) == s
  {
    if s != [] {
      TextoDescifrado(s[1..]);
      TextoDesdeElPrincipio(s[0], s[1..]);
      assert s == [s[0]] + s[1..];
      RunaDescifrada(s[0], Texto(s[1..]));
    }
  }
}
