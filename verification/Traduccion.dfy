/** Address translation in the CPU: page number, offset and one table index per level. */
module Traduccion {
  import opened Aritmetica
  import opened TablaPaginas

  /** One entry per level, its power of the table size multiplied out by the inner loop. */
  method ExtraerEntradasYDesplazamiento(direccionLogica: nat, tamanioPagina: nat, cantEntradasTabla: nat, niveles: nat)
    returns (entradas: seq<nat>, desplazamiento: nat, nroPagina: nat)
    requires tamanioPagina >= 1 && cantEntradasTabla >= 1
    ensures nroPagina * tamanioPagina + desplazamiento == direccionLogica && desplazamiento < tamanioPagina
    ensures entradas == Digitos(nroPagina, cantEntradasTabla, niveles)
  {
    nroPagina := direccionLogica / tamanioPagina;
    entradas := seq(niveles, _ => 0);
    ghost var meta := Digitos(nroPagina, cantEntradasTabla, niveles);
    for x := 1 to niveles + 1
      invariant |entradas| == niveles
      invariant forall k :: 0 <= k < x - 1 ==> entradas[k] == meta[k]
    {
      var exp := 1;
      for i := 0 to niveles - x
        invariant exp == Potencia(cantEntradasTabla, i)
      {
        exp := exp * cantEntradasTabla;
      }
      PotenciaPositiva(cantEntradasTabla, niveles - x);
      entradas := entradas[x - 1 := nroPagina / exp % cantEntradasTabla];
    }
    desplazamiento := direccionLogica % tamanioPagina;
    DivMod(direccionLogica, tamanioPagina);
  }

  /** The number that a list of base-e digits spells, most significant first. */
  function Valor(d: seq<nat>, e: nat): nat
  {
    if d == [] then 0 else d[0] * Potencia(e, |d| - 1) + Valor(d[1..], e)
  }

  /** Nothing is lost below e^niveles: the digits spell the page number back. */
  lemma {:induction false} DigitosRecomponen(p: nat, e: nat, niveles: nat)
    requires e >= 1
    ensures Potencia(e, niveles) >= 1 && Valor(Digitos(p, e, niveles), e) == p % Potencia(e, niveles)
  {
    PotenciaPositiva(e, niveles);
    var d := Digitos(p, e, niveles);
    if niveles == 1 {
      DigitosRecomponen(p, e, 0);
      assert Potencia(e, 0) == 1 && Potencia(e, 1) == e;
      assert d == [p % e] && d[1..] == [];
    } else if niveles > 1 {
      DigitosRecomponen(p, e, niveles - 1);
      DigitosCola(p, e, niveles);
      RestoCompuesto(p, e, Potencia(e, niveles - 1));
    }
  }
}
