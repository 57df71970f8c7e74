/** Freeing a process's frames leaf by leaf, and what that amounts to for a resident process. */
module Barridos {
  import opened Secuencias
  import opened TablaPaginas
  import opened Memoria

  datatype Barrido = Barrido(marcos: seq<Pagina>, ocupados: seq<bool>, paginas: seq<(nat, Pagina)>)

  /** One leaf: a frame that exists and is marked is copied out, zeroed and released. */
  function LiberarUna(c: Config, b: Barrido, h: (nat, nat)): (r: Barrido)
    requires |b.marcos| == |b.ocupados|
    ensures |r.marcos| == |r.ocupados| == |b.marcos|
  {
    if h.1 < |b.ocupados| && b.ocupados[h.1] then
      Barrido(b.marcos[h.1 := Cero(c)], b.ocupados[h.1 := false], b.paginas + [(h.0, b.marcos[h.1])])
    else b
  }

  function LiberarHojas(c: Config, b: Barrido, hs: seq<(nat, nat)>): (r: Barrido)
    requires |b.marcos| == |b.ocupados|
    ensures |r.marcos| == |r.ocupados| == |b.marcos|
    decreases hs
  {
    if hs == [] then b else LiberarHojas(c, LiberarUna(c, b, hs[0]), hs[1..])
  }

  lemma {:induction false} LiberarConcat(c: Config, b: Barrido, x: seq<(nat, nat)>, y: seq<(nat, nat)>)
    requires |b.marcos| == |b.ocupados|
    ensures LiberarHojas(c, b, x + y) == LiberarHojas(c, LiberarHojas(c, b, x), y)
    decreases x
  {
    if x == [] {
      assert x + y == y;
    } else {
      LiberarConcat(c, LiberarUna(c, b, x[0]), x[1..], y);
      assert (x + y)[1..] == x[1..] + y;
    }
  }

  /** Numbered pages, as the source passes them around. */
  function Numeradas(pags: seq<Pagina>): seq<(nat, Pagina)>
  {
    seq(|pags|, i requires 0 <= i < |pags| => (i, pags[i]))
  }

  /** For distinct marked frames the sweep empties exactly them and yields the pages in order. */
  lemma {:induction false} BarridoCompleto(c: Config, b: Barrido, fs: seq<nat>, k: nat)
    requires |b.marcos| == |b.ocupados| && k <= |fs| && SinRepetidos(fs)
    requires forall i :: 0 <= i < |fs| ==> fs[i] < |b.marcos| && b.ocupados[fs[i]]
    ensures LiberarHojas(c, b, Tramo(0, k, fs))
         == Barrido(Vaciar(c, b.marcos, fs[..k]), Marcar(b.ocupados, fs[..k], false),
                    b.paginas + Numeradas(Contenidos(b.marcos, fs[..k])))
  {
    if k == 0 {
      assert Vaciar(c, b.marcos, []) == b.marcos && Marcar(b.ocupados, [], false) == b.ocupados;
      assert b.paginas + Numeradas([]) == b.paginas;
    } else {
      BarridoCompleto(c, b, fs, k - 1);
      var ant := LiberarHojas(c, b, Tramo(0, k - 1, fs));
      assert Tramo(0, k, fs) == Tramo(0, k - 1, fs) + [(k - 1, fs[k - 1])];
      LiberarConcat(c, b, Tramo(0, k - 1, fs), [(k - 1, fs[k - 1])]);
      assert fs[..k] == fs[..k - 1] + [fs[k - 1]];
      assert ant.ocupados[fs[k - 1]] && ant.marcos[fs[k - 1]] == b.marcos[fs[k - 1]];
      assert LiberarHojas(c, ant, [(k - 1, fs[k - 1])]) == LiberarUna(c, ant, (k - 1, fs[k - 1]));
      BarridoPaso(c, b, fs, k);
    }
  }

  lemma BarridoPaso(c: Config, b: Barrido, fs: seq<nat>, k: nat)
    requires |b.marcos| == |b.ocupados| && 1 <= k <= |fs|
    requires forall i :: 0 <= i < |fs| ==> fs[i] < |b.marcos|
    ensures Vaciar(c, b.marcos, fs[..k - 1])[fs[k - 1] := Cero(c)] == Vaciar(c, b.marcos, fs[..k])
    ensures Marcar(b.ocupados, fs[..k - 1], false)[fs[k - 1] := false] == Marcar(b.ocupados, fs[..k], false)
    ensures b.paginas + Numeradas(Contenidos(b.marcos, fs[..k - 1])) + [(k - 1, b.marcos[fs[k - 1]])]
         == b.paginas + Numeradas(Contenidos(b.marcos, fs[..k]))
  {
    assert fs[..k] == fs[..k - 1] + [fs[k - 1]];
  }

  /** Leaves whose frames are unmarked or do not exist are left alone, and yield no page. */
  lemma {:induction false} BarridoSinMarcar(c: Config, b: Barrido, hs: seq<(nat, nat)>)
    requires |b.marcos| == |b.ocupados|
    requires forall i :: 0 <= i < |hs| ==> hs[i].1 >= |b.ocupados| || !b.ocupados[hs[i].1]
    ensures LiberarHojas(c, b, hs) == b
  {
    if hs != [] { BarridoSinMarcar(c, b, hs[1..]); }
  }
}
