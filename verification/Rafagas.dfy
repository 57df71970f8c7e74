/** Burst estimates over whole histories. */
module Rafagas {

  /** One update after a burst: it weighs alpha, what was estimated before weighs the rest. */
  function Actualizada(alpha: real, rafaga: real, estimado: real): real
  {
    Mezcla(alpha, 1.0 - alpha, rafaga, estimado)
  }

  function Mezcla(a: real, q: real, rafaga: real, estimado: real): real
  {
    rafaga * a + estimado * q
  }

  /** The estimate after a whole history of bursts. */
  function Estimado(alpha: real, inicial: real, rafagas: seq<real>): real
  {
    if rafagas == [] then inicial
    else Actualizada(alpha, rafagas[|rafagas| - 1], Estimado(alpha, inicial, rafagas[..|rafagas| - 1]))
  }

  function Pot(x: real, n: nat): real
  {
    if n == 0 then 1.0 else x * Pot(x, n - 1)
  }

  /** The weight of burst i out of n: the older, the smaller. */
  function PesoRafaga(a: real, q: real, n: nat, i: nat): real
    requires i < n
  {
    a * Pot(q, n - 1 - i)
  }

  /** The weighted sum of the first k bursts of a history of length n. */
  function SumaPesada(a: real, q: real, rafagas: seq<real>, n: nat, k: nat): real
    requires k <= |rafagas| && k <= n
  {
    if k == 0 then 0.0 else SumaPesada(a, q, rafagas, n, k - 1) + PesoRafaga(a, q, n, k - 1) * rafagas[k - 1]
  }

  lemma PesoEscala(a: real, q: real, n: nat, i: nat)
    requires i < n
    ensures PesoRafaga(a, q, n + 1, i) == q * PesoRafaga(a, q, n, i)
  {
    var p := Pot(q, n - 1 - i);
    assert a * (q * p) == q * (a * p);
  }

  lemma Distribuye(q: real, s: real, peso: real, r: real)
    ensures q * s + (q * peso) * r == q * (s + peso * r)
  {
  }

  /** One more burst scales every older weight by q. */
  lemma {:induction false} SumaEscala(a: real, q: real, rafagas: seq<real>, n: nat, k: nat)
    requires k <= n < |rafagas|
    ensures SumaPesada(a, q, rafagas, n + 1, k) == q * SumaPesada(a, q, rafagas[..n], n, k)
  {
    if k > 0 {
      SumaEscala(a, q, rafagas, n, k - 1);
      PesoEscala(a, q, n, k - 1);
      Distribuye(q, SumaPesada(a, q, rafagas[..n], n, k - 1), PesoRafaga(a, q, n, k - 1), rafagas[k - 1]);
    }
  }

  lemma Junta(a: real, q: real, rafaga: real, s: real, p: real, inicial: real)
    ensures Mezcla(a, q, rafaga, s + p * inicial) == (q * s + a * rafaga) + (q * p) * inicial
  {
    assert (p * inicial) * q == (q * p) * inicial;
  }

  lemma SumaConLaUltima(a: real, q: real, rafagas: seq<real>, n: nat)
    requires |rafagas| == n + 1
    ensures SumaPesada(a, q, rafagas, n + 1, n + 1) == q * SumaPesada(a, q, rafagas[..n], n, n) + a * rafagas[n]
  {
    SumaEscala(a, q, rafagas, n, n);
    assert PesoRafaga(a, q, n + 1, n) == a * 1.0;
  }

  /** Closed form: the estimate is the weighted sum of all past bursts and the initial estimate. */
  lemma {:induction false} FormaCerrada(alpha: real, q: real, inicial: real, rafagas: seq<real>, n: nat)
    requires n == |rafagas| && q == 1.0 - alpha
    ensures Estimado(alpha, inicial, rafagas) == SumaPesada(alpha, q, rafagas, n, n) + Pot(q, n) * inicial
  {
    if n > 0 {
      var m := n - 1;
      FormaCerrada(alpha, q, inicial, rafagas[..m], m);
      SumaConLaUltima(alpha, q, rafagas, m);
      Junta(alpha, q, rafagas[m], SumaPesada(alpha, q, rafagas[..m], m, m), Pot(q, m), inicial);
    }
  }

  /** The weights are an average: they add up to one. */
  lemma {:induction false} PesosSumanUno(alpha: real, n: nat, unos: seq<real>)
    requires |unos| == n && forall i :: 0 <= i < n ==> unos[i] == 1.0
    ensures SumaPesada(alpha, 1.0 - alpha, unos, n, n) + Pot(1.0 - alpha, n) == 1.0
  {
    FormaCerrada(alpha, 1.0 - alpha, 1.0, unos, n);
    SiempreIgual(alpha, unos, 1.0);
  }

  lemma {:induction false} SiempreIgual(alpha: real, rafagas: seq<real>, x: real)
    requires forall i :: 0 <= i < |rafagas| ==> rafagas[i] == x
    ensures Estimado(alpha, x, rafagas) == x
  {
    if rafagas != [] {
      SiempreIgual(alpha, rafagas[..|rafagas| - 1], x);
      assert x * alpha + x * (1.0 - alpha) == x;
    }
  }

  lemma PromedioEntre(alpha: real, x: real, y: real, menor: real, mayor: real)
    requires 0.0 <= alpha <= 1.0 && menor <= x <= mayor && menor <= y <= mayor
    ensures menor <= Actualizada(alpha, x, y) <= mayor
  {
    var b := 1.0 - alpha;
    ProductoPositivo(x - menor, alpha);
    ProductoPositivo(y - menor, b);
    ProductoPositivo(mayor - x, alpha);
    ProductoPositivo(mayor - y, b);
    assert menor * alpha + menor * b == menor && mayor * alpha + mayor * b == mayor;
  }

  lemma ProductoPositivo(u: real, v: real)
    requires u >= 0.0 && v >= 0.0
    ensures u * v >= 0.0
  {
  }

  /** The estimate never leaves the range of what has been seen. */
  lemma {:induction false} EstimadoAcotado(alpha: real, inicial: real, rafagas: seq<real>, menor: real, mayor: real)
    requires 0.0 <= alpha <= 1.0 && menor <= inicial <= mayor
    requires forall i :: 0 <= i < |rafagas| ==> menor <= rafagas[i] <= mayor
    ensures menor <= Estimado(alpha, inicial, rafagas) <= mayor
  {
    if rafagas != [] {
      var n := |rafagas| - 1;
      EstimadoAcotado(alpha, inicial, rafagas[..n], menor, mayor);
      PromedioEntre(alpha, rafagas[n], Estimado(alpha, inicial, rafagas[..n]), menor, mayor);
    }
  }
}
