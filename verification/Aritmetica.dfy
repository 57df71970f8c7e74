/** Integer arithmetic shared by the memory, CPU and kernel models: rounding up,
    powers, and products compared with a common factor. */
module Aritmetica {

  /** The number of groups of `b` needed to hold `a` items. */
  function Techo(a: nat, b: nat): (r: nat)
    requires b >= 1
  {
    (a + b - 1) / b
  }

  lemma MulLe(a: int, b: int, c: nat)
    requires a <= b
    ensures a * c <= b * c
  {
  }

  lemma DivMod(a: nat, b: nat)
    requires b >= 1
    ensures a == a / b * b + a % b && 0 <= a % b < b
  {
  }

  /** A quotient is determined by the interval the dividend lies in. */
  lemma DivUnico(a: nat, b: nat, q: nat, r: nat)
    requires b >= 1 && a == q * b + r && r < b
    ensures a / b == q && a % b == r
  {
    DivMod(a, b);
    if a / b < q {
      MulLe(a / b + 1, q, b);
      assert false;
    } else if a / b > q {
      MulLe(q + 1, a / b, b);
      assert false;
    }
  }

  /** Group `i` is needed exactly when the first `i` groups do not hold everything. */
  lemma TechoUmbral(a: nat, b: nat, i: nat)
    requires b >= 1
    ensures i < Techo(a, b) <==> i * b < a
  {
    var q := Techo(a, b);
    DivMod(a + b - 1, b);
    if i < q {
      MulLe(i + 1, q, b);
    } else {
      MulLe(q, i, b);
    }
  }

  lemma TechoMonotono(a: nat, a': nat, b: nat)
    requires b >= 1 && a <= a'
    ensures Techo(a, b) <= Techo(a', b)
  {
    if Techo(a', b) < Techo(a, b) {
      TechoUmbral(a, b, Techo(a', b));
      TechoUmbral(a', b, Techo(a', b));
      assert false;
    }
  }

  function Potencia(b: nat, n: nat): (r: nat)
  {
    if n == 0 then 1 else b * Potencia(b, n - 1)
  }

  lemma {:induction false} PotenciaPositiva(b: nat, n: nat)
    requires b >= 1
    ensures Potencia(b, n) >= 1
  {
    if n > 0 {
      PotenciaPositiva(b, n - 1);
      MulLe(1, Potencia(b, n - 1), b);
    }
  }

  lemma {:induction false} PotenciaAlMenosCuadrado(b: nat, n: nat)
    requires b >= 1 && n >= 2
    ensures Potencia(b, n) >= b * b
  {
    if n == 2 {
      assert Potencia(b, 1) == b * Potencia(b, 0);
    } else {
      PotenciaAlMenosCuadrado(b, n - 1);
      MulLe(b * b, Potencia(b, n - 1), b);
      MulLe(1, b, b * b);
    }
  }

  lemma Reparte(b: nat, e: nat, a: nat, q: nat)
    ensures (b * e + a) * q == b * (e * q) + a * q && (a + 1) * q == a * q + q
  {
  }

  lemma RestoEnPartes(p: nat, e: nat, q: nat, b: nat, a: nat, r: nat)
    requires e >= 1 && q >= 1 && p == (b * e + a) * q + r && a < e && r < q
    ensures e * q >= 1 && p % (e * q) == a * q + r && p / (e * q) == b
  {
    Reparte(b, e, a, q);
    MulLe(a + 1, e, q);
    MulLe(1, e, q);
    DivUnico(p, e * q, b, a * q + r);
  }

  /** A remainder in two digits. */
  lemma RestoCompuesto(p: nat, e: nat, q: nat)
    requires e >= 1 && q >= 1
    ensures e * q >= 1 && p % (e * q) == p / q % e * q + p % q
  {
    DivMod(p, q);
    DivMod(p / q, e);
    RestoEnPartes(p, e, q, p / q / e, p / q % e, p % q);
  }
}
