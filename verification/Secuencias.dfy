/** Sequences as the repository's slices are used: overwriting a stretch, lists without
    repetitions, and the free positions of a bitmap. */
module Secuencias {

  datatype Opcion<+T> = Nada | Algo(valor: T)

  ghost predicate SinRepetidos<T>(s: seq<T>)
  {
    forall i, j :: 0 <= i < j < |s| ==> s[i] != s[j]
  }

  function Conjunto<T>(s: seq<T>): set<T>
  {
    set x | x in s
  }

  lemma {:induction false} CardinalSinRepetidos<T>(s: seq<T>)
    requires SinRepetidos(s)
    ensures |Conjunto(s)| == |s|
  {
    if s != [] {
      var t := s[..|s| - 1];
      CardinalSinRepetidos(t);
      assert s == t + [s[|s| - 1]];
      assert s[|s| - 1] !in Conjunto(t);
      assert Conjunto(s) == Conjunto(t) + {s[|s| - 1]};
    }
  }

  /** `s` without its first x. */
  function Sin<T(==)>(s: seq<T>, x: T): (r: seq<T>)
    ensures |r| <= |s|
  {
    if s == [] then []
    else if s[0] == x then s[1..]
    else [s[0]] + Sin(s[1..], x)
  }

  lemma {:induction false} SinCaracterizado<T>(s: seq<T>, x: T)
    requires SinRepetidos(s)
    ensures SinRepetidos(Sin(s, x)) && x !in Sin(s, x)
    ensures forall y :: y in s && y != x ==> y in Sin(s, x)
    ensures forall y :: y in Sin(s, x) ==> y in s
    ensures x in s ==> |Sin(s, x)| == |s| - 1
    ensures x !in s ==> Sin(s, x) == s
  {
    if s != [] {
      SinCaracterizado(s[1..], x);
      assert s == [s[0]] + s[1..];
      assert s[0] !in s[1..];
      if s[0] != x {
        assert s[0] !in Sin(s[1..], x);
      }
    }
  }

  /** Removing x leaves alone what comes before it, and shifts what comes after. */
  lemma {:induction false} SinEn<T>(s: seq<T>, x: T, j: nat)
    requires j < |s| && s[j] == x && x !in s[..j]
    ensures Sin(s, x) == s[..j] + s[j + 1..]
  {
    if j > 0 {
      SinEn(s[1..], x, j - 1);
      assert s[..j] == [s[0]] + s[1..][..j - 1];
      assert s[1..][j..] == s[j + 1..];
    }
  }

  lemma {:induction false} SinMultiset<T>(s: seq<T>, x: T)
    requires x in s
    ensures multiset(s) == multiset(Sin(s, x)) + multiset{x}
  {
    assert s == [s[0]] + s[1..];
    if s[0] != x {
      SinMultiset(s[1..], x);
    }
  }

  lemma AgregarAlFinal<T>(s: seq<T>, x: T)
    requires SinRepetidos(s) && x !in s
    ensures SinRepetidos(s + [x]) && forall y :: y in s + [x] <==> y in s || y == x
  {
  }

  /** `t` written over `s` from position `desde`, growing `s` if it runs past its end. */
  function Sobrescribir<T>(s: seq<T>, desde: nat, t: seq<T>): (r: seq<T>)
    requires desde <= |s|
    ensures |r| == if desde + |t| <= |s| then |s| else desde + |t|
    ensures forall i :: 0 <= i < |r| ==> r[i] == if desde <= i < desde + |t| then t[i - desde] else s[i]
  {
    s[..desde] + t + (if desde + |t| <= |s| then s[desde + |t|..] else [])
  }

  /** The entries of `o` listed in `donde` set to `v`. */
  function Marcar(o: seq<bool>, donde: seq<nat>, v: bool): (r: seq<bool>)
    ensures |r| == |o|
    ensures forall x :: 0 <= x < |o| ==> r[x] == if x in donde then v else o[x]
  {
    seq(|o|, x requires 0 <= x < |o| => if x in donde then v else o[x])
  }

  /** `que[i]` stored at `donde[i]`, in order. */
  function Poner<T>(s: seq<T>, donde: seq<nat>, que: seq<T>): (r: seq<T>)
    requires |donde| <= |que|
    requires forall i :: 0 <= i < |donde| ==> 0 <= donde[i] < |s|
    ensures |r| == |s|
  {
    if donde == [] then s
    else
      var k := |donde| - 1;
      Poner(s, donde[..k], que)[donde[k] := que[k]]
  }

  lemma {:induction false} PonerEn<T>(s: seq<T>, donde: seq<nat>, que: seq<T>)
    requires |donde| <= |que| && SinRepetidos(donde)
    requires forall i :: 0 <= i < |donde| ==> 0 <= donde[i] < |s|
    ensures forall i :: 0 <= i < |donde| ==> Poner(s, donde, que)[donde[i]] == que[i]
    ensures forall x :: 0 <= x < |s| && x !in donde ==> Poner(s, donde, que)[x] == s[x]
  {
    if donde != [] {
      PonerEn(s, donde[..|donde| - 1], que);
    }
  }

  // ----- free positions of a bitmap -----

  /** The clear positions in increasing order. */
  function Libres(o: seq<bool>): (r: seq<nat>)
    ensures |r| <= |o|
  {
    if o == [] then []
    else Libres(o[..|o| - 1]) + (if o[|o| - 1] then [] else [|o| - 1])
  }

  lemma {:induction false} LibresCaracterizado(o: seq<bool>)
    ensures forall i :: 0 <= i < |Libres(o)| ==> 0 <= Libres(o)[i] < |o| && !o[Libres(o)[i]]
    ensures forall i, j :: 0 <= i < j < |Libres(o)| ==> Libres(o)[i] < Libres(o)[j]
    ensures forall x :: 0 <= x < |o| && !o[x] ==> x in Libres(o)
  {
    if o != [] {
      var k := |o| - 1;
      LibresCaracterizado(o[..k]);
      assert forall x :: 0 <= x < k ==> o[..k][x] == o[x];
      assert !o[k] ==> Libres(o)[|Libres(o)| - 1] == k;
    }
    forall x | 0 <= x < |o| && !o[x]
      ensures x in Libres(o)
    {
      LibresTodas(o, x);
    }
  }

  lemma {:induction false} LibresTodas(o: seq<bool>, x: nat)
    requires x < |o| && !o[x]
    ensures x in Libres(o)
  {
    if x < |o| - 1 { LibresTodas(o[..|o| - 1], x); }
  }

  lemma {:induction false} LibresPrefijo(o: seq<bool>, k: nat)
    requires k <= |o|
    ensures Libres(o[..k]) <= Libres(o)
  {
    if k < |o| {
      LibresPrefijo(o[..|o| - 1], k);
      assert o[..|o| - 1][..k] == o[..k];
    } else {
      assert o[..k] == o;
    }
  }

  /** The positions desde..desde+n-1. */
  function Bloque(desde: nat, n: nat): (r: set<nat>)
    ensures forall i: nat :: i in r <==> desde <= i < desde + n
  {
    if n == 0 then {} else Bloque(desde, n - 1) + {desde + n - 1}
  }

  function Ocupadas(o: seq<bool>): set<nat>
  {
    set x: nat | x < |o| && o[x]
  }

  lemma OcupadasTrasMarcar(o: seq<bool>, s: seq<nat>)
    requires forall i :: 0 <= i < |s| ==> s[i] < |o|
    ensures Ocupadas(Marcar(o, s, true)) == Ocupadas(o) + Conjunto(s)
    ensures Ocupadas(Marcar(o, s, false)) == Ocupadas(o) - Conjunto(s)
  {
  }

  function Repetido(v: bool, n: nat): seq<bool>
  {
    seq(n, _ => v)
  }

  lemma OcupadasTrasBloque(o: seq<bool>, desde: nat, n: nat)
    requires desde <= |o|
    ensures Ocupadas(Sobrescribir(o, desde, Repetido(true, n))) == Ocupadas(o) + Bloque(desde, n)
    ensures Ocupadas(Sobrescribir(o, desde, Repetido(false, n))) == Ocupadas(o) - Bloque(desde, n)
  {
  }

  /** Every position is either free or marked. */
  lemma {:induction false} LibresYOcupadas(o: seq<bool>)
    ensures |Libres(o)| + |Ocupadas(o)| == |o|
  {
    if o != [] {
      var k := |o| - 1;
      LibresYOcupadas(o[..k]);
      assert Ocupadas(o) == Ocupadas(o[..k]) + if o[k] then {k} else {};
    }
  }

  /** Taking free positions away lowers the number of free ones by as many. */
  lemma LibresTrasMarcar(o: seq<bool>, s: seq<nat>)
    requires SinRepetidos(s) && forall i :: 0 <= i < |s| ==> 0 <= s[i] < |o| && !o[s[i]]
    ensures |Libres(Marcar(o, s, true))| == |Libres(o)| - |s|
  {
    var o' := Marcar(o, s, true);
    LibresCaracterizado(o);
    LibresCaracterizado(o');
    CardinalSinRepetidos(Libres(o));
    CardinalSinRepetidos(Libres(o'));
    CardinalSinRepetidos(s);
    assert Conjunto(Libres(o')) == Conjunto(Libres(o)) - Conjunto(s);
    assert Conjunto(s) <= Conjunto(Libres(o));
  }

  // ----- a sequence as a circle -----

  /** The elements from position `k` on, and then those before it. */
  function Girada<T>(s: seq<T>, k: nat): (r: seq<T>)
    requires k <= |s|
    ensures |r| == |s|
  {
    s[k..] + s[..k]
  }

  /** Replacing the element at the hand and moving past it drops the front and adds at the back. */
  lemma GirarAlReemplazar<T>(s: seq<T>, k: nat, x: T)
    requires k < |s|
    ensures Girada(s[k := x], if k + 1 == |s| then 0 else k + 1) == Girada(s, k)[1..] + [x]
  {
  }

  lemma GiradaTiene<T>(s: seq<T>, k: nat, i: nat)
    requires k <= |s| && i < |s|
    ensures s[i] in Girada(s, k)
  {
    var r := Girada(s, k);
    assert s[i] == if i < k then r[|s| - k + i] else r[i - k];
  }

  lemma GiradaViene<T>(s: seq<T>, k: nat, x: T) returns (i: nat)
    requires k <= |s| && x in Girada(s, k)
    ensures i < |s| && s[i] == x
  {
    var r := Girada(s, k);
    var j :| 0 <= j < |r| && r[j] == x;
    i := if j < |s| - k then k + j else j - (|s| - k);
  }
}
