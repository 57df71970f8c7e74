/** Sorting by a "less" test, as the planners use it: any order that respects the test. */
module Ordenamiento {

  /** Nothing later is less than anything earlier. */
  predicate Ordenada<T>(s: seq<T>, menor: (T, T) -> bool)
  {
    forall i, j :: 0 <= i < j < |s| ==> !menor(s[j], s[i])
  }

  /** A test under which sorting makes sense: asymmetric, its negation transitive. */
  ghost predicate OrdenDebil<T(!new)>(menor: (T, T) -> bool)
  {
    && (forall a, b :: menor(a, b) ==> !menor(b, a))
    && (forall a, b, c :: !menor(b, a) && !menor(c, b) ==> !menor(c, a))
  }

  lemma InsertadoOrdenado<T(!new)>(s: seq<T>, j: nat, x: T, menor: (T, T) -> bool)
    requires Ordenada(s, menor) && OrdenDebil(menor) && j <= |s|
    requires j > 0 ==> !menor(x, s[j - 1])
    requires forall k :: j <= k < |s| ==> menor(x, s[k])
    ensures Ordenada(s[..j] + [x] + s[j..], menor)
    ensures multiset(s[..j] + [x] + s[j..]) == multiset(s) + multiset{x}
  {
    var r := s[..j] + [x] + s[j..];
    forall a, b | 0 <= a < b < |r|
      ensures !menor(r[b], r[a])
    {
      if b == j && a < j - 1 {
        assert !menor(s[j - 1], s[a]);
      }
    }
    assert s == s[..j] + s[j..];
  }

  method Ordenar<T(!new)>(s: seq<T>, menor: (T, T) -> bool) returns (r: seq<T>)
    requires OrdenDebil(menor)
    ensures multiset(r) == multiset(s) && Ordenada(r, menor)
  {
    r := [];
    for i := 0 to |s|
      invariant multiset(r) == multiset(s[..i]) && Ordenada(r, menor)
    {
      var x, j := s[i], |r|;
      while j > 0 && menor(x, r[j - 1])
        invariant 0 <= j <= |r|
        invariant forall k :: j <= k < |r| ==> menor(x, r[k])
      {
        j := j - 1;
      }
      InsertadoOrdenado(r, j, x, menor);
      r := r[..j] + [x] + r[j..];
      assert s[..i + 1] == s[..i] + [x];
    }
    assert s[..|s|] == s;
  }
}
