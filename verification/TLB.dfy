/** The TLB as values: lookup, loading, FIFO and LRU replacement; hits never lie, and under LRU
    the TLB holds exactly the most recently used pages. */
module TLB {
  import opened Secuencias

  datatype EntradaTlb = EntradaTlb(pagina: nat, marco: nat, pid: nat, timestamp: nat)
  datatype AlgoritmoTlb = FIFO | LRU | OtroTlb

  /** `reloj` is the last instant read from the strictly increasing clock. */
  datatype Tlb = Tlb(entries: seq<EntradaTlb>, indice: map<nat, nat>, capacidad: nat, algoritmo: AlgoritmoTlb,
                     fifo: nat, reloj: nat)

  function Vacia(capacidad: nat, algoritmo: AlgoritmoTlb): Tlb
  {
    Tlb([], map[], capacidad, algoritmo, 0, 0)
  }

  predicate IndiceEnRango(t: Tlb)
  {
    && (forall pg :: pg in t.indice ==> t.indice[pg] < |t.entries| && t.entries[t.indice[pg]].pagina == pg)
    && |t.entries| <= t.capacidad && t.fifo < t.capacidad
  }

  function Hay(t: Tlb, pagina: nat, pid: nat): bool
    requires IndiceEnRango(t)
  {
    pagina in t.indice && t.entries[t.indice[pagina]].pid == pid
  }

  /** A new instant stored in the slot of `pagina`. */
  function Tocar(t: Tlb, pagina: nat): Tlb
    requires IndiceEnRango(t) && pagina in t.indice
  {
    var i := t.indice[pagina];
    t.(entries := t.entries[i := t.entries[i].(timestamp := t.reloj + 1)], reloj := t.reloj + 1)
  }

  /** The first slot with the smallest timestamp among the first k. */
  function MasViejo(es: seq<EntradaTlb>, k: nat): (r: nat)
    requires 1 <= k <= |es|
    ensures r < k
  {
    if k == 1 then 0
    else
      var m := MasViejo(es, k - 1);
      if es[k - 1].timestamp < es[m].timestamp then k - 1 else m
  }

  lemma {:induction false} MasViejoEsMinimo(es: seq<EntradaTlb>, k: nat)
    requires 1 <= k <= |es|
    ensures forall j :: 0 <= j < k ==> es[MasViejo(es, k)].timestamp <= es[j].timestamp
    ensures forall j :: 0 <= j < MasViejo(es, k) ==> es[MasViejo(es, k)].timestamp < es[j].timestamp
  {
    if k > 1 { MasViejoEsMinimo(es, k - 1); }
  }

  /** ReemplazarEnTLB on a full TLB; an unknown algorithm changes nothing. */
  function Reemplazar(t: Tlb, nueva: EntradaTlb): Tlb
    requires IndiceEnRango(t) && |t.entries| == t.capacidad
  {
    if t.algoritmo == OtroTlb then t
    else
      var v := if t.algoritmo == FIFO then t.fifo else MasViejo(t.entries, |t.entries|);
      t.(entries := t.entries[v := nueva],
         indice := (t.indice - {t.entries[v].pagina})[nueva.pagina := v],
         fifo := if t.algoritmo == FIFO then (t.fifo + 1) % t.capacidad else t.fifo)
  }

  /** CargarTLB: append while there is room, else replace. */
  function Cargar(t: Tlb, pagina: nat, marco: nat, pid: nat): Tlb
    requires IndiceEnRango(t)
  {
    var nueva := EntradaTlb(pagina, marco, pid, t.reloj + 1);
    var t1 := t.(reloj := t.reloj + 1);
    if |t.entries| < t.capacidad then
      t1.(entries := t.entries + [nueva], indice := t.indice[pagina := |t.entries|])
    else Reemplazar(t1, nueva)
  }

  /** One translation: the answer, and the TLB afterwards. `marco` is what the page table says. */
  function Acceder(t: Tlb, pagina: nat, pid: nat, marco: nat): (Tlb, nat)
    requires IndiceEnRango(t)
  {
    if Hay(t, pagina, pid) then
      var t1 := if t.algoritmo == LRU then Tocar(t, pagina) else t;
      (Tocar(t1, pagina), t.entries[t.indice[pagina]].marco)
    else (Cargar(t, pagina, marco, pid), marco)
  }

  // ----- hits never lie -----

  /** Every slot, reachable or orphaned, holds what the page tables say. */
  ghost predicate Sana(t: Tlb, tablas: (nat, nat) -> nat)
  {
    && IndiceEnRango(t)
    && forall i :: 0 <= i < |t.entries| ==> t.entries[i].marco == tablas(t.entries[i].pid, t.entries[i].pagina)
  }

  /** Several processes may share page numbers: the answer is always the page table's. */
  lemma AccesoTransparente(t: Tlb, tablas: (nat, nat) -> nat, pagina: nat, pid: nat)
    requires Sana(t, tablas)
    ensures var r := Acceder(t, pagina, pid, tablas(pid, pagina));
            r.1 == tablas(pid, pagina) && Sana(r.0, tablas) && r.0.capacidad == t.capacidad
            && r.0.algoritmo == t.algoritmo
  {
  }

  datatype Pedido = Pedido(pid: nat, pagina: nat)

  ghost function Servir(t: Tlb, tablas: (nat, nat) -> nat, ps: seq<Pedido>): (r: (Tlb, seq<nat>))
    requires Sana(t, tablas)
    ensures Sana(r.0, tablas)
    decreases |ps|
  {
    if ps == [] then (t, [])
    else
      var k := |ps| - 1;
      var a := Servir(t, tablas, ps[..k]);
      AccesoTransparente(a.0, tablas, ps[k].pagina, ps[k].pid);
      var b := Acceder(a.0, ps[k].pagina, ps[k].pid, tablas(ps[k].pid, ps[k].pagina));
      (b.0, a.1 + [b.1])
  }

  /** Over any interleaving of translations, the TLB answers as the page tables would. */
  lemma {:induction false} TlbTransparente(t: Tlb, tablas: (nat, nat) -> nat, ps: seq<Pedido>)
    requires Sana(t, tablas)
    ensures |Servir(t, tablas, ps).1| == |ps|
    ensures forall i :: 0 <= i < |ps| ==> Servir(t, tablas, ps).1[i] == tablas(ps[i].pid, ps[i].pagina)
    decreases |ps|
  {
    if ps != [] {
      var k := |ps| - 1;
      TlbTransparente(t, tablas, ps[..k]);
      ServirUnoMas(t, tablas, ps);
      UnaRespuestaMas(tablas, ps, Servir(t, tablas, ps[..k]).1);
    }
  }

  lemma UnaRespuestaMas(tablas: (nat, nat) -> nat, ps: seq<Pedido>, antes: seq<nat>)
    requires ps != [] && |antes| == |ps| - 1
    requires forall i :: 0 <= i < |antes| ==> antes[i] == tablas(ps[..|ps| - 1][i].pid, ps[..|ps| - 1][i].pagina)
    ensures var k := |ps| - 1;
            var rs := antes + [tablas(ps[k].pid, ps[k].pagina)];
            forall i :: 0 <= i < |ps| ==> rs[i] == tablas(ps[i].pid, ps[i].pagina)
  {
  }

  lemma ServirUnoMas(t: Tlb, tablas: (nat, nat) -> nat, ps: seq<Pedido>)
    requires Sana(t, tablas) && ps != []
    ensures var k := |ps| - 1;
            Servir(t, tablas, ps).1 == Servir(t, tablas, ps[..k]).1 + [tablas(ps[k].pid, ps[k].pagina)]
  {
    var k := |ps| - 1;
    AccesoTransparente(Servir(t, tablas, ps[..k]).0, tablas, ps[k].pagina, ps[k].pid);
  }

  // ----- LRU keeps the most recently used pages -----

  /** Distinct pages, most recently used first. */
  function Recientes(s: seq<nat>): seq<nat>
  {
    if s == [] then [] else [s[|s| - 1]] + Sin(Recientes(s[..|s| - 1]), s[|s| - 1])
  }

  function UltimoUso(s: seq<nat>, x: nat): int
  {
    if s == [] then -1 else if s[|s| - 1] == x then |s| - 1 else UltimoUso(s[..|s| - 1], x)
  }

  lemma {:induction false} RecientesDistintas(s: seq<nat>)
    ensures SinRepetidos(Recientes(s))
    ensures forall x :: x in Recientes(s) <==> x in s
  {
    if s != [] {
      var t, x := s[..|s| - 1], s[|s| - 1];
      RecientesDistintas(t);
      SinCaracterizado(Recientes(t), x);
      assert s == t + [x];
    }
  }

  lemma SaltoEn(s: seq<nat>, k: nat, a: nat)
    requires k < |s| && a < |s| - 1
    ensures (s[..k] + s[k + 1..])[a] == s[if a < k then a else a + 1]
  {
  }

  /** Where two elements that survive a removal were before it. */
  lemma {:induction false} SinProviene(s: seq<nat>, x: nat, a: nat, b: nat) returns (a': nat, b': nat)
    requires SinRepetidos(s) && a < b < |Sin(s, x)|
    ensures a' < b' < |s| && s[a'] == Sin(s, x)[a] && s[b'] == Sin(s, x)[b]
  {
    if x in s {
      var k :| 0 <= k < |s| && s[k] == x;
      SinEn(s, x, k);
      a', b' := if a < k then a else a + 1, if b < k then b else b + 1;
      SaltoEn(s, k, a);
      SaltoEn(s, k, b);
    } else {
      SinCaracterizado(s, x);
      a', b' := a, b;
    }
  }

  /** The list is in order of last use. */
  lemma {:induction false} RecientesEnOrden(s: seq<nat>, i: nat, j: nat)
    requires i < j < |Recientes(s)|
    ensures UltimoUso(s, Recientes(s)[i]) > UltimoUso(s, Recientes(s)[j])
  {
    var t, x := s[..|s| - 1], s[|s| - 1];
    RecientesDistintas(t);
    var q := ColaDeRecientes(s);
    UsoAnterior(s, q[j - 1]);
    if i > 0 {
      UsoAnterior(s, q[i - 1]);
      var a, b := SinProviene(Recientes(t), x, i - 1, j - 1);
      RecientesEnOrden(t, a, b);
    }
  }

  lemma ColaDeRecientes(s: seq<nat>) returns (q: seq<nat>)
    requires s != []
    ensures q == Sin(Recientes(s[..|s| - 1]), s[|s| - 1]) && Recientes(s) == [s[|s| - 1]] + q
    ensures forall i :: 0 <= i < |q| ==> q[i] != s[|s| - 1]
  {
    RecientesDistintas(s[..|s| - 1]);
    q := Sin(Recientes(s[..|s| - 1]), s[|s| - 1]);
    SinCaracterizado(Recientes(s[..|s| - 1]), s[|s| - 1]);
  }

  lemma UsoAnterior(s: seq<nat>, y: nat)
    requires s != [] && y != s[|s| - 1]
    ensures UltimoUso(s, y) == UltimoUso(s[..|s| - 1], y) < UltimoUso(s, s[|s| - 1])
  {
    UltimoUsoAcotado(s[..|s| - 1], y);
  }

  lemma {:induction false} UltimoUsoAcotado(s: seq<nat>, x: nat)
    ensures UltimoUso(s, x) < |s|
  {
    if s != [] { UltimoUsoAcotado(s[..|s| - 1], x); }
  }

  function Menor(a: nat, b: nat): nat
  {
    if a < b then a else b
  }

  /** An LRU TLB used by one process: one slot for each page of `q`, and nothing else. */
  ghost predicate Ocupada(t: Tlb, pid: nat, q: seq<nat>)
  {
    && IndiceEnRango(t) && t.algoritmo == LRU && |t.entries| == |q| && SinRepetidos(q)
    && (forall pg :: pg in t.indice <==> pg in q)
    && (forall i :: 0 <= i < |q| ==> t.entries[i].pagina in t.indice && t.indice[t.entries[i].pagina] == i)
    && (forall i :: 0 <= i < |q| ==> t.entries[i].pid == pid && t.entries[i].timestamp <= t.reloj)
  }

  /** When the slot of each page was last used. */
  function Marcas(t: Tlb): map<nat, nat>
    requires IndiceEnRango(t)
  {
    map pg | pg in t.indice :: t.entries[t.indice[pg]].timestamp
  }

  ghost predicate Decrece(m: map<nat, nat>, q: seq<nat>)
  {
    && (forall k :: 0 <= k < |q| ==> q[k] in m)
    && (forall k, l :: 0 <= k < l < |q| ==> m[q[k]] > m[q[l]])
  }

  /** ... and the timestamps decrease along `q`, the most recent page first. */
  ghost predicate Ordenada(t: Tlb, pid: nat, q: seq<nat>)
  {
    Ocupada(t, pid, q) && Decrece(Marcas(t), q)
  }

  lemma DecreceAgregar(m: map<nat, nat>, q: seq<nat>, x: nat, nuevo: nat)
    requires Decrece(m, q) && x !in q && forall k :: 0 <= k < |q| ==> m[q[k]] < nuevo
    ensures Decrece(m[x := nuevo], [x] + q)
  {
    var r, m' := [x] + q, m[x := nuevo];
    forall k, l | 0 <= k < l < |r|
      ensures r[k] in m' && r[l] in m' && m'[r[k]] > m'[r[l]]
    {
      assert r[l] == q[l - 1] && r[l] in q;
      if k > 0 { assert r[k] == q[k - 1] && r[k] in q; }
    }
  }

  lemma DecreceSin(m: map<nat, nat>, q: seq<nat>, x: nat)
    requires Decrece(m, q) && SinRepetidos(q)
    ensures Decrece(m, Sin(q, x))
  {
    SinCaracterizado(q, x);
    var r := Sin(q, x);
    forall k | 0 <= k < |r|
      ensures r[k] in m
    {
      assert r[k] in q;
    }
    forall k, l | 0 <= k < l < |r|
      ensures m[r[k]] > m[r[l]]
    {
      var a, b := SinProviene(q, x, k, l);
    }
  }

  lemma TocarMarca(t: Tlb, pid: nat, q: seq<nat>, pagina: nat)
    requires Ocupada(t, pid, q) && pagina in q
    ensures Ocupada(Tocar(t, pagina), pid, q)
    ensures Marcas(Tocar(t, pagina)) == Marcas(t)[pagina := t.reloj + 1]
    ensures forall pg :: pg in q ==> pg in Marcas(t) && Marcas(t)[pg] <= t.reloj
  {
  }

  lemma OcupadaReordenada(t: Tlb, pid: nat, q: seq<nat>, r: seq<nat>)
    requires Ocupada(t, pid, q) && |r| == |q| && SinRepetidos(r) && forall x :: x in r <==> x in q
    ensures Ocupada(t, pid, r)
  {
  }

  lemma AlFrenteMismas(q: seq<nat>, pagina: nat)
    requires SinRepetidos(q) && pagina in q
    ensures var r := [pagina] + Sin(q, pagina);
            |r| == |q| && SinRepetidos(r) && forall x :: x in r <==> x in q
  {
    SinCaracterizado(q, pagina);
  }

  lemma TocarOrdena(t: Tlb, pid: nat, q: seq<nat>, pagina: nat)
    requires Ordenada(t, pid, q) && pagina in q
    ensures Ordenada(Tocar(t, pagina), pid, [pagina] + Sin(q, pagina))
  {
    TocarMarca(t, pid, q, pagina);
    AlFrenteMismas(q, pagina);
    OcupadaReordenada(Tocar(t, pagina), pid, q, [pagina] + Sin(q, pagina));
    SinCaracterizado(q, pagina);
    DecreceSin(Marcas(t), q, pagina);
    DecreceAgregar(Marcas(t), Sin(q, pagina), pagina, t.reloj + 1);
  }

  lemma AgregarMarca(t: Tlb, pid: nat, q: seq<nat>, pagina: nat, marco: nat)
    requires Ocupada(t, pid, q) && pagina !in q && |q| < t.capacidad
    ensures Ocupada(Cargar(t, pagina, marco, pid), pid, [pagina] + q)
    ensures Marcas(Cargar(t, pagina, marco, pid)) == Marcas(t)[pagina := t.reloj + 1]
    ensures forall pg :: pg in q ==> pg in Marcas(t) && Marcas(t)[pg] <= t.reloj
  {
    assert pagina !in t.indice;
  }

  /** The victim is the least recently used page. */
  lemma VictimaEsUltima(t: Tlb, pid: nat, q: seq<nat>)
    requires Ordenada(t, pid, q) && q != []
    ensures q[|q| - 1] in t.indice && t.indice[q[|q| - 1]] == MasViejo(t.entries, |t.entries|)
  {
    MasViejoEsMinimo(t.entries, |t.entries|);
    var v := MasViejo(t.entries, |t.entries|);
    assert t.entries[v].pagina in q;
    var k :| 0 <= k < |q| && q[k] == t.entries[v].pagina;
    assert Marcas(t)[q[k]] == t.entries[v].timestamp <= Marcas(t)[q[|q| - 1]];
    assert k == |q| - 1;
  }

  lemma ReemplazarOcupada(t: Tlb, pid: nat, s: seq<nat>, q: seq<nat>, ultima: nat, pagina: nat, marco: nat)
    requires Ocupada(t, pid, s) && |s| == |q| + 1 == t.capacidad && SinRepetidos([pagina] + q)
    requires ultima !in q && pagina !in s && forall pg :: pg in s <==> pg in q || pg == ultima
    requires ultima in t.indice && t.indice[ultima] == MasViejo(t.entries, |t.entries|)
    ensures Ocupada(Cargar(t, pagina, marco, pid), pid, [pagina] + q)
  {
    var v, t' := t.indice[ultima], Cargar(t, pagina, marco, pid);
    assert t'.entries == t.entries[v := EntradaTlb(pagina, marco, pid, t.reloj + 1)];
    assert t'.indice == (t.indice - {ultima})[pagina := v];
    assert forall pg :: pg in [pagina] + q <==> pg == pagina || pg in q;
  }

  lemma ReemplazarMarca(t: Tlb, pid: nat, s: seq<nat>, ultima: nat, pagina: nat, marco: nat)
    requires Ocupada(t, pid, s) && |s| == t.capacidad && pagina !in s && ultima in s
    requires ultima in t.indice && t.indice[ultima] == MasViejo(t.entries, |t.entries|)
    ensures IndiceEnRango(Cargar(t, pagina, marco, pid))
    ensures Marcas(Cargar(t, pagina, marco, pid)) == (Marcas(t) - {ultima})[pagina := t.reloj + 1]
    ensures forall pg :: pg in s ==> pg in Marcas(t) && Marcas(t)[pg] <= t.reloj
  {
    var v, t' := t.indice[ultima], Cargar(t, pagina, marco, pid);
    assert t'.entries == t.entries[v := EntradaTlb(pagina, marco, pid, t.reloj + 1)];
    assert t'.indice == (t.indice - {ultima})[pagina := v];
  }

  lemma DecrecePrefijo(m: map<nat, nat>, q: seq<nat>, ultima: nat)
    requires Decrece(m, q + [ultima]) && ultima !in q
    ensures Decrece(m - {ultima}, q)
  {
    var s := q + [ultima];
    forall k | 0 <= k < |q|
      ensures q[k] in m - {ultima}
    {
      assert s[k] == q[k] && q[k] in q;
    }
    forall k, l | 0 <= k < l < |q|
      ensures m[q[k]] > m[q[l]]
    {
      assert s[k] == q[k] && s[l] == q[l];
    }
  }

  lemma UltimaAparte(q: seq<nat>, ultima: nat)
    requires SinRepetidos(q + [ultima])
    ensures ultima !in q && SinRepetidos(q)
    ensures forall pg :: pg in q + [ultima] <==> pg in q || pg == ultima
  {
    var s := q + [ultima];
    forall i, j | 0 <= i < j < |q|
      ensures q[i] != q[j]
    {
      assert s[i] != s[j];
    }
    forall i | 0 <= i < |q|
      ensures q[i] != ultima
    {
      assert s[i] != s[|q|];
    }
  }

  lemma PrimeraAparte(q: seq<nat>, pagina: nat)
    requires SinRepetidos(q) && pagina !in q
    ensures SinRepetidos([pagina] + q)
    ensures forall pg :: pg in [pagina] + q <==> pg in q || pg == pagina
  {
  }

  lemma ReemplazarOrdena(t: Tlb, pid: nat, q: seq<nat>, pagina: nat, marco: nat)
    requires Ordenada(t, pid, q) && pagina !in q && |q| == t.capacidad
    ensures q != [] && Ordenada(Cargar(t, pagina, marco, pid), pid, [pagina] + q[..|q| - 1])
  {
    VictimaEsUltima(t, pid, q);
    var q', ultima := q[..|q| - 1], q[|q| - 1];
    assert q == q' + [ultima];
    ReemplazarEnCola(t, pid, q', ultima, pagina, marco);
    ReemplazarDecrece(t, pid, q', ultima, pagina, marco);
  }

  lemma ReemplazarEnCola(t: Tlb, pid: nat, q: seq<nat>, ultima: nat, pagina: nat, marco: nat)
    requires Ocupada(t, pid, q + [ultima]) && |q| + 1 == t.capacidad && pagina !in q + [ultima]
    requires ultima in t.indice && t.indice[ultima] == MasViejo(t.entries, |t.entries|)
    ensures Ocupada(Cargar(t, pagina, marco, pid), pid, [pagina] + q)
  {
    UltimaAparte(q, ultima);
    PrimeraAparte(q, pagina);
    ReemplazarOcupada(t, pid, q + [ultima], q, ultima, pagina, marco);
  }

  lemma ReemplazarDecrece(t: Tlb, pid: nat, q: seq<nat>, ultima: nat, pagina: nat, marco: nat)
    requires Ocupada(t, pid, q + [ultima]) && |q| + 1 == t.capacidad && pagina !in q + [ultima]
    requires ultima in t.indice && t.indice[ultima] == MasViejo(t.entries, |t.entries|)
    requires Decrece(Marcas(t), q + [ultima])
    ensures IndiceEnRango(Cargar(t, pagina, marco, pid)) && Decrece(Marcas(Cargar(t, pagina, marco, pid)), [pagina] + q)
  {
    UltimaAparte(q, ultima);
    ReemplazarMarca(t, pid, q + [ultima], ultima, pagina, marco);
    DecrecePrefijo(Marcas(t), q, ultima);
    DecreceAgregar(Marcas(t) - {ultima}, q, pagina, t.reloj + 1);
  }

  /** One access moves the page to the front and drops the last page if there is no room. */
  function TrasAcceso(q: seq<nat>, pagina: nat, capacidad: nat): (r: seq<nat>)
  {
    if pagina in q then [pagina] + Sin(q, pagina)
    else if |q| < capacidad || q == [] then [pagina] + q
    else [pagina] + q[..|q| - 1]
  }

  lemma AccesoOrdena(t: Tlb, pid: nat, q: seq<nat>, pagina: nat, marco: nat)
    requires Ordenada(t, pid, q)
    ensures Ordenada(Acceder(t, pagina, pid, marco).0, pid, TrasAcceso(q, pagina, t.capacidad))
  {
    if pagina in q {
      TocarOrdena(t, pid, q, pagina);
      var r := [pagina] + Sin(q, pagina);
      TocarOrdena(Tocar(t, pagina), pid, r, pagina);
      assert [pagina] + Sin(r, pagina) == r;
    } else if |q| < t.capacidad {
      AgregarMarca(t, pid, q, pagina, marco);
      DecreceAgregar(Marcas(t), q, pagina, t.reloj + 1);
    } else {
      ReemplazarOrdena(t, pid, q, pagina, marco);
    }
  }

  lemma {:induction false} SinPrefijo(s: seq<nat>, x: nat, m: nat)
    requires SinRepetidos(s) && m <= |s|
    ensures x in s[..m] ==> m >= 1 && m - 1 <= |Sin(s, x)| && Sin(s, x)[..m - 1] == Sin(s[..m], x)
    ensures x !in s[..m] && m >= 1 ==> m - 1 <= |Sin(s, x)| && Sin(s, x)[..m - 1] == s[..m][..m - 1]
  {
    if x in s {
      var k :| 0 <= k < |s| && s[k] == x;
      SinEn(s, x, k);
      if k < m {
        assert s[..m][k] == x;
        SinEn(s[..m], x, k);
        assert s[..m][..k] == s[..k] && s[..m][k + 1..] == s[k + 1..m];
      } else {
        assert x !in s[..m];
        assert m >= 1 ==> s[..m][..m - 1] == s[..m - 1];
      }
    } else {
      SinCaracterizado(s, x);
      assert x !in s[..m];
      assert m >= 1 ==> s[..m][..m - 1] == s[..m - 1];
    }
  }

  /** Keeping the first pages commutes with an access. */
  lemma PrefijoTrasAcceso(rec: seq<nat>, pagina: nat, capacidad: nat)
    requires SinRepetidos(rec) && capacidad >= 1
    ensures var nuevo := [pagina] + Sin(rec, pagina);
            TrasAcceso(rec[..Menor(capacidad, |rec|)], pagina, capacidad) == nuevo[..Menor(capacidad, |nuevo|)]
  {
    var m := Menor(capacidad, |rec|);
    SinPrefijo(rec, pagina, m);
    SinCaracterizado(rec, pagina);
    SinCaracterizado(rec[..m], pagina);
    if pagina in rec && pagina !in rec[..m] {
      assert m < |rec|;
    }
    assert pagina in rec[..m] ==> pagina in rec;
    if m == |rec| { assert rec[..m] == rec; }
  }

  /** The TLB after one process has accessed the pages of `s`. */
  ghost function Usar(algoritmo: AlgoritmoTlb, capacidad: nat, pid: nat, marcos: nat -> nat, s: seq<nat>): Tlb
    requires capacidad >= 1
    ensures IndiceEnRango(Usar(algoritmo, capacidad, pid, marcos, s))
  {
    if s == [] then Vacia(capacidad, algoritmo)
    else
      var k := |s| - 1;
      Acceder(Usar(algoritmo, capacidad, pid, marcos, s[..k]), s[k], pid, marcos(s[k])).0
  }

  lemma AccesoOrdenaPrefijo(t: Tlb, pid: nat, rec: seq<nat>, pagina: nat, marco: nat)
    requires SinRepetidos(rec) && Ordenada(t, pid, rec[..Menor(t.capacidad, |rec|)])
    ensures var nuevo := [pagina] + Sin(rec, pagina);
            Ordenada(Acceder(t, pagina, pid, marco).0, pid, nuevo[..Menor(t.capacidad, |nuevo|)])
  {
    AccesoOrdena(t, pid, rec[..Menor(t.capacidad, |rec|)], pagina, marco);
    PrefijoTrasAcceso(rec, pagina, t.capacidad);
  }

  lemma {:induction false} UsarOrdena(capacidad: nat, pid: nat, marcos: nat -> nat, s: seq<nat>)
    requires capacidad >= 1
    ensures Usar(LRU, capacidad, pid, marcos, s).capacidad == capacidad
    ensures Ordenada(Usar(LRU, capacidad, pid, marcos, s), pid, Recientes(s)[..Menor(capacidad, |Recientes(s)|)])
  {
    if s != [] {
      var k := |s| - 1;
      UsarOrdena(capacidad, pid, marcos, s[..k]);
      RecientesDistintas(s[..k]);
      AccesoOrdenaPrefijo(Usar(LRU, capacidad, pid, marcos, s[..k]), pid, Recientes(s[..k]), s[k], marcos(s[k]));
    }
  }

  /** After any sequence of accesses the LRU TLB holds exactly the most recently used pages, as
      many as fit. */
  lemma LruContieneLasRecientes(capacidad: nat, pid: nat, marcos: nat -> nat, s: seq<nat>)
    requires capacidad >= 1
    ensures var rec := Recientes(s);
            Usar(LRU, capacidad, pid, marcos, s).indice.Keys == Conjunto(rec[..Menor(capacidad, |rec|)])
  {
    UsarOrdena(capacidad, pid, marcos, s);
  }

  /** What a smaller LRU TLB holds, a larger one holds too. */
  lemma LruInclusion(capacidad: nat, mayor: nat, pid: nat, marcos: nat -> nat, s: seq<nat>)
    requires 1 <= capacidad <= mayor
    ensures Usar(LRU, capacidad, pid, marcos, s).indice.Keys <= Usar(LRU, mayor, pid, marcos, s).indice.Keys
  {
    LruContieneLasRecientes(capacidad, pid, marcos, s);
    LruContieneLasRecientes(mayor, pid, marcos, s);
    var rec := Recientes(s);
    var a, b := rec[..Menor(capacidad, |rec|)], rec[..Menor(mayor, |rec|)];
    assert a == b[..|a|];
  }

  // ----- the TLB updated in place -----

  class TablaTlb {
    var entries: seq<EntradaTlb>
    var paginaIndex: map<nat, nat>
    const capacidad: nat
    const algoritmo: AlgoritmoTlb
    var fifoIndex: nat
    var reloj: nat

    function Modelo(): Tlb
      reads this
    {
      Tlb(entries, paginaIndex, capacidad, algoritmo, fifoIndex, reloj)
    }

    /** NuevaTLB. */
    constructor (capacidad: nat, algoritmo: AlgoritmoTlb)
      requires capacidad >= 1
      ensures Modelo() == Vacia(capacidad, algoritmo) && IndiceEnRango(Modelo())
    {
      entries, paginaIndex := [], map[];
      this.capacidad, this.algoritmo := capacidad, algoritmo;
      fifoIndex, reloj := 0, 0;
    }

    /** The clock, read at a later instant every time. */
    method Ahora() returns (t: nat)
      modifies this`reloj
      ensures t == reloj == old(reloj) + 1
    {
      reloj := reloj + 1;
      t := reloj;
    }

    method BuscarMarcoEnTLB(paginaVirtual: nat, pid: nat) returns (marco: int, encontrado: bool)
      requires IndiceEnRango(Modelo())
      modifies this`entries, this`reloj
      ensures encontrado == Hay(old(Modelo()), paginaVirtual, pid)
      ensures marco == if encontrado then old(entries[paginaIndex[paginaVirtual]].marco) else -1
      ensures Modelo() == if encontrado && algoritmo == LRU then Tocar(old(Modelo()), paginaVirtual) else old(Modelo())
    {
      if paginaVirtual in paginaIndex {
        var index := paginaIndex[paginaVirtual];
        if entries[index].pid != pid {
          return -1, false;
        }
        marco := entries[index].marco;
        if algoritmo == LRU {
          var t := Ahora();
          entries := entries[index := entries[index].(timestamp := t)];
        }
        return marco, true;
      }
      return -1, false;
    }

    method ReemplazarEnTLB(nuevaEntrada: EntradaTlb) returns (ok: bool)
      requires IndiceEnRango(Modelo())
      modifies this`entries, this`paginaIndex, this`fifoIndex
      ensures ok <==> |old(entries)| == capacidad && algoritmo != OtroTlb
      ensures Modelo() == if ok then Reemplazar(old(Modelo()), nuevaEntrada) else old(Modelo())
    {
      if |entries| < capacidad || algoritmo == OtroTlb {
        return false;
      }
      var indiceVictima := 0;
      if algoritmo == FIFO {
        indiceVictima := fifoIndex;
      } else {
        var foundVictim, minTimestamp := false, 0;
        for i := 0 to |entries|
          invariant foundVictim <==> i > 0
          invariant foundVictim ==>
                      indiceVictima == MasViejo(entries, i) && minTimestamp == entries[indiceVictima].timestamp
        {
          if !foundVictim || entries[i].timestamp < minTimestamp {
            minTimestamp, indiceVictima, foundVictim := entries[i].timestamp, i, true;
          }
        }
      }
      paginaIndex := paginaIndex - {entries[indiceVictima].pagina};
      entries := entries[indiceVictima := nuevaEntrada];
      paginaIndex := paginaIndex[nuevaEntrada.pagina := indiceVictima];
      if algoritmo == FIFO {
        fifoIndex := (fifoIndex + 1) % capacidad;
      }
      return true;
    }

    method CargarTLB(pV: nat, marco: nat, pid: nat)
      requires IndiceEnRango(Modelo())
      modifies this
      ensures Modelo() == Cargar(old(Modelo()), pV, marco, pid)
    {
      var t := Ahora();
      var nuevaEntrada := EntradaTlb(pV, marco, pid, t);
      if |entries| < capacidad {
        entries := entries + [nuevaEntrada];
        paginaIndex := paginaIndex[pV := |entries| - 1];
      } else {
        var ok := ReemplazarEnTLB(nuevaEntrada);
      }
    }

    /** A hit is stamped a second time by the caller of the lookup. */
    method ActualizarTimestamp(paginaVirtual: nat)
      requires IndiceEnRango(Modelo()) && paginaVirtual in paginaIndex
      modifies this`entries, this`reloj
      ensures Modelo() == Tocar(old(Modelo()), paginaVirtual)
    {
      var t := Ahora();
      var index := paginaIndex[paginaVirtual];
      entries := entries[index := entries[index].(timestamp := t)];
    }
  }
}
