/** What the planners choose and create, read off the states around a step. */
module Despachos {
  import opened Memoria
  import opened Kernel
  import opened SistemaConjunto
  import K = KernelPasos
  import KI = KernelInvariante

  /** The head of a permutation in order of estimate is a least element. */
  lemma CabezaMenor(cfg: ConfigK, ps: map<nat, Pcb>, q: seq<nat>, orden: seq<nat>, p: nat)
    requires K.OrdenDespacho(cfg, ps, q, orden) && orden != [] && p in q && p in ps && cfg.sjf
    ensures orden[0] in ps && ps[orden[0]].estimado <= ps[p].estimado
  {
    assert p in multiset(q);
    assert p in multiset(orden);
  }

  lemma MenorDeListos(cfg: ConfigK, k: Kernel, orden: seq<nat>, p: nat)
    requires Particionada(k.colas, k.procesos) && cfg.sjf && orden != []
    requires K.OrdenDespacho(cfg, k.procesos, k.colas.listos, orden)
    requires p in k.procesos && k.procesos[p].estado == READY
    ensures orden[0] in k.procesos && k.procesos[orden[0]].estimado <= k.procesos[p].estimado
  {
    assert ColaBien(k.colas.De(READY), k.procesos, READY);
    CabezaMenor(cfg, k.procesos, k.colas.listos, orden, p);
  }

  /** A dispatch takes a READY process to EXECUTE, and no other process changes: under SJF one of least
      estimate among all that are READY, under FIFO the first that became so. */
  lemma DespachoElige(c: Config, cfg: ConfigK, s: Sistema, orden: seq<nat>, s': Sistema)
    requires SisInv(c, s) && Paso(c, cfg, s, EvDespachar(orden), s')
    ensures var pid := orden[0];
            && pid in s.k.procesos && s.k.procesos[pid].estado == READY
            && s'.k.procesos == s.k.procesos[pid := s.k.procesos[pid].(estado := EXECUTE)]
            && (cfg.sjf ==> forall p :: p in s.k.procesos && s.k.procesos[p].estado == READY ==>
                              s.k.procesos[pid].estimado <= s.k.procesos[p].estimado)
            && (!cfg.sjf ==> s.k.colas.listos != [] && pid == s.k.colas.listos[0])
  {
    OrdenEsPermutacion(cfg, s.k.procesos, s.k.colas.listos, orden);
    KI.DespacharBien(s.k, orden);
    if cfg.sjf {
      forall p | p in s.k.procesos && s.k.procesos[p].estado == READY
        ensures s.k.procesos[orden[0]].estimado <= s.k.procesos[p].estimado
      {
        MenorDeListos(cfg, s.k, orden, p);
      }
    }
  }

  /** ... and it goes to the first free CPU, which there always is. */
  lemma DespachoOcupa(c: Config, cfg: ConfigK, s: Sistema, orden: seq<nat>, s': Sistema)
    requires SisInv(c, s) && Paso(c, cfg, s, EvDespachar(orden), s')
    ensures exists i :: 0 <= i < |s.k.cpus| && s.k.cpus[i].libre && (forall j :: 0 <= j < i ==> !s.k.cpus[j].libre)
              && s'.k.cpus == s.k.cpus[i := CpuK(s.k.cpus[i].nombre, false, orden[0])]
  {
    KI.HayConQueDespachar(s.k);
    CpuDelDespacho(s.k, orden);
  }

  lemma CpuDelDespacho(k: Kernel, orden: seq<nat>)
    requires orden != [] && PrimeraLibre(k.cpus, 0) < |k.cpus|
    ensures var i := PrimeraLibre(k.cpus, 0);
            && k.cpus[i].libre && (forall j :: 0 <= j < i ==> !k.cpus[j].libre)
            && K.Despachar(k, orden).cpus == k.cpus[i := CpuK(k.cpus[i].nombre, false, orden[0])]
  {
  }

  /** A created process is NEW, of the size asked for and with the initial estimate, under a pid that
      nobody has had; every other record stays. It waits in NEW: last under FIFO admission. */
  lemma CrearRegistra(c: Config, cfg: ConfigK, s: Sistema, tam: nat, orden: seq<nat>, s': Sistema)
    requires SisInv(c, s) && Paso(c, cfg, s, EvCrear(tam, orden), s')
    ensures exists pid ::
              && pid !in s.k.procesos && pid !in s.k.finalizados
              && s'.k.procesos == s.k.procesos[pid := Pcb(NEW, tam, cfg.estimadoInicial)]
              && pid in s'.k.colas.nuevos && (!cfg.pmcp ==> s'.k.colas.nuevos == s.k.colas.nuevos + [pid])
  {
    var pid := s.k.proximoPid;
    var ps := s.k.procesos[pid := Pcb(NEW, tam, cfg.estimadoInicial)];
    KI.UnaSolaCola(s.k, pid);
    OrdenEsPermutacion(cfg, ps, s.k.colas.nuevos + [pid], orden);
    assert pid in multiset(s.k.colas.nuevos + [pid]);
    assert pid in multiset(orden);
    assert s'.k.procesos == ps;
  }
}
