/** internal/graph/order.go: the level-wise topological sort. */
module Order {
  import opened Sets
  import opened Graph

  datatype Ordenacao = Ordenado(niveis: seq<seq<string>>) | NaoOrdenado(vistos: nat, total: nat)

  // ---- what the two maps count -------------------------------------------

  /** Edges into `d` from nodes not yet done. */
  function Entradas(es: seq<Edge>, d: string, feitos: set<string>): nat {
    if es == [] then 0
    else
      var e := es[|es| - 1];
      Entradas(es[..|es| - 1], d, feitos) + if e.para == d && e.de !in feitos then 1 else 0
  }

  /** The targets of the edges out of `n`, in file order. */
  function Saidas(es: seq<Edge>, n: string): seq<string> {
    if es == [] then []
    else
      var e := es[|es| - 1];
      Saidas(es[..|es| - 1], n) + if e.de == n then [e.para] else []
  }

  function Conta(s: seq<string>, d: string): nat {
    if s == [] then 0 else Conta(s[..|s| - 1], d) + if s[|s| - 1] == d then 1 else 0
  }

  lemma {:induction false} EntradasZero(es: seq<Edge>, d: string, feitos: set<string>)
    ensures Entradas(es, d, feitos) == 0 <==> forall e :: e in es && e.para == d ==> e.de in feitos
  {
    if es != [] {
      var p := es[..|es| - 1];
      EntradasZero(p, d, feitos);
      assert forall e :: e in es <==> e in p || e == es[|es| - 1];
    }
  }

  lemma {:induction false} EntradasMinus(es: seq<Edge>, d: string, feitos: set<string>, n: string)
    requires n !in feitos
    ensures Entradas(es, d, feitos) == Entradas(es, d, feitos + {n}) + Conta(Saidas(es, n), d)
  {
    if es != [] {
      var p, e := es[..|es| - 1], es[|es| - 1];
      EntradasMinus(p, d, feitos, n);
      if e.de == n {
        assert (Saidas(p, n) + [e.para])[..|Saidas(p, n)|] == Saidas(p, n);
      } else {
        assert Saidas(es, n) == Saidas(p, n);
      }
    }
  }

  lemma {:induction false} SaidasInside(es: seq<Edge>, n: string)
    ensures forall d :: d in Saidas(es, n) <==> Edge(n, d) in es
  {
    if es != [] {
      var p := es[..|es| - 1];
      SaidasInside(p, n);
      assert forall e :: e in es <==> e in p || e == es[|es| - 1];
    }
  }

  lemma {:induction false} ContaPrefix(s: seq<string>, k: nat, d: string)
    requires k <= |s|
    ensures Conta(s[..k], d) <= Conta(s, d)
  {
    if k < |s| {
      ContaPrefix(s[..|s| - 1], k, d);
      assert s[..|s| - 1][..k] == s[..k];
    } else {
      assert s[..k] == s;
    }
  }

  // ---- the algorithm -----------------------------------------------------

  /** `entrada` counts the edges from nodes not in `feitos`; `saida` lists targets. */
  ghost predicate Contagem(w: Workflow, entrada: map<string, int>, saida: map<string, seq<string>>, feitos: set<string>) {
    && (forall d :: d in w.nodes ==> d in entrada && entrada[d] == Entradas(w.edges, d, feitos))
    && (forall n :: n in w.nodes ==> Alvos(saida, n) == Saidas(w.edges, n))
  }

  function Alvos(saida: map<string, seq<string>>, n: string): seq<string> {
    if n in saida then saida[n] else []
  }

  /** `s` lists, once each, the nodes outside `feitos` that wait for nobody else. */
  ghost predicate Prontos(w: Workflow, s: seq<string>, feitos: set<string>) {
    && Distinct(s)
    && forall d :: d in s <==> d in w.nodes && d !in feitos && Entradas(w.edges, d, feitos) == 0
  }

  /** Nobody done still waits for somebody. */
  ghost predicate Fechado(w: Workflow, feitos: set<string>) {
    forall d :: d in feitos && d in w.nodes ==> Entradas(w.edges, d, feitos) == 0
  }

  /** The two maps after the first `k` edges. */
  ghost predicate ContadoAte(w: Workflow, k: nat, entrada: map<string, int>, saida: map<string, seq<string>>)
    requires k <= |w.edges|
  {
    && (forall d :: d in w.nodes ==> d in entrada && entrada[d] == Entradas(w.edges[..k], d, {}))
    && (forall n :: Alvos(saida, n) == Saidas(w.edges[..k], n))
  }

  lemma CountOne(w: Workflow, k: nat, entrada: map<string, int>, saida: map<string, seq<string>>)
    requires k < |w.edges| && w.edges[k].para in w.nodes && ContadoAte(w, k, entrada, saida)
    ensures var e := w.edges[k];
      ContadoAte(w, k + 1, entrada[e.para := entrada[e.para] + 1], saida[e.de := Alvos(saida, e.de) + [e.para]])
  {
    var e := w.edges[k];
    var ate, mais := w.edges[..k], w.edges[..k + 1];
    assert mais[..k] == ate && mais[k] == e;
    var saida' := saida[e.de := Alvos(saida, e.de) + [e.para]];
    forall n ensures Alvos(saida', n) == Saidas(mais, n) {
      assert Alvos(saida, n) == Saidas(ate, n);
    }
    forall d | d in w.nodes ensures Entradas(mais, d, {}) == Entradas(ate, d, {}) + if d == e.para then 1 else 0 {
    }
  }

  method Contar(w: Workflow) returns (entrada: map<string, int>, saida: map<string, seq<string>>)
    requires ValidGraph(w)
    ensures Contagem(w, entrada, saida, {})
  {
    entrada := map n | n in Elems(w.nodes) :: 0;
    saida := map[];
    for k := 0 to |w.edges|
      invariant ContadoAte(w, k, entrada, saida)
    {
      var e := w.edges[k];
      assert e in w.edges;
      CountOne(w, k, entrada, saida);
      entrada := entrada[e.para := entrada[e.para] + 1];
      saida := saida[e.de := Alvos(saida, e.de) + [e.para]];
    }
    assert w.edges[..|w.edges|] == w.edges;
  }

  method Roots(w: Workflow, entrada: map<string, int>, ghost saida: map<string, seq<string>>) returns (atual: seq<string>)
    requires ValidGraph(w) && Contagem(w, entrada, saida, {})
    ensures Prontos(w, atual, {})
  {
    atual := [];
    for i := 0 to |w.nodes|
      invariant Distinct(atual)
      invariant forall d :: d in atual <==> d in w.nodes[..i] && Entradas(w.edges, d, {}) == 0
    {
      assert w.nodes[i] !in w.nodes[..i];
      assert w.nodes[i] in w.nodes;
      if entrada[w.nodes[i]] == 0 { atual := atual + [w.nodes[i]]; }
      assert forall d :: d in w.nodes[..i + 1] <==> d in w.nodes[..i] || d == w.nodes[i];
    }
    assert w.nodes[..|w.nodes|] == w.nodes;
  }

  /** The targets of one node of the current level: each loses one incoming edge, and
      is ready when it has lost the last. */
  method Descontar(w: Workflow, n: string, entrada0: map<string, int>, saida: map<string, seq<string>>,
                   proximo0: seq<string>, ghost feitos: set<string>, ghost nivel: set<string>)
    returns (entrada: map<string, int>, proximo: seq<string>)
    requires ValidGraph(w) && n in w.nodes && n in nivel && n !in feitos
    requires Contagem(w, entrada0, saida, feitos)
    requires forall d :: d in nivel ==> Entradas(w.edges, d, feitos) == 0
    requires Distinct(proximo0)
    requires forall d :: d in proximo0 <==> d in w.nodes && d !in feitos + nivel && Entradas(w.edges, d, feitos) == 0
    requires forall d :: d in feitos && d in w.nodes ==> Entradas(w.edges, d, feitos) == 0
    ensures Contagem(w, entrada, saida, feitos + {n})
    ensures Distinct(proximo)
    ensures forall d :: d in proximo <==> d in w.nodes && d !in feitos + nivel && Entradas(w.edges, d, feitos + {n}) == 0
  {
    entrada, proximo := entrada0, proximo0;
    var alvos := Alvos(saida, n);
    SaidasInside(w.edges, n);
    for k := 0 to |alvos|
      invariant entrada.Keys == entrada0.Keys && Distinct(proximo)
      invariant Descontado(w, alvos, k, entrada, feitos)
      invariant forall d :: d in proximo <==> d in w.nodes && d !in feitos + nivel && entrada[d] == 0
    {
      var dest := alvos[k];
      assert Edge(n, dest) in w.edges && dest in w.nodes;
      DiscountOne(w, n, alvos, k, entrada, feitos);
      entrada := entrada[dest := entrada[dest] - 1];
      if entrada[dest] == 0 { proximo := proximo + [dest]; }
    }
    forall d | d in w.nodes ensures entrada[d] == Entradas(w.edges, d, feitos + {n}) {
      EntradasMinus(w.edges, d, feitos, n);
      assert alvos[..|alvos|] == alvos;
    }
  }

  /** After the first `k` targets. */
  ghost predicate Descontado(w: Workflow, alvos: seq<string>, k: nat, entrada: map<string, int>, feitos: set<string>)
    requires k <= |alvos|
  {
    forall d :: d in w.nodes ==> d in entrada && entrada[d] == Entradas(w.edges, d, feitos) - Conta(alvos[..k], d)
  }

  lemma DiscountOne(w: Workflow, n: string, alvos: seq<string>, k: nat, entrada: map<string, int>, feitos: set<string>)
    requires k < |alvos| && alvos == Saidas(w.edges, n) && n !in feitos && alvos[k] in w.nodes
    requires Descontado(w, alvos, k, entrada, feitos)
    ensures entrada[alvos[k]] > 0 && Entradas(w.edges, alvos[k], feitos) > 0
    ensures Descontado(w, alvos, k + 1, entrada[alvos[k] := entrada[alvos[k]] - 1], feitos)
  {
    var dest := alvos[k];
    var ate, mais := alvos[..k], alvos[..k + 1];
    assert mais[..k] == ate && mais[k] == dest;
    EntradasMinus(w.edges, dest, feitos, n);
    EntradasZero(w.edges, dest, feitos + {n});
    ContaPrefix(alvos, k + 1, dest);
    forall d ensures Conta(mais, d) == Conta(ate, d) + if d == dest then 1 else 0 {}
  }

  /** One round: the nodes of the level, met in file order, discount their targets. */
  method ProximoNivel(w: Workflow, atual: seq<string>, entrada0: map<string, int>, saida: map<string, seq<string>>,
                      ghost feitos: set<string>)
    returns (entrada: map<string, int>, proximo: seq<string>)
    requires ValidGraph(w) && Contagem(w, entrada0, saida, feitos) && Prontos(w, atual, feitos) && Fechado(w, feitos)
    ensures Contagem(w, entrada, saida, feitos + Elems(atual))
    ensures Prontos(w, proximo, feitos + Elems(atual))
  {
    entrada, proximo := entrada0, [];
    ghost var nivel := Elems(atual);
    ghost var p := feitos;
    for i := 0 to |w.nodes|
      invariant p == feitos + set d | d in w.nodes[..i] && d in nivel
      invariant Contagem(w, entrada, saida, p) && Distinct(proximo)
      invariant forall d :: d in proximo <==> d in w.nodes && d !in feitos + nivel && Entradas(w.edges, d, p) == 0
    {
      var n := w.nodes[i];
      assert n in w.nodes && n !in w.nodes[..i];
      assert forall d :: d in w.nodes[..i + 1] <==> d in w.nodes[..i] || d == n;
      if n in atual {
        StayZero(w, feitos, p, nivel);
        assert forall d :: d in feitos + nivel <==> d in p + nivel;
        entrada, proximo := Descontar(w, n, entrada, saida, proximo, p, nivel);
        p := p + {n};
      }
    }
    assert w.nodes[..|w.nodes|] == w.nodes;
    assert p == feitos + nivel;
  }

  lemma StayZero(w: Workflow, feitos: set<string>, p: set<string>, nivel: set<string>)
    requires feitos <= p <= feitos + nivel
    requires forall d :: d in w.nodes && d in feitos + nivel ==> Entradas(w.edges, d, feitos) == 0
    ensures forall d :: d in w.nodes && d in feitos + nivel ==> Entradas(w.edges, d, p) == 0
  {
    forall d | d in w.nodes && d in feitos + nivel ensures Entradas(w.edges, d, p) == 0 {
      EntradasZero(w.edges, d, feitos);
      EntradasZero(w.edges, d, p);
    }
  }

  /** The levels found so far, their union, and the next one. */
  ghost predicate Estado(w: Workflow, niveis: seq<seq<string>>, feitos: set<string>, atual: seq<string>, vistos: nat) {
    && Levels(w, niveis)
    && (forall n :: n in feitos <==> InSome(niveis, n))
    && feitos <= Elems(w.nodes) && vistos == |feitos|
    && Prontos(w, atual, feitos)
    && Fechado(w, feitos)
    && (|niveis| > 0 ==> forall n :: n in atual ==> PredIn(w, Elems(niveis[|niveis| - 1]), n))
  }

  lemma NextLevel(w: Workflow, niveis: seq<seq<string>>, feitos: set<string>, atual: seq<string>, vistos: nat, proximo: seq<string>)
    requires ValidGraph(w) && Estado(w, niveis, feitos, atual, vistos) && atual != []
    requires Prontos(w, proximo, feitos + Elems(atual))
    ensures Estado(w, niveis + [atual], feitos + Elems(atual), proximo, vistos + |atual|)
    ensures vistos + |atual| <= |w.nodes|
  {
    DistinctSize(w.nodes);
    SubsetSize(feitos + Elems(atual), Elems(w.nodes));
    var novos, f := niveis + [atual], feitos + Elems(atual);
    DistinctSize(atual);
    assert feitos !! Elems(atual);
    DoneWithLevel(niveis, feitos, atual);
    StayZero(w, feitos, f, Elems(atual));
    AtualIsLevel(w, niveis, feitos, atual);
    ReadyAfterLevel(w, feitos, atual, proximo);
  }

  /** With the level `atual` the nodes done are still those on some level. */
  lemma DoneWithLevel(niveis: seq<seq<string>>, feitos: set<string>, atual: seq<string>)
    requires forall n :: n in feitos <==> InSome(niveis, n)
    ensures forall n :: n in feitos + Elems(atual) <==> InSome(niveis + [atual], n)
    ensures forall l: nat, n :: InLevel(niveis + [atual], l, n) <==> InLevel(niveis, l, n) || (l == |niveis| && n in atual)
  {
    var novos := niveis + [atual];
    forall l: nat, n ensures InLevel(novos, l, n) <==> InLevel(niveis, l, n) || (l == |niveis| && n in atual) {}
    forall n ensures n in feitos + Elems(atual) <==> InSome(novos, n) {
      if n in feitos {
        var l: nat :| InLevel(niveis, l, n);
        assert InLevel(novos, l, n);
      } else if n in atual {
        assert InLevel(novos, |niveis|, n);
      }
    }
  }

  /** A node ready only now has a predecessor in the level just done. */
  lemma ReadyAfterLevel(w: Workflow, feitos: set<string>, atual: seq<string>, proximo: seq<string>)
    requires ValidGraph(w) && Prontos(w, atual, feitos) && Prontos(w, proximo, feitos + Elems(atual))
    ensures forall n :: n in proximo ==> PredIn(w, Elems(atual), n)
  {
    forall n | n in proximo ensures PredIn(w, Elems(atual), n) {
      EntradasZero(w.edges, n, feitos);
      EntradasZero(w.edges, n, feitos + Elems(atual));
      var e :| e in w.edges && e.para == n && e.de !in feitos;
      assert Edge(e.de, n) == e && Liga(w, e.de, n) && e.de in Elems(atual);
    }
  }

  lemma AtualIsLevel(w: Workflow, niveis: seq<seq<string>>, feitos: set<string>, atual: seq<string>)
    requires Levels(w, niveis) && atual != [] && Prontos(w, atual, feitos)
    requires forall n :: n in feitos <==> InSome(niveis, n)
    requires |niveis| > 0 ==> forall n :: n in atual ==> PredIn(w, Elems(niveis[|niveis| - 1]), n)
    ensures Levels(w, niveis + [atual])
  {
    var novos := niveis + [atual];
    forall l: nat, n ensures InLevel(novos, l, n) <==> InLevel(niveis, l, n) || (l == |niveis| && n in atual) {}
    forall l: nat, m: nat, n | InLevel(novos, l, n) && InLevel(novos, m, n) ensures l == m {
      if n in atual { assert !InSome(niveis, n); }
    }
    forall l: nat, n, a | InLevel(novos, l, n) && Liga(w, a, n) ensures EarlierThan(novos, a, l) {
      if l < |niveis| {
        assert EarlierThan(niveis, a, l);
        var m: nat :| m < l && InLevel(niveis, m, a);
        assert InLevel(novos, m, a);
      } else {
        EntradasZero(w.edges, n, feitos);
        assert Edge(a, n) in w.edges && InSome(niveis, a);
        var m: nat :| InLevel(niveis, m, a);
        assert InLevel(novos, m, a);
      }
    }
    forall l: nat, n | InLevel(novos, l, n) && l > 0 ensures exists a :: Liga(w, a, n) && InLevel(novos, l - 1, a) {
      if l < |niveis| {
        var a :| Liga(w, a, n) && InLevel(niveis, l - 1, a);
        assert InLevel(novos, l - 1, a);
      } else {
        var a :| a in Elems(niveis[|niveis| - 1]) && Liga(w, a, n);
        assert InLevel(novos, l - 1, a);
      }
    }
  }

  /** When no node is ready and some are left, those left wait for one another. */
  lemma LeftoverIsCyclic(w: Workflow, niveis: seq<seq<string>>, feitos: set<string>, vistos: nat)
    requires ValidGraph(w) && Estado(w, niveis, feitos, [], vistos) && vistos != |w.nodes|
    ensures Cyclic(w) && vistos < |w.nodes|
  {
    DistinctSize(w.nodes);
    SubsetSize(feitos, Elems(w.nodes));
    var r := Elems(w.nodes) - feitos;
    forall n | n in r ensures PredIn(w, r, n) {
      EntradasZero(w.edges, n, feitos);
      assert n !in [];
      var e :| e in w.edges && e.para == n && e.de !in feitos;
      assert Edge(e.de, n) == e && Liga(w, e.de, n) && e.de in r;
    }
    StuckSetHasCycle(w, r);
  }

  lemma NothingLeftIsLevelled(w: Workflow, niveis: seq<seq<string>>, feitos: set<string>, vistos: nat)
    requires ValidGraph(w) && Estado(w, niveis, feitos, [], vistos) && vistos == |w.nodes|
    ensures IsLevelling(w, niveis) && !Cyclic(w)
    ensures forall l: nat, n :: InLevel(niveis, l, n) ==> LongestPathTo(w, n, l)
  {
    DistinctSize(w.nodes);
    SubsetSize(feitos, Elems(w.nodes));
    forall n | n in w.nodes ensures InSome(niveis, n) { assert n in feitos; }
    LevellingIsAcyclic(w, niveis);
    forall l: nat, n | InLevel(niveis, l, n) ensures LongestPathTo(w, n, l) {
      LevelIsLongestPath(w, niveis, n, l);
    }
  }

  /** The sort succeeds exactly on the acyclic graphs, and then gives every node the
      length of the longest path to it as its level. */
  method Niveis(w: Workflow) returns (r: Ordenacao)
    requires ValidGraph(w)
    ensures r.Ordenado? <==> !Cyclic(w)
    ensures r.Ordenado? ==> IsLevelling(w, r.niveis)
    ensures r.Ordenado? ==> forall l: nat, n :: InLevel(r.niveis, l, n) ==> LongestPathTo(w, n, l)
    ensures r.NaoOrdenado? ==> r.vistos < r.total == |w.nodes|
  {
    var entrada, saida := Contar(w);
    var atual := Roots(w, entrada, saida);
    var niveis: seq<seq<string>> := [];
    var vistos := 0;
    ghost var feitos: set<string> := {};
    while |atual| > 0
      invariant Contagem(w, entrada, saida, feitos)
      invariant Estado(w, niveis, feitos, atual, vistos)
      invariant vistos <= |w.nodes|
      decreases |w.nodes| - vistos
    {
      ghost var niveis0, vistos0 := niveis, vistos;
      niveis := niveis + [atual];
      vistos := vistos + |atual|;
      var proximo;
      entrada, proximo := ProximoNivel(w, atual, entrada, saida, feitos);
      NextLevel(w, niveis0, feitos, atual, vistos0, proximo);
      feitos := feitos + Elems(atual);
      atual := proximo;
    }
    assert atual == [];
    if vistos != |w.nodes| {
      LeftoverIsCyclic(w, niveis, feitos, vistos);
      return NaoOrdenado(vistos, |w.nodes|);
    }
    NothingLeftIsLevelled(w, niveis, feitos, vistos);
    return Ordenado(niveis);
  }
}
