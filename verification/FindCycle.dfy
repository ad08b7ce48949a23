/** Workflow.encontrarCiclo (internal/domain/workflow): the depth-first search by which
    Validate refuses cyclic workflows and names the cycle. */
module FindCycle {
  import opened Graph
  import opened Order

  datatype Cor = EmUso | Pronto

  /** What the search knows about one node: in use is on the path, finished is in the
      finishing order. */
  ghost predicate NoOk(w: Workflow, saida: map<string, seq<string>>, estado: map<string, Cor>,
                       caminho: seq<string>, ordem: seq<string>, n: string) {
    && (n in estado ==> n in w.nodes)
    && (n in caminho <==> n in estado && estado[n] == EmUso)
    && (n in ordem <==> n in estado && estado[n] == Pronto)
    && (n in w.nodes ==> Alvos(saida, n) == Saidas(w.edges, n))
  }

  ghost predicate BuscaOk(w: Workflow, saida: map<string, seq<string>>, estado: map<string, Cor>,
                          caminho: seq<string>, ordem: seq<string>) {
    && ValidGraph(w)
    && (forall n {:trigger NoOk(w, saida, estado, caminho, ordem, n)} :: NoOk(w, saida, estado, caminho, ordem, n))
    && FinishOrder(w, ordem)
    && (caminho != [] ==> IsPath(w, caminho))
  }

  class Busca {
    const w: Workflow
    const saida: map<string, seq<string>>
    var estado: map<string, Cor>   // absent: not visited yet
    var caminho: seq<string>
    var achado: seq<string>
    ghost var ordem: seq<string>   // nodes in the order their visit ended

    constructor (w: Workflow, saida: map<string, seq<string>>)
      requires ValidGraph(w) && forall n :: n in w.nodes ==> Alvos(saida, n) == Saidas(w.edges, n)
      ensures Valid() && this.w == w && caminho == [] && ordem == []
    {
      this.w, this.saida := w, saida;
      estado, caminho, achado, ordem := map[], [], [], [];
    }

    ghost predicate Valid()
      reads this
    {
      BuscaOk(w, saida, estado, caminho, ordem)
    }

    /** Nodes still to be visited. */
    ghost function Novos(): set<string>
      reads this
    {
      Elems(w.nodes) - estado.Keys
    }

    method Visitar(id: string) returns (achou: bool)
      requires Valid() && id in w.nodes && id !in estado
      requires caminho != [] ==> Liga(w, caminho[|caminho| - 1], id)
      modifies this
      ensures achou ==> IsCycle(w, achado)
      ensures !achou ==> Valid() && caminho == old(caminho) && id in ordem
      ensures !achou ==> old(ordem) <= ordem && Novos() < old(Novos())
      decreases Novos(), 1
    {
      ghost var inicio := caminho;
      EnterKeeps(w, saida, estado, caminho, ordem, id);
      estado := estado[id := EmUso];
      caminho := caminho + [id];
      assert id in old(Novos()) && Novos() == old(Novos()) - {id};
      var alvos := Alvos(saida, id);
      Targets(w, saida, estado, caminho, ordem, id);
      var k := 0;
      while k < |alvos|
        invariant 0 <= k <= |alvos|
        invariant Valid() && caminho == inicio + [id] && old(ordem) <= ordem && Novos() < old(Novos())
        invariant forall j :: 0 <= j < k ==> alvos[j] in ordem
        decreases |alvos| - k
      {
        var prox := alvos[k];
        assert Liga(w, id, prox) && prox in w.nodes;
        assert NoOk(w, saida, estado, caminho, ordem, prox);
        if prox in estado && estado[prox] == EmUso {
          achado := FecharLaco(w, caminho, prox);
          return true;
        } else if prox !in estado {
          var r := Visitar(prox);
          if r { return true; }
        }
        k := k + 1;
      }
      LeaveKeeps(w, saida, estado, inicio, ordem, id);
      caminho := caminho[..|caminho| - 1];
      estado := estado[id := Pronto];
      ordem := ordem + [id];
      return false;
    }
  }

  lemma Targets(w: Workflow, saida: map<string, seq<string>>, estado: map<string, Cor>,
                caminho: seq<string>, ordem: seq<string>, id: string)
    requires BuscaOk(w, saida, estado, caminho, ordem) && id in w.nodes
    ensures forall b :: b in Alvos(saida, id) <==> Liga(w, id, b)
  {
    assert NoOk(w, saida, estado, caminho, ordem, id);
    SaidasInside(w.edges, id);
  }

  lemma EnterKeeps(w: Workflow, saida: map<string, seq<string>>, estado: map<string, Cor>,
                   caminho: seq<string>, ordem: seq<string>, id: string)
    requires BuscaOk(w, saida, estado, caminho, ordem) && id in w.nodes && id !in estado
    requires caminho != [] ==> Liga(w, caminho[|caminho| - 1], id)
    ensures BuscaOk(w, saida, estado[id := EmUso], caminho + [id], ordem)
    ensures id !in caminho
  {
    var e, c := estado[id := EmUso], caminho + [id];
    forall n ensures NoOk(w, saida, e, c, ordem, n) {
      assert NoOk(w, saida, estado, caminho, ordem, n);
      assert n in caminho + [id] <==> n in caminho || n == id;
    }
    if caminho != [] {
      PathSnoc(w, caminho, id);
    } else {
      assert caminho + [id] == [id];
    }
    assert NoOk(w, saida, estado, caminho, ordem, id);
  }

  lemma LeaveKeeps(w: Workflow, saida: map<string, seq<string>>, estado: map<string, Cor>,
                   inicio: seq<string>, ordem: seq<string>, id: string)
    requires BuscaOk(w, saida, estado, inicio + [id], ordem) && id !in inicio
    requires forall j :: 0 <= j < |Alvos(saida, id)| ==> Alvos(saida, id)[j] in ordem
    ensures (inicio + [id])[..|inicio + [id]| - 1] == inicio
    ensures BuscaOk(w, saida, estado[id := Pronto], inicio, ordem + [id])
  {
    var c, o, e := inicio + [id], ordem + [id], estado[id := Pronto];
    assert NoOk(w, saida, estado, c, ordem, id) && id in c;
    Targets(w, saida, estado, c, ordem, id);
    forall n ensures NoOk(w, saida, e, inicio, o, n) {
      assert NoOk(w, saida, estado, c, ordem, n);
      assert n in c <==> n in inicio || n == id;
      assert n in o <==> n in ordem || n == id;
    }
    FinishSnoc(w, ordem, id);
    if inicio != [] {
      PathPrefix(w, c, |inicio|);
      assert c[..|inicio|] == inicio;
    }
  }

  lemma FinishSnoc(w: Workflow, ordem: seq<string>, id: string)
    requires FinishOrder(w, ordem) && forall b :: Liga(w, id, b) ==> b in ordem
    ensures FinishOrder(w, ordem + [id])
  {
    var o := ordem + [id];
    forall k | 0 <= k < |o| ensures Before(w, o, k) {
      if k < |ordem| {
        assert Before(w, ordem, k) && o[..k] == ordem[..k];
      } else {
        assert o[..k] == ordem;
      }
    }
  }

  /** The path from where `prox` entered it, closed. */
  method FecharLaco(w: Workflow, caminho: seq<string>, prox: string) returns (c: seq<string>)
    requires ValidGraph(w) && IsPath(w, caminho) && prox in caminho && Liga(w, caminho[|caminho| - 1], prox)
    ensures IsCycle(w, c)
  {
    var i := 0;
    while caminho[i] != prox
      invariant 0 <= i < |caminho| && prox in caminho[i..]
      decreases |caminho| - i
    {
      assert caminho[i..] == [caminho[i]] + caminho[i + 1..];
      i := i + 1;
    }
    c := caminho[i..] + [prox];
    PathSuffix(w, caminho, i);
    PathSnoc(w, caminho[i..], prox);
  }

  datatype Resultado = Aciclico | Ciclo(caminho: seq<string>)

  /** Nothing is returned exactly on the acyclic graphs; what is returned is a cycle. */
  method EncontrarCiclo(w: Workflow) returns (r: Resultado)
    requires ValidGraph(w)
    ensures r.Aciclico? <==> !Cyclic(w)
    ensures r.Ciclo? ==> IsCycle(w, r.caminho)
  {
    var entrada, saida := Contar(w);
    var b := new Busca(w, saida);
    for i := 0 to |w.nodes|
      invariant b.Valid() && b.w == w && b.caminho == []
      invariant forall j :: 0 <= j < i ==> w.nodes[j] in b.ordem
    {
      assert w.nodes[i] in w.nodes;
      if w.nodes[i] !in b.estado {
        var achou := b.Visitar(w.nodes[i]);
        if achou { return Ciclo(b.achado); }
      } else {
        assert NoOk(w, b.saida, b.estado, b.caminho, b.ordem, w.nodes[i]);
      }
    }
    FinishOrderIsAcyclic(w, b.ordem);
    return Aciclico;
  }

  /** Validate's search and the sort agree on every graph. */
  method ValidarEOrdenar(w: Workflow) returns (r: Resultado, o: Ordenacao)
    requires ValidGraph(w)
    ensures r.Aciclico? <==> o.Ordenado?
    ensures r.Ciclo? ==> IsCycle(w, r.caminho)
    ensures o.Ordenado? ==> IsLevelling(w, o.niveis)
  {
    r := EncontrarCiclo(w);
    o := Niveis(w);
  }
}
