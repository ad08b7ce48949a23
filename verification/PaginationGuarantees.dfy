/** Which requests the walk of Pagination makes. */
module PaginationGuarantees {
  import opened Options
  import opened Pagination

  /** Only the first page can be asked for again, and once: it is not among the URLs the
      walk remembers. */
  lemma OnlyTheFirstPageRepeats(src: Source, s: Servidor, pedidos: seq<Url>, i: nat, j: nat)
    requires Caminho(src, s, pedidos) && i < j < |pedidos| && pedidos[i] == pedidos[j]
    ensures i == 0
    ensures forall k :: 1 <= k < |pedidos| && k != j ==> pedidos[k] != pedidos[0]
  {
    assert Inedito(pedidos, j);
    forall k | 1 <= k < |pedidos| && k != j ensures pedidos[k] != pedidos[j] {
      assert Inedito(pedidos, k);
    }
  }

  /** A fetched page leads back to the first URL, with a request left to make. */
  ghost predicate VoltaAoInicio(src: Source, s: Servidor, pedidos: seq<Url>, j: nat) {
    && j < |pedidos| && j + 1 < MaxPages(src) && Boa(s(j, pedidos[j]))
    && NextPageURL(src, s(j, pedidos[j])) == Some(pedidos[0])
  }

  /** The exact condition: in a walk that was neither stopped nor broken off, the first
      page is read again exactly when one of its pages leads back to the first URL. */
  lemma FirstPageRepeatsIff(src: Source, s: Servidor, quer: nat -> bool,
                            pedidos: seq<Url>, emitidos: seq<string>, fim: Fim)
    requires Caminho(src, s, pedidos) && Acabou(src, s, quer, pedidos, emitidos, fim)
    requires fim == Completo || fim == Limite || fim == Repetiu
    ensures (exists k :: 1 <= k < |pedidos| && pedidos[k] == pedidos[0]) <==> exists j: nat :: VoltaAoInicio(src, s, pedidos, j)
  {
    if k :| 1 <= k < |pedidos| && pedidos[k] == pedidos[0] {
      assert Segue(src, s, pedidos, k);
      assert VoltaAoInicio(src, s, pedidos, k - 1);
    }
    if j: nat :| VoltaAoInicio(src, s, pedidos, j) {
      if j + 1 < |pedidos| { assert Segue(src, s, pedidos, j + 1); }
    }
  }

  /** It does happen: a page that links to itself is read twice. */
  lemma FirstPageMayRepeat(src: Source, rows: seq<string>)
    requires src.followLinks && CheckPagination(src) && MaxPages(src) >= 3
    ensures exists s, pedidos :: Caminho(src, s, pedidos) && pedidos == [src.url, src.url] &&
              Acabou(src, s, (k: nat) => true, pedidos, rows + rows, Repetiu)
  {
    var s: Servidor := (k: nat, u: Url) => Pagina(rows, false, Some(src.url), "", u);
    var pedidos := [src.url, src.url];
    assert Ate(s, pedidos, 0) == [];
    assert Ate(s, pedidos, 1) == [] + rows == rows;
    assert Linhas(s, pedidos) == rows + rows;
    assert Segue(src, s, pedidos, 1) && Inedito(pedidos, 0) && Inedito(pedidos, 1);
    assert NextPageURL(src, s(1, pedidos[1])) == Some(pedidos[1]);
    assert Caminho(src, s, pedidos);
    assert Acabou(src, s, (k: nat) => true, pedidos, rows + rows, Repetiu);
  }

  // ---- the walk is determined --------------------------------------------

  lemma {:induction false} SamePath(src: Source, s: Servidor, a: seq<Url>, b: seq<Url>)
    requires Caminho(src, s, a) && Caminho(src, s, b) && |a| <= |b|
    ensures a <= b
  {
    forall k: nat | k < |a| ensures a[k] == b[k] { SameAt(src, s, a, b, k); }
  }

  lemma {:induction false} SameAt(src: Source, s: Servidor, a: seq<Url>, b: seq<Url>, k: nat)
    requires Caminho(src, s, a) && Caminho(src, s, b) && k < |a| && k < |b|
    ensures a[k] == b[k]
  {
    if k > 0 {
      SameAt(src, s, a, b, k - 1);
      assert Segue(src, s, a, k) && Segue(src, s, b, k);
    }
  }

  /** The contract of Fetch leaves no choice: for a consumer that wants every row there is
      one list of requests, one list of rows and one ending. */
  lemma WalkIsDetermined(src: Source, s: Servidor, quer: nat -> bool,
                         a: seq<Url>, x: seq<string>, f: Fim, b: seq<Url>, y: seq<string>, g: Fim)
    requires Caminho(src, s, a) && Acabou(src, s, quer, a, x, f) && f != Parado
    requires Caminho(src, s, b) && Acabou(src, s, quer, b, y, g) && g != Parado
    ensures a == b && x == y && f == g
  {
    if |a| <= |b| { Determined(src, s, quer, a, x, f, b, y, g); }
    else { Determined(src, s, quer, b, y, g, a, x, f); }
  }

  lemma Determined(src: Source, s: Servidor, quer: nat -> bool,
                   a: seq<Url>, x: seq<string>, f: Fim, b: seq<Url>, y: seq<string>, g: Fim)
    requires Caminho(src, s, a) && Acabou(src, s, quer, a, x, f) && f != Parado
    requires Caminho(src, s, b) && Acabou(src, s, quer, b, y, g) && g != Parado
    requires |a| <= |b|
    ensures a == b && x == y && f == g
  {
    SamePath(src, s, a, b);
    var n := |a|;
    assert n < |b| ==> Segue(src, s, b, n) && Inedito(b, n);
    NotRepeated(a, b);
    assert n == |b| ==> a == b;
  }

  lemma NotRepeated(a: seq<Url>, b: seq<Url>)
    requires a <= b && (|a| < |b| ==> Inedito(b, |a|))
    ensures |a| < |b| ==> forall k :: 1 <= k < |a| ==> a[k] != b[|a|]
  {
    assert forall k :: 1 <= k < |a| ==> a[k] == b[k];
  }
}
