/** sdk/extract/extract.go: walking the pages of an API. */
module Pagination {
  import opened Options
  import opened Decimal

  /** A URL: everything before the query, the query, and the order its pairs are written
      in. URLs are the same when all three are: the code compares their texts. */
  datatype Url = Url(base: string, query: map<string, string>, ordem: seq<string>)

  datatype Source = Source(
    url: Url,
    followLinks: bool, cursorKey: string, pageKey: string, offsetKey: string,
    pageSize: int, firstPage: int, maxPages: int)

  /** What came of asking for a page, retries included: nothing usable, or a body of rows
      (which may break off in the middle), its next link and cursor, and the URL of the
      request that was answered. */
  datatype Resposta =
    | Erro
    | Pagina(rows: seq<string>, quebra: bool, link: Option<Url>, cursor: string, pedido: Url)

  datatype Fim = Recusada | Completo | Limite | Repetiu | Parado | Falhou

  const DEFAULT_MAX_PAGES := 1000

  function Conta(b: bool): nat { if b then 1 else 0 }

  /** At most one strategy, and no option of a strategy that is not set. */
  predicate CheckPagination(src: Source) {
    && Conta(src.followLinks) + Conta(src.cursorKey != "") + Conta(src.pageKey != "") + Conta(src.offsetKey != "") <= 1
    && (src.pageSize != 0 ==> src.offsetKey != "")
    && (src.firstPage != 0 ==> src.pageKey != "")
  }

  function MaxPages(src: Source): (m: nat)
    ensures m > 0
  {
    if src.maxPages <= 0 then DEFAULT_MAX_PAGES else src.maxPages
  }

  /** q.Set and q.Encode: one value for the key, and the pairs sorted by key, which the
      query alone determines. */
  function WithQuery(u: Url, key: string, value: string): Url {
    u.(query := u.query[key := value], ordem := [])
  }

  function FirstPageURL(src: Source): Url {
    if src.pageKey == "" || src.pageKey in src.url.query then src.url
    else WithQuery(src.url, src.pageKey, Itoa(if src.firstPage == 0 then 1 else src.firstPage))
  }

  /** The number in the request's query; zero when there is none. */
  function CurrentOffset(pedido: Url, key: string): int {
    if key !in pedido.query then 0
    else match Atoi(pedido.query[key]) case Some(n) => n case None => 0
  }

  function NextPageURL(src: Source, p: Resposta): Option<Url>
    requires p.Pagina?
  {
    if src.followLinks then p.link
    else if src.cursorKey != "" then
      if p.cursor == "" then None else Some(WithQuery(src.url, src.cursorKey, p.cursor))
    else if src.pageKey != "" then
      if p.rows == [] then None
      else Some(WithQuery(src.url, src.pageKey, Itoa(CurrentOffset(p.pedido, src.pageKey) + 1)))
    else if src.offsetKey != "" then
      if p.rows == [] then None
      else
        var size := if src.pageSize <= 0 then |p.rows| else src.pageSize;
        Some(WithQuery(src.url, src.offsetKey, Itoa(CurrentOffset(p.pedido, src.offsetKey) + size)))
    else None
  }

  /** At most one strategy, and no option without its strategy. */
  lemma OneStrategy(src: Source)
    ensures CheckPagination(src) <==>
      && !(src.followLinks && src.cursorKey != "") && !(src.followLinks && src.pageKey != "")
      && !(src.followLinks && src.offsetKey != "") && !(src.cursorKey != "" && src.pageKey != "")
      && !(src.cursorKey != "" && src.offsetKey != "") && !(src.pageKey != "" && src.offsetKey != "")
      && (src.offsetKey == "" ==> src.pageSize == 0) && (src.pageKey == "" ==> src.firstPage == 0)
  {
  }

  /** The next request by each strategy: the link; the source's URL with the cursor of the
      answered page; the source's URL with the number after the answered one; none without
      a strategy. Nothing else of the source's URL changes. */
  lemma NextRequest(src: Source, p: Resposta, key: string)
    requires CheckPagination(src) && p.Pagina?
    ensures src.followLinks ==> NextPageURL(src, p) == p.link
    ensures src.cursorKey != "" ==> (NextPageURL(src, p).None? <==> p.cursor == "")
    ensures src.cursorKey != "" && p.cursor != "" ==> NextPageURL(src, p).value.query == src.url.query[src.cursorKey := p.cursor]
    ensures src.pageKey != "" || src.offsetKey != "" ==> (NextPageURL(src, p).None? <==> p.rows == [])
    ensures !src.followLinks && NextPageURL(src, p).Some? ==>
              var u := NextPageURL(src, p).value;
              && u.base == src.url.base
              && (key != src.cursorKey && key != src.pageKey && key != src.offsetKey ==>
                    (key in u.query <==> key in src.url.query) && (key in u.query ==> u.query[key] == src.url.query[key]))
    ensures !src.followLinks && src.cursorKey == "" && src.pageKey == "" && src.offsetKey == "" ==> NextPageURL(src, p).None?
  {
  }

  /** The number a page or offset strategy writes is the answered one, and what it adds. */
  lemma NextNumberWritten(src: Source, p: Resposta, n: int)
    requires CheckPagination(src) && p.Pagina? && p.rows != [] && src.pageKey + src.offsetKey != ""
    requires var key := if src.pageKey != "" then src.pageKey else src.offsetKey;
      n == if key in p.pedido.query && Atoi(p.pedido.query[key]).Some? then Atoi(p.pedido.query[key]).value else 0
    requires var d := if src.pageKey != "" then 1 else if src.pageSize <= 0 then |p.rows| else src.pageSize;
      MENOR <= n + d <= MAIOR
    ensures var key := if src.pageKey != "" then src.pageKey else src.offsetKey;
      var d := if src.pageKey != "" then 1 else if src.pageSize <= 0 then |p.rows| else src.pageSize;
      NextPageURL(src, p).Some? && key in NextPageURL(src, p).value.query &&
      Atoi(NextPageURL(src, p).value.query[key]) == Some(n + d)
  {
    ItoaRoundTrip(n + if src.pageKey != "" then 1 else if src.pageSize <= 0 then |p.rows| else src.pageSize);
  }

  /** The answer to each request may depend on how many came before it. */
  type Servidor = (nat, Url) -> Resposta

  function Rows(r: Resposta): seq<string> {
    match r case Erro => [] case Pagina(rows, _, _, _, _) => rows
  }

  /** The rows of the first `k` pages, in order. */
  function Ate(s: Servidor, pedidos: seq<Url>, k: nat): seq<string>
    requires k <= |pedidos|
  {
    if k == 0 then [] else Ate(s, pedidos, k - 1) + Rows(s(k - 1, pedidos[k - 1]))
  }

  function Linhas(s: Servidor, pedidos: seq<Url>): seq<string> {
    Ate(s, pedidos, |pedidos|)
  }

  predicate Boa(r: Resposta) {
    r.Pagina? && !r.quebra
  }

  /** Request `k` is the next page of the one before. */
  ghost predicate Segue(src: Source, s: Servidor, pedidos: seq<Url>, k: nat)
    requires 1 <= k < |pedidos|
  {
    Boa(s(k - 1, pedidos[k - 1])) && NextPageURL(src, s(k - 1, pedidos[k - 1])) == Some(pedidos[k])
  }

  /** Request `k` was not asked for before, the first one aside. */
  ghost predicate Inedito(pedidos: seq<Url>, k: nat)
    requires k < |pedidos|
  {
    forall i :: 1 <= i < k ==> pedidos[i] != pedidos[k]
  }

  /** The requests of a walk: the first URL, then each page's next one; never more than
      MaxPages, and no next URL twice. */
  ghost predicate Caminho(src: Source, s: Servidor, pedidos: seq<Url>) {
    && 1 <= |pedidos| <= MaxPages(src)
    && pedidos[0] == FirstPageURL(src)
    && (forall k {:trigger Segue(src, s, pedidos, k)} :: 1 <= k < |pedidos| ==> Segue(src, s, pedidos, k))
    && (forall k {:trigger Inedito(pedidos, k)} :: 0 <= k < |pedidos| ==> Inedito(pedidos, k))
  }

  /** How a walk may end. */
  ghost predicate Acabou(src: Source, s: Servidor, quer: nat -> bool,
                         pedidos: seq<Url>, emitidos: seq<string>, fim: Fim)
    requires |pedidos| >= 1
  {
    var ult := s(|pedidos| - 1, pedidos[|pedidos| - 1]);
    match fim
    case Recusada => false
    case Completo => Boa(ult) && emitidos == Linhas(s, pedidos) && NextPageURL(src, ult) == None
    case Limite => Boa(ult) && emitidos == Linhas(s, pedidos) && |pedidos| == MaxPages(src) &&
                   NextPageURL(src, ult).Some?
    case Repetiu => Boa(ult) && emitidos == Linhas(s, pedidos) && |pedidos| < MaxPages(src) &&
                    exists k :: 1 <= k < |pedidos| && NextPageURL(src, ult) == Some(pedidos[k])
    case Falhou => !Boa(ult) && emitidos == Linhas(s, pedidos)
    case Parado => emitidos != [] && emitidos <= Linhas(s, pedidos) && !quer(|emitidos| - 1)
  }

  function Vistos(pedidos: seq<Url>): set<Url> {
    set k | 1 <= k < |pedidos| :: pedidos[k]
  }

  method Fetch(src: Source, s: Servidor, quer: nat -> bool)
    returns (pedidos: seq<Url>, emitidos: seq<string>, fim: Fim)
    ensures fim == Recusada <==> !CheckPagination(src)
    ensures fim == Recusada ==> pedidos == [] && emitidos == []
    ensures fim != Recusada ==> Caminho(src, s, pedidos) && Acabou(src, s, quer, pedidos, emitidos, fim)
    ensures |pedidos| <= if src.maxPages > 0 then src.maxPages else 1000
    ensures fim == Limite ==> |pedidos| == if src.maxPages > 0 then src.maxPages else 1000
    ensures forall k: nat :: k < |emitidos| && (fim == Parado ==> k < |emitidos| - 1) ==> quer(k)
  {
    if !CheckPagination(src) { return [], [], Recusada; }
    pedidos, emitidos := [FirstPageURL(src)], [];
    var seen: set<Url> := {};
    while true
      invariant Caminho(src, s, pedidos)
      invariant emitidos == Ate(s, pedidos, |pedidos| - 1)
      invariant seen == Vistos(pedidos)
      invariant forall k: nat :: k < |emitidos| ==> quer(k)
      decreases MaxPages(src) - |pedidos|
    {
      ghost var antes := emitidos;
      var page := s(|pedidos| - 1, pedidos[|pedidos| - 1]);
      if page.Erro? { return pedidos, emitidos, Falhou; }
      var parou := false;
      emitidos, parou := DrainPage(page.rows, emitidos, quer);
      if parou { return pedidos, emitidos, Parado; }
      if page.quebra { return pedidos, emitidos, Falhou; }
      var next := NextPageURL(src, page);
      if next.None? { return pedidos, emitidos, Completo; }
      if |pedidos| >= MaxPages(src) { return pedidos, emitidos, Limite; }
      if next.value in seen { return pedidos, emitidos, Repetiu; }
      seen := seen + {next.value};
      Adiante(src, s, pedidos, next.value);
      pedidos := pedidos + [next.value];
    }
  }

  lemma {:induction false} SameRows(s: Servidor, a: seq<Url>, b: seq<Url>, k: nat)
    requires k <= |a| && k <= |b| && forall i :: 0 <= i < k ==> a[i] == b[i]
    ensures Ate(s, a, k) == Ate(s, b, k)
  {
    if k > 0 { SameRows(s, a, b, k - 1); }
  }

  lemma Adiante(src: Source, s: Servidor, pedidos: seq<Url>, next: Url)
    requires Caminho(src, s, pedidos) && |pedidos| < MaxPages(src)
    requires Boa(s(|pedidos| - 1, pedidos[|pedidos| - 1]))
    requires NextPageURL(src, s(|pedidos| - 1, pedidos[|pedidos| - 1])) == Some(next)
    requires forall k :: 1 <= k < |pedidos| ==> pedidos[k] != next
    ensures Caminho(src, s, pedidos + [next])
    ensures Ate(s, pedidos + [next], |pedidos|) == Linhas(s, pedidos)
    ensures Vistos(pedidos + [next]) == Vistos(pedidos) + {next}
  {
    SameRows(s, pedidos, pedidos + [next], |pedidos|);
    SeenGrows(pedidos, next);
    PathGrows(src, s, pedidos, next);
  }

  lemma PathGrows(src: Source, s: Servidor, pedidos: seq<Url>, next: Url)
    requires Caminho(src, s, pedidos) && |pedidos| < MaxPages(src)
    requires Boa(s(|pedidos| - 1, pedidos[|pedidos| - 1]))
    requires NextPageURL(src, s(|pedidos| - 1, pedidos[|pedidos| - 1])) == Some(next)
    requires forall k :: 1 <= k < |pedidos| ==> pedidos[k] != next
    ensures Caminho(src, s, pedidos + [next])
  {
    var mais := pedidos + [next];
    forall k | 1 <= k < |mais| ensures Segue(src, s, mais, k) {
      if k < |pedidos| { assert Segue(src, s, pedidos, k); }
    }
    forall k | 0 <= k < |mais| ensures Inedito(mais, k) {
      if k < |pedidos| { assert Inedito(pedidos, k); }
    }
  }

  lemma SeenGrows(pedidos: seq<Url>, next: Url)
    requires pedidos != []
    ensures Vistos(pedidos + [next]) == Vistos(pedidos) + {next}
  {
    var mais := pedidos + [next];
    forall u ensures u in Vistos(mais) <==> u in Vistos(pedidos) || u == next {
      if u in Vistos(pedidos) {
        var k :| 1 <= k < |pedidos| && pedidos[k] == u;
        assert mais[k] == u;
      }
      if u == next { assert mais[|pedidos|] == u; }
    }
  }

  /** Yields the rows of a page until the consumer stops. */
  method DrainPage(rows: seq<string>, antes: seq<string>, quer: nat -> bool)
    returns (emitidos: seq<string>, parou: bool)
    requires forall k: nat :: k < |antes| ==> quer(k)
    ensures !parou ==> emitidos == antes + rows && forall k: nat :: k < |emitidos| ==> quer(k)
    ensures parou ==> emitidos != [] && emitidos <= antes + rows && !quer(|emitidos| - 1) &&
                      forall k: nat :: k < |emitidos| - 1 ==> quer(k)
  {
    emitidos := antes;
    for i := 0 to |rows|
      invariant emitidos == antes + rows[..i]
      invariant forall k: nat :: k < |emitidos| ==> quer(k)
    {
      emitidos := emitidos + [rows[i]];
      if !quer(|emitidos| - 1) { return emitidos, true; }
    }
    return emitidos, false;
  }
}
