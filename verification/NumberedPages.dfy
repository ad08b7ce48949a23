/** What the walk of Pagination reads by page number or offset, against servers that slice a
    fixed collection. */
module NumberedPages {
  import opened Options
  import opened Decimal
  import opened Pagination

  // ---- the numbers of a walk ---------------------------------------------

  predicate PorPagina(src: Source) {
    CheckPagination(src) && src.pageKey != ""
  }

  predicate PorOffset(src: Source) {
    CheckPagination(src) && src.offsetKey != ""
  }

  function Chave(src: Source): string {
    if src.pageKey != "" then src.pageKey else src.offsetKey
  }

  /** By how much the number grows after a page of these rows. */
  function Avanco(src: Source, rows: seq<string>): nat {
    if src.pageKey != "" then 1 else if src.pageSize <= 0 then |rows| else src.pageSize
  }

  function Numero(src: Source, u: Url): int {
    CurrentOffset(u, Chave(src))
  }

  /** The number the first request carries. */
  function PrimeiroNumero(src: Source): int {
    Numero(src, FirstPageURL(src))
  }

  lemma FirstNumber(src: Source)
    requires PorPagina(src) && MENOR <= src.firstPage <= MAIOR
    ensures src.pageKey !in src.url.query ==> PrimeiroNumero(src) == if src.firstPage == 0 then 1 else src.firstPage
  {
    ItoaRoundTrip(if src.firstPage == 0 then 1 else src.firstPage);
  }

  /** The request `u` is answered without redirection with the rows `rows`. */
  ghost predicate Responde(s: Servidor, k: nat, u: Url, rows: seq<string>) {
    Boa(s(k, u)) && s(k, u).pedido == u && s(k, u).rows == rows
  }

  /** A server that answers number `i` with `conteudo(i)`. */
  ghost predicate Serve(src: Source, s: Servidor, conteudo: int -> seq<string>) {
    forall k: nat, u: Url {:trigger Certa(src, s, conteudo, k, u)} :: Certa(src, s, conteudo, k, u)
  }

  ghost predicate Certa(src: Source, s: Servidor, conteudo: int -> seq<string>, k: nat, u: Url) {
    Responde(s, k, u, conteudo(Numero(src, u)))
  }

  /** The numbers the walk reaches are numbers of 64 bits. */
  ghost predicate Cabe(src: Source, conteudo: int -> seq<string>) {
    forall i: int :: conteudo(i) != [] ==> MENOR <= i + Avanco(src, conteudo(i)) <= MAIOR
  }

  /** A walk by number: each page but the last has rows, and leads on by the advance. */
  ghost predicate Percurso(src: Source, conteudo: int -> seq<string>, n: seq<int>) {
    n != [] && forall k {:trigger Avancou(src, conteudo, n, k)} :: 0 < k < |n| ==> Avancou(src, conteudo, n, k)
  }

  ghost predicate Avancou(src: Source, conteudo: int -> seq<string>, n: seq<int>, k: nat)
    requires 0 < k < |n|
  {
    conteudo(n[k - 1]) != [] && n[k] == n[k - 1] + Avanco(src, conteudo(n[k - 1]))
  }

  /** The rows of the first `k` numbers, in order. */
  function Lido(conteudo: int -> seq<string>, n: seq<int>, k: nat): seq<string>
    requires k <= |n|
  {
    if k == 0 then [] else Lido(conteudo, n, k - 1) + conteudo(n[k - 1])
  }

  function Numeros(src: Source, pedidos: seq<Url>): (n: seq<int>)
    ensures |n| == |pedidos| && forall k :: 0 <= k < |n| ==> n[k] == Numero(src, pedidos[k])
  {
    seq(|pedidos|, k requires 0 <= k < |pedidos| => Numero(src, pedidos[k]))
  }

  /** A page leads on exactly if it has rows, and then to the number that follows. */
  lemma NextNumber(src: Source, p: Resposta)
    requires CheckPagination(src) && Chave(src) != "" && p.Pagina?
    requires p.rows != [] ==> MENOR <= Numero(src, p.pedido) + Avanco(src, p.rows) <= MAIOR
    ensures NextPageURL(src, p).Some? <==> p.rows != []
    ensures p.rows != [] ==> Numero(src, NextPageURL(src, p).value) == Numero(src, p.pedido) + Avanco(src, p.rows)
  {
    if p.rows != [] { ItoaRoundTrip(Numero(src, p.pedido) + Avanco(src, p.rows)); }
  }

  lemma AnswerTo(src: Source, s: Servidor, conteudo: int -> seq<string>, k: nat, u: Url)
    requires CheckPagination(src) && Chave(src) != "" && Serve(src, s, conteudo) && Cabe(src, conteudo)
    ensures var n := Numero(src, u);
      && Boa(s(k, u)) && s(k, u).rows == conteudo(n)
      && (NextPageURL(src, s(k, u)).Some? <==> conteudo(n) != [])
      && (conteudo(n) != [] ==> Numero(src, NextPageURL(src, s(k, u)).value) == n + Avanco(src, conteudo(n)))
  {
    assert Certa(src, s, conteudo, k, u);
    NextNumber(src, s(k, u));
  }

  lemma {:induction false} RowsOfNumbers(src: Source, s: Servidor, conteudo: int -> seq<string>, pedidos: seq<Url>, n: seq<int>, k: nat)
    requires Serve(src, s, conteudo) && k <= |pedidos| == |n|
    requires forall j :: 0 <= j < |n| ==> n[j] == Numero(src, pedidos[j])
    ensures Ate(s, pedidos, k) == Lido(conteudo, n, k)
  {
    if k > 0 {
      RowsOfNumbers(src, s, conteudo, pedidos, n, k - 1);
      assert Certa(src, s, conteudo, k - 1, pedidos[k - 1]);
    }
  }

  /** How a walk by number ends: at a page without rows, or at MaxPages. */
  ghost predicate Termina(src: Source, conteudo: int -> seq<string>, n: seq<int>, fim: Fim)
    requires n != []
  {
    var vazia := conteudo(n[|n| - 1]) == [];
    |n| <= MaxPages(src) && if vazia then fim == Completo else fim == Limite && |n| == MaxPages(src)
  }

  lemma {:induction false} NumbersAdvance(src: Source, s: Servidor, conteudo: int -> seq<string>, pedidos: seq<Url>, n: seq<int>)
    requires CheckPagination(src) && Chave(src) != "" && Serve(src, s, conteudo) && Cabe(src, conteudo)
    requires Caminho(src, s, pedidos) && n == Numeros(src, pedidos)
    ensures Percurso(src, conteudo, n)
  {
    forall k | 0 < k < |n| ensures Avancou(src, conteudo, n, k) {
      assert Segue(src, s, pedidos, k);
      AnswerTo(src, s, conteudo, k - 1, pedidos[k - 1]);
    }
  }

  lemma {:induction false} NumbersGrow(src: Source, conteudo: int -> seq<string>, n: seq<int>, k: nat, m: nat)
    requires Percurso(src, conteudo, n) && k <= m < |n|
    ensures n[k] <= n[m]
  {
    if k < m {
      NumbersGrow(src, conteudo, n, k, m - 1);
      assert Avancou(src, conteudo, n, m);
    }
  }

  /** Against such a server a walk is its numbers: they start at the first one, grow by the
      advance, and the rows read are those of each number. No URL comes up again. */
  lemma {:induction false} WalkByNumber(src: Source, s: Servidor, conteudo: int -> seq<string>, quer: nat -> bool,
                     pedidos: seq<Url>, emitidos: seq<string>, fim: Fim, n: seq<int>)
    requires CheckPagination(src) && Chave(src) != "" && Serve(src, s, conteudo) && Cabe(src, conteudo)
    requires forall i :: conteudo(i) != [] ==> Avanco(src, conteudo(i)) > 0
    requires Caminho(src, s, pedidos) && Acabou(src, s, quer, pedidos, emitidos, fim) && fim != Parado
    requires n == Numeros(src, pedidos)
    ensures Percurso(src, conteudo, n) && n[0] == PrimeiroNumero(src) && Termina(src, conteudo, n, fim)
    ensures emitidos == Lido(conteudo, n, |n|)
  {
    NumbersAdvance(src, s, conteudo, pedidos, n);
    RowsOfNumbers(src, s, conteudo, pedidos, n, |n|);
    WalkEnds(src, s, conteudo, quer, pedidos, emitidos, fim, n);
  }

  lemma {:induction false} WalkEnds(src: Source, s: Servidor, conteudo: int -> seq<string>, quer: nat -> bool,
                                    pedidos: seq<Url>, emitidos: seq<string>, fim: Fim, n: seq<int>)
    requires CheckPagination(src) && Chave(src) != "" && Serve(src, s, conteudo) && Cabe(src, conteudo)
    requires forall i :: conteudo(i) != [] ==> Avanco(src, conteudo(i)) > 0
    requires Percurso(src, conteudo, n) && n == Numeros(src, pedidos) && |pedidos| <= MaxPages(src)
    requires Acabou(src, s, quer, pedidos, emitidos, fim) && fim != Parado
    ensures Termina(src, conteudo, n, fim) && emitidos == Linhas(s, pedidos)
  {
    NothingAgain(src, s, conteudo, pedidos, n);
    EndOf(src, s, quer, pedidos, emitidos, fim);
    AnswerTo(src, s, conteudo, |n| - 1, pedidos[|n| - 1]);
  }

  /** A walk whose last page came whole and leads to no URL asked for before. */
  lemma {:induction false} EndOf(src: Source, s: Servidor, quer: nat -> bool, pedidos: seq<Url>, emitidos: seq<string>, fim: Fim)
    requires pedidos != [] && Acabou(src, s, quer, pedidos, emitidos, fim) && fim != Parado
    requires var ult := s(|pedidos| - 1, pedidos[|pedidos| - 1]);
      Boa(ult) && forall k :: 0 <= k < |pedidos| ==> NextPageURL(src, ult) != Some(pedidos[k])
    ensures emitidos == Linhas(s, pedidos)
    ensures if NextPageURL(src, s(|pedidos| - 1, pedidos[|pedidos| - 1])) == None then fim == Completo
            else fim == Limite && |pedidos| == MaxPages(src)
  {
  }

  lemma {:induction false} NothingAgain(src: Source, s: Servidor, conteudo: int -> seq<string>, pedidos: seq<Url>, n: seq<int>)
    requires CheckPagination(src) && Chave(src) != "" && Serve(src, s, conteudo) && Cabe(src, conteudo)
    requires forall i :: conteudo(i) != [] ==> Avanco(src, conteudo(i)) > 0
    requires Percurso(src, conteudo, n) && n == Numeros(src, pedidos)
    ensures var ult := s(|n| - 1, pedidos[|n| - 1]);
      Boa(ult) && forall k :: 0 <= k < |n| ==> NextPageURL(src, ult) != Some(pedidos[k])
  {
    var ult := pedidos[|n| - 1];
    AnswerTo(src, s, conteudo, |n| - 1, ult);
    forall k | 0 <= k < |n| ensures NextPageURL(src, s(|n| - 1, ult)) != Some(pedidos[k]) {
      NumbersGrow(src, conteudo, n, k, |n| - 1);
    }
  }

  // ---- page numbers ------------------------------------------------------

  function PaginaDe(pages: seq<seq<string>>, i: int): seq<string> {
    if 0 <= i < |pages| then pages[i] else []
  }

  function Paginas(b: int, pages: seq<seq<string>>): (c: int -> seq<string>)
    ensures forall i :: c(i) == PaginaDe(pages, i - b)
  {
    (i: int) => PaginaDe(pages, i - b)
  }

  /** A server of numbered pages, none empty and the first one numbered `b`. */
  ghost predicate ServePaginas(src: Source, s: Servidor, b: int, pages: seq<seq<string>>) {
    && PorPagina(src) && Serve(src, s, Paginas(b, pages)) && MENOR <= b && b + |pages| <= MAIOR
    && forall i :: 0 <= i < |pages| ==> pages[i] != []
  }

  /** Such servers exist, for every numbering and every collection. */
  lemma PageServerExists(src: Source, b: int, pages: seq<seq<string>>)
    requires CheckPagination(src) && src.pageKey != "" && -0x8000_0000_0000_0000 <= b && b + |pages| <= 0x7FFF_FFFF_FFFF_FFFF
    requires forall i :: 0 <= i < |pages| ==> pages[i] != []
    ensures exists s: Servidor :: ServePaginas(src, s, b, pages)
  {
    var s: Servidor := (k: nat, u: Url) => Pagina(PaginaDe(pages, Numero(src, u) - b), false, None, "", u);
    assert forall k: nat, u: Url :: Certa(src, s, Paginas(b, pages), k, u);
    assert ServePaginas(src, s, b, pages);
  }

  /** The rows of the pages from the `i`-th up to the `n`-th, without it. */
  function Folhas(pages: seq<seq<string>>, i: nat, n: nat): seq<string>
    requires i <= n <= |pages|
  {
    if n == i then [] else Folhas(pages, i, n - 1) + pages[n - 1]
  }

  function Min(a: int, b: int): int {
    if a <= b then a else b
  }

  lemma {:induction false} PagesInOrder(src: Source, b: int, pages: seq<seq<string>>, n: seq<int>, i: nat, k: nat)
    requires src.pageKey != "" && Percurso(src, Paginas(b, pages), n) && n[0] == b + i && i <= |pages| && k < |n|
    ensures n[k] == b + i + k && i + k <= |pages|
    ensures Lido(Paginas(b, pages), n, k + 1) == Folhas(pages, i, Min(i + k + 1, |pages|))
  {
    var c := Paginas(b, pages);
    if k == 0 {
      assert Lido(c, n, 1) == Lido(c, n, 0) + c(b + i) == c(b + i);
    } else {
      PagesInOrder(src, b, pages, n, i, k - 1);
      assert Avancou(src, c, n, k);
      PageMore(b, pages, i, k, Lido(c, n, k));
    }
  }

  lemma PageMore(b: int, pages: seq<seq<string>>, i: nat, m: nat, antes: seq<string>)
    requires 0 < m && i + m - 1 < |pages| && antes == Folhas(pages, i, Min(i + m, |pages|))
    ensures antes + Paginas(b, pages)(b + i + m) == Folhas(pages, i, Min(i + m + 1, |pages|))
  {
  }

  lemma PagesToTheEnd(src: Source, b: int, pages: seq<seq<string>>, n: seq<int>, i: nat, fim: Fim)
    requires n != [] && n[|n| - 1] == b + i + |n| - 1 && i + |n| - 1 <= |pages|
    requires Termina(src, Paginas(b, pages), n, fim) && forall j :: 0 <= j < |pages| ==> pages[j] != []
    ensures fim == if |pages| - i < MaxPages(src) then Completo else Limite
    ensures Min(i + |n|, |pages|) == Min(i + MaxPages(src), |pages|)
  {
  }

  lemma {:induction false} AllPages(src: Source, b: int, pages: seq<seq<string>>, n: seq<int>, i: nat, fim: Fim)
    requires src.pageKey != "" && Percurso(src, Paginas(b, pages), n) && n[0] == b + i && i <= |pages|
    requires Termina(src, Paginas(b, pages), n, fim) && forall j :: 0 <= j < |pages| ==> pages[j] != []
    ensures fim == if |pages| - i < MaxPages(src) then Completo else Limite
    ensures Lido(Paginas(b, pages), n, |n|) == Folhas(pages, i, Min(i + MaxPages(src), |pages|))
  {
    PagesInOrder(src, b, pages, n, i, |n| - 1);
    PagesToTheEnd(src, b, pages, n, i, fim);
  }

  lemma {:induction false} PageWalk(src: Source, s: Servidor, quer: nat -> bool, b: int, pages: seq<seq<string>>,
                 pedidos: seq<Url>, emitidos: seq<string>, fim: Fim, n: seq<int>)
    requires ServePaginas(src, s, b, pages) && n == Numeros(src, pedidos)
    requires Caminho(src, s, pedidos) && Acabou(src, s, quer, pedidos, emitidos, fim) && fim != Parado
    ensures Percurso(src, Paginas(b, pages), n) && n[0] == PrimeiroNumero(src)
    ensures Termina(src, Paginas(b, pages), n, fim) && emitidos == Lido(Paginas(b, pages), n, |n|)
  {
    WalkByNumber(src, s, Paginas(b, pages), quer, pedidos, emitidos, fim, n);
  }

  /** PageKey reads the collection from the page it starts with: the pages in order, each
      once, up to MaxPages of them. */
  lemma {:induction false} PageKeyReadsTheCollection(src: Source, s: Servidor, quer: nat -> bool, b: int, pages: seq<seq<string>>, i: nat,
                                  pedidos: seq<Url>, emitidos: seq<string>, fim: Fim)
    requires ServePaginas(src, s, b, pages) && PrimeiroNumero(src) == b + i && i <= |pages|
    requires Caminho(src, s, pedidos) && Acabou(src, s, quer, pedidos, emitidos, fim) && fim != Parado
    ensures fim == if |pages| - i < MaxPages(src) then Completo else Limite
    ensures emitidos == Folhas(pages, i, Min(i + MaxPages(src), |pages|))
  {
    var n := Numeros(src, pedidos);
    PageWalk(src, s, quer, b, pages, pedidos, emitidos, fim, n);
    AllPages(src, b, pages, n, i, fim);
  }

  lemma {:induction false} FolhasSplit(pages: seq<seq<string>>, i: nat, n: nat)
    requires i <= n <= |pages|
    ensures Folhas(pages, 0, n) == Folhas(pages, 0, i) + Folhas(pages, i, n)
  {
    if i < n { FolhasSplit(pages, i, n - 1); }
  }

  lemma {:induction false} FolhasLen(pages: seq<seq<string>>, i: nat, n: nat)
    requires i <= n <= |pages| && forall j :: 0 <= j < |pages| ==> pages[j] != []
    ensures |Folhas(pages, i, n)| >= n - i
  {
    if i < n { FolhasLen(pages, i, n - 1); }
  }

  /** Pages from the `i`-th up to the `n`-th are all the rows exactly if they are all. */
  lemma PartIsAllIff(pages: seq<seq<string>>, i: nat, n: nat)
    requires i <= n <= |pages| && i < |pages| && forall j :: 0 <= j < |pages| ==> pages[j] != []
    ensures Folhas(pages, i, n) == Folhas(pages, 0, |pages|) <==> i == 0 && n == |pages|
  {
    FolhasSplit(pages, n, |pages|);
    FolhasSplit(pages, i, n);
    FolhasLen(pages, 0, i);
    FolhasLen(pages, n, |pages|);
  }

  /** Numbering that starts outside the server's pages reads nothing at all. */
  lemma StartingOutsideReadsNothing(src: Source, s: Servidor, quer: nat -> bool, b: int, pages: seq<seq<string>>,
                                    pedidos: seq<Url>, emitidos: seq<string>, fim: Fim)
    requires ServePaginas(src, s, b, pages) && !(b <= PrimeiroNumero(src) < b + |pages|)
    requires Caminho(src, s, pedidos) && Acabou(src, s, quer, pedidos, emitidos, fim)
    ensures emitidos == [] && fim == Completo && |pedidos| == 1
  {
    assert Certa(src, s, Paginas(b, pages), 0, pedidos[0]);
    EmptyAtOnce(src, s, quer, pedidos, emitidos, fim);
  }

  lemma SecondRequest(src: Source, s: Servidor, pedidos: seq<Url>)
    requires Caminho(src, s, pedidos)
    ensures |pedidos| > 1 ==> Boa(s(0, pedidos[0])) && NextPageURL(src, s(0, pedidos[0])) == Some(pedidos[1])
  {
    if |pedidos| > 1 { assert Segue(src, s, pedidos, 1); }
  }

  /** A walk whose first page is empty and leads nowhere. */
  lemma EmptyAtOnce(src: Source, s: Servidor, quer: nat -> bool, pedidos: seq<Url>, emitidos: seq<string>, fim: Fim)
    requires Caminho(src, s, pedidos) && Acabou(src, s, quer, pedidos, emitidos, fim)
    requires Boa(s(0, pedidos[0])) && s(0, pedidos[0]).rows == [] && NextPageURL(src, s(0, pedidos[0])) == None
    ensures emitidos == [] && fim == Completo && |pedidos| == 1
  {
    SecondRequest(src, s, pedidos);
    assert Ate(s, pedidos, 0) == [];
    assert Ate(s, pedidos, 1) == [] + [];
  }

  /** The whole collection is read exactly when the numbering starts where the server's
      does and MaxPages reaches the number of pages. */
  lemma {:induction false} PageKeyReadsAllIff(src: Source, s: Servidor, quer: nat -> bool, b: int, pages: seq<seq<string>>,
                           pedidos: seq<Url>, emitidos: seq<string>, fim: Fim)
    requires ServePaginas(src, s, b, pages)
    requires Caminho(src, s, pedidos) && Acabou(src, s, quer, pedidos, emitidos, fim) && fim != Parado
    ensures emitidos == Folhas(pages, 0, |pages|) <==>
              pages == [] || (PrimeiroNumero(src) == b && MaxPages(src) >= |pages|)
  {
    if b <= PrimeiroNumero(src) < b + |pages| {
      var i := PrimeiroNumero(src) - b;
      PageKeyReadsTheCollection(src, s, quer, b, pages, i, pedidos, emitidos, fim);
      PartIsAllIff(pages, i, Min(i + MaxPages(src), |pages|));
    } else {
      StartingOutsideReadsNothing(src, s, quer, b, pages, pedidos, emitidos, fim);
      FolhasLen(pages, 0, |pages|);
    }
  }

  // ---- offsets -----------------------------------------------------------

  function Fatia(l: seq<string>, o: int, n: nat): seq<string> {
    if 0 <= o < |l| then l[o..Min(o + n, |l|)] else []
  }

  function Fatias(l: seq<string>, len: int -> nat): (c: int -> seq<string>)
    ensures forall o :: c(o) == Fatia(l, o, len(o))
  {
    (o: int) => Fatia(l, o, len(o))
  }

  /** A server that answers offset `o` with `len(o)` rows of the list `l`, if there are as
      many. */
  ghost predicate ServeFatias(src: Source, s: Servidor, l: seq<string>, len: int -> nat) {
    && PorOffset(src) && Serve(src, s, Fatias(l, len)) && |l| <= MAIOR && |l| + src.pageSize <= MAIOR
    && forall o :: len(o) > 0
  }

  lemma SliceServerExists(src: Source, l: seq<string>, len: int -> nat)
    requires CheckPagination(src) && src.offsetKey != "" && |l| <= 0x7FFF_FFFF_FFFF_FFFF && |l| + src.pageSize <= 0x7FFF_FFFF_FFFF_FFFF
    requires forall o :: len(o) > 0
    ensures exists s: Servidor :: ServeFatias(src, s, l, len)
  {
    var c := Fatias(l, len);
    var s: Servidor := (k: nat, u: Url) => Pagina(c(Numero(src, u)), false, None, "", u);
    assert forall k: nat, u: Url :: Certa(src, s, c, k, u);
    assert ServeFatias(src, s, l, len);
  }

  lemma {:induction false} OffsetWalk(src: Source, s: Servidor, quer: nat -> bool, l: seq<string>, len: int -> nat,
                   pedidos: seq<Url>, emitidos: seq<string>, fim: Fim, n: seq<int>)
    requires ServeFatias(src, s, l, len) && n == Numeros(src, pedidos)
    requires Caminho(src, s, pedidos) && Acabou(src, s, quer, pedidos, emitidos, fim) && fim != Parado
    ensures Percurso(src, Fatias(l, len), n) && n[0] == PrimeiroNumero(src)
    ensures Termina(src, Fatias(l, len), n, fim) && emitidos == Lido(Fatias(l, len), n, |n|)
  {
    WalkByNumber(src, s, Fatias(l, len), quer, pedidos, emitidos, fim, n);
  }

  /** The page lengths suit PageSize: it is not set, or the server keeps to it. */
  ghost predicate Combina(src: Source, len: int -> nat) {
    src.pageKey == "" && (src.pageSize <= 0 || forall o :: len(o) == src.pageSize) && forall o :: len(o) > 0
  }

  /** After the pages of `k` numbers the list is read up to where the next would be. */
  lemma {:induction false} ListInOrder(src: Source, l: seq<string>, len: int -> nat, n: seq<int>, k: nat)
    requires Combina(src, len) && Percurso(src, Fatias(l, len), n) && 0 <= n[0] <= |l| && 0 < k <= |n|
    ensures n[0] + k - 1 <= n[k - 1]
    ensures Lido(Fatias(l, len), n, k) == l[n[0]..Min(n[k - 1] + len(n[k - 1]), |l|)]
  {
    var c := Fatias(l, len);
    if k == 1 {
      assert Lido(c, n, 1) == Lido(c, n, 0) + c(n[0]) == c(n[0]);
    } else {
      ListInOrder(src, l, len, n, k - 1);
      assert Avancou(src, c, n, k - 1);
      SliceMore(src, l, len, n[0], n[k - 2], n[k - 1], Lido(c, n, k - 1));
    }
  }

  lemma SliceMore(src: Source, l: seq<string>, len: int -> nat, a: nat, o: nat, depois: int, antes: seq<string>)
    requires Combina(src, len) && a <= o < |l| && antes == l[a..Min(o + len(o), |l|)]
    requires depois == o + Avanco(src, Fatia(l, o, len(o)))
    ensures depois > o && antes + Fatia(l, depois, len(depois)) == l[a..Min(depois + len(depois), |l|)]
  {
    PastTheSlice(src, l, len, o);
    OneSlice(l, a, depois, len(depois), antes);
  }

  /** The number moves past the rows of the page: past all of them, or past the end. */
  lemma PastTheSlice(src: Source, l: seq<string>, len: int -> nat, o: nat)
    requires Combina(src, len) && o < |l|
    ensures var n := Avanco(src, Fatia(l, o, len(o)));
      n > 0 && Min(o + n, |l|) == Min(o + len(o), |l|)
  {
  }

  lemma OneSlice(l: seq<string>, a: nat, o: nat, n: nat, antes: seq<string>)
    requires a <= |l| && a <= o && antes == l[a..Min(o, |l|)]
    ensures antes + Fatia(l, o, n) == l[a..Min(o + n, |l|)]
  {
  }

  /** After `n` requests, the last one for `c` rows from `o`: the list is read from `a` on
      up to the end of that slice. */
  ghost predicate Lida(l: seq<string>, a: int, n: nat, o: int, c: nat, lido: seq<string>) {
    0 <= a <= |l| && 0 < n && a + n - 1 <= o && c > 0 && lido == l[a..Min(o + c, |l|)]
  }

  lemma {:induction false} AllSlices(src: Source, l: seq<string>, len: int -> nat, n: seq<int>)
    requires Combina(src, len) && Percurso(src, Fatias(l, len), n) && 0 <= n[0] <= |l|
    ensures Lida(l, n[0], |n|, n[|n| - 1], len(n[|n| - 1]), Lido(Fatias(l, len), n, |n|))
  {
    ListInOrder(src, l, len, n, |n|);
    assert len(n[|n| - 1]) > 0;
  }

  lemma PartOfTail(l: seq<string>, a: nat, b: nat)
    requires a <= b <= |l|
    ensures l[a..b] <= l[a..] && |l[a..b]| == b - a && |l[a..]| == |l| - a && (b == |l| ==> l[a..b] == l[a..])
  {
  }

  /** The offset after `k` pages from `a` on. */
  function Depois(len: int -> nat, a: int, k: nat): int {
    if k == 0 then a else Depois(len, a, k - 1) + len(Depois(len, a, k - 1))
  }

  lemma {:induction false} DepoisGrows(len: int -> nat, a: int, k: nat, m: nat)
    requires k <= m
    ensures Depois(len, a, k) <= Depois(len, a, m)
  {
    if k < m { DepoisGrows(len, a, k, m - 1); }
  }

  /** As far as the list goes, the walk's offsets are the sums of the page lengths. */
  lemma {:induction false} OffsetsAdd(src: Source, l: seq<string>, len: int -> nat, n: seq<int>, k: nat)
    requires Combina(src, len) && Percurso(src, Fatias(l, len), n) && 0 <= n[0] && k < |n|
    ensures n[k] >= 0 && Min(n[k], |l|) == Min(Depois(len, n[0], k), |l|)
  {
    if k > 0 {
      OffsetsAdd(src, l, len, n, k - 1);
      assert Avancou(src, Fatias(l, len), n, k);
      PastTheSlice(src, l, len, n[k - 1]);
    }
  }

  /** A walk of `n` requests, the last one for `c` rows from `o`, ended with `fim`. */
  predicate Fechou(l: seq<string>, n: nat, o: int, c: nat, max: nat, fim: Fim) {
    0 < n <= max && if Fatia(l, o, c) == [] then fim == Completo else fim == Limite && n == max
  }

  /** The last of `n` offsets from `a` on is `o`, as far as the list goes. */
  ghost predicate Chegou(l: seq<string>, len: int -> nat, a: int, n: nat, o: int) {
    o >= 0 && len(o) > 0 && n > 0 && Min(o, |l|) == Min(Depois(len, a, n - 1), |l|)
  }

  lemma {:induction false} LastOffset(src: Source, l: seq<string>, len: int -> nat, n: seq<int>)
    requires Combina(src, len) && Percurso(src, Fatias(l, len), n) && 0 <= n[0]
    ensures Chegou(l, len, n[0], |n|, n[|n| - 1])
  {
    OffsetsAdd(src, l, len, n, |n| - 1);
    assert len(n[|n| - 1]) > 0;
  }

  /** How far `max` pages reach decides both the rows and the ending of a walk of `n`
      requests, the last one at offset `o`. */
  lemma {:induction false} ReachDecides(l: seq<string>, len: int -> nat, a: int, n: nat, o: int, max: nat, fim: Fim)
    requires Chegou(l, len, a, n, o) && Fechou(l, n, o, len(o), max, fim)
    ensures Min(o + len(o), |l|) == Min(Depois(len, a, max), |l|)
    ensures fim == if Depois(len, a, max - 1) >= |l| then Completo else Limite
  {
    EmptyAfterTheEnd(l, o, len(o));
    Reach(len, a, |l|, n - 1, max, o);
  }

  lemma EmptyAfterTheEnd(l: seq<string>, o: nat, c: nat)
    requires c > 0
    ensures Fatia(l, o, c) == [] <==> o >= |l|
  {
  }

  lemma Reach(len: int -> nat, a: int, n: nat, u: nat, max: nat, o: nat)
    requires u < max && Min(o, n) == Min(Depois(len, a, u), n) && (o < n ==> u == max - 1)
    ensures Min(o + len(o), n) == Min(Depois(len, a, max), n)
    ensures Depois(len, a, max - 1) >= n <==> o >= n
  {
    DepoisGrows(len, a, u, max - 1);
    DepoisGrows(len, a, max - 1, max);
  }

  lemma {:induction false} PagesHoldRows(src: Source, len: int -> nat, a: int, k: nat)
    requires Combina(src, len)
    ensures Depois(len, a, k) >= a + k
  {
    if k > 0 {
      PagesHoldRows(src, len, a, k - 1);
      assert len(Depois(len, a, k - 1)) > 0;
    }
  }

  lemma ReadByReach(l: seq<string>, a: int, n: nat, o: int, c: nat, z: int, lido: seq<string>)
    requires Lida(l, a, n, o, c, lido) && Min(o + c, |l|) == Min(z, |l|)
    ensures a <= z && lido == l[a..Min(z, |l|)]
    ensures lido == l[a..] <==> z >= |l|
  {
    PartOfTail(l, a, Min(z, |l|));
  }

  lemma EndedSo(src: Source, l: seq<string>, len: int -> nat, n: seq<int>, fim: Fim)
    requires n != [] && Termina(src, Fatias(l, len), n, fim)
    ensures Fechou(l, |n|, n[|n| - 1], len(n[|n| - 1]), MaxPages(src), fim)
  {
  }

  /** The rows read, and the ending, when the lengths of `max` pages from `a` on decide them. */
  ghost predicate Alcance(l: seq<string>, len: int -> nat, a: int, max: nat, lido: seq<string>, fim: Fim) {
    var z := Depois(len, a, max);
    && 0 <= a <= |l| && a <= z && max > 0
    && lido == l[a..Min(z, |l|)]
    && (lido == l[a..] <==> z >= |l|)
    && (max >= |l| - a ==> lido == l[a..])
    && (fim == if Depois(len, a, max - 1) >= |l| then Completo else Limite)
  }

  lemma {:induction false} OffsetFacts(src: Source, s: Servidor, quer: nat -> bool, l: seq<string>, len: int -> nat,
                                       pedidos: seq<Url>, emitidos: seq<string>, fim: Fim, n: seq<int>)
    requires ServeFatias(src, s, l, len) && 0 <= PrimeiroNumero(src) <= |l| && n == Numeros(src, pedidos)
    requires src.pageSize <= 0 || forall o :: len(o) == src.pageSize
    requires Caminho(src, s, pedidos) && Acabou(src, s, quer, pedidos, emitidos, fim) && fim != Parado
    ensures n != [] && n[0] == PrimeiroNumero(src) && Combina(src, len)
    ensures Lida(l, n[0], |n|, n[|n| - 1], len(n[|n| - 1]), emitidos)
    ensures Chegou(l, len, n[0], |n|, n[|n| - 1]) && Fechou(l, |n|, n[|n| - 1], len(n[|n| - 1]), MaxPages(src), fim)
  {
    OffsetWalk(src, s, quer, l, len, pedidos, emitidos, fim, n);
    AllSlices(src, l, len, n);
    LastOffset(src, l, len, n);
    EndedSo(src, l, len, n, fim);
  }

  lemma ReadAsFarAsReached(l: seq<string>, len: int -> nat, a: int, n: nat, o: int, max: nat, fim: Fim, lido: seq<string>)
    requires Lida(l, a, n, o, len(o), lido) && Chegou(l, len, a, n, o) && Fechou(l, n, o, len(o), max, fim)
    requires Depois(len, a, max) >= a + max
    ensures Alcance(l, len, a, max, lido, fim)
  {
    ReachDecides(l, len, a, n, o, max, fim);
    ReadByReach(l, a, n, o, len(o), Depois(len, a, max), lido);
  }

  /** OffsetKey reads the list from where it starts, in order and each row once, as far as
      MaxPages pages reach, if it advances by what each page held (PageSize zero, whatever the
      page lengths), or by a PageSize the server keeps to. All of it exactly when the lengths
      of MaxPages pages add up to it, whatever the number of rows. */
  lemma {:induction false} OffsetKeyReadsTheList(src: Source, s: Servidor, quer: nat -> bool, l: seq<string>, len: int -> nat,
                              pedidos: seq<Url>, emitidos: seq<string>, fim: Fim)
    requires ServeFatias(src, s, l, len) && 0 <= PrimeiroNumero(src) <= |l|
    requires src.pageSize <= 0 || forall o :: len(o) == src.pageSize
    requires Caminho(src, s, pedidos) && Acabou(src, s, quer, pedidos, emitidos, fim) && fim != Parado
    ensures Alcance(l, len, PrimeiroNumero(src), MaxPages(src), emitidos, fim)
  {
    var n := Numeros(src, pedidos);
    OffsetFacts(src, s, quer, l, len, pedidos, emitidos, fim, n);
    PagesHoldRows(src, len, n[0], MaxPages(src));
    ReadAsFarAsReached(l, len, n[0], |n|, n[|n| - 1], MaxPages(src), fim, emitidos);
  }

  /** Pages of `p` rows each: the whole list exactly when MaxPages times `p` rows reach it. */
  lemma {:induction false} EqualPagesReadAllIff(src: Source, s: Servidor, quer: nat -> bool, l: seq<string>, p: nat,
                             pedidos: seq<Url>, emitidos: seq<string>, fim: Fim)
    requires ServeFatias(src, s, l, (o: int) => p) && 0 <= PrimeiroNumero(src) <= |l|
    requires src.pageSize <= 0 || src.pageSize == p
    requires Caminho(src, s, pedidos) && Acabou(src, s, quer, pedidos, emitidos, fim) && fim != Parado
    ensures emitidos == l[PrimeiroNumero(src)..] <==> PrimeiroNumero(src) + MaxPages(src) * p >= |l|
  {
    OffsetKeyReadsTheList(src, s, quer, l, (o: int) => p, pedidos, emitidos, fim);
    EqualPages(p, PrimeiroNumero(src), MaxPages(src));
  }

  lemma {:induction false} EqualPages(p: nat, a: int, k: nat)
    ensures Depois((o: int) => p, a, k) == a + k * p
  {
    if k > 0 {
      EqualPages(p, a, k - 1);
      assert k * p == (k - 1) * p + p;
    }
  }

  /** With a PageSize `p` and pages of `c` rows too little is read if the pages are shorter,
      too much if they are longer. */
  lemma {:induction false} HowMuch(src: Source, l: seq<string>, c: nat, n: seq<int>, k: nat)
    requires src.pageKey == "" && src.pageSize > 0 && Percurso(src, Fatias(l, (o: int) => c), n) && n[0] == 0 && k < |n|
    ensures Quanto(src.pageSize, |l|, c, n[k], |Lido(Fatias(l, (o: int) => c), n, k)|, k)
  {
    if k > 0 {
      var f := Fatias(l, (o: int) => c);
      HowMuch(src, l, c, n, k - 1);
      assert Avancou(src, f, n, k);
      assert |Lido(f, n, k)| == |Lido(f, n, k - 1)| + |Fatia(l, n[k - 1], c)|;
      MorePages(src.pageSize, |l|, c, n[k - 1], |Lido(f, n, k - 1)|, k);
    }
  }

  /** `lido` rows were read of a list of `n` before the `k`-th request, at offset `o`. */
  predicate Quanto(p: int, n: nat, c: nat, o: int, lido: int, k: nat) {
    && o >= 0 && (k == 0 ==> o == 0 && lido == 0)
    && (c <= p ==> lido <= Min(o, n))
    && (c < p && c < n && k > 0 ==> lido < Min(o, n))
    && (c >= p ==> lido >= Min(o, n))
    && (c > p && p < n && k > 0 ==> lido > Min(o, n))
  }

  lemma MorePages(p: int, n: nat, c: nat, o: int, lido: int, k: nat)
    requires p > 0 && k > 0 && 0 <= o < n && Quanto(p, n, c, o, lido, k - 1)
    ensures Quanto(p, n, c, o + p, lido + (Min(o + c, n) - o), k)
  {
  }

  lemma {:induction false} OnePage(src: Source, l: seq<string>, c: nat, n: seq<int>)
    requires src.pageKey == "" && Percurso(src, Fatias(l, (o: int) => c), n) && n[0] == 0
    requires 0 < |l| <= src.pageSize && |l| <= c && Fatia(l, n[|n| - 1], c) == []
    ensures |n| == 2 && Lido(Fatias(l, (o: int) => c), n, |n| - 1) == l
  {
    var f := Fatias(l, (o: int) => c);
    assert |n| > 1;
    assert Avancou(src, f, n, 1);
    assert |n| > 2 ==> Avancou(src, f, n, 2);
    assert Lido(f, n, 1) == Lido(f, n, 0) + f(0);
  }

  /** A PageSize that is not the server's page length reads the wrong rows: a walk that ran
      to its end read the list exactly when the two are equal or one page held it all. */
  lemma {:induction false} PageSizeMustMatchIff(src: Source, s: Servidor, quer: nat -> bool, l: seq<string>, c: nat,
                             pedidos: seq<Url>, emitidos: seq<string>)
    requires ServeFatias(src, s, l, (o: int) => c) && PrimeiroNumero(src) == 0 && src.pageSize > 0
    requires Caminho(src, s, pedidos) && Acabou(src, s, quer, pedidos, emitidos, Completo)
    ensures emitidos == l <==> c == src.pageSize || (|l| <= c && |l| <= src.pageSize)
  {
    var n := Numeros(src, pedidos);
    OffsetWalk(src, s, quer, l, (o: int) => c, pedidos, emitidos, Completo, n);
    var len := (o: int) => c;
    assert len(0) > 0;
    RightSizeIff(src, l, c, n);
  }

  lemma {:induction false} RightSizeIff(src: Source, l: seq<string>, c: nat, n: seq<int>)
    requires src.pageKey == "" && src.pageSize > 0 && c > 0
    requires Percurso(src, Fatias(l, (o: int) => c), n) && n[0] == 0 && Fatia(l, n[|n| - 1], c) == []
    ensures Lido(Fatias(l, (o: int) => c), n, |n|) == l <==> c == src.pageSize || (|l| <= c && |l| <= src.pageSize)
  {
    LastIsEmpty(Fatias(l, (o: int) => c), n);
    if l == [] {
      NothingToRead(src, c, n);
    } else if c == src.pageSize {
      ReadByLength(src, l, c, n);
    } else {
      HowMuch(src, l, c, n, |n| - 1);
      if |l| <= c && |l| <= src.pageSize { OnePage(src, l, c, n); }
      else { FarEnough(src, l, c, n); }
    }
  }

  lemma LastIsEmpty(f: int -> seq<string>, n: seq<int>)
    requires n != [] && f(n[|n| - 1]) == []
    ensures Lido(f, n, |n|) == Lido(f, n, |n| - 1)
  {
  }

  lemma NothingToRead(src: Source, c: nat, n: seq<int>)
    requires Percurso(src, Fatias([], (o: int) => c), n)
    ensures Lido(Fatias([], (o: int) => c), n, |n| - 1) == []
  {
    assert |n| > 1 ==> Avancou(src, Fatias([], (o: int) => c), n, 1);
  }

  lemma {:induction false} ReadByLength(src: Source, l: seq<string>, c: nat, n: seq<int>)
    requires src.pageKey == "" && src.pageSize == c > 0 && Percurso(src, Fatias(l, (o: int) => c), n) && n[0] == 0
    requires Fatia(l, n[|n| - 1], c) == []
    ensures Lido(Fatias(l, (o: int) => c), n, |n|) == l
  {
    ListInOrder(src, l, (o: int) => c, n, |n|);
    WholeSlice(l, n[|n| - 1], c);
  }

  lemma WholeSlice(l: seq<string>, o: nat, c: nat)
    requires Fatia(l, o, c) == [] && c > 0
    ensures l[0..Min(o + c, |l|)] == l
  {
  }

  lemma FarEnough(src: Source, l: seq<string>, c: nat, n: seq<int>)
    requires l != [] && c > 0 && Percurso(src, Fatias(l, (o: int) => c), n) && n[0] == 0
    requires Fatia(l, n[|n| - 1], c) == [] && n[|n| - 1] >= 0
    ensures n[|n| - 1] >= |l| && |n| > 1
  {
  }
}
