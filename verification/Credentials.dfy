/** sdk/extract/credjar.go and auth.go: a credential kept in the Cookie header, out of the
    cookie jar, and replaced whenever the API reissues it. */
module Credentials {
  import opened Options
  import opened Seqs

  datatype Cookie = Cookie(nome: string, valor: string)

  /** The last value the cookies give a name. */
  function Ultimo(cs: seq<Cookie>, nome: string): Option<string> {
    if cs == [] then None
    else if cs[|cs| - 1].nome == nome then Some(cs[|cs| - 1].valor)
    else Ultimo(cs[..|cs| - 1], nome)
  }

  lemma {:induction false} UltimoAppend(a: seq<Cookie>, b: seq<Cookie>, nome: string)
    ensures Ultimo(a + b, nome) == if Ultimo(b, nome).Some? then Ultimo(b, nome) else Ultimo(a, nome)
  {
    if b == [] {
      assert a + b == a;
    } else {
      assert (a + b)[..|a + b| - 1] == a + b[..|b| - 1];
      UltimoAppend(a, b[..|b| - 1], nome);
    }
  }

  /** Ultimo is what it says. */
  lemma {:induction false} UltimoIsLast(cs: seq<Cookie>, nome: string, k: nat)
    requires k < |cs| && cs[k].nome == nome && forall j :: k < j < |cs| ==> cs[j].nome != nome
    ensures Ultimo(cs, nome) == Some(cs[k].valor)
  {
    if k < |cs| - 1 { UltimoIsLast(cs[..|cs| - 1], nome, k); }
  }

  function Trocado(c: Cookie, reemitidos: seq<Cookie>): Cookie {
    match Ultimo(reemitidos, c.nome) case Some(v) => c.(valor := v) case None => c
  }

  /** The header after the cookies `reemitidos` were issued: every credential cookie with
      its last value, the others as they were, in the same order. */
  function Atualizado(header: seq<Cookie>, reemitidos: seq<Cookie>): (r: seq<Cookie>)
    ensures |r| == |header| && forall i :: 0 <= i < |r| ==> r[i].nome == header[i].nome
  {
    seq(|header|, i requires 0 <= i < |header| => Trocado(header[i], reemitidos))
  }

  lemma UpdateTwice(h: seq<Cookie>, a: seq<Cookie>, b: seq<Cookie>)
    ensures Atualizado(Atualizado(h, a), b) == Atualizado(h, a + b)
  {
    forall i | 0 <= i < |h| ensures Trocado(Trocado(h[i], a), b) == Trocado(h[i], a + b) {
      UltimoAppend(a, b, h[i].nome);
    }
  }

  function Nomes(header: seq<Cookie>): set<string> {
    set i | 0 <= i < |header| :: header[i].nome
  }

  /** A name no cookie gives a value to has none. */
  lemma {:induction false} UltimoIsNone(cs: seq<Cookie>, nome: string)
    ensures Ultimo(cs, nome).None? <==> forall k :: 0 <= k < |cs| ==> cs[k].nome != nome
  {
    if cs != [] { UltimoIsNone(cs[..|cs| - 1], nome); }
  }

  /** The cookies that are not of the credential. */
  function Outros(cs: seq<Cookie>, nomes: set<string>): seq<Cookie> {
    if cs == [] then []
    else Outros(cs[..|cs| - 1], nomes) + if cs[|cs| - 1].nome in nomes then [] else [cs[|cs| - 1]]
  }

  lemma {:induction false} OutrosHas(cs: seq<Cookie>, nomes: set<string>)
    ensures forall c :: c in Outros(cs, nomes) <==> c in cs && c.nome !in nomes
  {
    if cs != [] {
      OutrosHas(cs[..|cs| - 1], nomes);
      assert cs == cs[..|cs| - 1] + [cs[|cs| - 1]];
    }
  }

  /** They keep their order and their number: a list of one is kept or dropped, and what is
      kept of two lists is kept of each. */
  lemma {:induction false} OutrosFilters(a: seq<Cookie>, b: seq<Cookie>, nomes: set<string>)
    ensures Outros(a + b, nomes) == Outros(a, nomes) + Outros(b, nomes)
    ensures |a| == 1 ==> Outros(a, nomes) == if a[0].nome in nomes then [] else a
  {
    if |a| == 1 { assert a[..0] == [] && a == [a[0]]; }
    if b == [] {
      assert a + b == a;
    } else {
      OutrosFilters(a, b[..|b| - 1], nomes);
      assert (a + b)[..|a + b| - 1] == a + b[..|b| - 1];
    }
  }

  /** `rotacoes` holds the last value of each credential cookie among `pendentes`. */
  ghost predicate Rotacoes(rotacoes: map<string, string>, nomes: set<string>, pendentes: seq<Cookie>) {
    forall n {:trigger Ultimo(pendentes, n)} {:trigger n in rotacoes} ::
      if n in nomes && Ultimo(pendentes, n).Some? then n in rotacoes && rotacoes[n] == Ultimo(pendentes, n).value
      else n !in rotacoes
  }

  class CredentialJar {
    const nomes: set<string>
    var inner: seq<Cookie>
    var rotacoes: map<string, string>
    ghost var pendentes: seq<Cookie>

    ghost predicate Valid()
      reads this
    {
      && Rotacoes(rotacoes, nomes, pendentes)
      && forall k :: 0 <= k < |inner| ==> inner[k].nome !in nomes
    }

    constructor (header: seq<Cookie>)
      ensures Valid() && nomes == Nomes(header) && pendentes == [] && inner == []
    {
      nomes := Nomes(header);
      inner, rotacoes, pendentes := [], map[], [];
    }

    /** What is credential is kept aside; the rest goes to the jar. */
    method SetCookies(cookies: seq<Cookie>)
      requires Valid()
      modifies this
      ensures Valid() && pendentes == old(pendentes) + cookies
      ensures inner == old(inner) + Outros(cookies, nomes)
    {
      var restantes: seq<Cookie> := [];
      ghost var antes := pendentes;
      for i := 0 to |cookies|
        invariant Valid() && pendentes == antes + cookies[..i] && inner == old(inner)
        invariant restantes == Outros(cookies[..i], nomes)
      {
        var c := cookies[i];
        assert cookies[..i + 1][..i] == cookies[..i];
        ghost var p := pendentes;
        pendentes := pendentes + [c];
        assert pendentes[..|pendentes| - 1] == p;
        if c.nome in nomes {
          rotacoes := rotacoes[c.nome := c.valor];
        } else {
          restantes := restantes + [c];
        }
      }
      assert cookies[..|cookies|] == cookies;
      OutrosHas(cookies, nomes);
      forall k | 0 <= k < |restantes| ensures restantes[k].nome !in nomes { assert restantes[k] in restantes; }
      inner := inner + restantes;
    }

    /** What was reissued since the last call. */
    method TomarRotacoes() returns (r: map<string, string>)
      requires Valid()
      modifies this
      ensures Valid() && pendentes == [] && inner == old(inner)
      ensures Rotacoes(r, nomes, old(pendentes))
    {
      r := rotacoes;
      rotacoes := map[];
      pendentes := [];
    }
  }

  /** aplicarRotacao. */
  method AplicarRotacao(header: seq<Cookie>, rotacoes: map<string, string>, nomes: set<string>, ghost reemitidos: seq<Cookie>)
    returns (novo: seq<Cookie>, reescreveu: bool)
    requires Nomes(header) == nomes && Rotacoes(rotacoes, nomes, reemitidos)
    ensures novo == Atualizado(header, reemitidos)
    ensures reescreveu <==> exists n :: n in nomes && Ultimo(reemitidos, n).Some?
  {
    if rotacoes == map[] {
      forall i | 0 <= i < |header| ensures Trocado(header[i], reemitidos) == header[i] {
        assert header[i].nome in Nomes(header) && header[i].nome !in rotacoes;
      }
      assert Atualizado(header, reemitidos) == header;
      assert forall n :: n in nomes ==> n !in rotacoes;
      return header, false;
    }
    novo := [];
    for i := 0 to |header|
      invariant |novo| == i && forall k :: 0 <= k < i ==> novo[k] == Trocado(header[k], reemitidos)
    {
      assert header[i].nome in Nomes(header);
      var c := header[i];
      if c.nome in rotacoes { c := c.(valor := rotacoes[c.nome]); }
      novo := novo + [c];
    }
    assert novo == Atualizado(header, reemitidos);
    var n :| n in rotacoes;
    assert n in nomes && Ultimo(reemitidos, n).Some?;
    return novo, true;
  }

  lemma SameNames(header: seq<Cookie>, reemitidos: seq<Cookie>)
    ensures Nomes(Atualizado(header, reemitidos)) == Nomes(header)
  {
    forall i | 0 <= i < |header|
      ensures header[i].nome in Nomes(Atualizado(header, reemitidos)) && Atualizado(header, reemitidos)[i].nome in Nomes(header)
    {
      assert Atualizado(header, reemitidos)[i].nome == header[i].nome;
    }
  }

  // ---- the walk ----------------------------------------------------------

  /** The cookies set by the attempts at one page. */
  type Tentativas = seq<seq<Cookie>>

  /** All that was set by the first `k` pages. */
  function Ate(paginas: seq<Tentativas>, k: nat): seq<Cookie>
    requires k <= |paginas|
  {
    if k == 0 then [] else Ate(paginas, k - 1) + Concat(paginas[k - 1])
  }

  /** Cookie `q` of attempt `a` at page `p` has the name. */
  predicate Posto(paginas: seq<Tentativas>, nome: string, p: nat, a: nat, q: nat) {
    p < |paginas| && a < |paginas[p]| && q < |paginas[p][a]| && paginas[p][a][q].nome == nome
  }

  /** No page before `k` set the name. */
  ghost predicate NuncaPosto(paginas: seq<Tentativas>, k: nat, nome: string) {
    forall p: nat, a: nat, q: nat :: p < k ==> !Posto(paginas, nome, p, a, q)
  }

  /** Among the pages before `k`, that cookie is the last with the name. */
  ghost predicate PostoPorUltimo(paginas: seq<Tentativas>, k: nat, nome: string, p: nat, a: nat, q: nat) {
    && p < k && Posto(paginas, nome, p, a, q)
    && forall p': nat, a': nat, q': nat :: p' < k && Posto(paginas, nome, p', a', q') ==>
         p' < p || (p' == p && (a' < a || (a' == a && q' <= q)))
  }

  /** A name is not set before page `k`, or one cookie is the last to set it. */
  lemma LastSetExists(paginas: seq<Tentativas>, k: nat, nome: string)
    requires k <= |paginas|
    ensures NuncaPosto(paginas, k, nome) <==>
              forall p, a, q :: 0 <= p < k && 0 <= a < |paginas[p]| && 0 <= q < |paginas[p][a]| ==> paginas[p][a][q].nome != nome
    ensures !NuncaPosto(paginas, k, nome) ==>
              exists p: nat, a: nat, q: nat :: PostoPorUltimo(paginas, k, nome, p, a, q)
  {
    if forall p, a, q :: 0 <= p < k && 0 <= a < |paginas[p]| && 0 <= q < |paginas[p][a]| ==> paginas[p][a][q].nome != nome {
      assert NuncaPosto(paginas, k, nome);
    } else {
      var p, a, q :| 0 <= p < k && 0 <= a < |paginas[p]| && 0 <= q < |paginas[p][a]| && paginas[p][a][q].nome == nome;
      assert Posto(paginas, nome, p, a, q);
      var x, y, z := LastSetFrom(paginas, k, nome, p, a, q);
    }
  }

  /** From one cookie that sets the name to later ones, as long as there is a later one. */
  lemma LastSetFrom(paginas: seq<Tentativas>, k: nat, nome: string, p0: nat, a0: nat, q0: nat) returns (p: nat, a: nat, q: nat)
    requires k <= |paginas| && p0 < k && Posto(paginas, nome, p0, a0, q0)
    ensures PostoPorUltimo(paginas, k, nome, p, a, q)
    ensures p < k && a < |paginas[p]| && q < |paginas[p][a]| && paginas[p][a][q].nome == nome
    ensures forall p', a', q' :: 0 <= p' < k && 0 <= a' < |paginas[p']| && 0 <= q' < |paginas[p'][a']| && paginas[p'][a'][q'].nome == nome ==>
              p' < p || (p' == p && (a' < a || (a' == a && q' <= q)))
  {
    p, a, q := p0, a0, q0;
    while !PostoPorUltimo(paginas, k, nome, p, a, q)
      invariant p < k && Posto(paginas, nome, p, a, q)
      decreases k - p, |paginas[p]| - a, |paginas[p][a]| - q
    {
      var p': nat, a': nat, q': nat :| p' < k && Posto(paginas, nome, p', a', q') && (p < p' || (p == p' && (a < a' || (a == a' && q < q'))));
      p, a, q := p', a', q';
    }
    forall p', a', q' | 0 <= p' < k && 0 <= a' < |paginas[p']| && 0 <= q' < |paginas[p'][a']| && paginas[p'][a'][q'].nome == nome
      ensures p' < p || (p' == p && (a' < a || (a' == a && q' <= q)))
    {
      assert Posto(paginas, nome, p', a', q');
    }
  }

  lemma {:induction false} LastOfAttempts(ts: Tentativas, nome: string, a: nat, q: nat)
    requires a < |ts| && q < |ts[a]| && ts[a][q].nome == nome
    requires forall a', q' :: 0 <= a' < |ts| && 0 <= q' < |ts[a']| && ts[a'][q'].nome == nome ==> a' < a || (a' == a && q' <= q)
    ensures Ultimo(Concat(ts), nome) == Some(ts[a][q].valor)
  {
    UltimoAppend(ts[0], Concat(ts[1..]), nome);
    if a == 0 {
      NoneOfAttempts(ts[1..], nome);
      UltimoIsLast(ts[0], nome, q);
    } else {
      LastOfAttempts(ts[1..], nome, a - 1, q);
    }
  }

  lemma {:induction false} NoneOfAttempts(ts: Tentativas, nome: string)
    requires forall a, q :: 0 <= a < |ts| && 0 <= q < |ts[a]| ==> ts[a][q].nome != nome
    ensures Ultimo(Concat(ts), nome) == None
  {
    if ts != [] {
      NoneOfAttempts(ts[1..], nome);
      UltimoAppend(ts[0], Concat(ts[1..]), nome);
      UltimoIsNone(ts[0], nome);
    }
  }

  lemma {:induction false} NoneOfPages(paginas: seq<Tentativas>, k: nat, nome: string)
    requires k <= |paginas| && NuncaPosto(paginas, k, nome)
    ensures Ultimo(Ate(paginas, k), nome) == None
  {
    if k > 0 {
      NoneOfPages(paginas, k - 1, nome);
      NoneOfPage(paginas, k - 1, nome);
      UltimoAppend(Ate(paginas, k - 1), Concat(paginas[k - 1]), nome);
    }
  }

  lemma NoneOfPage(paginas: seq<Tentativas>, p: nat, nome: string)
    requires p < |paginas| && forall a: nat, q: nat :: !Posto(paginas, nome, p, a, q)
    ensures Ultimo(Concat(paginas[p]), nome) == None
  {
    forall a, q | 0 <= a < |paginas[p]| && 0 <= q < |paginas[p][a]| ensures paginas[p][a][q].nome != nome {
      assert !Posto(paginas, nome, p, a, q);
    }
    NoneOfAttempts(paginas[p], nome);
  }

  lemma {:induction false} LastOfPages(paginas: seq<Tentativas>, k: nat, nome: string, p: nat, a: nat, q: nat)
    requires k <= |paginas| && PostoPorUltimo(paginas, k, nome, p, a, q)
    ensures Ultimo(Ate(paginas, k), nome) == Some(paginas[p][a][q].valor)
  {
    UltimoAppend(Ate(paginas, k - 1), Concat(paginas[k - 1]), nome);
    if p == k - 1 {
      forall a', q' | 0 <= a' < |paginas[p]| && 0 <= q' < |paginas[p][a']| && paginas[p][a'][q'].nome == nome
        ensures a' < a || (a' == a && q' <= q)
      {
        assert Posto(paginas, nome, p, a', q');
      }
      LastOfAttempts(paginas[p], nome, a, q);
    } else {
      NoneOfPage(paginas, k - 1, nome);
      LastOfPages(paginas, k - 1, nome, p, a, q);
    }
  }

  lemma AfterOnePage(header: seq<Cookie>, pagina: Tentativas)
    ensures forall i :: 0 <= i < |header| ==>
              && (NuncaPosto([pagina], 1, header[i].nome) ==> Atualizado(header, Concat(pagina))[i] == header[i])
              && forall p: nat, a: nat, q: nat {:trigger PostoPorUltimo([pagina], 1, header[i].nome, p, a, q)} ::
                   PostoPorUltimo([pagina], 1, header[i].nome, p, a, q) ==>
                     Atualizado(header, Concat(pagina))[i].valor == pagina[a][q].valor
  {
    assert Ate([pagina], 1) == Ate([pagina], 0) + Concat(pagina) == Concat(pagina);
    forall i | 0 <= i < |header|
      ensures NuncaPosto([pagina], 1, header[i].nome) ==> Atualizado(header, Concat(pagina))[i] == header[i]
      ensures forall p: nat, a: nat, q: nat {:trigger PostoPorUltimo([pagina], 1, header[i].nome, p, a, q)} ::
                PostoPorUltimo([pagina], 1, header[i].nome, p, a, q) ==>
                  Atualizado(header, Concat(pagina))[i].valor == pagina[a][q].valor
    {
      HeaderBeforePage(header, [pagina], 1, i);
    }
  }

  /** What a page is asked with, cookie by cookie: the value of the last cookie with the
      name that any attempt at an earlier page set, and the cookie as it was if none did. */
  lemma HeaderBeforePage(header: seq<Cookie>, paginas: seq<Tentativas>, k: nat, i: nat)
    requires k <= |paginas| && i < |header|
    ensures NuncaPosto(paginas, k, header[i].nome) ==> Atualizado(header, Ate(paginas, k))[i] == header[i]
    ensures forall p: nat, a: nat, q: nat {:trigger PostoPorUltimo(paginas, k, header[i].nome, p, a, q)} ::
              PostoPorUltimo(paginas, k, header[i].nome, p, a, q) ==>
                Atualizado(header, Ate(paginas, k))[i] == Cookie(header[i].nome, paginas[p][a][q].valor)
  {
    var nome := header[i].nome;
    if NuncaPosto(paginas, k, nome) { NoneOfPages(paginas, k, nome); }
    forall p: nat, a: nat, q: nat | PostoPorUltimo(paginas, k, nome, p, a, q)
      ensures Atualizado(header, Ate(paginas, k))[i] == Cookie(nome, paginas[p][a][q].valor)
    {
      LastOfPages(paginas, k, nome, p, a, q);
    }
  }

  method Pagina(jar: CredentialJar, tentativas: Tentativas)
    requires jar.Valid()
    modifies jar
    ensures jar.Valid() && jar.pendentes == old(jar.pendentes) + Concat(tentativas)
  {
    ghost var antes := jar.pendentes;
    for i := 0 to |tentativas|
      invariant jar.Valid() && jar.pendentes == antes + Concat(tentativas[..i])
    {
      assert tentativas[..i + 1] == tentativas[..i] + [tentativas[i]];
      ConcatSnoc(tentativas[..i], tentativas[i]);
      jar.SetCookies(tentativas[i]);
    }
    assert tentativas[..|tentativas|] == tentativas;
  }

  /** The fetch loop, as far as the credential goes: the header each page is asked with.
      Every page carries the last value reissued before it of each credential cookie, the
      cookies never reissued as they were, and the jar never gets one of them. */
  method Walk(header: seq<Cookie>, jar: CredentialJar, paginas: seq<Tentativas>)
    returns (cabecalhos: seq<seq<Cookie>>)
    requires jar.Valid() && jar.nomes == Nomes(header) && jar.pendentes == []
    modifies jar
    ensures |cabecalhos| == |paginas|
    ensures forall k :: 0 <= k < |paginas| ==> cabecalhos[k] == Atualizado(header, Ate(paginas, k))
    ensures forall k :: 0 <= k < |paginas| ==> |cabecalhos[k]| == |header|
    ensures forall k, i :: 0 <= k < |paginas| && 0 <= i < |header| && NuncaPosto(paginas, k, header[i].nome) ==>
              cabecalhos[k][i] == header[i]
    ensures forall k, i, p: nat, a: nat, q: nat {:trigger PostoPorUltimo(paginas, k, header[i].nome, p, a, q)} ::
              0 <= k < |paginas| && 0 <= i < |header| && PostoPorUltimo(paginas, k, header[i].nome, p, a, q) ==>
                cabecalhos[k][i] == Cookie(header[i].nome, paginas[p][a][q].valor)
    ensures jar.Valid()
    ensures forall c, i :: 0 <= c < |jar.inner| && 0 <= i < |header| ==> jar.inner[c].nome != header[i].nome
  {
    cabecalhos := Paginas(header, jar, paginas);
    HeadersBeforePages(header, paginas, cabecalhos);
    NamesOf(header);
  }

  /** The loop over the pages. */
  method Paginas(header: seq<Cookie>, jar: CredentialJar, paginas: seq<Tentativas>)
    returns (cabecalhos: seq<seq<Cookie>>)
    requires jar.Valid() && jar.nomes == Nomes(header) && jar.pendentes == []
    modifies jar
    ensures |cabecalhos| == |paginas| && jar.Valid()
    ensures forall k :: 0 <= k < |paginas| ==> |cabecalhos[k]| == |header| && cabecalhos[k] == Atualizado(header, Ate(paginas, k))
  {
    cabecalhos := [];
    var atual := header;
    NothingReissued(header);
    for i := 0 to |paginas|
      invariant jar.Valid() && jar.pendentes == [] && |cabecalhos| == i
      invariant atual == Atualizado(header, Ate(paginas, i)) && jar.nomes == Nomes(atual)
      invariant forall k :: 0 <= k < i ==> cabecalhos[k] == Atualizado(header, Ate(paginas, k))
    {
      cabecalhos := cabecalhos + [atual];
      UpdateTwice(header, Ate(paginas, i), Concat(paginas[i]));
      atual := Proxima(atual, jar, paginas[i]);
    }
  }

  lemma NamesOf(header: seq<Cookie>)
    ensures forall i :: 0 <= i < |header| ==> header[i].nome in Nomes(header)
  {
  }

  lemma HeadersBeforePages(header: seq<Cookie>, paginas: seq<Tentativas>, cabecalhos: seq<seq<Cookie>>)
    requires |cabecalhos| == |paginas|
    requires forall k :: 0 <= k < |paginas| ==> |cabecalhos[k]| == |header| && cabecalhos[k] == Atualizado(header, Ate(paginas, k))
    ensures forall k, i :: 0 <= k < |paginas| && 0 <= i < |header| && NuncaPosto(paginas, k, header[i].nome) ==>
              cabecalhos[k][i] == header[i]
    ensures forall k, i, p: nat, a: nat, q: nat {:trigger PostoPorUltimo(paginas, k, header[i].nome, p, a, q)} ::
              0 <= k < |paginas| && 0 <= i < |header| && PostoPorUltimo(paginas, k, header[i].nome, p, a, q) ==>
                cabecalhos[k][i] == Cookie(header[i].nome, paginas[p][a][q].valor)
  {
    forall k, i | 0 <= k < |paginas| && 0 <= i < |header| && NuncaPosto(paginas, k, header[i].nome)
      ensures cabecalhos[k][i] == header[i]
    {
      HeaderBeforePage(header, paginas, k, i);
    }
    forall k, i, p: nat, a: nat, q: nat | 0 <= k < |paginas| && 0 <= i < |header| && PostoPorUltimo(paginas, k, header[i].nome, p, a, q)
      ensures cabecalhos[k][i] == Cookie(header[i].nome, paginas[p][a][q].valor)
    {
      HeaderBeforePage(header, paginas, k, i);
    }
  }

  lemma NothingReissued(header: seq<Cookie>)
    ensures Atualizado(header, []) == header
  {
  }

  /** One page, and the header for the next. */
  method Proxima(atual: seq<Cookie>, jar: CredentialJar, pagina: Tentativas) returns (novo: seq<Cookie>)
    requires jar.Valid() && jar.nomes == Nomes(atual) && jar.pendentes == []
    modifies jar
    ensures jar.Valid() && jar.pendentes == []
    ensures novo == Atualizado(atual, Concat(pagina)) && Nomes(novo) == Nomes(atual)
  {
    Pagina(jar, pagina);
    ghost var postos := jar.pendentes;
    assert postos == Concat(pagina);
    var rotacoes := jar.TomarRotacoes();
    var reescreveu: bool;
    novo, reescreveu := AplicarRotacao(atual, rotacoes, jar.nomes, postos);
    SameNames(atual, postos);
  }

  // ---- renewal -----------------------------------------------------------

  /** Where rotated credentials are kept between runs; a save may fail. */
  class Store {
    var salvos: seq<seq<Cookie>>

    constructor ()
      ensures salvos == []
    {
      salvos := [];
    }

    method Save(valor: seq<Cookie>, falha: bool)
      modifies this
      ensures salvos == if falha then old(salvos) else old(salvos) + [valor]
    {
      if !falha { salvos := salvos + [valor]; }
    }
  }

  /** The answer of the refresh endpoint: an error, or the cookies its attempts set and,
      if ExpiresAt is configured, whether the expiry could be read. */
  datatype Renovacao = Recusada(postos: Tentativas) | Aceita(postos: Tentativas, validade: Option<bool>)

  /** renew: what was reissued holds from then on; it is stored only if no configured
      expiry check failed, and a failed check ends the run. */
  method Renew(header: seq<Cookie>, jar: CredentialJar, r: Renovacao, store: Store, falhaSave: bool)
    returns (novo: seq<Cookie>, erro: bool)
    requires jar.Valid() && jar.nomes == Nomes(header) && jar.pendentes == []
    modifies jar, store
    ensures jar.Valid()
    ensures erro <==> r.Recusada? || r.validade == Some(false)
    ensures r.Aceita? ==> novo == Atualizado(header, Concat(r.postos)) && jar.pendentes == []
    ensures store.salvos == old(store.salvos) ||
            (!erro && !falhaSave && store.salvos == old(store.salvos) + [novo] && novo == Atualizado(header, Concat(r.postos)))
    ensures !erro && !falhaSave && (exists n :: n in Nomes(header) && Ultimo(Concat(r.postos), n).Some?) ==>
              store.salvos == old(store.salvos) + [novo]
    ensures erro ==> store.salvos == old(store.salvos)
    ensures r.Aceita? ==> |novo| == |header| && forall i :: 0 <= i < |header| ==>
              && (NuncaPosto([r.postos], 1, header[i].nome) ==> novo[i] == header[i])
              && forall p: nat, a: nat, q: nat {:trigger PostoPorUltimo([r.postos], 1, header[i].nome, p, a, q)} ::
                   PostoPorUltimo([r.postos], 1, header[i].nome, p, a, q) ==> novo[i].valor == r.postos[a][q].valor
  {
    AfterOnePage(header, r.postos);
    Pagina(jar, r.postos);
    if r.Recusada? { return header, true; }
    ghost var postos := jar.pendentes;
    assert postos == Concat(r.postos);
    var rotacoes := jar.TomarRotacoes();
    var rotacionou: bool;
    novo, rotacionou := AplicarRotacao(header, rotacoes, jar.nomes, postos);
    if r.validade == Some(false) { return novo, true; }
    if rotacionou { store.Save(novo, falhaSave); }
    return novo, false;
  }
}
