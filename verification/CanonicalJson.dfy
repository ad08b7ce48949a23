/** sdk/pycompat/canonico.go: the canonical JSON text of a record, as a key. */
module CanonicalJson {
  import opened Options
  import opened JsonText
  import opened KeyOrder

  /** What a decoded record holds. A number carries the text it was rendered to and
      whether strconv.ParseFloat reads that text; Outro is any other Go type. */
  datatype Valor =
    | Nulo
    | Logico(b: bool)
    | Texto(s: string)
    | Numero(texto: string, lido: bool)
    | Objeto(m: map<string, Valor>)
    | Lista(vs: seq<Valor>)
    | Outro

  datatype Passo = EmChave(k: string) | NoIndice(i: nat)

  datatype Resultado = Ok(texto: string) | Erro(caminho: seq<Passo>)

  predicate EhNumero(texto: string, lido: bool) {
    texto != "" && lido && '"' !in texto && '\'' !in texto && ' ' !in texto
  }

  // ---- which values are refused, and where -------------------------------

  /** The path to the first value that cannot be written, in writing order. */
  ghost function Recusa(v: Valor): Option<seq<Passo>>
    decreases v, 1, 0
  {
    match v
    case Numero(t, lido) => if EhNumero(t, lido) then None else Some([])
    case Outro => Some([])
    case Objeto(m) => RecusaPares(v, Ordenadas(m.Keys), 0)
    case Lista(_) => RecusaItens(v, 0)
    case _ => None
  }

  ghost function RecusaPares(v: Valor, ks: seq<string>, i: nat): Option<seq<Passo>>
    requires v.Objeto? && i <= |ks| && Chaves(ks) <= v.m.Keys
    decreases v, 0, |ks| - i
  {
    if i == |ks| then None
    else
      assert ks[i] in Chaves(ks);
      match Recusa(v.m[ks[i]])
      case Some(p) => Some([EmChave(ks[i])] + p)
      case None => RecusaPares(v, ks, i + 1)
  }

  ghost function RecusaItens(v: Valor, i: nat): Option<seq<Passo>>
    requires v.Lista? && i <= |v.vs|
    decreases v, 0, |v.vs| - i
  {
    if i == |v.vs| then None
    else match Recusa(v.vs[i])
         case Some(p) => Some([NoIndice(i)] + p)
         case None => RecusaItens(v, i + 1)
  }

  predicate Aceita(v: Valor) {
    match v
    case Numero(t, lido) => EhNumero(t, lido)
    case Outro => false
    case Objeto(m) => forall k :: k in m ==> Aceita(m[k])
    case Lista(vs) => forall i :: 0 <= i < |vs| ==> Aceita(vs[i])
    case _ => true
  }

  /** `p` leads from `v` to a leaf that cannot be written. */
  ghost predicate LevaAFolhaRuim(v: Valor, p: seq<Passo>)
    decreases |p|
  {
    if p == [] then v.Outro? || (v.Numero? && !EhNumero(v.texto, v.lido))
    else match p[0]
      case EmChave(k) => v.Objeto? && k in v.m && LevaAFolhaRuim(v.m[k], p[1..])
      case NoIndice(i) => v.Lista? && i < |v.vs| && LevaAFolhaRuim(v.vs[i], p[1..])
  }

  /** A value is refused exactly when some leaf of it cannot be written, and the path in
      the error leads to such a leaf. */
  lemma {:induction false} RefusedIff(v: Valor)
    ensures Recusa(v).None? <==> Aceita(v)
    ensures Recusa(v).Some? ==> LevaAFolhaRuim(v, Recusa(v).value)
    decreases v, 1, 0
  {
    match v
    case Objeto(m) =>
      var ks := Ordenadas(m.Keys);
      RefusedPairs(v, ks, 0);
      forall k | k in m ensures exists i :: 0 <= i < |ks| && ks[i] == k { assert k in Chaves(ks); }
    case Lista(_) => RefusedItems(v, 0);
    case _ =>
  }

  lemma {:induction false} RefusedPairs(v: Valor, ks: seq<string>, i: nat)
    requires v.Objeto? && i <= |ks| && Chaves(ks) <= v.m.Keys
    ensures RecusaPares(v, ks, i).None? <==> forall j :: i <= j < |ks| ==> ks[j] in v.m && Aceita(v.m[ks[j]])
    ensures RecusaPares(v, ks, i).Some? ==> LevaAFolhaRuim(v, RecusaPares(v, ks, i).value)
    decreases v, 0, |ks| - i
  {
    if i < |ks| {
      assert ks[i] in Chaves(ks);
      RefusedIff(v.m[ks[i]]);
      RefusedPairs(v, ks, i + 1);
      if Recusa(v.m[ks[i]]).Some? {
        var p := Recusa(v.m[ks[i]]).value;
        assert ([EmChave(ks[i])] + p)[1..] == p;
      }
    }
  }

  lemma {:induction false} RefusedItems(v: Valor, i: nat)
    requires v.Lista? && i <= |v.vs|
    ensures RecusaItens(v, i).None? <==> forall j :: i <= j < |v.vs| ==> Aceita(v.vs[j])
    ensures RecusaItens(v, i).Some? ==> LevaAFolhaRuim(v, RecusaItens(v, i).value)
    decreases v, 0, |v.vs| - i
  {
    if i < |v.vs| {
      RefusedIff(v.vs[i]);
      RefusedItems(v, i + 1);
      if Recusa(v.vs[i]).Some? {
        var p := Recusa(v.vs[i]).value;
        assert ([NoIndice(i)] + p)[1..] == p;
      }
    }
  }

  // ---- the text ----------------------------------------------------------

  function Aspas(s: string): string {
    "\"" + Escapada(s) + "\""
  }

  function Virgula(i: nat): string {
    if i > 0 then "," else ""
  }

  ghost function Par(k: string, v: Valor): string
    decreases v, 2, 0
  {
    Aspas(k) + ":" + TextoDe(v)
  }

  ghost function TextoDe(v: Valor): string
    decreases v, 1, 0
  {
    match v
    case Nulo => "null"
    case Logico(b) => if b then "true" else "false"
    case Texto(s) => Aspas(s)
    case Numero(t, _) => t
    case Objeto(m) => "{" + TextoPares(v, Ordenadas(m.Keys), 0)
    case Lista(_) => "[" + TextoItens(v, 0)
    case Outro => ""
  }

  /** The pairs from the `i`-th on, with the closing brace. */
  ghost function TextoPares(v: Valor, ks: seq<string>, i: nat): string
    requires v.Objeto? && i <= |ks| && Chaves(ks) <= v.m.Keys
    decreases v, 0, |ks| - i
  {
    if i == |ks| then "}"
    else
      assert ks[i] in Chaves(ks);
      Virgula(i) + (Par(ks[i], v.m[ks[i]]) + TextoPares(v, ks, i + 1))
  }

  ghost function TextoItens(v: Valor, i: nat): string
    requires v.Lista? && i <= |v.vs|
    decreases v, 0, |v.vs| - i
  {
    if i == |v.vs| then "]"
    else Virgula(i) + (TextoDe(v.vs[i]) + TextoItens(v, i + 1))
  }

  /** What escrever returns for a value. */
  ghost function Escrito(dst: string, v: Valor): Resultado {
    match Recusa(v) case Some(p) => Erro(p) case None => Ok(dst + TextoDe(v))
  }

  method JSONCanonico(v: Valor) returns (r: Resultado)
    ensures r == Escrito("", v)
  {
    r := Escrever("", v);
  }

  method Escrever(dst: string, v: Valor) returns (r: Resultado)
    ensures r == Escrito(dst, v)
    decreases v, 1
  {
    if v.Objeto? {
      r := EscreverObjeto(dst, v);
    } else if v.Lista? {
      r := EscreverLista(dst, v);
    } else {
      r := EscreverFolha(dst, v);
    }
  }

  method EscreverFolha(dst: string, v: Valor) returns (r: Resultado)
    requires !v.Objeto? && !v.Lista?
    ensures r == Escrito(dst, v)
  {
    match v
    case Nulo => return Ok(dst + "null");
    case Logico(b) => return Ok(dst + if b then "true" else "false");
    case Texto(s) =>
      r := EscreverTexto(dst, s);
    case Numero(t, lido) =>
      if !EhNumero(t, lido) { return Erro([]); }
      return Ok(dst + t);
    case Outro => return Erro([]);
  }

  method EscreverTexto(dst: string, s: string) returns (r: Resultado)
    ensures r == Ok(dst + Aspas(s))
  {
    var d := AppendJSONString(dst, s);
    assert d == dst + Aspas(s);
    return Ok(d);
  }

  /** The keys in whatever order the map yields them. */
  method ChavesDe(m: map<string, Valor>) returns (ks: seq<string>)
    ensures SemRepetir(ks) && Chaves(ks) == m.Keys
  {
    ks := [];
    var faltam := m.Keys;
    while faltam != {}
      invariant faltam <= m.Keys && SemRepetir(ks) && Chaves(ks) == m.Keys - faltam
      decreases faltam
    {
      var k :| k in faltam;
      assert forall i :: 0 <= i < |ks| ==> ks[i] in Chaves(ks);
      SnocKeys(ks, k);
      ks := ks + [k];
      faltam := faltam - {k};
    }
  }

  lemma Emenda(total: string, d: string, sep: string, x: string, resto: string)
    requires total == d + (sep + (x + resto))
    ensures total == d + sep + x + resto
  {
  }

  method EscreverObjeto(dst: string, v: Valor) returns (r: Resultado)
    requires v.Objeto?
    ensures r == Escrito(dst, v)
    decreases v, 0
  {
    var chaves := ChavesDe(v.m);
    OrdenaAscends(chaves);
    chaves := Ordena(chaves);
    AscendingIsUnique(chaves, Ordenadas(v.m.Keys));
    var d := dst + "{";
    ghost var total := dst + TextoDe(v);
    for i := 0 to |chaves|
      invariant Chaves(chaves) == v.m.Keys && chaves == Ordenadas(v.m.Keys)
      invariant Recusa(v) == RecusaPares(v, chaves, i)
      invariant total == d + TextoPares(v, chaves, i)
    {
      assert chaves[i] in Chaves(chaves);
      var e := EscreverPar(d, i, chaves[i], v.m[chaves[i]]);
      match e
      case Erro(p) => return Erro([EmChave(chaves[i])] + p);
      case Ok(novo) =>
        Emenda(total, d, Virgula(i), Par(chaves[i], v.m[chaves[i]]), TextoPares(v, chaves, i + 1));
        d := novo;
    }
    return Ok(d + "}");
  }

  method EscreverPar(dst: string, i: nat, k: string, v: Valor) returns (r: Resultado)
    ensures r == match Recusa(v) case Some(p) => Erro(p) case None => Ok(dst + Virgula(i) + Par(k, v))
    decreases v, 2
  {
    var d := EscreverChave(dst + Virgula(i), k);
    r := Escrever(d, v);
    Associa(dst + Virgula(i), Aspas(k) + ":", TextoDe(v));
  }

  lemma Associa(a: string, b: string, c: string)
    ensures (a + b) + c == a + (b + c)
  {
  }

  method EscreverChave(dst: string, k: string) returns (r: string)
    ensures r == dst + (Aspas(k) + ":")
  {
    r := AppendJSONString(dst, k);
    r := r + ":";
  }

  method EscreverLista(dst: string, v: Valor) returns (r: Resultado)
    requires v.Lista?
    ensures r == Escrito(dst, v)
    decreases v, 0
  {
    var d := dst + "[";
    ghost var total := dst + TextoDe(v);
    for i := 0 to |v.vs|
      invariant Recusa(v) == RecusaItens(v, i)
      invariant total == d + TextoItens(v, i)
    {
      var e := Escrever(d + Virgula(i), v.vs[i]);
      match e
      case Erro(p) => return Erro([NoIndice(i)] + p);
      case Ok(novo) =>
        Emenda(total, d, Virgula(i), TextoDe(v.vs[i]), TextoItens(v, i + 1));
        d := novo;
    }
    return Ok(d + "]");
  }
}
