/** Reading a canonical text gives the value back; so distinct values have distinct keys. */
module CanonicalRoundTrip {
  import opened Options
  import opened JsonText
  import opened KeyOrder
  import opened CanonicalJson
  import opened CanonicalReader

  /** What strconv.ParseFloat promises: the texts it reads are runs of letters, digits,
      signs, points and underscores, and none of them is a JSON word. */
  predicate Promete(v: Valor) {
    match v
    case Numero(t, lido) => lido ==> (forall i :: 0 <= i < |t| ==> DeFicha(t[i])) && Ficha(t) == v
    case Objeto(m) => forall k :: k in m ==> Promete(m[k])
    case Lista(vs) => forall i :: 0 <= i < |vs| ==> Promete(vs[i])
    case _ => true
  }

  /** The promise is about numbers only, wherever they stand. */
  lemma PromiseMeans(m: map<string, Valor>, vs: seq<Valor>, t: string, b: bool, c: char)
    ensures Promete(Nulo) && Promete(Logico(b)) && Promete(Texto(t)) && Promete(Outro) && Promete(Numero(t, false))
    ensures Promete(Objeto(m)) <==> forall k :: k in m ==> Promete(m[k])
    ensures Promete(Lista(vs)) <==> forall i :: 0 <= i < |vs| ==> Promete(vs[i])
    ensures Promete(Numero(t, true)) <==>
              (forall i :: 0 <= i < |t| ==> DeFicha(t[i])) && t != "null" && t != "true" && t != "false"
    ensures DeFicha(c) <==> '0' <= c <= '9' || 'a' <= c <= 'z' || 'A' <= c <= 'Z' || c in "+-._"
  {
  }

  predicate Fim(x: string) {
    x == "" || !DeFicha(x[0])
  }

  lemma {:induction false} CorridaIsWhole(w: string, x: string)
    requires (forall i :: 0 <= i < |w| ==> DeFicha(w[i])) && Fim(x)
    ensures Corrida(w + x) == |w|
  {
    if w == "" {
      assert w + x == x;
    } else {
      CorridaIsWhole(w[1..], x);
      assert (w + x)[1..] == w[1..] + x;
    }
  }

  lemma ReadsToken(w: string, x: string)
    requires w != "" && (forall i :: 0 <= i < |w| ==> DeFicha(w[i])) && Fim(x)
    ensures Ler(w + x) == Some((Ficha(w), x))
  {
    CorridaIsWhole(w, x);
    assert (w + x)[0] == w[0];
    assert (w + x)[..|w|] == w && (w + x)[|w|..] == x;
  }

  lemma ReadsQuoted(s: string, x: string)
    ensures (Aspas(s) + x)[0] == '"'
    ensures LerTexto((Aspas(s) + x)[1..]) == Some((Limpa(s), x))
  {
    ReadsWritten(s, x);
    OpenQuote(Escapada(s), x);
  }

  lemma OpenQuote(e: string, x: string)
    ensures ("\"" + e + "\"" + x)[0] == '"'
    ensures ("\"" + e + "\"" + x)[1..] == e + "\"" + x
  {
  }

  lemma ReadsLeaf(v: Valor, x: string)
    requires !v.Objeto? && !v.Lista? && Aceita(v) && Promete(v) && Fim(x)
    ensures Ler(TextoDe(v) + x) == Some((Limpo(v), x))
  {
    match v
    case Nulo => ReadsToken("null", x);
    case Logico(b) => ReadsToken(TextoDe(v), x);
    case Texto(s) => ReadsQuoted(s, x);
    case Numero(t, _) => ReadsToken(t, x);
    case _ =>
  }

  /** The first byte of a value's text closes nothing. */
  lemma FirstByte(v: Valor)
    requires Aceita(v) && Promete(v)
    ensures TextoDe(v) != "" && TextoDe(v)[0] != ']' && TextoDe(v)[0] != '}'
  {
  }

  /** The texts of the elements from `i` on, without the leading comma, and what follows. */
  ghost function Cauda(v: Valor, i: nat, x: string): string
    requires v.Lista? && i < |v.vs|
  {
    TextoDe(v.vs[i]) + (TextoItens(v, i + 1) + x)
  }

  lemma {:induction false} ReadsItems(v: Valor, i: nat, x: string)
    requires v.Lista? && Aceita(v) && Promete(v) && i < |v.vs|
    ensures LerItens(Cauda(v, i, x)) == Some((LimpoItens(v, i), x))
    decreases v, 0, |v.vs| - i
  {
    var resto := TextoItens(v, i + 1) + x;
    ReadsValue(v.vs[i], resto);
    if i + 1 == |v.vs| {
      assert resto == "]" + x && resto[1..] == x;
      assert LimpoItens(v, i) == [Limpo(v.vs[i])];
    } else {
      ReadsItems(v, i + 1, x);
      Then(',', TextoDe(v.vs[i + 1]), TextoItens(v, i + 2), x);
      assert resto == "," + (TextoDe(v.vs[i + 1]) + TextoItens(v, i + 2)) + x;
    }
  }

  lemma Then(c: char, a: string, b: string, x: string)
    ensures ([c] + (a + b) + x)[0] == c
    ensures ([c] + (a + b) + x)[1..] == a + (b + x)
  {
  }

  ghost function CaudaPares(v: Valor, ks: seq<string>, i: nat, x: string): string
    requires v.Objeto? && i < |ks| && Chaves(ks) <= v.m.Keys && ks[i] in v.m
  {
    Par(ks[i], v.m[ks[i]]) + (TextoPares(v, ks, i + 1) + x)
  }

  lemma ReadsPair(k: string, v: Valor, resto: string)
    requires Aceita(v) && Promete(v) && Fim(resto)
    ensures LerPar(Par(k, v) + resto) == Some((Limpa(k), Limpo(v), resto))
    decreases v, 2, 0
  {
    var depois := TextoDe(v) + resto;
    ReadsQuoted(k, ":" + depois);
    ReadsValue(v, resto);
    PairText(Aspas(k), TextoDe(v), resto);
    assert (":" + depois)[1..] == depois;
  }

  lemma PairText(a: string, b: string, x: string)
    ensures a + ":" + b + x == a + (":" + (b + x))
  {
  }

  lemma {:induction false} ReadsPairs(v: Valor, ks: seq<string>, i: nat, x: string)
    requires v.Objeto? && Aceita(v) && Promete(v) && i < |ks| && Chaves(ks) <= v.m.Keys && ks[i] in v.m
    ensures LerPares(CaudaPares(v, ks, i, x)) == Some((LimpoPares(v, ks, i), x))
    decreases v, 0, |ks| - i
  {
    var resto := TextoPares(v, ks, i + 1) + x;
    ReadsPair(ks[i], v.m[ks[i]], resto);
    if i + 1 == |ks| {
      assert resto == "}" + x && resto[1..] == x;
      assert LimpoPares(v, ks, i) == map[Limpa(ks[i]) := Limpo(v.m[ks[i]])];
    } else {
      assert ks[i + 1] in Chaves(ks);
      ReadsPairs(v, ks, i + 1, x);
      Then(',', Par(ks[i + 1], v.m[ks[i + 1]]), TextoPares(v, ks, i + 2), x);
      assert resto == "," + (Par(ks[i + 1], v.m[ks[i + 1]]) + TextoPares(v, ks, i + 2)) + x;
    }
  }

  lemma {:induction false} ReadsValue(v: Valor, x: string)
    requires Aceita(v) && Promete(v) && Fim(x)
    ensures Ler(TextoDe(v) + x) == Some((Limpo(v), x))
    decreases v, 1, 1
  {
    if v.Lista? {
      ReadsList(v, x);
    } else if v.Objeto? {
      ReadsObject(v, x);
    } else {
      ReadsLeaf(v, x);
    }
  }

  lemma ReadsList(v: Valor, x: string)
    requires v.Lista? && Aceita(v) && Promete(v)
    ensures Ler(TextoDe(v) + x) == Some((Limpo(v), x))
    decreases v, 1, 0
  {
    var t := TextoDe(v) + x;
    if v.vs == [] {
      assert TextoItens(v, 0) == "]";
      assert t == "[]" + x && t[2..] == x;
    } else {
      var a, b := TextoDe(v.vs[0]), TextoItens(v, 1);
      ReadsItems(v, 0, x);
      FirstByte(v.vs[0]);
      assert TextoItens(v, 0) == a + b;
      assert t == "[" + (a + b) + x;
      Then('[', a, b, x);
    }
  }

  lemma ReadsObject(v: Valor, x: string)
    requires v.Objeto? && Aceita(v) && Promete(v)
    ensures Ler(TextoDe(v) + x) == Some((Limpo(v), x))
    decreases v, 1, 0
  {
    var t := TextoDe(v) + x;
    var ks := Ordenadas(v.m.Keys);
    if ks == [] {
      assert TextoPares(v, ks, 0) == "}";
      assert t == "{}" + x && t[2..] == x;
    } else {
      assert ks[0] in Chaves(ks);
      var a, b := Par(ks[0], v.m[ks[0]]), TextoPares(v, ks, 1);
      ReadsPairs(v, ks, 0, x);
      assert TextoPares(v, ks, 0) == a + b;
      assert t == "{" + (a + b) + x;
      Then('{', a, b, x);
      assert t[1] == '"';
    }
  }

  /** The round trip: the reader gives back the value, with invalid bytes of its strings
      replaced, so the very same value exactly when all its strings are UTF-8. */
  lemma RoundTrip(v: Valor)
    requires Aceita(v) && Promete(v)
    ensures Ler(TextoDe(v)) == Some((Limpo(v), ""))
    ensures Ler(TextoDe(v)) == Some((v, "")) <==> TudoUtf8(v)
  {
    ReadsValue(v, "");
    assert TextoDe(v) + "" == TextoDe(v);
    LimpoIsUtf8(v);
    if TudoUtf8(v) { LimpoKeepsUtf8(v); }
  }

  /** For records of UTF-8 strings the canonical text is an identity. In general, equal
      texts mean records equal up to replaced bytes. */
  lemma TextIdentifiesRecord(v: Valor, w: Valor)
    requires Aceita(v) && Promete(v) && Aceita(w) && Promete(w)
    ensures TudoUtf8(v) && TudoUtf8(w) ==> (TextoDe(v) == TextoDe(w) <==> v == w)
    ensures TextoDe(v) == TextoDe(w) ==> Limpo(v) == Limpo(w)
  {
    RoundTrip(v);
    RoundTrip(w);
  }

  /** Two keys that differ in an invalid byte only share a text. */
  lemma InvalidBytesCollide()
    ensures exists v, w :: v != w && Aceita(v) && Aceita(w) && TextoDe(v) == TextoDe(w)
  {
    var a, b := [0xFF as char], [0xFE as char];
    LoneByte(0xFF as char);
    LoneByte(0xFE as char);
    assert TextoDe(Texto(a)) == Aspas(a) == Aspas(b) == TextoDe(Texto(b));
    assert a[0] != b[0];
    assert Texto(a) != Texto(b) && Aceita(Texto(a)) && Aceita(Texto(b));
  }

  lemma LoneByte(c: char)
    requires c as int >= 0xF5
    ensures Escapada([c]) == TROCA
  {
    var s := [c];
    assert RuneLen(s) == 0 && Toma(s) == 1 && Trecho(s) == TROCA;
    assert s[1..] == "";
    assert Escapada("") == "";
  }
}
