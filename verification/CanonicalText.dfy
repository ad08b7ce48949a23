/** The canonical text piece by piece, without the functions that build it from the front:
    what an object, a list and a leaf are written as, and which refusal is reported. */
module CanonicalText {
  import opened Identity
  import opened JsonText
  import opened KeyOrder
  import opened CanonicalJson

  ghost function Pares(v: Valor, ks: seq<string>): (r: seq<string>)
    requires v.Objeto? && Chaves(ks) <= v.m.Keys
    ensures |r| == |ks|
    ensures forall i :: 0 <= i < |ks| ==> ks[i] in v.m && r[i] == "\"" + Escapada(ks[i]) + "\":" + TextoDe(v.m[ks[i]])
  {
    assert forall i :: 0 <= i < |ks| ==> ks[i] in Chaves(ks);
    seq(|ks|, i requires 0 <= i < |ks| => "\"" + Escapada(ks[i]) + "\":" + TextoDe(v.m[ks[i]]))
  }

  lemma PairText(k: string, v: Valor)
    ensures Par(k, v) == "\"" + Escapada(k) + "\":" + TextoDe(v)
  {
    assert "\"" + Escapada(k) + "\"" + ":" == "\"" + Escapada(k) + "\":";
  }

  lemma Cola(v: string, p: string, j: string, fim: string)
    ensures v + (p + ("," + j + fim)) == v + (p + [','] + j) + fim
    ensures v + (p + fim) == v + p + fim
  {
  }

  lemma {:induction false} PairsJoined(v: Valor, ks: seq<string>, i: nat)
    requires v.Objeto? && Chaves(ks) <= v.m.Keys && i < |ks|
    ensures TextoPares(v, ks, i) == Virgula(i) + Join(Pares(v, ks)[i..], ',') + "}"
    decreases |ks| - i
  {
    var p := Pares(v, ks);
    assert ks[i] in Chaves(ks);
    PairText(ks[i], v.m[ks[i]]);
    assert Par(ks[i], v.m[ks[i]]) == p[i];
    if i + 1 < |ks| { PairsJoined(v, ks, i + 1); }
    OnePieceMore(p, i, TextoPares(v, ks, i + 1), "}");
  }

  /** The pieces from `i` on, given those from the next on. */
  lemma OnePieceMore(p: seq<string>, i: nat, resto: string, fim: string)
    requires i < |p|
    requires resto == if i + 1 < |p| then "," + Join(p[i + 1..], ',') + fim else fim
    ensures Virgula(i) + (p[i] + resto) == Virgula(i) + Join(p[i..], ',') + fim
  {
    assert p[i..] == [p[i]] + p[i + 1..];
    JoinIs(p[i], p[i + 1..], ',');
    Cola(Virgula(i), p[i], Join(p[i + 1..], ','), fim);
    if i + 1 == |p| { assert p[i + 1..] == []; }
  }

  /** An object: its pairs in the order of its keys, a comma between each two, nothing else. */
  lemma ObjectText(v: Valor, ks: seq<string>)
    requires v.Objeto? && Crescente(ks) && Chaves(ks) == v.m.Keys
    ensures TextoDe(v) == "{" + Join(Pares(v, ks), ',') + "}"
  {
    AscendingIsUnique(ks, Ordenadas(v.m.Keys));
    if ks == [] {
      assert TextoPares(v, ks, 0) == "}";
      JoinIs("", [], ',');
    } else {
      PairsJoined(v, ks, 0);
      assert Pares(v, ks)[0..] == Pares(v, ks);
    }
  }

  ghost function Itens(v: Valor): (r: seq<string>)
    requires v.Lista?
    ensures |r| == |v.vs| && forall i :: 0 <= i < |r| ==> r[i] == TextoDe(v.vs[i])
  {
    seq(|v.vs|, i requires 0 <= i < |v.vs| => TextoDe(v.vs[i]))
  }

  lemma {:induction false} ItemsJoined(v: Valor, i: nat)
    requires v.Lista? && i < |v.vs|
    ensures TextoItens(v, i) == Virgula(i) + Join(Itens(v)[i..], ',') + "]"
    decreases |v.vs| - i
  {
    if i + 1 < |v.vs| { ItemsJoined(v, i + 1); }
    OnePieceMore(Itens(v), i, TextoItens(v, i + 1), "]");
  }

  /** A list: its elements in order, a comma between each two. */
  lemma ListText(v: Valor)
    requires v.Lista?
    ensures TextoDe(v) == "[" + Join(Itens(v), ',') + "]"
  {
    if v.vs == [] {
      assert TextoItens(v, 0) == "]";
      JoinIs("", [], ',');
    } else {
      ItemsJoined(v, 0);
      assert Itens(v)[0..] == Itens(v);
    }
  }

  lemma LeafText(s: string, lido: bool)
    ensures TextoDe(Nulo) == "null" && TextoDe(Logico(true)) == "true" && TextoDe(Logico(false)) == "false"
    ensures TextoDe(Texto(s)) == "\"" + Escapada(s) + "\"" && TextoDe(Numero(s, lido)) == s
  {
  }

  /** A number is written only if it has a text that was read as one, without quotes or
      blanks in it. */
  lemma NumberAcceptedIff(t: string, lido: bool)
    ensures Aceita(Numero(t, lido)) <==> t != "" && lido && forall i :: 0 <= i < |t| ==> t[i] != '"' && t[i] != '\'' && t[i] != ' '
    ensures !Aceita(Outro) && Aceita(Nulo) && Aceita(Logico(lido)) && Aceita(Texto(t))
  {
    assert forall c :: c in t <==> exists i :: 0 <= i < |t| && t[i] == c;
  }

  /** Of several values that cannot be written the first in writing order is reported: what
      stands before it could be written. */
  lemma FirstKeyReported(v: Valor, k: string)
    requires v.Objeto? && Recusa(v).Some?
    ensures Recusa(v).value != [] && Recusa(v).value[0].EmChave? && Recusa(v).value[0].k in v.m
    ensures !Aceita(v.m[Recusa(v).value[0].k])
    ensures k in v.m && Antes(k, Recusa(v).value[0].k) ==> Aceita(v.m[k])
  {
    var ks := Ordenadas(v.m.Keys);
    var i := FirstPair(v, ks, 0);
    if k in v.m && Antes(k, ks[i]) {
      assert k in Chaves(ks);
      var j :| 0 <= j < |ks| && ks[j] == k;
      AntesTotal(k, ks[i]);
      assert j < i;
    }
  }

  lemma {:induction false} FirstPair(v: Valor, ks: seq<string>, i: nat) returns (j: nat)
    requires v.Objeto? && i <= |ks| && Chaves(ks) <= v.m.Keys && RecusaPares(v, ks, i).Some?
    ensures i <= j < |ks| && ks[j] in v.m && !Aceita(v.m[ks[j]])
    ensures RecusaPares(v, ks, i).value != [] && RecusaPares(v, ks, i).value[0] == EmChave(ks[j])
    ensures forall h :: i <= h < j ==> ks[h] in v.m && Aceita(v.m[ks[h]])
    decreases |ks| - i
  {
    assert ks[i] in Chaves(ks);
    RefusedIff(v.m[ks[i]]);
    if Recusa(v.m[ks[i]]).Some? { j := i; } else { j := FirstPair(v, ks, i + 1); }
  }

  lemma FirstItemReported(v: Valor, h: nat)
    requires v.Lista? && Recusa(v).Some?
    ensures Recusa(v).value != [] && Recusa(v).value[0].NoIndice? && Recusa(v).value[0].i < |v.vs|
    ensures !Aceita(v.vs[Recusa(v).value[0].i])
    ensures h < Recusa(v).value[0].i ==> Aceita(v.vs[h])
  {
    var j := FirstItem(v, 0);
  }

  lemma {:induction false} FirstItem(v: Valor, i: nat) returns (j: nat)
    requires v.Lista? && i <= |v.vs| && RecusaItens(v, i).Some?
    ensures i <= j < |v.vs| && !Aceita(v.vs[j])
    ensures RecusaItens(v, i).value != [] && RecusaItens(v, i).value[0] == NoIndice(j)
    ensures forall h :: i <= h < j ==> Aceita(v.vs[h])
    decreases |v.vs| - i
  {
    RefusedIff(v.vs[i]);
    if Recusa(v.vs[i]).Some? { j := i; } else { j := FirstItem(v, i + 1); }
  }

  /** A path leads to a bad leaf step by step, and only where there is one. */
  lemma {:induction false} PathSteps(v: Valor, k: string, i: nat, p: seq<Passo>)
    ensures LevaAFolhaRuim(v, []) <==> !v.Objeto? && !v.Lista? && !Aceita(v)
    ensures LevaAFolhaRuim(v, [EmChave(k)] + p) <==> v.Objeto? && k in v.m && LevaAFolhaRuim(v.m[k], p)
    ensures LevaAFolhaRuim(v, [NoIndice(i)] + p) <==> v.Lista? && i < |v.vs| && LevaAFolhaRuim(v.vs[i], p)
  {
    assert ([EmChave(k)] + p)[1..] == p && ([NoIndice(i)] + p)[1..] == p;
  }

  // ---- strings -----------------------------------------------------------

  /** A character of one byte in a string: quote, backslash and the three named breaks with a
      backslash, other control bytes by four hexadecimal digits, anything else as it is. */
  lemma OneByteWritten(b: char, x: string)
    requires b as int < 0x80
    ensures var e := if b == '"' then "\\\"" else if b == '\\' then "\\\\" else if b == '\n' then "\\n"
                     else if b == '\r' then "\\r" else if b == '\t' then "\\t"
                     else if b as int < 0x20 then "\\u00" + ["0123456789abcdef"[b as int / 16], "0123456789abcdef"[b as int % 16]]
                     else [b];
      Escapada([b] + x) == e + Escapada(x)
  {
    var s := [b] + x;
    assert s[0] == b && s[1..] == x;
    assert forall d: nat :: d < 16 ==> HexDigit(d) == "0123456789abcdef"[d];
  }

  /** Beyond one byte: a whole UTF-8 sequence is copied, an invalid byte becomes U+FFFD. */
  lemma LongerWritten(s: string)
    requires s != "" && s[0] as int >= 0x80
    ensures if RuneLen(s) > 0 then Escapada(s) == s[..RuneLen(s)] + Escapada(s[RuneLen(s)..])
            else Escapada(s) == [0xEF as char, 0xBF as char, 0xBD as char] + Escapada(s[1..])
  {
  }
}
