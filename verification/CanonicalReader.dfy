/** A reader of compact JSON, and the round trip with the canonical writer. */
module CanonicalReader {
  import opened Options
  import opened JsonText
  import opened KeyOrder
  import opened CanonicalJson

  // ---- reading -----------------------------------------------------------

  /** The bytes a number, or one of the three words, is made of. */
  predicate DeFicha(c: char) {
    '0' <= c <= '9' || 'a' <= c <= 'z' || 'A' <= c <= 'Z' || c == '+' || c == '-' || c == '.' || c == '_'
  }

  function Corrida(t: string): (n: nat)
    ensures n <= |t|
  {
    if t == "" || !DeFicha(t[0]) then 0 else 1 + Corrida(t[1..])
  }

  function Ficha(w: string): Valor {
    if w == "null" then Nulo else if w == "true" then Logico(true) else if w == "false" then Logico(false)
    else Numero(w, true)
  }

  function LerFicha(t: string): (r: Option<(Valor, string)>)
    ensures r.Some? ==> |r.value.1| < |t|
  {
    var n := Corrida(t);
    if n == 0 then None else Some((Ficha(t[..n]), t[n..]))
  }

  function Ler(t: string): (r: Option<(Valor, string)>)
    ensures r.Some? ==> |r.value.1| < |t|
    decreases |t|, 0
  {
    if t == "" then None
    else if t[0] == '"' then
      match LerTexto(t[1..])
      case None => None
      case Some(s) => Some((Texto(s.0), s.1))
    else if t[0] == '[' then
      if |t| > 1 && t[1] == ']' then Some((Lista([]), t[2..]))
      else match LerItens(t[1..])
           case None => None
           case Some(l) => Some((Lista(l.0), l.1))
    else if t[0] == '{' then
      if |t| > 1 && t[1] == '}' then Some((Objeto(map[]), t[2..]))
      else match LerPares(t[1..])
           case None => None
           case Some(o) => Some((Objeto(o.0), o.1))
    else LerFicha(t)
  }

  function LerItens(t: string): (r: Option<(seq<Valor>, string)>)
    ensures r.Some? ==> |r.value.1| < |t|
    decreases |t|, 1
  {
    match Ler(t)
    case None => None
    case Some(v) =>
      if v.1 == "" then None
      else if v.1[0] == ']' then Some(([v.0], v.1[1..]))
      else if v.1[0] != ',' then None
      else match LerItens(v.1[1..])
           case None => None
           case Some(l) => Some(([v.0] + l.0, l.1))
  }

  /** One pair; nothing may stand between its parts. */
  function LerPar(t: string): (r: Option<(string, Valor, string)>)
    ensures r.Some? ==> |r.value.2| < |t|
    decreases |t|, 1
  {
    if t == "" || t[0] != '"' then None
    else match LerTexto(t[1..])
         case None => None
         case Some(k) =>
           if k.1 == "" || k.1[0] != ':' then None
           else match Ler(k.1[1..])
                case None => None
                case Some(v) => Some((k.0, v.0, v.1))
  }

  /** The pairs of an object; of two with the same key the later one stays. */
  function LerPares(t: string): (r: Option<(map<string, Valor>, string)>)
    ensures r.Some? ==> |r.value.1| < |t|
    decreases |t|, 2
  {
    match LerPar(t)
    case None => None
    case Some(p) =>
      if p.2 == "" then None
      else if p.2[0] == '}' then Some((map[p.0 := p.1], p.2[1..]))
      else if p.2[0] != ',' then None
      else match LerPares(p.2[1..])
           case None => None
           case Some(o) => Some((map[p.0 := p.1] + o.0, o.1))
  }

  // ---- what comes back ---------------------------------------------------

  /** The value with every invalid byte of its strings replaced. */
  ghost function Limpo(v: Valor): Valor
    decreases v, 1, 0
  {
    match v
    case Texto(s) => Texto(Limpa(s))
    case Objeto(m) => Objeto(LimpoPares(v, Ordenadas(m.Keys), 0))
    case Lista(vs) => Lista(LimpoItens(v, 0))
    case _ => v
  }

  ghost function LimpoItens(v: Valor, i: nat): seq<Valor>
    requires v.Lista? && i <= |v.vs|
    decreases v, 0, |v.vs| - i
  {
    if i == |v.vs| then [] else [Limpo(v.vs[i])] + LimpoItens(v, i + 1)
  }

  ghost function LimpoPares(v: Valor, ks: seq<string>, i: nat): map<string, Valor>
    requires v.Objeto? && i <= |ks| && Chaves(ks) <= v.m.Keys
    decreases v, 0, |ks| - i
  {
    if i == |ks| then map[]
    else
      assert ks[i] in Chaves(ks);
      map[Limpa(ks[i]) := Limpo(v.m[ks[i]])] + LimpoPares(v, ks, i + 1)
  }

  /** Every string in the value is UTF-8. */
  predicate TudoUtf8(v: Valor) {
    match v
    case Texto(s) => Utf8(s)
    case Objeto(m) => forall k :: k in m ==> Utf8(k) && TudoUtf8(m[k])
    case Lista(vs) => forall i :: 0 <= i < |vs| ==> TudoUtf8(vs[i])
    case _ => true
  }

  lemma {:induction false} LimpoIsUtf8(v: Valor)
    ensures TudoUtf8(Limpo(v))
    decreases v, 1, 0
  {
    match v
    case Texto(s) => LimpaIsUtf8(s);
    case Objeto(m) => LimpoParesIsUtf8(v, Ordenadas(m.Keys), 0);
    case Lista(vs) => LimpoItensIsUtf8(v, 0);
    case _ =>
  }

  lemma {:induction false} LimpoItensIsUtf8(v: Valor, i: nat)
    requires v.Lista? && i <= |v.vs|
    ensures TudoUtf8(Lista(LimpoItens(v, i)))
    decreases v, 0, |v.vs| - i
  {
    if i < |v.vs| {
      LimpoIsUtf8(v.vs[i]);
      LimpoItensIsUtf8(v, i + 1);
    }
  }

  lemma {:induction false} LimpoItensKeeps(v: Valor, i: nat)
    requires v.Lista? && TudoUtf8(v) && i <= |v.vs|
    ensures LimpoItens(v, i) == v.vs[i..]
    decreases v, 0, |v.vs| - i
  {
    if i < |v.vs| {
      LimpoKeepsUtf8(v.vs[i]);
      LimpoItensKeeps(v, i + 1);
    }
  }

  lemma {:induction false} LimpoParesIsUtf8(v: Valor, ks: seq<string>, i: nat)
    requires v.Objeto? && i <= |ks| && Chaves(ks) <= v.m.Keys
    ensures TudoUtf8(Objeto(LimpoPares(v, ks, i)))
    decreases v, 0, |ks| - i
  {
    if i < |ks| {
      assert ks[i] in Chaves(ks);
      LimpaIsUtf8(ks[i]);
      LimpoIsUtf8(v.m[ks[i]]);
      LimpoParesIsUtf8(v, ks, i + 1);
    }
  }

  lemma {:induction false} LimpoKeepsUtf8(v: Valor)
    requires TudoUtf8(v)
    ensures Limpo(v) == v
    decreases v, 1, 0
  {
    match v
    case Texto(s) => LimpaKeepsUtf8(s);
    case Objeto(m) =>
      var ks := Ordenadas(m.Keys);
      LimpoParesKeeps(v, ks, 0);
      forall k | k in m ensures k in LimpoPares(v, ks, 0) {
        assert k in Chaves(ks);
        var j :| 0 <= j < |ks| && ks[j] == k;
        KeyKept(v, ks, 0, j);
      }
      assert LimpoPares(v, ks, 0) == m;
    case Lista(vs) => LimpoItensKeeps(v, 0);
    case _ =>
  }

  /** One map lies in another. */
  predicate Parte(a: map<string, Valor>, m: map<string, Valor>) {
    forall x :: x in a ==> x in m && a[x] == m[x]
  }

  lemma {:induction false} LimpoParesKeeps(v: Valor, ks: seq<string>, i: nat)
    requires v.Objeto? && TudoUtf8(v) && i <= |ks| && Chaves(ks) <= v.m.Keys
    ensures Parte(LimpoPares(v, ks, i), v.m)
    decreases v, 0, |ks| - i
  {
    if i < |ks| {
      LimpoParesKeeps(v, ks, i + 1);
      FirstPairKept(v, ks, i);
      OnePairMore(v.m, ks[i], LimpoPares(v, ks, i + 1));
    }
  }

  lemma {:induction false} KeyKept(v: Valor, ks: seq<string>, i: nat, j: nat)
    requires v.Objeto? && TudoUtf8(v) && i <= j < |ks| && Chaves(ks) <= v.m.Keys
    ensures ks[j] in LimpoPares(v, ks, i)
    decreases j - i
  {
    assert ks[i] in Chaves(ks);
    if i < j { KeyKept(v, ks, i + 1, j); } else { LimpaKeepsUtf8(ks[i]); }
  }

  lemma FirstPairKept(v: Valor, ks: seq<string>, i: nat)
    requires v.Objeto? && TudoUtf8(v) && i < |ks| && Chaves(ks) <= v.m.Keys
    ensures ks[i] in v.m && LimpoPares(v, ks, i) == map[ks[i] := v.m[ks[i]]] + LimpoPares(v, ks, i + 1)
    decreases v, 0, 0
  {
    assert ks[i] in Chaves(ks);
    LimpaKeepsUtf8(ks[i]);
    LimpoKeepsUtf8(v.m[ks[i]]);
  }

  lemma OnePairMore(m: map<string, Valor>, k: string, resto: map<string, Valor>)
    requires k in m && Parte(resto, m)
    ensures var r := map[k := m[k]] + resto;
      Parte(r, m)
  {
  }
}
