/** sdk/mapping.go and sdk/ingestion.go: composing source_key and ingestion_id. */
module IdentityCode {
  import opened Options
  import opened Identity

  /** The renderer injected by KeyWith; no text is its refusal. */
  type Renderer<!V> = V -> Option<string>

  datatype Chaveada = Ok(key: string) | SemCampos | NaoObjeto | SemCampo(nome: string) | Recusado(nome: string)

  /** A field that can enter a key. */
  predicate Rende<V>(render: Renderer<V>, obj: map<string, V>, campo: string) {
    campo in obj && render(obj[campo]).Some?
  }

  ghost predicate Textos<V>(render: Renderer<V>, obj: map<string, V>, fields: seq<string>, parts: seq<string>) {
    |parts| <= |fields| &&
    forall i :: 0 <= i < |parts| ==> Rende(render, obj, fields[i]) && render(obj[fields[i]]) == Some(parts[i])
  }

  /** KeyWith: the key of the fields in the order given, or the first field that is missing
      or refused. */
  method KeyWith<V>(render: Renderer<V>, fields: seq<string>, payload: Option<map<string, V>>) returns (r: Chaveada)
    ensures r.SemCampos? <==> fields == []
    ensures r.NaoObjeto? <==> fields != [] && payload.None?
    ensures r.Ok? <==> fields != [] && payload.Some? && forall i :: 0 <= i < |fields| ==>
                                                 fields[i] in payload.value && render(payload.value[fields[i]]).Some?
    ensures r.Ok? ==> exists parts: seq<string> :: |parts| == |fields| && Textos(render, payload.value, fields, parts) &&
                                                   r.key == Join(parts, SEP)
    ensures r.Ok? ==> exists parts: seq<string> ::
              && |parts| == |fields| && r.key == Join(parts, '|')
              && forall i :: 0 <= i < |fields| ==> fields[i] in payload.value && render(payload.value[fields[i]]) == Some(parts[i])
    ensures r.SemCampo? || r.Recusado? ==>
              && payload.Some?
              && exists i ::
                   && 0 <= i < |fields| && r.nome == fields[i]
                   && !(fields[i] in payload.value && render(payload.value[fields[i]]).Some?)
                   && forall j :: 0 <= j < i ==> fields[j] in payload.value && render(payload.value[fields[j]]).Some?
    ensures r.SemCampo? ==> r.nome !in payload.value
    ensures r.Recusado? ==> r.nome in payload.value
  {
    if fields == [] { return SemCampos; }
    if payload.None? { return NaoObjeto; }
    var obj := payload.value;
    var parts: seq<string> := [];
    for i := 0 to |fields|
      invariant |parts| == i && Textos(render, obj, fields, parts)
      invariant forall j :: 0 <= j < i ==> Rende(render, obj, fields[j])
    {
      if fields[i] !in obj {
        return SemCampo(fields[i]);
      }
      var texto := render(obj[fields[i]]);
      if texto.None? {
        return Recusado(fields[i]);
      }
      parts := parts + [texto.value];
    }
    return Ok(Join(parts, SEP));
  }

  /** Two records with one key have the same texts in every field, if no text of a field
      before the last contains the separator. */
  lemma SameKeySameTexts<V>(render: Renderer<V>, fields: seq<string>, x: map<string, V>, y: map<string, V>,
                            a: seq<string>, b: seq<string>)
    requires |a| == |fields| == |b| && Textos(render, x, fields, a) && Textos(render, y, fields, b)
    requires forall i :: 0 <= i < |fields| - 1 ==> Livre(a[i], SEP) && Livre(b[i], SEP)
    ensures Join(a, SEP) == Join(b, SEP) <==>
              forall i :: 0 <= i < |fields| ==> render(x[fields[i]]) == render(y[fields[i]])
  {
    if Join(a, SEP) == Join(b, SEP) { JoinIsInjective(a, b, SEP); }
    if forall i :: 0 <= i < |fields| ==> render(x[fields[i]]) == render(y[fields[i]]) {
      assert a == b;
    }
  }

  const ID := "ingestion_id"
  const PADRAO := ["provider", "entity", "source_key", "record_ts"]

  datatype Desfecho = Escrito | CamposDemais | JaTem | Faltam(nomes: seq<string>) | RenderRecusou(nome: string) | SemChave

  function NomesDoId(fields: seq<string>): seq<string> {
    if fields == [] then PADRAO else fields
  }

  /** Four fields, all with a text, a source key that is not empty, and no id yet. */
  predicate Identificavel<V>(render: Renderer<V>, obj: map<string, V>, names: seq<string>) {
    && |names| == 4 && ID !in obj && (forall i :: 0 <= i < 4 ==> Rende(render, obj, names[i]))
    && render(obj[names[2]]) != Some("")
  }

  /** The fields among the first `n` that the record lacks. */
  function Ausentes<V>(obj: map<string, V>, names: seq<string>, n: nat): seq<string>
    requires n <= |names|
  {
    if n == 0 then [] else Ausentes(obj, names, n - 1) + if names[n - 1] in obj then [] else [names[n - 1]]
  }

  lemma {:induction false} AusentesIff<V>(obj: map<string, V>, names: seq<string>, n: nat)
    requires n <= |names|
    ensures Ausentes(obj, names, n) == [] <==> forall i :: 0 <= i < n ==> names[i] in obj
  {
    if n > 0 { AusentesIff(obj, names, n - 1); }
  }

  lemma AbsentOfFour<V>(obj: map<string, V>, n: seq<string>)
    requires |n| == 4
    ensures Ausentes(obj, n, 4) == (if n[0] in obj then [] else [n[0]]) + (if n[1] in obj then [] else [n[1]])
                                   + (if n[2] in obj then [] else [n[2]]) + (if n[3] in obj then [] else [n[3]])
  {
    assert Ausentes(obj, n, 1) == if n[0] in obj then [] else [n[0]];
    assert Ausentes(obj, n, 2) == Ausentes(obj, n, 1) + if n[1] in obj then [] else [n[1]];
    assert Ausentes(obj, n, 3) == Ausentes(obj, n, 2) + if n[2] in obj then [] else [n[2]];
  }

  /** A record, whose map is written in place. */
  class Registro<V> {
    var obj: map<string, V>

    constructor (obj: map<string, V>)
      ensures this.obj == obj
    {
      this.obj := obj;
    }

    /** ingestionIDCom: writes the id, the hash of the four texts, or leaves the record as
        it was. `valor` makes a value of the record of the id's text. */
    method IngestionId(render: Renderer<V>, fields: seq<string>, hash: string -> string, valor: string -> V)
      returns (r: Desfecho)
      modifies this
      ensures r.Escrito? <==> Identificavel(render, old(obj), NomesDoId(fields))
      ensures r.Escrito? ==> exists p, e, k, t :: Textos(render, old(obj), NomesDoId(fields), [p, e, k, t]) && k != "" &&
                                                  obj == old(obj)[ID := valor(hash(IdText(p, e, k, t)))]
      ensures !r.Escrito? ==> obj == old(obj)
      ensures r.Faltam? ==> r.nomes == Ausentes(old(obj), NomesDoId(fields), |NomesDoId(fields)|) && r.nomes != []
      ensures var n := if fields == [] then ["provider", "entity", "source_key", "record_ts"] else fields;
        && (r.CamposDemais? <==> |n| != 4)
        && (r.JaTem? <==> |n| == 4 && "ingestion_id" in old(obj))
        && (r.Escrito? ==>
              && (forall i :: 0 <= i < 4 ==> n[i] in old(obj) && render(old(obj)[n[i]]).Some?)
              && render(old(obj)[n[2]]) != Some("")
              && obj == old(obj)["ingestion_id" := valor(hash(render(old(obj)[n[0]]).value + "|" + render(old(obj)[n[1]]).value + "|"
                                                              + render(old(obj)[n[2]]).value + "|" + render(old(obj)[n[3]]).value))])
        && (r.Faltam? ==>
              && r.nomes != []
              && r.nomes == (if n[0] in old(obj) then [] else [n[0]]) + (if n[1] in old(obj) then [] else [n[1]])
                            + (if n[2] in old(obj) then [] else [n[2]]) + (if n[3] in old(obj) then [] else [n[3]]))
        && (r.RenderRecusou? ==> r.nome in n && r.nome in old(obj) && render(old(obj)[r.nome]).None?)
        && (r.SemChave? ==> (forall i :: 0 <= i < 4 ==> n[i] in old(obj)) && render(old(obj)[n[2]]) == Some(""))
    {
      var names := NomesDoId(fields);
      if |names| != 4 { return CamposDemais; }
      if ID in obj { return JaTem; }
      var parts := ["", "", "", ""];
      var missing: seq<string> := [];
      for i := 0 to 4
        invariant |parts| == 4 && obj == old(obj) && missing == Ausentes(obj, names, i)
        invariant forall j :: 0 <= j < i && names[j] in obj ==>
                    Rende(render, obj, names[j]) && render(obj[names[j]]) == Some(parts[j])
      {
        if names[i] !in obj {
          missing := missing + [names[i]];
        } else {
          var texto := render(obj[names[i]]);
          if texto.None? { return RenderRecusou(names[i]); }
          parts := parts[i := texto.value];
        }
      }
      AusentesIff(obj, names, 4);
      AbsentOfFour(obj, names);
      if missing != [] { return Faltam(missing); }
      assert forall i :: 0 <= i < 4 ==> Rende(render, obj, names[i]);
      if parts[2] == "" { return SemChave; }
      assert parts == [parts[0], parts[1], parts[2], parts[3]];
      assert Textos(render, obj, names, [parts[0], parts[1], parts[2], parts[3]]);
      HashedText(parts[0], parts[1], parts[2], parts[3]);
      obj := obj[ID := valor(hash(IdText(parts[0], parts[1], parts[2], parts[3])))];
      return Escrito;
    }
  }
}
