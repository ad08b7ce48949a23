/** sdk/internal/core/reconcile.go, sdk/load/merge_sql.go and sdk/load/dedup.go as code. */
module MergeCode {
  import opened Options
  import opened KeyOrder
  import opened Merge

  datatype Campo = Campo(nome: string, tipo: string)

  datatype Acordo =
    | Colunas(cols: seq<string>)
    | Sobrando(nomes: seq<string>)
    | TiposDiferentes(nomes: seq<string>)
    | NadaEmComum

  function Nomes(esquema: seq<Campo>): (r: seq<string>)
    ensures |r| == |esquema|
  {
    seq(|esquema|, i requires 0 <= i < |esquema| => esquema[i].nome)
  }

  /** The elements of `s` that lie in `c` (or, with `dentro` false, that do not). */
  function Filtra(s: seq<string>, c: set<string>, dentro: bool): seq<string> {
    if s == [] then []
    else Filtra(s[..|s| - 1], c, dentro) + if (s[|s| - 1] in c) == dentro then [s[|s| - 1]] else []
  }

  lemma {:induction false} FiltraHas(s: seq<string>, c: set<string>, dentro: bool)
    ensures forall x :: x in Filtra(s, c, dentro) <==> x in s && (x in c) == dentro
  {
    if s != [] {
      FiltraHas(s[..|s| - 1], c, dentro);
      assert s == s[..|s| - 1] + [s[|s| - 1]];
    }
  }

  /** A filter keeps the order and every repetition. */
  lemma {:induction false} FiltraFilters(a: seq<string>, b: seq<string>, c: set<string>, dentro: bool, x: string)
    ensures Filtra(a + b, c, dentro) == Filtra(a, c, dentro) + Filtra(b, c, dentro)
    ensures Filtra([x], c, dentro) == if (x in c) == dentro then [x] else []
  {
    assert [x][..0] == [];
    if b == [] {
      assert a + b == a;
    } else {
      FiltraFilters(a, b[..|b| - 1], c, dentro, x);
      assert (a + b)[..|a + b| - 1] == a + b[..|b| - 1];
    }
  }

  /** core.Reconcile: the names. */
  method ReconcileNomes(dest: seq<string>, incoming: seq<string>) returns (r: Acordo)
    ensures r.Sobrando? <==> exists c :: c in incoming && c !in dest
    ensures r.Sobrando? ==> r.nomes == Ordena(Filtra(incoming, Chaves(dest), false))
    ensures r.NadaEmComum? <==> incoming == []
    ensures !r.TiposDiferentes?
    ensures r.Colunas? ==> r.cols == Filtra(dest, Chaves(incoming), true)
  {
    var sobrando: seq<string> := [];
    for i := 0 to |incoming|
      invariant sobrando == Filtra(incoming[..i], Chaves(dest), false)
    {
      assert incoming[..i + 1][..i] == incoming[..i];
      if incoming[i] !in Chaves(dest) { sobrando := sobrando + [incoming[i]]; }
    }
    assert incoming[..|incoming|] == incoming;
    FiltraHas(incoming, Chaves(dest), false);
    if sobrando != [] {
      assert sobrando[0] in sobrando;
      return Sobrando(Ordena(sobrando));
    }
    assert incoming != [] ==> incoming[0] in incoming && incoming[0] in Chaves(incoming) && incoming[0] in Chaves(dest);
    var cols: seq<string> := [];
    for i := 0 to |dest|
      invariant cols == Filtra(dest[..i], Chaves(incoming), true)
    {
      assert dest[..i + 1][..i] == dest[..i];
      if dest[i] in Chaves(incoming) { cols := cols + [dest[i]]; }
    }
    assert dest[..|dest|] == dest;
    FiltraHas(dest, Chaves(incoming), true);
    if cols == [] {
      return NadaEmComum;
    }
    assert cols[0] in cols;
    return Colunas(cols);
  }

  function Compativel(dest: string, incoming: string): bool {
    dest == incoming || (dest == "FLOAT" && incoming == "INTEGER")
  }

  /** destTypes: of two fields with one name the later one counts. */
  function TipoDe(esquema: seq<Campo>, nome: string): Option<string> {
    if esquema == [] then None
    else if esquema[|esquema| - 1].nome == nome then Some(esquema[|esquema| - 1].tipo)
    else TipoDe(esquema[..|esquema| - 1], nome)
  }

  predicate Serve(dest: seq<Campo>, f: Campo) {
    match TipoDe(dest, f.nome) case None => true case Some(t) => Compativel(t, f.tipo)
  }

  /** A column fits by the last field of the destination with its name: of the same type, or
      an integer into a FLOAT. A name the destination lacks is judged elsewhere. */
  lemma {:induction false} ServesIff(dest: seq<Campo>, f: Campo, j: nat)
    ensures j < |dest| && dest[j].nome == f.nome && (forall k :: j < k < |dest| ==> dest[k].nome != f.nome) ==>
              (Serve(dest, f) <==> dest[j].tipo == f.tipo || (dest[j].tipo == "FLOAT" && f.tipo == "INTEGER"))
    ensures (forall k :: 0 <= k < |dest| ==> dest[k].nome != f.nome) ==> Serve(dest, f)
  {
    if j < |dest| && dest[j].nome == f.nome && forall k :: j < k < |dest| ==> dest[k].nome != f.nome {
      LastWithName(dest, f.nome, j);
    }
    if forall k :: 0 <= k < |dest| ==> dest[k].nome != f.nome { NobodyWithName(dest, f.nome); }
  }

  lemma {:induction false} LastWithName(dest: seq<Campo>, nome: string, j: nat)
    requires j < |dest| && dest[j].nome == nome && forall k :: j < k < |dest| ==> dest[k].nome != nome
    ensures TipoDe(dest, nome) == Some(dest[j].tipo)
  {
    if j < |dest| - 1 { LastWithName(dest[..|dest| - 1], nome, j); }
  }

  lemma {:induction false} NobodyWithName(dest: seq<Campo>, nome: string)
    requires forall k :: 0 <= k < |dest| ==> dest[k].nome != nome
    ensures TipoDe(dest, nome).None?
  {
    if dest != [] { NobodyWithName(dest[..|dest| - 1], nome); }
  }

  predicate NomesCabem(dest: seq<Campo>, incoming: seq<Campo>) {
    forall i :: 0 <= i < |incoming| ==> incoming[i].nome in Nomes(dest)
  }

  lemma NamesAre(dest: seq<Campo>)
    ensures forall n :: n in Nomes(dest) <==> exists j :: 0 <= j < |dest| && dest[j].nome == n
  {
    forall j | 0 <= j < |dest| ensures dest[j].nome in Nomes(dest) { assert Nomes(dest)[j] == dest[j].nome; }
  }

  predicate TiposCabem(dest: seq<Campo>, incoming: seq<Campo>) {
    forall i :: 0 <= i < |incoming| ==> Serve(dest, incoming[i])
  }

  /** reconcile: accepted exactly when every staged column exists in the destination with
      a compatible type, and there is one. */
  method Reconcile(dest: seq<Campo>, incoming: seq<Campo>) returns (r: Acordo)
    ensures r.Colunas? <==> incoming != [] && NomesCabem(dest, incoming) && TiposCabem(dest, incoming)
    ensures r.Colunas? ==> r.cols == Filtra(Nomes(dest), Chaves(Nomes(incoming)), true)
    ensures r.Sobrando? <==> !NomesCabem(dest, incoming)
    ensures r.Sobrando? <==> exists i :: (0 <= i < |incoming| && forall j :: 0 <= j < |dest| ==> dest[j].nome != incoming[i].nome)
    ensures r.Colunas? ==> incoming != [] && forall i :: 0 <= i < |incoming| ==> Serve(dest, incoming[i])
    ensures r.TiposDiferentes? <==> incoming != [] && !r.Sobrando? && exists i :: 0 <= i < |incoming| && !Serve(dest, incoming[i])
    ensures r.NadaEmComum? <==> incoming == []
  {
    NamesAre(dest);
    r := ReconcileNomes(Nomes(dest), Nomes(incoming));
    assert forall i :: 0 <= i < |incoming| ==> Nomes(incoming)[i] == incoming[i].nome;
    if !NomesCabem(dest, incoming) {
      var i :| 0 <= i < |incoming| && incoming[i].nome !in Nomes(dest);
      assert Nomes(incoming)[i] in Nomes(incoming);
    }
    if !r.Colunas? { return; }
    var mismatched: seq<string> := [];
    for i := 0 to |incoming|
      invariant mismatched == [] <==> forall j :: 0 <= j < i ==> Serve(dest, incoming[j])
    {
      if !Serve(dest, incoming[i]) { mismatched := mismatched + [incoming[i].nome]; }
    }
    if mismatched != [] { return TiposDiferentes(Ordena(mismatched)); }
  }

  /** INSERT (cols) VALUES (incoming.cols): by name, every other column NULL. */
  function Inserida(r: Linha, cols: seq<string>): Linha {
    map c | c in r && c in cols :: r[c]
  }

  /** Nothing is dropped: under accepted columns a staged row is inserted whole. */
  lemma InsertedWhole(dest: seq<string>, incoming: seq<string>, r: Linha)
    requires (forall c :: c in incoming ==> c in dest) && (forall c :: c in r ==> c in incoming)
    ensures Inserida(r, Filtra(dest, Chaves(incoming), true)) == r
  {
    FiltraHas(dest, Chaves(incoming), true);
    forall c | c in r ensures c in Filtra(dest, Chaves(incoming), true) {
      var i :| 0 <= i < |incoming| && incoming[i] == c;
    }
  }

  function InseridaCada(lote: seq<Linha>, cols: seq<string>): seq<Linha> {
    seq(|lote|, i requires 0 <= i < |lote| => Inserida(lote[i], cols))
  }

  predicate Cabe(esquema: seq<Campo>, lote: seq<Linha>) {
    forall i, c :: 0 <= i < |lote| && c in lote[i] ==> c in Nomes(esquema)
  }

  lemma BatchInsertedWhole(esquema: seq<Campo>, lote: seq<Linha>)
    requires Cabe(esquema, lote)
    ensures InseridaCada(lote, Filtra(Nomes(esquema), Chaves(Nomes(esquema)), true)) == lote
  {
    forall i | 0 <= i < |lote| ensures Inserida(lote[i], Filtra(Nomes(esquema), Chaves(Nomes(esquema)), true)) == lote[i] {
      InsertedWhole(Nomes(esquema), Nomes(esquema), lote[i]);
    }
  }

  lemma NamesFit(esquema: seq<Campo>)
    ensures NomesCabem(esquema, esquema)
  {
    forall i | 0 <= i < |esquema| ensures esquema[i].nome in Nomes(esquema) {
      assert Nomes(esquema)[i] == esquema[i].nome;
    }
  }

  datatype Chamada = Metadados | CriarEstagio | CarregarEstagio | MetadadosEstagio | Mesclar

  /** Where it failed: a call to the service, rows staging does not take, or reconcile. */
  datatype Fim = Feito(inserted: nat, ignored: nat) | Falhou(chamada: Chamada) | NaoCabe

  /** The destination and the outcome of each call to the service. */
  class Loader {
    var esquema: seq<Campo>
    ghost var rows: Tabela

    constructor (esquema: seq<Campo>)
      ensures this.esquema == esquema && rows == multiset{}
    {
      this.esquema := esquema;
      rows := multiset{};
    }

    /** `recusa` is the call the service refuses, if any, `afetadas` the count it reports
        for the MERGE, if any, and `perdida` says that the MERGE took effect although the
        answer to it was an error. */
    method LoadWithMerge(lote: seq<Linha>, recusa: Option<Chamada>, afetadas: Option<nat>, perdida: bool)
      returns (fim: Fim)
      requires afetadas.Some? ==> afetadas.value == |Novas(rows, lote)|
      modifies this`rows
      ensures fim.Feito? ==> recusa.None? && rows == Mescla(old(rows), lote) && fim.inserted + fim.ignored == |lote|
      ensures fim.Feito? && afetadas.Some? ==> fim.inserted == |rows| - |old(rows)|
      ensures fim.Falhou? ==> recusa == Some(fim.chamada)
      ensures fim.NaoCabe? ==> !Cabe(esquema, lote) || esquema == [] || !TiposCabem(esquema, esquema)
      ensures fim.NaoCabe? ==>
                || esquema == [] || (exists i :: 0 <= i < |esquema| && !Serve(esquema, esquema[i]))
                || exists i, c :: (0 <= i < |lote| && c in lote[i] && forall j :: 0 <= j < |esquema| ==> esquema[j].nome != c)
      ensures !fim.Feito? ==> rows == if recusa == Some(Mesclar) && fim.Falhou? && perdida
                                      then Mescla(old(rows), lote) else old(rows)
    {
      NamesAre(esquema);
      var parou, cols := Estagiar(lote, recusa);
      if parou.Some? { return parou.value; }
      NovasIn(rows, lote);
      if recusa == Some(Mesclar) {
        if perdida { rows := Mescla(rows, InseridaCada(lote, cols)); }
        return Falhou(Mesclar);
      }
      rows := Mescla(rows, InseridaCada(lote, cols));
      var inserted := if afetadas.Some? then afetadas.value else |lote|;
      if inserted > |lote| { inserted := |lote|; }
      return Feito(inserted, |lote| - inserted);
    }

    /** Everything before the MERGE: the staging table takes the destination's schema, so
        the columns agreed on carry every staged row whole. */
    method Estagiar(lote: seq<Linha>, recusa: Option<Chamada>) returns (parou: Option<Fim>, cols: seq<string>)
      ensures parou.None? ==> (recusa.None? || recusa == Some(Mesclar)) && InseridaCada(lote, cols) == lote
      ensures parou.Some? && !parou.value.NaoCabe? ==>
                recusa.Some? && recusa != Some(Mesclar) && parou == Some(Falhou(recusa.value))
      ensures parou == Some(NaoCabe) ==> !Cabe(esquema, lote) || esquema == [] || !TiposCabem(esquema, esquema)
    {
      cols := [];
      if recusa == Some(Metadados) || recusa == Some(CriarEstagio) { return Some(Falhou(recusa.value)), cols; }
      if !Cabe(esquema, lote) { return Some(NaoCabe), cols; }
      if recusa == Some(CarregarEstagio) || recusa == Some(MetadadosEstagio) {
        return Some(Falhou(recusa.value)), cols;
      }
      var acordo := Reconcile(esquema, esquema);
      NamesFit(esquema);
      if !acordo.Colunas? { return Some(NaoCabe), cols; }
      BatchInsertedWhole(esquema, lote);
      assert recusa.Some? ==> recusa.value == Mesclar;
      assert acordo.cols == Filtra(Nomes(esquema), Chaves(Nomes(esquema)), true);
      return None, acordo.cols;
    }
  }

  /** A schema agrees with itself as soon as its names are distinct, so the staging table,
      made from the destination's schema, is always accepted. */
  lemma SchemaFitsItself(esquema: seq<Campo>)
    requires forall i, j :: 0 <= i < j < |esquema| ==> esquema[i].nome != esquema[j].nome
    ensures TiposCabem(esquema, esquema)
  {
    forall i | 0 <= i < |esquema| ensures Serve(esquema, esquema[i]) {
      TypeAt(esquema, i);
    }
  }

  lemma {:induction false} TypeAt(esquema: seq<Campo>, i: nat)
    requires i < |esquema| && forall i, j :: 0 <= i < j < |esquema| ==> esquema[i].nome != esquema[j].nome
    ensures TipoDe(esquema, esquema[i].nome) == Some(esquema[i].tipo)
  {
    if i < |esquema| - 1 { TypeAt(esquema[..|esquema| - 1], i); }
  }
}
