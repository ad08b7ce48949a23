/** sdk/to/files.go: the CSV writer, and a reader of section 2 of RFC 4180 whose lines
    end in LF. */
module Csv {
  import opened KeyOrder
  import opened Options

  predicate Especial(c: char) {
    c == '"' || c == ',' || c == '\n'
  }

  predicate TemEspecial(cell: string) {
    exists i :: 0 <= i < |cell| && Especial(cell[i])
  }

  /** strings.ReplaceAll(cell, `"`, `""`). */
  function Dobra(cell: string): string {
    if cell == "" then "" else (if cell[0] == '"' then "\"\"" else [cell[0]]) + Dobra(cell[1..])
  }

  function Campo(cell: string): string {
    if TemEspecial(cell) then "\"" + Dobra(cell) + "\"" else cell
  }

  /** The cells from the `i`-th on, with the end of the line. */
  function Linha(cells: seq<string>, i: nat): string
    requires i <= |cells|
    decreases |cells| - i
  {
    if i == |cells| then "\n" else (if i > 0 then "," else "") + (Campo(cells[i]) + Linha(cells, i + 1))
  }

  function Tabela(rows: seq<seq<string>>): string {
    if rows == [] then "" else Linha(rows[0], 0) + Tabela(rows[1..])
  }

  /** A cell is written as it is unless it has a quote, a comma or a line feed; then it
      stands in quotes. */
  lemma {:induction false} DobraGrows(cell: string)
    ensures |Dobra(cell)| >= |cell| && (Dobra(cell) == cell <==> '"' !in cell)
  {
    if cell != "" {
      DobraGrows(cell[1..]);
      assert cell == [cell[0]] + cell[1..];
      if cell[0] == '"' { assert |Dobra(cell)| > |cell|; }
    }
  }

  lemma WrittenPlainIff(cell: string)
    ensures Campo(cell) == cell <==> '"' !in cell && ',' !in cell && '\n' !in cell
    ensures Campo(cell) != cell ==> |Campo(cell)| >= 2 && Campo(cell)[0] == '"' && Campo(cell)[|Campo(cell)| - 1] == '"'
  {
    DobraGrows(cell);
    if TemEspecial(cell) { assert |Campo(cell)| > |cell|; }
    if !TemEspecial(cell) { assert forall i :: 0 <= i < |cell| ==> !Especial(cell[i]); }
    if c :| c in cell && Especial(c) {
      var i :| 0 <= i < |cell| && cell[i] == c;
      assert Especial(cell[i]);
    }
    if '"' in cell { assert Especial('"'); }
    if ',' in cell { assert Especial(','); }
    if '\n' in cell { assert Especial('\n'); }
  }

  method ContainsAny(cell: string) returns (sim: bool)
    ensures sim == TemEspecial(cell)
  {
    for i := 0 to |cell|
      invariant forall j :: 0 <= j < i ==> !Especial(cell[j])
    {
      if Especial(cell[i]) { return true; }
    }
    return false;
  }

  /** csvWriter.row. */
  method Row(buf: string, cells: seq<string>) returns (r: string)
    ensures r == buf + Linha(cells, 0)
  {
    r := buf;
    ghost var total := buf + Linha(cells, 0);
    for i := 0 to |cells|
      invariant total == r + Linha(cells, i)
    {
      Emenda(total, r, if i > 0 then "," else "", Campo(cells[i]), Linha(cells, i + 1));
      if i > 0 { r := r + ","; }
      r := EscreverCampo(r, cells[i]);
    }
    r := r + "\n";
  }

  lemma Emenda(total: string, r: string, sep: string, campo: string, resto: string)
    requires total == r + (sep + (campo + resto))
    ensures total == (r + sep) + campo + resto
    ensures sep == "" ==> r + sep == r
  {
  }

  method EscreverCampo(buf: string, cell: string) returns (r: string)
    ensures r == buf + Campo(cell)
  {
    var aspas := ContainsAny(cell);
    if aspas {
      r := buf + ("\"" + Dobra(cell) + "\"");
    } else {
      r := buf + cell;
    }
  }

  // ---- reading -----------------------------------------------------------

  /** A field after its opening quote: a doubled quote is a quote. */
  function LerAspas(t: string): (r: Option<(string, string)>)
    ensures r.Some? ==> |r.value.1| < |t|
  {
    if t == "" then None
    else if t[0] != '"' then
      match LerAspas(t[1..])
      case None => None
      case Some(f) => Some(([t[0]] + f.0, f.1))
    else if |t| > 1 && t[1] == '"' then
      match LerAspas(t[2..])
      case None => None
      case Some(f) => Some((['"'] + f.0, f.1))
    else Some(("", t[1..]))
  }

  /** A field without quotes: neither a quote nor a CR may stand in it. */
  function LerSimples(t: string): (r: Option<(string, string)>)
    ensures r.Some? ==> |r.value.1| <= |t|
  {
    if t == "" || t[0] == ',' || t[0] == '\n' then Some(("", t))
    else if t[0] == '"' || t[0] == '\r' then None
    else match LerSimples(t[1..])
         case None => None
         case Some(f) => Some(([t[0]] + f.0, f.1))
  }

  function LerCampo(t: string): (r: Option<(string, string)>)
    ensures r.Some? ==> |r.value.1| <= |t|
  {
    if t != "" && t[0] == '"' then LerAspas(t[1..]) else LerSimples(t)
  }

  /** A line has at least one field; the last line may lack its end. */
  function LerLinha(t: string): (r: Option<(seq<string>, string)>)
    ensures r.Some? && t != "" ==> |r.value.1| < |t|
    ensures r.Some? ==> |r.value.1| <= |t|
    decreases |t|
  {
    match LerCampo(t)
    case None => None
    case Some(f) =>
      if f.1 == "" then Some(([f.0], ""))
      else if f.1[0] == '\n' then Some(([f.0], f.1[1..]))
      else if f.1[0] != ',' then None
      else match LerLinha(f.1[1..])
           case None => None
           case Some(l) => Some(([f.0] + l.0, l.1))
  }

  function LerCsv(t: string): Option<seq<seq<string>>>
    decreases |t|
  {
    if t == "" then Some([])
    else match LerLinha(t)
         case None => None
         case Some(l) =>
           match LerCsv(l.1)
           case None => None
           case Some(rows) => Some([l.0] + rows)
  }

  // ---- the round trip ----------------------------------------------------

  /** A CR is read back only from a cell that is quoted for another reason. */
  predicate CelulaLegivel(cell: string) {
    '\r' in cell ==> TemEspecial(cell)
  }

  predicate LegivelDe(row: seq<string>, i: nat) {
    forall j :: i <= j < |row| ==> CelulaLegivel(row[j])
  }

  predicate Legivel(row: seq<string>) {
    LegivelDe(row, 0)
  }

  predicate FimDeCampo(x: string) {
    x == "" || x[0] == ',' || x[0] == '\n'
  }

  lemma {:induction false} ReadsQuoted(cell: string, x: string)
    requires x == "" || x[0] != '"'
    ensures LerAspas(Dobra(cell) + "\"" + x) == Some((cell, x))
  {
    var t := Dobra(cell) + "\"" + x;
    if cell == "" {
      assert t == "\"" + x && t[1..] == x;
    } else {
      var resto := Dobra(cell[1..]) + "\"" + x;
      ReadsQuoted(cell[1..], x);
      assert cell == [cell[0]] + cell[1..];
      if cell[0] == '"' {
        assert t == "\"\"" + resto && t[2..] == resto;
      } else {
        assert t == [cell[0]] + resto && t[1..] == resto;
      }
    }
  }

  lemma {:induction false} ReadsPlain(cell: string, x: string)
    requires !TemEspecial(cell) && FimDeCampo(x)
    ensures LerSimples(cell + x) == if '\r' in cell then None else Some((cell, x))
  {
    if cell == "" {
      assert cell + x == x;
    } else {
      assert !Especial(cell[0]);
      assert forall i :: 0 <= i < |cell[1..]| ==> cell[1..][i] == cell[i + 1];
      ReadsPlain(cell[1..], x);
      assert (cell + x)[1..] == cell[1..] + x;
      assert cell == [cell[0]] + cell[1..];
    }
  }

  lemma OpenQuote(e: string, x: string)
    ensures ("\"" + e + "\"" + x)[0] == '"'
    ensures ("\"" + e + "\"" + x)[1..] == e + "\"" + x
  {
  }

  lemma ReadsField(cell: string, x: string)
    requires FimDeCampo(x)
    ensures LerCampo(Campo(cell) + x) == if CelulaLegivel(cell) then Some((cell, x)) else None
  {
    var t := Campo(cell) + x;
    if TemEspecial(cell) {
      ReadsQuoted(cell, x);
      OpenQuote(Dobra(cell), x);
    } else {
      ReadsPlain(cell, x);
      if cell != "" { assert !Especial(cell[0]) && t[0] == cell[0]; }
    }
  }

  /** A field followed by the rest of its line. */
  lemma ReadsFieldThen(cell: string, resto: string, cells: seq<string>, x: string)
    requires resto != "" && resto[0] == ','
    requires LerLinha(resto[1..]) == Some((cells, x)) && CelulaLegivel(cell)
    ensures LerLinha(Campo(cell) + resto) == Some(([cell] + cells, x))
  {
    ReadsField(cell, resto);
  }

  lemma ReadsFieldThenNot(cell: string, resto: string)
    requires resto != "" && (resto[0] == ',' || resto[0] == '\n')
    requires !CelulaLegivel(cell) || (resto[0] == ',' && LerLinha(resto[1..]) == None)
    ensures LerLinha(Campo(cell) + resto) == None
  {
    ReadsField(cell, resto);
  }

  lemma ReadsLastField(cell: string, x: string)
    requires CelulaLegivel(cell)
    ensures LerLinha(Campo(cell) + ("\n" + x)) == Some(([cell], x))
  {
    ReadsField(cell, "\n" + x);
    assert ("\n" + x)[1..] == x;
  }

  lemma {:induction false} ReadsLine(row: seq<string>, i: nat, x: string)
    requires i < |row|
    ensures LerLinha(Campo(row[i]) + (Linha(row, i + 1) + x)) ==
            if LegivelDe(row, i) then Some((row[i..], x)) else None
    decreases |row| - i
  {
    var resto := Linha(row, i + 1) + x;
    assert row[i..] == [row[i]] + row[i + 1..];
    assert LegivelDe(row, i) <==> CelulaLegivel(row[i]) && LegivelDe(row, i + 1);
    if i + 1 == |row| {
      assert resto == "\n" + x && row[i..] == [row[i]];
      if CelulaLegivel(row[i]) { ReadsLastField(row[i], x); } else { ReadsFieldThenNot(row[i], resto); }
    } else {
      var seguinte := Campo(row[i + 1]) + (Linha(row, i + 2) + x);
      ReadsLine(row, i + 1, x);
      assert resto == "," + seguinte && resto[1..] == seguinte;
      if LegivelDe(row, i) {
        ReadsFieldThen(row[i], resto, row[i + 1..], x);
      } else {
        ReadsFieldThenNot(row[i], resto);
      }
    }
  }

  /** What a line is read back as: a row without cells looks like one empty cell. */
  function Lida(row: seq<string>): seq<string> {
    if row == [] then [""] else row
  }

  lemma ReadsEmptyRow(x: string)
    ensures LerLinha("\n" + x) == Some(([""], x))
  {
    var t := "\n" + x;
    assert t[1..] == x;
    assert LerCampo(t) == Some(("", t));
  }

  lemma ReadsRow(row: seq<string>, x: string)
    ensures LerLinha(Linha(row, 0) + x) == if Legivel(row) then Some((Lida(row), x)) else None
  {
    if row == [] {
      assert Linha(row, 0) == "\n";
      ReadsEmptyRow(x);
    } else {
      ReadsLine(row, 0, x);
      FirstCell(Campo(row[0]), Linha(row, 1), x);
      assert row[0..] == row;
    }
  }

  lemma FirstCell(campo: string, resto: string, x: string)
    ensures "" + (campo + resto) + x == campo + (resto + x)
  {
  }

  function Lidas(rows: seq<seq<string>>): seq<seq<string>> {
    if rows == [] then [] else [Lida(rows[0])] + Lidas(rows[1..])
  }

  lemma {:induction false} ReadsTable(rows: seq<seq<string>>)
    ensures LerCsv(Tabela(rows)) ==
            if forall i :: 0 <= i < |rows| ==> Legivel(rows[i]) then Some(Lidas(rows)) else None
  {
    if rows != [] {
      ReadsRow(rows[0], Tabela(rows[1..]));
      ReadsTable(rows[1..]);
      LinhaNotEmpty(rows[0], 0);
      assert forall i :: 0 <= i < |rows[1..]| ==> rows[1..][i] == rows[i + 1];
      assert (forall i :: 0 <= i < |rows| ==> Legivel(rows[i])) <==>
             Legivel(rows[0]) && forall i :: 0 <= i < |rows[1..]| ==> Legivel(rows[1..][i])
      by {
        if Legivel(rows[0]) && forall i :: 0 <= i < |rows[1..]| ==> Legivel(rows[1..][i]) {
          forall i | 0 <= i < |rows| ensures Legivel(rows[i]) {
            if i > 0 { assert Legivel(rows[1..][i - 1]); }
          }
        }
      }
    }
  }

  lemma {:induction false} LinhaNotEmpty(row: seq<string>, i: nat)
    requires i <= |row|
    ensures Linha(row, i) != ""
    decreases |row| - i
  {
    if i < |row| { LinhaNotEmpty(row, i + 1); }
  }

  lemma {:induction false} LidasAt(rows: seq<seq<string>>)
    ensures |Lidas(rows)| == |rows|
    ensures forall i :: 0 <= i < |rows| ==> Lidas(rows)[i] == Lida(rows[i])
  {
    if rows != [] { LidasAt(rows[1..]); }
  }

  /** The round trip: reading the text gives back the rows exactly when every row has a
      cell and a CR stands only in cells quoted for another reason. */
  lemma RoundTripIff(rows: seq<seq<string>>)
    ensures LerCsv(Tabela(rows)) == Some(rows) <==>
            forall i :: 0 <= i < |rows| ==> rows[i] != [] && Legivel(rows[i])
  {
    ReadsTable(rows);
    LidasAt(rows);
    if forall i :: 0 <= i < |rows| ==> rows[i] != [] && Legivel(rows[i]) {
      assert Lidas(rows) == rows;
    }
  }

  // ---- encodeCSV ---------------------------------------------------------

  /** A field's value; Outro carries the text encoding/json renders. */
  datatype Valor = Nulo | Texto(s: string) | Outro(json: string)

  /** A payload is an object or it is refused. */
  datatype Registro = Objeto(m: map<string, Valor>) | NaoObjeto

  function {:tailrecursion false} TiraAspas(s: string): string {
    if s != "" && s[0] == '"' then TiraAspas(s[1..])
    else if s != "" && s[|s| - 1] == '"' then TiraAspas(s[..|s| - 1])
    else s
  }

  function Cell(v: Valor): string {
    match v case Nulo => "" case Texto(s) => s case Outro(json) => TiraAspas(json)
  }

  /** Trimmed are the quotes at both ends, all of them and nothing else. */
  lemma {:induction false} TrimmedIs(s: string) returns (a: nat, b: nat)
    ensures a <= b <= |s| && TiraAspas(s) == s[a..b]
    ensures (forall i :: 0 <= i < a ==> s[i] == '"') && forall i :: b <= i < |s| ==> s[i] == '"'
    ensures a < b ==> s[a] != '"' && s[b - 1] != '"'
  {
    if s != "" && s[0] == '"' {
      var x, y := TrimmedIs(s[1..]);
      a, b := x + 1, y + 1;
      assert s[1..][x..y] == s[a..b];
      forall i | 0 <= i < a ensures s[i] == '"' { assert i > 0 ==> s[1..][i - 1] == '"'; }
      forall i | b <= i < |s| ensures s[i] == '"' { assert s[1..][i - 1] == '"'; }
    } else if s != "" && s[|s| - 1] == '"' {
      a, b := TrimmedIs(s[..|s| - 1]);
      assert s[..|s| - 1][a..b] == s[a..b];
      forall i | b <= i < |s| ensures s[i] == '"' { assert i < |s| - 1 ==> s[..|s| - 1][i] == '"'; }
    } else {
      a, b := 0, |s|;
      assert s[0..|s|] == s;
    }
  }

  /** What a cell holds: nothing for nil, a string as it is, and any other value the text
      encoding/json gives it, without the quotes around it. */
  lemma CellText(s: string)
    ensures Cell(Nulo) == "" && Cell(Texto(s)) == s && Cell(Outro(s)) == TiraAspas(s)
  {
  }

  /** row[c], where an absent key reads as nil. */
  function Celula(m: map<string, Valor>, c: string): string {
    if c in m then Cell(m[c]) else Cell(Nulo)
  }

  datatype Resultado = Ok(texto: string) | Erro(indice: nat)

  /** The keys of the first `n` records. */
  function Uniao(records: seq<Registro>, n: nat): set<string>
    requires n <= |records|
  {
    if n == 0 then {}
    else Uniao(records, n - 1) + match records[n - 1] case Objeto(m) => m.Keys case NaoObjeto => {}
  }

  function Celulas(cols: seq<string>, m: map<string, Valor>): seq<string> {
    seq(|cols|, j requires 0 <= j < |cols| => Celula(m, cols[j]))
  }

  /** The header and one row for each record. */
  function Linhas(cols: seq<string>, records: seq<Registro>): seq<seq<string>>
    requires forall i :: 0 <= i < |records| ==> records[i].Objeto?
  {
    [cols] + seq(|records|, i requires 0 <= i < |records| => Celulas(cols, records[i].m))
  }

  lemma TabelaSnoc(rows: seq<seq<string>>, row: seq<string>)
    ensures Tabela(rows + [row]) == Tabela(rows) + Linha(row, 0)
  {
    if rows == [] {
      assert rows + [row] == [row];
      assert Tabela([row]) == Linha(row, 0) + Tabela([row][1..]);
    } else {
      assert (rows + [row])[1..] == rows[1..] + [row];
      TabelaSnoc(rows[1..], row);
    }
  }

  method EncodeCSV(records: seq<Registro>) returns (r: Resultado)
    ensures r.Erro? <==> exists i :: 0 <= i < |records| && records[i].NaoObjeto?
    ensures r.Erro? ==> r.indice < |records| && records[r.indice].NaoObjeto? &&
                        forall i :: 0 <= i < r.indice ==> records[i].Objeto?
    ensures r.Ok? ==> (forall i :: 0 <= i < |records| ==> records[i].Objeto?) &&
                      r.texto == Tabela(Linhas(Ordenadas(Uniao(records, |records|)), records))
  {
    var seen: set<string> := {};
    for i := 0 to |records|
      invariant forall j :: 0 <= j < i ==> records[j].Objeto?
      invariant seen == Uniao(records, i)
    {
      if records[i].NaoObjeto? { return Erro(i); }
      seen := seen + records[i].m.Keys;
    }
    var cols := Colunas(seen);
    var buf := Row("", cols);
    ghost var feitas := [cols];
    TabelaSnoc([], cols);
    assert [] + [cols] == [cols];
    for i := 0 to |records|
      invariant |feitas| == i + 1 && feitas == Linhas(cols, records)[..i + 1]
      invariant buf == Tabela(feitas)
    {
      var cells := Celulas(cols, records[i].m);
      buf := Row(buf, cells);
      TabelaSnoc(feitas, cells);
      feitas := feitas + [cells];
    }
    assert feitas == Linhas(cols, records);
    return Ok(buf);
  }

  /** The keys, in whatever order the map yields them, then sorted. */
  method Colunas(seen: set<string>) returns (cols: seq<string>)
    ensures cols == Ordenadas(seen)
  {
    cols := [];
    var faltam := seen;
    while faltam != {}
      invariant faltam <= seen && SemRepetir(cols) && Chaves(cols) == seen - faltam
      decreases faltam
    {
      var k :| k in faltam;
      assert forall i :: 0 <= i < |cols| ==> cols[i] in Chaves(cols);
      SnocKeys(cols, k);
      cols := cols + [k];
      faltam := faltam - {k};
    }
    OrdenaAscends(cols);
    cols := Ordena(cols);
    AscendingIsUnique(cols, Ordenadas(seen));
  }

  lemma {:induction false} UniaoHas(records: seq<Registro>, n: nat, k: string)
    requires n <= |records|
    ensures k in Uniao(records, n) <==> exists i :: 0 <= i < n && records[i].Objeto? && k in records[i].m
  {
    if n > 0 {
      UniaoHas(records, n - 1, k);
      if records[n - 1].Objeto? && k in records[n - 1].m { assert k in Uniao(records, n); }
    }
  }

  /** Every record lines up under the header: a table read back has the header first,
      each field of each record stands under its own name, and every other cell of the
      record is empty. */
  lemma RecordsLineUp(records: seq<Registro>, i: nat, j: nat)
    requires i < |records| && forall r :: 0 <= r < |records| ==> records[r].Objeto?
    requires j < |Ordenadas(Uniao(records, |records|))|
    requires forall r :: 0 <= r <= |records| ==> Legivel(Linhas(Ordenadas(Uniao(records, |records|)), records)[r])
    ensures var cols := Ordenadas(Uniao(records, |records|));
      var lido := LerCsv(Tabela(Linhas(cols, records)));
      && lido.Some? && |lido.value| == |records| + 1 && lido.value[0] == cols && |lido.value[i + 1]| == |cols|
      && (cols[j] in records[i].m ==> lido.value[i + 1][j] == Cell(records[i].m[cols[j]]))
      && (cols[j] !in records[i].m ==> lido.value[i + 1][j] == "")
      && (forall k :: k in records[i].m ==> k in cols)
  {
    var cols := Ordenadas(Uniao(records, |records|));
    var rows := Linhas(cols, records);
    forall r | 0 <= r < |rows| ensures rows[r] != [] && Legivel(rows[r]) {
      assert Legivel(rows[r]);
    }
    RoundTripIff(rows);
    forall k | k in records[i].m ensures k in cols {
      UniaoHas(records, |records|, k);
      assert k in Chaves(cols);
    }
  }
}
