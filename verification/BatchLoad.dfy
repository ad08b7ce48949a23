/** sdk/sdk.go: loading a stream whole, or in batches of FlushEvery. */
module BatchLoad {
  import opened Options
  import opened Seqs

  /** What iterating the records yields. */
  datatype Evento<E> = Env(e: E) | Falha

  datatype LoadResult = LoadResult(
    rows: int, ignored: int, bytes: int,
    strategy: string, format: string, dedup: string,
    created: bool, errorRows: seq<string>, objects: seq<string>)

  /** A Write may report counters and an error, in any combination. */
  datatype Resposta = Resposta(lr: Option<LoadResult>, erro: bool)

  datatype Erro = Nenhum | DeLeitura | DoDestino

  const VAZIO := LoadResult(0, 0, 0, "", "", "", false, [], [])

  /** The records before the first error. */
  function Registros<E>(stream: seq<Evento<E>>): seq<E> {
    if stream == [] || stream[0].Falha? then [] else [stream[0].e] + Registros(stream[1..])
  }

  predicate TemFalha<E>(stream: seq<Evento<E>>) {
    exists i :: 0 <= i < |stream| && stream[i].Falha?
  }

  // ---- batches -----------------------------------------------------------

  function Levas<E>(s: seq<E>, n: nat): seq<seq<E>>
    requires n > 0
  {
    if s == [] then [] else if |s| <= n then [s] else [s[..n]] + Levas(s[n..], n)
  }

  /** The batches that are full, and the records left over. */
  function Cheias<E>(s: seq<E>, n: nat): seq<seq<E>>
    requires n > 0
  {
    if |s| < n then [] else [s[..n]] + Cheias(s[n..], n)
  }

  function Sobra<E>(s: seq<E>, n: nat): (r: seq<E>)
    requires n > 0
    ensures |r| < n
  {
    if |s| < n then s else Sobra(s[n..], n)
  }

  function Resto<E>(leva: seq<E>): seq<seq<E>> {
    if leva == [] then [] else [leva]
  }

  lemma {:induction false} LevasSplit<E>(s: seq<E>, n: nat)
    requires n > 0
    ensures Levas(s, n) == Cheias(s, n) + Resto(Sobra(s, n))
  {
    if |s| > n {
      LevasSplit(s[n..], n);
    } else if |s| == n {
      assert s[..n] == s && s[n..] == [];
    }
  }

  /** The batches are the stream cut up: nothing lost, moved or repeated, every batch but
      the last of exactly `n` records, and none empty. */
  lemma {:induction false} LevasPartition<E>(s: seq<E>, n: nat)
    requires n > 0
    ensures Concat(Levas(s, n)) == s
    ensures forall k :: 0 <= k < |Levas(s, n)| ==> 0 < |Levas(s, n)[k]| <= n
    ensures forall k :: 0 <= k < |Levas(s, n)| - 1 ==> |Levas(s, n)[k]| == n
  {
    if |s| > n {
      LevasPartition(s[n..], n);
      assert s == s[..n] + s[n..];
    } else if s != [] {
      ConcatOne(s);
    }
  }

  lemma {:induction false} CheiasPartition<E>(s: seq<E>, n: nat)
    requires n > 0
    ensures Concat(Cheias(s, n)) + Sobra(s, n) == s
    ensures forall k :: 0 <= k < |Cheias(s, n)| ==> |Cheias(s, n)[k]| == n
  {
    if |s| >= n {
      CheiasPartition(s[n..], n);
      assert s == s[..n] + s[n..];
    }
  }

  /** One more record: it joins the rest, or fills a batch. */
  lemma {:induction false} OneMoreRecord<E>(s: seq<E>, e: E, n: nat)
    requires n > 0
    ensures var leva := Sobra(s, n) + [e];
      if |leva| < n then Sobra(s + [e], n) == leva && Cheias(s + [e], n) == Cheias(s, n)
      else Sobra(s + [e], n) == [] && Cheias(s + [e], n) == Cheias(s, n) + [leva]
  {
    var t := s + [e];
    if |s| >= n {
      assert t[..n] == s[..n] && t[n..] == s[n..] + [e];
      OneMoreRecord(s[n..], e, n);
    } else if |t| == n {
      assert t[..n] == t && t[n..] == [];
    }
  }

  /** Batches once full stay as they are when more records come. */
  lemma {:induction false} CheiasOfLonger<E>(s: seq<E>, x: seq<E>, n: nat)
    requires n > 0
    ensures Cheias(s, n) <= Cheias(s + x, n) <= Levas(s + x, n)
  {
    LevasSplit(s + x, n);
    if |s| >= n {
      assert (s + x)[..n] == s[..n] && (s + x)[n..] == s[n..] + x;
      CheiasOfLonger(s[n..], x, n);
    }
  }

  // ---- counters ----------------------------------------------------------

  /** somar. */
  function Somar(res: LoadResult, lr: LoadResult): LoadResult {
    LoadResult(res.rows + lr.rows, res.ignored + lr.ignored, res.bytes + lr.bytes,
               lr.strategy, lr.format, lr.dedup, res.created || lr.created,
               res.errorRows + lr.errorRows, res.objects + lr.objects)
  }

  /** The counters after the answers to the first `k` writes. */
  function Acumulado(respostas: nat -> Resposta, k: nat): LoadResult {
    if k == 0 then VAZIO
    else match respostas(k - 1).lr
         case None => Acumulado(respostas, k - 1)
         case Some(lr) => Somar(Acumulado(respostas, k - 1), lr)
  }

  function Total(respostas: nat -> Resposta, k: nat, campo: LoadResult -> int): int {
    if k == 0 then 0
    else Total(respostas, k - 1, campo) + (match respostas(k - 1).lr case None => 0 case Some(lr) => campo(lr))
  }

  /** Rows, ignored and bytes are the sums over the answers; the table counts as created
      if any answer says so. */
  lemma {:induction false} CountersAreSums(respostas: nat -> Resposta, k: nat)
    ensures Acumulado(respostas, k).rows == Total(respostas, k, (lr: LoadResult) => lr.rows)
    ensures Acumulado(respostas, k).ignored == Total(respostas, k, (lr: LoadResult) => lr.ignored)
    ensures Acumulado(respostas, k).bytes == Total(respostas, k, (lr: LoadResult) => lr.bytes)
    ensures Acumulado(respostas, k).created <==>
            exists j: nat :: j < k && respostas(j).lr.Some? && respostas(j).lr.value.created
  {
    if k > 0 { CountersAreSums(respostas, k - 1); }
  }

  /** One answer more, field by field: numbers add up, the lists of objects and of refused
      rows grow at their end, the texts are those of the latest answer. */
  lemma OneAnswerMore(respostas: nat -> Resposta, k: nat)
    ensures var a := Acumulado(respostas, 0);
      a.rows == 0 && a.ignored == 0 && a.bytes == 0 && !a.created && a.errorRows == [] && a.objects == []
    ensures respostas(k).lr.None? ==> Acumulado(respostas, k + 1) == Acumulado(respostas, k)
    ensures respostas(k).lr.Some? ==>
      var a, b, lr := Acumulado(respostas, k), Acumulado(respostas, k + 1), respostas(k).lr.value;
      && b.rows == a.rows + lr.rows && b.ignored == a.ignored + lr.ignored && b.bytes == a.bytes + lr.bytes
      && (b.created <==> a.created || lr.created)
      && b.errorRows == a.errorRows + lr.errorRows && b.objects == a.objects + lr.objects
      && b.strategy == lr.strategy && b.format == lr.format && b.dedup == lr.dedup
  {
  }

  // ---- the two loads -----------------------------------------------------

  /** The destination: it keeps every batch it was given, and answers as it likes. */
  class Escritor<E> {
    const respostas: nat -> Resposta
    var recebidos: seq<seq<E>>

    constructor (respostas: nat -> Resposta)
      ensures this.respostas == respostas && recebidos == []
    {
      this.respostas := respostas;
      recebidos := [];
    }

    method Write(lote: seq<E>) returns (r: Resposta)
      modifies this
      ensures recebidos == old(recebidos) + [lote]
      ensures r == respostas(|old(recebidos)|)
    {
      r := respostas(|recebidos|);
      recebidos := recebidos + [lote];
    }
  }

  /** The batches a stream gives rise to when every write succeeds: after a failure of
      the reading, what did not fill a batch is not written. */
  function Planejadas<E>(stream: seq<Evento<E>>, n: nat): seq<seq<E>>
    requires n > 0
  {
    if TemFalha(stream) then Cheias(Registros(stream), n) else Levas(Registros(stream), n)
  }

  /** The first of `m` writes that is refused, or `m`. */
  function Parada(respostas: nat -> Resposta, m: nat): (p: nat)
    ensures p <= m
  {
    if m == 0 then 0
    else
      var p := Parada(respostas, m - 1);
      if p < m - 1 || respostas(m - 1).erro then p else m
  }

  lemma {:induction false} ParadaIsFirst(respostas: nat -> Resposta, m: nat)
    ensures var p := Parada(respostas, m);
      (p < m ==> respostas(p).erro) && forall k: nat :: k < p ==> !respostas(k).erro
  {
    if m > 0 { ParadaIsFirst(respostas, m - 1); }
  }

  lemma TailOfPrefix<E>(stream: seq<Evento<E>>, i: nat)
    requires 0 < i <= |stream|
    ensures stream[..i] != [] && stream[..i][0] == stream[0] && stream[..i][1..] == stream[1..][..i - 1]
    ensures !TemFalha(stream[..i]) ==> stream[0].Env? && !TemFalha(stream[1..][..i - 1])
  {
    if !TemFalha(stream[..i]) {
      var t := stream[1..][..i - 1];
      forall j | 0 <= j < |t| ensures t[j].Env? {
        assert stream[..i][j + 1].Env?;
      }
    }
  }

  lemma {:induction false} NextRecord<E>(stream: seq<Evento<E>>, i: nat)
    requires i < |stream| && !TemFalha(stream[..i]) && stream[i].Env?
    ensures Registros(stream[..i + 1]) == Registros(stream[..i]) + [stream[i].e]
    ensures !TemFalha(stream[..i + 1])
  {
    TailOfPrefix(stream, i + 1);
    if i == 0 {
      assert stream[..1][1..] == [] && stream[..0] == [];
    } else {
      TailOfPrefix(stream, i);
      NextRecord(stream[1..], i - 1);
    }
  }

  lemma {:induction false} NextFailure<E>(stream: seq<Evento<E>>, i: nat)
    requires i < |stream| && !TemFalha(stream[..i]) && stream[i].Falha?
    ensures Registros(stream) == Registros(stream[..i]) && TemFalha(stream)
  {
    if i == 0 {
      assert stream[..0] == [];
    } else {
      TailOfPrefix(stream, i);
      NextFailure(stream[1..], i - 1);
    }
  }

  lemma RegistrosTake<E>(stream: seq<Evento<E>>, i: nat)
    requires i < |stream| && !TemFalha(stream[..i])
    ensures stream[i].Env? ==> Registros(stream[..i + 1]) == Registros(stream[..i]) + [stream[i].e]
    ensures stream[i].Env? ==> !TemFalha(stream[..i + 1])
    ensures stream[i].Falha? ==> Registros(stream) == Registros(stream[..i]) && TemFalha(stream)
  {
    if stream[i].Env? { NextRecord(stream, i); } else { NextFailure(stream, i); }
  }

  lemma {:induction false} RegistrosPrefix<E>(stream: seq<Evento<E>>, i: nat)
    requires i <= |stream| && !TemFalha(stream[..i])
    ensures Registros(stream[..i]) <= Registros(stream) && |Registros(stream[..i])| == i
    decreases |stream| - i
  {
    if i == |stream| {
      assert stream[..i] == stream;
      AllRecords(stream);
    } else {
      RegistrosTake(stream, i);
      if stream[i].Env? {
        RegistrosPrefix(stream, i + 1);
      } else {
        AllRecords(stream[..i]);
      }
    }
  }

  lemma {:induction false} AllRecords<E>(stream: seq<Evento<E>>)
    requires !TemFalha(stream)
    ensures |Registros(stream)| == |stream|
  {
    if stream != [] {
      assert forall j :: 0 <= j < |stream[1..]| ==> stream[1..][j] == stream[j + 1];
      AllRecords(stream[1..]);
    }
  }

  /** What the load did, when it stopped at write `p` or made them all. */
  ghost predicate Fez<E>(stream: seq<Evento<E>>, n: nat, respostas: nat -> Resposta,
                         recebidos: seq<seq<E>>, res: LoadResult, records: nat, erro: Erro)
    requires n > 0
  {
    var alvo := Planejadas(stream, n);
    var p := Parada(respostas, |alvo|);
    && recebidos == (if p < |alvo| then alvo[..p + 1] else alvo)
    && erro == (if p < |alvo| then DoDestino else if TemFalha(stream) then DeLeitura else Nenhum)
    && records == (if p < |alvo| then |Concat(recebidos)| else |Registros(stream)|)
    && res == Acumulado(respostas, |recebidos|)
  }

  lemma ParadaAt(respostas: nat -> Resposta, m: nat, p: nat)
    requires p <= m && (forall k: nat :: k < p ==> !respostas(k).erro) && (p < m ==> respostas(p).erro)
    ensures Parada(respostas, m) == p
  {
    ParadaIsFirst(respostas, m);
  }

  /** Where the reading of the first `i` events leaves the load. */
  ghost predicate Lido<E>(stream: seq<Evento<E>>, n: nat, i: nat, recebidos: seq<seq<E>>, leva: seq<E>) {
    n > 0 && i <= |stream| && !TemFalha(stream[..i]) &&
    recebidos == Cheias(Registros(stream[..i]), n) && leva == Sobra(Registros(stream[..i]), n)
  }

  /** No write so far was refused, and the counters are theirs. */
  ghost predicate Aceitos(respostas: nat -> Resposta, k: nat, res: LoadResult) {
    res == Acumulado(respostas, k) && forall j: nat :: j < k ==> !respostas(j).erro
  }

  lemma ReadsOne<E>(stream: seq<Evento<E>>, n: nat, i: nat, recebidos: seq<seq<E>>, leva: seq<E>)
    requires Lido(stream, n, i, recebidos, leva) && i < |stream| && stream[i].Env?
    ensures var mais := leva + [stream[i].e];
      if |mais| < n then Lido(stream, n, i + 1, recebidos, mais)
      else Lido(stream, n, i + 1, recebidos + [mais], [])
  {
    RegistrosTake(stream, i);
    OneMoreRecord(Registros(stream[..i]), stream[i].e, n);
  }

  lemma {:induction false} StopsAtRefusal<E>(stream: seq<Evento<E>>, n: nat, i: nat, recebidos: seq<seq<E>>, respostas: nat -> Resposta)
    requires Lido(stream, n, i, recebidos, []) && recebidos != []
    requires forall j: nat :: j < |recebidos| - 1 ==> !respostas(j).erro
    requires respostas(|recebidos| - 1).erro
    ensures Fez(stream, n, respostas, recebidos, Acumulado(respostas, |recebidos|), i, DoDestino)
  {
    var alvo := Planejadas(stream, n);
    var p: nat := |recebidos| - 1;
    PlanGoesOn(stream, i, n);
    assert recebidos == alvo[..p + 1];
    assert |Concat(recebidos)| == i by {
      RegistrosPrefix(stream, i);
      CheiasPartition(Registros(stream[..i]), n);
    }
    ParadaAt(respostas, |alvo|, p);
  }

  lemma {:induction false} StopsAtFailure<E>(stream: seq<Evento<E>>, n: nat, i: nat, recebidos: seq<seq<E>>, leva: seq<E>,
                          respostas: nat -> Resposta, res: LoadResult)
    requires Lido(stream, n, i, recebidos, leva) && i < |stream| && stream[i].Falha?
    requires Aceitos(respostas, |recebidos|, res)
    ensures Fez(stream, n, respostas, recebidos, res, i, DeLeitura)
  {
    RegistrosTake(stream, i);
    RegistrosPrefix(stream, i);
    ParadaAt(respostas, |recebidos|, |recebidos|);
  }

  /** The end of the stream: `resto` is the last, partial batch, if there is one. */
  lemma {:induction false} StopsAtEnd<E>(stream: seq<Evento<E>>, n: nat, recebidos: seq<seq<E>>, leva: seq<E>, respostas: nat -> Resposta)
    requires Lido(stream, n, |stream|, recebidos, leva)
    requires Aceitos(respostas, |recebidos|, Acumulado(respostas, |recebidos|))
    ensures var todos, k := recebidos + Resto(leva), |recebidos|;
      Fez(stream, n, respostas, todos, Acumulado(respostas, |todos|), |stream|,
          if leva != [] && respostas(k).erro then DoDestino else Nenhum)
  {
    assert stream[..|stream|] == stream;
    var regs := Registros(stream);
    AllRecords(stream);
    LevasSplit(regs, n);
    LevasPartition(regs, n);
    var alvo := Planejadas(stream, n);
    ParadaAt(respostas, |alvo|, if leva != [] && respostas(|recebidos|).erro then |recebidos| else |alvo|);
  }

  /** The closure escrever. */
  method Escrever<E>(to: Escritor<E>, leva: seq<E>, antes: LoadResult) returns (res: LoadResult, erro: bool)
    requires Aceitos(to.respostas, |to.recebidos|, antes)
    modifies to
    ensures to.recebidos == old(to.recebidos) + Resto(leva)
    ensures res == Acumulado(to.respostas, |to.recebidos|)
    ensures erro <==> leva != [] && to.respostas(|old(to.recebidos)|).erro
  {
    if leva == [] { return antes, false; }
    var r := to.Write(leva);
    res := if r.lr.Some? then Somar(antes, r.lr.value) else antes;
    return res, r.erro;
  }

  method LoadEmLevas<E>(stream: seq<Evento<E>>, flushEvery: nat, to: Escritor<E>)
    returns (res: LoadResult, records: nat, erro: Erro)
    requires flushEvery > 0 && to.recebidos == []
    modifies to
    ensures Fez(stream, flushEvery, to.respostas, to.recebidos, res, records, erro)
  {
    res, records := VAZIO, 0;
    var leva: seq<E> := [];
    var recusada: bool;
    while records < |stream|
      invariant Lido(stream, flushEvery, records, to.recebidos, leva)
      invariant Aceitos(to.respostas, |to.recebidos|, res)
    {
      match stream[records]
      case Falha =>
        StopsAtFailure(stream, flushEvery, records, to.recebidos, leva, to.respostas, res);
        return res, records, DeLeitura;
      case Env(e) =>
        ReadsOne(stream, flushEvery, records, to.recebidos, leva);
        records := records + 1;
        leva := leva + [e];
        if |leva| >= flushEvery {
          res, recusada := Escrever(to, leva, res);
          leva := [];
          if recusada {
            StopsAtRefusal(stream, flushEvery, records, to.recebidos, to.respostas);
            return res, records, DoDestino;
          }
        }
    }
    StopsAtEnd(stream, flushEvery, to.recebidos, leva, to.respostas);
    res, recusada := Escrever(to, leva, res);
    return res, records, if recusada then DoDestino else Nenhum;
  }

  lemma PlanGoesOn<E>(stream: seq<Evento<E>>, i: nat, n: nat)
    requires n > 0 && i <= |stream| && !TemFalha(stream[..i])
    ensures Cheias(Registros(stream[..i]), n) <= Planejadas(stream, n)
  {
    RegistrosPrefix(stream, i);
    var regs := Registros(stream[..i]);
    var mais := Registros(stream)[|regs|..];
    assert Registros(stream) == regs + mais;
    CheiasOfLonger(regs, mais, n);
  }

  /** FlushEvery zero: everything in one write, and nothing at all after a read failure. */
  method LoadInteiro<E>(stream: seq<Evento<E>>, to: Escritor<E>)
    returns (res: LoadResult, records: nat, erro: Erro)
    requires to.recebidos == []
    modifies to
    ensures to.recebidos == if TemFalha(stream) || stream == [] then [] else [Registros(stream)]
    ensures erro == if TemFalha(stream) then DeLeitura
                    else if stream != [] && to.respostas(0).erro then DoDestino else Nenhum
    ensures !TemFalha(stream) ==> records == |stream|
    ensures to.recebidos != [] && to.respostas(0).lr.Some? ==> res == to.respostas(0).lr.value
  {
    res, records := VAZIO, 0;
    var envelopes: seq<E> := [];
    var i := 0;
    while i < |stream|
      invariant i <= |stream| && !TemFalha(stream[..i])
      invariant envelopes == Registros(stream[..i]) && |envelopes| == i
      invariant to.recebidos == []
    {
      RegistrosTake(stream, i);
      if stream[i].Falha? { return res, 0, DeLeitura; }
      envelopes := envelopes + [stream[i].e];
      i := i + 1;
    }
    assert stream[..i] == stream;
    records := |envelopes|;
    if envelopes == [] { return res, 0, Nenhum; }
    var r := to.Write(envelopes);
    if r.lr.Some? { res := r.lr.value; }
    return res, records, if r.erro then DoDestino else Nenhum;
  }

  /** The batched load refines the single one: when nothing fails, its batches put
      together are the one batch of the single load, record for record. Whatever fails,
      the batches are a prefix of the stream's records. */
  lemma BatchesAreThePrefix<E>(stream: seq<Evento<E>>, n: nat, respostas: nat -> Resposta,
                               recebidos: seq<seq<E>>, res: LoadResult, records: nat, erro: Erro)
    requires n > 0 && Fez(stream, n, respostas, recebidos, res, records, erro)
    ensures Concat(recebidos) <= Registros(stream)
    ensures erro == Nenhum ==> Concat(recebidos) == Registros(stream)
    ensures erro == DeLeitura ==> Concat(recebidos) + Sobra(Registros(stream), n) == Registros(stream)
    ensures forall k :: 0 <= k < |recebidos| ==> 0 < |recebidos[k]| <= n
    ensures forall k :: 0 <= k < |recebidos| - 1 ==> |recebidos[k]| == n
  {
    var alvo := Planejadas(stream, n);
    var regs := Registros(stream);
    LevasPartition(regs, n);
    CheiasPartition(regs, n);
    assert recebidos <= alvo;
    ConcatPrefix(recebidos, alvo);
  }

  // ---- the load on the events themselves ---------------------------------

  /** The records are the events before the first failure, which is at `f` if there is one. */
  lemma {:induction false} RecordsAre<E>(stream: seq<Evento<E>>, f: nat)
    requires f <= |stream| && (forall j :: 0 <= j < f ==> stream[j].Env?) && (f < |stream| ==> stream[f].Falha?)
    ensures |Registros(stream)| == f && forall j :: 0 <= j < f ==> Registros(stream)[j] == stream[j].e
    ensures TemFalha(stream) <==> f < |stream|
  {
    if f > 0 {
      assert forall j :: 0 <= j < |stream[1..]| ==> stream[1..][j] == stream[j + 1];
      RecordsAre(stream[1..], f - 1);
    }
  }

  lemma {:induction false} FullCount<E>(s: seq<E>, n: nat)
    requires n > 0
    ensures |Cheias(s, n)| * n <= |s| < (|Cheias(s, n)| + 1) * n
  {
    if |s| >= n {
      FullCount(s[n..], n);
      Shift(|Cheias(s[n..], n)|, n);
    }
  }

  /** The `k`-th full batch begins at `a`. */
  lemma {:induction false} FullAt<E>(s: seq<E>, n: nat, k: nat, a: int)
    requires n > 0 && k < |Cheias(s, n)| && a == k * n
    ensures 0 <= a && a + n <= |s| && Cheias(s, n)[k] == s[a..a + n]
  {
    if k > 0 {
      Shift(k - 1, n);
      FullAt(s[n..], n, k - 1, a - n);
      assert s[n..][a - n..a] == s[a..a + n];
    }
  }

  lemma Shift(k: nat, n: nat)
    ensures (k + 1) * n == k * n + n
  {
  }

  lemma {:induction false} PartCount<E>(s: seq<E>, n: nat)
    requires n > 0
    ensures |s| <= |Levas(s, n)| * n && (s != [] ==> (|Levas(s, n)| - 1) * n < |s|)
  {
    if |s| > n {
      var c := |Levas(s[n..], n)|;
      PartCount(s[n..], n);
      Shift(c, n);
      Shift(c - 1, n);
    }
  }

  lemma {:induction false} PartAt<E>(s: seq<E>, n: nat, k: nat, a: int)
    requires n > 0 && k < |Levas(s, n)| && a == k * n
    ensures 0 <= a < |s| && Levas(s, n)[k] == s[a..if a + n <= |s| then a + n else |s|]
  {
    if k > 0 {
      Shift(k - 1, n);
      PartAt(s[n..], n, k - 1, a - n);
      var b := if a + n <= |s| then a + n else |s|;
      assert s[n..][a - n..b - n] == s[a..b];
    }
  }

  /** Batch `l` holds the records from place `k * n` on, `n` of them or up to the last. */
  ghost predicate EmPosicao<E>(regs: seq<E>, n: nat, k: nat, l: seq<E>) {
    && 0 <= k * n < |regs| && l != [] && k * n + |l| <= |regs|
    && (|l| == n || k * n + |l| == |regs|)
    && forall j :: 0 <= j < |l| ==> l[j] == regs[k * n + j]
  }

  lemma SliceInPlace<E>(regs: seq<E>, n: nat, k: nat, a: nat, b: nat)
    requires n > 0 && a == k * n && a < b <= |regs| && (b == a + n || b == |regs|)
    ensures EmPosicao(regs, n, k, regs[a..b])
  {
  }

  lemma PlannedAt<E>(stream: seq<Evento<E>>, n: nat, k: nat)
    requires n > 0 && k < |Planejadas(stream, n)|
    ensures EmPosicao(Registros(stream), n, k, Planejadas(stream, n)[k])
  {
    var regs := Registros(stream);
    var a := k * n;
    if TemFalha(stream) {
      FullAt(regs, n, k, a);
      SliceInPlace(regs, n, k, a, a + n);
    } else {
      PartAt(regs, n, k, a);
      SliceInPlace(regs, n, k, a, if a + n <= |regs| then a + n else |regs|);
    }
  }

  /** Where each batch comes from: batch `k` holds the records from `k` times FlushEvery on,
      as they were read, and is full unless it reaches the last record. */
  lemma BatchesInPlace<E>(stream: seq<Evento<E>>, n: nat, respostas: nat -> Resposta,
                          recebidos: seq<seq<E>>, res: LoadResult, records: nat, erro: Erro, f: nat, k: nat, j: nat)
    requires n > 0 && Fez(stream, n, respostas, recebidos, res, records, erro)
    requires f <= |stream| && (forall i :: 0 <= i < f ==> stream[i].Env?) && (f < |stream| ==> stream[f].Falha?)
    requires k < |recebidos|
    ensures 0 < |recebidos[k]| <= n && (|recebidos[k]| == n || k * n + |recebidos[k]| == f)
    ensures j < |recebidos[k]| ==> 0 <= k * n + j < f && recebidos[k][j] == stream[k * n + j].e
  {
    RecordsAre(stream, f);
    PlannedAt(stream, n, k);
    BatchesAreThePrefix(stream, n, respostas, recebidos, res, records, erro);
  }

  /** How the batched load ends: at the first refused write; else, when the reading failed,
      after the full batches; else after all records. */
  lemma LoadEnds<E>(stream: seq<Evento<E>>, n: nat, respostas: nat -> Resposta,
                    recebidos: seq<seq<E>>, res: LoadResult, records: nat, erro: Erro, f: nat)
    requires n > 0 && Fez(stream, n, respostas, recebidos, res, records, erro)
    requires f <= |stream| && (forall i :: 0 <= i < f ==> stream[i].Env?) && (f < |stream| ==> stream[f].Falha?)
    ensures forall k: nat :: k < |recebidos| - 1 ==> !respostas(k).erro
    ensures erro == DoDestino <==> recebidos != [] && respostas(|recebidos| - 1).erro
    ensures erro == DeLeitura ==> f < |stream| && |recebidos| * n <= f < (|recebidos| + 1) * n && records == f
    ensures erro == Nenhum ==> f == |stream| && f <= |recebidos| * n && records == f
  {
    RecordsAre(stream, f);
    ParadaIsFirst(respostas, |Planejadas(stream, n)|);
    FullCount(Registros(stream), n);
    PartCount(Registros(stream), n);
  }
}
