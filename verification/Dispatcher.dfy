/** The dispatcher's own code, as written: methods that run their statements one after
    the other. Each is proved to do what the machine's goroutine does when nothing
    interleaves with it. */
module Dispatcher {
  import opened Options
  import opened RunStatus
  import opened Queue
  import opened Dispatch

  /** Statements a goroutine still has ahead of it. */
  function Restam(pc: Pc): nat {
    match pc
    case Reivindicado => 9
    case Executando => 8
    case Concluindo => 7
    case Falhando => 6
    case Incrementando => 5
    case Avisando => 4
    case Retentando(_) => 4
    case Reenfileirando(_) => 3
    case Devolvendo(_) => 2
    case Apagando => 2
    case Soltando => 2
    case Fim => 0
    case Morto => 0
  }

  /** The row a goroutine leaves, and what it finally does to its queue item, when it
      runs from `pc` to its end undisturbed. */
  function AteOFim(c: Config, row: RunRow, pc: Pc, ok: bool): (RunRow, FilaOp)
    decreases Restam(pc)
  {
    if pc == Fim || pc == Morto then (row, Nada)
    else
      var e := Passo(c, row, pc, ok);
      if e.op != Nada then (e.row, e.op) else AteOFim(c, e.row, e.pc, ok)
  }

  /** The machine taking only the steps of goroutine `p`. */
  ghost function Corre(c: Config, s: State, p: nat, ok: bool, agora: int): State
    requires p in s.procs && s.procs[p].run in s.runs
    decreases Restam(s.procs[p].pc)
  {
    if s.procs[p].pc == Fim || s.procs[p].pc == Morto then s
    else Corre(c, Aplicado(s, p, Passo(c, s.runs[s.procs[p].run], s.procs[p].pc, ok), agora), p, ok, agora)
  }

  lemma OneStatement(c: Config, s: State, p: nat, ok: bool, agora: int, e: Efeito, s1: State)
    requires p in s.procs && s.procs[p].run in s.runs && s.procs[p].pc != Fim && s.procs[p].pc != Morto
    requires e == Passo(c, s.runs[s.procs[p].run], s.procs[p].pc, ok) && s1 == Aplicado(s, p, e, agora)
    ensures e.op != Nada ==> Corre(c, s, p, ok, agora) == s1
    ensures e.op != Nada ==> AteOFim(c, s.runs[s.procs[p].run], s.procs[p].pc, ok) == (e.row, e.op)
    ensures e.op == Nada ==> Restam(e.pc) < Restam(s.procs[p].pc)
    ensures e.op == Nada ==> Corre(c, s, p, ok, agora) == Corre(c, s1, p, ok, agora)
    ensures e.op == Nada ==> AteOFim(c, s.runs[s.procs[p].run], s.procs[p].pc, ok) == AteOFim(c, e.row, e.pc, ok)
  {
    assert e.op != Nada ==> e.pc == Fim;
  }

  lemma {:induction false} UndisturbedRun(c: Config, s: State, p: nat, ok: bool, agora: int)
    requires p in s.procs && s.procs[p].run in s.runs
    ensures var (row, op) := AteOFim(c, s.runs[s.procs[p].run], s.procs[p].pc, ok);
            var s' := Corre(c, s, p, ok, agora);
            && s'.runs == s.runs[s.procs[p].run := row]
            && s'.fila == NaFila(s.fila, s.procs[p].item, op, agora)
    decreases Restam(s.procs[p].pc)
  {
    var r, pc := s.procs[p].run, s.procs[p].pc;
    if pc != Fim && pc != Morto {
      var e := Passo(c, s.runs[r], pc, ok);
      var s1 := Aplicado(s, p, e, agora);
      OneStatement(c, s, p, ok, agora, e, s1);
      if e.op == Nada { UndisturbedRun(c, s1, p, ok, agora); }
    }
  }

  /** What one undisturbed failure amounts to: back in the queue with the delay
      doubling from attempt to attempt, or, on the last attempt, failed for good with
      one alert and no item left. */
  lemma FailureOutcome(c: Config, row: RunRow)
    requires row.status == Running
    ensures var (r, op) := AteOFim(c, row, Falhando, false);
            && r.attempt == row.attempt + 1
            && if r.attempt >= c.maxTentativas
               then r.status == Failed && r.alertas == row.alertas + 1 && op == Apaga
               else r.status == Queued && r.alertas == row.alertas && op == Solta(c.backoffBase * Pow2(row.attempt))
  {
    FailureEnds(c, row);
  }

  /** One claim undisturbed. A run that is not queued is given back at once; a queued one
      starts, and a success ends it and its item. */
  lemma AttemptOutcome(c: Config, row: RunRow, ok: bool)
    ensures row.status != Queued ==> AteOFim(c, row, Reivindicado, ok) == (row, Solta(0))
    ensures row.status == Queued && ok ==>
      var (r, op) := AteOFim(c, row, Reivindicado, ok);
      r.status == Success && r.attempt == row.attempt && r.inicios == row.inicios + 1 && r.alertas == row.alertas && op == Apaga
    ensures row.status == Queued && !ok ==>
      var (r, op) := AteOFim(c, row, Reivindicado, ok);
      && r.attempt == row.attempt + 1 && r.inicios == row.inicios + 1
      && if r.attempt >= c.maxTentativas then r.status == Failed && r.alertas == row.alertas + 1 && op == Apaga
         else r.status == Queued && r.alertas == row.alertas && op.Solta?
    ensures row.status == Canceled ==> AteOFim(c, row, Concluindo, ok) == (row, Apaga) == AteOFim(c, row, Falhando, ok)
  {
    if row.status == Queued {
      StartSteps(c, row, ok);
      FailureEnds(c, Grava(row, Running));
    } else {
      assert AteOFim(c, row, Reivindicado, ok) == AteOFim(c, row, Soltando, ok);
    }
    if row.status == Canceled {
      assert AteOFim(c, row, Concluindo, ok) == AteOFim(c, row, Apagando, ok) == AteOFim(c, row, Falhando, ok);
    }
  }

  /** The back-off by its own law: after the first failure the item waits backoffBase... */
  lemma FirstBackoff(c: Config, row: RunRow)
    requires row.status == Running && row.attempt == 0 && c.maxTentativas > 1
    ensures AteOFim(c, row, Falhando, false).1 == Solta(c.backoffBase)
  {
    FailureEnds(c, row);
  }

  /** ...and from one attempt to the next, short of the last, the wait doubles. */
  lemma BackoffDoubles(c: Config, row: RunRow, depois: RunRow)
    requires row.status == Running && depois.status == Running
    requires depois.attempt == row.attempt + 1 && depois.attempt + 1 < c.maxTentativas
    ensures var (a, b) := (AteOFim(c, row, Falhando, false).1, AteOFim(c, depois, Falhando, false).1);
            a.Solta? && b.Solta? && b.atraso == 2 * a.atraso
  {
    FailureWait(c, row);
    FailureWait(c, depois);
    TwiceAsLong(c.backoffBase, Pow2(row.attempt));
  }

  lemma FailureWait(c: Config, row: RunRow)
    requires row.status == Running && row.attempt + 1 < c.maxTentativas
    ensures AteOFim(c, row, Falhando, false).1 == Solta(c.backoffBase * Pow2(row.attempt))
  {
    FailureEnds(c, row);
  }

  lemma TwiceAsLong(base: int, p: int)
    ensures base * (2 * p) == 2 * (base * p)
  {
  }

  class Dispatcher {
    const c: Config
    const maxConcorrente: nat
    const fila: Fila
    var runs: map<RunId, RunRow>
    var emVoo: nat

    constructor (c: Config, maxConcorrente: nat, fila: Fila)
      ensures this.c == c && this.maxConcorrente == maxConcorrente && this.fila == fila
      ensures runs == map[] && emVoo == 0
    {
      this.c, this.maxConcorrente, this.fila := c, maxConcorrente, fila;
      runs, emVoo := map[], 0;
    }

    /** RunRepo.Transicionar: the check and the write are one transaction. */
    method Transicionar(r: RunId, para: Status) returns (ok: bool)
      requires r in runs
      modifies this`runs
      ensures ok <==> PodeIr(old(runs)[r].status, para)
      ensures runs == if ok then old(runs)[r := Grava(old(runs)[r], para)] else old(runs)
    {
      ok := PodeIr(runs[r].status, para);
      if ok { runs := runs[r := Grava(runs[r], para)]; }
    }

    method IncrementarTentativa(r: RunId) returns (n: nat)
      requires r in runs
      modifies this`runs
      ensures n == old(runs)[r].attempt + 1
      ensures runs == old(runs)[r := old(runs)[r].(attempt := n)]
    {
      n := runs[r].attempt + 1;
      runs := runs[r := runs[r].(attempt := n)];
    }

    method Avisar(r: RunId)
      requires r in runs
      modifies this`runs
      ensures runs == old(runs)[r := old(runs)[r].(alertas := old(runs)[r].alertas + 1)]
    {
      runs := runs[r := runs[r].(alertas := runs[r].alertas + 1)];
    }

    method Falhar(id: nat, r: RunId, agora: int)
      requires r in runs && fila.Valid()
      modifies this`runs, fila`itens
      ensures fila.Valid()
      ensures var (row, op) := AteOFim(c, old(runs)[r], Falhando, false);
              runs == old(runs)[r := row] && fila.itens == NaFila(old(fila.itens), id, op, agora)
    {
      FailureEnds(c, runs[r]);
      var ok := Transicionar(r, Failed);
      if !ok {
        fila.Done(id);
      } else {
        TentarDeNovo(id, r, agora);
      }
    }

    /** `falhar` from the count of the attempt on: give up, or back to the queue. */
    method TentarDeNovo(id: nat, r: RunId, agora: int)
      requires r in runs && fila.Valid() && runs[r].status == Failed
      modifies this`runs, fila`itens
      ensures fila.Valid()
      ensures var (row, op) := Decidido(c, old(runs)[r]);
              runs == old(runs)[r := row] && fila.itens == NaFila(old(fila.itens), id, op, agora)
    {
      var tentativa := IncrementarTentativa(r);
      if tentativa >= c.maxTentativas {
        Avisar(r);
        fila.Done(id);
        return;
      }
      // undisturbed, a failed run may be retried and a retrying one queued
      var ok := Transicionar(r, Retrying);
      ok := Transicionar(r, Queued);
      fila.Release(id, Atraso(c, tentativa), agora);
    }

    method Processar(id: nat, r: RunId, sucesso: bool, agora: int)
      requires r in runs && fila.Valid()
      modifies this`runs, fila`itens
      ensures fila.Valid()
      ensures var (row, op) := AteOFim(c, old(runs)[r], Reivindicado, sucesso);
              runs == old(runs)[r := row] && fila.itens == NaFila(old(fila.itens), id, op, agora)
    {
      ghost var row0 := runs[r];
      var ok := Transicionar(r, Running);
      if !ok {
        fila.Release(id, 0, agora);
        return;
      }
      StartSteps(c, row0, sucesso);
      if sucesso {
        ok := Transicionar(r, Success);
        fila.Done(id);
        return;
      }
      Falhar(id, r, agora);
    }

    /** Asks the queue only for the slots it has free, so it never holds more than
        maxConcorrente executions. */
    method CicloDeClaim(worker: string, travados: set<nat>, agora: int) returns (itens: seq<Item>)
      requires fila.Valid() && emVoo <= maxConcorrente
      modifies this`emVoo, fila`itens
      ensures fila.Valid()
      ensures emVoo == old(emVoo) + |itens| <= maxConcorrente
      ensures IsPick(old(fila.itens), Admissiveis(old(fila.itens), c.info, agora) - travados, maxConcorrente - old(emVoo), itens)
      ensures fila.itens == Marcar(old(fila.itens), IdsOf(itens), Some(Marca(agora, worker)))
    {
      var vagas := maxConcorrente - emVoo;
      if vagas <= 0 {
        itens := [];
        assert fila.itens == Marcar(fila.itens, IdsOf(itens), Some(Marca(agora, worker)));
        return;
      }
      itens := fila.Claim(worker, vagas, c.info, travados, agora);
      emVoo := emVoo + |itens|;
    }

    /** Every stale item is given back and its run failed for that attempt. */
    method RecuperarOrfaos(limite: int, agora: int) returns (velhos: set<nat>)
      requires fila.Valid() && forall i :: i in fila.itens ==> fila.itens[i].run in runs
      modifies this`runs, fila`itens
      ensures fila.Valid()
      ensures velhos == Vencidos(old(fila.itens), limite, agora)
      ensures forall i :: i in velhos <==>
                i in old(fila.itens) && old(fila.itens)[i].marca.Some? && old(fila.itens)[i].marca.value.em < agora - limite
      ensures forall i :: i in velhos ==> Orfao(c, old(runs), old(fila.itens), runs, fila.itens, i, agora)
      ensures forall i :: i in old(fila.itens) && i !in velhos ==>
                Intacto(old(runs), old(fila.itens), runs, fila.itens, old(fila.itens)[i], i)
    {
      ghost var t0, runs0 := fila.itens, runs;
      velhos := fila.Recuperar(limite, agora);
      var resto := velhos;
      while resto != {}
        invariant fila.Valid() && Progresso(c, runs0, t0, runs, fila.itens, velhos, resto, agora)
        decreases resto
      {
        var i :| i in resto;
        ProgressoStep(c, runs0, t0, runs, fila.itens, velhos, resto, i, agora);
        Falhar(i, fila.itens[i].run, agora);
        resto := resto - {i};
      }
    }
  }

  /** Half-way through the recovered items: those done are as one failure leaves them,
      those to do have lost their mark only, the others are untouched. */
  ghost predicate Progresso(c: Config, runs0: map<RunId, RunRow>, t0: Table, runs: map<RunId, RunRow>, t: Table,
                            velhos: set<nat>, resto: set<nat>, agora: int) {
    && resto <= velhos
    && (forall i :: i in velhos && i !in resto ==> Orfao(c, runs0, t0, runs, t, i, agora))
    && (forall i :: i in resto ==> i in t0 && Intacto(runs0, t0, runs, t, t0[i].(marca := None), i))
    && (forall i :: i in t0 && i !in velhos ==> Intacto(runs0, t0, runs, t, t0[i], i))
  }

  lemma ProgressoStep(c: Config, runs0: map<RunId, RunRow>, t0: Table, runs: map<RunId, RunRow>, t: Table,
                      velhos: set<nat>, resto: set<nat>, i: nat, agora: int)
    requires UniqueRuns(t0) && velhos <= t0.Keys && i in resto
    requires Progresso(c, runs0, t0, runs, t, velhos, resto, agora)
    ensures i in t && t[i].run in runs && t[i].run == t0[i].run
    ensures var (row, op) := AteOFim(c, runs[t[i].run], Falhando, false);
            Progresso(c, runs0, t0, runs[t[i].run := row], NaFila(t, i, op, agora), velhos, resto - {i}, agora)
  {
    assert Intacto(runs0, t0, runs, t, t0[i].(marca := None), i);
    var r := t0[i].run;
    FailureActs(c, runs0[r]);
    var (row, op) := AteOFim(c, runs0[r], Falhando, false);
    var runs', t' := runs[r := row], NaFila(t, i, op, agora);
    assert Orfao(c, runs0, t0, runs', t', i, agora);
    forall j | j in t0 && j != i
      ensures Orfao(c, runs0, t0, runs, t, j, agora) ==> Orfao(c, runs0, t0, runs', t', j, agora)
      ensures forall w :: Intacto(runs0, t0, runs, t, w, j) ==> Intacto(runs0, t0, runs', t', w, j)
    {
      assert t0[j].run != r;
      OtherItemKept(c, runs0, t0, runs, t, i, row, op, j, agora);
    }
    forall j | j in velhos && j !in resto - {i} ensures Orfao(c, runs0, t0, runs', t', j, agora) {
      if j != i { assert Orfao(c, runs0, t0, runs, t, j, agora); }
    }
  }

  /** Item `i` still has the row given, and its run is as it was. */
  ghost predicate Intacto(runs0: map<RunId, RunRow>, t0: Table, runs: map<RunId, RunRow>, t: Table, row: Row, i: nat) {
    && i in t0 && i in t && t[i] == row
    && t0[i].run in runs0 && t0[i].run in runs && runs[t0[i].run] == runs0[t0[i].run]
  }

  lemma OtherItemKept(c: Config, runs0: map<RunId, RunRow>, t0: Table, runs: map<RunId, RunRow>, t: Table,
                      i: nat, novo: RunRow, op: FilaOp, j: nat, agora: int)
    requires i in t0 && j in t0 && t0[j].run != t0[i].run
    ensures var runs', t' := runs[t0[i].run := novo], NaFila(t, i, op, agora);
            && (Orfao(c, runs0, t0, runs, t, j, agora) ==> Orfao(c, runs0, t0, runs', t', j, agora))
            && (forall row :: Intacto(runs0, t0, runs, t, row, j) ==> Intacto(runs0, t0, runs', t', row, j))
  {
    var t' := NaFila(t, i, op, agora);
    assert j in t <==> j in t';
    assert j in t ==> t[j] == t'[j];
  }

  lemma FailureActs(c: Config, row: RunRow)
    ensures AteOFim(c, row, Falhando, false).1 != Nada
  {
    FailureEnds(c, row);
  }

  function Vencidos(t: Table, limite: int, agora: int): set<nat> {
    set i | i in t && t[i].marca.Some? && t[i].marca.value.em < agora - limite
  }

  /** Item `i` of `t0` was recovered: its row and its run are what one failure leaves. */
  ghost predicate Orfao(c: Config, runs0: map<RunId, RunRow>, t0: Table, runs: map<RunId, RunRow>, t: Table,
                        i: nat, agora: int) {
    && i in t0 && t0[i].run in runs0 && t0[i].run in runs
    && var (row, op) := AteOFim(c, runs0[t0[i].run], Falhando, false);
       && runs[t0[i].run] == row
       && match op
          case Apaga => i !in t
          case Solta(atraso) => i in t && t[i] == t0[i].(marca := None, disponivelEm := agora + atraso)
          case Nada => false
  }

  /** What a recovered item and its run are left as: back in the queue without its mark, or
      done with; a run that was not running loses its item only. */
  lemma OrphanOutcome(c: Config, runs0: map<RunId, RunRow>, t0: Table, runs: map<RunId, RunRow>, t: Table, i: nat, agora: int)
    requires Orfao(c, runs0, t0, runs, t, i, agora)
    ensures i in t0 && t0[i].run in runs0 && t0[i].run in runs
    ensures var a, b := runs0[t0[i].run], runs[t0[i].run];
      && (a.status != Running ==> b == a && i !in t)
      && (a.status == Running ==> b.attempt == a.attempt + 1)
      && (a.status == Running && b.attempt >= c.maxTentativas ==> b.status == Failed && i !in t)
      && (a.status == Running && b.attempt < c.maxTentativas ==>
            b.status == Queued && i in t && t[i].marca.None? && t[i].run == t0[i].run && t[i].prioridade == t0[i].prioridade)
      && (a.status == Running && b.attempt < c.maxTentativas && a.attempt == 0 ==> t[i].disponivelEm == agora + c.backoffBase)
  {
    FailureEnds(c, runs0[t0[i].run]);
  }

  /** What becomes of a run just failed, and of its item. */
  function Decidido(c: Config, row: RunRow): (RunRow, FilaOp) {
    var f := row.(attempt := row.attempt + 1);
    if f.attempt >= c.maxTentativas then (f.(alertas := f.alertas + 1), Apaga)
    else (Grava(Grava(f, Retrying), Queued), Solta(Atraso(c, f.attempt)))
  }

  /** The statements of `falhar` after the run was marked failed. */
  lemma DecisionSteps(c: Config, f: RunRow)
    requires f.status == Failed
    ensures AteOFim(c, f, Incrementando, false) == Decidido(c, f)
  {
    var g := f.(attempt := f.attempt + 1);
    if g.attempt >= c.maxTentativas {
      assert AteOFim(c, f, Incrementando, false) == AteOFim(c, g, Avisando, false);
    } else {
      var n := g.attempt;
      var h := Grava(g, Retrying);
      assert AteOFim(c, f, Incrementando, false) == AteOFim(c, g, Retentando(n), false);
      assert AteOFim(c, g, Retentando(n), false) == AteOFim(c, h, Reenfileirando(n), false);
      assert AteOFim(c, h, Reenfileirando(n), false) == AteOFim(c, Grava(h, Queued), Devolvendo(n), false);
    }
  }

  lemma FailureEnds(c: Config, row: RunRow)
    ensures AteOFim(c, row, Falhando, false) ==
            if PodeIr(row.status, Failed) then Decidido(c, Grava(row, Failed)) else (row, Apaga)
  {
    if PodeIr(row.status, Failed) {
      var f := Grava(row, Failed);
      DecisionSteps(c, f);
      assert AteOFim(c, row, Falhando, false) == AteOFim(c, f, Incrementando, false);
    } else {
      assert AteOFim(c, row, Falhando, false) == AteOFim(c, row, Apagando, false);
    }
  }

  lemma StartSteps(c: Config, row: RunRow, ok: bool)
    requires PodeIr(row.status, Running)
    ensures var f := Grava(row, Running);
            AteOFim(c, row, Reivindicado, ok) ==
              if ok then (Grava(f, Success), Apaga) else AteOFim(c, f, Falhando, false)
  {
    var f := Grava(row, Running);
    assert AteOFim(c, row, Reivindicado, ok) == AteOFim(c, f, Executando, ok);
    if ok {
      assert AteOFim(c, f, Executando, ok) == AteOFim(c, f, Concluindo, ok);
    } else {
      assert AteOFim(c, f, Executando, ok) == AteOFim(c, f, Falhando, ok);
    }
  }
}
