/** The dispatch protocol (internal/scheduler/dispatcher.go) as a state machine over
    the shared database: one step per SQL statement or status write, with any number
    of dispatchers, executions and orphan recoveries interleaved. */
module Dispatch {
  import opened Options
  import opened RunStatus
  import opened Queue

  /** Where a goroutine running `processar` or `falhar` stands: each value names the
      statement it executes next. */
  datatype Pc =
    | Reivindicado            // processar: about to write running
    | Soltando                // running was refused: about to release without delay
    | Executando              // inside executar
    | Concluindo              // executar succeeded: about to write success
    | Falhando                // falhar: about to write failed
    | Incrementando           // about to add one to the attempt
    | Avisando                // attempts exhausted: about to send the alert
    | Retentando(n: nat)      // about to write retrying
    | Reenfileirando(n: nat)  // about to write queued
    | Devolvendo(n: nat)      // about to release with back-off
    | Apagando                // about to delete the item
    | Fim
    | Morto                   // the process died

  datatype Proc = Proc(pc: Pc, item: nat, run: RunId)

  /** A row of `runs`, with history: how often it entered running, how many alerts
      were sent for it, how many status writes it saw. */
  datatype RunRow = RunRow(status: Status, attempt: nat, inicios: nat, alertas: nat, mudancas: nat)

  datatype State = State(
    runs: map<RunId, RunRow>,
    fila: Table,
    proximo: nat,
    foto: Table,                // the snapshot running claims work on
    em: int,
    procs: map<nat, Proc>,
    dono: map<nat, nat>,        // which goroutine put the current mark on an item
    enfileirando: set<RunId>)   // queued by the scheduler, insert still to come

  datatype Config = Config(maxTentativas: nat, backoffBase: int, info: RunId -> RunInfo)

  ghost predicate ValidConfig(c: Config) {
    c.maxTentativas >= 1
  }

  /** All that is asked of a configuration: one attempt at least. */
  lemma AnyConfig(c: Config)
    ensures ValidConfig(c) <==> c.maxTentativas > 0
  {
  }

  datatype Step =
    | Criar(run: RunId)
    | MarcarQueued(run: RunId)
    | Enfileirar(run: RunId, prioridade: int, quando: int)
    | Cancelar(run: RunId)
    | Fotografar(agora: int)
    | Reivindicar(item: nat, proc: nat, agora: int)
    | Avancar(proc: nat, ok: bool, agora: int)
    | Morrer(proc: nat)
    | Recuperar(item: nat, proc: nat)
    | ErroDeBanco(proc: nat)
    | SchedulerMorre(run: RunId)

  // ---- one goroutine -----------------------------------------------------

  /** What a statement does to the queue row of its item. */
  datatype FilaOp = Nada | Solta(atraso: int) | Apaga

  datatype Efeito = Efeito(row: RunRow, pc: Pc, op: FilaOp)

  function Grava(row: RunRow, para: Status): RunRow {
    row.(status := para, mudancas := row.mudancas + 1,
         inicios := row.inicios + if para == Running then 1 else 0)
  }

  /** Transicionar: an atomic check against the table, then the write; `sim` and
      `nao` are where the goroutine goes on success and on refusal. */
  function Transiciona(row: RunRow, para: Status, sim: Pc, nao: Pc): Efeito {
    if PodeIr(row.status, para) then Efeito(Grava(row, para), sim, Nada) else Efeito(row, nao, Nada)
  }

  function Pow2(n: nat): nat {
    if n == 0 then 1 else 2 * Pow2(n - 1)
  }

  function Atraso(c: Config, n: nat): int {
    c.backoffBase * if n == 0 then 1 else Pow2(n - 1)
  }

  /** The next statement of a goroutine at `pc` whose run is `row`; `ok` is the
      outcome of executar. */
  function Passo(c: Config, row: RunRow, pc: Pc, ok: bool): Efeito {
    match pc
    case Reivindicado => Transiciona(row, Running, Executando, Soltando)
    case Soltando => Efeito(row, Fim, Solta(0))
    case Executando => Efeito(row, if ok then Concluindo else Falhando, Nada)
    case Concluindo => Transiciona(row, Success, Apagando, Apagando)
    case Falhando => Transiciona(row, Failed, Incrementando, Apagando)
    case Incrementando =>
      var n := row.attempt + 1;
      Efeito(row.(attempt := n), if n >= c.maxTentativas then Avisando else Retentando(n), Nada)
    case Avisando => Efeito(row.(alertas := row.alertas + 1), Apagando, Nada)
    case Retentando(n) => Transiciona(row, Retrying, Reenfileirando(n), Apagando)
    case Reenfileirando(n) => Transiciona(row, Queued, Devolvendo(n), Apagando)
    case Devolvendo(n) => Efeito(row, Fim, Solta(Atraso(c, n)))
    case Apagando => Efeito(row, Fim, Apaga)
    case Fim => Efeito(row, Fim, Nada)
    case Morto => Efeito(row, Morto, Nada)
  }

  // ---- the shared state --------------------------------------------------

  function NaFila(t: Table, i: nat, op: FilaOp, agora: int): Table {
    match op
    case Nada => t
    case Solta(atraso) => Released(t, i, agora + atraso)
    case Apaga => t - {i}
  }

  /** What the operations leave: nothing changed; the item without its mark, due after the
      delay and otherwise as it was; the item gone. No other item is touched. */
  lemma QueueEffect(t: Table, i: nat, atraso: int, agora: int)
    ensures NaFila(t, i, Nada, agora) == t
    ensures i in t ==> NaFila(t, i, Solta(atraso), agora) == t[i := Row(t[i].run, t[i].prioridade, agora + atraso, None)]
    ensures i !in t ==> NaFila(t, i, Solta(atraso), agora) == t
    ensures NaFila(t, i, Apaga, agora) == map j | j in t && j != i :: t[j]
  {
  }

  function Aplicado(s: State, p: nat, e: Efeito, agora: int): State
    requires p in s.procs && s.procs[p].run in s.runs
  {
    s.(runs := s.runs[s.procs[p].run := e.row],
       procs := s.procs[p := s.procs[p].(pc := e.pc)],
       fila := NaFila(s.fila, s.procs[p].item, e.op, agora))
  }

  function Vai(s: State, p: nat, pc: Pc): State
    requires p in s.procs
  {
    s.(procs := s.procs[p := s.procs[p].(pc := pc)])
  }

  function Muda(s: State, r: RunId, para: Status): State
    requires r in s.runs
  {
    s.(runs := s.runs[r := Grava(s.runs[r], para)])
  }

  function Desmarcar(t: Table, i: nat): Table {
    if i in t then t[i := t[i].(marca := None)] else t
  }

  /** The statements that are database calls. */
  predicate FalaComBanco(pc: Pc) {
    pc != Executando && pc != Avisando && pc != Fim && pc != Morto
  }

  /** Where a goroutine goes when its call fails: a claim whose first write fails is
      released, every later status write or count that fails has the item deleted, and a
      failed release or delete is ignored. */
  function AposErro(pc: Pc): Pc {
    match pc
    case Reivindicado => Soltando
    case Soltando => Fim
    case Devolvendo(_) => Fim
    case Apagando => Fim
    case _ => Apagando
  }

  /** The answers one by one: a refused start is released; a release or delete that fails is
      the goroutine's last call; after any other failed call it deletes the item. */
  lemma AnswersToErrors(c: Config, row: RunRow, pc: Pc, ok: bool)
    requires FalaComBanco(pc)
    ensures AposErro(pc) != Fim ==> Passo(c, row, AposErro(pc), ok) == Efeito(row, Fim, if pc == Reivindicado then Solta(0) else Apaga)
    ensures AposErro(pc) == Fim <==> pc.Soltando? || pc.Devolvendo? || pc.Apagando?
    ensures FalaComBanco(pc) <==> !pc.Executando? && !pc.Avisando? && !pc.Fim? && !pc.Morto?
  {
  }

  predicate Habilitado(c: Config, s: State, step: Step) {
    match step
    case Criar(r) => r !in s.runs
    case MarcarQueued(r) => r in s.runs && s.runs[r].status == Created
    case Enfileirar(r, _, _) => r in s.enfileirando
    case Cancelar(r) => r in s.runs && PodeIr(s.runs[r].status, Canceled)
    case Fotografar(_) => true
    case Reivindicar(i, p, _) =>
      // the row lock makes the query check its own conditions again on the row as it is now
      && i in s.foto && Admissivel(s.foto, c.info, s.em, i)
      && i in s.fila && Elegivel(s.fila, s.em, i) && p !in s.procs
    case Avancar(p, _, _) => p in s.procs && s.procs[p].run in s.runs && s.procs[p].pc != Fim && s.procs[p].pc != Morto
    case Morrer(p) => p in s.procs && s.procs[p].pc != Fim && s.procs[p].pc != Morto
    case Recuperar(i, p) =>
      i in s.fila && s.fila[i].marca.Some? && i in s.dono && s.dono[i] in s.procs && p !in s.procs
    case ErroDeBanco(p) => p in s.procs && FalaComBanco(s.procs[p].pc)
    case SchedulerMorre(r) => r in s.enfileirando
  }

  function Aplica(c: Config, s: State, step: Step): State
    requires Habilitado(c, s, step)
  {
    match step
    case Criar(r) => s.(runs := s.runs[r := RunRow(Created, 0, 0, 0, 0)])
    case MarcarQueued(r) => Muda(s, r, Queued).(enfileirando := s.enfileirando + {r})
    case Enfileirar(r, prioridade, quando) =>
      s.(fila := Enqueued(s.fila, s.proximo, r, prioridade, quando), proximo := s.proximo + 1,
         enfileirando := s.enfileirando - {r})
    case Cancelar(r) => Muda(s, r, Canceled)
    case Fotografar(agora) => s.(foto := s.fila, em := agora)
    case Reivindicar(i, p, agora) =>
      s.(fila := s.fila[i := s.fila[i].(marca := Some(Marca(agora, "dispatcher")))],
         procs := s.procs[p := Proc(Reivindicado, i, s.fila[i].run)],
         dono := s.dono[i := p])
    case Avancar(p, ok, agora) => Aplicado(s, p, Passo(c, s.runs[s.procs[p].run], s.procs[p].pc, ok), agora)
    case Morrer(p) => Vai(s, p, Morto)
    case Recuperar(i, p) =>
      var dono := s.dono[i];
      var t := if s.procs[dono].pc == Morto then Vai(s, dono, Fim) else s;
      t.(fila := Desmarcar(s.fila, i), procs := t.procs[p := Proc(Falhando, i, s.fila[i].run)])
    case ErroDeBanco(p) => Vai(s, p, AposErro(s.procs[p].pc))
    case SchedulerMorre(r) => s.(enfileirando := s.enfileirando - {r})
  }

  /** Where a process may die without harm: after the accepted write of running and
      before its run has left that status. */
  predicate EmTentativa(pc: Pc) {
    pc == Executando || pc == Concluindo || pc == Falhando
  }

  /** What the guarantees below take for granted: a process dies only during an attempt,
      recovery touches only items whose goroutine is dead, the database answers, and the
      scheduler survives between its two statements. */
  predicate Benigno(s: State, step: Step) {
    match step
    case Morrer(p) => p in s.procs && EmTentativa(s.procs[p].pc)
    case Recuperar(i, _) => i in s.dono && s.dono[i] in s.procs && s.procs[s.dono[i]].pc == Morto
    case ErroDeBanco(_) => false
    case SchedulerMorre(_) => false
    case _ => true
  }

  const Vazio := State(map[], map[], 0, map[], 0, map[], map[], {})

  ghost predicate Trace(c: Config, states: seq<State>, steps: seq<Step>) {
    && |states| == |steps| + 1
    && states[0] == Vazio
    && forall k {:trigger steps[k]} :: 0 <= k < |steps| ==>
         Habilitado(c, states[k], steps[k]) && states[k + 1] == Aplica(c, states[k], steps[k])
  }

  ghost predicate BenignTrace(c: Config, states: seq<State>, steps: seq<Step>) {
    && Trace(c, states, steps)
    && forall k {:trigger steps[k]} :: 0 <= k < |steps| ==> Benigno(states[k], steps[k])
  }

  // ---- the invariant -----------------------------------------------------

  /** The goroutines that own a run: from the accepted write of running to the last
      statement about it. A dead executor owns its run until somebody recovers it. */
  predicate Titular(pc: Pc) {
    pc.Executando? || pc.Concluindo? || pc.Falhando? || pc.Incrementando? || pc.Avisando? ||
    pc.Retentando? || pc.Reenfileirando? || pc.Apagando? || pc.Morto?
  }

  predicate StatusDoTitular(pc: Pc, st: Status) {
    match pc
    case Executando => st == Running || st == Canceled
    case Concluindo => st == Running || st == Canceled
    case Falhando => st == Running || st == Canceled
    case Morto => st == Running || st == Canceled
    case Incrementando => st == Failed
    case Avisando => st == Failed
    case Retentando(_) => st == Failed
    case Reenfileirando(_) => st == Retrying || st == Canceled
    case Apagando => st == Success || st == Failed || st == Canceled
    case _ => true
  }

  predicate TemItem(t: Table, r: RunId) {
    exists i :: i in t && t[i].run == r
  }

  /** A goroutine still going to put its failed run back. */
  predicate VaiVoltar(pc: Pc) {
    pc.Incrementando? || pc.Retentando?
  }

  predicate Ativo(st: Status) {
    st == Queued || st == Running || st == Retrying
  }

  /** Attempts against starts, by status: this is what bounds the retries. */
  predicate Contas(c: Config, row: RunRow) {
    match row.status
    case Created => row.inicios == row.attempt == 0
    case Queued => row.inicios == row.attempt < c.maxTentativas
    case Running => row.inicios == row.attempt + 1 <= c.maxTentativas
    case Retrying => row.inicios == row.attempt < c.maxTentativas
    case _ => row.inicios <= c.maxTentativas && row.attempt <= row.inicios
  }

  /** How many status writes a run can still see. Every write lowers it: that is the
      lexicographic rank (remaining starts, status) as one number. */
  function Folga(c: Config, row: RunRow): int {
    4 * (c.maxTentativas - row.inicios) +
    match row.status
    case Created => 2
    case Queued => 1
    case Running => 4
    case Failed => 3
    case Retrying => 2
    case _ => 0
  }

  predicate RowOk(c: Config, row: RunRow) {
    && Contas(c, row)
    && row.mudancas + Folga(c, row) <= 4 * c.maxTentativas + 2
    && row.alertas <= 1
    && (row.alertas == 1 ==> row.status == Failed && row.attempt == c.maxTentativas)
  }

  /** What a goroutine knows about its run. */
  predicate Posto(c: Config, pc: Pc, row: RunRow) {
    && StatusDoTitular(pc, row.status)
    && match pc
       case Incrementando => row.inicios == row.attempt + 1 && row.alertas == 0
       case Avisando => row.attempt == c.maxTentativas && row.alertas == 0
       case Retentando(n) => n == row.attempt && row.inicios == row.attempt < c.maxTentativas && row.alertas == 0
       case Reenfileirando(n) => n == row.attempt
       case Apagando => row.status == Failed ==> row.alertas == 1
       case _ => true
  }

  /** A run in the middle of an attempt, or failed with nobody told yet. */
  predicate PrecisaDono(row: RunRow) {
    row.status == Running || row.status == Retrying || (row.status == Failed && row.alertas == 0)
  }

  ghost predicate TableOk(s: State) {
    && (forall i :: i in s.fila ==> i < s.proximo && s.fila[i].run in s.runs)
    && UniqueRuns(s.fila)
    && (forall i :: i in s.fila && s.fila[i].marca.Some? ==>
          i in s.dono && s.dono[i] in s.procs && s.procs[s.dono[i]].item == i)
  }

  predicate DonoDe(s: State, p: nat, r: RunId) {
    p in s.procs && s.procs[p].run == r && Titular(s.procs[p].pc)
  }

  ghost predicate TemDono(s: State, r: RunId) {
    exists p :: DonoDe(s, p, r)
  }

  ghost predicate RunOk(c: Config, s: State, r: RunId)
    requires r in s.runs
  {
    && RowOk(c, s.runs[r])
    && (Ativo(s.runs[r].status) ==> r in s.enfileirando || TemItem(s.fila, r))
    && (s.runs[r].status == Created ==> r !in s.enfileirando && !TemItem(s.fila, r))
    && (PrecisaDono(s.runs[r]) ==> TemDono(s, r))
  }

  ghost predicate ProcOk(c: Config, s: State, p: nat)
    requires p in s.procs
  {
    var r, i, pc := s.procs[p].run, s.procs[p].item, s.procs[p].pc;
    && r in s.runs && i < s.proximo
    && (i in s.fila ==> s.fila[i].run == r)
    && r !in s.enfileirando && s.runs[r].status != Created
    && Posto(c, pc, s.runs[r])
    && (VaiVoltar(pc) ==> TemItem(s.fila, r))
  }

  ghost predicate UmTitular(s: State) {
    forall p, q, r :: DonoDe(s, p, r) && DonoDe(s, q, r) ==> p == q
  }

  ghost predicate Inv(c: Config, s: State) {
    && TableOk(s)
    && (forall r {:trigger RunOk(c, s, r)} :: r in s.runs ==> RunOk(c, s, r))
    && (forall p {:trigger ProcOk(c, s, p)} :: p in s.procs ==> ProcOk(c, s, p))
    && UmTitular(s)
    && (forall r :: r in s.enfileirando ==>
          r in s.runs && (s.runs[r].status == Queued || s.runs[r].status == Canceled) && !TemItem(s.fila, r))
  }

  // ---- every step keeps it -----------------------------------------------

  /** The statement of one goroutine, looked at alone: the row and the position stay
      coherent, and only the owner of a run, or a goroutine that finds it queued,
      changes the row. */
  lemma PassoLocal(c: Config, row: RunRow, pc: Pc, ok: bool)
    requires ValidConfig(c) && RowOk(c, row) && Posto(c, pc, row) && row.status != Created
    ensures var e := Passo(c, row, pc, ok);
            && RowOk(c, e.row) && Posto(c, e.pc, e.row) && e.row.status != Created
            && (e.row != row || (Titular(e.pc) && !Titular(pc)) ==>
                  Titular(pc) || (pc == Reivindicado && row.status == Queued))
            && (e.op == Apaga ==> pc == Apagando && e.row == row)
            && (VaiVoltar(e.pc) ==> e.op == Nada && (VaiVoltar(pc) || row.status == Running))
            && (Ativo(e.row.status) ==> Ativo(row.status) || VaiVoltar(pc))
            && (PrecisaDono(e.row) && (Titular(pc) || e.row != row) ==> Titular(e.pc))
  {}

  lemma TemItemKept(t: Table, i: nat, op: FilaOp, agora: int, r: RunId)
    requires op == Apaga ==> i in t ==> t[i].run != r
    ensures TemItem(NaFila(t, i, op, agora), r) <==> TemItem(t, r)
  {
    var u := NaFila(t, i, op, agora);
    if TemItem(t, r) {
      var j :| j in t && t[j].run == r;
      assert j in u && u[j].run == r;
    }
  }

  ghost predicate CanStep(c: Config, s: State, p: nat) {
    ValidConfig(c) && Inv(c, s) && p in s.procs && s.procs[p].pc != Fim && s.procs[p].pc != Morto
  }

  function Efeito1(c: Config, s: State, p: nat, ok: bool): Efeito
    requires p in s.procs && s.procs[p].run in s.runs
  {
    Passo(c, s.runs[s.procs[p].run], s.procs[p].pc, ok)
  }

  /** The goroutines of the same run do not notice: if the row changes, or the
      stepping goroutine becomes owner, nobody else owns the run. */
  lemma OthersAreNotOwners(c: Config, s: State, p: nat, ok: bool, q: nat)
    requires CanStep(c, s, p) && q in s.procs && q != p && ProcOk(c, s, p)
    requires DonoDe(s, q, s.procs[p].run)
    ensures var e := Efeito1(c, s, p, ok);
            e.row == s.runs[s.procs[p].run] && !Titular(e.pc) && e.op != Apaga
  {
    assert ProcOk(c, s, q) && RunOk(c, s, s.procs[p].run);
    assert !DonoDe(s, p, s.procs[p].run);
    PassoLocal(c, s.runs[s.procs[p].run], s.procs[p].pc, ok);
  }

  /** Ownership is only given up, or handed to somebody who had it. */
  lemma OwnersShrink(s: State, s': State)
    requires UmTitular(s) && forall p, r :: DonoDe(s', p, r) ==> DonoDe(s, p, r)
    ensures UmTitular(s')
  {
    forall p, q, r | DonoDe(s', p, r) && DonoDe(s', q, r) ensures p == q {
      assert DonoDe(s, p, r) && DonoDe(s, q, r);
    }
  }

  lemma AvancarItems(c: Config, s: State, p: nat, ok: bool, agora: int, r: RunId)
    requires CanStep(c, s, p) && ProcOk(c, s, p)
    requires Efeito1(c, s, p, ok).op == Apaga ==> r != s.procs[p].run
    ensures TemItem(Aplicado(s, p, Efeito1(c, s, p, ok), agora).fila, r) <==> TemItem(s.fila, r)
  {
    TemItemKept(s.fila, s.procs[p].item, Efeito1(c, s, p, ok).op, agora, r);
  }

  lemma AvancarSelf(c: Config, s: State, p: nat, ok: bool, agora: int)
    requires CanStep(c, s, p) && ProcOk(c, s, p)
    ensures ProcOk(c, Aplicado(s, p, Efeito1(c, s, p, ok), agora), p)
  {
    var r := s.procs[p].run;
    assert RunOk(c, s, r);
    PassoLocal(c, s.runs[r], s.procs[p].pc, ok);
    if Efeito1(c, s, p, ok).op != Apaga { AvancarItems(c, s, p, ok, agora, r); }
  }

  /** A goroutine that does not move stays coherent if its row, its item and its
      run's item stay; one that owns nothing does not even mind a changed row. */
  lemma ProcKept(c: Config, s: State, s': State, q: nat)
    requires q in s.procs && ProcOk(c, s, q) && q in s'.procs && s'.procs[q] == s.procs[q]
    requires s'.proximo >= s.proximo && s.procs[q].run in s'.runs
    requires s.procs[q].item in s'.fila ==> s'.fila[s.procs[q].item].run == s.procs[q].run
    requires s.procs[q].run !in s'.enfileirando && s'.runs[s.procs[q].run].status != Created
    requires Titular(s.procs[q].pc) ==>
               && s'.runs[s.procs[q].run] == s.runs[s.procs[q].run]
               && (TemItem(s.fila, s.procs[q].run) ==> TemItem(s'.fila, s.procs[q].run))
    ensures ProcOk(c, s', q)
  {}

  lemma AvancarOther(c: Config, s: State, p: nat, ok: bool, agora: int, q: nat)
    requires CanStep(c, s, p) && ProcOk(c, s, p) && q in s.procs && q != p && ProcOk(c, s, q)
    ensures ProcOk(c, Aplicado(s, p, Efeito1(c, s, p, ok), agora), q)
  {
    var r := s.procs[p].run;
    assert RunOk(c, s, r);
    PassoLocal(c, s.runs[r], s.procs[p].pc, ok);
    if Titular(s.procs[q].pc) {
      if s.procs[q].run == r { OthersAreNotOwners(c, s, p, ok, q); }
      AvancarItems(c, s, p, ok, agora, s.procs[q].run);
    }
    OtherProcKept(c, s, p, Efeito1(c, s, p, ok), agora, q);
  }

  /** The effect of `p` on another goroutine: its row, if it owns one, is not touched. */
  lemma OtherProcKept(c: Config, s: State, p: nat, e: Efeito, agora: int, q: nat)
    requires p in s.procs && s.procs[p].run in s.runs && q in s.procs && q != p && ProcOk(c, s, q)
    requires e.row.status != Created
    requires Titular(s.procs[q].pc) ==>
               && (s.procs[q].run == s.procs[p].run ==> e.row == s.runs[s.procs[p].run])
               && (TemItem(s.fila, s.procs[q].run) ==> TemItem(Aplicado(s, p, e, agora).fila, s.procs[q].run))
    ensures ProcOk(c, Aplicado(s, p, e, agora), q)
  {
    ProcKept(c, s, Aplicado(s, p, e, agora), q);
  }

  lemma AvancarRun(c: Config, s: State, p: nat, ok: bool, agora: int, r: RunId)
    requires CanStep(c, s, p) && ProcOk(c, s, p) && r in s.runs
    ensures RunOk(c, Aplicado(s, p, Efeito1(c, s, p, ok), agora), r)
  {
    assert RunOk(c, s, s.procs[p].run) && RunOk(c, s, r);
    PassoLocal(c, s.runs[s.procs[p].run], s.procs[p].pc, ok);
    if Efeito1(c, s, p, ok).op != Apaga || r != s.procs[p].run {
      AvancarItems(c, s, p, ok, agora, r);
    }
    AvancarKeepsOwner(c, s, p, ok, agora, r);
  }

  lemma AvancarKeepsOwner(c: Config, s: State, p: nat, ok: bool, agora: int, r: RunId)
    requires CanStep(c, s, p) && ProcOk(c, s, p) && r in s.runs
    ensures var s' := Aplicado(s, p, Efeito1(c, s, p, ok), agora);
            PrecisaDono(s'.runs[r]) ==> TemDono(s', r)
  {
    var s' := Aplicado(s, p, Efeito1(c, s, p, ok), agora);
    assert RunOk(c, s, s.procs[p].run) && RunOk(c, s, r);
    PassoLocal(c, s.runs[s.procs[p].run], s.procs[p].pc, ok);
    if PrecisaDono(s'.runs[r]) {
      if s.procs[p].run == r && (Titular(s.procs[p].pc) || s'.runs[r] != s.runs[r]) {
        assert DonoDe(s', p, r);
      } else {
        var q :| DonoDe(s, q, r);
        assert DonoDe(s', q, r);
      }
    }
  }

  lemma AvancarTable(c: Config, s: State, p: nat, ok: bool, agora: int)
    requires CanStep(c, s, p) && ProcOk(c, s, p)
    ensures TableOk(Aplicado(s, p, Efeito1(c, s, p, ok), agora))
  {
    var t := NaFila(s.fila, s.procs[p].item, Efeito1(c, s, p, ok).op, agora);
    assert forall i :: i in t ==> i in s.fila && t[i].run == s.fila[i].run && (t[i].marca.Some? ==> s.fila[i].marca.Some?);
  }

  lemma AvancarOwner(c: Config, s: State, p: nat, ok: bool, agora: int)
    requires CanStep(c, s, p) && ProcOk(c, s, p)
    ensures UmTitular(Aplicado(s, p, Efeito1(c, s, p, ok), agora))
  {
    var s' := Aplicado(s, p, Efeito1(c, s, p, ok), agora);
    forall q1, q2, r | DonoDe(s', q1, r) && DonoDe(s', q2, r) ensures q1 == q2 {
      if q1 != q2 && q1 != p { assert DonoDe(s, q1, r); }
      if q1 != q2 && q2 != p { assert DonoDe(s, q2, r); }
      if q1 != q2 && q1 == p { OthersAreNotOwners(c, s, p, ok, q2); }
      if q1 != q2 && q2 == p { OthersAreNotOwners(c, s, p, ok, q1); }
    }
  }

  lemma AvancarKeepsInv(c: Config, s: State, p: nat, ok: bool, agora: int)
    requires CanStep(c, s, p) && ProcOk(c, s, p)
    ensures Inv(c, Aplica(c, s, Avancar(p, ok, agora)))
  {
    AvancarProcs(c, s, p, ok, agora);
    AvancarRuns(c, s, p, ok, agora);
    AvancarTable(c, s, p, ok, agora);
    AvancarOwner(c, s, p, ok, agora);
    AvancarPending(c, s, p, ok, agora);
  }

  lemma AvancarProcs(c: Config, s: State, p: nat, ok: bool, agora: int)
    requires CanStep(c, s, p) && ProcOk(c, s, p)
    ensures var s' := Aplicado(s, p, Efeito1(c, s, p, ok), agora);
      forall q {:trigger ProcOk(c, s', q)} :: q in s'.procs ==> ProcOk(c, s', q)
  {
    var s' := Aplicado(s, p, Efeito1(c, s, p, ok), agora);
    forall q | q in s'.procs ensures ProcOk(c, s', q) {
      assert ProcOk(c, s, q);
      if q == p { AvancarSelf(c, s, p, ok, agora); } else { AvancarOther(c, s, p, ok, agora, q); }
    }
  }

  lemma AvancarRuns(c: Config, s: State, p: nat, ok: bool, agora: int)
    requires CanStep(c, s, p) && ProcOk(c, s, p)
    ensures var s' := Aplicado(s, p, Efeito1(c, s, p, ok), agora);
      forall r {:trigger RunOk(c, s', r)} :: r in s'.runs ==> RunOk(c, s', r)
  {
    var s' := Aplicado(s, p, Efeito1(c, s, p, ok), agora);
    forall r | r in s'.runs ensures RunOk(c, s', r) { AvancarRun(c, s, p, ok, agora, r); }
  }

  /** A run waiting for its item is nobody's yet: its row does not change. */
  lemma AvancarPending(c: Config, s: State, p: nat, ok: bool, agora: int)
    requires CanStep(c, s, p) && ProcOk(c, s, p)
    ensures var s' := Aplicado(s, p, Efeito1(c, s, p, ok), agora);
      forall r :: r in s.enfileirando ==> r in s'.runs && s'.runs[r] == s.runs[r] && !TemItem(s'.fila, r)
  {
    var s' := Aplicado(s, p, Efeito1(c, s, p, ok), agora);
    forall r | r in s.enfileirando ensures !TemItem(s'.fila, r) { AvancarItems(c, s, p, ok, agora, r); }
  }

  // The remaining steps, one by one.

  lemma RunKept(c: Config, s: State, s': State, r: RunId)
    requires r in s.runs && RunOk(c, s, r) && r in s'.runs && s'.runs[r] == s.runs[r]
    requires r in s'.enfileirando <==> r in s.enfileirando
    requires TemItem(s'.fila, r) <==> TemItem(s.fila, r)
    requires TemDono(s, r) ==> TemDono(s', r)
    ensures RunOk(c, s', r)
  {}

  lemma OwnersGrow(s: State, s': State)
    requires forall p, r :: DonoDe(s, p, r) ==> DonoDe(s', p, r)
    ensures forall r :: TemDono(s, r) ==> TemDono(s', r)
  {
    forall r | TemDono(s, r) ensures TemDono(s', r) {
      var p :| DonoDe(s, p, r);
      assert DonoDe(s', p, r);
    }
  }

  lemma CriarKeepsInv(c: Config, s: State, r: RunId)
    requires ValidConfig(c) && Inv(c, s) && r !in s.runs
    ensures Inv(c, Aplica(c, s, Criar(r)))
  {
    var s' := Aplica(c, s, Criar(r));
    OwnersGrow(s, s');
    forall q | q in s'.procs ensures ProcOk(c, s', q) { assert ProcOk(c, s, q); }
    forall q | q in s'.runs ensures RunOk(c, s', q) {
      if q != r { RunKept(c, s, s', q); }
    }
    OwnersShrink(s, s');
  }

  lemma MarcarQueuedKeepsInv(c: Config, s: State, r: RunId)
    requires ValidConfig(c) && Inv(c, s) && Habilitado(c, s, MarcarQueued(r))
    ensures Inv(c, Aplica(c, s, MarcarQueued(r)))
  {
    var s' := Aplica(c, s, MarcarQueued(r));
    OwnersGrow(s, s');
    assert RunOk(c, s, r);
    forall q | q in s'.procs ensures ProcOk(c, s', q) { assert ProcOk(c, s, q); }
    forall q | q in s'.runs ensures RunOk(c, s', q) {
      if q != r { RunKept(c, s, s', q); }
    }
    OwnersShrink(s, s');
  }

  lemma CancelarKeepsInv(c: Config, s: State, r: RunId)
    requires ValidConfig(c) && Inv(c, s) && Habilitado(c, s, Cancelar(r))
    ensures Inv(c, Aplica(c, s, Cancelar(r)))
  {
    var s' := Aplica(c, s, Cancelar(r));
    OwnersGrow(s, s');
    assert RunOk(c, s, r);
    forall q | q in s'.procs ensures ProcOk(c, s', q) { assert ProcOk(c, s, q); }
    forall q | q in s'.runs ensures RunOk(c, s', q) {
      if q != r { RunKept(c, s, s', q); }
    }
    OwnersShrink(s, s');
  }

  lemma EnfileirarKeepsInv(c: Config, s: State, r: RunId, prioridade: int, quando: int)
    requires ValidConfig(c) && Inv(c, s) && r in s.enfileirando
    ensures Inv(c, Aplica(c, s, Enfileirar(r, prioridade, quando)))
  {
    var s' := Aplica(c, s, Enfileirar(r, prioridade, quando));
    OwnersGrow(s, s');
    assert RunOk(c, s, r);
    NewItem(s, r, prioridade, quando);
    NewItemKeepsProcs(c, s, s', r);
    forall q | q in s'.runs ensures RunOk(c, s', q) {
      if q != r { RunKept(c, s, s', q); }
    }
    OwnersShrink(s, s');
  }

  lemma NewItemKeepsProcs(c: Config, s: State, s': State, r: RunId)
    requires Inv(c, s) && r in s.enfileirando && s'.proximo >= s.proximo
    requires s' == s.(fila := s'.fila, proximo := s'.proximo, enfileirando := s.enfileirando - {r})
    requires forall i :: i in s'.fila && i < s.proximo ==> i in s.fila && s'.fila[i] == s.fila[i]
    requires forall q :: TemItem(s.fila, q) ==> TemItem(s'.fila, q)
    ensures forall q {:trigger ProcOk(c, s', q)} :: q in s'.procs ==> ProcOk(c, s', q)
  {
    forall q | q in s'.procs ensures ProcOk(c, s', q) { assert ProcOk(c, s, q); }
  }

  lemma NewItem(s: State, r: RunId, prioridade: int, quando: int)
    requires TableOk(s) && r in s.runs && !TemItem(s.fila, r)
    ensures var t := Enqueued(s.fila, s.proximo, r, prioridade, quando);
      && UniqueRuns(t) && t == s.fila[s.proximo := Row(r, prioridade, quando, None)]
      && s.proximo !in s.fila
      && forall q :: TemItem(t, q) <==> TemItem(s.fila, q) || q == r
  {
    assert s.proximo !in s.fila;
    forall q ensures TemItem(s.fila[s.proximo := Row(r, prioridade, quando, None)], q) <==> TemItem(s.fila, q) || q == r {
      ItemAdded(s.fila, s.proximo, Row(r, prioridade, quando, None), q);
    }
  }

  lemma ItemAdded(t: Table, i: nat, row: Row, r: RunId)
    requires i in t ==> t[i].run == row.run
    ensures TemItem(t[i := row], r) <==> TemItem(t, r) || r == row.run
  {
    var u := t[i := row];
    assert i in u;
    if TemItem(t, r) {
      var j :| j in t && t[j].run == r;
      assert j in u && u[j].run == r;
    }
  }

  lemma ReivindicarKeepsInv(c: Config, s: State, i: nat, p: nat, agora: int)
    requires ValidConfig(c) && Inv(c, s) && Habilitado(c, s, Reivindicar(i, p, agora))
    ensures Inv(c, Aplica(c, s, Reivindicar(i, p, agora)))
  {
    var s' := Aplica(c, s, Reivindicar(i, p, agora));
    OwnersGrow(s, s');
    assert TemItem(s.fila, s.fila[i].run) && RunOk(c, s, s.fila[i].run);
    RemarkKeepsRuns(c, s, s', i);
    RemarkKeepsProcs(c, s, s', i);
    assert ProcOk(c, s', p);
    RemarkKeepsTable(s, s', i);
    OwnersShrink(s, s');
  }

  /** Only the row `i` is rewritten, for the same run, and no goroutine that owned
      something lost it. */
  ghost predicate Remarked(s: State, s': State, i: nat) {
    && i in s.fila && i in s'.fila && s'.fila == s.fila[i := s'.fila[i]] && s'.fila[i].run == s.fila[i].run
    && s'.runs == s.runs && s'.proximo == s.proximo && s'.enfileirando == s.enfileirando
  }

  lemma RemarkKeepsRuns(c: Config, s: State, s': State, i: nat)
    requires Inv(c, s) && Remarked(s, s', i)
    requires forall r :: TemDono(s, r) ==> TemDono(s', r)
    ensures forall r {:trigger RunOk(c, s', r)} :: r in s'.runs ==> RunOk(c, s', r)
    ensures forall r :: r in s'.enfileirando ==> !TemItem(s'.fila, r)
  {
    RemarkKeepsItems(s.fila, i, s'.fila[i]);
    forall r | r in s'.runs ensures RunOk(c, s', r) {
      assert RunOk(c, s, r);
      RunKept(c, s, s', r);
    }
  }

  lemma RemarkKeepsProcs(c: Config, s: State, s': State, i: nat)
    requires Inv(c, s) && Remarked(s, s', i)
    ensures forall q {:trigger ProcOk(c, s', q)} ::
              q in s.procs && q in s'.procs && s'.procs[q] == s.procs[q] ==> ProcOk(c, s', q)
  {
    RemarkKeepsItems(s.fila, i, s'.fila[i]);
    forall q | q in s.procs && q in s'.procs && s'.procs[q] == s.procs[q] ensures ProcOk(c, s', q) {
      assert ProcOk(c, s, q);
      ProcKept(c, s, s', q);
    }
  }

  lemma RemarkKeepsItems(t: Table, i: nat, row: Row)
    requires i in t && t[i].run == row.run
    ensures forall r :: TemItem(t[i := row], r) <==> TemItem(t, r)
  {
    forall r ensures TemItem(t[i := row], r) <==> TemItem(t, r) { ItemAdded(t, i, row, r); }
  }

  /** Changing the mark of one row: the table stays well formed when the other marks
      keep their owners and this one, if set, gets one. */
  lemma RemarkKeepsTable(s: State, s': State, i: nat)
    requires TableOk(s) && s'.fila.Keys == s.fila.Keys && s'.proximo == s.proximo && s'.runs.Keys == s.runs.Keys
    requires forall j :: j in s.fila ==> s'.fila[j].run == s.fila[j].run && (j != i ==> s'.fila[j] == s.fila[j])
    requires forall q :: q in s.procs ==> q in s'.procs && s'.procs[q].item == s.procs[q].item
    requires forall j :: j in s.dono && j != i ==> j in s'.dono && s'.dono[j] == s.dono[j]
    requires i in s'.fila && s'.fila[i].marca.Some? ==> i in s'.dono && s'.dono[i] in s'.procs && s'.procs[s'.dono[i]].item == i
    ensures TableOk(s')
  {}

  lemma MorrerKeepsInv(c: Config, s: State, p: nat)
    requires ValidConfig(c) && Inv(c, s) && p in s.procs && EmTentativa(s.procs[p].pc)
    ensures Inv(c, Aplica(c, s, Morrer(p)))
  {
    var s' := Aplica(c, s, Morrer(p));
    OwnersGrow(s, s');
    forall q | q in s'.procs ensures ProcOk(c, s', q) { assert ProcOk(c, s, q); }
    forall q | q in s'.runs ensures RunOk(c, s', q) { RunKept(c, s, s', q); }
    assert TableOk(s');
    OwnersShrink(s, s');
  }

  lemma RecuperarKeepsInv(c: Config, s: State, i: nat, p: nat)
    requires ValidConfig(c) && Inv(c, s) && Habilitado(c, s, Recuperar(i, p)) && Benigno(s, Recuperar(i, p))
    ensures Inv(c, Aplica(c, s, Recuperar(i, p)))
  {
    var s' := Aplica(c, s, Recuperar(i, p));
    var r, d := s.fila[i].run, s.dono[i];
    assert ProcOk(c, s, d);
    assert DonoDe(s, d, r);
    HandOverKeepsOwner(s, s', d, p, r);
    RemarkKeepsRuns(c, s, s', i);
    RecuperarProcs(c, s, i, p);
    RemarkKeepsTable(s, s', i);
  }

  lemma RecuperarProcs(c: Config, s: State, i: nat, p: nat)
    requires Inv(c, s) && Habilitado(c, s, Recuperar(i, p)) && Benigno(s, Recuperar(i, p))
    ensures var s' := Aplica(c, s, Recuperar(i, p));
      forall q {:trigger ProcOk(c, s', q)} :: q in s'.procs ==> ProcOk(c, s', q)
  {
    var s' := Aplica(c, s, Recuperar(i, p));
    RemarkKeepsProcs(c, s, s', i);
    RecuperarNewProc(c, s, i, p);
  }

  lemma RecuperarNewProc(c: Config, s: State, i: nat, p: nat)
    requires Inv(c, s) && Habilitado(c, s, Recuperar(i, p)) && Benigno(s, Recuperar(i, p))
    ensures ProcOk(c, Aplica(c, s, Recuperar(i, p)), p) && ProcOk(c, Aplica(c, s, Recuperar(i, p)), s.dono[i])
  {
    assert ProcOk(c, s, s.dono[i]) && RunOk(c, s, s.fila[i].run);
  }

  /** The dead owner hands the run to the recovering goroutine. */
  lemma HandOverKeepsOwner(s: State, s': State, d: nat, p: nat, r: RunId)
    requires UmTitular(s) && DonoDe(s, d, r) && p !in s.procs
    requires s'.procs == s.procs[d := s.procs[d].(pc := Fim)][p := Proc(Falhando, s.procs[d].item, r)]
    ensures UmTitular(s')
    ensures forall u :: TemDono(s, u) ==> TemDono(s', u)
  {
    assert DonoDe(s', p, r);
    forall u | TemDono(s, u) ensures TemDono(s', u) {
      var q :| DonoDe(s, q, u);
      assert u != r ==> DonoDe(s', q, u);
    }
    forall q1, q2, u | DonoDe(s', q1, u) && DonoDe(s', q2, u) ensures q1 == q2 {
      assert q1 != p ==> DonoDe(s, q1, u);
      assert q2 != p ==> DonoDe(s, q2, u);
    }
  }

  lemma StepKeepsInv(c: Config, s: State, step: Step)
    requires ValidConfig(c) && Inv(c, s) && Habilitado(c, s, step) && Benigno(s, step)
    ensures Inv(c, Aplica(c, s, step))
  {
    match step
    case Criar(r) => CriarKeepsInv(c, s, r);
    case MarcarQueued(r) => MarcarQueuedKeepsInv(c, s, r);
    case Enfileirar(r, n, t) => EnfileirarKeepsInv(c, s, r, n, t);
    case Cancelar(r) => CancelarKeepsInv(c, s, r);
    case Fotografar(agora) =>
      var s' := Aplica(c, s, step);
      OwnersGrow(s, s');
      forall q | q in s'.procs ensures ProcOk(c, s', q) { assert ProcOk(c, s, q); }
      forall q | q in s'.runs ensures RunOk(c, s', q) { RunKept(c, s, s', q); }
      OwnersShrink(s, s');
    case Reivindicar(i, p, agora) => ReivindicarKeepsInv(c, s, i, p, agora);
    case Avancar(p, ok, agora) =>
      assert ProcOk(c, s, p);
      AvancarKeepsInv(c, s, p, ok, agora);
    case Morrer(p) => MorrerKeepsInv(c, s, p);
    case Recuperar(i, p) => RecuperarKeepsInv(c, s, i, p);
    case _ =>
  }

  lemma {:induction false} Reachable(c: Config, states: seq<State>, steps: seq<Step>, k: nat)
    requires ValidConfig(c) && BenignTrace(c, states, steps) && k < |states|
    ensures Inv(c, states[k])
  {
    if k > 0 {
      Reachable(c, states, steps, k - 1);
      StepKeepsInv(c, states[k - 1], steps[k - 1]);
    }
  }
}
