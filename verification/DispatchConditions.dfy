/** When exactly a death, a recovery, a failed database call or a cancellation does the
    harm that the assumptions of Dispatch rule out. */
module DispatchConditions {
  import opened RunStatus
  import opened Queue
  import opened Dispatch
  import opened DispatchGuarantees
  import opened DispatchMarks
  import opened Dispatcher

  // ---- deaths and recoveries -------------------------------------------------

  /** Recovering item `i` and running the recovery to its end. */
  ghost function Recuperado(c: Config, s: State, i: nat, q: nat, agora: int): State
    requires Habilitado(c, s, Recuperar(i, q)) && s.fila[i].run in s.runs
  {
    Corre(c, Aplica(c, s, Recuperar(i, q)), q, true, agora)
  }

  /** An attempt whose run is running is failed: the item goes back, or the run is done
      with. In every other status the failure is refused and the item deleted. */
  lemma RecoveryOutcome(c: Config, s: State, i: nat, q: nat, agora: int)
    requires Habilitado(c, s, Recuperar(i, q)) && s.fila[i].run in s.runs && UniqueRuns(s.fila)
    ensures var r, s' := s.fila[i].run, Recuperado(c, s, i, q, agora);
      && r in s'.runs
      && (s.runs[r].status != Running ==> s'.runs[r] == s.runs[r] && !TemItem(s'.fila, r))
      && (s.runs[r].status == Running && s.runs[r].attempt + 1 >= c.maxTentativas ==>
            s'.runs[r].status == Failed && !TemItem(s'.fila, r))
      && (s.runs[r].status == Running && s.runs[r].attempt + 1 < c.maxTentativas ==>
            s'.runs[r].status == Queued && i in s'.fila && s'.fila[i].run == r)
  {
    var s1 := Aplica(c, s, Recuperar(i, q));
    var r := s.fila[i].run;
    assert s1.procs[q] == Proc(Falhando, i, r) && s1.runs == s.runs;
    UndisturbedRun(c, s1, q, true, agora);
    FailedRow(c, s.runs[r]);
    assert forall j :: j in s1.fila ==> j in s.fila && s1.fila[j].run == s.fila[j].run;
  }

  lemma FailedRow(c: Config, row: RunRow)
    ensures var (fim, op) := AteOFim(c, row, Falhando, true);
      && (row.status != Running ==> fim == row && op == Apaga)
      && (row.status == Running && row.attempt + 1 >= c.maxTentativas ==> fim.status == Failed && op == Apaga)
      && (row.status == Running && row.attempt + 1 < c.maxTentativas ==> fim.status == Queued && op.Solta?)
  {
    OutcomeIgnored(c, row);
    FailureEnds(c, row);
  }

  /** What executar answered plays no part from falhar on. */
  lemma OutcomeIgnored(c: Config, row: RunRow)
    ensures AteOFim(c, row, Falhando, true) == AteOFim(c, row, Falhando, false)
  {
    SameFrom(c, row, Falhando);
  }

  lemma {:induction false} SameFrom(c: Config, row: RunRow, pc: Pc)
    requires Restam(pc) <= Restam(Falhando)
    ensures AteOFim(c, row, pc, true) == AteOFim(c, row, pc, false)
    decreases Restam(pc)
  {
    if pc != Fim && pc != Morto {
      var e := Passo(c, row, pc, true);
      assert e == Passo(c, row, pc, false);
      SameFrom(c, e.row, e.pc);
    }
  }

  /** The exact condition on recovery: it loses the run exactly when it finds it queued or
      retrying. */
  lemma RecoveryLosesIff(c: Config, s: State, i: nat, q: nat, agora: int)
    requires Habilitado(c, s, Recuperar(i, q)) && UniqueRuns(s.fila)
    requires s.fila[i].run in s.runs && s.fila[i].run !in s.enfileirando
    ensures var r := s.fila[i].run;
      Perdida(Recuperado(c, s, i, q, agora), r) <==> s.runs[r].status == Queued || s.runs[r].status == Retrying
  {
    RecoveryOutcome(c, s, i, q, agora);
    SameElsewhere(c, Aplica(c, s, Recuperar(i, q)), q, true, agora);
    var s', r := Recuperado(c, s, i, q, agora), s.fila[i].run;
    assert i in s'.fila && s'.fila[i].run == r ==> TemItem(s'.fila, r);
  }

  /** Undisturbed, a goroutine changes nothing of the others. */
  lemma {:induction false} SameElsewhere(c: Config, s: State, p: nat, ok: bool, agora: int)
    requires p in s.procs && s.procs[p].run in s.runs
    ensures var s' := Corre(c, s, p, ok, agora);
      && s'.enfileirando == s.enfileirando && s'.proximo == s.proximo && s'.dono == s.dono
      && s'.procs.Keys == s.procs.Keys && p in s'.procs && (s'.procs[p].pc == Fim || s'.procs[p].pc == Morto)
      && forall o :: o in s.procs && o != p ==> s'.procs[o] == s.procs[o]
    decreases Restam(s.procs[p].pc)
  {
    var pc := s.procs[p].pc;
    if pc != Fim && pc != Morto {
      var e := Passo(c, s.runs[s.procs[p].run], pc, ok);
      var s1 := Aplicado(s, p, e, agora);
      SameElsewhere(c, s1, p, ok, agora);
      assert Corre(c, s, p, ok, agora) == Corre(c, s1, p, ok, agora);
    }
  }

  /** The exact condition on deaths, wherever they strike: from any state the protocol can
      be in, if a goroutine that holds its mark dies and is recovered, its run is lost
      exactly when it was queued or retrying at the death. */
  lemma DeathLosesIff(c: Config, s: State, p: nat, q: nat, agora: int)
    requires ValidConfig(c) && Inv(c, s) && Segura(s, p) && Habilitado(c, s, Morrer(p)) && q !in s.procs
    ensures var i, r, morta := s.procs[p].item, s.procs[p].run, Aplica(c, s, Morrer(p));
      && Habilitado(c, morta, Recuperar(i, q)) && r in s.runs
      && (Perdida(Recuperado(c, morta, i, q, agora), r) <==> s.runs[r].status == Queued || s.runs[r].status == Retrying)
  {
    assert ProcOk(c, s, p);
    RecoveryLosesIff(c, Aplica(c, s, Morrer(p)), s.procs[p].item, q, agora);
  }

  // ---- failed calls ------------------------------------------------------------

  /** The state after the call of `p` fails and `p` has answered it. */
  ghost function Respondido(c: Config, s: State, p: nat, agora: int): State
    requires Habilitado(c, s, ErroDeBanco(p)) && s.procs[p].run in s.runs
  {
    Corre(c, Aplica(c, s, ErroDeBanco(p)), p, true, agora)
  }

  /** By its answer alone the code loses the run exactly when it deletes the item of a run
      that is still active. */
  lemma ErrorLosesAtOnceIff(c: Config, s: State, p: nat, agora: int)
    requires ValidConfig(c) && Inv(c, s) && Habilitado(c, s, ErroDeBanco(p)) && s.procs[p].run in s.runs
    ensures var pc, r, i := s.procs[p].pc, s.procs[p].run, s.procs[p].item;
      Perdida(Respondido(c, s, p, agora), r) <==>
        AposErro(pc) == Apagando && i in s.fila && Ativo(s.runs[r].status)
  {
    var s1, r, i := Aplica(c, s, ErroDeBanco(p)), s.procs[p].run, s.procs[p].item;
    assert ProcOk(c, s, p) && RunOk(c, s, r);
    AfterError(c, s.runs[r], s.procs[p].pc);
    UndisturbedRun(c, s1, p, true, agora);
    SameElsewhere(c, s1, p, true, agora);
    if AposErro(s.procs[p].pc) == Apagando && i in s.fila {
      assert !TemItem(s.fila - {i}, r);
    } else {
      TemItemKept(s.fila, i, if AposErro(s.procs[p].pc) == Soltando then Solta(0) else Nada, agora, r);
      assert i !in s.fila ==> s.fila - {i} == s.fila;
    }
  }

  /** Recovery finds the mark that `p` put on its item, and loses the run. */
  ghost predicate RecuperarPerde(c: Config, s: State, p: nat, q: nat, agora: int)
    requires p in s.procs && s.procs[p].run in s.runs
  {
    var i, r := s.procs[p].item, s.procs[p].run;
    && Habilitado(c, s, Recuperar(i, q)) && s.dono[i] == p && s.fila[i].run == r
    && Perdida(Recuperado(c, s, i, q, agora), r)
  }

  /** The exact condition on failed database calls, at every statement: the answer to the
      failure, or the recovery of the mark it leaves behind, loses the run exactly when the
      code deletes the item of a run that is still active, or fails to release the marked
      item of a queued or retrying one. */
  lemma ErrorLosesIff(c: Config, s: State, p: nat, q: nat, agora: int)
    requires ValidConfig(c) && Inv(c, s) && Habilitado(c, s, ErroDeBanco(p)) && q !in s.procs
    ensures s.procs[p].run in s.runs
    ensures var pc, r, i, f := s.procs[p].pc, s.procs[p].run, s.procs[p].item, Respondido(c, s, p, agora);
      && p in f.procs && f.procs[p].run == r && r in f.runs
      && (Perdida(f, r) || RecuperarPerde(c, f, p, q, agora) <==>
            || (AposErro(pc) == Apagando && i in s.fila && Ativo(s.runs[r].status))
            || ((pc.Soltando? || pc.Devolvendo?) && Segura(s, p) && Esperando(s.runs[r].status)))
  {
    assert ProcOk(c, s, p);
    ErrorLosesAtOnceIff(c, s, p, agora);
    MarkLeftIff(c, s, p, agora);
    var f, i := Respondido(c, s, p, agora), s.procs[p].item;
    if Segura(f, p) {
      RecoveryLosesIff(c, f, i, q, agora);
    }
  }

  predicate Esperando(st: Status) {
    st == Queued || st == Retrying
  }

  /** The mark is left exactly by a failed release or delete; everything else stands. */
  lemma MarkLeftIff(c: Config, s: State, p: nat, agora: int)
    requires ValidConfig(c) && Inv(c, s) && Habilitado(c, s, ErroDeBanco(p)) && s.procs[p].run in s.runs
    ensures var f, r := Respondido(c, s, p, agora), s.procs[p].run;
      && p in f.procs && f.procs[p].run == r && f.procs[p].item == s.procs[p].item && f.procs.Keys == s.procs.Keys
      && f.runs == s.runs && f.enfileirando == s.enfileirando && UniqueRuns(f.fila)
      && (Segura(f, p) <==> Segura(s, p) && AposErro(s.procs[p].pc) == Fim)
  {
    var s1 := Aplica(c, s, ErroDeBanco(p));
    AfterError(c, s.runs[s.procs[p].run], s.procs[p].pc);
    UndisturbedRun(c, s1, p, true, agora);
    SameElsewhere(c, s1, p, true, agora);
  }

  lemma AfterError(c: Config, row: RunRow, pc: Pc)
    requires FalaComBanco(pc)
    ensures AteOFim(c, row, AposErro(pc), true) ==
            (row, if AposErro(pc) == Apagando then Apaga else if AposErro(pc) == Soltando then Solta(0) else Nada)
  {
  }

  // ---- recovery of the living ------------------------------------------------

  predicate Executa(s: State, p: nat, r: RunId) {
    p in s.procs && s.procs[p].pc == Executando && s.procs[p].run == r
  }

  /** Item `i` is recovered, the recovery runs to its end, and `z` claims the item again on
      a fresh snapshot. */
  ghost function Retomado(c: Config, s: State, i: nat, q: nat, z: nat, agora: int, t: int): State
    requires Habilitado(c, s, Recuperar(i, q)) && s.fila[i].run in s.runs
    requires Habilitado(c, Aplica(c, Recuperado(c, s, i, q, agora), Fotografar(t)), Reivindicar(i, z, t))
  {
    var fim := Recuperado(c, s, i, q, agora);
    Aplica(c, Aplica(c, fim, Fotografar(t)), Reivindicar(i, z, t))
  }

  /** The exact condition on recovering an owner that may be alive: the new claim starts
      the run, and it is executed twice exactly when somebody was executing it. */
  lemma SecondExecutorIff(c: Config, s: State, i: nat, q: nat, z: nat, agora: int, t: int, ok: bool)
    requires Habilitado(c, s, Recuperar(i, q)) && s.fila[i].run in s.runs && UniqueRuns(s.fila)
    requires Habilitado(c, Aplica(c, Recuperado(c, s, i, q, agora), Fotografar(t)), Reivindicar(i, z, t))
    ensures var r, antes := s.fila[i].run, Retomado(c, s, i, q, z, agora, t);
      && s.runs[r].status == Running && s.runs[r].attempt + 1 < c.maxTentativas
      && Habilitado(c, antes, Avancar(z, ok, t))
      && var depois := Aplica(c, antes, Avancar(z, ok, t));
         && Executa(depois, z, r)
         && ((exists d :: d != z && Executa(depois, d, r)) <==> exists d :: Executa(s, d, r))
  {
    var r, fim := s.fila[i].run, Recuperado(c, s, i, q, agora);
    RecoveryOutcome(c, s, i, q, agora);
    OnlyOneItem(c, s, i, q, agora);
    SameExecutors(c, s, i, q, agora, r);
    ClaimStarts(c, fim, i, z, t, ok, r);
    var depois := Aplica(c, Retomado(c, s, i, q, z, agora, t), Avancar(z, ok, t));
    forall d: nat ensures d != z && Executa(depois, d, r) <==> Executa(s, d, r) {
      assert Executa(fim, d, r) <==> Executa(s, d, r);
    }
  }

  /** The recovery ends nobody's execution, and executes nothing. */
  lemma SameExecutors(c: Config, s: State, i: nat, q: nat, agora: int, r: RunId)
    requires Habilitado(c, s, Recuperar(i, q)) && s.fila[i].run in s.runs
    ensures forall d: nat :: Executa(Recuperado(c, s, i, q, agora), d, r) <==> Executa(s, d, r)
  {
    SameElsewhere(c, Aplica(c, s, Recuperar(i, q)), q, true, agora);
  }

  /** A claim of a queued run followed by the write of running. */
  lemma ClaimStarts(c: Config, s: State, i: nat, z: nat, t: int, ok: bool, r: RunId)
    requires i in s.fila && s.fila[i].run == r && r in s.runs && s.runs[r].status == Queued
    requires Habilitado(c, Aplica(c, s, Fotografar(t)), Reivindicar(i, z, t))
    ensures var antes := Aplica(c, Aplica(c, s, Fotografar(t)), Reivindicar(i, z, t));
      && Habilitado(c, antes, Avancar(z, ok, t))
      && var depois := Aplica(c, antes, Avancar(z, ok, t));
         && Executa(depois, z, r) && z !in s.procs
         && forall d :: d != z ==> (Executa(depois, d, r) <==> Executa(s, d, r))
  {
  }

  /** An item still there after the recovery is still the run's. */
  lemma OnlyOneItem(c: Config, s: State, i: nat, q: nat, agora: int)
    requires Habilitado(c, s, Recuperar(i, q)) && s.fila[i].run in s.runs
    requires i in Recuperado(c, s, i, q, agora).fila
    ensures Recuperado(c, s, i, q, agora).fila[i].run == s.fila[i].run
    ensures TemItem(Recuperado(c, s, i, q, agora).fila, s.fila[i].run)
  {
    UndisturbedRun(c, Aplica(c, s, Recuperar(i, q)), q, true, agora);
  }

  // ---- canceled runs -----------------------------------------------------------

  /** A goroutine on item `i` is past the entry to running: it owns the run, and if it is
      dead it can be recovered. */
  ghost predicate PassouDaEntrada(s: State, i: nat) {
    exists p {:trigger Passou(s, i, p)} :: Passou(s, i, p)
  }

  predicate Passou(s: State, i: nat, p: nat) {
    p in s.procs && s.procs[p].item == i && Titular(s.procs[p].pc) && (s.procs[p].pc == Morto ==> Segura(s, p))
  }

  /** `t` is reached from `s` by steps that keep to the assumptions. */
  ghost predicate Leva(c: Config, s: State, t: State) {
    exists states: seq<State>, steps: seq<Step> :: Trecho(c, states, steps, s, t)
  }

  ghost predicate Trecho(c: Config, states: seq<State>, steps: seq<Step>, s: State, t: State) {
    && |states| == |steps| + 1 && states[0] == s && states[|steps|] == t
    && forall k {:trigger steps[k]} :: 0 <= k < |steps| ==>
         Habilitado(c, states[k], steps[k]) && Benigno(states[k], steps[k]) && states[k + 1] == Aplica(c, states[k], steps[k])
  }

  lemma LevaCons(c: Config, s: State, step: Step, t: State)
    requires Habilitado(c, s, step) && Benigno(s, step) && Leva(c, Aplica(c, s, step), t)
    ensures Leva(c, s, t)
  {
    var states: seq<State>, steps: seq<Step> :| Trecho(c, states, steps, Aplica(c, s, step), t);
    TrechoCons(c, states, steps, s, step, t);
  }

  lemma TrechoCons(c: Config, states: seq<State>, steps: seq<Step>, s: State, step: Step, t: State)
    requires Habilitado(c, s, step) && Benigno(s, step) && Trecho(c, states, steps, Aplica(c, s, step), t)
    ensures Trecho(c, [s] + states, [step] + steps, s, t)
  {
    var states', steps' := [s] + states, [step] + steps;
    forall k | 0 <= k < |steps'|
      ensures Habilitado(c, states'[k], steps'[k]) && Benigno(states'[k], steps'[k]) && states'[k + 1] == Aplica(c, states'[k], steps'[k])
    {
      if k > 0 { assert steps'[k] == steps[k - 1]; }
    }
  }

  lemma LevaSelf(c: Config, s: State)
    ensures Leva(c, s, s)
  {
    assert Trecho(c, [s], [], s, s);
  }

  ghost predicate Cancelada(s: State, i: nat, r: RunId) {
    i in s.fila && s.fila[i].run == r && r in s.runs && s.runs[r].status == Canceled
  }

  /** An owner of a canceled run goes on to delete the item. */
  lemma {:induction false} OwnerDeletes(c: Config, s: State, i: nat, r: RunId, p: nat)
    requires Cancelada(s, i, r) && p in s.procs && s.procs[p].item == i && s.procs[p].run == r
    requires Titular(s.procs[p].pc) && s.procs[p].pc != Morto
    ensures exists t :: Leva(c, s, t) && i !in t.fila
    decreases Restam(s.procs[p].pc)
  {
    var step := Avancar(p, true, 0);
    var s' := Aplica(c, s, step);
    CanceledStep(c, s.runs[r], s.procs[p].pc);
    if s.procs[p].pc == Apagando {
      LevaSelf(c, s');
      LevaCons(c, s, step, s');
    } else {
      OwnerDeletes(c, s', i, r, p);
      var t :| Leva(c, s', t) && i !in t.fila;
      LevaCons(c, s, step, t);
    }
  }

  lemma CanceledStep(c: Config, row: RunRow, pc: Pc)
    requires row.status == Canceled && Titular(pc) && pc != Morto
    ensures var e := Passo(c, row, pc, true);
      e.row.status == Canceled &&
      if pc == Apagando then e.op == Apaga else e.op == Nada && Titular(e.pc) && e.pc != Morto && Restam(e.pc) < Restam(pc)
  {
  }

  lemma {:induction false} FreshProc(ps: set<nat>) returns (q: nat)
    ensures forall p :: p in ps ==> p < q
  {
    q := 0;
    if ps != {} {
      var x :| x in ps;
      var m := FreshProc(ps - {x});
      q := if x < m then m else x + 1;
      assert forall p :: p in ps ==> p == x || p in ps - {x};
    }
  }

  /** A dead owner that holds its mark is recovered, and the recovery deletes the item. */
  lemma RecoveryDeletes(c: Config, s: State, i: nat, r: RunId, p: nat)
    requires Cancelada(s, i, r) && Segura(s, p) && s.procs[p].item == i && s.procs[p].pc == Morto
    ensures exists t :: Leva(c, s, t) && i !in t.fila
  {
    var q := FreshProc(s.procs.Keys);
    assert q !in s.procs;
    var step := Recuperar(i, q);
    var s' := Aplica(c, s, step);
    OwnerDeletes(c, s', i, r, q);
    var t :| Leva(c, s', t) && i !in t.fila;
    LevaCons(c, s, step, t);
  }

  /** As long as nobody is past the entry, no step deletes the item or takes anybody past. */
  lemma StillWaiting(c: Config, s: State, step: Step, i: nat, r: RunId)
    requires ValidConfig(c) && Inv(c, s) && Cancelada(s, i, r) && !PassouDaEntrada(s, i)
    requires Habilitado(c, s, step) && Benigno(s, step)
    ensures Cancelada(Aplica(c, s, step), i, r) && !PassouDaEntrada(Aplica(c, s, step), i)
  {
    var s' := Aplica(c, s, step);
    TerminalStep(c, s, step, s', r);
    ItemStays(c, s, step, i, r);
    forall p ensures !Passou(s', i, p) {
      assert !Passou(s, i, p);
      NobodyPasses(c, s, step, i, r, p);
    }
  }

  lemma ItemStays(c: Config, s: State, step: Step, i: nat, r: RunId)
    requires Inv(c, s) && Cancelada(s, i, r) && !PassouDaEntrada(s, i) && Habilitado(c, s, step)
    ensures i in Aplica(c, s, step).fila && Aplica(c, s, step).fila[i].run == r
  {
    if step.Avancar? {
      assert !Passou(s, i, step.proc);
      DeletersOwn(c, s.runs[s.procs[step.proc].run], s.procs[step.proc].pc, step.ok);
    }
  }

  lemma DeletersOwn(c: Config, row: RunRow, pc: Pc, ok: bool)
    ensures Passo(c, row, pc, ok).op == Apaga ==> pc == Apagando
  {
  }

  lemma NobodyPasses(c: Config, s: State, step: Step, i: nat, r: RunId, p: nat)
    requires ValidConfig(c) && Inv(c, s) && Cancelada(s, i, r) && !PassouDaEntrada(s, i) && !Passou(s, i, p)
    requires Habilitado(c, s, step) && Benigno(s, step)
    ensures !Passou(Aplica(c, s, step), i, p)
  {
    if p in s.procs && s.procs[p].item == i {
      assert ProcOk(c, s, p);
      if s.procs[p].pc == Morto {
        NoMarkComesBack(c, s, step, p);
      } else {
        WaiterWaits(c, s, step, i, r, p);
      }
    } else {
      NewcomerWaits(c, s, step, i, p);
    }
  }

  /** A goroutine that only claims, releases or has ended. */
  lemma WaiterWaits(c: Config, s: State, step: Step, i: nat, r: RunId, p: nat)
    requires Cancelada(s, i, r) && p in s.procs && s.procs[p].item == i && s.procs[p].run == r && !Titular(s.procs[p].pc)
    requires Habilitado(c, s, step) && Benigno(s, step)
    ensures !Passou(Aplica(c, s, step), i, p)
  {
    match step
    case Avancar(q, ok, agora) =>
    case _ =>
  }

  lemma NewcomerWaits(c: Config, s: State, step: Step, i: nat, p: nat)
    requires ValidConfig(c) && Inv(c, s) && i in s.fila && !PassouDaEntrada(s, i) && !(p in s.procs && s.procs[p].item == i)
    requires Habilitado(c, s, step) && Benigno(s, step)
    ensures !Passou(Aplica(c, s, step), i, p)
  {
    if step.Recuperar? && step.item == i { RecoveredWasPast(c, s, i, step.proc); }
  }

  /** The dead owner that is recovered was past the entry. */
  lemma RecoveredWasPast(c: Config, s: State, i: nat, q: nat)
    requires Inv(c, s) && Habilitado(c, s, Recuperar(i, q)) && Benigno(s, Recuperar(i, q))
    ensures PassouDaEntrada(s, i)
  {
    assert ProcOk(c, s, s.dono[i]);
    assert Passou(s, i, s.dono[i]);
  }

  lemma {:induction false} WaitsThrough(c: Config, states: seq<State>, steps: seq<Step>, k: nat, i: nat, r: RunId)
    requires ValidConfig(c) && k < |states| && Trecho(c, states, steps, states[0], states[|states| - 1])
    requires Inv(c, states[0]) && Cancelada(states[0], i, r) && !PassouDaEntrada(states[0], i)
    ensures Inv(c, states[k]) && Cancelada(states[k], i, r) && !PassouDaEntrada(states[k], i)
  {
    if k > 0 {
      WaitsThrough(c, states, steps, k - 1, i, r);
      var s, step := states[k - 1], steps[k - 1];
      StepKeepsInv(c, s, step);
      StillWaiting(c, s, step, i, r);
    }
  }

  /** The exact condition on cancellations: the item of a canceled run can still be deleted
      exactly when some goroutine on it is past the entry to running. Otherwise it is
      claimed and released for ever. */
  lemma CanceledItemDeletableIff(c: Config, s: State, i: nat, r: RunId)
    requires ValidConfig(c) && Inv(c, s) && Cancelada(s, i, r)
    ensures (exists t :: Leva(c, s, t) && i !in t.fila) <==> PassouDaEntrada(s, i)
  {
    if PassouDaEntrada(s, i) {
      var p :| Passou(s, i, p);
      assert ProcOk(c, s, p);
      if s.procs[p].pc == Morto { RecoveryDeletes(c, s, i, r, p); } else { OwnerDeletes(c, s, i, r, p); }
    } else {
      forall t | Leva(c, s, t) ensures i in t.fila {
        var states: seq<State>, steps: seq<Step> :| Trecho(c, states, steps, s, t);
        WaitsThrough(c, states, steps, |steps|, i, r);
      }
    }
  }
}
