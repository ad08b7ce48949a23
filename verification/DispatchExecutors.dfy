/** When a run has two executors, over every run of the protocol: whoever dies, whatever the
    database answers, and whoever finishes in between. */
module DispatchExecutors {
  import opened RunStatus
  import opened Queue
  import opened Dispatch
  import opened DispatchCounts
  import opened DispatchGuarantees
  import opened DispatchMarks
  import opened DispatchConditions

  /** The steps that end an execution: its goroutine goes on, or dies. */
  predicate Encerra(step: Step, p: nat) {
    match step
    case Avancar(q, _, _) => q == p
    case Morrer(q) => q == p
    case _ => false
  }

  /** The write of running by `z` is accepted. */
  predicate Inicia(s: State, step: Step, z: nat, r: RunId) {
    && step.Avancar? && step.proc == z && z in s.procs && s.procs[z].pc == Reivindicado && s.procs[z].run == r
    && r in s.runs && s.runs[r].status == Queued
  }

  /** Somebody else fails the run that `d` is executing. */
  predicate Atropela(s: State, step: Step, d: nat, r: RunId) {
    && Executa(s, d, r) && r in s.runs && s.runs[r].status == Running
    && step.Avancar? && step.proc in s.procs && s.procs[step.proc].pc == Falhando && s.procs[step.proc].run == r
  }

  lemma GoesOnIff(c: Config, s: State, step: Step, d: nat, r: RunId)
    requires Habilitado(c, s, step) && Executa(s, d, r)
    ensures Executa(Aplica(c, s, step), d, r) <==> !Encerra(step, d)
  {
  }

  lemma BeginsIff(c: Config, s: State, step: Step, z: nat, r: RunId)
    requires Habilitado(c, s, step) && !Executa(s, z, r)
    ensures Executa(Aplica(c, s, step), z, r) <==> Inicia(s, step, z, r)
  {
  }

  /** A run leaves running, success and canceled only by being failed. */
  predicate Atual(st: Status) {
    st == Running || st == Success || st == Canceled
  }

  lemma LeavesByFailure(c: Config, s: State, step: Step, d: nat, r: RunId)
    requires Habilitado(c, s, step) && Executa(s, d, r) && r in s.runs && Atual(s.runs[r].status)
    requires Executa(Aplica(c, s, step), d, r) && !Atual(Aplica(c, s, step).runs[r].status)
    ensures Atropela(s, step, d, r)
  {
    StepRespectsTable(c, s, step, r);
  }

  ghost predicate Segue(steps: seq<Step>, p: nat, de: nat, ate: nat)
    requires ate <= |steps|
  {
    forall l {:trigger steps[l]} :: de <= l < ate ==> !Encerra(steps[l], p)
  }

  ghost predicate AtropeladoEm(states: seq<State>, steps: seq<Step>, j: nat, k: nat, d: nat, r: RunId)
    requires |states| == |steps| + 1 && j < k <= |steps|
  {
    Atropela(states[j], steps[j], d, r) && Segue(steps, d, j, k)
  }

  /** Whoever executes a run that is queued, failed or retrying was overrun: somebody failed
      the run under its hands. */
  lemma {:induction false} OverrunIff(c: Config, states: seq<State>, steps: seq<Step>, k: nat, d: nat, r: RunId)
    requires ValidConfig(c) && Trace(c, states, steps) && k < |states| && Executa(states[k], d, r)
    ensures r in states[k].runs
    ensures !Atual(states[k].runs[r].status) ==> exists j: nat :: j < k && AtropeladoEm(states, steps, j, k, d, r)
  {
    AlwaysCounted(c, states, steps, k);
    assert Conhece(c, states[k], d);
    if k > 0 && !Atual(states[k].runs[r].status) {
      OneStep(c, states, steps, k);
      var s, step := states[k - 1], steps[k - 1];
      if !Executa(s, d, r) {
        BeginsIff(c, s, step, d, r);
      } else {
        GoesOnIff(c, s, step, d, r);
        OverrunIff(c, states, steps, k - 1, d, r);
        if Atual(s.runs[r].status) {
          LeavesByFailure(c, s, step, d, r);
          assert AtropeladoEm(states, steps, k - 1, k, d, r);
        } else {
          var j: nat :| j < k - 1 && AtropeladoEm(states, steps, j, k - 1, d, r);
          assert AtropeladoEm(states, steps, j, k, d, r);
        }
      }
    }
  }

  /** `d` is overrun at `j`, `z` starts the run at `m`, and both are still at it at `k`. */
  ghost predicate Dobrou(states: seq<State>, steps: seq<Step>, j: nat, m: nat, k: nat, d: nat, z: nat, r: RunId)
    requires |states| == |steps| + 1 && k <= |steps|
  {
    && j < m < k && AtropeladoEm(states, steps, j, k, d, r)
    && Inicia(states[m], steps[m], z, r) && Segue(steps, z, m + 1, k)
  }

  ghost predicate Dobra(states: seq<State>, steps: seq<Step>, k: nat, d: nat, z: nat, r: RunId)
    requires |states| == |steps| + 1 && k <= |steps|
  {
    exists j: nat, m: nat :: Dobrou(states, steps, j, m, k, d, z, r)
  }

  lemma {:induction false} OneWasOverrun(c: Config, states: seq<State>, steps: seq<Step>, k: nat, d: nat, z: nat, r: RunId)
    requires ValidConfig(c) && Trace(c, states, steps) && k < |states|
    requires d != z && Executa(states[k], d, r) && Executa(states[k], z, r)
    ensures Dobra(states, steps, k, d, z, r) || Dobra(states, steps, k, z, d, r)
  {
    if k > 0 {
      OneStep(c, states, steps, k);
      var s, step := states[k - 1], steps[k - 1];
      if Executa(s, d, r) && Executa(s, z, r) {
        OneWasOverrun(c, states, steps, k - 1, d, z, r);
        GoesOnIff(c, s, step, d, r);
        GoesOnIff(c, s, step, z, r);
        if Dobra(states, steps, k - 1, d, z, r) { StillTwo(states, steps, k, d, z, r); }
        else { StillTwo(states, steps, k, z, d, r); }
      } else if Executa(s, d, r) {
        Joins(c, states, steps, k, d, z, r);
      } else {
        BeginsIff(c, s, step, d, r);
        if !Executa(s, z, r) { BeginsIff(c, s, step, z, r); }
        Joins(c, states, steps, k, z, d, r);
      }
    }
  }

  lemma StillTwo(states: seq<State>, steps: seq<Step>, k: nat, d: nat, z: nat, r: RunId)
    requires |states| == |steps| + 1 && 0 < k <= |steps| && Dobra(states, steps, k - 1, d, z, r)
    requires !Encerra(steps[k - 1], d) && !Encerra(steps[k - 1], z)
    ensures Dobra(states, steps, k, d, z, r)
  {
    var j: nat, m: nat :| Dobrou(states, steps, j, m, k - 1, d, z, r);
    assert Dobrou(states, steps, j, m, k, d, z, r);
  }

  /** `z` joins `d`, which was overrun. */
  lemma Joins(c: Config, states: seq<State>, steps: seq<Step>, k: nat, d: nat, z: nat, r: RunId)
    requires ValidConfig(c) && Trace(c, states, steps) && 0 < k < |states|
    requires d != z && Executa(states[k - 1], d, r) && !Executa(states[k - 1], z, r) && Executa(states[k], z, r)
    ensures Dobra(states, steps, k, d, z, r)
  {
    OneStep(c, states, steps, k);
    BeginsIff(c, states[k - 1], steps[k - 1], z, r);
    OverrunIff(c, states, steps, k - 1, d, r);
    var j: nat :| j < k - 1 && AtropeladoEm(states, steps, j, k - 1, d, r);
    assert Dobrou(states, steps, j, k - 1, k, d, z, r);
  }

  lemma {:induction false} GoesOn(c: Config, states: seq<State>, steps: seq<Step>, m: nat, k: nat, d: nat, r: RunId)
    requires Trace(c, states, steps) && m <= k < |states| && Executa(states[m], d, r) && Segue(steps, d, m, k)
    ensures Executa(states[k], d, r)
    decreases k
  {
    if m < k {
      GoesOn(c, states, steps, m, k - 1, d, r);
      OneStep(c, states, steps, k);
      GoesOnIff(c, states[k - 1], steps[k - 1], d, r);
    }
  }

  /** The exact condition: a run has two executors exactly when one was overrun by somebody
      else's failure of the run, the other started after that, and neither has finished or
      died since. */
  lemma TwoExecutorsIff(c: Config, states: seq<State>, steps: seq<Step>, k: nat, r: RunId)
    requires ValidConfig(c) && Trace(c, states, steps) && k < |states|
    ensures (exists d, z :: d != z && Executa(states[k], d, r) && Executa(states[k], z, r)) <==>
            exists d, z :: Dobra(states, steps, k, d, z, r)
  {
    if d, z :| d != z && Executa(states[k], d, r) && Executa(states[k], z, r) {
      OneWasOverrun(c, states, steps, k, d, z, r);
    }
    if d, z :| Dobra(states, steps, k, d, z, r) {
      var j: nat, m: nat :| Dobrou(states, steps, j, m, k, d, z, r);
      BothAtWork(c, states, steps, j, m, k, d, z, r);
    }
  }

  lemma BothAtWork(c: Config, states: seq<State>, steps: seq<Step>, j: nat, m: nat, k: nat, d: nat, z: nat, r: RunId)
    requires Trace(c, states, steps) && k < |states| && Dobrou(states, steps, j, m, k, d, z, r)
    ensures d != z && Executa(states[k], d, r) && Executa(states[k], z, r)
  {
    GoesOn(c, states, steps, j, m, d, r);
    GoesOn(c, states, steps, j, k, d, r);
    OneStep(c, states, steps, m + 1);
    BeginsIff(c, states[m], steps[m], z, r);
    GoesOn(c, states, steps, m + 1, k, z, r);
  }

  // ---- without recoveries ----------------------------------------------------

  lemma {:induction false} OneItemForEachRun(c: Config, states: seq<State>, steps: seq<Step>, k: nat)
    requires Trace(c, states, steps) && k < |states|
    ensures UniqueRuns(states[k].fila)
  {
    if k > 0 {
      OneItemForEachRun(c, states, steps, k - 1);
      OneStep(c, states, steps, k);
      StepKeepsUnique(c, states[k - 1], steps[k - 1]);
    }
  }

  lemma StepKeepsUnique(c: Config, s: State, step: Step)
    requires UniqueRuns(s.fila) && Habilitado(c, s, step)
    ensures UniqueRuns(Aplica(c, s, step).fila)
  {
  }

  /** Only recovery brings a second executor: without it a run has one at most, whoever dies
      and whatever calls fail. */
  lemma OneExecutorWithoutRecovery(c: Config, states: seq<State>, steps: seq<Step>, k: nat, p: nat, q: nat, r: RunId)
    requires Trace(c, states, steps) && (forall j :: 0 <= j < |steps| ==> !steps[j].Recuperar?) && k < |states|
    requires Executa(states[k], p, r) && Executa(states[k], q, r)
    ensures p == q
  {
    WithoutRecoveryMarksAreHeld(c, states, steps, k);
    OneItemForEachRun(c, states, steps, k);
    assert Segura(states[k], p) && Segura(states[k], q);
  }
}
