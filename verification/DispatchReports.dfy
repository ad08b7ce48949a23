/** Failures nobody is told about: when a failed run is left without its alert. */
module DispatchReports {
  import opened RunStatus
  import opened Queue
  import opened Dispatch
  import opened DispatchCounts
  import opened DispatchGuarantees

  /** A failed run that was never reported, with nobody left to retry it or report it. */
  ghost predicate Calada(s: State, r: RunId) {
    && r in s.runs && s.runs[r].status == Failed && s.runs[r].alertas == 0
    && forall p {:trigger DecideDe(s, p, r)} :: !DecideDe(s, p, r)
  }

  /** The goroutine that was to decide about the failed run dies, or its call fails. */
  predicate Cala(s: State, step: Step, r: RunId) {
    match step
    case Morrer(p) => DecideDe(s, p, r)
    case ErroDeBanco(p) => DecideDe(s, p, r)
    case _ => false
  }

  lemma SilenceBeginsIff(c: Config, s: State, step: Step, r: RunId)
    requires ValidConfig(c) && Contado(c, s) && Habilitado(c, s, step) && !Calada(s, r)
    ensures Calada(Aplica(c, s, step), r) <==> Cala(s, step, r)
  {
    var s' := Aplica(c, s, step);
    if Cala(s, step, r) {
      var p := step.proc;
      assert Conhece(c, s, p);
      forall q ensures !DecideDe(s', q, r) { assert DecideDe(s', q, r) ==> DecideDe(s, q, r); }
    } else if Calada(s', r) {
      NobodyFallsSilent(c, s, step, r);
    }
  }

  /** Short of that, a decision ends with the alert or with the retry. */
  lemma NobodyFallsSilent(c: Config, s: State, step: Step, r: RunId)
    requires ValidConfig(c) && Contado(c, s) && Habilitado(c, s, step) && !Cala(s, step, r)
    requires !Calada(s, r)
    ensures !Calada(Aplica(c, s, step), r)
  {
    var s' := Aplica(c, s, step);
    if r in s.runs && s.runs[r].status == Failed && s.runs[r].alertas == 0 {
      var p :| DecideDe(s, p, r);
      DeciderDecides(c, s, step, r, p);
    } else if step.Avancar? {
      FailingDecides(c, s, step.proc, step.ok, step.agora, r);
    }
  }

  lemma DeciderDecides(c: Config, s: State, step: Step, r: RunId, p: nat)
    requires ValidConfig(c) && Contado(c, s) && Habilitado(c, s, step) && !Cala(s, step, r) && DecideDe(s, p, r)
    ensures !Calada(Aplica(c, s, step), r)
  {
    var s' := Aplica(c, s, step);
    assert Conhece(c, s, p);
    if step.Avancar? && step.proc == p {
      assert DecideDe(s', p, r) || s'.runs[r].alertas == 1 || s'.runs[r].status == Retrying;
    } else {
      assert DecideDe(s', p, r);
    }
  }

  lemma FailingDecides(c: Config, s: State, p: nat, ok: bool, agora: int, r: RunId)
    requires ValidConfig(c) && Contado(c, s) && Habilitado(c, s, Avancar(p, ok, agora))
    requires r in s.runs ==> s.runs[r].status != Failed || s.runs[r].alertas != 0
    ensures !Calada(Aplica(c, s, Avancar(p, ok, agora)), r)
  {
    var s' := Aplica(c, s, Avancar(p, ok, agora));
    assert Conhece(c, s, p);
    if r in s.runs && s.procs[p].run == r {
      assert LinhaOk(c, s, r);
      assert s'.runs[r].status == Failed && s.runs[r].status != Failed ==> DecideDe(s', p, r);
    }
  }

  /** A silent run is never retried and never reported. */
  lemma SilenceStays(c: Config, s: State, step: Step, r: RunId)
    requires ValidConfig(c) && Contado(c, s) && Habilitado(c, s, step) && Calada(s, r)
    ensures Calada(Aplica(c, s, step), r) && Aplica(c, s, step).runs[r] == s.runs[r]
  {
    var s' := Aplica(c, s, step);
    if step.Avancar? { assert !DecideDe(s, step.proc, r); }
    forall q ensures !DecideDe(s', q, r) { assert DecideDe(s', q, r) ==> DecideDe(s, q, r); }
  }

  ghost predicate Calou(c: Config, states: seq<State>, steps: seq<Step>, j: nat, r: RunId)
    requires |states| == |steps| + 1 && j < |steps|
  {
    Cala(states[j], steps[j], r)
  }

  /** The exact condition, over every run of the protocol. */
  lemma {:induction false} SilentIff(c: Config, states: seq<State>, steps: seq<Step>, k: nat, r: RunId)
    requires ValidConfig(c) && Trace(c, states, steps) && k < |states|
    ensures Calada(states[k], r) <==> exists j: nat :: j < k && Calou(c, states, steps, j, r)
  {
    if k > 0 {
      SilentIff(c, states, steps, k - 1, r);
      OneStep(c, states, steps, k);
      AlwaysCounted(c, states, steps, k - 1);
      if Calada(states[k - 1], r) {
        SilenceStays(c, states[k - 1], steps[k - 1], r);
      } else {
        SilenceBeginsIff(c, states[k - 1], steps[k - 1], r);
        assert Calou(c, states, steps, k - 1, r) <==> Cala(states[k - 1], steps[k - 1], r);
      }
    }
  }

  /** A failed run that is no longer being decided about was reported, after its last
      attempt, exactly when whoever was deciding never died and never had a call fail. */
  lemma ReportedIff(c: Config, states: seq<State>, steps: seq<Step>, k: nat, r: RunId)
    requires ValidConfig(c) && Trace(c, states, steps) && k < |states|
    requires r in states[k].runs && states[k].runs[r].status == Failed && forall p :: !DecideDe(states[k], p, r)
    ensures (states[k].runs[r].alertas == 1 && states[k].runs[r].attempt == c.maxTentativas) <==>
              forall j: nat :: j < k ==> !Calou(c, states, steps, j, r)
  {
    AlwaysCounted(c, states, steps, k);
    assert LinhaOk(c, states[k], r);
    SilentIff(c, states, steps, k, r);
  }
}
