/** Who holds the mark of an item, what takes it away, and what follows for the limit on
    executions and for runs nobody can recover. */
module DispatchMarks {
  import opened RunStatus
  import opened Sets
  import opened Queue
  import opened Dispatch
  import opened DispatchGuarantees

  /** Goroutine `p` put the mark its item carries. */
  predicate Segura(s: State, p: nat) {
    p in s.procs &&
    var i := s.procs[p].item;
    i in s.fila && s.fila[i].marca.Some? && s.fila[i].run == s.procs[p].run && i in s.dono && s.dono[i] == p
  }

  /** A release or delete of the item of `p` by another goroutine, or a recovery of it. */
  predicate TiraMarca(c: Config, s: State, step: Step, p: nat) {
    p in s.procs &&
    match step
    case Avancar(q, ok, _) =>
      q != p && q in s.procs && s.procs[q].item == s.procs[p].item && UltimoPasso(c, s, q, ok)
    case Recuperar(i, _) => i == s.procs[p].item
    case _ => false
  }

  /** The next statement of `q` is its release or its delete. */
  predicate UltimoPasso(c: Config, s: State, q: nat, ok: bool) {
    q in s.procs && s.procs[q].run in s.runs && Passo(c, s.runs[s.procs[q].run], s.procs[q].pc, ok).op != Nada
  }

  predicate IdsOk(s: State) {
    forall i :: i in s.fila ==> i < s.proximo
  }

  lemma StepKeepsIds(c: Config, s: State, step: Step)
    requires IdsOk(s) && Habilitado(c, s, step)
    ensures IdsOk(Aplica(c, s, step))
  {
  }

  lemma AvancarMark(c: Config, s: State, q: nat, ok: bool, agora: int, p: nat)
    requires Segura(s, p) && Habilitado(c, s, Avancar(q, ok, agora)) && (q == p ==> !UltimoPasso(c, s, p, ok))
    ensures Segura(Aplica(c, s, Avancar(q, ok, agora)), p) <==> !TiraMarca(c, s, Avancar(q, ok, agora), p)
  {
    AppliedMark(s, q, Passo(c, s.runs[s.procs[q].run], s.procs[q].pc, ok), agora, p);
  }

  lemma AppliedMark(s: State, q: nat, e: Efeito, agora: int, p: nat)
    requires Segura(s, p) && q in s.procs && s.procs[q].run in s.runs
    ensures Segura(Aplicado(s, q, e, agora), p) <==> e.op == Nada || s.procs[q].item != s.procs[p].item
  {
  }

  /** Short of its own last statement, a goroutine keeps its mark exactly through the
      steps that do not take it. */
  lemma MarkKeptIff(c: Config, s: State, step: Step, p: nat)
    requires IdsOk(s) && Segura(s, p) && Habilitado(c, s, step)
    requires step.Avancar? && step.proc == p ==> !UltimoPasso(c, s, p, step.ok)
    ensures Segura(Aplica(c, s, step), p) <==> !TiraMarca(c, s, step, p)
  {
    if step.Avancar? {
      AvancarMark(c, s, step.proc, step.ok, step.agora, p);
    } else {
      OtherStepMark(c, s, step, p);
    }
  }

  lemma OtherStepMark(c: Config, s: State, step: Step, p: nat)
    requires IdsOk(s) && Segura(s, p) && Habilitado(c, s, step) && !step.Avancar?
    ensures Segura(Aplica(c, s, step), p) <==> !TiraMarca(c, s, step, p)
  {
    match step
    case Recuperar(i, q) =>
    case Reivindicar(i, q, agora) => assert i != s.procs[p].item;
    case _ =>
  }

  // ---- the limit on executions ---------------------------------------------

  /** Goroutines that took an item and have not finished executing its run. */
  predicate Ocupado(s: State, p: nat) {
    p in s.procs && (s.procs[p].pc == Reivindicado || s.procs[p].pc == Executando)
  }

  /** No step takes the mark of such a goroutine. Recoveries are allowed. */
  ghost predicate SemPerda(c: Config, states: seq<State>, steps: seq<Step>)
    requires |states| == |steps| + 1
  {
    forall k, p {:trigger TiraMarca(c, states[k], steps[k], p)} ::
      0 <= k < |steps| && Ocupado(states[k], p) ==> !TiraMarca(c, states[k], steps[k], p)
  }

  ghost predicate TodosSeguram(s: State) {
    IdsOk(s) && forall p {:trigger Ocupado(s, p)} :: Ocupado(s, p) ==> Segura(s, p)
  }

  lemma NewlyBusy(c: Config, s: State, step: Step, p: nat)
    requires Habilitado(c, s, step) && Ocupado(Aplica(c, s, step), p) && !Ocupado(s, p)
    ensures Segura(Aplica(c, s, step), p)
  {
    match step
    case Reivindicar(i, q, agora) =>
    case Avancar(q, ok, agora) =>
    case _ =>
  }

  lemma StillBusy(c: Config, s: State, step: Step, p: nat)
    requires Habilitado(c, s, step) && Ocupado(Aplica(c, s, step), p) && Ocupado(s, p)
    ensures step.Avancar? && step.proc == p ==> !UltimoPasso(c, s, p, step.ok)
  {
  }

  lemma StepKeepsHeld(c: Config, s: State, step: Step)
    requires TodosSeguram(s) && Habilitado(c, s, step)
    requires forall p :: Ocupado(s, p) ==> !TiraMarca(c, s, step, p)
    ensures TodosSeguram(Aplica(c, s, step))
  {
    var s' := Aplica(c, s, step);
    StepKeepsIds(c, s, step);
    forall p | Ocupado(s', p) ensures Segura(s', p) {
      if Ocupado(s, p) {
        StillBusy(c, s, step, p);
        MarkKeptIff(c, s, step, p);
      } else {
        NewlyBusy(c, s, step, p);
      }
    }
  }

  lemma {:induction false} BusyHoldMarks(c: Config, states: seq<State>, steps: seq<Step>, k: nat)
    requires Trace(c, states, steps) && SemPerda(c, states, steps) && k < |states|
    ensures TodosSeguram(states[k])
  {
    if k > 0 {
      BusyHoldMarks(c, states, steps, k - 1);
      OneStep(c, states, steps, k);
      var s, step := states[k - 1], steps[k - 1];
      forall p | Ocupado(s, p) ensures !TiraMarca(c, s, step, p) {}
      StepKeepsHeld(c, s, step);
    }
  }

  function Executores(s: State, c: Config, slug: string): set<nat> {
    set p | p in s.procs && s.procs[p].pc == Executando && c.info(s.procs[p].run).slug == slug
  }

  /** The limit holds for executions in every run in which nobody's mark is taken before
      it has executed: recoveries, deaths and errors included. */
  lemma ExecutionsWithinLimit(c: Config, states: seq<State>, steps: seq<Step>, k: nat, slug: string, m: nat)
    requires Trace(c, states, steps) && SemPerda(c, states, steps) && k < |states| && SharedLimit(c.info, slug, m)
    ensures |Executores(states[k], c, slug)| <= m
  {
    var s := states[k];
    BusyHoldMarks(c, states, steps, k);
    MarksWithinLimit(c, states, steps, k, slug, m);
    var ps := Executores(s, c, slug);
    forall p | p in ps ensures Segura(s, p) { assert Ocupado(s, p); }
    ImageSize(s, ps);
    SubsetSize(set p | p in ps :: s.procs[p].item, EmVoo(s.fila, c.info, slug));
  }

  lemma {:induction false} ImageSize(s: State, ps: set<nat>)
    requires ps <= s.procs.Keys && forall p :: p in ps ==> Segura(s, p)
    ensures |set p | p in ps :: s.procs[p].item| == |ps|
  {
    if ps != {} {
      var p :| p in ps;
      ImageSize(s, ps - {p});
      assert (set q | q in ps :: s.procs[q].item) == (set q | q in ps - {p} :: s.procs[q].item) + {s.procs[p].item};
    }
  }

  // ---- without recoveries nothing is taken ---------------------------------

  /** Every goroutine still at work holds the mark of its item. */
  ghost predicate Marcados(s: State) {
    IdsOk(s) && forall p {:trigger Segura(s, p)} :: p in s.procs && s.procs[p].pc != Fim ==> Segura(s, p)
  }

  lemma StepKeepsMarcados(c: Config, s: State, step: Step)
    requires Marcados(s) && Habilitado(c, s, step) && !step.Recuperar?
    ensures Marcados(Aplica(c, s, step))
  {
    var s' := Aplica(c, s, step);
    StepKeepsIds(c, s, step);
    forall p | p in s'.procs && s'.procs[p].pc != Fim ensures Segura(s', p) {
      if p in s.procs {
        assert Segura(s, p);
        assert step.Avancar? && step.proc != p ==> Segura(s, step.proc);
        MarkKeptIff(c, s, step, p);
      }
    }
  }

  lemma {:induction false} WithoutRecoveryMarksAreHeld(c: Config, states: seq<State>, steps: seq<Step>, k: nat)
    requires Trace(c, states, steps) && (forall j :: 0 <= j < |steps| ==> !steps[j].Recuperar?) && k < |states|
    ensures Marcados(states[k])
  {
    if k > 0 {
      WithoutRecoveryMarksAreHeld(c, states, steps, k - 1);
      OneStep(c, states, steps, k);
      StepKeepsMarcados(c, states[k - 1], steps[k - 1]);
    }
  }

  /** So only a recovery can bring a run of the protocol to lose a mark. */
  lemma WithoutRecoveryNothingIsTaken(c: Config, states: seq<State>, steps: seq<Step>)
    requires Trace(c, states, steps) && (forall j :: 0 <= j < |steps| ==> !steps[j].Recuperar?)
    ensures SemPerda(c, states, steps)
  {
    forall k, p | 0 <= k < |steps| && Ocupado(states[k], p) ensures !TiraMarca(c, states[k], steps[k], p) {
      WithoutRecoveryMarksAreHeld(c, states, steps, k);
      OneStep(c, states, steps, k + 1);
      var s, step := states[k], steps[k];
      assert Segura(s, p);
      if step.Avancar? && step.proc in s.procs { assert s.procs[step.proc].pc != Fim && Segura(s, step.proc); }
    }
  }

  // ---- runs nobody can recover -----------------------------------------------

  /** A running run whose owner is dead and holds no mark. */
  ghost predicate Zumbi(s: State, r: RunId, z: nat) {
    MortoDe(s, r, z) && !Segura(s, z)
  }

  predicate MortoDe(s: State, r: RunId, z: nat) {
    r in s.runs && s.runs[r].status == Running && z in s.procs && s.procs[z].pc == Morto && s.procs[z].run == r
  }

  /** Recovery can find a dead owner exactly as long as its mark is there. */
  lemma RecoverableIff(c: Config, s: State, r: RunId, z: nat, q: nat)
    requires Inv(c, s) && MortoDe(s, r, z) && q !in s.procs
    ensures (exists i :: Habilitado(c, s, Recuperar(i, q)) && s.dono[i] == z) <==> !Zumbi(s, r, z)
  {
    assert ProcOk(c, s, z);
    if Segura(s, z) { assert Habilitado(c, s, Recuperar(s.procs[z].item, q)); }
  }

  /** The steps that make one: the owner dies without its mark, or another goroutine takes
      the mark of the dead owner by its release or delete. */
  ghost predicate FazZumbi(c: Config, s: State, step: Step, r: RunId, z: nat) {
    || (step == Morrer(z) && z in s.procs && s.procs[z].run == r && r in s.runs && s.runs[r].status == Running && !Segura(s, z))
    || (step.Avancar? && MortoDe(s, r, z) && Segura(s, z) && TiraMarca(c, s, step, z))
  }

  /** While its owner is dead, a running run stays as it is, up to a cancellation, and up
      to a recovery by the mark. */
  lemma DeadOwnerStays(c: Config, s: State, step: Step, r: RunId, z: nat)
    requires ValidConfig(c) && Inv(c, s) && MortoDe(s, r, z)
    requires Habilitado(c, s, step) && Benigno(s, step) && step != Cancelar(r)
    ensures MortoDe(Aplica(c, s, step), r, z) || (step.Recuperar? && Segura(s, z))
  {
    assert DonoDe(s, z, r) && ProcOk(c, s, z) && RunOk(c, s, r);
    match step
    case Avancar(p, ok, agora) => OthersLeaveIt(c, s, p, ok, agora, r, z);
    case Recuperar(i, p) =>
    case _ =>
  }

  lemma OthersLeaveIt(c: Config, s: State, p: nat, ok: bool, agora: int, r: RunId, z: nat)
    requires ValidConfig(c) && Inv(c, s) && MortoDe(s, r, z) && Habilitado(c, s, Avancar(p, ok, agora))
    ensures MortoDe(Aplica(c, s, Avancar(p, ok, agora)), r, z)
  {
    assert DonoDe(s, z, r) && ProcOk(c, s, p) && ProcOk(c, s, z);
    if s.procs[p].run == r { OthersAreNotOwners(c, s, p, ok, z); }
  }

  /** A dead goroutine never gets its mark back. */
  lemma NoMarkComesBack(c: Config, s: State, step: Step, z: nat)
    requires Habilitado(c, s, step) && TableOk(s) && z in s.procs && s.procs[z].pc == Morto && !Segura(s, z)
    ensures !Segura(Aplica(c, s, step), z)
  {
    match step
    case Avancar(p, ok, agora) =>
      var t := NaFila(s.fila, s.procs[p].item, Passo(c, s.runs[s.procs[p].run], s.procs[p].pc, ok).op, agora);
      assert forall i :: i in t ==> i in s.fila && t[i].run == s.fila[i].run && (t[i].marca.Some? ==> s.fila[i].marca.Some?);
    case _ =>
  }

  /** A run becomes unrecoverable exactly by those steps. */
  lemma ZombieAppearsIff(c: Config, s: State, step: Step, r: RunId, z: nat)
    requires ValidConfig(c) && Inv(c, s) && Habilitado(c, s, step) && Benigno(s, step) && !Zumbi(s, r, z)
    ensures Zumbi(Aplica(c, s, step), r, z) <==> FazZumbi(c, s, step, r, z)
  {
    if MortoDe(s, r, z) {
      MarkOfTheDead(c, s, step, r, z);
    } else {
      FreshlyDead(c, s, step, r, z);
    }
  }

  lemma MarkOfTheDead(c: Config, s: State, step: Step, r: RunId, z: nat)
    requires ValidConfig(c) && Inv(c, s) && Habilitado(c, s, step) && Benigno(s, step) && MortoDe(s, r, z) && Segura(s, z)
    ensures Zumbi(Aplica(c, s, step), r, z) <==> FazZumbi(c, s, step, r, z)
  {
    assert IdsOk(s);
    MarkKeptIff(c, s, step, z);
    if step != Cancelar(r) { DeadOwnerStays(c, s, step, r, z); }
  }

  lemma FreshlyDead(c: Config, s: State, step: Step, r: RunId, z: nat)
    requires ValidConfig(c) && Inv(c, s) && Habilitado(c, s, step) && Benigno(s, step) && !MortoDe(s, r, z)
    ensures Zumbi(Aplica(c, s, step), r, z) <==> FazZumbi(c, s, step, r, z)
  {
    if z in s.procs && s.procs[z].pc == Morto && s.procs[z].run == r {
      assert ProcOk(c, s, z);
      StaysNotRunning(c, s, step, z);
    }
    match step
    case Morrer(p) =>
    case Avancar(p, ok, agora) =>
    case _ =>
  }

  /** A run whose owner is dead and that does not run was canceled; it does not run again. */
  lemma StaysNotRunning(c: Config, s: State, step: Step, z: nat)
    requires ValidConfig(c) && Inv(c, s) && Habilitado(c, s, step)
    requires z in s.procs && ProcOk(c, s, z) && s.procs[z].pc == Morto && s.runs[s.procs[z].run].status != Running
    ensures Aplica(c, s, step).runs[s.procs[z].run].status != Running
  {
    TerminalStep(c, s, step, Aplica(c, s, step), s.procs[z].run);
  }

  /** ...and once it is, no step short of a cancellation moves it again. */
  lemma ZombieIsForever(c: Config, s: State, step: Step, r: RunId, z: nat)
    requires ValidConfig(c) && Inv(c, s) && Zumbi(s, r, z)
    requires Habilitado(c, s, step) && Benigno(s, step) && step != Cancelar(r)
    ensures Zumbi(Aplica(c, s, step), r, z)
  {
    DeadOwnerStays(c, s, step, r, z);
    NoMarkComesBack(c, s, step, z);
  }

  lemma {:induction false} ZombieStays(c: Config, states: seq<State>, steps: seq<Step>, k: nat, l: nat, r: RunId, z: nat)
    requires ValidConfig(c) && BenignTrace(c, states, steps) && k <= l < |states|
    requires Zumbi(states[k], r, z) && forall j :: k <= j < l ==> steps[j] != Cancelar(r)
    ensures Zumbi(states[l], r, z)
    decreases l - k
  {
    if k < l {
      ZombieStays(c, states, steps, k, l - 1, r, z);
      Reachable(c, states, steps, l - 1);
      OneStep(c, states, steps, l);
      ZombieIsForever(c, states[l - 1], steps[l - 1], r, z);
    }
  }

  ghost predicate FezZumbi(c: Config, states: seq<State>, steps: seq<Step>, j: nat, k: nat, r: RunId, z: nat)
    requires |states| == |steps| + 1 && j < k <= |steps|
  {
    FazZumbi(c, states[j], steps[j], r, z) && forall l :: j < l < k ==> steps[l] != Cancelar(r)
  }

  /** The exact condition, over whole runs: a run is beyond recovery exactly when one of
      those steps happened to it and it was not canceled since. */
  lemma UnrecoverableIff(c: Config, states: seq<State>, steps: seq<Step>, k: nat, r: RunId, z: nat)
    requires ValidConfig(c) && BenignTrace(c, states, steps) && k < |states|
    ensures Zumbi(states[k], r, z) <==> exists j: nat :: j < k && FezZumbi(c, states, steps, j, k, r, z)
  {
    if Zumbi(states[k], r, z) { FirstMoment(c, states, steps, k, r, z); }
    if j: nat :| j < k && FezZumbi(c, states, steps, j, k, r, z) {
      ItWasMade(c, states, steps, j, r, z);
      ZombieStays(c, states, steps, j + 1, k, r, z);
    }
  }

  lemma ItWasMade(c: Config, states: seq<State>, steps: seq<Step>, j: nat, r: RunId, z: nat)
    requires ValidConfig(c) && BenignTrace(c, states, steps) && j < |steps| && FazZumbi(c, states[j], steps[j], r, z)
    ensures Zumbi(states[j + 1], r, z)
  {
    Reachable(c, states, steps, j);
    OneStep(c, states, steps, j + 1);
    assert !Zumbi(states[j], r, z) by {
      if steps[j] == Morrer(z) { assert states[j].procs[z].pc != Morto; }
    }
    ZombieAppearsIff(c, states[j], steps[j], r, z);
  }

  lemma {:induction false} FirstMoment(c: Config, states: seq<State>, steps: seq<Step>, k: nat, r: RunId, z: nat)
    requires ValidConfig(c) && BenignTrace(c, states, steps) && k < |states| && Zumbi(states[k], r, z)
    ensures exists j: nat :: j < k && FezZumbi(c, states, steps, j, k, r, z)
  {
    if k > 0 {
      Reachable(c, states, steps, k - 1);
      OneStep(c, states, steps, k);
      if Zumbi(states[k - 1], r, z) {
        FirstMoment(c, states, steps, k - 1, r, z);
        var j: nat :| j < k - 1 && FezZumbi(c, states, steps, j, k - 1, r, z);
        assert steps[k - 1] != Cancelar(r);
        assert FezZumbi(c, states, steps, j, k, r, z);
      } else {
        ZombieAppearsIff(c, states[k - 1], steps[k - 1], r, z);
        assert FezZumbi(c, states, steps, k - 1, k, r, z);
      }
    }
  }
}
