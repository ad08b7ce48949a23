/** What the dispatch protocol guarantees over whole runs. */
module DispatchGuarantees {
  import opened Options
  import opened RunStatus
  import opened Sets
  import opened Queue
  import opened Dispatch
  import opened DispatchCounts

  // ---- guarantees --------------------------------------------------------

  /** An active run that nothing will bring back to a worker: no item, and none to come. */
  ghost predicate Perdida(s: State, r: RunId) {
    r in s.runs && Ativo(s.runs[r].status) && r !in s.enfileirando && !TemItem(s.fila, r)
  }

  /** No run is lost: at every moment a queued, running or retrying run has exactly
      one queue item, unless the scheduler has not inserted it yet. */
  lemma NoRunIsLost(c: Config, states: seq<State>, steps: seq<Step>, k: nat, r: RunId)
    requires ValidConfig(c) && BenignTrace(c, states, steps) && k < |states|
    requires r in states[k].runs && Ativo(states[k].runs[r].status) && r !in states[k].enfileirando
    ensures exists i :: i in states[k].fila && states[k].fila[i].run == r
    ensures forall i, j :: (i in states[k].fila && j in states[k].fila &&
                            states[k].fila[i].run == r && states[k].fila[j].run == r) ==> i == j
  {
    Reachable(c, states, steps, k);
    assert RunOk(c, states[k], r);
  }

  /** A run in the middle of an attempt, or failed without having been given up, has
      exactly one goroutine answerable for it (possibly a dead one, to be recovered). */
  lemma ExactlyOneOwner(c: Config, states: seq<State>, steps: seq<Step>, k: nat, r: RunId)
    requires ValidConfig(c) && BenignTrace(c, states, steps) && k < |states|
    requires r in states[k].runs && PrecisaDono(states[k].runs[r])
    ensures exists p :: DonoDe(states[k], p, r) && forall q :: DonoDe(states[k], q, r) ==> q == p
  {
    Reachable(c, states, steps, k);
    assert RunOk(c, states[k], r);
    var p :| DonoDe(states[k], p, r);
    assert forall q :: DonoDe(states[k], q, r) ==> q == p;
  }

  /** At most one goroutine executes a run, also while a recovery has cleared the mark
      of its item and another dispatcher has taken it. */
  lemma AtMostOneExecutor(c: Config, states: seq<State>, steps: seq<Step>, k: nat, p: nat, q: nat)
    requires ValidConfig(c) && BenignTrace(c, states, steps) && k < |states|
    requires p in states[k].procs && q in states[k].procs && states[k].procs[p].run == states[k].procs[q].run
    requires states[k].procs[p].pc == Executando && Titular(states[k].procs[q].pc)
    ensures p == q
  {
    Reachable(c, states, steps, k);
    assert DonoDe(states[k], p, states[k].procs[p].run) && DonoDe(states[k], q, states[k].procs[p].run);
  }

  /** Whatever dies, fails or is recovered, a run starts at most maxTentativas times, and
      its status is written at most 4 * maxTentativas + 2 times: the retry cycle is finite. */
  lemma RetriesAreFinite(c: Config, states: seq<State>, steps: seq<Step>, k: nat, r: RunId)
    requires ValidConfig(c) && Trace(c, states, steps) && k < |states| && r in states[k].runs
    ensures states[k].runs[r].inicios <= c.maxTentativas
    ensures states[k].runs[r].attempt <= states[k].runs[r].inicios
    ensures states[k].runs[r].mudancas <= 4 * c.maxTentativas + 2
  {
    AlwaysCounted(c, states, steps, k);
    assert LinhaOk(c, states[k], r);
  }

  /** Check and write are one: of two goroutines that claimed the same run, the second to
      write running is refused and releases the item, whichever it is; the first starts
      exactly if the run was queued. */
  lemma OneOfTwoStarts(c: Config, s: State, p: nat, q: nat, ok: bool, agora: int)
    requires p != q && p in s.procs && q in s.procs && s.procs[p].pc == Reivindicado && s.procs[q].pc == Reivindicado
    requires s.procs[p].run == s.procs[q].run && s.procs[p].run in s.runs
    ensures var s1 := Aplica(c, s, Avancar(p, ok, agora));
      && Habilitado(c, s1, Avancar(q, ok, agora))
      && var s2 := Aplica(c, s1, Avancar(q, ok, agora));
         && (s2.procs[p].pc == Executando <==> s.runs[s.procs[p].run].status == Queued)
         && s2.procs[q].pc == Soltando && s2.runs == s1.runs
  {
  }

  /** Success and canceled are for ever, whatever dies or fails. */
  lemma {:induction false} TerminalIsForever(c: Config, states: seq<State>, steps: seq<Step>, k: nat, l: nat, r: RunId)
    requires Trace(c, states, steps) && k <= l < |states|
    requires r in states[k].runs && Terminal(states[k].runs[r].status)
    ensures r in states[l].runs && states[l].runs[r].status == states[k].runs[r].status
    decreases l - k
  {
    if k < l {
      TerminalIsForever(c, states, steps, k, l - 1, r);
      TerminalStep(c, states[l - 1], steps[l - 1], states[l], r);
    }
  }

  lemma TerminalStep(c: Config, s: State, step: Step, s': State, r: RunId)
    requires Habilitado(c, s, step) && s' == Aplica(c, s, step) && r in s.runs && Terminal(s.runs[r].status)
    ensures r in s'.runs && s'.runs[r].status == s.runs[r].status
  {
    StepRespectsTable(c, s, step, r);
    TerminalIffDeadEnd(s.runs[r].status);
  }

  /** Every step that changes a status does it along the table, and counts it. */
  lemma StepRespectsTable(c: Config, s: State, step: Step, r: RunId)
    requires Habilitado(c, s, step) && r in s.runs
    ensures var s' := Aplica(c, s, step);
            && r in s'.runs
            && s'.runs[r].alertas >= s.runs[r].alertas
            && (s'.runs[r].status == s.runs[r].status || PodeIr(s.runs[r].status, s'.runs[r].status))
            && s'.runs[r].mudancas == s.runs[r].mudancas + (if s'.runs[r].status == s.runs[r].status then 0 else 1)
            && s'.runs[r].inicios == s.runs[r].inicios +
                 (if s'.runs[r].status == Running && s.runs[r].status != Running then 1 else 0)
  {
    if step.Avancar? {
      var p := step.proc;
      match s.procs[p].pc
      case _ =>
    }
  }

  /** The exhaustion alert goes out at most once, and a run it went out for stays
      failed, its attempts used up: it never succeeds later. Whatever dies or fails. */
  lemma {:induction false} AlertIsFinal(c: Config, states: seq<State>, steps: seq<Step>, k: nat, l: nat, r: RunId)
    requires ValidConfig(c) && Trace(c, states, steps) && k <= l < |states|
    requires r in states[k].runs && states[k].runs[r].alertas >= 1
    ensures r in states[l].runs && states[l].runs[r].alertas == 1
    ensures states[l].runs[r].status == Failed && states[l].runs[r].attempt == c.maxTentativas
    decreases l - k
  {
    AlwaysCounted(c, states, steps, l);
    if k < l {
      AlertIsFinal(c, states, steps, k, l - 1, r);
      OneStep(c, states, steps, l);
      StepRespectsTable(c, states[l - 1], steps[l - 1], r);
    }
    assert LinhaOk(c, states[l], r);
  }

  /** A failed run whose owner is gone has been reported, after all its attempts. */
  lemma FailureIsReported(c: Config, states: seq<State>, steps: seq<Step>, k: nat, r: RunId)
    requires ValidConfig(c) && BenignTrace(c, states, steps) && k < |states|
    requires r in states[k].runs && states[k].runs[r].status == Failed
    requires forall p :: !DonoDe(states[k], p, r)
    ensures states[k].runs[r].alertas == 1 && states[k].runs[r].attempt == c.maxTentativas
  {
    Reachable(c, states, steps, k);
    assert RunOk(c, states[k], r);
  }

  // ---- the per-workflow limit --------------------------------------------

  function Fila(s: State): QState {
    QState(s.fila, s.proximo, s.foto, s.em)
  }

  /** Seen from the queue, the whole protocol is a run of the queue's own machine. */
  lemma StepRefinesQueue(c: Config, s: State, step: Step) returns (q: QStep)
    requires Habilitado(c, s, step)
    ensures Fila(Aplica(c, s, step)) == Fila(s) || QNext(c.info, Fila(s), q, Fila(Aplica(c, s, step)))
  {
    q := QFoto(s.em);
    match step
    case Enfileirar(r, n, t) => q := QEnqueue(r, n, t);
    case Fotografar(agora) => q := QFoto(agora);
    case Reivindicar(i, p, agora) =>
      q := QClaim({i}, Marca(agora, "dispatcher"));
      assert Aplica(c, s, step).fila == Marcar(s.fila, {i}, Some(Marca(agora, "dispatcher")));
    case Recuperar(i, p) =>
      q := QRecuperar({i});
      assert Aplica(c, s, step).fila == Marcar(s.fila, {i}, None);
    case Avancar(p, ok, agora) =>
      var i := s.procs[p].item;
      match Passo(c, s.runs[s.procs[p].run], s.procs[p].pc, ok).op {
        case Nada =>
        case Solta(atraso) => q := QRelease(i, agora + atraso);
        case Apaga => q := QDone(i);
      }
    case _ =>
  }

  lemma OneStep(c: Config, states: seq<State>, steps: seq<Step>, k: nat)
    requires Trace(c, states, steps) && 0 < k < |states|
    ensures Habilitado(c, states[k - 1], steps[k - 1]) && states[k] == Aplica(c, states[k - 1], steps[k - 1])
  {
    assert steps[k - 1] == steps[k - 1];
  }

  lemma {:induction false} QueueInvariant(c: Config, states: seq<State>, steps: seq<Step>, k: nat, slug: string, m: nat)
    requires Trace(c, states, steps) && k < |states| && SharedLimit(c.info, slug, m)
    ensures QInv(c.info, slug, m, Fila(states[k]))
  {
    if k > 0 {
      QueueInvariant(c, states, steps, k - 1, slug, m);
      OneStep(c, states, steps, k);
      QueueStep(c, states[k - 1], steps[k - 1], slug, m);
    }
  }

  lemma QueueStep(c: Config, s: State, step: Step, slug: string, m: nat)
    requires Habilitado(c, s, step) && SharedLimit(c.info, slug, m) && QInv(c.info, slug, m, Fila(s))
    ensures QInv(c.info, slug, m, Fila(Aplica(c, s, step)))
  {
    var s' := Aplica(c, s, step);
    var q := StepRefinesQueue(c, s, step);
    if Fila(s') != Fila(s) { QStepKeepsInv(c.info, slug, m, Fila(s), q, Fila(s')); }
  }

  /** However executions, crashes and recoveries interleave, the rows of a workflow
      that carry a claim mark never outnumber its limit. */
  lemma MarksWithinLimit(c: Config, states: seq<State>, steps: seq<Step>, k: nat, slug: string, m: nat)
    requires Trace(c, states, steps) && k < |states| && SharedLimit(c.info, slug, m)
    ensures |EmVoo(states[k].fila, c.info, slug)| <= m
  {
    QueueInvariant(c, states, steps, k, slug, m);
    var f := Fila(states[k]);
    SubsetSize(EmVoo(f.t, c.info, slug), EmVoo(f.foto, c.info, slug) + AdmissiveisDe(f.foto, c.info, f.em, slug));
  }
}
