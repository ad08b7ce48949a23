/** What the runner guarantees under every interleaving. */
module RunnerGuarantees {
  import opened Graph
  import opened Sums
  import opened Runner

  // ---- slots -------------------------------------------------------------

  /** The slots taken are exactly the attempts in progress (so none is held during a
      back-off, and each is given back once), and they fit the channel. */
  lemma SlotsAreAttempts(states: seq<State>, steps: seq<Step>, k: nat)
    requires Trace(states, steps) && k < |states|
    ensures states[k].emUso == Soma(SeguraCorrida(), states[k].corridas)
    ensures states[k].capacidade == states[0].capacidade
    ensures states[k].capacidade.Some? ==> Soma(SeguraCorrida(), states[k].corridas) <= states[k].capacidade.value
  {
    Reachable(states, steps, k);
    CapacityIsFixed(states, steps, k);
  }

  lemma {:induction false} CapacityIsFixed(states: seq<State>, steps: seq<Step>, k: nat)
    requires Trace(states, steps) && k < |states|
    ensures states[k].capacidade == states[0].capacidade
  {
    if k > 0 {
      CapacityIsFixed(states, steps, k - 1);
      assert Habilitado(states[k - 1], steps[k - 1]);
    }
  }

  // ---- order -------------------------------------------------------------

  /** Before a node starts, everything it depends on, however indirectly, succeeded. */
  lemma DependenciesFirst(states: seq<State>, steps: seq<Step>, k: nat, c: nat, p: seq<string>, l: nat, i: nat)
    requires Trace(states, steps) && k < |states| && c < |states[k].corridas|
    requires var r := states[k].corridas[c];
             && IsPath(r.w, p) && |p| >= 2
             && l < |r.niveis| && l < |r.nos| && i < |r.niveis[l]| && i < |r.nos[l]|
             && r.niveis[l][i] == p[|p| - 1] && r.nos[l][i] != Parado
    ensures var r := states[k].corridas[c];
            exists m: nat, j: nat ::
              m < l && m < |r.niveis| && m < |r.nos| && j < |r.niveis[m]| && j < |r.nos[m]| && r.niveis[m][j] == p[0] && r.nos[m][j] == Certo
  {
    Reachable(states, steps, k);
    var r := states[k].corridas[c];
    assert CorridaOk(r);
    PathStartsInGraph(r.w, p);
    var m: nat :| InLevel(r.niveis, m, p[0]);
    assert InLevel(r.niveis, l, p[|p| - 1]);
    PathClimbs(r.w, r.niveis, p, m, l);
    var j :| 0 <= j < |r.niveis[m]| && r.niveis[m][j] == p[0];
    assert r.nivel < l ==> NivelParado(r.nos[l]);
    assert NivelCerto(r.nos[m]);
    assert r.nos[m][j] == Certo;
  }

  /** Once a node has failed, no node of a later level ever starts. */
  lemma {:induction false} NothingStartsAfterFailure(states: seq<State>, steps: seq<Step>, k: nat, k': nat, c: nat, l: nat)
    requires Trace(states, steps) && k <= k' < |states| && c < |states[k].corridas|
    requires l < |states[k].corridas[c].nos| && Errado in states[k].corridas[c].nos[l]
    ensures c < |states[k'].corridas| && l < |states[k'].corridas[c].nos| && Errado in states[k'].corridas[c].nos[l]
    ensures forall m :: l < m < |states[k'].corridas[c].nos| ==> NivelParado(states[k'].corridas[c].nos[m])
    decreases k' - k
  {
    Reachable(states, steps, k');
    if k < k' {
      NothingStartsAfterFailure(states, steps, k, k' - 1, c, l);
      Reachable(states, steps, k' - 1);
      ErrorStays(states[k' - 1], steps[k' - 1], c, l);
    }
    ErrorIsCurrent(states[k'], c, l);
  }

  lemma ErrorIsCurrent(s: State, c: nat, l: nat)
    requires Inv(s) && c < |s.corridas| && l < |s.corridas[c].nos| && Errado in s.corridas[c].nos[l]
    ensures s.corridas[c].nivel == l
    ensures forall m :: l < m < |s.corridas[c].nos| ==> NivelParado(s.corridas[c].nos[m])
  {
    var r := s.corridas[c];
    assert CorridaOk(r);
    assert l < r.nivel ==> NivelCerto(r.nos[l]);
    assert l > r.nivel ==> NivelParado(r.nos[l]);
    var i :| 0 <= i < |r.nos[l]| && r.nos[l][i] == Errado;
  }

  lemma ErrorStays(s: State, step: Step, c: nat, l: nat)
    requires Inv(s) && Habilitado(s, step) && c < |s.corridas|
    requires l < |s.corridas[c].nos| && Errado in s.corridas[c].nos[l]
    ensures var s' := Aplica(s, step);
            c < |s'.corridas| && l < |s'.corridas[c].nos| && Errado in s'.corridas[c].nos[l]
  {
    ErrorIsCurrent(s, c, l);
    var s' := Aplica(s, step);
    var i :| 0 <= i < |s.corridas[c].nos[l]| && s.corridas[c].nos[l][i] == Errado;
    assert s'.corridas[c].nos[l][i] == Errado;
  }

  /** How runs end. Success: every node succeeded. Failure: every node of the failing
      level has its outcome, at least one an error, and nothing above it began. */
  lemma Outcome(states: seq<State>, steps: seq<Step>, k: nat, c: nat)
    requires Trace(states, steps) && k < |states| && c < |states[k].corridas|
    ensures var r := states[k].corridas[c];
            && (r.fim == Sucesso <==> forall l :: 0 <= l < |r.nos| ==> NivelCerto(r.nos[l]) && l < r.nivel)
            && (r.fim == Falha ==>
                  && r.nivel < |r.nos| && NivelFinal(r.nos[r.nivel]) && Errado in r.nos[r.nivel]
                  && (forall l :: 0 <= l < r.nivel ==> NivelCerto(r.nos[l]))
                  && (forall l :: r.nivel < l < |r.nos| ==> NivelParado(r.nos[l])))
  {
    Reachable(states, steps, k);
    var r := states[k].corridas[c];
    assert CorridaOk(r);
    if r.fim != Sucesso { assert r.nivel < |r.nos|; }
  }

  // ---- progress and termination ------------------------------------------

  /** While some run is unfinished, a step other than a cancellation can be taken: a
      node blocked on a full channel waits for an attempt that is itself running. */
  lemma Progress(states: seq<State>, steps: seq<Step>, k: nat, c: nat) returns (step: Step)
    requires Trace(states, steps) && k < |states|
    requires c < |states[k].corridas| && states[k].corridas[c].fim == Rodando
    ensures Habilitado(states[k], step) && !step.Cancelar?
  {
    Reachable(states, steps, k);
    var s := states[k];
    var r := s.corridas[c];
    assert CorridaOk(r);
    var ns := r.nos[r.nivel];
    if NivelFinal(ns) {
      step := Barreira(c);
    } else {
      var i :| 0 <= i < |ns| && !Final(ns[i]);
      assert Ativo(s, c, i) && NoDe(s, c, i) == ns[i];
      match ns[i] {
        case Parado => step := Lancar(c, i);
        case Recuando(_) => step := Acordar(c, i);
        case Tentando(_) =>
          step := Terminar(c, i, true);
          SlotTaken(s, c, i);
        case Esperando(_) =>
          if TemVaga(s) { step := Ocupar(c, i); } else { step := SomebodyFinishes(s); }
      }
    }
  }

  lemma SlotTaken(s: State, c: nat, i: nat)
    requires Inv(s) && Ativo(s, c, i) && NoDe(s, c, i).Tentando?
    ensures s.emUso > 0
  {
    PoeNoSlots(s, c, i, Certo);
    CountsAreNonNegative(PoeNo(s, c, i, Certo).corridas);
  }

  lemma CountsAreNonNegative(rs: seq<Corrida>)
    ensures forall c :: 0 <= c < |rs| ==> SeguraCorrida()(rs[c]) >= 0
    ensures Soma(SeguraCorrida(), rs) >= 0
  {
    forall c | 0 <= c < |rs| ensures SeguraCorrida()(rs[c]) >= 0 {
      LevelsNonNegative(rs[c]);
    }
    SomaNonNegative(SeguraCorrida(), rs);
  }

  lemma LevelsNonNegative(r: Corrida)
    ensures forall l :: 0 <= l < |r.nos| ==> SeguraNivel()(r.nos[l]) >= 0
    ensures Soma(SeguraNivel(), r.nos) >= 0
  {
    forall l | 0 <= l < |r.nos| ensures SeguraNivel()(r.nos[l]) >= 0 { SomaNonNegative(Segura(), r.nos[l]); }
    SomaNonNegative(SeguraNivel(), r.nos);
  }

  /** A full channel has an attempt behind it that can end. */
  lemma SomebodyFinishes(s: State) returns (step: Step)
    requires Inv(s) && !TemVaga(s)
    ensures Habilitado(s, step) && step.Terminar?
  {
    CountsAreNonNegative(s.corridas);
    SomaNonNegative(SeguraCorrida(), s.corridas);
    var c :| 0 <= c < |s.corridas| && SeguraCorrida()(s.corridas[c]) > 0;
    var r := s.corridas[c];
    LevelsNonNegative(r);
    SomaNonNegative(SeguraNivel(), r.nos);
    var l :| 0 <= l < |r.nos| && SeguraNivel()(r.nos[l]) > 0;
    assert CorridaOk(r);
    assert l < r.nivel ==> NivelCerto(r.nos[l]);
    assert l > r.nivel ==> NivelParado(r.nos[l]);
    SomaNonNegative(Segura(), r.nos[l]);
    var i :| 0 <= i < |r.nos[l]| && Segura()(r.nos[l][i]) > 0;
    step := Terminar(c, i, true);
  }

  /** How far a node is from its outcome. */
  function PesoNo(t: nat): No -> int {
    (n: No) => match n
      case Parado => 3 * t + 1
      case Esperando(u) => 3 * (t - u) + 3
      case Tentando(u) => 3 * (t - u) + 2
      case Recuando(u) => 3 * (t - u) + 1
      case _ => 0
  }

  function PesoNivel(t: nat): seq<No> -> int {
    (ns: seq<No>) => Soma(PesoNo(t), ns)
  }

  function PesoCorrida(): Corrida -> int {
    (r: Corrida) => Soma(PesoNivel(r.tentativas), r.nos) + (|r.nos| - r.nivel)
                    + (if r.fim == Rodando then 1 else 0) + (if r.cancelado then 0 else 1)
  }

  function Peso(s: State): int {
    Soma(PesoCorrida(), s.corridas)
  }

  lemma PoeNoWeight(s: State, c: nat, i: nat, n: No)
    requires Ativo(s, c, i)
    ensures var t := s.corridas[c].tentativas;
            Soma(PesoCorrida(), PoeNo(s, c, i, n).corridas) == Peso(s) - PesoNo(t)(NoDe(s, c, i)) + PesoNo(t)(n)
  {
    var r := s.corridas[c];
    var ns := r.nos[r.nivel];
    SomaUpdate(PesoNo(r.tentativas), ns, i, n);
    SomaUpdate(PesoNivel(r.tentativas), r.nos, r.nivel, ns[i := n]);
    SomaUpdate(PesoCorrida(), s.corridas, c, r.(nos := r.nos[r.nivel := ns[i := n]]));
  }

  lemma StepLowersWeight(s: State, step: Step)
    requires Inv(s) && Habilitado(s, step)
    ensures Peso(Aplica(s, step)) < Peso(s)
  {
    assert CorridaOk(s.corridas[step.c]);
    if step.Barreira? || step.Cancelar? {
      RunStepLowers(s, step);
    } else {
      NodeStepLowers(s, step);
    }
  }

  lemma RunStepLowers(s: State, step: Step)
    requires Habilitado(s, step) && CorridaOk(s.corridas[step.c]) && (step.Barreira? || step.Cancelar?)
    ensures Peso(Aplica(s, step)) < Peso(s)
  {
    SomaUpdate(PesoCorrida(), s.corridas, step.c, Aplica(s, step).corridas[step.c]);
  }

  lemma NodeStepLowers(s: State, step: Step)
    requires Habilitado(s, step) && CorridaOk(s.corridas[step.c]) && !step.Barreira? && !step.Cancelar?
    ensures Peso(Aplica(s, step)) < Peso(s)
  {
    var r := s.corridas[step.c];
    assert Tentativas(r.nos[r.nivel], r.tentativas);
    PoeNoWeight(s, step.c, step.i, NoDe(Aplica(s, step), step.c, step.i));
  }

  lemma WeightIsNonNegative(s: State)
    requires Inv(s)
    ensures Peso(s) >= 0
  {
    forall c | 0 <= c < |s.corridas| ensures PesoCorrida()(s.corridas[c]) >= 0 {
      var r := s.corridas[c];
      assert CorridaOk(r);
      forall l | 0 <= l < |r.nos| ensures PesoNivel(r.tentativas)(r.nos[l]) >= 0 {
        LevelWeight(r, l);
      }
      SomaNonNegative(PesoNivel(r.tentativas), r.nos);
    }
    SomaNonNegative(PesoCorrida(), s.corridas);
  }

  lemma LevelWeight(r: Corrida, l: nat)
    requires CorridaOk(r) && l < |r.nos|
    ensures PesoNivel(r.tentativas)(r.nos[l]) >= 0
  {
    if l < r.nivel { assert NivelCerto(r.nos[l]); }
    if l > r.nivel { assert NivelParado(r.nos[l]); }
    SomaNonNegative(PesoNo(r.tentativas), r.nos[l]);
  }

  /** Every schedule is finite: no run of the machine has more steps than the weight it
      starts with. With Progress, whatever the schedule, all runs end. */
  lemma {:induction false} SchedulesAreFinite(states: seq<State>, steps: seq<Step>, k: nat)
    requires Trace(states, steps) && k < |states|
    ensures Peso(states[k]) + k <= Peso(states[0])
    ensures k <= Peso(states[0])
  {
    Reachable(states, steps, k);
    WeightIsNonNegative(states[k]);
    if k > 0 {
      SchedulesAreFinite(states, steps, k - 1);
      Reachable(states, steps, k - 1);
      StepLowersWeight(states[k - 1], steps[k - 1]);
    }
  }
}
