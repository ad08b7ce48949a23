/** What becomes of a node, from the attempts at it: counted in the steps of the run, for
    every interleaving. */
module RunnerAttempts {
  import opened Runner

  /** At step `j` an attempt at node `i` of level `l` of run `c` ended, well or badly. */
  predicate Terminou(states: seq<State>, steps: seq<Step>, j: nat, c: nat, l: nat, i: nat, ok: bool) {
    && j < |steps| && j < |states| && c < |states[j].corridas|
    && steps[j] == Terminar(c, i, ok) && states[j].corridas[c].nivel == l
  }

  /** The steps before `k` at which an attempt at the node failed. */
  function Falhas(states: seq<State>, steps: seq<Step>, k: nat, c: nat, l: nat, i: nat): set<nat> {
    set j | 0 <= j < k && Terminou(states, steps, j, c, l, i, false)
  }

  predicate TemNo(s: State, c: nat, l: nat, i: nat) {
    c < |s.corridas| && l < |s.corridas[c].nos| && i < |s.corridas[c].nos[l]|
  }

  function NoEm(s: State, c: nat, l: nat, i: nat): No
    requires TemNo(s, c, l, i)
  {
    s.corridas[c].nos[l][i]
  }

  /** A node after `f` failed attempts of at most `t`, and one that ended well if `ok`. */
  predicate Conta(n: No, f: nat, ok: bool, t: nat, cancelado: bool) {
    match n
    case Parado => f == 0 && !ok
    case Esperando(u) => u == f + 1 <= t && !ok
    case Tentando(u) => u == f + 1 <= t && !ok
    case Recuando(u) => u == f < t && !ok
    case Certo => ok && f < t
    case Errado => !ok && f <= t && (f == t || cancelado)
  }

  ghost predicate Contado(states: seq<State>, steps: seq<Step>, k: nat, c: nat, l: nat, i: nat)
    requires k < |states| && TemNo(states[k], c, l, i)
  {
    var r := states[k].corridas[c];
    Conta(NoEm(states[k], c, l, i), |Falhas(states, steps, k, c, l, i)|,
          exists j: nat :: j < k && Terminou(states, steps, j, c, l, i, true), r.tentativas, r.cancelado)
  }

  /** One step, seen from one node: how it counts. */
  lemma StepCounts(s: State, step: Step, c: nat, l: nat, i: nat, f: nat, ok: bool)
    requires Inv(s) && Habilitado(s, step) && TemNo(s, c, l, i)
    requires Conta(NoEm(s, c, l, i), f, ok, s.corridas[c].tentativas, s.corridas[c].cancelado)
    ensures var s' := Aplica(s, step);
      var aqui := step.Terminar? && step.c == c && step.i == i && s.corridas[c].nivel == l;
      && TemNo(s', c, l, i) && s'.corridas[c].tentativas == s.corridas[c].tentativas
      && Conta(NoEm(s', c, l, i), if aqui && !step.ok then f + 1 else f, ok || (aqui && step.ok),
               s'.corridas[c].tentativas, s'.corridas[c].cancelado)
  {
    assert CorridaOk(s.corridas[c]);
    if Toca(s, step, c, l, i) {
      TouchedCounts(s, step, c, i, f, ok);
    } else {
      Untouched(s, step, c, l, i);
    }
  }

  /** The step moves that node. */
  predicate Toca(s: State, step: Step, c: nat, l: nat, i: nat) {
    !step.Barreira? && !step.Cancelar? && step.c == c && step.i == i && c < |s.corridas| && s.corridas[c].nivel == l
  }

  lemma Untouched(s: State, step: Step, c: nat, l: nat, i: nat)
    requires Habilitado(s, step) && TemNo(s, c, l, i) && !Toca(s, step, c, l, i)
    ensures var s' := Aplica(s, step);
      && TemNo(s', c, l, i) && NoEm(s', c, l, i) == NoEm(s, c, l, i)
      && s'.corridas[c].tentativas == s.corridas[c].tentativas
      && (s.corridas[c].cancelado ==> s'.corridas[c].cancelado)
  {
  }

  lemma TouchedCounts(s: State, step: Step, c: nat, i: nat, f: nat, ok: bool)
    requires c < |s.corridas| && TemNo(s, c, s.corridas[c].nivel, i) && Habilitado(s, step)
    requires Toca(s, step, c, s.corridas[c].nivel, i) && s.corridas[c].tentativas >= 1
    requires Conta(NoEm(s, c, s.corridas[c].nivel, i), f, ok, s.corridas[c].tentativas, s.corridas[c].cancelado)
    ensures var s', l := Aplica(s, step), s.corridas[c].nivel;
      && TemNo(s', c, l, i) && s'.corridas[c].tentativas == s.corridas[c].tentativas
      && Conta(NoEm(s', c, l, i), if step.Terminar? && !step.ok then f + 1 else f, ok || (step.Terminar? && step.ok),
               s'.corridas[c].tentativas, s'.corridas[c].cancelado)
  {
  }

  lemma FailuresSnoc(states: seq<State>, steps: seq<Step>, k: nat, c: nat, l: nat, i: nat)
    ensures |Falhas(states, steps, k + 1, c, l, i)| ==
            |Falhas(states, steps, k, c, l, i)| + if Terminou(states, steps, k, c, l, i, false) then 1 else 0
  {
    var a, b := Falhas(states, steps, k, c, l, i), Falhas(states, steps, k + 1, c, l, i);
    assert b == if Terminou(states, steps, k, c, l, i, false) then a + {k} else a;
  }

  lemma SameShape(s: State, step: Step, c: nat, l: nat, i: nat)
    requires Habilitado(s, step)
    ensures TemNo(Aplica(s, step), c, l, i) <==> TemNo(s, c, l, i)
  {
  }

  lemma {:induction false} AlwaysCounted(states: seq<State>, steps: seq<Step>, k: nat, c: nat, l: nat, i: nat)
    requires Trace(states, steps) && k < |states| && TemNo(states[k], c, l, i)
    ensures Contado(states, steps, k, c, l, i)
  {
    if k == 0 {
      assert Inicial(states[0].corridas[c]);
      assert Falhas(states, steps, 0, c, l, i) == {};
    } else {
      var s, step := states[k - 1], steps[k - 1];
      Reachable(states, steps, k - 1);
      SameShape(s, step, c, l, i);
      AlwaysCounted(states, steps, k - 1, c, l, i);
      FailuresSnoc(states, steps, k - 1, c, l, i);
      StepCounts(s, step, c, l, i, |Falhas(states, steps, k - 1, c, l, i)|,
                 exists j: nat :: j < k - 1 && Terminou(states, steps, j, c, l, i, true));
      SucceededSnoc(states, steps, k - 1, c, l, i);
    }
  }

  lemma SucceededSnoc(states: seq<State>, steps: seq<Step>, k: nat, c: nat, l: nat, i: nat)
    ensures (exists j: nat :: j < k + 1 && Terminou(states, steps, j, c, l, i, true)) <==>
            (exists j: nat :: j < k && Terminou(states, steps, j, c, l, i, true)) || Terminou(states, steps, k, c, l, i, true)
  {
  }

  /** The outcome of a node from its attempts. It is right exactly when one ended well. In a
      run not canceled it is wrong exactly when as many failed as are allowed, never after
      fewer: then it waits out the back-off, or for a slot, or tries again. */
  lemma OutcomeOfAttempts(states: seq<State>, steps: seq<Step>, k: nat, c: nat, l: nat, i: nat)
    requires Trace(states, steps) && k < |states| && c < |states[k].corridas|
    requires l < |states[k].corridas[c].nos| && i < |states[k].corridas[c].nos[l]|
    ensures var r := states[k].corridas[c];
      var n := r.nos[l][i];
      var falhas := |set j | 0 <= j < k && Terminou(states, steps, j, c, l, i, false)|;
      var acertou := exists j: nat :: j < k && Terminou(states, steps, j, c, l, i, true);
      && (n == Certo <==> acertou)
      && (n == Errado ==> falhas == r.tentativas || r.cancelado)
      && (!r.cancelado ==> (n == Errado <==> falhas == r.tentativas))
      && (0 < falhas < r.tentativas && !acertou && !r.cancelado ==> n.Recuando? || n.Esperando? || n.Tentando?)
      && falhas <= r.tentativas
  {
    AlwaysCounted(states, steps, k, c, l, i);
    Reachable(states, steps, k);
    assert CorridaOk(states[k].corridas[c]);
    assert Falhas(states, steps, k, c, l, i) == set j | 0 <= j < k && Terminou(states, steps, j, c, l, i, false);
  }

  /** A run that is not canceled fails only over a node of its level all of whose attempts
      failed. */
  lemma FailureUsedItsAttempts(states: seq<State>, steps: seq<Step>, k: nat, c: nat)
    requires Trace(states, steps) && k < |states| && c < |states[k].corridas|
    requires states[k].corridas[c].fim == Falha && !states[k].corridas[c].cancelado
    ensures var r := states[k].corridas[c];
      r.nivel < |r.nos| &&
      exists i: nat :: (i < |r.nos[r.nivel]| && |Falhas(states, steps, k, c, r.nivel, i)| == r.tentativas)
  {
    Reachable(states, steps, k);
    var r := states[k].corridas[c];
    assert CorridaOk(r);
    var i :| 0 <= i < |r.nos[r.nivel]| && r.nos[r.nivel][i] == Errado;
    OutcomeOfAttempts(states, steps, k, c, r.nivel, i);
    assert |Falhas(states, steps, k, c, r.nivel, i)| == r.tentativas;
  }

  /** A run succeeds only when every node had an attempt that ended well. */
  lemma SuccessAttemptedAll(states: seq<State>, steps: seq<Step>, k: nat, c: nat, l: nat, i: nat)
    requires Trace(states, steps) && k < |states| && c < |states[k].corridas|
    requires states[k].corridas[c].fim == Sucesso
    requires l < |states[k].corridas[c].nos| && i < |states[k].corridas[c].nos[l]|
    ensures exists j: nat :: j < k && Terminou(states, steps, j, c, l, i, true)
  {
    Reachable(states, steps, k);
    var r := states[k].corridas[c];
    assert CorridaOk(r);
    assert NivelCerto(r.nos[l]);
    OutcomeOfAttempts(states, steps, k, c, l, i);
  }
}
