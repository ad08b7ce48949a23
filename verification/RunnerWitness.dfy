/** A run of the runner: one node, that fails once, waits out the back-off and succeeds. */
module RunnerWitness {
  import opened Options
  import opened Graph
  import opened Runner

  /** `s` is reached from a start of one run by some schedule. */
  ghost predicate Alcanca(s: State) {
    exists states: seq<State>, steps: seq<Step> :: Chega(states, steps, s)
  }

  ghost predicate Chega(states: seq<State>, steps: seq<Step>, s: State) {
    Trace(states, steps) && states[|steps|] == s
  }

  lemma Mais(s: State, step: Step) returns (s': State)
    requires Alcanca(s) && Habilitado(s, step)
    ensures s' == Aplica(s, step) && Alcanca(s')
  {
    var states: seq<State>, steps: seq<Step> :| Chega(states, steps, s);
    s' := Aplica(s, step);
    Snoc(states, steps, s, step);
  }

  lemma Snoc(states: seq<State>, steps: seq<Step>, s: State, step: Step)
    requires Chega(states, steps, s) && Habilitado(s, step)
    ensures Chega(states + [Aplica(s, step)], steps + [step], Aplica(s, step))
  {
    var states', steps' := states + [Aplica(s, step)], steps + [step];
    forall k | 0 <= k < |steps'| ensures Habilitado(states'[k], steps'[k]) && states'[k + 1] == Aplica(states'[k], steps'[k]) {
      if k < |steps| { assert steps'[k] == steps[k]; }
    }
  }

  /** One node, two attempts, one slot. */
  function Uma(no: No, nivel: nat, fim: Fim, emUso: nat): State {
    State([Corrida(Workflow(["a"], []), [["a"]], 2, nivel, [[no]], false, fim)], Some(1), emUso)
  }

  lemma Start()
    ensures Alcanca(Uma(Parado, 0, Rodando, 0))
  {
    var s := Uma(Parado, 0, Rodando, 0);
    var niveis := [["a"]];
    assert InLevel(niveis, 0, "a");
    assert IsLevelling(Workflow(["a"], []), niveis);
    assert Inicial(s.corridas[0]);
    assert Chega([s], [], s);
  }

  /** It is reached that a run succeeds although an attempt failed. */
  lemma SucceedsAtTheSecondAttempt()
    ensures Alcanca(Uma(Recuando(1), 0, Rodando, 0)) && Alcanca(Uma(Certo, 1, Sucesso, 0))
  {
    Start();
    Moved(Parado, Esperando(1), Lancar(0, 0), 0, 0);
    Moved(Esperando(1), Tentando(1), Ocupar(0, 0), 0, 1);
    Moved(Tentando(1), Recuando(1), Terminar(0, 0, false), 1, 0);
    Moved(Recuando(1), Esperando(2), Acordar(0, 0), 0, 0);
    Moved(Esperando(2), Tentando(2), Ocupar(0, 0), 0, 1);
    Moved(Tentando(2), Certo, Terminar(0, 0, true), 1, 0);
    var s := Mais(Uma(Certo, 0, Rodando, 0), Barreira(0));
    assert s.corridas[0] == Uma(Certo, 1, Sucesso, 0).corridas[0];
    assert s == Uma(Certo, 1, Sucesso, 0);
  }

  /** One step of the node. */
  lemma Moved(de: No, para: No, step: Step, antes: nat, depois: nat)
    requires Alcanca(Uma(de, 0, Rodando, antes)) && Habilitado(Uma(de, 0, Rodando, antes), step)
    requires Aplica(Uma(de, 0, Rodando, antes), step) == PoeNo(Uma(de, 0, Rodando, antes), 0, 0, para).(emUso := depois)
    ensures Alcanca(Uma(para, 0, Rodando, depois))
  {
    var s := Mais(Uma(de, 0, Rodando, antes), step);
    assert [de][0 := para] == [para];
    assert [[de]][0 := [para]] == [[para]];
    assert s.corridas == Uma(para, 0, Rodando, depois).corridas;
  }
}
