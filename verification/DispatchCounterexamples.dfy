/** Runs of the dispatch protocol that show what each assumption is for, and the
    weak spots that remain when all of them hold. */
module DispatchCounterexamples {
  import opened Options
  import opened RunStatus
  import opened Queue
  import opened QueueOverlap
  import opened Dispatch
  import opened DispatchGuarantees
  import opened DispatchMarks
  import opened DispatchConditions

  /** `s` is reached by some run of the protocol, without faults if `benigno`. */
  ghost predicate Alcanca(c: Config, s: State, benigno: bool) {
    exists states: seq<State>, steps: seq<Step> :: Chega(c, states, steps, s, benigno)
  }

  ghost predicate Chega(c: Config, states: seq<State>, steps: seq<Step>, s: State, benigno: bool) {
    Trace(c, states, steps) && (benigno ==> BenignTrace(c, states, steps)) && states[|steps|] == s
  }

  lemma Mais(c: Config, s: State, step: Step, benigno: bool) returns (s': State)
    requires Alcanca(c, s, benigno) && Habilitado(c, s, step) && (benigno ==> Benigno(s, step))
    ensures s' == Aplica(c, s, step) && Alcanca(c, s', benigno)
  {
    s' := Aplica(c, s, step);
    var states: seq<State>, steps: seq<Step> :| Chega(c, states, steps, s, benigno);
    Snoc(c, states, steps, s, step, benigno);
  }

  lemma Snoc(c: Config, states: seq<State>, steps: seq<Step>, s: State, step: Step, benigno: bool)
    requires Chega(c, states, steps, s, benigno) && Habilitado(c, s, step) && (benigno ==> Benigno(s, step))
    ensures Chega(c, states + [Aplica(c, s, step)], steps + [step], Aplica(c, s, step), benigno)
  {
    var states', steps' := states + [Aplica(c, s, step)], steps + [step];
    forall k | 0 <= k < |steps'|
      ensures Habilitado(c, states'[k], steps'[k]) && states'[k + 1] == Aplica(c, states'[k], steps'[k])
      ensures benigno ==> Benigno(states'[k], steps'[k])
    {
      if k < |steps| { assert steps'[k] == steps[k]; }
    }
  }

  /** Three attempts, and every run belongs to a workflow limited to one execution. */
  function Exemplo(): Config {
    Config(3, 1000, OneRun())
  }

  /** One run, queued and in the queue. */
  function Pronto(): State {
    var t := map[0 := Row(0, 0, 0, None)];
    State(map[0 := RunRow(Queued, 0, 0, 0, 1)], t, 1, t, 0, map[], map[], {})
  }

  lemma ChegaPronto(benigno: bool)
    ensures Alcanca(Exemplo(), Pronto(), benigno)
  {
    var c := Exemplo();
    assert Chega(c, [Vazio], [], Vazio, benigno);
    var s := Mais(c, Vazio, Criar(0), benigno);
    s := Mais(c, s, MarcarQueued(0), benigno);
    s := Mais(c, s, Enfileirar(0, 0, 0), benigno);
    s := Mais(c, s, Fotografar(0), benigno);
    assert s == Pronto();
  }

  lemma Sozinho(t: Table, em: int, i: nat)
    requires i in t && Elegivel(t, em, i)
    requires forall j :: j in t ==> t[j].marca.None?
    requires forall j :: j in t && j != i ==> !Elegivel(t, em, j)
    ensures Admissivel(t, OneRun(), em, i)
  {
    assert EmVoo(t, OneRun(), "w") == {};
    assert Anteriores(t, OneRun(), em, i) == {};
  }

  /** One run, taken by goroutine 1, which is executing it. */
  function Rodando(): State {
    State(map[0 := RunRow(Running, 0, 1, 0, 2)], map[0 := Row(0, 0, 0, Some(Marca(0, "dispatcher")))], 1,
          map[0 := Row(0, 0, 0, None)], 0, map[1 := Proc(Executando, 0, 0)], map[0 := 1], {})
  }

  lemma ChegaReivindicado(benigno: bool) returns (s: State)
    ensures Alcanca(Exemplo(), s, benigno) && s == Rodando().(
              runs := map[0 := RunRow(Queued, 0, 0, 0, 1)], procs := map[1 := Proc(Reivindicado, 0, 0)])
  {
    ChegaPronto(benigno);
    Sozinho(Pronto().foto, 0, 0);
    s := Mais(Exemplo(), Pronto(), Reivindicar(0, 1, 0), benigno);
  }

  lemma ChegaRodando(benigno: bool)
    ensures Alcanca(Exemplo(), Rodando(), benigno)
  {
    var s := ChegaReivindicado(benigno);
    s := Mais(Exemplo(), s, Avancar(1, true, 0), benigno);
    assert s == Rodando();
  }

  /** Goroutine 1 dies and goroutine 2 recovers its item. */
  lemma MorreERecupera(c: Config, s: State, benigno: bool) returns (s': State)
    requires Alcanca(c, s, benigno) && 1 in s.procs && s.procs == map[1 := Proc(s.procs[1].pc, 0, 0)]
    requires s.dono == map[0 := 1] && 0 in s.fila && s.fila == map[0 := s.fila[0]] && s.fila[0].run == 0
    requires s.fila[0].marca.Some? && s.procs[1].pc != Fim && s.procs[1].pc != Morto
    requires benigno ==> s.procs[1].pc == Executando
    ensures Alcanca(c, s', benigno)
    ensures s' == s.(procs := map[1 := Proc(Fim, 0, 0), 2 := Proc(Falhando, 0, 0)],
                     fila := map[0 := s.fila[0].(marca := None)])
  {
    var m := Mais(c, s, Morrer(1), benigno);
    assert m == s.(procs := map[1 := Proc(Morto, 0, 0)]);
    s' := Mais(c, m, Recuperar(0, 2), benigno);
  }

  /** `falhar` on a queued run: the refused write of failed deletes the item. */
  lemma RecusaApaga(c: Config, s: State, p: nat)
    requires Alcanca(c, s, false) && p in s.procs && s.procs[p] == Proc(Falhando, 0, 0)
    requires 0 in s.runs && s.runs[0].status == Queued && s.enfileirando == {} && s.fila.Keys == {0}
    ensures exists s' :: Alcanca(c, s', false) && Perdida(s', 0)
  {
    var s' := Mais(c, s, Avancar(p, true, 0), false);
    assert s' == s.(procs := s.procs[p := Proc(Apagando, 0, 0)]);
    s' := Mais(c, s', Avancar(p, true, 0), false);
    assert s'.fila == map[] && Perdida(s', 0);
  }

  /** A death between the claim and the write of running: recovery finds a queued run,
      cannot mark it failed, and deletes its only item. */
  lemma DeathBeforeRunningLosesRun()
    ensures exists s :: Alcanca(Exemplo(), s, false) && Perdida(s, 0)
  {
    var s := ChegaReivindicado(false);
    s := MorreERecupera(Exemplo(), s, false);
    RecusaApaga(Exemplo(), s, 2);
  }

  /** A death between the write of queued and the release. */
  lemma DeathBeforeReleaseLosesRun()
    ensures exists s :: Alcanca(Exemplo(), s, false) && Perdida(s, 0)
  {
    ChegaRodando(false);
    var s := Mais(Exemplo(), Rodando(), Avancar(1, false, 0), false);
    s := AteQueued(Exemplo(), s, 1, false);
    s := MorreERecupera(Exemplo(), s, false);
    RecusaApaga(Exemplo(), s, 2);
  }

  /** `falhar` up to and including the write of queued, on the first attempt. */
  lemma AteQueued(c: Config, s: State, p: nat, benigno: bool) returns (s': State)
    requires Alcanca(c, s, benigno) && c.maxTentativas == 3
    requires p in s.procs && s.procs[p].pc == Falhando && s.procs[p].run in s.runs
    requires s.runs[s.procs[p].run].status == Running && s.runs[s.procs[p].run].attempt == 0
    ensures Alcanca(c, s', benigno)
    ensures var r := s.procs[p].run;
            s' == s.(runs := s.runs[r := s.runs[r].(status := Queued, attempt := 1, mudancas := s.runs[r].mudancas + 3)],
                     procs := s.procs[p := s.procs[p].(pc := Devolvendo(1))])
  {
    s' := AteRetentando(c, s, p, benigno);
    s' := Mais(c, s', Avancar(p, true, 0), benigno);
    s' := Mais(c, s', Avancar(p, true, 0), benigno);
  }

  lemma AteRetentando(c: Config, s: State, p: nat, benigno: bool) returns (s': State)
    requires Alcanca(c, s, benigno) && c.maxTentativas == 3
    requires p in s.procs && s.procs[p].pc == Falhando && s.procs[p].run in s.runs
    requires s.runs[s.procs[p].run].status == Running && s.runs[s.procs[p].run].attempt == 0
    ensures Alcanca(c, s', benigno)
    ensures var r := s.procs[p].run;
            s' == s.(runs := s.runs[r := s.runs[r].(status := Failed, attempt := 1, mudancas := s.runs[r].mudancas + 1)],
                     procs := s.procs[p := s.procs[p].(pc := Retentando(1))])
  {
    s' := Mais(c, s, Avancar(p, true, 0), benigno);
    s' := Mais(c, s', Avancar(p, true, 0), benigno);
  }

  /** A database error while failing: the item goes, the run stays running. */
  lemma DatabaseErrorLosesRun()
    ensures exists s :: Alcanca(Exemplo(), s, false) && Perdida(s, 0)
  {
    var c := Exemplo();
    ChegaRodando(false);
    var s := Mais(c, Rodando(), Avancar(1, false, 0), false);
    s := Mais(c, s, ErroDeBanco(1), false);
    s := Mais(c, s, Avancar(1, true, 0), false);
    assert Perdida(s, 0);
  }

  /** A failed release on the ordinary way back to the queue: the item keeps its mark, and
      its recovery finds a queued run and deletes the item. */
  lemma FailedReleaseLosesRun()
    ensures exists s :: Alcanca(Exemplo(), s, false) && Perdida(s, 0)
  {
    var c := Exemplo();
    ChegaRodando(false);
    var s := Mais(c, Rodando(), Avancar(1, false, 0), false);
    s := AteQueued(c, s, 1, false);
    s := Mais(c, s, ErroDeBanco(1), false);
    s := Mais(c, s, Recuperar(0, 2), false);
    RecusaApaga(c, s, 2);
  }

  /** The scheduler dies between marking a run queued and inserting its item. */
  lemma SchedulerDeathLosesRun()
    ensures exists s :: Alcanca(Exemplo(), s, false) && Perdida(s, 0)
  {
    var c := Exemplo();
    assert Chega(c, [Vazio], [], Vazio, false);
    var s := Mais(c, Vazio, Criar(0), false);
    s := Mais(c, s, MarcarQueued(0), false);
    s := Mais(c, s, SchedulerMorre(0), false);
    assert Perdida(s, 0);
  }

  /** Recovery of a goroutine that is merely slow: two executors of one run. */
  lemma RecoveringTheLivingDoublesExecution()
    ensures exists s, p, q :: Alcanca(Exemplo(), s, false) && p != q && p in s.procs && q in s.procs &&
              s.procs[p].pc == Executando && s.procs[q].pc == Executando && s.procs[p].run == s.procs[q].run
  {
    ChegaRodando(false);
    var s := Mais(Exemplo(), Rodando(), Recuperar(0, 2), false);
    s := AteQueued(Exemplo(), s, 2, false);
    s := RetomaItem(s, 3, false);
    assert s.procs[1].pc == Executando && s.procs[3].pc == Executando;
  }

  /** The only item, unmarked, is taken by goroutine `p`, which starts the run. */
  lemma RetomaItem(s: State, p: nat, benigno: bool) returns (s': State)
    requires Alcanca(Exemplo(), s, benigno) && s.fila == map[0 := Row(0, 0, 0, None)] && p !in s.procs
    requires 0 in s.runs && s.runs[0].status == Queued
    ensures Alcanca(Exemplo(), s', benigno)
    ensures s' == s.(foto := s.fila, em := 0, fila := map[0 := Row(0, 0, 0, Some(Marca(0, "dispatcher")))],
                     runs := s.runs[0 := Grava(s.runs[0], Running)],
                     procs := s.procs[p := Proc(Executando, 0, 0)], dono := s.dono[0 := p])
  {
    var f := Mais(Exemplo(), s, Fotografar(0), benigno);
    Sozinho(f.foto, 0, 0);
    var g := Mais(Exemplo(), f, Reivindicar(0, p, 0), benigno);
    assert g == s.(foto := s.fila, em := 0, fila := map[0 := Row(0, 0, 0, Some(Marca(0, "dispatcher")))],
                   procs := s.procs[p := Proc(Reivindicado, 0, 0)], dono := s.dono[0 := p]);
    s' := Mais(Exemplo(), g, Avancar(p, true, 0), benigno);
  }

  // ---- with every assumption in place ------------------------------------

  /** After a recovery the item is taken before the recovery releases it: the new
      executor works without its mark. */
  lemma ChegaSemMarca() returns (s: State)
    ensures Alcanca(Exemplo(), s, true)
    ensures s == State(map[0 := RunRow(Running, 1, 2, 0, 6)], map[0 := Row(0, 0, 1000, None)], 1,
                       map[0 := Row(0, 0, 0, None)], 0,
                       map[1 := Proc(Fim, 0, 0), 2 := Proc(Fim, 0, 0), 3 := Proc(Executando, 0, 0)], map[0 := 3], {})
  {
    ChegaRodando(true);
    s := MorreERecupera(Exemplo(), Rodando(), true);
    s := AteQueued(Exemplo(), s, 2, true);
    s := RetomaItem(s, 3, true);
    assert Atraso(Exemplo(), 1) == 1000;
    s := Mais(Exemplo(), s, Avancar(2, true, 0), true);
  }

  /** The limit of one execution at a time is then exceeded. */
  lemma RecoveryExceedsExecutionLimit()
    ensures SharedLimit(Exemplo().info, "w", 1)
    ensures exists s :: Alcanca(Exemplo(), s, true) && |Executores(s, Exemplo(), "w")| == 2
  {
    var s := ChegaSemMarca();
    s := NovoRun(s, 1);
    s := TomaSegundo(s);
    assert Executores(s, Exemplo(), "w") == {3, 4};
  }

  lemma TomaSegundo(s: State) returns (s': State)
    requires Alcanca(Exemplo(), s, true) && 4 !in s.procs && 1 in s.runs && s.runs[1].status == Queued
    requires s.fila == map[0 := Row(0, 0, 1000, None), 1 := Row(1, 0, 0, None)]
    ensures Alcanca(Exemplo(), s', true) && s'.procs == s.procs[4 := Proc(Executando, 1, 1)]
  {
    var f := Mais(Exemplo(), s, Fotografar(0), true);
    Sozinho(f.foto, 0, 1);
    var g := Mais(Exemplo(), f, Reivindicar(1, 4, 0), true);
    assert g.procs == s.procs[4 := Proc(Reivindicado, 1, 1)] && g.runs == s.runs;
    s' := Mais(Exemplo(), g, Avancar(4, true, 0), true);
  }

  lemma NovoRun(s: State, r: RunId) returns (s': State)
    requires Alcanca(Exemplo(), s, true) && r !in s.runs && s.proximo == 1 && s.enfileirando == {}
    requires s.fila == map[0 := Row(0, 0, 1000, None)] && r != 0
    ensures Alcanca(Exemplo(), s', true)
    ensures s' == s.(runs := s.runs[r := RunRow(Queued, 0, 0, 0, 1)], proximo := 2,
                     fila := map[0 := Row(0, 0, 1000, None), 1 := Row(r, 0, 0, None)])
  {
    var a := Mais(Exemplo(), s, Criar(r), true);
    var b := Mais(Exemplo(), a, MarcarQueued(r), true);
    s' := Mais(Exemplo(), b, Enfileirar(r, 0, 0), true);
  }

  /** A run left for good is reached when the executor without a mark dies... */
  lemma RecoveryLeavesZombie()
    ensures exists s :: Alcanca(Exemplo(), s, true) && Zumbi(s, 0, 3)
  {
    var s := ChegaSemMarca();
    s := Mais(Exemplo(), s, Morrer(3), true);
    assert Zumbi(s, 0, 3);
  }

  /** ...and when the recovering goroutine dies before it has failed the run. */
  lemma DeathOfTheRecovererLeavesZombie()
    ensures exists s :: Alcanca(Exemplo(), s, true) && Zumbi(s, 0, 2)
  {
    ChegaRodando(true);
    var s := MorreERecupera(Exemplo(), Rodando(), true);
    s := Mais(Exemplo(), s, Morrer(2), true);
    assert Zumbi(s, 0, 2);
  }

  /** A run canceled while it waits in the queue keeps its item for good. */
  lemma CancelingInTheQueueKeepsTheItem()
    ensures exists s :: Alcanca(Exemplo(), s, true) && 0 in s.runs && s.runs[0].status == Canceled && 0 in s.fila && s.fila[0].run == 0 &&
              !PassouDaEntrada(s, 0)
  {
    ChegaPronto(true);
    var s := Mais(Exemplo(), Pronto(), Cancelar(0), true);
    assert 0 in s.runs && s.runs[0].status == Canceled && s.procs == map[];
  }
}
