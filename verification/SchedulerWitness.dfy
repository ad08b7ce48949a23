/** A schedule and a run of the crash-restart machine of Scheduler: what its guarantees
    assume can be met, and a slot can be made across a crash. */
module SchedulerWitness {
  import opened Options
  import opened RunStatus
  import opened Decimal
  import opened Identity
  import opened Schedule
  import opened Scheduler

  /** Fires at every instant; an instant is written with two colons. */
  function CadaInstante(slug: string): Agenda {
    Agenda(slug, (t: int) => t + 1, (t: int) => Itoa(t) + "::", 100)
  }

  lemma {:induction false} DigitsOnly(n: nat)
    ensures Livre(ItoaNat(n), ':')
  {
    if n >= 10 { DigitsOnly(n / 10); }
  }

  lemma ItoaIsFree(n: int)
    ensures Livre(Itoa(n), ':')
  {
    DigitsOnly(if n < 0 then -n else n);
  }

  lemma ItoaIsInjective(x: int, y: int)
    requires Itoa(x) == Itoa(y)
    ensures x == y
  {
    var a, b := if x < 0 then -x else x, if y < 0 then -y else y;
    ItoaNatRoundTrip(a);
    ItoaNatRoundTrip(b);
    if x < 0 && y < 0 {
      assert ItoaNat(a) == Itoa(x)[1..] == Itoa(y)[1..] == ItoaNat(b);
    }
  }

  /** Schedules as the guarantees ask for exist, for every slug. */
  lemma ScheduleExists(slug: string)
    ensures ValidAgenda(CadaInstante(slug))
  {
    var a := CadaInstante(slug);
    forall x ensures DoisPontosDois(a.texto(x)) {
      ItoaIsFree(x);
      assert Relogio(a.texto(x), Itoa(x), "", "");
    }
    forall x, y | a.texto(x) == a.texto(y) ensures x == y {
      assert Itoa(x) == a.texto(x)[..|a.texto(x)| - 2] == a.texto(y)[..|a.texto(y)| - 2] == Itoa(y);
      ItoaIsInjective(x, y);
    }
  }

  /** `s` is reached from a fresh schedule by some run, with a crash on the way if `caiu`. */
  ghost predicate Alcanca(a: Agenda, s: State, caiu: bool) {
    exists states: seq<State>, steps: seq<Step> :: Chega(a, states, steps, s, caiu)
  }

  ghost predicate Chega(a: Agenda, states: seq<State>, steps: seq<Step>, s: State, caiu: bool) {
    Trace(a, states, steps) && states[|steps|] == s && (caiu ==> Cair in steps)
  }

  lemma Mais(a: Agenda, s: State, step: Step, caiu: bool) returns (s': State)
    requires Alcanca(a, s, caiu) && Habilitado(a, s, step)
    ensures ValidCron(a.next) && s' == Aplica(a, s, step) && Alcanca(a, s', caiu || step == Cair)
  {
    var states: seq<State>, steps: seq<Step> :| Chega(a, states, steps, s, caiu);
    s' := Aplica(a, s, step);
    Snoc(a, states, steps, s, step, caiu);
  }

  lemma Snoc(a: Agenda, states: seq<State>, steps: seq<Step>, s: State, step: Step, caiu: bool)
    requires Chega(a, states, steps, s, caiu) && Habilitado(a, s, step)
    ensures Chega(a, states + [Aplica(a, s, step)], steps + [step], Aplica(a, s, step), caiu || step == Cair)
  {
    var states', steps' := states + [Aplica(a, s, step)], steps + [step];
    forall k | 0 <= k < |steps'|
      ensures Habilitado(a, states'[k], steps'[k]) && states'[k + 1] == Aplica(a, states'[k], steps'[k])
    {
      if k < |steps| { assert steps'[k] == steps[k]; }
    }
    assert steps'[|steps|] == step;
  }

  /** The one slot due between 0 and 1. */
  lemma OneDue(a: Agenda)
    requires a == CadaInstante(a.slug)
    ensures ValidCron(a.next) && Devidos(a, 0, 1) == [1]
  {
    ScheduleExists(a.slug);
    assert SlotsEntre(a.next, 1, 1) == [];
    assert SlotsEntre(a.next, 0, 1) == [1];
  }

  /** The mark is planted at 0, and slot 1 is due. */
  function Devendo(): State {
    State(Some(0), map[], {}, Fazendo([1], 1, ACriar), 0)
  }

  lemma UpToTheSlot(a: Agenda)
    requires a == CadaInstante(a.slug)
    ensures Alcanca(a, Devendo(), false)
  {
    ScheduleExists(a.slug);
    OneDue(a);
    var s := State(None, map[], {}, Ocioso, 0);
    assert Chega(a, [s], [], s, false);
    s := Mais(a, s, Iniciar(0), false);
    s := Mais(a, s, Avancar, false);
    s := Mais(a, s, Iniciar(1), false);
    assert s == Devendo();
  }

  /** The run of slot 1 is inserted. */
  lemma UpToTheInsert(a: Agenda) returns (s: State)
    requires a == CadaInstante(a.slug)
    ensures Alcanca(a, s, false) && s == State(Some(0), map[ChaveDe(a, 1) := Created], {}, Fazendo([1], 1, AMarcar), 0)
  {
    UpToTheSlot(a);
    s := Mais(a, Devendo(), Avancar, false);
  }

  /** Insert, queue, enqueue; then a crash, before the mark moves. */
  lemma UpToTheCrash(a: Agenda) returns (s: State)
    requires a == CadaInstante(a.slug)
    ensures Alcanca(a, s, true) && s == State(Some(0), map[ChaveDe(a, 1) := Queued], {ChaveDe(a, 1)}, Ocioso, 0)
  {
    s := UpToTheInsert(a);
    s := Mais(a, s, Avancar, false);
    assert s == State(Some(0), map[ChaveDe(a, 1) := Queued], {}, Fazendo([1], 1, AEnfileirar), 0);
    s := Mais(a, s, Avancar, false);
    s := Mais(a, s, Cair, false);
  }

  /** A slot made across a crash: the restarted scheduler collides on the key, moves the
      mark past the slot, and the slot has its one run, in the queue. */
  lemma SlotMadeAcrossACrash(slug: string)
    ensures var a := CadaInstante(slug);
            exists s :: Alcanca(a, s, true) && s.marco == Some(1) && s.runs == map[ChaveDe(a, 1) := Queued] && s.fila == {ChaveDe(a, 1)}
  {
    var a := CadaInstante(slug);
    var s := UpToTheCrash(a);
    OneDue(a);
    s := Mais(a, s, Iniciar(1), true);
    s := Mais(a, s, Avancar, true);
    s := Mais(a, s, Avancar, true);
  }

  /** A slot stranded by a crash between the two inserts. */
  lemma SlotStrandedByACrash(slug: string)
    ensures var a := CadaInstante(slug);
            exists s :: Alcanca(a, s, true) && Encalhado(a, s, 1)
  {
    var s := UpToTheInsert(CadaInstante(slug));
    s := Mais(CadaInstante(slug), s, Cair, false);
  }
}
