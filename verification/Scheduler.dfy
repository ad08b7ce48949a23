/** internal/scheduler/scheduler.go: turning due slots into runs, safe to crash and
    restart between any two statements. */
module Scheduler {
  import opened Options
  import opened RunStatus
  import opened Identity
  import opened Schedule

  /** One workflow's schedule. `texto` renders an instant as RFC 3339 in UTC. */
  datatype Agenda = Agenda(slug: string, next: Cron, texto: int -> string, maxPorCiclo: nat)

  /** Instants have two colons in their text, and different slots different texts. */
  ghost predicate ValidAgenda(a: Agenda) {
    && ValidCron(a.next) && a.maxPorCiclo > 0
    && (forall x :: DoisPontosDois(a.texto(x)))
    && (forall x, y :: IsSlot(a.next, x) && IsSlot(a.next, y) && a.texto(x) == a.texto(y) ==> x == y)
  }

  function ChaveDe(a: Agenda, s: int): string {
    Chave(a.slug, "schedule", a.texto(s))
  }

  /** Runs by idempotency key (its uniqueness is the table's constraint). */
  type Runs = map<string, Status>

  /** Where the scheduler is inside `materializar`: the slots still to do, and the
      statement that comes next for the first of them. */
  datatype Fase = ACriar | AMarcar | AEnfileirar | AAvancar

  datatype Pc =
    | Ocioso
    | Plantando(agora: int)
    | Fazendo(resto: seq<int>, agora: int, fase: Fase)

  datatype State = State(
    marco: Option<int>,      // ultimo_slot
    runs: Runs,
    fila: set<string>,
    pc: Pc,
    plantado: int)           // history: the first mark

  datatype Step =
    | Iniciar(agora: int)
    | Avancar
    | Cair
    | Mundo(runs: Runs, fila: set<string>)

  /** The first `limite` slots due; what Schedule.Slots returns with catch-up. */
  ghost function Devidos(a: Agenda, de: int, agora: int): seq<int>
    requires ValidCron(a.next)
  {
    var s := SlotsEntre(a.next, de, agora);
    if |s| <= a.maxPorCiclo then s else s[..a.maxPorCiclo]
  }

  predicate ForaDaFila(st: Status) {
    st == Created || st == Queued
  }

  /** What everything else may do meanwhile: move queued runs along, take items from the
      queue, cancel runs, create runs under other keys. Runs are never deleted, nobody
      else creates or queues a run under a schedule key of this workflow, and a run that
      has not reached the queue can at most be canceled. */
  ghost predicate MundoPode(a: Agenda, s: State, runs: Runs, fila: set<string>) {
    && s.runs.Keys <= runs.Keys
    && (forall k :: k in s.runs && k !in s.fila && (ForaDaFila(s.runs[k]) || s.runs[k] == Canceled) ==>
          runs[k] == s.runs[k] || runs[k] == Canceled)
    && (forall x :: ChaveDe(a, x) in runs ==> ChaveDe(a, x) in s.runs)
    && (forall x :: ChaveDe(a, x) in fila ==> ChaveDe(a, x) in s.fila)
  }

  ghost predicate Habilitado(a: Agenda, s: State, step: Step) {
    match step
    case Iniciar(agora) => s.pc == Ocioso
    case Avancar => s.pc != Ocioso
    case Cair => true
    case Mundo(runs, fila) => MundoPode(a, s, runs, fila)
  }

  /** UPDATE ... WHERE ultimo_slot IS NULL OR ultimo_slot < slot. */
  function AvancarSlot(marco: Option<int>, slot: int): Option<int> {
    if marco.None? || marco.value < slot then Some(slot) else marco
  }

  ghost function Aplica(a: Agenda, s: State, step: Step): State
    requires ValidCron(a.next) && Habilitado(a, s, step)
  {
    match step
    case Iniciar(agora) =>
      if s.marco.None? then s.(pc := Plantando(agora))
      else
        var d := Devidos(a, s.marco.value, agora);
        s.(pc := if d == [] then Ocioso else Fazendo(d, agora, ACriar))
    case Cair => s.(pc := Ocioso)
    case Mundo(runs, fila) => s.(runs := runs, fila := fila)
    case Avancar =>
      match s.pc
      case Ocioso => s
      case Plantando(agora) =>
        s.(marco := AvancarSlot(s.marco, agora), plantado := if s.marco.None? then agora else s.plantado, pc := Ocioso)
      case Fazendo(resto, agora, fase) =>
        if resto == [] then s.(pc := Ocioso)
        else
          var k := ChaveDe(a, resto[0]);
          match fase
          case ACriar =>
            if k in s.runs then s.(pc := Fazendo(resto, agora, AAvancar))
            else s.(runs := s.runs[k := Created], pc := Fazendo(resto, agora, AMarcar))
          case AMarcar =>
            // a refused write is an error, and ends the cycle with the mark unmoved
            if k in s.runs && PodeIr(s.runs[k], Queued)
            then s.(runs := s.runs[k := Queued], pc := Fazendo(resto, agora, AEnfileirar))
            else s.(pc := Ocioso)
          case AEnfileirar => s.(fila := s.fila + {k}, pc := Fazendo(resto, agora, AAvancar))
          case AAvancar =>
            s.(marco := AvancarSlot(s.marco, resto[0]),
               pc := if |resto| == 1 then Ocioso else Fazendo(resto[1..], agora, ACriar))
  }

  ghost predicate Trace(a: Agenda, states: seq<State>, steps: seq<Step>) {
    && ValidAgenda(a)
    && |states| == |steps| + 1
    && states[0].marco.None? && states[0].pc == Ocioso
    && (forall x :: ChaveDe(a, x) !in states[0].runs && ChaveDe(a, x) !in states[0].fila)
    && forall k {:trigger steps[k]} :: 0 <= k < |steps| ==>
         Habilitado(a, states[k], steps[k]) && states[k + 1] == Aplica(a, states[k], steps[k])
  }

  // ---- the invariant -----------------------------------------------------

  predicate TemRun(a: Agenda, s: State, x: int) {
    ChaveDe(a, x) in s.runs
  }

  /** The slots still to do are the ones right after the mark. */
  ghost predicate RestoOk(a: Agenda, s: State)
    requires ValidCron(a.next)
  {
    s.pc.Fazendo? ==>
      && s.marco.Some? && s.pc.resto != []
      && s.pc.resto <= SlotsEntre(a.next, s.marco.value, s.pc.agora)
      && (s.pc.fase != ACriar ==> TemRun(a, s, s.pc.resto[0]))
      && (s.pc.fase == AMarcar ==> s.runs[ChaveDe(a, s.pc.resto[0])] in {Created, Canceled} && ChaveDe(a, s.pc.resto[0]) !in s.fila)
      && (s.pc.fase == AEnfileirar ==> s.runs[ChaveDe(a, s.pc.resto[0])] in {Queued, Canceled} && ChaveDe(a, s.pc.resto[0]) !in s.fila)
  }

  ghost predicate Inv(a: Agenda, s: State)
    requires ValidCron(a.next)
  {
    && (s.marco.Some? ==> s.plantado <= s.marco.value)
    && (s.pc.Plantando? ==> s.marco.None?)
    && (s.marco.None? ==> !s.pc.Fazendo? && forall x :: !TemRun(a, s, x))
    && RestoOk(a, s)
    && (forall x :: ChaveDe(a, x) in s.fila ==> TemRun(a, s, x))
    && (forall x :: s.marco.Some? && IsSlot(a.next, x) && s.plantado < x <= s.marco.value ==> TemRun(a, s, x))
    && (forall x :: s.marco.Some? && IsSlot(a.next, x) && TemRun(a, s, x) ==> s.plantado < x)
  }

  lemma KeysDiffer(a: Agenda, x: int, y: int)
    requires ValidAgenda(a) && IsSlot(a.next, x) && IsSlot(a.next, y)
    ensures ChaveDe(a, x) == ChaveDe(a, y) ==> x == y
  {
    if ChaveDe(a, x) == ChaveDe(a, y) {
      assert Livre("schedule", ':');
      ChaveIsInjective(a.slug, "schedule", a.texto(x), a.slug, "schedule", a.texto(y));
    }
  }

  lemma FirstDue(a: Agenda, s: State)
    requires ValidCron(a.next) && Inv(a, s) && s.pc.Fazendo?
    ensures s.marco.Some? && s.pc.resto[0] == a.next(s.marco.value) && IsSlot(a.next, s.pc.resto[0])
    ensures s.pc.resto[0] <= s.pc.agora && s.marco.value < s.pc.resto[0]
    ensures s.pc.resto[1..] <= SlotsEntre(a.next, s.pc.resto[0], s.pc.agora)
    ensures forall x :: IsSlot(a.next, x) && x <= s.pc.resto[0] ==> x <= s.marco.value || x == s.pc.resto[0]
  {
    var m := s.marco.value;
    var todos := SlotsEntre(a.next, m, s.pc.agora);
    assert s.pc.resto[0] == todos[0] == a.next(m);
    NextIsSlot(a.next, m);
    assert todos == [a.next(m)] + SlotsEntre(a.next, a.next(m), s.pc.agora);
    forall x | IsSlot(a.next, x) && m < x ensures x >= a.next(m) {
      assert x < a.next(m) ==> a.next(x - 1) == a.next(m);
    }
  }

  lemma AvancarKeepsInv(a: Agenda, s: State)
    requires ValidAgenda(a) && Inv(a, s) && s.pc != Ocioso
    ensures Inv(a, Aplica(a, s, Avancar))
  {
    var s' := Aplica(a, s, Avancar);
    if s.pc.Plantando? {
      assert forall x :: TemRun(a, s', x) <==> TemRun(a, s, x);
    } else {
      match s.pc.fase
      case ACriar => CriarKeepsInv(a, s);
      case AMarcar => MarcarKeepsInv(a, s);
      case AEnfileirar => EnfileirarKeepsInv(a, s);
      case AAvancar => PassarKeepsInv(a, s);
    }
  }

  lemma MarcarKeepsInv(a: Agenda, s: State)
    requires ValidAgenda(a) && Inv(a, s) && s.pc.Fazendo? && s.pc.fase == AMarcar
    ensures Inv(a, Aplica(a, s, Avancar))
  {
    var s' := Aplica(a, s, Avancar);
    assert forall x :: TemRun(a, s', x) <==> TemRun(a, s, x);
  }

  lemma EnfileirarKeepsInv(a: Agenda, s: State)
    requires ValidAgenda(a) && Inv(a, s) && s.pc.Fazendo? && s.pc.fase == AEnfileirar
    ensures Inv(a, Aplica(a, s, Avancar))
  {
    var s' := Aplica(a, s, Avancar);
    assert forall x :: TemRun(a, s', x) <==> TemRun(a, s, x);
  }

  /** The mark moves past the slot that was made. */
  lemma PassarKeepsInv(a: Agenda, s: State)
    requires ValidAgenda(a) && Inv(a, s) && s.pc.Fazendo? && s.pc.fase == AAvancar
    ensures Inv(a, Aplica(a, s, Avancar))
  {
    var s' := Aplica(a, s, Avancar);
    FirstDue(a, s);
    assert forall x :: TemRun(a, s', x) <==> TemRun(a, s, x);
  }

  lemma CriarKeepsInv(a: Agenda, s: State)
    requires ValidAgenda(a) && Inv(a, s) && s.pc.Fazendo? && s.pc.fase == ACriar
    ensures Inv(a, Aplica(a, s, Avancar))
  {
    var s' := Aplica(a, s, Avancar);
    FirstDue(a, s);
    forall x | ChaveDe(a, x) in s'.fila ensures TemRun(a, s', x) {
      assert ChaveDe(a, x) in s.fila ==> TemRun(a, s, x);
    }
    forall x | IsSlot(a.next, x) && TemRun(a, s', x) ensures s.plantado < x {
      KeysDiffer(a, x, s.pc.resto[0]);
    }
  }

  lemma StepKeepsInv(a: Agenda, s: State, step: Step)
    requires ValidAgenda(a) && Inv(a, s) && Habilitado(a, s, step)
    ensures Inv(a, Aplica(a, s, step))
  {
    match step
    case Avancar => AvancarKeepsInv(a, s);
    case Mundo(runs, fila) =>
      var s' := Aplica(a, s, step);
      assert forall x :: TemRun(a, s', x) <==> TemRun(a, s, x);
    case _ =>
      assert forall x :: TemRun(a, Aplica(a, s, step), x) <==> TemRun(a, s, x);
  }

  lemma {:induction false} Reachable(a: Agenda, states: seq<State>, steps: seq<Step>, k: nat)
    requires Trace(a, states, steps) && k < |states|
    ensures Inv(a, states[k])
  {
    if k == 0 {
      assert forall x :: !TemRun(a, states[0], x);
    } else {
      Reachable(a, states, steps, k - 1);
      StepKeepsInv(a, states[k - 1], steps[k - 1]);
    }
  }

  // ---- guarantees --------------------------------------------------------

  /** However often the scheduler dies, every slot the mark has passed since it was
      planted has its run, and no other slot up to the mark has one. */
  lemma EverySlotPassedHasItsRun(a: Agenda, states: seq<State>, steps: seq<Step>, k: nat, x: int)
    requires Trace(a, states, steps) && k < |states| && states[k].marco.Some? && IsSlot(a.next, x)
    requires x <= states[k].marco.value
    ensures ChaveDe(a, x) in states[k].runs <==> states[k].plantado < x
  {
    Reachable(a, states, steps, k);
    assert TemRun(a, states[k], x) <==> states[k].plantado < x;
  }

  /** One step moves the mark at most one slot on, and only past a slot whose run exists. */
  lemma MarkNeverMovesBack(a: Agenda, s: State, step: Step)
    requires ValidAgenda(a) && Inv(a, s) && Habilitado(a, s, step)
    ensures var s' := Aplica(a, s, step);
            && (s.marco.Some? ==> s'.marco.Some? && s.marco.value <= s'.marco.value && s'.plantado == s.plantado)
            && (s.marco.Some? && s'.marco != s.marco ==>
                  s'.marco.value == a.next(s.marco.value) && ChaveDe(a, s'.marco.value) in s'.runs)
  {
    if step == Avancar && s.pc.Fazendo? { FirstDue(a, s); }
  }

  lemma {:induction false} MarkOnlyAdvances(a: Agenda, states: seq<State>, steps: seq<Step>, k: nat, l: nat)
    requires Trace(a, states, steps) && k <= l < |states| && states[k].marco.Some?
    ensures states[l].marco.Some? && states[k].marco.value <= states[l].marco.value
    ensures states[l].plantado == states[k].plantado
    decreases l - k
  {
    if k < l {
      MarkOnlyAdvances(a, states, steps, k, l - 1);
      Reachable(a, states, steps, l - 1);
      MarkNeverMovesBack(a, states[l - 1], steps[l - 1]);
    }
  }

  predicate EntreCriarEFila(f: Fase) {
    f == AMarcar || f == AEnfileirar
  }

  /** The scheduler is between the insert of the run of slot `x` and that of its item. */
  predicate AindaVai(s: State, x: int) {
    s.pc.Fazendo? && s.pc.resto != [] && s.pc.resto[0] == x && EntreCriarEFila(s.pc.fase)
  }

  /** A run that was inserted, is not in the queue, and nobody is about to put there. */
  ghost predicate SemFila(a: Agenda, s: State, x: int) {
    && ChaveDe(a, x) in s.runs && ChaveDe(a, x) !in s.fila && !AindaVai(s, x)
    && (ForaDaFila(s.runs[ChaveDe(a, x)]) || s.runs[ChaveDe(a, x)] == Canceled)
  }

  /** Such a run that was not canceled: it waits for a queue item that never comes. */
  ghost predicate Encalhado(a: Agenda, s: State, x: int) {
    SemFila(a, s, x) && ForaDaFila(s.runs[ChaveDe(a, x)])
  }

  /** What the guarantee does not say: a crash strands the slot being made exactly when
      it falls between the insert of its run and the insert of its queue item, and the
      run was not canceled in between. */
  lemma CrashStrandsIff(a: Agenda, s: State)
    requires ValidAgenda(a) && Inv(a, s) && s.pc.Fazendo?
    ensures var x := s.pc.resto[0];
            Encalhado(a, Aplica(a, s, Cair), x) <==>
              Encalhado(a, s, x) || (EntreCriarEFila(s.pc.fase) && ForaDaFila(s.runs[ChaveDe(a, x)]))
  {}

  /** And it is for good: the collision on the key makes every later cycle skip the
      slot, so the run is never queued; at most it is canceled. */
  lemma StrandedRunStays(a: Agenda, s: State, step: Step, x: int)
    requires ValidAgenda(a) && Inv(a, s) && Habilitado(a, s, step) && IsSlot(a.next, x) && SemFila(a, s, x)
    ensures SemFila(a, Aplica(a, s, step), x)
  {
    if step == Avancar && s.pc.Fazendo? {
      FirstDue(a, s);
      KeysDiffer(a, x, s.pc.resto[0]);
    }
  }

  lemma {:induction false} StrandedForever(a: Agenda, states: seq<State>, steps: seq<Step>, k: nat, l: nat, x: int)
    requires Trace(a, states, steps) && k <= l < |states| && IsSlot(a.next, x) && SemFila(a, states[k], x)
    ensures SemFila(a, states[l], x)
    decreases l - k
  {
    if k < l {
      StrandedForever(a, states, steps, k, l - 1, x);
      Reachable(a, states, steps, l - 1);
      StrandedRunStays(a, states[l - 1], steps[l - 1], x);
    }
  }

  // ---- which runs are stranded -------------------------------------------

  /** A crash between the insert of the run of slot `x` and that of its item. */
  ghost predicate CaiuNoMeio(a: Agenda, states: seq<State>, steps: seq<Step>, j: nat, x: int)
    requires |states| == |steps| + 1 && j < |steps|
  {
    steps[j] == Cair && AindaVai(states[j], x) && ChaveDe(a, x) in states[j].runs
  }

  ghost predicate NuncaNaFila(a: Agenda, states: seq<State>, k: nat, x: int)
    requires k < |states|
  {
    forall l :: 0 <= l <= k ==> ChaveDe(a, x) !in states[l].fila
  }

  lemma OneStep(a: Agenda, states: seq<State>, steps: seq<Step>, k: nat)
    requires Trace(a, states, steps) && 0 < k < |states|
    ensures Habilitado(a, states[k - 1], steps[k - 1]) && states[k] == Aplica(a, states[k - 1], steps[k - 1])
  {
    assert steps[k - 1] == steps[k - 1];
  }

  /** Runs are never deleted, so a slot without a run never had an item. */
  lemma {:induction false} NoRunNoItem(a: Agenda, states: seq<State>, steps: seq<Step>, k: nat, x: int)
    requires Trace(a, states, steps) && k < |states| && ChaveDe(a, x) !in states[k].runs
    ensures NuncaNaFila(a, states, k, x)
  {
    Reachable(a, states, steps, k);
    assert !TemRun(a, states[k], x);
    if k > 0 {
      OneStep(a, states, steps, k);
      NoRunNoItem(a, states, steps, k - 1, x);
    }
  }

  /** The slot being made has not been in the queue before. */
  lemma {:induction false} NotQueuedBefore(a: Agenda, states: seq<State>, steps: seq<Step>, k: nat, x: int)
    requires Trace(a, states, steps) && k < |states| && IsSlot(a.next, x) && AindaVai(states[k], x)
    ensures NuncaNaFila(a, states, k, x)
  {
    if k > 0 {
      OneStep(a, states, steps, k);
      Reachable(a, states, steps, k);
      if AindaVai(states[k - 1], x) {
        NotQueuedBefore(a, states, steps, k - 1, x);
      } else {
        NoRunNoItem(a, states, steps, k - 1, x);
      }
    }
  }

  /** A run that was never in the queue was made and left there by such a crash, or was
      canceled. */
  lemma {:induction false} NeverQueued(a: Agenda, states: seq<State>, steps: seq<Step>, k: nat, x: int)
    requires Trace(a, states, steps) && k < |states| && IsSlot(a.next, x)
    requires NuncaNaFila(a, states, k, x) && ChaveDe(a, x) in states[k].runs
    ensures ForaDaFila(states[k].runs[ChaveDe(a, x)]) || states[k].runs[ChaveDe(a, x)] == Canceled
    ensures Encalhado(a, states[k], x) ==> exists j: nat :: j < k && CaiuNoMeio(a, states, steps, j, x)
  {
    if k > 0 {
      OneStep(a, states, steps, k);
      Reachable(a, states, steps, k - 1);
      var s, step := states[k - 1], steps[k - 1];
      if ChaveDe(a, x) in s.runs {
        NeverQueued(a, states, steps, k - 1, x);
        NeverQueuedStep(a, s, step, x);
        assert step == Cair && AindaVai(s, x) ==> CaiuNoMeio(a, states, steps, k - 1, x);
      } else {
        JustMade(a, s, step, x);
      }
    }
  }

  lemma JustMade(a: Agenda, s: State, step: Step, x: int)
    requires ValidAgenda(a) && Inv(a, s) && Habilitado(a, s, step) && IsSlot(a.next, x)
    requires ChaveDe(a, x) !in s.runs && ChaveDe(a, x) in Aplica(a, s, step).runs
    ensures Aplica(a, s, step).runs[ChaveDe(a, x)] == Created && AindaVai(Aplica(a, s, step), x)
  {
    if step == Avancar && s.pc.Fazendo? {
      FirstDue(a, s);
      KeysDiffer(a, x, s.pc.resto[0]);
    }
  }

  lemma NeverQueuedStep(a: Agenda, s: State, step: Step, x: int)
    requires ValidAgenda(a) && Inv(a, s) && Habilitado(a, s, step) && IsSlot(a.next, x)
    requires ChaveDe(a, x) in s.runs && ChaveDe(a, x) !in s.fila && ChaveDe(a, x) !in Aplica(a, s, step).fila
    requires ForaDaFila(s.runs[ChaveDe(a, x)]) || s.runs[ChaveDe(a, x)] == Canceled
    ensures var s', k := Aplica(a, s, step), ChaveDe(a, x);
      && k in s'.runs && (ForaDaFila(s'.runs[k]) || s'.runs[k] == Canceled)
      && (Encalhado(a, s', x) ==> Encalhado(a, s, x) || (step == Cair && AindaVai(s, x)))
  {
    if step == Avancar && s.pc.Fazendo? {
      FirstDue(a, s);
      KeysDiffer(a, x, s.pc.resto[0]);
    }
  }

  /** The exact condition, over every run of the scheduler: a run that never was in the
      queue is stranded exactly when the scheduler once crashed between its two inserts,
      and it was not canceled. */
  lemma StrandedIff(a: Agenda, states: seq<State>, steps: seq<Step>, k: nat, x: int)
    requires Trace(a, states, steps) && k < |states| && IsSlot(a.next, x)
    ensures (Encalhado(a, states[k], x) && NuncaNaFila(a, states, k, x)) <==>
              && (exists j: nat :: j < k && CaiuNoMeio(a, states, steps, j, x))
              && ChaveDe(a, x) in states[k].runs && states[k].runs[ChaveDe(a, x)] != Canceled
  {
    if Encalhado(a, states[k], x) && NuncaNaFila(a, states, k, x) { NeverQueued(a, states, steps, k, x); }
    if j: nat :| j < k && CaiuNoMeio(a, states, steps, j, x) { LeftForGood(a, states, steps, j, k, x); }
  }

  lemma {:induction false} LeftForGood(a: Agenda, states: seq<State>, steps: seq<Step>, j: nat, k: nat, x: int)
    requires Trace(a, states, steps) && j < k < |states| && IsSlot(a.next, x) && CaiuNoMeio(a, states, steps, j, x)
    ensures SemFila(a, states[k], x) && NuncaNaFila(a, states, k, x)
  {
    if k == j + 1 {
      NotQueuedBefore(a, states, steps, j, x);
      Reachable(a, states, steps, j);
      OneStep(a, states, steps, k);
    } else {
      LeftForGood(a, states, steps, j, k - 1, x);
      StrandedForever(a, states, steps, k - 1, k, x);
    }
  }
}
