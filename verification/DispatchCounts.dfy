/** What holds of attempts and alerts in every run of the protocol, whoever dies, whatever
    the database answers and whomever recovery touches. */
module DispatchCounts {
  import opened RunStatus
  import opened Queue
  import opened Dispatch

  /** A goroutine that has failed its run and not yet decided about it. */
  predicate Decide(pc: Pc) {
    pc.Incrementando? || pc.Avisando? || pc.Retentando?
  }

  predicate DecideDe(s: State, p: nat, r: RunId) {
    p in s.procs && s.procs[p].run == r && Decide(s.procs[p].pc)
  }

  /** What such a goroutine knows of the row. */
  predicate Decidindo(c: Config, pc: Pc, row: RunRow) {
    row.status == Failed && row.alertas == 0 &&
    match pc
    case Incrementando => row.inicios == row.attempt + 1
    case Avisando => row.attempt == c.maxTentativas
    case Retentando(n) => n == row.attempt && row.inicios == row.attempt < c.maxTentativas
    case _ => true
  }

  predicate Conhece(c: Config, s: State, p: nat)
    requires p in s.procs
  {
    && s.procs[p].run in s.runs && s.runs[s.procs[p].run].status != Created
    && (Decide(s.procs[p].pc) ==> Decidindo(c, s.procs[p].pc, s.runs[s.procs[p].run]))
  }

  predicate LinhaOk(c: Config, s: State, r: RunId)
    requires r in s.runs
  {
    RowOk(c, s.runs[r])
  }

  predicate ItemOk(s: State, i: nat)
    requires i in s.fila
  {
    s.fila[i].run in s.runs && s.runs[s.fila[i].run].status != Created
  }

  /** Rows are bounded, and at most one goroutine decides about a run. */
  ghost predicate Contado(c: Config, s: State) {
    && (forall r {:trigger LinhaOk(c, s, r)} :: r in s.runs ==> LinhaOk(c, s, r))
    && (forall p {:trigger Conhece(c, s, p)} :: p in s.procs ==> Conhece(c, s, p))
    && (forall i {:trigger ItemOk(s, i)} :: i in s.fila ==> ItemOk(s, i))
    && (forall r :: r in s.enfileirando ==> r in s.runs && s.runs[r].status != Created)
    && UmDecide(s)
  }

  ghost predicate UmDecide(s: State) {
    forall p, q, r :: DecideDe(s, p, r) && DecideDe(s, q, r) ==> p == q
  }

  /** One statement: the row stays bounded; a row about which somebody else decides is not
      changed, and a goroutine begins to decide only by failing the run. */
  lemma PassoConta(c: Config, row: RunRow, pc: Pc, ok: bool)
    requires ValidConfig(c) && RowOk(c, row) && row.status != Created && (Decide(pc) ==> Decidindo(c, pc, row))
    ensures var e := Passo(c, row, pc, ok);
            && RowOk(c, e.row) && e.row.status != Created
            && (Decide(e.pc) ==> Decidindo(c, e.pc, e.row) && (Decide(pc) || row.status == Running))
            && (row.status == Failed && !Decide(pc) ==> e.row == row && !Decide(e.pc))
  {
    match pc
    case _ =>
  }

  lemma AvancarCounts(c: Config, s: State, p: nat, ok: bool, agora: int)
    requires ValidConfig(c) && Contado(c, s) && Habilitado(c, s, Avancar(p, ok, agora))
    ensures Contado(c, Aplica(c, s, Avancar(p, ok, agora)))
  {
    var r, pc := s.procs[p].run, s.procs[p].pc;
    assert Conhece(c, s, p) && LinhaOk(c, s, r);
    PassoConta(c, s.runs[r], pc, ok);
    var e := Passo(c, s.runs[r], pc, ok);
    EffectCounts(c, s, p, e, agora);
  }

  /** The effect of such a statement, whatever it is. */
  lemma EffectCounts(c: Config, s: State, p: nat, e: Efeito, agora: int)
    requires Contado(c, s) && p in s.procs && s.procs[p].run in s.runs
    requires RowOk(c, e.row) && e.row.status != Created
    requires var pc, row := s.procs[p].pc, s.runs[s.procs[p].run];
             && (Decide(e.pc) ==> Decidindo(c, e.pc, e.row) && (Decide(pc) || row.status == Running))
             && (row.status == Failed && !Decide(pc) ==> e.row == row && !Decide(e.pc))
    ensures Contado(c, Aplicado(s, p, e, agora))
  {
    var s', r := Aplicado(s, p, e, agora), s.procs[p].run;
    forall u | u in s'.runs ensures LinhaOk(c, s', u) { assert u != r ==> LinhaOk(c, s, u); }
    forall q | q in s'.procs ensures Conhece(c, s', q) {
      assert Conhece(c, s, q);
      if q != p && s.procs[q].run == r && Decide(s.procs[q].pc) { SoleDecider(c, s, p, q, r); }
    }
    forall i | i in s'.fila ensures ItemOk(s', i) { assert ItemOk(s, i); }
    forall q1: nat, q2: nat, u | DecideDe(s', q1, u) && DecideDe(s', q2, u) ensures q1 == q2 {
      assert q1 != p ==> DecideDe(s, q1, u);
      assert q2 != p ==> DecideDe(s, q2, u);
      if q1 != q2 && (q1 == p || q2 == p) { SoleDecider(c, s, p, if q1 == p then q2 else q1, r); }
    }
  }

  lemma SoleDecider(c: Config, s: State, p: nat, q: nat, r: RunId)
    requires Contado(c, s) && p in s.procs && s.procs[p].run == r && p != q && DecideDe(s, q, r)
    ensures r in s.runs && s.runs[r].status == Failed && !Decide(s.procs[p].pc)
  {
    assert Conhece(c, s, q);
    if Decide(s.procs[p].pc) { assert DecideDe(s, p, r); }
  }

  /** Steps that change no row, and let nobody begin to decide. */
  lemma QuietStepCounts(c: Config, s: State, s': State)
    requires Contado(c, s) && s'.runs == s.runs
    requires forall i :: i in s'.fila ==> (i in s.fila && s'.fila[i].run == s.fila[i].run) || s'.fila[i].run in s.enfileirando
    requires s'.enfileirando <= s.enfileirando
    requires forall p :: p in s'.procs ==>
               if p in s.procs then s'.procs[p].run == s.procs[p].run && (s'.procs[p].pc == s.procs[p].pc || !Decide(s'.procs[p].pc))
               else !Decide(s'.procs[p].pc) && exists i :: i in s.fila && s.fila[i].run == s'.procs[p].run
    ensures Contado(c, s')
  {
    forall r | r in s'.runs ensures LinhaOk(c, s', r) { assert LinhaOk(c, s, r); }
    forall p | p in s'.procs ensures Conhece(c, s', p) {
      if p in s.procs {
        assert Conhece(c, s, p);
      } else {
        var i :| i in s.fila && s.fila[i].run == s'.procs[p].run;
        assert ItemOk(s, i);
      }
    }
    forall i | i in s'.fila ensures ItemOk(s', i) { assert i in s.fila ==> ItemOk(s, i); }
    forall p, q, r | DecideDe(s', p, r) && DecideDe(s', q, r) ensures p == q {
      assert DecideDe(s, p, r) && DecideDe(s, q, r);
    }
  }

  /** A status write from outside: the scheduler's queued, or a cancellation. Neither is
      possible on a failed run. */
  lemma WriteCounts(c: Config, s: State, s': State, r: RunId, para: Status)
    requires ValidConfig(c) && Contado(c, s) && r in s.runs && s.runs[r].status != Failed
    requires (para == Queued && s.runs[r].status == Created) || (para == Canceled && PodeIr(s.runs[r].status, para))
    requires s'.runs == s.runs[r := Grava(s.runs[r], para)] && s'.procs == s.procs && s'.fila == s.fila
    requires s'.enfileirando <= s.enfileirando + {r}
    ensures Contado(c, s')
  {
    assert LinhaOk(c, s, r);
    forall u | u in s'.runs ensures LinhaOk(c, s', u) { assert u != r ==> LinhaOk(c, s, u); }
    forall p | p in s'.procs ensures Conhece(c, s', p) { assert Conhece(c, s, p); }
    forall i | i in s'.fila ensures ItemOk(s', i) { assert ItemOk(s, i); }
    forall p, q, u | DecideDe(s', p, u) && DecideDe(s', q, u) ensures p == q {
      assert DecideDe(s, p, u) && DecideDe(s, q, u);
    }
  }

  lemma CriarCounts(c: Config, s: State, r: RunId)
    requires ValidConfig(c) && Contado(c, s) && r !in s.runs
    ensures Contado(c, Aplica(c, s, Criar(r)))
  {
    var s' := Aplica(c, s, Criar(r));
    forall u | u in s'.runs ensures LinhaOk(c, s', u) { assert u != r ==> LinhaOk(c, s, u); }
    forall p | p in s'.procs ensures Conhece(c, s', p) { assert Conhece(c, s, p); }
    forall i | i in s'.fila ensures ItemOk(s', i) { assert ItemOk(s, i); }
    forall p, q, u | DecideDe(s', p, u) && DecideDe(s', q, u) ensures p == q {
      assert DecideDe(s, p, u) && DecideDe(s, q, u);
    }
  }

  /** Every step keeps it; nothing is assumed of deaths, recoveries or the database. */
  lemma StepCounts(c: Config, s: State, step: Step)
    requires ValidConfig(c) && Contado(c, s) && Habilitado(c, s, step)
    ensures Contado(c, Aplica(c, s, step))
  {
    match step
    case Criar(r) => CriarCounts(c, s, r);
    case MarcarQueued(r) => WriteCounts(c, s, Aplica(c, s, step), r, Queued);
    case Cancelar(r) => WriteCounts(c, s, Aplica(c, s, step), r, Canceled);
    case Avancar(p, ok, agora) => AvancarCounts(c, s, p, ok, agora);
    case Morrer(p) => MoveCounts(c, s, p, Morto);
    case ErroDeBanco(p) => MoveCounts(c, s, p, AposErro(s.procs[p].pc));
    case Reivindicar(i, p, agora) => ClaimCounts(c, s, i, p, agora);
    case Recuperar(i, p) => RecoverCounts(c, s, i, p);
    case _ => QuietStepCounts(c, s, Aplica(c, s, step));
  }

  lemma MoveCounts(c: Config, s: State, p: nat, pc: Pc)
    requires Contado(c, s) && p in s.procs && !Decide(pc)
    ensures Contado(c, Vai(s, p, pc))
  {
    QuietStepCounts(c, s, Vai(s, p, pc));
  }

  lemma ClaimCounts(c: Config, s: State, i: nat, p: nat, agora: int)
    requires Contado(c, s) && Habilitado(c, s, Reivindicar(i, p, agora))
    ensures Contado(c, Aplica(c, s, Reivindicar(i, p, agora)))
  {
    QuietStepCounts(c, s, Aplica(c, s, Reivindicar(i, p, agora)));
  }

  lemma RecoverCounts(c: Config, s: State, i: nat, p: nat)
    requires Contado(c, s) && Habilitado(c, s, Recuperar(i, p))
    ensures Contado(c, Aplica(c, s, Recuperar(i, p)))
  {
    QuietStepCounts(c, s, Aplica(c, s, Recuperar(i, p)));
  }

  lemma {:induction false} AlwaysCounted(c: Config, states: seq<State>, steps: seq<Step>, k: nat)
    requires ValidConfig(c) && Trace(c, states, steps) && k < |states|
    ensures Contado(c, states[k])
  {
    if k > 0 {
      AlwaysCounted(c, states, steps, k - 1);
      StepCounts(c, states[k - 1], steps[k - 1]);
    }
  }
}
