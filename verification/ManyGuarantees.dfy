/** What the fan-out of sdk/from/many.go promises, for every schedule of its goroutines. */
module ManyGuarantees {
  import opened Many
  import opened Sums

  function Etiqueta(i: nat, regs: seq<string>): seq<(nat, string)> {
    seq(|regs|, k requires 0 <= k < |regs| => (i, regs[k]))
  }

  /** The records of each source before its first error. */
  function Partes(fontes: seq<Fonte>): (ps: seq<seq<string>>)
    ensures |ps| == |fontes|
  {
    seq(|fontes|, i requires 0 <= i < |fontes| => Regs(Lidos(fontes[i])))
  }

  /** The plain concatenation of the first `n` parts. */
  function Junta(ps: seq<seq<string>>, n: nat): seq<(nat, string)>
    requires n <= |ps|
  {
    if n == 0 then [] else Junta(ps, n - 1) + Etiqueta(n - 1, ps[n - 1])
  }

  function Todos(fontes: seq<Fonte>): seq<(nat, string)> {
    Junta(Partes(fontes), |fontes|)
  }

  // ---- what a list of tagged records is --------------------------------

  lemma {:induction false} DeAppend(a: seq<(nat, string)>, b: seq<(nat, string)>, i: nat)
    ensures De(a + b, i) == De(a, i) + De(b, i)
  {
    if b == [] {
      assert a + b == a;
    } else {
      var n := |b| - 1;
      DeAppend(a, b[..n], i);
      assert (a + b)[..|a + b| - 1] == a + b[..n];
    }
  }

  lemma {:induction false} DeEtiqueta(j: nat, regs: seq<string>, i: nat)
    ensures De(Etiqueta(j, regs), i) == if i == j then regs else []
  {
    if regs != [] {
      var n := |regs| - 1;
      DeEtiqueta(j, regs[..n], i);
      assert Etiqueta(j, regs)[..n] == Etiqueta(j, regs[..n]);
      assert regs == regs[..n] + [regs[n]];
    }
  }

  lemma DeOfNextPart(c: seq<(nat, string)>, a: seq<(nat, string)>, j: nat, regs: seq<string>, i: nat)
    requires c == a + Etiqueta(j, regs)
    ensures De(c, i) == De(a, i) + if i == j then regs else []
  {
    DeAppend(a, Etiqueta(j, regs), i);
    DeEtiqueta(j, regs, i);
  }

  lemma {:induction false} DeJunta(ps: seq<seq<string>>, n: nat, i: nat)
    requires n <= |ps|
    ensures De(Junta(ps, n), i) == if i < n then ps[i] else []
  {
    var k := 0;
    var a: seq<(nat, string)> := [];
    while k < n
      invariant k <= n && a == Junta(ps, k)
      invariant De(a, i) == if i < k then ps[i] else []
    {
      var b := a + Etiqueta(k, ps[k]);
      DeOfNextPart(b, a, k, ps[k], i);
      a, k := b, k + 1;
    }
  }

  lemma {:induction false} BagOf(a: seq<(nat, string)>, e: (nat, string))
    ensures multiset(a)[e] == multiset(De(a, e.0))[e.1]
  {
    if a != [] {
      var antes, f := a[..|a| - 1], a[|a| - 1];
      BagOf(antes, e);
      assert a == antes + [f];
      BagOfOne(De(antes, e.0), f, e);
    }
  }

  lemma BagOfOne(regs: seq<string>, f: (nat, string), e: (nat, string))
    ensures multiset(regs + (if f.0 == e.0 then [f.1] else []))[e.1] == multiset(regs)[e.1] + if f == e then 1 else 0
  {
  }

  /** Lists whose records agree source by source are permutations of each other. */
  lemma SameSourcesSameBag(a: seq<(nat, string)>, b: seq<(nat, string)>)
    requires forall i: nat :: De(a, i) == De(b, i)
    ensures multiset(a) == multiset(b)
  {
    forall e: (nat, string) ensures multiset(a)[e] == multiset(b)[e] {
      BagOf(a, e);
      BagOf(b, e);
    }
  }

  lemma {:induction false} RegsPrefix(evs: seq<Ev>, k: nat)
    requires k <= |evs|
    ensures RegsAte(evs, k) <= Regs(evs)
    decreases |evs| - k
  {
    if k < |evs| {
      RegsPrefix(evs, k + 1);
      assert RegsAte(evs, k) <= RegsAte(evs, k + 1);
    }
  }

  // ---- invariants of whole runs ------------------------------------------

  ghost predicate Policy(s: State) {
    && (forall k :: 0 <= k < |s.entregues| ==> s.entregues[k].0 < |s.fontes|)
    && (s.abortou ==> !s.continua && exists i :: Errou(s, i))
    && (!s.cancelado && !s.continua ==> forall i :: !Errou(s, i))
  }

  ghost predicate Errou(s: State, i: int) {
    0 <= i < |s.fontes| == |s.visto| && s.visto[i] <= |Lidos(s.fontes[i])| &&
    TemErroAte(Lidos(s.fontes[i]), s.visto[i])
  }

  /** The sources whose error was seen: a new one exactly when the event looked at is one. */
  lemma ErrorsSeen(s: State, s': State, i: nat)
    requires i < |s.fontes| == |s.visto| && s'.fontes == s.fontes && s.visto[i] < |Lidos(s.fontes[i])|
    requires s'.visto == s.visto[i := s.visto[i] + 1]
    ensures forall j :: j != i ==> Errou(s', j) == Errou(s, j)
    ensures Errou(s', i) <==> Lidos(s.fontes[i])[s.visto[i]].Erro?
  {
    LidosErrorIsLast(s.fontes[i]);
    TemErroTake(Lidos(s.fontes[i]), s.visto[i]);
  }

  lemma StepKeepsPolicy(s: State, step: Step)
    requires Inv(s) && Policy(s) && Habilitado(s, step)
    ensures Policy(Aplica(s, step))
  {
    if step.Enviar? && s.coletor == Consumindo {
      CollectKeepsPolicy(s, step);
    } else {
      var s' := Aplica(s, step);
      assert s'.visto == s.visto && s'.entregues == s.entregues && s'.abortou == s.abortou;
      assert forall j :: Errou(s', j) == Errou(s, j);
    }
  }

  lemma CollectKeepsPolicy(s: State, step: Step)
    requires Inv(s) && Policy(s) && Habilitado(s, step) && step.Enviar? && s.coletor == Consumindo
    ensures Policy(Aplica(s, step))
  {
    var i := s.ws[step.w].i;
    assert FonteOk(s, i);
    ErrorsSeen(s, Aplica(s, step), i);
  }

  /** Nobody but the collector cancels: as long as the consumer wants more, the reading
      is cancelled only by an abort. */
  predicate QuerTudo(steps: seq<Step>) {
    forall k :: 0 <= k < |steps| && steps[k].Enviar? ==> steps[k].quer
  }

  lemma CancelIsAbort(s: State, step: Step)
    requires Habilitado(s, step) && (step.Enviar? ==> step.quer) && (s.cancelado <==> s.abortou)
    ensures Aplica(s, step).cancelado <==> Aplica(s, step).abortou
  {
  }

  lemma {:induction false} ReachablePolicy(states: seq<State>, steps: seq<Step>, k: nat)
    requires Trace(states, steps) && k < |states|
    ensures Inv(states[k]) && Policy(states[k])
    ensures QuerTudo(steps) ==> (states[k].cancelado <==> states[k].abortou)
  {
    Reachable(states, steps, k);
    if k > 0 {
      ReachablePolicy(states, steps, k - 1);
      var s, step := states[k - 1], steps[k - 1];
      StepKeepsPolicy(s, step);
      if QuerTudo(steps) { CancelIsAbort(s, step); }
    }
  }

  lemma FinishedReadEverything(s: State, i: nat)
    requires Inv(s) && s.coletor == Terminado && !s.cancelado && i < |s.fontes|
    ensures s.visto[i] == |Lidos(s.fontes[i])|
  {
    assert FonteOk(s, i);
    assert s.ws[0] == Saiu;
    assert forall w: nat :: !Le(s, w, i);
  }

  // ---- the guarantees ----------------------------------------------------

  /** Completeness: under the tolerant policy, if the consumer wants every record, a
      finished reading delivered, whatever the schedule, exactly the records of each
      source before its first error: nothing lost or duplicated, order kept within a
      source, and each failing source recorded exactly once. */
  lemma FanOutIsComplete(states: seq<State>, steps: seq<Step>, k: nat)
    requires Trace(states, steps) && QuerTudo(steps) && k < |states|
    requires states[k].continua && states[k].coletor == Terminado
    ensures var s, fontes := states[k], states[0].fontes;
      && (forall i :: 0 <= i < |fontes| ==> De(s.entregues, i) == Regs(Lidos(fontes[i])))
      && multiset(s.entregues) == multiset(Todos(fontes))
      && (forall i :: 0 <= i < |fontes| ==> Vezes(s.falhas, i) == if TemErro(Lidos(fontes[i])) then 1 else 0)
  {
    var s := states[k];
    Reachable(states, steps, k);
    ReachablePolicy(states, steps, k);
    forall i | 0 <= i < |s.fontes|
      ensures De(s.entregues, i) == Regs(Lidos(s.fontes[i]))
      ensures Vezes(s.falhas, i) == if TemErro(Lidos(s.fontes[i])) then 1 else 0
    {
      FinishedReadEverything(s, i);
      assert FonteOk(s, i);
    }
    DeliveredIsTodos(s);
  }

  lemma {:induction false} NothingFromElsewhere(a: seq<(nat, string)>, i: nat)
    requires forall k :: 0 <= k < |a| ==> a[k].0 != i
    ensures De(a, i) == []
  {
    if a != [] { NothingFromElsewhere(a[..|a| - 1], i); }
  }

  lemma DeliveredIsTodos(s: State)
    requires Policy(s) && forall i :: 0 <= i < |s.fontes| ==> De(s.entregues, i) == Regs(Lidos(s.fontes[i]))
    ensures multiset(s.entregues) == multiset(Todos(s.fontes))
  {
    forall i: nat ensures De(s.entregues, i) == De(Todos(s.fontes), i) {
      DeJunta(Partes(s.fontes), |s.fontes|, i);
      if i >= |s.fontes| { NothingFromElsewhere(s.entregues, i); }
    }
    SameSourcesSameBag(s.entregues, Todos(s.fontes));
  }

  /** The strict policy, with a consumer that wants everything: a finished reading
      aborted exactly when some source fails, and otherwise it delivered everything. */
  lemma AbortsIffSomeSourceFails(states: seq<State>, steps: seq<Step>, k: nat)
    requires Trace(states, steps) && QuerTudo(steps) && k < |states|
    requires !states[k].continua && states[k].coletor == Terminado
    ensures var s, fontes := states[k], states[0].fontes;
      && (s.abortou <==> exists i :: 0 <= i < |fontes| && TemErro(Lidos(fontes[i])))
      && (!s.abortou ==> multiset(s.entregues) == multiset(Todos(fontes)))
  {
    var s := states[k];
    Reachable(states, steps, k);
    ReachablePolicy(states, steps, k);
    if s.abortou {
      var i :| Errou(s, i);
      var e :| 0 <= e < s.visto[i] && Lidos(s.fontes[i])[e].Erro?;
      assert Lidos(s.fontes[i])[e].Erro?;
    } else {
      forall i | 0 <= i < |s.fontes|
        ensures De(s.entregues, i) == Regs(Lidos(s.fontes[i])) && !TemErro(Lidos(s.fontes[i]))
      {
        FinishedReadEverything(s, i);
        assert FonteOk(s, i) && !Errou(s, i);
        }
      DeliveredIsTodos(s);
    }
  }

  /** Always, even after an abort, an early stop or in mid-run: what came from a source
      is a prefix of its records, in its order. */
  lemma DeliveredIsAlwaysAPrefix(states: seq<State>, steps: seq<Step>, k: nat, i: nat)
    requires Trace(states, steps) && k < |states| && i < |states[k].fontes|
    ensures De(states[k].entregues, i) <= Regs(Lidos(states[k].fontes[i]))
  {
    Reachable(states, steps, k);
    assert FonteOk(states[k], i);
    RegsPrefix(Lidos(states[k].fontes[i]), states[k].visto[i]);
  }

  /** Once cancelled, the consumer never gets another record and no failure is added. */
  lemma {:induction false} NothingAfterTheEnd(states: seq<State>, steps: seq<Step>, k: nat, m: nat)
    requires Trace(states, steps) && k <= m < |states| && states[k].cancelado
    ensures states[m].cancelado && states[m].abortou == states[k].abortou
    ensures states[m].entregues == states[k].entregues && states[m].falhas == states[k].falhas
  {
    if k < m {
      NothingAfterTheEnd(states, steps, k, m - 1);
      Reachable(states, steps, m - 1);
      assert states[m] == Aplica(states[m - 1], steps[m - 1]);
    }
  }

  lemma {:induction false} FailuresAreAll(falhas: seq<nat>, n: nat)
    requires |falhas| == n && forall i :: 0 <= i < n ==> Vezes(falhas, i) <= 1
    requires forall k :: 0 <= k < |falhas| ==> falhas[k] < n
    ensures forall i :: 0 <= i < n ==> Vezes(falhas, i) == 1
  {
    SumOfTimes(falhas, n);
    if i :| 0 <= i < n && Vezes(falhas, i) == 0 {
      SumOfFew(falhas, n, i);
    }
  }

  function SomaVezes(falhas: seq<nat>, n: nat): nat {
    if n == 0 then 0 else SomaVezes(falhas, n - 1) + Vezes(falhas, n - 1)
  }

  lemma {:induction false} SumOfTimes(falhas: seq<nat>, n: nat)
    requires forall k :: 0 <= k < |falhas| ==> falhas[k] < n
    ensures SomaVezes(falhas, n) == |falhas|
  {
    if falhas == [] {
      SumOfNone(n);
    } else {
      var m := |falhas| - 1;
      SumOfTimes(falhas[..m], n);
      SumOfSnoc(falhas, n);
    }
  }

  lemma {:induction false} SumOfNone(n: nat)
    ensures SomaVezes([], n) == 0
  {
    if n > 0 { SumOfNone(n - 1); }
  }

  lemma {:induction false} SumOfSnoc(falhas: seq<nat>, n: nat)
    requires falhas != []
    ensures SomaVezes(falhas, n) == SomaVezes(falhas[..|falhas| - 1], n) + if falhas[|falhas| - 1] < n then 1 else 0
  {
    if n > 0 { SumOfSnoc(falhas, n - 1); }
  }

  lemma {:induction false} SumOfFew(falhas: seq<nat>, n: nat, i: nat)
    requires forall j :: 0 <= j < n ==> Vezes(falhas, j) <= 1
    ensures SomaVezes(falhas, n) <= n
    ensures i < n && Vezes(falhas, i) == 0 ==> SomaVezes(falhas, n) < n
  {
    if n > 0 { SumOfFew(falhas, n - 1, i); }
  }

  lemma {:induction false} FailuresAreSources(states: seq<State>, steps: seq<Step>, k: nat)
    requires Trace(states, steps) && k < |states|
    ensures forall j :: 0 <= j < |states[k].falhas| ==> states[k].falhas[j] < |states[k].fontes|
  {
    if k > 0 {
      FailuresAreSources(states, steps, k - 1);
      Reachable(states, steps, k - 1);
      var step := steps[k - 1];
      assert states[k] == Aplica(states[k - 1], step);
    }
  }

  /** The final error is raised exactly when every source failed before its first record. */
  lemma AllFailedIff(states: seq<State>, steps: seq<Step>, k: nat)
    requires Trace(states, steps) && QuerTudo(steps) && k < |states|
    requires states[k].continua && states[k].coletor == Terminado
    ensures var s := states[k];
      TodasFalharam(s) <==> forall i :: 0 <= i < |s.fontes| ==> Regs(Lidos(s.fontes[i])) == [] && TemErro(Lidos(s.fontes[i]))
  {
    FanOutIsComplete(states, steps, k);
    Reachable(states, steps, k);
    ReachablePolicy(states, steps, k);
    FailuresAreSources(states, steps, k);
    CompleteAllFailedIff(states[k]);
  }

  lemma CompleteAllFailedIff(s: State)
    requires Policy(s) && s.continua && (forall j :: 0 <= j < |s.falhas| ==> s.falhas[j] < |s.fontes|)
    requires forall i :: 0 <= i < |s.fontes| ==> De(s.entregues, i) == Regs(Lidos(s.fontes[i]))
    requires forall i :: 0 <= i < |s.fontes| ==> Vezes(s.falhas, i) == if TemErro(Lidos(s.fontes[i])) then 1 else 0
    ensures TodasFalharam(s) <==> forall i :: 0 <= i < |s.fontes| ==> Regs(Lidos(s.fontes[i])) == [] && TemErro(Lidos(s.fontes[i]))
  {
    if TodasFalharam(s) {
      FailuresAreAll(s.falhas, |s.fontes|);
      forall i | 0 <= i < |s.fontes| ensures Regs(Lidos(s.fontes[i])) == [] && TemErro(Lidos(s.fontes[i])) {
        assert De([], i) == [];
        assert Vezes(s.falhas, i) == 1;
      }
    }
    if forall i :: 0 <= i < |s.fontes| ==> Regs(Lidos(s.fontes[i])) == [] && TemErro(Lidos(s.fontes[i])) {
      AllSilentAllFailed(s);
    }
  }

  lemma AllSilentAllFailed(s: State)
    requires Policy(s) && s.continua && (forall j :: 0 <= j < |s.falhas| ==> s.falhas[j] < |s.fontes|)
    requires forall i :: 0 <= i < |s.fontes| ==> De(s.entregues, i) == [] && Vezes(s.falhas, i) == 1
    ensures TodasFalharam(s)
  {
    EveryoneSilent(s);
    SumOfTimes(s.falhas, |s.fontes|);
    SumOfOnes(s.falhas, |s.fontes|);
  }

  lemma EveryoneSilent(s: State)
    requires Policy(s) && forall i :: 0 <= i < |s.fontes| ==> De(s.entregues, i) == []
    ensures s.entregues == []
  {
    if s.entregues != [] {
      var e := s.entregues[|s.entregues| - 1];
      assert De(s.entregues, e.0) == De(s.entregues[..|s.entregues| - 1], e.0) + [e.1];
    }
  }

  lemma {:induction false} SumOfOnes(falhas: seq<nat>, n: nat)
    requires forall j :: 0 <= j < n ==> Vezes(falhas, j) == 1
    ensures SomaVezes(falhas, n) == n
  {
    if n > 0 { SumOfOnes(falhas, n - 1); }
  }

  // ---- a single worker ---------------------------------------------------

  /** The first `i` parts and the beginning `regs` of the next. */
  function Ate(ps: seq<seq<string>>, i: nat, regs: seq<string>): seq<(nat, string)>
    requires i <= |ps|
  {
    Junta(ps, i) + Etiqueta(i, regs)
  }

  lemma {:induction false} JuntaPrefix(ps: seq<seq<string>>, n: nat)
    requires n <= |ps|
    ensures Junta(ps, n) <= Junta(ps, |ps|)
  {
    var k := n;
    var a := Junta(ps, n);
    var b := a;
    while k < |ps|
      invariant n <= k <= |ps| && b == Junta(ps, k) && a <= b
    {
      b := b + Etiqueta(k, ps[k]);
      k := k + 1;
    }
  }

  lemma AtePrefix(ps: seq<seq<string>>, i: nat, regs: seq<string>)
    requires i < |ps| && regs <= ps[i]
    ensures Ate(ps, i, regs) <= Junta(ps, |ps|)
    ensures regs == ps[i] ==> Ate(ps, i, regs) == Junta(ps, i + 1)
  {
    assert Etiqueta(i, regs) <= Etiqueta(i, ps[i]);
    JuntaPrefix(ps, i + 1);
  }

  /** `ps` holds the records of each source. */
  ghost predicate SaoPartes(ps: seq<seq<string>>, fontes: seq<Fonte>) {
    |ps| == |fontes| && forall i {:trigger Parte(ps, fontes, i)} :: 0 <= i < |fontes| ==> Parte(ps, fontes, i)
  }

  ghost predicate Parte(ps: seq<seq<string>>, fontes: seq<Fonte>, i: nat)
    requires i < |ps| == |fontes|
  {
    ps[i] == Regs(Lidos(fontes[i]))
  }

  /** With one worker, what was delivered is the concatenation up to where it reads. */
  ghost predicate EmOrdem(s: State, ps: seq<seq<string>>) {
    && |s.ws| == 1 && |s.visto| == |s.fontes| == |ps| && s.prox <= |s.fontes|
    && (s.cancelado ==> s.entregues <= Junta(ps, |ps|))
    && (!s.cancelado && !s.ws[0].Lendo? ==> s.entregues == Junta(ps, s.prox))
    && (!s.cancelado && s.ws[0].Lendo? ==> LeEmOrdem(s, ps, s.ws[0].i))
  }

  ghost predicate LeEmOrdem(s: State, ps: seq<seq<string>>, i: nat)
    requires |s.visto| == |s.fontes| == |ps|
  {
    i + 1 == s.prox <= |s.fontes| && s.visto[i] <= |Lidos(s.fontes[i])| &&
    s.entregues == Ate(ps, i, RegsAte(Lidos(s.fontes[i]), s.visto[i]))
  }

  /** What the invariant says of the one worker, when it reads. */
  ghost predicate UmLendo(s: State, i: nat) {
    && |s.ws| == 1 && s.ws[0] == Lendo(i) && i < |s.fontes| == |s.lido| == |s.visto|
    && s.lido[i] <= |Lidos(s.fontes[i])|
    && (s.cancelado <==> s.coletor != Consumindo)
    && (!s.cancelado ==> s.visto[i] == s.lido[i])
  }

  lemma ReaderFacts(s: State, i: nat)
    requires Inv(s) && |s.ws| == 1 && s.ws[0] == Lendo(i)
    ensures UmLendo(s, i)
  {
    assert Le(s, 0, i);
    assert FonteOk(s, i);
    assert s.ws[0] != Saiu;
  }

  /** One more event of source `i`: at most one more record, and still a prefix of all. */
  lemma AteNext(ps: seq<seq<string>>, evs: seq<Ev>, i: nat, k: nat)
    requires i < |ps| && ps[i] == Regs(evs) && k < |evs|
    ensures var antes := Ate(ps, i, RegsAte(evs, k));
      var depois := if evs[k].Reg? then antes + [(i, evs[k].v)] else antes;
      Ate(ps, i, RegsAte(evs, k + 1)) == depois && depois <= Junta(ps, |ps|)
  {
    RegsPrefix(evs, k + 1);
    OneTagMore(i, RegsAte(evs, k), evs[k]);
    AtePrefix(ps, i, RegsAte(evs, k + 1));
  }

  lemma OneTagMore(i: nat, regs: seq<string>, ev: Ev)
    ensures Etiqueta(i, regs + (if ev.Reg? then [ev.v] else [])) ==
            if ev.Reg? then Etiqueta(i, regs) + [(i, ev.v)] else Etiqueta(i, regs)
  {
  }

  lemma OrderTomou(s: State, s': State, ps: seq<seq<string>>, i: nat)
    requires SaoPartes(ps, s.fontes) && UmLendo(s, i) && EmOrdem(s, ps) && Tomou(s, s', i)
    ensures EmOrdem(s', ps)
  {
    if s.coletor == Consumindo {
      assert Parte(ps, s.fontes, i);
      AteNext(ps, Lidos(s.fontes[i]), i, s.lido[i]);
      assert s'.entregues == Ate(ps, i, RegsAte(Lidos(s.fontes[i]), s.lido[i] + 1));
    }
  }

  lemma OrderAcabar(s: State, ps: seq<seq<string>>, i: nat, step: Step)
    requires SaoPartes(ps, s.fontes) && UmLendo(s, i) && EmOrdem(s, ps) && step.AcabarFonte? && Habilitado(s, step)
    ensures EmOrdem(Aplica(s, step), ps)
  {
    if !s.cancelado {
      assert Parte(ps, s.fontes, i);
      AtePrefix(ps, i, ps[i]);
    }
  }

  lemma OrderAlimentar(s: State, ps: seq<seq<string>>, step: Step)
    requires |s.visto| == |s.fontes| == |s.lido| && step.Alimentar? && Habilitado(s, step) && EmOrdem(s, ps)
    requires s.visto[s.prox] == 0
    ensures EmOrdem(Aplica(s, step), ps)
  {
    var evs := Lidos(s.fontes[s.prox]);
    assert RegsAte(evs, 0) == [] && Etiqueta(s.prox, []) == [];
  }

  lemma StepKeepsOrder(s: State, ps: seq<seq<string>>, step: Step)
    requires Inv(s) && SaoPartes(ps, s.fontes) && EmOrdem(s, ps) && Habilitado(s, step)
    ensures EmOrdem(Aplica(s, step), ps)
  {
    match step
    case Enviar(w, quer) =>
      ReaderFacts(s, s.ws[0].i);
      EnviarEffect(s, w, quer);
      OrderTomou(s, Aplica(s, step), ps, s.ws[0].i);
    case AcabarFonte(_) =>
      ReaderFacts(s, s.ws[0].i);
      OrderAcabar(s, ps, s.ws[0].i, step);
    case Alimentar(_) =>
      assert FonteOk(s, s.prox);
      OrderAlimentar(s, ps, step);
    case _ =>
  }

  lemma {:induction false} OrderReachable(states: seq<State>, steps: seq<Step>, k: nat, ps: seq<seq<string>>)
    requires Trace(states, steps) && |states[0].ws| == 1 && k < |states| && SaoPartes(ps, states[0].fontes)
    ensures EmOrdem(states[k], ps)
  {
    if k > 0 {
      OrderReachable(states, steps, k - 1, ps);
      Reachable(states, steps, k - 1);
      StepKeepsOrder(states[k - 1], ps, steps[k - 1]);
    }
  }

  lemma OrderIsAPrefix(s: State, ps: seq<seq<string>>)
    requires EmOrdem(s, ps) && SaoPartes(ps, s.fontes)
    ensures s.entregues <= Junta(ps, |ps|)
  {
    JuntaPrefix(ps, s.prox);
    if s.ws[0].Lendo? && !s.cancelado {
      var i := s.ws[0].i;
      assert Parte(ps, s.fontes, i);
      RegsPrefix(Lidos(s.fontes[i]), s.visto[i]);
      AtePrefix(ps, i, RegsAte(Lidos(s.fontes[i]), s.visto[i]));
    }
  }

  /** One worker reads the sources one after the other: at any moment the consumer has
      seen a prefix of the plain concatenation, and at the end all of it, unless the
      reading was cut short. */
  lemma OneWorkerConcatenates(states: seq<State>, steps: seq<Step>, k: nat)
    requires Trace(states, steps) && |states[0].ws| == 1 && k < |states|
    ensures states[k].entregues <= Todos(states[0].fontes)
    ensures states[k].coletor == Terminado && !states[k].cancelado ==>
              states[k].entregues == Todos(states[0].fontes)
  {
    var ps := Partes(states[0].fontes);
    assert SaoPartes(ps, states[0].fontes);
    Reachable(states, steps, k);
    OrderReachable(states, steps, k, ps);
    OrderIsAPrefix(states[k], ps);
    assert states[k].coletor == Terminado && !states[k].cancelado ==> states[k].prox == |ps| && states[k].ws[0] == Saiu;
  }

  // ---- everybody ends ----------------------------------------------------

  predicate TodosSairam(s: State) {
    s.coletor == Terminado && !s.filaAberta && forall w :: 0 <= w < |s.ws| ==> s.ws[w] == Saiu
  }

  /** Never stuck and never leaking: some goroutine can move until the feeder, every
      worker and the collector have all ended, and then nobody can. */
  lemma EndsTogether(s: State)
    requires Inv(s)
    ensures TodosSairam(s) <==> forall step: Step :: !Habilitado(s, step)
  {
    if s.coletor != Terminado {
      if w :| 0 <= w < |s.ws| && s.ws[w] != Saiu {
        if s.ws[w].Lendo? {
          assert Le(s, w, s.ws[w].i);
          assert FonteOk(s, s.ws[w].i);
          assert Habilitado(s, Enviar(w, true)) || Habilitado(s, AcabarFonte(w));
        } else if !s.filaAberta {
          assert Habilitado(s, SairFila(w));
        } else {
          assert Habilitado(s, Alimentar(w)) || Habilitado(s, FecharFila);
        }
      } else {
        assert Habilitado(s, FecharSaida);
      }
    } else if s.filaAberta {
      assert s.ws[0] == Saiu;
      assert Habilitado(s, FecharFila);
    }
  }

  function PesoW(): Worker -> int {
    (w: Worker) => if w == Livre then 1 else if w.Lendo? then 2 else 0
  }

  function Id(): nat -> int {
    (n: nat) => n
  }

  function Tamanhos(fontes: seq<Fonte>): seq<nat> {
    seq(|fontes|, i requires 0 <= i < |fontes| => |Lidos(fontes[i])|)
  }

  function Peso(s: State): int {
    Soma(Id(), Tamanhos(s.fontes)) - Soma(Id(), s.lido) + 2 * (|s.fontes| - s.prox) + Soma(PesoW(), s.ws)
    + (if s.filaAberta then 1 else 0) + (if s.coletor == Terminado then 0 else 1)
  }

  lemma {:induction false} SomaLeq(a: seq<nat>, b: seq<nat>)
    requires |a| == |b| && forall i :: 0 <= i < |a| ==> a[i] <= b[i]
    ensures Soma(Id(), a) <= Soma(Id(), b)
  {
    if a != [] { SomaLeq(a[1..], b[1..]); }
  }

  lemma StepLowersWeight(s: State, step: Step)
    requires Inv(s) && Habilitado(s, step)
    ensures Peso(Aplica(s, step)) < Peso(s)
  {
    var s' := Aplica(s, step);
    if !step.FecharFila? && !step.FecharSaida? {
      SomaUpdate(PesoW(), s.ws, step.w, s'.ws[step.w]);
      assert s.ws[step.w := s.ws[step.w]] == s.ws;
    }
    if step.Enviar? || step.Desistir? {
      var i := s.ws[step.w].i;
      SomaUpdate(Id(), s.lido, i, s'.lido[i]);
    }
  }

  lemma WeightIsNonNegative(s: State)
    requires Inv(s)
    ensures 0 <= Peso(s)
  {
    forall i | 0 <= i < |s.lido| ensures s.lido[i] <= Tamanhos(s.fontes)[i] { assert FonteOk(s, i); }
    SomaLeq(s.lido, Tamanhos(s.fontes));
    SomaNonNegative(PesoW(), s.ws);
  }

  /** With EndsTogether: every schedule is finite, so it ends with everybody gone. */
  lemma {:induction false} SchedulesAreFinite(states: seq<State>, steps: seq<Step>, k: nat)
    requires Trace(states, steps) && k < |states|
    ensures 0 <= Peso(states[k]) <= Peso(states[0]) - k
  {
    Reachable(states, steps, k);
    WeightIsNonNegative(states[k]);
    if k > 0 {
      SchedulesAreFinite(states, steps, k - 1);
      WeightDrops(states, steps, k);
    }
  }

  lemma WeightDrops(states: seq<State>, steps: seq<Step>, k: nat)
    requires Trace(states, steps) && 0 < k < |states|
    ensures Peso(states[k]) < Peso(states[k - 1])
  {
    Reachable(states, steps, k - 1);
    StepLowersWeight(states[k - 1], steps[k - 1]);
  }
}
