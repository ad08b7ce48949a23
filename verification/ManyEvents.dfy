/** The guarantees of the fan-out on the events of the sources themselves: which of them
    reach the consumer, in which order, and which sources count as failed. */
module ManyEvents {
  import opened Many
  import opened ManyGuarantees

  // ---- what a worker sends -----------------------------------------------

  /** `e` is the first error of the events, or their number: the worker sends everything
      before it, and it. */
  lemma {:induction false} SentUpToError(evs: seq<Ev>, e: nat)
    requires e <= |evs| && (forall k :: 0 <= k < e ==> evs[k].Reg?) && (e < |evs| ==> evs[e].Erro?)
    ensures AteErro(evs) == if e < |evs| then evs[..e + 1] else evs
  {
    if evs != [] {
      if e > 0 {
        SentUpToError(evs[1..], e - 1);
        assert evs == [evs[0]] + evs[1..];
      }
    }
  }

  lemma {:induction false} RecordsOf(evs: seq<Ev>, k: nat)
    requires k <= |evs| && forall j :: 0 <= j < k ==> evs[j].Reg?
    ensures |RegsAte(evs, k)| == k && forall j :: 0 <= j < k ==> RegsAte(evs, k)[j] == evs[j].v
  {
    if k > 0 { RecordsOf(evs, k - 1); }
  }

  /** The records of a source are those before its first error. */
  lemma RecordsBeforeError(evs: seq<Ev>, e: nat)
    requires e <= |evs| && (forall k :: 0 <= k < e ==> evs[k].Reg?) && (e < |evs| ==> evs[e].Erro?)
    ensures var regs := Regs(Lidos(Abre(evs)));
      |regs| == e && forall k :: 0 <= k < e ==> regs[k] == evs[k].v
    ensures TemErro(Lidos(Abre(evs))) <==> e < |evs|
  {
    SentUpToError(evs, e);
    var sent := Lidos(Abre(evs));
    RecordsOf(sent, e);
    if e < |evs| { assert sent[e].Erro?; }
  }

  lemma NotOpened(msg: string)
    ensures Regs(Lidos(NaoAbre(msg))) == [] && TemErro(Lidos(NaoAbre(msg)))
  {
    assert Lidos(NaoAbre(msg))[0].Erro?;
    assert RegsAte([Erro(msg)], 1) == RegsAte([Erro(msg)], 0) + [];
  }

  // ---- what the consumer's lists say -------------------------------------

  /** The records delivered from one source are a filter of all delivered: nothing of the
      empty list, one of a list of one, and of two lists one after the other. */
  lemma DeliveredFrom(a: seq<(nat, string)>, b: seq<(nat, string)>, j: nat, v: string, i: nat)
    ensures De([], i) == [] && De([(j, v)], i) == (if i == j then [v] else [])
    ensures De(a + b, i) == De(a, i) + De(b, i)
  {
    DeSnoc([], (j, v), i);
    assert [] + [(j, v)] == [(j, v)];
    DeAppend(a, b, i);
  }

  lemma {:induction false} TimesIsCount(falhas: seq<nat>, i: nat)
    ensures Vezes(falhas, i) == multiset(falhas)[i]
  {
    if falhas != [] {
      TimesIsCount(falhas[..|falhas| - 1], i);
      assert falhas == falhas[..|falhas| - 1] + [falhas[|falhas| - 1]];
    }
  }

  /** How often a value stands in a list is how many places hold it. */
  lemma {:induction false} CountIsPlaces(s: seq<string>, v: string)
    ensures multiset(s)[v] == |set k | 0 <= k < |s| && s[k] == v|
  {
    if s != [] {
      var n := |s| - 1;
      CountIsPlaces(s[..n], v);
      assert s == s[..n] + [s[n]];
      var a, b := set k | 0 <= k < n && s[..n][k] == v, set k | 0 <= k < |s| && s[k] == v;
      assert b == if s[n] == v then a + {n} else a;
    }
  }

  // ---- the guarantees ----------------------------------------------------

  /** Completeness on the events. Under the tolerant policy, for a consumer that wants every
      record, a finished reading delivered of a source exactly the records before its first
      error, in their order and each as often as it stands there; the source is recorded as
      failed, once, exactly when it has an error. */
  lemma EveryRecordBeforeTheError(states: seq<State>, steps: seq<Step>, k: nat, i: nat, e: nat)
    requires Trace(states, steps) && QuerTudo(steps) && k < |states|
    requires states[k].continua && states[k].coletor == Terminado
    requires i < |states[0].fontes| && states[0].fontes[i].Abre?
    requires var evs := states[0].fontes[i].eventos;
      e <= |evs| && (forall j :: 0 <= j < e ==> evs[j].Reg?) && (e < |evs| ==> evs[e].Erro?)
    ensures var s, evs := states[k], states[0].fontes[i].eventos;
      && |De(s.entregues, i)| == e && (forall j :: 0 <= j < e ==> De(s.entregues, i)[j] == evs[j].v)
      && (forall v :: multiset(s.entregues)[(i, v)] == |set j | 0 <= j < e && evs[j] == Reg(v)|)
      && (i in s.falhas <==> e < |evs|) && multiset(s.falhas)[i] <= 1
  {
    var s, evs := states[k], states[0].fontes[i].eventos;
    FanOutIsComplete(states, steps, k);
    RecordsBeforeError(evs, e);
    TimesIsCount(s.falhas, i);
    assert i in s.falhas <==> multiset(s.falhas)[i] > 0;
    var d := De(s.entregues, i);
    forall v ensures multiset(s.entregues)[(i, v)] == |set j | 0 <= j < e && evs[j] == Reg(v)| {
      BagOf(s.entregues, (i, v));
      CountIsPlaces(d, v);
      assert (set j | 0 <= j < e && evs[j] == Reg(v)) == (set j | 0 <= j < |d| && d[j] == v);
    }
  }

  /** A source that does not open delivers nothing and is recorded, once. */
  lemma UnopenedIsRecorded(states: seq<State>, steps: seq<Step>, k: nat, i: nat)
    requires Trace(states, steps) && QuerTudo(steps) && k < |states|
    requires states[k].continua && states[k].coletor == Terminado
    requires i < |states[0].fontes| && states[0].fontes[i].NaoAbre?
    ensures (forall v :: (i, v) !in states[k].entregues) && multiset(states[k].falhas)[i] == 1
  {
    var s := states[k];
    FanOutIsComplete(states, steps, k);
    NotOpened(states[0].fontes[i].msg);
    TimesIsCount(s.falhas, i);
    forall v ensures (i, v) !in s.entregues {
      BagOf(s.entregues, (i, v));
      assert multiset(De(s.entregues, i))[v] == 0;
      assert (i, v) in s.entregues <==> multiset(s.entregues)[(i, v)] > 0;
    }
  }

  /** At every moment, after aborts and stops too, what came from a source are its first
      records, none of them behind an error. */
  lemma FirstRecordsOnly(states: seq<State>, steps: seq<Step>, k: nat, i: nat, e: nat)
    requires Trace(states, steps) && k < |states| && i < |states[0].fontes| && states[0].fontes[i].Abre?
    requires var evs := states[0].fontes[i].eventos;
      e <= |evs| && (forall j :: 0 <= j < e ==> evs[j].Reg?) && (e < |evs| ==> evs[e].Erro?)
    ensures var d, evs := De(states[k].entregues, i), states[0].fontes[i].eventos;
      |d| <= e && forall j :: 0 <= j < |d| ==> d[j] == evs[j].v
  {
    Reachable(states, steps, k);
    DeliveredIsAlwaysAPrefix(states, steps, k, i);
    RecordsBeforeError(states[0].fontes[i].eventos, e);
  }

  /** Some source fails exactly if one does not open or has an error among its events. */
  lemma FailsIff(f: Fonte)
    ensures TemErro(Lidos(f)) <==> f.NaoAbre? || exists j :: 0 <= j < |f.eventos| && f.eventos[j].Erro?
  {
    if f.NaoAbre? {
      NotOpened(f.msg);
    } else {
      RecordsBeforeError(f.eventos, FirstError(f.eventos));
    }
  }

  function FirstError(evs: seq<Ev>): (e: nat)
    ensures e <= |evs| && (forall k :: 0 <= k < e ==> evs[k].Reg?) && (e < |evs| ==> evs[e].Erro?)
  {
    if evs == [] || evs[0].Erro? then 0 else 1 + FirstError(evs[1..])
  }

  /** The strict policy on the events: aborted exactly when a source does not open or has an
      error. */
  lemma AbortsOnEvents(states: seq<State>, steps: seq<Step>, k: nat)
    requires Trace(states, steps) && QuerTudo(steps) && k < |states|
    requires !states[k].continua && states[k].coletor == Terminado
    ensures var fontes := states[0].fontes;
      states[k].abortou <==>
        exists i :: (0 <= i < |fontes| &&
                     (fontes[i].NaoAbre? || exists j :: 0 <= j < |fontes[i].eventos| && fontes[i].eventos[j].Erro?))
  {
    AbortsIffSomeSourceFails(states, steps, k);
    var fontes := states[0].fontes;
    forall i | 0 <= i < |fontes|
      ensures TemErro(Lidos(fontes[i])) <==>
                (fontes[i].NaoAbre? || exists j :: 0 <= j < |fontes[i].eventos| && fontes[i].eventos[j].Erro?)
    {
      FailsIff(fontes[i]);
    }
  }

  /** The final error on the events: every source fails to open, or begins with an error. */
  lemma AllFailedOnEvents(states: seq<State>, steps: seq<Step>, k: nat)
    requires Trace(states, steps) && QuerTudo(steps) && k < |states|
    requires states[k].continua && states[k].coletor == Terminado
    ensures var fontes := states[0].fontes;
      TodasFalharam(states[k]) <==>
        forall i :: 0 <= i < |fontes| ==> fontes[i].NaoAbre? || (fontes[i].eventos != [] && fontes[i].eventos[0].Erro?)
  {
    AllFailedIff(states, steps, k);
    Reachable(states, steps, k);
    var fontes := states[0].fontes;
    forall i | 0 <= i < |fontes|
      ensures Regs(Lidos(fontes[i])) == [] && TemErro(Lidos(fontes[i])) <==>
                fontes[i].NaoAbre? || (fontes[i].eventos != [] && fontes[i].eventos[0].Erro?)
    {
      if fontes[i].NaoAbre? { NotOpened(fontes[i].msg); }
      else { RecordsBeforeError(fontes[i].eventos, FirstError(fontes[i].eventos)); }
    }
  }

  // ---- the consumer stops ------------------------------------------------

  /** When the consumer answers that it wants no more, the record it was just given is the
      last: nothing is delivered or recorded after it, and the reading was not aborted. */
  lemma StopsWhenTold(states: seq<State>, steps: seq<Step>, k: nat, m: nat)
    requires Trace(states, steps) && k < m < |states| && steps[k].Enviar? && !steps[k].quer
    requires |states[k + 1].entregues| > |states[k].entregues|
    ensures states[m].entregues == states[k + 1].entregues && states[m].falhas == states[k + 1].falhas
    ensures states[m].abortou == states[k].abortou
  {
    Reachable(states, steps, k);
    assert states[k + 1] == Aplica(states[k], steps[k]);
    NothingAfterTheEnd(states, steps, k + 1, m);
  }

  // ---- one worker --------------------------------------------------------

  lemma {:induction false} JoinedAscends(ps: seq<seq<string>>, n: nat)
    requires n <= |ps|
    ensures forall p :: 0 <= p < |Junta(ps, n)| ==> Junta(ps, n)[p].0 < n
    ensures forall p, q :: 0 <= p < q < |Junta(ps, n)| ==> Junta(ps, n)[p].0 <= Junta(ps, n)[q].0
  {
    if n > 0 { JoinedAscends(ps, n - 1); }
  }

  /** With one worker the sources come one after the other, whatever the rest does. */
  lemma OneWorkerOneByOne(states: seq<State>, steps: seq<Step>, k: nat)
    requires Trace(states, steps) && |states[0].ws| == 1 && k < |states|
    ensures var d := states[k].entregues; forall p, q :: 0 <= p < q < |d| ==> d[p].0 <= d[q].0
  {
    OneWorkerConcatenates(states, steps, k);
    JoinedAscends(Partes(states[0].fontes), |states[0].fontes|);
  }
}
