/** The scheduler's own loops, run without a crash. */
module SchedulerCode {
  import opened Options
  import opened RunStatus
  import opened Identity
  import opened Schedule
  import opened Scheduler

  /** The keys of a list of slots. */
  function Chaves(a: Agenda, trigger: string, slots: seq<int>): set<string> {
    set x | x in slots :: Chave(a.slug, trigger, a.texto(x))
  }

  /** Runs and queue after the slots of `chaves` were made: a run that was not there is
      now queued and in the queue; one that was there is left alone. */
  ghost predicate Feitos(runs0: Runs, fila0: set<string>, chaves: set<string>, runs: Runs, fila: set<string>) {
    && runs.Keys == runs0.Keys + chaves
    && (forall k :: k in runs ==> runs[k] == if k in runs0 then runs0[k] else Queued)
    && fila == fila0 + (chaves - runs0.Keys)
  }

  /** Making slots is safe to repeat: what is made in two rounds is made as in one, and a
      round over slots already made changes neither runs nor queue. */
  lemma MadeTwiceIsMadeOnce(runs0: Runs, fila0: set<string>, a: set<string>, runs1: Runs, fila1: set<string>,
                            b: set<string>, runs2: Runs, fila2: set<string>)
    requires Feitos(runs0, fila0, a, runs1, fila1) && Feitos(runs1, fila1, b, runs2, fila2)
    ensures Feitos(runs0, fila0, a + b, runs2, fila2)
    ensures b <= a ==> runs2 == runs1 && fila2 == fila1
  {
    assert fila2 == fila0 + (a + b - runs0.Keys);
    if b <= a {
      assert runs2.Keys == runs1.Keys;
      assert fila2 == fila1 + {};
    }
  }

  /** What it means, run by run: no run that was there is touched; every new one is queued,
      in the queue, and of one of the slots; every slot has its run; and the queue gains the
      new ones and nothing else. */
  lemma MadeRunByRun(a: Agenda, trigger: string, runs0: Runs, fila0: set<string>, slots: seq<int>, runs: Runs, fila: set<string>)
    requires Feitos(runs0, fila0, Chaves(a, trigger, slots), runs, fila)
    ensures forall k :: k in runs0 ==> k in runs && runs[k] == runs0[k]
    ensures forall k :: k in runs && k !in runs0 ==>
              runs[k] == Queued && k in fila && exists x :: x in slots && k == a.slug + ":" + trigger + ":" + a.texto(x)
    ensures forall x :: x in slots ==> a.slug + ":" + trigger + ":" + a.texto(x) in runs
    ensures forall k :: k in fila <==> k in fila0 || (k in runs && k !in runs0)
  {
    forall x | x in slots ensures a.slug + ":" + trigger + ":" + a.texto(x) in runs {
      KeyText(a.slug, trigger, a.texto(x));
      assert Chave(a.slug, trigger, a.texto(x)) in Chaves(a, trigger, slots);
    }
    forall k | k in runs && k !in runs0
      ensures exists x :: x in slots && k == a.slug + ":" + trigger + ":" + a.texto(x)
    {
      assert k in Chaves(a, trigger, slots);
      var x :| x in slots && k == Chave(a.slug, trigger, a.texto(x));
      KeyText(a.slug, trigger, a.texto(x));
    }
  }

  /** The slots of one cycle: due and ascending, at most maxPorCiclo, and if fewer then all
      that are due; a due slot that is left for later lies behind them. */
  lemma SlotsOfACycle(a: Agenda, de: int, agora: int)
    requires ValidCron(a.next)
    ensures var d := Devidos(a, de, agora);
      && |d| <= a.maxPorCiclo
      && (forall x :: x in d ==> a.next(x - 1) == x && de < x <= agora)
      && (forall i, j :: 0 <= i < j < |d| ==> d[i] < d[j])
      && (forall x :: a.next(x - 1) == x && de < x <= agora && x !in d ==> |d| == a.maxPorCiclo && forall y :: y in d ==> y < x)
  {
    var d, s := Devidos(a, de, agora), SlotsEntre(a.next, de, agora);
    SlotsEntreExact(a.next, de, agora);
    FirstOf(s, d, a.maxPorCiclo);
    forall x | a.next(x - 1) == x && de < x <= agora ensures x in s { assert IsSlot(a.next, x); }
    forall x | x in d ensures a.next(x - 1) == x && de < x <= agora { assert x in s && IsSlot(a.next, x); }
  }

  /** The first `max` of an ascending list. */
  lemma FirstOf(s: seq<int>, d: seq<int>, max: nat)
    requires forall i, j :: 0 <= i < j < |s| ==> s[i] < s[j]
    requires d == if |s| <= max then s else s[..max]
    ensures |d| <= max && (forall x :: x in d ==> x in s) && (forall i, j :: 0 <= i < j < |d| ==> d[i] < d[j])
    ensures forall x :: x in s && x !in d ==> |d| == max && forall y :: y in d ==> y < x
  {
    assert forall i :: 0 <= i < |d| ==> d[i] == s[i] && s[i] in d;
    forall x | x in s && x !in d ensures |d| == max && forall y :: y in d ==> y < x
    {
      var i :| 0 <= i < |s| && s[i] == x;
      assert i >= |d|;
    }
  }

  lemma FeitosStep(a: Agenda, trigger: string, runs0: Runs, fila0: set<string>, slots: seq<int>, runs: Runs, fila: set<string>, x: int)
    requires Feitos(runs0, fila0, Chaves(a, trigger, slots), runs, fila)
    ensures var k := Chave(a.slug, trigger, a.texto(x));
            Feitos(runs0, fila0, Chaves(a, trigger, slots + [x]),
                   if k in runs then runs else runs[k := Queued], if k in runs then fila else fila + {k})
  {
    var k := Chave(a.slug, trigger, a.texto(x));
    assert forall y :: y in slots + [x] <==> y in slots || y == x;
    assert Chaves(a, trigger, slots + [x]) == Chaves(a, trigger, slots) + {k};
    OneKeyMore(runs0, fila0, Chaves(a, trigger, slots), runs, fila, k);
  }

  lemma OneKeyMore(runs0: Runs, fila0: set<string>, chaves: set<string>, runs: Runs, fila: set<string>, k: string)
    requires Feitos(runs0, fila0, chaves, runs, fila)
    ensures Feitos(runs0, fila0, chaves + {k}, if k in runs then runs else runs[k := Queued], if k in runs then fila else fila + {k})
  {
  }

  lemma DueIsAscending(a: Agenda, de: int, agora: int, slots: seq<int>, truncado: bool)
    requires ValidCron(a.next) && a.maxPorCiclo > 0 && slots <= SlotsEntre(a.next, de, agora)
    requires if truncado then |slots| == a.maxPorCiclo
             else slots == SlotsEntre(a.next, de, agora) && |slots| < a.maxPorCiclo
    ensures slots == Devidos(a, de, agora)
    ensures forall i :: 0 <= i < |slots| ==> de < slots[i]
    ensures forall i, j :: 0 <= i < j < |slots| ==> slots[i] < slots[j]
  {
    var todos := SlotsEntre(a.next, de, agora);
    SlotsEntreExact(a.next, de, agora);
    assert forall i :: 0 <= i < |slots| ==> slots[i] == todos[i] && todos[i] in todos;
  }

  /** The mark after the first `i` slots. */
  function MarcoApos(m0: Option<int>, slots: seq<int>, i: nat): Option<int>
    requires i <= |slots|
  {
    if i == 0 then m0 else Some(slots[i - 1])
  }

  /** The firings from `inicio` up to `cursor` are `feitos`; the others follow. */
  ghost predicate AteAqui(next: Cron, inicio: int, ate: int, cursor: int, feitos: seq<int>) {
    && ValidCron(next) && inicio <= cursor && (cursor == inicio || IsSlot(next, cursor))
    && feitos == SlotsEntre(next, inicio, cursor)
    && SlotsEntre(next, inicio, ate) == feitos + SlotsEntre(next, cursor, ate)
  }

  lemma OneSlotMore(next: Cron, inicio: int, ate: int, cursor: int, feitos: seq<int>)
    requires AteAqui(next, inicio, ate, cursor, feitos) && next(cursor) <= ate
    ensures AteAqui(next, inicio, ate, next(cursor), feitos + [next(cursor)]) && cursor < next(cursor)
  {
    OneMore(next, inicio, cursor, ate);
  }

  class Agendador {
    var runs: Runs
    var fila: set<string>
    var marco: Option<int>

    constructor ()
      ensures runs == map[] && fila == {} && marco == None
    {
      runs, fila, marco := map[], {}, None;
    }

    method CriarEEnfileirar(a: Agenda, trigger: string, slot: int)
      modifies this`runs, this`fila
      ensures var k := Chave(a.slug, trigger, a.texto(slot));
              && runs == (if k in old(runs) then old(runs) else old(runs)[k := Queued])
              && fila == (if k in old(runs) then old(fila) else old(fila) + {k})
    {
      var chave := Chave(a.slug, trigger, a.texto(slot));
      if chave in runs { return; }
      runs := runs[chave := Created];
      runs := runs[chave := Queued];
      fila := fila + {chave};
    }

    /** One evaluation of a catch-up schedule. The first one only plants the mark. */
    method Materializar(a: Agenda, agora: int) returns (criados: nat)
      requires ValidCron(a.next) && a.maxPorCiclo > 0
      modifies this
      ensures old(marco).None? ==> criados == 0 && runs == old(runs) && fila == old(fila) && marco == Some(agora)
      ensures old(marco).Some? ==>
                var d := Devidos(a, old(marco).value, agora);
                && criados == |d|
                && Feitos(old(runs), old(fila), Chaves(a, "schedule", d), runs, fila)
                && marco == (if d == [] then old(marco) else Some(d[|d| - 1]))
    {
      if marco.None? {
        marco := AvancarSlot(marco, agora);
        return 0;
      }
      var slots, truncado := SlotsTodos(a.next, marco.value, agora, a.maxPorCiclo);
      DueIsAscending(a, marco.value, agora, slots, truncado);
      criados := CriarTodos(a, slots);
    }

    /** One more slot made, after those of `feitos`. */
    method CriarUm(a: Agenda, trigger: string, ghost feitos: seq<int>, x: int, ghost runs0: Runs, ghost fila0: set<string>)
      requires Feitos(runs0, fila0, Chaves(a, trigger, feitos), runs, fila)
      modifies this`runs, this`fila
      ensures Feitos(runs0, fila0, Chaves(a, trigger, feitos + [x]), runs, fila)
    {
      FeitosStep(a, trigger, runs0, fila0, feitos, runs, fila, x);
      CriarEEnfileirar(a, trigger, x);
    }

    /** The loop over the slots due: the mark follows every slot made. */
    method CriarTodos(a: Agenda, slots: seq<int>) returns (criados: nat)
      requires marco.Some? && forall i :: 0 <= i < |slots| ==> marco.value < slots[i]
      requires forall i, j :: 0 <= i < j < |slots| ==> slots[i] < slots[j]
      modifies this
      ensures criados == |slots| && Feitos(old(runs), old(fila), Chaves(a, "schedule", slots), runs, fila)
      ensures marco == if slots == [] then old(marco) else Some(slots[|slots| - 1])
    {
      ghost var runs0, fila0, m0 := runs, fila, marco;
      criados := 0;
      assert Chaves(a, "schedule", slots[..0]) == {};
      for i := 0 to |slots|
        invariant criados == i && marco == MarcoApos(m0, slots, i)
        invariant Feitos(runs0, fila0, Chaves(a, "schedule", slots[..i]), runs, fila)
      {
        assert slots[..i + 1] == slots[..i] + [slots[i]];
        CriarUm(a, "schedule", slots[..i], slots[i], runs0, fila0);
        criados := criados + 1;
        marco := AvancarSlot(marco, slots[i]);
      }
      assert slots[..|slots|] == slots;
    }

    /** The firings in the closed interval [de, ate], each once; the mark stays. */
    method Backfill(a: Agenda, de: int, ate: int) returns (criados: nat)
      requires ValidCron(a.next)
      modifies this`runs, this`fila
      ensures Feitos(old(runs), old(fila), Chaves(a, "backfill", SlotsEntre(a.next, de - 1, ate)), runs, fila)
      ensures criados == |SlotsEntre(a.next, de - 1, ate)|
      ensures forall x :: IsSlot(a.next, x) && de <= x <= ate ==> Chave(a.slug, "backfill", a.texto(x)) in runs
    {
      ghost var runs0, fila0 := runs, fila;
      ghost var feitos: seq<int> := [];
      criados := 0;
      var cursor := de - 1;
      assert SlotsEntre(a.next, cursor, cursor) == [];
      while a.next(cursor) <= ate
        invariant AteAqui(a.next, de - 1, ate, cursor, feitos) && criados == |feitos|
        invariant Feitos(runs0, fila0, Chaves(a, "backfill", feitos), runs, fila)
        decreases ate - cursor
      {
        var prox := a.next(cursor);
        OneSlotMore(a.next, de - 1, ate, cursor, feitos);
        CriarUm(a, "backfill", feitos, prox, runs0, fila0);
        feitos := feitos + [prox];
        criados := criados + 1;
        cursor := prox;
      }
      assert SlotsEntre(a.next, de - 1, ate) == feitos;
      SlotsEntreExact(a.next, de - 1, ate);
    }
  }
}
