/** internal/domain/schedule: which slots of a cron are due. The cron itself is a
    function from an instant to the first firing strictly after it. */
module Schedule {

  type Cron = int -> int

  /** `next(t)` is the first firing after `t`: later than `t`, with none in between. */
  ghost predicate ValidCron(next: Cron) {
    && (forall t :: next(t) > t)
    && (forall t, u :: t <= u < next(t) ==> next(u) == next(t))
  }

  predicate IsSlot(next: Cron, s: int) {
    next(s - 1) == s
  }

  /** All firings in (de, ate], in order; the reference the loops are measured by. */
  ghost function SlotsEntre(next: Cron, de: int, ate: int): seq<int>
    requires ValidCron(next)
    decreases if ate > de then ate - de else 0
  {
    if next(de) > ate then [] else [next(de)] + SlotsEntre(next, next(de), ate)
  }

  lemma {:induction false} SlotsEntreExact(next: Cron, de: int, ate: int)
    requires ValidCron(next)
    ensures forall x :: x in SlotsEntre(next, de, ate) <==> IsSlot(next, x) && de < x <= ate
    ensures forall i, j :: 0 <= i < j < |SlotsEntre(next, de, ate)| ==>
              SlotsEntre(next, de, ate)[i] < SlotsEntre(next, de, ate)[j]
    decreases if ate > de then ate - de else 0
  {
    var n := next(de);
    NextIsSlot(next, de);
    forall x | IsSlot(next, x) && de < x ensures x >= n {
      assert x < n ==> next(x - 1) == n;
    }
    if n <= ate {
      SlotsEntreExact(next, n, ate);
      var r := SlotsEntre(next, n, ate);
      var s := SlotsEntre(next, de, ate);
      assert s == [n] + r;
      forall x ensures x in s <==> IsSlot(next, x) && de < x <= ate {
        assert x in s <==> x == n || x in r;
      }
      assert forall i, j :: 0 <= i < j < |s| ==> s[j] == r[j - 1] && s[j] in r && (i > 0 ==> s[i] == r[i - 1]);
    }
  }

  lemma {:induction false} SlotsEntreSnoc(next: Cron, de: int, meio: int, ate: int)
    requires ValidCron(next) && de <= meio && (meio == de || IsSlot(next, meio)) && next(meio) <= ate
    ensures SlotsEntre(next, de, next(meio)) == SlotsEntre(next, de, meio) + [next(meio)]
    decreases meio - de
  {
    var n := next(de);
    if meio == de {
      assert SlotsEntre(next, n, n) == [];
      assert SlotsEntre(next, de, de) == [];
    } else {
      assert meio < n ==> next(meio - 1) == n;
      SlotsEntreSnoc(next, n, meio, ate);
    }
  }

  lemma {:induction false} SlotsEntreSplit(next: Cron, de: int, meio: int, ate: int)
    requires ValidCron(next) && de <= meio && (meio == de || (IsSlot(next, meio) && meio <= ate))
    ensures SlotsEntre(next, de, ate) == SlotsEntre(next, de, meio) + SlotsEntre(next, meio, ate)
    decreases meio - de
  {
    var n := next(de);
    if meio == de {
      assert SlotsEntre(next, de, de) == [];
    } else {
      assert meio < n ==> next(meio - 1) == n;
      SlotsEntreSplit(next, n, meio, ate);
      assert SlotsEntre(next, de, ate) == [n] + SlotsEntre(next, n, ate);
      assert SlotsEntre(next, de, meio) == [n] + SlotsEntre(next, n, meio);
    }
  }

  /** One more firing, seen from both ends. */
  lemma OneMore(next: Cron, inicio: int, de: int, agora: int)
    requires ValidCron(next) && inicio <= de && (de == inicio || IsSlot(next, de)) && next(de) <= agora
    ensures IsSlot(next, next(de)) && de < next(de)
    ensures SlotsEntre(next, inicio, next(de)) == SlotsEntre(next, inicio, de) + [next(de)]
    ensures SlotsEntre(next, inicio, agora) == SlotsEntre(next, inicio, next(de)) + SlotsEntre(next, next(de), agora)
  {
    NextIsSlot(next, de);
    SlotsEntreSnoc(next, inicio, de, agora);
    SlotsEntreSplit(next, inicio, next(de), agora);
  }

  const MAX_ITER := 500_000

  /** Schedule.Slots with catch-up: the first `limite` firings due (all of them when
      `limite` is 0), and whether more may follow. */
  method SlotsTodos(next: Cron, ultimo: int, agora: int, limite: nat) returns (slots: seq<int>, truncado: bool)
    requires ValidCron(next)
    ensures slots <= SlotsEntre(next, ultimo, agora)
    ensures truncado ==> |slots| == limite > 0
    ensures !truncado ==> slots == SlotsEntre(next, ultimo, agora) && (limite > 0 ==> |slots| < limite)
  {
    slots, truncado := [], false;
    var de := ultimo;
    while next(de) <= agora
      invariant ultimo <= de && (de == ultimo || IsSlot(next, de))
      invariant slots == SlotsEntre(next, ultimo, de)
      invariant SlotsEntre(next, ultimo, agora) == slots + SlotsEntre(next, de, agora)
      invariant limite > 0 ==> |slots| < limite
      decreases agora - de
    {
      OneMore(next, ultimo, de, agora);
      slots, de := slots + [next(de)], next(de);
      if limite > 0 && |slots| >= limite { return slots, true; }
    }
  }

  /** Schedule.Slots without catch-up: only the latest firing due, as long as the
      loop's ceiling is not hit. */
  method SlotRecente(next: Cron, ultimo: int, agora: int) returns (slots: seq<int>)
    requires ValidCron(next)
    ensures LatestWithin(SlotsEntre(next, ultimo, agora), slots)
    ensures slots == [] <==> next(ultimo) > agora
    ensures slots != [] ==> |slots| == 1 && IsSlot(next, slots[0]) && ultimo < slots[0] <= agora
    ensures |SlotsEntre(next, ultimo, agora)| <= 500_000 && slots != [] ==> next(slots[0]) > agora
    ensures |SlotsEntre(next, ultimo, agora)| > 500_000 ==> slots == [SlotsEntre(next, ultimo, agora)[499_999]]
  {
    slots := [];
    var de := ultimo;
    var i := 0;
    ghost var todos, feitos := SlotsEntre(next, ultimo, agora), SlotsEntre(next, ultimo, ultimo);
    assert feitos == [];
    while i < MAX_ITER && next(de) <= agora
      invariant 0 <= i <= MAX_ITER && ultimo <= de && (de == ultimo || IsSlot(next, de))
      invariant feitos == SlotsEntre(next, ultimo, de) && |feitos| == i
      invariant slots == if i == 0 then [] else [feitos[i - 1]]
      invariant if i == 0 then de == ultimo else slots == [de] && ultimo < de <= agora
      invariant todos == feitos + SlotsEntre(next, de, agora)
      decreases MAX_ITER - i
    {
      OneMore(next, ultimo, de, agora);
      feitos := feitos + [next(de)];
      de, i := next(de), i + 1;
      slots := [de];
    }
    assert i == MAX_ITER || (SlotsEntre(next, de, agora) == [] && todos == feitos);
    assert |todos| == |feitos| + |SlotsEntre(next, de, agora)|;
    assert |feitos| == i && (i > 0 ==> slots == [de]);
  }

  lemma NextIsSlot(next: Cron, t: int)
    requires ValidCron(next)
    ensures IsSlot(next, next(t))
  {
    assert t <= next(t) - 1 < next(t);
  }

  /** The last of the first MAX_ITER firings, if there is one. */
  ghost predicate LatestWithin(todos: seq<int>, slots: seq<int>) {
    if todos == [] then slots == []
    else if |todos| <= MAX_ITER then slots == [todos[|todos| - 1]]
    else slots == [todos[MAX_ITER - 1]]
  }
}
