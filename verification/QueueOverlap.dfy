/** Two claims computed on two snapshots of the queue, and when they break the limit that
    each of them keeps. */
module QueueOverlap {
  import opened Options
  import opened Sets
  import opened Queue

  /** The rows of one workflow a claim of the moment `em` can take: its snapshot admits them,
      and under the row lock they are found unmarked and due as they are now. */
  function Livres(t: Table, info: RunId -> RunInfo, slug: string, foto: Table, em: int): set<nat> {
    set i | i in t && Elegivel(t, em, i) && i in AdmissiveisDe(foto, info, em, slug)
  }

  /** Two claims computed on different snapshots. Each is within the limit alone;
      for every choice of rows they stay within it together exactly when the rows
      already claimed and the rows either snapshot admits number at most `m`. */
  lemma OverlappingClaimsIff(info: RunId -> RunInfo, slug: string, m: nat, t: Table,
                             l1: set<nat>, l2: set<nat>)
    requires forall i :: i in l1 + l2 ==> i in t && info(t[i].run).slug == slug
    ensures AnyChoiceFits(info, slug, m, t, l1, l2) <==> |EmVoo(t, info, slug) + l1 + l2| <= m
  {
    forall p1: set<nat>, p2: set<nat> | p1 <= l1 && p2 <= l2
      ensures |EmVoo(AfterBoth(t, p1, p2), info, slug)| <= |EmVoo(t, info, slug) + l1 + l2|
    {
      ClaimedAfterBoth(t, info, slug, p1, p2);
      SubsetSize(EmVoo(t, info, slug) + p1 + p2, EmVoo(t, info, slug) + l1 + l2);
    }
    ClaimedAfterBoth(t, info, slug, l1, l2);
  }

  /** Whatever rows of `l1` and of `l2` the two claims take (locks and limits
      decide), the workflow stays within its limit. */
  ghost predicate AnyChoiceFits(info: RunId -> RunInfo, slug: string, m: nat, t: Table,
                                l1: set<nat>, l2: set<nat>) {
    forall p1: set<nat>, p2: set<nat> :: p1 <= l1 && p2 <= l2 ==>
      |EmVoo(AfterBoth(t, p1, p2), info, slug)| <= m
  }

  lemma ClaimedAfterBoth(t: Table, info: RunId -> RunInfo, slug: string, p1: set<nat>, p2: set<nat>)
    requires forall i :: i in p1 + p2 ==> i in t && info(t[i].run).slug == slug
    ensures EmVoo(AfterBoth(t, p1, p2), info, slug) == EmVoo(t, info, slug) + p1 + p2
  {
    var r := AfterBoth(t, p1, p2);
    assert forall i :: i in t ==> r[i].run == t[i].run && (r[i].marca.Some? <==> t[i].marca.Some? || i in p1 + p2);
  }

  function AfterBoth(t: Table, p1: set<nat>, p2: set<nat>): Table {
    Marcar(Marcar(t, p1, Some(Marca(0, "a"))), p2, Some(Marca(0, "b")))
  }

  // ---- two snapshots -----------------------------------------------------------

  /** The rows that count against `x` on a snapshot: claimed ones, and eligible ones of its
      workflow ahead of it. */
  function Frente(foto: Table, info: RunId -> RunInfo, em: int, slug: string, x: nat): set<nat>
    requires x in foto
  {
    EmVoo(foto, info, slug) + Anteriores(foto, info, em, x)
  }

  /** Rows that count against `x` on the second snapshot and did not on the first: they
      arrived, became eligible, moved ahead of it, or were claimed from behind it. */
  function Chegaram(f1: Table, em1: int, f2: Table, em2: int, info: RunId -> RunInfo, slug: string, x: nat): set<nat>
    requires x in f1 && x in f2
  {
    Frente(f2, info, em2, slug, x) - Frente(f1, info, em1, slug, x)
  }

  /** Rows that count no more: done, released behind it, or no longer eligible. */
  function Sairam(f1: Table, em1: int, f2: Table, em2: int, info: RunId -> RunInfo, slug: string, x: nat): set<nat>
    requires x in f1 && x in f2
  {
    Frente(f1, info, em1, slug, x) - Frente(f2, info, em2, slug, x)
  }

  /** Rows due by the clock of the first claim and not by that of the second. There are none
      unless the earlier snapshot has the later clock. */
  function Adiadas(f1: Table, em1: int, f2: Table, em2: int, info: RunId -> RunInfo, slug: string): set<nat> {
    set x | x in Livres(f2, info, slug, f1, em1) && !Elegivel(f2, em2, x)
  }

  /** What a row that came in front did between the snapshots. */
  lemma CameInFrontIff(f1: Table, em1: int, f2: Table, em2: int, info: RunId -> RunInfo, slug: string, x: nat, y: nat)
    requires x in f1 && x in f2 && f1[x].run == f2[x].run && info(f1[x].run).slug == slug
    requires y in f1 && y in f2 ==> f1[y].run == f2[y].run
    ensures y in Chegaram(f1, em1, f2, em2, info, slug, x) <==>
              && y in f2 && info(f2[y].run).slug == slug
              && (f2[y].marca.Some? || (Elegivel(f2, em2, y) && Before(f2, y, x)))
              && (y !in f1 || (f1[y].marca.None? && (f1[y].disponivelEm > em1 || !Before(f1, y, x))))
  {
  }

  lemma FrenteSize(foto: Table, info: RunId -> RunInfo, em: int, slug: string, x: nat)
    requires x in foto
    ensures |Frente(foto, info, em, slug, x)| == |EmVoo(foto, info, slug)| + |Anteriores(foto, info, em, x)|
  {
    assert EmVoo(foto, info, slug) !! Anteriores(foto, info, em, x);
  }

  lemma Difference(a: set<nat>, b: set<nat>)
    ensures |b| - |a| == |b - a| - |a - b|
  {
    assert a == (a - b) + (a * b) && b == (b - a) + (a * b);
  }

  /** What changed decides: a row the first snapshot admits, still eligible, is refused by
      the second exactly when more rows came before it than left and than there was room. */
  lemma OvertakenIff(f1: Table, em1: int, f2: Table, em2: int, info: RunId -> RunInfo, slug: string, m: nat, x: nat)
    requires SharedLimit(info, slug, m) && x in f2 && Elegivel(f2, em2, x) && info(f2[x].run).slug == slug
    requires x in AdmissiveisDe(f1, info, em1, slug)
    ensures !Admissivel(f2, info, em2, x) <==> Ultrapassado(f1, em1, f2, em2, info, slug, m, x)
  {
    FrenteSize(f1, info, em1, slug, x);
    FrenteSize(f2, info, em2, slug, x);
    Difference(Frente(f1, info, em1, slug, x), Frente(f2, info, em2, slug, x));
  }

  /** A query that refuses an eligible row of the workflow has filled its limit. */
  lemma FullWhenRefusing(t: Table, info: RunId -> RunInfo, em: int, slug: string, m: nat, x: nat)
    requires SharedLimit(info, slug, m) && |EmVoo(t, info, slug)| <= m
    requires Elegivel(t, em, x) && info(t[x].run).slug == slug && !Admissivel(t, info, em, x)
    ensures |EmVoo(t, info, slug)| + |AdmissiveisDe(t, info, em, slug)| == m
  {
    var v, a := EmVoo(t, info, slug), AdmissiveisDe(t, info, em, slug);
    var fora := set i | i in t && Elegivel(t, em, i) && info(t[i].run).slug == slug && i !in a;
    assert x in fora;
    OneIsFirst(t, fora);
    var y :| y in fora && forall j :: j in fora && j != y ==> Before(t, y, j);
    assert Anteriores(t, info, em, y) <= a by {
      forall j | j in Anteriores(t, info, em, y) ensures j in a { assert Before(t, j, y) && !Before(t, y, j); }
    }
    SubsetSize(Anteriores(t, info, em, y), a);
    AdmissiveisFit(t, info, em, slug, m);
    assert v !! a;
  }

  /** Two claims, one computed on an earlier snapshot, one on the table as it is. */
  ghost predicate Cabem(f1: Table, em1: int, f2: Table, em2: int, info: RunId -> RunInfo, slug: string, m: nat) {
    AnyChoiceFits(info, slug, m, f2, Livres(f2, info, slug, f1, em1), Livres(f2, info, slug, f2, em2))
  }

  /** More rows came in front of `x` between the snapshots than left or than there was room. */
  predicate Ultrapassado(f1: Table, em1: int, f2: Table, em2: int, info: RunId -> RunInfo, slug: string, m: nat, x: nat)
    requires x in f1 && x in f2
  {
    |Chegaram(f1, em1, f2, em2, info, slug, x)| >
      |Sairam(f1, em1, f2, em2, info, slug, x)| + (m - 1 - |Frente(f1, info, em1, slug, x)|)
  }

  /** The rows the first snapshot admits that are free and eligible on the second. */
  function Vivas(f1: Table, em1: int, f2: Table, em2: int, info: RunId -> RunInfo, slug: string): set<nat> {
    set x | x in Livres(f2, info, slug, f1, em1) && Elegivel(f2, em2, x)
  }

  ghost predicate NinguemUltrapassado(f1: Table, em1: int, f2: Table, em2: int, info: RunId -> RunInfo, slug: string, m: nat) {
    forall x {:trigger Ultrapassado(f1, em1, f2, em2, info, slug, m, x)} ::
      x in Vivas(f1, em1, f2, em2, info, slug) ==> !Ultrapassado(f1, em1, f2, em2, info, slug, m, x)
  }

  /** The exact condition: whatever rows the two claims take, the workflow stays within its
      limit, if and only if nothing came in front of a row of the first claim beyond its
      room. A row put off meanwhile does no harm: the first claim finds it not due. */
  lemma TwoSnapshotsIff(f1: Table, em1: int, f2: Table, em2: int, info: RunId -> RunInfo, slug: string, m: nat)
    requires SharedLimit(info, slug, m) && |EmVoo(f2, info, slug)| <= m && em1 <= em2
    requires forall i :: i in f1 && i in f2 ==> f1[i].run == f2[i].run
    ensures Cabem(f1, em1, f2, em2, info, slug, m) <==> NinguemUltrapassado(f1, em1, f2, em2, info, slug, m)
  {
    TwoClocksIff(f1, em1, f2, em2, info, slug, m);
    CountedFits(f2, info, em2, slug, m);
    assert Adiadas(f1, em1, f2, em2, info, slug) == {};
  }

  /** The same whatever the clocks of the two claims say: the rows on which they differ must
      fit beside what the second snapshot counts. */
  lemma TwoClocksIff(f1: Table, em1: int, f2: Table, em2: int, info: RunId -> RunInfo, slug: string, m: nat)
    requires SharedLimit(info, slug, m) && |EmVoo(f2, info, slug)| <= m
    requires forall i :: i in f1 && i in f2 ==> f1[i].run == f2[i].run
    ensures Cabem(f1, em1, f2, em2, info, slug, m) <==>
              && NinguemUltrapassado(f1, em1, f2, em2, info, slug, m)
              && |EmVoo(f2, info, slug)| + |AdmissiveisDe(f2, info, em2, slug)| + |Adiadas(f1, em1, f2, em2, info, slug)| <= m
  {
    OverlappingClaimsIff(info, slug, m, f2, Livres(f2, info, slug, f1, em1), Livres(f2, info, slug, f2, em2));
    assert Livres(f2, info, slug, f2, em2) == AdmissiveisDe(f2, info, em2, slug);
    if NinguemUltrapassado(f1, em1, f2, em2, info, slug, m) {
      NobodyOvertaken(f1, em1, f2, em2, info, slug, m);
    } else {
      var x :| x in Vivas(f1, em1, f2, em2, info, slug) && Ultrapassado(f1, em1, f2, em2, info, slug, m, x);
      SomebodyOvertaken(f1, em1, f2, em2, info, slug, m, x);
    }
  }

  lemma NobodyOvertaken(f1: Table, em1: int, f2: Table, em2: int, info: RunId -> RunInfo, slug: string, m: nat)
    requires SharedLimit(info, slug, m) && NinguemUltrapassado(f1, em1, f2, em2, info, slug, m)
    requires forall i :: i in f1 && i in f2 ==> f1[i].run == f2[i].run
    ensures var v, l1, l2 := EmVoo(f2, info, slug), Livres(f2, info, slug, f1, em1), Livres(f2, info, slug, f2, em2);
      |v + l1 + l2| == |v| + |l2| + |Adiadas(f1, em1, f2, em2, info, slug)|
  {
    forall x | x in Livres(f2, info, slug, f1, em1) && x !in Livres(f2, info, slug, f2, em2)
      ensures x in Adiadas(f1, em1, f2, em2, info, slug)
    {
      if Elegivel(f2, em2, x) {
        assert x in Vivas(f1, em1, f2, em2, info, slug) && !Ultrapassado(f1, em1, f2, em2, info, slug, m, x);
        OvertakenIff(f1, em1, f2, em2, info, slug, m, x);
      }
    }
    ThreeParts(f1, em1, f2, em2, info, slug);
  }

  lemma SomebodyOvertaken(f1: Table, em1: int, f2: Table, em2: int, info: RunId -> RunInfo, slug: string, m: nat, x: nat)
    requires SharedLimit(info, slug, m) && |EmVoo(f2, info, slug)| <= m
    requires forall i :: i in f1 && i in f2 ==> f1[i].run == f2[i].run
    requires x in Vivas(f1, em1, f2, em2, info, slug) && Ultrapassado(f1, em1, f2, em2, info, slug, m, x)
    ensures |EmVoo(f2, info, slug) + Livres(f2, info, slug, f1, em1) + Livres(f2, info, slug, f2, em2)| > m
  {
    var v, l1, l2 := EmVoo(f2, info, slug), Livres(f2, info, slug, f1, em1), Livres(f2, info, slug, f2, em2);
    OvertakenIff(f1, em1, f2, em2, info, slug, m, x);
    FullWhenRefusing(f2, info, em2, slug, m, x);
    assert l2 == AdmissiveisDe(f2, info, em2, slug) && v !! l2 && x !in v && x !in l2;
    OneTooMany(v, l1, l2, x);
  }

  lemma OneTooMany(v: set<nat>, l1: set<nat>, l2: set<nat>, x: nat)
    requires v !! l2 && x in l1 && x !in v && x !in l2
    ensures |v + l1 + l2| > |v| + |l2|
  {
    assert |v + l2 + {x}| == |v| + |l2| + 1;
    SubsetSize(v + l2 + {x}, v + l1 + l2);
  }

  lemma ThreeParts(f1: Table, em1: int, f2: Table, em2: int, info: RunId -> RunInfo, slug: string)
    requires forall x :: x in Livres(f2, info, slug, f1, em1) && x !in Livres(f2, info, slug, f2, em2) ==>
               x in Adiadas(f1, em1, f2, em2, info, slug)
    ensures var v, l1, l2 := EmVoo(f2, info, slug), Livres(f2, info, slug, f1, em1), Livres(f2, info, slug, f2, em2);
      |v + l1 + l2| == |v| + |l2| + |Adiadas(f1, em1, f2, em2, info, slug)|
  {
    var v, l1, l2 := EmVoo(f2, info, slug), Livres(f2, info, slug, f1, em1), Livres(f2, info, slug, f2, em2);
    var ad := Adiadas(f1, em1, f2, em2, info, slug);
    assert v + l1 + l2 == v + l2 + ad;
    assert v !! l2 && (v + l2) !! ad;
  }

  /** If nothing came in front of a row between the snapshots the claims fit: clearing marks
      and putting rows off in between does no harm. */
  lemma NothingNewFits(f1: Table, em1: int, f2: Table, em2: int, info: RunId -> RunInfo, slug: string, m: nat)
    requires SharedLimit(info, slug, m) && |EmVoo(f2, info, slug)| <= m && em1 <= em2
    requires forall i :: i in f1 && i in f2 ==> f1[i].run == f2[i].run
    requires forall x :: x in Vivas(f1, em1, f2, em2, info, slug) ==> Chegaram(f1, em1, f2, em2, info, slug, x) == {}
    ensures Cabem(f1, em1, f2, em2, info, slug, m)
  {
    TwoSnapshotsIff(f1, em1, f2, em2, info, slug, m);
    forall x | x in Vivas(f1, em1, f2, em2, info, slug) ensures !Ultrapassado(f1, em1, f2, em2, info, slug, m, x) {
      FrenteSize(f1, info, em1, slug, x);
    }
  }

  lemma CountedFits(t: Table, info: RunId -> RunInfo, em: int, slug: string, m: nat)
    requires SharedLimit(info, slug, m) && |EmVoo(t, info, slug)| <= m
    ensures |EmVoo(t, info, slug)| + |AdmissiveisDe(t, info, em, slug)| <= m
  {
    AdmissiveisFit(t, info, em, slug, m);
    assert EmVoo(t, info, slug) !! AdmissiveisDe(t, info, em, slug);
  }

  /** It can fail: a row with a higher priority arrives between the two snapshots,
      and a workflow limited to one run ends with two rows claimed. */
  lemma StaleSnapshotExceedsLimit()
    ensures SharedLimit(OneRun(), "w", 1)
    ensures !Cabem(UmItem(), 0, DoisItens(), 0, OneRun(), "w", 1)
  {
    FirstInOrderIsFree(DoisItens(), UmItem(), 0);
    OnlyOneClaimed();
    TwoSnapshotsIff(UmItem(), 0, DoisItens(), 0, OneRun(), "w", 1);
    assert 0 in Vivas(UmItem(), 0, DoisItens(), 0, OneRun(), "w");
    assert 1 in Chegaram(UmItem(), 0, DoisItens(), 0, OneRun(), "w", 0);
    assert Sairam(UmItem(), 0, DoisItens(), 0, OneRun(), "w", 0) == {};
    assert Chegaram(UmItem(), 0, DoisItens(), 0, OneRun(), "w", 0) == {1};
    assert Ultrapassado(UmItem(), 0, DoisItens(), 0, OneRun(), "w", 1, 0);
  }

  /** A row, and a second one with a higher priority. */
  function UmItem(): Table {
    map[0 := Row(0, 0, 0, None)]
  }

  function DoisItens(): Table {
    map[0 := Row(0, 0, 0, None), 1 := Row(1, 10, 0, None)]
  }

  lemma OnlyOneClaimed()
    ensures EmVoo(UmItem(), OneRun(), "w") == {} && EmVoo(DoisItens(), OneRun(), "w") == {}
    ensures Anteriores(UmItem(), OneRun(), 0, 0) == {} && Anteriores(DoisItens(), OneRun(), 0, 0) == {1}
  {
  }

  function OneRun(): RunId -> RunInfo {
    (r: RunId) => RunInfo("w", 1)
  }

  lemma FirstInOrderIsFree(t: Table, foto: Table, i: nat)
    requires i in t && Elegivel(t, 0, i) && i in foto && Elegivel(foto, 0, i)
    requires forall j :: j in foto ==> foto[j].marca.None?
    requires forall j :: j in foto && j != i ==> Before(foto, i, j)
    ensures i in Livres(t, OneRun(), "w", foto, 0)
  {
    assert EmVoo(foto, OneRun(), "w") == {};
    assert Anteriores(foto, OneRun(), 0, i) == {};
  }
}
