/** sdk/load/dedup.go and merge_sql.go: staging a batch and merging it into the
    destination on ingestion_id, so that loading the same rows again changes nothing. */
module Merge {
  import opened Seqs

  /** A row of the destination or of the staging table: a column it lacks is NULL. */
  type Linha = map<string, string>

  const CHAVE := "ingestion_id"

  /** NULL never matches. */
  predicate MesmoId(a: Linha, b: Linha) {
    CHAVE in a && CHAVE in b && a[CHAVE] == b[CHAVE]
  }

  type Tabela = multiset<Linha>

  ghost predicate Casa(t: Tabela, r: Linha) {
    exists x :: x in t && MesmoId(x, r)
  }

  /** The rows WHEN NOT MATCHED inserts. The match looks at the table before the
      statement, so two staged rows with one new id are both inserted. */
  ghost function Novas(t: Tabela, lote: seq<Linha>): seq<Linha> {
    Fora(lote, (r: Linha) => Casa(t, r))
  }

  /** The elements without the property, in order. */
  ghost function Fora(s: seq<Linha>, p: Linha -> bool): seq<Linha> {
    if s == [] then [] else (if p(s[0]) then [] else [s[0]]) + Fora(s[1..], p)
  }

  ghost function Mescla(t: Tabela, lote: seq<Linha>): Tabela {
    t + multiset(Novas(t, lote))
  }

  /** The whole run: one MERGE for each batch. */
  ghost function MesclaTodos(t: Tabela, lotes: seq<seq<Linha>>): Tabela
    decreases lotes
  {
    if lotes == [] then t else MesclaTodos(Mescla(t, lotes[0]), lotes[1..])
  }

  /** The counters loadWithMerge reports: what the statement inserted, and the rest. */
  ghost function Inseridas(t: Tabela, lote: seq<Linha>): nat {
    if |Novas(t, lote)| > |lote| then |lote| else |Novas(t, lote)|
  }

  ghost function TotalInseridas(t: Tabela, lotes: seq<seq<Linha>>): nat
    decreases lotes
  {
    if lotes == [] then 0 else Inseridas(t, lotes[0]) + TotalInseridas(Mescla(t, lotes[0]), lotes[1..])
  }

  predicate Identificada(r: Linha) {
    CHAVE in r
  }

  predicate TodasIdentificadas(s: seq<Linha>) {
    forall i :: 0 <= i < |s| ==> Identificada(s[i])
  }

  predicate IdsDistintos(s: seq<Linha>) {
    forall i, j :: 0 <= i < j < |s| ==> !MesmoId(s[i], s[j])
  }

  // ---- one statement -----------------------------------------------------

  lemma ForaCons(r: Linha, s: seq<Linha>, p: Linha -> bool)
    ensures Fora([r] + s, p) == (if p(r) then [] else [r]) + Fora(s, p)
  {
    assert ([r] + s)[1..] == s;
  }

  lemma {:induction false} ForaAppend(a: seq<Linha>, b: seq<Linha>, p: Linha -> bool)
    ensures Fora(a + b, p) == Fora(a, p) + Fora(b, p)
  {
    if a == [] {
      assert a + b == b;
    } else {
      ForaAppend(a[1..], b, p);
      ForaCons(a[0], a[1..] + b, p);
      ForaCons(a[0], a[1..], p);
      assert a == [a[0]] + a[1..] && a + b == [a[0]] + (a[1..] + b);
    }
  }

  lemma {:induction false} ForaIn(s: seq<Linha>, p: Linha -> bool)
    ensures |Fora(s, p)| <= |s|
    ensures forall r :: r in Fora(s, p) <==> r in s && !p(r)
  {
    if s != [] { ForaIn(s[1..], p); }
  }

  lemma {:induction false} ForaSame(s: seq<Linha>, p: Linha -> bool, q: Linha -> bool)
    requires forall r :: r in s ==> p(r) == q(r)
    ensures Fora(s, p) == Fora(s, q)
  {
    if s != [] { ForaSame(s[1..], p, q); }
  }

  lemma NovasAppend(t: Tabela, a: seq<Linha>, b: seq<Linha>)
    ensures Novas(t, a + b) == Novas(t, a) + Novas(t, b)
  {
    ForaAppend(a, b, (r: Linha) => Casa(t, r));
  }

  lemma NovasIn(t: Tabela, lote: seq<Linha>)
    ensures |Novas(t, lote)| <= |lote|
    ensures forall r :: r in Novas(t, lote) <==> r in lote && !Casa(t, r)
    ensures Novas(t, lote) == [] <==> forall r :: r in lote ==> Casa(t, r)
  {
    ForaIn(lote, (r: Linha) => Casa(t, r));
    if Novas(t, lote) != [] { assert Novas(t, lote)[0] in Novas(t, lote); }
  }

  lemma {:induction false} ForaCount(s: seq<Linha>, p: Linha -> bool, r: Linha)
    ensures multiset(Fora(s, p))[r] == if p(r) then 0 else multiset(s)[r]
  {
    if s != [] {
      ForaCount(s[1..], p, r);
      assert s == [s[0]] + s[1..];
    }
  }

  /** The merged table row by row: as many as before, and as many as the batch has of it,
      unless a row of the table before the statement carries its id. */
  lemma MergedRows(t: Tabela, lote: seq<Linha>, r: Linha)
    ensures Mescla(t, lote)[r] == t[r] +
              if exists x :: x in t && "ingestion_id" in x && "ingestion_id" in r && x["ingestion_id"] == r["ingestion_id"]
              then 0 else multiset(lote)[r]
  {
    ForaCount(lote, (x: Linha) => Casa(t, x), r);
    if Casa(t, r) {
      var x :| x in t && MesmoId(x, r);
      assert x in t && "ingestion_id" in x && "ingestion_id" in r && x["ingestion_id"] == r["ingestion_id"];
    } else {
      assert forall x :: x in t ==> !MesmoId(x, r);
    }
  }

  /** Inserted is what the table grew by; over batches, in all. */
  lemma {:induction false} InsertedIsGrowth(t: Tabela, lotes: seq<seq<Linha>>, lote: seq<Linha>)
    ensures Inseridas(t, lote) == |Mescla(t, lote)| - |t|
    ensures TotalInseridas(t, lotes) == |MesclaTodos(t, lotes)| - |t|
    decreases lotes
  {
    NovasIn(t, lote);
    if lotes != [] {
      NovasIn(t, lotes[0]);
      InsertedIsGrowth(Mescla(t, lotes[0]), lotes[1..], lote);
    }
  }

  /** Batches go in one after the other. */
  lemma {:induction false} BatchesInTurn(t: Tabela, a: seq<seq<Linha>>, b: seq<seq<Linha>>, lote: seq<Linha>)
    ensures MesclaTodos(t, []) == t && MesclaTodos(t, [lote]) == Mescla(t, lote)
    ensures MesclaTodos(t, a + b) == MesclaTodos(MesclaTodos(t, a), b)
    decreases a
  {
    assert [lote][1..] == [];
    if a == [] {
      assert a + b == b;
    } else {
      assert (a + b)[0] == a[0] && (a + b)[1..] == a[1..] + b;
      BatchesInTurn(Mescla(t, a[0]), a[1..], b, lote);
    }
  }

  /** Rows have distinct ids when no two places hold rows with one id. */
  lemma DistinctIdsIff(s: seq<Linha>)
    ensures IdsDistintos(s) <==>
      forall i, j :: 0 <= i < j < |s| && "ingestion_id" in s[i] && "ingestion_id" in s[j] ==>
        s[i]["ingestion_id"] != s[j]["ingestion_id"]
    ensures TodasIdentificadas(s) <==> forall i :: 0 <= i < |s| ==> "ingestion_id" in s[i]
  {
  }

  /** Matching after a merge: what matched before, and the ids of the batch. */
  lemma CasaAfter(t: Tabela, lote: seq<Linha>, r: Linha)
    ensures Casa(Mescla(t, lote), r) <==> Casa(t, r) || exists x :: x in lote && MesmoId(x, r)
  {
    NovasIn(t, lote);
    var depois := Mescla(t, lote);
    if x :| x in lote && MesmoId(x, r) {
      if Casa(t, x) {
        var y :| y in t && MesmoId(y, x);
        assert y in depois && MesmoId(y, r);
      } else {
        assert x in depois;
      }
    }
    if Casa(t, r) {
      var y :| y in t && MesmoId(y, r);
      assert y in depois;
    }
    if Casa(depois, r) {
      var y :| y in depois && MesmoId(y, r);
      assert y in t || y in Novas(t, lote);
    }
  }

  /** Merging the same batch twice changes nothing the second time exactly when every
      row of it has an id; a row without one matches nothing and goes in again. */
  lemma MergeAgainIff(t: Tabela, lote: seq<Linha>)
    ensures Mescla(Mescla(t, lote), lote) == Mescla(t, lote) <==> TodasIdentificadas(lote)
    ensures Inseridas(Mescla(t, lote), lote) == 0 <==> TodasIdentificadas(lote)
  {
    var depois := Mescla(t, lote);
    NovasIn(depois, lote);
    if TodasIdentificadas(lote) {
      forall r | r in lote ensures Casa(depois, r) {
        CasaAfter(t, lote, r);
        assert MesmoId(r, r);
      }
      assert Novas(depois, lote) == [];
    } else {
      var i :| 0 <= i < |lote| && !Identificada(lote[i]);
      assert !Casa(depois, lote[i]);
      assert lote[i] in Novas(depois, lote);
      assert |depois + multiset(Novas(depois, lote))| == |depois| + |Novas(depois, lote)|;
    }
  }

  // ---- batches -----------------------------------------------------------

  /** No id that is new to the table stands in both batches. */
  ghost predicate SemIdComum(t: Tabela, a: seq<Linha>, b: seq<Linha>) {
    forall r, x :: r in b && x in a && MesmoId(x, r) ==> Casa(t, r)
  }

  lemma NovasTwice(t: Tabela, a: seq<Linha>, b: seq<Linha>)
    requires SemIdComum(t, a, b)
    ensures Novas(Mescla(t, a), b) == Novas(t, b)
  {
    forall r | r in b ensures Casa(Mescla(t, a), r) == Casa(t, r) { CasaAfter(t, a, r); }
    ForaSame(b, (r: Linha) => Casa(Mescla(t, a), r), (r: Linha) => Casa(t, r));
  }

  /** Two batches leave what one batch of both would leave exactly when no id that is new
      to the table stands in both: the second statement sees the first one's rows. */
  lemma SplitIff(t: Tabela, a: seq<Linha>, b: seq<Linha>)
    ensures Mescla(Mescla(t, a), b) == Mescla(t, a + b) <==> SemIdComum(t, a, b)
  {
    NovasAppend(t, a, b);
    assert Mescla(t, a + b) == t + multiset(Novas(t, a)) + multiset(Novas(t, b));
    if SemIdComum(t, a, b) {
      NovasTwice(t, a, b);
    } else {
      var r, x :| r in b && x in a && MesmoId(x, r) && !Casa(t, r);
      CommonIdIsLost(t, a, b, r, x);
    }
  }

  lemma CommonIdIsLost(t: Tabela, a: seq<Linha>, b: seq<Linha>, r: Linha, x: Linha)
    requires r in b && x in a && MesmoId(x, r) && !Casa(t, r)
    ensures Mescla(Mescla(t, a), b) != t + multiset(Novas(t, a)) + multiset(Novas(t, b))
  {
    var nb, nb' := Novas(t, b), Novas(Mescla(t, a), b);
    NovasIn(t, b);
    NovasIn(Mescla(t, a), b);
    CasaAfter(t, a, r);
    assert multiset(nb)[r] > 0 && multiset(nb')[r] == 0;
    assert Mescla(Mescla(t, a), b)[r] == (t + multiset(Novas(t, a)))[r];
    assert (t + multiset(Novas(t, a)) + multiset(nb))[r] > (t + multiset(Novas(t, a)))[r];
  }

  lemma DistinctParts(a: seq<Linha>, b: seq<Linha>)
    requires IdsDistintos(a + b)
    ensures IdsDistintos(a) && IdsDistintos(b) && forall t :: SemIdComum(t, a, b)
  {
    forall i, j | 0 <= i < j < |a| ensures !MesmoId(a[i], a[j]) {
      assert (a + b)[i] == a[i] && (a + b)[j] == a[j];
    }
    forall i, j | 0 <= i < j < |b| ensures !MesmoId(b[i], b[j]) {
      assert (a + b)[|a| + i] == b[i] && (a + b)[|a| + j] == b[j];
    }
    forall r, x | r in b && x in a ensures !MesmoId(x, r) {
      var i :| 0 <= i < |a| && a[i] == x;
      var j :| 0 <= j < |b| && b[j] == r;
      assert (a + b)[i] == x && (a + b)[|a| + j] == r;
    }
  }

  lemma FirstThenRest(t: Tabela, a: seq<Linha>, b: seq<Linha>)
    requires SemIdComum(t, a, b)
    ensures Mescla(Mescla(t, a), b) == Mescla(t, a + b)
    ensures Inseridas(t, a) + |Novas(Mescla(t, a), b)| == |Novas(t, a + b)|
  {
    SplitIff(t, a, b);
    NovasTwice(t, a, b);
    NovasAppend(t, a, b);
    NovasIn(t, a);
  }

  /** Rows with distinct ids may be merged in any batches: the same rows, and the counts
      add up. */
  lemma {:induction false} BatchesMergeAsOne(t: Tabela, lotes: seq<seq<Linha>>)
    requires IdsDistintos(Concat(lotes))
    ensures MesclaTodos(t, lotes) == Mescla(t, Concat(lotes))
    ensures TotalInseridas(t, lotes) == |Novas(t, Concat(lotes))| == Inseridas(t, Concat(lotes))
    decreases lotes
  {
    NovasIn(t, Concat(lotes));
    if lotes != [] {
      var a, b := lotes[0], Concat(lotes[1..]);
      DistinctParts(a, b);
      BatchesMergeAsOne(Mescla(t, a), lotes[1..]);
      FirstThenRest(t, a, b);
    } else {
      assert Novas(t, []) == [];
    }
  }

  // ---- runs that fail and are repeated -------------------------------------

  /** Merging a stream after a part of it was merged already: as if only once. */
  lemma PrefixIsAbsorbed(t: Tabela, p: seq<Linha>, s: seq<Linha>)
    requires p <= s && IdsDistintos(s) && TodasIdentificadas(s)
    ensures Mescla(Mescla(t, p), s) == Mescla(t, s)
  {
    var q := s[|p|..];
    assert s == p + q;
    DistinctParts(p, q);
    NovasAppend(Mescla(t, p), p, q);
    MergeAgainIff(t, p);
    NothingNew(t, p);
    SplitIff(t, p, q);
  }

  lemma NothingNew(t: Tabela, p: seq<Linha>)
    requires TodasIdentificadas(p)
    ensures Novas(Mescla(t, p), p) == []
  {
    NovasIn(Mescla(t, p), p);
    forall r | r in p ensures Casa(Mescla(t, p), r) {
      CasaAfter(t, p, r);
      assert MesmoId(r, r);
    }
  }

  ghost function AposTentativas(t: Tabela, tentativas: seq<seq<seq<Linha>>>): Tabela {
    if tentativas == [] then t
    else MesclaTodos(AposTentativas(t, tentativas[..|tentativas| - 1]), tentativas[|tentativas| - 1])
  }

  /** Runs one after the other are all their batches, one after the other. */
  lemma {:induction false} RunsAreBatches(t: Tabela, tentativas: seq<seq<seq<Linha>>>)
    ensures AposTentativas(t, tentativas) == MesclaTodos(t, Concat(tentativas))
  {
    if tentativas != [] {
      var n := |tentativas| - 1;
      RunsAreBatches(t, tentativas[..n]);
      ConcatLast(tentativas);
      BatchesInTurn(t, Concat(tentativas[..n]), tentativas[n], []);
    }
  }

  lemma ConcatLast(tentativas: seq<seq<seq<Linha>>>)
    requires tentativas != []
    ensures var n := |tentativas| - 1; Concat(tentativas) == Concat(tentativas[..n]) + tentativas[n]
  {
    var n := |tentativas| - 1;
    ConcatSnoc(tentativas[..n], tentativas[n]);
    assert tentativas == tentativas[..n] + [tentativas[n]];
  }

  /** Re-running is harmless: after any number of runs of the same stream that stopped
      anywhere, cut into any batches, one full run leaves exactly the rows one
      undisturbed run would have left, and any run after that inserts nothing. */
  lemma {:induction false} RerunsAreHarmless(t: Tabela, s: seq<Linha>, tentativas: seq<seq<seq<Linha>>>,
                                             completa: seq<seq<Linha>>)
    requires IdsDistintos(s) && TodasIdentificadas(s)
    requires forall k :: 0 <= k < |tentativas| ==> Concat(tentativas[k]) <= s
    requires Concat(completa) == s
    ensures MesclaTodos(AposTentativas(t, tentativas), completa) == Mescla(t, s)
    ensures forall outra {:trigger Concat(outra)} :: Concat(outra) <= s ==>
              MesclaTodos(Mescla(t, s), outra) == Mescla(t, s) && TotalInseridas(Mescla(t, s), outra) == 0
  {
    FailedRunsAreAPrefix(t, s, tentativas);
    var meio := AposTentativas(t, tentativas);
    var p :| p <= s && meio == Mescla(t, p);
    BatchesMergeAsOne(meio, completa);
    PrefixIsAbsorbed(t, p, s);
    forall outra | Concat(outra) <= s
      ensures MesclaTodos(Mescla(t, s), outra) == Mescla(t, s) && TotalInseridas(Mescla(t, s), outra) == 0
    {
      SecondRunInsertsNothing(t, s, outra);
    }
  }

  lemma PrefixFacts(p: seq<Linha>, s: seq<Linha>)
    requires p <= s && IdsDistintos(s) && TodasIdentificadas(s)
    ensures IdsDistintos(p) && TodasIdentificadas(p)
  {
    assert s == p + s[|p|..];
    DistinctParts(p, s[|p|..]);
  }

  lemma SecondRunInsertsNothing(t: Tabela, s: seq<Linha>, outra: seq<seq<Linha>>)
    requires IdsDistintos(s) && TodasIdentificadas(s) && Concat(outra) <= s
    ensures MesclaTodos(Mescla(t, s), outra) == Mescla(t, s)
    ensures TotalInseridas(Mescla(t, s), outra) == 0
  {
    var q := Concat(outra);
    PrefixFacts(q, s);
    BatchesMergeAsOne(Mescla(t, s), outra);
    NothingNewInPart(t, q, s);
  }

  lemma NothingNewInPart(t: Tabela, q: seq<Linha>, s: seq<Linha>)
    requires TodasIdentificadas(s) && q <= s
    ensures Novas(Mescla(t, s), q) == []
    ensures Mescla(Mescla(t, s), q) == Mescla(t, s)
  {
    NothingNew(t, s);
    NovasIn(Mescla(t, s), s);
    NovasIn(Mescla(t, s), q);
  }

  /** However many runs failed, the table is as after one run that got somewhere. */
  lemma {:induction false} FailedRunsAreAPrefix(t: Tabela, s: seq<Linha>, tentativas: seq<seq<seq<Linha>>>)
    requires IdsDistintos(s) && TodasIdentificadas(s)
    requires forall k :: 0 <= k < |tentativas| ==> Concat(tentativas[k]) <= s
    ensures exists p :: p <= s && AposTentativas(t, tentativas) == Mescla(t, p)
  {
    if tentativas == [] {
      assert [] <= s && Mescla(t, []) == t;
    } else {
      var n := |tentativas| - 1;
      var antes := AposTentativas(t, tentativas[..n]);
      FailedRunsAreAPrefix(t, s, tentativas[..n]);
      var p :| p <= s && antes == Mescla(t, p);
      var q := Concat(tentativas[n]);
      PrefixFacts(p, s);
      PrefixFacts(q, s);
      BatchesMergeAsOne(antes, tentativas[n]);
      if |p| <= |q| {
        assert p <= q;
        PrefixIsAbsorbed(t, p, q);
        assert AposTentativas(t, tentativas) == Mescla(t, q);
      } else {
        assert q <= p;
        assert Concat([q]) == q + Concat([q][1..]) == q;
        SecondRunInsertsNothing(t, p, [q]);
        assert MesclaTodos(Mescla(t, p), [q]) == MesclaTodos(Mescla(Mescla(t, p), q), [q][1..]);
        assert AposTentativas(t, tentativas) == Mescla(t, p);
      }
    }
  }

  /** The first load of a new table inserts without a MERGE; that is what merging into an
      empty table does. */
  lemma {:induction false} PlainLoadIsMergeIntoEmpty(lote: seq<Linha>)
    ensures Mescla(multiset{}, lote) == multiset(lote) && Inseridas(multiset{}, lote) == |lote|
  {
    EverythingIsNew(lote);
  }

  lemma EverythingIsNew(lote: seq<Linha>)
    ensures Novas(multiset{}, lote) == lote
  {
    NothingOut(lote, (r: Linha) => Casa(multiset{}, r));
  }

  lemma {:induction false} NothingOut(s: seq<Linha>, p: Linha -> bool)
    requires forall r :: r in s ==> !p(r)
    ensures Fora(s, p) == s
  {
    if s != [] { NothingOut(s[1..], p); }
  }
}
