/** The workflow graph: what a path, a cycle and a topological levelling are, and the
    facts about them that do not depend on any algorithm. */
module Graph {
  import opened Sets

  datatype Edge = Edge(de: string, para: string)

  datatype Workflow = Workflow(nodes: seq<string>, edges: seq<Edge>)

  predicate Distinct<T(==)>(s: seq<T>) {
    forall i, j :: 0 <= i < j < |s| ==> s[i] != s[j]
  }

  function Elems<T>(s: seq<T>): set<T> {
    set x | x in s
  }

  /** Ids are unique and edges join declared nodes: what Validate checks before it
      looks for cycles. */
  predicate ValidGraph(w: Workflow) {
    && Distinct(w.nodes)
    && forall e :: e in w.edges ==> e.de in w.nodes && e.para in w.nodes
  }

  lemma ValidGraphIff(w: Workflow)
    ensures ValidGraph(w) <==>
      && (forall i, j :: 0 <= i < |w.nodes| && 0 <= j < |w.nodes| && w.nodes[i] == w.nodes[j] ==> i == j)
      && (forall k :: 0 <= k < |w.edges| ==> w.edges[k].de in w.nodes && w.edges[k].para in w.nodes)
  {
    assert forall e :: e in w.edges <==> exists k :: 0 <= k < |w.edges| && w.edges[k] == e;
  }

  predicate Liga(w: Workflow, a: string, b: string) {
    Edge(a, b) in w.edges
  }

  predicate IsPath(w: Workflow, p: seq<string>) {
    && |p| >= 1
    && if |p| == 1 then p[0] in w.nodes else Liga(w, p[0], p[1]) && IsPath(w, p[1..])
  }

  /** A path step by step: along edges of the file, or a single node. */
  lemma {:induction false} PathEdges(w: Workflow, p: seq<string>)
    ensures IsPath(w, p) <==>
      p != [] && (forall i :: 0 <= i < |p| - 1 ==> Edge(p[i], p[i + 1]) in w.edges) && p[|p| - 1] in w.nodes
  {
    if |p| > 1 {
      PathEdges(w, p[1..]);
      if IsPath(w, p) {
        forall i | 0 <= i < |p| - 1 ensures Edge(p[i], p[i + 1]) in w.edges {
          if i > 0 { assert p[1..][i - 1] == p[i] && p[1..][i] == p[i + 1]; }
        }
      }
      if p != [] && (forall i :: 0 <= i < |p| - 1 ==> Edge(p[i], p[i + 1]) in w.edges) && p[|p| - 1] in w.nodes {
        forall i | 0 <= i < |p[1..]| - 1 ensures Edge(p[1..][i], p[1..][i + 1]) in w.edges {
          assert p[1..][i] == p[i + 1] && p[1..][i + 1] == p[i + 2];
        }
      }
    }
  }

  lemma {:induction false} PathSnoc(w: Workflow, p: seq<string>, n: string)
    requires ValidGraph(w) && IsPath(w, p) && Liga(w, p[|p| - 1], n)
    ensures IsPath(w, p + [n])
  {
    if |p| == 1 {
      assert (p + [n])[1..] == [n];
    } else {
      PathSnoc(w, p[1..], n);
      assert (p + [n])[1..] == p[1..] + [n];
    }
  }

  lemma {:induction false} PathSuffix(w: Workflow, p: seq<string>, i: nat)
    requires IsPath(w, p) && i < |p|
    ensures IsPath(w, p[i..])
  {
    if i == 0 {
      assert p[0..] == p;
    } else {
      PathSuffix(w, p[1..], i - 1);
      assert p[1..][i - 1..] == p[i..];
    }
  }

  lemma {:induction false} PathPrefix(w: Workflow, p: seq<string>, j: nat)
    requires ValidGraph(w) && IsPath(w, p) && 0 < j <= |p|
    ensures IsPath(w, p[..j])
  {
    PathStartsInGraph(w, p);
    if j > 1 {
      PathPrefix(w, p[1..], j - 1);
      assert p[1..][..j - 1] == p[..j][1..];
    }
  }

  lemma PathStartsInGraph(w: Workflow, p: seq<string>)
    requires ValidGraph(w) && IsPath(w, p)
    ensures p[0] in w.nodes
  {}

  ghost predicate IsCycle(w: Workflow, p: seq<string>) {
    IsPath(w, p) && |p| >= 2 && p[0] == p[|p| - 1]
  }

  ghost predicate Cyclic(w: Workflow) {
    exists p :: IsCycle(w, p)
  }

  // ---- levels ------------------------------------------------------------

  predicate InLevel(niveis: seq<seq<string>>, l: nat, n: string) {
    l < |niveis| && n in niveis[l]
  }

  ghost predicate InSome(niveis: seq<seq<string>>, n: string) {
    exists l: nat :: InLevel(niveis, l, n)
  }

  /** The levels so far: nodes, each at most once, each after all its predecessors and
      right after one of them. */
  ghost predicate Levels(w: Workflow, niveis: seq<seq<string>>) {
    && (forall l: nat {:trigger niveis[l]} :: l < |niveis| ==> niveis[l] != [] && Distinct(niveis[l]))
    && (forall l: nat, n :: InLevel(niveis, l, n) ==> n in w.nodes)
    && (forall l: nat, m: nat, n :: InLevel(niveis, l, n) && InLevel(niveis, m, n) ==> l == m)
    && (forall l: nat, n, a :: InLevel(niveis, l, n) && Liga(w, a, n) ==> EarlierThan(niveis, a, l))
    && (forall l: nat, n {:trigger InLevel(niveis, l, n)} :: InLevel(niveis, l, n) && l > 0 ==>
          exists a :: Liga(w, a, n) && InLevel(niveis, l - 1, a))
  }

  ghost predicate EarlierThan(niveis: seq<seq<string>>, a: string, l: nat) {
    exists m: nat :: m < l && InLevel(niveis, m, a)
  }

  /** A complete levelling: every node of the workflow has its level. */
  ghost predicate IsLevelling(w: Workflow, niveis: seq<seq<string>>) {
    Levels(w, niveis) && forall n :: n in w.nodes ==> InSome(niveis, n)
  }

  /** A levelling place by place: every node stands somewhere... */
  lemma EveryNodePlaced(w: Workflow, niveis: seq<seq<string>>, n: string)
    requires IsLevelling(w, niveis) && n in w.nodes
    ensures exists l, i :: 0 <= l < |niveis| && 0 <= i < |niveis[l]| && niveis[l][i] == n
  {
    var l: nat :| InLevel(niveis, l, n);
  }

  /** ...and in one place only; each edge goes from a level to a later one; and a node above
      the first level has an edge from the level just below. */
  lemma PlacesMean(w: Workflow, niveis: seq<seq<string>>, l: nat, i: nat, m: nat, j: nat)
    requires IsLevelling(w, niveis) && l < |niveis| && i < |niveis[l]| && m < |niveis| && j < |niveis[m]|
    ensures niveis[l][i] in w.nodes
    ensures niveis[l][i] == niveis[m][j] ==> l == m && i == j
    ensures Edge(niveis[l][i], niveis[m][j]) in w.edges ==> l < m
    ensures m > 0 ==> exists a :: a in niveis[m - 1] && Edge(a, niveis[m][j]) in w.edges
  {
    assert InLevel(niveis, l, niveis[l][i]) && InLevel(niveis, m, niveis[m][j]);
    if niveis[l][i] == niveis[m][j] { assert l == m && Distinct(niveis[l]); }
    if Edge(niveis[l][i], niveis[m][j]) in w.edges { EdgeClimbs(w, niveis, l, niveis[l][i], m, niveis[m][j]); }
    if m > 0 {
      var a :| Liga(w, a, niveis[m][j]) && InLevel(niveis, m - 1, a);
    }
  }

  lemma EdgeClimbs(w: Workflow, niveis: seq<seq<string>>, l: nat, a: string, m: nat, b: string)
    requires Levels(w, niveis) && InLevel(niveis, l, a) && InLevel(niveis, m, b) && Liga(w, a, b)
    ensures l < m
  {
    assert EarlierThan(niveis, a, m);
  }

  /** A node's level is one less than the number of nodes on the longest path that
      ends in it: some path is that long, and starts at a root; none is longer. */
  ghost predicate LongestPathTo(w: Workflow, n: string, l: nat) {
    && (exists p :: IsPath(w, p) && |p| == l + 1 && p[l] == n && forall a :: !Liga(w, a, p[0]))
    && (forall p :: IsPath(w, p) && p[|p| - 1] == n ==> |p| <= l + 1)
  }

  /** Every edge of a path climbs at least one level. */
  lemma {:induction false} PathClimbs(w: Workflow, niveis: seq<seq<string>>, p: seq<string>, m: nat, l: nat)
    requires ValidGraph(w) && IsLevelling(w, niveis) && IsPath(w, p)
    requires InLevel(niveis, m, p[0]) && InLevel(niveis, l, p[|p| - 1])
    ensures m + |p| - 1 <= l
    decreases |p|
  {
    if |p| > 1 {
      PathStartsInGraph(w, p[1..]);
      var k: nat :| InLevel(niveis, k, p[1]);
      PathClimbs(w, niveis, p[1..], k, l);
      assert EarlierThan(niveis, p[0], k);
    }
  }

  lemma {:induction false} PathFromRoot(w: Workflow, niveis: seq<seq<string>>, n: string, l: nat) returns (p: seq<string>)
    requires ValidGraph(w) && IsLevelling(w, niveis) && InLevel(niveis, l, n)
    ensures IsPath(w, p) && |p| == l + 1 && p[l] == n && forall a :: !Liga(w, a, p[0])
    decreases l
  {
    if l == 0 {
      p := [n];
      forall a ensures !Liga(w, a, n) {
        assert !EarlierThan(niveis, a, 0);
      }
    } else {
      var a :| Liga(w, a, n) && InLevel(niveis, l - 1, a);
      var q := PathFromRoot(w, niveis, a, l - 1);
      p := q + [n];
      PathSnoc(w, q, n);
    }
  }

  lemma LevelIsLongestPath(w: Workflow, niveis: seq<seq<string>>, n: string, l: nat)
    requires ValidGraph(w) && IsLevelling(w, niveis) && InLevel(niveis, l, n)
    ensures LongestPathTo(w, n, l)
  {
    var p := PathFromRoot(w, niveis, n, l);
    forall q | IsPath(w, q) && q[|q| - 1] == n ensures |q| <= l + 1 {
      PathStartsInGraph(w, q);
      var m: nat :| InLevel(niveis, m, q[0]);
      PathClimbs(w, niveis, q, m, l);
    }
  }

  /** Levels do not depend on how they were computed. */
  lemma LevelIsUnique(w: Workflow, a: seq<seq<string>>, b: seq<seq<string>>, n: string, l: nat, m: nat)
    requires ValidGraph(w) && IsLevelling(w, a) && IsLevelling(w, b) && InLevel(a, l, n) && InLevel(b, m, n)
    ensures l == m
  {
    var p := PathFromRoot(w, a, n, l);
    var q := PathFromRoot(w, b, n, m);
    LevelIsLongestPath(w, a, n, l);
    LevelIsLongestPath(w, b, n, m);
  }

  lemma LevellingIsAcyclic(w: Workflow, niveis: seq<seq<string>>)
    requires ValidGraph(w) && IsLevelling(w, niveis)
    ensures !Cyclic(w)
  {
    forall p | IsPath(w, p) ensures |p| < 2 || p[0] != p[|p| - 1] {
      PathStartsInGraph(w, p);
      var m: nat :| InLevel(niveis, m, p[0]);
      if p[0] == p[|p| - 1] { PathClimbs(w, niveis, p, m, m); }
    }
  }

  // ---- cycles ------------------------------------------------------------

  ghost predicate PredIn(w: Workflow, r: set<string>, n: string) {
    exists a :: a in r && Liga(w, a, n)
  }

  /** Nothing in `r` can ever run: each node waits for another one of `r`. */
  ghost predicate Preso(w: Workflow, r: set<string>) {
    && r <= Elems(w.nodes)
    && forall n {:trigger PredIn(w, r, n)} :: n in r ==> PredIn(w, r, n)
  }

  /** A non-empty set of nodes, each with a predecessor in the set, holds a cycle:
      walk backwards until a node repeats. */
  lemma StuckSetHasCycle(w: Workflow, r: set<string>)
    requires ValidGraph(w) && r != {} && Preso(w, r)
    ensures Cyclic(w)
  {
    var p := WalkBack(w, r, |r| + 1);
    var i, j := Pigeonhole(p, r);
    PathSuffix(w, p, i);
    PathPrefix(w, p[i..], j + 1 - i);
    assert IsCycle(w, p[i..][..j + 1 - i]);
  }

  lemma {:induction false} WalkBack(w: Workflow, r: set<string>, k: nat) returns (p: seq<string>)
    requires r != {} && k >= 1 && Preso(w, r)
    ensures IsPath(w, p) && |p| == k && forall i :: 0 <= i < |p| ==> p[i] in r
  {
    if k == 1 {
      var n :| n in r;
      p := [n];
    } else {
      var q := WalkBack(w, r, k - 1);
      assert PredIn(w, r, q[0]);
      var a :| a in r && Liga(w, a, q[0]);
      p := [a] + q;
      assert p[1..] == q;
    }
  }

  lemma {:induction false} Pigeonhole(p: seq<string>, r: set<string>) returns (i: nat, j: nat)
    requires |p| > |r| && forall k :: 0 <= k < |p| ==> p[k] in r
    ensures i < j < |p| && p[i] == p[j]
  {
    RepeatsSomewhere(p, r);
    i, j :| 0 <= i < j < |p| && p[i] == p[j];
  }

  lemma RepeatsSomewhere(p: seq<string>, r: set<string>)
    requires |p| > |r| && forall k :: 0 <= k < |p| ==> p[k] in r
    ensures !Distinct(p)
  {
    SubsetSize(Elems(p), r);
    if Distinct(p) { DistinctSize(p); }
  }

  lemma {:induction false} DistinctSize<T>(s: seq<T>)
    requires Distinct(s)
    ensures |Elems(s)| == |s|
  {
    if s != [] {
      var t, x := s[..|s| - 1], s[|s| - 1];
      assert s == t + [x];
      DistinctSize(t);
      LastElem(t, x);
      assert x !in Elems(t);
    }
  }

  lemma LastElem<T>(t: seq<T>, x: T)
    ensures Elems(t + [x]) == Elems(t) + {x}
  {
    var s := t + [x];
    forall y ensures y in Elems(s) <==> y in Elems(t) || y == x {
      if y in Elems(t) { assert y in t && y in s; }
    }
  }

  /** A finishing order in which every successor of a node comes before it rules out
      cycles among the nodes ordered. */
  ghost predicate FinishOrder(w: Workflow, ordem: seq<string>) {
    forall k {:trigger Before(w, ordem, k)} :: 0 <= k < |ordem| ==> Before(w, ordem, k)
  }

  ghost predicate Before(w: Workflow, ordem: seq<string>, k: nat)
    requires k < |ordem|
  {
    forall b :: Liga(w, ordem[k], b) ==> b in ordem[..k]
  }

  lemma {:induction false} PathDescends(w: Workflow, ordem: seq<string>, p: seq<string>, k: nat) returns (l: nat)
    requires FinishOrder(w, ordem) && IsPath(w, p) && k < |ordem| && p[0] == ordem[k]
    ensures l <= k && p[|p| - 1] == ordem[l] && (|p| > 1 ==> l < k)
    decreases |p|
  {
    if |p| == 1 {
      l := k;
    } else {
      assert Before(w, ordem, k) && Liga(w, ordem[k], p[1]);
      var m :| 0 <= m < k && ordem[m] == p[1];
      l := PathDescends(w, ordem, p[1..], m);
    }
  }

  /** Following a cycle round would find its first node earlier and earlier. */
  lemma {:induction false} NoCycleAt(w: Workflow, ordem: seq<string>, p: seq<string>, k: nat)
    requires FinishOrder(w, ordem) && IsPath(w, p) && |p| >= 2 && k < |ordem| && p[0] == ordem[k]
    ensures p[0] != p[|p| - 1]
    decreases k
  {
    var l := PathDescends(w, ordem, p, k);
    if p[0] == p[|p| - 1] { NoCycleAt(w, ordem, p, l); }
  }

  lemma FinishOrderIsAcyclic(w: Workflow, ordem: seq<string>)
    requires ValidGraph(w) && FinishOrder(w, ordem)
    requires forall n :: n in w.nodes ==> n in ordem
    ensures !Cyclic(w)
  {
    forall p | IsPath(w, p) && |p| >= 2 ensures p[0] != p[|p| - 1] {
      PathStartsInGraph(w, p);
      var k :| 0 <= k < |ordem| && ordem[k] == p[0];
      NoCycleAt(w, ordem, p, k);
    }
  }
}
