/** The persistent queue (internal/queue): a table of rows with claim marks. */
module Queue {
  import opened Options
  import opened Sets

  type RunId = nat

  /** The columns of `runs` that the claim query joins. Written once, at creation. */
  datatype RunInfo = RunInfo(slug: string, maxAtivos: nat)

  datatype Marca = Marca(em: int, por: string)

  datatype Row = Row(run: RunId, prioridade: int, disponivelEm: int, marca: Option<Marca>)

  type Table = map<nat, Row>

  datatype Item = Item(id: nat, run: RunId, prioridade: int)

  // ---- the claim query ---------------------------------------------------

  /** ORDER BY prioridade DESC, disponivel_em, id. */
  predicate Before(t: Table, i: nat, j: nat) {
    i in t && j in t &&
    (t[i].prioridade > t[j].prioridade ||
     (t[i].prioridade == t[j].prioridade &&
      (t[i].disponivelEm < t[j].disponivelEm ||
       (t[i].disponivelEm == t[j].disponivelEm && i < j))))
  }

  /** `em_voo`: the claimed rows of one workflow. */
  function EmVoo(t: Table, info: RunId -> RunInfo, slug: string): set<nat> {
    set i | i in t && t[i].marca.Some? && info(t[i].run).slug == slug
  }

  predicate Elegivel(t: Table, agora: int, i: nat) {
    i in t && t[i].marca.None? && t[i].disponivelEm <= agora
  }

  /** The eligible rows that row_number() counts before `i` in its partition. */
  function Anteriores(t: Table, info: RunId -> RunInfo, agora: int, i: nat): set<nat>
    requires i in t
  {
    set j | j in t && Elegivel(t, agora, j) && info(t[j].run).slug == info(t[i].run).slug && Before(t, j, i)
  }

  predicate Admissivel(t: Table, info: RunId -> RunInfo, agora: int, i: nat) {
    && Elegivel(t, agora, i)
    && var r := info(t[i].run);
       r.maxAtivos == 0 || |EmVoo(t, info, r.slug)| + |Anteriores(t, info, agora, i)| + 1 <= r.maxAtivos
  }

  function Admissiveis(t: Table, info: RunId -> RunInfo, agora: int): set<nat> {
    set i | i in t && Admissivel(t, info, agora, i)
  }

  /** The rows of `ids` carry the mark, everything else is as it was. */
  function Marcar(t: Table, ids: set<nat>, marca: Option<Marca>): (r: Table)
    ensures r.Keys == t.Keys
  {
    map i | i in t :: if i in ids then t[i].(marca := marca) else t[i]
  }

  function IdsOf(itens: seq<Item>): set<nat> {
    set k | 0 <= k < |itens| :: itens[k].id
  }

  predicate ItemOf(t: Table, it: Item) {
    it.id in t && it.run == t[it.id].run && it.prioridade == t[it.id].prioridade
  }

  /** What one claim statement may return: in priority order, the first `limite`
      admissible rows that no other transaction holds. */
  ghost predicate IsPick(t: Table, livres: set<nat>, limite: int, itens: seq<Item>) {
    && livres <= t.Keys
    && (forall k :: 0 <= k < |itens| ==> itens[k].id in livres && ItemOf(t, itens[k]))
    && (forall k, l :: 0 <= k < l < |itens| ==> Before(t, itens[k].id, itens[l].id))
    && (forall k, j :: 0 <= k < |itens| && j in livres && j !in IdsOf(itens) ==> Before(t, itens[k].id, j))
    && (|itens| >= limite || IdsOf(itens) == livres)
    && |itens| <= (if limite < 0 then 0 else limite)
  }

  lemma OrderIsTotal(t: Table, s: set<nat>)
    requires s <= t.Keys
    ensures TotalOn((i: nat, j: nat) => Before(t, i, j), s)
  {}

  /** The answer is determined: two picks of the same table are the same list. */
  lemma {:induction false} PickIsUnique(t: Table, livres: set<nat>, limite: int, a: seq<Item>, b: seq<Item>)
    requires IsPick(t, livres, limite, a) && IsPick(t, livres, limite, b)
    ensures a == b
  {
    PickPrefix(t, livres, limite, a, b);
    PickPrefix(t, livres, limite, b, a);
    PickNotShorter(t, livres, limite, a, b);
    PickNotShorter(t, livres, limite, b, a);
  }

  lemma PickNotShorter(t: Table, livres: set<nat>, limite: int, a: seq<Item>, b: seq<Item>)
    requires IsPick(t, livres, limite, a) && IsPick(t, livres, limite, b)
    requires forall k :: 0 <= k < |a| && k < |b| ==> a[k] == b[k]
    ensures |a| >= |b|
  {
    if |a| < |b| {
      PickCovers(t, livres, limite, a, b[|a|].id);
    }
  }

  lemma PickCovers(t: Table, livres: set<nat>, limite: int, a: seq<Item>, j: nat)
    requires IsPick(t, livres, limite, a) && |a| < limite && j in livres
    ensures exists k :: 0 <= k < |a| && a[k].id == j
  {
    assert j in IdsOf(a);
  }

  lemma {:induction false} PickPrefix(t: Table, livres: set<nat>, limite: int, a: seq<Item>, b: seq<Item>)
    requires IsPick(t, livres, limite, a) && IsPick(t, livres, limite, b)
    ensures forall k :: 0 <= k < |a| && k < |b| ==> a[k] == b[k]
  {
    if exists k :: 0 <= k < |a| && k < |b| && a[k] != b[k] {
      var k := FirstDifference(a, b);
      assert a[k].id !in IdsOf(b[..k]) && b[k].id !in IdsOf(a[..k]) by {
        forall l | 0 <= l < k ensures a[l].id != a[k].id && b[l].id != b[k].id {
          assert Before(t, a[l].id, a[k].id) && Before(t, b[l].id, b[k].id);
        }
      }
      AfterOrEqual(t, livres, limite, a, k, b[k].id);
      AfterOrEqual(t, livres, limite, b, k, a[k].id);
    }
  }

  lemma AfterOrEqual(t: Table, livres: set<nat>, limite: int, a: seq<Item>, k: nat, j: nat)
    requires IsPick(t, livres, limite, a) && k < |a| && j in livres
    requires j !in IdsOf(a[..k])
    ensures j == a[k].id || Before(t, a[k].id, j)
  {
    forall l | 0 <= l < k ensures a[l].id != j {
      assert a[..k][l] == a[l] && a[..k][l].id in IdsOf(a[..k]);
    }
  }

  lemma {:induction false} FirstDifference(a: seq<Item>, b: seq<Item>) returns (k: nat)
    requires exists k :: 0 <= k < |a| && k < |b| && a[k] != b[k]
    ensures k < |a| && k < |b| && a[k] != b[k] && a[..k] == b[..k]
  {
    k := 0;
    while a[k] == b[k]
      invariant k < |a| && k < |b| && a[..k] == b[..k]
      invariant exists l :: k <= l < |a| && l < |b| && a[l] != b[l]
      decreases |a| - k
    {
      assert a[..k + 1] == a[..k] + [a[k]] && b[..k + 1] == b[..k] + [b[k]];
      k := k + 1;
    }
  }

  /** The order of a pick, column by column: along the list, and from the list to every
      free row left behind, priority does not rise, of one priority the earlier date comes
      first, and of one date the smaller id. A pick shorter than `limite` leaves nothing. */
  lemma PickOrder(t: Table, livres: set<nat>, limite: int, itens: seq<Item>)
    requires IsPick(t, livres, limite, itens)
    ensures forall k :: 0 <= k < |itens| ==>
              && itens[k].id in livres && itens[k].id in t
              && itens[k].run == t[itens[k].id].run && itens[k].prioridade == t[itens[k].id].prioridade
    ensures forall k, l :: 0 <= k < l < |itens| ==>
              var a, b := t[itens[k].id], t[itens[l].id];
              && a.prioridade >= b.prioridade
              && (a.prioridade == b.prioridade ==> a.disponivelEm <= b.disponivelEm)
              && (a.prioridade == b.prioridade && a.disponivelEm == b.disponivelEm ==> itens[k].id < itens[l].id)
    ensures forall j :: j in livres && (forall l :: 0 <= l < |itens| ==> itens[l].id != j) ==>
              j in t && forall k :: 0 <= k < |itens| ==>
                 var a, b := t[itens[k].id], t[j];
                 && a.prioridade >= b.prioridade
                 && (a.prioridade == b.prioridade ==> a.disponivelEm <= b.disponivelEm)
                 && (a.prioridade == b.prioridade && a.disponivelEm == b.disponivelEm ==> itens[k].id < j)
    ensures |itens| < limite ==> forall j :: j in livres ==> exists k :: 0 <= k < |itens| && itens[k].id == j
    ensures |itens| <= if limite < 0 then 0 else limite
  {
    assert forall k, l :: 0 <= k < l < |itens| ==> Before(t, itens[k].id, itens[l].id);
    forall j | j in livres && (forall l :: 0 <= l < |itens| ==> itens[l].id != j)
      ensures forall k :: 0 <= k < |itens| ==> Before(t, itens[k].id, j)
    {
      assert j !in IdsOf(itens);
    }
  }

  /** What a claim may take, column by column: a row without a mark and due, and, under a
      limit, only as long as the claimed rows of its workflow and the rows due ahead of it
      leave room. */
  lemma AdmittedIff(t: Table, info: RunId -> RunInfo, agora: int, i: nat)
    ensures i in Admissiveis(t, info, agora) <==>
              && i in t && t[i].marca.None? && t[i].disponivelEm <= agora
              && (info(t[i].run).maxAtivos == 0 ||
                  |set j | j in t && t[j].marca.Some? && info(t[j].run).slug == info(t[i].run).slug|
                  + |set j | j in t && j != i && t[j].marca.None? && t[j].disponivelEm <= agora
                           && info(t[j].run).slug == info(t[i].run).slug && t[j].prioridade >= t[i].prioridade
                           && (t[j].prioridade == t[i].prioridade ==> t[j].disponivelEm <= t[i].disponivelEm)
                           && (t[j].prioridade == t[i].prioridade && t[j].disponivelEm == t[i].disponivelEm ==> j < i)|
                  < info(t[i].run).maxAtivos)
  {
    if i in t {
      var slug := info(t[i].run).slug;
      assert EmVoo(t, info, slug) == set j | j in t && t[j].marca.Some? && info(t[j].run).slug == slug;
      assert Anteriores(t, info, agora, i) ==
        set j | j in t && j != i && t[j].marca.None? && t[j].disponivelEm <= agora
              && info(t[j].run).slug == slug && t[j].prioridade >= t[i].prioridade
              && (t[j].prioridade == t[i].prioridade ==> t[j].disponivelEm <= t[i].disponivelEm)
              && (t[j].prioridade == t[i].prioridade && t[j].disponivelEm == t[i].disponivelEm ==> j < i);
    }
  }

  // ---- the table as an object --------------------------------------------

  /** ORDER BY ... LIMIT: the first `limite` rows of `livres`. */
  method OsPrimeiros(t: Table, livres: set<nat>, limite: nat) returns (out: seq<Item>)
    requires livres <= t.Keys
    ensures IsPick(t, livres, limite, out)
  {
    out := [];
    var resto := livres;
    while |out| < limite && resto != {}
      invariant resto <= livres && |out| <= limite
      invariant IdsOf(out) == livres - resto
      invariant forall k :: 0 <= k < |out| ==> ItemOf(t, out[k])
      invariant forall k, l :: 0 <= k < l < |out| ==> Before(t, out[k].id, out[l].id)
      invariant forall k, j :: 0 <= k < |out| && j in resto ==> Before(t, out[k].id, j)
      decreases resto
    {
      OneIsFirst(t, resto);
      var m :| m in resto && forall j :: j in resto && j != m ==> Before(t, m, j);
      ghost var antes := out;
      out := out + [Item(m, t[m].run, t[m].prioridade)];
      resto := resto - {m};
      IdsOfSnoc(antes, out[|antes|]);
    }
    forall k | 0 <= k < |out| ensures out[k].id in livres { assert out[k].id in IdsOf(out); }
  }

  lemma OneIsFirst(t: Table, s: set<nat>)
    requires s <= t.Keys && s != {}
    ensures exists m :: m in s && forall j :: j in s && j != m ==> Before(t, m, j)
  {
    OrderIsTotal(t, s);
    FirstExists((i: nat, j: nat) => Before(t, i, j), s);
    var w :| IsFirst((i: nat, j: nat) => Before(t, i, j), s, w);
    assert w in s && forall j :: j in s && j != w ==> Before(t, w, j);
  }

  class Fila {
    var itens: Table
    var proximoId: nat

    /** Primary key below the sequence, and UNIQUE (run_id). */
    ghost predicate Valid()
      reads this
    {
      && (forall i :: i in itens ==> i < proximoId)
      && UniqueRuns(itens)
    }

    constructor ()
      ensures Valid() && itens == map[]
    {
      itens, proximoId := map[], 0;
    }

    /** INSERT ... ON CONFLICT (run_id) DO NOTHING. */
    method Enqueue(run: RunId, prioridade: int, disponivelEm: Option<int>, agora: int)
      requires Valid()
      modifies this
      ensures Valid()
      ensures itens == Enqueued(old(itens), old(proximoId), run, prioridade,
                                if disponivelEm.Some? then disponivelEm.value else agora)
      ensures if exists i :: i in old(itens) && old(itens)[i].run == run then itens == old(itens)
              else old(proximoId) !in old(itens) && itens == old(itens)[old(proximoId) := Row(run, prioridade,
                     if disponivelEm.Some? then disponivelEm.value else agora, None)]
    {
      if run !in (set i | i in itens :: itens[i].run) {
        var quando := if disponivelEm.Some? then disponivelEm.value else agora;
        itens := itens[proximoId := Row(run, prioridade, quando, None)];
        proximoId := proximoId + 1;
      }
    }

    /** `travados` are the rows other claims hold locked (SKIP LOCKED). */
    method Claim(worker: string, limite: int, info: RunId -> RunInfo, travados: set<nat>, agora: int)
      returns (out: seq<Item>)
      requires Valid()
      modifies this`itens
      ensures Valid()
      ensures IsPick(old(itens), Admissiveis(old(itens), info, agora) - travados, limite, out)
      ensures itens == Marcar(old(itens), IdsOf(out), Some(Marca(agora, worker)))
      ensures itens.Keys == old(itens).Keys
      ensures forall i :: i in old(itens) ==>
                itens[i] == if exists k :: 0 <= k < |out| && out[k].id == i
                            then old(itens)[i].(marca := Some(Marca(agora, worker))) else old(itens)[i]
    {
      out := [];
      if limite <= 0 {
        assert itens == Marcar(itens, IdsOf(out), Some(Marca(agora, worker)));
        return;
      }
      var livres := Admissiveis(itens, info, agora) - travados;
      out := OsPrimeiros(itens, livres, limite);
      itens := Marcar(itens, IdsOf(out), Some(Marca(agora, worker)));
    }

    method Done(id: nat)
      requires Valid()
      modifies this`itens
      ensures Valid()
      ensures itens == old(itens) - {id}
    {
      itens := itens - {id};
    }

    method Release(id: nat, atraso: int, agora: int)
      requires Valid()
      modifies this`itens
      ensures Valid()
      ensures itens == Released(old(itens), id, agora + atraso)
      ensures itens == if id in old(itens) then old(itens)[id := old(itens)[id].(marca := None, disponivelEm := agora + atraso)]
                       else old(itens)
    {
      if id in itens {
        itens := itens[id := itens[id].(marca := None, disponivelEm := agora + atraso)];
      }
    }

    /** Clears every claim older than `limite`, and reports which rows those were. */
    method Recuperar(limite: int, agora: int) returns (velhos: set<nat>)
      requires Valid()
      modifies this`itens
      ensures Valid()
      ensures forall i :: i in velhos <==>
                i in old(itens) && old(itens)[i].marca.Some? && old(itens)[i].marca.value.em < agora - limite
      ensures itens == Marcar(old(itens), velhos, None)
      ensures itens.Keys == old(itens).Keys
      ensures forall i :: i in old(itens) ==>
                itens[i] == if i in velhos then old(itens)[i].(marca := None) else old(itens)[i]
    {
      velhos := set i | i in itens && itens[i].marca.Some? && itens[i].marca.value.em < agora - limite;
      itens := Marcar(itens, velhos, None);
    }
  }

  lemma IdsOfSnoc(s: seq<Item>, x: Item)
    ensures IdsOf(s + [x]) == IdsOf(s) + {x.id}
  {
    forall i | i in IdsOf(s) + {x.id} ensures i in IdsOf(s + [x]) {
      if i == x.id {
        assert (s + [x])[|s|].id == i;
      } else {
        var k :| 0 <= k < |s| && s[k].id == i;
        assert (s + [x])[k].id == i;
      }
    }
  }

  ghost predicate UniqueRuns(t: Table) {
    forall i, j :: i in t && j in t && t[i].run == t[j].run ==> i == j
  }

  function Enqueued(t: Table, id: nat, run: RunId, prioridade: int, disponivelEm: int): Table {
    if run in (set i | i in t :: t[i].run) then t
    else t[id := Row(run, prioridade, disponivelEm, None)]
  }

  function Released(t: Table, id: nat, disponivelEm: int): Table {
    if id in t then t[id := t[id].(marca := None, disponivelEm := disponivelEm)] else t
  }

  // ---- the per-workflow limit --------------------------------------------

  function AdmissiveisDe(t: Table, info: RunId -> RunInfo, agora: int, slug: string): set<nat> {
    set i | i in t && Admissivel(t, info, agora, i) && info(t[i].run).slug == slug
  }

  ghost predicate SharedLimit(info: RunId -> RunInfo, slug: string, m: nat) {
    m > 0 && forall r: RunId :: info(r).slug == slug ==> info(r).maxAtivos == m
  }

  /** Everything one query admits fits beside what is already claimed: the last
      admitted row is preceded by all the others. */
  lemma AdmissiveisFit(t: Table, info: RunId -> RunInfo, agora: int, slug: string, m: nat)
    requires SharedLimit(info, slug, m) && |EmVoo(t, info, slug)| <= m
    ensures |EmVoo(t, info, slug) + AdmissiveisDe(t, info, agora, slug)| <= m
  {
    var a := AdmissiveisDe(t, info, agora, slug);
    var v := EmVoo(t, info, slug);
    if a != {} {
      OrderIsTotal(t, a);
      var lt := (i: nat, j: nat) => Before(t, i, j);
      LastExists(lt, a);
      var z :| IsLast(lt, a, z);
      assert forall j :: j in a && j != z ==> lt(j, z);
      assert a - {z} <= Anteriores(t, info, agora, z);
      SubsetSize(a - {z}, Anteriores(t, info, agora, z));
      assert |v + a| <= |v| + |a|;
    } else {
      assert v + a == v;
    }
  }

  /** The table together with the snapshot the running claims were computed on. */
  datatype QState = QState(t: Table, proximo: nat, foto: Table, em: int)

  datatype QStep =
    | QFoto(agora: int)
    | QClaim(ids: set<nat>, marca: Marca)
    | QEnqueue(run: RunId, prioridade: int, disponivelEm: int)
    | QDone(id: nat)
    | QRelease(id: nat, disponivelEm: int)
    | QRecuperar(ids: set<nat>)

  /** Claims take rows that the snapshot admits and that nobody has taken since;
      any number of claims may work on one snapshot, in any order, between any
      other statements. A new snapshot is what is committed at that moment. */
  ghost predicate QNext(info: RunId -> RunInfo, s: QState, step: QStep, s': QState) {
    match step
    case QFoto(agora) => s' == s.(foto := s.t, em := agora)
    case QClaim(ids, marca) =>
      && ids <= Admissiveis(s.foto, info, s.em)
      && (forall i :: i in ids ==> i in s.t && s.t[i].marca.None?)
      && s' == s.(t := Marcar(s.t, ids, Some(marca)))
    case QEnqueue(run, p, d) =>
      s' == s.(t := Enqueued(s.t, s.proximo, run, p, d), proximo := s.proximo + 1)
    case QDone(id) => s' == s.(t := s.t - {id})
    case QRelease(id, d) => s' == s.(t := Released(s.t, id, d))
    case QRecuperar(ids) => s' == s.(t := Marcar(s.t, ids, None))
  }

  ghost predicate QInit(s: QState) {
    s.t == map[] && s.foto == map[]
  }

  ghost predicate QInv(info: RunId -> RunInfo, slug: string, m: nat, s: QState) {
    && (forall i :: i in s.t || i in s.foto ==> i < s.proximo)
    && (forall i :: i in s.t && i in s.foto ==> s.t[i].run == s.foto[i].run)
    && EmVoo(s.t, info, slug) <= EmVoo(s.foto, info, slug) + AdmissiveisDe(s.foto, info, s.em, slug)
    && |EmVoo(s.foto, info, slug) + AdmissiveisDe(s.foto, info, s.em, slug)| <= m
  }

  lemma QStepKeepsInv(info: RunId -> RunInfo, slug: string, m: nat, s: QState, step: QStep, s': QState)
    requires SharedLimit(info, slug, m) && QInv(info, slug, m, s) && QNext(info, s, step, s')
    ensures QInv(info, slug, m, s')
  {
    if step.QFoto? {
      var teto := EmVoo(s.foto, info, slug) + AdmissiveisDe(s.foto, info, s.em, slug);
      SubsetSize(EmVoo(s.t, info, slug), teto);
      AdmissiveisFit(s.t, info, step.agora, slug, m);
    } else {
      TableStep(info, slug, s, step, s');
    }
  }

  /** A statement on the table marks, of this workflow, only rows the snapshot admits. */
  lemma TableStep(info: RunId -> RunInfo, slug: string, s: QState, step: QStep, s': QState)
    requires QNext(info, s, step, s') && !step.QFoto?
    requires forall i :: i in s.t || i in s.foto ==> i < s.proximo
    requires forall i :: i in s.t && i in s.foto ==> s.t[i].run == s.foto[i].run
    ensures s'.foto == s.foto && s'.em == s.em && s.proximo <= s'.proximo
    ensures forall i :: i in s'.t || i in s.foto ==> i < s'.proximo
    ensures forall i :: i in s'.t && i in s.foto ==> s'.t[i].run == s.foto[i].run
    ensures EmVoo(s'.t, info, slug) <= EmVoo(s.t, info, slug) + AdmissiveisDe(s.foto, info, s.em, slug)
  {
    forall i | i in EmVoo(s'.t, info, slug) && i !in EmVoo(s.t, info, slug)
      ensures i in AdmissiveisDe(s.foto, info, s.em, slug)
    {
      match step
      case QClaim(ids, marca) =>
      case _ =>
    }
  }

  ghost predicate QTrace(info: RunId -> RunInfo, states: seq<QState>, steps: seq<QStep>) {
    && |states| == |steps| + 1
    && QInit(states[0])
    && forall k {:trigger steps[k]} :: 0 <= k < |steps| ==> QNext(info, states[k], steps[k], states[k + 1])
  }

  /** Every queue starts empty, and from there any statement can come. */
  lemma QueueStarts(info: RunId -> RunInfo, agora: int, run: RunId, prioridade: int, quando: int)
    ensures var s := QState(map[], 0, map[], agora);
      QTrace(info, [s, QState(map[0 := Row(run, prioridade, quando, None)], 1, map[], agora)], [QEnqueue(run, prioridade, quando)])
  {
  }

  /** At no moment of any run of the queue are more rows of a workflow claimed
      than its limit, however claims of one snapshot interleave. */
  lemma {:induction false} ClaimedNeverExceedsLimit(info: RunId -> RunInfo, slug: string, m: nat,
                                                    states: seq<QState>, steps: seq<QStep>, k: nat)
    requires SharedLimit(info, slug, m) && QTrace(info, states, steps) && k < |states|
    ensures |EmVoo(states[k].t, info, slug)| <= m
    ensures |set i | i in states[k].t && states[k].t[i].marca.Some? && info(states[k].t[i].run).slug == slug| <= m
    ensures QInv(info, slug, m, states[k])
  {
    if k > 0 {
      ClaimedNeverExceedsLimit(info, slug, m, states, steps, k - 1);
      QStepKeepsInv(info, slug, m, states[k - 1], steps[k - 1], states[k]);
    }
    var s := states[k];
    SubsetSize(EmVoo(s.t, info, slug), EmVoo(s.foto, info, slug) + AdmissiveisDe(s.foto, info, s.em, slug));
    assert EmVoo(s.t, info, slug) == set i | i in s.t && s.t[i].marca.Some? && info(s.t[i].run).slug == slug;
  }

  /** The method's claim is one of those steps. */
  lemma PickIsAStep(info: RunId -> RunInfo, t: Table, proximo: nat, agora: int, travados: set<nat>,
                    limite: int, itens: seq<Item>, marca: Marca)
    requires IsPick(t, Admissiveis(t, info, agora) - travados, limite, itens)
    ensures QNext(info, QState(t, proximo, t, agora), QClaim(IdsOf(itens), marca),
                  QState(Marcar(t, IdsOf(itens), Some(marca)), proximo, t, agora))
  {}

  /** What a release means to later claims: that row is eligible again from `quando` on,
      every other row as before, and the workflow has one claimed row less. */
  lemma ReleaseMakesEligible(t: Table, id: nat, quando: int, info: RunId -> RunInfo, agora: int, i: nat)
    ensures Elegivel(Released(t, id, quando), agora, i) <==>
              if i == id then id in t && quando <= agora else Elegivel(t, agora, i)
    ensures id in t ==> forall slug :: EmVoo(Released(t, id, quando), info, slug) == EmVoo(t, info, slug) - {id}
  {
    var u := Released(t, id, quando);
    forall slug | id in t ensures EmVoo(u, info, slug) == EmVoo(t, info, slug) - {id} {
      assert forall j :: j in u <==> j in t;
    }
  }
}
