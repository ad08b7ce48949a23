/** internal/application/execution/runner.go: any number of workflow runs, each walking
    its levels with one goroutine per node, all sharing the slots of one channel. */
module Runner {
  import opened Options
  import opened Graph
  import opened Sums

  /** The goroutine of a node; `t` counts attempts from 1. */
  datatype No =
    | Parado               // its level has not reached it
    | Esperando(t: nat)    // blocked in ocupar
    | Tentando(t: nat)     // holds a slot
    | Recuando(t: nat)     // waits out the back-off, without a slot
    | Certo
    | Errado

  datatype Fim = Rodando | Sucesso | Falha

  /** `nos` lies over `niveis`, position by position. */
  datatype Corrida = Corrida(w: Workflow, niveis: seq<seq<string>>, tentativas: nat,
                             nivel: nat, nos: seq<seq<No>>, cancelado: bool, fim: Fim)

  /** `capacidade` is the size of the slots channel, or None when there is no limit. */
  datatype State = State(corridas: seq<Corrida>, capacidade: Option<nat>, emUso: nat)

  datatype Step =
    | Lancar(c: nat, i: nat)
    | Ocupar(c: nat, i: nat)
    | Desistir(c: nat, i: nat)
    | Terminar(c: nat, i: nat, ok: bool)
    | Acordar(c: nat, i: nat)
    | Interromper(c: nat, i: nat)
    | Barreira(c: nat)
    | Cancelar(c: nat)

  predicate Final(n: No) {
    n.Certo? || n.Errado?
  }

  /** Node `i` of the level that run `c` is at. */
  predicate Ativo(s: State, c: nat, i: nat) {
    && c < |s.corridas|
    && s.corridas[c].fim == Rodando
    && s.corridas[c].nivel < |s.corridas[c].nos|
    && i < |s.corridas[c].nos[s.corridas[c].nivel]|
  }

  function NoDe(s: State, c: nat, i: nat): No
    requires Ativo(s, c, i)
  {
    s.corridas[c].nos[s.corridas[c].nivel][i]
  }

  function PoeNo(s: State, c: nat, i: nat, n: No): State
    requires Ativo(s, c, i)
  {
    var r := s.corridas[c];
    s.(corridas := s.corridas[c := r.(nos := r.nos[r.nivel := r.nos[r.nivel][i := n]])])
  }

  predicate TemVaga(s: State) {
    s.capacidade.Some? ==> s.emUso < s.capacidade.value
  }

  predicate Habilitado(s: State, step: Step) {
    match step
    case Lancar(c, i) => Ativo(s, c, i) && NoDe(s, c, i).Parado?
    case Ocupar(c, i) => Ativo(s, c, i) && NoDe(s, c, i).Esperando? && TemVaga(s)
    case Desistir(c, i) => Ativo(s, c, i) && NoDe(s, c, i).Esperando? && s.corridas[c].cancelado
    case Terminar(c, i, _) => Ativo(s, c, i) && NoDe(s, c, i).Tentando? && s.emUso > 0
    case Acordar(c, i) => Ativo(s, c, i) && NoDe(s, c, i).Recuando?
    case Interromper(c, i) => Ativo(s, c, i) && NoDe(s, c, i).Recuando? && s.corridas[c].cancelado
    case Barreira(c) =>
      && c < |s.corridas| && s.corridas[c].fim == Rodando && s.corridas[c].nivel < |s.corridas[c].nos|
      && forall i :: 0 <= i < |s.corridas[c].nos[s.corridas[c].nivel]| ==> Final(s.corridas[c].nos[s.corridas[c].nivel][i])
    case Cancelar(c) => c < |s.corridas| && !s.corridas[c].cancelado
  }

  /** What an attempt leads to: success, another try after the back-off, or the end. */
  function AposTentativa(r: Corrida, t: nat, ok: bool): No {
    if ok then Certo else if t >= r.tentativas || r.cancelado then Errado else Recuando(t)
  }

  /** The barrier: the level is closed only when every node has its outcome; one error
      ends the run, otherwise the next level opens, and after the last the run is done. */
  function AposNivel(r: Corrida): Corrida
    requires r.nivel < |r.nos|
  {
    if Errado in r.nos[r.nivel] then r.(fim := Falha)
    else if r.nivel + 1 == |r.nos| then r.(nivel := r.nivel + 1, fim := Sucesso)
    else r.(nivel := r.nivel + 1)
  }

  function Aplica(s: State, step: Step): State
    requires Habilitado(s, step)
  {
    match step
    case Lancar(c, i) => PoeNo(s, c, i, Esperando(1))
    case Ocupar(c, i) => PoeNo(s, c, i, Tentando(NoDe(s, c, i).t)).(emUso := s.emUso + 1)
    case Desistir(c, i) => PoeNo(s, c, i, Errado)
    case Terminar(c, i, ok) =>
      PoeNo(s, c, i, AposTentativa(s.corridas[c], NoDe(s, c, i).t, ok)).(emUso := s.emUso - 1)
    case Acordar(c, i) => PoeNo(s, c, i, Esperando(NoDe(s, c, i).t + 1))
    case Interromper(c, i) => PoeNo(s, c, i, Errado)
    case Barreira(c) => s.(corridas := s.corridas[c := AposNivel(s.corridas[c])])
    case Cancelar(c) => s.(corridas := s.corridas[c := s.corridas[c].(cancelado := true)])
  }

  /** A run as Runner.Run starts it: sorted, nothing launched. An empty workflow is
      done at once. */
  ghost predicate Inicial(r: Corrida) {
    && ValidGraph(r.w) && IsLevelling(r.w, r.niveis) && r.tentativas >= 1
    && r.nivel == 0 && Parada(r.niveis, r.nos)
    && r.fim == (if r.niveis == [] then Sucesso else Rodando)
  }

  predicate Parada(niveis: seq<seq<string>>, nos: seq<seq<No>>) {
    && |nos| == |niveis|
    && forall l :: 0 <= l < |nos| ==> |nos[l]| == |niveis[l]| && forall i :: 0 <= i < |nos[l]| ==> nos[l][i] == Parado
  }

  ghost predicate Init(s: State) {
    && (forall c :: 0 <= c < |s.corridas| ==> Inicial(s.corridas[c]))
    && s.emUso == 0 && (s.capacidade.Some? ==> s.capacidade.value >= 1)
  }

  ghost predicate Trace(states: seq<State>, steps: seq<Step>) {
    && |states| == |steps| + 1 && Init(states[0])
    && forall k {:trigger steps[k]} :: 0 <= k < |steps| ==>
         Habilitado(states[k], steps[k]) && states[k + 1] == Aplica(states[k], steps[k])
  }

  // ---- slots -------------------------------------------------------------

  function Segura(): No -> int {
    (n: No) => if n.Tentando? then 1 else 0
  }

  function SeguraNivel(): seq<No> -> int {
    (ns: seq<No>) => Soma(Segura(), ns)
  }

  function SeguraCorrida(): Corrida -> int {
    (r: Corrida) => Soma(SeguraNivel(), r.nos)
  }

  // ---- the invariant -----------------------------------------------------

  ghost predicate NivelCerto(ns: seq<No>) {
    forall i :: 0 <= i < |ns| ==> ns[i] == Certo
  }

  ghost predicate NivelParado(ns: seq<No>) {
    forall i :: 0 <= i < |ns| ==> ns[i] == Parado
  }

  ghost predicate NivelFinal(ns: seq<No>) {
    forall i :: 0 <= i < |ns| ==> Final(ns[i])
  }

  ghost predicate Tentativas(ns: seq<No>, t: nat) {
    forall i :: 0 <= i < |ns| ==> match ns[i]
      case Esperando(u) => 1 <= u <= t
      case Tentando(u) => 1 <= u <= t
      case Recuando(u) => 1 <= u < t
      case _ => true
  }

  /** Levels below the current one succeeded completely, levels above have not begun. */
  ghost predicate CorridaOk(r: Corrida) {
    && ValidGraph(r.w) && IsLevelling(r.w, r.niveis) && r.tentativas >= 1
    && |r.nos| == |r.niveis| && r.nivel <= |r.nos|
    && (forall l :: 0 <= l < |r.nos| ==> |r.nos[l]| == |r.niveis[l]|)
    && (forall l :: 0 <= l < r.nivel ==> NivelCerto(r.nos[l]))
    && (forall l :: r.nivel < l < |r.nos| ==> NivelParado(r.nos[l]))
    && (r.nivel < |r.nos| ==> Tentativas(r.nos[r.nivel], r.tentativas))
    && match r.fim
       case Rodando => r.nivel < |r.nos|
       case Sucesso => r.nivel == |r.nos|
       case Falha => r.nivel < |r.nos| && NivelFinal(r.nos[r.nivel]) && Errado in r.nos[r.nivel]
  }

  ghost predicate Inv(s: State) {
    && (forall c {:trigger CorridaOk(s.corridas[c])} :: 0 <= c < |s.corridas| ==> CorridaOk(s.corridas[c]))
    && s.emUso == Soma(SeguraCorrida(), s.corridas)
    && (s.capacidade.Some? ==> 1 <= s.capacidade.value && s.emUso <= s.capacidade.value)
  }

  lemma InitHasInv(s: State)
    requires Init(s)
    ensures Inv(s)
  {
    forall c | 0 <= c < |s.corridas| ensures CorridaOk(s.corridas[c]) && SeguraCorrida()(s.corridas[c]) == 0 {
      var r := s.corridas[c];
      assert Inicial(r);
      forall l | 0 <= l < |r.nos| ensures SeguraNivel()(r.nos[l]) == 0 { SomaZero(Segura(), r.nos[l]); }
      SomaZero(SeguraNivel(), r.nos);
    }
    SomaZero(SeguraCorrida(), s.corridas);
  }

  /** Moving one node changes the slots in use by what that node takes or gives. */
  lemma PoeNoSlots(s: State, c: nat, i: nat, n: No)
    requires Ativo(s, c, i)
    ensures Soma(SeguraCorrida(), PoeNo(s, c, i, n).corridas) ==
            Soma(SeguraCorrida(), s.corridas) - Segura()(NoDe(s, c, i)) + Segura()(n)
  {
    var r := s.corridas[c];
    var ns := r.nos[r.nivel];
    SomaUpdate(Segura(), ns, i, n);
    SomaUpdate(SeguraNivel(), r.nos, r.nivel, ns[i := n]);
    SomaUpdate(SeguraCorrida(), s.corridas, c, r.(nos := r.nos[r.nivel := ns[i := n]]));
  }

  lemma PoeNoKeeps(s: State, c: nat, i: nat, n: No)
    requires Ativo(s, c, i) && CorridaOk(s.corridas[c]) && Tentativas([n], s.corridas[c].tentativas)
    ensures CorridaOk(PoeNo(s, c, i, n).corridas[c])
  {
    assert [n][0] == n;
  }

  lemma BarreiraKeeps(r: Corrida)
    requires CorridaOk(r) && r.fim == Rodando && NivelFinal(r.nos[r.nivel])
    ensures CorridaOk(AposNivel(r))
  {
    var ns := r.nos[r.nivel];
    if Errado !in ns {
      forall i | 0 <= i < |ns| ensures ns[i] == Certo {
        assert Final(ns[i]) && ns[i] in ns;
      }
      assert r.nivel + 1 < |r.nos| ==> NivelParado(r.nos[r.nivel + 1]);
    }
  }

  lemma StepKeepsInv(s: State, step: Step)
    requires Inv(s) && Habilitado(s, step)
    ensures Inv(Aplica(s, step))
  {
    assert CorridaOk(s.corridas[step.c]);
    if step.Barreira? || step.Cancelar? {
      RunStepKeeps(s, step);
    } else {
      NodeStepKeeps(s, step);
    }
  }

  lemma RunStepKeeps(s: State, step: Step)
    requires Inv(s) && Habilitado(s, step) && (step.Barreira? || step.Cancelar?) && CorridaOk(s.corridas[step.c])
    ensures Inv(Aplica(s, step))
  {
    var s', c := Aplica(s, step), step.c;
    if step.Barreira? { BarreiraKeeps(s.corridas[c]); }
    SomaUpdate(SeguraCorrida(), s.corridas, c, s'.corridas[c]);
    forall d | 0 <= d < |s'.corridas| ensures CorridaOk(s'.corridas[d]) {
      if d != c { assert CorridaOk(s.corridas[d]); }
    }
  }

  lemma NodeStepKeeps(s: State, step: Step)
    requires Inv(s) && Habilitado(s, step) && !step.Barreira? && !step.Cancelar? && CorridaOk(s.corridas[step.c])
    ensures Inv(Aplica(s, step))
  {
    var s', c := Aplica(s, step), step.c;
    var n := NoDe(s', c, step.i);
    PoeNoSlots(s, c, step.i, n);
    PoeNoKeeps(s, c, step.i, n);
    forall d | 0 <= d < |s'.corridas| ensures CorridaOk(s'.corridas[d]) {
      if d != c { assert CorridaOk(s.corridas[d]); }
    }
  }

  lemma {:induction false} Reachable(states: seq<State>, steps: seq<Step>, k: nat)
    requires Trace(states, steps) && k < |states|
    ensures Inv(states[k]) && |states[k].corridas| == |states[0].corridas|
  {
    if k == 0 {
      InitHasInv(states[0]);
    } else {
      Reachable(states, steps, k - 1);
      StepKeepsInv(states[k - 1], steps[k - 1]);
    }
  }
}
