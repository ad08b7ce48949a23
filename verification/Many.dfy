/** sdk/from/many.go: reading many sources through a pool of workers. The feeder, the
    workers and the collector are goroutines joined by two unbuffered channels, so a
    send and its receive are one step. */
module Many {

  datatype Ev = Reg(v: string) | Erro(msg: string)

  /** A source either fails to open, or yields records and perhaps errors. */
  datatype Fonte = NaoAbre(msg: string) | Abre(eventos: seq<Ev>)

  function AteErro(evs: seq<Ev>): seq<Ev> {
    if evs == [] then [] else if evs[0].Erro? then [evs[0]] else [evs[0]] + AteErro(evs[1..])
  }

  /** What a worker sends for a source: everything up to its first error. */
  function Lidos(f: Fonte): seq<Ev> {
    match f
    case NaoAbre(msg) => [Erro(msg)]
    case Abre(evs) => AteErro(evs)
  }

  /** The records among the first `k` events. */
  function RegsAte(evs: seq<Ev>, k: nat): seq<string>
    requires k <= |evs|
  {
    if k == 0 then [] else RegsAte(evs, k - 1) + (if evs[k - 1].Reg? then [evs[k - 1].v] else [])
  }

  function Regs(evs: seq<Ev>): seq<string> {
    RegsAte(evs, |evs|)
  }

  predicate TemErroAte(evs: seq<Ev>, k: nat) {
    exists j :: 0 <= j < k && j < |evs| && evs[j].Erro?
  }

  predicate TemErro(evs: seq<Ev>) {
    TemErroAte(evs, |evs|)
  }

  datatype Worker = Livre | Lendo(i: nat) | Saiu

  datatype Coletor = Consumindo | Drenando | Terminado

  /** `lido` counts the events of each source taken off its worker; `visto` those among
      them that the collector looked at (the rest were drained after the end). */
  datatype State = State(
    fontes: seq<Fonte>,
    continua: bool,
    prox: nat,
    filaAberta: bool,
    ws: seq<Worker>,
    lido: seq<nat>,
    visto: seq<nat>,
    entregues: seq<(nat, string)>,
    falhas: seq<nat>,
    cancelado: bool,
    abortou: bool,
    coletor: Coletor)

  datatype Step =
    | Alimentar(w: nat)
    | FecharFila
    | Enviar(w: nat, quer: bool)
    | AcabarFonte(w: nat)
    | SairFila(w: nat)
    | Desistir(w: nat)
    | FecharSaida

  predicate ComEvento(s: State, w: nat) {
    w < |s.ws| && s.ws[w].Lendo? && s.ws[w].i < |s.fontes| && |s.lido| == |s.visto| == |s.fontes| &&
    s.lido[s.ws[w].i] < |Lidos(s.fontes[s.ws[w].i])|
  }

  predicate Habilitado(s: State, step: Step) {
    match step
    case Alimentar(w) => s.filaAberta && s.prox < |s.fontes| && w < |s.ws| && s.ws[w] == Livre
    case FecharFila => s.filaAberta && (s.prox == |s.fontes| || s.cancelado)
    case Enviar(w, _) => ComEvento(s, w) && s.coletor != Terminado
    case AcabarFonte(w) =>
      w < |s.ws| && s.ws[w].Lendo? && s.ws[w].i < |s.fontes| && s.ws[w].i < |s.lido| &&
      s.lido[s.ws[w].i] == |Lidos(s.fontes[s.ws[w].i])|
    case SairFila(w) => w < |s.ws| && s.ws[w] == Livre && !s.filaAberta
    case Desistir(w) => ComEvento(s, w) && s.cancelado
    case FecharSaida => s.coletor != Terminado && forall w :: 0 <= w < |s.ws| ==> s.ws[w] == Saiu
  }

  /** The collector meets an event of source `i`; `quer` is what yield answers. */
  function Coleta(s: State, i: nat, ev: Ev, quer: bool): State
    requires i < |s.visto|
  {
    if s.coletor != Consumindo then s
    else
      var t := s.(visto := s.visto[i := s.visto[i] + 1]);
      match ev
      case Reg(v) =>
        var u := t.(entregues := t.entregues + [(i, v)]);
        if quer then u else u.(cancelado := true, coletor := Drenando)
      case Erro(_) =>
        if s.continua then t.(falhas := t.falhas + [i])
        else t.(cancelado := true, abortou := true, coletor := Drenando)
  }

  function Aplica(s: State, step: Step): State
    requires Habilitado(s, step)
  {
    match step
    case Alimentar(w) => s.(ws := s.ws[w := Lendo(s.prox)], prox := s.prox + 1)
    case FecharFila => s.(filaAberta := false)
    case Enviar(w, quer) =>
      var i := s.ws[w].i;
      Coleta(s.(lido := s.lido[i := s.lido[i] + 1]), i, Lidos(s.fontes[i])[s.lido[i]], quer)
    case AcabarFonte(w) => s.(ws := s.ws[w := Livre])
    case SairFila(w) => s.(ws := s.ws[w := Saiu])
    case Desistir(w) =>
      s.(ws := s.ws[w := if s.fontes[s.ws[w].i].NaoAbre? then Livre else Saiu],
         lido := s.lido[s.ws[w].i := |Lidos(s.fontes[s.ws[w].i])|])
    case FecharSaida => s.(coletor := Terminado)
  }

  /** A worker that gives up in the middle of a source is gone; one whose source did not open
      goes on to the next. Either way nothing more of the source is read. */
  lemma GivesUp(s: State, w: nat)
    requires Habilitado(s, Desistir(w))
    ensures var s', i := Aplica(s, Desistir(w)), s.ws[w].i;
      && s'.ws[w] == (if s.fontes[i].NaoAbre? then Livre else Saiu)
      && s'.lido[i] == |Lidos(s.fontes[i])| && s'.entregues == s.entregues && s'.falhas == s.falhas
  {
  }

  /** After the end: no record at all from sources that all failed is an error. */
  predicate TodasFalharam(s: State) {
    !s.abortou && s.entregues == [] && |s.falhas| == |s.fontes|
  }

  predicate Init(s: State) {
    && |s.fontes| >= 1 && |s.ws| >= 1 && |s.lido| == |s.visto| == |s.fontes|
    && s.prox == 0 && s.filaAberta && !s.cancelado && !s.abortou && s.coletor == Consumindo
    && s.entregues == [] && s.falhas == []
    && (forall w :: 0 <= w < |s.ws| ==> s.ws[w] == Livre)
    && (forall i :: 0 <= i < |s.fontes| ==> s.lido[i] == 0 && s.visto[i] == 0)
  }

  ghost predicate Trace(states: seq<State>, steps: seq<Step>) {
    && |states| == |steps| + 1 && Init(states[0])
    && forall k {:trigger steps[k]} :: 0 <= k < |steps| ==>
         Habilitado(states[k], steps[k]) && states[k + 1] == Aplica(states[k], steps[k])
  }

  // ---- events ------------------------------------------------------------

  /** Only the last event sent for a source can be an error. */
  lemma {:induction false} ErrorIsLast(evs: seq<Ev>)
    ensures forall k :: 0 <= k < |AteErro(evs)| - 1 ==> AteErro(evs)[k].Reg?
  {
    if evs != [] { ErrorIsLast(evs[1..]); }
  }

  lemma LidosErrorIsLast(f: Fonte)
    ensures forall k :: 0 <= k < |Lidos(f)| - 1 ==> Lidos(f)[k].Reg?
  {
    if f.Abre? { ErrorIsLast(f.eventos); }
  }

  // ---- the collector's two lists -----------------------------------------

  /** The records delivered from one source, in the order of delivery. */
  function De(entregues: seq<(nat, string)>, i: nat): seq<string> {
    if entregues == [] then []
    else
      var e := entregues[|entregues| - 1];
      De(entregues[..|entregues| - 1], i) + (if e.0 == i then [e.1] else [])
  }

  function Vezes(falhas: seq<nat>, i: nat): nat {
    if falhas == [] then 0
    else Vezes(falhas[..|falhas| - 1], i) + (if falhas[|falhas| - 1] == i then 1 else 0)
  }

  lemma DeSnoc(entregues: seq<(nat, string)>, e: (nat, string), i: nat)
    ensures De(entregues + [e], i) == De(entregues, i) + (if e.0 == i then [e.1] else [])
  {
    assert (entregues + [e])[..|entregues|] == entregues;
  }

  lemma VezesSnoc(falhas: seq<nat>, x: nat, i: nat)
    ensures Vezes(falhas + [x], i) == Vezes(falhas, i) + (if x == i then 1 else 0)
  {
    assert (falhas + [x])[..|falhas|] == falhas;
  }

  // ---- the invariant -----------------------------------------------------

  predicate Le(s: State, w: nat, i: nat) {
    w < |s.ws| && s.ws[w] == Lendo(i)
  }

  /** What is known of one source. */
  ghost predicate FonteOk(s: State, i: nat)
    requires i < |s.fontes| == |s.lido| == |s.visto|
  {
    var evs := Lidos(s.fontes[i]);
    && s.visto[i] <= s.lido[i] <= |evs|
    && (!s.cancelado ==> s.visto[i] == s.lido[i])
    && (i >= s.prox ==> s.lido[i] == 0 && forall w: nat :: !Le(s, w, i))
    && (i < s.prox && s.lido[i] < |evs| ==> exists w: nat :: Le(s, w, i))
    && De(s.entregues, i) == RegsAte(evs, s.visto[i])
    && Vezes(s.falhas, i) == (if s.continua && TemErroAte(evs, s.visto[i]) then 1 else 0)
  }

  /** A source is read by one worker at a time, and only after it was handed out. */
  ghost predicate UmLeitor(s: State) {
    forall w: nat, v: nat, i: nat :: Le(s, w, i) && Le(s, v, i) ==> w == v && i < s.prox
  }

  ghost predicate Inv(s: State) {
    && |s.fontes| >= 1 && |s.ws| >= 1 && |s.lido| == |s.visto| == |s.fontes| && s.prox <= |s.fontes|
    && (forall i {:trigger FonteOk(s, i)} :: 0 <= i < |s.fontes| ==> FonteOk(s, i))
    && UmLeitor(s)
    && (s.coletor == Drenando ==> s.cancelado)
    && (s.cancelado ==> s.coletor != Consumindo)
    && (!s.filaAberta && !s.cancelado ==> s.prox == |s.fontes|)
    && (s.filaAberta ==> forall w :: 0 <= w < |s.ws| ==> s.ws[w] != Saiu || s.cancelado)
    && (s.coletor == Terminado ==> forall w :: 0 <= w < |s.ws| ==> s.ws[w] == Saiu)
    && (s.abortou ==> s.cancelado)
  }

  lemma InitHasInv(s: State)
    requires Init(s)
    ensures Inv(s)
  {
    forall i | 0 <= i < |s.fontes| ensures FonteOk(s, i) {
      assert RegsAte(Lidos(s.fontes[i]), 0) == [];
    }
  }

  /** A step that only moves workers: sources keep their record if each source being
      read is still being read, by the same worker. */
  lemma WorkersMove(s: State, s': State, i: nat)
    requires i < |s.fontes| == |s.lido| == |s.visto| && FonteOk(s, i)
    requires s' == s.(ws := s'.ws, prox := s'.prox, filaAberta := s'.filaAberta, coletor := s'.coletor)
    requires s.prox <= s'.prox && (i < s.prox || i >= s'.prox)
    requires forall w: nat :: Le(s', w, i) ==> Le(s, w, i)
    requires s.lido[i] < |Lidos(s.fontes[i])| ==> forall w: nat :: Le(s, w, i) ==> Le(s', w, i)
    ensures FonteOk(s', i)
  {
    if i < s.prox && s.lido[i] < |Lidos(s.fontes[i])| {
      var w: nat :| Le(s, w, i);
      assert Le(s', w, i);
    }
  }

  lemma FewerReaders(s: State, s': State)
    requires UmLeitor(s) && s'.prox >= s.prox && forall w: nat, i: nat :: Le(s', w, i) ==> Le(s, w, i)
    ensures UmLeitor(s')
  {
    forall w: nat, v: nat, i: nat | Le(s', w, i) && Le(s', v, i) ensures w == v && i < s'.prox {
      assert Le(s, w, i) && Le(s, v, i);
    }
  }

  lemma AlimentarKeeps(s: State, w: nat)
    requires Inv(s) && Habilitado(s, Alimentar(w))
    ensures Inv(Aplica(s, Alimentar(w)))
  {
    var s' := Aplica(s, Alimentar(w));
    assert FonteOk(s, s.prox);
    assert Le(s', w, s.prox);
    assert forall v: nat, i: nat :: Le(s', v, i) ==> Le(s, v, i) || (v == w && i == s.prox);
    forall v: nat, u: nat, i: nat | Le(s', v, i) && Le(s', u, i) ensures v == u && i < s'.prox {
      if i != s.prox { assert Le(s, v, i) && Le(s, u, i); }
    }
    forall i | 0 <= i < |s.fontes| ensures FonteOk(s', i) {
      assert FonteOk(s, i);
      if i != s.prox { WorkersMove(s, s', i); }
    }
  }

  lemma AcabarKeeps(s: State, w: nat)
    requires Inv(s) && Habilitado(s, AcabarFonte(w))
    ensures Inv(Aplica(s, AcabarFonte(w)))
  {
    var s' := Aplica(s, AcabarFonte(w));
    FewerReaders(s, s');
    forall i | 0 <= i < |s.fontes| ensures FonteOk(s', i) {
      assert FonteOk(s, i);
      assert Le(s, w, s.ws[w].i);
      WorkersMove(s, s', i);
    }
  }

  lemma SimplesKeeps(s: State, step: Step)
    requires Inv(s) && Habilitado(s, step) && (step.FecharFila? || step.SairFila? || step.FecharSaida?)
    ensures Inv(Aplica(s, step))
  {
    var s' := Aplica(s, step);
    FewerReaders(s, s');
    forall i | 0 <= i < |s.fontes| ensures FonteOk(s', i) {
      assert FonteOk(s, i);
      WorkersMove(s, s', i);
    }
  }

  lemma DesistirKeeps(s: State, w: nat)
    requires Inv(s) && Habilitado(s, Desistir(w))
    ensures Inv(Aplica(s, Desistir(w)))
  {
    var s' := Aplica(s, Desistir(w));
    var j := s.ws[w].i;
    assert Le(s, w, j);
    FewerReaders(s, s');
    forall i | 0 <= i < |s.fontes| ensures FonteOk(s', i) {
      assert FonteOk(s, i);
      assert forall v: nat :: Le(s', v, i) ==> Le(s, v, i);
      if i != j && i < s.prox && s.lido[i] < |Lidos(s.fontes[i])| {
        var v: nat :| Le(s, v, i);
        assert Le(s', v, i);
      }
    }
  }

  /** What taking an event of source `i` off its worker does. */
  ghost predicate Tomou(s: State, s': State, i: nat) {
    && i < |s.fontes| == |s.lido| == |s.visto| && s.lido[i] < |Lidos(s.fontes[i])|
    && s'.ws == s.ws && s'.prox == s.prox && s'.fontes == s.fontes && s'.continua == s.continua
    && s'.filaAberta == s.filaAberta && (s.cancelado ==> s'.cancelado)
    && s'.lido == s.lido[i := s.lido[i] + 1]
    && if s.coletor != Consumindo then
         s'.visto == s.visto && s'.entregues == s.entregues && s'.falhas == s.falhas && s'.cancelado == s.cancelado
       else
         var ev := Lidos(s.fontes[i])[s.lido[i]];
         && s'.visto == s.visto[i := s.visto[i] + 1]
         && s'.entregues == (if ev.Reg? then s.entregues + [(i, ev.v)] else s.entregues)
         && s'.falhas == (if ev.Erro? && s.continua then s.falhas + [i] else s.falhas)
  }

  lemma EnviarEffect(s: State, w: nat, quer: bool)
    requires Habilitado(s, Enviar(w, quer))
    ensures Tomou(s, Aplica(s, Enviar(w, quer)), s.ws[w].i)
  {
  }

  lemma TomouOutra(s: State, s': State, i: nat, j: nat)
    requires Tomou(s, s', j) && i < |s.fontes| && i != j && FonteOk(s, i)
    ensures FonteOk(s', i)
  {
    if s.coletor == Consumindo {
      var ev := Lidos(s.fontes[j])[s.lido[j]];
      if ev.Reg? { DeSnoc(s.entregues, (j, ev.v), i); }
      VezesSnoc(s.falhas, j, i);
    }
    SameReaders(s, s', i);
  }

  lemma SameReaders(s: State, s': State, i: nat)
    requires i < |s.fontes| == |s.lido| == |s.visto| && FonteOk(s, i)
    requires s'.ws == s.ws && s'.prox == s.prox && s'.fontes == s.fontes && s'.continua == s.continua
    requires |s'.lido| == |s'.visto| == |s.fontes| && s'.lido[i] == s.lido[i] && s'.visto[i] == s.visto[i]
    requires s.cancelado ==> s'.cancelado
    requires De(s'.entregues, i) == De(s.entregues, i) && Vezes(s'.falhas, i) == Vezes(s.falhas, i)
    ensures FonteOk(s', i)
  {
    assert forall v: nat :: Le(s', v, i) <==> Le(s, v, i);
  }

  lemma TomouPropria(s: State, s': State, w: nat, i: nat)
    requires Tomou(s, s', i) && Le(s, w, i) && i < s.prox && FonteOk(s, i)
    requires s.cancelado <==> s.coletor != Consumindo
    ensures FonteOk(s', i)
  {
    assert Le(s', w, i);
    if s.coletor == Consumindo { ListsOfOwn(s, s', i); }
  }

  /** The collector's lists after it looked at one more event of source `i`. */
  lemma ListsOfOwn(s: State, s': State, i: nat)
    requires Tomou(s, s', i) && FonteOk(s, i) && s.coletor == Consumindo && s.visto[i] == s.lido[i]
    ensures De(s'.entregues, i) == RegsAte(Lidos(s.fontes[i]), s'.visto[i])
    ensures Vezes(s'.falhas, i) == if s.continua && TemErroAte(Lidos(s.fontes[i]), s'.visto[i]) then 1 else 0
  {
    var evs, k := Lidos(s.fontes[i]), s.lido[i];
    LidosErrorIsLast(s.fontes[i]);
    TemErroTake(evs, k);
    assert RegsAte(evs, k + 1) == RegsAte(evs, k) + (if evs[k].Reg? then [evs[k].v] else []);
    if evs[k].Reg? {
      DeSnoc(s.entregues, (i, evs[k].v), i);
    } else {
      VezesSnoc(s.falhas, i, i);
    }
  }

  lemma TemErroTake(evs: seq<Ev>, k: nat)
    requires k < |evs| && forall j :: 0 <= j < |evs| - 1 ==> evs[j].Reg?
    ensures !TemErroAte(evs, k)
    ensures TemErroAte(evs, k + 1) <==> evs[k].Erro?
  {
  }

  lemma EnviarKeeps(s: State, w: nat, quer: bool)
    requires Inv(s) && Habilitado(s, Enviar(w, quer))
    ensures Inv(Aplica(s, Enviar(w, quer)))
  {
    var s', j := Aplica(s, Enviar(w, quer)), s.ws[w].i;
    EnviarEffect(s, w, quer);
    FewerReaders(s, s');
    assert Le(s, w, j) && Le(s, w, j);
    forall i | 0 <= i < |s.fontes| ensures FonteOk(s', i) {
      assert FonteOk(s, i);
      if i == j { TomouPropria(s, s', w, i); } else { TomouOutra(s, s', i, j); }
    }
  }

  lemma StepKeepsInv(s: State, step: Step)
    requires Inv(s) && Habilitado(s, step)
    ensures Inv(Aplica(s, step))
  {
    match step
    case Alimentar(w) => AlimentarKeeps(s, w);
    case AcabarFonte(w) => AcabarKeeps(s, w);
    case Desistir(w) => DesistirKeeps(s, w);
    case Enviar(w, quer) => EnviarKeeps(s, w, quer);
    case _ => SimplesKeeps(s, step);
  }

  lemma SameSources(s: State, step: Step)
    requires Habilitado(s, step)
    ensures var s' := Aplica(s, step); s'.fontes == s.fontes && s'.continua == s.continua && |s'.ws| == |s.ws|
  {
  }

  lemma {:induction false} Reachable(states: seq<State>, steps: seq<Step>, k: nat)
    requires Trace(states, steps) && k < |states|
    ensures Inv(states[k])
    ensures states[k].fontes == states[0].fontes && states[k].continua == states[0].continua
    ensures |states[k].ws| == |states[0].ws|
  {
    if k == 0 {
      InitHasInv(states[0]);
    } else {
      Reachable(states, steps, k - 1);
      StepKeepsInv(states[k - 1], steps[k - 1]);
      SameSources(states[k - 1], steps[k - 1]);
    }
  }
}
