/** The run life cycle (internal/domain/run): the transition table that guards
    every status write, and the time stamps a transition leaves on the record. */
module RunStatus {

  import opened Options

  datatype Status = Created | Queued | Running | Success | Failed | Retrying | Canceled

  /** The transition table. */
  function Transicoes(s: Status): set<Status> {
    match s
    case Created => {Queued, Canceled}
    case Queued => {Running, Canceled}
    case Running => {Success, Failed, Canceled}
    case Failed => {Retrying}
    case Retrying => {Queued, Canceled}
    case Success => {}
    case Canceled => {}
  }

  predicate PodeIr(de: Status, para: Status) {
    para in Transicoes(de)
  }

  predicate Terminal(s: Status) {
    s == Success || s == Canceled
  }

  /** A sequence of statuses in which each step is allowed by the table. */
  predicate Caminho(p: seq<Status>) {
    forall i :: 0 <= i < |p| - 1 ==> PodeIr(p[i], p[i + 1])
  }

  /** Terminal is exactly "no way out": a path that visits a terminal status ends
      there, and every other status can still reach success. */
  lemma TerminalIffDeadEnd(s: Status)
    ensures Terminal(s) <==> Transicoes(s) == {}
    ensures !Terminal(s) ==> exists p :: Caminho(p) && |p| > 1 && p[0] == s && p[|p| - 1] == Success
  {
    match s
    case Created => assert Caminho([Created, Queued, Running, Success]);
    case Queued => assert Caminho([Queued, Running, Success]);
    case Running => assert Caminho([Running, Success]);
    case Failed => assert Caminho([Failed, Retrying, Queued, Running, Success]);
    case Retrying => assert Caminho([Retrying, Queued, Running, Success]);
    case Success =>
      assert Queued !in Transicoes(Success);
    case Canceled =>
  }

  /** The only way to start twice: between two entries to running a run has
      failed, was marked for retry and was queued again, in that order. */
  lemma {:induction false} RestartGoesThroughRetry(p: seq<Status>, i: nat, j: nat)
    requires Caminho(p) && i < j < |p| && p[i] == Running && p[j] == Running
    ensures j >= i + 4 && p[i + 1] == Failed && p[i + 2] == Retrying && p[i + 3] == Queued
  {
    LeavesOnlyNonTerminal(p, i);
    LeavesOnlyNonTerminal(p, i + 1);
    LeavesOnlyNonTerminal(p, i + 2);
    LeavesOnlyNonTerminal(p, i + 3);
  }

  lemma LeavesOnlyNonTerminal(p: seq<Status>, i: nat)
    requires Caminho(p)
    ensures i + 1 < |p| ==> p[i + 1] in Transicoes(p[i]) && !Terminal(p[i])
  {
    if i + 1 < |p| { assert PodeIr(p[i], p[i + 1]); }
  }

  // ---- time stamps -------------------------------------------------------

  datatype Stamps = Stamps(status: Status, iniciado: Option<int>, terminado: Option<int>)

  /** What the database write of a transition leaves (RunRepo.Transicionar):
      COALESCE keeps a value just supplied, a re-queue clears the rest. */
  function SqlTransition(s: Stamps, para: Status, agora: int): Stamps {
    var iniciado := if para == Running then Some(agora)
                    else if para == Queued then None else s.iniciado;
    var terminado := if para == Success || para == Canceled then Some(agora)
                     else if para == Queued then None else s.terminado;
    Stamps(para, iniciado, terminado)
  }

  /** The stamps say the truth about the status: `terminado` is set exactly on a
      terminal run; a run that has not started carries no start. */
  predicate Coherent(s: Stamps) {
    && (s.terminado.Some? <==> Terminal(s.status))
    && (s.status in {Created, Queued} ==> s.iniciado.None?)
    && (s.status in {Running, Success, Failed, Retrying} ==> s.iniciado.Some?)
  }

  lemma SqlTransitionKeepsCoherent(s: Stamps, para: Status, agora: int)
    requires Coherent(s) && PodeIr(s.status, para)
    ensures Coherent(SqlTransition(s, para, agora))
    ensures var r := SqlTransition(s, para, agora);
      && (r.terminado.Some? <==> para == Success || para == Canceled)
      && (para == Queued ==> r.iniciado.None?)
      && (para == Running || para == Success || para == Failed || para == Retrying ==> r.iniciado.Some?)
  {}

  /** Which instant a stamp holds: that of the write, on the start of running and on a
      terminal status; re-queueing clears both stamps, and every other write keeps them. */
  lemma StampInstants(s: Stamps, para: Status, agora: int)
    ensures var r := SqlTransition(s, para, agora);
      && r.status == para
      && (para == Running ==> r.iniciado == Some(agora) && r.terminado == s.terminado)
      && (para == Success || para == Canceled ==> r.terminado == Some(agora) && r.iniciado == s.iniciado)
      && (para == Queued ==> r.iniciado.None? && r.terminado.None?)
      && (para == Failed || para == Retrying || para == Created ==> r.iniciado == s.iniciado && r.terminado == s.terminado)
  {}

  /** The in-memory record. */
  class Run {
    var status: Status
    var attempt: nat
    var iniciadoEm: Option<int>
    var terminadoEm: Option<int>

    function Carimbos(): Stamps
      reads this
    {
      Stamps(status, iniciadoEm, terminadoEm)
    }

    constructor ()
      ensures Carimbos() == Stamps(Created, None, None) && attempt == 0 && Coherent(Carimbos())
    {
      status, attempt, iniciadoEm, terminadoEm := Created, 0, None, None;
    }

    /** The in-memory transition keeps an earlier start, where the database
        overwrites it. On every record that transitions can produce the two agree,
        because only a queued run (whose start is cleared) may start. */
    method Transition(para: Status, agora: int) returns (ok: bool)
      modifies this`status, this`iniciadoEm, this`terminadoEm
      ensures ok <==> PodeIr(old(status), para)
      ensures !ok ==> Carimbos() == old(Carimbos())
      ensures ok && old(Coherent(Carimbos())) ==>
                Coherent(Carimbos()) && Carimbos() == SqlTransition(old(Carimbos()), para, agora)
    {
      if !PodeIr(status, para) {
        return false;
      }
      status := para;
      match para {
        case Running =>
          if iniciadoEm == None { iniciadoEm := Some(agora); }
        case Success => terminadoEm := Some(agora);
        case Canceled => terminadoEm := Some(agora);
        case Queued => iniciadoEm, terminadoEm := None, None;
        case _ =>
      }
      return true;
    }
  }
}
