/** The pairing tables, under every interleaving, simulate a small abstract
    machine: a session waits, lapses, or is paired and later unpaired; an agent
    is unarmed and later armed. */
module PairingRefinement {
  import opened Base
  import opened PairingTables
  import opened PairingMachine
  import opened PairingInvariant

  datatype AbsSession =
    | Waiting
    | Lapsed
    | Paired(userId: Option<string>, agentId: Option<string>)
    | Unpaired(userId: Option<string>, agentId: Option<string>)

  datatype AbsAgent = AbsAgent(owner: string, hash: Option<SecretHash>)

  datatype Abs = Abs(sessions: map<string, AbsSession>, agents: map<string, AbsAgent>)

  datatype Event =
    | Stutter
    | Open(i: string)
    | Lapse(i: string)
    | Pair(i: string, userId: string, id: string)
    | Arm(id: string, hash: SecretHash)
    | Unpair(i: string, userId: string, id: string)

  predicate UsedBy(x: Abs, i: string, id: string) {
    i in x.sessions && (x.sessions[i].Paired? || x.sessions[i].Unpaired?) && x.sessions[i].agentId == Some(id)
  }

  /** The transitions of the abstract machine and nothing else. */
  ghost predicate Enabled(x: Abs, e: Event) {
    match e
    case Stutter => true
    case Open(i) => i !in x.sessions
    case Lapse(i) => i in x.sessions && x.sessions[i].Waiting?
    case Pair(i, userId, id) => i in x.sessions && x.sessions[i].Waiting? && id !in x.agents
        && forall j :: !UsedBy(x, j, id)
    case Arm(id, hash) => id in x.agents && x.agents[id].hash.None?
    case Unpair(i, userId, id) =>
      i in x.sessions && x.sessions[i] == Paired(Some(userId), Some(id)) && id in x.agents
          && x.agents[id].owner == userId
  }

  function Apply(x: Abs, e: Event): Abs {
    match e
    case Stutter => x
    case Open(i) => x.(sessions := x.sessions[i := Waiting])
    case Lapse(i) => x.(sessions := x.sessions[i := Lapsed])
    case Pair(i, userId, id) =>
      Abs(x.sessions[i := Paired(Some(userId), Some(id))], x.agents[id := AbsAgent(userId, None)])
    case Arm(id, hash) =>
      if id in x.agents then x.(agents := x.agents[id := x.agents[id].(hash := Some(hash))]) else x
    case Unpair(i, userId, id) =>
      Abs(x.sessions[i := Unpaired(Some(userId), Some(id))], x.agents - {id})
  }

  const ABS_INITIAL: Abs := Abs(map[], map[])

  ghost predicate IsStep(x: Abs, e: Event, y: Abs) {
    Enabled(x, e) && y == Apply(x, e)
  }

  // ---- the abstraction ----

  function AbsRow(s: Session): AbsSession {
    match s.status
    case Pending => Waiting
    case Confirmed => if s.agentId.Some? then Paired(s.confirmedBy, s.requestedAgentId)
        else Unpaired(s.confirmedBy, s.requestedAgentId)
    case Expired => Lapsed
    case Cancelled => Lapsed
  }

  function AbsAgentRow(a: Agent): AbsAgent {
    AbsAgent(a.userId, a.secretHash)
  }

  function View(t: Tables): Abs {
    Abs(map i | i in t.sessions :: AbsRow(t.sessions[i]), map id | id in t.agents :: AbsAgentRow(t.agents[id]))
  }

  lemma ExpireSimulates(t: Tables, now: Time, id: string)
    requires TablesOk(t, now) && id in t.sessions && t.sessions[id].status == Pending
    ensures IsStep(View(t), Lapse(id), View(ExpireSession(t, id).0))
  {
  }

  lemma ConfirmSimulates(t: Tables, now: Time, code: string, userId: string, clock: Time)
    requires TablesOk(t, now)
    ensures exists e :: IsStep(View(t), e, View(ConfirmSession(t, code, userId, clock).0))
  {
    var (t', r) := ConfirmSession(t, code, userId, clock);
    if r.Success? {
      var s := FindByCode(t, code).value;
      PendingRequestIsFree(t, now, s.id);
      assert SessionOk(t, now, s.id);
      var id := s.requestedAgentId.value;
      forall j ensures !UsedBy(View(t), j, id) {
        assert !ClaimedBy(t, j, id);
      }
      assert IsStep(View(t), Pair(s.id, userId, id), View(t'));
    } else if r.error == SessionExpired {
      var s := FindByCode(t, code).value;
      ExpireSimulates(t, now, s.id);
      assert IsStep(View(t), Lapse(s.id), View(t'));
    } else {
      assert IsStep(View(t), Stutter, View(t'));
    }
  }

  lemma DeleteSimulates(t: Tables, now: Time, id: string, userId: string)
    requires TablesOk(t, now) && Owns(t, userId, id)
    ensures exists e :: IsStep(View(t), e, View(DeleteAgent(t, id, userId)))
  {
    var t' := DeleteAgent(t, id, userId);
    assert AgentOk(t, id);
    var i :| Made(t, i, id);
    assert SessionOk(t, now, i);
    forall j | j in t.sessions && j != i ensures t'.sessions[j] == t.sessions[j] {
      assert SessionOk(t, now, j) && Distinct(t, i, j);
    }
    assert View(t').sessions == View(t).sessions[i := Unpaired(Some(userId), Some(id))];
    assert View(t').agents == View(t).agents - {id};
    assert IsStep(View(t), Unpair(i, userId, id), View(t'));
  }

  lemma SameView(t: Tables, t': Tables)
    requires t'.sessions == t.sessions && t'.agents.Keys == t.agents.Keys
    requires forall id :: id in t.agents ==> AbsAgentRow(t'.agents[id]) == AbsAgentRow(t.agents[id])
    ensures IsStep(View(t), Stutter, View(t'))
  {
  }

  lemma CallSimulates(w: World, c: nat, draw: string)
    requires Inv(w) && CanContinue(w, c, draw)
    ensures exists e :: IsStep(View(w.db), e, View(StepCall(w.db, w.now, draw, w.calls[c]).0))
  {
    var t, t' := w.db, StepCall(w.db, w.now, draw, w.calls[c]).0;
    assert CallOk(t, w.now, w.calls[c]);
    if w.calls[c].Status? && w.calls[c].status.pc.Expire? && t.sessions[w.calls[c].status.sessionId].status == Pending {
      ExpireSimulates(t, w.now, w.calls[c].status.sessionId);
    } else if w.calls[c].Status? && w.calls[c].status.pc.IssueSecret?
        && CanIssue(t, w.calls[c].status.row.value.agentId.value) {
      var id := w.calls[c].status.row.value.agentId.value;
      assert IsStep(View(t), Arm(id, Bcrypt(w.calls[c].status.pc.secret)), View(t'));
    } else {
      SameView(t, t');
    }
  }

  /** Every step of the system is one step of the abstract machine. */
  lemma StepSimulates(w: World, a: Action)
    requires Inv(w)
    ensures exists e :: IsStep(View(w.db), e, View(Next(w, a).db))
  {
    var t, t' := w.db, NextTables(w, a);
    assert Next(w, a).db == t';
    if a.Create? && t' != t {
      assert View(t').sessions == View(t).sessions[a.id := Waiting];
      assert IsStep(View(t), Open(a.id), View(t'));
    } else if a.Confirm? && a.clock <= w.now {
      ConfirmSimulates(t, w.now, a.code, a.userId, a.clock);
    } else if a.Delete? && Owns(t, a.userId, a.agentId) {
      DeleteSimulates(t, w.now, a.agentId, a.userId);
    } else if a.Continue? && CanContinue(w, a.call, a.draw) {
      CallSimulates(w, a.call, a.draw);
    } else {
      SameView(t, t');
      assert IsStep(View(t), Stutter, View(t'));
    }
  }

  /** es explains the run: event k leads from the view after k actions to the view after k + 1. */
  ghost predicate Explains(run: seq<Action>, es: seq<Event>) {
    && |es| == |run|
    && forall k {:trigger es[k]} :: 0 <= k < |es|
        ==> IsStep(View(Exec(run[..k]).db), es[k], View(Exec(run[..k + 1]).db))
  }

  /** Every run of the system, however its calls interleave, is a run of the abstract machine. */
  lemma {:induction false} RunsSimulate(run: seq<Action>) returns (es: seq<Event>)
    ensures View(INITIAL.db) == ABS_INITIAL
    ensures Explains(run, es)
  {
    if run == [] {
      es := [];
    } else {
      var front := RunsSimulate(Front(run));
      InvAlways(Front(run));
      StepSimulates(Exec(Front(run)), Last(run));
      var e :| IsStep(View(Exec(Front(run)).db), e, View(Exec(run).db));
      es := front + [e];
      forall k | 0 <= k < |es| ensures IsStep(View(Exec(run[..k]).db), es[k], View(Exec(run[..k + 1]).db)) {
        if k < |front| {
          assert es[k] == front[k];
          assert run[..k] == Front(run)[..k] && run[..k + 1] == Front(run)[..k + 1];
        } else {
          assert run[..k] == Front(run) && run[..k + 1] == run;
        }
      }
    }
  }

  /** The life of a session in the abstract machine is a path
      Waiting -> Lapsed or Waiting -> Paired -> Unpaired. */
  predicate Later(x: AbsSession, y: AbsSession) {
    || x == y
    || x.Waiting?
    || (x.Paired? && y == Unpaired(x.userId, x.agentId))
  }

  lemma AbstractPath(x: Abs, e: Event, y: Abs, i: string)
    requires IsStep(x, e, y) && i in x.sessions
    ensures i in y.sessions && Later(x.sessions[i], y.sessions[i])
  {
  }

  /** Seen through the abstraction, a session's whole history is such a path. */
  lemma {:induction false} SessionHistoryIsAPath(run: seq<Action>, j: nat, i: string)
    requires j <= |run| && i in Exec(run[..j]).db.sessions
    ensures i in Exec(run).db.sessions
    ensures Later(View(Exec(run[..j]).db).sessions[i], View(Exec(run).db).sessions[i])
  {
    if j == |run| {
      assert run[..j] == run;
    } else {
      assert Front(run)[..j] == run[..j];
      SessionHistoryIsAPath(Front(run), j, i);
      InvAlways(Front(run));
      StepSimulates(Exec(Front(run)), Last(run));
      var e :| IsStep(View(Exec(Front(run)).db), e, View(Exec(run).db));
      AbstractPath(View(Exec(Front(run)).db), e, View(Exec(run).db), i);
    }
  }
}
