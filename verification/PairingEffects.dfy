/** What each pairing use case does to the rows and what it answers, in the rows' own
    terms: statements that change one row and nothing else, and calls that run from
    their start to their answer without another action in between. */
module PairingEffects {
  import opened Base
  import opened PairingTables
  import opened PairingMachine
  import opened PairingInvariant

  // ---- single statements ----

  /** A new session is pending for ten minutes with nobody's agent; it goes in
      exactly if its id, its code and its reserved agent id are all unused. */
  lemma CreateEffect(w: World, id: string, agentId: string, code: string, name: string, os: string, clock: Time)
    requires clock <= w.now && agentId != ""
    ensures
      var t, t' := w.db, Next(w, Create(id, agentId, code, name, os, clock)).db;
      if exists i :: i in t.sessions
           && (i == id || t.sessions[i].deviceCode == code || t.sessions[i].requestedAgentId == Some(agentId))
      then t' == t
      else
        && t'.users == t.users && t'.agents == t.agents
        && t'.sessions == t.sessions[id :=
             Session(id, code, Some(agentId), name, os, Pending, clock + 600_000_000_000, None, None, None)]
  {
  }

  /** Each outcome of a confirmation, with the rows it leaves: an unknown code, a
      session that is not pending, one that is late, an unknown user, and success,
      which inserts a disarmed, offline, unprotected agent. */
  lemma ConfirmEffect(w: World, code: string, userId: string, clock: Time)
    requires Inv(w) && clock <= w.now
    ensures
      var t := w.db;
      var (t', r) := ConfirmSession(t, code, userId, clock);
      && Next(w, Confirm(code, userId, clock)).db == t'
      && ((forall i :: i in t.sessions ==> t.sessions[i].deviceCode != code)
          ==> t' == t && r == Failure(SessionNotFound))
      && forall i :: i in t.sessions && t.sessions[i].deviceCode == code ==> Confirmation(t, t', r, i, userId, clock)
  {
    forall i | i in w.db.sessions && w.db.sessions[i].deviceCode == code
      ensures
        var (t', r) := ConfirmSession(w.db, code, userId, clock);
        Confirmation(w.db, t', r, i, userId, clock)
    {
      FindByCodeIs(w.db, i);
      assert SessionOk(w.db, w.now, i);
      if w.db.sessions[i].status == Pending {
        PendingRequestIsFree(w.db, w.now, i);
      }
    }
  }

  ghost predicate Confirmation(t: Tables, t': Tables, r: Result<Agent, PairingError>, i: string, userId: string,
      clock: Time)
    requires i in t.sessions
  {
    var s := t.sessions[i];
    if s.status != Pending then t' == t && r == Failure(SessionNotPending)
    else if clock > s.expiresAt then
      && r == Failure(SessionExpired)
      && t' == t.(sessions := t.sessions[i := s.(status := Expired)])
    else if userId !in t.users then t' == t && r == Failure(ConstraintViolation)
    else
      && s.requestedAgentId.Some?
      && var agent :=
           Agent(s.requestedAgentId.value, userId, s.deviceName, s.osType, None, Offline, Protection.Disabled, None);
         && r == Success(agent) && t'.users == t.users
         && t'.agents == t.agents[agent.id := agent]
         && t'.sessions == t.sessions[i :=
              s.(status := Confirmed, confirmedBy := Some(userId), agentId := Some(agent.id),
                  confirmedAt := Some(clock))]
  }

  /** Deleting takes exactly the owner's agent away, and clears exactly the
      references to it; nothing happens to anybody else's agent. */
  lemma DeleteEffect(w: World, id: string, userId: string)
    ensures
      var t, t' := w.db, Next(w, Delete(id, userId)).db;
      if id !in t.agents || t.agents[id].userId != userId then t' == t
      else
        && t'.users == t.users && t'.agents == t.agents - {id} && t'.sessions.Keys == t.sessions.Keys
        && forall i :: i in t.sessions ==>
             t'.sessions[i] == if t.sessions[i].agentId == Some(id) then t.sessions[i].(agentId := None)
                 else t.sessions[i]
  {
  }

  /** The owner's choice is what the row holds afterwards, and the row's other
      fields and all other rows stay; nothing happens to anybody else's agent. */
  lemma OwnerProtectEffect(w: World, id: string, userId: string, p: Protection)
    ensures
      var t, t' := w.db, Next(w, OwnerProtect(id, userId, p)).db;
      if id !in t.agents || t.agents[id].userId != userId then t' == t
      else t' == t.(agents := t.agents[id := t.agents[id].(protection := p)])
  {
  }

  /** The agent's own change of its protection, once its secret was checked; an agent
      that was deleted meanwhile is answered as a wrong credential. */
  lemma OwnProtectEffect(w: World, k: nat, draw: string)
    requires CanContinue(w, k, draw) && w.calls[k].Credential?
    requires w.calls[k].agent.pc.ChangeProtection? && w.calls[k].agent.change.Some?
    ensures
      var c, t, w' := w.calls[k].agent, w.db, Next(w, Continue(k, draw));
      if c.agentId !in t.agents
      then w'.db == t && w'.calls[k] == Credential(c.(pc := Answered(Failure(CredentialInvalid))))
      else
        && w'.db == t.(agents := t.agents[c.agentId := t.agents[c.agentId].(protection := c.change.value)])
        && w'.calls[k] == Credential(c.(pc := MarkSeen))
  {
  }

  /** Where the second look-up of a session finds nothing, the call says so. */
  lemma VanishedSession(t: Tables, now: Time, draw: string, c: StatusCall)
    requires c.pc.FindSessionAgain? && (c.sessionId !in t.sessions || t.sessions[c.sessionId].deviceCode != c.code)
    ensures StatusStep(t, now, draw, c) == (t, c.(pc := Returned(Failure(SessionNotFound))))
  {
  }

  // ---- undisturbed calls ----

  /** Call k takes n more steps, and nothing else happens meanwhile. */
  ghost function Alone(w: World, k: nat, draw: string, n: nat): World
    decreases n
  {
    if n == 0 then w else Alone(Next(w, Continue(k, draw)), k, draw, n - 1)
  }

  lemma OneStep(w: World, k: nat, draw: string, n: nat)
    requires n > 0 && CanContinue(w, k, draw)
    ensures
      var (t, c) := StepCall(w.db, w.now, draw, w.calls[k]);
      var w' := World(w.now, t, w.calls[k := c]);
      Next(w, Continue(k, draw)) == w' && Alone(w, k, draw, n) == Alone(w', k, draw, n - 1) && CanContinue(w', k, draw)
  {
  }

  lemma {:induction false} AnsweredStays(w: World, k: nat, draw: string, n: nat)
    requires k in w.calls && HasAnswer(w.calls[k])
    ensures Alone(w, k, draw, n) == w
    decreases n
  {
    if n > 0 {
      assert Next(w, Continue(k, draw)).calls == w.calls;
      AnsweredStays(w, k, draw, n - 1);
    }
  }

  /** A verification or protection change by the agent that nobody disturbs: a wrong
      secret or an unknown agent is refused and nothing changes; otherwise the agent
      is online, seen now, has the requested protection, and is what is answered. */
  lemma CredentialAlone(w: World, k: nat, id: string, secret: string, change: Option<Protection>, draw: string)
    requires k !in w.calls && IsGeneratedSecret(draw)
    ensures
      var w' := Alone(Next(w, BeginCredential(k, id, secret, change)), k, draw, 3);
      k in w'.calls && w'.calls[k].Credential? &&
      if id !in w.db.agents || w.db.agents[id].secretHash != Some(Bcrypt(secret))
      then w'.db == w.db && w'.calls[k].agent.pc == Answered(Failure(CredentialInvalid))
      else
        var row := w.db.agents[id].(status := Online, lastSeen := Some(w.now));
        var seen := if change.Some? then row.(protection := change.value) else row;
        && w'.db == w.db.(agents := w.db.agents[id := seen])
        && w'.calls[k].agent.pc == Answered(Success(seen))
  {
    var w1 := Next(w, BeginCredential(k, id, secret, change));
    OneStep(w1, k, draw, 3);
    var w2 := Next(w1, Continue(k, draw));
    OneStep(w2, k, draw, 2);
    OneStep(Next(w2, Continue(k, draw)), k, draw, 1);
  }

  /** Call k has come from w to its answer at w'. */
  ghost predicate Answers(w': World, k: nat, db: Tables, answer: StatusOutcome) {
    w'.db == db && k in w'.calls && w'.calls[k].Status? && w'.calls[k].status.pc == Returned(answer)
  }

  /** The poll, from its start to its answer. */
  ghost function PollAlone(w: World, k: nat, i: string, code: string, draw: string): World {
    Alone(Next(w, BeginStatus(k, i, code)), k, draw, 7)
  }

  /** Nothing fits: the id is told apart from the code. */
  lemma UnknownPoll(w: World, k: nat, i: string, code: string, draw: string)
    requires k !in w.calls && IsGeneratedSecret(draw)
    requires i !in w.db.sessions || w.db.sessions[i].deviceCode != code
    ensures
      var known := exists j :: j in w.db.sessions && w.db.sessions[j].deviceCode == code;
      Answers(PollAlone(w, k, i, code, draw), k, w.db, Failure(if known then SessionMismatch else SessionNotFound))
  {
    var w1 := Next(w, BeginStatus(k, i, code));
    OneStep(w1, k, draw, 7);
    var w2 := Next(w1, Continue(k, draw));
    OneStep(w2, k, draw, 6);
    AnsweredStays(Next(w2, Continue(k, draw)), k, draw, 5);
  }

  /** The call after its first step, on the row it found. */
  lemma FoundPoll(w: World, k: nat, i: string, draw: string)
    requires Inv(w) && k !in w.calls && i in w.db.sessions && IsGeneratedSecret(draw)
    ensures
      var s := w.db.sessions[i];
      var w' := World(w.now, w.db, w.calls[k := Status(StatusCall(i, s.deviceCode, Some(s), None, CheckExpiry))]);
      CanContinue(w', k, draw) && PollAlone(w, k, i, s.deviceCode, draw) == Alone(w', k, draw, 6)
  {
    var s := w.db.sessions[i];
    var begun := Next(w, BeginStatus(k, i, s.deviceCode));
    assert SessionOk(w.db, w.now, i);
    OneStep(begun, k, draw, 7);
    assert s.id == i;
    var c := Status(StatusCall(i, s.deviceCode, Some(s), None, CheckExpiry));
    assert begun.calls[k := c] == w.calls[k := c];
  }

  /** A session without an agent: reported as it is, except that a late pending one
      is first expired. */
  lemma PlainPoll(w: World, k: nat, i: string, draw: string)
    requires Inv(w) && k !in w.calls && i in w.db.sessions && w.db.sessions[i].agentId.None? && IsGeneratedSecret(draw)
    ensures
      var s := w.db.sessions[i];
      var late := s.status == Pending && w.now > s.expiresAt;
      var status := if late then Expired else s.status;
      var db := w.db.(sessions := w.db.sessions[i := s.(status := status)]);
      Answers(PollAlone(w, k, i, s.deviceCode, draw), k, db, Success(StatusResult(status, None, "", false)))
  {
    var s := w.db.sessions[i];
    assert SessionOk(w.db, w.now, i);
    FoundPoll(w, k, i, draw);
    var w1 := World(w.now, w.db, w.calls[k := Status(StatusCall(i, s.deviceCode, Some(s), None, CheckExpiry))]);
    OneStep(w1, k, draw, 6);
    var w2 := Next(w1, Continue(k, draw));
    if s.status == Pending && w.now > s.expiresAt {
      OneStep(w2, k, draw, 5);
      AnsweredStays(Next(w2, Continue(k, draw)), k, draw, 4);
    } else {
      assert w.db.sessions[i := s] == w.db.sessions;
      AnsweredStays(w2, k, draw, 5);
    }
  }

  /** The call after its first two steps on a session with an agent. */
  lemma ReachesAgent(w: World, k: nat, i: string, id: string, draw: string)
    requires Inv(w) && k !in w.calls && i in w.db.sessions && w.db.sessions[i].agentId == Some(id)
    requires IsGeneratedSecret(draw)
    ensures id in w.db.agents
    ensures
      var s := w.db.sessions[i];
      var w' := World(w.now, w.db, w.calls[k := Status(StatusCall(i, s.deviceCode, Some(s), None, FindOwnAgent))]);
      && s.status == Confirmed && CanContinue(w', k, draw)
      && PollAlone(w, k, i, s.deviceCode, draw) == Alone(w', k, draw, 5)
  {
    var s := w.db.sessions[i];
    assert SessionOk(w.db, w.now, i);
    FoundPoll(w, k, i, draw);
    var w1 := World(w.now, w.db, w.calls[k := Status(StatusCall(i, s.deviceCode, Some(s), None, CheckExpiry))]);
    OneStep(w1, k, draw, 6);
    assert w1.calls[k].status.row.value == s;
    var c := Status(StatusCall(i, s.deviceCode, Some(s), None, FindOwnAgent));
    assert w1.calls[k := c] == w.calls[k := c];
  }

  /** A session with an agent: the first poll stores the hash of the drawn secret and
      hands it out, every later one reports it issued and changes nothing. */
  lemma PairedPoll(w: World, k: nat, i: string, id: string, draw: string)
    requires Inv(w) && k !in w.calls && i in w.db.sessions && w.db.sessions[i].agentId == Some(id)
    requires IsGeneratedSecret(draw)
    ensures id in w.db.agents
    ensures
      var s, a := w.db.sessions[i], w.db.agents[id];
      var w' := PollAlone(w, k, i, s.deviceCode, draw);
      if a.secretHash.Some? then Answers(w', k, w.db, Success(StatusResult(Confirmed, Some(id), "", true)))
      else
        var db := w.db.(agents := w.db.agents[id := a.(secretHash := Some(Bcrypt(draw)))]);
        Answers(w', k, db, Success(StatusResult(Confirmed, Some(id), draw, false)))
  {
    var s := w.db.sessions[i];
    ReachesAgent(w, k, i, id, draw);
    var w2 := World(w.now, w.db, w.calls[k := Status(StatusCall(i, s.deviceCode, Some(s), None, FindOwnAgent))]);
    OneStep(w2, k, draw, 5);
    var w3 := Next(w2, Continue(k, draw));
    if w.db.agents[id].secretHash.Some? {
      AnsweredStays(w3, k, draw, 4);
    } else {
      OneStep(w3, k, draw, 4);
      AnsweredStays(Next(w3, Continue(k, draw)), k, draw, 3);
    }
  }
}
