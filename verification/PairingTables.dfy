/** The rows of the pairing tables and the effect of every SQL statement or
    transaction on them. A statement is a function from the tables before it to
    the tables after it and its result. */
module PairingTables {
  import opened Base

  datatype SessionStatus = Pending | Confirmed | Expired | Cancelled
  datatype AgentStatus = Online | Offline
  datatype Protection = Enabled | Disabled

  /** bcrypt, idealised: a hash matches the hashed text and nothing else. */
  datatype SecretHash = Bcrypt(secret: string)

  datatype Session = Session(
    id: string,
    deviceCode: string,
    requestedAgentId: Option<string>,
    deviceName: string,
    osType: string,
    status: SessionStatus,
    expiresAt: Time,
    confirmedBy: Option<string>,
    agentId: Option<string>,
    confirmedAt: Option<Time>)

  datatype Agent = Agent(
    id: string,
    userId: string,
    deviceName: string,
    osType: string,
    secretHash: Option<SecretHash>,
    status: AgentStatus,
    protection: Protection,
    lastSeen: Option<Time>)

  datatype Tables = Tables(users: set<string>, sessions: map<string, Session>, agents: map<string, Agent>)

  datatype PairingError =
    | InvalidInput
    | SessionNotFound
    | SessionMismatch
    | SessionNotPending
    | SessionExpired
    | CodeUnavailable
    | CredentialInvalid
    | AgentNotFound
    | MissingAgentId
    | ConstraintViolation

  const PAIRING_SESSION_TTL: Time := 10 * MINUTE

  // ---- pairing_sessions ----

  ghost predicate HasCode(t: Tables, code: string) {
    exists i :: i in t.sessions && t.sessions[i].deviceCode == code
  }

  ghost function FindByCode(t: Tables, code: string): Option<Session> {
    if HasCode(t, code) then
      var i :| i in t.sessions && t.sessions[i].deviceCode == code;
      Some(t.sessions[i])
    else None
  }

  function FindByIdAndCode(t: Tables, id: string, code: string): Option<Session> {
    if id in t.sessions && t.sessions[id].deviceCode == code then Some(t.sessions[id]) else None
  }

  /** The row an INSERT of a new pairing session would hold. */
  function NewSession(id: string, agentId: string, code: string, name: string, os: string, expiresAt: Time): Session {
    Session(id, code, Some(agentId), name, os, Pending, expiresAt, None, None, None)
  }

  /** The primary key or one of the two unique indexes rejects the row. */
  ghost predicate Clashes(t: Tables, s: Session) {
    || s.id in t.sessions
    || HasCode(t, s.deviceCode)
    || exists i :: i in t.sessions && t.sessions[i].requestedAgentId == s.requestedAgentId
  }

  ghost function InsertSession(t: Tables, s: Session): Tables {
    if Clashes(t, s) then t else t.(sessions := t.sessions[s.id := s])
  }

  function ExpireSession(t: Tables, id: string): (Tables, Option<Session>) {
    if id in t.sessions && t.sessions[id].status == Pending then
      var row := t.sessions[id].(status := Expired);
      (t.(sessions := t.sessions[id := row]), Some(row))
    else (t, None)
  }

  function ConfirmedAgent(s: Session, userId: string): Agent
    requires s.requestedAgentId.Some?
  {
    Agent(s.requestedAgentId.value, userId, s.deviceName, s.osType, None, Offline, Disabled, None)
  }

  /** The confirmation transaction; its expiry branch commits as well. */
  ghost function ConfirmSession(t: Tables, code: string, userId: string, now: Time)
    : (Tables, Result<Agent, PairingError>)
  {
    match FindByCode(t, code)
    case None => (t, Failure(SessionNotFound))
    case Some(s) =>
      if s.status != Pending then
        (t, Failure(SessionNotPending))
      else if now > s.expiresAt then
        (t.(sessions := t.sessions[s.id := s.(status := Expired)]), Failure(SessionExpired))
      else if s.requestedAgentId.None? || s.requestedAgentId.value == "" then
        (t, Failure(MissingAgentId))
      else if userId !in t.users || s.requestedAgentId.value in t.agents then
        (t, Failure(ConstraintViolation))
      else
        var agent := ConfirmedAgent(s, userId);
        var row := s.(status := Confirmed, confirmedBy := Some(userId), agentId := Some(agent.id),
            confirmedAt := Some(now));
        (t.(sessions := t.sessions[s.id := row], agents := t.agents[agent.id := agent]), Success(agent))
  }

  // ---- pc_agents ----

  function FindAgent(t: Tables, id: string): Option<Agent> {
    if id in t.agents then Some(t.agents[id]) else None
  }

  predicate CanIssue(t: Tables, id: string) {
    id in t.agents && t.agents[id].secretHash.None?
  }

  /** UPDATE ... WHERE agent_secret_hash IS NULL. */
  function SetHashIfEmpty(t: Tables, id: string, hash: SecretHash): Tables {
    if CanIssue(t, id) then t.(agents := t.agents[id := t.agents[id].(secretHash := Some(hash))]) else t
  }

  function MarkVerified(t: Tables, id: string, at: Time): Tables {
    if id in t.agents
    then t.(agents := t.agents[id := t.agents[id].(status := Online, lastSeen := Some(at))])
    else t
  }

  function SetProtection(t: Tables, id: string, protection: Protection): Tables {
    if id in t.agents
    then t.(agents := t.agents[id := t.agents[id].(protection := protection)])
    else t
  }

  predicate Owns(t: Tables, userId: string, id: string) {
    id in t.agents && t.agents[id].userId == userId
  }

  function SetProtectionByOwner(t: Tables, id: string, userId: string, protection: Protection): Tables {
    if Owns(t, userId, id) then SetProtection(t, id, protection) else t
  }

  /** ON DELETE SET NULL of pairing_sessions.pc_agent_id. */
  function ClearedRow(s: Session, id: string): Session {
    if s.agentId == Some(id) then s.(agentId := None) else s
  }

  function ClearAgent(sessions: map<string, Session>, id: string): map<string, Session> {
    map i | i in sessions :: ClearedRow(sessions[i], id)
  }

  function DeleteAgent(t: Tables, id: string, userId: string): Tables {
    if Owns(t, userId, id)
    then t.(agents := t.agents - {id}, sessions := ClearAgent(t.sessions, id))
    else t
  }

  // ---- the schema's constraints and the cross-table invariant ----

  /** Two rows that share an id, a device code or a reserved agent id are one row. */
  predicate Distinct(t: Tables, i: string, j: string)
    requires i in t.sessions && j in t.sessions
  {
    var s, s' := t.sessions[i], t.sessions[j];
    s.deviceCode == s'.deviceCode || s.requestedAgentId == s'.requestedAgentId ==> i == j
  }

  ghost predicate UniqueKeys(t: Tables) {
    && (forall i :: i in t.sessions ==> t.sessions[i].id == i)
    && (forall i, j {:trigger Distinct(t, i, j)} :: i in t.sessions && j in t.sessions ==> Distinct(t, i, j))
  }

  /** The agent a session points to is the one it reserved, owned by whoever confirmed it. */
  predicate LinkOk(t: Tables, s: Session) {
    s.agentId.Some? ==>
      && s.agentId == s.requestedAgentId
      && s.agentId.value in t.agents
      && var a := t.agents[s.agentId.value];
         Some(a.userId) == s.confirmedBy && a.deviceName == s.deviceName && a.osType == s.osType
  }

  predicate SessionOk(t: Tables, now: Time, i: string)
    requires i in t.sessions
  {
    var s := t.sessions[i];
    && s.requestedAgentId.Some? && s.requestedAgentId.value != ""
    && s.status != Cancelled
    && (s.status == Expired ==> s.expiresAt < now)
    && (s.status == Confirmed ==>
          && s.confirmedBy.Some? && s.confirmedBy.value in t.users
          && s.confirmedAt.Some? && s.confirmedAt.value <= s.expiresAt)
    && (s.status != Confirmed ==> s.confirmedBy.None? && s.agentId.None? && s.confirmedAt.None?)
    && LinkOk(t, s)
  }

  /** Session i made agent id and still points to it. */
  predicate Made(t: Tables, i: string, id: string) {
    i in t.sessions && t.sessions[i].agentId == Some(id)
  }

  ghost predicate AgentOk(t: Tables, id: string)
    requires id in t.agents
  {
    var a := t.agents[id];
    && a.id == id
    && (a.status == Online ==> a.secretHash.Some? && a.lastSeen.Some?)
    && exists i :: Made(t, i, id)
  }

  ghost predicate TablesOk(t: Tables, now: Time) {
    && UniqueKeys(t)
    && (forall i {:trigger SessionOk(t, now, i)} :: i in t.sessions ==> SessionOk(t, now, i))
    && (forall a {:trigger AgentOk(t, a)} :: a in t.agents ==> AgentOk(t, a))
  }

  // ---- how rows may change ----

  /** Terminal states do not reopen, a confirmation is never rewritten, and the
      agent reference can only be cleared. */
  predicate RowEvolves(s: Session, s': Session) {
    && s'.id == s.id && s'.deviceCode == s.deviceCode && s'.requestedAgentId == s.requestedAgentId
    && s'.deviceName == s.deviceName && s'.osType == s.osType && s'.expiresAt == s.expiresAt
    && (s.status == s'.status || (s.status == Pending && s'.status != Cancelled))
    && (s.status == Confirmed ==>
          && s'.confirmedBy == s.confirmedBy && s'.confirmedAt == s.confirmedAt
          && (s'.agentId == s.agentId || s'.agentId.None?))
  }

  predicate SessionEvolves(t: Tables, t': Tables, i: string)
    requires i in t.sessions
  {
    i in t'.sessions && RowEvolves(t.sessions[i], t'.sessions[i])
  }

  /** Owner and names are fixed and a stored hash is never replaced. */
  predicate AgentEvolves(a: Agent, a': Agent) {
    && a'.id == a.id && a'.userId == a.userId && a'.deviceName == a.deviceName && a'.osType == a.osType
    && (a.secretHash.Some? ==> a'.secretHash == a.secretHash)
    && (a.lastSeen.Some? ==> a'.lastSeen.Some?)
    && (a.status == Online ==> a'.status == Online)
  }

  /** A confirmed session reserved this agent id: the agent exists, or existed once. */
  predicate ClaimedBy(t: Tables, i: string, id: string) {
    i in t.sessions && t.sessions[i].status == Confirmed && t.sessions[i].requestedAgentId == Some(id)
  }

  ghost predicate Claimed(t: Tables, id: string) {
    exists i :: ClaimedBy(t, i, id)
  }

  /** An agent row changes as AgentEvolves says, and a claimed id is never inserted. */
  ghost predicate AgentIdEvolves(t: Tables, t': Tables, id: string) {
    id in t'.agents ==>
      && (id in t.agents ==> AgentEvolves(t.agents[id], t'.agents[id]))
      && (id !in t.agents ==> !Claimed(t, id))
  }

  ghost predicate Evolves(t: Tables, t': Tables) {
    && t.users <= t'.users
    && (forall i {:trigger SessionEvolves(t, t', i)} :: i in t.sessions ==> SessionEvolves(t, t', i))
    && (forall a {:trigger AgentIdEvolves(t, t', a)} :: AgentIdEvolves(t, t', a))
  }

  ghost predicate GoodStep(t: Tables, t': Tables, now: Time) {
    TablesOk(t', now) && Evolves(t, t')
  }

  // ---- every statement keeps the invariant and moves rows forward only ----

  lemma FindByCodeIs(t: Tables, i: string)
    requires UniqueKeys(t) && i in t.sessions
    ensures FindByCode(t, t.sessions[i].deviceCode) == Some(t.sessions[i])
  {
    forall j | j in t.sessions ensures Distinct(t, i, j) {}
  }

  lemma AgentsAreClaimed(t: Tables, now: Time, id: string)
    requires TablesOk(t, now) && id in t.agents
    ensures Claimed(t, id)
  {
    assert AgentOk(t, id);
    var i :| Made(t, i, id);
    assert SessionOk(t, now, i);
    assert ClaimedBy(t, i, id);
  }

  /** The agent id a pending session reserved belongs to no agent and never did. */
  lemma PendingRequestIsFree(t: Tables, now: Time, i: string)
    requires TablesOk(t, now) && i in t.sessions && t.sessions[i].status == Pending
    ensures t.sessions[i].requestedAgentId.Some?
    ensures t.sessions[i].requestedAgentId.value !in t.agents
    ensures !Claimed(t, t.sessions[i].requestedAgentId.value)
  {
    assert SessionOk(t, now, i);
    var id := t.sessions[i].requestedAgentId.value;
    forall j ensures !ClaimedBy(t, j, id) {
      if j in t.sessions { assert Distinct(t, i, j); }
    }
    if id in t.agents {
      AgentsAreClaimed(t, now, id);
    }
  }

  lemma NothingChanges(t: Tables, now: Time)
    requires TablesOk(t, now)
    ensures GoodStep(t, t, now)
  {
  }

  lemma InsertSessionOk(t: Tables, now: Time, s: Session)
    requires TablesOk(t, now)
    requires s.status == Pending && s.requestedAgentId.Some? && s.requestedAgentId.value != ""
    requires s.confirmedBy.None? && s.agentId.None? && s.confirmedAt.None?
    ensures GoodStep(t, InsertSession(t, s), now)
  {
    var t' := InsertSession(t, s);
    if Clashes(t, s) {
      NothingChanges(t, now);
    } else {
      forall a | a in t'.agents ensures AgentOk(t', a) {
        assert AgentOk(t, a);
        var i :| Made(t, i, a);
        assert Made(t', i, a);
      }
      forall i | i in t'.sessions ensures SessionOk(t', now, i) {
        if i != s.id { assert SessionOk(t, now, i); }
      }
      forall i, j | i in t'.sessions && j in t'.sessions ensures Distinct(t', i, j) {
        if i != s.id && j != s.id { assert Distinct(t, i, j); }
      }
    }
  }

  lemma ExpireSessionOk(t: Tables, now: Time, id: string)
    requires TablesOk(t, now)
    requires id in t.sessions ==> t.sessions[id].expiresAt < now
    ensures GoodStep(t, ExpireSession(t, id).0, now)
  {
    var t' := ExpireSession(t, id).0;
    if id !in t.sessions || t.sessions[id].status != Pending {
      NothingChanges(t, now);
      return;
    }
    assert SessionOk(t, now, id);
    forall a | a in t'.agents ensures AgentOk(t', a) {
      assert AgentOk(t, a);
      var i :| Made(t, i, a);
      assert Made(t', i, a);
    }
    forall i | i in t'.sessions ensures SessionOk(t', now, i) {
      assert SessionOk(t, now, i);
    }
    forall i, j | i in t'.sessions && j in t'.sessions ensures Distinct(t', i, j) {
      assert Distinct(t, i, j);
    }
  }

  lemma ConfirmSessionOk(t: Tables, now: Time, code: string, userId: string, clock: Time)
    requires TablesOk(t, now) && clock <= now
    ensures GoodStep(t, ConfirmSession(t, code, userId, clock).0, now)
  {
    var (t', r) := ConfirmSession(t, code, userId, clock);
    if r.Success? {
      ConfirmedOk(t, now, FindByCode(t, code).value.id, userId, clock);
    } else if r.error == SessionExpired {
      ExpireSessionOk(t, now, FindByCode(t, code).value.id);
    } else {
      NothingChanges(t, now);
    }
  }

  /** The success branch of the confirmation. */
  lemma ConfirmedOk(t: Tables, now: Time, k: string, userId: string, clock: Time)
    requires TablesOk(t, now) && k in t.sessions && t.sessions[k].status == Pending
    requires clock <= t.sessions[k].expiresAt && userId in t.users && t.sessions[k].requestedAgentId.Some?
    ensures
      var s := t.sessions[k];
      var agent := ConfirmedAgent(s, userId);
      var row := s.(status := Confirmed, confirmedBy := Some(userId), agentId := Some(agent.id),
          confirmedAt := Some(clock));
      GoodStep(t, t.(sessions := t.sessions[k := row], agents := t.agents[agent.id := agent]), now)
  {
    var s := t.sessions[k];
    var agent := ConfirmedAgent(s, userId);
    var row := s.(status := Confirmed, confirmedBy := Some(userId), agentId := Some(agent.id),
        confirmedAt := Some(clock));
    var t' := t.(sessions := t.sessions[k := row], agents := t.agents[agent.id := agent]);
    PendingRequestIsFree(t, now, k);
    assert SessionOk(t, now, k);
    forall a | a in t'.agents ensures AgentOk(t', a) {
      if a == agent.id {
        assert Made(t', k, a);
      } else {
        assert AgentOk(t, a);
        var i :| Made(t, i, a);
        assert Made(t', i, a);
      }
    }
    forall i | i in t'.sessions ensures SessionOk(t', now, i) {
      assert SessionOk(t, now, i);
    }
    forall i, j | i in t'.sessions && j in t'.sessions ensures Distinct(t', i, j) {
      assert Distinct(t, i, j);
    }
  }

  /** An update of one agent row that keeps its identity. */
  lemma UpdateAgentOk(t: Tables, now: Time, id: string, a: Agent)
    requires TablesOk(t, now) && id in t.agents && AgentEvolves(t.agents[id], a)
    requires a.status == Online ==> a.secretHash.Some? && a.lastSeen.Some?
    ensures GoodStep(t, t.(agents := t.agents[id := a]), now)
  {
    var t' := t.(agents := t.agents[id := a]);
    forall b | b in t'.agents ensures AgentOk(t', b) {
      assert AgentOk(t, b);
      var i :| Made(t, i, b);
      assert Made(t', i, b);
    }
    forall i | i in t'.sessions ensures SessionOk(t', now, i) {
      assert SessionOk(t, now, i);
    }
    forall i, j | i in t'.sessions && j in t'.sessions ensures Distinct(t', i, j) {
      assert Distinct(t, i, j);
    }
  }

  lemma DeleteAgentOk(t: Tables, now: Time, id: string, userId: string)
    requires TablesOk(t, now)
    ensures GoodStep(t, DeleteAgent(t, id, userId), now)
  {
    var t' := DeleteAgent(t, id, userId);
    if !Owns(t, userId, id) {
      NothingChanges(t, now);
      return;
    }
    DeleteAgentKeeps(t, t', now, id);
    assert Evolves(t, t');
  }

  lemma DeleteAgentKeeps(t: Tables, t': Tables, now: Time, id: string)
    requires TablesOk(t, now)
    requires t'.users == t.users && t'.agents == t.agents - {id} && t'.sessions.Keys == t.sessions.Keys
    requires forall i :: i in t.sessions ==> t'.sessions[i] == ClearedRow(t.sessions[i], id)
    ensures TablesOk(t', now)
  {
    forall a | a in t'.agents ensures AgentOk(t', a) {
      assert AgentOk(t, a);
      var i :| Made(t, i, a);
      assert Made(t', i, a);
    }
    forall i | i in t'.sessions ensures SessionOk(t', now, i) {
      assert SessionOk(t, now, i);
    }
    forall i, j | i in t'.sessions && j in t'.sessions ensures Distinct(t', i, j) {
      assert Distinct(t, i, j);
    }
  }

  lemma AddUserOk(t: Tables, now: Time, userId: string)
    requires TablesOk(t, now)
    ensures GoodStep(t, t.(users := t.users + {userId}), now)
  {
    var t' := t.(users := t.users + {userId});
    forall a | a in t'.agents ensures AgentOk(t', a) {
      assert AgentOk(t, a);
      var i :| Made(t, i, a);
      assert Made(t', i, a);
    }
    forall i | i in t'.sessions ensures SessionOk(t', now, i) {
      assert SessionOk(t, now, i);
    }
    forall i, j | i in t'.sessions && j in t'.sessions ensures Distinct(t', i, j) {
      assert Distinct(t, i, j);
    }
  }

  lemma TickOk(t: Tables, now: Time, later: Time)
    requires TablesOk(t, now) && now <= later
    ensures TablesOk(t, later)
  {
    forall i | i in t.sessions ensures SessionOk(t, later, i) {
      assert SessionOk(t, now, i);
    }
  }
}
