/** The global invariant of the pairing system: the tables together with every
    call in flight, under every interleaving. */
module PairingInvariant {
  import opened Base
  import opened PairingTables
  import opened PairingMachine

  /** A row some call has seen is an earlier form of the row in the table, and an
      agent it names has been claimed. */
  ghost predicate SeenRow(t: Tables, c: StatusCall) {
    c.row.Some? ==>
      && var row := c.row.value;
      && c.sessionId in t.sessions
      && t.sessions[c.sessionId].deviceCode == c.code
      && row.id == c.sessionId
      && RowEvolves(row, t.sessions[c.sessionId])
      && (row.agentId.Some? ==> row.status == Confirmed && row.agentId == row.requestedAgentId)
  }

  /** The stored hash, if the agent is still there, is the hash of this secret. */
  predicate HashIs(t: Tables, id: string, secret: string) {
    id in t.agents ==> t.agents[id].secretHash == Some(Bcrypt(secret))
  }

  predicate HashPresent(t: Tables, id: string) {
    id in t.agents ==> t.agents[id].secretHash.Some?
  }

  /** What a finished status call may have answered. */
  ghost predicate AnswerOk(t: Tables, c: StatusCall, r: StatusResult) {
    && c.row.Some? && c.row.value.status == r.status
    && (r.status == Pending ==> c.clock.Some? && c.clock.value <= c.row.value.expiresAt)
    && (r.agentId.Some? ==>
          && r.agentId == c.row.value.agentId
          && (r.secret != "" <==> !r.credentialIssued)
          && HashPresent(t, r.agentId.value)
          && (r.secret != "" ==> HashIs(t, r.agentId.value, r.secret)))
    && (r.agentId.None? ==>
          r.secret == "" && !r.credentialIssued && (r.status == Confirmed ==> c.row.value.agentId.None?))
  }

  ghost predicate StatusOk(t: Tables, now: Time, c: StatusCall) {
    && WellFormed(c)
    && SeenRow(t, c)
    && (c.clock.Some? ==> c.clock.value <= now)
    && (c.pc.FindSession? || c.pc.CheckCode? ==> c.row.None? && c.clock.None?)
    && (c.pc.CheckExpiry? ==> c.clock.None?)
    && (c.pc.Expire? ==> c.row.value.expiresAt < now)
    && (c.pc.FindSessionAgain? ==> c.row.Some? && t.sessions[c.sessionId].status != Pending)
    && (c.pc.FindOwnAgent? || c.pc.IssueSecret? || c.pc.FindAgentAgain? ==> c.row.value.status == Confirmed)
    && (c.pc.IssueSecret? ==> IsGeneratedSecret(c.pc.secret))
    && (c.pc.FindAgentAgain? ==> HashPresent(t, c.row.value.agentId.value))
    && (c.pc.Returned? ==>
          match c.pc.outcome
          case Success(r) => AnswerOk(t, c, r)
          case Failure(e) =>
            && e in {SessionNotFound, SessionMismatch, AgentNotFound}
            && (e != AgentNotFound ==> c.row.None?)
            && (e == AgentNotFound ==> HasAgentId(c) && c.row.value.agentId.value !in t.agents))
  }

  /** A credential call past its check still holds the matching secret. */
  ghost predicate CredentialOk(t: Tables, c: AgentCall) {
    && (c.pc.ChangeProtection? || c.pc.MarkSeen? ==> Claimed(t, c.agentId) && HashIs(t, c.agentId, c.secret))
    && (c.pc.ChangeProtection? ==> c.change.Some?)
  }

  ghost predicate CallOk(t: Tables, now: Time, c: Call) {
    match c
    case Status(s) => StatusOk(t, now, s)
    case Credential(a) => CredentialOk(t, a)
  }

  /** The call has returned this secret for this agent. */
  predicate Delivered(c: Call, id: string, secret: string) {
    && c.Status? && c.status.pc.Returned? && c.status.pc.outcome.Success?
    && c.status.pc.outcome.value.agentId == Some(id)
    && c.status.pc.outcome.value.secret == secret
    && secret != ""
  }

  predicate DeliveredBy(w: World, k: nat, id: string, secret: string) {
    k in w.calls && Delivered(w.calls[k], id, secret)
  }

  /** Two different calls never deliver a secret for the same agent. */
  ghost predicate OneDelivery(w: World) {
    forall j, k, id, s, s' {:trigger DeliveredBy(w, j, id, s), DeliveredBy(w, k, id, s')} ::
      DeliveredBy(w, j, id, s) && DeliveredBy(w, k, id, s') ==> j == k
  }

  /** A stored hash stands for a secret that some call returned. */
  ghost predicate HashDelivered(w: World, id: string)
    requires id in w.db.agents
  {
    w.db.agents[id].secretHash.Some? ==> exists k :: DeliveredBy(w, k, id, w.db.agents[id].secretHash.value.secret)
  }

  ghost predicate Inv(w: World) {
    && TablesOk(w.db, w.now)
    && (forall k {:trigger CallOk(w.db, w.now, w.calls[k])} :: k in w.calls ==> CallOk(w.db, w.now, w.calls[k]))
    && OneDelivery(w)
    && (forall id {:trigger HashDelivered(w, id)} :: id in w.db.agents ==> HashDelivered(w, id))
  }

  // ---- a step of one part of the system keeps what the others rely on ----

  lemma RowEvolvesTrans(a: Session, b: Session, c: Session)
    requires RowEvolves(a, b) && RowEvolves(b, c)
    ensures RowEvolves(a, c)
  {
  }

  lemma SeenRowStable(t: Tables, t': Tables, c: StatusCall)
    requires SeenRow(t, c) && Evolves(t, t')
    ensures SeenRow(t', c)
  {
    if c.row.Some? {
      assert SessionEvolves(t, t', c.sessionId);
      RowEvolvesTrans(c.row.value, t.sessions[c.sessionId], t'.sessions[c.sessionId]);
    }
  }

  lemma SeenAgentIsClaimed(t: Tables, c: StatusCall)
    requires SeenRow(t, c) && HasAgentId(c)
    ensures Claimed(t, c.row.value.agentId.value)
  {
    assert ClaimedBy(t, c.sessionId, c.row.value.agentId.value);
  }

  lemma ClaimedStable(t: Tables, t': Tables, id: string)
    requires Claimed(t, id) && Evolves(t, t')
    ensures Claimed(t', id)
  {
    var i :| ClaimedBy(t, i, id);
    assert SessionEvolves(t, t', i);
    assert ClaimedBy(t', i, id);
  }

  lemma HashStable(t: Tables, t': Tables, id: string)
    requires Claimed(t, id) && Evolves(t, t')
    ensures HashPresent(t, id) ==> HashPresent(t', id)
    ensures forall s :: HashIs(t, id, s) ==> HashIs(t', id, s)
    ensures id !in t.agents ==> id !in t'.agents
  {
    assert AgentIdEvolves(t, t', id);
  }

  lemma CallOkStable(t: Tables, now: Time, t': Tables, now': Time, c: Call)
    requires CallOk(t, now, c) && Evolves(t, t') && now <= now'
    ensures CallOk(t', now', c)
  {
    match c
    case Status(s) =>
      SeenRowStable(t, t', s);
      if s.row.Some? {
        assert SessionEvolves(t, t', s.sessionId);
      }
      if HasAgentId(s) {
        SeenAgentIsClaimed(t, s);
        HashStable(t, t', s.row.value.agentId.value);
      }
    case Credential(a) =>
      if Claimed(t, a.agentId) {
        ClaimedStable(t, t', a.agentId);
        HashStable(t, t', a.agentId);
      }
  }

  // ---- the step of one call ----

  /** A row just read or returned from the table. */
  lemma SettleOk(t: Tables, now: Time, c: StatusCall, row: Session)
    requires TablesOk(t, now) && c.sessionId in t.sessions && row == t.sessions[c.sessionId] && row.deviceCode == c.code
    requires c.clock.Some? ==> c.clock.value <= now
    requires row.status == Pending ==> c.clock.Some? && c.clock.value <= row.expiresAt
    ensures StatusOk(t, now, Settle(c, row))
  {
    assert SessionOk(t, now, c.sessionId);
  }

  /** The row the call saw before, settled although the table may have moved on. */
  lemma SettleSeenOk(t: Tables, now: Time, c: StatusCall)
    requires SeenRow(t, c) && c.row.Some?
    requires c.clock.Some? ==> c.clock.value <= now
    requires c.row.value.status == Pending ==> c.clock.Some? && c.clock.value <= c.row.value.expiresAt
    ensures StatusOk(t, now, Settle(c, c.row.value))
  {
  }

  lemma StatusStepOk(t: Tables, now: Time, draw: string, c: StatusCall)
    requires TablesOk(t, now) && StatusOk(t, now, c) && IsGeneratedSecret(draw)
    ensures
      var (t', c') := StatusStep(t, now, draw, c);
      GoodStep(t, t', now) && StatusOk(t', now, c')
  {
    var (t', c') := StatusStep(t, now, draw, c);
    NothingChanges(t, now);
    match c.pc
    case FindSession =>
      if c'.row.Some? {
        assert SessionOk(t, now, c.sessionId);
      }
    case CheckCode =>
    case CheckExpiry =>
      if c'.pc != Expire {
        SettleSeenOk(t, now, c.(clock := if c.row.value.status == Pending then Some(now) else c.clock));
      }
    case Expire =>
      ExpireSessionOk(t, now, c.sessionId);
      SeenRowStable(t, t', c);
      if t.sessions[c.sessionId].status == Pending {
        SettleOk(t', now, c, t'.sessions[c.sessionId]);
      }
    case FindSessionAgain =>
      SettleOk(t, now, c, t.sessions[c.sessionId]);
    case FindOwnAgent =>
    case IssueSecret(secret) =>
      var id := c.row.value.agentId.value;
      if CanIssue(t, id) {
        assert AgentOk(t, id);
        UpdateAgentOk(t, now, id, t.agents[id].(secretHash := Some(Bcrypt(secret))));
      }
      SeenRowStable(t, t', c);
    case FindAgentAgain =>
    case Returned(_) =>
  }

  lemma AgentStepOk(t: Tables, now: Time, c: AgentCall)
    requires TablesOk(t, now) && CredentialOk(t, c)
    ensures
      var (t', c') := AgentStep(t, now, c);
      GoodStep(t, t', now) && CredentialOk(t', c')
  {
    var (t', c') := AgentStep(t, now, c);
    NothingChanges(t, now);
    match c.pc
    case LookUp =>
      if Matches(t, c.agentId, c.secret) {
        AgentsAreClaimed(t, now, c.agentId);
      }
    case ChangeProtection =>
      if c.agentId in t.agents {
        assert AgentOk(t, c.agentId);
        UpdateAgentOk(t, now, c.agentId, t.agents[c.agentId].(protection := c.change.value));
      }
      ClaimedStable(t, t', c.agentId);
    case MarkSeen =>
      if c.agentId in t.agents {
        UpdateAgentOk(t, now, c.agentId, t.agents[c.agentId].(status := Online, lastSeen := Some(now)));
      }
    case Answered(_) =>
  }

  // ---- every step of the system ----

  lemma NextTablesOk(w: World, a: Action)
    requires Inv(w)
    ensures GoodStep(w.db, NextTables(w, a), w.now)
  {
    NothingChanges(w.db, w.now);
    match a
    case Tick(_) =>
    case AddUser(u) => AddUserOk(w.db, w.now, u);
    case Create(id, agentId, code, name, os, clock) =>
      if clock <= w.now && agentId != "" {
        InsertSessionOk(w.db, w.now, NewSession(id, agentId, code, name, os, clock + PAIRING_SESSION_TTL));
      }
    case Confirm(code, userId, clock) =>
      if clock <= w.now {
        ConfirmSessionOk(w.db, w.now, code, userId, clock);
      }
    case Delete(id, userId) => DeleteAgentOk(w.db, w.now, id, userId);
    case OwnerProtect(id, userId, p) =>
      if Owns(w.db, userId, id) {
        assert AgentOk(w.db, id);
        UpdateAgentOk(w.db, w.now, id, w.db.agents[id].(protection := p));
      }
    case BeginStatus(_, _, _) =>
    case BeginCredential(_, _, _, _) =>
    case Continue(c, draw) =>
      if CanContinue(w, c, draw) {
        assert CallOk(w.db, w.now, w.calls[c]);
        match w.calls[c]
        case Status(s) => StatusStepOk(w.db, w.now, draw, s);
        case Credential(k) => AgentStepOk(w.db, w.now, k);
      }
  }

  lemma NextCallsOk(w: World, a: Action)
    requires Inv(w)
    ensures forall k :: k in NextCalls(w, a) ==> CallOk(NextTables(w, a), Next(w, a).now, NextCalls(w, a)[k])
  {
    var w' := Next(w, a);
    NextTablesOk(w, a);
    forall k | k in w'.calls ensures CallOk(w'.db, w'.now, w'.calls[k]) {
      if k in w.calls {
        assert CallOk(w.db, w.now, w.calls[k]);
        if a.Continue? && a.call == k && CanContinue(w, k, a.draw) {
          match w.calls[k]
          case Status(s) => StatusStepOk(w.db, w.now, a.draw, s);
          case Credential(c) => AgentStepOk(w.db, w.now, c);
        } else {
          CallOkStable(w.db, w.now, w'.db, w'.now, w.calls[k]);
        }
      }
    }
  }

  /** The step delivers a secret, rather than keeping one delivered before. */
  predicate Delivers(w: World, a: Action, id: string, secret: string) {
    && a.Continue? && CanContinue(w, a.call, a.draw)
    && w.calls[a.call].Status?
    && w.calls[a.call].status.pc == IssueSecret(secret)
    && w.calls[a.call].status.row.value.agentId == Some(id)
    && CanIssue(w.db, id)
  }

  lemma DeliveriesOf(w: World, a: Action, k: nat, id: string, secret: string)
    requires Inv(w)
    ensures DeliveredBy(Next(w, a), k, id, secret) <==>
      DeliveredBy(w, k, id, secret) || (a.Continue? && k == a.call && secret != "" && Delivers(w, a, id, secret))
  {
    if k in w.calls {
      assert CallOk(w.db, w.now, w.calls[k]);
    }
  }

  lemma DeliveredIsStored(w: World, k: nat, id: string, secret: string)
    requires Inv(w) && DeliveredBy(w, k, id, secret)
    ensures HashIs(w.db, id, secret) && Claimed(w.db, id)
  {
    assert CallOk(w.db, w.now, w.calls[k]);
    SeenAgentIsClaimed(w.db, w.calls[k].status);
  }

  lemma NextOneDelivery(w: World, a: Action)
    requires Inv(w)
    ensures OneDelivery(Next(w, a))
  {
    var w' := Next(w, a);
    forall j, k, id, s, s' | DeliveredBy(w', j, id, s) && DeliveredBy(w', k, id, s') ensures j == k {
      DeliveriesOf(w, a, j, id, s);
      DeliveriesOf(w, a, k, id, s');
      if DeliveredBy(w, j, id, s) {
        DeliveredIsStored(w, j, id, s);
      }
      if DeliveredBy(w, k, id, s') {
        DeliveredIsStored(w, k, id, s');
      }
    }
  }

  lemma NextHashDelivered(w: World, a: Action, id: string)
    requires Inv(w) && id in Next(w, a).db.agents
    ensures HashDelivered(Next(w, a), id)
  {
    var w' := Next(w, a);
    NextTablesOk(w, a);
    if w'.db.agents[id].secretHash.Some? {
      var s := w'.db.agents[id].secretHash.value.secret;
      if id in w.db.agents && w.db.agents[id].secretHash.Some? {
        assert AgentIdEvolves(w.db, w'.db, id);
        assert HashDelivered(w, id);
        var k :| DeliveredBy(w, k, id, s);
        DeliveriesOf(w, a, k, id, s);
      } else {
        if a.Continue? && a.call in w.calls {
          assert CallOk(w.db, w.now, w.calls[a.call]);
        }
        assert Delivers(w, a, id, s);
        DeliveriesOf(w, a, a.call, id, s);
      }
    }
  }

  lemma InvNext(w: World, a: Action)
    requires Inv(w)
    ensures Inv(Next(w, a))
  {
    NextTablesOk(w, a);
    TickOk(NextTables(w, a), w.now, Next(w, a).now);
    NextCallsOk(w, a);
    NextOneDelivery(w, a);
    forall id | id in Next(w, a).db.agents ensures HashDelivered(Next(w, a), id) {
      NextHashDelivered(w, a, id);
    }
  }

  /** Every run from empty tables keeps the invariant. */
  lemma {:induction false} InvAlways(run: seq<Action>)
    ensures Inv(Exec(run))
  {
    if run != [] {
      InvAlways(Front(run));
      InvNext(Exec(Front(run)), Last(run));
    }
  }
}
