/** What the pairing protocol guarantees over whole runs, whatever the interleaving. */
module PairingTheorems {
  import opened Base
  import opened PairingTables
  import opened PairingMachine
  import opened PairingInvariant
  import opened PairingEffects

  // ---- the one-time credential ----

  /** At most one status call ever returns a secret for an agent id. */
  lemma OneTimeCredential(run: seq<Action>, j: nat, k: nat, id: string, s: string, s': string)
    requires DeliveredBy(Exec(run), j, id, s) && DeliveredBy(Exec(run), k, id, s')
    ensures j == k && s == s'
  {
    InvAlways(run);
  }

  /** The same per session: of all calls on one session at most one returns a secret. */
  lemma OneSecretPerSession(run: seq<Action>, j: nat, k: nat, id: string, id': string, s: string, s': string)
    requires DeliveredBy(Exec(run), j, id, s) && DeliveredBy(Exec(run), k, id', s')
    requires Exec(run).calls[j].status.sessionId == Exec(run).calls[k].status.sessionId
    ensures j == k && id == id' && s == s'
  {
    var w := Exec(run);
    InvAlways(run);
    assert CallOk(w.db, w.now, w.calls[j]) && CallOk(w.db, w.now, w.calls[k]);
  }

  /** An agent has a stored hash exactly when some call returned its secret, and
      then the hash is of that secret and of no other. */
  lemma StoredHashIsDelivered(run: seq<Action>, id: string, secret: string)
    requires id in Exec(run).db.agents && secret != ""
    ensures (exists k :: DeliveredBy(Exec(run), k, id, secret)) <==>
            Exec(run).db.agents[id].secretHash == Some(Bcrypt(secret))
  {
    var w := Exec(run);
    InvAlways(run);
    if k :| DeliveredBy(w, k, id, secret) {
      DeliveredIsStored(w, k, id, secret);
    }
    if w.db.agents[id].secretHash == Some(Bcrypt(secret)) {
      assert HashDelivered(w, id);
    }
  }

  /** While the agent exists, its delivered secret passes the credential check and
      every other text fails it. */
  lemma DeliveredSecretVerifies(run: seq<Action>, k: nat, id: string, secret: string, presented: string,
      change: Option<Protection>)
    requires DeliveredBy(Exec(run), k, id, secret) && id in Exec(run).db.agents
    ensures
      var c := AgentStep(Exec(run).db, Exec(run).now, NewAgentCall(id, presented, change)).1;
      if presented == secret then c.pc == (if change.Some? then ChangeProtection else MarkSeen)
      else c.pc == Answered(Failure(CredentialInvalid))
  {
    InvAlways(run);
    DeliveredIsStored(Exec(run), k, id, secret);
  }

  /** A verification that passed its check and still finds the agent succeeds and
      leaves it online; it fails only when the agent is gone. */
  lemma CheckedCallCompletes(run: seq<Action>, k: nat)
    requires k in Exec(run).calls && Exec(run).calls[k].Credential? && Exec(run).calls[k].agent.pc.MarkSeen?
    ensures
      var w := Exec(run);
      var id := w.calls[k].agent.agentId;
      var (t, c) := AgentStep(w.db, w.now, w.calls[k].agent);
      if id in w.db.agents
      then id in t.agents && t.agents[id].status == Online && c.pc == Answered(Success(t.agents[id]))
           && t.agents[id].secretHash == Some(Bcrypt(c.secret)) && t.agents[id].lastSeen == Some(w.now)
           && t.agents[id].protection == w.db.agents[id].protection
      else c.pc == Answered(Failure(AgentNotFound))
  {
    InvAlways(run);
    assert CallOk(Exec(run).db, Exec(run).now, Exec(run).calls[k]);
  }

  // ---- the tables in every reachable state ----

  /** Device codes and reserved agent ids are unique. */
  lemma KeysStayUnique(run: seq<Action>, i: string, j: string)
    requires i in Exec(run).db.sessions && j in Exec(run).db.sessions && i != j
    ensures Exec(run).db.sessions[i].deviceCode != Exec(run).db.sessions[j].deviceCode
    ensures Exec(run).db.sessions[i].requestedAgentId != Exec(run).db.sessions[j].requestedAgentId
  {
    InvAlways(run);
    assert Distinct(Exec(run).db, i, j);
  }

  /** The cross-table invariant of a session. */
  lemma SessionsStayConsistent(run: seq<Action>, i: string)
    requires i in Exec(run).db.sessions
    ensures
      var w := Exec(run);
      var s := w.db.sessions[i];
      && s.id == i && s.status != Cancelled
      && (s.status == Expired ==> s.expiresAt < w.now)
      && (s.status == Confirmed <==> s.confirmedAt.Some?)
      && (s.status == Confirmed <==> s.confirmedBy.Some?)
      && (s.confirmedAt.Some? ==> s.confirmedAt.value <= s.expiresAt)
      && s.requestedAgentId.Some?
      && (s.agentId.Some? <==> s.status == Confirmed && s.requestedAgentId.value in w.db.agents)
      && (s.agentId.Some? ==>
            s.agentId == s.requestedAgentId && Some(w.db.agents[s.agentId.value].userId) == s.confirmedBy)
  {
    var w := Exec(run);
    InvAlways(run);
    assert SessionOk(w.db, w.now, i);
    var s := w.db.sessions[i];
    if s.status == Confirmed && s.requestedAgentId.value in w.db.agents {
      assert AgentOk(w.db, s.requestedAgentId.value);
      var j :| Made(w.db, j, s.requestedAgentId.value);
      assert SessionOk(w.db, w.now, j) && Distinct(w.db, i, j);
    }
  }

  /** Every agent comes from exactly one confirmed session, with its names and owner. */
  lemma AgentsComeFromOneSession(run: seq<Action>, id: string)
    requires id in Exec(run).db.agents
    ensures exists i :: Origin(Exec(run).db, i, id)
    ensures forall i, j {:trigger Origin(Exec(run).db, i, id), Origin(Exec(run).db, j, id)} ::
      Origin(Exec(run).db, i, id) && Origin(Exec(run).db, j, id) ==> i == j
  {
    var w := Exec(run);
    InvAlways(run);
    assert AgentOk(w.db, id);
    var i :| Made(w.db, i, id);
    assert SessionOk(w.db, w.now, i);
    assert Origin(w.db, i, id);
    forall j, k | Origin(w.db, j, id) && Origin(w.db, k, id) ensures j == k {
      assert SessionOk(w.db, w.now, j) && SessionOk(w.db, w.now, k) && Distinct(w.db, j, k);
    }
  }

  predicate Origin(t: Tables, i: string, id: string) {
    && id in t.agents && i in t.sessions
    && var s := t.sessions[i];
       s.status == Confirmed && s.agentId == Some(id) && s.confirmedBy == Some(t.agents[id].userId)
       && s.deviceName == t.agents[id].deviceName && s.osType == t.agents[id].osType
  }

  /** An online agent holds a credential and has been seen. */
  lemma OnlineAgentsAreArmed(run: seq<Action>, id: string)
    requires id in Exec(run).db.agents && Exec(run).db.agents[id].status == Online
    ensures Exec(run).db.agents[id].lastSeen.Some?
    ensures exists k, s :: DeliveredBy(Exec(run), k, id, s)
  {
    var w := Exec(run);
    InvAlways(run);
    assert AgentOk(w.db, id) && HashDelivered(w, id);
  }

  // ---- what a status call answers ----

  /** With a clock reading past the expiry the call never reports pending, and a
      pending answer always rests on a reading taken in time. */
  lemma PendingIsNeverStale(run: seq<Action>, k: nat, r: StatusResult)
    requires StatusAnswer(Exec(run), k) == Some(Success(r)) && r.status == Pending
    ensures
      var c := Exec(run).calls[k].status;
      && c.clock.Some? && c.sessionId in Exec(run).db.sessions
      && c.clock.value <= Exec(run).db.sessions[c.sessionId].expiresAt
  {
    var w := Exec(run);
    InvAlways(run);
    assert CallOk(w.db, w.now, w.calls[k]);
  }

  function StatusAnswer(w: World, k: nat): Option<StatusOutcome> {
    if k in w.calls && w.calls[k].Status? && w.calls[k].status.pc.Returned?
    then Some(w.calls[k].status.pc.outcome) else None
  }

  /** An answer naming an agent carries a secret or the issued flag, never both or neither. */
  lemma SecretOrIssued(run: seq<Action>, k: nat, r: StatusResult)
    requires StatusAnswer(Exec(run), k) == Some(Success(r))
    ensures r.agentId.Some? <==> (r.secret != "" || r.credentialIssued)
    ensures !(r.secret != "" && r.credentialIssued)
    ensures r.agentId.Some? ==> r.status == Confirmed
  {
    var w := Exec(run);
    InvAlways(run);
    assert CallOk(w.db, w.now, w.calls[k]);
  }

  /** After a failed expiry the session is always found again: the second
      not-found branch of the call is dead. */
  lemma SecondFindSucceeds(run: seq<Action>, k: nat)
    requires k in Exec(run).calls && Exec(run).calls[k].Status? && Exec(run).calls[k].status.pc.FindSessionAgain?
    ensures
      var c := Exec(run).calls[k].status;
      var found := FindByIdAndCode(Exec(run).db, c.sessionId, c.code);
      found.Some? && found.value.status in {Confirmed, Expired}
  {
    var w := Exec(run);
    InvAlways(run);
    assert CallOk(w.db, w.now, w.calls[k]);
    assert SessionOk(w.db, w.now, w.calls[k].status.sessionId);
  }

  // ---- a pairing that nobody disturbs ----

  /** In every reachable state a pending session that has not expired can be
      completed: a registered user confirms it, and the next poll delivers the
      secret for the agent id it reserved. */
  lemma {:induction false} PairingCompletes(run: seq<Action>, i: string, userId: string, k: nat, secret: string)
    requires i in Exec(run).db.sessions && Exec(run).db.sessions[i].status == Pending
    requires Exec(run).now <= Exec(run).db.sessions[i].expiresAt && userId in Exec(run).db.users
    requires k !in Exec(run).calls && IsGeneratedSecret(secret)
    ensures
      var w := Exec(run);
      var s := w.db.sessions[i];
      var paired := Next(w, Confirm(s.deviceCode, userId, w.now));
      s.requestedAgentId.Some?
      && DeliveredBy(PollAlone(paired, k, i, s.deviceCode, secret), k, s.requestedAgentId.value, secret)
  {
    var w := Exec(run);
    var s := w.db.sessions[i];
    var a := Confirm(s.deviceCode, userId, w.now);
    InvAlways(run);
    ConfirmEffect(w, s.deviceCode, userId, w.now);
    InvNext(w, a);
    PairedPoll(Next(w, a), k, i, s.requestedAgentId.value, secret);
  }

  // ---- whole runs ----

  lemma EvolvesTrans(a: Tables, b: Tables, c: Tables, now: Time)
    requires TablesOk(a, now) && Evolves(a, b) && Evolves(b, c)
    ensures Evolves(a, c)
  {
    forall i | i in a.sessions ensures SessionEvolves(a, c, i) {
      assert SessionEvolves(a, b, i) && SessionEvolves(b, c, i);
      RowEvolvesTrans(a.sessions[i], b.sessions[i], c.sessions[i]);
    }
    forall id ensures AgentIdEvolves(a, c, id) {
      assert AgentIdEvolves(a, b, id) && AgentIdEvolves(b, c, id);
      if id in a.agents {
        AgentsAreClaimed(a, now, id);
      }
      if Claimed(a, id) {
        ClaimedStable(a, b, id);
      }
    }
  }

  /** Between any two moments of a run, sessions only move forward (pending to
      expired or confirmed, agent reference only cleared), agents keep owner and
      hash, and no claimed agent id comes back. */
  lemma {:induction false} RunsOnlyMoveForward(run: seq<Action>, i: nat)
    requires i <= |run|
    ensures Evolves(Exec(run[..i]).db, Exec(run).db)
  {
    InvAlways(run[..i]);
    if i == |run| {
      assert run[..i] == run;
      NothingChanges(Exec(run).db, Exec(run).now);
    } else {
      assert Front(run)[..i] == run[..i];
      RunsOnlyMoveForward(Front(run), i);
      InvAlways(Front(run));
      NextTablesOk(Exec(Front(run)), Last(run));
      EvolvesTrans(Exec(run[..i]).db, Exec(Front(run)).db, Exec(run).db, Exec(run[..i]).now);
    }
  }

  /** A deleted agent id is never created again. */
  lemma DeletedAgentsStayDeleted(run: seq<Action>, i: nat, j: nat, id: string)
    requires i <= j <= |run|
    requires id in Exec(run[..i]).db.agents && id !in Exec(run[..j]).db.agents
    ensures id !in Exec(run).db.agents
  {
    var early, mid := Exec(run[..i]), Exec(run[..j]);
    InvAlways(run[..i]);
    AgentsAreClaimed(early.db, early.now, id);
    assert run[..j][..i] == run[..i];
    RunsOnlyMoveForward(run[..j], i);
    ClaimedStable(early.db, mid.db, id);
    RunsOnlyMoveForward(run, j);
    assert AgentIdEvolves(mid.db, Exec(run).db, id);
  }

  predicate DeletedAt(run: seq<Action>, k: nat, id: string) {
    k < |run| && run[k].Delete? && run[k].agentId == id
  }

  /** A claimed agent that is gone was deleted by its owner, at an identifiable step. */
  lemma {:induction false} GoneMeansDeletedByOwner(run: seq<Action>, id: string)
    requires Claimed(Exec(run).db, id) && id !in Exec(run).db.agents
    ensures exists k: nat :: DeletedAt(run, k, id) && Owns(Exec(run[..k]).db, run[k].userId, id)
  {
    if run == [] {
      assert false;
    } else {
      var w, w' := Exec(Front(run)), Exec(run);
      InvAlways(Front(run));
      if id in w.db.agents {
        var k := |run| - 1;
        assert run[..k] == Front(run);
        OnlyOwnersDelete(w, Last(run), id);
        assert DeletedAt(run, k, id);
      } else {
        ClaimsComeWithAgents(w, Last(run), id);
        GoneMeansDeletedByOwner(Front(run), id);
        var k: nat :| DeletedAt(Front(run), k, id) && Owns(Exec(Front(run)[..k]).db, Front(run)[k].userId, id);
        assert Front(run)[..k] == run[..k];
        assert DeletedAt(run, k, id);
      }
    }
  }

  lemma OnlyOwnersDelete(w: World, a: Action, id: string)
    requires Inv(w) && id in w.db.agents && id !in Next(w, a).db.agents
    ensures a.Delete? && a.agentId == id && Owns(w.db, a.userId, id)
  {
  }

  lemma ClaimsComeWithAgents(w: World, a: Action, id: string)
    requires Inv(w) && Claimed(Next(w, a).db, id) && id !in w.db.agents && id !in Next(w, a).db.agents
    ensures Claimed(w.db, id)
  {
    var i :| ClaimedBy(Next(w, a).db, i, id);
    if !ClaimedBy(w.db, i, id) && a.Continue? && CanContinue(w, a.call, a.draw) && w.calls[a.call].Status? {
      assert CallOk(w.db, w.now, w.calls[a.call]);
    }
    assert ClaimedBy(w.db, i, id);
  }

  /** Step r of the run is the last step of status call k. */
  ghost predicate ReturnsAt(run: seq<Action>, k: nat, r: nat) {
    && r < |run|
    && k in Exec(run[..r]).calls && Exec(run[..r]).calls[k].Status? && !Exec(run[..r]).calls[k].status.pc.Returned?
    && StatusAnswer(Exec(run[..r + 1]), k).Some?
  }

  lemma ReturnsLonger(run: seq<Action>, k: nat, r: nat)
    requires run != [] && ReturnsAt(Front(run), k, r)
    ensures ReturnsAt(run, k, r)
  {
    assert Front(run)[..r] == run[..r] && Front(run)[..r + 1] == run[..r + 1];
  }

  /** Every returned status call has a last step. */
  lemma {:induction false} EveryAnswerHasALastStep(run: seq<Action>, k: nat) returns (r: nat)
    requires StatusAnswer(Exec(run), k).Some?
    ensures ReturnsAt(run, k, r)
  {
    var w, last := Exec(Front(run)), |run| - 1;
    assert run[..last] == Front(run) && run[..last + 1] == run;
    if StatusAnswer(w, k).Some? {
      r := EveryAnswerHasALastStep(Front(run), k);
      ReturnsLonger(run, k, r);
    } else {
      r := last;
    }
  }

  lemma {:induction false} AnswersStay(run: seq<Action>, k: nat, r: nat)
    requires ReturnsAt(run, k, r)
    ensures k in Exec(run).calls && Exec(run).calls[k] == Exec(run[..r + 1]).calls[k]
  {
    if r + 1 == |run| {
      assert run[..r + 1] == run;
    } else {
      assert Front(run)[..r] == run[..r] && Front(run)[..r + 1] == run[..r + 1];
      AnswersStay(Front(run), k, r);
    }
  }

  /** The last step of a call whose session names an agent fails exactly if that agent is gone. */
  lemma LastStepFails(w: World, a: Action, k: nat)
    requires Inv(w) && k in w.calls && w.calls[k].Status? && !w.calls[k].status.pc.Returned?
    requires StatusAnswer(Next(w, a), k).Some? && HasAgentId(Next(w, a).calls[k].status)
    ensures
      var c, answer := Next(w, a).calls[k].status, StatusAnswer(Next(w, a), k).value;
      && HasAgentId(w.calls[k].status) && w.calls[k].status.row == c.row
      && (answer.Failure? <==> c.row.value.agentId.value !in w.db.agents)
      && (answer.Failure? ==> answer.error == AgentNotFound)
  {
    assert CallOk(w.db, w.now, w.calls[k]);
    InvNext(w, a);
    assert CallOk(Next(w, a).db, Next(w, a).now, Next(w, a).calls[k]);
  }

  ghost predicate DeletedByOwnerBefore(run: seq<Action>, r: nat, id: string) {
    exists d: nat :: d < r && DeletedAt(run, d, id) && Owns(Exec(run[..d]).db, run[d].userId, id)
  }

  lemma DeletionRemoves(run: seq<Action>, r: nat, id: string)
    requires r <= |run| && DeletedByOwnerBefore(run, r, id)
    ensures id !in Exec(run[..r]).db.agents
  {
    var d: nat :| d < r && DeletedAt(run, d, id) && Owns(Exec(run[..d]).db, run[d].userId, id);
    var early := run[..r];
    assert early[..d] == run[..d] && early[..d + 1] == run[..d + 1];
    assert Front(run[..d + 1]) == run[..d] && Last(run[..d + 1]) == run[d];
    assert id !in Exec(run[..d + 1]).db.agents;
    DeletedAgentsStayDeleted(early, d, d + 1, id);
  }

  lemma GoneBefore(run: seq<Action>, r: nat, id: string)
    requires r <= |run| && Claimed(Exec(run[..r]).db, id) && id !in Exec(run[..r]).db.agents
    ensures DeletedByOwnerBefore(run, r, id)
  {
    var early := run[..r];
    GoneMeansDeletedByOwner(early, id);
    var d: nat :| DeletedAt(early, d, id) && Owns(Exec(early[..d]).db, early[d].userId, id);
    assert early[..d] == run[..d] && DeletedAt(run, d, id);
  }

  /** A call that found a session with an agent fails exactly if the agent's owner
      deleted it before the call's last step, and then as agent-not-found. */
  lemma StatusFailsExactlyAfterDelete(run: seq<Action>, k: nat, r: nat)
    requires ReturnsAt(run, k, r) && StatusAnswer(Exec(run), k).Some? && HasAgentId(Exec(run).calls[k].status)
    ensures
      var id := Exec(run).calls[k].status.row.value.agentId.value;
      StatusAnswer(Exec(run), k).value.Failure? <==> DeletedByOwnerBefore(run, r, id)
    ensures StatusAnswer(Exec(run), k).value.Failure? ==> StatusAnswer(Exec(run), k) == Some(Failure(AgentNotFound))
  {
    var w := Exec(run[..r]);
    AnswersStay(run, k, r);
    assert Front(run[..r + 1]) == run[..r] && Last(run[..r + 1]) == run[r];
    InvAlways(run[..r]);
    LastStepFails(w, run[r], k);
    var id := Exec(run).calls[k].status.row.value.agentId.value;
    if id !in w.db.agents {
      assert CallOk(w.db, w.now, w.calls[k]);
      SeenAgentIsClaimed(w.db, w.calls[k].status);
      GoneBefore(run, r, id);
    }
    if DeletedByOwnerBefore(run, r, id) {
      DeletionRemoves(run, r, id);
    }
  }

  /** A call that found a session without an agent never fails. */
  lemma StatusSucceedsWithoutAgent(run: seq<Action>, k: nat)
    requires StatusAnswer(Exec(run), k).Some? && Exec(run).calls[k].status.row.Some?
        && !HasAgentId(Exec(run).calls[k].status)
    ensures StatusAnswer(Exec(run), k).value.Success?
  {
    InvAlways(run);
    assert CallOk(Exec(run).db, Exec(run).now, Exec(run).calls[k]);
  }

  // ---- a poll that the owner's deletion overtakes ----

  lemma PollStep(w: World, k: nat, secret: string)
    requires k in w.calls && w.calls[k].Status? && WellFormed(w.calls[k].status) && IsGeneratedSecret(secret)
    ensures
      var w' := Next(w, Continue(k, secret));
      var (t, c) := StatusStep(w.db, w.now, secret, w.calls[k].status);
      w'.db == t && w'.now == w.now && k in w'.calls && w'.calls[k] == Status(c)
  {
  }

  /** A status call finds its session with an agent, the agent is deleted, and the call goes on. */
  ghost function OvertakenPoll(w: World, k: nat, i: string, code: string, id: string, userId: string, draw: string)
    : World
  {
    var step := Continue(k, draw);
    Next(Next(Next(Next(Next(w, BeginStatus(k, i, code)), step), step), Delete(id, userId)), step)
  }

  lemma OvertakenPollFails(w: World, k: nat, i: string, id: string, userId: string, draw: string)
    requires Inv(w) && i in w.db.sessions && w.db.sessions[i].agentId == Some(id) && Owns(w.db, userId, id)
    requires k !in w.calls && IsGeneratedSecret(draw)
    ensures StatusAnswer(OvertakenPoll(w, k, i, w.db.sessions[i].deviceCode, id, userId, draw), k)
        == Some(Failure(AgentNotFound))
  {
    assert SessionOk(w.db, w.now, i);
    var w1 := Next(w, BeginStatus(k, i, w.db.sessions[i].deviceCode));
    PollStep(w1, k, draw);
    var w2 := Next(w1, Continue(k, draw));
    PollStep(w2, k, draw);
    var w3 := Next(w2, Continue(k, draw));
    assert w3.db == w.db && w3.calls[k].status.pc.FindOwnAgent?;
    PollStep(Next(w3, Delete(id, userId)), k, draw);
  }

  lemma OneMoreStep(run: seq<Action>, a: Action)
    ensures Exec(run + [a]) == Next(Exec(run), a)
  {
    assert Front(run + [a]) == run;
  }

  lemma OvertakenRun(run: seq<Action>, k: nat, i: string, code: string, id: string, userId: string, draw: string)
    ensures
      var step := Continue(k, draw);
      Exec(run + [BeginStatus(k, i, code)] + [step] + [step] + [Delete(id, userId)] + [step])
        == OvertakenPoll(Exec(run), k, i, code, id, userId, draw)
  {
    var step := Continue(k, draw);
    var begun := run + [BeginStatus(k, i, code)];
    var found := begun + [step] + [step];
    OneMoreStep(run, BeginStatus(k, i, code));
    OneMoreStep(begun, step);
    OneMoreStep(begun + [step], step);
    OneMoreStep(found, Delete(id, userId));
    OneMoreStep(found + [Delete(id, userId)], step);
  }

  /** From the empty state: a user, a session, its confirmation, and a poll that the
      user's deletion overtakes. The call found its session and still fails. */
  lemma StatusCanFail(userId: string, i: string, id: string, code: string, draw: string)
    requires id != "" && IsGeneratedSecret(draw)
    ensures
      var step := Continue(0, draw);
      var run := [AddUser(userId), Create(i, id, code, "pc", "linux", 0), Confirm(code, userId, 0)]
                 + [BeginStatus(0, i, code)] + [step] + [step] + [Delete(id, userId)] + [step];
      StatusAnswer(Exec(run), 0) == Some(Failure(AgentNotFound)) && Exec(run).calls[0].status.row.Some?
  {
    var paired := [AddUser(userId), Create(i, id, code, "pc", "linux", 0), Confirm(code, userId, 0)];
    PairedAfter(userId, i, id, code);
    InvAlways(paired);
    OvertakenPollFails(Exec(paired), 0, i, id, userId, draw);
    OvertakenRun(paired, 0, i, code, id, userId, draw);
    var step := Continue(0, draw);
    var run := paired + [BeginStatus(0, i, code)] + [step] + [step] + [Delete(id, userId)] + [step];
    InvAlways(run);
    assert CallOk(Exec(run).db, Exec(run).now, Exec(run).calls[0]);
  }

  lemma PairedAfter(userId: string, i: string, id: string, code: string)
    requires id != ""
    ensures
      var w := Exec([AddUser(userId), Create(i, id, code, "pc", "linux", 0), Confirm(code, userId, 0)]);
      && i in w.db.sessions && w.db.sessions[i].agentId == Some(id) && w.db.sessions[i].deviceCode == code
      && Owns(w.db, userId, id) && w.calls == map[]
  {
    var a, b, c := AddUser(userId), Create(i, id, code, "pc", "linux", 0), Confirm(code, userId, 0);
    OneMoreStep([], a);
    OneMoreStep([a], b);
    OneMoreStep([a, b], c);
    assert [] + [a] == [a] && [a] + [b] == [a, b] && [a, b] + [c] == [a, b, c];
    var created := Exec([a, b]);
    assert !Clashes(Exec([a]).db, NewSession(i, id, code, "pc", "linux", PAIRING_SESSION_TTL));
    InvAlways([a, b]);
    FindByCodeIs(created.db, i);
    PendingRequestIsFree(created.db, created.now, i);
  }

  // ---- answers are linearizable ----

  /** At step i of the run the call is under way, and just before or just after
      that step the session row in the table is the one given. */
  ghost predicate HeldDuring(run: seq<Action>, i: nat, k: nat, row: Session) {
    && i < |run|
    && k in Exec(run[..i]).calls && Exec(run[..i]).calls[k].Status?
    && !Exec(run[..i]).calls[k].status.pc.Returned?
    && (RowIs(Exec(run[..i]), row) || RowIs(Exec(run[..i + 1]), row))
  }

  predicate RowIs(w: World, row: Session) {
    row.id in w.db.sessions && w.db.sessions[row.id] == row
  }

  /** The row a call has seen was the table's row at some moment while it ran. */
  lemma {:induction false} SeenRowWasReal(run: seq<Action>, k: nat)
    requires k in Exec(run).calls && Exec(run).calls[k].Status? && Exec(run).calls[k].status.row.Some?
    ensures exists i: nat :: HeldDuring(run, i, k, Exec(run).calls[k].status.row.value)
  {
    if run == [] {
      assert false;
    } else {
      var w, w' := Exec(Front(run)), Exec(run);
      InvAlways(Front(run));
      var row := w'.calls[k].status.row.value;
      var last := |run| - 1;
      assert run[..last] == Front(run) && run[..last + 1] == run;
      if k in w.calls && w.calls[k] == w'.calls[k] {
        SeenRowWasReal(Front(run), k);
        HeldDuringLonger(run, k, row);
      } else {
        assert CallOk(w.db, w.now, w.calls[k]);
        if w.calls[k].status.row == Some(row) {
          SeenRowWasReal(Front(run), k);
          HeldDuringLonger(run, k, row);
        } else {
          assert HeldDuring(run, last, k, row);
        }
      }
    }
  }

  lemma HeldDuringLonger(run: seq<Action>, k: nat, row: Session)
    requires run != [] && exists i: nat :: HeldDuring(Front(run), i, k, row)
    ensures exists i: nat :: HeldDuring(run, i, k, row)
  {
    var i: nat :| HeldDuring(Front(run), i, k, row);
    assert Front(run)[..i] == run[..i] && Front(run)[..i + 1] == run[..i + 1];
    assert HeldDuring(run, i, k, row);
  }

  predicate Reports(c: StatusCall, r: StatusResult, row: Session) {
    row.id == c.sessionId && row.status == r.status && (r.status == Confirmed ==> row.agentId == r.agentId)
  }

  /** The status and agent a call reports are those the session really had at one
      moment during the call. */
  lemma AnswersAreReal(run: seq<Action>, k: nat, r: StatusResult)
    requires StatusAnswer(Exec(run), k) == Some(Success(r))
    ensures exists i: nat, row :: HeldDuring(run, i, k, row) && Reports(Exec(run).calls[k].status, r, row)
  {
    var w := Exec(run);
    InvAlways(run);
    assert CallOk(w.db, w.now, w.calls[k]);
    SeenRowWasReal(run, k);
    var row := w.calls[k].status.row.value;
    var i: nat :| HeldDuring(run, i, k, row);
  }

  // ---- who changes the protection status ----

  /** The step is the owner's, or that of a caller whose secret is the delivered one. */
  predicate Authorised(w: World, a: Action, id: string) {
    || (a.OwnerProtect? && a.agentId == id && Owns(w.db, a.userId, id))
    || (a.Continue? && a.call in w.calls && w.calls[a.call].Credential?
        && w.calls[a.call].agent.agentId == id && Matches(w.db, id, w.calls[a.call].agent.secret))
  }

  lemma ProtectionChangesAreAuthorised(run: seq<Action>, a: Action, id: string)
    requires id in Exec(run).db.agents && id in Exec(run + [a]).db.agents
    requires Exec(run).db.agents[id].protection != Exec(run + [a]).db.agents[id].protection
    ensures Authorised(Exec(run), a, id)
  {
    var w := Exec(run);
    assert Front(run + [a]) == run && Last(run + [a]) == a;
    InvAlways(run);
    if a.Continue? && CanContinue(w, a.call, a.draw) {
      assert CallOk(w.db, w.now, w.calls[a.call]);
    }
    if a.Confirm? {
      ConfirmKeepsAgents(w, a, id);
    }
  }

  lemma ConfirmKeepsAgents(w: World, a: Action, id: string)
    requires Inv(w) && a.Confirm? && id in w.db.agents
    ensures id in NextTables(w, a).agents && NextTables(w, a).agents[id] == w.db.agents[id]
  {
    if a.clock <= w.now {
      var (t, r) := ConfirmSession(w.db, a.code, a.userId, a.clock);
      if r.Success? {
        PendingRequestIsFree(w.db, w.now, FindByCode(w.db, a.code).value.id);
      }
    }
  }

  /** A confirmation never meets a missing reservation or a taken agent id: for a
      registered user it fails only as unknown, not pending or expired. */
  lemma ConfirmNeverBreaksConstraints(run: seq<Action>, code: string, userId: string, clock: Time)
    requires userId in Exec(run).db.users
    ensures
      var r := ConfirmSession(Exec(run).db, code, userId, clock).1;
      r.Failure? ==> r.error in {SessionNotFound, SessionNotPending, SessionExpired}
  {
    var w := Exec(run);
    InvAlways(run);
    var found := FindByCode(w.db, code);
    if found.Some? {
      assert SessionOk(w.db, w.now, found.value.id);
      if found.value.status == Pending {
        PendingRequestIsFree(w.db, w.now, found.value.id);
      }
    }
  }
}
