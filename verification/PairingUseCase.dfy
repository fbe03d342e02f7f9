/** The pairing use cases. A method that issues several statements runs against
    an adversary: before each of them the other calls may leave any tables behind
    (env). Its contract is that it takes exactly the steps of the state machine. */
module PairingUseCase {
  import opened Base
  import opened PairingTables
  import opened PairingMachine
  import opened PairingStore
  import Text

  const DEVICE_CODE_LENGTH := 6
  const DEVICE_CODE_MAX_RETRIES := 10
  const DEVICE_CODE_ALPHABET := "ABCDEFGHJKLMNPQRSTUVWXYZ23456789"

  /** One random number below the alphabet's size for each letter. */
  predicate Random(random: seq<nat>) {
    |random| == DEVICE_CODE_LENGTH && forall i :: 0 <= i < |random| ==> random[i] < |DEVICE_CODE_ALPHABET|
  }

  predicate IsCodeOf(code: string, random: seq<nat>)
    requires Random(random)
  {
    |code| == DEVICE_CODE_LENGTH && forall i :: 0 <= i < |code| ==> code[i] == DEVICE_CODE_ALPHABET[random[i]]
  }

  method GenerateDeviceCode(random: seq<nat>) returns (code: string)
    requires Random(random)
    ensures |code| == 6 && IsCodeOf(code, random)
  {
    var bytes := new char[DEVICE_CODE_LENGTH];
    for i := 0 to DEVICE_CODE_LENGTH
      invariant forall j :: 0 <= j < i ==> bytes[j] == DEVICE_CODE_ALPHABET[random[j]]
    {
      bytes[i] := DEVICE_CODE_ALPHABET[random[i]];
    }
    code := bytes[..];
  }

  /** The capital letters but I and O, then the digits but 0 and 1, in order. */
  function LetterCode(n: nat): int {
    if n < 8 then 65 + n else if n < 13 then 66 + n else if n < 24 then 67 + n else 26 + n
  }

  lemma AlphabetIs(n: nat)
    requires n < 32
    ensures |DEVICE_CODE_ALPHABET| == 32 && DEVICE_CODE_ALPHABET[n] as int == LetterCode(n)
  {
  }

  /** The upper-casing and trimming of the confirm and status calls leave every
      generated code as it is, so a code can be found again as it was stored. */
  lemma {:induction false} GeneratedCodesAreCanonical(code: string, random: seq<nat>)
    requires Random(random) && IsCodeOf(code, random)
    ensures Text.Trim(Text.ToUpper(code)) == code
  {
    forall i | 0 <= i < |code| ensures Text.ToUpper(code)[i] == code[i] && !Text.IsSpace(code[i]) {
      AlphabetIs(random[i]);
    }
    assert Text.ToUpper(code) == code;
    Text.TrimIsTrimmed(code);
  }

  const STATUS_STEPS := 7
  const CREDENTIAL_STEPS := 3

  class PairingUseCase {
    const db: Database
    const pairingSessions: PairingSessionRepository
    const pcAgents: PCAgentRepository

    constructor (db: Database)
      ensures this.db == db && Wired()
    {
      this.db := db;
      pairingSessions := new PairingSessionRepository(db);
      pcAgents := new PCAgentRepository(db);
    }

    ghost predicate Wired() {
      pairingSessions.db == db && pcAgents.db == db
    }

    /** The row an attempt would insert: its clock reading is taken after the query for the code. */
    ghost predicate Attempt(row: Session, deviceName: string, osType: string, clock: Time, ids: (string, string),
        random: seq<nat>)
      requires Random(random)
    {
      && IsCodeOf(row.deviceCode, random)
      && row == Session(ids.0, row.deviceCode, Some(ids.1), deviceName, osType, Pending,
                        clock + 600_000_000_000, None, None, None)
    }

    static predicate SharesKey(i: string, other: Session, row: Session) {
      i == row.id || other.deviceCode == row.deviceCode || other.requestedAgentId == row.requestedAgentId
    }

    /** The query found the code taken, or the insertion met a row with one of its keys. */
    ghost predicate TurnedAway(row: Session, env: (Moment, Moment)) {
      || (exists i :: i in env.0.db.sessions && env.0.db.sessions[i].deviceCode == row.deviceCode)
      || (exists i :: i in env.1.db.sessions && SharesKey(i, env.1.db.sessions[i], row))
    }

    /** Retries until a row goes in: it is the first that was not turned away, and
        only if all ten were is the code unavailable. env holds what the query and
        the insertion of each attempt meet. */
    method StartPairing(name: string, os: string, ids: seq<(string, string)>, random: seq<seq<nat>>,
        env: seq<(Moment, Moment)>)
      returns (r: Result<Session, PairingError>, ghost rows: seq<Session>)
      requires Wired()
      requires |ids| == |random| == |env| == DEVICE_CODE_MAX_RETRIES
      requires forall k :: 0 <= k < |random| ==> Random(random[k])
      modifies db
      ensures
        var deviceName, osType := Text.Trim(name), Text.Trim(Text.ToLower(os));
        if deviceName == "" || osType == "" then r == Failure(InvalidInput) && db.Tables() == old(db.Tables())
        else
          && 1 <= |rows| <= 10
          && (forall k :: 0 <= k < |rows| ==> Attempt(rows[k], deviceName, osType, env[k].0.now, ids[k], random[k]))
          && (forall k :: 0 <= k < |rows| - 1 ==> TurnedAway(rows[k], env[k]))
          && var last := env[|rows| - 1];
             if TurnedAway(Last(rows), last) then
               r == Failure(CodeUnavailable) && |rows| == 10
                   && (db.Tables() == last.0.db || db.Tables() == last.1.db)
             else
               && r == Success(Last(rows))
               && db.Tables() == last.1.db.(sessions := last.1.db.sessions[Last(rows).id := Last(rows)])
    {
      var deviceName := Text.Trim(name);
      var osType := Text.Trim(Text.ToLower(os));
      rows := [];
      if deviceName == "" || osType == "" {
        return Failure(InvalidInput), rows;
      }
      for n := 0 to DEVICE_CODE_MAX_RETRIES
        invariant |rows| == n
        invariant forall k :: 0 <= k < n ==> Attempt(rows[k], deviceName, osType, env[k].0.now, ids[k], random[k])
        invariant forall k :: 0 <= k < n ==> TurnedAway(rows[k], env[k])
        invariant n > 0 ==> db.Tables() == env[n - 1].0.db || db.Tables() == env[n - 1].1.db
      {
        var created, row := TryPairing(deviceName, osType, ids[n], random[n], env[n]);
        rows := rows + [row];
        if created.Some? {
          return Success(created.value), rows;
        }
      }
      r := Failure(CodeUnavailable);
    }

    /** One round of the retry loop. */
    method TryPairing(deviceName: string, osType: string, ids: (string, string), random: seq<nat>,
        env: (Moment, Moment))
      returns (created: Option<Session>, ghost row: Session)
      requires Wired() && Random(random)
      modifies db
      ensures Attempt(row, deviceName, osType, env.0.now, ids, random)
      ensures if TurnedAway(row, env)
              then created.None? && (db.Tables() == env.0.db || db.Tables() == env.1.db)
              else
                && created == Some(row)
                && db.Tables() == env.1.db.(sessions := env.1.db.sessions[row.id := row])
    {
      var deviceCode := GenerateDeviceCode(random);
      var session := NewSession(ids.0, ids.1, deviceCode, deviceName, osType, env.0.now + PAIRING_SESSION_TTL);
      row := session;
      db.Interfere(env.0.db);
      var taken := pairingSessions.ExistsByDeviceCode(deviceCode);
      if taken {
        return None, row;
      }
      db.Interfere(env.1.db);
      created := pairingSessions.Create(session);
    }

    method ConfirmPairing(userId: string, deviceCode: string, clock: Time) returns (r: Result<Agent, PairingError>)
      requires Wired() && UniqueKeys(db.Tables())
      modifies db
      ensures
        var user, code := Text.Trim(userId), Text.Trim(Text.ToUpper(deviceCode));
        (db.Tables(), r) ==
          if user == "" || code == "" then (old(db.Tables()), Failure(InvalidInput))
          else old(ConfirmSession(db.Tables(), code, user, clock))
    {
      var user, code := Text.Trim(userId), Text.Trim(Text.ToUpper(deviceCode));
      if user == "" || code == "" {
        return Failure(InvalidInput);
      }
      r := pairingSessions.Confirm(code, user, clock);
    }

    /** Whatever the other calls do between its statements, the status call takes
        the steps of the machine and returns within seven of them. */
    method GetPairingStatus(sessionId: string, deviceCode: string, env: seq<Moment>)
      returns (r: StatusOutcome)
      requires Wired() && |env| == STATUS_STEPS
      modifies db
      ensures
        var id, code := Text.Trim(sessionId), Text.Trim(Text.ToUpper(deviceCode));
        if id == "" || code == "" then r == Failure(InvalidInput) && db.Tables() == old(db.Tables())
        else
          var (t, c) := RunCall(env, old(db.Tables()), Status(NewStatusCall(id, code)));
          db.Tables() == t && c.Status? && c.status.pc == Returned(r)
    {
      var id, code := Text.Trim(sessionId), Text.Trim(Text.ToUpper(deviceCode));
      if id == "" || code == "" {
        return Failure(InvalidInput);
      }
      ghost var c := NewStatusCall(id, code);
      ghost var all := RunCall(env, db.Tables(), Status(c));
      var rest := env;

      c := StatusStep(rest[0].db, rest[0].now, rest[0].draw, c).1;
      rest := NextEnv(rest);
      var found := pairingSessions.FindByIDAndDeviceCode(id, code);
      assert RunCall(rest, db.Tables(), Status(c)) == all;
      if found.None? {
        c := StatusStep(rest[0].db, rest[0].now, rest[0].draw, c).1;
        rest := NextEnv(rest);
        var taken := pairingSessions.ExistsByDeviceCode(code);
        assert RunCall(rest, db.Tables(), Status(c)) == all;
        if !taken {
          return Failure(SessionNotFound);
        }
        return Failure(SessionMismatch);
      }
      r := SettleAndReport(id, code, found.value, rest, c);
    }

    /** The call once its session was found: expire it if it is late, then report. */
    method SettleAndReport(id: string, code: string, found: Session, env: seq<Moment>, ghost c0: StatusCall)
      returns (r: StatusOutcome)
      requires Wired() && |env| >= 6
      requires c0.pc.CheckExpiry? && c0.row == Some(found) && c0.sessionId == id && c0.code == code
      modifies db
      ensures
        var (t, c) := RunCall(env, old(db.Tables()), Status(c0));
        db.Tables() == t && c.Status? && c.status.pc == Returned(r)
    {
      ghost var c := c0;
      ghost var all := RunCall(env, db.Tables(), Status(c));
      var rest, session := env, found;

      c := StatusStep(rest[0].db, rest[0].now, rest[0].draw, c).1;
      var clock := rest[0].now;
      rest := NextEnv(rest);
      assert RunCall(rest, db.Tables(), Status(c)) == all;
      if session.status == Pending && clock > session.expiresAt {
        c := StatusStep(rest[0].db, rest[0].now, rest[0].draw, c).1;
        rest := NextEnv(rest);
        var expired := pairingSessions.Expire(session.id);
        assert RunCall(rest, db.Tables(), Status(c)) == all;
        if expired.None? {
          c := StatusStep(rest[0].db, rest[0].now, rest[0].draw, c).1;
          rest := NextEnv(rest);
          var current := pairingSessions.FindByIDAndDeviceCode(id, code);
          assert RunCall(rest, db.Tables(), Status(c)) == all;
          if current.None? {
            return Failure(SessionNotFound);
          }
          session := current.value;
        } else {
          session := expired.value;
        }
      }

      if session.status != Confirmed || session.agentId.None? {
        return Success(StatusResult(session.status, None, "", false));
      }
      r := IssueOrReport(session, rest, c);
    }

    /** The second half of the status call, for a confirmed session with an agent. */
    method IssueOrReport(session: Session, env: seq<Moment>, ghost c0: StatusCall) returns (r: StatusOutcome)
      requires Wired() && |env| >= 3
      requires session.status == Confirmed && session.agentId.Some?
      requires c0.pc.FindOwnAgent? && c0.row == Some(session)
      modifies db
      ensures
        var (t, c) := RunCall(env, old(db.Tables()), Status(c0));
        db.Tables() == t && c.Status? && c.status.pc == Returned(r)
    {
      ghost var c := c0;
      ghost var all := RunCall(env, db.Tables(), Status(c));
      var rest := env;
      var result := StatusResult(session.status, session.agentId, "", false);

      c := StatusStep(rest[0].db, rest[0].now, rest[0].draw, c).1;
      var secret := rest[0].draw;
      rest := NextEnv(rest);
      var agent := pcAgents.FindByID(session.agentId.value);
      assert RunCall(rest, db.Tables(), Status(c)) == all;
      if agent.None? {
        return Failure(AgentNotFound);
      }
      if agent.value.secretHash.Some? {
        return Success(result.(credentialIssued := true));
      }

      c := StatusStep(rest[0].db, rest[0].now, rest[0].draw, c).1;
      rest := NextEnv(rest);
      var issued := pcAgents.UpdateHashIfNull(session.agentId.value, Bcrypt(secret));
      assert RunCall(rest, db.Tables(), Status(c)) == all;
      if issued {
        return Success(result.(secret := secret));
      }

      c := StatusStep(rest[0].db, rest[0].now, rest[0].draw, c).1;
      rest := NextEnv(rest);
      agent := pcAgents.FindByID(session.agentId.value);
      assert RunCall(rest, db.Tables(), Status(c)) == all;
      if agent.None? {
        return Failure(AgentNotFound);
      }
      r := Success(result.(credentialIssued := true));
    }

    /** The tables the next statement meets. */
    method NextEnv(env: seq<Moment>) returns (rest: seq<Moment>)
      requires env != []
      modifies db
      ensures db.Tables() == env[0].db && rest == env[1..]
    {
      db.Interfere(env[0].db);
      rest := env[1..];
    }

    /** VerifyPCAgent (change is None) and UpdatePCAgentOwnProtection, against the same adversary. */
    method CheckCredential(pcAgentId: string, agentSecret: string, change: Option<Protection>, env: seq<Moment>)
      returns (r: Result<Agent, PairingError>)
      requires Wired() && |env| == CREDENTIAL_STEPS
      modifies db
      ensures
        var id, secret := Text.Trim(pcAgentId), Text.Trim(agentSecret);
        if id == "" || secret == "" then r == Failure(CredentialInvalid) && db.Tables() == old(db.Tables())
        else
          var (t, c) := RunCall(env, old(db.Tables()), Credential(NewAgentCall(id, secret, change)));
          db.Tables() == t && c.Credential? && c.agent.pc == Answered(r)
    {
      var id, secret := Text.Trim(pcAgentId), Text.Trim(agentSecret);
      if id == "" || secret == "" {
        return Failure(CredentialInvalid);
      }
      ghost var c := NewAgentCall(id, secret, change);
      ghost var all := RunCall(env, db.Tables(), Credential(c));

      c := AgentStep(env[0].db, env[0].now, c).1;
      var rest := NextEnv(env);
      var agent := pcAgents.FindByID(id);
      assert RunCall(rest, db.Tables(), Credential(c)) == all;
      if agent.None? || agent.value.secretHash.None? || agent.value.secretHash.value != Bcrypt(secret) {
        return Failure(CredentialInvalid);
      }

      if change.Some? {
        c := AgentStep(rest[0].db, rest[0].now, c).1;
        rest := NextEnv(rest);
        agent := pcAgents.UpdateProtectionStatusByID(id, change.value);
        assert RunCall(rest, db.Tables(), Credential(c)) == all;
        if agent.None? {
          return Failure(CredentialInvalid);
        }
      }

      c := AgentStep(rest[0].db, rest[0].now, c).1;
      var clock := rest[0].now;
      rest := NextEnv(rest);
      agent := pcAgents.MarkVerified(id, clock);
      assert RunCall(rest, db.Tables(), Credential(c)) == all;
      r := if agent.Some? then Success(agent.value) else Failure(AgentNotFound);
    }

    method DeletePCAgent(userId: string, pcAgentId: string) returns (r: Result<(), PairingError>)
      requires Wired()
      modifies db
      ensures
        var user, id := Text.Trim(userId), Text.Trim(pcAgentId);
        if user == "" || id == "" then r == Failure(InvalidInput) && db.Tables() == old(db.Tables())
        else
          && db.Tables() == DeleteAgent(old(db.Tables()), id, user)
          && r == if old(Owns(db.Tables(), user, id)) then Success(()) else Failure(AgentNotFound)
    {
      var user, id := Text.Trim(userId), Text.Trim(pcAgentId);
      if user == "" || id == "" {
        return Failure(InvalidInput);
      }
      var deleted := pcAgents.DeleteByIDAndUserID(id, user);
      r := if deleted then Success(()) else Failure(AgentNotFound);
    }

    method UpdatePCAgentProtection(userId: string, pcAgentId: string, enabled: bool)
      returns (r: Result<Agent, PairingError>)
      requires Wired()
      modifies db
      ensures
        var user, id := Text.Trim(userId), Text.Trim(pcAgentId);
        if user == "" || id == "" then r == Failure(InvalidInput) && db.Tables() == old(db.Tables())
        else
          var agents := old(db.Tables()).agents;
          if id !in agents || agents[id].userId != user
          then r == Failure(AgentNotFound) && db.Tables() == old(db.Tables())
          else
            && r.Success? && db.Tables() == old(db.Tables()).(agents := agents[id := r.value])
            && r.value == Agent(agents[id].id, user, agents[id].deviceName, agents[id].osType, agents[id].secretHash,
                                agents[id].status, if enabled then Enabled else Disabled, agents[id].lastSeen)
    {
      var user, id := Text.Trim(userId), Text.Trim(pcAgentId);
      if user == "" || id == "" {
        return Failure(InvalidInput);
      }
      var agent := pcAgents.UpdateProtectionStatusByIDAndUserID(id, user, if enabled then Enabled else Disabled);
      r := if agent.Some? then Success(agent.value) else Failure(AgentNotFound);
    }
  }
}
