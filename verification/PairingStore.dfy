/** The repositories over the pairing tables. Each method is one SQL statement or
    one transaction, and does what the statement function of the same name says. */
module PairingStore {
  import opened Base
  import opened PairingTables

  class Database {
    var users: set<string>
    var sessions: map<string, Session>
    var agents: map<string, Agent>

    constructor ()
      ensures Tables() == PairingTables.Tables({}, map[], map[])
    {
      users, sessions, agents := {}, map[], map[];
    }

    function Tables(): Tables
      reads this
    {
      PairingTables.Tables(users, sessions, agents)
    }

    /** Other calls run: between two statements of a call the tables may become anything. */
    method Interfere(t: Tables)
      modifies this
      ensures Tables() == t
    {
      users, sessions, agents := t.users, t.sessions, t.agents;
    }
  }

  class PairingSessionRepository {
    const db: Database

    constructor (db: Database)
      ensures this.db == db
    {
      this.db := db;
    }

    method ExistsByDeviceCode(code: string) returns (found: bool)
      ensures found == HasCode(db.Tables(), code)
    {
      found := exists i :: i in db.sessions && db.sessions[i].deviceCode == code;
    }

    method FindByIDAndDeviceCode(id: string, code: string) returns (row: Option<Session>)
      ensures row == FindByIdAndCode(db.Tables(), id, code)
    {
      row := if id in db.sessions && db.sessions[id].deviceCode == code then Some(db.sessions[id]) else None;
    }

    static predicate SharesKey(a: Session, b: Session) {
      a.deviceCode == b.deviceCode || a.requestedAgentId == b.requestedAgentId
    }

    /** INSERT; None stands for a unique violation. */
    method Create(s: Session) returns (row: Option<Session>)
      modifies db
      ensures db.Tables() == InsertSession(old(db.Tables()), s)
      ensures row == if Clashes(old(db.Tables()), s) then None else Some(s)
    {
      if s.id in db.sessions {
        return None;
      }
      if i :| i in db.sessions && SharesKey(db.sessions[i], s) {
        return None;
      }
      db.sessions := db.sessions[s.id := s];
      row := Some(s);
    }

    /** UPDATE ... WHERE status = 'pending'. */
    method Expire(id: string) returns (row: Option<Session>)
      modifies db
      ensures (db.Tables(), row) == ExpireSession(old(db.Tables()), id)
    {
      row := None;
      if id in db.sessions && db.sessions[id].status == Pending {
        var updated := db.sessions[id].(status := Expired);
        db.sessions := db.sessions[id := updated];
        row := Some(updated);
      }
    }

    /** SELECT ... WHERE device_code = $1 FOR UPDATE. */
    method SelectByCode(code: string) returns (row: Option<Session>)
      requires UniqueKeys(db.Tables())
      ensures row == FindByCode(db.Tables(), code)
    {
      row := None;
      if exists i :: i in db.sessions && db.sessions[i].deviceCode == code {
        var i :| i in db.sessions && db.sessions[i].deviceCode == code;
        row := Some(db.sessions[i]);
        FindByCodeIs(db.Tables(), i);
      }
    }

    /** The confirmation transaction: nothing it does is visible before a commit. */
    method Confirm(deviceCode: string, userId: string, now: Time) returns (r: Result<Agent, PairingError>)
      requires UniqueKeys(db.Tables())
      modifies db
      ensures (db.Tables(), r) == old(ConfirmSession(db.Tables(), deviceCode, userId, now))
    {
      var found := SelectByCode(deviceCode);
      if found.None? {
        return Failure(SessionNotFound);
      }
      var session := found.value;
      if session.status != Pending {
        return Failure(SessionNotPending);
      }
      if now > session.expiresAt {
        db.sessions := db.sessions[session.id := session.(status := Expired)];
        return Failure(SessionExpired);
      }
      if session.requestedAgentId.None? || session.requestedAgentId.value == "" {
        return Failure(MissingAgentId);
      }
      var agent := Agent(session.requestedAgentId.value, userId, session.deviceName, session.osType, None, Offline,
          Disabled, None);
      if userId !in db.users || agent.id in db.agents {
        return Failure(ConstraintViolation);
      }
      var agents := db.agents[agent.id := agent];
      var confirmed := session.(status := Confirmed, confirmedBy := Some(userId), agentId := Some(agent.id),
          confirmedAt := Some(now));
      var sessions := db.sessions[session.id := confirmed];
      db.agents, db.sessions := agents, sessions;
      r := Success(agent);
    }
  }

  class PCAgentRepository {
    const db: Database

    constructor (db: Database)
      ensures this.db == db
    {
      this.db := db;
    }

    method FindByID(id: string) returns (agent: Option<Agent>)
      ensures agent == FindAgent(db.Tables(), id)
    {
      agent := if id in db.agents then Some(db.agents[id]) else None;
    }

    /** The conditional UPDATE alone; the re-read after it is the caller's next statement. */
    method UpdateHashIfNull(id: string, hash: SecretHash) returns (issued: bool)
      modifies db
      ensures db.Tables() == SetHashIfEmpty(old(db.Tables()), id, hash)
      ensures issued == old(CanIssue(db.Tables(), id))
    {
      issued := id in db.agents && db.agents[id].secretHash.None?;
      if issued {
        db.agents := db.agents[id := db.agents[id].(secretHash := Some(hash))];
      }
    }

    method MarkVerified(id: string, at: Time) returns (agent: Option<Agent>)
      modifies db
      ensures db.Tables() == PairingTables.MarkVerified(old(db.Tables()), id, at)
      ensures agent == FindAgent(db.Tables(), id)
    {
      agent := None;
      if id in db.agents {
        var updated := db.agents[id].(status := Online, lastSeen := Some(at));
        db.agents := db.agents[id := updated];
        agent := Some(updated);
      }
    }

    method UpdateProtectionStatusByID(id: string, protection: Protection) returns (agent: Option<Agent>)
      modifies db
      ensures db.Tables() == SetProtection(old(db.Tables()), id, protection)
      ensures agent == FindAgent(db.Tables(), id)
    {
      agent := None;
      if id in db.agents {
        var updated := db.agents[id].(protection := protection);
        db.agents := db.agents[id := updated];
        agent := Some(updated);
      }
    }

    method UpdateProtectionStatusByIDAndUserID(id: string, userId: string, protection: Protection)
      returns (agent: Option<Agent>)
      modifies db
      ensures db.Tables() == SetProtectionByOwner(old(db.Tables()), id, userId, protection)
      ensures agent == if old(Owns(db.Tables(), userId, id)) then FindAgent(db.Tables(), id) else None
    {
      agent := None;
      if id in db.agents && db.agents[id].userId == userId {
        agent := UpdateProtectionStatusByID(id, protection);
      }
    }

    /** DELETE; the foreign key then clears the sessions that point to the agent. */
    method DeleteByIDAndUserID(id: string, userId: string) returns (deleted: bool)
      modifies db
      ensures db.Tables() == DeleteAgent(old(db.Tables()), id, userId)
      ensures deleted == old(Owns(db.Tables(), userId, id))
    {
      deleted := id in db.agents && db.agents[id].userId == userId;
      if deleted {
        db.agents := db.agents - {id};
        db.sessions := ClearAgent(db.sessions, id);
      }
    }
  }
}
