/** The pairing protocol as a state machine. Every SQL statement or transaction
    is one step; a use-case call that issues several of them is an in-flight
    record with a program counter, so that calls interleave between their steps. */
module PairingMachine {
  import opened Base
  import opened PairingTables
  import Text

  // ---- one GetPairingStatus call ----

  datatype StatusResult = StatusResult(status: SessionStatus, agentId: Option<string>, secret: string,
      credentialIssued: bool)

  type StatusOutcome = Result<StatusResult, PairingError>

  /** The next thing the call does. */
  datatype StatusPc =
    | FindSession
    | CheckCode
    | CheckExpiry
    | Expire
    | FindSessionAgain
    | FindOwnAgent
    | IssueSecret(secret: string)
    | FindAgentAgain
    | Returned(outcome: StatusOutcome)

  /** row is the last session row the call has seen, clock its reading of the time. */
  datatype StatusCall = StatusCall(sessionId: string, code: string, row: Option<Session>, clock: Option<Time>,
      pc: StatusPc)

  function NewStatusCall(sessionId: string, code: string): StatusCall {
    StatusCall(sessionId, code, None, None, FindSession)
  }

  /** What follows once the session row is settled. */
  function Settle(c: StatusCall, row: Session): StatusCall {
    c.(row := Some(row),
       pc := if row.status != Confirmed || row.agentId.None?
             then Returned(Success(StatusResult(row.status, None, "", false)))
             else FindOwnAgent)
  }

  function ReturnAgent(c: StatusCall, secret: string, credentialIssued: bool): StatusCall
    requires c.row.Some?
  {
    c.(pc := Returned(Success(StatusResult(c.row.value.status, c.row.value.agentId, secret, credentialIssued))))
  }

  function ReturnError(c: StatusCall, error: PairingError): StatusCall {
    c.(pc := Returned(Failure(error)))
  }

  predicate HasAgentId(c: StatusCall) {
    c.row.Some? && c.row.value.agentId.Some?
  }

  /** Every point at which the call works on a row carries one. */
  predicate WellFormed(c: StatusCall) {
    && (c.pc.CheckExpiry? || c.pc.Expire? ==> c.row.Some?)
    && (c.pc.FindOwnAgent? || c.pc.IssueSecret? || c.pc.FindAgentAgain? ==> HasAgentId(c))
  }

  /** One step of the call: the tables after it and the call after it. The clock
      shows now, and draw is the next generated secret. */
  ghost function StatusStep(t: Tables, now: Time, draw: string, c: StatusCall): (r: (Tables, StatusCall))
    requires WellFormed(c)
    ensures WellFormed(r.1)
  {
    match c.pc
    case FindSession =>
      (match FindByIdAndCode(t, c.sessionId, c.code)
       case None => (t, c.(pc := CheckCode))
       case Some(row) => (t, c.(row := Some(row), pc := CheckExpiry)))
    case CheckCode =>
      (t, ReturnError(c, if HasCode(t, c.code) then SessionMismatch else SessionNotFound))
    case CheckExpiry =>
      var row := c.row.value;
      if row.status != Pending then (t, Settle(c, row))
      else if now > row.expiresAt then (t, c.(clock := Some(now), pc := Expire))
      else (t, Settle(c.(clock := Some(now)), row))
    case Expire =>
      var (t', updated) := ExpireSession(t, c.row.value.id);
      (t', match updated
           case None => c.(pc := FindSessionAgain)
           case Some(row) => Settle(c, row))
    case FindSessionAgain =>
      (match FindByIdAndCode(t, c.sessionId, c.code)
       case None => (t, ReturnError(c, SessionNotFound))
       case Some(row) => (t, Settle(c, row)))
    case FindOwnAgent =>
      (match FindAgent(t, c.row.value.agentId.value)
       case None => (t, ReturnError(c, AgentNotFound))
       case Some(agent) => (t, if agent.secretHash.Some? then ReturnAgent(c, "", true)
           else c.(pc := IssueSecret(draw))))
    case IssueSecret(secret) =>
      var id := c.row.value.agentId.value;
      (SetHashIfEmpty(t, id, Bcrypt(secret)),
       if CanIssue(t, id) then ReturnAgent(c, secret, false) else c.(pc := FindAgentAgain))
    case FindAgentAgain =>
      (t, if FindAgent(t, c.row.value.agentId.value).None? then ReturnError(c, AgentNotFound)
          else ReturnAgent(c, "", true))
    case Returned(_) => (t, c)
  }

  // ---- one VerifyPCAgent or UpdatePCAgentOwnProtection call ----

  datatype AgentPc =
    | LookUp
    | ChangeProtection
    | MarkSeen
    | Answered(outcome: Result<Agent, PairingError>)

  /** change is None for VerifyPCAgent and the requested protection otherwise. */
  datatype AgentCall = AgentCall(agentId: string, secret: string, change: Option<Protection>, pc: AgentPc)

  function NewAgentCall(agentId: string, secret: string, change: Option<Protection>): AgentCall {
    AgentCall(agentId, secret, change, LookUp)
  }

  /** bcrypt.CompareHashAndPassword on the stored hash. */
  predicate Matches(t: Tables, id: string, secret: string) {
    id in t.agents && t.agents[id].secretHash == Some(Bcrypt(secret))
  }

  function AgentStep(t: Tables, now: Time, c: AgentCall): (Tables, AgentCall) {
    match c.pc
    case LookUp =>
      (t, c.(pc := if !Matches(t, c.agentId, c.secret) then Answered(Failure(CredentialInvalid))
                   else if c.change.Some? then ChangeProtection
                   else MarkSeen))
    case ChangeProtection =>
      if c.agentId in t.agents && c.change.Some?
      then (PairingTables.SetProtection(t, c.agentId, c.change.value), c.(pc := MarkSeen))
      else (t, c.(pc := Answered(Failure(CredentialInvalid))))
    case MarkSeen =>
      var t' := MarkVerified(t, c.agentId, now);
      (t', c.(pc := Answered(if c.agentId in t'.agents then Success(t'.agents[c.agentId]) else Failure(AgentNotFound))))
    case Answered(_) => (t, c)
  }

  // ---- the whole system ----

  datatype Call = Status(status: StatusCall) | Credential(agent: AgentCall)

  datatype World = World(now: Time, db: Tables, calls: map<nat, Call>)

  /** One step of the system: the clock, a registration, a single-statement use
      case, the start of a longer call, or the next statement of a started one. */
  datatype Action =
    | Tick(to: Time)
    | AddUser(userId: string)
    | Create(id: string, agentId: string, code: string, name: string, os: string, clock: Time)
    | Confirm(code: string, userId: string, clock: Time)
    | Delete(agentId: string, userId: string)
    | OwnerProtect(agentId: string, userId: string, protection: Protection)
    | BeginStatus(call: nat, sessionId: string, code: string)
    | BeginCredential(call: nat, agentId: string, secret: string, change: Option<Protection>)
    | Continue(call: nat, draw: string)

  const INITIAL: World := World(0, Tables({}, map[], map[]), map[])

  predicate CallWellFormed(c: Call) {
    c.Status? ==> WellFormed(c.status)
  }

  /** A generated secret is base64 text: not empty, and trimming does not change it. */
  predicate IsGeneratedSecret(s: string) {
    s != "" && Text.Trim(s) == s
  }

  ghost function StepCall(t: Tables, now: Time, draw: string, c: Call): (r: (Tables, Call))
    requires CallWellFormed(c)
    ensures CallWellFormed(r.1)
  {
    match c
    case Status(s) => var (t', s') := StatusStep(t, now, draw, s); (t', Status(s'))
    case Credential(a) => var (t', a') := AgentStep(t, now, a); (t', Credential(a'))
  }

  /** What the action does to the tables. */
  ghost function NextTables(w: World, a: Action): Tables {
    match a
    case Tick(_) => w.db
    case AddUser(u) => w.db.(users := w.db.users + {u})
    case Create(id, agentId, code, name, os, clock) =>
      if clock <= w.now && agentId != ""
      then InsertSession(w.db, NewSession(id, agentId, code, name, os, clock + PAIRING_SESSION_TTL))
      else w.db
    case Confirm(code, userId, clock) =>
      if clock <= w.now then ConfirmSession(w.db, code, userId, clock).0 else w.db
    case Delete(id, userId) => DeleteAgent(w.db, id, userId)
    case OwnerProtect(id, userId, p) => SetProtectionByOwner(w.db, id, userId, p)
    case BeginStatus(_, _, _) => w.db
    case BeginCredential(_, _, _, _) => w.db
    case Continue(c, draw) =>
      if CanContinue(w, c, draw) then StepCall(w.db, w.now, draw, w.calls[c]).0 else w.db
  }

  predicate CanContinue(w: World, c: nat, draw: string) {
    c in w.calls && CallWellFormed(w.calls[c]) && IsGeneratedSecret(draw)
  }

  ghost function NextCalls(w: World, a: Action): map<nat, Call> {
    match a
    case BeginStatus(c, sessionId, code) =>
      if c in w.calls then w.calls else w.calls[c := Status(NewStatusCall(sessionId, code))]
    case BeginCredential(c, agentId, secret, change) =>
      if c in w.calls then w.calls else w.calls[c := Credential(NewAgentCall(agentId, secret, change))]
    case Continue(c, draw) =>
      if CanContinue(w, c, draw) then w.calls[c := StepCall(w.db, w.now, draw, w.calls[c]).1] else w.calls
    case _ => w.calls
  }

  /** An action that is not possible in w (a clock running backwards, an unknown
      call) leaves it unchanged, so every sequence of actions is a run. */
  ghost function Next(w: World, a: Action): World {
    World(if a.Tick? && w.now <= a.to then a.to else w.now, NextTables(w, a), NextCalls(w, a))
  }

  ghost function Exec(run: seq<Action>): World {
    if run == [] then INITIAL else Next(Exec(Front(run)), Last(run))
  }

  // ---- one call through the moments it meets ----

  /** What a step of a call meets: the tables the other calls left, the time, and
      the next generated secret. */
  datatype Moment = Moment(db: Tables, now: Time, draw: string)

  predicate HasAnswer(c: Call) {
    match c
    case Status(s) => s.pc.Returned?
    case Credential(a) => a.pc.Answered?
  }

  /** The steps of a call through the moments it meets, until it returns. */
  ghost function RunCall(env: seq<Moment>, t: Tables, c: Call): (r: (Tables, Call))
    requires CallWellFormed(c)
    ensures CallWellFormed(r.1)
  {
    if env == [] || HasAnswer(c) then (t, c)
    else
      var (t', c') := StepCall(env[0].db, env[0].now, env[0].draw, c);
      RunCall(env[1..], t', c')
  }

  lemma {:induction false} RunCallAppends(env: seq<Moment>, m: Moment, t: Tables, c: Call)
    requires CallWellFormed(c)
    ensures
      var (t1, c1) := RunCall(env, t, c);
      RunCall(env + [m], t, c) == if HasAnswer(c1) then (t1, c1) else StepCall(m.db, m.now, m.draw, c1)
  {
    if env == [] {
      assert (env + [m])[1..] == [];
    } else if !HasAnswer(c) {
      var (t', c') := StepCall(env[0].db, env[0].now, env[0].draw, c);
      assert (env + [m])[1..] == env[1..] + [m];
      RunCallAppends(env[1..], m, t', c');
    }
  }

  /** The moments at which call k of the run took its own steps. */
  ghost function OwnMoments(run: seq<Action>, k: nat): seq<Moment> {
    if run == [] then []
    else
      var w, a := Exec(Front(run)), Last(run);
      OwnMoments(Front(run), k)
      + if a.Continue? && a.call == k && CanContinue(w, k, a.draw) then [Moment(w.db, w.now, a.draw)] else []
  }

  /** The call as it was begun. */
  function Begun(c: Call): Call {
    match c
    case Status(s) => Status(NewStatusCall(s.sessionId, s.code))
    case Credential(a) => Credential(NewAgentCall(a.agentId, a.secret, a.change))
  }

  lemma StepKeepsBegun(t: Tables, now: Time, draw: string, c: Call)
    requires CallWellFormed(c)
    ensures Begun(StepCall(t, now, draw, c).1) == Begun(c)
    ensures HasAnswer(c) ==> StepCall(t, now, draw, c) == (t, c)
  {
  }

  /** A call of any interleaved run is where its own steps, at the moments the run
      gave it, have brought it: so what the run answers is what RunCall answers,
      and the use cases' methods take exactly the steps of RunCall. */
  lemma {:induction false} CallsFollowTheirMoments(run: seq<Action>, k: nat, t: Tables)
    ensures k !in Exec(run).calls ==> OwnMoments(run, k) == []
    ensures k in Exec(run).calls ==>
      RunCall(OwnMoments(run, k), t, Begun(Exec(run).calls[k])).1 == Exec(run).calls[k]
  {
    if run != [] {
      var w, a := Exec(Front(run)), Last(run);
      CallsFollowTheirMoments(Front(run), k, t);
      if a.Continue? && a.call == k && CanContinue(w, k, a.draw) {
        RunCallAppends(OwnMoments(Front(run), k), Moment(w.db, w.now, a.draw), t, Begun(w.calls[k]));
        StepKeepsBegun(w.db, w.now, a.draw, w.calls[k]);
      } else {
        assert OwnMoments(run, k) == OwnMoments(Front(run), k);
      }
    }
  }
}
