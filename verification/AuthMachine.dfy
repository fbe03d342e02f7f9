/** Registration and refresh-token rotation as a state machine: one SQL statement
    or transaction is one step, and calls interleave between their steps. */
module AuthMachine {
  import opened Base
  import opened AuthTables
  import Phone
  import Text

  /** What a step of a call may draw: a generated refresh token, and a row id: that
      of an inserted row, or that of the row a query returns among equals. */
  datatype Draw = Draw(token: string, id: string)

  const REFRESH_TOKEN_TTL: Time := 30 * 24 * 60 * MINUTE

  // ---- VerifyRegisterOTP ----

  datatype VerifyPc =
    | FindUser
    | FindOtp
    | CheckOtp(row: Otp)
    | Increment(id: string)
    | Use(id: string)
    | Verified(outcome: Result<string, AuthError>)

  /** A successful call hands out a register token for its phone number; otp is
      the row it examined. */
  datatype VerifyCall = VerifyCall(phone: string, code: string, otp: Option<string>, pc: VerifyPc)

  function VerifyStep(t: Tables, now: Time, d: Draw, c: VerifyCall): (Tables, VerifyCall) {
    match c.pc
    case FindUser =>
      (t, c.(pc := if HasPhone(t, c.phone) then Verified(Failure(PhoneAlreadyExists)) else FindOtp))
    case FindOtp =>
      (t, if IsLatest(t, c.phone, d.id) then c.(otp := Some(t.otps[d.id].id), pc := CheckOtp(t.otps[d.id]))
          else if HasOtp(t, c.phone) then c
          else c.(pc := Verified(Failure(OtpNotFound))))
    case CheckOtp(row) =>
      (t, c.(pc := if row.usedAt.Some? then Verified(Failure(OtpUsed))
                   else if now > row.expiresAt then Verified(Failure(OtpExpired))
                   else if row.attempts >= row.maxAttempts then Verified(Failure(OtpTooManyAttempts))
                   else if row.hash != Bcrypt(c.code) then Increment(row.id)
                   else Use(row.id)))
    case Increment(id) =>
      (IncrementAttempt(t, id), c.(pc := Verified(Failure(if id in t.otps then InvalidOtp else OtpNotFound))))
    case Use(id) =>
      (MarkUsed(t, id, now), c.(pc := Verified(if id in t.otps then Success(c.phone) else Failure(OtpNotFound))))
    case Verified(_) => (t, c)
  }

  // ---- CompleteRegister ----

  datatype CompletePc =
    | CheckPhone
    | InsertBoth(token: string, expiresAt: Time)
    | Completed(outcome: Result<string, AuthError>)

  datatype CompleteCall = CompleteCall(phone: string, fullName: string, password: string, pc: CompletePc)

  function CompleteStep(t: Tables, now: Time, d: Draw, c: CompleteCall): (Tables, CompleteCall) {
    match c.pc
    case CheckPhone =>
      (t, c.(pc := if HasPhone(t, c.phone) then Completed(Failure(PhoneAlreadyExists))
                   else InsertBoth(d.token, now + REFRESH_TOKEN_TTL)))
    case InsertBoth(token, expiresAt) =>
      var (t', r) := InsertUserWithToken(t, User(d.id, c.phone, c.fullName, Bcrypt(c.password)), Sha256(token),
          expiresAt);
      (t', c.(pc := Completed(r)))
    case Completed(_) => (t, c)
  }

  // ---- Refresh ----

  datatype RefreshPc =
    | FindToken
    | CheckToken(row: Token)
    | FindOwner(row: Token)
    | Replace(row: Token, next: string, expiresAt: Time)
    | Refreshed(outcome: Result<string, AuthError>)

  datatype RefreshCall = RefreshCall(token: string, pc: RefreshPc)

  function RefreshStep(t: Tables, now: Time, d: Draw, c: RefreshCall): (Tables, RefreshCall) {
    var h := Sha256(c.token);
    match c.pc
    case FindToken =>
      (t, c.(pc := if h in t.tokens then CheckToken(t.tokens[h]) else Refreshed(Failure(InvalidRefreshToken))))
    case CheckToken(row) =>
      (t, c.(pc := if row.revokedAt.Some? then Refreshed(Failure(RefreshTokenRevoked))
                   else if now > row.expiresAt then Refreshed(Failure(RefreshTokenExpired))
                   else FindOwner(row)))
    case FindOwner(row) =>
      (t, c.(pc := if row.userId in t.users then Replace(row, d.token, now + REFRESH_TOKEN_TTL)
                   else Refreshed(Failure(InvalidRefreshToken))))
    case Replace(row, next, expiresAt) =>
      var (t', r) := ReplaceToken(t, h, Sha256(next), Token(row.userId, expiresAt, None), now);
      (t', c.(pc := Refreshed(if r.Success? then Success(next) else Failure(r.error))))
    case Refreshed(_) => (t, c)
  }

  // ---- the whole system ----

  datatype Call = Verify(verify: VerifyCall) | Complete(complete: CompleteCall) | Refresh(refresh: RefreshCall)

  /** History, stored in no table: a token starts a chain at a login or a
      registration, or it replaced another one in some refresh call. */
  datatype Origin = First | After(prev: TokenHash, call: nat, depth: nat)

  datatype World = World(now: Time, db: Tables, calls: map<nat, Call>, origins: map<TokenHash, Origin>)

  datatype Action =
    | Tick(to: Time)
    | RequestOtp(id: string, phone: string, code: string, clock: Time)
    | Login(userId: string, token: string, clock: Time)
    | Logout(token: string)
    | LogoutAll(userId: string)
    | BeginVerify(call: nat, phone: string, code: string)
    | BeginComplete(call: nat, proof: nat, fullName: string, password: string)
    | BeginRefresh(call: nat, token: string)
    | Continue(call: nat, draw: Draw)

  const INITIAL: World := World(0, Tables(map[], map[], map[]), map[], map[])

  /** The register token that call k handed out, if it did. */
  function RegisterToken(w: World, k: nat): Option<string> {
    if k in w.calls && w.calls[k].Verify? && w.calls[k].verify.pc.Verified? && w.calls[k].verify.pc.outcome.Success?
    then Some(w.calls[k].verify.pc.outcome.value) else None
  }

  ghost function StepCall(t: Tables, now: Time, d: Draw, c: Call): (Tables, Call) {
    match c
    case Verify(v) => var (t', v') := VerifyStep(t, now, d, v); (t', Verify(v'))
    case Complete(v) => var (t', v') := CompleteStep(t, now, d, v); (t', Complete(v'))
    case Refresh(v) => var (t', v') := RefreshStep(t, now, d, v); (t', Refresh(v'))
  }

  ghost function NextTables(w: World, a: Action): Tables {
    match a
    case RequestOtp(id, phone, code, clock) =>
      (match Phone.Normalize(phone)
       case None => w.db
       case Some(p) =>
         if clock <= w.now
         then InsertOtp(w.db,
             Otp(id, p, Bcrypt(code), clock + REGISTER_OTP_TTL, 0, REGISTER_OTP_MAX_ATTEMPTS, None, w.now))
         else w.db)
    case Login(userId, token, clock) =>
      if clock <= w.now then InsertToken(w.db, Sha256(token), Token(userId, clock + REFRESH_TOKEN_TTL, None)) else w.db
    case Logout(token) => RevokeToken(w.db, Sha256(token), w.now)
    case LogoutAll(userId) => RevokeAll(w.db, userId, w.now)
    case Continue(c, d) => if c in w.calls then StepCall(w.db, w.now, d, w.calls[c]).0 else w.db
    case _ => w.db
  }

  /** A registration needs the register token some verification handed out; the
      phone number in it is normalised once more. */
  function NewCall(w: World, a: Action): Option<Call> {
    match a
    case BeginVerify(c, phone, code) =>
      var p, trimmed := Phone.Normalize(phone), Text.Trim(code);
      if p.Some? && Phone.ValidOtpCode(trimmed)
      then Some(Verify(VerifyCall(p.value, trimmed, None, FindUser))) else None
    case BeginComplete(c, proof, fullName, password) =>
      var subject := RegisterToken(w, proof);
      var p := if subject.Some? then Phone.Normalize(subject.value) else None;
      if p.Some? && Text.Trim(fullName) != "" && |password| >= 8
      then Some(Complete(CompleteCall(p.value, Text.Trim(fullName), password, CheckPhone))) else None
    case BeginRefresh(c, token) =>
      if Text.Trim(token) != "" then Some(Refresh(RefreshCall(Text.Trim(token), FindToken))) else None
    case _ => None
  }

  function StartedCall(a: Action): Option<nat> {
    match a
    case BeginVerify(c, _, _) => Some(c)
    case BeginComplete(c, _, _, _) => Some(c)
    case BeginRefresh(c, _) => Some(c)
    case _ => None
  }

  ghost function NextCalls(w: World, a: Action): map<nat, Call> {
    if a.Continue? && a.call in w.calls then
      w.calls[a.call := StepCall(w.db, w.now, a.draw, w.calls[a.call]).1]
    else if StartedCall(a).Some? && StartedCall(a).value !in w.calls && NewCall(w, a).Some? then
      w.calls[StartedCall(a).value := NewCall(w, a).value]
    else w.calls
  }

  /** The action is a refresh call's replacement of one token by another, and it goes through. */
  predicate Rotates(w: World, a: Action, current: TokenHash, next: TokenHash) {
    && a.Continue? && a.call in w.calls && w.calls[a.call].Refresh?
    && var c := w.calls[a.call].refresh;
       c.pc.Replace? && current == Sha256(c.token) && next == Sha256(c.pc.next)
       && Live(w.db, current) && CanInsertToken(w.db, next, Token(c.pc.row.userId, c.pc.expiresAt, None))
  }

  /** How many tokens of the chain come before this one. */
  function Depth(w: World, h: TokenHash): nat {
    if h in w.origins && w.origins[h].After? then w.origins[h].depth else 0
  }

  function OriginOf(w: World, a: Action, h: TokenHash): Origin {
    if h in w.origins then w.origins[h]
    else if a.Continue? && a.call in w.calls && w.calls[a.call].Refresh?
        && Rotates(w, a, Sha256(w.calls[a.call].refresh.token), h) then
      var current := Sha256(w.calls[a.call].refresh.token);
      After(current, a.call, Depth(w, current) + 1)
    else First
  }

  ghost function NextOrigins(w: World, a: Action): map<TokenHash, Origin> {
    map h | h in NextTables(w, a).tokens :: OriginOf(w, a, h)
  }

  /** Impossible actions leave the world unchanged, so every sequence of actions is a run. */
  ghost function Next(w: World, a: Action): World {
    World(if a.Tick? && w.now <= a.to then a.to else w.now, NextTables(w, a), NextCalls(w, a), NextOrigins(w, a))
  }

  ghost function Exec(run: seq<Action>): World {
    if run == [] then INITIAL else Next(Exec(Front(run)), Last(run))
  }

  // ---- one call through the moments it meets ----

  /** What a step of a call meets: the tables the other calls left, the time, and what it draws. */
  datatype Moment = Moment(db: Tables, now: Time, draw: Draw)

  predicate HasAnswer(c: Call) {
    match c
    case Verify(v) => v.pc.Verified?
    case Complete(v) => v.pc.Completed?
    case Refresh(v) => v.pc.Refreshed?
  }

  /** The steps of a call through the moments it meets, until it returns. */
  ghost function RunCall(env: seq<Moment>, t: Tables, c: Call): (Tables, Call) {
    if env == [] || HasAnswer(c) then (t, c)
    else
      var (t', c') := StepCall(env[0].db, env[0].now, env[0].draw, c);
      RunCall(env[1..], t', c')
  }

  lemma {:induction false} RunCallAppends(env: seq<Moment>, m: Moment, t: Tables, c: Call)
    ensures
      var (t1, c1) := RunCall(env, t, c);
      RunCall(env + [m], t, c) == if HasAnswer(c1) then (t1, c1) else StepCall(m.db, m.now, m.draw, c1)
  {
    if env == [] {
      assert (env + [m])[1..] == [];
    } else if !HasAnswer(c) {
      var (t', c') := StepCall(env[0].db, env[0].now, env[0].draw, c);
      assert (env + [m])[1..] == env[1..] + [m];
      RunCallAppends(env[1..], m, t', c');
    }
  }

  /** The moments at which call k of the run took its own steps. */
  ghost function OwnMoments(run: seq<Action>, k: nat): seq<Moment> {
    if run == [] then []
    else
      var w, a := Exec(Front(run)), Last(run);
      OwnMoments(Front(run), k)
      + if a.Continue? && a.call == k && k in w.calls then [Moment(w.db, w.now, a.draw)] else []
  }

  /** The call as it was begun. */
  function Begun(c: Call): Call {
    match c
    case Verify(v) => Verify(VerifyCall(v.phone, v.code, None, FindUser))
    case Complete(v) => Complete(v.(pc := CheckPhone))
    case Refresh(v) => Refresh(v.(pc := FindToken))
  }

  lemma StepKeepsBegun(t: Tables, now: Time, d: Draw, c: Call)
    ensures Begun(StepCall(t, now, d, c).1) == Begun(c)
    ensures HasAnswer(c) ==> StepCall(t, now, d, c) == (t, c)
  {
  }

  /** A call of any interleaved run is where its own steps, at the moments the run
      gave it, have brought it: so what the run answers is what RunCall answers,
      and the use cases' methods take exactly the steps of RunCall. */
  lemma {:induction false} CallsFollowTheirMoments(run: seq<Action>, k: nat, t: Tables)
    ensures k !in Exec(run).calls ==> OwnMoments(run, k) == []
    ensures k in Exec(run).calls ==> RunCall(OwnMoments(run, k), t, Begun(Exec(run).calls[k])).1 == Exec(run).calls[k]
  {
    if run != [] {
      var w, a := Exec(Front(run)), Last(run);
      CallsFollowTheirMoments(Front(run), k, t);
      if a.Continue? && a.call == k && k in w.calls {
        RunCallAppends(OwnMoments(Front(run), k), Moment(w.db, w.now, a.draw), t, Begun(w.calls[k]));
        StepKeepsBegun(w.db, w.now, a.draw, w.calls[k]);
      } else {
        assert OwnMoments(run, k) == OwnMoments(Front(run), k);
      }
    }
  }
}
