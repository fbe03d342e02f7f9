/** What each account use case does to the rows and what it answers, in the rows' own
    terms: statements that change one table, and calls that run from their start to
    their answer without another action in between. */
module AuthEffects {
  import opened Base
  import opened AuthTables
  import opened AuthMachine
  import opened AuthInvariant
  import Phone
  import Text

  // ---- single statements ----

  /** A requested code: a fresh row for the canonical number, five attempts, five minutes. */
  lemma RequestEffect(w: World, id: string, phone: string, code: string, clock: Time)
    requires clock <= w.now
    ensures
      var t, t', p := w.db, Next(w, RequestOtp(id, phone, code, clock)).db, Phone.Normalize(phone);
      if p.None? || id in t.otps then t' == t
      else
        && t'.users == t.users && t'.tokens == t.tokens
        && t'.otps == t.otps[id := Otp(id, p.value, Bcrypt(code), clock + 300_000_000_000, 0, 5, None, w.now)]
  {
  }

  /** A login's token: live for thirty days, for an existing user. */
  lemma LoginEffect(w: World, userId: string, token: string, clock: Time)
    requires clock <= w.now
    ensures
      var t, t' := w.db, Next(w, Login(userId, token, clock)).db;
      if userId !in t.users || Sha256(token) in t.tokens then t' == t
      else
        && t'.users == t.users && t'.otps == t.otps
        && t'.tokens == t.tokens[Sha256(token) := Token(userId, clock + 2_592_000_000_000_000, None)]
  {
  }

  /** A logout revokes that token now, if it was not revoked before. */
  lemma LogoutEffect(w: World, token: string)
    ensures
      var t, t', h := w.db, Next(w, Logout(token)).db, Sha256(token);
      if h !in t.tokens || t.tokens[h].revokedAt.Some? then t' == t
      else
        && t'.users == t.users && t'.otps == t.otps
        && t'.tokens == t.tokens[h := Token(t.tokens[h].userId, t.tokens[h].expiresAt, Some(w.now))]
  {
  }

  /** Logging out everywhere revokes exactly the user's unrevoked tokens, now. */
  lemma LogoutAllEffect(w: World, userId: string)
    ensures
      var t, t' := w.db, Next(w, LogoutAll(userId)).db;
      && t'.users == t.users && t'.otps == t.otps && t'.tokens.Keys == t.tokens.Keys
      && forall h :: h in t.tokens ==>
           var k := t.tokens[h];
           t'.tokens[h] == Token(k.userId, k.expiresAt, if k.userId == userId && k.revokedAt.None? then Some(w.now)
               else k.revokedAt)
  {
  }

  // ---- starting a call ----

  lemma VerifyStarts(w: World, k: nat, phone: string, code: string)
    requires k !in w.calls
    ensures
      var p, w' := Phone.Normalize(phone), Next(w, BeginVerify(k, phone, code));
      && w'.db == w.db
      && w'.calls == if p.None? || !Phone.ValidOtpCode(Text.Trim(code)) then w.calls
                     else w.calls[k := Verify(VerifyCall(p.value, Text.Trim(code), None, FindUser))]
  {
  }

  /** A registration needs a register token that some verification handed out, a
      name, and a password of eight characters; it is for the token's number. */
  lemma CompleteStarts(w: World, k: nat, proof: nat, name: string, password: string)
    requires Inv(w) && k !in w.calls
    ensures
      var phone, w' := RegisterToken(w, proof), Next(w, BeginComplete(k, proof, name, password));
      && w'.db == w.db
      && w'.calls == if phone.None? || Text.Trim(name) == "" || |password| < 8 then w.calls
                     else w.calls[k := Complete(CompleteCall(phone.value, Text.Trim(name), password, CheckPhone))]
  {
    if RegisterToken(w, proof).Some? {
      assert CallOk(w, proof);
      Phone.NormalizeIdempotent(RegisterToken(w, proof).value);
    }
  }

  lemma RefreshStarts(w: World, k: nat, token: string)
    requires k !in w.calls
    ensures
      var w' := Next(w, BeginRefresh(k, token));
      && w'.db == w.db
      && w'.calls == if Text.Trim(token) == "" then w.calls
                     else w.calls[k := Call.Refresh(RefreshCall(Text.Trim(token), FindToken))]
  {
  }

  /** Where the verdict meets no row, nothing is written and the code is not found. */
  lemma VanishedCode(t: Tables, now: Time, d: Draw, c: VerifyCall)
    requires (c.pc.Increment? || c.pc.Use?) && c.pc.id !in t.otps
    ensures VerifyStep(t, now, d, c) == (t, c.(pc := Verified(Failure(OtpNotFound))))
  {
  }

  // ---- undisturbed calls ----

  /** Call k takes n more steps, and nothing else happens meanwhile. */
  ghost function Alone(w: World, k: nat, d: Draw, n: nat): World
    decreases n
  {
    if n == 0 then w else Alone(Next(w, Continue(k, d)), k, d, n - 1)
  }

  /** Where one step of call k leads; the token history does not matter here. */
  ghost predicate StepsTo(w: World, w': World, k: nat, d: Draw) {
    k in w.calls && w'.now == w.now &&
    var (t, c) := StepCall(w.db, w.now, d, w.calls[k]);
    w'.db == t && w'.calls == w.calls[k := c]
  }

  lemma OneStep(w: World, k: nat, d: Draw, n: nat)
    requires n > 0 && k in w.calls
    ensures StepsTo(w, Next(w, Continue(k, d)), k, d)
        && Alone(w, k, d, n) == Alone(Next(w, Continue(k, d)), k, d, n - 1)
  {
  }

  lemma {:induction false} AnsweredStays(w: World, k: nat, d: Draw, n: nat)
    requires k in w.calls && HasAnswer(w.calls[k])
    ensures
      var w' := Alone(w, k, d, n);
      w'.db == w.db && w'.now == w.now && w'.calls == w.calls
    decreases n
  {
    if n > 0 {
      OneStep(w, k, d, n);
      AnsweredStays(Next(w, Continue(k, d)), k, d, n - 1);
    }
  }

  /** Call k has ended at w' with this answer and these tables. */
  ghost predicate Ends(w': World, k: nat, db: Tables, c: Call) {
    w'.db == db && k in w'.calls && w'.calls[k] == c
  }

  predicate IsUserOf(t: Tables, phone: string, u: string) {
    u in t.users && t.users[u].phone == phone
  }

  lemma PhoneIsTaken(t: Tables, phone: string)
    ensures HasPhone(t, phone) <==> exists u :: IsUserOf(t, phone, u)
  {
    if HasPhone(t, phone) {
      var u :| u in t.users && t.users[u].phone == phone;
      assert IsUserOf(t, phone, u);
    }
  }

  /** A newest code of the number. */
  predicate IsNewest(t: Tables, phone: string, id: string) {
    && id in t.otps && t.otps[id].phone == phone
    && forall j :: j in t.otps && t.otps[j].phone == phone ==> t.otps[j].createdAt <= t.otps[id].createdAt
  }

  ghost function VerifyAlone(w: World, k: nat, phone: string, code: string, d: Draw): World {
    Alone(Next(w, BeginVerify(k, phone, code)), k, d, 4)
  }

  /** The answers that need no code: the number has a user, or no code was requested for it. */
  lemma VerifyWithoutCode(w: World, k: nat, phone: string, code: string, d: Draw)
    requires k !in w.calls && Phone.Normalize(phone).Some? && Phone.ValidOtpCode(Text.Trim(code))
    ensures
      var p, c := Phone.Normalize(phone).value, Text.Trim(code);
      var w' := VerifyAlone(w, k, phone, code, d);
      if exists u :: IsUserOf(w.db, p, u)
      then Ends(w', k, w.db, Verify(VerifyCall(p, c, None, Verified(Failure(PhoneAlreadyExists)))))
      else (forall i :: i in w.db.otps ==> w.db.otps[i].phone != p) ==>
        Ends(w', k, w.db, Verify(VerifyCall(p, c, None, Verified(Failure(OtpNotFound)))))
  {
    var p := Phone.Normalize(phone).value;
    var w1 := Next(w, BeginVerify(k, phone, code));
    VerifyStarts(w, k, phone, code);
    OneStep(w1, k, d, 4);
    var w2 := Next(w1, Continue(k, d));
    PhoneIsTaken(w.db, p);
    if HasPhone(w.db, p) {
      AnsweredStays(w2, k, d, 3);
    } else {
      OneStep(w2, k, d, 3);
      if forall i :: i in w.db.otps ==> w.db.otps[i].phone != p {
        AnsweredStays(Next(w2, Continue(k, d)), k, d, 2);
      }
    }
  }

  /** The call after its look-ups, about to check the row it read. */
  lemma ReadsNewest(w: World, k: nat, phone: string, code: string, d: Draw) returns (w3: World)
    requires Inv(w) && k !in w.calls && Phone.Normalize(phone).Some? && Phone.ValidOtpCode(Text.Trim(code))
    requires IsNewest(w.db, Phone.Normalize(phone).value, d.id)
    requires forall u :: !IsUserOf(w.db, Phone.Normalize(phone).value, u)
    ensures w3.db == w.db && w3.now == w.now && k in w3.calls && w.db.otps[d.id].id == d.id
    ensures w3.calls[k] ==
      Verify(VerifyCall(Phone.Normalize(phone).value, Text.Trim(code), Some(d.id), CheckOtp(w.db.otps[d.id])))
    ensures VerifyAlone(w, k, phone, code, d) == Alone(w3, k, d, 2)
  {
    assert OtpOk(w.db, d.id);
    PhoneIsTaken(w.db, Phone.Normalize(phone).value);
    var w1 := Next(w, BeginVerify(k, phone, code));
    VerifyStarts(w, k, phone, code);
    OneStep(w1, k, d, 4);
    var w2 := Next(w1, Continue(k, d));
    OneStep(w2, k, d, 3);
    w3 := Next(w2, Continue(k, d));
  }

  /** The row and the answer that a guess leaves behind. */
  function Checked(o: Otp, code: string, phone: string, now: Time): (Otp, Result<string, AuthError>) {
    if o.usedAt.Some? then (o, Failure(OtpUsed))
    else if o.expiresAt < now then (o, Failure(OtpExpired))
    else if o.maxAttempts <= o.attempts then (o, Failure(OtpTooManyAttempts))
    else if o.hash == Bcrypt(code) then (o.(usedAt := Some(now)), Success(phone))
    else (o.(attempts := o.attempts + 1), Failure(InvalidOtp))
  }

  /** The last two steps of a verification that read row d.id. */
  lemma Verdict(w: World, k: nat, phone: string, code: string, d: Draw)
    requires d.id in w.db.otps && w.db.otps[d.id].id == d.id
    requires k in w.calls && w.calls[k] == Verify(VerifyCall(phone, code, Some(d.id), CheckOtp(w.db.otps[d.id])))
    ensures
      var (row, answer) := Checked(w.db.otps[d.id], code, phone, w.now);
      Ends(Alone(w, k, d, 2), k, w.db.(otps := w.db.otps[d.id := row]),
          Verify(VerifyCall(phone, code, Some(d.id), Verified(answer))))
  {
    assert w.db.otps[d.id := w.db.otps[d.id]] == w.db.otps;
    var w1 := Next(w, Continue(k, d));
    OneStep(w, k, d, 2);
    OneStep(w1, k, d, 1);
    assert Alone(w, k, d, 2) == Next(w1, Continue(k, d));
  }

  /** What checking a code against a newest row answers, and what it writes: only a
      wrong guess counts an attempt, and only the right code uses the row. */
  lemma VerifyAgainstCode(w: World, k: nat, phone: string, code: string, d: Draw)
    requires Inv(w) && k !in w.calls && Phone.Normalize(phone).Some? && Phone.ValidOtpCode(Text.Trim(code))
    requires IsNewest(w.db, Phone.Normalize(phone).value, d.id)
    requires forall u :: !IsUserOf(w.db, Phone.Normalize(phone).value, u)
    ensures
      var p, c, o := Phone.Normalize(phone).value, Text.Trim(code), w.db.otps[d.id];
      var (row, answer) := Checked(o, c, p, w.now);
      Ends(VerifyAlone(w, k, phone, code, d), k, w.db.(otps := w.db.otps[d.id := row]),
          Verify(VerifyCall(p, c, Some(d.id), Verified(answer))))
  {
    var w3 := ReadsNewest(w, k, phone, code, d);
    Verdict(w3, k, Phone.Normalize(phone).value, Text.Trim(code), d);
  }

  /** A registration that nobody disturbs: refused exactly if the number has a user
      or a generated key is taken; otherwise the user and one token, live for thirty
      days, are stored, and the user's id is the answer. */
  lemma RegistrationCompletes(w: World, k: nat, proof: nat, name: string, password: string, d: Draw)
    requires Inv(w) && k !in w.calls && RegisterToken(w, proof).Some? && Text.Trim(name) != "" && |password| >= 8
    ensures
      var phone, h, t := RegisterToken(w, proof).value, Sha256(d.token), w.db;
      var w' := Alone(Next(w, BeginComplete(k, proof, name, password)), k, d, 2);
      k in w'.calls && w'.calls[k].Complete? &&
      var pc := w'.calls[k].complete.pc;
      if d.id in t.users || exists u :: IsUserOf(t, phone, u) then
        w'.db == t && pc == Completed(Failure(PhoneAlreadyExists))
      else if h in t.tokens then w'.db == t && pc == Completed(Failure(ConstraintViolation))
      else
        && pc == Completed(Success(d.id)) && w'.db.otps == t.otps
        && w'.db.users == t.users[d.id := User(d.id, phone, Text.Trim(name), Bcrypt(password))]
        && w'.db.tokens == t.tokens[h := Token(d.id, w.now + 2_592_000_000_000_000, None)]
  {
    var phone := RegisterToken(w, proof).value;
    var w1 := Next(w, BeginComplete(k, proof, name, password));
    CompleteStarts(w, k, proof, name, password);
    PhoneIsTaken(w.db, phone);
    OneStep(w1, k, d, 2);
    var w2 := Next(w1, Continue(k, d));
    OneStep(w2, k, d, 1);
  }

  /** A refresh that nobody disturbs, in all its outcomes: an unknown token, a
      revoked one, one past its expiry, and success, which revokes it now and stores
      the next one, live for thirty days, for the same user. */
  lemma RefreshCompletes(w: World, k: nat, token: string, d: Draw)
    requires Inv(w) && k !in w.calls && Text.Trim(token) != ""
    ensures
      var h, next, t := Sha256(Text.Trim(token)), Sha256(d.token), w.db;
      var w' := Alone(Next(w, BeginRefresh(k, token)), k, d, 4);
      k in w'.calls && w'.calls[k].Refresh? &&
      var pc := w'.calls[k].refresh.pc;
      if h !in t.tokens then w'.db == t && pc == Refreshed(Failure(InvalidRefreshToken))
      else if t.tokens[h].revokedAt.Some? then w'.db == t && pc == Refreshed(Failure(RefreshTokenRevoked))
      else if t.tokens[h].expiresAt < w.now then w'.db == t && pc == Refreshed(Failure(RefreshTokenExpired))
      else if next in t.tokens then w'.db == t && pc == Refreshed(Failure(ConstraintViolation))
      else
        var row := t.tokens[h];
        && pc == Refreshed(Success(d.token)) && w'.db.users == t.users && w'.db.otps == t.otps
        && w'.db.tokens == t.tokens[h := row.(revokedAt := Some(w.now))]
                                   [next := Token(row.userId, w.now + 2_592_000_000_000_000, None)]
  {
    var h := Sha256(Text.Trim(token));
    var w1 := Next(w, BeginRefresh(k, token));
    RefreshStarts(w, k, token);
    OneStep(w1, k, d, 4);
    var w2 := Next(w1, Continue(k, d));
    if h !in w.db.tokens {
      AnsweredStays(w2, k, d, 3);
      return;
    }
    assert TokenOk(w.db, h);
    OneStep(w2, k, d, 3);
    var w3 := Next(w2, Continue(k, d));
    if w.db.tokens[h].revokedAt.Some? || w.db.tokens[h].expiresAt < w.now {
      AnsweredStays(w3, k, d, 2);
      return;
    }
    OneStep(w3, k, d, 2);
    var w4 := Next(w3, Continue(k, d));
    OneStep(w4, k, d, 1);
  }
}
