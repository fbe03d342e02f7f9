/** The account use cases. As for pairing, a method that issues several statements
    runs against an adversary (env) and takes exactly the steps of the machine. */
module AuthUseCase {
  import opened Base
  import opened AuthTables
  import opened AuthMachine
  import opened AuthStore
  import Phone
  import Text

  /** The moment at which a query picks this row among equals. */
  function WithPick(m: Moment, pick: string): Moment {
    m.(draw := Draw("", pick))
  }

  const REQUEST_STEPS := 2
  const VERIFY_STEPS := 4
  const COMPLETE_STEPS := 2
  const REFRESH_STEPS := 4

  class AuthUseCase {
    const db: Database
    const users: UserRepository
    const otps: AuthOTPRepository
    const refreshTokens: RefreshTokenRepository
    const registrations: RegistrationRepository

    constructor (db: Database)
      ensures this.db == db && Wired()
    {
      this.db := db;
      users := new UserRepository(db);
      otps := new AuthOTPRepository(db);
      refreshTokens := new RefreshTokenRepository(db);
      registrations := new RegistrationRepository(db);
    }

    ghost predicate Wired() {
      users.db == db && otps.db == db && refreshTokens.db == db && registrations.db == db
    }

    /** The tables the next statement meets. */
    method NextEnv(env: seq<Moment>) returns (rest: seq<Moment>)
      requires env != []
      modifies db
      ensures db.Tables() == env[0].db && rest == env[1..]
    {
      db.Interfere(env[0].db);
      rest := env[1..];
    }

    /** A new code for a number that had no user when it was looked up: a fresh row
        with no attempts, stamped by the database and expiring five minutes after
        the clock reading. */
    method RequestRegisterOTP(phoneNumber: string, id: string, code: string, env: seq<Moment>)
      returns (r: Result<Time, AuthError>)
      requires Wired() && |env| == REQUEST_STEPS
      modifies db
      ensures
        var p := Phone.Normalize(phoneNumber);
        if p.None? then r == Failure(InvalidInput) && db.Tables() == old(db.Tables())
        else if HasPhone(env[0].db, p.value) then r == Failure(PhoneAlreadyExists) && db.Tables() == env[0].db
        else
          var expiresAt := env[0].now + REGISTER_OTP_TTL;
          var row := Otp(id, p.value, Bcrypt(code), expiresAt, 0, REGISTER_OTP_MAX_ATTEMPTS, None, env[1].now);
          && db.Tables() == InsertOtp(env[1].db, row)
          && r == if id in env[1].db.otps then Failure(ConstraintViolation) else Success(row.expiresAt)
    {
      var p := Phone.Normalize(phoneNumber);
      if p.None? {
        return Failure(InvalidInput);
      }
      var expiresAt := env[0].now + REGISTER_OTP_TTL;
      var rest := NextEnv(env);
      var existing := users.FindByPhoneNumber(p.value);
      if existing {
        return Failure(PhoneAlreadyExists);
      }
      var createdAt := rest[0].now;
      rest := NextEnv(rest);
      var created := otps.Create(Otp(id, p.value, Bcrypt(code), expiresAt, 0, REGISTER_OTP_MAX_ATTEMPTS, None,
          createdAt));
      r := if created then Success(expiresAt) else Failure(ConstraintViolation);
    }

    /** Success carries the phone number the register token is issued for; pick is
        the row the query for the newest code returned. */
    method VerifyRegisterOTP(phoneNumber: string, otp: string, env: seq<Moment>)
      returns (r: Result<string, AuthError>, ghost pick: string)
      requires Wired() && |env| == VERIFY_STEPS
      modifies db
      ensures
        var p, code := Phone.Normalize(phoneNumber), Text.Trim(otp);
        if p.None? || !Phone.ValidOtpCode(code) then r == Failure(InvalidInput) && db.Tables() == old(db.Tables())
        else
          var met := env[1 := WithPick(env[1], pick)];
          var (t, c) := RunCall(met, old(db.Tables()), Verify(VerifyCall(p.value, code, None, FindUser)));
          db.Tables() == t && c.Verify? && c.verify.pc == Verified(r)
    {
      pick := "";
      var p, code := Phone.Normalize(phoneNumber), Text.Trim(otp);
      if p.None? || !Phone.ValidOtpCode(code) {
        return Failure(InvalidInput), pick;
      }
      var rest := NextEnv(env);
      var existing := users.FindByPhoneNumber(p.value);
      if existing {
        return Failure(PhoneAlreadyExists), pick;
      }
      r, pick := CheckLatest(p.value, code, rest);
      assert env[1 := WithPick(env[1], pick)][1..] == rest[0 := WithPick(rest[0], pick)];
    }

    /** The second half of the verification, after the user lookup. */
    method CheckLatest(phone: string, code: string, env: seq<Moment>)
      returns (r: Result<string, AuthError>, ghost pick: string)
      requires Wired() && |env| == VERIFY_STEPS - 1
      modifies db
      ensures
        var (t, c) := RunCall(env[0 := WithPick(env[0], pick)], old(db.Tables()),
            Verify(VerifyCall(phone, code, None, FindOtp)));
        db.Tables() == t && c.Verify? && c.verify.pc == Verified(r)
    {
      ghost var c := VerifyCall(phone, code, None, FindOtp);
      ghost var before := db.Tables();
      var rest := NextEnv(env);
      var found: Option<Otp>;
      found, pick := otps.FindLatest(phone);
      ghost var d := Draw("", pick);
      ghost var all := RunCall(env[0 := WithPick(env[0], pick)], before, Verify(c));
      assert env[0 := WithPick(env[0], pick)][1..] == rest;
      c := VerifyStep(env[0].db, env[0].now, d, c).1;
      assert RunCall(rest, db.Tables(), Verify(c)) == all;
      if found.None? {
        return Failure(OtpNotFound), pick;
      }
      var row := found.value;

      c := VerifyStep(rest[0].db, rest[0].now, rest[0].draw, c).1;
      var clock := rest[0].now;
      rest := NextEnv(rest);
      assert RunCall(rest, db.Tables(), Verify(c)) == all;
      if row.usedAt.Some? {
        return Failure(OtpUsed), pick;
      }
      if clock > row.expiresAt {
        return Failure(OtpExpired), pick;
      }
      if row.attempts >= row.maxAttempts {
        return Failure(OtpTooManyAttempts), pick;
      }

      c := VerifyStep(rest[0].db, rest[0].now, rest[0].draw, c).1;
      var usedAt := rest[0].now;
      rest := NextEnv(rest);
      if row.hash != Bcrypt(code) {
        var counted := otps.IncrementAttempt(row.id);
        assert RunCall(rest, db.Tables(), Verify(c)) == all;
        return Failure(if counted then InvalidOtp else OtpNotFound), pick;
      }
      var marked := otps.MarkUsed(row.id, usedAt);
      assert RunCall(rest, db.Tables(), Verify(c)) == all;
      r := if marked then Success(phone) else Failure(OtpNotFound);
    }

    /** The subject is the phone number of a register token. Success carries the new user's id. */
    method CompleteRegister(subject: string, name: string, password: string, env: seq<Moment>)
      returns (r: Result<string, AuthError>)
      requires Wired() && |env| == COMPLETE_STEPS
      modifies db
      ensures
        var p := Phone.Normalize(subject);
        if p.None? || Text.Trim(name) == "" || |password| < 8
            then r == Failure(InvalidInput) && db.Tables() == old(db.Tables())
        else
          var (t, c) := RunCall(env, old(db.Tables()),
              Complete(CompleteCall(p.value, Text.Trim(name), password, CheckPhone)));
          db.Tables() == t && c.Complete? && c.complete.pc == Completed(r)
    {
      var p, fullName := Phone.Normalize(subject), Text.Trim(name);
      if p.None? || fullName == "" || |password| < 8 {
        return Failure(InvalidInput);
      }
      ghost var c := CompleteCall(p.value, fullName, password, CheckPhone);
      ghost var all := RunCall(env, db.Tables(), Complete(c));

      c := CompleteStep(env[0].db, env[0].now, env[0].draw, c).1;
      var token, expiresAt := env[0].draw.token, env[0].now + REFRESH_TOKEN_TTL;
      var rest := NextEnv(env);
      var existing := users.FindByPhoneNumber(p.value);
      assert RunCall(rest, db.Tables(), Complete(c)) == all;
      if existing {
        return Failure(PhoneAlreadyExists);
      }

      c := CompleteStep(rest[0].db, rest[0].now, rest[0].draw, c).1;
      var id := rest[0].draw.id;
      rest := NextEnv(rest);
      r := registrations.CompleteRegister(User(id, p.value, fullName, Bcrypt(password)), Sha256(token), expiresAt);
      assert RunCall(rest, db.Tables(), Complete(c)) == all;
    }

    /** Success carries the next refresh token. */
    method Refresh(refreshToken: string, env: seq<Moment>) returns (r: Result<string, AuthError>)
      requires Wired() && |env| == REFRESH_STEPS
      modifies db
      ensures
        var token := Text.Trim(refreshToken);
        if token == "" then r == Failure(InvalidInput) && db.Tables() == old(db.Tables())
        else
          var (t, c) := RunCall(env, old(db.Tables()), AuthMachine.Call.Refresh(RefreshCall(token, FindToken)));
          db.Tables() == t && c.Refresh? && c.refresh.pc == Refreshed(r)
    {
      var token := Text.Trim(refreshToken);
      if token == "" {
        return Failure(InvalidInput);
      }
      ghost var c := RefreshCall(token, FindToken);
      ghost var all := RunCall(env, db.Tables(), AuthMachine.Call.Refresh(c));

      c := RefreshStep(env[0].db, env[0].now, env[0].draw, c).1;
      var rest := NextEnv(env);
      var stored := refreshTokens.FindByHash(Sha256(token));
      assert RunCall(rest, db.Tables(), AuthMachine.Call.Refresh(c)) == all;
      if stored.None? {
        return Failure(InvalidRefreshToken);
      }

      c := RefreshStep(rest[0].db, rest[0].now, rest[0].draw, c).1;
      var clock := rest[0].now;
      rest := NextEnv(rest);
      assert RunCall(rest, db.Tables(), AuthMachine.Call.Refresh(c)) == all;
      if stored.value.revokedAt.Some? {
        return Failure(RefreshTokenRevoked);
      }
      if clock > stored.value.expiresAt {
        return Failure(RefreshTokenExpired);
      }

      c := RefreshStep(rest[0].db, rest[0].now, rest[0].draw, c).1;
      var next, expiresAt := rest[0].draw.token, rest[0].now + REFRESH_TOKEN_TTL;
      rest := NextEnv(rest);
      var owner := users.FindByID(stored.value.userId);
      assert RunCall(rest, db.Tables(), AuthMachine.Call.Refresh(c)) == all;
      if owner.None? {
        return Failure(InvalidRefreshToken);
      }

      c := RefreshStep(rest[0].db, rest[0].now, rest[0].draw, c).1;
      var revokedAt := rest[0].now;
      rest := NextEnv(rest);
      var replaced := refreshTokens.Replace(Sha256(token), Sha256(next), Token(stored.value.userId, expiresAt, None),
          revokedAt);
      assert RunCall(rest, db.Tables(), AuthMachine.Call.Refresh(c)) == all;
      r := if replaced.Success? then Success(next) else Failure(replaced.error);
    }

    method Logout(refreshToken: string, now: Time) returns (r: Result<(), AuthError>)
      requires Wired()
      modifies db
      ensures
        var token := Text.Trim(refreshToken);
        if token == "" then r == Failure(InvalidInput) && db.Tables() == old(db.Tables())
        else
          && db.Tables() == RevokeToken(old(db.Tables()), Sha256(token), now)
          && r == if old(Live(db.Tables(), Sha256(token))) then Success(()) else Failure(InvalidRefreshToken)
    {
      var token := Text.Trim(refreshToken);
      if token == "" {
        return Failure(InvalidInput);
      }
      var found := refreshTokens.RevokeByHash(Sha256(token), now);
      r := if found then Success(()) else Failure(InvalidRefreshToken);
    }

    method LogoutAll(userId: string, now: Time) returns (r: Result<(), AuthError>)
      requires Wired()
      modifies db
      ensures
        var user := Text.Trim(userId);
        if user == "" then r == Failure(InvalidInput) && db.Tables() == old(db.Tables())
        else r == Success(()) && db.Tables() == RevokeAll(old(db.Tables()), user, now)
    {
      var user := Text.Trim(userId);
      if user == "" {
        return Failure(InvalidInput);
      }
      refreshTokens.RevokeAllByUserID(user, now);
      r := Success(());
    }

    /** The tail of a login. */
    method IssueSession(userId: string, token: string, clock: Time) returns (r: Result<string, AuthError>)
      requires Wired()
      modifies db
      ensures
        var row := Token(userId, clock + REFRESH_TOKEN_TTL, None);
        && db.Tables() == InsertToken(old(db.Tables()), Sha256(token), row)
        && r == if old(CanInsertToken(db.Tables(), Sha256(token), row)) then Success(token)
            else Failure(ConstraintViolation)
    {
      var created := refreshTokens.Create(Sha256(token), Token(userId, clock + REFRESH_TOKEN_TTL, None));
      r := if created then Success(token) else Failure(ConstraintViolation);
    }
  }
}
