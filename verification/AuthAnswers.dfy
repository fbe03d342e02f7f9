/** Why a call answered as it did, whatever raced with it: every answer in every run
    is explained by what the tables and the clock showed at moments of that call. */
module AuthAnswers {
  import opened Base
  import opened AuthTables
  import opened AuthMachine
  import opened AuthInvariant

  /** The moments of a call are states of the run, in the order of its steps. */
  predicate HappensAt(run: seq<Action>, k: nat, i: nat, d: Draw) {
    i < |run| && run[i] == Continue(k, d)
  }

  lemma {:induction false} OwnMomentsHappened(run: seq<Action>, k: nat, j: nat) returns (i: nat)
    requires j < |OwnMoments(run, k)|
    ensures
      var m := OwnMoments(run, k)[j];
      HappensAt(run, k, i, m.draw) && m.db == Exec(run[..i]).db && m.now == Exec(run[..i]).now
  {
    if j < |OwnMoments(Front(run), k)| {
      i := OwnMomentsHappened(Front(run), k, j);
      assert Front(run)[..i] == run[..i];
    } else {
      i := |run| - 1;
      assert run[..i] == Front(run);
    }
  }

  // ---- refresh ----

  /** The call read an unrevoked row of the token, and a clock reading after that was
      not past the row's expiry. */
  predicate ReadInTime(ms: seq<Moment>, h: TokenHash) {
    && |ms| >= 2 && h in ms[0].db.tokens && ms[0].db.tokens[h].revokedAt.None?
    && ms[1].now <= ms[0].db.tokens[h].expiresAt
  }

  predicate RefreshExplained(ms: seq<Moment>, h: TokenHash, answer: Result<string, AuthError>) {
    match answer
    case Success(next) =>
      && ReadInTime(ms, h) && |ms| >= 4
      && ms[0].db.tokens[h].userId in ms[2].db.users && next == ms[2].draw.token
      && h in ms[3].db.tokens && ms[3].db.tokens[h].revokedAt.None? && Sha256(next) !in ms[3].db.tokens
    case Failure(RefreshTokenRevoked) => |ms| >= 1 && h in ms[0].db.tokens && ms[0].db.tokens[h].revokedAt.Some?
    case Failure(RefreshTokenExpired) =>
      |ms| >= 2 && h in ms[0].db.tokens && ms[0].db.tokens[h].revokedAt.None?
          && ms[1].now > ms[0].db.tokens[h].expiresAt
    case Failure(InvalidRefreshToken) =>
      || (|ms| >= 1 && h !in ms[0].db.tokens)
      || (|ms| >= 3 && ReadInTime(ms, h) && ms[0].db.tokens[h].userId !in ms[2].db.users)
      || (|ms| >= 4 && ReadInTime(ms, h) && (h in ms[3].db.tokens ==> ms[3].db.tokens[h].revokedAt.Some?))
    case Failure(ConstraintViolation) =>
      && |ms| >= 4 && ReadInTime(ms, h)
      && (Sha256(ms[2].draw.token) in ms[3].db.tokens || ms[0].db.tokens[h].userId !in ms[3].db.users)
    case Failure(_) => false
  }

  /** How far a refresh has come after n of its moments. */
  predicate RefreshProgress(ms: seq<Moment>, c: RefreshCall) {
    var h := Sha256(c.token);
    match c.pc
    case FindToken => |ms| == 0
    case CheckToken(row) => |ms| == 1 && h in ms[0].db.tokens && row == ms[0].db.tokens[h]
    case FindOwner(row) => |ms| == 2 && ReadInTime(ms, h) && row == ms[0].db.tokens[h]
    case Replace(row, next, _) =>
      && |ms| == 3 && ReadInTime(ms, h) && row == ms[0].db.tokens[h]
      && row.userId in ms[2].db.users && next == ms[2].draw.token
    case Refreshed(answer) => RefreshExplained(ms, h, answer)
  }

  lemma RefreshProgressStep(ms: seq<Moment>, m: Moment, c: RefreshCall)
    requires RefreshProgress(ms, c)
    ensures RefreshProgress(ms + [m], RefreshStep(m.db, m.now, m.draw, c).1)
  {
    var more := ms + [m];
    assert forall i :: 0 <= i < |ms| ==> more[i] == ms[i];
  }

  /** Every answer of every refresh, in every run, is explained by the call's own
      moments. In particular a token is only ever replaced when a clock reading of
      the call was not past its expiry. */
  lemma {:induction false} RefreshAnswersAreExplained(run: seq<Action>, k: nat)
    requires k in Exec(run).calls && Exec(run).calls[k].Refresh?
    ensures RefreshProgress(OwnMoments(run, k), Exec(run).calls[k].refresh)
  {
    var w, a := Exec(Front(run)), Last(run);
    if k !in w.calls {
      CallsFollowTheirMoments(Front(run), k, w.db);
    } else {
      RefreshAnswersAreExplained(Front(run), k);
      if a.Continue? && a.call == k {
        RefreshProgressStep(OwnMoments(Front(run), k), Moment(w.db, w.now, a.draw), w.calls[k].refresh);
      } else {
        assert OwnMoments(run, k) == OwnMoments(Front(run), k);
      }
    }
  }

  lemma RotationsAreInTime(run: seq<Action>, k: nat, token: TokenHash, next: TokenHash)
    requires RotatedBy(Exec(run), k, token, next)
    ensures ReadInTime(OwnMoments(run, k), token)
  {
    RefreshAnswersAreExplained(run, k);
  }

  // ---- verification ----

  /** The row is a newest code of the number. */
  predicate IsNewestCode(t: Tables, phone: string, row: Otp) {
    && row in t.otps.Values && row.phone == phone
    && forall j :: j in t.otps && t.otps[j].phone == phone ==> t.otps[j].createdAt <= row.createdAt
  }

  predicate Read(ms: seq<Moment>, i: nat, phone: string, row: Otp) {
    i < |ms| && IsNewestCode(ms[i].db, phone, row)
  }

  /** The row was read at one moment and found usable at a later one. */
  predicate UsableAt(ms: seq<Moment>, i: nat, j: nat, phone: string, row: Otp) {
    && i < j < |ms| && Read(ms, i, phone, row)
    && row.usedAt.None? && ms[j].now <= row.expiresAt && row.attempts < row.maxAttempts
  }

  ghost predicate WasUsable(ms: seq<Moment>, phone: string, row: Otp) {
    exists i: nat, j: nat :: UsableAt(ms, i, j, phone, row)
  }

  predicate LateAt(ms: seq<Moment>, i: nat, j: nat, phone: string, row: Otp) {
    i < j < |ms| && Read(ms, i, phone, row) && row.usedAt.None? && ms[j].now > row.expiresAt
  }

  predicate NoCodeAt(ms: seq<Moment>, i: nat, phone: string) {
    i < |ms| && forall j :: j in ms[i].db.otps ==> ms[i].db.otps[j].phone != phone
  }

  predicate IsUserOf(t: Tables, u: string, phone: string) {
    u in t.users && t.users[u].phone == phone
  }

  predicate UserAt(ms: seq<Moment>, i: nat, u: string, phone: string) {
    i < |ms| && IsUserOf(ms[i].db, u, phone)
  }

  ghost predicate VerifyExplained(ms: seq<Moment>, c: VerifyCall, answer: Result<string, AuthError>) {
    match answer
    case Success(phone) => phone == c.phone && exists row :: WasUsable(ms, phone, row) && row.hash == Bcrypt(c.code)
    case Failure(InvalidOtp) => exists row :: WasUsable(ms, c.phone, row) && row.hash != Bcrypt(c.code)
    case Failure(OtpUsed) => exists i: nat, row :: Read(ms, i, c.phone, row) && row.usedAt.Some?
    case Failure(OtpExpired) => exists i: nat, j: nat, row :: LateAt(ms, i, j, c.phone, row)
    case Failure(OtpTooManyAttempts) =>
      exists i: nat, row :: Read(ms, i, c.phone, row) && row.attempts >= row.maxAttempts
    case Failure(PhoneAlreadyExists) => exists i: nat, u :: UserAt(ms, i, u, c.phone)
    case Failure(OtpNotFound) => exists i: nat :: NoCodeAt(ms, i, c.phone)
    case Failure(_) => false
  }

  /** What a verification knows after its moments so far. */
  ghost predicate VerifyProgress(ms: seq<Moment>, c: VerifyCall) {
    match c.pc
    case FindUser => true
    case FindOtp => true
    case CheckOtp(row) => exists i: nat :: Read(ms, i, c.phone, row)
    case Increment(id) => exists row :: WasUsable(ms, c.phone, row) && row.id == id && row.hash != Bcrypt(c.code)
    case Use(id) => exists row :: WasUsable(ms, c.phone, row) && row.id == id && row.hash == Bcrypt(c.code)
    case Verified(answer) => VerifyExplained(ms, c, answer)
  }

  lemma ReadStays(ms: seq<Moment>, m: Moment, i: nat, phone: string, row: Otp)
    requires Read(ms, i, phone, row)
    ensures Read(ms + [m], i, phone, row)
  {
  }

  lemma UsableStays(ms: seq<Moment>, m: Moment, phone: string, row: Otp)
    requires WasUsable(ms, phone, row)
    ensures WasUsable(ms + [m], phone, row)
  {
    var i: nat, j: nat :| UsableAt(ms, i, j, phone, row);
    ReadStays(ms, m, i, phone, row);
    assert UsableAt(ms + [m], i, j, phone, row);
  }

  lemma ExplainedStays(ms: seq<Moment>, m: Moment, c: VerifyCall)
    requires c.pc.Verified? && VerifyProgress(ms, c)
    ensures VerifyProgress(ms + [m], c)
  {
    var more := ms + [m];
    match c.pc.outcome
    case Success(phone) =>
      var row :| WasUsable(ms, phone, row) && row.hash == Bcrypt(c.code);
      UsableStays(ms, m, phone, row);
    case Failure(InvalidOtp) =>
      var row :| WasUsable(ms, c.phone, row) && row.hash != Bcrypt(c.code);
      UsableStays(ms, m, c.phone, row);
    case Failure(OtpUsed) =>
      var i: nat, row :| Read(ms, i, c.phone, row) && row.usedAt.Some?;
      ReadStays(ms, m, i, c.phone, row);
    case Failure(OtpTooManyAttempts) =>
      var i: nat, row :| Read(ms, i, c.phone, row) && row.attempts >= row.maxAttempts;
      ReadStays(ms, m, i, c.phone, row);
    case Failure(OtpExpired) =>
      var i: nat, j: nat, row :| LateAt(ms, i, j, c.phone, row);
      ReadStays(ms, m, i, c.phone, row);
      assert LateAt(more, i, j, c.phone, row);
    case Failure(PhoneAlreadyExists) =>
      var i: nat, u :| UserAt(ms, i, u, c.phone);
      assert UserAt(more, i, u, c.phone);
    case Failure(OtpNotFound) =>
      var i: nat :| NoCodeAt(ms, i, c.phone);
      assert NoCodeAt(more, i, c.phone);
    case Failure(_) =>
  }

  /** The check of a row that was read. */
  lemma CheckExplained(ms: seq<Moment>, m: Moment, d: Draw, c: VerifyCall)
    requires c.pc.CheckOtp? && VerifyProgress(ms, c)
    ensures VerifyProgress(ms + [m], VerifyStep(m.db, m.now, d, c).1)
  {
    var more, row, last := ms + [m], c.pc.row, |ms|;
    var i: nat :| Read(ms, i, c.phone, row);
    ReadStays(ms, m, i, c.phone, row);
    assert more[last] == m;
    if row.usedAt.None? && m.now <= row.expiresAt && row.attempts < row.maxAttempts {
      assert UsableAt(more, i, last, c.phone, row);
    } else if row.usedAt.None? && m.now > row.expiresAt {
      assert LateAt(more, i, last, c.phone, row);
    }
  }

  lemma VerifyProgressStep(ms: seq<Moment>, m: Moment, c: VerifyCall)
    requires VerifyProgress(ms, c)
    requires c.pc.Increment? || c.pc.Use? ==> c.pc.id in m.db.otps
    ensures VerifyProgress(ms + [m], VerifyStep(m.db, m.now, m.draw, c).1)
  {
    var more, last := ms + [m], |ms|;
    assert more[last] == m;
    match c.pc
    case FindUser =>
      if u :| u in m.db.users && m.db.users[u].phone == c.phone {
        assert UserAt(more, last, u, c.phone);
      }
    case FindOtp =>
      if IsLatest(m.db, c.phone, m.draw.id) {
        assert Read(more, last, c.phone, m.db.otps[m.draw.id]);
      } else if !HasOtp(m.db, c.phone) {
        assert NoCodeAt(more, last, c.phone);
      }
    case CheckOtp(_) => CheckExplained(ms, m, m.draw, c);
    case Increment(id) =>
      var row :| WasUsable(ms, c.phone, row) && row.id == id && row.hash != Bcrypt(c.code);
      UsableStays(ms, m, c.phone, row);
    case Use(id) =>
      var row :| WasUsable(ms, c.phone, row) && row.id == id && row.hash == Bcrypt(c.code);
      UsableStays(ms, m, c.phone, row);
    case Verified(_) => ExplainedStays(ms, m, c);
  }

  /** Every answer of every verification, in every run, is explained by the call's
      own moments. In particular a code only ever wins when it is that of a newest
      row the call read, unused and with attempts left, and a later clock reading of
      the call was not past the row's expiry. */
  lemma {:induction false} VerifyAnswersAreExplained(run: seq<Action>, k: nat)
    requires k in Exec(run).calls && Exec(run).calls[k].Verify?
    decreases run
    ensures VerifyProgress(OwnMoments(run, k), Exec(run).calls[k].verify)
  {
    var w, a := Exec(Front(run)), Last(run);
    if k in w.calls {
      VerifyAnswersAreExplained(Front(run), k);
      if a.Continue? && a.call == k {
        InvAlways(Front(run));
        assert CallOk(w, k);
        VerifyProgressStep(OwnMoments(Front(run), k), Moment(w.db, w.now, a.draw), w.calls[k].verify);
      } else {
        assert OwnMoments(run, k) == OwnMoments(Front(run), k);
      }
    }
  }

  // ---- registration ----

  ghost predicate NoUserAt(ms: seq<Moment>, i: nat, phone: string) {
    i < |ms| && forall u :: !IsUserOf(ms[i].db, u, phone)
  }

  ghost predicate CompleteExplained(ms: seq<Moment>, phone: string, answer: Result<string, AuthError>) {
    match answer
    case Success(id) =>
      && NoUserAt(ms, 0, phone) && NoUserAt(ms, 1, phone)
      && id == ms[1].draw.id && id !in ms[1].db.users && Sha256(ms[0].draw.token) !in ms[1].db.tokens
    case Failure(PhoneAlreadyExists) =>
      || (exists u :: UserAt(ms, 0, u, phone))
      || (NoUserAt(ms, 0, phone) && |ms| >= 2
          && (ms[1].draw.id in ms[1].db.users || exists u :: UserAt(ms, 1, u, phone)))
    case Failure(ConstraintViolation) => NoUserAt(ms, 0, phone) && |ms| >= 2
        && Sha256(ms[0].draw.token) in ms[1].db.tokens
    case Failure(_) => false
  }

  ghost predicate CompleteProgress(ms: seq<Moment>, c: CompleteCall) {
    match c.pc
    case CheckPhone => |ms| == 0
    case InsertBoth(token, _) => |ms| == 1 && NoUserAt(ms, 0, c.phone) && token == ms[0].draw.token
    case Completed(answer) => CompleteExplained(ms, c.phone, answer)
  }

  lemma HasUserMeans(t: Tables, phone: string)
    ensures HasPhone(t, phone) <==> exists u :: IsUserOf(t, u, phone)
  {
    if HasPhone(t, phone) {
      var u :| u in t.users && t.users[u].phone == phone;
      assert IsUserOf(t, u, phone);
    }
  }

  lemma CompleteProgressStep(ms: seq<Moment>, m: Moment, c: CompleteCall)
    requires CompleteProgress(ms, c)
    ensures CompleteProgress(ms + [m], CompleteStep(m.db, m.now, m.draw, c).1)
  {
    var more := ms + [m];
    assert more[|ms|] == m && forall i :: 0 <= i < |ms| ==> more[i] == ms[i];
    HasUserMeans(m.db, c.phone);
    if u :| IsUserOf(m.db, u, c.phone) {
      assert UserAt(more, |ms|, u, c.phone);
    }
    if c.pc.Completed? {
      forall i: nat, u | UserAt(ms, i, u, c.phone) ensures UserAt(more, i, u, c.phone) {}
    }
  }

  /** Every answer of every registration, in every run, is explained by the call's own
      moments: it succeeds only while the number has no user, and is refused as
      existing only when the number, or the drawn id, has one. */
  lemma {:induction false} CompleteAnswersAreExplained(run: seq<Action>, k: nat)
    requires k in Exec(run).calls && Exec(run).calls[k].Complete?
    ensures CompleteProgress(OwnMoments(run, k), Exec(run).calls[k].complete)
    decreases run
  {
    var w, a := Exec(Front(run)), Last(run);
    if k !in w.calls {
      CallsFollowTheirMoments(Front(run), k, w.db);
    } else {
      CompleteAnswersAreExplained(Front(run), k);
      if a.Continue? && a.call == k {
        CompleteProgressStep(OwnMoments(Front(run), k), Moment(w.db, w.now, a.draw), w.calls[k].complete);
      } else {
        assert OwnMoments(run, k) == OwnMoments(Front(run), k);
      }
    }
  }
}
