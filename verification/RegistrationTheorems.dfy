/** One-time codes and registration: what holds over whole runs, whatever the interleaving. */
module RegistrationTheorems {
  import opened Base
  import opened AuthTables
  import opened AuthMachine
  import opened AuthInvariant
  import Phone

  // ---- provenance ----

  /** Call k verified a code of OTP row o for this phone number and handed out its register token. */
  predicate VerifiedBy(w: World, k: nat, o: string, phone: string) {
    && RegisterToken(w, k) == Some(phone)
    && w.calls[k].verify.otp == Some(o)
    && UsedOtp(w.db, o, phone)
    && w.db.otps[o].hash == Bcrypt(w.calls[k].verify.code)
  }

  ghost predicate Verifications(w: World, phone: string) {
    exists k, o :: VerifiedBy(w, k, o, phone)
  }

  lemma HandedOutMeansVerified(w: World, k: nat)
    requires Inv(w) && RegisterToken(w, k).Some?
    ensures Verifications(w, RegisterToken(w, k).value)
  {
    assert CallOk(w, k);
    assert VerifiedBy(w, k, w.calls[k].verify.otp.value, RegisterToken(w, k).value);
  }

  lemma VerificationsStay(w: World, a: Action, phone: string)
    requires Inv(w) && Verifications(w, phone)
    ensures Verifications(Next(w, a), phone)
  {
    var k, o :| VerifiedBy(w, k, o, phone);
    InvNext(w, a);
    NextTablesOk(w, a);
    assert OtpKept(w.db, Next(w, a).db, o);
    assert VerifiedBy(Next(w, a), k, o, phone);
  }

  /** Every registration in flight rests on a verification of its own phone number,
      although the number was normalised once more on the way. */
  lemma {:induction false} CompletionsAreVerified(run: seq<Action>, k: nat)
    requires k in Exec(run).calls && Exec(run).calls[k].Complete?
    ensures Verifications(Exec(run), Exec(run).calls[k].complete.phone)
  {
    if run != [] {
      var w, a := Exec(Front(run)), Last(run);
      InvAlways(Front(run));
      if k in w.calls {
        CompletionsAreVerified(Front(run), k);
        VerificationsStay(w, a, w.calls[k].complete.phone);
      } else {
        HandedOutMeansVerified(w, a.proof);
        assert CallOk(w, a.proof);
        Phone.NormalizeIdempotent(w.calls[a.proof].verify.phone);
        VerificationsStay(w, a, w.calls[a.proof].verify.phone);
      }
    }
  }

  /** Every user row rests on a code of that phone number which some caller presented. */
  lemma {:induction false} UsersAreVerified(run: seq<Action>, u: string)
    requires u in Exec(run).db.users
    ensures Verifications(Exec(run), Exec(run).db.users[u].phone)
  {
    if run != [] {
      var w, a := Exec(Front(run)), Last(run);
      InvAlways(Front(run));
      if u in w.db.users {
        UsersAreVerified(Front(run), u);
        NextTablesOk(w, a);
        assert UserKept(w.db, Exec(run).db, u);
        VerificationsStay(w, a, w.db.users[u].phone);
      } else {
        CompletionsAreVerified(Front(run), a.call);
        VerificationsStay(w, a, w.calls[a.call].complete.phone);
      }
    }
  }

  /** However many register tokens exist, no phone number ever has two users. */
  lemma {:induction false} OneUserPerPhone(run: seq<Action>, u: string, v: string)
    requires u in Exec(run).db.users && v in Exec(run).db.users
    requires Exec(run).db.users[u].phone == Exec(run).db.users[v].phone
    ensures u == v
  {
    InvAlways(run);
    assert PhonesDiffer(Exec(run).db, u, v);
  }

  /** Only the insertion of a registration adds users. */
  lemma UsersComeFromRegistrations(w: World, a: Action, u: string)
    requires u !in w.db.users && u in Next(w, a).db.users
    ensures a.Continue? && a.call in w.calls && w.calls[a.call].Complete? && w.calls[a.call].complete.pc.InsertBoth?
    ensures
      var c := w.calls[a.call].complete;
      var (t, r) := InsertUserWithToken(w.db, User(u, c.phone, c.fullName, Bcrypt(c.password)), Sha256(c.pc.token),
          c.pc.expiresAt);
      Next(w, a).db == t && r == Success(u)
  {
  }

  /** The step that inserts a user inserts exactly that user and one live token of
      theirs, which starts a chain. */
  lemma UserComesWithToken(w: World, a: Action, u: string)
    requires Reachable(w) && u !in w.db.users && u in Next(w, a).db.users
    ensures exists h :: FirstOfNewUser(w, Next(w, a), u, h)
  {
    ReachableIsOk(w);
    UsersComeFromRegistrations(w, a, u);
    OriginsGrow(w, a);
    assert FirstOfNewUser(w, Next(w, a), u, Sha256(w.calls[a.call].complete.pc.token));
  }

  predicate FirstOfNewUser(w: World, w': World, u: string, h: TokenHash) {
    && h !in w.db.tokens && IsFirstOf(w', h, u) && Live(w'.db, h)
    && w'.db.tokens == w.db.tokens[h := w'.db.tokens[h]]
    && u in w'.db.users && w'.db.users == w.db.users[u := w'.db.users[u]]
  }

  // ---- bounds on one OTP row ----

  /** The call has read OTP row o as usable and has not yet written to it. */
  predicate InWindow(c: Call, o: string) {
    c.Verify? &&
    match c.verify.pc
    case CheckOtp(row) => row.id == o && row.usedAt.None? && row.attempts < row.maxAttempts
    case Increment(id) => id == o
    case Use(id) => id == o
    case _ => false
  }

  function Window(w: World, o: string): set<nat> {
    set k | k in w.calls && InWindow(w.calls[k], o)
  }

  predicate Wins(w: World, k: nat, o: string) {
    RegisterToken(w, k).Some? && w.calls[k].verify.otp == Some(o)
  }

  function Winners(w: World, o: string): set<nat> {
    set k | k in w.calls && Wins(w, k, o)
  }

  /** At most n calls are between reading row o and writing to it at any moment of the run. */
  ghost predicate Overlap(run: seq<Action>, o: string, n: nat) {
    forall i {:trigger run[..i]} :: 0 <= i <= |run| ==> |Window(Exec(run[..i]), o)| <= n
  }

  ghost predicate Bounded(w: World, o: string, n: nat) {
    && (o in w.db.otps ==> w.db.otps[o].attempts + |Window(w, o)| <= w.db.otps[o].maxAttempts + n - 1)
    && |Window(w, o)| + |Winners(w, o)| <= n
  }

  lemma WinnersUsed(w: World, o: string)
    requires Inv(w)
    ensures Winners(w, o) != {} ==> o in w.db.otps && w.db.otps[o].usedAt.Some?
  {
    if k :| k in Winners(w, o) {
      assert CallOk(w, k);
    }
  }

  lemma WindowExists(w: World, o: string)
    requires Inv(w)
    ensures Window(w, o) != {} ==> o in w.db.otps
  {
    if k :| k in Window(w, o) {
      assert CallOk(w, k);
    }
  }

  /** The step of a verification call, seen from row o. */
  lemma VerifyMoves(w: World, k: nat, d: Draw, o: string)
    requires Inv(w) && k in w.calls && w.calls[k].Verify? && o in w.db.otps
    ensures
      var w' := Next(w, Continue(k, d));
      && (InWindow(w'.calls[k], o) && !InWindow(w.calls[k], o) ==>
            w.db.otps[o].usedAt.None? && w.db.otps[o].attempts < w.db.otps[o].maxAttempts && w'.db == w.db)
      && (Wins(w', k, o) && !Wins(w, k, o) ==> InWindow(w.calls[k], o) && !InWindow(w'.calls[k], o))
      && (InWindow(w'.calls[k], o) ==> !Wins(w', k, o))
      && (Wins(w, k, o) ==> Wins(w', k, o))
      && o in w'.db.otps && w'.db.otps[o].maxAttempts == w.db.otps[o].maxAttempts
      && w'.db.otps[o].attempts <= w.db.otps[o].attempts
          + (if InWindow(w.calls[k], o) && !InWindow(w'.calls[k], o) then 1 else 0)
  {
    assert CallOk(w, k);
    VerifyStepOk(w.db, w.now, d, w.calls[k].verify);
    assert OtpKept(w.db, Next(w, Continue(k, d)).db, o);
    if w.calls[k].verify.pc.FindOtp? && IsLatest(w.db, w.calls[k].verify.phone, d.id) {
      assert OtpOk(w.db, d.id);
    }
  }

  /** Every other step leaves the window, the winners and the attempts of row o alone. */
  lemma OthersKeepRow(w: World, a: Action, o: string)
    requires Inv(w) && !(a.Continue? && a.call in w.calls && w.calls[a.call].Verify?)
    ensures
      var w' := Next(w, a);
      && Window(w', o) == Window(w, o) && Winners(w', o) == Winners(w, o)
      && (o in w.db.otps ==> o in w'.db.otps && w'.db.otps[o] == w.db.otps[o])
      && (o in w'.db.otps && o !in w.db.otps ==> w'.db.otps[o].attempts == 0 && w'.db.otps[o].maxAttempts >= 1)
  {
    var w' := Next(w, a);
    forall k | k in w'.calls && k !in w.calls ensures !InWindow(w'.calls[k], o) && !Wins(w', k, o) {}
    forall k | k in w.calls
      ensures k in w'.calls && InWindow(w'.calls[k], o) == InWindow(w.calls[k], o) && Wins(w', k, o) == Wins(w, k, o)
    {
      if a.Continue? && a.call == k {
        assert !w.calls[k].Verify? && !w'.calls[k].Verify?;
      }
    }
  }

  lemma VerifyKeepsOthers(w: World, k: nat, d: Draw, o: string)
    requires k in w.calls && w.calls[k].Verify?
    ensures Window(Next(w, Continue(k, d)), o) - {k} == Window(w, o) - {k}
    ensures Winners(Next(w, Continue(k, d)), o) - {k} == Winners(w, o) - {k}
  {
    var w' := Next(w, Continue(k, d));
    forall j | j in w.calls && j != k
      ensures Wins(w', j, o) == Wins(w, j, o) && InWindow(w'.calls[j], o) == InWindow(w.calls[j], o)
    {}
  }

  lemma BoundedNext(w: World, a: Action, o: string, n: nat)
    requires Inv(w) && Bounded(w, o, n) && |Window(Next(w, a), o)| <= n
    ensures Bounded(Next(w, a), o, n)
  {
    var w' := Next(w, a);
    WinnersUsed(w, o);
    WindowExists(w, o);
    if a.Continue? && a.call in w.calls && w.calls[a.call].Verify? {
      VerifyKeepsOthers(w, a.call, a.draw, o);
      SetAfter(Window(w, o), Window(w', o), a.call);
      SetAfter(Winners(w, o), Winners(w', o), a.call);
      if o in w.db.otps {
        VerifyMoves(w, a.call, a.draw, o);
      } else {
        InvNext(w, a);
        WindowExists(w', o);
        WinnersUsed(w', o);
      }
    } else {
      OthersKeepRow(w, a, o);
    }
  }

  lemma {:induction false} BoundedAlways(run: seq<Action>, o: string, n: nat)
    requires Overlap(run, o, n)
    ensures Bounded(Exec(run), o, n)
  {
    if run != [] {
      forall i | 0 <= i <= |Front(run)| ensures |Window(Exec(Front(run)[..i]), o)| <= n {
        assert Front(run)[..i] == run[..i];
      }
      BoundedAlways(Front(run), o, n);
      InvAlways(Front(run));
      assert run[..|run|] == run;
      BoundedNext(Exec(Front(run)), Last(run), o, n);
    }
  }

  /** If at most n verifications of an OTP row ever overlap, its attempts exceed the
      maximum by at most n - 1 and at most n verifications succeed. Without overlap
      (n = 1) the maximum is never exceeded and at most one succeeds. */
  lemma {:induction false} OtpBounds(run: seq<Action>, o: string, n: nat)
    requires Overlap(run, o, n) && o in Exec(run).db.otps
    ensures Exec(run).db.otps[o].attempts <= REGISTER_OTP_MAX_ATTEMPTS + n - 1
    ensures |Winners(Exec(run), o)| <= n
  {
    BoundedAlways(run, o, n);
    InvAlways(run);
    assert OtpOk(Exec(run).db, o);
  }
}
