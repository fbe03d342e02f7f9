/** The global invariant of the account tables, the calls in flight and the token history. */
module AuthInvariant {
  import opened Base
  import opened AuthTables
  import opened AuthMachine
  import Phone

  // ---- how rows may change ----

  predicate UserKept(t: Tables, t': Tables, u: string) {
    u in t.users ==> u in t'.users && t'.users[u] == t.users[u]
  }

  predicate OtpEvolves(o: Otp, o': Otp) {
    && o'.id == o.id && o'.phone == o.phone && o'.hash == o.hash && o'.expiresAt == o.expiresAt
    && o'.maxAttempts == o.maxAttempts && o.attempts <= o'.attempts && (o.usedAt.Some? ==> o'.usedAt.Some?)
  }

  predicate OtpKept(t: Tables, t': Tables, o: string) {
    o in t.otps ==> o in t'.otps && OtpEvolves(t.otps[o], t'.otps[o])
  }

  /** A token keeps its owner and expiry and is revoked at most once, for good. */
  predicate TokenEvolves(k: Token, k': Token) {
    k'.userId == k.userId && k'.expiresAt == k.expiresAt && (k.revokedAt.Some? ==> k'.revokedAt == k.revokedAt)
  }

  predicate TokenKept(t: Tables, t': Tables, h: TokenHash) {
    h in t.tokens ==> h in t'.tokens && TokenEvolves(t.tokens[h], t'.tokens[h])
  }

  ghost predicate Evolves(t: Tables, t': Tables) {
    && (forall u {:trigger UserKept(t, t', u)} :: UserKept(t, t', u))
    && (forall o {:trigger OtpKept(t, t', o)} :: OtpKept(t, t', o))
    && (forall h {:trigger TokenKept(t, t', h)} :: TokenKept(t, t', h))
  }

  // ---- the tables ----

  /** OTP row o of this phone number has been marked used. */
  predicate UsedOtp(t: Tables, o: string, phone: string) {
    o in t.otps && t.otps[o].phone == phone && t.otps[o].usedAt.Some?
  }

  ghost predicate Proven(t: Tables, phone: string) {
    exists o :: UsedOtp(t, o, phone)
  }

  ghost predicate UserOk(t: Tables, u: string)
    requires u in t.users
  {
    t.users[u].id == u && Proven(t, t.users[u].phone)
  }

  predicate OtpOk(t: Tables, o: string)
    requires o in t.otps
  {
    t.otps[o].id == o && Phone.Canonical(t.otps[o].phone) && t.otps[o].maxAttempts == REGISTER_OTP_MAX_ATTEMPTS
  }

  predicate TokenOk(t: Tables, h: TokenHash)
    requires h in t.tokens
  {
    t.tokens[h].userId in t.users
  }

  predicate PhonesDiffer(t: Tables, u: string, v: string)
    requires u in t.users && v in t.users
  {
    t.users[u].phone == t.users[v].phone ==> u == v
  }

  ghost predicate TablesOk(t: Tables) {
    && (forall u {:trigger UserOk(t, u)} :: u in t.users ==> UserOk(t, u))
    && (forall o {:trigger OtpOk(t, o)} :: o in t.otps ==> OtpOk(t, o))
    && (forall h {:trigger TokenOk(t, h)} :: h in t.tokens ==> TokenOk(t, h))
    && (forall u, v {:trigger PhonesDiffer(t, u, v)} :: u in t.users && v in t.users ==> PhonesDiffer(t, u, v))
  }

  ghost predicate GoodStep(t: Tables, t': Tables) {
    TablesOk(t') && Evolves(t, t')
  }

  lemma ProvenStable(t: Tables, t': Tables, phone: string)
    requires Proven(t, phone) && Evolves(t, t')
    ensures Proven(t', phone)
  {
    var o :| UsedOtp(t, o, phone);
    assert OtpKept(t, t', o) && UsedOtp(t', o, phone);
  }

  lemma NothingChanges(t: Tables)
    requires TablesOk(t)
    ensures GoodStep(t, t)
  {
  }

  lemma InsertOtpOk(t: Tables, otp: Otp)
    requires TablesOk(t) && Phone.Canonical(otp.phone) && otp.maxAttempts == REGISTER_OTP_MAX_ATTEMPTS
    ensures GoodStep(t, InsertOtp(t, otp))
  {
    var t' := InsertOtp(t, otp);
    assert Evolves(t, t');
    OtpChangeOk(t, t');
  }

  /** A step that touches only OTP rows. */
  lemma OtpChangeOk(t: Tables, t': Tables)
    requires TablesOk(t) && Evolves(t, t') && t'.users == t.users && t'.tokens == t.tokens
    requires forall o :: o in t'.otps && o !in t.otps ==> OtpOk(t', o)
    ensures GoodStep(t, t')
  {
    forall u | u in t'.users ensures UserOk(t', u) {
      assert UserOk(t, u);
      ProvenStable(t, t', t.users[u].phone);
    }
    forall o | o in t'.otps ensures OtpOk(t', o) {
      if o in t.otps { assert OtpOk(t, o) && OtpKept(t, t', o); }
    }
    forall h | h in t'.tokens ensures TokenOk(t', h) {
      assert TokenOk(t, h);
    }
    forall u, v | u in t'.users && v in t'.users ensures PhonesDiffer(t', u, v) {
      assert PhonesDiffer(t, u, v);
    }
  }

  /** A step that touches only token rows. */
  lemma TokenChangeOk(t: Tables, t': Tables)
    requires TablesOk(t) && Evolves(t, t') && t'.users == t.users && t'.otps == t.otps
    requires forall h :: h in t'.tokens && h !in t.tokens ==> TokenOk(t', h)
    ensures GoodStep(t, t')
  {
    forall u | u in t'.users ensures UserOk(t', u) {
      assert UserOk(t, u);
      ProvenStable(t, t', t.users[u].phone);
    }
    forall o | o in t'.otps ensures OtpOk(t', o) {
      assert OtpOk(t, o);
    }
    forall h | h in t'.tokens ensures TokenOk(t', h) {
      if h in t.tokens { assert TokenOk(t, h) && TokenKept(t, t', h); }
    }
    forall u, v | u in t'.users && v in t'.users ensures PhonesDiffer(t', u, v) {
      assert PhonesDiffer(t, u, v);
    }
  }

  lemma InsertUserOk(t: Tables, user: User, h: TokenHash, expiresAt: Time)
    requires TablesOk(t) && Proven(t, user.phone)
    ensures GoodStep(t, InsertUserWithToken(t, user, h, expiresAt).0)
  {
    var (t', r) := InsertUserWithToken(t, user, h, expiresAt);
    if r.Failure? {
      NothingChanges(t);
      return;
    }
    assert Evolves(t, t');
    ProvenStable(t, t', user.phone);
    forall u | u in t'.users ensures UserOk(t', u) {
      if u != user.id {
        assert UserOk(t, u);
        ProvenStable(t, t', t.users[u].phone);
      }
    }
    forall o | o in t'.otps ensures OtpOk(t', o) {
      assert OtpOk(t, o);
    }
    forall k | k in t'.tokens ensures TokenOk(t', k) {
      if k != h { assert TokenOk(t, k); }
    }
    forall u, v | u in t'.users && v in t'.users ensures PhonesDiffer(t', u, v) {
      if u != user.id && v != user.id { assert PhonesDiffer(t, u, v); }
    }
  }

  lemma ReplaceTokenOk(t: Tables, current: TokenHash, next: TokenHash, token: Token, now: Time)
    requires TablesOk(t)
    ensures GoodStep(t, ReplaceToken(t, current, next, token, now).0)
  {
    var t' := ReplaceToken(t, current, next, token, now).0;
    assert Evolves(t, t');
    TokenChangeOk(t, t');
  }

  // ---- the calls ----

  ghost predicate VerifyOk(t: Tables, c: VerifyCall) {
    && Phone.Canonical(c.phone)
    && (c.otp.Some? ==> c.otp.value in t.otps && t.otps[c.otp.value].phone == c.phone)
    && match c.pc
       case FindUser => c.otp.None?
       case FindOtp => c.otp.None?
       case CheckOtp(row) => c.otp == Some(row.id) && OtpEvolves(row, t.otps[row.id])
       case Increment(id) => c.otp == Some(id)
       case Use(id) => c.otp == Some(id) && t.otps[id].hash == Bcrypt(c.code)
       case Verified(outcome) =>
         outcome.Success? ==> outcome.value == c.phone && c.otp.Some? && UsedOtp(t, c.otp.value, c.phone)
                              && t.otps[c.otp.value].hash == Bcrypt(c.code)
  }

  ghost predicate CompleteOk(t: Tables, c: CompleteCall) {
    && Phone.Canonical(c.phone) && Proven(t, c.phone)
    && (c.pc.Completed? && c.pc.outcome.Success? ==>
          c.pc.outcome.value in t.users && t.users[c.pc.outcome.value].phone == c.phone)
  }

  predicate SeenToken(t: Tables, h: TokenHash, row: Token) {
    h in t.tokens && TokenEvolves(row, t.tokens[h])
  }

  predicate RefreshOk(t: Tables, origins: map<TokenHash, Origin>, k: nat, c: RefreshCall) {
    var h := Sha256(c.token);
    match c.pc
    case FindToken => true
    case CheckToken(row) => SeenToken(t, h, row)
    case FindOwner(row) => SeenToken(t, h, row)
    case Replace(row, _, _) => SeenToken(t, h, row)
    case Refreshed(outcome) =>
      outcome.Success? ==>
        var next := Sha256(outcome.value);
        next in origins && origins[next].After? && origins[next].prev == h && origins[next].call == k
  }

  ghost predicate CallOk(w: World, k: nat)
    requires k in w.calls
  {
    match w.calls[k]
    case Verify(c) => VerifyOk(w.db, c)
    case Complete(c) => CompleteOk(w.db, c)
    case Refresh(c) => RefreshOk(w.db, w.origins, k, c)
  }

  // ---- the token history ----

  /** Refresh call k replaced this token by that one. */
  predicate RotatedBy(w: World, k: nat, prev: TokenHash, next: TokenHash) {
    && k in w.calls && w.calls[k].Refresh?
    && var c := w.calls[k].refresh;
       prev == Sha256(c.token) && c.pc.Refreshed? && c.pc.outcome.Success? && next == Sha256(c.pc.outcome.value)
  }

  predicate OriginOk(w: World, h: TokenHash)
    requires h in w.db.tokens && h in w.origins
  {
    match w.origins[h]
    case First => true
    case After(prev, k, depth) =>
      && prev in w.db.tokens && !Live(w.db, prev)
      && w.db.tokens[prev].userId == w.db.tokens[h].userId
      && depth == Depth(w, prev) + 1
      && RotatedBy(w, k, prev, h)
  }

  predicate SuccessorsDiffer(w: World, h: TokenHash, h': TokenHash)
    requires h in w.origins && h' in w.origins
  {
    w.origins[h].After? && w.origins[h'].After? && w.origins[h].prev == w.origins[h'].prev ==> h == h'
  }

  predicate IsFirstOf(w: World, h: TokenHash, u: string) {
    h in w.db.tokens && w.db.tokens[h].userId == u && h in w.origins && w.origins[h].First?
  }

  ghost predicate HasFirstToken(w: World, u: string) {
    exists h :: IsFirstOf(w, h, u)
  }

  ghost predicate HistoryOk(w: World) {
    && w.origins.Keys == w.db.tokens.Keys
    && (forall h {:trigger OriginOk(w, h)} :: h in w.db.tokens ==> OriginOk(w, h))
    && (forall h, h' {:trigger SuccessorsDiffer(w, h, h')} ::
          h in w.origins && h' in w.origins ==> SuccessorsDiffer(w, h, h'))
    && (forall u {:trigger HasFirstToken(w, u)} :: u in w.db.users ==> HasFirstToken(w, u))
  }

  ghost predicate Inv(w: World) {
    && TablesOk(w.db)
    && HistoryOk(w)
    && (forall k {:trigger CallOk(w, k)} :: k in w.calls ==> CallOk(w, k))
  }

  // ---- one step ----

  lemma VerifyStepOk(t: Tables, now: Time, d: Draw, c: VerifyCall)
    requires TablesOk(t) && VerifyOk(t, c)
    ensures
      var (t', c') := VerifyStep(t, now, d, c);
      GoodStep(t, t') && VerifyOk(t', c')
  {
    var (t', c') := VerifyStep(t, now, d, c);
    NothingChanges(t);
    match c.pc
    case FindOtp =>
      if IsLatest(t, c.phone, d.id) {
        assert OtpOk(t, d.id);
      }
    case Increment(id) =>
      assert Evolves(t, t');
      OtpChangeOk(t, t');
    case Use(id) =>
      assert Evolves(t, t');
      OtpChangeOk(t, t');
    case _ =>
  }

  lemma VerifyStable(t: Tables, t': Tables, c: VerifyCall)
    requires VerifyOk(t, c) && Evolves(t, t')
    ensures VerifyOk(t', c)
  {
    if c.otp.Some? {
      assert OtpKept(t, t', c.otp.value);
    }
  }

  lemma RefreshStable(t: Tables, t': Tables, origins: map<TokenHash, Origin>, origins': map<TokenHash, Origin>, k: nat,
      c: RefreshCall)
    requires RefreshOk(t, origins, k, c) && Evolves(t, t')
    requires forall h :: h in origins ==> h in origins' && origins'[h] == origins[h]
    ensures RefreshOk(t', origins', k, c)
  {
    assert TokenKept(t, t', Sha256(c.token));
  }

  lemma NextTablesOk(w: World, a: Action)
    requires Inv(w)
    ensures GoodStep(w.db, NextTables(w, a))
  {
    NothingChanges(w.db);
    match a
    case RequestOtp(id, phone, code, clock) =>
      var p := Phone.Normalize(phone);
      if p.Some? && clock <= w.now {
        InsertOtpOk(w.db,
            Otp(id, p.value, Bcrypt(code), clock + REGISTER_OTP_TTL, 0, REGISTER_OTP_MAX_ATTEMPTS, None, w.now));
      }
    case Login(_, _, _) =>
      assert Evolves(w.db, NextTables(w, a));
      TokenChangeOk(w.db, NextTables(w, a));
    case Logout(_) =>
      assert Evolves(w.db, NextTables(w, a));
      TokenChangeOk(w.db, NextTables(w, a));
    case LogoutAll(_) =>
      assert Evolves(w.db, NextTables(w, a));
      TokenChangeOk(w.db, NextTables(w, a));
    case Continue(k, d) =>
      if k in w.calls {
        assert CallOk(w, k);
        match w.calls[k]
        case Verify(c) => VerifyStepOk(w.db, w.now, d, c);
        case Complete(c) =>
          if c.pc.InsertBoth? {
            InsertUserOk(w.db, User(d.id, c.phone, c.fullName, Bcrypt(c.password)), Sha256(c.pc.token), c.pc.expiresAt);
          }
        case Refresh(c) =>
          if c.pc.Replace? {
            ReplaceTokenOk(w.db, Sha256(c.token), Sha256(c.pc.next), Token(c.pc.row.userId, c.pc.expiresAt, None),
                w.now);
          }
      }
    case _ =>
  }

  /** Origins are only ever added, for exactly the tokens that exist. */
  lemma OriginsGrow(w: World, a: Action)
    requires Inv(w)
    ensures Next(w, a).origins.Keys == Next(w, a).db.tokens.Keys
    ensures forall h :: h in w.origins ==> h in Next(w, a).origins && Next(w, a).origins[h] == w.origins[h]
  {
    NextTablesOk(w, a);
    forall h | h in w.origins ensures h in Next(w, a).db.tokens {
      assert TokenKept(w.db, NextTables(w, a), h);
    }
  }

  lemma StartedCallOk(w: World, a: Action, k: nat)
    requires Inv(w) && k in Next(w, a).calls && k !in w.calls
    ensures CallOk(Next(w, a), k)
  {
    NextTablesOk(w, a);
    if a.BeginVerify? {
      Phone.NormalizeIdempotent(a.phone);
    } else if a.BeginComplete? {
      assert CallOk(w, a.proof);
      Phone.NormalizeIdempotent(w.calls[a.proof].verify.phone);
      assert UsedOtp(w.db, w.calls[a.proof].verify.otp.value, w.calls[a.proof].verify.phone);
    }
  }

  lemma ContinuedCallOk(w: World, k: nat, d: Draw)
    requires Inv(w) && k in w.calls
    ensures CallOk(Next(w, Continue(k, d)), k)
  {
    var w' := Next(w, Continue(k, d));
    assert CallOk(w, k);
    NextTablesOk(w, Continue(k, d));
    match w.calls[k]
    case Verify(c) => VerifyStepOk(w.db, w.now, d, c);
    case Complete(c) => ProvenStable(w.db, w'.db, c.phone);
    case Refresh(c) =>
      if c.pc.Replace? {
        assert TokenKept(w.db, w'.db, Sha256(c.token));
      }
  }

  lemma OtherCallOk(w: World, a: Action, k: nat)
    requires Inv(w) && k in w.calls && Next(w, a).calls[k] == w.calls[k]
    ensures CallOk(Next(w, a), k)
  {
    assert CallOk(w, k);
    NextTablesOk(w, a);
    OriginsGrow(w, a);
    match w.calls[k]
    case Verify(c) => VerifyStable(w.db, NextTables(w, a), c);
    case Complete(c) =>
      ProvenStable(w.db, NextTables(w, a), c.phone);
      if c.pc.Completed? && c.pc.outcome.Success? {
        assert UserKept(w.db, NextTables(w, a), c.pc.outcome.value);
      }
    case Refresh(c) => RefreshStable(w.db, NextTables(w, a), w.origins, NextOrigins(w, a), k, c);
  }

  lemma NextCallOk(w: World, a: Action, k: nat)
    requires Inv(w) && k in Next(w, a).calls
    ensures CallOk(Next(w, a), k)
  {
    if k !in w.calls {
      StartedCallOk(w, a, k);
    } else if a.Continue? && a.call == k {
      ContinuedCallOk(w, k, a.draw);
    } else {
      OtherCallOk(w, a, k);
    }
  }

  /** A returned call never changes its answer. */
  lemma AnswersStay(w: World, a: Action, k: nat, prev: TokenHash, next: TokenHash)
    requires RotatedBy(w, k, prev, next)
    ensures RotatedBy(Next(w, a), k, prev, next)
  {
  }

  lemma NextOriginOk(w: World, a: Action, h: TokenHash)
    requires Inv(w) && h in Next(w, a).db.tokens
    ensures h in Next(w, a).origins && OriginOk(Next(w, a), h)
  {
    var w' := Next(w, a);
    NextTablesOk(w, a);
    OriginsGrow(w, a);
    if h in w.db.tokens {
      assert OriginOk(w, h) && TokenKept(w.db, w'.db, h);
      if w.origins[h].After? {
        assert TokenKept(w.db, w'.db, w.origins[h].prev);
        AnswersStay(w, a, w.origins[h].call, w.origins[h].prev, h);
      }
    } else if w'.origins[h].After? {
      assert CallOk(w, a.call);
    }
  }

  lemma NextSuccessorsDiffer(w: World, a: Action, h: TokenHash, h': TokenHash)
    requires Inv(w) && h in Next(w, a).origins && h' in Next(w, a).origins
    ensures SuccessorsDiffer(Next(w, a), h, h')
  {
    OriginsGrow(w, a);
    if h in w.origins {
      assert OriginOk(w, h);
    }
    if h' in w.origins {
      assert OriginOk(w, h');
    }
    if h in w.origins && h' in w.origins {
      assert SuccessorsDiffer(w, h, h');
    }
  }

  lemma NextHasFirstToken(w: World, a: Action, u: string)
    requires Inv(w) && u in Next(w, a).db.users
    ensures HasFirstToken(Next(w, a), u)
  {
    var w' := Next(w, a);
    NextTablesOk(w, a);
    OriginsGrow(w, a);
    if u in w.db.users {
      assert HasFirstToken(w, u);
      var h :| IsFirstOf(w, h, u);
      assert TokenKept(w.db, w'.db, h);
      assert IsFirstOf(w', h, u);
    } else {
      var h := Sha256(w.calls[a.call].complete.pc.token);
      assert IsFirstOf(w', h, u);
    }
  }

  lemma InvNext(w: World, a: Action)
    requires Inv(w)
    ensures Inv(Next(w, a))
  {
    var w' := Next(w, a);
    NextTablesOk(w, a);
    OriginsGrow(w, a);
    forall k | k in w'.calls ensures CallOk(w', k) { NextCallOk(w, a, k); }
    forall h | h in w'.db.tokens ensures OriginOk(w', h) { NextOriginOk(w, a, h); }
    forall h, h' | h in w'.origins && h' in w'.origins ensures SuccessorsDiffer(w', h, h') {
      NextSuccessorsDiffer(w, a, h, h');
    }
    forall u | u in w'.db.users ensures HasFirstToken(w', u) { NextHasFirstToken(w, a, u); }
  }

  lemma {:induction false} InvAlways(run: seq<Action>)
    ensures Inv(Exec(run))
  {
    if run != [] {
      InvAlways(Front(run));
      InvNext(Exec(Front(run)), Last(run));
    }
  }

  /** w is the state after some run. */
  ghost predicate Reachable(w: World) {
    exists run :: Exec(run) == w
  }

  lemma ReachableIsOk(w: World)
    requires Reachable(w)
    ensures Inv(w)
  {
    var run :| Exec(run) == w;
    InvAlways(run);
  }
}
