/** Refresh-token chains: what holds over whole runs, whatever the interleaving. */
module RefreshTheorems {
  import opened Base
  import opened AuthTables
  import opened AuthMachine
  import opened AuthInvariant

  /** Of any number of refresh calls with one token, at most one succeeds. */
  lemma OneRefreshSucceeds(run: seq<Action>, j: nat, k: nat, token: TokenHash, next: TokenHash, next': TokenHash)
    requires RotatedBy(Exec(run), j, token, next) && RotatedBy(Exec(run), k, token, next')
    ensures j == k && next == next'
  {
    var w := Exec(run);
    InvAlways(run);
    assert CallOk(w, j) && CallOk(w, k);
    assert SuccessorsDiffer(w, next, next');
  }

  /** The token the call replaced is dead, the one it returned belongs to the same user. */
  lemma {:induction false} RefreshMovesOwnership(run: seq<Action>, k: nat, token: TokenHash, next: TokenHash)
    requires RotatedBy(Exec(run), k, token, next)
    ensures
      var t := Exec(run).db;
      token in t.tokens && next in t.tokens && !Live(t, token) && t.tokens[token].userId == t.tokens[next].userId
  {
    var w := Exec(run);
    InvAlways(run);
    assert CallOk(w, k) && OriginOk(w, next);
  }

  // ---- chains ----

  /** The token n replacements before h in its chain. */
  function Ancestor(w: World, h: TokenHash, n: nat): TokenHash
    decreases n
  {
    if n == 0 || h !in w.origins || w.origins[h].First? then h else Ancestor(w, w.origins[h].prev, n - 1)
  }

  /** The login or registration token that h descends from. */
  function Root(w: World, h: TokenHash): TokenHash {
    Ancestor(w, h, Depth(w, h))
  }

  lemma {:induction false} RootIsFirst(w: World, h: TokenHash)
    requires Inv(w) && h in w.db.tokens
    ensures Root(w, h) in w.db.tokens && w.origins[Root(w, h)].First?
    ensures w.db.tokens[Root(w, h)].userId == w.db.tokens[h].userId
    decreases Depth(w, h)
  {
    assert OriginOk(w, h);
    if w.origins[h].After? {
      RootIsFirst(w, w.origins[h].prev);
    }
  }

  /** A chain does not fork: its root and the position determine the token. */
  lemma {:induction false} PositionDetermines(w: World, h: TokenHash, h': TokenHash)
    requires Inv(w) && h in w.db.tokens && h' in w.db.tokens
    requires Root(w, h) == Root(w, h') && Depth(w, h) == Depth(w, h')
    ensures h == h'
    decreases Depth(w, h)
  {
    assert OriginOk(w, h) && OriginOk(w, h');
    if w.origins[h].After? {
      PositionDetermines(w, w.origins[h].prev, w.origins[h'].prev);
      assert SuccessorsDiffer(w, h, h');
    }
  }

  /** Every token strictly before the last one of its chain is revoked. */
  lemma {:induction false} EarlierPositions(w: World, h: TokenHash, d: nat)
    requires Inv(w) && h in w.db.tokens && d < Depth(w, h)
    ensures
      var a := Ancestor(w, h, Depth(w, h) - d);
      a in w.db.tokens && !Live(w.db, a) && Depth(w, a) == d && Root(w, a) == Root(w, h)
    decreases Depth(w, h)
  {
    assert OriginOk(w, h);
    var prev := w.origins[h].prev;
    if d < Depth(w, prev) {
      EarlierPositions(w, prev, d);
    }
  }

  lemma SameChain(w: World, h: TokenHash, h': TokenHash)
    requires Inv(w) && h in w.db.tokens && h' in w.db.tokens
    requires Root(w, h) == Root(w, h') && Depth(w, h) <= Depth(w, h')
    ensures h == Ancestor(w, h', Depth(w, h') - Depth(w, h))
    ensures h != h' ==> !Live(w.db, h)
  {
    if Depth(w, h) < Depth(w, h') {
      EarlierPositions(w, h', Depth(w, h));
      PositionDetermines(w, h, Ancestor(w, h', Depth(w, h') - Depth(w, h)));
    } else {
      PositionDetermines(w, h, h');
    }
  }

  /** Two tokens with one root are on one path: the earlier is an ancestor of the
      later, so only the last token of a path can be live; and one user owns them all. */
  lemma ChainsArePaths(w: World, h: TokenHash, h': TokenHash)
    requires Reachable(w) && h in w.db.tokens && h' in w.db.tokens
    requires Root(w, h) == Root(w, h') && Depth(w, h) <= Depth(w, h')
    ensures h == Ancestor(w, h', Depth(w, h') - Depth(w, h))
    ensures h != h' ==> !Live(w.db, h)
    ensures w.db.tokens[h].userId == w.db.tokens[h'].userId
  {
    ReachableIsOk(w);
    SameChain(w, h, h');
    RootIsFirst(w, h);
    RootIsFirst(w, h');
  }

  /** So one login or registration never has two usable refresh tokens. */
  lemma OneLiveTokenPerChain(w: World, h: TokenHash, h': TokenHash)
    requires Reachable(w) && Live(w.db, h) && Live(w.db, h') && Root(w, h) == Root(w, h')
    ensures h == h'
  {
    ReachableIsOk(w);
    if Depth(w, h) <= Depth(w, h') {
      SameChain(w, h, h');
    } else {
      SameChain(w, h', h);
    }
  }

  // ---- conservation of live sessions ----

  function LiveTokens(t: Tables, u: string): set<TokenHash> {
    set h | h in t.tokens && Live(t, h) && t.tokens[h].userId == u
  }

  /** The step is a login of u, or the insertion that registers u. */
  predicate Opens(w: World, a: Action, u: string) {
    || (a.Login? && a.userId == u && a.clock <= w.now && CanInsertToken(w.db, Sha256(a.token), Token(u, 0, None)))
    || (a.Continue? && a.draw.id == u && Registers(w, a))
  }

  predicate Registers(w: World, a: Action) {
    && a.Continue? && a.call in w.calls && w.calls[a.call].Complete? && w.calls[a.call].complete.pc.InsertBoth?
    && a.draw.id !in w.db.users
    && !HasPhone(w.db, w.calls[a.call].complete.phone)
    && Sha256(w.calls[a.call].complete.pc.token) !in w.db.tokens
  }

  /** How many live tokens of u the step revokes outright, by Logout or LogoutAll. */
  function Closes(w: World, a: Action, u: string): nat {
    match a
    case Logout(token) => if Sha256(token) in LiveTokens(w.db, u) then 1 else 0
    case LogoutAll(v) => if u == v then |LiveTokens(w.db, u)| else 0
    case _ => 0
  }

  ghost function Opened(run: seq<Action>, u: string): nat {
    if run == [] then 0
    else Opened(Front(run), u) + if Opens(Exec(Front(run)), Last(run), u) then 1 else 0
  }

  ghost function Closed(run: seq<Action>, u: string): nat {
    if run == [] then 0 else Closed(Front(run), u) + Closes(Exec(Front(run)), Last(run), u)
  }

  lemma OneMore<T>(s: set<T>, s': set<T>, x: T)
    requires x !in s && s' == s + {x}
    ensures |s'| == |s| + 1
  {
  }

  lemma OneLess<T>(s: set<T>, s': set<T>, x: T)
    requires x in s && s' == s - {x}
    ensures |s'| + 1 == |s|
  {
  }

  lemma SameTokens(t: Tables, t': Tables, u: string)
    requires t'.tokens == t.tokens
    ensures |LiveTokens(t', u)| == |LiveTokens(t, u)|
  {
    assert LiveTokens(t', u) == LiveTokens(t, u);
  }

  lemma AddedToken(t: Tables, t': Tables, h: TokenHash, token: Token, u: string)
    requires h !in t.tokens && t'.tokens == t.tokens[h := token] && token.revokedAt.None?
    ensures |LiveTokens(t', u)| == |LiveTokens(t, u)| + if token.userId == u then 1 else 0
  {
    if token.userId == u {
      OneMore(LiveTokens(t, u), LiveTokens(t', u), h);
    } else {
      assert LiveTokens(t', u) == LiveTokens(t, u);
    }
  }

  lemma RevokedOne(t: Tables, h: TokenHash, now: Time, u: string)
    ensures |LiveTokens(RevokeToken(t, h, now), u)| + (if h in LiveTokens(t, u) then 1 else 0) == |LiveTokens(t, u)|
  {
    var t' := RevokeToken(t, h, now);
    if h in LiveTokens(t, u) {
      OneLess(LiveTokens(t, u), LiveTokens(t', u), h);
    } else {
      assert LiveTokens(t', u) == LiveTokens(t, u);
    }
  }

  lemma RevokedAll(t: Tables, v: string, now: Time, u: string)
    ensures LiveTokens(RevokeAll(t, v, now), u) == if u == v then {} else LiveTokens(t, u)
  {
  }

  /** A rotation keeps the number of a user's live tokens. */
  lemma ReplaceConserves(t: Tables, current: TokenHash, next: TokenHash, token: Token, now: Time, u: string)
    requires Live(t, current) ==> t.tokens[current].userId == token.userId
    requires token.revokedAt.None?
    ensures |LiveTokens(ReplaceToken(t, current, next, token, now).0, u)| == |LiveTokens(t, u)|
  {
    if ReplaceToken(t, current, next, token, now).1.Success? {
      var mid := RevokeToken(t, current, now);
      RevokedOne(t, current, now, u);
      AddedToken(mid, InsertToken(mid, next, token), next, token, u);
    }
  }

  lemma StepConserves(w: World, a: Action, u: string)
    requires Inv(w)
    ensures |LiveTokens(Next(w, a).db, u)| + Closes(w, a, u) == |LiveTokens(w.db, u)| + if Opens(w, a, u) then 1 else 0
  {
    var t, t' := w.db, NextTables(w, a);
    if a.Login? && t' != t {
      AddedToken(t, t', Sha256(a.token), Token(a.userId, a.clock + REFRESH_TOKEN_TTL, None), u);
    } else if a.Logout? {
      RevokedOne(t, Sha256(a.token), w.now, u);
    } else if a.LogoutAll? {
      RevokedAll(t, a.userId, w.now, u);
    } else if a.Continue? && a.call in w.calls {
      CallConserves(w, a, u);
    } else {
      SameTokens(t, t', u);
    }
  }

  lemma CallConserves(w: World, a: Action, u: string)
    requires Inv(w) && a.Continue? && a.call in w.calls
    ensures |LiveTokens(NextTables(w, a), u)| == |LiveTokens(w.db, u)| + if Opens(w, a, u) then 1 else 0
  {
    var t, t' := w.db, NextTables(w, a);
    assert CallOk(w, a.call);
    if Registers(w, a) {
      var pc := w.calls[a.call].complete.pc;
      AddedToken(t, t', Sha256(pc.token), Token(a.draw.id, pc.expiresAt, None), u);
    } else if w.calls[a.call].Refresh? && w.calls[a.call].refresh.pc.Replace? {
      var c := w.calls[a.call].refresh;
      ReplaceConserves(t, Sha256(c.token), Sha256(c.pc.next), Token(c.pc.row.userId, c.pc.expiresAt, None), w.now, u);
    } else {
      SameTokens(t, t', u);
    }
  }

  /** Over every run, a user's live tokens are the logins and registrations minus the revocations. */
  lemma {:induction false} LiveSessionsAreConserved(run: seq<Action>, u: string)
    ensures |LiveTokens(Exec(run).db, u)| + Closed(run, u) == Opened(run, u)
  {
    if run != [] {
      LiveSessionsAreConserved(Front(run), u);
      InvAlways(Front(run));
      StepConserves(Exec(Front(run)), Last(run), u);
    }
  }

  // ---- LogoutAll ----

  lemma {:induction false} AncestorStable(w: World, a: Action, h: TokenHash, n: nat)
    requires Inv(w) && h in w.db.tokens
    ensures Ancestor(Next(w, a), h, n) == Ancestor(w, h, n)
    decreases n
  {
    OriginsGrow(w, a);
    assert OriginOk(w, h);
    if n > 0 && w.origins[h].After? {
      AncestorStable(w, a, w.origins[h].prev, n - 1);
    }
  }

  lemma RootStable(w: World, a: Action, h: TokenHash)
    requires Inv(w) && h in w.db.tokens
    ensures Root(Next(w, a), h) == Root(w, h)
  {
    OriginsGrow(w, a);
    AncestorStable(w, a, h, Depth(w, h));
  }

  /** A token that the step creates starts a new chain or continues one that was live. */
  lemma NewTokens(w: World, a: Action, h: TokenHash)
    requires Inv(w) && h in Next(w, a).db.tokens && h !in w.db.tokens
    ensures
      var w' := Next(w, a);
      h in w'.origins &&
      if w'.origins[h].First? then Root(w', h) == h
      else
        var prev := w'.origins[h].prev;
        && Live(w.db, prev) && w'.db.tokens[h].userId == w.db.tokens[prev].userId
        && Root(w', h) == Root(w, prev)
  {
    OriginsGrow(w, a);
    NextOriginOk(w, a, h);
    if Next(w, a).origins[h].After? {
      RootStable(w, a, Next(w, a).origins[h].prev);
    }
  }

  /** After LogoutAll(u) no chain of u that was started before is live again, even
      through a refresh call that had already read its row. */
  lemma {:induction false} LogoutAllIsFinal(run: seq<Action>, i: nat, u: string, h: TokenHash)
    requires i < |run| && run[i] == LogoutAll(u)
    requires Live(Exec(run).db, h) && Exec(run).db.tokens[h].userId == u
    ensures Root(Exec(run), h) !in Exec(run[..i]).db.tokens
  {
    var w, a := Exec(Front(run)), Last(run);
    InvAlways(Front(run));
    if i < |run| - 1 {
      assert Front(run)[..i] == run[..i];
      if h in w.db.tokens {
        NextTablesOk(w, a);
        assert TokenKept(w.db, Next(w, a).db, h);
        LogoutAllIsFinal(Front(run), i, u, h);
        RootStable(w, a, h);
      } else {
        NewTokens(w, a, h);
        if Next(w, a).origins[h].After? {
          LogoutAllIsFinal(Front(run), i, u, Next(w, a).origins[h].prev);
        } else if h in Exec(run[..i]).db.tokens {
          TokensStay(Front(run), i, h);
        }
      }
    }
  }

  lemma {:induction false} TokensStay(run: seq<Action>, i: nat, h: TokenHash)
    requires i <= |run| && h in Exec(run[..i]).db.tokens
    ensures h in Exec(run).db.tokens
  {
    if i == |run| {
      assert run[..i] == run;
    } else {
      assert Front(run)[..i] == run[..i];
      TokensStay(Front(run), i, h);
      InvAlways(Front(run));
      NextTablesOk(Exec(Front(run)), Last(run));
      assert TokenKept(Exec(Front(run)).db, Exec(run).db, h);
    }
  }
}
