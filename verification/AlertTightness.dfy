/** The bound on the density of alerts under overlap is exact: for every n and every
    number of rounds there is a run with at most n overlapping deliveries in which each
    round stores n alerts with one time, just over the window after the round before. */
module AlertTightness {
  import opened Base
  import opened Alerts
  import opened AlertMachine
  import opened AlertOverlap
  import Text

  /** Any agent, owner and normalised type, and the time of the first round. */
  datatype Setup = Setup(id: string, owner: string, kind: string, start: Time)

  predicate Good(s: Setup) {
    && s.id != "" && Text.Trim(s.id) == s.id && Text.Trim(s.owner) != ""
    && s.kind != "" && NormalizeAlertType(s.kind) == s.kind
  }

  function KeyIn(s: Setup): Key {
    Key(s.id, s.kind)
  }

  function At(s: Setup, at: Time, owner: string, pc: AlertPc): AlertCall {
    AlertCall(s.id, s.kind, Some(at), owner, pc)
  }

  /** A delivery whose query found nothing. */
  function Waiting(s: Setup, at: Time): AlertCall {
    At(s, at, s.owner, Save(at))
  }

  /** The agent is there, and calls are numbered below m. */
  predicate Stage(w: World, s: Setup, m: nat) {
    s.id in w.store.agents && w.store.agents[s.id] == s.owner && forall k :: k in w.calls ==> k < m
  }

  predicate Before(w: World, s: Setup, at: Time) {
    forall a :: a in w.store.alerts && KeyOf(a) == KeyIn(s) ==> a.at + DUPLICATE_ALERT_WINDOW < at
  }

  /** The step moves call m to c and changes nothing else. */
  predicate Moves(w: World, w': World, m: nat, c: AlertCall) {
    w'.store == w.store && w'.calls == w.calls[m := c]
  }

  // ---- the three steps that bring a delivery to its save ----

  lemma Starts(w: World, s: Setup, m: nat, at: Time)
    requires Good(s) && Stage(w, s, m)
    ensures Moves(w, Next(w, Begin(m, Message(s.id, s.kind, Some(at)))), m, At(s, at, "", LookUp))
  {
  }

  lemma FindsAgent(w: World, s: Setup, m: nat, at: Time)
    requires Good(s) && Stage(w, s, m + 1) && m in w.calls && w.calls[m] == At(s, at, "", LookUp)
    ensures Moves(w, Next(w, Continue(m, 0)), m, At(s, at, s.owner, Query))
  {
  }

  lemma FindsNothing(w: World, s: Setup, m: nat, at: Time)
    requires Before(w, s, at) && m in w.calls && w.calls[m] == At(s, at, s.owner, Query)
    ensures Moves(w, Next(w, Continue(m, 0)), m, Waiting(s, at))
  {
    FindRecentMeans(w.store.alerts, s.id, s.kind, at - DUPLICATE_ALERT_WINDOW);
  }

  // ---- runs ----

  lemma Extend(run: seq<Action>, a: Action, key: Key, n: nat)
    requires Overlap(run, key, n) && |Window(Next(Exec(run), a), key)| <= n
    ensures Overlap(run + [a], key, n) && Exec(run + [a]) == Next(Exec(run), a)
  {
    assert Front(run + [a]) == run;
    forall i | 0 <= i <= |run + [a]| ensures |Window(Exec((run + [a])[..i]), key)| <= n {
      if i <= |run| {
        assert (run + [a])[..i] == run[..i];
      } else {
        assert (run + [a])[..i] == run + [a];
      }
    }
  }

  /** What one call's move means for the window. */
  lemma OneCallChanges(w: World, w': World, k: nat, key: Key)
    requires k in w'.calls && w'.calls == w.calls[k := w'.calls[k]]
    ensures |Window(w', key)| + (if k in Window(w, key) then 1 else 0)
        == |Window(w, key)| + (if k in Window(w', key) then 1 else 0)
  {
    forall j | j != k ensures (j in w'.calls <==> j in w.calls) && (j in w.calls ==> w'.calls[j] == w.calls[j]) {}
    assert Window(w', key) - {k} == Window(w, key) - {k};
    SetAfter(Window(w, key), Window(w', key), k);
  }

  lemma {:induction false} MoveRun(run: seq<Action>, a: Action, m: nat, c: AlertCall, key: Key, n: nat)
    requires Overlap(run, key, n) && Moves(Exec(run), Next(Exec(run), a), m, c)
    requires |Window(Exec(run), key)| < n && m !in Window(Exec(run), key)
    ensures Overlap(run + [a], key, n) && Moves(Exec(run), Exec(run + [a]), m, c)
    ensures |Window(Exec(run + [a]), key)| == |Window(Exec(run), key)| + if InWindow(c, key) then 1 else 0
  {
    OneCallChanges(Exec(run), Next(Exec(run), a), m, key);
    Extend(run, a, key, n);
  }

  lemma MovesTwice(w: World, w1: World, w2: World, m: nat, c1: AlertCall, c2: AlertCall, s: Setup, at: Time)
    requires Moves(w, w1, m, c1) && Moves(w1, w2, m, c2) && (Stage(w, s, m) || Stage(w, s, m + 1)) && Before(w, s, at)
    ensures Moves(w, w2, m, c2) && Stage(w2, s, m + 1) && Before(w2, s, at)
  {
  }

  /** One more delivery looks up, queries, and waits. */
  lemma {:induction false} Enter(run: seq<Action>, s: Setup, m: nat, at: Time, n: nat) returns (run': seq<Action>)
    requires Good(s) && Overlap(run, KeyIn(s), n) && Stage(Exec(run), s, m) && Before(Exec(run), s, at)
    requires |Window(Exec(run), KeyIn(s))| < n
    ensures Overlap(run', KeyIn(s), n) && Moves(Exec(run), Exec(run'), m, Waiting(s, at)) && Stage(Exec(run'), s, m + 1)
    ensures |Window(Exec(run'), KeyIn(s))| == |Window(Exec(run), KeyIn(s))| + 1
  {
    var begun, found := At(s, at, "", LookUp), At(s, at, s.owner, Query);
    Starts(Exec(run), s, m, at);
    var a := Begin(m, Message(s.id, s.kind, Some(at)));
    MoveRun(run, a, m, begun, KeyIn(s), n);
    var run1 := run + [a];
    FindsAgent(Exec(run1), s, m, at);
    MoveRun(run1, Continue(m, 0), m, found, KeyIn(s), n);
    var run2 := run1 + [Continue(m, 0)];
    MovesTwice(Exec(run), Exec(run1), Exec(run2), m, begun, found, s, at);
    FindsNothing(Exec(run2), s, m, at);
    MoveRun(run2, Continue(m, 0), m, Waiting(s, at), KeyIn(s), n);
    run' := run2 + [Continue(m, 0)];
    MovesTwice(Exec(run), Exec(run2), Exec(run'), m, found, Waiting(s, at), s, at);
  }

  /** Calls first to first + j - 1 all wait. */
  predicate AllWaiting(w: World, s: Setup, at: Time, first: nat, j: nat) {
    forall k :: first <= k < first + j ==> k in w.calls && w.calls[k] == Waiting(s, at)
  }

  lemma WaitingGrows(w: World, w': World, s: Setup, at: Time, first: nat, j: nat)
    requires AllWaiting(w, s, at, first, j) && Moves(w, w', first + j, Waiting(s, at))
    ensures AllWaiting(w', s, at, first, j + 1)
  {
  }

  lemma {:induction false} EnterMany(run: seq<Action>, s: Setup, m: nat, at: Time, j: nat, n: nat)
    returns (run': seq<Action>)
    requires Good(s) && Overlap(run, KeyIn(s), n) && Stage(Exec(run), s, m) && Before(Exec(run), s, at)
    requires |Window(Exec(run), KeyIn(s))| + j <= n
    ensures Overlap(run', KeyIn(s), n) && Stage(Exec(run'), s, m + j) && Exec(run').store == Exec(run).store
    ensures AllWaiting(Exec(run'), s, at, m, j)
    ensures |Window(Exec(run'), KeyIn(s))| == |Window(Exec(run), KeyIn(s))| + j
    decreases j
  {
    if j == 0 {
      run' := run;
    } else {
      var most := EnterMany(run, s, m, at, j - 1, n);
      assert Before(Exec(most), s, at);
      run' := Enter(most, s, m + j - 1, at, n);
      WaitingGrows(Exec(most), Exec(run'), s, at, m, j - 1);
    }
  }

  /** A waiting delivery saves its alert, although others of the same time may be stored. */
  lemma {:induction false} Leave(run: seq<Action>, s: Setup, m: nat, at: Time, k: nat, n: nat)
    returns (run': seq<Action>)
    requires Overlap(run, KeyIn(s), n) && Stage(Exec(run), s, m)
    requires k in Exec(run).calls && Exec(run).calls[k] == Waiting(s, at)
    ensures Overlap(run', KeyIn(s), n) && Stage(Exec(run'), s, m) && k in Exec(run').calls
    ensures Exec(run').calls == Exec(run).calls[k := Exec(run').calls[k]]
    ensures |Window(Exec(run'), KeyIn(s))| + 1 == |Window(Exec(run), KeyIn(s))|
    ensures Exec(run').store.alerts == Exec(run).store.alerts + [Alert(k, s.id, s.kind, at)]
  {
    var w := Exec(run);
    OneCallChanges(w, Next(w, Continue(k, 0)), k, KeyIn(s));
    assert run[..|run|] == run;
    Extend(run, Continue(k, 0), KeyIn(s), n);
    run' := run + [Continue(k, 0)];
  }

  /** The rows of the key all lie within [start, last], and there are m of them. */
  ghost predicate Holds(w: World, s: Setup, last: Time, m: nat) {
    && |RowsOf(w.store.alerts, KeyIn(s))| == m
    && forall a :: a in w.store.alerts && KeyOf(a) == KeyIn(s) ==> s.start <= a.at <= last
  }

  lemma {:induction false} LeaveMany(run: seq<Action>, s: Setup, m: nat, at: Time, first: nat, j: nat, n: nat,
      rows: nat)
    returns (run': seq<Action>)
    requires Overlap(run, KeyIn(s), n) && Stage(Exec(run), s, m) && AllWaiting(Exec(run), s, at, first, j)
    requires Holds(Exec(run), s, at, rows) && s.start <= at
    ensures Overlap(run', KeyIn(s), n) && Stage(Exec(run'), s, m) && Holds(Exec(run'), s, at, rows + j)
    ensures |Window(Exec(run'), KeyIn(s))| + j == |Window(Exec(run), KeyIn(s))|
    decreases j
  {
    if j == 0 {
      run' := run;
    } else {
      var next := Leave(run, s, m, at, first, n);
      RowsAfterSave(Exec(run).store.alerts, Alert(first, s.id, s.kind, at), KeyIn(s));
      run' := LeaveMany(next, s, m, at, first + 1, j - 1, n, rows + 1);
    }
  }

  // ---- rounds ----

  /** Just over the window after the round before. */
  function TimeOf(start: Time, round: nat): Time {
    if round == 0 then start else TimeOf(start, round - 1) + LEAST_GAP
  }

  function RowsAfterRounds(n: nat, rounds: nat): nat {
    if rounds == 0 then 0 else RowsAfterRounds(n, rounds - 1) + n
  }

  lemma {:induction false} RoundsInNumbers(start: Time, n: nat, rounds: nat)
    ensures RowsAfterRounds(n, rounds) == n * rounds
    ensures TimeOf(start, rounds) == start + rounds * LEAST_GAP
  {
    if rounds > 0 {
      RoundsInNumbers(start, n, rounds - 1);
      assert n * rounds == n * (rounds - 1) + n;
    }
  }

  lemma {:induction false} FirstRun(s: Setup, n: nat) returns (run: seq<Action>)
    requires Good(s)
    ensures Overlap(run, KeyIn(s), n) && Stage(Exec(run), s, 0) && Exec(run).store.alerts == []
    ensures |Window(Exec(run), KeyIn(s))| == 0
  {
    var a := AddAgent(s.id, s.owner);
    assert Window(Next(INITIAL, a), KeyIn(s)) == {};
    assert Window(INITIAL, KeyIn(s)) == {};
    Extend([], a, KeyIn(s), n);
    run := [] + [a];
  }

  /** A round may begin: it comes after all rows of the key. */
  ghost predicate Ready(w: World, s: Setup, m: nat, at: Time, rows: nat) {
    && Stage(w, s, m) && |Window(w, KeyIn(s))| == 0
    && Before(w, s, at) && Holds(w, s, at, rows) && s.start <= at
  }

  lemma {:induction false} OneRound(run: seq<Action>, s: Setup, m: nat, at: Time, n: nat, rows: nat)
    returns (run': seq<Action>)
    requires Good(s) && Overlap(run, KeyIn(s), n) && Ready(Exec(run), s, m, at, rows)
    ensures Overlap(run', KeyIn(s), n) && Stage(Exec(run'), s, m + n)
    ensures Holds(Exec(run'), s, at, rows + n) && |Window(Exec(run'), KeyIn(s))| == 0
  {
    var entered := EnterMany(run, s, m, at, n, n);
    run' := LeaveMany(entered, s, m + n, at, m, n, n, rows);
  }

  lemma {:induction false} Rounds(s: Setup, n: nat, r: nat) returns (run: seq<Action>)
    requires Good(s)
    ensures Overlap(run, KeyIn(s), n) && Stage(Exec(run), s, RowsAfterRounds(n, r + 1))
    ensures Holds(Exec(run), s, TimeOf(s.start, r), RowsAfterRounds(n, r + 1)) && |Window(Exec(run), KeyIn(s))| == 0
    decreases r
  {
    if r == 0 {
      var first := FirstRun(s, n);
      run := OneRound(first, s, 0, s.start, n, 0);
      assert RowsAfterRounds(n, 1) == n;
    } else {
      var before := Rounds(s, n, r - 1);
      var m := RowsAfterRounds(n, r);
      RoundsGoOn(s.start, r);
      run := OneRound(before, s, m, TimeOf(s.start, r), n, m);
    }
  }

  lemma {:induction false} RoundsGoOn(start: Time, round: nat)
    ensures start <= TimeOf(start, round)
  {
    if round > 0 {
      RoundsGoOn(start, round - 1);
    }
  }

  lemma {:induction false} AllWithin(rows: seq<Alert>, a: Time, b: Time)
    requires forall x :: x in rows ==> a <= x.at <= b
    ensures |TimesWithin(rows, a, b)| == |rows|
  {
    if rows != [] {
      assert rows == Front(rows) + [Last(rows)];
      AllWithin(Front(rows), a, b);
    }
  }

  lemma HeldRowsAreWithin(w: World, s: Setup, last: Time, m: nat)
    requires Holds(w, s, last, m)
    ensures |TimesWithin(RowsOf(w.store.alerts, KeyIn(s)), s.start, last)| == m
  {
    RowsOfMeans(w.store.alerts, KeyIn(s));
    AllWithin(RowsOf(w.store.alerts, KeyIn(s)), s.start, last);
  }

  /** n alerts a round for r rounds within r - 1 gaps, which is the room that the
      bound asks for: no better one holds. With r = 1 all n alerts have one time. */
  lemma {:induction false} DensityIsReached(s: Setup, n: nat, r: nat) returns (run: seq<Action>, last: Time)
    requires Good(s) && r >= 1
    ensures Overlap(run, KeyIn(s), n) && last == s.start + (r - 1) * LEAST_GAP
    ensures |TimesWithin(RowsOf(Exec(run).store.alerts, KeyIn(s)), s.start, last)| == n * r
  {
    run := Rounds(s, n, r - 1);
    last := TimeOf(s.start, r - 1);
    HeldRowsAreWithin(Exec(run), s, last, RowsAfterRounds(n, r));
    RoundsInNumbers(s.start, n, r - 1);
    RoundsInNumbers(s.start, n, r);
  }
}
