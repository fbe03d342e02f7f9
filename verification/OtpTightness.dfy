/** The bounds on overlapping verifications of one code are exact: for every n
    there is a run with at most n overlapping calls that reaches them. */
module OtpTightness {
  import opened Base
  import opened AuthTables
  import opened AuthMachine
  import opened AuthInvariant
  import opened RegistrationTheorems
  import Phone
  import Text

  /** Any phone number, any row id, and any two different codes. */
  datatype Setup = Setup(phone: string, row: string, right: string, wrong: string)

  predicate Good(s: Setup) {
    && Phone.Canonical(s.phone) && s.right != s.wrong
    && Text.Trim(s.right) == s.right && Phone.ValidOtpCode(s.right)
    && Text.Trim(s.wrong) == s.wrong && Phone.ValidOtpCode(s.wrong)
  }

  function Code(s: Setup, correct: bool): string {
    if correct then s.right else s.wrong
  }

  function Pick(s: Setup): Draw {
    Draw("", s.row)
  }

  /** One unexpired row for the phone number, nobody registered, and calls numbered below m. */
  predicate Stage(w: World, s: Setup, m: nat) {
    && w.db.users == map[] && w.db.otps.Keys == {s.row}
    && (forall k :: k in w.calls ==> k < m)
    && var row := w.db.otps[s.row];
       row.id == s.row && row.phone == s.phone && row.hash == Bcrypt(s.right) && w.now <= row.expiresAt
       && row.maxAttempts == REGISTER_OTP_MAX_ATTEMPTS
  }

  predicate Usable(w: World, s: Setup) {
    s.row in w.db.otps && w.db.otps[s.row].usedAt.None? && w.db.otps[s.row].attempts < REGISTER_OTP_MAX_ATTEMPTS
  }

  // ---- the four steps that bring a call to its verdict ----

  /** The step moves call m to c and changes nothing else. */
  predicate Moves(w: World, w': World, m: nat, c: Call) {
    w'.db == w.db && w'.now == w.now && w'.calls == w.calls[m := c]
  }

  function At(s: Setup, correct: bool, otp: Option<string>, pc: VerifyPc): Call {
    Verify(VerifyCall(s.phone, Code(s, correct), otp, pc))
  }

  /** A verification call about to write its verdict on the row. */
  function Waiting(s: Setup, correct: bool): Call {
    At(s, correct, Some(s.row), if correct then Use(s.row) else Increment(s.row))
  }

  lemma Starts(w: World, s: Setup, m: nat, correct: bool)
    requires Good(s) && Stage(w, s, m)
    ensures Moves(w, Next(w, BeginVerify(m, s.phone, Code(s, correct))), m, At(s, correct, None, FindUser))
  {
    Phone.NormalizeIdempotent(s.phone);
  }

  lemma FindsNoUser(w: World, s: Setup, m: nat, correct: bool)
    requires w.db.users == map[] && m in w.calls && w.calls[m] == At(s, correct, None, FindUser)
    ensures Moves(w, Next(w, Continue(m, Pick(s))), m, At(s, correct, None, FindOtp))
  {
  }

  lemma ReadsRow(w: World, s: Setup, m: nat, correct: bool)
    requires w.db.otps.Keys == {s.row} && w.db.otps[s.row].phone == s.phone && w.db.otps[s.row].id == s.row
    requires m in w.calls && w.calls[m] == At(s, correct, None, FindOtp)
    ensures Moves(w, Next(w, Continue(m, Pick(s))), m, At(s, correct, Some(s.row), CheckOtp(w.db.otps[s.row])))
  {
    assert IsLatest(w.db, s.phone, s.row);
  }

  lemma ReachesVerdict(w: World, s: Setup, m: nat, correct: bool)
    requires Good(s) && Stage(w, s, m + 1) && Usable(w, s)
    requires m in w.calls && w.calls[m] == At(s, correct, Some(s.row), CheckOtp(w.db.otps[s.row]))
    ensures Moves(w, Next(w, Continue(m, Pick(s))), m, Waiting(s, correct))
  {
  }

  // ---- runs ----

  lemma Extend(run: seq<Action>, a: Action, o: string, n: nat)
    requires Overlap(run, o, n) && |Window(Next(Exec(run), a), o)| <= n
    ensures Overlap(run + [a], o, n) && Exec(run + [a]) == Next(Exec(run), a)
  {
    assert Front(run + [a]) == run;
    forall i | 0 <= i <= |run + [a]| ensures |Window(Exec((run + [a])[..i]), o)| <= n {
      if i <= |run| {
        assert (run + [a])[..i] == run[..i];
      } else {
        assert (run + [a])[..i] == run + [a];
      }
    }
  }

  /** What one call's move means for the window and the winners. */
  lemma OneCallChanges(w: World, w': World, k: nat, o: string)
    requires k in w'.calls && w'.calls == w.calls[k := w'.calls[k]]
    ensures |Window(w', o)| + (if k in Window(w, o) then 1 else 0)
        == |Window(w, o)| + (if k in Window(w', o) then 1 else 0)
    ensures |Winners(w', o)| + (if k in Winners(w, o) then 1 else 0)
        == |Winners(w, o)| + (if k in Winners(w', o) then 1 else 0)
  {
    forall j | j != k ensures (j in w'.calls <==> j in w.calls) && (j in w.calls ==> w'.calls[j] == w.calls[j]) {}
    assert Window(w', o) - {k} == Window(w, o) - {k};
    assert Winners(w', o) - {k} == Winners(w, o) - {k};
    SetAfter(Window(w, o), Window(w', o), k);
    SetAfter(Winners(w, o), Winners(w', o), k);
  }

  lemma {:induction false} MoveRun(run: seq<Action>, a: Action, k: nat, c: Call, o: string, n: nat)
    returns (run': seq<Action>)
    requires Overlap(run, o, n) && Moves(Exec(run), Next(Exec(run), a), k, c)
    requires |Window(Exec(run), o)| < n
    requires k !in Window(Exec(run), o) && k !in Winners(Exec(run), o) && !RegisterToken(Next(Exec(run), a), k).Some?
    ensures Overlap(run', o, n) && Moves(Exec(run), Exec(run'), k, c)
    ensures |Window(Exec(run'), o)| == |Window(Exec(run), o)| + if InWindow(c, o) then 1 else 0
    ensures |Winners(Exec(run'), o)| == |Winners(Exec(run), o)|
  {
    OneCallChanges(Exec(run), Next(Exec(run), a), k, o);
    Extend(run, a, o, n);
    run' := run + [a];
  }

  lemma MovesTwice(w: World, w1: World, w2: World, m: nat, c1: Call, c2: Call)
    requires Moves(w, w1, m, c1) && Moves(w1, w2, m, c2)
    ensures Moves(w, w2, m, c2)
  {
  }

  lemma MoveKeepsStage(w: World, w': World, m: nat, c: Call, s: Setup)
    requires Moves(w, w', m, c) && (Stage(w, s, m) || Stage(w, s, m + 1))
    ensures Stage(w', s, m + 1) && (Usable(w, s) ==> Usable(w', s))
  {
  }

  /** A new call gets past the user lookup. */
  lemma {:induction false} Approach(run: seq<Action>, s: Setup, m: nat, correct: bool, n: nat)
    returns (run': seq<Action>)
    requires Good(s) && Overlap(run, s.row, n) && Stage(Exec(run), s, m) && |Window(Exec(run), s.row)| < n
    ensures Overlap(run', s.row, n) && Moves(Exec(run), Exec(run'), m, At(s, correct, None, FindOtp))
    ensures |Window(Exec(run'), s.row)| == |Window(Exec(run), s.row)|
    ensures |Winners(Exec(run'), s.row)| == |Winners(Exec(run), s.row)|
  {
    Starts(Exec(run), s, m, correct);
    var begun, found := At(s, correct, None, FindUser), At(s, correct, None, FindOtp);
    var run1 := MoveRun(run, BeginVerify(m, s.phone, Code(s, correct)), m, begun, s.row, n);
    FindsNoUser(Exec(run1), s, m, correct);
    run' := MoveRun(run1, Continue(m, Pick(s)), m, found, s.row, n);
    MovesTwice(Exec(run), Exec(run1), Exec(run'), m, begun, found);
  }

  /** It reads the row: from here on it is in the window. */
  lemma {:induction false} Read(run: seq<Action>, s: Setup, m: nat, correct: bool, n: nat) returns (run': seq<Action>)
    requires Overlap(run, s.row, n) && Stage(Exec(run), s, m + 1) && Usable(Exec(run), s)
    requires m in Exec(run).calls && Exec(run).calls[m] == At(s, correct, None, FindOtp)
        && |Window(Exec(run), s.row)| < n
    ensures Overlap(run', s.row, n)
    ensures Moves(Exec(run), Exec(run'), m, At(s, correct, Some(s.row), CheckOtp(Exec(run).db.otps[s.row])))
    ensures |Window(Exec(run'), s.row)| == |Window(Exec(run), s.row)| + 1
    ensures |Winners(Exec(run'), s.row)| == |Winners(Exec(run), s.row)|
  {
    ReadsRow(Exec(run), s, m, correct);
    var check := At(s, correct, Some(s.row), CheckOtp(Exec(run).db.otps[s.row]));
    run' := MoveRun(run, Continue(m, Pick(s)), m, check, s.row, n);
  }

  /** The check: the call stays in the window, about to write its verdict. */
  lemma {:induction false} Decide(run: seq<Action>, s: Setup, m: nat, correct: bool, n: nat) returns (run': seq<Action>)
    requires Good(s) && Overlap(run, s.row, n) && Stage(Exec(run), s, m + 1) && Usable(Exec(run), s)
    requires m in Exec(run).calls
        && Exec(run).calls[m] == At(s, correct, Some(s.row), CheckOtp(Exec(run).db.otps[s.row]))
    requires |Window(Exec(run), s.row)| <= n
    ensures Overlap(run', s.row, n) && Moves(Exec(run), Exec(run'), m, Waiting(s, correct))
    ensures |Window(Exec(run'), s.row)| == |Window(Exec(run), s.row)|
    ensures |Winners(Exec(run'), s.row)| == |Winners(Exec(run), s.row)|
  {
    ReachesVerdict(Exec(run), s, m, correct);
    OneCallChanges(Exec(run), Next(Exec(run), Continue(m, Pick(s))), m, s.row);
    Extend(run, Continue(m, Pick(s)), s.row, n);
    run' := run + [Continue(m, Pick(s))];
  }

  lemma {:induction false} ReadAndDecide(run: seq<Action>, s: Setup, m: nat, correct: bool, n: nat)
    returns (run': seq<Action>)
    requires Good(s) && Overlap(run, s.row, n) && Stage(Exec(run), s, m + 1) && Usable(Exec(run), s)
    requires m in Exec(run).calls && Exec(run).calls[m] == At(s, correct, None, FindOtp)
        && |Window(Exec(run), s.row)| < n
    ensures Overlap(run', s.row, n) && Moves(Exec(run), Exec(run'), m, Waiting(s, correct))
    ensures |Window(Exec(run'), s.row)| == |Window(Exec(run), s.row)| + 1
    ensures |Winners(Exec(run'), s.row)| == |Winners(Exec(run), s.row)|
  {
    var run1 := Read(run, s, m, correct, n);
    var read := At(s, correct, Some(s.row), CheckOtp(Exec(run).db.otps[s.row]));
    MoveKeepsStage(Exec(run), Exec(run1), m, read, s);
    run' := Decide(run1, s, m, correct, n);
    MovesTwice(Exec(run), Exec(run1), Exec(run'), m, read, Waiting(s, correct));
  }

  /** One more call reads the row and reaches its verdict, and waits. */
  lemma {:induction false} Enter(run: seq<Action>, s: Setup, m: nat, correct: bool, n: nat) returns (run': seq<Action>)
    requires Good(s) && Overlap(run, s.row, n) && Stage(Exec(run), s, m) && Usable(Exec(run), s)
    requires |Window(Exec(run), s.row)| < n
    ensures Overlap(run', s.row, n) && Moves(Exec(run), Exec(run'), m, Waiting(s, correct))
    ensures |Window(Exec(run'), s.row)| == |Window(Exec(run), s.row)| + 1
    ensures |Winners(Exec(run'), s.row)| == |Winners(Exec(run), s.row)|
  {
    var run1 := Approach(run, s, m, correct, n);
    var found := At(s, correct, None, FindOtp);
    MoveKeepsStage(Exec(run), Exec(run1), m, found, s);
    run' := ReadAndDecide(run1, s, m, correct, n);
    MovesTwice(Exec(run), Exec(run1), Exec(run'), m, found, Waiting(s, correct));
  }

  /** A waiting call writes its verdict. */
  lemma {:induction false} Leave(run: seq<Action>, s: Setup, m: nat, k: nat, correct: bool, n: nat)
    returns (run': seq<Action>)
    requires Overlap(run, s.row, n) && Stage(Exec(run), s, m) && k in Exec(run).calls
        && Exec(run).calls[k] == Waiting(s, correct)
    ensures Overlap(run', s.row, n) && Stage(Exec(run'), s, m) && k in Exec(run').calls
    ensures Exec(run').calls == Exec(run).calls[k := Exec(run').calls[k]]
    ensures |Window(Exec(run'), s.row)| + 1 == |Window(Exec(run), s.row)|
    ensures |Winners(Exec(run'), s.row)| == |Winners(Exec(run), s.row)| + if correct then 1 else 0
    ensures !correct ==>
      var row := Exec(run).db.otps[s.row];
      Exec(run').db.otps[s.row] == row.(attempts := row.attempts + 1)
  {
    var w := Exec(run);
    OneCallChanges(w, Next(w, Continue(k, Pick(s))), k, s.row);
    assert run[..|run|] == run;
    Extend(run, Continue(k, Pick(s)), s.row, n);
    run' := run + [Continue(k, Pick(s))];
  }

  /** Calls first to first + j - 1 all wait with the same verdict. */
  predicate AllWaiting(w: World, s: Setup, first: nat, j: nat, correct: bool) {
    forall k :: first <= k < first + j ==> k in w.calls && w.calls[k] == Waiting(s, correct)
  }

  lemma StageGrows(w: World, w': World, s: Setup, m: nat, correct: bool)
    requires Stage(w, s, m) && Moves(w, w', m, Waiting(s, correct))
    ensures Stage(w', s, m + 1)
    ensures forall first, j {:trigger AllWaiting(w', s, first, j, correct)} ::
      0 <= first && 0 < j && first + j == m + 1 && AllWaiting(w, s, first, j - 1, correct) ==>
        AllWaiting(w', s, first, j, correct)
  {
  }

  lemma {:induction false} EnterMany(run: seq<Action>, s: Setup, m: nat, j: nat, correct: bool, n: nat)
    returns (run': seq<Action>)
    requires Good(s) && Overlap(run, s.row, n) && Stage(Exec(run), s, m) && Usable(Exec(run), s)
    requires |Window(Exec(run), s.row)| + j <= n
    ensures Overlap(run', s.row, n) && Stage(Exec(run'), s, m + j) && Exec(run').db == Exec(run).db
    ensures AllWaiting(Exec(run'), s, m, j, correct)
    ensures |Window(Exec(run'), s.row)| == |Window(Exec(run), s.row)| + j
    ensures |Winners(Exec(run'), s.row)| == |Winners(Exec(run), s.row)|
    decreases j
  {
    if j == 0 {
      run' := run;
    } else {
      var most := EnterMany(run, s, m, j - 1, correct, n);
      run' := Enter(most, s, m + j - 1, correct, n);
      StageGrows(Exec(most), Exec(run'), s, m + j - 1, correct);
    }
  }

  lemma {:induction false} LeaveMany(run: seq<Action>, s: Setup, m: nat, first: nat, j: nat, correct: bool, n: nat)
    returns (run': seq<Action>)
    requires Overlap(run, s.row, n) && Stage(Exec(run), s, m)
    requires AllWaiting(Exec(run), s, first, j, correct)
    ensures Overlap(run', s.row, n) && Stage(Exec(run'), s, m)
    ensures |Winners(Exec(run'), s.row)| == |Winners(Exec(run), s.row)| + if correct then j else 0
    ensures !correct ==> Exec(run').db.otps[s.row].attempts == Exec(run).db.otps[s.row].attempts + j
    decreases j
  {
    if j == 0 {
      run' := run;
    } else {
      var next := Leave(run, s, m, first, correct, n);
      run' := LeaveMany(next, s, m, first + 1, j - 1, correct, n);
    }
  }

  lemma FirstRow(s: Setup)
    requires Good(s)
    ensures
      var w := Next(INITIAL, RequestOtp(s.row, s.phone, s.right, 0));
      Stage(w, s, 0) && Usable(w, s) && w.db.otps[s.row].attempts == 0 && w.calls == map[]
  {
    Phone.NormalizeIdempotent(s.phone);
  }

  lemma {:induction false} Request(s: Setup, n: nat) returns (run: seq<Action>)
    requires Good(s)
    ensures Overlap(run, s.row, n) && Stage(Exec(run), s, 0) && Usable(Exec(run), s)
    ensures Exec(run).db.otps[s.row].attempts == 0 && |Window(Exec(run), s.row)| == 0
        && |Winners(Exec(run), s.row)| == 0
  {
    var a := RequestOtp(s.row, s.phone, s.right, 0);
    FirstRow(s);
    assert Window(Next(INITIAL, a), s.row) == {} && Winners(Next(INITIAL, a), s.row) == {};
    Extend([], a, s.row, n);
    run := [] + [a];
  }

  /** Wrong guesses one after the other, up to the last allowed one. */
  lemma {:induction false} GuessInTurn(s: Setup, j: nat, n: nat) returns (run: seq<Action>)
    requires Good(s) && 1 <= n && j < REGISTER_OTP_MAX_ATTEMPTS
    ensures Overlap(run, s.row, n) && Stage(Exec(run), s, j) && Usable(Exec(run), s)
    ensures Exec(run).db.otps[s.row].attempts == j && |Window(Exec(run), s.row)| == 0
  {
    if j == 0 {
      run := Request(s, n);
    } else {
      var before := GuessInTurn(s, j - 1, n);
      var entered := Enter(before, s, j - 1, false, n);
      StageGrows(Exec(before), Exec(entered), s, j - 1, false);
      run := Leave(entered, s, j, j - 1, false, n);
    }
  }

  /** The attempt counter really reaches maximum + n - 1. */
  lemma {:induction false} AttemptsReachTheBound(s: Setup, n: nat) returns (run: seq<Action>)
    requires Good(s) && 1 <= n
    ensures Overlap(run, s.row, n) && s.row in Exec(run).db.otps
    ensures Exec(run).db.otps[s.row].attempts == REGISTER_OTP_MAX_ATTEMPTS + n - 1
  {
    var m := REGISTER_OTP_MAX_ATTEMPTS - 1;
    var guesses := GuessInTurn(s, m, n);
    var entered := EnterMany(guesses, s, m, n, false, n);
    run := LeaveMany(entered, s, m + n, m, n, false, n);
  }

  /** n overlapping calls with the right code all succeed: one code, n register tokens. */
  lemma {:induction false} WinnersReachTheBound(s: Setup, n: nat) returns (run: seq<Action>)
    requires Good(s) && 1 <= n
    ensures Overlap(run, s.row, n) && |Winners(Exec(run), s.row)| == n
  {
    var start := Request(s, n);
    var entered := EnterMany(start, s, 0, n, true, n);
    run := LeaveMany(entered, s, n, 0, n, true, n);
  }
}
