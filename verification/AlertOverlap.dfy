/** What overlapping deliveries do to the spacing of stored alerts: with at most n
    calls of one key between query and save, the key's alerts fall into at most n
    spaced classes, and for every n there are runs that need all of them. */
module AlertOverlap {
  import opened Base
  import opened Alerts
  import opened AlertMachine

  // ---- the window ----

  /** The call's query found nothing and it has not saved yet. */
  predicate InWindow(c: AlertCall, key: Key) {
    c.pc.Save? && CallKey(c) == key
  }

  function Window(w: World, key: Key): set<nat> {
    set k | k in w.calls && InWindow(w.calls[k], key)
  }

  /** At most n calls of the key are between query and save at any moment of the run. */
  ghost predicate Overlap(run: seq<Action>, key: Key, n: nat) {
    forall i {:trigger run[..i]} :: 0 <= i <= |run| ==> |Window(Exec(run[..i]), key)| <= n
  }

  lemma OverlapFront(run: seq<Action>, key: Key, n: nat)
    requires run != [] && Overlap(run, key, n)
    ensures Overlap(Front(run), key, n) && |Window(Exec(run), key)| <= n
  {
    forall i | 0 <= i <= |Front(run)| ensures |Window(Exec(Front(run)[..i]), key)| <= n {
      assert Front(run)[..i] == run[..i];
    }
    assert run[..|run|] == run;
  }

  // ---- classes ----

  /** The key's rows that calls of colour c saved. */
  function Class(alerts: seq<Alert>, key: Key, colour: map<nat, nat>, c: nat): seq<Alert> {
    if alerts == [] then []
    else
      var a := Last(alerts);
      Class(Front(alerts), key, colour, c)
      + if KeyOf(a) == key && a.id in colour && colour[a.id] == c then [a] else []
  }

  lemma {:induction false} ClassMeans(alerts: seq<Alert>, key: Key, colour: map<nat, nat>, c: nat)
    ensures forall a ::
      a in Class(alerts, key, colour, c) <==> a in alerts && KeyOf(a) == key && a.id in colour && colour[a.id] == c
  {
    if alerts != [] {
      ClassMeans(Front(alerts), key, colour, c);
      assert alerts == Front(alerts) + [Last(alerts)];
    }
  }

  lemma ClassAfterSave(alerts: seq<Alert>, a: Alert, key: Key, colour: map<nat, nat>, c: nat)
    ensures Class(alerts + [a], key, colour, c)
      == Class(alerts, key, colour, c) + if KeyOf(a) == key && a.id in colour && colour[a.id] == c then [a] else []
  {
    assert Front(alerts + [a]) == alerts;
  }

  lemma {:induction false} ClassAfterRemoval(alerts: seq<Alert>, id: string, key: Key, colour: map<nat, nat>, c: nat)
    ensures Class(WithoutAgent(alerts, id), key, colour, c)
        == if id == key.agentId then [] else Class(alerts, key, colour, c)
  {
    if alerts != [] {
      var kept, a := WithoutAgent(Front(alerts), id), Last(alerts);
      ClassAfterRemoval(Front(alerts), id, key, colour, c);
      if a.agentId != id {
        ClassAfterSave(kept, a, key, colour, c);
      } else {
        assert WithoutAgent(alerts, id) == kept;
      }
    }
  }

  lemma {:induction false} ClassIgnores(alerts: seq<Alert>, key: Key, colour: map<nat, nat>, c: nat, k: nat, free: nat)
    requires forall a :: a in alerts ==> a.id != k
    ensures Class(alerts, key, colour[k := free], c) == Class(alerts, key, colour, c)
  {
    if alerts != [] {
      assert alerts == Front(alerts) + [Last(alerts)];
      ClassIgnores(Front(alerts), key, colour, c, k, free);
    }
  }

  // ---- the colouring ----

  /** Every row of the key has one of n colours, and rows of one colour are spaced. */
  ghost predicate SpacedClasses(alerts: seq<Alert>, key: Key, n: nat, colour: map<nat, nat>) {
    && (forall a :: a in alerts && KeyOf(a) == key ==> a.id in colour && colour[a.id] < n)
    && (forall c {:trigger Class(alerts, key, colour, c)} :: Spaced(Class(alerts, key, colour, c)))
  }

  /** The call's alert would be more than the window after every row of its colour. */
  ghost predicate Clear(w: World, key: Key, colour: map<nat, nat>, k: nat) {
    k in colour && InCallWindow(w, k, key) ==>
      forall a :: a in Class(w.store.alerts, key, colour, colour[k])
          ==> a.at + DUPLICATE_ALERT_WINDOW < w.calls[k].pc.at
  }

  predicate InCallWindow(w: World, k: nat, key: Key) {
    k in w.calls && InWindow(w.calls[k], key)
  }

  /** Different calls hold different colours below n. */
  predicate OwnColours(window: set<nat>, n: nat, colour: map<nat, nat>) {
    && (forall k :: k in window ==> k in colour && colour[k] < n)
    && (forall j, k :: j in window && k in window && j != k ==> colour[j] != colour[k])
  }

  /** Calls in the window hold different colours, and each could save now. */
  ghost predicate Coloured(w: World, key: Key, n: nat, colour: map<nat, nat>) {
    && SpacedClasses(w.store.alerts, key, n, colour)
    && OwnColours(Window(w, key), n, colour)
    && (forall k {:trigger Clear(w, key, colour, k)} :: k in Window(w, key) ==> Clear(w, key, colour, k))
  }

  lemma {:induction false} FreeColour(window: set<nat>, colour: map<nat, nat>, n: nat) returns (c: nat)
    requires |window| < n
    ensures c < n && forall j :: j in window && j in colour ==> colour[j] != c
    decreases n
  {
    if j :| j in window && j in colour && colour[j] == n - 1 {
      c := FreeColour(window - {j}, colour, n - 1);
    } else {
      c := n - 1;
    }
  }

  /** A step that changes neither the key's window nor its rows. */
  lemma NothingHappens(w: World, w': World, key: Key, n: nat, colour: map<nat, nat>)
    requires Coloured(w, key, n, colour)
    requires Window(w', key) == Window(w, key) && forall k :: k in Window(w, key) ==> w'.calls[k] == w.calls[k]
    requires forall a :: a in w'.store.alerts && KeyOf(a) == key ==> a in w.store.alerts
    requires forall c {:trigger Class(w'.store.alerts, key, colour, c)} ::
      Class(w'.store.alerts, key, colour, c) == Class(w.store.alerts, key, colour, c)
          || Class(w'.store.alerts, key, colour, c) == []
    ensures Coloured(w', key, n, colour)
  {
    forall c ensures Spaced(Class(w'.store.alerts, key, colour, c)) {
      assert Spaced(Class(w.store.alerts, key, colour, c));
    }
    forall k | k in Window(w', key) ensures Clear(w', key, colour, k) {
      assert Clear(w, key, colour, k);
    }
  }

  /** A colour for a call that has no rows yet leaves every class as it is. */
  lemma NewColour(w: World, key: Key, n: nat, colour: map<nat, nat>, k: nat, free: nat)
    requires SpacedClasses(w.store.alerts, key, n, colour) && forall a :: a in w.store.alerts ==> a.id != k
    ensures SpacedClasses(w.store.alerts, key, n, colour[k := free])
    ensures forall c :: Class(w.store.alerts, key, colour[k := free], c) == Class(w.store.alerts, key, colour, c)
  {
    var alerts, colour' := w.store.alerts, colour[k := free];
    forall c ensures Class(alerts, key, colour', c) == Class(alerts, key, colour, c) {
      ClassIgnores(alerts, key, colour, c, k, free);
    }
    forall c ensures Spaced(Class(alerts, key, colour', c)) {
      assert Spaced(Class(alerts, key, colour, c));
    }
  }

  /** The query found nothing: the call saves next, at a time after all rows of the key. */
  predicate Enters(w: World, w': World, k: nat, key: Key) {
    && k in w.calls && w.calls[k].pc.Query? && InCallWindow(w', k, key)
    && w'.store == w.store && w'.calls == w.calls[k := w'.calls[k]]
    && forall a :: a in w.store.alerts && KeyOf(a) == key ==> a.at + DUPLICATE_ALERT_WINDOW < w'.calls[k].pc.at
  }

  lemma QueryEnters(w: World, k: nat, clock: Time, key: Key)
    requires k !in Window(w, key) && InCallWindow(Next(w, Continue(k, clock)), k, key)
    ensures Enters(w, Next(w, Continue(k, clock)), k, key)
  {
    FindRecentMeans(w.store.alerts, key.agentId, key.kind,
        Next(w, Continue(k, clock)).calls[k].pc.at - DUPLICATE_ALERT_WINDOW);
  }

  /** A call that enters takes a free colour. */
  lemma EntersColoured(w: World, w': World, k: nat, key: Key, n: nat, colour: map<nat, nat>)
    returns (colour': map<nat, nat>)
    requires RowsOk(w) && Coloured(w, key, n, colour) && |Window(w', key)| <= n && Enters(w, w', k, key)
    ensures Coloured(w', key, n, colour')
  {
    assert Window(w', key) == Window(w, key) + {k};
    var free := FreeColour(Window(w, key), colour, n);
    colour' := colour[k := free];
    forall a | a in w.store.alerts ensures a.id != k {
      assert AlertRowOk(w, a);
    }
    NewColour(w, key, n, colour, k, free);
    forall j | j in Window(w', key) ensures Clear(w', key, colour', j) {
      if j != k {
        assert Clear(w, key, colour, j);
      } else {
        ClassMeans(w.store.alerts, key, colour', free);
      }
    }
  }

  /** A save of the key, or its refusal: the call gives its colour back. */
  lemma Leaves(w: World, k: nat, clock: Time, key: Key, n: nat, colour: map<nat, nat>)
    requires Coloured(w, key, n, colour) && k in Window(w, key)
    ensures Coloured(Next(w, Continue(k, clock)), key, n, colour)
  {
    var w' := Next(w, Continue(k, clock));
    var alerts, a := w.store.alerts, Alert(k, key.agentId, key.kind, w.calls[k].pc.at);
    assert Window(w', key) == Window(w, key) - {k};
    assert Clear(w, key, colour, k);
    forall c ensures Class(w'.store.alerts, key, colour, c)
      == Class(alerts, key, colour, c) + if w'.store != w.store && colour[k] == c then [a] else []
    {
      ClassAfterSave(alerts, a, key, colour, c);
    }
    forall c ensures Spaced(Class(w'.store.alerts, key, colour, c)) {
      var rows := Class(alerts, key, colour, c);
      assert Spaced(rows);
      SpacedMore(rows, a);
      forall i | 0 <= i < |rows| && colour[k] == c ensures rows[i].at + DUPLICATE_ALERT_WINDOW < a.at {
        assert rows[i] in rows;
      }
      assert Class(w'.store.alerts, key, colour, c) == rows || colour[k] == c;
    }
    forall j | j in Window(w', key) ensures Clear(w', key, colour, j) {
      assert Clear(w, key, colour, j);
    }
  }

  /** Some other step of a call. */
  lemma OtherStep(w: World, k: nat, clock: Time, key: Key, n: nat, colour: map<nat, nat>)
    requires Coloured(w, key, n, colour) && k in w.calls
    requires k !in Window(w, key) && !InCallWindow(Next(w, Continue(k, clock)), k, key)
    ensures Coloured(Next(w, Continue(k, clock)), key, n, colour)
  {
    var w', c := Next(w, Continue(k, clock)), w.calls[k];
    assert Window(w', key) == Window(w, key);
    if c.pc.Save? {
      var a := Alert(k, c.agentId, c.kind, c.pc.at);
      forall i ensures Class(w.store.alerts + [a], key, colour, i) == Class(w.store.alerts, key, colour, i) {
        ClassAfterSave(w.store.alerts, a, key, colour, i);
      }
    }
    NothingHappens(w, w', key, n, colour);
  }

  lemma ColouredNext(w: World, a: Action, key: Key, n: nat, colour: map<nat, nat>) returns (colour': map<nat, nat>)
    requires RowsOk(w) && Coloured(w, key, n, colour) && |Window(Next(w, a), key)| <= n
    ensures Coloured(Next(w, a), key, n, colour')
  {
    colour' := colour;
    var w' := Next(w, a);
    if a.Continue? && a.call in w.calls {
      if a.call in Window(w, key) {
        Leaves(w, a.call, a.clock, key, n, colour);
      } else if InCallWindow(w', a.call, key) {
        QueryEnters(w, a.call, a.clock, key);
        colour' := EntersColoured(w, w', a.call, key, n, colour);
      } else {
        OtherStep(w, a.call, a.clock, key, n, colour);
      }
    } else {
      assert Window(w', key) == Window(w, key);
      if a.RemoveAgent? {
        RemovalKeepsOthers(w.store.alerts, a.id);
        forall c ensures Class(w'.store.alerts, key, colour, c) == []
          || Class(w'.store.alerts, key, colour, c) == Class(w.store.alerts, key, colour, c)
        {
          ClassAfterRemoval(w.store.alerts, a.id, key, colour, c);
        }
      }
      NothingHappens(w, w', key, n, colour);
    }
  }

  lemma {:induction false} ColouredAlways(run: seq<Action>, key: Key, n: nat) returns (colour: map<nat, nat>)
    requires Overlap(run, key, n)
    ensures Coloured(Exec(run), key, n, colour)
  {
    if run == [] {
      colour := map[];
    } else {
      OverlapFront(run, key, n);
      RowsAlwaysOk(Front(run));
      var before := ColouredAlways(Front(run), key, n);
      colour := ColouredNext(Exec(Front(run)), Last(run), key, n, before);
    }
  }

  /** If at most n deliveries of one agent and type ever overlap, its stored alerts
      fall into at most n classes, each in increasing order and more than the
      window apart. */
  lemma AlertsFallIntoClasses(run: seq<Action>, key: Key, n: nat)
    requires Overlap(run, key, n)
    ensures exists colour :: SpacedClasses(Exec(run).store.alerts, key, n, colour)
  {
    var colour := ColouredAlways(run, key, n);
  }

  lemma {:induction false} OneClass(alerts: seq<Alert>, key: Key, colour: map<nat, nat>)
    requires forall a :: a in alerts && KeyOf(a) == key ==> a.id in colour && colour[a.id] < 1
    ensures Class(alerts, key, colour, 0) == RowsOf(alerts, key)
  {
    if alerts != [] {
      assert alerts == Front(alerts) + [Last(alerts)];
      OneClass(Front(alerts), key, colour);
    }
  }

  /** The last of spaced rows has the largest time. */
  lemma LastIsNewest(alerts: seq<Alert>, key: Key)
    requires Spaced(RowsOf(alerts, key))
    ensures
      var rows := RowsOf(alerts, key);
      && (rows == [] <==> key !in Newest(alerts))
      && (rows != [] ==> Last(rows).at == Newest(alerts)[key])
  {
    var rows := RowsOf(alerts, key);
    NewestIsLargest(alerts, key);
    RowsOfMeans(alerts, key);
    if rows != [] {
      assert Last(rows) in rows;
      LastIsLargest(rows);
    }
  }

  /** Without overlap the alerts of one agent and type are in increasing order and
      more than the window apart; so the filter remembers the last saved time. */
  lemma {:induction false} SpacedWithoutOverlap(run: seq<Action>, key: Key)
    requires Overlap(run, key, 1)
    ensures
      var rows := RowsOf(Exec(run).store.alerts, key);
      && Spaced(rows)
      && (rows == [] <==> key !in FilterExec(run).newest)
      && (rows != [] ==> Last(rows).at == FilterExec(run).newest[key])
  {
    var alerts := Exec(run).store.alerts;
    var colour := ColouredAlways(run, key, 1);
    OneClass(alerts, key, colour);
    assert Spaced(Class(alerts, key, colour, 0));
    LastIsNewest(alerts, key);
    HistoryIsAFilter(run);
  }

  // ---- density ----

  /** How many rows of one class are within [a, b]. */
  function CountIn(alerts: seq<Alert>, key: Key, colour: map<nat, nat>, c: nat, a: Time, b: Time): nat {
    |TimesWithin(Class(alerts, key, colour, c), a, b)|
  }

  /** The same for the first n classes. */
  function Total(alerts: seq<Alert>, key: Key, colour: map<nat, nat>, n: nat, a: Time, b: Time): nat {
    if n == 0 then 0
    else Total(alerts, key, colour, n - 1, a, b) + CountIn(alerts, key, colour, n - 1, a, b)
  }

  lemma TimesAfter(rows: seq<Alert>, x: Alert, a: Time, b: Time)
    ensures |TimesWithin(rows + [x], a, b)| == |TimesWithin(rows, a, b)| + if a <= x.at <= b then 1 else 0
  {
    assert Front(rows + [x]) == rows;
  }

  lemma ClassTimesAfter(alerts: seq<Alert>, x: Alert, key: Key, colour: map<nat, nat>, c: nat, a: Time, b: Time)
    ensures
      var more, less := CountIn(alerts + [x], key, colour, c, a, b), CountIn(alerts, key, colour, c, a, b);
      if KeyOf(x) == key && x.id in colour && colour[x.id] == c && a <= x.at <= b
      then more == less + 1 else more == less
  {
    var rows := Class(alerts, key, colour, c);
    ClassAfterSave(alerts, x, key, colour, c);
    TimesAfter(rows, x, a, b);
    assert rows + [] == rows;
  }

  lemma {:induction false} TotalAfter(alerts: seq<Alert>, x: Alert, key: Key, colour: map<nat, nat>, n: nat, a: Time,
      b: Time)
    ensures
      var more, less := Total(alerts + [x], key, colour, n, a, b), Total(alerts, key, colour, n, a, b);
      if KeyOf(x) == key && x.id in colour && colour[x.id] < n && a <= x.at <= b
      then more == less + 1 else more == less
  {
    if n > 0 {
      TotalAfter(alerts, x, key, colour, n - 1, a, b);
      ClassTimesAfter(alerts, x, key, colour, n - 1, a, b);
    }
  }

  lemma {:induction false} NoRowsInTotal(key: Key, colour: map<nat, nat>, n: nat, a: Time, b: Time)
    ensures Total([], key, colour, n, a, b) == 0
  {
    if n > 0 {
      NoRowsInTotal(key, colour, n - 1, a, b);
    }
  }

  lemma RowsTimesAfter(alerts: seq<Alert>, x: Alert, key: Key, a: Time, b: Time)
    ensures |TimesWithin(RowsOf(alerts + [x], key), a, b)|
      == |TimesWithin(RowsOf(alerts, key), a, b)| + if KeyOf(x) == key && a <= x.at <= b then 1 else 0
  {
    var rows := RowsOf(alerts, key);
    RowsAfterSave(alerts, x, key);
    TimesAfter(rows, x, a, b);
    assert rows + [] == rows;
  }

  /** The classes hold every row of the key once. */
  lemma {:induction false} ClassesAreAll(alerts: seq<Alert>, key: Key, colour: map<nat, nat>, n: nat, a: Time, b: Time)
    requires forall x :: x in alerts && KeyOf(x) == key ==> x.id in colour && colour[x.id] < n
    ensures Total(alerts, key, colour, n, a, b) == |TimesWithin(RowsOf(alerts, key), a, b)|
  {
    if alerts == [] {
      NoRowsInTotal(key, colour, n, a, b);
    } else {
      var front, x := Front(alerts), Last(alerts);
      assert alerts == front + [x];
      ClassesAreAll(front, key, colour, n, a, b);
      TotalAfter(front, x, key, colour, n, a, b);
      RowsTimesAfter(front, x, key, a, b);
    }
  }

  lemma {:induction false} Crowded(alerts: seq<Alert>, key: Key, colour: map<nat, nat>, n: nat, a: Time, b: Time,
      q: nat)
    returns (c: nat)
    requires Total(alerts, key, colour, n, a, b) > n * q
    ensures c < n && |TimesWithin(Class(alerts, key, colour, c), a, b)| > q
  {
    if |TimesWithin(Class(alerts, key, colour, n - 1), a, b)| > q {
      c := n - 1;
    } else {
      assert n * q == (n - 1) * q + q;
      c := Crowded(alerts, key, colour, n - 1, a, b, q);
    }
  }

  function CeilingOf(m: nat, n: nat): nat
    requires n > 0
  {
    (m + n - 1) / n
  }

  lemma CeilingBounds(m: nat, n: nat)
    requires n > 0 && m > 0
    ensures n * (CeilingOf(m, n) - 1) < m <= n * CeilingOf(m, n)
    ensures CeilingOf(m, n) >= 1
  {
  }

  /** Some class holds at least its share of the m rows within [a, b]. */
  lemma FullClass(alerts: seq<Alert>, key: Key, colour: map<nat, nat>, n: nat, a: Time, b: Time)
    returns (c: nat, share: nat)
    requires SpacedClasses(alerts, key, n, colour) && |TimesWithin(RowsOf(alerts, key), a, b)| > 0
    ensures n > 0 && share == CeilingOf(|TimesWithin(RowsOf(alerts, key), a, b)|, n)
    ensures Spaced(Class(alerts, key, colour, c)) && 1 <= share <= |TimesWithin(Class(alerts, key, colour, c), a, b)|
  {
    var m := |TimesWithin(RowsOf(alerts, key), a, b)|;
    ClassesAreAll(alerts, key, colour, n, a, b);
    share := CeilingOf(m, n);
    CeilingBounds(m, n);
    c := Crowded(alerts, key, colour, n, a, b, share - 1);
  }

  /** If at most n deliveries of one agent and type ever overlap, m of its alerts
      within [a, b] need room for share - 1 gaps of more than five seconds, where
      share is m / n rounded up. */
  lemma {:induction false} AlertDensity(run: seq<Action>, key: Key, n: nat, a: Time, b: Time) returns (share: nat)
    requires Overlap(run, key, n) && |TimesWithin(RowsOf(Exec(run).store.alerts, key), a, b)| > 0
    ensures n > 0 && share == CeilingOf(|TimesWithin(RowsOf(Exec(run).store.alerts, key), a, b)|, n)
    ensures (share - 1) * LEAST_GAP <= b - a
  {
    var colour := ColouredAlways(run, key, n);
    var c;
    c, share := FullClass(Exec(run).store.alerts, key, colour, n, a, b);
    SpacedSpan(Class(Exec(run).store.alerts, key, colour, c), a, b, share);
  }
}
