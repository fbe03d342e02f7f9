/** Deliveries of agent messages as a state machine: looking up the agent, querying
    the history and saving are three steps, and deliveries interleave between them. */
module AlertMachine {
  import opened Base
  import opened Alerts
  import Text

  /** Gone: the agent was deleted before the save, which its foreign key then rejects. */
  datatype Outcome = NoAgent | Duplicate | Saved(alert: Alert) | Gone

  datatype AlertPc = LookUp | Query | Save(at: Time) | Finished(outcome: Outcome)

  datatype AlertCall = AlertCall(agentId: string, kind: string, at: Option<Time>, owner: string, pc: AlertPc)

  /** None stands for a blank agent id or type. */
  function NewAlertCall(m: Message): Option<AlertCall> {
    var id, kind := Text.Trim(m.agentId), NormalizeAlertType(m.kind);
    if id == "" || kind == "" then None else Some(AlertCall(id, kind, m.at, "", LookUp))
  }

  /** The time of the alert: the message's own, or a clock reading. */
  function TriggeredAt(c: AlertCall, clock: Time): Time {
    if c.at.Some? then c.at.value else clock
  }

  function CallKey(c: AlertCall): Key {
    Key(c.agentId, c.kind)
  }

  /** One statement of the call; newId is the id the database draws for a saved row. */
  function AlertStep(s: Store, clock: Time, newId: nat, c: AlertCall): (Store, AlertCall) {
    match c.pc
    case LookUp =>
      (s, if c.agentId !in s.agents || Text.Trim(s.agents[c.agentId]) == "" then c.(pc := Finished(NoAgent))
          else c.(owner := s.agents[c.agentId], pc := Query))
    case Query =>
      var at := TriggeredAt(c, clock);
      (s, c.(pc := if FindRecent(s.alerts, c.agentId, c.kind, at - DUPLICATE_ALERT_WINDOW).None? then Save(at)
                   else Finished(Duplicate)))
    case Save(at) =>
      var alert := Alert(newId, c.agentId, c.kind, at);
      if c.agentId in s.agents then (s.(alerts := s.alerts + [alert]), c.(pc := Finished(Saved(alert))))
      else (s, c.(pc := Finished(Gone)))
    case Finished(_) => (s, c)
  }

  // ---- the whole system ----

  /** ever holds every agent id that was ever used, for an id is never used twice
      (PairingTheorems.DeletedAgentsStayDeleted). */
  datatype World = World(store: Store, ever: set<string>, calls: map<nat, AlertCall>)

  datatype Action =
    | AddAgent(id: string, owner: string)
    | RemoveAgent(id: string)
    | Begin(call: nat, message: Message)
    | Continue(call: nat, clock: Time)

  const INITIAL: World := World(Store(map[], []), {}, map[])

  /** Call k draws row id k: generated ids are fresh. */
  function Next(w: World, a: Action): World {
    match a
    case AddAgent(id, owner) =>
      if id in w.ever then w
      else w.(store := w.store.(agents := w.store.agents[id := owner]), ever := w.ever + {id})
    case RemoveAgent(id) =>
      w.(store := Store(w.store.agents - {id}, WithoutAgent(w.store.alerts, id)))
    case Begin(k, m) =>
      if k in w.calls || NewAlertCall(m).None? then w else w.(calls := w.calls[k := NewAlertCall(m).value])
    case Continue(k, clock) =>
      if k !in w.calls then w
      else
        var (s, c) := AlertStep(w.store, clock, k, w.calls[k]);
        w.(store := s, calls := w.calls[k := c])
  }

  function Exec(run: seq<Action>): World {
    if run == [] then INITIAL else Next(Exec(Front(run)), Last(run))
  }

  /** A stored alert is the work of the finished call with its id. */
  predicate AlertRowOk(w: World, a: Alert) {
    a.id in w.calls && w.calls[a.id].pc == Finished(Saved(a))
  }

  ghost predicate RowsOk(w: World) {
    && (forall a {:trigger AlertRowOk(w, a)} :: a in w.store.alerts ==> AlertRowOk(w, a))
    && w.store.agents.Keys <= w.ever
  }

  lemma RowsOkNext(w: World, a: Action)
    requires RowsOk(w)
    ensures RowsOk(Next(w, a))
  {
    var w' := Next(w, a);
    forall r | r in w'.store.alerts ensures AlertRowOk(w', r) {
      if a.RemoveAgent? {
        RemovalKeepsOthers(w.store.alerts, a.id);
      }
      if r in w.store.alerts {
        assert AlertRowOk(w, r);
      }
    }
  }

  lemma {:induction false} RowsAlwaysOk(run: seq<Action>)
    ensures RowsOk(Exec(run))
  {
    if run != [] {
      RowsAlwaysOk(Front(run));
      RowsOkNext(Exec(Front(run)), Last(run));
    }
  }

  // ---- one call through the moments it meets ----

  /** What a step of a call meets: the tables the other calls left, and the time. */
  datatype Moment = Moment(store: Store, now: Time)

  /** The steps of a delivery through the moments it meets, until it finishes. */
  function RunAlert(env: seq<Moment>, newId: nat, s: Store, c: AlertCall): (Store, AlertCall) {
    if env == [] || c.pc.Finished? then (s, c)
    else
      var (s', c') := AlertStep(env[0].store, env[0].now, newId, c);
      RunAlert(env[1..], newId, s', c')
  }

  lemma {:induction false} RunAlertAppends(env: seq<Moment>, m: Moment, newId: nat, s: Store, c: AlertCall)
    ensures
      var (s1, c1) := RunAlert(env, newId, s, c);
      RunAlert(env + [m], newId, s, c) == if c1.pc.Finished? then (s1, c1) else AlertStep(m.store, m.now, newId, c1)
  {
    if env == [] {
      assert (env + [m])[1..] == [];
    } else if !c.pc.Finished? {
      var (s', c') := AlertStep(env[0].store, env[0].now, newId, c);
      assert (env + [m])[1..] == env[1..] + [m];
      RunAlertAppends(env[1..], m, newId, s', c');
    }
  }

  /** The moments at which call k of the run took its own steps. */
  function OwnMoments(run: seq<Action>, k: nat): seq<Moment> {
    if run == [] then []
    else
      OwnMoments(Front(run), k)
      + if Last(run).Continue? && Last(run).call == k && k in Exec(Front(run)).calls
        then [Moment(Exec(Front(run)).store, Last(run).clock)] else []
  }

  /** A call of any interleaved run is where its own steps, at the moments the run
      gave it, have brought it: the state machine and the use case's method agree. */
  lemma {:induction false} CallsFollowTheirMoments(run: seq<Action>, k: nat, s: Store)
    ensures k !in Exec(run).calls ==> OwnMoments(run, k) == []
    ensures k in Exec(run).calls ==>
      var c := Exec(run).calls[k];
      RunAlert(OwnMoments(run, k), k, s, c.(owner := "", pc := LookUp)).1 == c
  {
    if run != [] {
      var w, a := Exec(Front(run)), Last(run);
      CallsFollowTheirMoments(Front(run), k, s);
      if k in w.calls && a.Continue? && a.call == k {
        RunAlertAppends(OwnMoments(Front(run), k), Moment(w.store, a.clock), k, s,
            w.calls[k].(owner := "", pc := LookUp));
      } else {
        assert OwnMoments(run, k) == OwnMoments(Front(run), k);
      }
    }
  }

  // ---- the independent reference: a filter that remembers one time per key ----

  /** newest: the largest saved time of every agent and type. */
  datatype Filter = Filter(agents: map<string, string>, ever: set<string>, newest: map<Key, Time>,
      calls: map<nat, AlertCall>)

  const EMPTY_FILTER: Filter := Filter(map[], {}, map[], map[])

  predicate Accepts(newest: map<Key, Time>, key: Key, at: Time) {
    key !in newest || newest[key] + DUPLICATE_ALERT_WINDOW < at
  }

  function Remember(newest: map<Key, Time>, key: Key, at: Time): map<Key, Time> {
    if key in newest && at <= newest[key] then newest else newest[key := at]
  }

  function Forget(newest: map<Key, Time>, id: string): map<Key, Time> {
    map k | k in newest && k.agentId != id :: newest[k]
  }

  /** The step of a delivery when there is no history to query. */
  function FilterStep(f: Filter, clock: Time, k: nat, c: AlertCall): (map<Key, Time>, AlertCall) {
    match c.pc
    case LookUp =>
      (f.newest, if c.agentId !in f.agents || Text.Trim(f.agents[c.agentId]) == "" then c.(pc := Finished(NoAgent))
                 else c.(owner := f.agents[c.agentId], pc := Query))
    case Query =>
      var at := TriggeredAt(c, clock);
      (f.newest, c.(pc := if Accepts(f.newest, CallKey(c), at) then Save(at) else Finished(Duplicate)))
    case Save(at) =>
      if c.agentId in f.agents
      then (Remember(f.newest, CallKey(c), at), c.(pc := Finished(Saved(Alert(k, c.agentId, c.kind, at)))))
      else (f.newest, c.(pc := Finished(Gone)))
    case Finished(_) => (f.newest, c)
  }

  function FilterNext(f: Filter, a: Action): Filter {
    match a
    case AddAgent(id, owner) => if id in f.ever then f else f.(agents := f.agents[id := owner], ever := f.ever + {id})
    case RemoveAgent(id) => f.(agents := f.agents - {id}, newest := Forget(f.newest, id))
    case Begin(k, m) =>
      if k in f.calls || NewAlertCall(m).None? then f else f.(calls := f.calls[k := NewAlertCall(m).value])
    case Continue(k, clock) =>
      if k !in f.calls then f
      else
        var (newest, c) := FilterStep(f, clock, k, f.calls[k]);
        f.(newest := newest, calls := f.calls[k := c])
  }

  function FilterExec(run: seq<Action>): Filter {
    if run == [] then EMPTY_FILTER else FilterNext(FilterExec(Front(run)), Last(run))
  }

  function Newest(alerts: seq<Alert>): map<Key, Time> {
    if alerts == [] then map[] else Remember(Newest(Front(alerts)), KeyOf(Last(alerts)), Last(alerts).at)
  }

  function View(w: World): Filter {
    Filter(w.store.agents, w.ever, Newest(w.store.alerts), w.calls)
  }

  lemma {:induction false} NewestIsLargest(alerts: seq<Alert>, key: Key)
    ensures forall a :: a in alerts && KeyOf(a) == key ==> key in Newest(alerts) && a.at <= Newest(alerts)[key]
    ensures key in Newest(alerts) ==> exists a :: a in alerts && KeyOf(a) == key && a.at == Newest(alerts)[key]
  {
    if alerts != [] {
      var front, last := Front(alerts), Last(alerts);
      NewestIsLargest(front, key);
      assert alerts == front + [last];
      if key in Newest(alerts) && (key != KeyOf(last) || Newest(alerts)[key] != last.at) {
        var a :| a in front && KeyOf(a) == key && a.at == Newest(front)[key];
        assert a in alerts;
      }
    }
  }

  /** The history query finds nothing exactly when the filter accepts. */
  lemma QueryIsFilter(alerts: seq<Alert>, key: Key, at: Time)
    ensures FindRecent(alerts, key.agentId, key.kind, at - DUPLICATE_ALERT_WINDOW).None?
        <==> Accepts(Newest(alerts), key, at)
  {
    FindRecentMeans(alerts, key.agentId, key.kind, at - DUPLICATE_ALERT_WINDOW);
    NewestIsLargest(alerts, key);
    if key in Newest(alerts) {
      var a :| a in alerts && KeyOf(a) == key && a.at == Newest(alerts)[key];
    }
  }

  lemma ForgetRemembered(newest: map<Key, Time>, key: Key, at: Time, id: string)
    ensures Forget(Remember(newest, key, at), id)
      == if key.agentId == id then Forget(newest, id) else Remember(Forget(newest, id), key, at)
  {
  }

  lemma {:induction false} RemovalForgets(alerts: seq<Alert>, id: string)
    ensures Newest(WithoutAgent(alerts, id)) == Forget(Newest(alerts), id)
  {
    if alerts != [] {
      var kept, a := WithoutAgent(Front(alerts), id), Last(alerts);
      RemovalForgets(Front(alerts), id);
      ForgetRemembered(Newest(Front(alerts)), KeyOf(a), a.at, id);
      if a.agentId != id {
        assert Front(kept + [a]) == kept;
      } else {
        assert WithoutAgent(alerts, id) == kept;
      }
    }
  }

  lemma StepFilters(w: World, a: Action)
    ensures View(Next(w, a)) == FilterNext(View(w), a)
  {
    match a
    case AddAgent(_, _) =>
    case RemoveAgent(id) => RemovalForgets(w.store.alerts, id);
    case Begin(_, _) =>
    case Continue(k, clock) =>
      if k in w.calls {
        var c := w.calls[k];
        QueryIsFilter(w.store.alerts, CallKey(c), TriggeredAt(c, clock));
        if c.pc.Save? {
          assert Front(w.store.alerts + [Alert(k, c.agentId, c.kind, c.pc.at)]) == w.store.alerts;
        }
      }
  }

  /** In every run, however deliveries interleave, querying the whole history
      decides as the filter does that remembers only the largest saved time of
      each agent and type. */
  lemma {:induction false} HistoryIsAFilter(run: seq<Action>)
    ensures View(Exec(run)) == FilterExec(run)
  {
    if run != [] {
      HistoryIsAFilter(Front(run));
      StepFilters(Exec(Front(run)), Last(run));
    }
  }

  // ---- redelivery ----

  function KeyOfMessage(m: Message): Key {
    Key(Text.Trim(m.agentId), NormalizeAlertType(m.kind))
  }

  /** The call delivers this timestamped message. */
  predicate IsOf(c: AlertCall, m: Message) {
    m.at.Some? && c.at == m.at && CallKey(c) == KeyOfMessage(m)
  }

  /** Call j delivered the message through the agent look-up and the de-duplication. */
  predicate Passed(w: World, j: nat, m: Message) {
    j in w.calls && IsOf(w.calls[j], m) && w.calls[j].pc.Finished?
    && (w.calls[j].pc.outcome.Saved? || w.calls[j].pc.outcome.Duplicate?)
  }

  /** Call k has not queried the history yet. */
  predicate NotQueried(w: World, k: nat) {
    k in w.calls ==> w.calls[k].pc.LookUp? || w.calls[k].pc.Query?
  }

  predicate HitBy(alerts: seq<Alert>, a: Alert, key: Key, since: Time) {
    a in alerts && Hits(a, key.agentId, key.kind, since)
  }

  /** Whenever the agent is still there a stored alert makes a query from since
      find something; and the agent's id cannot come back. */
  ghost predicate Absorbed(w: World, key: Key, since: Time) {
    key.agentId in w.ever && (key.agentId in w.store.agents ==> exists a :: HitBy(w.store.alerts, a, key, since))
  }

  lemma AlertsOnlyGo(w: World, a: Action, row: Alert)
    requires row in w.store.alerts && row.agentId in Next(w, a).store.agents
    ensures row in Next(w, a).store.alerts
  {
    if a.RemoveAgent? {
      RemovalKeepsOthers(w.store.alerts, a.id);
    } else {
      assert w.store.alerts <= Next(w, a).store.alerts;
    }
  }

  lemma AbsorbedStays(w: World, a: Action, key: Key, since: Time)
    requires Absorbed(w, key, since)
    ensures Absorbed(Next(w, a), key, since)
  {
    if key.agentId in Next(w, a).store.agents {
      var row :| HitBy(w.store.alerts, row, key, since);
      AlertsOnlyGo(w, a, row);
      assert HitBy(Next(w, a).store.alerts, row, key, since);
    }
  }

  /** What a finished or saving delivery of the message knows. */
  ghost predicate Progress(w: World, j: nat, m: Message) {
    j in w.calls && IsOf(w.calls[j], m) ==>
      && (!w.calls[j].pc.LookUp? && w.calls[j].pc != Finished(NoAgent) ==> KeyOfMessage(m).agentId in w.ever)
      && (w.calls[j].pc.Save? ==> w.calls[j].pc.at == m.at.value)
      && (Passed(w, j, m) ==> Absorbed(w, KeyOfMessage(m), m.at.value - DUPLICATE_ALERT_WINDOW))
  }

  lemma ProgressNext(w: World, a: Action, j: nat, m: Message)
    requires Progress(w, j, m) && w.store.agents.Keys <= w.ever
    ensures Progress(Next(w, a), j, m)
  {
    var w', key := Next(w, a), KeyOfMessage(m);
    if j in w.calls && IsOf(w.calls[j], m) {
      var since := m.at.value - DUPLICATE_ALERT_WINDOW;
      if Passed(w, j, m) {
        AbsorbedStays(w, a, key, since);
      } else if a.Continue? && a.call == j {
        FindRecentMeans(w.store.alerts, key.agentId, key.kind, since);
        if w.calls[j].pc.Query? && Passed(w', j, m) {
          assert HitBy(w.store.alerts, FindRecent(w.store.alerts, key.agentId, key.kind, since).value, key, since);
        }
        if w.calls[j].pc.Save? && Passed(w', j, m) {
          assert HitBy(w'.store.alerts, Last(w'.store.alerts), key, since);
        }
      }
    }
  }

  lemma {:induction false} ProgressAlways(run: seq<Action>, j: nat, m: Message)
    ensures Progress(Exec(run), j, m)
  {
    if run != [] {
      ProgressAlways(Front(run), j, m);
      RowsAlwaysOk(Front(run));
      ProgressNext(Exec(Front(run)), Last(run), j, m);
    }
  }

  /** If call k delivers the message it has stored nothing and cannot store anything. */
  ghost predicate Harmless(w: World, k: nat, m: Message)
    requires m.at.Some?
  {
    && Absorbed(w, KeyOfMessage(m), m.at.value - DUPLICATE_ALERT_WINDOW)
    && (k in w.calls && IsOf(w.calls[k], m) ==>
          && (w.calls[k].pc.Save? ==> w.calls[k].agentId !in w.store.agents)
          && (w.calls[k].pc.Finished? ==> !w.calls[k].pc.outcome.Saved?))
  }

  lemma HarmlessNext(w: World, a: Action, k: nat, m: Message)
    requires m.at.Some? && Harmless(w, k, m)
    ensures Harmless(Next(w, a), k, m)
    ensures a.Continue? && a.call == k && k in w.calls && IsOf(w.calls[k], m) ==> Next(w, a).store == w.store
  {
    var key, since := KeyOfMessage(m), m.at.value - DUPLICATE_ALERT_WINDOW;
    AbsorbedStays(w, a, key, since);
    if a.Continue? && a.call == k && k in w.calls && IsOf(w.calls[k], m) {
      FindRecentMeans(w.store.alerts, key.agentId, key.kind, since);
      if key.agentId in w.store.agents {
        var row :| HitBy(w.store.alerts, row, key, since);
      }
    }
  }

  lemma {:induction false} RedeliveryStaysHarmless(run: seq<Action>, i: nat, j: nat, k: nat, m: Message)
    requires i <= |run| && Passed(Exec(run[..i]), j, m) && NotQueried(Exec(run[..i]), k)
    ensures Harmless(Exec(run), k, m)
  {
    if i == |run| {
      assert run[..i] == run;
      ProgressAlways(run, j, m);
    } else {
      assert Front(run)[..i] == run[..i];
      RedeliveryStaysHarmless(Front(run), i, j, k, m);
      HarmlessNext(Exec(Front(run)), Last(run), k, m);
    }
  }

  /** Once some delivery of a timestamped message got past the look-up and the
      de-duplication, no delivery of it that queries afterwards ever stores an
      alert or starts a notification, in any interleaving and even across the
      agent's deletion: each of its steps leaves the tables as they are. */
  lemma {:induction false} RedeliveryIsHarmless(run: seq<Action>, i: nat, j: nat, k: nat, m: Message, clock: Time)
    requires i <= |run| && Passed(Exec(run[..i]), j, m) && NotQueried(Exec(run[..i]), k)
    requires k in Exec(run).calls && IsOf(Exec(run).calls[k], m)
    ensures Exec(run + [Continue(k, clock)]).store == Exec(run).store
    ensures Exec(run).calls[k].pc.Finished? ==> !Exec(run).calls[k].pc.outcome.Saved?
  {
    RedeliveryStaysHarmless(run, i, j, k, m);
    HarmlessNext(Exec(run), Continue(k, clock), k, m);
    assert Front(run + [Continue(k, clock)]) == run;
  }
}
