/** CreateAlertFromAgent: de-duplicate, store, notify the owner's devices, and
    drop the tokens the push service no longer knows. */
module AlertUseCase {
  import opened Base
  import opened Alerts
  import opened AlertMachine
  import opened Devices
  import Text

  class AlertDatabase {
    var agents: map<string, string>
    var alerts: seq<Alert>

    constructor ()
      ensures Store() == Alerts.Store(map[], [])
    {
      agents, alerts := map[], [];
    }

    function Store(): Store
      reads this
    {
      Alerts.Store(agents, alerts)
    }

    /** Other calls run: between two statements of a call the tables may become anything. */
    method Interfere(s: Store)
      modifies this
      ensures Store() == s
    {
      agents, alerts := s.agents, s.alerts;
    }
  }

  class AlertRepository {
    const db: AlertDatabase

    constructor (db: AlertDatabase)
      ensures this.db == db
    {
      this.db := db;
    }

    /** An alert without a time of its own is stamped by the database; None stands
        for the foreign key's refusal. */
    method Save(newId: nat, agentId: string, kind: string, at: Option<Time>, now: Time) returns (saved: Option<Alert>)
      modifies db`alerts
      ensures
        var row := Alert(newId, agentId, kind, if at.Some? then at.value else now);
        if agentId in db.agents then saved == Some(row) && db.alerts == old(db.alerts) + [row]
        else saved == None && db.alerts == old(db.alerts)
    {
      if agentId !in db.agents {
        return None;
      }
      var row := Alert(newId, agentId, kind, if at.Some? then at.value else now);
      db.alerts := db.alerts + [row];
      saved := Some(row);
    }

    method FindRecentByAgentAndType(agentId: string, kind: string, since: Time) returns (recent: Option<Alert>)
      ensures recent == FindRecent(db.alerts, agentId, kind, since)
    {
      recent := None;
      for k := 0 to |db.alerts|
        invariant recent == FindRecent(db.alerts[..k], agentId, kind, since)
      {
        var a := db.alerts[k];
        assert Front(db.alerts[..k + 1]) == db.alerts[..k];
        if Hits(a, agentId, kind, since) && (recent.None? || recent.value.at <= a.at) {
          recent := Some(a);
        }
      }
      assert db.alerts[..|db.alerts|] == db.alerts;
    }
  }

  /** The push service and the device deletions, as far as one call meets them. */
  datatype Push = Push(haveAccess: bool, answer: string -> SendOutcome, deleteFails: string -> bool)

  datatype AlertError = InvalidInput | AgentNotFound | ConstraintViolation

  const ALERT_STEPS := 3

  /** failed: an alert was stored but its notification reported an error. */
  datatype CreateResult = Stored(alert: Alert, failed: bool) | Existing(alert: Alert) | Refused(error: AlertError)

  predicate DeviceOf(rows: Rows, i: nat, owner: string) {
    i in rows && rows[i].userId == owner
  }

  predicate Dead(rows: Rows, i: nat, owner: string, push: Push) {
    DeviceOf(rows, i, owner) && IsUnregistered(push.answer(rows[i].token)) && !push.deleteFails(rows[i].token)
  }

  /** The owner's tokens that are unregistered and whose deletion succeeds. */
  function DeadTokens(rows: Rows, owner: string, push: Push): set<string> {
    set i | i in rows && Dead(rows, i, owner, push) :: rows[i].token
  }

  /** Some device of the owner could not be reached for another reason. */
  ghost predicate OtherTrouble(rows: Rows, owner: string, push: Push) {
    exists i :: DeviceOf(rows, i, owner) && !push.answer(rows[i].token).Delivered?
        && !IsUnregistered(push.answer(rows[i].token))
  }

  // ---- what the loops compute, in terms of the table ----

  /** The list holds the owner's rows. */
  ghost predicate Lists(devices: seq<Device>, rows: Rows, owner: string) {
    && TableOk(rows)
    && forall d :: d in devices <==> exists i :: i in rows && rows[i] == d && d.userId == owner
  }

  function Answers(devices: seq<Device>, push: Push): (r: seq<SendOutcome>)
    ensures |r| == |devices| && forall k :: 0 <= k < |r| ==> r[k] == push.answer(devices[k].token)
  {
    seq(|devices|, k requires 0 <= k < |devices| => push.answer(devices[k].token))
  }

  function Deletions(failures: seq<SendFailure>, push: Push): (r: seq<bool>)
    ensures |r| == |failures| && forall k :: 0 <= k < |r| ==> r[k] == push.deleteFails(failures[k].token)
  {
    seq(|failures|, k requires 0 <= k < |failures| => push.deleteFails(failures[k].token))
  }

  lemma {:induction false} UndeliveredFail(devices: seq<Device>, outcomes: seq<SendOutcome>, k: nat)
    requires k < |devices| == |outcomes| && Text.Trim(devices[k].token) != "" && !outcomes[k].Delivered?
    ensures SendFailure(Text.Trim(devices[k].token), IsUnregistered(outcomes[k])) in Failures(devices, outcomes)
  {
    if k < |devices| - 1 {
      UndeliveredFail(Front(devices), Front(outcomes), k);
    }
  }

  lemma RowOfDevice(devices: seq<Device>, rows: Rows, owner: string, k: nat) returns (i: nat)
    requires Lists(devices, rows, owner) && k < |devices|
    ensures DeviceOf(rows, i, owner) && rows[i] == devices[k] && RowOk(rows, i)
  {
    assert devices[k] in devices;
    i :| i in rows && rows[i] == devices[k] && devices[k].userId == owner;
    assert RowOk(rows, i);
  }

  lemma FailureIsDevice(devices: seq<Device>, rows: Rows, owner: string, push: Push, f: SendFailure) returns (i: nat)
    requires Lists(devices, rows, owner) && f in Failures(devices, Answers(devices, push))
    ensures DeviceOf(rows, i, owner) && f == SendFailure(rows[i].token, IsUnregistered(push.answer(rows[i].token)))
    ensures !push.answer(rows[i].token).Delivered? && f.token != "" && Text.Trim(f.token) == f.token
  {
    var outcomes := Answers(devices, push);
    FailedTokensAreDevices(devices, outcomes, f);
    var k: nat :| FailsAt(devices, outcomes, k, f);
    i := RowOfDevice(devices, rows, owner, k);
  }

  lemma DeviceIsFailure(devices: seq<Device>, rows: Rows, owner: string, push: Push, i: nat)
    requires Lists(devices, rows, owner) && DeviceOf(rows, i, owner) && !push.answer(rows[i].token).Delivered?
    ensures SendFailure(rows[i].token, IsUnregistered(push.answer(rows[i].token)))
        in Failures(devices, Answers(devices, push))
  {
    assert RowOk(rows, i);
    assert rows[i] in devices;
    var k :| 0 <= k < |devices| && devices[k] == rows[i];
    UndeliveredFail(devices, Answers(devices, push), k);
  }

  lemma RemovedAreDead(devices: seq<Device>, rows: Rows, owner: string, push: Push)
    requires Lists(devices, rows, owner)
    ensures
      var failures := Failures(devices, Answers(devices, push));
      Removed(failures, Deletions(failures, push)) == DeadTokens(rows, owner, push)
  {
    var failures := Failures(devices, Answers(devices, push));
    var removed := Removed(failures, Deletions(failures, push));
    forall token | token in removed ensures token in DeadTokens(rows, owner, push) {
      var n :| 0 <= n < |failures| && failures[n].invalid && Text.Trim(failures[n].token) == token
          && !Deletions(failures, push)[n];
      var i := FailureIsDevice(devices, rows, owner, push, failures[n]);
    }
    forall token | token in DeadTokens(rows, owner, push) ensures token in removed {
      var i :| i in rows && Dead(rows, i, owner, push) && rows[i].token == token;
      assert RowOk(rows, i);
      DeviceIsFailure(devices, rows, owner, push, i);
      var n :| 0 <= n < |failures| && failures[n] == SendFailure(token, true);
      assert Text.Trim(failures[n].token) == token && token != "" && !Deletions(failures, push)[n];
    }
  }

  lemma {:induction false} OtherFailuresMean(failures: seq<SendFailure>)
    ensures OtherFailures(failures) != [] <==> exists f :: f in failures && !f.invalid
  {
    if failures != [] {
      OtherFailuresMean(Front(failures));
      assert failures == Front(failures) + [Last(failures)];
    }
  }

  lemma TroubleIsReported(devices: seq<Device>, rows: Rows, owner: string, push: Push)
    requires Lists(devices, rows, owner)
    ensures OtherFailures(Failures(devices, Answers(devices, push))) != [] <==> OtherTrouble(rows, owner, push)
  {
    var failures := Failures(devices, Answers(devices, push));
    OtherFailuresMean(failures);
    if f :| f in failures && !f.invalid {
      var i := FailureIsDevice(devices, rows, owner, push, f);
    }
    if OtherTrouble(rows, owner, push) {
      var i :| DeviceOf(rows, i, owner) && !push.answer(rows[i].token).Delivered?
          && !IsUnregistered(push.answer(rows[i].token));
      DeviceIsFailure(devices, rows, owner, push, i);
    }
  }

  class AlertUseCase {
    const db: AlertDatabase
    const alerts: AlertRepository
    const mobileDevices: MobileDeviceRepository

    constructor (db: AlertDatabase, mobileDevices: MobileDeviceRepository)
      ensures this.db == db && this.mobileDevices == mobileDevices && Wired()
    {
      this.db := db;
      this.mobileDevices := mobileDevices;
      alerts := new AlertRepository(db);
    }

    ghost predicate Wired() {
      alerts.db == db && (db as object) != mobileDevices
    }

    /** Whatever the other calls do between its statements, the delivery takes the
        steps of the machine; a duplicate is answered with a newest stored alert. */
    method Store(m: Message, newId: nat, env: seq<Moment>) returns (r: CreateResult, owner: string)
      requires alerts.db == db && |env| == ALERT_STEPS
      modifies db
      ensures
        match NewAlertCall(m)
        case None => r == Refused(InvalidInput) && db.Store() == old(db.Store())
        case Some(c0) =>
          var (s, c) := RunAlert(env, newId, old(db.Store()), c0);
          && db.Store() == s && c.pc.Finished?
          && match c.pc.outcome
             case NoAgent => r == Refused(AgentNotFound)
             case Gone => r == Refused(ConstraintViolation)
             case Saved(alert) => r == Stored(alert, false) && owner == c.owner
             case Duplicate =>
               var since := TriggeredAt(c0, env[1].now) - DUPLICATE_ALERT_WINDOW;
               r.Existing? && IsRecent(env[1].store.alerts, r.alert, c.agentId, c.kind, since)
    {
      owner := "";
      var id, kind := Text.Trim(m.agentId), NormalizeAlertType(m.kind);
      if id == "" || kind == "" {
        return Refused(InvalidInput), owner;
      }
      ghost var c := NewAlertCall(m).value;
      ghost var all := RunAlert(env, newId, db.Store(), c);

      c := AlertStep(env[0].store, env[0].now, newId, c).1;
      db.Interfere(env[0].store);
      var rest := env[1..];
      assert RunAlert(rest, newId, db.Store(), c) == all;
      if id !in db.agents || Text.Trim(db.agents[id]) == "" {
        return Refused(AgentNotFound), owner;
      }
      owner := db.agents[id];

      c := AlertStep(rest[0].store, rest[0].now, newId, c).1;
      var triggeredAt := if m.at.Some? then m.at.value else rest[0].now;
      db.Interfere(rest[0].store);
      rest := rest[1..];
      assert RunAlert(rest, newId, db.Store(), c) == all;
      var recent := alerts.FindRecentByAgentAndType(id, kind, triggeredAt - DUPLICATE_ALERT_WINDOW);
      if recent.Some? {
        FindRecentMeans(env[1].store.alerts, id, kind, triggeredAt - DUPLICATE_ALERT_WINDOW);
        return Existing(recent.value), owner;
      }

      c := AlertStep(rest[0].store, rest[0].now, newId, c).1;
      db.Interfere(rest[0].store);
      var clock := rest[0].now;
      rest := rest[1..];
      var alert := alerts.Save(newId, id, kind, Some(triggeredAt), clock);
      assert RunAlert(rest, newId, db.Store(), c) == all;
      r := if alert.Some? then Stored(alert.value, false) else Refused(ConstraintViolation);
    }

    /** The alert is stored as above; if it is, the device table then met loses
        exactly the owner's dead tokens. */
    method CreateAlertFromAgent(m: Message, newId: nat, env: seq<Moment>, devicesThen: Rows, push: Option<Push>)
      returns (r: CreateResult)
      requires Wired() && TableOk(mobileDevices.rows) && TableOk(devicesThen) && |env| == ALERT_STEPS
      modifies db, mobileDevices
      ensures TableOk(mobileDevices.rows)
      ensures
        match NewAlertCall(m)
        case None =>
          && r == Refused(InvalidInput)
          && db.Store() == old(db.Store()) && mobileDevices.rows == old(mobileDevices.rows)
        case Some(c0) =>
          var (s, c) := RunAlert(env, newId, old(db.Store()), c0);
          && db.Store() == s && c.pc.Finished?
          && (!c.pc.outcome.Saved? ==> mobileDevices.rows == old(mobileDevices.rows))
          && match c.pc.outcome
             case NoAgent => r == Refused(AgentNotFound)
             case Gone => r == Refused(ConstraintViolation)
             case Duplicate =>
               var since := TriggeredAt(c0, env[1].now) - DUPLICATE_ALERT_WINDOW;
               r.Existing? && IsRecent(env[1].store.alerts, r.alert, c.agentId, c.kind, since)
             case Saved(alert) =>
               && r.Stored? && r.alert == alert
               && mobileDevices.rows ==
                    (if push.Some? && push.value.haveAccess
                     then WithoutTokens(devicesThen, DeadTokens(devicesThen, c.owner, push.value))
                     else devicesThen)
               && (r.failed <==> push.Some? && (exists i :: DeviceOf(devicesThen, i, c.owner))
                                 && (!push.value.haveAccess || OtherTrouble(devicesThen, c.owner, push.value)))
    {
      var owner: string;
      r, owner := Store(m, newId, env);
      if r.Stored? {
        mobileDevices.Interfere(devicesThen);
        if push.Some? {
          var failed := Notify(owner, push.value);
          r := r.(failed := failed);
        }
      }
    }

    /** Notification of one user's devices, and the cleanup after it. */
    method Notify(owner: string, push: Push) returns (failed: bool)
      requires TableOk(mobileDevices.rows)
      modifies mobileDevices
      ensures TableOk(mobileDevices.rows)
      ensures mobileDevices.rows ==
        if push.haveAccess then WithoutTokens(old(mobileDevices.rows), DeadTokens(old(mobileDevices.rows), owner, push))
        else old(mobileDevices.rows)
      ensures failed <==> (exists i :: DeviceOf(old(mobileDevices.rows), i, owner))
                          && (!push.haveAccess || OtherTrouble(old(mobileDevices.rows), owner, push))
    {
      ghost var rows := mobileDevices.rows;
      var devices := mobileDevices.FindByUserID(owner);
      RemovedAreDead(devices, rows, owner, push);
      TroubleIsReported(devices, rows, owner, push);
      RemovalKeepsTable(rows, DeadTokens(rows, owner, push));
      assert WithoutTokens(rows, {}) == rows;
      if devices == [] {
        NoDevices(rows, owner, push);
        return false;
      }
      SomeDevice(devices, rows, owner);
      var outcomes := Answers(devices, push);
      var report, ok := SendAlert(devices, outcomes, push.haveAccess);
      var removed, others := CleanupInvalidNotificationTokens(mobileDevices, report.failed,
          Deletions(report.failed, push));
      if others != [] {
        return true;
      }
      failed := !ok && report.failed == [];
    }
  }

  lemma NoDevices(rows: Rows, owner: string, push: Push)
    requires Lists([], rows, owner)
    ensures DeadTokens(rows, owner, push) == {} && !exists i :: DeviceOf(rows, i, owner)
  {
    var none: seq<Device> := [];
    assert forall i :: DeviceOf(rows, i, owner) ==> rows[i] in none;
  }

  lemma SomeDevice(devices: seq<Device>, rows: Rows, owner: string)
    requires Lists(devices, rows, owner) && devices != []
    ensures exists i :: DeviceOf(rows, i, owner)
  {
    var i := RowOfDevice(devices, rows, owner, 0);
  }
}
