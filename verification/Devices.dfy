/** The mobile device table, the fan-out of one notification, and the cleanup of
    the tokens it found to be dead. */
module Devices {
  import opened Base
  import Text

  datatype Device = Device(id: nat, userId: string, token: string, platform: string)

  /** The rows of mobile_devices by primary key. */
  type Rows = map<nat, Device>

  predicate HasToken(rows: Rows, i: nat, token: string) {
    i in rows && rows[i].token == token
  }

  ghost predicate TokenTaken(rows: Rows, token: string) {
    exists i :: HasToken(rows, i, token)
  }

  /** ON CONFLICT (fcm_token): the row that is inserted or rewritten. */
  ghost function TargetId(rows: Rows, token: string, newId: nat): nat {
    if TokenTaken(rows, token) then
      var i: nat :| HasToken(rows, i, token);
      i
    else newId
  }

  predicate Superseded(d: Device, saved: Device) {
    d.userId == saved.userId && d.platform == saved.platform && d.token != saved.token
  }

  /** Insert or move the token, then drop the user's other rows for that platform. */
  ghost function UpsertRows(rows: Rows, newId: nat, userId: string, token: string, platform: string): Rows {
    var saved := Device(TargetId(rows, token, newId), userId, token, platform);
    var written := rows[saved.id := saved];
    map i | i in written && !Superseded(written[i], saved) :: written[i]
  }

  function WithoutTokens(rows: Rows, tokens: set<string>): Rows {
    map i | i in rows && rows[i].token !in tokens :: rows[i]
  }

  // ---- the two-key invariant ----

  predicate RowOk(rows: Rows, i: nat)
    requires i in rows
  {
    rows[i].id == i && rows[i].token != "" && Text.Trim(rows[i].token) == rows[i].token
  }

  predicate RowsDiffer(rows: Rows, i: nat, j: nat)
    requires i in rows && j in rows
  {
    var d, e := rows[i], rows[j];
    d.token == e.token || (d.userId == e.userId && d.platform == e.platform) ==> i == j
  }

  /** Tokens are trimmed and unique, and a user has at most one row per platform. */
  ghost predicate TableOk(rows: Rows) {
    && (forall i {:trigger RowOk(rows, i)} :: i in rows ==> RowOk(rows, i))
    && (forall i, j {:trigger RowsDiffer(rows, i, j)} :: i in rows && j in rows ==> RowsDiffer(rows, i, j))
  }

  lemma OnlyTarget(rows: Rows, newId: nat, token: string, i: nat)
    requires TableOk(rows) && HasToken(rows, i, token)
    ensures TargetId(rows, token, newId) == i
  {
    assert TokenTaken(rows, token);
    assert RowsDiffer(rows, i, TargetId(rows, token, newId));
  }

  /** After registering, the user's only row for the platform holds the token, the
      token is nobody else's, and every row that shares neither is untouched. */
  lemma UpsertMeaning(rows: Rows, newId: nat, userId: string, token: string, platform: string, i: nat)
    requires TableOk(rows) && newId !in rows
    ensures
      var rows' := UpsertRows(rows, newId, userId, token, platform);
      var k := TargetId(rows, token, newId);
      && k in rows' && rows'[k] == Device(k, userId, token, platform)
      && (i in rows' && i != k
          <==> i in rows && rows[i].token != token && !(rows[i].userId == userId && rows[i].platform == platform))
      && (i in rows' && i != k ==> rows'[i] == rows[i])
  {
    if i in rows && rows[i].token == token {
      OnlyTarget(rows, newId, token, i);
    }
    if i in rows && i == TargetId(rows, token, newId) {
      assert TokenTaken(rows, token);
    }
  }

  lemma UpsertKeepsTable(rows: Rows, newId: nat, userId: string, token: string, platform: string)
    requires TableOk(rows) && newId !in rows && token != "" && Text.Trim(token) == token
    ensures TableOk(UpsertRows(rows, newId, userId, token, platform))
  {
    var k := TargetId(rows, token, newId);
    var rows' := UpsertRows(rows, newId, userId, token, platform);
    forall i | i in rows' ensures RowOk(rows', i) {
      if i != k { assert RowOk(rows, i); }
    }
    forall i, j | i in rows' && j in rows' ensures RowsDiffer(rows', i, j) {
      UpsertMeaning(rows, newId, userId, token, platform, i);
      UpsertMeaning(rows, newId, userId, token, platform, j);
      if i != k && j != k {
        assert RowsDiffer(rows, i, j);
      }
    }
  }

  lemma RemovalKeepsTable(rows: Rows, tokens: set<string>)
    requires TableOk(rows)
    ensures TableOk(WithoutTokens(rows, tokens))
  {
    var rows' := WithoutTokens(rows, tokens);
    forall i | i in rows' ensures RowOk(rows', i) { assert RowOk(rows, i); }
    forall i, j | i in rows' && j in rows' ensures RowsDiffer(rows', i, j) { assert RowsDiffer(rows, i, j); }
  }

  /** Removing tokens that the table holds removes one row for each. */
  lemma {:induction false} RemovalCounts(rows: Rows, tokens: set<string>)
    requires TableOk(rows) && forall token :: token in tokens ==> TokenTaken(rows, token)
    ensures |rows| == |WithoutTokens(rows, tokens)| + |tokens|
    decreases |tokens|
  {
    if tokens == {} {
      assert WithoutTokens(rows, tokens) == rows;
    } else {
      var token :| token in tokens;
      var i :| HasToken(rows, i, token);
      var fewer := WithoutTokens(rows, {token});
      forall j | j in rows && j != i ensures rows[j].token != token { assert RowsDiffer(rows, i, j); }
      assert fewer.Keys == rows.Keys - {i};
      assert |fewer.Keys| == |fewer| && |rows.Keys| == |rows|;
      RemovalKeepsTable(rows, {token});
      forall other | other in tokens - {token} ensures TokenTaken(fewer, other) {
        var j :| HasToken(rows, j, other);
        assert HasToken(fewer, j, other);
      }
      RemovalCounts(fewer, tokens - {token});
      assert WithoutTokens(fewer, tokens - {token}) == WithoutTokens(rows, tokens);
    }
  }

  // ---- the repository ----

  class MobileDeviceRepository {
    var rows: Rows

    constructor ()
      ensures rows == map[] && TableOk(rows)
    {
      rows := map[];
    }

    /** Other calls run: the table may become anything that keeps its keys. */
    method Interfere(rows: Rows)
      modifies this
      ensures this.rows == rows
    {
      this.rows := rows;
    }

    /** One transaction: the cleanup sees the written row, and nothing is visible before the commit. */
    method Upsert(newId: nat, userId: string, token: string, platform: string) returns (saved: Device)
      requires TableOk(rows) && newId !in rows
      modifies this
      ensures rows == UpsertRows(old(rows), newId, userId, token, platform)
      ensures saved == Device(TargetId(old(rows), token, newId), userId, token, platform)
      ensures saved.id in rows && rows[saved.id] == saved
    {
      var id := newId;
      if i :| i in rows && rows[i].token == token {
        assert HasToken(rows, i, token);
        OnlyTarget(rows, newId, token, i);
        id := i;
      } else {
        assert !TokenTaken(rows, token);
      }
      saved := Device(id, userId, token, platform);
      var written := rows[id := saved];
      rows := map i | i in written && !Superseded(written[i], saved) :: written[i];
    }

    method DeleteByFCMToken(token: string)
      modifies this
      ensures rows == WithoutTokens(old(rows), {token})
    {
      rows := map i | i in rows && rows[i].token !in {token} :: rows[i];
    }

    /** Every row of the user once. */
    method FindByUserID(userId: string) returns (devices: seq<Device>)
      requires TableOk(rows)
      ensures forall d :: d in devices <==> exists i :: i in rows && rows[i] == d && d.userId == userId
      ensures forall k, l :: 0 <= k < l < |devices| ==> devices[k] != devices[l]
    {
      devices := [];
      var left := rows.Keys;
      while left != {}
        invariant left <= rows.Keys
        invariant forall d ::
          d in devices <==> exists i :: i in rows && i !in left && rows[i] == d && d.userId == userId
        invariant forall k, l :: 0 <= k < l < |devices| ==> devices[k] != devices[l]
        decreases left
      {
        var i :| i in left;
        if rows[i].userId == userId {
          assert RowOk(rows, i);
          forall d | d in devices ensures d != rows[i] {
            var j :| j in rows && j !in left && rows[j] == d && d.userId == userId;
            assert RowOk(rows, j);
          }
          devices := devices + [rows[i]];
        }
        left := left - {i};
      }
    }

    /** RegisterMobileDevice: rejects blank fields, stores trimmed ones. */
    method Register(newId: nat, userId: string, fcmToken: string, platform: string) returns (saved: Option<Device>)
      requires TableOk(rows) && newId !in rows
      modifies this
      ensures TableOk(rows)
      ensures
        var u, t, p := Text.Trim(userId), Text.Trim(fcmToken), Text.Trim(Text.ToLower(platform));
        if u == "" || t == "" || p == "" then saved.None? && rows == old(rows)
        else
          && rows == UpsertRows(old(rows), newId, u, t, p)
          && saved == Some(Device(TargetId(old(rows), t, newId), u, t, p))
    {
      var u, t, p := Text.Trim(userId), Text.Trim(fcmToken), Text.Trim(Text.ToLower(platform));
      if u == "" || t == "" || p == "" {
        return None;
      }
      Text.TrimIsTrimmed(fcmToken);
      Text.TrimIsTrimmed(t);
      UpsertKeepsTable(rows, newId, u, t, p);
      var device := Upsert(newId, u, t, p);
      saved := Some(device);
    }
  }

  // ---- SendAlert ----

  /** What the push service answers for one token. */
  datatype SendOutcome = Delivered | Rejected(code: string) | Unreachable

  datatype SendFailure = SendFailure(token: string, invalid: bool)

  datatype SendReport = SendReport(targeted: nat, sent: nat, failed: seq<SendFailure>)

  /** isInvalidFCMTokenError: strings.EqualFold with UNREGISTERED. */
  predicate IsInvalid(o: SendOutcome) {
    o.Rejected? && Text.ToUpper(o.code) == "UNREGISTERED"
  }

  /** Each character is that of the one spelling or that of the other. */
  predicate Spells(code: string, capitals: string, small: string)
    requires |capitals| == |small|
  {
    if code == "" || capitals == "" then code == "" && capitals == ""
    else (code[0] == capitals[0] || code[0] == small[0]) && Spells(code[1..], capitals[1..], small[1..])
  }

  /** The push service says that the token is unregistered, in any mixture of cases. */
  predicate IsUnregistered(o: SendOutcome) {
    o.Rejected? && Spells(o.code, "UNREGISTERED", "unregistered")
  }

  lemma {:induction false} SpellsMeans(code: string, capitals: string, small: string)
    requires |capitals| == |small|
    ensures Spells(code, capitals, small)
      <==> |code| == |capitals| && forall i :: 0 <= i < |code| ==> code[i] == capitals[i] || code[i] == small[i]
  {
    if code != "" && capitals != "" {
      var c, p, q := code[1..], capitals[1..], small[1..];
      SpellsMeans(c, p, q);
      if |code| == |capitals| && forall i :: 0 <= i < |code| ==> code[i] == capitals[i] || code[i] == small[i] {
        forall i | 0 <= i < |c| ensures c[i] == p[i] || c[i] == q[i] { assert code[i + 1] == c[i]; }
      }
      if Spells(code, capitals, small) {
        forall i | 0 <= i < |code| ensures code[i] == capitals[i] || code[i] == small[i] {
          if i > 0 { assert code[i] == c[i - 1]; }
        }
      }
    }
  }

  lemma UpperIs(c: char, i: nat)
    requires i < 12
    ensures Text.UpperChar(c) == "UNREGISTERED"[i] <==> c == "UNREGISTERED"[i] || c == "unregistered"[i]
  {
  }

  /** The backend's test for a dead token: exactly the answers that say unregistered. */
  lemma InvalidIsUnregistered(o: SendOutcome)
    ensures IsInvalid(o) <==> IsUnregistered(o)
    ensures IsInvalid(o) <==>
      o.Rejected? && |o.code| == 12
      && forall i :: 0 <= i < 12 ==> o.code[i] == "UNREGISTERED"[i] || o.code[i] == "unregistered"[i]
  {
    if o.Rejected? {
      SpellsMeans(o.code, "UNREGISTERED", "unregistered");
      if |o.code| == 12 {
        forall i | 0 <= i < 12
          ensures Text.ToUpper(o.code)[i] == "UNREGISTERED"[i]
            <==> o.code[i] == "UNREGISTERED"[i] || o.code[i] == "unregistered"[i]
        {
          UpperIs(o.code[i], i);
        }
        if IsUnregistered(o) {
          assert Text.ToUpper(o.code) == "UNREGISTERED";
        }
      }
    }
  }

  function Addressed(devices: seq<Device>): nat {
    if devices == [] then 0
    else Addressed(Front(devices)) + if Text.Trim(Last(devices).token) == "" then 0 else 1
  }

  function Failures(devices: seq<Device>, outcomes: seq<SendOutcome>): seq<SendFailure>
    requires |devices| == |outcomes|
  {
    if devices == [] then []
    else
      var token := Text.Trim(Last(devices).token);
      Failures(Front(devices), Front(outcomes)) +
      if token == "" || Last(outcomes).Delivered? then [] else [SendFailure(token, IsUnregistered(Last(outcomes)))]
  }

  /** The device has a token, and its message was not delivered. */
  predicate Undelivered(devices: seq<Device>, outcomes: seq<SendOutcome>, k: nat)
    requires |devices| == |outcomes|
  {
    k < |devices| && Text.Trim(devices[k].token) != "" && !outcomes[k].Delivered?
  }

  function FailureOf(d: Device, o: SendOutcome): SendFailure {
    SendFailure(Text.Trim(d.token), IsUnregistered(o))
  }

  /** The failures are those of the undelivered devices, in their order, each once:
      at[n] is the device of failure n. */
  ghost predicate AreFailures(devices: seq<Device>, outcomes: seq<SendOutcome>, failures: seq<SendFailure>,
      at: seq<nat>)
    requires |devices| == |outcomes|
  {
    && |at| == |failures| && (forall n, o :: 0 <= n < o < |at| ==> at[n] < at[o])
    && (forall k :: k in at <==> Undelivered(devices, outcomes, k))
    && (forall n :: 0 <= n < |at| ==> at[n] < |devices| && failures[n] == FailureOf(devices[at[n]], outcomes[at[n]]))
  }

  lemma OneMoreDevice(devices: seq<Device>, outcomes: seq<SendOutcome>, k: nat)
    requires devices != [] && |devices| == |outcomes| && k < |devices| - 1
    ensures Undelivered(devices, outcomes, k) == Undelivered(Front(devices), Front(outcomes), k)
    ensures FailureOf(devices[k], outcomes[k]) == FailureOf(Front(devices)[k], Front(outcomes)[k])
  {
  }

  lemma MoreFailures(devices: seq<Device>, outcomes: seq<SendOutcome>, failures: seq<SendFailure>, at: seq<nat>)
    requires devices != [] && |devices| == |outcomes| && AreFailures(Front(devices), Front(outcomes), failures, at)
    ensures
      var n := |devices| - 1;
      if Undelivered(devices, outcomes, n)
      then AreFailures(devices, outcomes, failures + [FailureOf(devices[n], outcomes[n])], at + [n])
      else AreFailures(devices, outcomes, failures, at)
  {
    var n := |devices| - 1;
    forall k: nat | k < n
      ensures Undelivered(devices, outcomes, k) == Undelivered(Front(devices), Front(outcomes), k)
    {
      OneMoreDevice(devices, outcomes, k);
    }
    forall i | 0 <= i < |at| ensures at[i] < n && failures[i] == FailureOf(devices[at[i]], outcomes[at[i]]) {
      OneMoreDevice(devices, outcomes, at[i]);
    }
    forall k: nat ensures k in at + [n] <==> k in at || k == n {}
  }

  lemma {:induction false} FailuresMean(devices: seq<Device>, outcomes: seq<SendOutcome>) returns (at: seq<nat>)
    requires |devices| == |outcomes|
    ensures AreFailures(devices, outcomes, Failures(devices, outcomes), at)
  {
    at := [];
    if devices != [] {
      at := FailuresMean(Front(devices), Front(outcomes));
      MoreFailures(devices, outcomes, Failures(Front(devices), Front(outcomes)), at);
      var n := |devices| - 1;
      if Undelivered(devices, outcomes, n) {
        at := at + [n];
      } else {
        assert Failures(devices, outcomes) == Failures(Front(devices), Front(outcomes));
      }
    }
  }

  function AddressedDevices(devices: seq<Device>): set<nat> {
    set k: nat | k < |devices| && Text.Trim(devices[k].token) != ""
  }

  /** Exactly the devices with a token are addressed. */
  lemma {:induction false} AddressedMeans(devices: seq<Device>)
    ensures Addressed(devices) == |AddressedDevices(devices)|
  {
    if devices != [] {
      var front, n := Front(devices), |devices| - 1;
      var before, all := AddressedDevices(front), AddressedDevices(devices);
      AddressedMeans(front);
      assert all - {n} == before - {n};
      SetAfter(before, all, n);
    }
  }

  /** Every device with a token is targeted, and is either sent to or failed. */
  method SendAlert(devices: seq<Device>, outcomes: seq<SendOutcome>, haveAccess: bool)
    returns (report: SendReport, ok: bool)
    requires |devices| == |outcomes|
    ensures report.targeted == report.sent + |report.failed|
    ensures haveAccess ==> report.targeted == Addressed(devices) && report.failed == Failures(devices, outcomes)
    ensures haveAccess ==> (ok <==> report.failed == [])
    ensures !haveAccess ==> !ok && report == SendReport(0, 0, [])
  {
    report := SendReport(0, 0, []);
    if !haveAccess {
      return report, false;
    }
    for k := 0 to |devices|
      invariant report.targeted == report.sent + |report.failed| == Addressed(devices[..k])
      invariant report.failed == Failures(devices[..k], outcomes[..k])
    {
      assert Front(devices[..k + 1]) == devices[..k] && Front(outcomes[..k + 1]) == outcomes[..k];
      var token := Text.Trim(devices[k].token);
      if token == "" {
        continue;
      }
      report := report.(targeted := report.targeted + 1);
      InvalidIsUnregistered(outcomes[k]);
      if !outcomes[k].Delivered? {
        report := report.(failed := report.failed + [SendFailure(token, IsInvalid(outcomes[k]))]);
        continue;
      }
      report := report.(sent := report.sent + 1);
    }
    assert devices[..|devices|] == devices && outcomes[..|outcomes|] == outcomes;
    ok := report.failed == [];
  }

  // ---- cleanup ----

  /** The dead tokens whose deletion succeeded at least once. */
  function Removed(failures: seq<SendFailure>, deleteFails: seq<bool>): set<string>
    requires |failures| == |deleteFails|
  {
    set i | 0 <= i < |failures| && failures[i].invalid && Text.Trim(failures[i].token) != "" && !deleteFails[i]
      :: Text.Trim(failures[i].token)
  }

  function OtherFailures(failures: seq<SendFailure>): seq<SendFailure> {
    if failures == [] then []
    else OtherFailures(Front(failures)) + if Last(failures).invalid then [] else [Last(failures)]
  }

  lemma RemovedGrows(failures: seq<SendFailure>, deleteFails: seq<bool>, k: nat)
    requires k < |failures| == |deleteFails|
    ensures
      var token := Text.Trim(failures[k].token);
      Removed(failures[..k + 1], deleteFails[..k + 1])
        == Removed(failures[..k], deleteFails[..k]) + if failures[k].invalid && token != "" && !deleteFails[k]
            then {token} else {}
  {
    var fs, ds := failures[..k + 1], deleteFails[..k + 1];
    forall i | 0 <= i < k ensures fs[i] == failures[..k][i] && ds[i] == deleteFails[..k][i] {}
    assert fs[k] == failures[k] && ds[k] == deleteFails[k];
  }

  lemma WithoutMore(rows: Rows, tokens: set<string>, token: string)
    ensures WithoutTokens(WithoutTokens(rows, tokens), {token}) == WithoutTokens(rows, tokens + {token})
    ensures token in tokens ==> tokens + {token} == tokens
  {
  }

  /** deleteFails[k] says that a deletion issued for failure k would fail. */
  method CleanupInvalidNotificationTokens(devices: MobileDeviceRepository, failures: seq<SendFailure>,
      deleteFails: seq<bool>)
    returns (removed: nat, others: seq<SendFailure>)
    requires |failures| == |deleteFails|
    modifies devices
    ensures devices.rows == WithoutTokens(old(devices.rows), Removed(failures, deleteFails))
    ensures removed == |Removed(failures, deleteFails)|
    ensures others == OtherFailures(failures)
  {
    others := [];
    var removedTokens: set<string> := {};
    assert WithoutTokens(devices.rows, {}) == devices.rows;
    for k := 0 to |failures|
      invariant removedTokens == Removed(failures[..k], deleteFails[..k])
      invariant devices.rows == WithoutTokens(old(devices.rows), removedTokens)
      invariant others == OtherFailures(failures[..k])
    {
      RemovedGrows(failures, deleteFails, k);
      assert Front(failures[..k + 1]) == failures[..k];
      if !failures[k].invalid {
        others := others + [failures[k]];
        continue;
      }
      var token := Text.Trim(failures[k].token);
      WithoutMore(old(devices.rows), removedTokens, token);
      if token == "" {
        continue;
      }
      if token in removedTokens {
        continue;
      }
      if deleteFails[k] {
        continue;
      }
      devices.DeleteByFCMToken(token);
      removedTokens := removedTokens + {token};
    }
    assert failures[..|failures|] == failures && deleteFails[..|deleteFails|] == deleteFails;
    removed := |removedTokens|;
  }

  // ---- the three together ----

  /** Failure f is that of device k. */
  predicate FailsAt(devices: seq<Device>, outcomes: seq<SendOutcome>, k: nat, f: SendFailure)
    requires |devices| == |outcomes|
  {
    k < |devices| && f == SendFailure(Text.Trim(devices[k].token), IsUnregistered(outcomes[k]))
        && !outcomes[k].Delivered?
  }

  lemma {:induction false} FailedTokensAreDevices(devices: seq<Device>, outcomes: seq<SendOutcome>, f: SendFailure)
    requires |devices| == |outcomes| && f in Failures(devices, outcomes)
    ensures exists k: nat :: FailsAt(devices, outcomes, k, f)
  {
    if f in Failures(Front(devices), Front(outcomes)) {
      FailedTokensAreDevices(Front(devices), Front(outcomes), f);
      var k: nat :| FailsAt(Front(devices), Front(outcomes), k, f);
      assert FailsAt(devices, outcomes, k, f);
    } else {
      assert FailsAt(devices, outcomes, |devices| - 1, f);
    }
  }

  /** Fan-out and cleanup over the devices of the table: only tokens the push
      service called unregistered go, each takes exactly one row with it, and the
      number reported is the number of rows gone. */
  lemma CleanupIsConservative(rows: Rows, devices: seq<Device>, outcomes: seq<SendOutcome>, deleteFails: seq<bool>)
    requires TableOk(rows) && |devices| == |outcomes| && |deleteFails| == |Failures(devices, outcomes)|
    requires forall k :: 0 <= k < |devices| ==> devices[k].id in rows && rows[devices[k].id] == devices[k]
    ensures
      var removed := Removed(Failures(devices, outcomes), deleteFails);
      && |rows| == |WithoutTokens(rows, removed)| + |removed|
      && TableOk(WithoutTokens(rows, removed))
      && forall token :: token in removed ==>
           exists k :: 0 <= k < |devices| && devices[k].token == token && IsUnregistered(outcomes[k])
  {
    var failures := Failures(devices, outcomes);
    var removed := Removed(failures, deleteFails);
    forall token | token in removed
      ensures TokenTaken(rows, token)
      ensures exists k :: 0 <= k < |devices| && devices[k].token == token && IsUnregistered(outcomes[k])
    {
      var i :| 0 <= i < |failures| && failures[i].invalid && Text.Trim(failures[i].token) == token;
      FailedTokensAreDevices(devices, outcomes, failures[i]);
      var k: nat :| FailsAt(devices, outcomes, k, failures[i]);
      assert RowOk(rows, devices[k].id);
      assert HasToken(rows, devices[k].id, token);
    }
    RemovalCounts(rows, removed);
    RemovalKeepsTable(rows, removed);
  }

  // ---- whole runs ----

  /** A registration with raw fields, or the removal of some tokens. */
  datatype Action =
    | RegisterDevice(newId: nat, userId: string, fcmToken: string, platform: string)
    | RemoveTokens(tokens: set<string>)

  ghost function Next(rows: Rows, a: Action): Rows {
    match a
    case RegisterDevice(newId, userId, fcmToken, platform) =>
      var u, t, p := Text.Trim(userId), Text.Trim(fcmToken), Text.Trim(Text.ToLower(platform));
      if u == "" || t == "" || p == "" || newId in rows then rows else UpsertRows(rows, newId, u, t, p)
    case RemoveTokens(tokens) => WithoutTokens(rows, tokens)
  }

  ghost function Exec(run: seq<Action>): Rows {
    if run == [] then map[] else Next(Exec(Front(run)), Last(run))
  }

  /** Every run of registrations and cleanups keeps both keys unique and the tokens trimmed. */
  lemma {:induction false} TableStaysOk(run: seq<Action>)
    ensures TableOk(Exec(run))
  {
    if run != [] {
      var rows := Exec(Front(run));
      TableStaysOk(Front(run));
      match Last(run)
      case RegisterDevice(newId, userId, fcmToken, platform) =>
        var u, t, p := Text.Trim(userId), Text.Trim(fcmToken), Text.Trim(Text.ToLower(platform));
        if u != "" && t != "" && p != "" && newId !in rows {
          Text.TrimIsTrimmed(fcmToken);
          Text.TrimIsTrimmed(t);
          UpsertKeepsTable(rows, newId, u, t, p);
        }
      case RemoveTokens(tokens) => RemovalKeepsTable(rows, tokens);
    }
  }
}
