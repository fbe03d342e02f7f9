/** The alert table: its statements, and what spacing in time means for its rows. */
module Alerts {
  import opened Base
  import Text

  const DUPLICATE_ALERT_WINDOW: Time := 5 * SECOND

  /** The least distance of two times that are more than the window apart. */
  const LEAST_GAP: Time := DUPLICATE_ALERT_WINDOW + 1

  datatype Alert = Alert(id: nat, agentId: string, kind: string, at: Time)

  /** Agents with their owners, and the stored alerts in the order they were saved. */
  datatype Store = Store(agents: map<string, string>, alerts: seq<Alert>)

  /** at is None when the message carries no timestamp. */
  datatype Message = Message(agentId: string, kind: string, at: Option<Time>)

  const MOTION_DETECTED := "motion_detected"
  const USB_REMOVED := "usb_removed"
  const PC_AGENT_DISCONNECTED := "pc_agent_disconnected"

  function NormalizeAlertType(kind: string): string {
    var k := Text.Trim(Text.ToLower(kind));
    if k == "motion" || k == "motion_alert" || k == "motion_detected" then MOTION_DETECTED
    else if k == "usb_removed" || k == "usb_disconnected" then USB_REMOVED
    else if k == "pc_agent_disconnected" || k == "agent_disconnected" || k == "unexpected_disconnect"
        then PC_AGENT_DISCONNECTED
    else k
  }

  // ---- statements ----

  predicate Hits(a: Alert, agentId: string, kind: string, since: Time) {
    a.agentId == agentId && a.kind == kind && a.at >= since
  }

  /** ORDER BY triggered_at DESC LIMIT 1 over the rows not older than since. */
  function FindRecent(alerts: seq<Alert>, agentId: string, kind: string, since: Time): Option<Alert> {
    if alerts == [] then None
    else
      var rest := FindRecent(Front(alerts), agentId, kind, since);
      var a := Last(alerts);
      if Hits(a, agentId, kind, since) && (rest.None? || rest.value.at <= a.at) then Some(a) else rest
  }

  /** ON DELETE CASCADE of alerts.pc_agent_id. */
  function WithoutAgent(alerts: seq<Alert>, id: string): seq<Alert> {
    if alerts == [] then []
    else WithoutAgent(Front(alerts), id) + if Last(alerts).agentId == id then [] else [Last(alerts)]
  }

  /** A newest alert of the agent and type that is not older than since. */
  predicate IsRecent(alerts: seq<Alert>, a: Alert, agentId: string, kind: string, since: Time) {
    && a in alerts && Hits(a, agentId, kind, since)
    && forall i :: 0 <= i < |alerts| && Hits(alerts[i], agentId, kind, since) ==> alerts[i].at <= a.at
  }

  lemma {:induction false} FindRecentMeans(alerts: seq<Alert>, agentId: string, kind: string, since: Time)
    ensures
      match FindRecent(alerts, agentId, kind, since)
      case None => forall i :: 0 <= i < |alerts| ==> !Hits(alerts[i], agentId, kind, since)
      case Some(a) => IsRecent(alerts, a, agentId, kind, since)
  {
    if alerts != [] {
      FindRecentMeans(Front(alerts), agentId, kind, since);
      assert alerts == Front(alerts) + [Last(alerts)];
    }
  }

  lemma {:induction false} RemovalKeepsOthers(alerts: seq<Alert>, id: string)
    ensures forall a :: a in WithoutAgent(alerts, id) <==> a in alerts && a.agentId != id
  {
    if alerts != [] {
      RemovalKeepsOthers(Front(alerts), id);
      assert alerts == Front(alerts) + [Last(alerts)];
    }
  }

  // ---- the rows of one agent and type ----

  datatype Key = Key(agentId: string, kind: string)

  function KeyOf(a: Alert): Key {
    Key(a.agentId, a.kind)
  }

  function RowsOf(alerts: seq<Alert>, key: Key): seq<Alert> {
    if alerts == [] then []
    else RowsOf(Front(alerts), key) + if KeyOf(Last(alerts)) == key then [Last(alerts)] else []
  }

  lemma {:induction false} RowsOfMeans(alerts: seq<Alert>, key: Key)
    ensures forall a :: a in RowsOf(alerts, key) <==> a in alerts && KeyOf(a) == key
  {
    if alerts != [] {
      RowsOfMeans(Front(alerts), key);
      assert alerts == Front(alerts) + [Last(alerts)];
    }
  }

  lemma RowsAfterSave(alerts: seq<Alert>, a: Alert, key: Key)
    ensures RowsOf(alerts + [a], key) == RowsOf(alerts, key) + if KeyOf(a) == key then [a] else []
  {
    assert Front(alerts + [a]) == alerts;
  }

  /** Two rows, the earlier saved first, are in order and more than the window apart. */
  predicate Apart(rows: seq<Alert>, i: nat, j: nat)
    requires i < |rows| && j < |rows|
  {
    i < j ==> rows[i].at + DUPLICATE_ALERT_WINDOW < rows[j].at
  }

  ghost predicate Spaced(rows: seq<Alert>) {
    forall i, j {:trigger Apart(rows, i, j)} :: 0 <= i < |rows| && 0 <= j < |rows| ==> Apart(rows, i, j)
  }

  lemma SpacedFront(rows: seq<Alert>)
    requires rows != [] && Spaced(rows)
    ensures Spaced(Front(rows))
  {
    var front := Front(rows);
    forall i, j | 0 <= i < |front| && 0 <= j < |front| ensures Apart(front, i, j) {
      assert Apart(rows, i, j);
    }
  }

  /** A new row keeps spaced rows spaced exactly if it is more than the window after each. */
  lemma SpacedMore(rows: seq<Alert>, a: Alert)
    requires Spaced(rows)
    ensures Spaced(rows + [a]) <==> forall i :: 0 <= i < |rows| ==> rows[i].at + DUPLICATE_ALERT_WINDOW < a.at
  {
    var more := rows + [a];
    if forall i :: 0 <= i < |rows| ==> rows[i].at + DUPLICATE_ALERT_WINDOW < a.at {
      forall i, j | 0 <= i < |more| && 0 <= j < |more| ensures Apart(more, i, j) {
        if i < |rows| && j < |rows| {
          assert Apart(rows, i, j);
        }
      }
    }
    if Spaced(more) {
      forall i | 0 <= i < |rows| ensures rows[i].at + DUPLICATE_ALERT_WINDOW < a.at {
        assert Apart(more, i, |rows|);
      }
    }
  }

  /** Saving keeps the agent's alerts of one type spaced exactly if the query made
      at the time of the save finds nothing. */
  lemma SavingKeepsSpaced(alerts: seq<Alert>, a: Alert)
    requires Spaced(RowsOf(alerts, KeyOf(a)))
    ensures Spaced(RowsOf(alerts + [a], KeyOf(a)))
      <==> FindRecent(alerts, a.agentId, a.kind, a.at - DUPLICATE_ALERT_WINDOW).None?
  {
    var rows, since := RowsOf(alerts, KeyOf(a)), a.at - DUPLICATE_ALERT_WINDOW;
    FindRecentMeans(alerts, a.agentId, a.kind, since);
    RowsOfMeans(alerts, KeyOf(a));
    RowsAfterSave(alerts, a, KeyOf(a));
    SpacedMore(rows, a);
    if FindRecent(alerts, a.agentId, a.kind, since).None? {
      forall i | 0 <= i < |rows| ensures rows[i].at + DUPLICATE_ALERT_WINDOW < a.at {
        assert rows[i] in alerts;
      }
    } else {
      var hit := FindRecent(alerts, a.agentId, a.kind, since).value;
      assert hit in rows;
    }
  }

  // ---- how many fit ----

  /** The times of the rows within [a, b], in the order they were saved. */
  function TimesWithin(rows: seq<Alert>, a: Time, b: Time): seq<Time> {
    if rows == [] then []
    else TimesWithin(Front(rows), a, b) + if a <= Last(rows).at <= b then [Last(rows).at] else []
  }

  /** n times, each more than the window after the one before. */
  predicate Stretched(times: seq<Time>) {
    times != [] ==> times[0] + (|times| - 1) * LEAST_GAP <= Last(times)
  }

  lemma StretchedMore(times: seq<Time>, at: Time)
    requires times != [] && Stretched(times) && Last(times) + DUPLICATE_ALERT_WINDOW < at
    ensures Stretched(times + [at]) && (times + [at])[0] == times[0] && Last(times + [at]) == at
  {
  }

  lemma {:induction false} TimesSpread(rows: seq<Alert>, a: Time, b: Time)
    requires Spaced(rows)
    ensures
      var ts := TimesWithin(rows, a, b);
      ts != [] ==>
        && a <= ts[0] && Last(ts) <= b && Stretched(ts)
        && exists i :: 0 <= i < |rows| && rows[i].at == Last(ts)
  {
    if rows != [] {
      var front, n := Front(rows), |rows| - 1;
      var before := TimesWithin(front, a, b);
      SpacedFront(rows);
      TimesSpread(front, a, b);
      if before != [] {
        var i :| 0 <= i < |front| && front[i].at == Last(before);
        assert rows[i] == front[i];
        assert Apart(rows, i, n);
        StretchedMore(before, rows[n].at);
      }
      assert rows[n] == Last(rows);
    }
  }

  lemma LastIsLargest(rows: seq<Alert>)
    requires Spaced(rows) && rows != []
    ensures forall a :: a in rows ==> a.at <= Last(rows).at
  {
    forall i | 0 <= i < |rows| ensures rows[i].at <= Last(rows).at {
      assert Apart(rows, i, |rows| - 1);
    }
  }

  /** p spaced rows within [a, b] span p - 1 gaps. */
  lemma SpacedSpan(rows: seq<Alert>, a: Time, b: Time, p: nat)
    requires Spaced(rows) && 1 <= p <= |TimesWithin(rows, a, b)|
    ensures (p - 1) * LEAST_GAP <= b - a
  {
    TimesSpread(rows, a, b);
  }
}
