/** What one delivery does and answers when nothing disturbs it, in the rows' own terms. */
module AlertEffects {
  import opened Base
  import opened Alerts
  import opened AlertMachine
  import Text

  /** The aliases of an alert type, in any letter case and with white space around them. */
  lemma AlertTypes(kind: string)
    ensures
      var k, r := Text.Trim(Text.ToLower(kind)), NormalizeAlertType(kind);
      && (k in ["motion", "motion_alert", "motion_detected"] ==> r == "motion_detected")
      && (k in ["usb_removed", "usb_disconnected"] ==> r == "usb_removed")
      && (k in ["pc_agent_disconnected", "agent_disconnected", "unexpected_disconnect"]
          ==> r == "pc_agent_disconnected")
      && (r == k || k in ["motion", "motion_alert", "usb_disconnected", "agent_disconnected", "unexpected_disconnect"])
  {
  }

  predicate IsLower(s: string) {
    forall c :: c in s ==> !('A' <= c <= 'Z')
  }

  lemma LowerStays(s: string)
    requires IsLower(s)
    ensures Text.ToLower(s) == s
  {
    forall i | 0 <= i < |s| ensures Text.ToLower(s)[i] == s[i] {
      assert s[i] in s;
    }
    assert Text.ToLower(s) == s;
  }

  lemma {:induction false} ToLowerIsLower(s: string)
    ensures IsLower(Text.ToLower(s))
  {
    forall c | c in Text.ToLower(s) ensures !('A' <= c <= 'Z') {
      var k :| 0 <= k < |s| && Text.ToLower(s)[k] == c;
    }
  }

  lemma {:induction false} TrimKeepsLower(s: string)
    requires IsLower(s)
    ensures IsLower(Text.Trim(s)) && Text.Trim(Text.Trim(s)) == Text.Trim(s)
  {
    var i, j := Text.TrimCuts(s);
    forall c | c in s[i..j] ensures !('A' <= c <= 'Z') {
      assert c in s;
    }
    Text.TrimIsTrimmed(s);
    Text.TrimIsTrimmed(Text.Trim(s));
  }

  lemma {:induction false} KnownTypesAreNormal(kind: string)
    requires kind in ["motion_detected", "usb_removed", "pc_agent_disconnected"]
    ensures Text.Trim(Text.ToLower(kind)) == kind
  {
    assert forall i :: 0 <= i < |kind| ==> Text.LowerChar(kind[i]) == kind[i];
    assert Text.ToLower(kind) == kind;
    Text.TrimIsTrimmed(kind);
  }

  /** A normalised type is its own normal form, so stored types are compared as they are. */
  lemma {:induction false} NormalizingTwice(kind: string)
    ensures NormalizeAlertType(NormalizeAlertType(kind)) == NormalizeAlertType(kind)
  {
    var r := NormalizeAlertType(kind);
    AlertTypes(kind);
    AlertTypes(r);
    if r in ["motion_detected", "usb_removed", "pc_agent_disconnected"] {
      KnownTypesAreNormal(r);
    } else {
      ToLowerIsLower(kind);
      TrimKeepsLower(Text.ToLower(kind));
      LowerStays(r);
    }
  }

  /** A delivery starts unless its agent id or its type is blank. */
  lemma DeliveryStarts(w: World, k: nat, m: Message)
    requires k !in w.calls
    ensures
      var id, kind, w' := Text.Trim(m.agentId), NormalizeAlertType(m.kind), Next(w, Begin(k, m));
      && w'.store == w.store
      && w'.calls == if id == "" || kind == "" then w.calls
                     else w.calls[k := AlertCall(id, kind, m.at, "", LookUp)]
  {
  }

  /** Removing an agent takes its alerts with it and no others. */
  lemma RemovalEffect(w: World, id: string)
    ensures
      var s, s' := w.store, Next(w, RemoveAgent(id)).store;
      && s'.agents == s.agents - {id}
      && forall a :: a in s'.alerts <==> a in s.alerts && a.agentId != id
  {
    RemovalKeepsOthers(w.store.alerts, id);
  }

  function Alone(w: World, k: nat, clock: Time): World {
    Next(Next(Next(w, Continue(k, clock)), Continue(k, clock)), Continue(k, clock))
  }

  lemma OneStep(w: World, k: nat, clock: Time)
    requires k in w.calls
    ensures
      var (s, c) := AlertStep(w.store, clock, k, w.calls[k]);
      Next(w, Continue(k, clock)) == World(s, w.ever, w.calls[k := c])
  {
  }

  /** Some stored alert of the agent and type is not more than five seconds older. */
  ghost predicate HasRecent(alerts: seq<Alert>, id: string, kind: string, at: Time) {
    exists a :: a in alerts && a.agentId == id && a.kind == kind && at <= a.at + 5_000_000_000
  }

  /** The outcome of a delivery that nobody disturbs: an unknown or ownerless agent, a
      duplicate, or one more alert, with the message's time if it has one. */
  lemma DeliveryAlone(w: World, k: nat, m: Message, clock: Time)
    requires k !in w.calls && Text.Trim(m.agentId) != "" && NormalizeAlertType(m.kind) != ""
    ensures
      var id, kind, s := Text.Trim(m.agentId), NormalizeAlertType(m.kind), w.store;
      var at := if m.at.Some? then m.at.value else clock;
      var w' := Alone(Next(w, Begin(k, m)), k, clock);
      k in w'.calls &&
      if id !in s.agents || Text.Trim(s.agents[id]) == "" then w'.store == s && w'.calls[k].pc == Finished(NoAgent)
      else if HasRecent(s.alerts, id, kind, at) then w'.store == s && w'.calls[k].pc == Finished(Duplicate)
      else
        var row := Alert(k, id, kind, at);
        && w'.store == Store(s.agents, s.alerts + [row]) && w'.calls[k].pc == Finished(Saved(row))
        && w'.calls[k].owner == s.agents[id]
  {
    var id, kind := Text.Trim(m.agentId), NormalizeAlertType(m.kind);
    var at := if m.at.Some? then m.at.value else clock;
    RecentIsFound(w.store.alerts, id, kind, at);
    DeliveryStarts(w, k, m);
    var w1 := Next(w, Begin(k, m));
    OneStep(w1, k, clock);
    var w2 := Next(w1, Continue(k, clock));
    OneStep(w2, k, clock);
    OneStep(Next(w2, Continue(k, clock)), k, clock);
  }

  lemma RecentIsFound(alerts: seq<Alert>, id: string, kind: string, at: Time)
    ensures HasRecent(alerts, id, kind, at) <==> FindRecent(alerts, id, kind, at - DUPLICATE_ALERT_WINDOW).Some?
  {
    FindRecentMeans(alerts, id, kind, at - DUPLICATE_ALERT_WINDOW);
    if a :| a in alerts && a.agentId == id && a.kind == kind && at <= a.at + 5_000_000_000 {
      assert Hits(a, id, kind, at - DUPLICATE_ALERT_WINDOW);
    }
  }
}
