// The envelope of an alert, and why a repeated flush is answered as a duplicate
// although its content may differ (delivery-api/internal/heartbeat/service.go).
module HeartbeatAlerts {
  import opened Common
  import opened Decimal
  import opened HeartbeatMachine
  import opened HeartbeatRuns
  import opened JsonEquality
  import Messages = MessageTables
  import MessageRuns
  import Outbox = HeartbeatOutbox
  import Submission

  const ALERT_CHANNEL := "heartbeat"

  /** Time formatting and the display texts, as oracles. */
  datatype Rendering = Rendering(time: Time -> string, title: (AlertKind, string, string) -> string, body: StoredCheck -> string)

  function OptionalText(s: Option<string>): Json { if s.None? then Null else String(s.value) }

  function OptionalTime(r: Rendering, t: Option<Time>): Json { if t.None? then Null else String(r.time(t.value)) }

  /** Only a down alert has a reason. */
  function AlertPayload(r: Rendering, c: StoredCheck, kind: AlertKind): map<string, Json>
  {
    map[
      "type" := String(if kind == AlertDown then "heartbeat.down" else "heartbeat.recovered"),
      "app_id" := String(c.appId),
      "check" := String(c.name),
      "reason" := OptionalText(if kind == AlertDown then c.downReason else None),
      "last_ping_at" := OptionalTime(r, c.lastPingAt),
      "down_since" := OptionalTime(r, c.downSince),
      "period_seconds" := Number(RenderInt(c.periodSeconds)),
      "grace_seconds" := Number(RenderInt(c.graceSeconds))]
  }

  function AlertDisplay(r: Rendering, c: StoredCheck, kind: AlertKind): Messages.Display
  {
    Messages.Display(r.title(kind, c.appId, c.name), r.body(c), "", if kind == AlertDown then "high" else "default")
  }

  /** An alert is sent at once, to one destination, and never held. */
  function AlertEnvelope(r: Rendering, id: nat, c: StoredCheck, destination: string): Messages.Envelope
    requires c.pendingAlert.Some?
  {
    var kind := c.pendingAlert.value;
    Messages.Envelope(
      c.appId, ALERT_CHANNEL, Outbox.AlertKey(id, c.alertSeq, destination), destination, "", None, kind == AlertDown,
      Some(Object(AlertPayload(r, c, kind))), Some(AlertDisplay(r, c, kind)), false)
  }

  /** What an alert says: which check of which app, whether it fell or recovered, and why and since when. */
  lemma AlertSays(r: Rendering, id: nat, c: StoredCheck, destination: string)
    requires c.pendingAlert.Some?
    ensures var e, down := AlertEnvelope(r, id, c, destination), c.pendingAlert == Some(AlertDown);
      && e.appId == c.appId && e.toDestination == destination && e.toRecipient == "" && e.deliverAt.None? && !e.hold
      && e.payload.Some? && e.payload.value.Object? && e.display.Some?
      && (e.critical <==> down) && e.display.value.priority == (if down then "high" else "default")
      && AlertPayload(r, c, c.pendingAlert.value) == e.payload.value.members
    ensures var members, down := AlertPayload(r, c, c.pendingAlert.value), c.pendingAlert == Some(AlertDown);
      && members.Keys == {"type", "app_id", "check", "reason", "last_ping_at", "down_since", "period_seconds", "grace_seconds"}
      && members["type"] == String(if down then "heartbeat.down" else "heartbeat.recovered")
      && members["app_id"] == String(c.appId) && members["check"] == String(c.name)
      && (members["reason"] == Null <==> !down || c.downReason.None?)
      && (down && c.downReason.Some? ==> members["reason"] == String(c.downReason.value))
      && (c.lastPingAt.Some? ==> members["last_ping_at"] == String(r.time(c.lastPingAt.value)))
      && (c.downSince.Some? ==> members["down_since"] == String(r.time(c.downSince.value)))
  {
  }

  /** Two snapshots of one alert. */
  predicate SameAlert(a: StoredCheck, b: StoredCheck)
  {
    && a.pendingAlert.Some? && b.pendingAlert.Some? && a.alertSeq == b.alertSeq
    && Outbox.AnnouncementOf(a) == Outbox.AnnouncementOf(b)
  }

  /** What the snapshots of one alert may disagree on. */
  predicate SameDetails(r: Rendering, a: StoredCheck, b: StoredCheck)
  {
    && a.downReason == b.downReason && a.lastPingAt == b.lastPingAt
    && a.periodSeconds == b.periodSeconds && a.graceSeconds == b.graceSeconds && r.body(a) == r.body(b)
  }

  /**
   * Envelopes of one alert to one destination share key, urgency and title, and in the payload all
   * but the reason, the last ping, the period and the grace; with those and the body they are equal.
   */
  lemma RepeatedEnvelopes(r: Rendering, id: nat, a: StoredCheck, b: StoredCheck, destination: string)
    requires SameAlert(a, b)
    ensures var e, f := AlertEnvelope(r, id, a, destination), AlertEnvelope(r, id, b, destination);
      && Messages.SameKey(e, f) && e.toDestination == f.toDestination && e.critical == f.critical
      && e.display.value.title == f.display.value.title && e.display.value.priority == f.display.value.priority
      && e.payload.value.Object? && f.payload.value.Object?
      && e.payload.value.members.Keys == f.payload.value.members.Keys
      && (forall k :: k in e.payload.value.members.Keys - {"reason", "last_ping_at", "period_seconds", "grace_seconds"} ==>
            e.payload.value.members[k] == f.payload.value.members[k])
      && (SameDetails(r, a, b) ==> e == f)
  {
  }

  /** A changed reason makes it other content under the same key. */
  lemma ReasonIsContent(r: Rendering, id: nat, a: StoredCheck, b: StoredCheck, destination: string)
    requires SameAlert(a, b) && a.pendingAlert == Some(AlertDown)
    requires a.downReason.Some? && b.downReason.Some? && a.downReason != b.downReason
    ensures !Submission.SameContent(AlertEnvelope(r, id, a, destination), AlertEnvelope(r, id, b, destination))
  {
    var e, f := AlertEnvelope(r, id, a, destination), AlertEnvelope(r, id, b, destination);
    assert "reason" in e.payload.value.members;
    assert !SameJson(e.payload.value.members["reason"], f.payload.value.members["reason"]);
  }

  lemma {:induction false} OneMore(s: Outbox.State, run: seq<Outbox.Action>, a: Outbox.Action)
    requires Outbox.Runs(s, run) && Outbox.Enabled(Outbox.Final(s, run), a)
    ensures Outbox.Runs(s, run + [a]) && Outbox.Final(s, run + [a]) == Outbox.Next(Outbox.Final(s, run), a)
    decreases |run|
  {
    if run == [] {
      assert Outbox.Runs(Outbox.Next(s, a), []);
      assert ([] + [a])[1..] == [];
    } else {
      OneMore(Outbox.Next(s, run[0]), run[1..], a);
      assert (run + [a])[1..] == run[1..] + [a];
    }
  }

  /** The tick takes a silent check down, and a flush of that alert reaches its first destination. */
  lemma SentAsMissed(check: StoredCheck, at: Time) returns (run: seq<Outbox.Action>, s: Outbox.State)
    requires IsNew(check) && check.probe.Some? && check.destinations != [] && check.destinations[0].enabled
    requires at > Deadline(check)
    ensures Outbox.Runs(Outbox.EMPTY, run) && s == Outbox.Final(Outbox.EMPTY, run)
    ensures var down := AdvanceTick(check, at).0;
      && s.checks == map[0 := down] && s.flushers.Keys == {0}
      && s.sent == map[Outbox.Alert(0, 1, check.destinations[0].name) := down]
  {
    var start := Outbox.EMPTY;
    OneMore(start, [], Outbox.Create(0, check));
    run, s := [] + [Outbox.Create(0, check)], Outbox.Next(start, Outbox.Create(0, check));
    OneMore(start, run, Outbox.Move(0, Tick(at)));
    run, s := run + [Outbox.Move(0, Tick(at))], Outbox.Next(s, Outbox.Move(0, Tick(at)));
    OneMore(start, run, Outbox.BeginFlush(0, 0));
    run, s := run + [Outbox.BeginFlush(0, 0)], Outbox.Next(s, Outbox.BeginFlush(0, 0));
    OneMore(start, run, Outbox.Submit(0, Outbox.Accepted));
    run, s := run + [Outbox.Submit(0, Outbox.Accepted)], Outbox.Next(s, Outbox.Submit(0, Outbox.Accepted));
  }

  /**
   * Any probe check has a run in which a second flush of one alert is about to submit other content
   * under the key of the first: the tick said missed, and a failing result has named the reason since.
   */
  lemma RepeatsMayDiffer(r: Rendering, check: StoredCheck, at: Time, reason: string)
    returns (run: seq<Outbox.Action>, s: Outbox.State)
    requires IsNew(check) && check.probe.Some? && check.destinations != [] && check.destinations[0].enabled
    requires at > Deadline(check) && IsProbeResultReason(reason)
    ensures Outbox.Runs(Outbox.EMPTY, run) && s == Outbox.Final(Outbox.EMPTY, run)
    ensures Outbox.Enabled(s, Outbox.Submit(1, Outbox.Accepted))
    ensures var alert, again := Outbox.AlertFor(s.flushers[1], 0), s.flushers[1].snapshot;
      && s.flushers[1].done == 0 && alert in s.sent && s.sent[alert].pendingAlert.Some?
      && !Submission.SameContent(AlertEnvelope(r, alert.id, s.sent[alert], alert.destination),
                                 AlertEnvelope(r, alert.id, again, alert.destination))
  {
    var start := Outbox.EMPTY;
    run, s := SentAsMissed(check, at);
    var first := s.checks[0];
    var event := Result(ProbeResult(None, Some(reason), ""), check.probe.value.configVersion, at, at);
    OneMore(start, run, Outbox.Move(0, event));
    run, s := run + [Outbox.Move(0, event)], Outbox.Next(s, Outbox.Move(0, event));
    assert reason != MISSED && s.checks[0].downReason == Some(reason);
    OneMore(start, run, Outbox.BeginFlush(1, 0));
    run, s := run + [Outbox.BeginFlush(1, 0)], Outbox.Next(s, Outbox.BeginFlush(1, 0));
    ReasonIsContent(r, 0, first, s.checks[0], check.destinations[0].name);
  }

  /** Under a key whose message is not scheduled any content is answered as a duplicate. */
  lemma SentIsAnswered(db: Messages.Db, e: Messages.Envelope, m: nat)
    requires Messages.Valid(db) && m in db.messages && Messages.SameKey(db.messages[m].envelope, e)
    requires !Messages.IsScheduled(db, m)
    ensures Submission.Answered(db, e)
  {
    Submission.AnsweredBy(db, e, m);
  }

  /** A message without a deliver_at is not scheduled. */
  lemma UntimedIsNotScheduled(db: Messages.Db, m: nat)
    requires Messages.Valid(db) && m in db.messages && db.messages[m].envelope.deliverAt.None?
    ensures !Messages.IsScheduled(db, m)
  {
  }

  /**
   * Once an alert is stored, every later submit of it, whatever its snapshot says by then and
   * whatever committed in between, is answered as a duplicate for as long as the message is kept.
   */
  lemma RepeatIsDuplicate(
      c: MessageRuns.Config, states: seq<MessageRuns.Sys>, actions: seq<MessageRuns.Action>, i: nat, j: nat, m: nat,
      r: Rendering, id: nat, first: StoredCheck, again: StoredCheck, destination: string)
    requires MessageRuns.IsRun(c, states, actions) && i <= j < |states|
    requires m in states[i].db.messages && m in states[j].db.messages && SameAlert(first, again)
    requires var e := AlertEnvelope(r, id, first, destination);
      states[i].db.messages[m].envelope == e.(deliverAt := Messages.StoreOption(e.deliverAt))
    ensures Submission.Answered(states[j].db, AlertEnvelope(r, id, again, destination))
  {
    MessageRuns.RunInv(c, states, actions, i);
    MessageRuns.RunInv(c, states, actions, j);
    UntimedIsNotScheduled(states[i].db, m);
    MessageRuns.NeverScheduledAgain(c, states, actions, i, j, m);
    SentIsAnswered(states[j].db, AlertEnvelope(r, id, again, destination), m);
  }
}
