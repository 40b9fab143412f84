// The alert outbox: a flush lists, submits per destination and clears in
// separate steps, while everything else goes on (delivery-api/internal/heartbeat/service.go).
module HeartbeatOutbox {
  import opened Common
  import opened Decimal
  import opened HeartbeatMachine
  import opened HeartbeatRuns

  // ----- The idempotency key ------------------------------------------------------

  function AlertKey(id: int, alertSeq: int, destination: string): string
  {
    "hb:" + RenderInt(id) + ":" + RenderInt(alertSeq) + ":" + destination
  }

  predicate NoColon(s: string) { forall i :: 0 <= i < |s| ==> s[i] != ':' }

  lemma SplitAtColon(a: string, b: string, x: string, y: string)
    requires NoColon(a) && NoColon(b) && a + ":" + x == b + ":" + y
    ensures a == b && x == y
  {
    var s := a + ":" + x;
    assert s[|a|] == ':' && s[|b|] == ':';
    assert a == s[..|a|] && b == s[..|b|];
    assert x == s[|a| + 1..] && y == s[|b| + 1..];
  }

  lemma RenderedHasNoColon(n: int)
    ensures NoColon(RenderInt(n))
  {
    assert n < 0 ==> RenderInt(n) == "-" + Render(-n);
  }

  lemma KeyTail(id: int, alertSeq: int, d: string)
    ensures AlertKey(id, alertSeq, d)[3..] == RenderInt(id) + ":" + (RenderInt(alertSeq) + ":" + d)
  {
  }

  /** One key names one check, one alert and one destination, whatever characters the name holds. */
  lemma AlertKeyInjective(id1: int, seq1: int, d1: string, id2: int, seq2: int, d2: string)
    requires AlertKey(id1, seq1, d1) == AlertKey(id2, seq2, d2)
    ensures id1 == id2 && seq1 == seq2 && d1 == d2
  {
    var x, y := RenderInt(seq1) + ":" + d1, RenderInt(seq2) + ":" + d2;
    KeyTail(id1, seq1, d1);
    KeyTail(id2, seq2, d2);
    RenderedHasNoColon(id1);
    RenderedHasNoColon(id2);
    RenderedHasNoColon(seq1);
    RenderedHasNoColon(seq2);
    SplitAtColon(RenderInt(id1), RenderInt(id2), x, y);
    SplitAtColon(RenderInt(seq1), RenderInt(seq2), d1, d2);
    RenderInjective(id1, id2);
    RenderInjective(seq1, seq2);
  }

  // ----- Flushes ------------------------------------------------------------------

  /** A flush of one listed check: how many of its destinations it has dealt with, and whether any failed. */
  datatype Flusher = Flusher(id: nat, snapshot: StoredCheck, done: nat, failed: bool)

  /** What every snapshot of one pending alert says alike. */
  datatype Announcement = Announcement(kind: AlertKind, appId: string, name: string, downSince: Option<Time>)

  function AnnouncementOf(c: StoredCheck): Announcement
    requires c.pendingAlert.Some?
  {
    Announcement(c.pendingAlert.value, c.appId, c.name, c.downSince)
  }

  /** An alert for one destination. */
  datatype Alert = Alert(id: nat, alertSeq: nat, destination: string)

  /** sent holds, for each alert that reached the message service, the snapshot it was first sent from. */
  datatype State = State(
    checks: map<nat, StoredCheck>, seen: set<nat>, flushers: map<nat, Flusher>,
    sent: map<Alert, StoredCheck>, skipped: set<Alert>, emitted: map<(nat, nat), Announcement>)

  const EMPTY := State(map[], {}, map[], map[], {}, map[])

  /** The message service's answer. Lost is an accepted submit whose answer never arrived. */
  datatype Answer = Accepted | RefusedDestination | Failed | Lost

  datatype Action =
    | Create(id: nat, check: StoredCheck)
    | Delete(id: nat)
    | Move(id: nat, event: Event)
    | BeginFlush(f: nat, id: nat)
    | Submit(f: nat, answer: Answer)
    | Finish(f: nat)
    | Crash(f: nat)

  predicate Enabled(s: State, a: Action)
  {
    match a
    case Create(id, check) => id !in s.seen && IsNew(check)
    case Delete(id) => id in s.checks
    case Move(id, event) => id in s.checks && !event.Clear?
    case BeginFlush(f, id) => f !in s.flushers && id in s.checks && s.checks[id].pendingAlert.Some?
    case Submit(f, _) => f in s.flushers && s.flushers[f].snapshot.pendingAlert.Some?
      && s.flushers[f].done < |s.flushers[f].snapshot.destinations|
    case Finish(f) => f in s.flushers && s.flushers[f].done >= |s.flushers[f].snapshot.destinations|
    case Crash(f) => f in s.flushers
  }

  /** A committed move, with the alert it emits if it emits one. */
  function Moved(s: State, id: nat, event: Event): State
    requires id in s.checks
  {
    var after := Step(s.checks[id], event);
    var emitted := if after.alertSeq > s.checks[id].alertSeq && after.pendingAlert.Some?
                   then s.emitted[(id, after.alertSeq) := AnnouncementOf(after)] else s.emitted;
    s.(checks := s.checks[id := after], emitted := emitted)
  }

  function AlertFor(f: Flusher, k: nat): Alert
    requires k < |f.snapshot.destinations|
  {
    Alert(f.id, f.snapshot.alertSeq, f.snapshot.destinations[k].name)
  }

  /** The message service keeps the first submit under a key. */
  function SentOnce(sent: map<Alert, StoredCheck>, a: Alert, snapshot: StoredCheck): map<Alert, StoredCheck>
  {
    if a in sent then sent else sent[a := snapshot]
  }

  /** One round of the destination loop. */
  function Submitted(s: State, f: nat, answer: Answer): State
    requires Enabled(s, Submit(f, answer))
  {
    var fl := s.flushers[f];
    var next := fl.(done := fl.done + 1);
    if !fl.snapshot.destinations[fl.done].enabled then s.(flushers := s.flushers[f := next])
    else
      var alert := AlertFor(fl, fl.done);
      match answer
      case Accepted => s.(flushers := s.flushers[f := next], sent := SentOnce(s.sent, alert, fl.snapshot))
      case RefusedDestination => s.(flushers := s.flushers[f := next], skipped := s.skipped + {alert})
      case Failed => s.(flushers := s.flushers[f := next.(failed := true)])
      case Lost => s.(flushers := s.flushers[f := next.(failed := true)], sent := SentOnce(s.sent, alert, fl.snapshot))
  }

  /** Any failure leaves the alert pending; otherwise it is cleared if it is still the same one. */
  function Finished(s: State, f: nat): State
    requires f in s.flushers
  {
    var fl := s.flushers[f];
    var checks := if !fl.failed && fl.id in s.checks
                  then s.checks[fl.id := Cleared(s.checks[fl.id], fl.snapshot.alertSeq)] else s.checks;
    s.(checks := checks, flushers := s.flushers - {f})
  }

  function Next(s: State, a: Action): State
    requires Enabled(s, a)
  {
    match a
    case Create(id, check) => s.(checks := s.checks[id := check], seen := s.seen + {id})
    case Delete(id) => s.(checks := s.checks - {id})
    case Move(id, event) => Moved(s, id, event)
    case BeginFlush(f, id) => s.(flushers := s.flushers[f := Flusher(id, s.checks[id], 0, false)])
    case Submit(f, answer) => Submitted(s, f, answer)
    case Finish(f) => Finished(s, f)
    case Crash(f) => s.(flushers := s.flushers - {f})
  }

  // ----- Invariant ------------------------------------------------------------------

  predicate CheckOk(s: State, id: nat, c: StoredCheck)
  {
    && OutboxOk(c) && id in s.seen
    && (c.pendingAlert.Some? ==> (id, c.alertSeq) in s.emitted && s.emitted[(id, c.alertSeq)] == AnnouncementOf(c))
  }

  predicate Handled(s: State, a: Alert) { a in s.sent || a in s.skipped }

  /** Destination k of the flush needs nothing more. */
  predicate DoneWith(s: State, fl: Flusher, k: nat)
    requires k < |fl.snapshot.destinations|
  {
    !fl.snapshot.destinations[k].enabled || Handled(s, AlertFor(fl, k))
  }

  predicate FlusherOk(s: State, fl: Flusher)
  {
    && fl.id in s.seen
    && fl.snapshot.pendingAlert.Some?
    && (fl.id, fl.snapshot.alertSeq) in s.emitted
    && s.emitted[(fl.id, fl.snapshot.alertSeq)] == AnnouncementOf(fl.snapshot)
    && (fl.id in s.checks ==> fl.snapshot.alertSeq <= s.checks[fl.id].alertSeq)
    && fl.done <= |fl.snapshot.destinations|
    && (!fl.failed ==> forall k :: 0 <= k < fl.done ==> DoneWith(s, fl, k))
  }

  predicate SentOk(s: State, a: Alert)
    requires a in s.sent
  {
    && s.sent[a].pendingAlert.Some? && s.sent[a].alertSeq == a.alertSeq
    && (a.id, a.alertSeq) in s.emitted && s.emitted[(a.id, a.alertSeq)] == AnnouncementOf(s.sent[a])
  }

  /** No alert was emitted for a check that does not exist yet, or ahead of its sequence. */
  predicate EmittedOk(s: State, e: (nat, nat))
  {
    e.0 in s.seen && (e.0 in s.checks ==> e.1 <= s.checks[e.0].alertSeq)
  }

  ghost predicate Inv(s: State)
  {
    && s.checks.Keys <= s.seen
    && (forall id :: id in s.checks ==> CheckOk(s, id, s.checks[id]))
    && (forall f :: f in s.flushers ==> FlusherOk(s, s.flushers[f]))
    && (forall a :: a in s.sent ==> SentOk(s, a))
    && forall e :: e in s.emitted ==> EmittedOk(s, e)
  }

  lemma MoveKeeps(s: State, id: nat, event: Event)
    requires Inv(s) && Enabled(s, Move(id, event))
    ensures Inv(Moved(s, id, event))
  {
    var c := s.checks[id];
    var after := Moved(s, id, event);
    StepKeepsOutbox(c, event);
    StepAnnouncesCrossings(c, event);
    StepPending(c, event);
    assert CheckOk(s, id, c);
    forall f | f in after.flushers ensures FlusherOk(after, after.flushers[f]) {
      var fl := s.flushers[f];
      assert FlusherOk(s, fl) && EmittedOk(s, (fl.id, fl.snapshot.alertSeq));
      forall k | 0 <= k < fl.done && !fl.failed ensures DoneWith(after, fl, k) {
        assert DoneWith(s, fl, k);
      }
    }
    forall a | a in after.sent ensures SentOk(after, a) {
      assert SentOk(s, a) && EmittedOk(s, (a.id, a.alertSeq));
    }
    forall other | other in after.checks ensures CheckOk(after, other, after.checks[other]) {
      if other != id { assert CheckOk(s, other, s.checks[other]); }
    }
    forall e | e in after.emitted ensures EmittedOk(after, e) {
      if e in s.emitted { assert EmittedOk(s, e); }
    }
  }

  /**
   * A step that announces nothing leaves the pending alert and what it announces, or drops it, and
   * drops it only on a pause.
   */
  lemma StepPending(c: StoredCheck, event: Event)
    requires OutboxOk(c) && !event.Clear?
    ensures Step(c, event).alertSeq == c.alertSeq ==>
      Step(c, event).pendingAlert == c.pendingAlert || Step(c, event).pendingAlert.None?
    ensures Step(c, event).alertSeq == c.alertSeq && Step(c, event).pendingAlert != c.pendingAlert ==> event.Pause?
    ensures Step(c, event).alertSeq == c.alertSeq && Step(c, event).pendingAlert.Some? ==>
      AnnouncementOf(Step(c, event)) == AnnouncementOf(c)
  {
  }

  lemma TableKeeps(s: State, a: Action)
    requires Inv(s) && Enabled(s, a) && (a.Create? || a.Delete? || a.BeginFlush? || a.Crash?)
    ensures Inv(Next(s, a))
  {
    var after := Next(s, a);
    forall id | id in after.checks ensures CheckOk(after, id, after.checks[id]) {
      if id in s.checks { assert CheckOk(s, id, s.checks[id]); }
    }
    forall f | f in after.flushers ensures FlusherOk(after, after.flushers[f]) {
      if f in s.flushers {
        var fl := s.flushers[f];
        assert FlusherOk(s, fl);
        forall k | 0 <= k < fl.done && !fl.failed ensures DoneWith(after, fl, k) { assert DoneWith(s, fl, k); }
      } else {
        assert CheckOk(s, a.id, s.checks[a.id]);
      }
    }
    forall x | x in after.sent ensures SentOk(after, x) { assert SentOk(s, x); }
    forall e | e in after.emitted ensures EmittedOk(after, e) { assert EmittedOk(s, e); }
  }

  /** Only what was sent or skipped has grown. */
  predicate Grown(s: State, after: State)
  {
    && after.checks == s.checks && after.seen == s.seen && after.emitted == s.emitted
    && s.sent.Keys <= after.sent.Keys && s.skipped <= after.skipped
  }

  lemma GrownKeepsFlusher(s: State, after: State, fl: Flusher)
    requires FlusherOk(s, fl) && Grown(s, after)
    ensures FlusherOk(after, fl)
  {
    forall k | 0 <= k < fl.done && !fl.failed ensures DoneWith(after, fl, k) { assert DoneWith(s, fl, k); }
  }

  /** The destination just dealt with is sent or skipped, or the flush has failed. */
  lemma SubmitterKeeps(s: State, f: nat, answer: Answer)
    requires Enabled(s, Submit(f, answer)) && FlusherOk(s, s.flushers[f])
    ensures FlusherOk(Submitted(s, f, answer), Submitted(s, f, answer).flushers[f])
  {
    var after := Submitted(s, f, answer);
    var fl, next := s.flushers[f], after.flushers[f];
    assert next == fl.(done := fl.done + 1, failed := next.failed);
    assert !next.failed ==> DoneWith(after, next, fl.done);
    forall k | 0 <= k < fl.done && !next.failed ensures DoneWith(after, next, k) {
      assert DoneWith(s, fl, k);
      assert AlertFor(next, k) == AlertFor(fl, k);
    }
  }

  lemma SubmitKeepsFlushers(s: State, f: nat, answer: Answer)
    requires Inv(s) && Enabled(s, Submit(f, answer)) && FlusherOk(s, s.flushers[f])
    ensures var after := Submitted(s, f, answer);
      forall g :: g in after.flushers ==> FlusherOk(after, after.flushers[g])
  {
    var after := Submitted(s, f, answer);
    assert Grown(s, after);
    SubmitterKeeps(s, f, answer);
    forall g | g in after.flushers ensures FlusherOk(after, after.flushers[g]) {
      if g != f { GrownKeepsFlusher(s, after, s.flushers[g]); }
    }
  }

  lemma SubmitKeeps(s: State, f: nat, answer: Answer)
    requires Inv(s) && Enabled(s, Submit(f, answer))
    ensures Inv(Next(s, Submit(f, answer)))
  {
    assert FlusherOk(s, s.flushers[f]);
    SubmitKeepsFlushers(s, f, answer);
    var after := Next(s, Submit(f, answer));
    forall x | x in after.sent ensures SentOk(after, x) {
      if x in s.sent { assert SentOk(s, x); }
    }
    forall id | id in after.checks ensures CheckOk(after, id, after.checks[id]) { assert CheckOk(s, id, s.checks[id]); }
    forall e | e in after.emitted ensures EmittedOk(after, e) { assert EmittedOk(s, e); }
  }

  lemma FinishKeeps(s: State, f: nat)
    requires Inv(s) && Enabled(s, Finish(f))
    ensures Inv(Next(s, Finish(f)))
  {
    var after := Next(s, Finish(f));
    forall g | g in after.flushers ensures FlusherOk(after, after.flushers[g]) {
      var fl := s.flushers[g];
      assert FlusherOk(s, fl);
      forall k | 0 <= k < fl.done && !fl.failed ensures DoneWith(after, fl, k) { assert DoneWith(s, fl, k); }
    }
    forall x | x in after.sent ensures SentOk(after, x) { assert SentOk(s, x); }
    forall id | id in after.checks ensures CheckOk(after, id, after.checks[id]) { assert CheckOk(s, id, s.checks[id]); }
    forall e | e in after.emitted ensures EmittedOk(after, e) { assert EmittedOk(s, e); }
  }

  lemma StepKeeps(s: State, a: Action)
    requires Inv(s) && Enabled(s, a)
    ensures Inv(Next(s, a))
  {
    match a
    case Move(id, event) => MoveKeeps(s, id, event);
    case Submit(f, answer) => SubmitKeeps(s, f, answer);
    case Finish(f) => FinishKeeps(s, f);
    case _ => TableKeeps(s, a);
  }

  // ----- Main results ------------------------------------------------------------------

  /** run is a list of steps each enabled where it is taken. */
  ghost predicate Runs(s: State, run: seq<Action>)
    decreases |run|
  {
    run == [] || (Enabled(s, run[0]) && Runs(Next(s, run[0]), run[1..]))
  }

  ghost function Final(s: State, run: seq<Action>): State
    requires Runs(s, run)
    decreases |run|
  {
    if run == [] then s else Final(Next(s, run[0]), run[1..])
  }

  lemma {:induction false} RunKeeps(s: State, run: seq<Action>)
    requires Inv(s) && Runs(s, run)
    ensures Inv(Final(s, run))
    decreases |run|
  {
    if run != [] {
      StepKeeps(s, run[0]);
      RunKeeps(Next(s, run[0]), run[1..]);
    }
  }

  /**
   * In every reachable state, one step takes a pending alert of a check that remains out of the
   * outbox only if a later alert replaced it, a pause dropped it, or a flush of that very alert
   * finished with every enabled destination of its snapshot sent or refused.
   */
  lemma AlertsLeaveOnlyWhenHandled(run: seq<Action>, a: Action, id: nat)
    requires Runs(EMPTY, run) && Enabled(Final(EMPTY, run), a)
    requires id in Final(EMPTY, run).checks && Final(EMPTY, run).checks[id].pendingAlert.Some?
    requires id in Next(Final(EMPTY, run), a).checks
    ensures var s := Final(EMPTY, run);
      var c, after := s.checks[id], Next(s, a).checks[id];
      || (after.alertSeq == c.alertSeq && after.pendingAlert == c.pendingAlert)
      || (after.alertSeq > c.alertSeq && after.pendingAlert.Some?)
      || (a.Move? && a.id == id && a.event.Pause?)
      || (a.Finish? && s.flushers[a.f].id == id && s.flushers[a.f].snapshot.alertSeq == c.alertSeq
          && s.flushers[a.f].snapshot.pendingAlert == c.pendingAlert
          && forall k :: 0 <= k < |s.flushers[a.f].snapshot.destinations| ==> DoneWith(s, s.flushers[a.f], k))
  {
    RunKeeps(EMPTY, run);
    var s := Final(EMPTY, run);
    assert CheckOk(s, id, s.checks[id]);
    if a.Move? && a.id == id {
      StepPending(s.checks[id], a.event);
      StepAnnouncesCrossings(s.checks[id], a.event);
    }
    if a.Finish? { assert FlusherOk(s, s.flushers[a.f]); }
  }

  /** Clearing on behalf of an older alert changes no row: a newer alert survives every stale flush. */
  lemma StaleClearKeepsAlert(run: seq<Action>, f: nat)
    requires Runs(EMPTY, run) && Enabled(Final(EMPTY, run), Finish(f))
    ensures var s := Final(EMPTY, run);
      var fl := s.flushers[f];
      fl.id in s.checks ==>
        && fl.snapshot.alertSeq <= s.checks[fl.id].alertSeq
        && (fl.snapshot.alertSeq < s.checks[fl.id].alertSeq ==> Next(s, Finish(f)).checks == s.checks)
  {
    RunKeeps(EMPTY, run);
    assert FlusherOk(Final(EMPTY, run), Final(EMPTY, run).flushers[f]);
  }

  /** A submit under a key that was sent before announces the same: kind, app, check and start of the outage. */
  lemma RepeatsAgree(run: seq<Action>, f: nat, answer: Answer)
    requires Runs(EMPTY, run) && Enabled(Final(EMPTY, run), Submit(f, answer))
    ensures var s := Final(EMPTY, run);
      var fl := s.flushers[f];
      var alert := AlertFor(fl, fl.done);
      alert in s.sent ==>
        && s.sent[alert].pendingAlert.Some? && s.sent[alert].alertSeq == fl.snapshot.alertSeq
        && AnnouncementOf(s.sent[alert]) == AnnouncementOf(fl.snapshot)
  {
    RunKeeps(EMPTY, run);
    var s := Final(EMPTY, run);
    var fl := s.flushers[f];
    assert FlusherOk(s, fl);
    var alert := AlertFor(fl, fl.done);
    assert alert in s.sent ==> SentOk(s, alert);
  }

  /** A flush that finished without a failure takes its alert out of the outbox; a failed one leaves every check. */
  lemma FinishClears(s: State, f: nat)
    requires Enabled(s, Finish(f))
    ensures var fl, after := s.flushers[f], Next(s, Finish(f));
      && after.flushers == s.flushers - {f} && after.checks.Keys == s.checks.Keys
      && (forall id :: id in s.checks && (id != fl.id || fl.failed) ==> after.checks[id] == s.checks[id])
      && (fl.id in s.checks && !fl.failed && s.checks[fl.id].alertSeq == fl.snapshot.alertSeq ==>
            after.checks[fl.id] == s.checks[fl.id].(pendingAlert := None))
  {
  }

  /** No flush gets stuck: over every run an open one has a destination left to submit or can finish, never both. */
  lemma FlushProceeds(run: seq<Action>, f: nat, answer: Answer)
    requires Runs(EMPTY, run) && f in Final(EMPTY, run).flushers
    ensures Enabled(Final(EMPTY, run), Submit(f, answer)) <==> !Enabled(Final(EMPTY, run), Finish(f))
  {
    RunKeeps(EMPTY, run);
    assert FlusherOk(Final(EMPTY, run), Final(EMPTY, run).flushers[f]);
  }

  /** One round of a flush: only an accepted submit or a lost reply sends, only a failure or a lost reply fails it. */
  lemma RoundSays(s: State, f: nat, answer: Answer)
    requires Enabled(s, Submit(f, answer))
    ensures var fl, after := s.flushers[f], Next(s, Submit(f, answer));
      var alert, enabled := AlertFor(fl, fl.done), fl.snapshot.destinations[fl.done].enabled;
      && after.checks == s.checks && after.flushers.Keys == s.flushers.Keys
      && after.flushers[f].done == fl.done + 1 && after.flushers[f].snapshot == fl.snapshot && after.flushers[f].id == fl.id
      && (after.flushers[f].failed <==> fl.failed || (enabled && answer in {Failed, Lost}))
      && (alert in after.sent <==> alert in s.sent || (enabled && answer in {Accepted, Lost}))
      && (alert in after.sent ==> after.sent[alert] == if alert in s.sent then s.sent[alert] else fl.snapshot)
      && (alert in after.skipped <==> alert in s.skipped || (enabled && answer == RefusedDestination))
  {
  }
}
