// What holds over every run of one check: each store transaction locks the row,
// so a run is a sequence of events (delivery-api/internal/heartbeat).
module HeartbeatRuns {
  import opened Common
  import opened HeartbeatMachine

  /** One committed store operation on the check. staleView is a claim that read paused before a pause committed. */
  datatype Event =
    | Ping(kind: PingKind, at: Time)
    | Tick(at: Time)
    | Pause
    | Resume(at: Time)
    | Result(result: ProbeResult, version: nat, at: Time, holdOffUntil: Time)
    | Patch(patch: CheckPatch, at: Time)
    | Claim(at: Time, staleView: bool)
    | Clear(sequence: nat)

  predicate Claimable(c: StoredCheck, now: Time, staleView: bool)
  {
    c.probe.Some? && (!c.paused || staleView) && c.probe.value.nextProbeAt <= now
  }

  function Claimed(c: StoredCheck, now: Time): StoredCheck
    requires c.probe.Some?
  {
    var p := c.probe.value;
    c.(probe := Some(p.(nextProbeAt := now + p.config.intervalSeconds * SECOND)))
  }

  /** The compare-and-clear of the outbox. */
  function Cleared(c: StoredCheck, sequence: nat): StoredCheck
  {
    if c.alertSeq == sequence && c.pendingAlert.Some? then c.(pendingAlert := None) else c
  }

  /** A result counts only under the config version it was claimed with. */
  predicate Applies(c: StoredCheck, result: ProbeResult, version: nat)
  {
    c.probe.Some? && c.probe.value.configVersion == version && Accepts(c, result)
  }

  function Step(c: StoredCheck, e: Event): StoredCheck
  {
    match e
    case Ping(kind, at) => ApplyPing(c, kind, at).0
    case Tick(at) => AdvanceTick(c, at).0
    case Pause => ApplyPause(c)
    case Resume(at) => ApplyResume(c, at)
    case Result(result, version, at, holdOffUntil) =>
      if Applies(c, result, version) then ApplyProbeResult(c, result, at, holdOffUntil).0 else c
    case Patch(patch, at) => if PatchFitsKind(c, patch) then Patched(c, patch, at) else c
    case Claim(at, staleView) => if Claimable(c, at, staleView) then Claimed(c, at) else c
    case Clear(sequence) => Cleared(c, sequence)
  }

  function After(c: StoredCheck, es: seq<Event>): StoredCheck
    decreases |es|
  {
    if es == [] then c else Step(After(c, es[..|es| - 1]), es[|es| - 1])
  }

  /** A check as it is created. */
  predicate IsNew(c: StoredCheck)
  {
    && c.state == New && !c.paused && c.alertSeq == 0 && c.pendingAlert == None && c.downReason == None
    && (c.probe.Some? ==> c.probe.value.consecutiveFailures == 0)
  }

  // ----- The outbox and the state -----------------------------------------------------

  /** The pending alert announces the current state, never while paused, and only a down check has a reason. */
  predicate OutboxOk(c: StoredCheck)
  {
    && !c.state.OtherState?
    && (c.paused ==> c.pendingAlert.None?)
    && (c.pendingAlert == Some(AlertDown) ==> c.state == Down)
    && (c.pendingAlert == Some(AlertRecovered) ==> c.state == Up)
    && (c.downReason.Some? <==> c.state == Down)
  }

  lemma StepKeepsOutbox(c: StoredCheck, e: Event)
    requires OutboxOk(c)
    ensures OutboxOk(Step(c, e))
  {
  }

  lemma {:induction false} OutboxMatchesState(c: StoredCheck, es: seq<Event>)
    requires IsNew(c)
    ensures OutboxOk(After(c, es))
    decreases |es|
  {
    if es != [] {
      OutboxMatchesState(c, es[..|es| - 1]);
      StepKeepsOutbox(After(c, es[..|es| - 1]), es[|es| - 1]);
    }
  }

  /** An unpaused transition into or out of down. */
  predicate Crosses(c: StoredCheck, e: Event)
  {
    !c.paused && (c.state == Down) != (Step(c, e).state == Down)
  }

  function Crossings(c: StoredCheck, es: seq<Event>): nat
    decreases |es|
  {
    if es == [] then 0
    else Crossings(c, es[..|es| - 1]) + if Crosses(After(c, es[..|es| - 1]), es[|es| - 1]) then 1 else 0
  }

  /** A step announces exactly when it crosses, and says which way. */
  lemma StepAnnouncesCrossings(c: StoredCheck, e: Event)
    requires OutboxOk(c)
    ensures Step(c, e).alertSeq == c.alertSeq + if Crosses(c, e) then 1 else 0
    ensures Crosses(c, e) ==>
      Step(c, e).pendingAlert == Some(if Step(c, e).state == Down then AlertDown else AlertRecovered)
  {
  }

  /** Over every run the alert sequence counts the unpaused crossings, no more and no fewer. */
  lemma {:induction false} AlertSeqCountsCrossings(c: StoredCheck, es: seq<Event>)
    requires IsNew(c)
    ensures After(c, es).alertSeq == Crossings(c, es)
    decreases |es|
  {
    if es != [] {
      AlertSeqCountsCrossings(c, es[..|es| - 1]);
      OutboxMatchesState(c, es[..|es| - 1]);
      StepAnnouncesCrossings(After(c, es[..|es| - 1]), es[|es| - 1]);
    }
  }

  /** Never paused, and odd alerts say down. */
  predicate Alternates(c: StoredCheck) { !c.paused && (c.alertSeq % 2 == 1 <==> c.state == Down) }

  lemma StepAlternates(c: StoredCheck, e: Event)
    requires OutboxOk(c) && Alternates(c) && e != Pause
    ensures Alternates(Step(c, e))
  {
    StepAnnouncesCrossings(c, e);
  }

  /** With no pause in the run, alerts strictly alternate: odd ones say down, even ones recovered. */
  lemma {:induction false} AlertsAlternate(c: StoredCheck, es: seq<Event>)
    requires IsNew(c) && Pause !in es
    ensures Alternates(After(c, es))
    ensures After(c, es).pendingAlert.Some? ==>
      (After(c, es).pendingAlert == Some(AlertDown) <==> After(c, es).alertSeq % 2 == 1)
    decreases |es|
  {
    OutboxMatchesState(c, es);
    if es != [] {
      var front := es[..|es| - 1];
      AlertsAlternate(c, front);
      OutboxMatchesState(c, front);
      assert es[|es| - 1] in es;
      StepAlternates(After(c, front), es[|es| - 1]);
    }
  }

  // ----- Failure counting ---------------------------------------------------------------

  /** A resume of a paused probe check, or a patch that changes what the probe does. */
  predicate Resets(c: StoredCheck, e: Event)
  {
    c.probe.Some? && match e
                     case Resume(_) => c.paused
                     case Patch(patch, _) => PatchFitsKind(c, patch) && Reconfigures(c, patch)
                     case _ => false
  }

  /** The accepted results since the last reset, true for a failure. */
  function Results(c: StoredCheck, es: seq<Event>): seq<bool>
    decreases |es|
  {
    if es == [] then []
    else
      var before, e := After(c, es[..|es| - 1]), es[|es| - 1];
      if Resets(before, e) then []
      else if e.Result? && Applies(before, e.result, e.version)
      then Results(c, es[..|es| - 1]) + [e.result.reason.Some?]
      else Results(c, es[..|es| - 1])
  }

  function FailingSuffix(results: seq<bool>): (n: nat)
    ensures n <= |results|
    ensures forall i :: |results| - n <= i < |results| ==> results[i]
    ensures n < |results| ==> !results[|results| - n - 1]
    decreases |results|
  {
    if results == [] || !results[|results| - 1] then 0 else 1 + FailingSuffix(results[..|results| - 1])
  }

  lemma SuffixGrows(results: seq<bool>, failed: bool)
    ensures FailingSuffix(results + [failed]) == if failed then FailingSuffix(results) + 1 else 0
  {
    assert (results + [failed])[..|results|] == results;
  }

  lemma StepCounts(c: StoredCheck, e: Event, results: seq<bool>)
    requires c.probe.Some? && c.probe.value.consecutiveFailures == FailingSuffix(results)
    ensures Step(c, e).probe.Some?
    ensures Step(c, e).probe.value.consecutiveFailures ==
      if Resets(c, e) then 0
      else if e.Result? && Applies(c, e.result, e.version) then FailingSuffix(results + [e.result.reason.Some?])
      else FailingSuffix(results)
  {
    if e.Result? {
      SuffixGrows(results, e.result.reason.Some?);
      if Applies(c, e.result, e.version) { ResultMoves(c, e.result, e.at, e.holdOffUntil); }
    }
  }

  /** The stored counter is the length of the failing suffix of accepted results since the last reset. */
  lemma {:induction false} CounterIsFailingSuffix(c: StoredCheck, es: seq<Event>)
    requires IsNew(c) && c.probe.Some?
    ensures After(c, es).probe.Some?
    ensures After(c, es).probe.value.consecutiveFailures == FailingSuffix(Results(c, es))
    decreases |es|
  {
    if es != [] {
      CounterIsFailingSuffix(c, es[..|es| - 1]);
      StepCounts(After(c, es[..|es| - 1]), es[|es| - 1], Results(c, es[..|es| - 1]));
    }
  }

  /** A result takes a check down only as the third failure in a row or later, and never inside the hold-off. */
  lemma DownNeedsThreeFailures(c: StoredCheck, es: seq<Event>)
    requires IsNew(c) && c.probe.Some? && es != [] && es[|es| - 1].Result?
    requires After(c, es[..|es| - 1]).state != Down && After(c, es).state == Down
    ensures es[|es| - 1].at >= es[|es| - 1].holdOffUntil
    ensures FailingSuffix(Results(c, es)) >= PROBE_FAILURE_THRESHOLD
    ensures forall i :: |Results(c, es)| - 3 <= i < |Results(c, es)| ==> 0 <= i && Results(c, es)[i]
    ensures After(c, es).downReason == es[|es| - 1].result.reason
  {
    CounterIsFailingSuffix(c, es);
  }

  /**
   * An applied failing result takes a check that was not down down, from now and for its reason and
   * announced, exactly as the third failure in a row or later outside the hold-off; otherwise nothing
   * is announced and the state stays.
   */
  lemma ThirdFailureTakesDown(c: StoredCheck, es: seq<Event>)
    requires IsNew(c) && c.probe.Some? && es != [] && es[|es| - 1].Result?
    requires var e, before := es[|es| - 1], After(c, es[..|es| - 1]);
      before.state != Down && Applies(before, e.result, e.version) && e.result.reason.Some?
    ensures var e, before, after := es[|es| - 1], After(c, es[..|es| - 1]), After(c, es);
      && (after.state == Down <==> FailingSuffix(Results(c, es)) >= 3 && e.at >= e.holdOffUntil)
      && (after.state == Down ==>
            after.downReason == e.result.reason && after.downSince == Some(e.at)
            && after.pendingAlert == Some(AlertDown) && after.alertSeq == before.alertSeq + 1)
      && (after.state != Down ==>
            after.state == before.state && after.pendingAlert == before.pendingAlert && after.alertSeq == before.alertSeq)
  {
    var e := es[|es| - 1];
    CounterIsFailingSuffix(c, es);
    ResultMoves(After(c, es[..|es| - 1]), e.result, e.at, e.holdOffUntil);
  }

  /** An applied success leaves the check up, whatever it was, and announces the recovery of one that was down. */
  lemma SuccessBringsUp(c: StoredCheck, es: seq<Event>)
    requires IsNew(c) && c.probe.Some? && es != [] && es[|es| - 1].Result?
    requires var e, before := es[|es| - 1], After(c, es[..|es| - 1]);
      Applies(before, e.result, e.version) && e.result.reason.None?
    ensures var before, after := After(c, es[..|es| - 1]), After(c, es);
      && after.state == Up && after.downReason.None? && FailingSuffix(Results(c, es)) == 0
      && (before.state == Down ==>
            after.pendingAlert == Some(AlertRecovered) && after.alertSeq == before.alertSeq + 1)
      && (before.state != Down ==> after.pendingAlert == before.pendingAlert && after.alertSeq == before.alertSeq)
  {
    var e := es[|es| - 1];
    CounterIsFailingSuffix(c, es);
    OutboxMatchesState(c, es);
    ResultMoves(After(c, es[..|es| - 1]), e.result, e.at, e.holdOffUntil);
  }

  // ----- The version fence ----------------------------------------------------------------

  /** What must invalidate results in flight: a pause, or anything that resets the probe. */
  predicate Fences(c: StoredCheck, e: Event)
  {
    (e.Pause? && c.probe.Some? && !c.paused) || Resets(c, e)
  }

  predicate NoFence(c: StoredCheck, es: seq<Event>)
    decreases |es|
  {
    es == [] || (NoFence(c, es[..|es| - 1]) && !Fences(After(c, es[..|es| - 1]), es[|es| - 1]))
  }

  predicate FencesAt(c: StoredCheck, es: seq<Event>, i: nat)
    requires i < |es|
  {
    Fences(After(c, es[..i]), es[i])
  }

  lemma FencesAtPrefix(c: StoredCheck, es: seq<Event>, i: nat)
    requires i + 1 < |es|
    ensures FencesAt(c, es[..|es| - 1], i) == FencesAt(c, es, i)
  {
    assert es[..|es| - 1][..i] == es[..i];
  }

  /** The recursive form says that no single event of the run fenced. */
  lemma {:induction false} NoFenceMeansNone(c: StoredCheck, es: seq<Event>)
    ensures NoFence(c, es) <==> forall i :: 0 <= i < |es| ==> !FencesAt(c, es, i)
    decreases |es|
  {
    if es != [] {
      var front := es[..|es| - 1];
      NoFenceMeansNone(c, front);
      forall i | 0 <= i < |front| ensures FencesAt(c, front, i) == FencesAt(c, es, i) {
        FencesAtPrefix(c, es, i);
      }
      assert FencesAt(c, es, |front|) == Fences(After(c, front), es[|front|]);
      if forall i :: 0 <= i < |es| ==> !FencesAt(c, es, i) {
        forall i | 0 <= i < |front| ensures !FencesAt(c, front, i) { assert !FencesAt(c, es, i); }
      } else {
        var i :| 0 <= i < |es| && FencesAt(c, es, i);
        assert i < |front| ==> FencesAt(c, front, i);
      }
    }
  }

  lemma StepFences(c: StoredCheck, e: Event)
    requires c.probe.Some?
    ensures Step(c, e).probe.Some?
    ensures Step(c, e).probe.value.configVersion == c.probe.value.configVersion + if Fences(c, e) then 1 else 0
    ensures !Fences(c, e) && !c.paused ==> !Step(c, e).paused
    ensures !c.state.OtherState? ==> !Step(c, e).state.OtherState?
  {
  }

  /** The version stands still exactly while nothing fences. */
  lemma {:induction false} VersionCountsFences(c: StoredCheck, es: seq<Event>)
    requires c.probe.Some? && !c.state.OtherState?
    ensures After(c, es).probe.Some? && !After(c, es).state.OtherState?
    ensures After(c, es).probe.value.configVersion >= c.probe.value.configVersion
    ensures NoFence(c, es) <==> After(c, es).probe.value.configVersion == c.probe.value.configVersion
    ensures NoFence(c, es) && !c.paused ==> !After(c, es).paused
    decreases |es|
  {
    if es != [] {
      VersionCountsFences(c, es[..|es| - 1]);
      StepFences(After(c, es[..|es| - 1]), es[|es| - 1]);
    }
  }

  /**
   * c is the check as claimed. A result carrying that claim's version is applied exactly when nothing
   * that fences committed in between and its reason is one a probe can give.
   */
  lemma ResultsAreFenced(c: StoredCheck, between: seq<Event>, result: ProbeResult)
    requires c.probe.Some? && !c.paused && !c.state.OtherState?
    ensures Applies(After(c, between), result, c.probe.value.configVersion) <==>
      NoFence(c, between) && (result.reason.Some? ==> IsProbeResultReason(result.reason.value))
  {
    VersionCountsFences(c, between);
  }

  // ----- Claim spacing --------------------------------------------------------------------

  function TimeOf(e: Event): Option<Time>
  {
    match e
    case Pause => None
    case Clear(_) => None
    case Ping(_, at) => Some(at)
    case Tick(at) => Some(at)
    case Resume(at) => Some(at)
    case Result(_, _, at, _) => Some(at)
    case Patch(_, at) => Some(at)
    case Claim(at, _) => Some(at)
  }

  function Clock(start: Time, es: seq<Event>): Time
    decreases |es|
  {
    if es == [] then start
    else if TimeOf(es[|es| - 1]).Some? then TimeOf(es[|es| - 1]).value else Clock(start, es[..|es| - 1])
  }

  /** Step times never go back. */
  predicate Timed(start: Time, es: seq<Event>)
    decreases |es|
  {
    es == [] || (Timed(start, es[..|es| - 1]) && Clock(start, es[..|es| - 1]) <= Clock(start, es))
  }

  predicate IsClaim(c: StoredCheck, e: Event) { e.Claim? && Claimable(c, e.at, e.staleView) }

  function LastClaim(c: StoredCheck, es: seq<Event>): Option<Time>
    decreases |es|
  {
    if es == [] then None
    else if IsClaim(After(c, es[..|es| - 1]), es[|es| - 1]) then Some(es[|es| - 1].at)
    else LastClaim(c, es[..|es| - 1])
  }

  /** A claim that takes the check is the last one from then on, until the next. */
  lemma ClaimIsLast(c: StoredCheck, es: seq<Event>, e: Event)
    ensures LastClaim(c, es + [e]) ==
      if e.Claim? && After(c, es).probe.Some? && (!After(c, es).paused || e.staleView)
         && After(c, es).probe.value.nextProbeAt <= e.at
      then Some(e.at) else LastClaim(c, es)
  {
    assert (es + [e])[..|es|] == es;
  }

  lemma StepSpaces(c: StoredCheck, e: Event, last: Time, now: Time)
    requires c.probe.Some? && last <= now && (TimeOf(e).Some? ==> now <= TimeOf(e).value)
    requires c.probe.value.nextProbeAt >= last + c.probe.value.config.intervalSeconds * SECOND
    requires !IsClaim(c, e)
    ensures Step(c, e).probe.Some?
    ensures var p := Step(c, e).probe.value; p.nextProbeAt >= last + p.config.intervalSeconds * SECOND
  {
    if e.Patch? { PatchRestartsOnChange(c, e.patch, e.at); }
  }

  /** After a claim the next probe is due no sooner than the interval then in force. */
  lemma {:induction false} NextProbeWaits(c: StoredCheck, start: Time, es: seq<Event>)
    requires c.probe.Some? && Timed(start, es)
    ensures After(c, es).probe.Some?
    ensures LastClaim(c, es).Some? ==>
      var p, last := After(c, es).probe.value, LastClaim(c, es).value;
      last <= Clock(start, es) && p.nextProbeAt >= last + p.config.intervalSeconds * SECOND
    decreases |es|
  {
    if es != [] {
      var front, e := es[..|es| - 1], es[|es| - 1];
      NextProbeWaits(c, start, front);
      if !IsClaim(After(c, front), e) {
        if LastClaim(c, front).Some? {
          StepSpaces(After(c, front), e, LastClaim(c, front).value, Clock(start, front));
        } else {
          StepFences(After(c, front), e);
        }
      }
    }
  }

  /** Successive claims are at least the interval in force at the later one apart, whatever happened between. */
  lemma ClaimsAreSpaced(c: StoredCheck, start: Time, es: seq<Event>, now: Time, staleView: bool)
    requires c.probe.Some? && Timed(start, es) && LastClaim(c, es).Some?
    requires IsClaim(After(c, es), Claim(now, staleView))
    ensures now >= LastClaim(c, es).value + After(c, es).probe.value.config.intervalSeconds * SECOND
  {
    NextProbeWaits(c, start, es);
  }

  // ----- Deadlines and what is remembered ------------------------------------------------------

  /** A sign of life, or the clock being restarted for the check. */
  predicate Restarts(c: StoredCheck, e: Event)
  {
    match e
    case Ping(kind, at) => c.probe.None? && PingTransition(c, kind, at).Some?
    case Resume(_) => c.paused
    case Result(result, version, _, _) => Applies(c, result, version)
    case Patch(_, _) => Resets(c, e)
    case _ => false
  }

  function LastSign(c: StoredCheck, es: seq<Event>): Time
    decreases |es|
  {
    if es == [] then c.anchorAt
    else if Restarts(After(c, es[..|es| - 1]), es[|es| - 1]) then TimeOf(es[|es| - 1]).value
    else LastSign(c, es[..|es| - 1])
  }

  lemma StepAnchors(c: StoredCheck, e: Event)
    ensures Step(c, e).anchorAt == if Restarts(c, e) then TimeOf(e).value else c.anchorAt
  {
  }

  /** The deadline clock runs from the last sign of life or restart, over every run. */
  lemma {:induction false} AnchorIsLastSign(c: StoredCheck, es: seq<Event>)
    ensures After(c, es).anchorAt == LastSign(c, es)
    decreases |es|
  {
    if es != [] {
      AnchorIsLastSign(c, es[..|es| - 1]);
      StepAnchors(After(c, es[..|es| - 1]), es[|es| - 1]);
    }
  }

  /** A tick takes a check down exactly when it is unpaused, not down, and silent for strictly longer than period plus grace. */
  lemma TickMeansSilence(c: StoredCheck, es: seq<Event>, at: Time)
    requires IsNew(c)
    ensures var before, after := After(c, es), Step(After(c, es), Tick(at));
      && (before.state != Down && after.state == Down <==>
            before.state != Down && !before.paused
            && at > LastSign(c, es) + (before.periodSeconds + before.graceSeconds) * SECOND)
      && (before.state != Down && after.state == Down ==> after.downReason == Some(MISSED) && after.downSince == Some(at))
  {
    AnchorIsLastSign(c, es);
    OutboxMatchesState(c, es);
  }

  /** When the check last went down, if it ever did. */
  function LastFall(c: StoredCheck, es: seq<Event>): Option<Time>
    decreases |es|
  {
    if es == [] then None
    else
      var before := After(c, es[..|es| - 1]);
      if before.state != Down && Step(before, es[|es| - 1]).state == Down then TimeOf(es[|es| - 1])
      else LastFall(c, es[..|es| - 1])
  }

  lemma StepFalls(c: StoredCheck, e: Event)
    ensures Step(c, e).downSince == if c.state != Down && Step(c, e).state == Down then TimeOf(e) else c.downSince
  {
  }

  /** down_since is the last fall, kept through a recovery for its announcement. */
  lemma {:induction false} DownSinceIsLastFall(c: StoredCheck, es: seq<Event>)
    requires IsNew(c) && c.downSince == None
    ensures After(c, es).downSince == LastFall(c, es)
    decreases |es|
  {
    if es != [] {
      DownSinceIsLastFall(c, es[..|es| - 1]);
      StepFalls(After(c, es[..|es| - 1]), es[|es| - 1]);
    }
  }

  /** The latest ping: a sign of life that names a kind. */
  function LastPing(c: StoredCheck, es: seq<Event>): Option<(Time, PingKind)>
    decreases |es|
  {
    if es == [] then None
    else
      var before, e := After(c, es[..|es| - 1]), es[|es| - 1];
      if e.Ping? && Restarts(before, e) then Some((e.at, e.kind))
      else if e.Result? && Restarts(before, e) && e.result.reason.None? then Some((e.at, PingSuccess))
      else LastPing(c, es[..|es| - 1])
  }

  /** A status that is an HTTP status. */
  function HttpStatus(status: Option<int>): Option<int>
  {
    if status.Some? && 100 <= status.value < 600 then status else None
  }

  /** The latest accepted result since the last reset, its status kept only when it is an HTTP status. */
  function LatestResult(c: StoredCheck, es: seq<Event>): Option<ResultRecord>
    decreases |es|
  {
    if es == [] then None
    else
      var before, e := After(c, es[..|es| - 1]), es[|es| - 1];
      if Resets(before, e) then None
      else if e.Result? && Applies(before, e.result, e.version)
      then Some(ResultRecord(e.at, HttpStatus(e.result.status), e.result.reason, DetailOf(e.result)))
      else LatestResult(c, es[..|es| - 1])
  }

  function Known<T, U>(t: Option<T>, u: Option<U>): Option<(T, U)>
  {
    if t.Some? && u.Some? then Some((t.value, u.value)) else None
  }

  lemma StepRemembersPing(c: StoredCheck, e: Event)
    requires c.lastPingAt.Some? <==> c.lastPingKind.Some?
    ensures var t := Step(c, e);
      && (t.lastPingAt.Some? <==> t.lastPingKind.Some?)
      && Known(t.lastPingAt, t.lastPingKind) ==
           (if e.Ping? && Restarts(c, e) then Some((e.at, e.kind))
            else if e.Result? && Restarts(c, e) && e.result.reason.None? then Some((e.at, PingSuccess))
            else Known(c.lastPingAt, c.lastPingKind))
  {
  }

  lemma StepRemembersResult(c: StoredCheck, e: Event)
    requires c.probe.Some?
    ensures Step(c, e).probe.Some?
    ensures Step(c, e).probe.value.lastResult ==
      if Resets(c, e) then None
      else if e.Result? && Applies(c, e.result, e.version)
      then Some(ResultRecord(e.at, StorableStatus(e.result.status), e.result.reason, DetailOf(e.result)))
      else c.probe.value.lastResult
  {
  }

  /** The stored last ping and last result are the latest of the run, and ping time and kind are set together. */
  lemma {:induction false} LastSeenIsLatest(c: StoredCheck, es: seq<Event>)
    requires IsNew(c) && c.lastPingAt == None && c.lastPingKind == None
    requires c.probe.Some? ==> c.probe.value.lastResult == None
    ensures var t := After(c, es);
      (t.lastPingAt.Some? <==> t.lastPingKind.Some?) && Known(t.lastPingAt, t.lastPingKind) == LastPing(c, es)
    ensures c.probe.Some? ==>
      After(c, es).probe.Some? && After(c, es).probe.value.lastResult == LatestResult(c, es)
    decreases |es|
  {
    if es != [] {
      LastSeenIsLatest(c, es[..|es| - 1]);
      var before := After(c, es[..|es| - 1]);
      StepRemembersPing(before, es[|es| - 1]);
      if before.probe.Some? { StepRemembersResult(before, es[|es| - 1]); }
    }
  }
}
