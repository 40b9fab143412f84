// The heartbeat state machine: pure functions from a check to its updated copy
// (delivery-api/internal/heartbeat/machine.go, types.go).
module HeartbeatMachine {
  import opened Common

  // ----- Entities ---------------------------------------------------------------

  datatype CheckState = New | Up | Down | OtherState(name: string)

  datatype PingKind = PingSuccess | PingFail | OtherPing(name: string)

  datatype AlertKind = AlertDown | AlertRecovered

  const MISSED := "missed"
  const FAIL := "fail"
  const PROBE_REASONS: set<string> :=
    {"http_status", "timeout", "body_mismatch", "blocked", "tls", "scheme", "network", "config"}

  predicate IsProbeResultReason(reason: string) { reason in PROBE_REASONS }

  const PROBE_FAILURE_THRESHOLD: nat := 3

  datatype DestinationRef = DestinationRef(name: string, kind: string, enabled: bool)

  datatype ProbeConfig = ProbeConfig(
    url: string, expectedStatuses: seq<int>, bodyMatch: Option<string>, timeoutSeconds: int, intervalSeconds: int)

  datatype ResultRecord = ResultRecord(at: Time, status: Option<int>, reason: Option<string>, detail: Option<string>)

  datatype ProbeState = ProbeState(
    config: ProbeConfig, hasAccessToken: bool, consecutiveFailures: nat, nextProbeAt: Time, configVersion: nat,
    lastResult: Option<ResultRecord>, downDetail: Option<string>)

  /** One attempt's outcome; no reason is a success, and detail is already sanitised. */
  datatype ProbeResult = ProbeResult(status: Option<int>, reason: Option<string>, detail: string)

  datatype StoredCheck = StoredCheck(
    appId: string, name: string, periodSeconds: int, graceSeconds: int, state: CheckState, paused: bool,
    anchorAt: Time, lastPingAt: Option<Time>, lastPingKind: Option<PingKind>, downSince: Option<Time>,
    downReason: Option<string>, alertSeq: nat, pendingAlert: Option<AlertKind>,
    destinations: seq<DestinationRef>, probe: Option<ProbeState>)

  // ----- Transitions ------------------------------------------------------------

  function Deadline(c: StoredCheck): Time { c.anchorAt + (c.periodSeconds + c.graceSeconds) * SECOND }

  /** The outbox: one more alert, and only the latest is pending. */
  function EmitAlert(c: StoredCheck, kind: AlertKind): StoredCheck
  {
    c.(alertSeq := c.alertSeq + 1, pendingAlert := Some(kind))
  }

  /** None where the ping leaves the check alone. */
  function PingTransition(c: StoredCheck, kind: PingKind, now: Time): Option<StoredCheck>
  {
    match kind
    case PingSuccess =>
      (match c.state
       case New => Some(c.(state := Up))
       case Up => Some(c)
       case Down => Some(c.(state := Up, downReason := None))
       case OtherState(_) => None)
    case PingFail =>
      (match c.state
       case New => Some(c.(state := Down, downSince := Some(now), downReason := Some(FAIL)))
       case Up => Some(c.(state := Down, downSince := Some(now), downReason := Some(FAIL)))
       case Down => Some(c)
       case OtherState(_) => None)
    case OtherPing(_) => None
  }

  function ApplyPing(c: StoredCheck, kind: PingKind, now: Time): (StoredCheck, bool)
  {
    var moved := PingTransition(c, kind, now);
    if c.probe.Some? || moved.None? then (c, false)
    else
      var next := moved.value.(lastPingAt := Some(now), lastPingKind := Some(kind), anchorAt := now);
      if next.state == c.state then (next, false)
      else if c.paused then (next.(pendingAlert := None), false)
      else if next.state == Down then (EmitAlert(next, AlertDown), true)
      else if c.state == Down then (EmitAlert(next, AlertRecovered), true)
      else (next, false)
  }

  function AdvanceTick(c: StoredCheck, now: Time): (StoredCheck, bool)
  {
    if c.paused || (c.state != New && c.state != Up) then (c, false)
    else if !(now > Deadline(c)) then (c, false)
    else
      var probe := if c.probe.Some? then Some(c.probe.value.(downDetail := None)) else None;
      (EmitAlert(c.(state := Down, downSince := Some(now), downReason := Some(MISSED), probe := probe), AlertDown), true)
  }

  function ApplyPause(c: StoredCheck): StoredCheck
  {
    var probe := if c.probe.Some? && !c.paused
                 then Some(c.probe.value.(configVersion := c.probe.value.configVersion + 1)) else c.probe;
    c.(probe := probe, paused := true, pendingAlert := None)
  }

  function ApplyProbeReset(c: StoredCheck, now: Time): StoredCheck
  {
    if c.probe.None? then c
    else
      var p := c.probe.value;
      c.(anchorAt := now,
         probe := Some(p.(consecutiveFailures := 0, lastResult := None, configVersion := p.configVersion + 1,
                          nextProbeAt := now + p.config.intervalSeconds * SECOND)))
  }

  function ApplyResume(c: StoredCheck, now: Time): StoredCheck
  {
    if !c.paused then c else ApplyProbeReset(c.(paused := false, anchorAt := now), now)
  }

  function StorableStatus(status: Option<int>): Option<int>
  {
    if status.None? || status.value < 100 || status.value > 599 then None else status
  }

  /** Whether a result is applied at all. */
  predicate Accepts(c: StoredCheck, result: ProbeResult)
  {
    && c.probe.Some? && !c.paused && c.state in {New, Up, Down}
    && (result.reason.Some? ==> IsProbeResultReason(result.reason.value))
  }

  function DetailOf(result: ProbeResult): Option<string>
  {
    if result.detail == "" then None else Some(result.detail)
  }

  /** The bookkeeping every accepted result does. */
  function Noted(c: StoredCheck, result: ProbeResult, now: Time): StoredCheck
    requires c.probe.Some?
  {
    var p := c.probe.value;
    var failures := if result.reason.None? then 0 else p.consecutiveFailures + 1;
    c.(anchorAt := now,
       probe := Some(p.(consecutiveFailures := failures,
                        lastResult := Some(ResultRecord(now, StorableStatus(result.status), result.reason, DetailOf(result))))))
  }

  /** The updated check, whether the result was applied, and whether it emitted an alert. */
  function ApplyProbeResult(c: StoredCheck, result: ProbeResult, now: Time, holdOffUntil: Time): (StoredCheck, bool, bool)
  {
    if !Accepts(c, result) then (c, false, false)
    else
      var next := Noted(c, result, now);
      var p := next.probe.value;
      if result.reason.None? then
        var up := next.(state := Up, lastPingAt := Some(now), lastPingKind := Some(PingSuccess));
        if c.state == Down
        then (EmitAlert(up.(downReason := None, probe := Some(p.(downDetail := None))), AlertRecovered), true, true)
        else (up, true, false)
      else if c.state == Down then
        if c.downReason == Some(MISSED)
        then (next.(downReason := result.reason, probe := Some(p.(downDetail := DetailOf(result)))), true, false)
        else (next, true, false)
      else if p.consecutiveFailures < PROBE_FAILURE_THRESHOLD || now < holdOffUntil then (next, true, false)
      else
        (EmitAlert(next.(state := Down, downSince := Some(now), downReason := result.reason,
                         probe := Some(p.(downDetail := DetailOf(result)))), AlertDown), true, true)
  }

  // ----- Patches ----------------------------------------------------------------

  datatype TokenAction = TokenUnchanged | TokenReplace | TokenClear

  datatype ProbePatch = ProbePatch(
    url: Option<string>, expectedStatuses: Option<seq<int>>, bodyMatch: Option<string>, clearBodyMatch: bool,
    timeoutSeconds: Option<int>, intervalSeconds: Option<int>)

  datatype CheckPatch = CheckPatch(
    periodSeconds: Option<int>, graceSeconds: Option<int>, destinations: Option<seq<DestinationRef>>,
    probe: Option<ProbePatch>, token: TokenAction)

  datatype CheckUpdate = CheckUpdate(
    periodSeconds: int, graceSeconds: int, destinations: seq<DestinationRef>, probe: Option<ProbeConfig>)

  function OrElse<T>(named: Option<T>, current: T): T { if named.Some? then named.value else current }

  /** Every field the patch names; clearing the body match wins over setting it. */
  function MergeProbeConfig(current: ProbeConfig, patch: Option<ProbePatch>): ProbeConfig
  {
    if patch.None? then current
    else
      var p := patch.value;
      ProbeConfig(OrElse(p.url, current.url), OrElse(p.expectedStatuses, current.expectedStatuses),
                  if p.clearBodyMatch then None else if p.bodyMatch.Some? then p.bodyMatch else current.bodyMatch,
                  OrElse(p.timeoutSeconds, current.timeoutSeconds), OrElse(p.intervalSeconds, current.intervalSeconds))
  }

  function DerivedSchedule(intervalSeconds: int): (int, int)
  {
    (intervalSeconds, intervalSeconds * (PROBE_FAILURE_THRESHOLD + 1))
  }

  function ApplyPatch(current: StoredCheck, patch: CheckPatch): CheckUpdate
  {
    var update := CheckUpdate(OrElse(patch.periodSeconds, current.periodSeconds),
                              OrElse(patch.graceSeconds, current.graceSeconds),
                              OrElse(patch.destinations, current.destinations), None);
    if current.probe.None? then update
    else
      var merged := MergeProbeConfig(current.probe.value.config, patch.probe);
      var schedule := DerivedSchedule(merged.intervalSeconds);
      update.(probe := Some(merged), periodSeconds := schedule.0, graceSeconds := schedule.1)
  }

  /** Statuses are compared as sorted copies, that is as multisets. */
  predicate ProbeConfigChanged(current: ProbeConfig, merged: ProbeConfig, token: TokenAction)
  {
    || token != TokenUnchanged
    || current.url != merged.url || current.timeoutSeconds != merged.timeoutSeconds
    || current.intervalSeconds != merged.intervalSeconds
    || multiset(current.expectedStatuses) != multiset(merged.expectedStatuses)
    || current.bodyMatch != merged.bodyMatch
  }

  /** A probe's schedule is derived, and a push check has no probe or token. */
  predicate PatchFitsKind(current: StoredCheck, patch: CheckPatch)
  {
    if current.probe.Some? then patch.periodSeconds.None? && patch.graceSeconds.None?
    else patch.probe.None? && patch.token == TokenUnchanged
  }

  /** Whether a patch changes what the probe does. */
  predicate Reconfigures(current: StoredCheck, patch: CheckPatch)
  {
    current.probe.Some? &&
    ProbeConfigChanged(current.probe.value.config, MergeProbeConfig(current.probe.value.config, patch.probe), patch.token)
  }

  function Patched(current: StoredCheck, patch: CheckPatch, now: Time): StoredCheck
  {
    var update := ApplyPatch(current, patch);
    var scheduled := current.(periodSeconds := update.periodSeconds, graceSeconds := update.graceSeconds,
                              destinations := update.destinations);
    if current.probe.None? then scheduled
    else
      var p := current.probe.value;
      var token := if patch.token == TokenUnchanged then p.hasAccessToken else patch.token == TokenReplace;
      var merged := scheduled.(probe := Some(p.(config := update.probe.value, hasAccessToken := token)));
      if Reconfigures(current, patch) then ApplyProbeReset(merged, now) else merged
  }

  // ----- The tick's filter agrees with the tick -------------------------------------

  /** The WHERE clause the tick locks its rows by. */
  predicate DueWhere(c: StoredCheck, now: Time)
  {
    c.state != Down && !c.paused && c.anchorAt + (c.periodSeconds + c.graceSeconds) * SECOND < now
  }

  /** The filter misses no check the tick would take down, and passes none but unknown states in vain. */
  lemma TickFilterIsExact(c: StoredCheck, now: Time)
    ensures AdvanceTick(c, now).1 <==> DueWhere(c, now) && !c.state.OtherState?
    ensures !AdvanceTick(c, now).1 ==> AdvanceTick(c, now).0 == c
    ensures AdvanceTick(c, now).1 ==> AdvanceTick(c, now).0.state == Down && c.state != Down
  {
  }

  /** Two configurations that probe alike: the order of the expected statuses does not matter. */
  predicate SameProbe(a: ProbeConfig, b: ProbeConfig)
  {
    && a.url == b.url && a.bodyMatch == b.bodyMatch
    && a.timeoutSeconds == b.timeoutSeconds && a.intervalSeconds == b.intervalSeconds
    && multiset(a.expectedStatuses) == multiset(b.expectedStatuses)
  }

  /** A patch that names nothing of the probe never restarts it, and a changed interval always does. */
  lemma PatchRestartsOnChange(c: StoredCheck, patch: CheckPatch, now: Time)
    requires c.probe.Some?
    ensures patch.probe.None? && patch.token == TokenUnchanged ==> !Reconfigures(c, patch)
    ensures Patched(c, patch, now).probe.Some?
    ensures !Reconfigures(c, patch) <==>
      patch.token == TokenUnchanged && SameProbe(c.probe.value.config, Patched(c, patch, now).probe.value.config)
    ensures !Reconfigures(c, patch) ==> Patched(c, patch, now).probe.value.hasAccessToken == c.probe.value.hasAccessToken
    ensures var p, q := c.probe.value, Patched(c, patch, now).probe.value;
      Reconfigures(c, patch) <==> q.configVersion == p.configVersion + 1
    ensures var p, q := c.probe.value, Patched(c, patch, now).probe.value;
      !Reconfigures(c, patch) ==>
        q.nextProbeAt == p.nextProbeAt && q.consecutiveFailures == p.consecutiveFailures
        && q.config.intervalSeconds == p.config.intervalSeconds
    ensures var q := Patched(c, patch, now).probe.value;
      Reconfigures(c, patch) ==>
        q.nextProbeAt == now + q.config.intervalSeconds * SECOND && q.consecutiveFailures == 0
  {
  }

  // ----- What each transition does ----------------------------------------------------

  /** A move that crosses announces itself unless paused; a paused move of the state drops what was pending. */
  predicate AnnouncedAs(c: StoredCheck, t: StoredCheck)
  {
    var crossed := (c.state == Down) != (t.state == Down);
    && t.alertSeq == c.alertSeq + (if crossed && !c.paused then 1 else 0)
    && t.pendingAlert ==
         if crossed && !c.paused then Some(if t.state == Down then AlertDown else AlertRecovered)
         else if c.paused && t.state != c.state then None else c.pendingAlert
  }

  /** What no ping, tick or result changes. */
  predicate SameSettings(c: StoredCheck, t: StoredCheck)
  {
    && t.appId == c.appId && t.name == c.name && t.destinations == c.destinations && t.paused == c.paused
    && t.periodSeconds == c.periodSeconds && t.graceSeconds == c.graceSeconds
  }

  /** A known push check is up after a success ping and down, from now and for that reason, after a fail ping. */
  lemma PingMoves(c: StoredCheck, kind: PingKind, now: Time)
    ensures var t := ApplyPing(c, kind, now).0;
      && (c.probe.Some? || c.state.OtherState? || kind.OtherPing? ==> t == c)
      && (c.probe.None? && !c.state.OtherState? && !kind.OtherPing? ==>
            && t.state == (if kind == PingSuccess then Up else Down)
            && t.lastPingAt == Some(now) && t.lastPingKind == Some(kind) && t.anchorAt == now
            && t.downSince == (if c.state != Down && t.state == Down then Some(now) else c.downSince)
            && t.downReason ==
                 (if c.state == t.state then c.downReason
                  else if t.state == Down then Some("fail") else if c.state == Down then None else c.downReason)
            && SameSettings(c, t) && t.probe == c.probe && AnnouncedAs(c, t))
  {
  }

  /** A tick leaves a check that is not overdue, and takes one that is down, from now and for missing its deadline. */
  lemma TickMoves(c: StoredCheck, now: Time)
    ensures var (t, changed) := AdvanceTick(c, now);
      && (changed <==>
            !c.paused && c.state in {New, Up} && c.anchorAt + (c.periodSeconds + c.graceSeconds) * SECOND < now)
      && (!changed ==> t == c)
      && (changed ==>
            && t.state == Down && t.downSince == Some(now) && t.downReason == Some("missed")
            && t.lastPingAt == c.lastPingAt && t.lastPingKind == c.lastPingKind && t.anchorAt == c.anchorAt
            && SameSettings(c, t) && AnnouncedAs(c, t)
            && (c.probe.None? ==> t.probe.None?)
            && (c.probe.Some? ==> t.probe == Some(c.probe.value.(downDetail := None))))
  {
  }

  /** A pause only marks the check paused, drops its pending alert and, if it was running, voids results in flight. */
  lemma PausePauses(c: StoredCheck)
    ensures var t := ApplyPause(c);
      && t.paused && t.pendingAlert.None? && t.(paused := c.paused, pendingAlert := c.pendingAlert, probe := c.probe) == c
      && (c.probe.None? ==> t.probe.None?)
      && (c.probe.Some? ==>
            t.probe == Some(c.probe.value.(configVersion := c.probe.value.configVersion + if c.paused then 0 else 1)))
  {
  }

  /** A resume of a paused check runs it again from now, in the state it had; its probe starts over one interval on. */
  lemma ResumeResumes(c: StoredCheck, now: Time)
    ensures var t := ApplyResume(c, now);
      && !t.paused && (!c.paused ==> t == c)
      && (c.paused ==> t.anchorAt == now && t.(paused := true, anchorAt := c.anchorAt, probe := c.probe) == c)
      && (c.probe.None? ==> t.probe.None?)
      && (c.paused && c.probe.Some? ==>
            var p := c.probe.value;
            t.probe == Some(p.(consecutiveFailures := 0, lastResult := None, configVersion := p.configVersion + 1,
                               nextProbeAt := now + p.config.intervalSeconds * SECOND)))
  {
  }

  /** A detail to show, if there is one. */
  function Shown(detail: string): Option<string> { if |detail| > 0 then Some(detail) else None }

  /** What a result that is applied does, given how many failures in a row it makes. */
  lemma ResultMoves(c: StoredCheck, result: ProbeResult, now: Time, holdOffUntil: Time)
    requires Accepts(c, result)
    ensures var (t, applied, emitted) := ApplyProbeResult(c, result, now, holdOffUntil);
      && applied && (emitted <==> t.alertSeq != c.alertSeq) && t.probe.Some?
      && t.anchorAt == now && SameSettings(c, t) && t.probe.value.config == c.probe.value.config
      && t.probe.value.nextProbeAt == c.probe.value.nextProbeAt
      && t.probe.value.hasAccessToken == c.probe.value.hasAccessToken
      && t.probe.value.configVersion == c.probe.value.configVersion && AnnouncedAs(c, t)
    ensures var t := ApplyProbeResult(c, result, now, holdOffUntil).0;
      result.reason.None? ==>
        && t.state == Up && t.probe.value.consecutiveFailures == 0 && t.downSince == c.downSince
        && t.lastPingAt == Some(now) && t.lastPingKind == Some(PingSuccess)
        && (c.state == Down ==> t.downReason.None? && t.probe.value.downDetail.None?)
    ensures var t := ApplyProbeResult(c, result, now, holdOffUntil).0;
      result.reason.Some? ==>
        && t.probe.value.consecutiveFailures == c.probe.value.consecutiveFailures + 1
        && t.lastPingAt == c.lastPingAt && t.lastPingKind == c.lastPingKind
        && (c.state != Down ==>
              && t.state == (if t.probe.value.consecutiveFailures >= 3 && now >= holdOffUntil then Down else c.state)
              && t.downSince == (if t.state == Down then Some(now) else c.downSince)
              && t.downReason == (if t.state == Down then result.reason else c.downReason)
              && t.probe.value.downDetail == (if t.state == Down then Shown(result.detail) else c.probe.value.downDetail))
        && (c.state == Down ==>
              && t.state == Down && t.downSince == c.downSince
              && t.downReason == (if c.downReason == Some("missed") then result.reason else c.downReason)
              && t.probe.value.downDetail ==
                   (if c.downReason == Some("missed") then Shown(result.detail) else c.probe.value.downDetail))
  {
  }

  /** After the patch a field is what the patch names, or what it was. */
  predicate SetOrKept<T(==)>(named: Option<T>, before: T, after: T)
  {
    after == if named.Some? then named.value else before
  }

  /** A patch that fits sets exactly what it names; a probe's period is its interval and its grace four intervals. */
  lemma PatchSetsNamed(c: StoredCheck, patch: CheckPatch, now: Time)
    requires PatchFitsKind(c, patch)
    ensures var t := Patched(c, patch, now);
      && SetOrKept(patch.destinations, c.destinations, t.destinations)
      && t.(periodSeconds := c.periodSeconds, graceSeconds := c.graceSeconds, destinations := c.destinations,
            anchorAt := c.anchorAt, probe := c.probe) == c
      && (t.anchorAt == if Reconfigures(c, patch) then now else c.anchorAt)
      && (t.probe.Some? <==> c.probe.Some?)
      && (c.probe.None? ==>
            SetOrKept(patch.periodSeconds, c.periodSeconds, t.periodSeconds)
            && SetOrKept(patch.graceSeconds, c.graceSeconds, t.graceSeconds))
    ensures c.probe.Some? ==>
      var t, p := Patched(c, patch, now), c.probe.value;
      var q := t.probe.value;
      && t.periodSeconds == q.config.intervalSeconds && t.graceSeconds == 4 * q.config.intervalSeconds
      && q.hasAccessToken == (patch.token == TokenReplace || (patch.token == TokenUnchanged && p.hasAccessToken))
      && q.downDetail == p.downDetail
      && (patch.probe.None? ==> q.config == p.config)
      && (patch.probe.Some? ==>
            var named := patch.probe.value;
            && SetOrKept(named.url, p.config.url, q.config.url)
            && SetOrKept(named.expectedStatuses, p.config.expectedStatuses, q.config.expectedStatuses)
            && SetOrKept(named.timeoutSeconds, p.config.timeoutSeconds, q.config.timeoutSeconds)
            && SetOrKept(named.intervalSeconds, p.config.intervalSeconds, q.config.intervalSeconds)
            && (named.clearBodyMatch ==> q.config.bodyMatch.None?)
            && (!named.clearBodyMatch ==> q.config.bodyMatch == if named.bodyMatch.Some? then named.bodyMatch else p.config.bodyMatch))
  {
  }
}
