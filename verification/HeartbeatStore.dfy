// The heartbeat tables updated in place, one transaction a method, and the
// prober that feeds them (delivery-api/internal/heartbeat/pgstore.go, probe_store.go, prober.go).
module HeartbeatStore {
  import opened Common
  import opened Ordered
  import opened HeartbeatMachine
  import opened HeartbeatRuns

  datatype StoreError =
    | CheckNotFound | CheckExists | ProbeCheckPing | InvalidPingKind | InvalidPatch | InvalidClaimLimit | ProbeOnPush

  datatype NewCheck = NewCheck(
    appId: string, name: string, periodSeconds: int, graceSeconds: int, destinations: seq<DestinationRef>,
    probe: Option<ProbeConfig>, hasAccessToken: bool)

  /** A check in state new, its clock starting now; a probe check's schedule is derived from its interval. */
  function Created(n: NewCheck, now: Time): StoredCheck
  {
    var schedule := if n.probe.Some? then DerivedSchedule(n.probe.value.intervalSeconds)
                    else (n.periodSeconds, n.graceSeconds);
    var probe := if n.probe.None? then None
                 else Some(ProbeState(n.probe.value, n.hasAccessToken, 0,
                                      now + n.probe.value.intervalSeconds * SECOND, 1, None, None));
    StoredCheck(n.appId, n.name, schedule.0, schedule.1, New, false, now, None, None, None, None, 0, None,
                n.destinations, probe)
  }

  /** New from now on, with nothing seen yet; a probe runs one interval on, with a grace of four intervals. */
  predicate StartsAs(c: StoredCheck, n: NewCheck, now: Time)
  {
    && c.appId == n.appId && c.name == n.name && c.destinations == n.destinations && c.anchorAt == now
    && c.lastPingAt.None? && c.lastPingKind.None? && c.downSince.None?
    && (n.probe.None? ==> c.probe.None? && c.periodSeconds == n.periodSeconds && c.graceSeconds == n.graceSeconds)
    && (n.probe.Some? ==>
          var interval := n.probe.value.intervalSeconds;
          && c.periodSeconds == interval && c.graceSeconds == 4 * interval
          && c.probe == Some(ProbeState(n.probe.value, n.hasAccessToken, 0, now + interval * SECOND, 1, None, None)))
  }

  predicate Named(c: StoredCheck, appId: string, name: string) { c.appId == appId && c.name == name }

  predicate NameFree(checks: map<nat, StoredCheck>, appId: string, name: string)
  {
    forall id :: id in checks ==> !Named(checks[id], appId, name)
  }

  ghost predicate NamesUnique(checks: map<nat, StoredCheck>)
  {
    forall a, b | a in checks && b in checks && a != b :: !Named(checks[a], checks[b].appId, checks[b].name)
  }

  /** Every check takes the step. */
  function AllStepped(checks: map<nat, StoredCheck>, ids: set<nat>, e: Event): map<nat, StoredCheck>
  {
    map id | id in checks :: if id in ids then Step(checks[id], e) else checks[id]
  }

  lemma StepKeepsName(c: StoredCheck, e: Event)
    ensures Step(c, e).appId == c.appId && Step(c, e).name == c.name
  {
  }

  lemma OneNamed(checks: map<nat, StoredCheck>, id: nat)
    requires NamesUnique(checks) && id in checks
    ensures forall other :: other in checks && Named(checks[other], checks[id].appId, checks[id].name) ==> other == id
  {
  }

  /** When each probe the claim statement may take is due. */
  function DueProbes(checks: map<nat, StoredCheck>, now: Time, stale: set<nat>, lockedElsewhere: set<nat>): map<nat, Time>
  {
    map id | id in checks && id !in lockedElsewhere && Claimable(checks[id], now, id in stale)
      :: checks[id].probe.value.nextProbeAt
  }

  /** An unpaused probe check, or one seen unpaused before a pause committed, that is due and that nobody holds. */
  predicate MayProbe(checks: map<nat, StoredCheck>, id: nat, now: Time, stale: set<nat>, lockedElsewhere: set<nat>)
  {
    && id in checks && id !in lockedElsewhere && checks[id].probe.Some? && (!checks[id].paused || id in stale)
    && checks[id].probe.value.nextProbeAt <= now
  }

  /** A claimed check is due again exactly one interval on; nothing else of it changes. */
  predicate ClaimedRow(c: StoredCheck, after: StoredCheck, claimed: bool, now: Time)
  {
    if !claimed then after == c
    else
      && c.probe.Some? && after.probe.Some?
      && after.probe.value.nextProbeAt == now + c.probe.value.config.intervalSeconds * SECOND
      && after == c.(probe := Some(c.probe.value.(nextProbeAt := after.probe.value.nextProbeAt)))
  }

  lemma DueMeans(checks: map<nat, StoredCheck>, now: Time, stale: set<nat>, lockedElsewhere: set<nat>, picked: set<nat>, limit: nat)
    requires IsSoonest(DueProbes(checks, now, stale, lockedElsewhere), picked, limit)
    ensures forall id :: id in picked ==> MayProbe(checks, id, now, stale, lockedElsewhere)
    ensures |picked| < limit ==>
      forall id :: id in checks && MayProbe(checks, id, now, stale, lockedElsewhere) ==> id in picked
    ensures forall id :: id in checks ==>
      ClaimedRow(checks[id], AllClaimed(checks, picked, now, stale)[id], id in picked, now)
  {
    var due := DueProbes(checks, now, stale, lockedElsewhere);
    assert forall id :: id in due.Keys <==> MayProbe(checks, id, now, stale, lockedElsewhere);
    SubsetSize(picked, due.Keys);
    if |picked| < limit { assert |due.Keys - picked| == 0; }
  }

  function AllClaimed(checks: map<nat, StoredCheck>, ids: set<nat>, now: Time, stale: set<nat>): map<nat, StoredCheck>
  {
    map id | id in checks :: if id in ids then Step(checks[id], Claim(now, id in stale)) else checks[id]
  }

  /** The rows the tick's filter selects. */
  function DueChecks(checks: map<nat, StoredCheck>, now: Time): set<nat>
  {
    set id | id in checks && DueWhere(checks[id], now)
  }

  function Advances(checks: map<nat, StoredCheck>, ids: set<nat>, now: Time): set<nat>
  {
    set id | id in ids && id in checks && AdvanceTick(checks[id], now).1
  }

  /** Ticking the filtered rows is ticking every row. */
  lemma TickingDueIsTickingAll(checks: map<nat, StoredCheck>, now: Time)
    ensures AllStepped(checks, DueChecks(checks, now), Tick(now)) == AllStepped(checks, checks.Keys, Tick(now))
    ensures Advances(checks, DueChecks(checks, now), now) ==
      set id | id in checks && Step(checks[id], Tick(now)) != checks[id]
  {
    forall id | id in checks
      ensures AdvanceTick(checks[id], now).1 <==> id in DueChecks(checks, now) && !checks[id].state.OtherState?
      ensures !AdvanceTick(checks[id], now).1 <==> Step(checks[id], Tick(now)) == checks[id]
    {
      TickFilterIsExact(checks[id], now);
    }
  }

  lemma TickOneMore(checks: map<nat, StoredCheck>, done: set<nat>, id: nat, now: Time)
    requires id in checks
    ensures AllStepped(checks, done + {id}, Tick(now)) ==
      AllStepped(checks, done, Tick(now))[id := Step(checks[id], Tick(now))]
    ensures Advances(checks, done + {id}, now) ==
      Advances(checks, done, now) + (if AdvanceTick(checks[id], now).1 then {id} else {})
  {
  }

  /** The claim statement's update of the rows it picked. */
  function Advanced(checks: map<nat, StoredCheck>, ids: set<nat>, now: Time): map<nat, StoredCheck>
    requires forall id :: id in ids ==> id in checks && checks[id].probe.Some?
  {
    map id | id in checks :: if id in ids then Claimed(checks[id], now) else checks[id]
  }

  lemma AdvancedIsClaimed(checks: map<nat, StoredCheck>, ids: set<nat>, now: Time, stale: set<nat>, locked: set<nat>)
    requires ids <= DueProbes(checks, now, stale, locked).Keys
    ensures forall id :: id in ids ==> id in checks && checks[id].probe.Some?
    ensures Advanced(checks, ids, now) == AllClaimed(checks, ids, now, stale)
  {
  }

  lemma ClaimsKeepNames(checks: map<nat, StoredCheck>, ids: set<nat>, now: Time, stale: set<nat>)
    requires NamesUnique(checks)
    ensures NamesUnique(AllClaimed(checks, ids, now, stale))
  {
    var after := AllClaimed(checks, ids, now, stale);
    forall id | id in checks ensures after[id].appId == checks[id].appId && after[id].name == checks[id].name {
      StepKeepsName(checks[id], Claim(now, id in stale));
    }
  }

  class CheckStore {
    var checks: map<nat, StoredCheck>
    var nextId: nat

    ghost predicate Valid()
      reads this
    {
      NamesUnique(checks) && forall id :: id in checks ==> id < nextId
    }

    constructor ()
      ensures Valid() && checks == map[]
    {
      checks, nextId := map[], 0;
    }

    method Create(n: NewCheck, at: Time) returns (r: Result<nat, StoreError>)
      requires Valid()
      modifies this
      ensures Valid()
      ensures r.Err? ==> checks == old(checks)
      ensures r == Err(ProbeOnPush) <==> n.probe.None? && n.hasAccessToken
      ensures r == Err(CheckExists) <==> !(n.probe.None? && n.hasAccessToken) && !NameFree(old(checks), n.appId, n.name)
      ensures r.Ok? ==>
        r.value !in old(checks) && checks == old(checks)[r.value := Created(n, StoreTime(at))] && IsNew(checks[r.value])
        && StartsAs(checks[r.value], n, StoreTime(at))
      ensures r.Err? ==> r.error in {ProbeOnPush, CheckExists}
    {
      if n.probe.None? && n.hasAccessToken { return Err(ProbeOnPush); }
      if id :| id in checks && Named(checks[id], n.appId, n.name) { return Err(CheckExists); }
      checks := checks[nextId := Created(n, StoreTime(at))];
      nextId := nextId + 1;
      r := Ok(nextId - 1);
    }

    /**
     * The save path: next_probe_at is written only when it differs from the value read under the
     * lock, which leaves the row as next has it either way.
     */
    method SaveCheck(id: nat, next: StoredCheck, locked: StoredCheck)
      requires Valid() && id in checks && checks[id] == locked
      requires Named(next, locked.appId, locked.name) && (next.probe.Some? <==> locked.probe.Some?)
      modifies this`checks
      ensures Valid() && checks == old(checks)[id := next]
    {
      var row := next;
      if next.probe.Some? && next.probe.value.nextProbeAt == locked.probe.value.nextProbeAt {
        row := next.(probe := Some(next.probe.value.(nextProbeAt := checks[id].probe.value.nextProbeAt)));
      }
      checks := checks[id := row];
    }

    method RecordPing(appId: string, name: string, kind: PingKind, at: Time) returns (r: Result<nat, StoreError>)
      requires Valid()
      modifies this`checks
      ensures Valid()
      ensures r == Err(InvalidPingKind) <==> kind.OtherPing?
      ensures r == Err(CheckNotFound) <==> !kind.OtherPing? && NameFree(old(checks), appId, name)
      ensures r == Err(ProbeCheckPing) <==>
        !kind.OtherPing? && exists id :: id in old(checks) && Named(old(checks)[id], appId, name) && old(checks)[id].probe.Some?
      ensures r.Err? ==> checks == old(checks) && r.error in {InvalidPingKind, CheckNotFound, ProbeCheckPing}
      ensures r.Ok? ==>
        && r.value in old(checks) && Named(old(checks)[r.value], appId, name) && old(checks)[r.value].probe.None?
        && checks == old(checks)[r.value := Step(old(checks)[r.value], Ping(kind, StoreTime(at)))]
        && (!old(checks)[r.value].state.OtherState? ==> checks[r.value].state == if kind == PingSuccess then Up else Down)
    {
      if kind.OtherPing? { return Err(InvalidPingKind); }
      if id :| id in checks && Named(checks[id], appId, name) {
        var current := checks[id];
        OneNamed(checks, id);
        if current.probe.Some? { return Err(ProbeCheckPing); }
        StepKeepsName(current, Ping(kind, StoreTime(at)));
        PingMoves(current, kind, StoreTime(at));
        SaveCheck(id, ApplyPing(current, kind, StoreTime(at)).0, current);
        return Ok(id);
      }
      r := Err(CheckNotFound);
    }

    /** One round of the tick's loop. */
    method AdvanceOne(id: nat, now: Time) returns (changed: bool)
      requires Valid() && id in checks
      modifies this`checks
      ensures Valid()
      ensures checks == old(checks)[id := Step(old(checks)[id], Tick(now))]
      ensures changed <==> AdvanceTick(old(checks)[id], now).1
    {
      var current := checks[id];
      StepKeepsName(current, Tick(now));
      TickFilterIsExact(current, now);
      changed := AdvanceTick(current, now).1;
      if changed { SaveCheck(id, AdvanceTick(current, now).0, current); }
    }

    /** The due rows locked by the filter, advanced one by one: the same as every check ticking. */
    method AdvanceDue(at: Time) returns (advanced: set<nat>)
      requires Valid()
      modifies this`checks
      ensures Valid()
      ensures checks == AllStepped(old(checks), old(checks).Keys, Tick(StoreTime(at)))
      ensures advanced == set id | id in old(checks) && checks[id] != old(checks)[id]
    {
      var now := StoreTime(at);
      ghost var before := checks;
      var todo := DueChecks(checks, now);
      ghost var due := todo;
      advanced := {};
      while todo != {}
        invariant Valid() && todo <= due <= before.Keys
        invariant checks == AllStepped(before, due - todo, Tick(now))
        invariant advanced == Advances(before, due - todo, now)
        decreases todo
      {
        var id :| id in todo;
        TickOneMore(before, due - todo, id, now);
        assert due - (todo - {id}) == due - todo + {id};
        todo := todo - {id};
        var changed := AdvanceOne(id, now);
        if changed { advanced := advanced + {id}; }
      }
      assert due - todo == due;
      TickingDueIsTickingAll(before, now);
    }

    method Pause(id: nat) returns (r: Result<nat, StoreError>)
      requires Valid()
      modifies this`checks
      ensures Valid()
      ensures r == if id in old(checks) then Ok(id) else Err(CheckNotFound)
      ensures checks == AllStepped(old(checks), {id}, Event.Pause)
      ensures r.Ok? ==> checks[id].paused && checks[id].pendingAlert.None? && checks[id].state == old(checks)[id].state
    {
      if id !in checks { return Err(CheckNotFound); }
      PausePauses(checks[id]);
      SaveCheck(id, ApplyPause(checks[id]), checks[id]);
      r := Ok(id);
    }

    method Resume(id: nat, at: Time) returns (r: Result<nat, StoreError>)
      requires Valid()
      modifies this`checks
      ensures Valid()
      ensures r == if id in old(checks) then Ok(id) else Err(CheckNotFound)
      ensures checks == AllStepped(old(checks), {id}, Event.Resume(StoreTime(at)))
      ensures r.Ok? ==> !checks[id].paused && checks[id].state == old(checks)[id].state
      ensures r.Ok? && old(checks)[id].paused ==> checks[id].anchorAt == StoreTime(at)
    {
      if id !in checks { return Err(CheckNotFound); }
      ResumeResumes(checks[id], StoreTime(at));
      SaveCheck(id, ApplyResume(checks[id], StoreTime(at)), checks[id]);
      r := Ok(id);
    }

    /** valid is the verdict on the merged update's field bounds. */
    method PatchCheck(id: nat, patch: CheckPatch, valid: CheckUpdate -> bool, at: Time)
      returns (r: Result<nat, StoreError>)
      requires Valid()
      modifies this`checks
      ensures Valid()
      ensures r.Ok? <==>
        && id in old(checks) && valid(ApplyPatch(old(checks)[id], patch))
        && (if old(checks)[id].probe.Some? then patch.periodSeconds.None? && patch.graceSeconds.None?
            else patch.probe.None? && patch.token == TokenUnchanged)
      ensures r == Err(CheckNotFound) <==> id !in old(checks)
      ensures r.Err? && id in old(checks) ==> r == Err(InvalidPatch)
      ensures checks ==
        if r.Ok? then AllStepped(old(checks), {id}, Event.Patch(patch, StoreTime(at))) else old(checks)
    {
      if id !in checks { return Err(CheckNotFound); }
      var current := checks[id];
      if !PatchFitsKind(current, patch) || !valid(ApplyPatch(current, patch)) { return Err(InvalidPatch); }
      StepKeepsName(current, Event.Patch(patch, StoreTime(at)));
      SaveCheck(id, Patched(current, patch, StoreTime(at)), current);
      r := Ok(id);
    }

    /** The claim statement: limit due rows nobody holds, none sooner left out, each due again one interval on. */
    method ClaimDueProbes(at: Time, limit: int, stale: set<nat>, lockedElsewhere: set<nat>)
      returns (r: Result<set<nat>, StoreError>)
      requires Valid()
      modifies this`checks
      ensures Valid()
      ensures r.Err? <==> limit < 1
      ensures r.Err? ==> checks == old(checks)
      ensures r.Ok? ==>
        && IsSoonest(DueProbes(old(checks), StoreTime(at), stale, lockedElsewhere), r.value, limit)
        && checks == AllClaimed(old(checks), r.value, StoreTime(at), stale)
        && (forall id :: id in r.value ==> MayProbe(old(checks), id, StoreTime(at), stale, lockedElsewhere))
        && (|r.value| < limit ==>
              forall id :: id in old(checks) && MayProbe(old(checks), id, StoreTime(at), stale, lockedElsewhere) ==> id in r.value)
        && checks.Keys == old(checks).Keys
        && (forall id :: id in old(checks) ==> ClaimedRow(old(checks)[id], checks[id], id in r.value, StoreTime(at)))
    {
      if limit < 1 { return Err(InvalidClaimLimit); }
      var claimed := Soonest(DueProbes(checks, StoreTime(at), stale, lockedElsewhere), limit);
      DueMeans(checks, StoreTime(at), stale, lockedElsewhere, claimed, limit);
      ClaimsKeepNames(checks, claimed, StoreTime(at), stale);
      AdvancedIsClaimed(checks, claimed, StoreTime(at), stale, lockedElsewhere);
      checks := Advanced(checks, claimed, StoreTime(at));
      r := Ok(claimed);
    }

    /** Written only under the claim's version; anything else leaves the row alone. */
    method RecordProbeResult(id: nat, version: nat, result: ProbeResult, at: Time, holdOffUntil: Time)
      returns (applied: bool)
      requires Valid()
      modifies this`checks
      ensures Valid()
      ensures applied <==> id in old(checks) && Applies(old(checks)[id], result, version)
      ensures checks ==
        AllStepped(old(checks), {id}, Event.Result(result, version, StoreTime(at), StoreTime(holdOffUntil)))
      ensures applied && result.reason.None? ==> checks[id].state == Up
      ensures applied && result.reason.Some? && old(checks)[id].state != Down ==>
        (checks[id].state == Down <==>
           old(checks)[id].probe.value.consecutiveFailures >= 2 && StoreTime(holdOffUntil) <= StoreTime(at))
    {
      if id !in checks { return false; }
      var current := checks[id];
      if current.probe.None? || current.probe.value.configVersion != version { return false; }
      var (next, accepted, _) := ApplyProbeResult(current, result, StoreTime(at), StoreTime(holdOffUntil));
      if !accepted { return false; }
      ResultMoves(current, result, StoreTime(at), StoreTime(holdOffUntil));
      SaveCheck(id, next, current);
      applied := true;
    }

    method ClearPendingAlert(id: nat, alertSeq: nat) returns (cleared: bool)
      requires Valid()
      modifies this`checks
      ensures Valid()
      ensures checks == AllStepped(old(checks), {id}, Event.Clear(alertSeq))
      ensures cleared <==> checks != old(checks)
      ensures cleared <==>
        id in old(checks) && old(checks)[id].alertSeq == alertSeq && old(checks)[id].pendingAlert.Some?
      ensures checks == if cleared then old(checks)[id := old(checks)[id].(pendingAlert := None)] else old(checks)
    {
      cleared := id in checks && checks[id].alertSeq == alertSeq && checks[id].pendingAlert.Some?;
      if cleared {
        ghost var was := checks[id];
        checks := checks[id := checks[id].(pendingAlert := None)];
        assert checks[id] != was;
      }
    }

    method Delete(id: nat) returns (existed: bool)
      requires Valid()
      modifies this`checks
      ensures Valid()
      ensures existed <==> id in old(checks)
      ensures checks == old(checks) - {id}
    {
      existed := id in checks;
      checks := checks - {id};
    }
  }

  // ----- The prober -----------------------------------------------------------------

  /** A started probe: the pass that claimed it and its check. */
  type Probe = (nat, nat)

  function ProbesOf(pass: nat, claims: set<nat>): set<Probe> { set id | id in claims :: (pass, id) }

  lemma OneMoreClaim(pass: nat, claims: set<nat>, rest: set<nat>, id: nat)
    requires rest <= claims && id in rest
    ensures ProbesOf(pass, claims - (rest - {id})) == ProbesOf(pass, claims - rest) + {(pass, id)}
    ensures (pass, id) !in ProbesOf(pass, claims - rest)
  {
    assert claims - (rest - {id}) == claims - rest + {id};
  }

  /** Started so far and ended so far, after one more round. */
  lemma OneMoreRound(before: set<Probe>, done: set<Probe>, ended: set<Probe>, more: set<Probe>, probe: Probe)
    requires ended <= before + done && more <= before + done - ended && probe !in before + done
    ensures before + done - ended - more + {probe} == before + (done + {probe}) - (ended + more)
    ensures |ended + more| == |ended| + |more| && ended + more <= before + (done + {probe})
  {
  }

  /** Probes run detached; each holds a slot from its start until its result is written. */
  class Prober {
    const store: CheckStore
    const concurrency: nat
    var inFlight: nat
    /** The probes started and not ended, and how many passes there were. */
    ghost var running: set<Probe>
    ghost var passes: nat

    /** The counter counts the running probes, and they never exceed the concurrency. */
    ghost predicate Valid()
      reads this
    {
      && inFlight == |running| && |running| <= concurrency
      && forall p :: p in running ==> p.0 < passes
    }

    /** A concurrency below 1 is refused. */
    static method NewProber(store: CheckStore, concurrency: int) returns (r: Option<Prober>)
      ensures r.None? <==> concurrency < 1
      ensures r.Some? ==> fresh(r.value) && r.value.Valid() && r.value.inFlight == 0 && r.value.running == {}
      ensures r.Some? ==> r.value.store == store && r.value.concurrency == concurrency
    {
      if concurrency < 1 { return None; }
      var prober := new Prober(store, concurrency);
      r := Some(prober);
    }

    constructor (store: CheckStore, concurrency: nat)
      requires concurrency >= 1
      ensures Valid() && inFlight == 0 && running == {} && this.store == store && this.concurrency == concurrency
    {
      this.store, this.concurrency, inFlight := store, concurrency, 0;
      running, passes := {}, 0;
    }

    /** A running probe ends, whatever became of it, and frees its slot. */
    method RunEnds(ghost probe: Probe)
      requires Valid() && probe in running
      modifies this`inFlight, this`running
      ensures Valid() && running == old(running) - {probe} && inFlight == old(inFlight) - 1
    {
      inFlight := inFlight - 1;
      running := running - {probe};
    }

    /** Up to count running probes end. */
    method SomeEnd(count: nat) returns (ghost ended: set<Probe>)
      requires Valid()
      modifies this`inFlight, this`running
      ensures Valid() && ended <= old(running) && running == old(running) - ended
      ensures |ended| == Min(count, old(inFlight))
    {
      var left := count;
      ended := {};
      while left > 0 && inFlight > 0
        invariant 0 <= left <= count && Valid()
        invariant ended <= old(running) && running == old(running) - ended && |ended| == count - left
        invariant inFlight == old(inFlight) - |ended|
      {
        ghost var probe :| probe in running;
        RunEnds(probe);
        ended := ended + {probe};
        left := left - 1;
      }
    }

    /** A claim is started: it runs and takes a slot. */
    method Start(ghost probe: Probe)
      requires Valid() && probe !in running && probe.0 < passes && inFlight < concurrency
      modifies this`inFlight, this`running
      ensures Valid() && running == old(running) + {probe} && inFlight == old(inFlight) + 1
    {
      inFlight := inFlight + 1;
      running := running + {probe};
    }

    /** One claim's turn: some running probes end, then it starts. */
    method StartNext(count: nat, ghost probe: Probe) returns (ghost ended: set<Probe>)
      requires Valid() && probe !in running && probe.0 < passes && inFlight < concurrency
      modifies this`inFlight, this`running
      ensures Valid() && ended <= old(running) && running == old(running) - ended + {probe}
      ensures |ended| == Min(count, old(inFlight))
    {
      ended := SomeEnd(count);
      Start(probe);
    }

    /** The claims outside rest have started since before, and the probes in ended have ended. */
    ghost predicate Starting(before: set<Probe>, pass: nat, claims: set<nat>, rest: set<nat>, ended: set<Probe>)
      reads this
    {
      && Valid() && pass < passes && rest <= claims && |before| + |claims| <= concurrency
      && (forall id :: id in claims ==> (pass, id) !in before)
      && ended <= before + ProbesOf(pass, claims - rest)
      && running == before + ProbesOf(pass, claims - rest) - ended
      && inFlight == |before| + (|claims| - |rest|) - |ended|
    }

    /** One round of the loop over the claims. */
    method StartRound(id: nat, count: nat, ghost before: set<Probe>, ghost pass: nat, claims: set<nat>, rest: set<nat>,
                      ghost ended: set<Probe>)
      returns (ghost all: set<Probe>)
      requires id in rest && Starting(before, pass, claims, rest, ended)
      modifies this`inFlight, this`running
      ensures Starting(before, pass, claims, rest - {id}, all) && (count == 0 ==> all == ended)
    {
      OneMoreClaim(pass, claims, rest, id);
      ghost var more := StartNext(count, (pass, id));
      OneMoreRound(before, ProbesOf(pass, claims - rest), ended, more, (pass, id));
      all := ended + more;
    }

    /** The claims of a pass start one by one, some running probes ending before each. */
    method StartClaims(claims: set<nat>, ending: nat -> nat, ghost pass: nat) returns (ghost ended: set<Probe>)
      requires Valid() && pass < passes && inFlight + |claims| <= concurrency
      requires forall id :: id in claims ==> (pass, id) !in running
      modifies this`inFlight, this`running
      ensures Valid() && ended <= old(running) + ProbesOf(pass, claims)
      ensures running == old(running) + ProbesOf(pass, claims) - ended
      ensures inFlight == old(inFlight) + |claims| - |ended|
      ensures (forall k :: ending(k) == 0) ==> ended == {}
    {
      ended := {};
      var rest, started := claims, 0;
      assert ProbesOf(pass, claims - rest) == {};
      while rest != {}
        invariant Starting(old(running), pass, claims, rest, ended)
        invariant (forall k :: ending(k) == 0) ==> ended == {}
        decreases rest
      {
        var id :| id in rest;
        ended := StartRound(id, ending(started), old(running), pass, claims, rest, ended);
        rest, started := rest - {id}, started + 1;
      }
      assert claims - rest == claims;
    }

    /**
     * One pass. ending(k) is how many probes end before the k-th claim of this pass is started. The
     * slot count is read once, so only ends may come between the read and the starts. Every claim is
     * running afterwards unless it ended meanwhile, and holds a slot while it runs.
     */
    method Scan(at: Time, stale: set<nat>, lockedElsewhere: set<nat>, ending: nat -> nat)
      returns (claims: set<nat>, ghost ended: set<Probe>)
      requires Valid() && store.Valid()
      modifies this, store`checks
      ensures Valid() && store.Valid()
      ensures |claims| <= concurrency - old(inFlight)
      ensures old(inFlight) < concurrency ==>
        IsSoonest(DueProbes(old(store.checks), StoreTime(at), stale, lockedElsewhere), claims, concurrency - old(inFlight))
      ensures store.checks == AllClaimed(old(store.checks), claims, StoreTime(at), stale)
      ensures ended <= old(running) + ProbesOf(old(passes), claims)
      ensures running == old(running) + ProbesOf(old(passes), claims) - ended
      ensures inFlight == old(inFlight) + |claims| - |ended|
      ensures (forall k :: ending(k) == 0) ==> ended == {}
    {
      claims, ended := {}, {};
      ghost var pass := passes;
      passes := passes + 1;
      var free := concurrency - inFlight;
      if free <= 0 { return; }
      var claimed := store.ClaimDueProbes(at, free, stale, lockedElsewhere);
      claims := claimed.value;
      ended := StartClaims(claims, ending, pass);
    }
  }
}
