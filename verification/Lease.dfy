// Delivery workers on a shared clock: leases, timed phases, retried records and
// operator replays interleave freely (delivery-api/internal/dispatch/worker.go).
module Lease {
  import opened Common
  import opened MessageTables
  import Policy

  const RECIPIENT_DESTINATION := "@recipient"

  const DEFAULT_LEASE: Time := 120 * SECOND
  const DEFAULT_ATTEMPT_TIMEOUT: Time := 9 * SECOND
  const RECORD_TIMEOUT: Time := 5 * SECOND
  const DISABLE_TIMEOUT: Time := 2 * SECOND
  const LEASE_MARGIN: Time := 30 * SECOND
  const RECORD_ATTEMPTS: nat := 3

  datatype WorkerConfig = WorkerConfig(lease: Time, attemptTimeout: Time)

  /** Defaults for non-positive fields, then the lease is raised to the floor. */
  function NewWorker(config: WorkerConfig): (w: WorkerConfig)
    ensures w.attemptTimeout > 0
    ensures w.lease >= w.attemptTimeout + RECORD_TIMEOUT + DISABLE_TIMEOUT + LEASE_MARGIN
    ensures w.attemptTimeout == (if config.attemptTimeout > 0 then config.attemptTimeout else 9 * SECOND)
    ensures config.lease >= w.attemptTimeout + 37 * SECOND ==> w.lease == config.lease
    ensures config.lease < w.attemptTimeout + 37 * SECOND ==>
      w.lease == w.attemptTimeout + 37 * SECOND || (config.lease <= 0 && w.lease == 120 * SECOND)
    ensures config.lease <= 0 ==> w.lease >= 120 * SECOND
    ensures config.attemptTimeout > 0 && config.lease >= w.lease ==> w == config
  {
    var timeout := if config.attemptTimeout <= 0 then DEFAULT_ATTEMPT_TIMEOUT else config.attemptTimeout;
    var lease := if config.lease <= 0 then DEFAULT_LEASE else config.lease;
    WorkerConfig(Max(lease, timeout + RECORD_TIMEOUT + DISABLE_TIMEOUT + LEASE_MARGIN), timeout)
  }

  /** Where one claim loop is. d is the row as the claim returned it; written says a record of it committed. */
  datatype Phase =
    | Idle
    | Claiming(readAt: Time)
    | Returning(id: nat, d: Delivery, readAt: Time)
    | Attempting(id: nat, d: Delivery, deadline: Time)
    | Recording(id: nat, d: Delivery, result: AttemptResult, tries: nat, written: bool, deadline: Time)
    | Disabling(deadline: Time)

  /** Rows that have left the scheduled state, every id ever seen, and any number of workers. */
  datatype State = State(now: Time, rows: map<nat, Delivery>, seen: set<nat>, workers: map<nat, Phase>)

  /** Each worker's configuration, and whether this run loses record acknowledgements or sees replays. */
  datatype Config = Config(workers: map<nat, WorkerConfig>, acksLost: bool, replays: bool)

  function Settings(c: Config, w: nat): WorkerConfig
  {
    NewWorker(if w in c.workers then c.workers[w] else WorkerConfig(0, 0))
  }

  function Init(c: Config, now: Time): State
  {
    State(now, map[], {}, map w | w in c.workers :: Idle)
  }

  // ----- Steps ------------------------------------------------------------------

  datatype Action =
    | Tick(to: Time)
    | Enqueue(id: nat, d: Delivery)
    | Drop(id: nat)
    | Replay(id: nat)
    | StartClaim(w: nat)
    | ClaimNothing(w: nat)
    | ClaimLost(w: nat, id: nat)
    | Claim(w: nat, id: nat)
    | BeginAttempt(w: nat)
    | Send(w: nat, outcome: Policy.SinkOutcome, random: Option<real>)
    | CannotSend(w: nat, reason: string)
    | Abandon(w: nat)
    | Record(w: nat)
    | RecordFails(w: nat, giveUp: bool)
    | RecordAckLost(w: nat, giveUp: bool)
    | Disabled(w: nat)

  function Deadline(p: Phase): Option<Time>
  {
    match p
    case Idle => None
    case Claiming(readAt) => Some(readAt + LEASE_MARGIN)
    case Returning(_, _, readAt) => Some(readAt + LEASE_MARGIN)
    case Attempting(_, _, deadline) => Some(deadline)
    case Recording(_, _, _, _, _, deadline) => Some(deadline)
    case Disabling(deadline) => Some(deadline)
  }

  predicate InTime(p: Phase, t: Time) { Deadline(p).Some? ==> t <= Deadline(p).value }

  predicate Claimable(s: State, w: nat, id: nat)
  {
    w in s.workers && s.workers[w].Claiming? && id in s.rows
    && s.rows[id].state == Pending && s.rows[id].nextAttemptAt <= s.workers[w].readAt
  }

  predicate Recorder(s: State, w: nat) { w in s.workers && s.workers[w].Recording? }

  predicate LastTry(s: State, w: nat)
    requires Recorder(s, w)
  {
    s.workers[w].tries + 1 >= RECORD_ATTEMPTS
  }

  predicate Enabled(c: Config, s: State, a: Action)
  {
    match a
    case Tick(to) => s.now <= to && forall w :: w in s.workers ==> InTime(s.workers[w], to)
    case Enqueue(id, d) => id !in s.seen && d.state == Pending && d.budgetAttempts == 0 && d.attemptCount == 0 && d.attempts == []
    case Drop(id) => id in s.rows
    case Replay(id) => c.replays && id in s.rows && s.rows[id].state == Dead
    case StartClaim(w) => w in s.workers && s.workers[w].Idle?
    case ClaimNothing(w) => w in s.workers && s.workers[w].Claiming?
    case ClaimLost(w, id) => Claimable(s, w, id)
    case Claim(w, id) => Claimable(s, w, id)
    case BeginAttempt(w) => w in s.workers && s.workers[w].Returning?
    case Send(w, _, _) => w in s.workers && s.workers[w].Attempting?
    case CannotSend(w, reason) => w in s.workers && s.workers[w].Attempting? && reason != ""
    case Abandon(w) => w in s.workers
    case Record(w) => Recorder(s, w) && s.workers[w].id in s.rows
    case RecordFails(w, giveUp) => Recorder(s, w) && (LastTry(s, w) ==> giveUp)
    case RecordAckLost(w, giveUp) =>
      c.acksLost && Recorder(s, w) && s.workers[w].id in s.rows && (LastTry(s, w) ==> giveUp)
    case Disabled(w) => w in s.workers && s.workers[w].Disabling?
  }

  function LeaseOut(c: Config, s: State, w: nat, id: nat): Delivery
    requires Claimable(s, w, id)
  {
    Leased(s.rows[id], s.workers[w].readAt + Settings(c, w).lease)
  }

  /** RecordAttempt's transaction: a row that is no longer pending is left alone. */
  function RecordedRow(d: Delivery, result: AttemptResult, now: Time): Delivery
  {
    if d.state == Pending then Recorded(d, result, now) else d
  }

  function RecordInto(s: State, w: nat): map<nat, Delivery>
    requires Recorder(s, w) && s.workers[w].id in s.rows
  {
    var p := s.workers[w];
    s.rows[p.id := RecordedRow(s.rows[p.id], p.result, s.now)]
  }

  /** A destination that reported gone is disabled after the record, whatever became of it. */
  function AfterRecord(p: Phase, now: Time): Phase
    requires p.Recording?
  {
    if p.result.outcome == Gone && p.d.target.name != RECIPIENT_DESTINATION then Disabling(now + DISABLE_TIMEOUT) else Idle
  }

  function Moved(s: State, w: nat, p: Phase): State { s.(workers := s.workers[w := p]) }

  function ToRecord(s: State, w: nat, result: AttemptResult): State
    requires w in s.workers && s.workers[w].Attempting?
  {
    Moved(s, w, Recording(s.workers[w].id, s.workers[w].d, result, 0, false, s.now + RECORD_TIMEOUT))
  }

  function Next(c: Config, s: State, a: Action): State
    requires Enabled(c, s, a)
  {
    match a
    case Tick(to) => s.(now := to)
    case Enqueue(id, d) => s.(rows := s.rows[id := d], seen := s.seen + {id})
    case Drop(id) => s.(rows := s.rows - {id})
    case Replay(id) => s.(rows := s.rows[id := Replayed(s.rows[id], s.now)])
    case StartClaim(w) => Moved(s, w, Claiming(s.now))
    case ClaimNothing(w) => Moved(s, w, Idle)
    case ClaimLost(w, id) => Moved(s.(rows := s.rows[id := LeaseOut(c, s, w, id)]), w, Idle)
    case Claim(w, id) =>
      Moved(s.(rows := s.rows[id := LeaseOut(c, s, w, id)]), w,
            Returning(id, LeaseOut(c, s, w, id), s.workers[w].readAt))
    case BeginAttempt(w) =>
      Moved(s, w, Attempting(s.workers[w].id, s.workers[w].d, s.now + Settings(c, w).attemptTimeout))
    case Send(w, outcome, random) => ToRecord(s, w, Policy.Decide(s.workers[w].d, outcome, s.now, random))
    case CannotSend(w, reason) => ToRecord(s, w, Policy.NeverSent(s.now, reason))
    case Abandon(w) => Moved(s, w, Idle)
    case Record(w) => Moved(s.(rows := RecordInto(s, w)), w, AfterRecord(s.workers[w], s.now))
    case RecordFails(w, giveUp) =>
      var p := s.workers[w];
      Moved(s, w, if giveUp then AfterRecord(p, s.now) else p.(tries := p.tries + 1))
    case RecordAckLost(w, giveUp) =>
      var p := s.workers[w];
      Moved(s.(rows := RecordInto(s, w)), w,
            if giveUp then AfterRecord(p, s.now) else p.(tries := p.tries + 1, written := true))
    case Disabled(w) => Moved(s, w, Idle)
  }

  /** A run is the list of steps taken from a state. */
  ghost predicate Runs(c: Config, s: State, run: seq<Action>)
    decreases |run|
  {
    run == [] || (Enabled(c, s, run[0]) && Runs(c, Next(c, s, run[0]), run[1..]))
  }

  ghost function Final(c: Config, s: State, run: seq<Action>): State
    requires Runs(c, s, run)
    decreases |run|
  {
    if run == [] then s else Final(c, Next(c, s, run[0]), run[1..])
  }

  // ----- What every reachable state satisfies -------------------------------------

  /** Acknowledgements get lost or operators replay, but not both. */
  predicate Regime(c: Config) { !(c.acksLost && c.replays) }

  function PendingBudget(c: Config): nat
  {
    if c.acksLost then Policy.MAX_BUDGET_ATTEMPTS + RECORD_ATTEMPTS - 2 else Policy.MAX_BUDGET_ATTEMPTS - 1
  }

  predicate WithinBudget(c: Config, d: Delivery)
  {
    d.budgetAttempts <= PendingBudget(c) + 1 && (d.state == Pending ==> d.budgetAttempts <= PendingBudget(c))
  }

  predicate Holds(p: Phase, id: nat) { (p.Returning? || p.Attempting? || p.Recording?) && p.id == id }

  /** What the row of a worker still recording may look like once one of its records committed. */
  predicate AfterWrite(p: Phase, row: Delivery)
    requires p.Recording?
  {
    row.state == Pending ==>
      p.result.nextState == Pending && row.nextAttemptAt == p.result.nextAttemptAt
      && row.budgetAttempts <= p.d.budgetAttempts + p.tries
  }

  predicate ResultFits(p: Phase)
    requires p.Recording?
  {
    ValidResult(p.result) && (p.result.nextState == Pending ==>
      p.d.budgetAttempts <= Policy.MAX_BUDGET_ATTEMPTS - 2 && p.result.nextAttemptAt > p.deadline)
  }

  /** A worker's own clock discipline and, until it has recorded, a row untouched since its claim. */
  predicate PhaseOk(c: Config, s: State, w: nat, p: Phase)
  {
    && InTime(p, s.now)
    && match p
       case Idle => true
       case Claiming(readAt) => readAt <= s.now
       case Returning(id, d, readAt) =>
         && d.nextAttemptAt == readAt + Settings(c, w).lease
         && id in s.seen && d.budgetAttempts <= PendingBudget(c) && (id in s.rows ==> s.rows[id] == d)
         && d.state == Pending
       case Attempting(id, d, deadline) =>
         && deadline + RECORD_TIMEOUT + DISABLE_TIMEOUT <= d.nextAttemptAt
         && id in s.seen && d.budgetAttempts <= PendingBudget(c) && (id in s.rows ==> s.rows[id] == d)
         && d.state == Pending
       case Recording(id, d, result, tries, written, deadline) =>
         && deadline + DISABLE_TIMEOUT <= d.nextAttemptAt
         && id in s.seen && d.budgetAttempts <= PendingBudget(c) && d.state == Pending
         && tries < RECORD_ATTEMPTS && ResultFits(p)
         && (id in s.rows ==> if written then c.acksLost && AfterWrite(p, s.rows[id]) else s.rows[id] == d)
       case Disabling(_) => true
  }

  /** Two workers never hold one delivery. */
  ghost predicate Apart(p: Phase, q: Phase)
  {
    forall id :: !(Holds(p, id) && Holds(q, id))
  }

  ghost predicate Exclusive(s: State)
  {
    forall v, w {:trigger Apart(s.workers[v], s.workers[w])} | v in s.workers && w in s.workers && v != w ::
      Apart(s.workers[v], s.workers[w])
  }

  ghost predicate Safe(c: Config, s: State)
  {
    && s.now >= 0
    && s.rows.Keys <= s.seen
    && (forall id :: id in s.rows ==> WithinBudget(c, s.rows[id]))
    && (forall w :: w in s.workers ==> PhaseOk(c, s, w, s.workers[w]))
    && Exclusive(s)
  }

  ghost predicate Numbered(s: State)
  {
    && (forall id :: id in s.rows ==> AttemptsNumbered(s.rows[id]))
    && forall w :: w in s.workers && s.workers[w].Recording? ==> ValidResult(s.workers[w].result)
  }

  // ----- Steps that move one worker, and steps that change one row --------------------

  /** A worker that holds nothing it did not hold may move anywhere its phase is in order. */
  lemma MoveKeeps(c: Config, s: State, w: nat, p: Phase)
    requires Safe(c, s) && w in s.workers && PhaseOk(c, s, w, p)
    requires forall id :: Holds(p, id) ==> Holds(s.workers[w], id)
    ensures Safe(c, Moved(s, w, p))
  {
    var after := Moved(s, w, p);
    forall v, u | v in after.workers && u in after.workers && v != u
      ensures Apart(after.workers[v], after.workers[u])
    {
      assert Apart(s.workers[v], s.workers[u]);
    }
  }

  /** Nobody else holds the row, so changing it disturbs at most worker w, who is left idle. */
  lemma RowKeeps(c: Config, s: State, w: nat, id: nat, row: Delivery)
    requires Safe(c, s) && id in s.rows && WithinBudget(c, row)
    requires forall v :: v in s.workers && v != w ==> !Holds(s.workers[v], id)
    ensures Safe(c, State(s.now, s.rows[id := row], s.seen, s.workers[w := Idle]))
  {
    var after := State(s.now, s.rows[id := row], s.seen, s.workers[w := Idle]);
    forall v | v in after.workers ensures PhaseOk(c, after, v, after.workers[v]) {
      if v != w { assert PhaseOk(c, s, v, s.workers[v]); }
    }
    forall v, u | v in after.workers && u in after.workers && v != u
      ensures Apart(after.workers[v], after.workers[u])
    {
      if v != w && u != w { assert Apart(s.workers[v], s.workers[u]); }
    }
  }

  /** An idle worker may take on a row nobody holds. */
  lemma TakeKeeps(c: Config, s: State, w: nat, p: Phase, id: nat)
    requires Safe(c, s) && w in s.workers && s.workers[w] == Idle && PhaseOk(c, s, w, p)
    requires forall other :: Holds(p, other) ==> other == id
    requires forall v :: v in s.workers && v != w ==> !Holds(s.workers[v], id)
    ensures Safe(c, Moved(s, w, p))
  {
    var after := Moved(s, w, p);
    forall v, u | v in after.workers && u in after.workers && v != u
      ensures Apart(after.workers[v], after.workers[u])
    {
      assert Apart(s.workers[v], s.workers[u]);
    }
  }

  // ----- Why a held delivery is neither due nor dead -----------------------------------

  /** The lease, or the backoff of a record that did commit, outlives the holder's deadline. */
  lemma HeldIsNotDue(c: Config, s: State, v: nat, id: nat)
    requires Regime(c) && Safe(c, s) && v in s.workers && Holds(s.workers[v], id) && id in s.rows
    ensures s.rows[id].state == Pending ==> s.rows[id].nextAttemptAt > s.now
    ensures c.replays ==> s.rows[id].state == Pending
  {
    assert PhaseOk(c, s, v, s.workers[v]);
  }

  lemma NobodyHolds(c: Config, s: State, id: nat)
    requires Regime(c) && Safe(c, s) && id in s.rows
    requires if s.rows[id].state == Pending then s.rows[id].nextAttemptAt <= s.now else c.replays && s.rows[id].state == Dead
    ensures forall v :: v in s.workers ==> !Holds(s.workers[v], id)
  {
    forall v | v in s.workers ensures !Holds(s.workers[v], id) {
      if Holds(s.workers[v], id) { HeldIsNotDue(c, s, v, id); }
    }
  }

  // ----- Each step keeps it ---------------------------------------------------------------

  lemma TickKeeps(c: Config, s: State, to: Time)
    requires Safe(c, s) && Enabled(c, s, Tick(to))
    ensures Safe(c, Next(c, s, Tick(to)))
  {
    var after := Next(c, s, Tick(to));
    forall w | w in after.workers ensures PhaseOk(c, after, w, after.workers[w]) {
      assert PhaseOk(c, s, w, s.workers[w]);
    }
    forall v, w | v in after.workers && w in after.workers && v != w
      ensures Apart(after.workers[v], after.workers[w])
    {
      assert Apart(s.workers[v], s.workers[w]);
    }
  }

  lemma EnqueueDropKeeps(c: Config, s: State, a: Action)
    requires Safe(c, s) && (a.Enqueue? || a.Drop?) && Enabled(c, s, a)
    ensures Safe(c, Next(c, s, a))
  {
    var after := Next(c, s, a);
    forall w | w in after.workers ensures PhaseOk(c, after, w, after.workers[w]) {
      assert PhaseOk(c, s, w, s.workers[w]);
    }
    forall v, w | v in after.workers && w in after.workers && v != w
      ensures Apart(after.workers[v], after.workers[w])
    {
      assert Apart(s.workers[v], s.workers[w]);
    }
  }

  lemma ReplayKeeps(c: Config, s: State, id: nat)
    requires Regime(c) && Safe(c, s) && Enabled(c, s, Replay(id))
    ensures Safe(c, Next(c, s, Replay(id)))
  {
    NobodyHolds(c, s, id);
    var after := Next(c, s, Replay(id));
    forall w | w in after.workers ensures PhaseOk(c, after, w, after.workers[w]) {
      assert PhaseOk(c, s, w, s.workers[w]);
    }
    forall v, w | v in after.workers && w in after.workers && v != w
      ensures Apart(after.workers[v], after.workers[w])
    {
      assert Apart(s.workers[v], s.workers[w]);
    }
  }

  lemma ClaimKeeps(c: Config, s: State, w: nat, id: nat)
    requires Regime(c) && Safe(c, s) && Claimable(s, w, id)
    ensures Safe(c, Next(c, s, ClaimLost(w, id))) && Safe(c, Next(c, s, Claim(w, id)))
  {
    NobodyHolds(c, s, id);
    var lost := Next(c, s, ClaimLost(w, id));
    var row := LeaseOut(c, s, w, id);
    RowKeeps(c, s, w, id, row);
    assert lost == State(s.now, s.rows[id := row], s.seen, s.workers[w := Idle]);
    var p := Returning(id, row, s.workers[w].readAt);
    TakeKeeps(c, lost, w, p, id);
    assert Moved(lost, w, p) == Next(c, s, Claim(w, id));
  }

  lemma AttemptKeeps(c: Config, s: State, a: Action)
    requires Safe(c, s) && (a.StartClaim? || a.ClaimNothing? || a.BeginAttempt? || a.Abandon? || a.Disabled?)
    requires Enabled(c, s, a)
    ensures Safe(c, Next(c, s, a))
  {
    assert PhaseOk(c, s, a.w, s.workers[a.w]);
    MoveKeeps(c, s, a.w, Next(c, s, a).workers[a.w]);
  }

  lemma SendKeeps(c: Config, s: State, a: Action)
    requires Safe(c, s) && (a.Send? || a.CannotSend?) && Enabled(c, s, a)
    ensures Safe(c, Next(c, s, a))
  {
    var p := s.workers[a.w];
    assert PhaseOk(c, s, a.w, p);
    if a.Send? {
      Policy.DecisionsAreRecordable(p.d, a.outcome, s.now, a.random);
      Policy.RetryExactlyWithinBudget(p.d, a.outcome, s.now, a.random);
    }
    MoveKeeps(c, s, a.w, Next(c, s, a).workers[a.w]);
  }

  /** A committed record: the row as written and the worker as it goes on. */
  lemma RecordStays(c: Config, s: State, w: nat)
    requires Regime(c) && Safe(c, s) && Recorder(s, w) && s.workers[w].id in s.rows
    ensures WithinBudget(c, RecordInto(s, w)[s.workers[w].id])
    ensures forall v :: v in s.workers && v != w ==> !Holds(s.workers[v], s.workers[w].id)
  {
    var p := s.workers[w];
    assert PhaseOk(c, s, w, p);
    assert Holds(p, p.id);
    forall v | v in s.workers && v != w ensures !Holds(s.workers[v], p.id) {
      assert Apart(s.workers[v], s.workers[w]);
    }
  }

  lemma RecordKeeps(c: Config, s: State, w: nat)
    requires Regime(c) && Safe(c, s) && Enabled(c, s, Record(w))
    ensures Safe(c, Next(c, s, Record(w)))
  {
    var p := s.workers[w];
    RecordStays(c, s, w);
    var row := RecordInto(s, w)[p.id];
    RowKeeps(c, s, w, p.id, row);
    var idle := State(s.now, s.rows[p.id := row], s.seen, s.workers[w := Idle]);
    MoveKeeps(c, idle, w, AfterRecord(p, s.now));
    assert Moved(idle, w, AfterRecord(p, s.now)) == Next(c, s, Record(w));
  }

  lemma RecordFailsKeeps(c: Config, s: State, w: nat, giveUp: bool)
    requires Safe(c, s) && Enabled(c, s, RecordFails(w, giveUp))
    ensures Safe(c, Next(c, s, RecordFails(w, giveUp)))
  {
    assert PhaseOk(c, s, w, s.workers[w]);
    MoveKeeps(c, s, w, Next(c, s, RecordFails(w, giveUp)).workers[w]);
  }

  /** After a record whose reply was lost the worker still fits its row, now written. */
  lemma WrittenFits(c: Config, s: State, w: nat)
    requires Regime(c) && Safe(c, s) && Enabled(c, s, RecordAckLost(w, false))
    ensures var p := s.workers[w];
      PhaseOk(c, State(s.now, RecordInto(s, w), s.seen, s.workers[w := Idle]), w,
              p.(tries := p.tries + 1, written := true))
  {
    assert PhaseOk(c, s, w, s.workers[w]);
  }

  lemma RecordAckLostKeeps(c: Config, s: State, w: nat, giveUp: bool)
    requires Regime(c) && Safe(c, s) && Enabled(c, s, RecordAckLost(w, giveUp))
    ensures Safe(c, Next(c, s, RecordAckLost(w, giveUp)))
  {
    var p := s.workers[w];
    RecordStays(c, s, w);
    if !giveUp { WrittenFits(c, s, w); }
    RowKeeps(c, s, w, p.id, RecordInto(s, w)[p.id]);
    var idle := State(s.now, RecordInto(s, w), s.seen, s.workers[w := Idle]);
    var next := if giveUp then AfterRecord(p, s.now) else p.(tries := p.tries + 1, written := true);
    assert Moved(idle, w, next) == Next(c, s, RecordAckLost(w, giveUp));
    TakeKeeps(c, idle, w, next, p.id);
  }

  lemma StepKeepsSafe(c: Config, s: State, a: Action)
    requires Regime(c) && Safe(c, s) && Enabled(c, s, a)
    ensures Safe(c, Next(c, s, a))
  {
    match a
    case Tick(to) => TickKeeps(c, s, to);
    case Enqueue(_, _) => EnqueueDropKeeps(c, s, a);
    case Drop(_) => EnqueueDropKeeps(c, s, a);
    case Replay(id) => ReplayKeeps(c, s, id);
    case ClaimLost(w, id) => ClaimKeeps(c, s, w, id);
    case Claim(w, id) => ClaimKeeps(c, s, w, id);
    case Send(_, _, _) => SendKeeps(c, s, a);
    case CannotSend(_, _) => SendKeeps(c, s, a);
    case Record(w) => RecordKeeps(c, s, w);
    case RecordFails(w, giveUp) => RecordFailsKeeps(c, s, w, giveUp);
    case RecordAckLost(w, giveUp) => RecordAckLostKeeps(c, s, w, giveUp);
    case _ => AttemptKeeps(c, s, a);
  }

  lemma StepKeepsNumbered(c: Config, s: State, a: Action)
    requires s.now >= 0 && Numbered(s) && Enabled(c, s, a)
    ensures Next(c, s, a).now >= 0 && Numbered(Next(c, s, a))
  {
    if a.Send? { Policy.DecisionsAreRecordable(s.workers[a.w].d, a.outcome, s.now, a.random); }
  }

  // ----- Main results over every run -----------------------------------------------------

  lemma {:induction false} RunKeepsSafe(c: Config, s: State, run: seq<Action>)
    requires Regime(c) && Safe(c, s) && Runs(c, s, run)
    ensures Safe(c, Final(c, s, run))
    decreases |run|
  {
    if run != [] {
      StepKeepsSafe(c, s, run[0]);
      RunKeepsSafe(c, Next(c, s, run[0]), run[1..]);
    }
  }

  lemma InitSafe(c: Config, now: Time)
    requires now >= 0
    ensures Safe(c, Init(c, now)) && Numbered(Init(c, now))
  {
    var s := Init(c, now);
    forall v, w | v in s.workers && w in s.workers && v != w ensures Apart(s.workers[v], s.workers[w]) {
    }
  }

  /**
   * From its claim to the end of its record a worker holds its delivery alone, on any number of
   * workers with any configuration, as long as acknowledgements are not lost or nobody replays.
   */
  lemma AttemptsNeverOverlap(c: Config, now: Time, run: seq<Action>, v: nat, w: nat, id: nat)
    requires Regime(c) && now >= 0 && Runs(c, Init(c, now), run)
    ensures var s := Final(c, Init(c, now), run);
      v in s.workers && w in s.workers && Holds(s.workers[v], id) && Holds(s.workers[w], id) ==> v == w
  {
    InitSafe(c, now);
    RunKeepsSafe(c, Init(c, now), run);
    var s := Final(c, Init(c, now), run);
    if v in s.workers && w in s.workers && v != w { assert Apart(s.workers[v], s.workers[w]); }
  }

  /** While no acknowledgement is lost the retry budget is 12, and 11 while retries remain. */
  lemma BudgetNeverExceeded(c: Config, now: Time, run: seq<Action>, id: nat)
    requires !c.acksLost && now >= 0 && Runs(c, Init(c, now), run)
    ensures var s := Final(c, Init(c, now), run);
      id in s.rows ==>
        && s.rows[id].budgetAttempts <= Policy.MAX_BUDGET_ATTEMPTS
        && (s.rows[id].state == Pending ==> s.rows[id].budgetAttempts < Policy.MAX_BUDGET_ATTEMPTS)
  {
    InitSafe(c, now);
    RunKeepsSafe(c, Init(c, now), run);
  }

  /** A lost acknowledgement charges an attempt again, at most twice for the last retry: 14, and 13 while pending. */
  lemma LostAcksCostAtMostTwo(c: Config, now: Time, run: seq<Action>, id: nat)
    requires !c.replays && now >= 0 && Runs(c, Init(c, now), run)
    ensures var s := Final(c, Init(c, now), run);
      id in s.rows ==>
        && s.rows[id].budgetAttempts <= Policy.MAX_BUDGET_ATTEMPTS + 2
        && (s.rows[id].state == Pending ==> s.rows[id].budgetAttempts <= Policy.MAX_BUDGET_ATTEMPTS + 1)
  {
    InitSafe(c, now);
    RunKeepsSafe(c, Init(c, now), run);
  }

  lemma {:induction false} RunKeepsNumbered(c: Config, s: State, run: seq<Action>)
    requires s.now >= 0 && Numbered(s) && Runs(c, s, run)
    ensures Numbered(Final(c, s, run))
    decreases |run|
  {
    if run != [] {
      StepKeepsNumbered(c, s, run[0]);
      RunKeepsNumbered(c, Next(c, s, run[0]), run[1..]);
    }
  }

  /** In every run, lost acknowledgements and replays included, the log is numbered 1..attempt_count. */
  lemma LogIsGapFree(c: Config, now: Time, run: seq<Action>, id: nat)
    requires now >= 0 && Runs(c, Init(c, now), run)
    ensures var s := Final(c, Init(c, now), run);
      id in s.rows ==>
        && |s.rows[id].attempts| == s.rows[id].attemptCount
        && forall i :: 0 <= i < |s.rows[id].attempts| ==> s.rows[id].attempts[i].number == i + 1
    ensures var s := Final(c, Init(c, now), run);
      forall w :: w in s.workers && s.workers[w].Recording? ==> ValidResult(s.workers[w].result)
  {
    InitSafe(c, now);
    RunKeepsNumbered(c, Init(c, now), run);
  }

  /** Leaving a record, a worker goes on to disable its destination exactly when that one reported gone and has a name. */
  lemma GoneDisables(c: Config, s: State, a: Action)
    requires a.Record? || (a.RecordFails? && a.giveUp) || (a.RecordAckLost? && a.giveUp)
    requires Enabled(c, s, a)
    ensures var p, after := s.workers[a.w], Next(c, s, a).workers[a.w];
      && !Holds(after, p.id)
      && (after.Disabling? <==> p.result.outcome == Gone && p.d.target.name != "@recipient")
      && (!after.Disabling? ==> after == Idle)
  {
  }

  /** A claim leases for the time its worker is configured with, and an attempt runs for the worker's timeout. */
  lemma StepsUseSettings(c: Config, s: State, w: nat, id: nat)
    requires w in c.workers && w in s.workers
    ensures Claimable(s, w, id) ==>
      var after, due := Next(c, s, Claim(w, id)), s.workers[w].readAt + NewWorker(c.workers[w]).lease;
      && after.rows == s.rows[id := s.rows[id].(nextAttemptAt := due)]
      && after.workers == s.workers[w := Returning(id, after.rows[id], s.workers[w].readAt)]
    ensures s.workers[w].Returning? ==>
      var p := s.workers[w];
      Next(c, s, BeginAttempt(w)).workers ==
        s.workers[w := Attempting(p.id, p.d, s.now + NewWorker(c.workers[w]).attemptTimeout)]
  {
  }

  /** A record that fails is tried again by the same worker, with the same result and deadline, unless it gives up. */
  lemma FailedRecordRetries(c: Config, s: State, w: nat)
    requires Recorder(s, w) && s.workers[w].tries + 1 < 3
    ensures var p, after := s.workers[w], Next(c, s, RecordFails(w, false));
      after.rows == s.rows && after.workers == s.workers[w := p.(tries := p.tries + 1)]
  {
  }
}
