// The Postgres message store run one transaction at a time
// (delivery-api/internal/message/pgstore.go, pgstore_scheduled.go, pgstore_held.go).
module MessageStore {
  import opened Common
  import opened Ordered
  import opened MessageTables
  import opened MessageCounts
  import opened MessageEffects

  // ----- Derived status, as the code counts it -------------------------------

  /** Counting states one delivery at a time gives the status of the set of states. */
  method DeriveStatus(states: seq<DeliveryState>, marks: Marks) returns (status: Status)
    ensures status == Derive((set s | s in states), marks)
  {
    if marks.cancelledAt.Some? { return StatusCancelled; }
    if marks.heldAt.Some? { return StatusUnrouted; }
    if marks.releaseFailedAt.Some? { return StatusReleaseFailed; }
    if |states| == 0 { return StatusPending; }
    var delivered, dead, scheduled, cancelled := 0, 0, 0, 0;
    for i := 0 to |states|
      invariant delivered >= 0 && dead >= 0 && scheduled >= 0 && cancelled >= 0
      invariant delivered + dead + scheduled + cancelled == i
      invariant delivered > 0 <==> Delivered in states[..i]
      invariant dead > 0 <==> Dead in states[..i]
      invariant scheduled > 0 <==> Scheduled in states[..i]
      invariant cancelled > 0 <==> Cancelled in states[..i]
      invariant Pending !in states[..i]
    {
      assert states[..i + 1] == states[..i] + [states[i]];
      match states[i]
      case Delivered => delivered := delivered + 1;
      case Dead => dead := dead + 1;
      case Scheduled => scheduled := scheduled + 1;
      case Cancelled => cancelled := cancelled + 1;
      case Pending =>
        assert states[i] in states;
        return StatusPending;
    }
    assert states[..|states|] == states;
    ghost var all := set s | s in states;
    assert forall s :: s in all <==> s in states;
    assert states[0] in all;
    if scheduled == |states| {
      assert forall s :: s in all ==> s != Pending && s != Delivered && s != Dead && s != Cancelled;
      assert all == {Scheduled};
      return StatusScheduled;
    }
    if cancelled == |states| {
      assert forall s :: s in all ==> s != Pending && s != Delivered && s != Dead && s != Scheduled;
      assert all == {Cancelled};
      return StatusCancelled;
    }
    if scheduled > 0 || cancelled > 0 { return StatusPending; }
    if dead == 0 { return StatusDelivered; }
    if delivered == 0 { return StatusDead; }
    return StatusPartial;
  }

  // ----- Inserts ------------------------------------------------------------

  datatype Caps = Caps(perApp: int, total: int)

  datatype InsertError = NoTargets | NoDeliverAt | BadCaps | NowUnset | TooMany | CapacityReached

  datatype InsertOutcome = Stored(id: nat) | Duplicate(id: nat)

  /** Why one more message of the app would be refused; the app's own cap is reported first. */
  function CapRefusal(db: Db, family: Family, app: string, caps: Caps): Option<InsertError>
  {
    if AppCount(db, family, app) + 1 > caps.perApp then Some(TooMany)
    else if TotalCount(db, family) + 1 > caps.total then Some(CapacityReached)
    else None
  }

  predicate Positive(caps: Caps) { caps.perApp >= 1 && caps.total >= 1 }

  /** A row that is not refused leaves both counts within their caps; a refusal names the cap it would pass, the app's own first. */
  lemma RefusalIsExact(db: Db, message: Message, targets: seq<Target>, schedule: Schedule, family: Family, caps: Caps)
    requires Valid(db) && Insertable(message, targets, schedule) && Joins(message, targets, schedule, family)
    ensures var after := Inserted(db, message, targets, schedule);
      CapRefusal(db, family, message.envelope.appId, caps).None? <==>
        AppCount(after, family, message.envelope.appId) <= caps.perApp && TotalCount(after, family) <= caps.total
    ensures var after := Inserted(db, message, targets, schedule);
      && (CapRefusal(db, family, message.envelope.appId, caps) == Some(TooMany) <==>
            AppCount(after, family, message.envelope.appId) > caps.perApp)
      && (CapRefusal(db, family, message.envelope.appId, caps) == Some(CapacityReached) <==>
            AppCount(after, family, message.envelope.appId) <= caps.perApp && TotalCount(after, family) > caps.total)
  {
    InsertedCounts(db, message, targets, schedule, family, message.envelope.appId);
  }

  // ----- Cancels ------------------------------------------------------------

  datatype Selector = ById(id: nat, appId: string) | AdminById(id: nat) | ByKey(appId: string, key: string)

  predicate Selects(selector: Selector, id: nat, m: Message)
  {
    match selector
    case ById(wanted, appId) => appId != "" && id == wanted && m.envelope.appId == appId
    case AdminById(wanted) => id == wanted
    case ByKey(appId, key) => m.envelope.appId == appId && m.envelope.key == key
  }

  datatype CancelOutcome = CancelOutcome(status: Status, cancelled: bool, transitioned: bool) | NotFound | BadInstant

  /** The transition a cancel makes on the message it found, by message marks first. */
  function Cancel(db: Db, id: nat, now: Time): (Db, CancelOutcome)
    requires id in db.messages
  {
    var m := db.messages[id];
    if m.cancelledAt.Some? then (db, CancelOutcome(StatusCancelled, true, false))
    else if m.releaseFailedAt.Some? then (db, CancelOutcome(StatusReleaseFailed, false, false))
    else if m.heldAt.Some? then (CancelHeld(db, id, now), CancelOutcome(StatusCancelled, true, true))
    else if StatusOf(db, id) == StatusScheduled
    then (CancelScheduled(db, id, now), CancelOutcome(StatusCancelled, true, true))
    else (db, CancelOutcome(StatusOf(db, id), StatusOf(db, id) == StatusCancelled, false))
  }

  lemma SelectsOne(db: Db, selector: Selector, id: nat)
    requires Valid(db) && id in db.messages && Selects(selector, id, db.messages[id])
    ensures forall m :: m in db.messages && Selects(selector, m, db.messages[m]) ==> m == id
  {
    assert forall m, n | m in db.messages && n in db.messages && m != n ::
      !SameKey(db.messages[m].envelope, db.messages[n].envelope);
  }

  /**
   * What a cancel answers and does, told from the state before: a scheduled or held message is
   * cancelled now, whole; one that read cancelled says so again; everything else is left as it is.
   */
  ghost predicate CancelsExactly(before: Db, after: Db, id: nat, now: Time, outcome: CancelOutcome)
    requires id in before.messages
  {
    var m, status := before.messages[id], StatusOf(before, id);
    var failed := m.cancelledAt.None? && m.releaseFailedAt.Some?;
    && outcome.CancelOutcome?
    && (outcome.cancelled <==> !failed && status in {StatusCancelled, StatusUnrouted, StatusScheduled})
    && (outcome.transitioned <==> !failed && status in {StatusUnrouted, StatusScheduled})
    && outcome.status == (if outcome.cancelled then StatusCancelled else if failed then StatusReleaseFailed else status)
    && if outcome.transitioned then CancelledAsWhole(before, after, id, now) else after == before
  }

  lemma CancelDoes(db: Db, id: nat, now: Time)
    requires Valid(db) && id in db.messages
    ensures CancelsExactly(db, Cancel(db, id, now).0, id, now, Cancel(db, id, now).1)
  {
    StatusMeans(db, id);
    if db.messages[id].heldAt.Some? { CancelHeldWhole(db, id, now); }
    if StatusOf(db, id) == StatusScheduled { CancelScheduledWhole(db, id, now); }
  }

  /** A message reported cancelled is cancelled with every delivery it has, and a repeat changes nothing. */
  lemma CancelIsWholeAndIdempotent(db: Db, id: nat, now: Time, later: Time)
    requires Valid(db) && id in db.messages
    ensures var (after, outcome) := Cancel(db, id, now);
      && outcome.CancelOutcome? && id in after.messages
      && (outcome.cancelled <==> StatusOf(after, id) == StatusCancelled)
      && (outcome.cancelled ==> StatesOf(after, id) <= {Cancelled})
      && (outcome.transitioned <==> after != db)
      && Cancel(after, id, later).0 == after
  {
    var (after, outcome) := Cancel(db, id, now);
    if db.messages[id].cancelledAt.None? && db.messages[id].heldAt.None? && StatusOf(db, id) == StatusScheduled {
      ScheduledIsWhole(db, id);
    }
    forall d | d in DeliveriesOf(db, id) ensures DeliveryOk(db.deliveries[d], db.messages[id]) {
    }
  }

  // ----- Release and retention ----------------------------------------------

  /** The probe: messages with a due scheduled delivery, by when they are due. */
  function DueTimes(db: Db, now: Time): map<nat, Time>
  {
    map m | m in db.messages && m in ReleasedIds(db, db.messages.Keys, now) && db.messages[m].envelope.deliverAt.Some?
      :: db.messages[m].envelope.deliverAt.value
  }

  /** The probe sees exactly the scheduled messages whose deliver_at has come. */
  lemma ProbeIsExact(db: Db, now: Time, m: nat)
    requires Valid(db)
    ensures m in DueTimes(db, now) <==>
      m in db.messages && StatusOf(db, m) == StatusScheduled && db.messages[m].envelope.deliverAt.Some?
      && db.messages[m].envelope.deliverAt.value <= now
    ensures m in DueTimes(db, now) ==> db.messages[m].envelope.deliverAt == Some(DueTimes(db, now)[m])
  {
    if m in db.messages {
      ScheduledIsWhole(db, m);
      ScheduledWitness(db, m);
      if m in DueTimes(db, now) {
        var d :| d in db.deliveries && db.deliveries[d].messageId == m && IsDueDelivery(db.deliveries[d], now);
        assert d in DeliveriesOf(db, m);
      }
      if StatusOf(db, m) == StatusScheduled && db.messages[m].envelope.deliverAt.value <= now {
        var d :| d in db.deliveries && db.deliveries[d].messageId == m && db.deliveries[d].state == Scheduled;
        assert d in DeliveriesOf(db, m) && IsDueDelivery(db.deliveries[d], now);
      }
    }
  }

  lemma ReleasedAreProbed(db: Db, ids: set<nat>, now: Time)
    requires Valid(db) && ids <= DueTimes(db, now).Keys
    ensures ReleasedIds(db, ids, now) == ids
  {
    forall m | m in ids ensures m in ReleasedIds(db, ids, now) {
      var d :| d in db.deliveries && db.deliveries[d].messageId == m && IsDueDelivery(db.deliveries[d], now);
    }
  }

  /** These scheduled messages, all due, are pending with every delivery due now; no other row changes. */
  ghost predicate ReleasedWhole(before: Db, after: Db, ids: set<nat>, now: Time)
  {
    && (forall m :: m in ids ==>
          && m in before.messages && StatusOf(before, m) == StatusScheduled && before.messages[m].envelope.deliverAt.Some?
          && before.messages[m].envelope.deliverAt.value <= now)
    && after == before.(deliveries := after.deliveries) && after.deliveries.Keys == before.deliveries.Keys
    && forall d :: d in before.deliveries ==> ReleasedRow(before.deliveries[d], after.deliveries[d], ids, now)
  }

  predicate ReleasedRow(row: Delivery, after: Delivery, ids: set<nat>, now: Time)
  {
    after == if row.messageId in ids then row.(state := Pending, nextAttemptAt := now, budgetStartedAt := now) else row
  }

  lemma ReleasesWhole(db: Db, ids: set<nat>, now: Time)
    requires Valid(db) && ids <= DueTimes(db, now).Keys
    ensures ReleasedWhole(db, Released(db, ids, now), ids, now)
  {
    forall m | m in ids ensures StatusOf(db, m) == StatusScheduled && db.messages[m].envelope.deliverAt.value <= now {
      ProbeIsExact(db, now, m);
    }
    forall d | d in db.deliveries && db.deliveries[d].messageId in ids ensures IsDueDelivery(db.deliveries[d], now) {
      ScheduledIsWhole(db, db.deliveries[d].messageId);
      assert d in DeliveriesOf(db, db.deliveries[d].messageId);
    }
    ReleaseMoves(db, ids, now);
  }

  /** The claimable rows: due, pending and not locked by another worker. */
  function ClaimableTimes(db: Db, now: Time, lockedElsewhere: set<nat>): map<nat, Time>
  {
    map d | d in db.deliveries && db.deliveries[d].state == Pending && db.deliveries[d].nextAttemptAt <= now
      && d !in lockedElsewhere :: db.deliveries[d].nextAttemptAt
  }

  /** A claim may take a delivery that is pending and due and that nobody else has locked. */
  predicate MayTake(deliveries: map<nat, Delivery>, d: nat, now: Time, lockedElsewhere: set<nat>)
    requires d in deliveries
  {
    deliveries[d].state == Pending && deliveries[d].nextAttemptAt <= now && d !in lockedElsewhere
  }

  function OrCreated(t: Option<Time>, m: Message): Time { if t.None? then m.createdAt else t.value }

  function Age(m: Message): Time
  {
    if m.cancelledAt.Some? then m.cancelledAt.value
    else Max(Max(m.createdAt, OrCreated(m.envelope.deliverAt, m)),
             Max(OrCreated(m.releasedAt, m), OrCreated(m.releaseFailedAt, m)))
  }

  predicate Expired(db: Db, id: nat, cutoff: Time)
    requires id in db.messages
  {
    && db.messages[id].createdAt < cutoff && Age(db.messages[id]) < cutoff
    && db.messages[id].heldAt.None?
    && Pending !in StatesOf(db, id) && Scheduled !in StatesOf(db, id)
  }

  predicate ExpiredHeld(db: Db, id: nat, cutoff: Time)
    requires id in db.messages
  {
    db.messages[id].heldAt.Some? && db.messages[id].heldAt.value < cutoff
  }

  /** The instants on a message that is not cancelled which retention waits out. */
  function Instants(m: Message): set<Option<Time>>
  {
    {Some(m.createdAt), m.envelope.deliverAt, m.releasedAt, m.releaseFailedAt}
  }

  /** Settled messages expire once every instant they carry is past; a cancelled one by its creation and its cancel alone. */
  lemma ExpiryMeans(db: Db, id: nat, cutoff: Time)
    requires id in db.messages
    ensures var m := db.messages[id];
      Expired(db, id, cutoff) <==>
        && (if m.cancelledAt.Some? then m.createdAt < cutoff && m.cancelledAt.value < cutoff
            else forall t :: t in Instants(m) && t.Some? ==> t.value < cutoff)
        && m.heldAt.None? && !SomeIn(db, id, Pending) && !SomeIn(db, id, Scheduled)
    ensures ExpiredHeld(db, id, cutoff) <==> exists at :: db.messages[id].heldAt == Some(at) && at < cutoff
  {
    StatesAreRows(db, id);
    var m := db.messages[id];
    assert Some(m.createdAt) in Instants(m) && m.envelope.deliverAt in Instants(m);
    assert m.releasedAt in Instants(m) && m.releaseFailedAt in Instants(m);
  }

  /** The two sweeps: settled messages by creation time, held ones by when they were held. */
  datatype Sweep = Settled | StillHeld

  /** The rows a sweep may delete, with the time it orders them by. */
  function ExpiredTimes(db: Db, sweep: Sweep, cutoff: Time): map<nat, Time>
  {
    if sweep == Settled
    then map m | m in db.messages && Expired(db, m, cutoff) :: db.messages[m].createdAt
    else map m | m in db.messages && ExpiredHeld(db, m, cutoff) :: db.messages[m].heldAt.value
  }

  lemma RemovedStates(db: Db, ids: set<nat>, m: nat)
    requires m !in ids
    ensures StatesOf(Removed(db, ids), m) == StatesOf(db, m)
  {
    var after := Removed(db, ids);
    forall d | d in db.deliveries && db.deliveries[d].messageId == m
      ensures d in after.deliveries && after.deliveries[d] == db.deliveries[d] {}
  }

  /** Deleting some messages changes nothing about which of the others are expired. */
  lemma RemovedExpired(db: Db, ids: set<nat>, sweep: Sweep, cutoff: Time)
    ensures ExpiredTimes(Removed(db, ids), sweep, cutoff) == ExpiredTimes(db, sweep, cutoff) - ids
  {
    forall m | m in db.messages && m !in ids
      ensures Expired(Removed(db, ids), m, cutoff) <==> Expired(db, m, cutoff)
    {
      RemovedStates(db, ids, m);
    }
  }

  lemma RemovedTwice(db: Db, a: set<nat>, b: set<nat>)
    ensures Removed(Removed(db, a), b) == Removed(db, a + b)
  {
    assert db.messages - a - b == db.messages - (a + b);
  }

  const MAX_BATCHES: nat := 200

  /** How many rows that many batches may take. */
  function Quota(batches: nat, size: nat): nat
  {
    if batches == 0 then 0 else Quota(batches - 1, size) + size
  }

  /** The batches a run got through. */
  function Batches(interruptedAt: Option<nat>, max: nat): nat
  {
    if interruptedAt.Some? then interruptedAt.value else max
  }

  lemma {:induction false} QuotaIsProduct(batches: nat, size: nat)
    ensures Quota(batches, size) == batches * size
  {
    if batches > 0 {
      QuotaIsProduct(batches - 1, size);
      assert batches * size == (batches - 1) * size + size;
    }
  }

  lemma {:induction false} QuotaGrows(a: nat, b: nat, size: nat)
    requires a <= b
    ensures Quota(a, size) <= Quota(b, size)
    decreases b
  {
    if a < b { QuotaGrows(a, b - 1, size); }
  }

  /** The first of the allowed batches the context is done before. */
  predicate FirstDone(done: nat -> bool, max: nat, i: nat)
  {
    i < max && done(i) && NoneDone(done, i)
  }

  predicate NoneDone(done: nat -> bool, batches: nat) { forall j: nat :: j < batches ==> !done(j) }

  /** A run over n rows is interrupted exactly at the first done batch, if it gets that far. */
  ghost predicate StopsExactly(done: nat -> bool, max: nat, n: nat, size: nat, interruptedAt: Option<nat>)
  {
    if interruptedAt.Some? then FirstDone(done, max, interruptedAt.value) && Quota(interruptedAt.value, size) <= n
    else forall i: nat :: FirstDone(done, max, i) ==> Quota(i, size) > n
  }

  lemma RanOut(done: nat -> bool, max: nat, n: nat, size: nat, batch: nat)
    requires NoneDone(done, batch) && !done(batch) && batch < max && n < Quota(batch + 1, size)
    ensures StopsExactly(done, max, n, size, None) && n <= Quota(max, size)
  {
    QuotaGrows(batch + 1, max, size);
    forall i: nat | FirstDone(done, max, i) ensures Quota(i, size) > n {
      QuotaGrows(batch + 1, i, size);
    }
  }

  /** Exactly the first total rows of times, in order, are gone. */
  ghost predicate DeletedOldest(before: Db, after: Db, times: map<nat, Time>, total: nat, removed: set<nat>)
  {
    after == Removed(before, removed) && Prefix(times, removed) && total == |removed|
  }

  lemma RemovedNothing(db: Db, times: map<nat, Time>)
    ensures DeletedOldest(db, db, times, 0, {})
  {
    assert db.messages - {} == db.messages;
    assert Removed(db, {}).deliveries == db.deliveries;
  }

  /** One more batch extends the deleted prefix. */
  lemma BatchExtends(before: Db, sweep: Sweep, cutoff: Time, removed: set<nat>, size: nat, picked: set<nat>)
    requires Prefix(ExpiredTimes(before, sweep, cutoff), removed)
    requires IsOldest(ExpiredTimes(Removed(before, removed), sweep, cutoff), picked, size)
    ensures DeletedOldest(before, Removed(Removed(before, removed), picked), ExpiredTimes(before, sweep, cutoff),
                          |removed| + |picked|, removed + picked)
    ensures |picked| == Min(size, |ExpiredTimes(before, sweep, cutoff).Keys| - |removed|)
  {
    var times := ExpiredTimes(before, sweep, cutoff);
    var rest := ExpiredTimes(Removed(before, removed), sweep, cutoff);
    RemovedExpired(before, removed, sweep, cutoff);
    assert rest.Keys == times.Keys - removed;
    PrefixExtends(times, removed, rest, picked);
    RemovedTwice(before, removed, picked);
    SubsetSize(removed, times.Keys);
  }

  /** A full batch earns its quota; a short one exhausts the expired rows. */
  lemma BatchTotal(n: nat, batch: nat, total: nat, size: nat, deleted: nat)
    requires total == Quota(batch, size) <= n
    requires deleted == Min(size, n - total)
    ensures if deleted < size then total + deleted == n < Quota(batch + 1, size)
      else total + deleted == Quota(batch + 1, size) <= n
  {
  }

  /** A batch of the sweep: the deleted rows stay a prefix and the count stays on quota. */
  lemma NextBatch(before: Db, sweep: Sweep, cutoff: Time, batch: nat, removed: set<nat>, size: nat, picked: set<nat>)
    requires Prefix(ExpiredTimes(before, sweep, cutoff), removed)
    requires |removed| == Quota(batch, size)
    requires |removed| <= |ExpiredTimes(before, sweep, cutoff).Keys|
    requires IsOldest(ExpiredTimes(Removed(before, removed), sweep, cutoff), picked, size)
    ensures DeletedOldest(before, Removed(Removed(before, removed), picked), ExpiredTimes(before, sweep, cutoff),
                          |removed| + |picked|, removed + picked)
    ensures var n := |ExpiredTimes(before, sweep, cutoff).Keys|;
      if |picked| < size then |removed| + |picked| == n < Quota(batch + 1, size)
      else |removed| + |picked| == Quota(batch + 1, size) <= n
  {
    BatchExtends(before, sweep, cutoff, removed, size, picked);
    BatchTotal(|ExpiredTimes(before, sweep, cutoff).Keys|, batch, |removed|, size, |picked|);
  }

  class PGStore {
    var messages: map<nat, Message>
    var deliveries: map<nat, Delivery>
    var nextMessage: nat
    var nextDelivery: nat

    function Tables(): Db
      reads this
    {
      Db(messages, deliveries, nextMessage, nextDelivery)
    }

    constructor ()
      ensures Tables() == Db(map[], map[], 0, 0) && Valid(Tables())
    {
      messages, deliveries, nextMessage, nextDelivery := map[], map[], 0, 0;
    }

    /** Commit a transaction's result. */
    method Commit(after: Db)
      modifies this
      ensures Tables() == after
    {
      messages, deliveries, nextMessage, nextDelivery :=
        after.messages, after.deliveries, after.nextMessage, after.nextDelivery;
    }

    /** The insert transaction: one row per (app, key); over a cap everything rolls back. */
    method InsertOnce(message: Message, targets: seq<Target>, schedule: Schedule, caps: Option<Caps>, family: Family)
      returns (r: Result<InsertOutcome, InsertError>)
      requires Valid(Tables()) && Insertable(message, targets, schedule)
      requires caps.Some? ==> Joins(message, targets, schedule, family)
      modifies this
      ensures Valid(Tables())
      ensures !FreeKey(old(Tables()), message.envelope) ==>
        && r.Ok? && r.value.Duplicate? && Tables() == old(Tables())
        && r.value.id in messages && SameKey(messages[r.value.id].envelope, message.envelope)
      ensures FreeKey(old(Tables()), message.envelope) ==>
        var before := old(Tables());
        var refusal := if caps.Some? then CapRefusal(before, family, message.envelope.appId, caps.value) else None;
        if refusal.Some? then r == Err(refusal.value) && Tables() == before
        else r == Ok(Stored(before.nextMessage)) && Tables() == Inserted(before, message, targets, schedule)
    {
      if m :| m in messages && SameKey(messages[m].envelope, message.envelope) {
        return Ok(Duplicate(m));
      }
      var before := Tables();
      var after := Inserted(before, message, targets, schedule);
      InsertedValid(before, message, targets, schedule);
      if caps.Some? {
        InsertedCounts(before, message, targets, schedule, family, message.envelope.appId);
        if AppCount(after, family, message.envelope.appId) > caps.value.perApp { return Err(TooMany); }
        if TotalCount(after, family) > caps.value.total { return Err(CapacityReached); }
      }
      Commit(after);
      r := Ok(Stored(before.nextMessage));
    }

    method InsertMessage(envelope: Envelope, targets: seq<Target>, clock: Time)
      returns (r: Result<InsertOutcome, InsertError>)
      requires Valid(Tables())
      modifies this
      ensures Valid(Tables())
      ensures targets == [] ==> r == Err(NoTargets) && Tables() == old(Tables())
      ensures targets != [] && !FreeKey(old(Tables()), envelope) ==>
        && r.Ok? && r.value.Duplicate? && Tables() == old(Tables())
        && r.value.id in messages && SameKey(messages[r.value.id].envelope, envelope)
      ensures targets != [] && FreeKey(old(Tables()), envelope) ==>
        && r == Ok(Stored(old(nextMessage)))
        && Tables() == Inserted(old(Tables()), NewMessage(envelope, clock, None), targets, Schedule(Pending, clock, clock))
        && StoredAs(old(Tables()), Tables(), envelope, clock, None, targets, Pending, clock)
    {
      if targets == [] { return Err(NoTargets); }
      InsertStores(Tables(), envelope, clock, None, targets, Schedule(Pending, clock, clock));
      r := InsertOnce(NewMessage(envelope, clock, None), targets, Schedule(Pending, clock, clock), None, ScheduledFamily);
    }

    method InsertScheduledMessage(envelope: Envelope, targets: seq<Target>, caps: Caps, clock: Time)
      returns (r: Result<InsertOutcome, InsertError>)
      requires Valid(Tables())
      modifies this
      ensures Valid(Tables())
      ensures r == Err(NoDeliverAt) <==> envelope.deliverAt.None?
      ensures r == Err(BadCaps) <==> envelope.deliverAt.Some? && !Positive(caps)
      ensures r == Err(NoTargets) <==> envelope.deliverAt.Some? && Positive(caps) && targets == []
      ensures r.Err? || r.value.Duplicate? ==> Tables() == old(Tables())
      ensures envelope.deliverAt.Some? && Positive(caps) && targets != [] && !FreeKey(old(Tables()), envelope) ==>
        r.Ok? && r.value.Duplicate? && r.value.id in messages && SameKey(messages[r.value.id].envelope, envelope)
      ensures envelope.deliverAt.Some? && Positive(caps) && targets != [] && FreeKey(old(Tables()), envelope) ==>
        var refusal := CapRefusal(old(Tables()), ScheduledFamily, envelope.appId, caps);
        var message := NewMessage(envelope, clock, None);
        var schedule := Schedule(Scheduled, StoreTime(envelope.deliverAt.value), clock);
        if refusal.Some? then r == Err(refusal.value)
        else
          && r == Ok(Stored(old(nextMessage))) && Tables() == Inserted(old(Tables()), message, targets, schedule)
          && StoredAs(old(Tables()), Tables(), envelope, clock, None, targets, Scheduled, StoreTime(envelope.deliverAt.value))
    {
      if envelope.deliverAt.None? { return Err(NoDeliverAt); }
      if !Positive(caps) { return Err(BadCaps); }
      if targets == [] { return Err(NoTargets); }
      var message := NewMessage(envelope, clock, None);
      var schedule := Schedule(Scheduled, StoreTime(envelope.deliverAt.value), clock);
      InsertStores(Tables(), envelope, clock, None, targets, schedule);
      r := InsertOnce(message, targets, schedule, Some(caps), ScheduledFamily);
    }

    method InsertHeldMessage(envelope: Envelope, caps: Caps, now: Time, clock: Time)
      returns (r: Result<InsertOutcome, InsertError>)
      requires Valid(Tables())
      modifies this
      ensures Valid(Tables())
      ensures r == Err(BadCaps) <==> !Positive(caps)
      ensures r == Err(NowUnset) <==> Positive(caps) && now == 0
      ensures r.Err? || r.value.Duplicate? ==> Tables() == old(Tables())
      ensures Positive(caps) && now != 0 && !FreeKey(old(Tables()), envelope) ==>
        r.Ok? && r.value.Duplicate? && r.value.id in messages && SameKey(messages[r.value.id].envelope, envelope)
      ensures Positive(caps) && now != 0 && FreeKey(old(Tables()), envelope) ==>
        var refusal := CapRefusal(old(Tables()), HeldFamily, envelope.appId, caps);
        var message := NewMessage(envelope, clock, Some(now));
        var schedule := Schedule(Pending, clock, clock);
        if refusal.Some? then r == Err(refusal.value)
        else
          && r == Ok(Stored(old(nextMessage))) && Tables() == Inserted(old(Tables()), message, [], schedule)
          && StoredAs(old(Tables()), Tables(), envelope, clock, Some(now), [], Pending, clock)
    {
      if !Positive(caps) { return Err(BadCaps); }
      if now == 0 { return Err(NowUnset); }
      var message := NewMessage(envelope, clock, Some(now));
      var schedule := Schedule(Pending, clock, clock);
      InsertStores(Tables(), envelope, clock, Some(now), [], schedule);
      r := InsertOnce(message, [], schedule, Some(caps), HeldFamily);
    }

    /** SELECT state ... WHERE message_id = id, row by row. */
    method LoadStates(id: nat) returns (states: seq<DeliveryState>)
      ensures (set s | s in states) == StatesOf(Tables(), id)
    {
      states := [];
      var todo := DeliveriesOf(Tables(), id);
      while todo != {}
        invariant todo <= DeliveriesOf(Tables(), id)
        invariant forall s :: s in states <==>
          exists d :: d in DeliveriesOf(Tables(), id) - todo && deliveries[d].state == s
        decreases todo
      {
        var d :| d in todo;
        todo := todo - {d};
        states := states + [deliveries[d].state];
      }
    }

    /** Swap a still-scheduled message; anything else is returned untouched. */
    method ReplaceScheduledMessage(envelope: Envelope, targets: seq<Target>, now: Time)
      returns (r: Result<Option<(nat, bool)>, InsertError>)
      requires Valid(Tables())
      modifies this
      ensures Valid(Tables())
      ensures r == Err(NoTargets) <==> targets == []
      ensures r == Err(NowUnset) <==> targets != [] && now == 0
      ensures r.Err? ==> r.error in {NoTargets, NowUnset}
      ensures r.Ok? ==> (r.value.None? <==> FreeKey(old(Tables()), envelope))
      ensures r.Err? || r.value.None? ==> Tables() == old(Tables())
      ensures r.Ok? && r.value.Some? ==>
        var id := r.value.value.0;
        && id in old(messages) && SameKey(old(messages)[id].envelope, envelope)
        && (r.value.value.1 <==> StatusOf(old(Tables()), id) == StatusScheduled)
        && Tables() == (if r.value.value.1 then Replaced(old(Tables()), id, envelope, targets, now) else old(Tables()))
        && (r.value.value.1 ==> SwappedTo(old(Tables()), Tables(), id, envelope, targets, now))
    {
      if targets == [] { return Err(NoTargets); }
      if now == 0 { return Err(NowUnset); }
      if id :| id in messages && SameKey(messages[id].envelope, envelope) {
        var states := LoadStates(id);
        var status := DeriveStatus(states, MarksOf(messages[id]));
        if status != StatusScheduled { return Ok(Some((id, false))); }
        ReplacedValid(Tables(), id, envelope, targets, now);
        ReplaceSwaps(Tables(), id, envelope, targets, now);
        Commit(Replaced(Tables(), id, envelope, targets, now));
        return Ok(Some((id, true)));
      }
      r := Ok(None);
    }

    /** The cancel of the one message found, under its row lock. */
    method CancelFound(id: nat, now: Time) returns (outcome: CancelOutcome)
      requires Valid(Tables()) && id in messages
      modifies this
      ensures Valid(Tables())
      ensures (Tables(), outcome) == Cancel(old(Tables()), id, now)
      ensures CancelsExactly(old(Tables()), Tables(), id, now, outcome)
    {
      CancelDoes(Tables(), id, now);
      var message := messages[id];
      if message.cancelledAt.Some? {
        outcome := CancelOutcome(StatusCancelled, true, false);
      } else if message.releaseFailedAt.Some? {
        outcome := CancelOutcome(StatusReleaseFailed, false, false);
      } else if message.heldAt.Some? {
        CancelHeldValid(Tables(), id, now);
        Commit(CancelHeld(Tables(), id, now));
        outcome := CancelOutcome(StatusCancelled, true, true);
      } else {
        var states := LoadStates(id);
        var status := DeriveStatus(states, MarksOf(message));
        outcome := CancelOutcome(status, status == StatusCancelled, false);
        if status == StatusScheduled {
          CancelScheduledValid(Tables(), id, now);
          Commit(CancelScheduled(Tables(), id, now));
          outcome := CancelOutcome(StatusCancelled, true, true);
        }
      }
    }

    method CancelMessage(selector: Selector, now: Time) returns (outcome: CancelOutcome)
      requires Valid(Tables())
      modifies this
      ensures Valid(Tables())
      ensures outcome == BadInstant <==> now == 0
      ensures outcome == NotFound <==>
        && now != 0
        && match selector
           case ById(id, appId) => appId == "" || id !in old(messages) || old(messages)[id].envelope.appId != appId
           case AdminById(id) => id !in old(messages)
           case ByKey(appId, key) =>
             forall m :: m in old(messages) ==>
               old(messages)[m].envelope.appId != appId || old(messages)[m].envelope.key != key
      ensures !outcome.CancelOutcome? ==> Tables() == old(Tables())
      ensures outcome.CancelOutcome? ==>
        match selector
        case ById(id, _) => id in old(messages) && CancelsExactly(old(Tables()), Tables(), id, now, outcome)
        case AdminById(id) => id in old(messages) && CancelsExactly(old(Tables()), Tables(), id, now, outcome)
        case ByKey(appId, key) =>
          forall m | m in old(messages) && old(messages)[m].envelope.appId == appId && old(messages)[m].envelope.key == key ::
            CancelsExactly(old(Tables()), Tables(), m, now, outcome)
    {
      if now == 0 { return BadInstant; }
      if id :| id in messages && Selects(selector, id, messages[id]) {
        SelectsOne(Tables(), selector, id);
        outcome := CancelFound(id, now);
        return;
      }
      outcome := NotFound;
    }

    /** UPDATE ... RETURNING message_id gives one value per row; each message counts once. */
    method DistinctMessages(rows: set<nat>) returns (distinct: set<nat>)
      requires rows <= deliveries.Keys
      ensures distinct == set d | d in rows :: deliveries[d].messageId
    {
      distinct := {};
      var todo := rows;
      while todo != {}
        invariant todo <= rows
        invariant distinct == set d | d in rows - todo :: deliveries[d].messageId
        decreases todo
      {
        var d :| d in todo;
        todo := todo - {d};
        distinct := distinct + {deliveries[d].messageId};
      }
      assert rows - todo == rows;
    }

    /** Release the oldest due messages whose row nobody else holds. */
    method ReleaseDue(now: Time, limit: nat, lockedElsewhere: set<nat>)
      returns (ok: bool, released: nat, ghost candidates: set<nat>)
      requires Valid(Tables())
      modifies this
      ensures Valid(Tables())
      ensures ok <==> now != 0 && limit >= 1
      ensures IsOldest(DueTimes(old(Tables()), now), candidates, if ok then limit else 0)
      ensures Tables() == Released(old(Tables()), candidates - lockedElsewhere, now)
      ensures ReleasedWhole(old(Tables()), Tables(), candidates - lockedElsewhere, now)
      ensures released == |candidates - lockedElsewhere|
    {
      ok := now != 0 && limit >= 1;
      var probed := Oldest(DueTimes(Tables(), now), if ok then limit else 0);
      candidates := probed;
      var locked := probed - lockedElsewhere;
      var rows := set d | d in deliveries && deliveries[d].messageId in locked && IsDueDelivery(deliveries[d], now);
      var distinct := DistinctMessages(rows);
      assert distinct == ReleasedIds(Tables(), locked, now);
      ReleasedAreProbed(Tables(), locked, now);
      ReleasedValid(Tables(), locked, now);
      ReleasesWhole(Tables(), locked, now);
      Commit(Released(Tables(), locked, now));
      released := |distinct|;
    }

    /** Lease the oldest claimable delivery. */
    method ClaimDue(now: Time, lease: Time, lockedElsewhere: set<nat>)
      returns (ok: bool, claim: Option<(nat, Delivery)>)
      requires Valid(Tables())
      modifies this
      ensures Valid(Tables())
      ensures ok <==> lease > 0
      ensures claim.None? <==> !ok || forall d :: d in old(deliveries) ==> !MayTake(old(deliveries), d, now, lockedElsewhere)
      ensures claim.None? ==> Tables() == old(Tables())
      ensures claim.Some? ==>
        var (id, row) := claim.value;
        && id in old(deliveries) && id !in lockedElsewhere
        && old(deliveries)[id].state == Pending && old(deliveries)[id].nextAttemptAt <= now
        && (forall d :: d in old(deliveries) && d != id && MayTake(old(deliveries), d, now, lockedElsewhere) ==>
              var mine, other := old(deliveries)[id].nextAttemptAt, old(deliveries)[d].nextAttemptAt;
              mine < other || (mine == other && id < d))
        && row == old(deliveries)[id].(nextAttemptAt := now + lease)
        && Tables() == old(Tables()).(deliveries := old(deliveries)[id := row])
    {
      if lease <= 0 { return false, None; }
      var due := ClaimableTimes(Tables(), now, lockedElsewhere);
      assert forall d :: d in deliveries ==> (d in due.Keys <==> MayTake(deliveries, d, now, lockedElsewhere));
      if due.Keys == {} { return true, None; }
      var id := First(due);
      var row := Leased(deliveries[id], now + lease);
      assert DeliveryOk(deliveries[id], messages[deliveries[id].messageId]);
      RowUpdateValid(Tables(), id, row);
      Commit(Tables().(deliveries := deliveries[id := row]));
      ok, claim := true, Some((id, row));
    }

    /** Log the attempt and apply its transition, unless the row left pending. */
    method RecordAttempt(id: nat, result: AttemptResult, clock: Time) returns (ok: bool)
      requires Valid(Tables())
      modifies this
      ensures Valid(Tables())
      ensures ok <==> id in old(deliveries) && Recordable(result)
      ensures Tables() == if ok && old(deliveries)[id].state == Pending
        then old(Tables()).(deliveries := old(deliveries)[id := Recorded(old(deliveries)[id], result, clock)])
        else old(Tables())
    {
      RecordableMeans(result);
      if !ValidResult(result) || id !in deliveries { return false; }
      var current := deliveries[id];
      if current.state == Pending {
        assert DeliveryOk(current, messages[current.messageId]);
        RowUpdateValid(Tables(), id, Recorded(current, result, clock));
        Commit(Tables().(deliveries := deliveries[id := Recorded(current, result, clock)]));
      }
      ok := true;
    }

    /** Return a dead delivery to the queue with a fresh budget. */
    method Replay(id: nat, now: Time) returns (ok: bool)
      requires Valid(Tables())
      modifies this
      ensures Valid(Tables())
      ensures ok <==> now != 0 && id in old(deliveries) && old(deliveries)[id].state == Dead
      ensures Tables() == if ok
        then old(Tables()).(deliveries := old(deliveries)[id := Replayed(old(deliveries)[id], now)])
        else old(Tables())
    {
      if now == 0 || id !in deliveries || deliveries[id].state != Dead { return false; }
      assert DeliveryOk(deliveries[id], messages[deliveries[id].messageId]);
      RowUpdateValid(Tables(), id, Replayed(deliveries[id], now));
      Commit(Tables().(deliveries := deliveries[id := Replayed(deliveries[id], now)]));
      ok := true;
    }

    /** One DELETE statement: the oldest size rows the sweep may take. */
    method DeleteBatch(sweep: Sweep, cutoff: Time, size: nat) returns (deleted: nat, ghost picked: set<nat>)
      modifies this
      ensures IsOldest(ExpiredTimes(old(Tables()), sweep, cutoff), picked, size)
      ensures Tables() == Removed(old(Tables()), picked) && deleted == |picked|
    {
      var rows := Oldest(ExpiredTimes(Tables(), sweep, cutoff), size);
      Commit(Removed(Tables(), rows));
      deleted, picked := |rows|, rows;
    }

    /** One more batch after the first removed rows went: still the oldest of those there were before. */
    method DeleteNextBatch(sweep: Sweep, cutoff: Time, size: nat, batch: nat, ghost before: Db, ghost removed: set<nat>)
      returns (deleted: nat, ghost more: set<nat>)
      requires |removed| == Quota(batch, size) <= |ExpiredTimes(before, sweep, cutoff).Keys|
      requires DeletedOldest(before, Tables(), ExpiredTimes(before, sweep, cutoff), |removed|, removed)
      modifies this
      ensures DeletedOldest(before, Tables(), ExpiredTimes(before, sweep, cutoff), |removed| + deleted, more)
      ensures var n := |ExpiredTimes(before, sweep, cutoff).Keys|;
        if deleted < size then |removed| + deleted == n < Quota(batch + 1, size)
        else |removed| + deleted == Quota(batch + 1, size) <= n
    {
      ghost var picked;
      deleted, picked := DeleteBatch(sweep, cutoff, size);
      NextBatch(before, sweep, cutoff, batch, removed, size, picked);
      more := removed + picked;
    }

    /** At most max batches; done(i) says whether the context is done before batch i. */
    method DeleteBatches(sweep: Sweep, cutoff: Time, size: nat, done: nat -> bool, max: nat)
      returns (total: nat, interruptedAt: Option<nat>, ghost removed: set<nat>)
      requires size >= 1
      modifies this
      ensures DeletedOldest(old(Tables()), Tables(), ExpiredTimes(old(Tables()), sweep, cutoff), total, removed)
      ensures total == Min(|ExpiredTimes(old(Tables()), sweep, cutoff).Keys|, Quota(Batches(interruptedAt, max), size))
      ensures StopsExactly(done, max, |ExpiredTimes(old(Tables()), sweep, cutoff).Keys|, size, interruptedAt)
    {
      ghost var before := Tables();
      ghost var n := |ExpiredTimes(before, sweep, cutoff).Keys|;
      total, interruptedAt, removed := 0, None, {};
      RemovedNothing(before, ExpiredTimes(before, sweep, cutoff));
      for batch := 0 to max
        invariant interruptedAt.None?
        invariant DeletedOldest(before, Tables(), ExpiredTimes(before, sweep, cutoff), total, removed)
        invariant total == Quota(batch, size) <= n
        invariant NoneDone(done, batch)
      {
        if done(batch) { interruptedAt := Some(batch); return; }
        var deleted;
        deleted, removed := DeleteNextBatch(sweep, cutoff, size, batch, before, removed);
        total := total + deleted;
        if deleted < size {
          RanOut(done, max, n, size, batch);
          return;
        }
      }
    }

    /**
     * Delete expired rows batch by batch. Run to the end, exactly the oldest
     * min(n, 200 * batchSize) of the n expired rows go.
     */
    method DeleteExpiredInBatches(sweep: Sweep, cutoff: Time, batchSize: nat, done: nat -> bool)
      returns (ok: bool, total: nat, interruptedAt: Option<nat>, ghost removed: set<nat>)
      modifies this
      ensures ok <==> batchSize >= 1
      ensures !ok ==> Tables() == old(Tables()) && total == 0 && interruptedAt.None?
      ensures ok ==>
        var n := |ExpiredTimes(old(Tables()), sweep, cutoff).Keys|;
        && DeletedOldest(old(Tables()), Tables(), ExpiredTimes(old(Tables()), sweep, cutoff), total, removed)
        && total == Min(n, if interruptedAt.Some? then interruptedAt.value * batchSize else MAX_BATCHES * batchSize)
        && StopsExactly(done, MAX_BATCHES, n, batchSize, interruptedAt)
    {
      ok, total, interruptedAt, removed := batchSize >= 1, 0, None, {};
      if ok {
        total, interruptedAt, removed := DeleteBatches(sweep, cutoff, batchSize, done, MAX_BATCHES);
        QuotaIsProduct(Batches(interruptedAt, MAX_BATCHES), batchSize);
      }
    }
  }

  /** Retention never takes a held message or one with work left, and keeps every row of it. */
  lemma RetentionSparesLiveMessages(before: Db, after: Db, cutoff: Time, total: nat, removed: set<nat>, m: nat)
    requires m in before.messages
    requires DeletedOldest(before, after, ExpiredTimes(before, Settled, cutoff), total, removed)
    requires IsHeld(before, m) || Pending in StatesOf(before, m) || Scheduled in StatesOf(before, m)
    ensures m in after.messages && after.messages[m] == before.messages[m] && StatesOf(after, m) == StatesOf(before, m)
  {
    assert m !in removed;
    RemovedStates(before, removed, m);
  }

  /** A replace gives the message one fresh delivery per target, in order, and no other delivery. */
  lemma ReplaceRenewsDeliveries(db: Db, id: nat, e: Envelope, targets: seq<Target>, now: Time, d: nat)
    requires Valid(db) && id in db.messages
    ensures var after := Replaced(db, id, e, targets, now);
      && (d in DeliveriesOf(after, id) <==> db.nextDelivery <= d < db.nextDelivery + |targets|)
      && (d in DeliveriesOf(after, id) ==>
            after.deliveries[d].target == targets[d - db.nextDelivery]
            && after.deliveries[d].attempts == [] && after.deliveries[d].budgetAttempts == 0)
      && (d in db.deliveries && db.deliveries[d].messageId != id ==>
            d in after.deliveries && after.deliveries[d] == db.deliveries[d])
  {
  }

  /** It keeps the message's creation time, touches no other message, and restarts retention when it sends at once. */
  lemma ReplaceKeepsTheRest(db: Db, id: nat, e: Envelope, targets: seq<Target>, now: Time)
    requires Valid(db) && id in db.messages && StatusOf(db, id) == StatusScheduled
    ensures var after := Replaced(db, id, e, targets, now);
      && after.messages.Keys == db.messages.Keys && after.messages[id].createdAt == db.messages[id].createdAt
      && (forall m :: m in db.messages && m != id ==> after.messages[m] == db.messages[m])
      && (e.deliverAt.None? || e.deliverAt.value <= now ==> Age(after.messages[id]) >= now)
  {
    assert IsScheduled(db, id) by { ScheduledIsWhole(db, id); }
    var d :| d in db.deliveries && db.deliveries[d].messageId == id && db.deliveries[d].state == Scheduled;
    assert DeliveryOk(db.deliveries[d], db.messages[id]);
  }
}
