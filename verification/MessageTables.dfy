// The messages and message_deliveries tables, the effect of each statement on
// them, and what every committed state satisfies (delivery-api/internal/message).
module MessageTables {
  import opened Common
  import opened JsonEquality

  // ----- Rows ---------------------------------------------------------------

  datatype DeliveryState = Pending | Delivered | Dead | Scheduled | Cancelled

  datatype Outcome = Success | Retryable | Terminal | Gone | Blocked

  datatype Status =
    | StatusPending | StatusDelivered | StatusDead | StatusPartial
    | StatusScheduled | StatusCancelled | StatusUnrouted | StatusReleaseFailed

  datatype Display = Display(title: string, body: string, url: string, priority: string)

  /** A message as submitted; payload is None when the document does not decode. */
  datatype Envelope = Envelope(
    appId: string, channel: string, key: string, toDestination: string, toRecipient: string,
    deliverAt: Option<Time>, critical: bool, payload: Option<Json>, display: Option<Display>, hold: bool)

  datatype Message = Message(
    envelope: Envelope, createdAt: Time, cancelledAt: Option<Time>, heldAt: Option<Time>,
    heldCancelledAt: Option<Time>, releasedAt: Option<Time>, releaseFailedAt: Option<Time>)

  /** The message-row marks a status is derived from besides the deliveries. */
  datatype Marks = Marks(heldAt: Option<Time>, cancelledAt: Option<Time>, releaseFailedAt: Option<Time>)

  datatype Target = Target(destinationId: Option<int>, name: string, kind: string)

  datatype Attempt = Attempt(number: nat, outcome: Outcome, statusCode: Option<int>, startedAt: Time)

  /** A delivery row with its delivery_attempts rows, which cascade with it. */
  datatype Delivery = Delivery(
    messageId: nat, target: Target, state: DeliveryState, deadReason: Option<string>,
    attempts: seq<Attempt>, attemptCount: nat, budgetAttempts: nat, budgetStartedAt: Time,
    nextAttemptAt: Time, lastStatusCode: Option<int>, deliveredAt: Option<Time>)

  /** An attempt and the transition it asks for. nextAttemptAt 0 is the zero time. */
  datatype AttemptResult = AttemptResult(
    outcome: Outcome, statusCode: Option<int>, startedAt: Time,
    nextState: DeliveryState, deadReason: Option<string>, nextAttemptAt: Time)

  /** The two tables and the next unused ids. */
  datatype Db = Db(
    messages: map<nat, Message>, deliveries: map<nat, Delivery>, nextMessage: nat, nextDelivery: nat)

  // ----- Derived status -----------------------------------------------------

  function MarksOf(m: Message): Marks { Marks(m.heldAt, m.cancelledAt, m.releaseFailedAt) }

  /** Message marks win, in order; then only which states occur matters. */
  function Derive(states: set<DeliveryState>, marks: Marks): Status
  {
    if marks.cancelledAt.Some? then StatusCancelled
    else if marks.heldAt.Some? then StatusUnrouted
    else if marks.releaseFailedAt.Some? then StatusReleaseFailed
    else if states == {} || Pending in states then StatusPending
    else if states == {Scheduled} then StatusScheduled
    else if states == {Cancelled} then StatusCancelled
    else if Scheduled in states || Cancelled in states then StatusPending
    else if Dead !in states then StatusDelivered
    else if Delivered !in states then StatusDead
    else StatusPartial
  }

  function DeliveriesOf(db: Db, id: nat): set<nat>
  {
    set d | d in db.deliveries && db.deliveries[d].messageId == id
  }

  function StatesOf(db: Db, id: nat): set<DeliveryState>
  {
    set d | d in db.deliveries && db.deliveries[d].messageId == id :: db.deliveries[d].state
  }

  function StatusOf(db: Db, id: nat): Status
    requires id in db.messages
  {
    Derive(StatesOf(db, id), MarksOf(db.messages[id]))
  }

  // ----- Counts the caps are checked against -------------------------------

  predicate IsScheduled(db: Db, id: nat) { id in db.messages && Scheduled in StatesOf(db, id) }

  predicate IsHeld(db: Db, id: nat) { id in db.messages && db.messages[id].heldAt.Some? }

  function ScheduledIds(db: Db): set<nat> { set m | m in db.messages && IsScheduled(db, m) }

  function HeldIds(db: Db): set<nat> { set m | m in db.messages && IsHeld(db, m) }

  function OfApp(db: Db, ids: set<nat>, app: string): set<nat>
  {
    set m | m in ids && m in db.messages && db.messages[m].envelope.appId == app
  }

  // ----- Statements ---------------------------------------------------------

  function StoreOption(t: Option<Time>): Option<Time>
  {
    if t.None? then None else Some(StoreTime(t.value))
  }

  /** The state a batch of new deliveries is inserted in. */
  datatype Schedule = Schedule(state: DeliveryState, nextAttemptAt: Time, budgetStartedAt: Time)

  function NewDelivery(message: nat, target: Target, schedule: Schedule): Delivery
  {
    Delivery(message, target, schedule.state, None, [], 0, 0, schedule.budgetStartedAt,
             schedule.nextAttemptAt, None, None)
  }

  /** One delivery per target, with consecutive ids. */
  function NewDeliveries(message: nat, first: nat, targets: seq<Target>, schedule: Schedule): (rows: map<nat, Delivery>)
    ensures forall d :: d in rows <==> first <= d < first + |targets|
    ensures forall d :: d in rows ==> rows[d] == NewDelivery(message, targets[d - first], schedule)
  {
    if targets == [] then map[]
    else
      var last := |targets| - 1;
      NewDeliveries(message, first, targets[..last], schedule)[
        first + last := NewDelivery(message, targets[last], schedule)]
  }

  function NewMessage(envelope: Envelope, createdAt: Time, heldAt: Option<Time>): Message
  {
    Message(envelope.(deliverAt := StoreOption(envelope.deliverAt)), createdAt, None, heldAt, None, None, None)
  }

  /** Insert one message and one delivery per target. */
  function Inserted(db: Db, message: Message, targets: seq<Target>, schedule: Schedule): Db
  {
    Db(db.messages[db.nextMessage := message],
       db.deliveries + NewDeliveries(db.nextMessage, db.nextDelivery, targets, schedule),
       db.nextMessage + 1, db.nextDelivery + |targets|)
  }

  /** A replace keeps the message scheduled only for an instant after now; otherwise it sends at once. */
  function ReplaceSchedule(deliverAt: Option<Time>, now: Time): Schedule
  {
    if deliverAt.Some? && deliverAt.value > now
    then Schedule(Scheduled, StoreTime(deliverAt.value), now)
    else Schedule(Pending, now, now)
  }

  /** Swap content and deliveries; the row keeps its id, creation time and marks. */
  function Replaced(db: Db, id: nat, envelope: Envelope, targets: seq<Target>, now: Time): Db
    requires id in db.messages
  {
    var schedule := ReplaceSchedule(envelope.deliverAt, now);
    var deliverAt := if schedule.state == Scheduled then StoreOption(envelope.deliverAt) else Some(now);
    var stored := db.messages[id].(envelope := envelope.(deliverAt := deliverAt));
    Db(db.messages[id := stored],
       (db.deliveries - DeliveriesOf(db, id)) + NewDeliveries(id, db.nextDelivery, targets, schedule),
       db.nextMessage, db.nextDelivery + |targets|)
  }

  function CancelHeld(db: Db, id: nat, now: Time): Db
    requires id in db.messages
  {
    db.(messages := db.messages[id := db.messages[id].(
          cancelledAt := Some(now), heldCancelledAt := Some(now), heldAt := None)])
  }

  function CancelScheduled(db: Db, id: nat, now: Time): Db
    requires id in db.messages
  {
    db.(messages := db.messages[id := db.messages[id].(cancelledAt := Some(now))],
        deliveries := map d | d in db.deliveries ::
          if db.deliveries[d].messageId == id && db.deliveries[d].state == Scheduled
          then db.deliveries[d].(state := Cancelled) else db.deliveries[d])
  }

  predicate IsDueDelivery(d: Delivery, now: Time) { d.state == Scheduled && d.nextAttemptAt <= now }

  /** The messages an update of the rows in ids touches. */
  function ReleasedIds(db: Db, ids: set<nat>, now: Time): set<nat>
  {
    set d | d in db.deliveries && db.deliveries[d].messageId in ids && IsDueDelivery(db.deliveries[d], now)
      :: db.deliveries[d].messageId
  }

  /** The rechecking update: only rows still scheduled and due move. */
  function Released(db: Db, ids: set<nat>, now: Time): Db
  {
    db.(deliveries := map d | d in db.deliveries ::
          if db.deliveries[d].messageId in ids && IsDueDelivery(db.deliveries[d], now)
          then db.deliveries[d].(state := Pending, nextAttemptAt := now, budgetStartedAt := now)
          else db.deliveries[d])
  }

  /** Delete messages; deliveries and attempts cascade. */
  function Removed(db: Db, ids: set<nat>): Db
  {
    db.(messages := db.messages - ids,
        deliveries := map d | d in db.deliveries && db.deliveries[d].messageId !in ids :: db.deliveries[d])
  }

  function Leased(d: Delivery, until: Time): Delivery { d.(nextAttemptAt := until) }

  /** RecordAttempt on a pending row: one log row, one transition. */
  function Recorded(d: Delivery, result: AttemptResult, clock: Time): Delivery
  {
    d.(state := result.nextState,
       deadReason := result.deadReason,
       attempts := d.attempts + [Attempt(d.attemptCount + 1, result.outcome, result.statusCode, result.startedAt)],
       attemptCount := d.attemptCount + 1,
       budgetAttempts := d.budgetAttempts + 1,
       nextAttemptAt := if result.nextState == Pending then result.nextAttemptAt else d.nextAttemptAt,
       lastStatusCode := result.statusCode,
       deliveredAt := if result.nextState == Delivered then Some(clock) else d.deliveredAt)
  }

  function Replayed(d: Delivery, now: Time): Delivery
  {
    d.(state := Pending, deadReason := None, budgetAttempts := 0, budgetStartedAt := now, nextAttemptAt := now)
  }

  /** The check RecordAttempt makes before it touches the database. */
  predicate ValidResult(result: AttemptResult)
  {
    && (result.outcome == Success <==> result.nextState == Delivered)
    && match result.nextState
       case Pending => result.nextAttemptAt != 0 && result.deadReason == None
       case Delivered => result.deadReason == None
       case Dead => result.deadReason.Some? && result.deadReason.value != ""
       case _ => false
  }

  // ----- What every committed state satisfies ------------------------------

  predicate SameKey(a: Envelope, b: Envelope) { a.appId == b.appId && a.key == b.key }

  ghost predicate KeysUnique(db: Db)
  {
    forall m, n | m in db.messages && n in db.messages && m != n ::
      !SameKey(db.messages[m].envelope, db.messages[n].envelope)
  }

  ghost predicate ReferencesOk(db: Db)
  {
    && (forall m :: m in db.messages ==> m < db.nextMessage)
    && (forall d :: d in db.deliveries ==> d < db.nextDelivery && db.deliveries[d].messageId in db.messages)
  }

  /** A scheduled delivery is due when its message is, and its message carries no mark. */
  predicate WaitsForMessage(d: Delivery, m: Message)
  {
    m.envelope.deliverAt == Some(d.nextAttemptAt) && MarksOf(m) == Marks(None, None, None)
  }

  predicate AttemptsNumbered(d: Delivery)
  {
    && |d.attempts| == d.attemptCount
    && forall i :: 0 <= i < |d.attempts| ==> d.attempts[i].number == i + 1
  }

  predicate DeliveryOk(d: Delivery, m: Message)
  {
    && (d.state == Scheduled ==> WaitsForMessage(d, m))
    && (d.state == Cancelled <==> m.cancelledAt.Some?)
    && m.heldAt.None?
    && (d.state == Dead <==> d.deadReason.Some?)
    && AttemptsNumbered(d)
  }

  /** A message is scheduled as a whole or not at all. */
  ghost predicate WholeMessages(db: Db)
  {
    forall d, e {:trigger Together(db.deliveries[d], db.deliveries[e])} | d in db.deliveries && e in db.deliveries ::
      Together(db.deliveries[d], db.deliveries[e])
  }

  predicate Together(a: Delivery, b: Delivery)
  {
    a.messageId == b.messageId ==> (a.state == Scheduled <==> b.state == Scheduled)
  }

  ghost predicate Valid(db: Db)
  {
    && KeysUnique(db)
    && ReferencesOk(db)
    && WholeMessages(db)
    && (forall m :: m in db.messages ==> !(db.messages[m].heldAt.Some? && db.messages[m].cancelledAt.Some?))
    && forall d :: d in db.deliveries ==> DeliveryOk(db.deliveries[d], db.messages[db.deliveries[d].messageId])
  }

  /** In a valid state "some delivery is scheduled" and "the message is scheduled" agree. */
  lemma ScheduledIsWhole(db: Db, id: nat)
    requires Valid(db) && id in db.messages
    ensures IsScheduled(db, id) <==> StatusOf(db, id) == StatusScheduled
    ensures IsScheduled(db, id) ==> db.messages[id].envelope.deliverAt.Some?
    ensures IsScheduled(db, id) ==> forall d :: d in DeliveriesOf(db, id) ==>
      db.deliveries[d].state == Scheduled && db.messages[id].envelope.deliverAt == Some(db.deliveries[d].nextAttemptAt)
  {
    if IsScheduled(db, id) {
      var d :| d in db.deliveries && db.deliveries[d].messageId == id && db.deliveries[d].state == Scheduled;
      forall e | e in DeliveriesOf(db, id)
        ensures db.deliveries[e].state == Scheduled && WaitsForMessage(db.deliveries[e], db.messages[id])
      {
        assert Together(db.deliveries[d], db.deliveries[e]);
        assert DeliveryOk(db.deliveries[e], db.messages[id]);
      }
      forall s | s in StatesOf(db, id) ensures s == Scheduled {
        var e :| e in db.deliveries && db.deliveries[e].messageId == id && db.deliveries[e].state == s;
      }
      assert StatesOf(db, id) == {Scheduled};
    }
  }

  lemma HeldHasNoDeliveries(db: Db, id: nat)
    requires Valid(db) && id in db.messages && db.messages[id].heldAt.Some?
    ensures DeliveriesOf(db, id) == {}
  {
    forall d | d in db.deliveries ensures db.deliveries[d].messageId != id {
      assert DeliveryOk(db.deliveries[d], db.messages[db.deliveries[d].messageId]);
    }
  }

  // ----- Every statement keeps it ------------------------------------------

  predicate FreeKey(db: Db, envelope: Envelope)
  {
    forall m :: m in db.messages ==> !SameKey(db.messages[m].envelope, envelope)
  }

  /** What the inserts pass: no marks but held, and a schedule that fits the message. */
  predicate Insertable(message: Message, targets: seq<Target>, schedule: Schedule)
  {
    && message.cancelledAt.None? && message.releaseFailedAt.None?
    && (message.heldAt.Some? ==> targets == [])
    && (schedule.state == Pending
        || (schedule.state == Scheduled && message.envelope.deliverAt == Some(schedule.nextAttemptAt)))
  }

  lemma InsertedValid(db: Db, message: Message, targets: seq<Target>, schedule: Schedule)
    requires Valid(db) && Insertable(message, targets, schedule)
    requires FreeKey(db, message.envelope)
    ensures Valid(Inserted(db, message, targets, schedule))
  {
    var after := Inserted(db, message, targets, schedule);
    forall d | d in after.deliveries
      ensures d < after.nextDelivery && after.deliveries[d].messageId in after.messages
      ensures DeliveryOk(after.deliveries[d], after.messages[after.deliveries[d].messageId])
    {
      if d in db.deliveries { assert DeliveryOk(db.deliveries[d], db.messages[db.deliveries[d].messageId]); }
    }
    forall d, e | d in after.deliveries && e in after.deliveries
      ensures Together(after.deliveries[d], after.deliveries[e])
    {
      if d in db.deliveries && e in db.deliveries { assert Together(db.deliveries[d], db.deliveries[e]); }
    }
  }

  lemma ReplacedValid(db: Db, id: nat, envelope: Envelope, targets: seq<Target>, now: Time)
    requires Valid(db) && id in db.messages && StatusOf(db, id) == StatusScheduled
    requires SameKey(envelope, db.messages[id].envelope)
    ensures Valid(Replaced(db, id, envelope, targets, now))
  {
    var after := Replaced(db, id, envelope, targets, now);
    forall d | d in after.deliveries
      ensures d < after.nextDelivery && after.deliveries[d].messageId in after.messages
      ensures DeliveryOk(after.deliveries[d], after.messages[after.deliveries[d].messageId])
    {
      if after.deliveries[d].messageId != id {
        assert DeliveryOk(db.deliveries[d], db.messages[db.deliveries[d].messageId]);
      }
    }
    forall d, e | d in after.deliveries && e in after.deliveries
      ensures Together(after.deliveries[d], after.deliveries[e])
    {
      if d in db.deliveries && e in db.deliveries { assert Together(db.deliveries[d], db.deliveries[e]); }
    }
  }

  lemma CancelHeldValid(db: Db, id: nat, now: Time)
    requires Valid(db) && IsHeld(db, id)
    ensures Valid(CancelHeld(db, id, now))
  {
  }

  lemma CancelScheduledValid(db: Db, id: nat, now: Time)
    requires Valid(db) && id in db.messages && StatusOf(db, id) == StatusScheduled
    ensures Valid(CancelScheduled(db, id, now))
  {
    ScheduledIsWhole(db, id);
    var after := CancelScheduled(db, id, now);
    forall d, e | d in after.deliveries && e in after.deliveries
      ensures Together(after.deliveries[d], after.deliveries[e])
    {
      assert Together(db.deliveries[d], db.deliveries[e]);
    }
    forall d | d in after.deliveries
      ensures DeliveryOk(after.deliveries[d], after.messages[after.deliveries[d].messageId])
    {
      assert DeliveryOk(db.deliveries[d], db.messages[db.deliveries[d].messageId]);
    }
  }

  /** Deliveries of one message are due together, so a release moves the whole message. */
  lemma ReleasedValid(db: Db, ids: set<nat>, now: Time)
    requires Valid(db)
    ensures Valid(Released(db, ids, now))
  {
    var after := Released(db, ids, now);
    forall d | d in after.deliveries
      ensures DeliveryOk(after.deliveries[d], after.messages[after.deliveries[d].messageId])
    {
      assert DeliveryOk(db.deliveries[d], db.messages[db.deliveries[d].messageId]);
    }
    forall d, e | d in after.deliveries && e in after.deliveries
      ensures Together(after.deliveries[d], after.deliveries[e])
    {
      if db.deliveries[d].messageId == db.deliveries[e].messageId { DueTogether(db, d, e, now); }
    }
  }

  lemma DueTogether(db: Db, d: nat, e: nat, now: Time)
    requires Valid(db) && d in db.deliveries && e in db.deliveries
    requires db.deliveries[d].messageId == db.deliveries[e].messageId
    ensures db.deliveries[d].state == Scheduled <==> db.deliveries[e].state == Scheduled
    ensures IsDueDelivery(db.deliveries[d], now) <==> IsDueDelivery(db.deliveries[e], now)
  {
    var message := db.messages[db.deliveries[d].messageId];
    assert DeliveryOk(db.deliveries[d], message) && DeliveryOk(db.deliveries[e], message);
    assert Together(db.deliveries[d], db.deliveries[e]);
  }

  lemma RemovedValid(db: Db, ids: set<nat>)
    requires Valid(db)
    ensures Valid(Removed(db, ids))
  {
    var after := Removed(db, ids);
    forall d, e | d in after.deliveries && e in after.deliveries
      ensures Together(after.deliveries[d], after.deliveries[e])
    {
      assert Together(db.deliveries[d], db.deliveries[e]);
    }
  }

  /** Claim, record and replay rewrite one row that is not scheduled, to a row that is not scheduled. */
  lemma RowUpdateValid(db: Db, id: nat, row: Delivery)
    requires Valid(db) && id in db.deliveries
    requires db.deliveries[id].state in {Pending, Dead} && row.state in {Pending, Delivered, Dead}
    requires row.messageId == db.deliveries[id].messageId
    requires (row.state == Dead <==> row.deadReason.Some?) && AttemptsNumbered(row)
    ensures Valid(db.(deliveries := db.deliveries[id := row]))
  {
    assert DeliveryOk(db.deliveries[id], db.messages[row.messageId]);
    var after := db.(deliveries := db.deliveries[id := row]);
    forall d, e | d in after.deliveries && e in after.deliveries
      ensures Together(after.deliveries[d], after.deliveries[e])
    {
      assert Together(db.deliveries[d], db.deliveries[e]);
    }
  }

  /** Attempt numbers stay 1..attempt_count through claims, records and replays. */
  lemma RowFunctionsKeepRowOk(d: Delivery, until: Time, result: AttemptResult, now: Time)
    requires AttemptsNumbered(d) && (d.state == Dead <==> d.deadReason.Some?)
    ensures AttemptsNumbered(Leased(d, until)) && AttemptsNumbered(Replayed(d, now))
    ensures AttemptsNumbered(Recorded(d, result, now))
    ensures Leased(d, until).state == Dead <==> Leased(d, until).deadReason.Some?
    ensures Replayed(d, now).state == Dead <==> Replayed(d, now).deadReason.Some?
    ensures ValidResult(result) ==> (Recorded(d, result, now).state == Dead <==> Recorded(d, result, now).deadReason.Some?)
  {
  }

  /** A record appends one entry and never rewrites the log; a replay keeps it all and grants a fresh budget. */
  lemma LogOnlyGrows(d: Delivery, result: AttemptResult, clock: Time, now: Time)
    requires AttemptsNumbered(d)
    ensures var r := Recorded(d, result, clock);
      && d.attempts <= r.attempts && |r.attempts| == |d.attempts| + 1
      && r.attempts[|d.attempts|] == Attempt(d.attemptCount + 1, result.outcome, result.statusCode, result.startedAt)
      && (r.nextAttemptAt != d.nextAttemptAt ==> result.nextState == Pending)
      && (r.deliveredAt != d.deliveredAt ==> result.nextState == Delivered)
    ensures var p := Replayed(d, now);
      && p.attempts == d.attempts && p.attemptCount == d.attemptCount
      && p.budgetAttempts == 0 && p.state == Pending && p.nextAttemptAt == now
  {
  }
}
