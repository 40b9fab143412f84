// What each statement does to every row and what a message then reads as, told
// from the rows before it (delivery-api/internal/message).
module MessageEffects {
  import opened Common
  import opened MessageTables

  // ----- What a status says -----------------------------------------------------

  predicate Unmarked(m: Message) { m.cancelledAt.None? && m.heldAt.None? && m.releaseFailedAt.None? }

  predicate SomeIn(db: Db, id: nat, state: DeliveryState)
  {
    exists d :: d in DeliveriesOf(db, id) && db.deliveries[d].state == state
  }

  predicate AllIn(db: Db, id: nat, states: set<DeliveryState>)
  {
    forall d :: d in DeliveriesOf(db, id) ==> db.deliveries[d].state in states
  }

  lemma StatesAreRows(db: Db, id: nat)
    ensures forall s :: s in StatesOf(db, id) <==> SomeIn(db, id, s)
    ensures forall states :: AllIn(db, id, states) <==> StatesOf(db, id) <= states
  {
    forall s ensures s in StatesOf(db, id) <==> SomeIn(db, id, s) {
      if s in StatesOf(db, id) {
        var d :| d in db.deliveries && db.deliveries[d].messageId == id && db.deliveries[d].state == s;
        assert d in DeliveriesOf(db, id);
      }
    }
    forall states ensures AllIn(db, id, states) <==> StatesOf(db, id) <= states {
      if StatesOf(db, id) <= states {
        forall d | d in DeliveriesOf(db, id) ensures db.deliveries[d].state in states {
          assert SomeIn(db, id, db.deliveries[d].state);
        }
      }
    }
  }

  /** A single settled status needs every delivery in that state; anything mixed with work is pending. */
  lemma StatusMeans(db: Db, id: nat)
    requires id in db.messages
    ensures Unmarked(db.messages[id]) ==>
      var some := DeliveriesOf(db, id) != {};
      && (StatusOf(db, id) == StatusScheduled <==> some && AllIn(db, id, {Scheduled}))
      && (StatusOf(db, id) == StatusCancelled <==> some && AllIn(db, id, {Cancelled}))
      && (StatusOf(db, id) == StatusDelivered <==> some && AllIn(db, id, {Delivered}))
      && (StatusOf(db, id) == StatusDead <==> some && AllIn(db, id, {Dead}))
      && (StatusOf(db, id) == StatusPartial <==>
            SomeIn(db, id, Delivered) && SomeIn(db, id, Dead) && AllIn(db, id, {Delivered, Dead}))
      && StatusOf(db, id) !in {StatusUnrouted, StatusReleaseFailed}
    ensures !Unmarked(db.messages[id]) ==>
      StatusOf(db, id) ==
        if db.messages[id].cancelledAt.Some? then StatusCancelled
        else if db.messages[id].heldAt.Some? then StatusUnrouted else StatusReleaseFailed
  {
    StatesAreRows(db, id);
    var states := StatesOf(db, id);
    assert states != {} <==> DeliveriesOf(db, id) != {} by {
      if DeliveriesOf(db, id) != {} {
        var d :| d in DeliveriesOf(db, id);
        assert db.deliveries[d].state in states;
      }
    }
    if Unmarked(db.messages[id]) { StatesMean(states, MarksOf(db.messages[id])); }
  }

  lemma StatesMean(states: set<DeliveryState>, marks: Marks)
    requires marks == Marks(None, None, None)
    ensures var status := Derive(states, marks);
      && (status == StatusScheduled <==> states != {} && states <= {Scheduled})
      && (status == StatusCancelled <==> states != {} && states <= {Cancelled})
      && (status == StatusDelivered <==> states != {} && states <= {Delivered})
      && (status == StatusDead <==> states != {} && states <= {Dead})
      && (status == StatusPartial <==> Delivered in states && Dead in states && states <= {Delivered, Dead})
      && status !in {StatusUnrouted, StatusReleaseFailed}
  {
    assert states != {} && states <= {Scheduled} ==> states == {Scheduled};
    assert states != {} && states <= {Cancelled} ==> states == {Cancelled};
    forall s | s in states ensures s in {Pending, Delivered, Dead, Scheduled, Cancelled} {
      match s case Pending => case Delivered => case Dead => case Scheduled => case Cancelled =>
    }
    if states != {} { var s :| s in states; }
  }

  // ----- Rows that a statement leaves alone ------------------------------------------

  /** Nothing of any other message changes. */
  ghost predicate OthersKept(before: Db, after: Db, id: nat)
  {
    && (forall m :: m in after.messages && m != id ==> m in before.messages)
    && (forall m :: m in before.messages && m != id ==> m in after.messages && after.messages[m] == before.messages[m])
    && (forall d :: d in before.deliveries && before.deliveries[d].messageId != id ==>
          d in after.deliveries && after.deliveries[d] == before.deliveries[d])
    && forall d :: d in after.deliveries && after.deliveries[d].messageId != id ==> d in before.deliveries
  }

  /** A delivery nothing has happened to yet. */
  predicate Untried(d: Delivery)
  {
    && d.attempts == [] && d.attemptCount == 0 && d.budgetAttempts == 0
    && d.deadReason.None? && d.lastStatusCode.None? && d.deliveredAt.None?
  }

  predicate FreshRow(row: Delivery, target: Target, state: DeliveryState, due: Time, start: Time)
  {
    row.target == target && Untried(row) && row.state == state && row.nextAttemptAt == due && row.budgetStartedAt == start
  }

  /** The deliveries of id are one untried row per target, in order, in this state and due then. */
  ghost predicate OnePerTarget(db: Db, id: nat, first: nat, targets: seq<Target>, state: DeliveryState, due: Time, start: Time)
  {
    && (forall d :: d in DeliveriesOf(db, id) <==> first <= d < first + |targets|)
    && forall d :: d in DeliveriesOf(db, id) ==> FreshRow(db.deliveries[d], targets[d - first], state, due, start)
  }

  lemma OnePerTargetStatus(db: Db, id: nat, first: nat, targets: seq<Target>, state: DeliveryState, due: Time, start: Time)
    requires id in db.messages && Unmarked(db.messages[id]) && targets != [] && state in {Pending, Scheduled}
    requires OnePerTarget(db, id, first, targets, state, due, start)
    ensures StatusOf(db, id) == if state == Scheduled then StatusScheduled else StatusPending
  {
    StatusMeans(db, id);
    assert first in DeliveriesOf(db, id);
  }

  /** The rows NewDeliveries makes, beside rows of other messages. */
  lemma NewRows(db: Db, kept: map<nat, Delivery>, id: nat, first: nat, targets: seq<Target>, schedule: Schedule)
    requires db.deliveries == kept + NewDeliveries(id, first, targets, schedule)
    requires forall d :: d in kept ==> kept[d].messageId != id
    ensures OnePerTarget(db, id, first, targets, schedule.state, schedule.nextAttemptAt, schedule.budgetStartedAt)
  {
    OwnRows(db, kept, NewDeliveries(id, first, targets, schedule), id);
  }

  lemma OwnRows(db: Db, kept: map<nat, Delivery>, rows: map<nat, Delivery>, id: nat)
    requires db.deliveries == kept + rows
    requires forall d :: d in kept ==> kept[d].messageId != id
    requires forall d :: d in rows ==> rows[d].messageId == id
    ensures forall d :: d in DeliveriesOf(db, id) <==> d in rows
    ensures forall d :: d in rows ==> d in db.deliveries && db.deliveries[d] == rows[d]
  {
  }

  /** An insert adds its message with one delivery per target and leaves every other row alone. */
  lemma InsertAdds(db: Db, message: Message, targets: seq<Target>, schedule: Schedule)
    requires Valid(db)
    ensures var after := Inserted(db, message, targets, schedule);
      && db.nextMessage !in db.messages && OthersKept(db, after, db.nextMessage)
      && db.nextMessage in after.messages && after.messages[db.nextMessage] == message
      && OnePerTarget(after, db.nextMessage, db.nextDelivery, targets,
                      schedule.state, schedule.nextAttemptAt, schedule.budgetStartedAt)
  {
    NewRows(Inserted(db, message, targets, schedule), db.deliveries, db.nextMessage, db.nextDelivery, targets, schedule);
    InsertKeeps(db, message, targets, schedule);
  }

  /**
   * The message is new, carries this content and no mark but held, and waits or is pending with one
   * delivery per target.
   */
  ghost predicate StoredAs(before: Db, after: Db, e: Envelope, created: Time, heldAt: Option<Time>,
                           targets: seq<Target>, state: DeliveryState, due: Time)
  {
    var id := before.nextMessage;
    && id !in before.messages && id in after.messages && OthersKept(before, after, id)
    && after.messages[id] == Message(after.messages[id].envelope, created, None, heldAt, None, None, None)
    && after.messages[id].envelope == e.(deliverAt := after.messages[id].envelope.deliverAt)
    && (after.messages[id].envelope.deliverAt.Some? <==> e.deliverAt.Some?)
    && (e.deliverAt.Some? ==> after.messages[id].envelope.deliverAt == Some(StoreTime(e.deliverAt.value)))
    && OnePerTarget(after, id, before.nextDelivery, targets, state, due, created)
    && StatusOf(after, id) ==
         if heldAt.Some? then StatusUnrouted else if state == Scheduled && targets != [] then StatusScheduled else StatusPending
  }

  lemma InsertStores(db: Db, e: Envelope, created: Time, heldAt: Option<Time>, targets: seq<Target>, schedule: Schedule)
    requires Valid(db) && schedule.state in {Pending, Scheduled} && schedule.budgetStartedAt == created
    requires heldAt.None? ==> targets != []
    ensures StoredAs(db, Inserted(db, NewMessage(e, created, heldAt), targets, schedule), e, created, heldAt, targets,
                     schedule.state, schedule.nextAttemptAt)
  {
    var message := NewMessage(e, created, heldAt);
    var after := Inserted(db, message, targets, schedule);
    InsertAdds(db, message, targets, schedule);
    if heldAt.None? {
      OnePerTargetStatus(after, db.nextMessage, db.nextDelivery, targets, schedule.state, schedule.nextAttemptAt, created);
    } else {
      StatusMeans(after, db.nextMessage);
    }
  }

  lemma InsertKeeps(db: Db, message: Message, targets: seq<Target>, schedule: Schedule)
    requires Valid(db)
    ensures OthersKept(db, Inserted(db, message, targets, schedule), db.nextMessage)
  {
  }

  // ----- Replace ------------------------------------------------------------------------

  predicate LiesAhead(deliverAt: Option<Time>, now: Time) { deliverAt.Some? && now < deliverAt.value }

  /**
   * After a replace the message carries the new content. For an instant ahead it stays scheduled, every
   * delivery due at that instant; otherwise it is pending, every delivery due now.
   */
  ghost predicate SwappedTo(before: Db, after: Db, id: nat, envelope: Envelope, targets: seq<Target>, now: Time)
    requires id in before.messages
  {
    && OthersKept(before, after, id) && id in after.messages
    && after.messages[id] == before.messages[id].(envelope := after.messages[id].envelope)
    && after.messages[id].envelope == envelope.(deliverAt := after.messages[id].envelope.deliverAt)
    && if LiesAhead(envelope.deliverAt, now)
       then var due := StoreTime(envelope.deliverAt.value);
         && StatusOf(after, id) == StatusScheduled && after.messages[id].envelope.deliverAt == Some(due)
         && OnePerTarget(after, id, before.nextDelivery, targets, Scheduled, due, now)
       else
         && StatusOf(after, id) == StatusPending && after.messages[id].envelope.deliverAt == Some(now)
         && OnePerTarget(after, id, before.nextDelivery, targets, Pending, now, now)
  }

  lemma ReplaceSwaps(db: Db, id: nat, envelope: Envelope, targets: seq<Target>, now: Time)
    requires Valid(db) && id in db.messages && StatusOf(db, id) == StatusScheduled && targets != []
    ensures SwappedTo(db, Replaced(db, id, envelope, targets, now), id, envelope, targets, now)
  {
    var after := Replaced(db, id, envelope, targets, now);
    ReplaceRows(db, id, envelope, targets, now);
    MarkedIsWhole(db, id);
    var schedule := ReplaceSchedule(envelope.deliverAt, now);
    OnePerTargetStatus(after, id, db.nextDelivery, targets, schedule.state, schedule.nextAttemptAt, now);
  }

  lemma ReplaceRows(db: Db, id: nat, envelope: Envelope, targets: seq<Target>, now: Time)
    requires Valid(db) && id in db.messages
    ensures var after, schedule := Replaced(db, id, envelope, targets, now), ReplaceSchedule(envelope.deliverAt, now);
      && OthersKept(db, after, id) && schedule.budgetStartedAt == now
      && OnePerTarget(after, id, db.nextDelivery, targets, schedule.state, schedule.nextAttemptAt, now)
  {
    NewRows(Replaced(db, id, envelope, targets, now), db.deliveries - DeliveriesOf(db, id), id, db.nextDelivery, targets,
            ReplaceSchedule(envelope.deliverAt, now));
    ReplaceKeeps(db, id, envelope, targets, now);
  }

  lemma ReplaceKeeps(db: Db, id: nat, envelope: Envelope, targets: seq<Target>, now: Time)
    requires Valid(db) && id in db.messages
    ensures OthersKept(db, Replaced(db, id, envelope, targets, now), id)
  {
  }

  lemma MarkedIsWhole(db: Db, id: nat)
    requires id in db.messages && StatusOf(db, id) == StatusScheduled
    ensures Unmarked(db.messages[id])
  {
  }

  // ----- Cancel ---------------------------------------------------------------------------

  /** The message is marked cancelled now, every delivery it had with it, and nothing else changes. */
  ghost predicate CancelledAsWhole(before: Db, after: Db, id: nat, now: Time)
    requires id in before.messages
  {
    && OthersKept(before, after, id) && id in after.messages
    && after.messages[id].cancelledAt == Some(now) && after.messages[id].heldAt == None
    && after.messages[id].heldCancelledAt ==
         (if before.messages[id].heldAt.Some? then Some(now) else before.messages[id].heldCancelledAt)
    && after.messages[id] == before.messages[id].(
         cancelledAt := Some(now), heldAt := None, heldCancelledAt := after.messages[id].heldCancelledAt)
    && DeliveriesOf(after, id) == DeliveriesOf(before, id)
    && forall d :: d in DeliveriesOf(before, id) ==> after.deliveries[d] == before.deliveries[d].(state := Cancelled)
  }

  lemma CancelScheduledWhole(db: Db, id: nat, now: Time)
    requires Valid(db) && id in db.messages && StatusOf(db, id) == StatusScheduled
    ensures CancelledAsWhole(db, CancelScheduled(db, id, now), id, now)
  {
    StatusMeans(db, id);
    MarkedIsWhole(db, id);
  }

  lemma CancelHeldWhole(db: Db, id: nat, now: Time)
    requires Valid(db) && id in db.messages && db.messages[id].heldAt.Some?
    ensures CancelledAsWhole(db, CancelHeld(db, id, now), id, now)
  {
    HeldHasNoDeliveries(db, id);
  }

  // ----- Release and removal -----------------------------------------------------------------

  /** Exactly the due scheduled rows of these messages become pending now, with a budget that starts now. */
  lemma ReleaseMoves(db: Db, ids: set<nat>, now: Time)
    requires Valid(db)
    ensures var after := Released(db, ids, now);
      && after == db.(deliveries := after.deliveries) && after.deliveries.Keys == db.deliveries.Keys
      && forall d :: d in db.deliveries ==>
           var row := db.deliveries[d];
           if row.messageId in ids && row.state == Scheduled && row.nextAttemptAt <= now
           then after.deliveries[d] == row.(state := Pending, nextAttemptAt := now, budgetStartedAt := now)
           else after.deliveries[d] == row
  {
  }

  /** A delete takes exactly these messages and exactly their deliveries. */
  lemma RemoveTakes(db: Db, ids: set<nat>, id: nat, d: nat)
    requires Valid(db)
    ensures var after := Removed(db, ids);
      && (id in after.messages <==> id in db.messages && id !in ids)
      && (id in after.messages ==> after.messages[id] == db.messages[id])
      && (d in after.deliveries <==> d in db.deliveries && db.deliveries[d].messageId !in ids)
      && (d in after.deliveries ==> after.deliveries[d] == db.deliveries[d])
      && after.nextMessage == db.nextMessage && after.nextDelivery == db.nextDelivery
  {
  }

  // ----- One row ---------------------------------------------------------------------------------

  /** A success that was delivered, a failure to be retried at a set time, or a failure that is final for a stated reason. */
  predicate Recordable(r: AttemptResult)
  {
    || (r.nextState == Delivered && r.outcome == Success && r.deadReason.None?)
    || (r.nextState == Pending && r.outcome != Success && r.deadReason.None? && r.nextAttemptAt != 0)
    || (r.nextState == Dead && r.outcome != Success && r.deadReason.Some? && r.deadReason.value != "")
  }

  lemma RecordableMeans(r: AttemptResult)
    ensures ValidResult(r) <==> Recordable(r)
  {
  }

  /** The columns a record writes, besides the log: a delivery time exactly on delivery, a reason exactly on death. */
  lemma RecordWrites(d: Delivery, result: AttemptResult, clock: Time)
    ensures var r := Recorded(d, result, clock);
      && r.messageId == d.messageId && r.target == d.target && r.budgetStartedAt == d.budgetStartedAt
      && r.state == result.nextState && r.deadReason == result.deadReason && r.lastStatusCode == result.statusCode
      && r.attemptCount == d.attemptCount + 1 && r.budgetAttempts == d.budgetAttempts + 1
      && (result.nextState == Delivered ==> r.deliveredAt == Some(clock))
      && (result.nextState != Delivered ==> r.deliveredAt == d.deliveredAt)
      && (result.nextState == Pending ==> r.nextAttemptAt == result.nextAttemptAt)
      && (result.nextState != Pending ==> r.nextAttemptAt == d.nextAttemptAt)
  {
  }

  /** A replay starts a fresh budget now and keeps target, log, last status and delivery time. */
  lemma ReplayRestarts(d: Delivery, now: Time)
    ensures var r := Replayed(d, now);
      && r.state == Pending && r.deadReason.None? && r.nextAttemptAt == now
      && r.budgetAttempts == 0 && r.budgetStartedAt == now
      && r.(state := d.state, deadReason := d.deadReason, nextAttemptAt := d.nextAttemptAt,
            budgetAttempts := d.budgetAttempts, budgetStartedAt := d.budgetStartedAt) == d
  {
  }
}
