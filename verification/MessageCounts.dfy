// How each statement moves the scheduled and held counts the caps bound.
module MessageCounts {
  import opened Common
  import opened MessageTables

  /** The two kinds of message a cap bounds. */
  datatype Family = ScheduledFamily | HeldFamily

  function Members(db: Db, family: Family): set<nat>
  {
    if family == ScheduledFamily then ScheduledIds(db) else HeldIds(db)
  }

  function AppCount(db: Db, family: Family, app: string): nat { |OfApp(db, Members(db, family), app)| }

  function TotalCount(db: Db, family: Family): nat { |Members(db, family)| }

  /** Nothing joins either family, and no message changes its app. */
  ghost predicate Shrinks(before: Db, after: Db)
  {
    && (forall f: Family :: Members(after, f) <= Members(before, f))
    && forall m :: m in after.messages && m in before.messages ==>
         after.messages[m].envelope.appId == before.messages[m].envelope.appId
  }

  lemma CountsShrink(before: Db, after: Db, family: Family, app: string)
    requires Shrinks(before, after)
    ensures AppCount(after, family, app) <= AppCount(before, family, app)
    ensures TotalCount(after, family) <= TotalCount(before, family)
  {
    assert Members(after, family) <= Members(before, family);
    SubsetSize(OfApp(after, Members(after, family), app), OfApp(before, Members(before, family), app));
    SubsetSize(Members(after, family), Members(before, family));
  }

  /** A scheduled message has a scheduled delivery, and back. */
  lemma ScheduledWitness(db: Db, m: nat)
    ensures IsScheduled(db, m) <==>
      m in db.messages && exists d :: d in db.deliveries && db.deliveries[d].messageId == m && db.deliveries[d].state == Scheduled
  {
  }

  /** It is enough that every scheduled row after was one before, and every held mark too. */
  lemma ShrinksFromRows(before: Db, after: Db)
    requires after.messages.Keys <= before.messages.Keys
    requires forall m | m in after.messages ::
      && after.messages[m].envelope.appId == before.messages[m].envelope.appId
      && (after.messages[m].heldAt.Some? ==> before.messages[m].heldAt.Some?)
    requires forall d :: d in after.deliveries && after.deliveries[d].state == Scheduled ==>
      IsScheduled(before, after.deliveries[d].messageId)
    ensures Shrinks(before, after)
  {
    forall m | m in ScheduledIds(after) ensures m in ScheduledIds(before) {
      ScheduledWitness(after, m);
    }
    assert forall f: Family :: Members(after, f) <= Members(before, f) by {
      forall f: Family ensures Members(after, f) <= Members(before, f) {
        if f == ScheduledFamily { assert ScheduledIds(after) <= ScheduledIds(before); }
      }
    }
  }

  lemma RemovedShrinks(db: Db, ids: set<nat>)
    requires Valid(db)
    ensures Shrinks(db, Removed(db, ids))
  {
    forall d | d in Removed(db, ids).deliveries && db.deliveries[d].state == Scheduled
      ensures IsScheduled(db, db.deliveries[d].messageId) { ScheduledWitness(db, db.deliveries[d].messageId); }
    ShrinksFromRows(db, Removed(db, ids));
  }

  lemma ReleasedShrinks(db: Db, ids: set<nat>, now: Time)
    requires Valid(db)
    ensures Shrinks(db, Released(db, ids, now))
  {
    forall d | d in db.deliveries && db.deliveries[d].state == Scheduled
      ensures IsScheduled(db, db.deliveries[d].messageId) { ScheduledWitness(db, db.deliveries[d].messageId); }
    ShrinksFromRows(db, Released(db, ids, now));
  }

  lemma CancelShrinks(db: Db, id: nat, now: Time)
    requires Valid(db) && id in db.messages
    ensures Shrinks(db, CancelScheduled(db, id, now)) && Shrinks(db, CancelHeld(db, id, now))
  {
    forall d | d in db.deliveries && db.deliveries[d].state == Scheduled
      ensures IsScheduled(db, db.deliveries[d].messageId) { ScheduledWitness(db, db.deliveries[d].messageId); }
    ShrinksFromRows(db, CancelScheduled(db, id, now));
    ShrinksFromRows(db, CancelHeld(db, id, now));
  }

  /** A replace only ever swaps a message that is already scheduled. */
  lemma ReplacedShrinks(db: Db, id: nat, envelope: Envelope, targets: seq<Target>, now: Time)
    requires Valid(db) && IsScheduled(db, id) && envelope.appId == db.messages[id].envelope.appId
    ensures Shrinks(db, Replaced(db, id, envelope, targets, now))
  {
    var after := Replaced(db, id, envelope, targets, now);
    forall d | d in after.deliveries && after.deliveries[d].state == Scheduled
      ensures IsScheduled(db, after.deliveries[d].messageId)
    {
      if after.deliveries[d].messageId != id { ScheduledWitness(db, after.deliveries[d].messageId); }
    }
    ShrinksFromRows(db, after);
  }

  lemma RowUpdateShrinks(db: Db, id: nat, row: Delivery)
    requires Valid(db) && id in db.deliveries && row.state != Scheduled
    ensures Shrinks(db, db.(deliveries := db.deliveries[id := row]))
  {
    forall d | d in db.deliveries && db.deliveries[d].state == Scheduled
      ensures IsScheduled(db, db.deliveries[d].messageId) { ScheduledWitness(db, db.deliveries[d].messageId); }
    ShrinksFromRows(db, db.(deliveries := db.deliveries[id := row]));
  }

  /** An insert adds its own message to the family it is inserted in, and to no other. */
  lemma InsertedMembers(db: Db, message: Message, targets: seq<Target>, schedule: Schedule)
    requires Valid(db) && Insertable(message, targets, schedule)
    ensures var after := Inserted(db, message, targets, schedule);
      && ScheduledIds(after) ==
           ScheduledIds(db) + (if schedule.state == Scheduled && targets != [] then {db.nextMessage} else {})
      && HeldIds(after) == HeldIds(db) + (if message.heldAt.Some? then {db.nextMessage} else {})
      && db.nextMessage !in ScheduledIds(db) && db.nextMessage !in HeldIds(db)
  {
    var after := Inserted(db, message, targets, schedule);
    forall m
      ensures m in ScheduledIds(after) <==>
        m in ScheduledIds(db) || (m == db.nextMessage && schedule.state == Scheduled && targets != [])
    {
      ScheduledWitness(db, m);
      ScheduledWitness(after, m);
      if m == db.nextMessage && targets != [] {
        assert db.nextDelivery in after.deliveries;
      }
      forall d | d in db.deliveries ensures d in after.deliveries && after.deliveries[d] == db.deliveries[d] {}
    }
  }

  /** One more row in a set of rows, counted for its app. */
  lemma OfAppKept(before: Db, after: Db, ids: set<nat>, id: nat, message: Message, app: string)
    requires ids <= before.messages.Keys && id !in before.messages
    requires after.messages == before.messages[id := message]
    ensures OfApp(after, ids, app) == OfApp(before, ids, app)
    ensures OfApp(after, ids + {id}, app) ==
      OfApp(before, ids, app) + (if message.envelope.appId == app then {id} else {})
  {
  }

  lemma OfAppAdds(before: Db, after: Db, ids: set<nat>, id: nat, message: Message, app: string)
    requires ids <= before.messages.Keys && id !in before.messages
    requires after.messages == before.messages[id := message]
    ensures |OfApp(after, ids, app)| == |OfApp(before, ids, app)|
    ensures |OfApp(after, ids + {id}, app)| ==
      |OfApp(before, ids, app)| + (if message.envelope.appId == app then 1 else 0)
    ensures |ids + {id}| == |ids| + 1
  {
    OfAppKept(before, after, ids, id, message, app);
    assert id !in ids && id !in OfApp(before, ids, app);
  }

  /** Does this insert join the family? */
  predicate Joins(message: Message, targets: seq<Target>, schedule: Schedule, family: Family)
  {
    if family == ScheduledFamily then schedule.state == Scheduled && targets != [] else message.heldAt.Some?
  }

  lemma CountsJoin(before: Db, after: Db, id: nat, message: Message, family: Family, app: string, joins: bool)
    requires id !in before.messages && after.messages == before.messages[id := message]
    requires Members(after, family) == Members(before, family) + (if joins then {id} else {})
    ensures TotalCount(after, family) == TotalCount(before, family) + (if joins then 1 else 0)
    ensures AppCount(after, family, app) ==
      AppCount(before, family, app) + (if joins && message.envelope.appId == app then 1 else 0)
  {
    OfAppAdds(before, after, Members(before, family), id, message, app);
    assert !joins ==> Members(after, family) == Members(before, family);
  }

  /** An insert is counted once, in its own app and in total, and only in the family it joins. */
  lemma InsertedCounts(db: Db, message: Message, targets: seq<Target>, schedule: Schedule, family: Family, app: string)
    requires Valid(db) && Insertable(message, targets, schedule)
    ensures var after := Inserted(db, message, targets, schedule);
      var joins := Joins(message, targets, schedule, family);
      && TotalCount(after, family) == TotalCount(db, family) + (if joins then 1 else 0)
      && AppCount(after, family, app) ==
           AppCount(db, family, app) + (if joins && message.envelope.appId == app then 1 else 0)
  {
    InsertedMembers(db, message, targets, schedule);
    CountsJoin(db, Inserted(db, message, targets, schedule), db.nextMessage, message, family, app,
               Joins(message, targets, schedule, family));
  }
}
