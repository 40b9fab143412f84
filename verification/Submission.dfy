// Submitting a message: duplicate, replace, hold or insert, with other
// transactions committing between the store calls (delivery-api/internal/message/service.go, equality.go).
module Submission {
  import opened Common
  import opened JsonEquality
  import opened MessageTables
  import opened MessageCounts
  import opened MessageEffects
  import opened MessageStore

  // ----- Same content -----------------------------------------------------------

  predicate SameDeliverAt(stored: Option<Time>, submitted: Option<Time>)
  {
    if stored.None? || submitted.None? then stored.None? && submitted.None?
    else StoreTime(stored.value) == StoreTime(submitted.value)
  }

  const NO_DISPLAY := Display("", "", "", "")

  /** A missing display equals the empty one. */
  predicate SameDisplay(stored: Option<Display>, submitted: Option<Display>)
  {
    (if stored.Some? then stored.value else NO_DISPLAY) == (if submitted.Some? then submitted.value else NO_DISPLAY)
  }

  /** A document that does not decode is equal to nothing. */
  predicate SamePayload(stored: Option<Json>, submitted: Option<Json>)
  {
    stored.Some? && submitted.Some? && SameJson(stored.value, submitted.value)
  }

  predicate SameContent(stored: Envelope, submitted: Envelope)
  {
    && stored.channel == submitted.channel
    && stored.toDestination == submitted.toDestination
    && stored.toRecipient == submitted.toRecipient
    && stored.critical == submitted.critical
    && SameDeliverAt(stored.deliverAt, submitted.deliverAt)
    && SamePayload(stored.payload, submitted.payload)
    && SameDisplay(stored.display, submitted.display)
  }

  /** Everything a resubmit is compared by, each part in its one form. */
  datatype Content = Content(
    channel: string, toDestination: string, toRecipient: string, critical: bool, deliverAt: Option<Time>,
    payload: Canon, title: string, body: string, url: string, priority: string)

  function ContentOf(e: Envelope): Option<Content>
  {
    var display := if e.display.None? then NO_DISPLAY else e.display.value;
    if e.payload.None? then None
    else Some(Content(e.channel, e.toDestination, e.toRecipient, e.critical, StoreOption(e.deliverAt),
                      Canonical(e.payload.value), display.title, display.body, display.url, display.priority))
  }

  /** The same content, exactly when every part compared is the same in its one form; nothing else counts. */
  lemma SameContentIsExact(a: Envelope, b: Envelope)
    ensures SameContent(a, b) <==> ContentOf(a).Some? && ContentOf(a) == ContentOf(b)
  {
    if a.payload.Some? && b.payload.Some? { SameJsonIsCanonical(a.payload.value, b.payload.value); }
  }

  /** Content equality is an equivalence on exactly the envelopes whose payload decodes. */
  lemma SameContentIsEquivalence(a: Envelope, b: Envelope, c: Envelope)
    ensures SameContent(a, a) <==> a.payload.Some?
    ensures SameContent(a, b) <==> SameContent(b, a)
    ensures SameContent(a, b) && SameContent(b, c) ==> SameContent(a, c)
  {
    if a.payload.Some? { SameJsonReflexive(a.payload.value); }
    if SameContent(a, b) { SameJsonSymmetric(a.payload.value, b.payload.value); }
    if SameContent(b, a) { SameJsonSymmetric(b.payload.value, a.payload.value); }
    if SameContent(a, b) && SameContent(b, c) {
      SameJsonTransitive(a.payload.value, b.payload.value, c.payload.value);
    }
  }

  /** What the store keeps of an envelope is the same content. */
  lemma StoredContent(e: Envelope)
    ensures SameContent(e.(deliverAt := StoreOption(e.deliverAt)), e) <==> e.payload.Some?
  {
    if e.payload.Some? { SameJsonReflexive(e.payload.value); }
  }

  // ----- Recipients, resolution and outcomes ---------------------------------------

  /** The person hash, as an oracle. */
  datatype PersonHash = PersonHash(hash: string -> string, isHash: string -> bool)

  ghost predicate HashesAreHashes(p: PersonHash) { forall s :: p.isHash(p.hash(s)) }

  function Hashed(e: Envelope, p: PersonHash): Envelope
  {
    if e.toRecipient != "" && !p.isHash(e.toRecipient) then e.(toRecipient := p.hash(e.toRecipient)) else e
  }

  /** A recipient is stored as a hash, its own if it is one already; nothing else of the envelope changes. */
  lemma RecipientIsHashed(e: Envelope, p: PersonHash)
    requires HashesAreHashes(p)
    ensures var h := Hashed(e, p);
      && h.(toRecipient := e.toRecipient) == e
      && (e.toRecipient == "" ==> h == e)
      && (e.toRecipient != "" ==> p.isHash(h.toRecipient))
      && (p.isHash(e.toRecipient) ==> h == e)
      && (e.toRecipient != "" && !p.isHash(e.toRecipient) ==> h.toRecipient == p.hash(e.toRecipient))
  {
  }

  lemma HashedTwice(e: Envelope, p: PersonHash)
    requires HashesAreHashes(p)
    ensures Hashed(Hashed(e, p), p) == Hashed(e, p)
  {
  }

  datatype ResolveError = NoDestinationMatched | UnknownDestination | DestinationDisabled | OtherRefusal

  /** What resolving answers at each of its calls. */
  type Resolver = nat -> Result<seq<Target>, ResolveError>

  function Resolve(resolver: Resolver, call: nat): (r: Result<seq<Target>, ResolveError>)
    ensures r.Ok? ==> r.value != [] && r == resolver(call)
    ensures r.Err? ==> r == resolver(call) || (r.error == NoDestinationMatched && resolver(call) == Ok([]))
  {
    var answer := resolver(call);
    if answer == Ok([]) then Err(NoDestinationMatched) else answer
  }

  datatype SubmitOutcome = SubmitOutcome(id: nat, duplicate: bool, replaced: bool, scheduled: bool, held: bool)

  datatype SubmitError = InvalidEnvelope | Unresolved(why: ResolveError) | Refused(cause: InsertError)

  // ----- Validation ------------------------------------------------------------------

  /** 9999-12-31T23:59:59Z, the latest accepted deliver_at. */
  const MAX_DELIVER_AT: Time := 315_537_897_599 * SECOND

  /** The pattern and size rules of the single fields, as an oracle. */
  type FieldRules = Envelope -> bool

  /**
   * What is checked before anything else: one decoded JSON object as payload, one way to address,
   * a deliver_at that is set and in range if there is one, and the rules of each field.
   */
  predicate ValidEnvelope(e: Envelope, fields: FieldRules)
  {
    && e.payload.Some? && e.payload.value.Object?
    && !(e.toDestination != "" && e.toRecipient != "")
    && (e.deliverAt.Some? ==> 0 < e.deliverAt.value <= MAX_DELIVER_AT)
    && fields(e)
  }

  /** Other transactions, committing at each gap between this submit's store calls. */
  type Others = (nat, Db) -> Db

  ghost predicate KeepValid(others: Others) { forall k, db :: Valid(db) ==> Valid(others(k, db)) }

  ghost predicate Alone(others: Others) { forall k, db :: others(k, db) == db }

  /** Submitting e again would be answered with the message that is there. */
  ghost predicate Answered(db: Db, e: Envelope)
  {
    !FreeKey(db, e) && forall m :: m in db.messages && SameKey(db.messages[m].envelope, e) ==>
      StatusOf(db, m) != StatusScheduled || SameContent(db.messages[m].envelope, e)
  }

  /** The key is in use by a scheduled message with other content. */
  ghost predicate Differs(db: Db, e: Envelope) { !FreeKey(db, e) && !Answered(db, e) }

  lemma AnsweredForSameContent(db: Db, a: Envelope, b: Envelope)
    requires Answered(db, a) && SameKey(a, b) && SameContent(a, b)
    ensures Answered(db, b)
  {
    forall m | m in db.messages && SameKey(db.messages[m].envelope, b) && StatusOf(db, m) == StatusScheduled
      ensures SameContent(db.messages[m].envelope, b)
    {
      SameContentIsEquivalence(db.messages[m].envelope, a, b);
    }
  }

  lemma OneKeyOneMessage(db: Db, e: Envelope, m: nat, n: nat)
    requires Valid(db) && m in db.messages && n in db.messages
    requires SameKey(db.messages[m].envelope, e) && SameKey(db.messages[n].envelope, e)
    ensures m == n
  {
  }

  lemma AnsweredBy(db: Db, e: Envelope, id: nat)
    requires Valid(db) && id in db.messages && SameKey(db.messages[id].envelope, e)
    requires StatusOf(db, id) == StatusScheduled ==> SameContent(db.messages[id].envelope, e)
    ensures Answered(db, e)
  {
    forall m | m in db.messages && SameKey(db.messages[m].envelope, e) ensures m == id {
      OneKeyOneMessage(db, e, m, id);
    }
  }

  /** A fresh insert settles its own content. */
  lemma InsertAnswers(db: Db, e: Envelope, message: Message, targets: seq<Target>, schedule: Schedule)
    requires Valid(Inserted(db, message, targets, schedule)) && e.payload.Some?
    requires message.envelope == e.(deliverAt := StoreOption(e.deliverAt))
    ensures Answered(Inserted(db, message, targets, schedule), e)
  {
    StoredContent(e);
    AnsweredBy(Inserted(db, message, targets, schedule), e, db.nextMessage);
  }

  /** So does a replace: still scheduled with this content, or sent at once. */
  lemma ReplaceAnswers(db: Db, id: nat, e: Envelope, targets: seq<Target>, now: Time)
    requires Valid(db) && id in db.messages && SameKey(db.messages[id].envelope, e) && targets != []
    requires StatusOf(db, id) == StatusScheduled
    requires e.payload.Some? && Valid(Replaced(db, id, e, targets, now))
    ensures Answered(Replaced(db, id, e, targets, now), e)
    ensures StatusOf(Replaced(db, id, e, targets, now), id) == StatusScheduled <==>
      e.deliverAt.Some? && now < e.deliverAt.value
  {
    StoredContent(e);
    ReplaceSwaps(db, id, e, targets, now);
    AnsweredBy(Replaced(db, id, e, targets, now), e, id);
  }

  predicate IsFuture(deliverAt: Option<Time>, now: Time) { deliverAt.Some? && deliverAt.value > now }

  /** Only an unaddressed message whose route opted in may be held. */
  predicate MayHold(e: Envelope, holdUnrouted: bool)
  {
    e.hold && holdUnrouted && e.toRecipient == "" && e.toDestination == ""
  }

  function NewSchedule(e: Envelope, now: Time, clock: Time): Schedule
  {
    if IsFuture(e.deliverAt, now) then Schedule(Scheduled, StoreTime(e.deliverAt.value), clock)
    else Schedule(Pending, clock, clock)
  }

  /** The one row change a new submit commits. */
  function NewTables(db: Db, e: Envelope, now: Time, clock: Time, targets: Result<seq<Target>, ResolveError>, held: bool): Db
  {
    if held then Inserted(db, NewMessage(e, clock, Some(now)), [], Schedule(Pending, clock, clock))
    else Inserted(db, NewMessage(e, clock, None), if targets.Ok? then targets.value else [], NewSchedule(e, now, clock))
  }

  lemma InsertedStatus(db: Db, e: Envelope, now: Time, clock: Time, targets: seq<Target>)
    requires targets != [] && Valid(NewTables(db, e, now, clock, Ok(targets), false))
    ensures var after := NewTables(db, e, now, clock, Ok(targets), false);
      && (StatusOf(after, db.nextMessage) == StatusScheduled <==> IsFuture(e.deliverAt, now))
      && (e.payload.Some? ==> Answered(after, e))
  {
    var after := NewTables(db, e, now, clock, Ok(targets), false);
    var d := db.nextDelivery;
    assert d in NewDeliveries(db.nextMessage, d, targets, NewSchedule(e, now, clock));
    assert d in after.deliveries && after.deliveries[d].messageId == db.nextMessage;
    assert after.deliveries[d].state in StatesOf(after, db.nextMessage);
    ScheduledIsWhole(after, db.nextMessage);
    if e.payload.Some? { InsertAnswers(db, e, NewMessage(e, clock, None), targets, NewSchedule(e, now, clock)); }
  }

  // ----- The service ------------------------------------------------------------------

  type PositiveCaps = c: Caps | Positive(c) witness Caps(1, 1)

  /** A configured cap that is not positive takes its default. */
  function OrDefault(configured: Caps): (c: PositiveCaps)
    ensures c.perApp == (if configured.perApp >= 1 then configured.perApp else 1000)
    ensures c.total == (if configured.total >= 1 then configured.total else 100_000)
  {
    Caps(if configured.perApp <= 0 then 1000 else configured.perApp,
         if configured.total <= 0 then 100_000 else configured.total)
  }

  /** What a key nobody has used comes to: held, stored, or why not. */
  function NewVerdict(db: Db, e: Envelope, now: Time, targets: Result<seq<Target>, ResolveError>,
                      holdUnrouted: bool, scheduledCaps: Caps, heldCaps: Caps): Result<bool, SubmitError>
  {
    if targets.Ok? then
      var refusal := if IsFuture(e.deliverAt, now) then CapRefusal(db, ScheduledFamily, e.appId, scheduledCaps) else None;
      if refusal.Some? then Err(Refused(refusal.value)) else Ok(false)
    else if !(targets.error == NoDestinationMatched && MayHold(e, holdUnrouted)) then Err(Unresolved(targets.error))
    else if now == 0 then Err(Refused(NowUnset))
    else
      var refusal := CapRefusal(db, HeldFamily, e.appId, heldCaps);
      if refusal.Some? then Err(Refused(refusal.value)) else Ok(true)
  }

  /** Which new submits are held, which stored, and which refused, told from the envelope and the counts. */
  lemma VerdictMeans(db: Db, e: Envelope, now: Time, targets: Result<seq<Target>, ResolveError>,
                     holdUnrouted: bool, scheduledCaps: Caps, heldCaps: Caps)
    ensures var verdict := NewVerdict(db, e, now, targets, holdUnrouted, scheduledCaps, heldCaps);
      var holds := targets == Err(NoDestinationMatched) && e.hold && holdUnrouted && e.toRecipient == "" && e.toDestination == "";
      var ahead := e.deliverAt.Some? && now < e.deliverAt.value;
      && (verdict == Ok(true) <==> holds && now != 0 && HasRoom(db, HeldFamily, e.appId, heldCaps))
      && (verdict == Ok(false) <==> targets.Ok? && (ahead ==> HasRoom(db, ScheduledFamily, e.appId, scheduledCaps)))
      && (verdict == Err(Refused(NowUnset)) <==> holds && now == 0)
      && (targets.Err? ==> (verdict == Err(Unresolved(targets.error)) <==> !holds))
  {
  }

  predicate HasRoom(db: Db, family: Family, app: string, caps: Caps)
  {
    AppCount(db, family, app) < caps.perApp && TotalCount(db, family) < caps.total
  }

  /** The answer names the row that holds the submitted key. */
  predicate Names(db: Db, o: SubmitOutcome, e: Envelope)
  {
    o.id in db.messages && SameKey(db.messages[o.id].envelope, e)
  }

  /** The new row of a submit: held without deliveries, scheduled at an instant ahead, or pending at once. */
  ghost predicate StoredNew(base: Db, after: Db, e: Envelope, now: Time, clock: Time, targets: seq<Target>, held: bool)
  {
    if held then StoredAs(base, after, e, clock, Some(now), [], Pending, clock)
    else if e.deliverAt.Some? && now < e.deliverAt.value
    then StoredAs(base, after, e, clock, None, targets, Scheduled, StoreTime(e.deliverAt.value))
    else StoredAs(base, after, e, clock, None, targets, Pending, clock)
  }

  class Service {
    const store: PGStore
    const holdUnrouted: bool
    const scheduledCaps: PositiveCaps
    const heldCaps: PositiveCaps

    constructor (store: PGStore, holdUnrouted: bool, scheduledCaps: Caps, heldCaps: Caps)
      ensures this.store == store && this.holdUnrouted == holdUnrouted
      ensures this.scheduledCaps == OrDefault(scheduledCaps) && this.heldCaps == OrDefault(heldCaps)
    {
      this.store, this.holdUnrouted := store, holdUnrouted;
      this.scheduledCaps, this.heldCaps := OrDefault(scheduledCaps), OrDefault(heldCaps);
    }

    /** The verdict on a key nobody has used, as this service is configured. */
    function Verdict(db: Db, e: Envelope, now: Time, targets: Result<seq<Target>, ResolveError>): Result<bool, SubmitError>
    {
      NewVerdict(db, e, now, targets, holdUnrouted, scheduledCaps, heldCaps)
    }

    /** A replace answered by r swapped the row named there for e, on base. */
    ghost predicate ReplacedOne(base: Db, after: Db, r: Result<SubmitOutcome, SubmitError>, e: Envelope,
                                now: Time, resolver: Resolver)
    {
      r.Ok? && r.value.replaced ==>
        && !r.value.duplicate && Resolve(resolver, 0).Ok? && r.value.id in base.messages
        && StatusOf(base, r.value.id) == StatusScheduled
        && after == Replaced(base, r.value.id, e, Resolve(resolver, 0).value, now)
        && SwappedTo(base, after, r.value.id, e, Resolve(resolver, 0).value, now)
        && (r.value.scheduled <==> e.deliverAt.Some? && now < e.deliverAt.value)
    }

    /** A new message answered by r was stored as the verdict on base says. */
    ghost predicate StoredOne(base: Db, after: Db, r: Result<SubmitOutcome, SubmitError>, e: Envelope,
                              now: Time, clock: Time, resolver: Resolver)
    {
      r.Ok? && !r.value.duplicate && !r.value.replaced ==>
        && FreeKey(base, e) && r.value.id == base.nextMessage
        && Verdict(base, e, now, Resolve(resolver, 1)) == Ok(r.value.held)
        && after == NewTables(base, e, now, clock, Resolve(resolver, 1), r.value.held)
        && StoredNew(base, after, e, now, clock, if r.value.held then [] else Resolve(resolver, 1).value, r.value.held)
        && (r.value.scheduled <==> !r.value.held && e.deliverAt.Some? && now < e.deliverAt.value)
    }

    /** Nothing changes on a duplicate or an error, and an answer names the row with the key. */
    ghost predicate SaysTruly(base: Db, after: Db, r: Result<SubmitOutcome, SubmitError>, e: Envelope)
    {
      && (r.Err? || r.value.duplicate ==> after == base)
      && (r.Ok? ==> Names(after, r.value, e) && (r.value.scheduled ==> StatusOf(after, r.value.id) == StatusScheduled))
    }

    /** One point lookup by key. */
    method GetMessageByKey(e: Envelope) returns (found: Option<nat>)
      ensures found.None? <==> FreeKey(store.Tables(), e)
      ensures found.Some? ==> found.value in store.messages && SameKey(store.messages[found.value].envelope, e)
    {
      if m :| m in store.messages && SameKey(store.messages[m].envelope, e) {
        return Some(m);
      }
      found := None;
    }

    method Outcome(id: nat, duplicate: bool, replaced: bool) returns (o: SubmitOutcome)
      requires id in store.messages
      ensures o == SubmitOutcome(id, duplicate, replaced, StatusOf(store.Tables(), id) == StatusScheduled, false)
    {
      var states := store.LoadStates(id);
      var status := DeriveStatus(states, MarksOf(store.messages[id]));
      o := SubmitOutcome(id, duplicate, replaced, status == StatusScheduled, false);
    }

    /** Swap in the new content, unless the message meanwhile left or vanished. None means it vanished. */
    method ReplaceExisting(e: Envelope, targets: seq<Target>, now: Time, others: Others)
      returns (r: Option<Result<SubmitOutcome, SubmitError>>, ghost base: Db)
      requires Valid(store.Tables()) && KeepValid(others) && targets != [] && e.payload.Some?
      modifies store
      ensures Valid(store.Tables())
      ensures Alone(others) && !FreeKey(old(store.Tables()), e) ==> base == old(store.Tables()) && r.Some?
      ensures r.Some? && r.value.Ok? && r.value.value.replaced ==>
        var o := r.value.value;
        && o.id in base.messages && StatusOf(base, o.id) == StatusScheduled
        && !o.duplicate && SameKey(base.messages[o.id].envelope, e)
        && store.Tables() == Replaced(base, o.id, e, targets, now)
        && SwappedTo(base, store.Tables(), o.id, e, targets, now)
      ensures r.None? || r.value.Err? || !r.value.value.replaced ==> store.Tables() == base
      ensures r.Some? && r.value.Ok? ==>
        && (r.value.value.duplicate <==> !r.value.value.replaced) && !r.value.value.held
        && Names(store.Tables(), r.value.value, e)
        && (r.value.value.scheduled <==> StatusOf(store.Tables(), r.value.value.id) == StatusScheduled)
        && (r.value.value.replaced || (Alone(others) && !FreeKey(old(store.Tables()), e)) ==> Answered(store.Tables(), e))
      ensures r.Some? && r.value.Err? ==> r.value.error == Refused(NowUnset)
      ensures r.Some? && r.value.Err? <==> now == 0
    {
      store.Commit(others(1, store.Tables()));
      base := store.Tables();
      var replaced := store.ReplaceScheduledMessage(e, targets, now);
      if replaced.Err? { return Some(Err(Refused(replaced.error))), base; }
      if replaced.value.None? {
        store.Commit(others(2, store.Tables()));
        base := store.Tables();
        var current := GetMessageByKey(e);
        if current.None? { return None, base; }
        var outcome := Outcome(current.value, true, false);
        return Some(Ok(outcome)), base;
      }
      var (id, moved) := replaced.value.value;
      if moved { ReplaceAnswers(base, id, e, targets, now); } else { AnsweredBy(store.Tables(), e, id); }
      var outcome := Outcome(id, !moved, moved);
      return Some(Ok(outcome)), base;
    }

    /**
     * A key that exists. None means the message vanished before it could be replaced. The tables
     * before this submit's own write, if it makes one, are returned in base.
     */
    method SubmitExisting(e: Envelope, existing: nat, now: Time, resolver: Resolver, others: Others)
      returns (r: Option<Result<SubmitOutcome, SubmitError>>, ghost base: Db)
      requires Valid(store.Tables()) && KeepValid(others)
      requires existing in store.messages && SameKey(store.messages[existing].envelope, e) && e.payload.Some?
      modifies store
      ensures Valid(store.Tables())
      ensures Alone(others) ==> base == old(store.Tables()) && r.Some?
      ensures r.Some? ==>
        SaysTruly(base, store.Tables(), r.value, e) && ReplacedOne(base, store.Tables(), r.value, e, now, resolver)
      ensures r.None? || r.value.Err? || !r.value.value.replaced ==> store.Tables() == base
      ensures r.Some? && r.value.Ok? ==>
        && (r.value.value.duplicate <==> !r.value.value.replaced) && !r.value.value.held
        && Names(store.Tables(), r.value.value, e)
        && (r.value.value.scheduled <==> StatusOf(store.Tables(), r.value.value.id) == StatusScheduled)
        && (Alone(others) || r.value.value.replaced ==> Answered(store.Tables(), e))
      ensures Answered(old(store.Tables()), e) ==>
        r.Some? && r.value.Ok? && r.value.value.duplicate && store.Tables() == old(store.Tables())
      ensures !Answered(old(store.Tables()), e) && Resolve(resolver, 0).Err? ==>
        r == Some(Err(Unresolved(Resolve(resolver, 0).error)))
      ensures !Answered(old(store.Tables()), e) && Resolve(resolver, 0).Ok? && now == 0 ==> r == Some(Err(Refused(NowUnset)))
      ensures !Answered(old(store.Tables()), e) && Resolve(resolver, 0).Ok? && now != 0 ==>
        (r.Some? ==> r.value.Ok?) && (Alone(others) ==> r.Some? && r.value.value.replaced)
    {
      base := store.Tables();
      var states := store.LoadStates(existing);
      var status := DeriveStatus(states, MarksOf(store.messages[existing]));
      if status != StatusScheduled || SameContent(store.messages[existing].envelope, e) {
        AnsweredBy(store.Tables(), e, existing);
        var outcome := Outcome(existing, true, false);
        return Some(Ok(outcome)), base;
      }
      assert !Answered(store.Tables(), e);
      var targets := Resolve(resolver, 0);
      if targets.Err? { return Some(Err(Unresolved(targets.error))), base; }
      r, base := ReplaceExisting(e, targets.value, now, others);
    }

    /** A key that is not there: resolve, then hold, schedule or insert. */
    method SubmitNew(e: Envelope, now: Time, clock: Time, resolver: Resolver, others: Others)
      returns (r: Result<SubmitOutcome, SubmitError>, ghost base: Db)
      requires Valid(store.Tables()) && KeepValid(others) && e.payload.Some?
      modifies store
      ensures Valid(store.Tables())
      ensures Alone(others) ==> base == old(store.Tables())
      ensures SaysTruly(base, store.Tables(), r, e) && StoredOne(base, store.Tables(), r, e, now, clock, resolver)
      ensures r.Ok? ==> !r.value.replaced && (FreeKey(base, e) <==> !r.value.duplicate)
      ensures r.Ok? ==> (r.value.scheduled <==>
        Resolve(resolver, 1).Ok? && StatusOf(store.Tables(), r.value.id) == StatusScheduled)
      ensures FreeKey(base, e) && Verdict(base, e, now, Resolve(resolver, 1)).Err? ==>
        r == Err(Verdict(base, e, now, Resolve(resolver, 1)).error)
      ensures FreeKey(base, e) && Verdict(base, e, now, Resolve(resolver, 1)).Ok? ==>
        var held := Verdict(base, e, now, Resolve(resolver, 1)).value;
        && r == Ok(SubmitOutcome(base.nextMessage, false, false, !held && IsFuture(e.deliverAt, now), held))
        && store.Tables() == NewTables(base, e, now, clock, Resolve(resolver, 1), held)
        && StoredNew(base, store.Tables(), e, now, clock, if held then [] else Resolve(resolver, 1).value, held)
        && Answered(store.Tables(), e)
      ensures !FreeKey(base, e) && r.Err? ==>
        Resolve(resolver, 1).Err? && (r.error == Unresolved(Resolve(resolver, 1).error) || (r.error == Refused(NowUnset) && now == 0))
    {
      var targets := Resolve(resolver, 1);
      store.Commit(others(3, store.Tables()));
      base := store.Tables();
      if targets.Err? {
        if !(targets.error == NoDestinationMatched && MayHold(e, holdUnrouted)) {
          return Err(Unresolved(targets.error)), base;
        }
        var held := store.InsertHeldMessage(e, heldCaps, now, clock);
        if held.Err? { return Err(Refused(held.error)), base; }
        if held.value.Stored? {
          InsertAnswers(base, e, NewMessage(e, clock, Some(now)), [], Schedule(Pending, clock, clock));
        }
        return Ok(SubmitOutcome(held.value.id, held.value.Duplicate?, false, false, held.value.Stored?)), base;
      }
      var inserted;
      if IsFuture(e.deliverAt, now) {
        inserted := store.InsertScheduledMessage(e, targets.value, scheduledCaps, clock);
      } else {
        inserted := store.InsertMessage(e, targets.value, clock);
      }
      if inserted.Err? { return Err(Refused(inserted.error)), base; }
      if inserted.value.Stored? { InsertedStatus(base, e, now, clock, targets.value); }
      var outcome := Outcome(inserted.value.id, inserted.value.Duplicate?, false);
      return Ok(outcome), base;
    }

    /** The answer when nobody else writes, told from the tables before. */
    ghost predicate AnswersExactly(before: Db, r: Result<SubmitOutcome, SubmitError>, e: Envelope, now: Time, resolver: Resolver)
    {
      && (FreeKey(before, e) ==>
            var verdict := Verdict(before, e, now, Resolve(resolver, 1));
            if verdict.Err? then r == Err(verdict.error) else r.Ok? && !r.value.duplicate && !r.value.replaced)
      && (Differs(before, e) ==>
            if Resolve(resolver, 0).Err? then r == Err(Unresolved(Resolve(resolver, 0).error))
            else if now == 0 then r == Err(Refused(NowUnset)) else r.Ok? && r.value.replaced)
    }

    /** Only a submit that was to be held and met its key taken meanwhile does not look at that row's schedule. */
    ghost predicate SaysScheduled(after: Db, r: Result<SubmitOutcome, SubmitError>, resolver: Resolver, others: Others)
      requires r.Ok? ==> r.value.id in after.messages
    {
      r.Ok? && StatusOf(after, r.value.id) == StatusScheduled && !r.value.scheduled ==>
        r.value.duplicate && Resolve(resolver, 1).Err? && !Alone(others)
    }

    /** A valid envelope whose recipient is a hash. */
    method SubmitHashed(e: Envelope, now: Time, clock: Time, resolver: Resolver, others: Others)
      returns (r: Result<SubmitOutcome, SubmitError>, ghost base: Db)
      requires Valid(store.Tables()) && KeepValid(others) && e.payload.Some?
      modifies store
      ensures Valid(store.Tables()) && r != Err(InvalidEnvelope)
      ensures SaysTruly(base, store.Tables(), r, e) && ReplacedOne(base, store.Tables(), r, e, now, resolver)
      ensures StoredOne(base, store.Tables(), r, e, now, clock, resolver)
      ensures SaysScheduled(store.Tables(), r, resolver, others)
      ensures Alone(others) ==> base == old(store.Tables()) && AnswersExactly(base, r, e, now, resolver)
      ensures Answered(old(store.Tables()), e) ==> r.Ok? && r.value.duplicate && store.Tables() == old(store.Tables())
      ensures r.Ok? && (Alone(others) || !r.value.duplicate) ==> Answered(store.Tables(), e)
    {
      var existing := GetMessageByKey(e);
      if existing.Some? {
        var settled, before := SubmitExisting(e, existing.value, now, resolver, others);
        if settled.Some? { return settled.value, before; }
      }
      r, base := SubmitNew(e, now, clock, resolver, others);
    }

    /**
     * One submit makes at most one row change of its own, made on base, whatever commits around it;
     * an answer of duplicate or an error makes none. With nobody around, the answer is exact.
     */
    method Submit(submitted: Envelope, fields: FieldRules, hash: PersonHash, now: Time, clock: Time,
                  resolver: Resolver, others: Others)
      returns (r: Result<SubmitOutcome, SubmitError>, ghost base: Db)
      requires Valid(store.Tables()) && KeepValid(others)
      modifies store
      ensures Valid(store.Tables())
      ensures r == Err(InvalidEnvelope) <==>
        || submitted.payload.None? || !submitted.payload.value.Object?
        || (submitted.toDestination != "" && submitted.toRecipient != "")
        || (submitted.deliverAt.Some? && (submitted.deliverAt.value <= 0 || MAX_DELIVER_AT < submitted.deliverAt.value))
        || !fields(submitted)
      ensures r == Err(InvalidEnvelope) || Alone(others) ==> base == old(store.Tables())
      ensures SaysTruly(base, store.Tables(), r, Hashed(submitted, hash))
      ensures ReplacedOne(base, store.Tables(), r, Hashed(submitted, hash), now, resolver)
      ensures StoredOne(base, store.Tables(), r, Hashed(submitted, hash), now, clock, resolver)
      ensures SaysScheduled(store.Tables(), r, resolver, others)
      ensures r != Err(InvalidEnvelope) && Alone(others) ==>
        AnswersExactly(old(store.Tables()), r, Hashed(submitted, hash), now, resolver)
      ensures r != Err(InvalidEnvelope) && Answered(old(store.Tables()), Hashed(submitted, hash)) ==>
        r.Ok? && r.value.duplicate && store.Tables() == old(store.Tables())
      ensures r.Ok? && (Alone(others) || !r.value.duplicate) ==> Answered(store.Tables(), Hashed(submitted, hash))
    {
      base := store.Tables();
      if !ValidEnvelope(submitted, fields) { return Err(InvalidEnvelope), base; }
      r, base := SubmitHashed(Hashed(submitted, hash), now, clock, resolver, others);
    }

    /** Retrying the same content, however spelled, at any later time is a duplicate that changes nothing. */
    method SubmitTwice(first: Envelope, retry: Envelope, fields: FieldRules, hash: PersonHash, resolver: Resolver,
                       now: Time, clock: Time, later: Time, laterClock: Time, laterResolver: Resolver)
      returns (r1: Result<SubmitOutcome, SubmitError>, r2: Result<SubmitOutcome, SubmitError>, ghost between: Db)
      requires Valid(store.Tables())
      requires SameKey(first, retry) && SameContent(Hashed(first, hash), Hashed(retry, hash))
      modifies store
      ensures r1.Ok? && ValidEnvelope(retry, fields) ==> r2.Ok? && r2.value.duplicate && store.Tables() == between
      ensures ValidEnvelope(first, fields) && FreeKey(old(store.Tables()), Hashed(first, hash)) ==>
        (r1.Ok? <==> Verdict(old(store.Tables()), Hashed(first, hash), now, Resolve(resolver, 1)).Ok?)
    {
      var nobody: Others := (k, db) => db;
      ghost var base;
      r1, base := Submit(first, fields, hash, now, clock, resolver, nobody);
      between := store.Tables();
      if r1.Ok? { AnsweredForSameContent(between, Hashed(first, hash), Hashed(retry, hash)); }
      r2, base := Submit(retry, fields, hash, later, laterClock, laterResolver, nobody);
    }
  }
}
