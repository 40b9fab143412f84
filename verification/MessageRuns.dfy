// Every interleaving of the message transactions: inserts under their advisory
// locks, replaces, cancels and releases under row locks, claims, records,
// replays and retention (delivery-api/internal/message, READ COMMITTED).
module MessageRuns {
  import opened Common
  import opened MessageTables
  import opened MessageCounts

  // ----- Open transactions ----------------------------------------------------

  datatype Kind = Immediate | Capped(family: Family)

  /** How far an insert transaction is; it holds what the earlier phases took. */
  datatype InsertPhase = WantGlobal | WantApp | WantRow | Conflicted | HasRow | AppCounted | TotalCounted

  datatype Decision = LeaveAlone | MoveHeld | MoveScheduled

  datatype RowPhase = WantLock | Holding(id: nat) | Decided(id: nat, decision: Decision)

  datatype Tx =
    | InsertTx(kind: Kind, message: Message, targets: seq<Target>, schedule: Schedule, insertPhase: InsertPhase)
    | ReplaceTx(envelope: Envelope, replacements: seq<Target>, at: Time, phase: RowPhase)
    | CancelTx(wanted: nat, at: Time, phase: RowPhase)
    | ReleaseTx(candidates: set<nat>, at: Time, locked: Option<set<nat>>)

  datatype Config = Config(scheduledPerApp: nat, scheduledTotal: nat, heldPerApp: nat, heldTotal: nat)

  function PerApp(c: Config, f: Family): nat { if f == ScheduledFamily then c.scheduledPerApp else c.heldPerApp }

  function Total(c: Config, f: Family): nat { if f == ScheduledFamily then c.scheduledTotal else c.heldTotal }

  /** Committed tables, open transactions, and which messages were ever released, cancelled or claimed. */
  datatype Sys = Sys(
    db: Db, txs: map<nat, Tx>, released: set<nat>, cancelled: set<nat>, claimed: set<nat>)

  const EMPTY: Sys := Sys(Db(map[], map[], 0, 0), map[], {}, {}, {})

  // ----- Locks ----------------------------------------------------------------

  predicate HoldsGlobal(tx: Tx, f: Family)
  {
    tx.InsertTx? && tx.kind == Capped(f) && tx.insertPhase != WantGlobal
  }

  predicate HoldsApp(tx: Tx, f: Family, app: string)
  {
    HoldsGlobal(tx, f) && tx.insertPhase != WantApp && tx.message.envelope.appId == app
  }

  predicate HasUncommittedRow(tx: Tx)
  {
    tx.InsertTx? && tx.insertPhase in {HasRow, AppCounted, TotalCounted}
  }

  predicate HoldsKey(tx: Tx, envelope: Envelope)
  {
    HasUncommittedRow(tx) && SameKey(tx.message.envelope, envelope)
  }

  function LockedRows(tx: Tx): set<nat>
  {
    match tx
    case InsertTx(_, _, _, _, _) => {}
    case ReleaseTx(_, _, locked) => if locked.Some? then locked.value else {}
    case _ => if tx.phase == WantLock then {} else {tx.phase.id}
  }

  /** Two open transactions never hold one lock. */
  predicate Compatible(a: Tx, b: Tx)
  {
    && (forall f :: !(HoldsGlobal(a, f) && HoldsGlobal(b, f)))
    && !(HasUncommittedRow(b) && HoldsKey(a, b.message.envelope))
    && LockedRows(a) !! LockedRows(b)
  }

  // ----- Steps ------------------------------------------------------------------

  datatype Action =
    | Begin(t: nat, tx: Tx)
    | Abort(t: nat)
    | TakeGlobal(t: nat) | TakeApp(t: nat) | InsertRow(t: nat) | CountApp(t: nat) | CountTotal(t: nat) | Commit(t: nat)
    | LockRow(t: nat, id: nat) | Decide(t: nat) | Write(t: nat)
    | LockCandidates(t: nat) | Release(t: nat)
    | Claim(d: nat, readAt: Time, lease: Time)
    | Record(d: nat, result: AttemptResult, clock: Time)
    | Replay(d: nat, now: Time)
    | Sweep(ids: set<nat>)

  /** A transaction as it opens; a release has already probed, without a lock. */
  predicate Opening(db: Db, tx: Tx)
  {
    match tx
    case InsertTx(kind, message, targets, schedule, phase) =>
      && Insertable(message, targets, schedule)
      && (if kind == Immediate then phase == WantRow && schedule.state == Pending && message.heldAt.None?
          else phase == WantGlobal && Joins(message, targets, schedule, kind.family))
    case ReplaceTx(_, targets, _, phase) => phase == WantLock && targets != []
    case CancelTx(_, _, phase) => phase == WantLock
    case ReleaseTx(candidates, now, locked) =>
      locked == None && candidates <= ReleasedIds(db, db.messages.Keys, now)
  }

  predicate Wants(tx: Tx, id: nat, m: Message)
  {
    if tx.ReplaceTx? then SameKey(tx.envelope, m.envelope) else tx.CancelTx? && tx.wanted == id
  }

  function DecisionOn(db: Db, tx: Tx, id: nat): Decision
    requires id in db.messages
  {
    var m := db.messages[id];
    if tx.CancelTx? && m.cancelledAt.None? && m.releaseFailedAt.None? && m.heldAt.Some? then MoveHeld
    else if StatusOf(db, id) == StatusScheduled then MoveScheduled
    else LeaveAlone
  }

  predicate OthersFree(s: Sys, t: nat, id: nat)
  {
    forall u :: u in s.txs && u != t ==> id !in LockedRows(s.txs[u])
  }

  predicate InsertingAt(s: Sys, t: nat, phase: InsertPhase)
  {
    t in s.txs && s.txs[t].InsertTx? && s.txs[t].insertPhase == phase
    && (phase in {WantGlobal, WantApp, AppCounted} ==> s.txs[t].kind.Capped?)
  }

  predicate RowTx(s: Sys, t: nat) { t in s.txs && (s.txs[t].ReplaceTx? || s.txs[t].CancelTx?) }

  predicate Enabled(s: Sys, a: Action)
  {
    match a
    case Begin(t, tx) => t !in s.txs && Opening(s.db, tx)
    case Abort(t) => t in s.txs
    case TakeGlobal(t) => InsertingAt(s, t, WantGlobal) &&
      forall u :: u in s.txs ==> !HoldsGlobal(s.txs[u], s.txs[t].kind.family)
    case TakeApp(t) => InsertingAt(s, t, WantApp) &&
      forall u :: u in s.txs && u != t ==> !HoldsApp(s.txs[u], s.txs[t].kind.family, s.txs[t].message.envelope.appId)
    // ON CONFLICT waits for another transaction's uncommitted row with the same key.
    case InsertRow(t) => InsertingAt(s, t, WantRow) &&
      forall u :: u in s.txs && u != t ==> !HoldsKey(s.txs[u], s.txs[t].message.envelope)
    case CountApp(t) => InsertingAt(s, t, HasRow) && s.txs[t].kind.Capped?
    case CountTotal(t) => InsertingAt(s, t, AppCounted)
    case Commit(t) => InsertingAt(s, t, TotalCounted) || (InsertingAt(s, t, HasRow) && s.txs[t].kind == Immediate)
    case LockRow(t, id) => RowTx(s, t) && s.txs[t].phase == WantLock
      && id in s.db.messages && Wants(s.txs[t], id, s.db.messages[id]) && OthersFree(s, t, id)
    case Decide(t) => RowTx(s, t) && s.txs[t].phase.Holding? && s.txs[t].phase.id in s.db.messages
    case Write(t) => RowTx(s, t) && s.txs[t].phase.Decided? && s.txs[t].phase.id in s.db.messages
    case LockCandidates(t) => t in s.txs && s.txs[t].ReleaseTx? && s.txs[t].locked == None
    case Release(t) => t in s.txs && s.txs[t].ReleaseTx? && s.txs[t].locked.Some?
    case Claim(d, readAt, lease) =>
      d in s.db.deliveries && s.db.deliveries[d].state == Pending && s.db.deliveries[d].nextAttemptAt <= readAt
    case Record(d, result, _) => d in s.db.deliveries && s.db.deliveries[d].state == Pending && ValidResult(result)
    case Replay(d, _) => d in s.db.deliveries && s.db.deliveries[d].state == Dead
    case Sweep(ids) => forall u :: u in s.txs ==> ids !! LockedRows(s.txs[u])
  }

  /** SKIP LOCKED: the candidates that exist and that nobody else holds. */
  function Lockable(s: Sys, t: nat, candidates: set<nat>): set<nat>
  {
    set id | id in candidates && id in s.db.messages && OthersFree(s, t, id)
  }

  function Written(db: Db, tx: Tx, id: nat, decision: Decision): Db
    requires id in db.messages && !tx.InsertTx? && !tx.ReleaseTx?
  {
    match decision
    case LeaveAlone => db
    case MoveHeld => if tx.CancelTx? then CancelHeld(db, id, tx.at) else db
    case MoveScheduled =>
      if tx.CancelTx? then CancelScheduled(db, id, tx.at)
      else Replaced(db, id, tx.envelope, tx.replacements, tx.at)
  }

  function WithRow(db: Db, d: nat, row: Delivery): Db { db.(deliveries := db.deliveries[d := row]) }

  function Next(c: Config, s: Sys, a: Action): Sys
    requires Enabled(s, a)
  {
    match a
    case Begin(t, tx) => s.(txs := s.txs[t := tx])
    case Abort(t) => s.(txs := s.txs - {t})
    case TakeGlobal(t) => s.(txs := s.txs[t := s.txs[t].(insertPhase := WantApp)])
    case TakeApp(t) => s.(txs := s.txs[t := s.txs[t].(insertPhase := WantRow)])
    case InsertRow(t) =>
      var phase := if FreeKey(s.db, s.txs[t].message.envelope) then HasRow else Conflicted;
      s.(txs := s.txs[t := s.txs[t].(insertPhase := phase)])
    // The counts see the committed rows and the transaction's own; over a cap it rolls back.
    case CountApp(t) =>
      var tx := s.txs[t];
      if AppCount(s.db, tx.kind.family, tx.message.envelope.appId) + 1 > PerApp(c, tx.kind.family)
      then s.(txs := s.txs - {t}) else s.(txs := s.txs[t := tx.(insertPhase := AppCounted)])
    case CountTotal(t) =>
      var tx := s.txs[t];
      if TotalCount(s.db, tx.kind.family) + 1 > Total(c, tx.kind.family)
      then s.(txs := s.txs - {t}) else s.(txs := s.txs[t := tx.(insertPhase := TotalCounted)])
    case Commit(t) =>
      var tx := s.txs[t];
      s.(db := Inserted(s.db, tx.message, tx.targets, tx.schedule), txs := s.txs - {t})
    case LockRow(t, id) => s.(txs := s.txs[t := s.txs[t].(phase := Holding(id))])
    case Decide(t) =>
      var id := s.txs[t].phase.id;
      s.(txs := s.txs[t := s.txs[t].(phase := Decided(id, DecisionOn(s.db, s.txs[t], id)))])
    case Write(t) =>
      var tx := s.txs[t];
      s.(db := Written(s.db, tx, tx.phase.id, tx.phase.decision), txs := s.txs - {t},
         cancelled := s.cancelled + (if tx.CancelTx? && tx.phase.decision != LeaveAlone then {tx.phase.id} else {}))
    case LockCandidates(t) =>
      s.(txs := s.txs[t := s.txs[t].(locked := Some(Lockable(s, t, s.txs[t].candidates)))])
    case Release(t) =>
      var tx := s.txs[t];
      s.(db := Released(s.db, tx.locked.value, tx.at), txs := s.txs - {t},
         released := s.released + ReleasedIds(s.db, tx.locked.value, tx.at))
    case Claim(d, readAt, lease) =>
      s.(db := WithRow(s.db, d, Leased(s.db.deliveries[d], readAt + lease)),
         claimed := s.claimed + {s.db.deliveries[d].messageId})
    case Record(d, result, clock) => s.(db := WithRow(s.db, d, Recorded(s.db.deliveries[d], result, clock)))
    case Replay(d, now) => s.(db := WithRow(s.db, d, Replayed(s.db.deliveries[d], now)))
    case Sweep(ids) => s.(db := Removed(s.db, ids))
  }

  // ----- The invariant ----------------------------------------------------------

  ghost predicate WithinCaps(c: Config, db: Db)
  {
    && (forall f: Family :: TotalCount(db, f) <= Total(c, f))
    && forall f: Family, app: string :: AppCount(db, f, app) <= PerApp(c, f)
  }

  /** What a row transaction knows of the row it holds. */
  predicate HoldsTruth(db: Db, tx: Tx)
    requires tx.ReplaceTx? || tx.CancelTx?
  {
    tx.phase != WantLock ==>
      var id := tx.phase.id;
      && id in db.messages && Wants(tx, id, db.messages[id])
      && (tx.phase.Decided? ==>
            && (tx.phase.decision == MoveHeld ==> tx.CancelTx? && IsHeld(db, id))
            && (tx.phase.decision == MoveScheduled ==> StatusOf(db, id) == StatusScheduled))
  }

  /** What an insert transaction knows: its key is free and the counts it read leave room. */
  predicate InsertTruth(c: Config, db: Db, tx: Tx)
    requires tx.InsertTx?
  {
    && Insertable(tx.message, tx.targets, tx.schedule)
    && (if tx.kind == Immediate
        then tx.insertPhase in {WantRow, Conflicted, HasRow} && tx.schedule.state == Pending && tx.message.heldAt.None?
        else Joins(tx.message, tx.targets, tx.schedule, tx.kind.family))
    && (HasUncommittedRow(tx) ==> FreeKey(db, tx.message.envelope))
    && (tx.insertPhase in {AppCounted, TotalCounted} ==>
          AppCount(db, tx.kind.family, tx.message.envelope.appId) + 1 <= PerApp(c, tx.kind.family))
    && (tx.insertPhase == TotalCounted ==> TotalCount(db, tx.kind.family) + 1 <= Total(c, tx.kind.family))
  }

  predicate TxOk(c: Config, db: Db, tx: Tx)
  {
    match tx
    case InsertTx(_, _, _, _, _) => InsertTruth(c, db, tx)
    case ReleaseTx(_, _, _) => true
    case _ => HoldsTruth(db, tx) && (tx.ReplaceTx? ==> tx.replacements != [])
  }

  /** The message is not waiting and never will be again. */
  predicate Left(db: Db, id: nat)
  {
    id < db.nextMessage && !IsScheduled(db, id) && !IsHeld(db, id)
  }

  ghost predicate HistoryOk(s: Sys)
  {
    && (forall id :: id in s.released + s.cancelled + s.claimed ==> Left(s.db, id))
    && (forall id :: id in s.db.messages ==> (id in s.cancelled <==> s.db.messages[id].cancelledAt.Some?))
    && s.released !! s.cancelled
    && s.claimed !! s.cancelled
  }

  ghost predicate Inv(c: Config, s: Sys)
  {
    && Valid(s.db)
    && WithinCaps(c, s.db)
    && (forall t :: t in s.txs ==> TxOk(c, s.db, s.txs[t]))
    && (forall t, u {:trigger Compatible(s.txs[t], s.txs[u])} :: t in s.txs && u in s.txs && t != u ==>
          Compatible(s.txs[t], s.txs[u]))
    && HistoryOk(s)
  }

  // ----- Stability: what one transaction knows survives the others -----------------

  /** The row as a transaction that holds it sees it did not move. */
  predicate RowKept(before: Db, after: Db, id: nat)
  {
    id in before.messages ==>
      && id in after.messages && SameKey(after.messages[id].envelope, before.messages[id].envelope)
      && (IsHeld(before, id) ==> IsHeld(after, id))
      && (StatusOf(before, id) == StatusScheduled ==> StatusOf(after, id) == StatusScheduled)
  }

  ghost predicate KeysKept(before: Db, after: Db)
  {
    forall m :: m in after.messages ==>
      m in before.messages && SameKey(after.messages[m].envelope, before.messages[m].envelope)
  }

  lemma TxOkStable(c: Config, before: Db, after: Db, tx: Tx)
    requires TxOk(c, before, tx) && Shrinks(before, after) && KeysKept(before, after)
    requires forall id :: id in LockedRows(tx) ==> RowKept(before, after, id)
    ensures TxOk(c, after, tx)
  {
    if tx.InsertTx? {
      if tx.kind.Capped? { CountsShrink(before, after, tx.kind.family, tx.message.envelope.appId); }
      if HasUncommittedRow(tx) {
        forall m | m in after.messages ensures !SameKey(after.messages[m].envelope, tx.message.envelope) {
          assert !SameKey(before.messages[m].envelope, tx.message.envelope);
        }
      }
    } else if !tx.ReleaseTx? && tx.phase != WantLock {
      assert tx.phase.id in LockedRows(tx);
      assert RowKept(before, after, tx.phase.id);
    }
  }

  /** A step that shrinks the tables and respects row locks keeps everything but its own history. */
  lemma ShrinkKeeps(c: Config, s: Sys, after: Db, txs: map<nat, Tx>)
    requires Inv(c, s) && Valid(after) && Shrinks(s.db, after) && KeysKept(s.db, after)
    requires txs.Keys <= s.txs.Keys && forall t :: t in txs ==> txs[t] == s.txs[t]
    requires forall t, id :: t in txs && id in LockedRows(txs[t]) ==> RowKept(s.db, after, id)
    ensures WithinCaps(c, after)
    ensures forall t :: t in txs ==> TxOk(c, after, txs[t])
    ensures forall t, u {:trigger Compatible(txs[t], txs[u])} :: t in txs && u in txs && t != u ==> Compatible(txs[t], txs[u])
  {
    forall f: Family ensures TotalCount(after, f) <= Total(c, f) { CountsShrink(s.db, after, f, ""); }
    forall f: Family, app: string ensures AppCount(after, f, app) <= PerApp(c, f) { CountsShrink(s.db, after, f, app); }
    forall t | t in txs ensures TxOk(c, after, txs[t]) { TxOkStable(c, s.db, after, txs[t]); }
    forall t, u | t in txs && u in txs && t != u ensures Compatible(txs[t], txs[u]) {
      assert Compatible(s.txs[t], s.txs[u]);
    }
  }

  lemma SameStates(before: Db, after: Db, m: nat)
    requires DeliveriesOf(before, m) == DeliveriesOf(after, m)
    requires forall d | d in DeliveriesOf(before, m) :: after.deliveries[d].state == before.deliveries[d].state
    ensures StatesOf(after, m) == StatesOf(before, m)
  {
    forall x ensures x in StatesOf(after, m) <==> x in StatesOf(before, m) {
      if x in StatesOf(before, m) {
        var d :| d in DeliveriesOf(before, m) && before.deliveries[d].state == x;
        assert d in DeliveriesOf(after, m);
      }
      if x in StatesOf(after, m) {
        var d :| d in DeliveriesOf(after, m) && after.deliveries[d].state == x;
        assert d in DeliveriesOf(before, m);
      }
    }
  }

  // ----- Every step keeps the invariant ------------------------------------------

  /** Only transaction t moved. */
  lemma TxUpdateKeeps(c: Config, s: Sys, t: nat, tx: Tx)
    requires Inv(c, s) && TxOk(c, s.db, tx)
    requires forall u :: u in s.txs && u != t ==> Compatible(tx, s.txs[u]) && Compatible(s.txs[u], tx)
    ensures Inv(c, s.(txs := s.txs[t := tx]))
  {
    var txs := s.txs[t := tx];
    forall a, b | a in txs && b in txs && a != b ensures Compatible(txs[a], txs[b]) {
      if a != t && b != t { assert Compatible(s.txs[a], s.txs[b]); }
    }
  }

  /** An insert moved to a phase whose new locks nobody else holds. */
  lemma PhaseKeeps(c: Config, s: Sys, t: nat, phase: InsertPhase)
    requires Inv(c, s) && t in s.txs && s.txs[t].InsertTx?
    requires TxOk(c, s.db, s.txs[t].(insertPhase := phase))
    requires phase == WantApp ==> forall u, f :: u in s.txs && HoldsGlobal(s.txs[t].(insertPhase := phase), f) ==>
      !HoldsGlobal(s.txs[u], f)
    requires phase != WantApp ==> s.txs[t].insertPhase != WantGlobal
    requires phase == HasRow ==> forall u :: u in s.txs && u != t ==> !HoldsKey(s.txs[u], s.txs[t].message.envelope)
    requires phase in {AppCounted, TotalCounted} ==> HasUncommittedRow(s.txs[t])
    ensures Inv(c, s.(txs := s.txs[t := s.txs[t].(insertPhase := phase)]))
  {
    var tx := s.txs[t].(insertPhase := phase);
    forall u | u in s.txs && u != t ensures Compatible(tx, s.txs[u]) && Compatible(s.txs[u], tx) {
      assert Compatible(s.txs[t], s.txs[u]) && Compatible(s.txs[u], s.txs[t]);
    }
    TxUpdateKeeps(c, s, t, tx);
  }

  lemma BeginKeeps(c: Config, s: Sys, t: nat, tx: Tx)
    requires Inv(c, s) && Enabled(s, Begin(t, tx))
    ensures Inv(c, Next(c, s, Begin(t, tx)))
  {
    TxUpdateKeeps(c, s, t, tx);
  }

  lemma AbortKeeps(c: Config, s: Sys, t: nat)
    requires Inv(c, s)
    ensures Inv(c, s.(txs := s.txs - {t}))
  {
    var txs := s.txs - {t};
    forall a, b | a in txs && b in txs && a != b ensures Compatible(txs[a], txs[b]) {
      assert Compatible(s.txs[a], s.txs[b]);
    }
  }

  lemma InsertStepsKeep(c: Config, s: Sys, a: Action)
    requires Inv(c, s) && Enabled(s, a)
    requires a.TakeGlobal? || a.TakeApp? || a.InsertRow? || a.CountApp? || a.CountTotal?
    ensures Inv(c, Next(c, s, a))
  {
    assert TxOk(c, s.db, s.txs[a.t]);
    AbortKeeps(c, s, a.t);
    match a
    case TakeGlobal(t) => PhaseKeeps(c, s, t, WantApp);
    case TakeApp(t) => PhaseKeeps(c, s, t, WantRow);
    case InsertRow(t) => PhaseKeeps(c, s, t, if FreeKey(s.db, s.txs[t].message.envelope) then HasRow else Conflicted);
    case CountApp(t) =>
      var tx := s.txs[t];
      if AppCount(s.db, tx.kind.family, tx.message.envelope.appId) + 1 <= PerApp(c, tx.kind.family) {
        PhaseKeeps(c, s, t, AppCounted);
      }
    case CountTotal(t) =>
      if TotalCount(s.db, s.txs[t].kind.family) + 1 <= Total(c, s.txs[t].kind.family) {
        PhaseKeeps(c, s, t, TotalCounted);
      }
  }

  lemma RowLockStepsKeep(c: Config, s: Sys, a: Action)
    requires Inv(c, s) && Enabled(s, a)
    requires a.LockRow? || a.Decide? || a.LockCandidates?
    ensures Inv(c, Next(c, s, a))
  {
    assert TxOk(c, s.db, s.txs[a.t]);
    var tx := Next(c, s, a).txs[a.t];
    forall u | u in s.txs && u != a.t ensures Compatible(tx, s.txs[u]) && Compatible(s.txs[u], tx) {
      assert Compatible(s.txs[a.t], s.txs[u]) && Compatible(s.txs[u], s.txs[a.t]);
    }
    TxUpdateKeeps(c, s, a.t, tx);
  }

  /** History survives a shrinking step that keeps cancel marks. */
  lemma HistoryKeeps(s: Sys, after: Db)
    requires HistoryOk(s) && Shrinks(s.db, after) && s.db.nextMessage <= after.nextMessage
    requires forall m :: m in after.messages ==>
      m in s.db.messages && s.db.messages[m].cancelledAt.Some? == after.messages[m].cancelledAt.Some?
    ensures HistoryOk(s.(db := after))
  {
    forall id | id in s.released + s.cancelled + s.claimed ensures Left(after, id) {
      assert Left(s.db, id);
      assert Members(after, ScheduledFamily) <= Members(s.db, ScheduledFamily);
      assert Members(after, HeldFamily) <= Members(s.db, HeldFamily);
      assert id !in ScheduledIds(s.db) && id !in HeldIds(s.db);
    }
  }

  /** Claims, records and replays touch a delivery that no row lock guards; none needs one. */
  lemma RowStepKeeps(c: Config, s: Sys, d: nat, row: Delivery)
    requires Inv(c, s) && d in s.db.deliveries
    requires s.db.deliveries[d].state in {Pending, Dead} && row.state in {Pending, Delivered, Dead}
    requires row.messageId == s.db.deliveries[d].messageId
    requires (row.state == Dead <==> row.deadReason.Some?) && AttemptsNumbered(row)
    ensures Inv(c, s.(db := WithRow(s.db, d, row)))
    ensures row.messageId in s.db.messages && row.messageId !in s.cancelled
    ensures Left(WithRow(s.db, d, row), row.messageId)
  {
    var after := WithRow(s.db, d, row);
    RowUpdateValid(s.db, d, row);
    RowUpdateShrinks(s.db, d, row);
    RowUpdateLocal(s.db, d, row);
    ShrinkKeeps(c, s, after, s.txs);
    HistoryKeeps(s, after);
  }

  /** The row's message was not waiting, and no other message's states change. */
  lemma RowUpdateLocal(db: Db, d: nat, row: Delivery)
    requires Valid(db) && d in db.deliveries
    requires db.deliveries[d].state in {Pending, Dead} && row.state in {Pending, Delivered, Dead}
    requires row.messageId == db.deliveries[d].messageId && Shrinks(db, WithRow(db, d, row))
    ensures row.messageId in db.messages && db.messages[row.messageId].cancelledAt.None?
    ensures Left(WithRow(db, d, row), row.messageId)
    ensures forall id :: RowKept(db, WithRow(db, d, row), id)
  {
    var after, m := WithRow(db, d, row), row.messageId;
    assert DeliveryOk(db.deliveries[d], db.messages[m]);
    ScheduledIsWhole(db, m);
    assert db.deliveries[d].state in StatesOf(db, m);
    forall id ensures RowKept(db, after, id) {
      if id != m && id in db.messages { SameStates(db, after, id); }
    }
    assert Members(after, ScheduledFamily) <= Members(db, ScheduledFamily);
    assert m !in ScheduledIds(db);
  }

  lemma SweepKeeps(c: Config, s: Sys, ids: set<nat>)
    requires Inv(c, s) && Enabled(s, Sweep(ids))
    ensures Inv(c, Next(c, s, Sweep(ids)))
  {
    var after := Removed(s.db, ids);
    RemovedValid(s.db, ids);
    RemovedShrinks(s.db, ids);
    forall t, id | t in s.txs && id in LockedRows(s.txs[t]) ensures RowKept(s.db, after, id) {
      if id in s.db.messages { SameStates(s.db, after, id); }
    }
    ShrinkKeeps(c, s, after, s.txs);
    HistoryKeeps(s, after);
  }

  lemma ReleaseKeeps(c: Config, s: Sys, t: nat)
    requires Inv(c, s) && Enabled(s, Release(t))
    ensures Inv(c, Next(c, s, Release(t)))
    ensures ReleasedIds(s.db, s.txs[t].locked.value, s.txs[t].at) !! s.released + s.cancelled
  {
    var tx := s.txs[t];
    var after := Released(s.db, tx.locked.value, tx.at);
    var moved := ReleasedIds(s.db, tx.locked.value, tx.at);
    ReleasedValid(s.db, tx.locked.value, tx.at);
    ReleasedShrinks(s.db, tx.locked.value, tx.at);
    forall u, id | u in s.txs - {t} && id in LockedRows(s.txs[u]) ensures RowKept(s.db, after, id) {
      assert Compatible(s.txs[t], s.txs[u]);
      if id in s.db.messages { SameStates(s.db, after, id); }
    }
    ShrinkKeeps(c, s, after, s.txs - {t});
    ReleaseHistory(s, tx.locked.value, tx.at);
    assert Next(c, s, Release(t)) ==
      Sys(after, s.txs - {t}, s.released + moved, s.cancelled, s.claimed);
  }

  lemma ReleaseHistory(s: Sys, ids: set<nat>, now: Time)
    requires Valid(s.db) && HistoryOk(s) && Shrinks(s.db, Released(s.db, ids, now))
    ensures HistoryOk(s.(db := Released(s.db, ids, now), released := s.released + ReleasedIds(s.db, ids, now)))
    ensures ReleasedIds(s.db, ids, now) !! s.released + s.cancelled
  {
    var after := Released(s.db, ids, now);
    HistoryKeeps(s, after);
    forall id | id in ReleasedIds(s.db, ids, now) ensures Left(after, id) && !Left(s.db, id) {
      MovedHasLeft(s.db, ids, now, id);
    }
  }

  /** A released message has no scheduled delivery left. */
  lemma MovedHasLeft(db: Db, ids: set<nat>, now: Time, id: nat)
    requires Valid(db) && id in ReleasedIds(db, ids, now)
    ensures Left(Released(db, ids, now), id) && !Left(db, id)
  {
    var after := Released(db, ids, now);
    var d :| d in db.deliveries && db.deliveries[d].messageId == id && IsDueDelivery(db.deliveries[d], now) && id in ids;
    assert db.deliveries[d].state in StatesOf(db, id);
    assert DeliveryOk(db.deliveries[d], db.messages[id]);
    forall e | e in after.deliveries && after.deliveries[e].messageId == id ensures after.deliveries[e].state != Scheduled {
      DueTogether(db, d, e, now);
    }
    ScheduledWitness(after, id);
  }

  /** An update of one locked message: everything the other transactions rely on stays. */
  ghost predicate Local(before: Db, after: Db, id: nat)
  {
    && Valid(after) && Shrinks(before, after) && KeysKept(before, after) && after.nextMessage == before.nextMessage
    && (forall m :: m != id ==> RowKept(before, after, m))
    && (forall m :: m in after.messages && m != id ==>
          before.messages[m].cancelledAt.Some? == after.messages[m].cancelledAt.Some?)
  }

  lemma CancelHeldLocal(db: Db, id: nat, now: Time)
    requires Valid(db) && IsHeld(db, id)
    ensures Local(db, CancelHeld(db, id, now), id)
    ensures Left(CancelHeld(db, id, now), id) && !Left(db, id)
  {
    var after := CancelHeld(db, id, now);
    CancelHeldValid(db, id, now);
    CancelShrinks(db, id, now);
    forall m | m != id ensures RowKept(db, after, m) {
      if m in db.messages { SameStates(db, after, m); }
    }
    HeldHasNoDeliveries(db, id);
    ScheduledWitness(after, id);
  }

  lemma CancelScheduledLocal(db: Db, id: nat, now: Time)
    requires Valid(db) && id in db.messages && StatusOf(db, id) == StatusScheduled
    ensures Local(db, CancelScheduled(db, id, now), id)
    ensures Left(CancelScheduled(db, id, now), id) && !Left(db, id)
  {
    var after := CancelScheduled(db, id, now);
    CancelScheduledValid(db, id, now);
    CancelShrinks(db, id, now);
    forall m | m != id ensures RowKept(db, after, m) {
      if m in db.messages { SameStates(db, after, m); }
    }
    CancelledHasLeft(db, id, now);
  }

  lemma CancelledHasLeft(db: Db, id: nat, now: Time)
    requires Valid(db) && id in db.messages && StatusOf(db, id) == StatusScheduled
    ensures Left(CancelScheduled(db, id, now), id) && !Left(db, id)
  {
    ScheduledIsWhole(db, id);
    ScheduledWitness(CancelScheduled(db, id, now), id);
  }

  lemma ReplacedLocal(db: Db, id: nat, envelope: Envelope, targets: seq<Target>, now: Time)
    requires Valid(db) && id in db.messages && StatusOf(db, id) == StatusScheduled
    requires SameKey(envelope, db.messages[id].envelope)
    ensures Local(db, Replaced(db, id, envelope, targets, now), id)
  {
    var after := Replaced(db, id, envelope, targets, now);
    ScheduledIsWhole(db, id);
    ReplacedValid(db, id, envelope, targets, now);
    ReplacedShrinks(db, id, envelope, targets, now);
    forall m | m != id ensures RowKept(db, after, m) {
      if m in db.messages { SameStates(db, after, m); }
    }
  }

  /** A cancel or replace acts on what it decided: the row lock kept that true. */
  lemma WriteLocal(db: Db, tx: Tx, id: nat, decision: Decision)
    requires Valid(db) && (tx.ReplaceTx? || tx.CancelTx?) && tx.phase == Decided(id, decision) && HoldsTruth(db, tx)
    ensures Written(db, tx, id, decision) == db || Local(db, Written(db, tx, id, decision), id)
    ensures decision == LeaveAlone ==> Written(db, tx, id, decision) == db
    ensures tx.CancelTx? && decision != LeaveAlone ==>
      var after := Written(db, tx, id, decision);
      Local(db, after, id) && Left(after, id) && !Left(db, id) && after.messages[id].cancelledAt.Some?
  {
    if decision == MoveHeld {
      CancelHeldLocal(db, id, tx.at);
    } else if decision == MoveScheduled {
      if tx.CancelTx? {
        CancelScheduledLocal(db, id, tx.at);
      } else {
        ReplacedLocal(db, id, tx.envelope, tx.replacements, tx.at);
      }
    }
  }

  lemma WriteKeeps(c: Config, s: Sys, t: nat)
    requires Inv(c, s) && Enabled(s, Write(t))
    ensures Inv(c, Next(c, s, Write(t)))
    ensures Next(c, s, Write(t)).cancelled != s.cancelled ==>
      s.txs[t].phase.id !in s.released + s.claimed + s.cancelled
  {
    var tx := s.txs[t];
    var id, decision := tx.phase.id, tx.phase.decision;
    assert TxOk(c, s.db, tx);
    WriteLocal(s.db, tx, id, decision);
    AbortKeeps(c, s, t);
    var after := Written(s.db, tx, id, decision);
    if after != s.db {
      forall u, m | u in s.txs - {t} && m in LockedRows(s.txs[u]) ensures RowKept(s.db, after, m) {
        assert Compatible(s.txs[t], s.txs[u]);
        assert id in LockedRows(tx);
      }
      ShrinkKeeps(c, s, after, s.txs - {t});
      WriteHistory(c, s, t);
    }
  }

  lemma WriteHistory(c: Config, s: Sys, t: nat)
    requires Inv(c, s) && Enabled(s, Write(t)) && Next(c, s, Write(t)).db != s.db
    requires Local(s.db, Next(c, s, Write(t)).db, s.txs[t].phase.id)
    requires s.txs[t].CancelTx? ==>
      var id, after := s.txs[t].phase.id, Next(c, s, Write(t)).db;
      s.txs[t].phase.decision != LeaveAlone && Left(after, id) && !Left(s.db, id) && after.messages[id].cancelledAt.Some?
    ensures HistoryOk(Next(c, s, Write(t)))
  {
    var after := Next(c, s, Write(t)).db;
    forall id | id in s.released + s.cancelled + s.claimed ensures Left(after, id) {
      assert Left(s.db, id);
      assert Members(after, ScheduledFamily) <= Members(s.db, ScheduledFamily);
      assert Members(after, HeldFamily) <= Members(s.db, HeldFamily);
      assert id !in ScheduledIds(s.db) && id !in HeldIds(s.db);
    }
  }

  /** Another insert's knowledge survives this commit: different key, and not both counting one family. */
  lemma OtherInsertTruth(c: Config, db: Db, tx: Tx, other: Tx)
    requires tx.InsertTx? && other.InsertTx? && HasUncommittedRow(tx) && Compatible(tx, other)
    requires Valid(db) && InsertTruth(c, db, tx) && InsertTruth(c, db, other)
    requires tx.kind.Capped? ==> tx.insertPhase == TotalCounted
    ensures InsertTruth(c, Inserted(db, tx.message, tx.targets, tx.schedule), other)
  {
    if other.kind.Capped? {
      InsertedCounts(db, tx.message, tx.targets, tx.schedule, other.kind.family, other.message.envelope.appId);
      if HasUncommittedRow(other) { assert HoldsGlobal(other, other.kind.family); }
    }
  }

  lemma OtherRowTruth(db: Db, tx: Tx, other: Tx)
    requires tx.InsertTx? && (other.ReplaceTx? || other.CancelTx?) && Valid(db) && HoldsTruth(db, other)
    ensures HoldsTruth(Inserted(db, tx.message, tx.targets, tx.schedule), other)
  {
    if other.phase != WantLock {
      SameStates(db, Inserted(db, tx.message, tx.targets, tx.schedule), other.phase.id);
    }
  }

  lemma OtherInsertOk(c: Config, s: Sys, t: nat, u: nat)
    requires Inv(c, s) && Enabled(s, Commit(t)) && u in s.txs && u != t
    ensures TxOk(c, Next(c, s, Commit(t)).db, s.txs[u])
  {
    var tx, other := s.txs[t], s.txs[u];
    assert TxOk(c, s.db, tx) && TxOk(c, s.db, other);
    assert Compatible(tx, other);
    if other.InsertTx? {
      OtherInsertTruth(c, s.db, tx, other);
    } else if !other.ReleaseTx? {
      OtherRowTruth(s.db, tx, other);
    }
  }

  lemma CommitWithinCaps(c: Config, s: Sys, t: nat)
    requires Inv(c, s) && Enabled(s, Commit(t))
    ensures WithinCaps(c, Next(c, s, Commit(t)).db)
  {
    var tx := s.txs[t];
    var after := Next(c, s, Commit(t)).db;
    assert TxOk(c, s.db, tx);
    forall f: Family ensures TotalCount(after, f) <= Total(c, f) {
      InsertedCounts(s.db, tx.message, tx.targets, tx.schedule, f, "");
    }
    forall f: Family, app: string ensures AppCount(after, f, app) <= PerApp(c, f) {
      InsertedCounts(s.db, tx.message, tx.targets, tx.schedule, f, app);
    }
  }

  lemma InsertKeepsLeft(db: Db, message: Message, targets: seq<Target>, schedule: Schedule, id: nat)
    requires Valid(db) && Insertable(message, targets, schedule) && Left(db, id)
    ensures Left(Inserted(db, message, targets, schedule), id)
  {
    var after := Inserted(db, message, targets, schedule);
    InsertedMembers(db, message, targets, schedule);
    assert id !in ScheduledIds(after) && id !in HeldIds(after);
  }

  lemma CommitHistory(c: Config, s: Sys, t: nat)
    requires Inv(c, s) && Enabled(s, Commit(t))
    ensures HistoryOk(Next(c, s, Commit(t)))
  {
    var tx := s.txs[t];
    var after := Inserted(s.db, tx.message, tx.targets, tx.schedule);
    assert TxOk(c, s.db, tx);
    forall id | id in s.released + s.cancelled + s.claimed ensures Left(after, id) {
      InsertKeepsLeft(s.db, tx.message, tx.targets, tx.schedule, id);
    }
    assert forall id :: id in s.cancelled ==> Left(s.db, id);
    assert s.db.nextMessage !in s.cancelled;
  }

  lemma CommitKeeps(c: Config, s: Sys, t: nat)
    requires Inv(c, s) && Enabled(s, Commit(t))
    ensures Inv(c, Next(c, s, Commit(t)))
  {
    var tx := s.txs[t];
    assert TxOk(c, s.db, tx);
    InsertedValid(s.db, tx.message, tx.targets, tx.schedule);
    CommitWithinCaps(c, s, t);
    CommitHistory(c, s, t);
    AbortKeeps(c, s, t);
    forall u | u in s.txs - {t} ensures TxOk(c, Next(c, s, Commit(t)).db, s.txs[u]) { OtherInsertOk(c, s, t, u); }
  }

  lemma ClaimedKeeps(c: Config, s: Sys, id: nat)
    requires Inv(c, s) && id !in s.cancelled && Left(s.db, id)
    ensures Inv(c, s.(claimed := s.claimed + {id}))
  {
  }

  lemma ClaimKeeps(c: Config, s: Sys, d: nat, readAt: Time, lease: Time)
    requires Inv(c, s) && Enabled(s, Claim(d, readAt, lease))
    ensures Inv(c, Next(c, s, Claim(d, readAt, lease)))
  {
    var row := s.db.deliveries[d];
    assert DeliveryOk(row, s.db.messages[row.messageId]);
    RowStepKeeps(c, s, d, Leased(row, readAt + lease));
    var moved := s.(db := WithRow(s.db, d, Leased(row, readAt + lease)));
    ClaimedKeeps(c, moved, row.messageId);
    assert Next(c, s, Claim(d, readAt, lease)) == moved.(claimed := moved.claimed + {row.messageId});
  }

  lemma RecordKeeps(c: Config, s: Sys, d: nat, result: AttemptResult, clock: Time)
    requires Inv(c, s) && Enabled(s, Record(d, result, clock))
    ensures Inv(c, Next(c, s, Record(d, result, clock)))
  {
    var row := s.db.deliveries[d];
    assert DeliveryOk(row, s.db.messages[row.messageId]);
    RowStepKeeps(c, s, d, Recorded(row, result, clock));
  }

  lemma ReplayKeeps(c: Config, s: Sys, d: nat, now: Time)
    requires Inv(c, s) && Enabled(s, Replay(d, now))
    ensures Inv(c, Next(c, s, Replay(d, now)))
  {
    var row := s.db.deliveries[d];
    assert DeliveryOk(row, s.db.messages[row.messageId]);
    RowStepKeeps(c, s, d, Replayed(row, now));
  }

  lemma StepKeeps(c: Config, s: Sys, a: Action)
    requires Inv(c, s) && Enabled(s, a)
    ensures Inv(c, Next(c, s, a))
  {
    match a
    case Begin(t, tx) => BeginKeeps(c, s, t, tx);
    case Abort(t) => AbortKeeps(c, s, t);
    case Commit(t) => CommitKeeps(c, s, t);
    case Write(t) => WriteKeeps(c, s, t);
    case Release(t) => ReleaseKeeps(c, s, t);
    case Sweep(ids) => SweepKeeps(c, s, ids);
    case LockRow(_, _) => RowLockStepsKeep(c, s, a);
    case Decide(_) => RowLockStepsKeep(c, s, a);
    case LockCandidates(_) => RowLockStepsKeep(c, s, a);
    case Claim(d, readAt, lease) => ClaimKeeps(c, s, d, readAt, lease);
    case Record(d, result, clock) => RecordKeeps(c, s, d, result, clock);
    case Replay(d, now) => ReplayKeeps(c, s, d, now);
    case _ => InsertStepsKeep(c, s, a);
  }

  // ----- Runs -----------------------------------------------------------------------

  /** Any run of the store from empty tables. */
  ghost predicate IsRun(c: Config, states: seq<Sys>, actions: seq<Action>)
  {
    && |states| == |actions| + 1
    && states[0] == EMPTY
    && forall i :: 0 <= i < |actions| ==> Enabled(states[i], actions[i]) && states[i + 1] == Next(c, states[i], actions[i])
  }

  lemma {:induction false} RunInv(c: Config, states: seq<Sys>, actions: seq<Action>, i: nat)
    requires IsRun(c, states, actions) && i < |states|
    ensures Inv(c, states[i])
  {
    if i == 0 {
      assert ScheduledIds(EMPTY.db) == {} && HeldIds(EMPTY.db) == {};
    } else {
      RunInv(c, states, actions, i - 1);
      StepKeeps(c, states[i - 1], actions[i - 1]);
    }
  }

  predicate Later(s: Sys, t: Sys)
  {
    && s.released <= t.released && s.cancelled <= t.cancelled && s.claimed <= t.claimed
    && s.db.nextMessage <= t.db.nextMessage
  }

  lemma StepHistory(c: Config, s: Sys, a: Action)
    requires Enabled(s, a)
    ensures Later(s, Next(c, s, a))
  {
  }

  /** History only grows along a run. */
  lemma {:induction false} RunHistory(c: Config, states: seq<Sys>, actions: seq<Action>, i: nat, j: nat)
    requires IsRun(c, states, actions) && i <= j < |states|
    ensures Later(states[i], states[j])
    decreases j
  {
    if i < j {
      RunHistory(c, states, actions, i, j - 1);
      StepHistory(c, states[j - 1], actions[j - 1]);
    }
  }

  /** No interleaving takes an app, or all apps together, over a scheduled or held cap. */
  lemma CapsNeverExceeded(c: Config, states: seq<Sys>, actions: seq<Action>, i: nat, app: string)
    requires IsRun(c, states, actions) && i < |states|
    ensures AppCount(states[i].db, ScheduledFamily, app) <= c.scheduledPerApp
    ensures TotalCount(states[i].db, ScheduledFamily) <= c.scheduledTotal
    ensures AppCount(states[i].db, HeldFamily, app) <= c.heldPerApp
    ensures TotalCount(states[i].db, HeldFamily) <= c.heldTotal
  {
    RunInv(c, states, actions, i);
  }

  /** At every moment a message waits with all its deliveries, due at its deliver_at, or with none. */
  lemma MessagesWaitWhole(c: Config, states: seq<Sys>, actions: seq<Action>, i: nat, id: nat)
    requires IsRun(c, states, actions) && i < |states| && id in states[i].db.messages
    ensures var db := states[i].db;
      || (forall d :: d in DeliveriesOf(db, id) ==> db.deliveries[d].state != Scheduled)
      || (forall d :: d in DeliveriesOf(db, id) ==>
            db.deliveries[d].state == Scheduled && db.messages[id].envelope.deliverAt == Some(db.deliveries[d].nextAttemptAt))
  {
    RunInv(c, states, actions, i);
    ScheduledIsWhole(states[i].db, id);
    ScheduledWitness(states[i].db, id);
  }

  /**
   * Whatever committed between its probe, its lock and its update, a release
   * moves only messages due by their deliver_at of that moment, moves all of
   * each, and none that was ever released or cancelled before.
   */
  lemma ReleaseIsDueWholeAndOnce(c: Config, states: seq<Sys>, actions: seq<Action>, i: nat, t: nat, id: nat)
    requires IsRun(c, states, actions) && i < |actions| && actions[i] == Release(t)
    requires id in ReleasedIds(states[i].db, states[i].txs[t].locked.value, states[i].txs[t].at)
    ensures var before, after, now := states[i].db, states[i + 1].db, states[i].txs[t].at;
      && id in before.messages && before.messages[id].envelope.deliverAt.Some?
      && before.messages[id].envelope.deliverAt.value <= now
      && (forall d :: d in DeliveriesOf(before, id) ==>
            before.deliveries[d].state == Scheduled && d in after.deliveries && after.deliveries[d].state == Pending)
      && id !in states[i].released + states[i].cancelled
  {
    var s := states[i];
    var tx := s.txs[t];
    RunInv(c, states, actions, i);
    ReleaseKeeps(c, s, t);
    var d :| d in s.db.deliveries && s.db.deliveries[d].messageId == id && IsDueDelivery(s.db.deliveries[d], tx.at)
      && id in tx.locked.value;
    assert DeliveryOk(s.db.deliveries[d], s.db.messages[id]);
    forall e | e in DeliveriesOf(s.db, id)
      ensures s.db.deliveries[e].state == Scheduled && IsDueDelivery(s.db.deliveries[e], tx.at)
    {
      DueTogether(s.db, d, e, tx.at);
    }
  }

  /** No message is both released and cancelled, in whatever order the two raced. */
  lemma ReleasedOrCancelled(c: Config, states: seq<Sys>, actions: seq<Action>, i: nat, j: nat, id: nat)
    requires IsRun(c, states, actions) && i < |states| && j < |states|
    ensures !(id in states[i].released && id in states[j].cancelled)
  {
    var last := if i < j then j else i;
    RunInv(c, states, actions, last);
    RunHistory(c, states, actions, i, last);
    RunHistory(c, states, actions, j, last);
  }

  /** Once a message reads cancelled, no claim returns any of its deliveries. */
  lemma CancelledIsNeverClaimed(c: Config, states: seq<Sys>, actions: seq<Action>, i: nat, j: nat, id: nat)
    requires IsRun(c, states, actions) && i <= j < |actions| && actions[j].Claim?
    requires id in states[i].db.messages && StatusOf(states[i].db, id) == StatusCancelled
    ensures states[j].db.deliveries[actions[j].d].messageId != id
  {
    RunInv(c, states, actions, i);
    RunInv(c, states, actions, j + 1);
    RunHistory(c, states, actions, i, j + 1);
    CancelledIsMarked(states[i].db, id);
    assert id in states[j + 1].cancelled;
    assert states[j].db.deliveries[actions[j].d].messageId in states[j + 1].claimed;
  }

  lemma CancelledIsMarked(db: Db, id: nat)
    requires Valid(db) && id in db.messages && StatusOf(db, id) == StatusCancelled
    ensures db.messages[id].cancelledAt.Some?
  {
    if Cancelled in StatesOf(db, id) {
      var d :| d in db.deliveries && db.deliveries[d].messageId == id && db.deliveries[d].state == Cancelled;
      assert DeliveryOk(db.deliveries[d], db.messages[id]);
    }
  }

  // ----- A message that no longer waits -------------------------------------------------

  /** What stays true of a message that is not scheduled, as long as it exists. */
  predicate Settled(before: Db, after: Db, id: nat)
  {
    id in after.messages ==>
      && id in before.messages && SameKey(after.messages[id].envelope, before.messages[id].envelope)
      && (IsScheduled(after, id) ==> IsScheduled(before, id))
  }

  lemma ShrinkSettles(before: Db, after: Db, id: nat)
    requires Shrinks(before, after) && KeysKept(before, after)
    ensures Settled(before, after, id)
  {
    assert Members(after, ScheduledFamily) <= Members(before, ScheduledFamily);
    assert id in ScheduledIds(after) ==> id in ScheduledIds(before);
  }

  lemma InsertSettles(db: Db, message: Message, targets: seq<Target>, schedule: Schedule, id: nat)
    requires Valid(db) && Insertable(message, targets, schedule) && id < db.nextMessage
    ensures Settled(db, Inserted(db, message, targets, schedule), id)
  {
    var after := Inserted(db, message, targets, schedule);
    InsertedMembers(db, message, targets, schedule);
    assert id in ScheduledIds(after) ==> id in ScheduledIds(db);
  }

  lemma CommitSettles(c: Config, s: Sys, t: nat, id: nat)
    requires Inv(c, s) && Enabled(s, Commit(t)) && id < s.db.nextMessage
    ensures Settled(s.db, Next(c, s, Commit(t)).db, id)
  {
    var tx := s.txs[t];
    assert TxOk(c, s.db, tx);
    InsertSettles(s.db, tx.message, tx.targets, tx.schedule, id);
  }

  lemma WriteSettles(c: Config, s: Sys, t: nat, id: nat)
    requires Inv(c, s) && Enabled(s, Write(t))
    ensures Settled(s.db, Next(c, s, Write(t)).db, id)
  {
    var tx := s.txs[t];
    assert TxOk(c, s.db, tx);
    WriteLocal(s.db, tx, tx.phase.id, tx.phase.decision);
    if Next(c, s, Write(t)).db != s.db { ShrinkSettles(s.db, Next(c, s, Write(t)).db, id); }
  }

  lemma DeliveryStepSettles(c: Config, s: Sys, a: Action, id: nat)
    requires Inv(c, s) && Enabled(s, a) && (a.Claim? || a.Record? || a.Replay?)
    ensures Settled(s.db, Next(c, s, a).db, id)
  {
    var row := s.db.deliveries[a.d];
    assert DeliveryOk(row, s.db.messages[row.messageId]);
    RowUpdateShrinks(s.db, a.d, Next(c, s, a).db.deliveries[a.d]);
    ShrinkSettles(s.db, Next(c, s, a).db, id);
  }

  lemma StepSettles(c: Config, s: Sys, a: Action, id: nat)
    requires Inv(c, s) && Enabled(s, a) && id < s.db.nextMessage
    ensures Settled(s.db, Next(c, s, a).db, id)
  {
    match a
    case Commit(t) => CommitSettles(c, s, t, id);
    case Write(t) => WriteSettles(c, s, t, id);
    case Release(t) =>
      ReleasedShrinks(s.db, s.txs[t].locked.value, s.txs[t].at);
      ShrinkSettles(s.db, Next(c, s, a).db, id);
    case Sweep(ids) =>
      RemovedShrinks(s.db, ids);
      ShrinkSettles(s.db, Next(c, s, a).db, id);
    case Claim(_, _, _) => DeliveryStepSettles(c, s, a, id);
    case Record(_, _, _) => DeliveryStepSettles(c, s, a, id);
    case Replay(_, _) => DeliveryStepSettles(c, s, a, id);
    case _ =>
  }

  /** Once a message is not scheduled it never is again, and it keeps its key, as long as it exists. */
  lemma {:induction false} NeverScheduledAgain(c: Config, states: seq<Sys>, actions: seq<Action>, i: nat, j: nat, id: nat)
    requires IsRun(c, states, actions) && i <= j < |states|
    requires id in states[i].db.messages && !IsScheduled(states[i].db, id)
    ensures id in states[j].db.messages ==>
      && !IsScheduled(states[j].db, id)
      && SameKey(states[j].db.messages[id].envelope, states[i].db.messages[id].envelope)
    decreases j
  {
    if i < j {
      NeverScheduledAgain(c, states, actions, i, j - 1, id);
      RunInv(c, states, actions, i);
      RunInv(c, states, actions, j - 1);
      RunHistory(c, states, actions, i, j - 1);
      StepSettles(c, states[j - 1], actions[j - 1], id);
    }
  }

  // ----- Waiting --------------------------------------------------------------------

  /** Insert t is blocked by a lock that u holds. */
  predicate WaitsFor(s: Sys, t: nat, u: nat)
  {
    && t in s.txs && u in s.txs && s.txs[t].InsertTx? && t != u
    && match s.txs[t].insertPhase
       case WantGlobal => s.txs[t].kind.Capped? && HoldsGlobal(s.txs[u], s.txs[t].kind.family)
       case WantApp => s.txs[t].kind.Capped? && HoldsApp(s.txs[u], s.txs[t].kind.family, s.txs[t].message.envelope.appId)
       case WantRow => HoldsKey(s.txs[u], s.txs[t].message.envelope)
       case _ => false
  }

  /** The order locks are taken in. */
  function Rank(phase: InsertPhase): nat
  {
    match phase case WantGlobal => 0 case WantApp => 1 case WantRow => 2 case _ => 3
  }

  /** The insert at place i of the chain waits for the one after it. */
  predicate Hop(s: Sys, chain: seq<nat>, i: nat)
  {
    i + 1 < |chain| && WaitsFor(s, chain[i], chain[i + 1])
  }

  /** Every chain of waiting inserts climbs in lock order, also over each other's uncommitted rows. */
  lemma {:induction false} RanksClimb(s: Sys, chain: seq<nat>, i: nat)
    requires 0 < i < |chain| && forall j :: 0 <= j < i ==> Hop(s, chain, j)
    ensures chain[0] in s.txs && chain[i] in s.txs && s.txs[chain[0]].InsertTx? && s.txs[chain[i]].InsertTx?
    ensures Rank(s.txs[chain[0]].insertPhase) < Rank(s.txs[chain[i]].insertPhase)
  {
    assert Hop(s, chain, i - 1);
    if i > 1 { RanksClimb(s, chain, i - 1); }
  }

  /** No set of inserts waits in a cycle. */
  lemma NoWaitCycle(s: Sys, chain: seq<nat>)
    requires |chain| > 1 && forall j :: 0 <= j < |chain| - 1 ==> Hop(s, chain, j)
    ensures chain[0] != chain[|chain| - 1]
  {
    RanksClimb(s, chain, |chain| - 1);
  }

  /** The step that carries an insert forward. */
  function Forward(t: nat, tx: Tx): Action
    requires tx.InsertTx?
  {
    match tx.insertPhase
    case WantGlobal => TakeGlobal(t)
    case WantApp => TakeApp(t)
    case WantRow => InsertRow(t)
    case HasRow => if tx.kind == Immediate then Commit(t) else CountApp(t)
    case AppCounted => CountTotal(t)
    case TotalCounted => Commit(t)
    case Conflicted => Abort(t)
  }

  /** An insert that cannot step waits for another insert further along. */
  lemma BlockedWaits(c: Config, s: Sys, t: nat) returns (u: nat)
    requires Inv(c, s) && t in s.txs && s.txs[t].InsertTx? && !Enabled(s, Forward(t, s.txs[t]))
    ensures WaitsFor(s, t, u) && s.txs[u].InsertTx?
    ensures Rank(s.txs[t].insertPhase) < Rank(s.txs[u].insertPhase)
  {
    var tx := s.txs[t];
    assert TxOk(c, s.db, tx);
    match tx.insertPhase
    case WantGlobal => u :| u in s.txs && HoldsGlobal(s.txs[u], tx.kind.family);
    case WantApp => u :| u in s.txs && u != t && HoldsApp(s.txs[u], tx.kind.family, tx.message.envelope.appId);
    case WantRow => u :| u in s.txs && u != t && HoldsKey(s.txs[u], tx.message.envelope);
    case _ => u := t;
  }

  /** While any insert is open, some open insert can take its next step. */
  lemma SomeInsertProceeds(c: Config, s: Sys, t: nat)
    requires Inv(c, s) && t in s.txs && s.txs[t].InsertTx?
    ensures exists u :: u in s.txs && s.txs[u].InsertTx? && Enabled(s, Forward(u, s.txs[u]))
    decreases 3 - Rank(s.txs[t].insertPhase)
  {
    if !Enabled(s, Forward(t, s.txs[t])) {
      var u := BlockedWaits(c, s, t);
      SomeInsertProceeds(c, s, u);
    }
  }
}
