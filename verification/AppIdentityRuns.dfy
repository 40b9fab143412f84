// Every interleaving of exchanges, approvals, rejections, sweeps, revocations and
// unbinds, statement by statement under READ COMMITTED (delivery-api/internal/appidentity).
module AppIdentityRuns {
  import opened Common
  import opened AppIdentityTables

  // ----- Open transactions ------------------------------------------------------

  /** Refreshing holds the row locks of the requests it rewrites; Holding, the row lock of the app's binding. */
  datatype ExchangePhase =
    | WantJti | WantBinding(mayFile: bool) | WantLock | Locked | SeenUnbound
    | Refreshing(ids: set<nat>) | Filing | Holding(binding: Binding) | Issuing(binding: Binding)

  datatype ApprovePhase = WantsLock | WantsRow | HasRow | NoOverlap | Inserted

  datatype Tx =
    | ExchangeTx(app: string, claims: Claims, at: Time, phase: ExchangePhase, locked: bool)
    | ApproveTx(id: nat, expected: string, at: Time, step: ApprovePhase)

  /** Committed tables and open transactions. */
  datatype Sys = Sys(db: Tables, txs: map<nat, Tx>)

  const EMPTY := Sys(NO_ROWS, map[])

  predicate HoldsAdvisory(tx: Tx)
  {
    if tx.ExchangeTx? then tx.locked else tx.step != WantsLock
  }

  predicate HoldsBinding(tx: Tx, app: string)
  {
    tx.ExchangeTx? && (tx.phase.Holding? || tx.phase.Issuing?) && tx.app == app
  }

  function LockedRequests(tx: Tx): set<nat>
  {
    match tx
    case ExchangeTx(_, _, _, phase, _) => if phase.Refreshing? then phase.ids else {}
    case ApproveTx(id, _, _, step) => if step in {HasRow, NoOverlap, Inserted} then {id} else {}
  }

  predicate HoldsJti(tx: Tx, jti: string) { tx.ExchangeTx? && tx.phase != WantJti && tx.claims.jti == jti }

  /** An issue locks the rows it superseded, the active keys of its app. */
  predicate LocksKey(tx: Tx, k: Key) { tx.ExchangeTx? && tx.phase.Issuing? && tx.app == k.appId && Active(k) }

  /** Two open transactions never hold one lock. */
  predicate Compatible(a: Tx, b: Tx)
  {
    && !(HoldsAdvisory(a) && HoldsAdvisory(b))
    && (b.ExchangeTx? ==> !(HoldsBinding(b, b.app) && HoldsBinding(a, b.app)))
    && (b.ExchangeTx? ==> !(HoldsJti(b, b.claims.jti) && HoldsJti(a, b.claims.jti)))
    && LockedRequests(a) !! LockedRequests(b)
  }

  predicate OthersCompatible(s: Sys, t: nat, tx: Tx)
  {
    forall u :: u in s.txs && u != t ==> Compatible(tx, s.txs[u]) && Compatible(s.txs[u], tx)
  }

  // ----- Steps --------------------------------------------------------------------

  datatype Action =
    | Begin(t: nat, tx: Tx)
    | Abort(t: nat)
    | Advance(t: nat)
    | Commit(t: nat)
    | Reject(id: nat, at: Time)
    | Sweep(ids: set<nat>)
    | Revoke(key: nat, at: Time)
    | Unbind(app: string)

  predicate Opening(tx: Tx)
  {
    if tx.ExchangeTx? then tx.phase == WantJti && !tx.locked else tx.step == WantsLock
  }

  /** The next statement of an open transaction; None where it fails and only an abort is left. */
  function Advanced(db: Tables, tx: Tx): Option<Tx>
  {
    match tx
    case ApproveTx(id, expected, _, step) =>
      (match step
       case WantsLock => Some(tx.(step := WantsRow))
       case WantsRow =>
         if IsPending(db, id) && db.requests[id].appId == expected then Some(tx.(step := HasRow)) else None
       case HasRow => if !Overlaps(db, expected) then Some(tx.(step := NoOverlap)) else None
       case NoOverlap =>
         if id in db.requests && expected !in db.bindings && !IdentityBound(db, db.requests[id].identity)
         then Some(tx.(step := Inserted)) else None
       case Inserted => None)
    case ExchangeTx(app, claims, _, phase, _) =>
      (match phase
       case WantJti => if claims.jti !in db.jtis then Some(tx.(phase := WantBinding(true))) else None
       case WantBinding(mayFile) =>
         if app in db.bindings then Some(tx.(phase := Holding(db.bindings[app])))
         else if mayFile then Some(tx.(phase := WantLock)) else None
       case WantLock => Some(tx.(phase := Locked, locked := true))
       case Locked => Some(tx.(phase := if app in db.bindings then WantBinding(false) else SeenUnbound))
       case SeenUnbound =>
         if Matching(db, app, claims.identity) != {}
         then Some(tx.(phase := Refreshing(Matching(db, app, claims.identity))))
         else if |PendingIds(db)| < MAX_PENDING_REQUESTS then Some(tx.(phase := Filing)) else None
       case Holding(binding) => if Matches(binding, claims) then Some(tx.(phase := Issuing(binding))) else None
       case _ => None)
  }

  predicate Committable(tx: Tx)
  {
    if tx.ExchangeTx? then tx.phase.Refreshing? || tx.phase.Filing? || tx.phase.Issuing? else tx.step == Inserted
  }

  /** A statement waits while another transaction holds a lock it needs. */
  predicate Enabled(s: Sys, a: Action)
  {
    match a
    case Begin(t, tx) => t !in s.txs && Opening(tx)
    case Abort(t) => t in s.txs
    case Advance(t) => t in s.txs && Advanced(s.db, s.txs[t]).Some?
      && OthersCompatible(s, t, Advanced(s.db, s.txs[t]).value)
    case Commit(t) => t in s.txs && Committable(s.txs[t])
      && (s.txs[t].ApproveTx? ==> s.txs[t].id in s.db.requests)
    case Reject(id, _) => id in s.db.requests && forall u :: u in s.txs ==> id !in LockedRequests(s.txs[u])
    case Sweep(ids) => forall u :: u in s.txs ==> ids !! LockedRequests(s.txs[u])
    case Revoke(key, _) => key in s.db.keys &&
      forall u :: u in s.txs ==> !LocksKey(s.txs[u], s.db.keys[key])
    case Unbind(app) => forall u :: u in s.txs ==> !HoldsBinding(s.txs[u], app)
  }

  function Effect(db: Tables, tx: Tx): Tables
    requires tx.ApproveTx? ==> tx.id in db.requests
  {
    match tx
    case ApproveTx(id, _, at, _) => Approved(db, id, at)
    case ExchangeTx(app, claims, at, phase, _) =>
      var ledger := db.(jtis := db.jtis + {claims.jti});
      if phase.Refreshing? then Refreshed(ledger, phase.ids, claims, at)
      else if phase.Filing? then Filed(ledger, app, claims, at)
      else Issued(ledger, app, at)
  }

  function Next(s: Sys, a: Action): Sys
    requires Enabled(s, a)
  {
    match a
    case Begin(t, tx) => s.(txs := s.txs[t := tx])
    case Abort(t) => s.(txs := s.txs - {t})
    case Advance(t) => s.(txs := s.txs[t := Advanced(s.db, s.txs[t]).value])
    case Commit(t) => Sys(Effect(s.db, s.txs[t]), s.txs - {t})
    case Reject(id, at) => s.(db := Rejected(s.db, id, at))
    case Sweep(ids) => s.(db := Dropped(s.db, ids))
    case Revoke(key, at) => s.(db := Revoked(s.db, key, at))
    case Unbind(app) => s.(db := Unbound(s.db, app))
  }

  // ----- What an open transaction may rely on -------------------------------------------

  predicate ExchangeOk(db: Tables, tx: Tx)
    requires tx.ExchangeTx?
  {
    && (tx.phase != WantJti ==> tx.claims.jti !in db.jtis)
    && (tx.phase.Locked? || tx.phase.SeenUnbound? || tx.phase.Refreshing? || tx.phase.Filing? ==> tx.locked)
    && (tx.phase.SeenUnbound? || tx.phase.Refreshing? || tx.phase.Filing? ==> tx.app !in db.bindings)
    && (tx.phase.Filing? ==> |PendingIds(db)| < MAX_PENDING_REQUESTS && Matching(db, tx.app, tx.claims.identity) == {})
    && (tx.phase.Holding? || tx.phase.Issuing? ==> tx.app in db.bindings && db.bindings[tx.app] == tx.phase.binding)
    && (tx.phase.Issuing? ==> Matches(tx.phase.binding, tx.claims))
  }

  predicate ApproveOk(db: Tables, tx: Tx)
    requires tx.ApproveTx?
  {
    && (tx.step in {HasRow, NoOverlap, Inserted} ==> IsPending(db, tx.id) && db.requests[tx.id].appId == tx.expected)
    && (tx.step in {NoOverlap, Inserted} ==> !Overlaps(db, tx.expected))
    && (tx.step == Inserted ==> tx.expected !in db.bindings && !IdentityBound(db, db.requests[tx.id].identity))
  }

  predicate TxOk(db: Tables, tx: Tx) { if tx.ExchangeTx? then ExchangeOk(db, tx) else ApproveOk(db, tx) }

  ghost predicate Inv(s: Sys)
  {
    && Valid(s.db)
    && (forall t :: t in s.txs ==> TxOk(s.db, s.txs[t]))
    && forall t, u {:trigger Compatible(s.txs[t], s.txs[u])} | t in s.txs && u in s.txs && t != u ::
         Compatible(s.txs[t], s.txs[u])
  }

  /** What a change made by others must leave alone for tx. */
  predicate Spares(db: Tables, after: Tables, tx: Tx)
  {
    && (tx.ExchangeTx? && HoldsJti(tx, tx.claims.jti) ==> tx.claims.jti in after.jtis ==> tx.claims.jti in db.jtis)
    && (tx.ExchangeTx? && HoldsBinding(tx, tx.app) ==> tx.app in db.bindings ==>
          tx.app in after.bindings && after.bindings[tx.app] == db.bindings[tx.app])
    && (HoldsAdvisory(tx) ==> Shrinks(db, after) && KeepsRow(db, after, tx))
  }

  /** Nothing becomes bound or pending. */
  predicate Shrinks(db: Tables, after: Tables)
  {
    && (forall b :: b in after.bindings ==> b in db.bindings && after.bindings[b] == db.bindings[b])
    && PendingIds(after) <= PendingIds(db)
    && forall id :: id in PendingIds(after) ==> after.requests[id] == db.requests[id]
  }

  predicate KeepsRow(db: Tables, after: Tables, tx: Tx)
  {
    tx.ApproveTx? && tx.id in LockedRequests(tx) && tx.id in db.requests ==>
      tx.id in after.requests && after.requests[tx.id] == db.requests[tx.id]
  }

  lemma SparedStaysOk(db: Tables, after: Tables, tx: Tx)
    requires TxOk(db, tx) && Spares(db, after, tx)
    ensures TxOk(after, tx)
  {
    if HoldsAdvisory(tx) { SubsetSize(PendingIds(after), PendingIds(db)); }
  }

  lemma OthersStayOk(s: Sys, after: Sys)
    requires Inv(s) && Valid(after.db)
    requires forall u :: u in after.txs ==> u in s.txs && after.txs[u] == s.txs[u]
    requires forall u :: u in after.txs ==> Spares(s.db, after.db, s.txs[u])
    ensures Inv(after)
  {
    forall u | u in after.txs ensures TxOk(after.db, after.txs[u]) {
      SparedStaysOk(s.db, after.db, s.txs[u]);
    }
    forall t, u | t in after.txs && u in after.txs && t != u ensures Compatible(after.txs[t], after.txs[u]) {
      assert Compatible(s.txs[t], s.txs[u]);
    }
  }

  // ----- Each step keeps it -----------------------------------------------------------------

  lemma AdvancedOk(db: Tables, tx: Tx)
    requires TxOk(db, tx) && Advanced(db, tx).Some?
    ensures TxOk(db, Advanced(db, tx).value)
  {
  }

  lemma AdvanceKeeps(s: Sys, t: nat)
    requires Inv(s) && Enabled(s, Advance(t))
    ensures Inv(Next(s, Advance(t)))
  {
    AdvancedOk(s.db, s.txs[t]);
    var after := Next(s, Advance(t));
    forall u, v | u in after.txs && v in after.txs && u != v ensures Compatible(after.txs[u], after.txs[v]) {
      if u != t && v != t { assert Compatible(s.txs[u], s.txs[v]); }
    }
  }

  lemma OpenCloseKeeps(s: Sys, a: Action)
    requires Inv(s) && (a.Begin? || a.Abort?) && Enabled(s, a)
    ensures Inv(Next(s, a))
  {
    var after := Next(s, a);
    forall u, v | u in after.txs && v in after.txs && u != v ensures Compatible(after.txs[u], after.txs[v]) {
      if u in s.txs && v in s.txs { assert Compatible(s.txs[u], s.txs[v]); }
    }
  }

  lemma RequestStepKeeps(s: Sys, a: Action)
    requires Inv(s) && (a.Reject? || a.Sweep?) && Enabled(s, a)
    ensures Inv(Next(s, a))
  {
    var after := Next(s, a);
    FewerPendingValid(s.db, after.db);
    OthersStayOk(s, after);
  }

  lemma KeyStepKeeps(s: Sys, a: Action)
    requires Inv(s) && (a.Revoke? || a.Unbind?) && Enabled(s, a)
    ensures Inv(Next(s, a))
  {
    var after := Next(s, a);
    if a.Revoke? { RevokedValid(s.db, a.key, a.at); } else { UnboundValid(s.db, a.app); }
    assert PendingIds(after.db) == PendingIds(s.db);
    OthersStayOk(s, after);
  }

  lemma EffectValid(db: Tables, tx: Tx)
    requires Valid(db) && TxOk(db, tx) && Committable(tx)
    requires tx.ApproveTx? ==> tx.id in db.requests
    ensures Valid(Effect(db, tx))
  {
    if tx.ApproveTx? {
      ApprovedValid(db, tx.id, tx.at);
    } else {
      var ledger := db.(jtis := db.jtis + {tx.claims.jti});
      LedgerIsFree(db, ledger.jtis);
      assert PendingIds(ledger) == PendingIds(db);
      if tx.phase.Refreshing? { RefreshedValid(ledger, tx.phase.ids, tx.claims, tx.at); }
      else if tx.phase.Filing? { FiledValid(ledger, tx.app, tx.claims, tx.at); }
      else { IssuedValid(ledger, tx.app, tx.at); }
    }
  }

  /** A commit spares every other transaction: it needed the advisory lock, or only touched keys. */
  lemma EffectSpares(db: Tables, tx: Tx, other: Tx)
    requires TxOk(db, tx) && Committable(tx) && TxOk(db, other)
    requires Compatible(tx, other) && Compatible(other, tx)
    requires tx.ApproveTx? ==> tx.id in db.requests
    ensures Spares(db, Effect(db, tx), other)
  {
    if HoldsAdvisory(other) {
      assert tx.ExchangeTx? && tx.phase.Issuing?;
      assert PendingIds(Effect(db, tx)) == PendingIds(db);
    }
  }

  lemma CommitKeeps(s: Sys, t: nat)
    requires Inv(s) && Enabled(s, Commit(t))
    ensures Inv(Next(s, Commit(t)))
  {
    var after := Next(s, Commit(t));
    EffectValid(s.db, s.txs[t]);
    forall u | u in after.txs ensures Spares(s.db, after.db, s.txs[u]) {
      assert Compatible(s.txs[t], s.txs[u]) && Compatible(s.txs[u], s.txs[t]);
      EffectSpares(s.db, s.txs[t], s.txs[u]);
    }
    OthersStayOk(s, after);
  }

  lemma StepKeeps(s: Sys, a: Action)
    requires Inv(s) && Enabled(s, a)
    ensures Inv(Next(s, a))
  {
    match a
    case Advance(t) => AdvanceKeeps(s, t);
    case Commit(t) => CommitKeeps(s, t);
    case Reject(_, _) => RequestStepKeeps(s, a);
    case Sweep(_) => RequestStepKeeps(s, a);
    case Revoke(_, _) => KeyStepKeeps(s, a);
    case Unbind(_) => KeyStepKeeps(s, a);
    case _ => OpenCloseKeeps(s, a);
  }

  // ----- Main results over every run -----------------------------------------------------------

  ghost predicate Runs(s: Sys, run: seq<Action>)
    decreases |run|
  {
    run == [] || (Enabled(s, run[0]) && Runs(Next(s, run[0]), run[1..]))
  }

  ghost function Final(s: Sys, run: seq<Action>): Sys
    requires Runs(s, run)
    decreases |run|
  {
    if run == [] then s else Final(Next(s, run[0]), run[1..])
  }

  lemma {:induction false} RunKeeps(s: Sys, run: seq<Action>)
    requires Inv(s) && Runs(s, run)
    ensures Inv(Final(s, run))
    decreases |run|
  {
    if run != [] {
      StepKeeps(s, run[0]);
      RunKeeps(Next(s, run[0]), run[1..]);
    }
  }

  /** Whatever interleaves: at most 20 pending requests, and none of them for a bound app. */
  lemma PendingStaysBounded(run: seq<Action>, id: nat)
    requires Runs(EMPTY, run)
    ensures var db := Final(EMPTY, run).db;
      |PendingIds(db)| <= MAX_PENDING_REQUESTS && (IsPending(db, id) ==> db.requests[id].appId !in db.bindings)
  {
    RunKeeps(EMPTY, run);
  }

  /** Whatever interleaves: one owner per destination name, and one app per workflow identity. */
  lemma NamesHaveOneOwner(run: seq<Action>, a: string, b: string, destination: string)
    requires Runs(EMPTY, run)
    requires a in Final(EMPTY, run).db.bindings && b in Final(EMPTY, run).db.bindings
    ensures StartsWith(destination, a + "_") && StartsWith(destination, b + "_") ==> a == b
    ensures var db := Final(EMPTY, run).db; db.bindings[a].identity == db.bindings[b].identity ==> a == b
  {
    RunKeeps(EMPTY, run);
    var db := Final(EMPTY, run).db;
    if StartsWith(destination, a + "_") && StartsWith(destination, b + "_") { OneOwnerPerName(db, a, b, destination); }
    assert a != b ==> ApartBindings(db, a, b);
  }

  /** Whatever interleaves: an app has at most one key that is neither superseded nor revoked, and only while bound. */
  lemma OneActiveKeyPerApp(run: seq<Action>, j: nat, k: nat)
    requires Runs(EMPTY, run)
    requires j in Final(EMPTY, run).db.keys && k in Final(EMPTY, run).db.keys
    ensures var db := Final(EMPTY, run).db;
      && db.keys[j].appId in db.bindings
      && (db.keys[j].appId == db.keys[k].appId && Active(db.keys[j]) && Active(db.keys[k]) ==> j == k)
  {
    RunKeeps(EMPTY, run);
    var db := Final(EMPTY, run).db;
    assert j != k ==> !RivalKeys(db.keys[j], db.keys[k]);
  }

  /** Works now, under the row with this id. */
  predicate Works(db: Tables, k: nat, now: Time) { k in db.keys && KeyValid(db.keys[k].record, now) }

  lemma DeadKeyStaysDead(s: Sys, a: Action, k: nat, now: Time)
    requires Inv(s) && Enabled(s, a) && k < s.db.nextKey && !Works(s.db, k, now)
    ensures k < Next(s, a).db.nextKey && !Works(Next(s, a).db, k, now)
  {
    if a.Commit? && s.txs[a.t].ExchangeTx? && s.txs[a.t].phase.Issuing? && k in s.db.keys {
      IssueRotates(s.db, s.txs[a.t].app, s.txs[a.t].at, k, now);
    }
  }

  /** Once an issued key does not work, no later step and no later time makes it work again. */
  lemma {:induction false} DeadKeysStayDead(s: Sys, run: seq<Action>, k: nat, now: Time, later: Time)
    requires Inv(s) && Runs(s, run) && k < s.db.nextKey && !Works(s.db, k, now) && now <= later
    ensures !Works(Final(s, run).db, k, later)
    decreases |run|
  {
    if run == [] {
      if k in s.db.keys { GuardIsValidity(s.db.keys[k].record, now, later); }
    } else {
      StepKeeps(s, run[0]);
      DeadKeyStaysDead(s, run[0], k, now);
      DeadKeysStayDead(Next(s, run[0]), run[1..], k, now, later);
    }
  }

  /** A key is issued only on a fresh token whose five claims are those of the app's binding at that very commit. */
  lemma KeysAreEarned(run: seq<Action>, a: Action, k: nat)
    requires Runs(EMPTY, run) && Enabled(Final(EMPTY, run), a)
    requires k !in Final(EMPTY, run).db.keys && k in Next(Final(EMPTY, run), a).db.keys
    ensures var s := Final(EMPTY, run);
      && a.Commit? && s.txs[a.t].ExchangeTx? && s.txs[a.t].claims.jti !in s.db.jtis
      && s.txs[a.t].claims.jti in Next(s, a).db.jtis
      && var app := s.txs[a.t].app;
         app in s.db.bindings && Matches(s.db.bindings[app], s.txs[a.t].claims) && Next(s, a).db.keys[k].appId == app
  {
    RunKeeps(EMPTY, run);
    var s := Final(EMPTY, run);
    if a.Commit? { assert TxOk(s.db, s.txs[a.t]); }
  }
}
