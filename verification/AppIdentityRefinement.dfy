// An exchange or approval of the interleaving model that nobody disturbs does what the
// transaction does on its own (delivery-api/internal/appidentity).
module AppIdentityRefinement {
  import opened Common
  import opened AppIdentityTables
  import Runs = AppIdentityRuns

  /** The statements that can still run: one advance after another until one fails or the transaction can commit. */
  ghost predicate Leads(s: Runs.Sys, steps: seq<Runs.Action>, t: Runs.Sys)
    decreases |steps|
  {
    if steps == [] then t == s
    else Runs.Enabled(s, steps[0]) && Leads(Runs.Next(s, steps[0]), steps[1..], t)
  }

  lemma {:induction false} OneMore(s: Runs.Sys, steps: seq<Runs.Action>, mid: Runs.Sys, a: Runs.Action)
    requires Leads(s, steps, mid) && Runs.Enabled(mid, a)
    ensures Leads(s, steps + [a], Runs.Next(mid, a))
    decreases |steps|
  {
    if steps == [] {
      assert ([] + [a])[1..] == [];
    } else {
      OneMore(Runs.Next(s, steps[0]), steps[1..], mid, a);
      assert (steps + [a])[1..] == steps[1..] + [a];
    }
  }

  function AloneWith(db: Tables, t: nat, tx: Runs.Tx): Runs.Sys { Runs.Sys(db, map[t := tx]) }

  /** The next statement of the only open transaction, or its abort where the statement fails. */
  lemma Advances(s: Runs.Sys, steps: seq<Runs.Action>, db: Tables, t: nat, tx: Runs.Tx)
    returns (more: seq<Runs.Action>, after: Runs.Sys)
    requires Leads(s, steps, AloneWith(db, t, tx))
    ensures Leads(s, more, after)
    ensures var next := Runs.Advanced(db, tx);
      after == if next.Some? then AloneWith(db, t, next.value) else Runs.Sys(db, map[])
  {
    var mid := AloneWith(db, t, tx);
    var a := if Runs.Advanced(db, tx).Some? then Runs.Advance(t) else Runs.Abort(t);
    OneMore(s, steps, mid, a);
    more, after := steps + [a], Runs.Next(mid, a);
    assert map[t := tx] - {t} == map[];
  }

  lemma Commits(s: Runs.Sys, steps: seq<Runs.Action>, db: Tables, t: nat, tx: Runs.Tx)
    returns (more: seq<Runs.Action>, after: Runs.Sys)
    requires Leads(s, steps, AloneWith(db, t, tx)) && Runs.Committable(tx) && (tx.ApproveTx? ==> tx.id in db.requests)
    ensures Leads(s, more, after) && after == Runs.Sys(Runs.Effect(db, tx), map[])
  {
    var mid := AloneWith(db, t, tx);
    OneMore(s, steps, mid, Runs.Commit(t));
    more, after := steps + [Runs.Commit(t)], Runs.Next(mid, Runs.Commit(t));
    assert map[t := tx] - {t} == map[];
  }

  /** What one exchange makes of the tables: a key, a refreshed or filed request, or nothing. */
  function Exchanged(db: Tables, app: string, claims: Claims, at: Time): Tables
  {
    var recorded := db.(jtis := db.jtis + {claims.jti});
    if claims.jti in db.jtis then db
    else if app in db.bindings then (if Matches(db.bindings[app], claims) then Issued(recorded, app, at) else db)
    else if Matching(db, app, claims.identity) != {}
    then Refreshed(recorded, Matching(db, app, claims.identity), claims, at)
    else if |PendingIds(db)| < MAX_PENDING_REQUESTS then Filed(recorded, app, claims, at)
    else db
  }

  /** An exchange of an app that is bound: the token, the binding, the match, the key. */
  lemma BoundExchangeAlone(db: Tables, t: nat, app: string, claims: Claims, at: Time)
    returns (steps: seq<Runs.Action>, after: Runs.Sys)
    requires claims.jti !in db.jtis && app in db.bindings
    ensures var s := AloneWith(db, t, Runs.ExchangeTx(app, claims, at, Runs.WantJti, false));
      Leads(s, steps, after) && after == Runs.Sys(Exchanged(db, app, claims, at), map[])
  {
    var tx := Runs.ExchangeTx(app, claims, at, Runs.WantJti, false);
    var s := AloneWith(db, t, tx);
    steps, after := Advances(s, [], db, t, tx);
    steps, after := Advances(s, steps, db, t, tx.(phase := Runs.WantBinding(true)));
    tx := tx.(phase := Runs.Holding(db.bindings[app]));
    steps, after := Advances(s, steps, db, t, tx);
    if Matches(db.bindings[app], claims) {
      steps, after := Commits(s, steps, db, t, tx.(phase := Runs.Issuing(db.bindings[app])));
    }
  }

  /** An exchange of an app that is not: the token, the advisory lock, a second look, the request. */
  lemma UnboundExchangeAlone(db: Tables, t: nat, app: string, claims: Claims, at: Time)
    returns (steps: seq<Runs.Action>, after: Runs.Sys)
    requires claims.jti !in db.jtis && app !in db.bindings
    ensures var s := AloneWith(db, t, Runs.ExchangeTx(app, claims, at, Runs.WantJti, false));
      Leads(s, steps, after) && after == Runs.Sys(Exchanged(db, app, claims, at), map[])
  {
    var tx := Runs.ExchangeTx(app, claims, at, Runs.WantJti, false);
    var s := AloneWith(db, t, tx);
    steps, after := Advances(s, [], db, t, tx);
    steps, after := Advances(s, steps, db, t, tx.(phase := Runs.WantBinding(true)));
    steps, after := Advances(s, steps, db, t, tx.(phase := Runs.WantLock));
    tx := tx.(phase := Runs.Locked, locked := true);
    steps, after := Advances(s, steps, db, t, tx);
    steps, after := Advances(s, steps, db, t, tx.(phase := Runs.SeenUnbound));
    var matching := Matching(db, app, claims.identity);
    if matching != {} {
      steps, after := Commits(s, steps, db, t, tx.(phase := Runs.Refreshing(matching)));
    } else if |PendingIds(db)| < MAX_PENDING_REQUESTS {
      steps, after := Commits(s, steps, db, t, tx.(phase := Runs.Filing));
    }
  }

  /** The statements of an exchange, run to the end, are the exchange. */
  lemma ExchangeAlone(db: Tables, t: nat, app: string, claims: Claims, at: Time)
    returns (steps: seq<Runs.Action>, after: Runs.Sys)
    ensures var s := AloneWith(db, t, Runs.ExchangeTx(app, claims, at, Runs.WantJti, false));
      Leads(s, steps, after) && after == Runs.Sys(Exchanged(db, app, claims, at), map[])
  {
    if claims.jti in db.jtis {
      var tx := Runs.ExchangeTx(app, claims, at, Runs.WantJti, false);
      steps, after := Advances(AloneWith(db, t, tx), [], db, t, tx);
    } else if app in db.bindings {
      steps, after := BoundExchangeAlone(db, t, app, claims, at);
    } else {
      steps, after := UnboundExchangeAlone(db, t, app, claims, at);
    }
  }

  /** The statements of an approval bind the app exactly when the transaction on its own succeeds. */
  lemma ApproveAlone(db: Tables, t: nat, id: nat, expected: string, at: Time)
    returns (steps: seq<Runs.Action>, after: Runs.Sys)
    ensures Leads(AloneWith(db, t, Runs.ApproveTx(id, expected, at, Runs.WantsLock)), steps, after)
    ensures after.txs == map[]
    ensures after.db ==
      if IsPending(db, id) && db.requests[id].appId == expected && expected !in db.bindings
         && !Overlaps(db, expected) && !IdentityBound(db, db.requests[id].identity)
      then Approved(db, id, at) else db
  {
    var tx := Runs.ApproveTx(id, expected, at, Runs.WantsLock);
    var s := AloneWith(db, t, tx);
    steps, after := Advances(s, [], db, t, tx);
    steps, after := Advances(s, steps, db, t, tx.(step := Runs.WantsRow));
    if t !in after.txs { return; }
    steps, after := Advances(s, steps, db, t, tx.(step := Runs.HasRow));
    if t !in after.txs { return; }
    steps, after := Advances(s, steps, db, t, tx.(step := Runs.NoOverlap));
    if t !in after.txs { return; }
    steps, after := Commits(s, steps, db, t, tx.(step := Runs.Inserted));
  }
}
