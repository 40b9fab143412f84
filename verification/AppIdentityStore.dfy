// The app identity transactions, each run on its own (delivery-api/internal/appidentity/
// pgstore.go, pgstore_admin.go, service.go).
module AppIdentityStore {
  import opened Common
  import opened AppIdentityTables

  const RESERVED_APP_ID := "everyone"
  const REJECTED_REQUEST_WINDOW: Time := 30 * 24 * HOUR

  datatype IdentityError =
    | InvalidAppId | Replayed | BindingAppeared | PendingCap | BindingMismatch
    | RequestNotFound | RequestNotPending | RequestChanged | AppIdOverlap | AppAlreadyBound | WorkflowIdentityBound
    | KeyNotFound | InvalidTtl

  predicate ExpiredRejection(r: Request, now: Time)
  {
    r.status == RequestRejected && r.decidedAt.Some? && r.decidedAt.value < now - REJECTED_REQUEST_WINDOW
  }

  datatype ExchangeResult = ExchangePending(requestId: nat) | ExchangeIssued(keyId: nat)

  /** Other transactions, committing at each gap of an exchange. */
  type Others = (nat, Tables) -> Tables

  ghost predicate KeepValid(others: Others) { forall k, t :: Valid(t) ==> Valid(others(k, t)) }

  /** Nobody else records this token id while its row is uncommitted: they wait on its key. */
  ghost predicate KeepJti(others: Others, jti: string)
  {
    forall k, t: Tables :: jti in others(k, t).jtis <==> jti in t.jtis
  }

  ghost predicate Alone(others: Others) { forall k, t :: others(k, t) == t }

  /** The state an exchange acts on: the one it first read, or the one its second statement or look met. */
  ghost function Base(t: Tables, app: string, mayFile: bool, others: Others): Tables
  {
    if app in t.bindings || !mayFile then t
    else
      var met := others(0, t);
      if app in met.bindings then others(1, met) else met
  }

  /** Whether the binding was looked for again, or could not be. */
  ghost predicate LooksAgain(t: Tables, app: string, mayFile: bool, others: Others)
  {
    app !in t.bindings && (!mayFile || app in others(0, t).bindings)
  }

  /** A token that is not refused at the door. */
  predicate Earns(t: Tables, app: string, claims: Claims) { app != RESERVED_APP_ID && claims.jti !in t.jtis }

  predicate CanFile(t: Tables, app: string, identity: Identity)
  {
    Matching(t, app, identity) != {} || |PendingIds(t)| < MAX_PENDING_REQUESTS
  }

  /** The claims are the binding's, and the app has one new key from now on; the one it replaces is superseded now. */
  ghost predicate IssuedTo(base: Tables, after: Tables, app: string, claims: Claims, now: Time)
  {
    && app in base.bindings && base.bindings[app].identity == claims.identity && base.bindings[app].ownerId == claims.ownerId
    && OnlyKeys(base, after) && base.nextKey !in base.keys && after.keys.Keys == base.keys.Keys + {base.nextKey}
    && after.keys[base.nextKey] == Key(app, now, KeyRecord(None, None))
    && forall k :: k in base.keys ==>
         if base.keys[k].appId == app && base.keys[k].record == KeyRecord(None, None)
         then after.keys[k] == base.keys[k].(record := KeyRecord(Some(now), None)) else after.keys[k] == base.keys[k]
  }

  /** The app is bound to what the request asked for, and the requests it settles are gone. */
  ghost predicate BoundAs(before: Tables, after: Tables, id: nat, app: string, now: Time)
    requires id in before.requests
  {
    var r := before.requests[id];
    && after.bindings == before.bindings[app := Binding(r.identity, r.ownerId, r.repository, now)]
    && after.keys == before.keys && after.jtis == before.jtis
    && (forall other :: other in after.requests <==>
          other in before.requests && other != id
          && !(IsPending(before, other) && (before.requests[other].appId == app || before.requests[other].identity == r.identity)))
    && forall other :: other in after.requests ==> after.requests[other] == before.requests[other]
  }

  class IdentityStore {
    var t: Tables

    constructor ()
      ensures t == NO_ROWS && Valid(t)
    {
      t := NO_ROWS;
    }

    /** Refresh the matching pending request, or file one below the cap. */
    method FilePendingRequest(app: string, claims: Claims, now: Time) returns (r: Result<nat, IdentityError>)
      requires Valid(t)
      modifies this
      ensures Valid(t)
      ensures r == Err(BindingAppeared) <==> app in old(t).bindings
      ensures r == Err(PendingCap) <==>
        app !in old(t).bindings && Matching(old(t), app, claims.identity) == {}
        && |PendingIds(old(t))| >= MAX_PENDING_REQUESTS
      ensures r.Err? ==> t == old(t) && r.error in {BindingAppeared, PendingCap}
      ensures r.Ok? ==>
        && IsPending(t, r.value) && t.requests[r.value].appId == app && t.requests[r.value].identity == claims.identity
        && t.requests[r.value].runId == claims.runId && t.requests[r.value].updatedAt == StoreTime(now)
        && t == if Matching(old(t), app, claims.identity) != {}
                then Refreshed(old(t), {r.value}, claims, StoreTime(now))
                else Filed(old(t), app, claims, StoreTime(now))
      ensures r.Ok? ==> OnlyRequests(old(t), t) && OtherRequestsKept(old(t), t, r.value)
      ensures r.Ok? ==> (r.value in old(t).requests <==>
        exists id :: IsPending(old(t), id) && old(t).requests[id].appId == app && old(t).requests[id].identity == claims.identity)
      ensures r.Ok? && r.value in old(t).requests ==>
        FiledFor(t.requests[r.value].(decidedAt := None), app, claims, old(t).requests[r.value].createdAt, StoreTime(now))
      ensures r.Ok? && r.value !in old(t).requests ==>
        FiledFor(t.requests[r.value], app, claims, StoreTime(now), StoreTime(now))
    {
      if app in t.bindings { return Err(BindingAppeared); }
      if id :| id in Matching(t, app, claims.identity) {
        RefreshedValid(t, {id}, claims, StoreTime(now));
        RefreshRewrites(t, app, id, claims, StoreTime(now));
        t := Refreshed(t, {id}, claims, StoreTime(now));
        return Ok(id);
      }
      if |PendingIds(t)| >= MAX_PENDING_REQUESTS { return Err(PendingCap); }
      FiledValid(t, app, claims, StoreTime(now));
      FilingAdds(t, app, claims, StoreTime(now));
      assert forall id :: IsPending(t, id) && t.requests[id].appId == app && t.requests[id].identity == claims.identity ==>
        id in Matching(t, app, claims.identity);
      t := Filed(t, app, claims, StoreTime(now));
      r := Ok(t.nextRequest - 1);
    }

    /**
     * Read the binding and act on it. Other transactions commit between an unbound read and the
     * lock; a binding that appears there gets exactly one more look. base is the state acted on.
     */
    method DecideClaims(app: string, claims: Claims, now: Time, mayFile: bool, others: Others)
      returns (r: Result<ExchangeResult, IdentityError>, ghost base: Tables)
      requires Valid(t) && KeepValid(others)
      modifies this
      decreases mayFile
      ensures Valid(t) && base == Base(old(t), app, mayFile, others)
      ensures KeepJti(others, claims.jti) ==> (claims.jti in t.jtis <==> claims.jti in old(t).jtis)
      ensures r.Err? ==> t == base
      ensures r.Ok? && r.value.ExchangeIssued? ==>
        && app in base.bindings && Matches(base.bindings[app], claims)
        && r.value.keyId == base.nextKey && t == Issued(base, app, StoreTime(now))
        && IssuedTo(base, t, app, claims, StoreTime(now))
      ensures r.Ok? && r.value.ExchangePending? ==>
        && app !in t.bindings && IsPending(t, r.value.requestId) && t.requests[r.value.requestId].appId == app
        && t == base.(requests := t.requests, nextRequest := t.nextRequest)
      ensures app in base.bindings ==>
        if Matches(base.bindings[app], claims) then r == Ok(ExchangeIssued(base.nextKey)) else r == Err(BindingMismatch)
      ensures app !in base.bindings && LooksAgain(old(t), app, mayFile, others) ==> r == Err(BindingAppeared)
      ensures app !in base.bindings && !LooksAgain(old(t), app, mayFile, others) ==>
        if CanFile(base, app, claims.identity) then r.Ok? && r.value.ExchangePending? else r == Err(PendingCap)
    {
      base := t;
      if app !in t.bindings {
        if !mayFile { return Err(BindingAppeared), base; }
        t := others(0, t);
        base := t;
        var filed := FilePendingRequest(app, claims, now);
        if filed == Err(BindingAppeared) {
          t := others(1, t);
          r, base := DecideClaims(app, claims, now, false, others);
          return;
        }
        if filed.Err? { return Err(filed.error), base; }
        return Ok(ExchangePending(filed.value)), base;
      }
      if !Matches(t.bindings[app], claims) { return Err(BindingMismatch), base; }
      IssuedValid(t, app, StoreTime(now));
      IssueAdds(t, app, StoreTime(now));
      t := Issued(t, app, StoreTime(now));
      r := Ok(ExchangeIssued(t.nextKey - 1));
    }

    /** One exchange of a verified token: the ledger row, the key and the request commit together or not at all. */
    method Exchange(app: string, claims: Claims, now: Time, others: Others)
      returns (r: Result<ExchangeResult, IdentityError>, ghost base: Tables)
      requires Valid(t) && KeepValid(others) && KeepJti(others, claims.jti)
      modifies this
      ensures Valid(t)
      ensures r.Err? && Alone(others) ==> t == old(t)
      ensures r == Err(InvalidAppId) <==> app == RESERVED_APP_ID
      ensures r == Err(Replayed) <==> app != RESERVED_APP_ID && claims.jti in old(t).jtis
      ensures r.Ok? <==> claims.jti in t.jtis && claims.jti !in old(t).jtis
      ensures r.Ok? && r.value.ExchangePending? ==>
        && app !in t.bindings && IsPending(t, r.value.requestId) && t.requests[r.value.requestId].appId == app
        && t.keys == base.keys && t.bindings == base.bindings
      ensures Earns(old(t), app, claims) ==>
        var recorded := old(t).(jtis := old(t).jtis + {claims.jti});
        && base == Base(recorded, app, true, others)
        && (app in base.bindings && Matches(base.bindings[app], claims) <==> r.Ok? && r.value.ExchangeIssued?)
        && (app in base.bindings && !Matches(base.bindings[app], claims) <==> r == Err(BindingMismatch))
        && (app !in base.bindings && LooksAgain(recorded, app, true, others) <==> r == Err(BindingAppeared))
        && (app !in base.bindings && !LooksAgain(recorded, app, true, others) ==>
              (CanFile(base, app, claims.identity) <==> r.Ok? && r.value.ExchangePending?)
              && (!CanFile(base, app, claims.identity) <==> r == Err(PendingCap)))
      ensures r.Ok? && r.value.ExchangeIssued? ==>
        && app in base.bindings && Matches(base.bindings[app], claims)
        && r.value.keyId == base.nextKey && t == Issued(base, app, StoreTime(now))
        && IssuedTo(base, t, app, claims, StoreTime(now))
    {
      base := t;
      if app == RESERVED_APP_ID { return Err(InvalidAppId), base; }
      if claims.jti in t.jtis { return Err(Replayed), base; }
      LedgerIsFree(t, t.jtis + {claims.jti});
      t := t.(jtis := t.jtis + {claims.jti});
      r, base := DecideClaims(app, claims, now, true, others);
      if r.Err? {
        LedgerIsFree(t, t.jtis - {claims.jti});
        t := t.(jtis := t.jtis - {claims.jti});
      }
    }

    method ApproveRequest(id: nat, expectedApp: string, now: Time) returns (r: Result<Binding, IdentityError>)
      requires Valid(t)
      modifies this
      ensures Valid(t)
      ensures r.Err? ==> t == old(t)
      ensures r.Ok? <==>
        && IsPending(old(t), id) && old(t).requests[id].appId == expectedApp
        && expectedApp !in old(t).bindings && !Overlaps(old(t), expectedApp)
        && (forall b :: b in old(t).bindings ==> old(t).bindings[b].identity != old(t).requests[id].identity)
      ensures r.Ok? ==>
        && t == Approved(old(t), id, StoreTime(now)) && expectedApp in t.bindings && t.bindings[expectedApp] == r.value
        && BoundAs(old(t), t, id, expectedApp, StoreTime(now))
      ensures r == Err(AppIdOverlap) <==>
        IsPending(old(t), id) && old(t).requests[id].appId == expectedApp && Overlaps(old(t), expectedApp)
      ensures r == Err(RequestNotFound) <==> id !in old(t).requests
      ensures r == Err(RequestNotPending) <==> id in old(t).requests && old(t).requests[id].status != RequestPending
      ensures r == Err(RequestChanged) <==> IsPending(old(t), id) && old(t).requests[id].appId != expectedApp
      ensures r == Err(AppAlreadyBound) <==>
        && IsPending(old(t), id) && old(t).requests[id].appId == expectedApp
        && !Overlaps(old(t), expectedApp) && expectedApp in old(t).bindings
    {
      if id !in t.requests { return Err(RequestNotFound); }
      var request := t.requests[id];
      if request.status != RequestPending { return Err(RequestNotPending); }
      if request.appId != expectedApp { return Err(RequestChanged); }
      if Overlaps(t, request.appId) { return Err(AppIdOverlap); }
      if request.appId in t.bindings || IdentityBound(t, request.identity) {
        return Err(if request.appId in t.bindings then AppAlreadyBound else WorkflowIdentityBound);
      }
      ApprovedValid(t, id, StoreTime(now));
      forall other { ApprovalBinds(t, id, StoreTime(now), other); }
      t := Approved(t, id, StoreTime(now));
      r := Ok(t.bindings[expectedApp]);
    }

    /** Rejecting a rejected request changes nothing. */
    method RejectRequest(id: nat, now: Time) returns (r: Result<nat, IdentityError>)
      requires Valid(t)
      modifies this
      ensures Valid(t)
      ensures r.Ok? <==> id in old(t).requests
      ensures t == if r.Ok? then Rejected(old(t), id, StoreTime(now)) else old(t)
      ensures PendingIds(t) == PendingIds(old(t)) - {id}
      ensures OnlyRequests(old(t), t) && OtherRequestsKept(old(t), t, id)
      ensures r.Ok? ==> id in t.requests && t.requests[id].status == RequestRejected
      ensures r.Ok? && old(t).requests[id].status == RequestPending ==>
        t.requests[id] == old(t).requests[id].(status := RequestRejected, updatedAt := StoreTime(now), decidedAt := Some(StoreTime(now)))
    {
      if id !in t.requests { return Err(RequestNotFound); }
      RejectionMarks(t, id, StoreTime(now));
      FewerPendingValid(t, Rejected(t, id, StoreTime(now)));
      t := Rejected(t, id, StoreTime(now));
      r := Ok(id);
    }

    /** Afterwards the key does not work, whether or not this call revoked it. */
    method RevokeKey(k: nat, now: Time) returns (r: Result<KeyState, IdentityError>)
      requires Valid(t)
      modifies this
      ensures Valid(t)
      ensures r.Ok? <==> k in old(t).keys
      ensures t == if r.Ok? then Revoked(old(t), k, StoreTime(now)) else old(t)
      ensures r.Ok? ==> r.value == KeyRevoked && !KeyValid(t.keys[k].record, StoreTime(now))
      ensures r.Ok? && !KeyValid(old(t).keys[k].record, StoreTime(now)) ==> t == old(t)
      ensures OnlyKeys(old(t), t) && t.keys.Keys == old(t).keys.Keys
      ensures forall other :: other in old(t).keys && other != k ==> t.keys[other] == old(t).keys[other]
      ensures r.Ok? && KeyValid(old(t).keys[k].record, StoreTime(now)) ==>
        t.keys[k] == old(t).keys[k].(record := old(t).keys[k].record.(revokedAt := Some(StoreTime(now))))
    {
      if k !in t.keys { return Err(KeyNotFound); }
      RevocationMarks(t, k, StoreTime(now));
      GuardIsValidity(t.keys[k].record, StoreTime(now), StoreTime(now));
      RevokedValid(t, k, StoreTime(now));
      t := Revoked(t, k, StoreTime(now));
      r := Ok(StateOf(t.keys[k].record, StoreTime(now)));
    }

    method Unbind(app: string) returns (deleted: bool)
      requires Valid(t)
      modifies this
      ensures Valid(t)
      ensures deleted <==> app in old(t).bindings
      ensures t == Unbound(old(t), app)
      ensures forall k :: k in t.keys ==> t.keys[k].appId != app
      ensures UnboundExactly(old(t), t, app)
    {
      UnbindingTakes(t, app);
      deleted := app in t.bindings;
      UnboundValid(t, app);
      t := Unbound(t, app);
    }

    /** A presented key resolves exactly while its row is there and works. */
    method ResolveKey(hashed: Option<nat>, now: Time) returns (app: Option<string>)
      ensures app.Some? <==>
        hashed.Some? && hashed.value in t.keys && KeyValid(t.keys[hashed.value].record, StoreTime(now))
      ensures app.Some? ==> app.value == t.keys[hashed.value].appId
      ensures Valid(t) && app.Some? ==> app.value in t.bindings
    {
      if hashed.None? || hashed.value !in t.keys { return None; }
      var valid := false;
      var record := t.keys[hashed.value].record;
      if record.revokedAt.None? {
        if record.supersededAt.None? {
          valid := true;
        } else if StoreTime(now) < record.supersededAt.value + SUPERSEDED_GRACE {
          valid := true;
        }
      }
      app := if valid then Some(t.keys[hashed.value].appId) else None;
    }

    method DeleteStalePendingRequests(now: Time, ttl: Time) returns (r: Result<nat, IdentityError>)
      requires Valid(t)
      modifies this
      ensures Valid(t)
      ensures r.Err? <==> ttl <= 0
      ensures var stale := set id | id in PendingIds(old(t)) && old(t).requests[id].updatedAt < StoreTime(now) - ttl;
        && (r.Err? ==> t == old(t))
        && (r.Ok? ==>
              && t == Dropped(old(t), stale) && r.value == |stale|
              && OnlyRequests(old(t), t) && t.requests == old(t).requests - stale)
    {
      if ttl <= 0 { return Err(InvalidTtl); }
      var stale := set id | id in PendingIds(t) && t.requests[id].updatedAt < StoreTime(now) - ttl;
      FewerPendingValid(t, Dropped(t, stale));
      t := Dropped(t, stale);
      r := Ok(|stale|);
    }

    method DeleteExpiredRejectedRequests(now: Time) returns (deleted: nat)
      requires Valid(t)
      modifies this
      ensures Valid(t) && PendingIds(t) == PendingIds(old(t))
      ensures forall id :: id in old(t).requests ==>
        var row := old(t).requests[id];
        id !in t.requests <==>
          row.status == RequestRejected && row.decidedAt.Some? && row.decidedAt.value + 30 * 24 * HOUR < StoreTime(now)
      ensures OnlyRequests(old(t), t)
      ensures forall id :: id in t.requests ==> id in old(t).requests && t.requests[id] == old(t).requests[id]
      ensures deleted == |old(t).requests| - |t.requests|
    {
      var expired := set id | id in t.requests && ExpiredRejection(t.requests[id], StoreTime(now));
      FewerPendingValid(t, Dropped(t, expired));
      SubsetSize(expired, t.requests.Keys);
      assert Dropped(t, expired).requests.Keys == t.requests.Keys - expired;
      t := Dropped(t, expired);
      deleted := |expired|;
    }
  }
}
