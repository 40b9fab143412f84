// Bindings, registration requests, keys and the replay ledger: the effect of
// each transaction and what every committed state satisfies (delivery-api/internal/appidentity).
module AppIdentityTables {
  import opened Common

  const MAX_PENDING_REQUESTS: nat := 20
  const SUPERSEDED_GRACE: Time := 24 * HOUR

  // ----- Rows -----------------------------------------------------------------

  /** What makes two workflows the same one; no environment is a value of its own. */
  datatype Identity = Identity(repositoryId: int, workflowPath: string, gitRef: string, environment: Option<string>)

  datatype Claims = Claims(identity: Identity, ownerId: int, repository: string, runId: string, jti: string)

  datatype Binding = Binding(identity: Identity, ownerId: int, repository: string, approvedAt: Time)

  datatype RequestStatus = RequestPending | RequestRejected

  datatype Request = Request(
    appId: string, identity: Identity, ownerId: int, repository: string, runId: string,
    status: RequestStatus, createdAt: Time, updatedAt: Time, decidedAt: Option<Time>)

  datatype KeyRecord = KeyRecord(supersededAt: Option<Time>, revokedAt: Option<Time>)

  datatype Key = Key(appId: string, createdAt: Time, record: KeyRecord)

  datatype Tables = Tables(
    requests: map<nat, Request>, bindings: map<string, Binding>, keys: map<nat, Key>, jtis: set<string>,
    nextRequest: nat, nextKey: nat)

  const NO_ROWS := Tables(map[], map[], map[], {}, 0, 0)

  // ----- Keys -----------------------------------------------------------------

  /** Revoked never works; superseded works strictly before the end of its grace. */
  predicate KeyValid(k: KeyRecord, now: Time)
  {
    k.revokedAt.None? && (k.supersededAt.None? || now < k.supersededAt.value + SUPERSEDED_GRACE)
  }

  datatype KeyState = KeyActive | KeySuperseded | KeyRevoked

  function StateOf(k: KeyRecord, now: Time): KeyState
  {
    if !KeyValid(k, now) then KeyRevoked else if k.supersededAt.Some? then KeySuperseded else KeyActive
  }

  /** The WHERE clause a revocation is guarded by. */
  predicate RevokeGuard(k: KeyRecord, now: Time)
  {
    k.revokedAt.None? && (k.supersededAt.None? || k.supersededAt.value > now - SUPERSEDED_GRACE)
  }

  predicate Active(k: Key) { k.record.supersededAt.None? && k.record.revokedAt.None? }

  /** The guard revokes exactly the keys that still work, and a revoked key never works again. */
  lemma GuardIsValidity(k: KeyRecord, now: Time, later: Time)
    ensures RevokeGuard(k, now) <==> KeyValid(k, now)
    ensures now <= later && !KeyValid(k, now) ==> !KeyValid(k, later)
    ensures StateOf(k, now) == KeyActive <==> k.supersededAt.None? && k.revokedAt.None?
    ensures StateOf(k, now) == KeyRevoked <==> !KeyValid(k, now)
  {
  }

  // ----- Statements -------------------------------------------------------------

  predicate IsPending(t: Tables, id: nat) { id in t.requests && t.requests[id].status == RequestPending }

  function PendingIds(t: Tables): set<nat> { set id | id in t.requests && t.requests[id].status == RequestPending }

  /** The pending requests a repeat exchange refreshes. */
  function Matching(t: Tables, app: string, identity: Identity): set<nat>
  {
    set id | id in PendingIds(t) && t.requests[id].appId == app && t.requests[id].identity == identity
  }

  function Refresh(r: Request, claims: Claims, now: Time): Request
  {
    r.(updatedAt := now, runId := claims.runId, repository := claims.repository, ownerId := claims.ownerId)
  }

  function Refreshed(t: Tables, ids: set<nat>, claims: Claims, now: Time): Tables
  {
    t.(requests := map id | id in t.requests :: if id in ids then Refresh(t.requests[id], claims, now) else t.requests[id])
  }

  function FiledRequest(app: string, c: Claims, now: Time): Request
  {
    Request(app, c.identity, c.ownerId, c.repository, c.runId, RequestPending, now, now, None)
  }

  function Filed(t: Tables, app: string, claims: Claims, now: Time): Tables
  {
    t.(requests := t.requests[t.nextRequest := FiledRequest(app, claims, now)], nextRequest := t.nextRequest + 1)
  }

  function StartsWith(s: string, prefix: string): bool { prefix <= s }

  /** One of two ids extends the other by an underscore, so they would share destination names. */
  predicate Extends(a: string, b: string) { StartsWith(a, b + "_") || StartsWith(b, a + "_") }

  predicate Overlaps(t: Tables, app: string) { exists b :: b in t.bindings && Extends(app, b) }

  predicate IdentityBound(t: Tables, identity: Identity)
  {
    exists b :: b in t.bindings && t.bindings[b].identity == identity
  }

  /** The pending requests that an approval of request r makes impossible. */
  function Siblings(t: Tables, r: Request): set<nat>
  {
    set id | id in PendingIds(t) && (t.requests[id].appId == r.appId || t.requests[id].identity == r.identity)
  }

  function Approved(t: Tables, id: nat, now: Time): Tables
    requires id in t.requests
  {
    var r := t.requests[id];
    t.(bindings := t.bindings[r.appId := Binding(r.identity, r.ownerId, r.repository, now)],
       requests := t.requests - {id} - Siblings(t, r))
  }

  function Rejected(t: Tables, id: nat, now: Time): Tables
    requires id in t.requests
  {
    var r := t.requests[id];
    if r.status == RequestRejected then t
    else t.(requests := t.requests[id := r.(status := RequestRejected, decidedAt := Some(now), updatedAt := now)])
  }

  function Dropped(t: Tables, ids: set<nat>): Tables { t.(requests := t.requests - ids) }

  /** Supersede what is active, then insert. */
  function Issued(t: Tables, app: string, now: Time): Tables
  {
    var superseded := map k | k in t.keys ::
      if t.keys[k].appId == app && Active(t.keys[k])
      then t.keys[k].(record := t.keys[k].record.(supersededAt := Some(now))) else t.keys[k];
    t.(keys := superseded[t.nextKey := Key(app, now, KeyRecord(None, None))], nextKey := t.nextKey + 1)
  }

  function Revoked(t: Tables, k: nat, now: Time): Tables
    requires k in t.keys
  {
    if RevokeGuard(t.keys[k].record, now)
    then t.(keys := t.keys[k := t.keys[k].(record := t.keys[k].record.(revokedAt := Some(now)))]) else t
  }

  /** Keys cascade with their binding. */
  function Unbound(t: Tables, app: string): Tables
  {
    t.(bindings := t.bindings - {app}, keys := map k | k in t.keys && t.keys[k].appId != app :: t.keys[k])
  }

  /** All five parts of the identity; the repository name is for display. */
  predicate Matches(b: Binding, c: Claims) { b.identity == c.identity && b.ownerId == c.ownerId }

  // ----- What every committed state satisfies -----------------------------------------

  predicate ApartBindings(t: Tables, a: string, b: string)
    requires a in t.bindings && b in t.bindings
  {
    !Extends(a, b) && t.bindings[a].identity != t.bindings[b].identity
  }

  predicate SameRequest(a: Request, b: Request) { a.appId == b.appId && a.identity == b.identity }

  predicate RivalKeys(a: Key, b: Key) { a.appId == b.appId && Active(a) && Active(b) }

  ghost predicate BindingsApart(t: Tables)
  {
    forall a, b {:trigger ApartBindings(t, a, b)} | a in t.bindings && b in t.bindings && a != b :: ApartBindings(t, a, b)
  }

  ghost predicate RequestsOk(t: Tables)
  {
    && |PendingIds(t)| <= MAX_PENDING_REQUESTS
    && (forall id :: id in t.requests ==> id < t.nextRequest)
    && (forall id :: IsPending(t, id) ==> t.requests[id].appId !in t.bindings)
    && forall a, b {:trigger SameRequest(t.requests[a], t.requests[b])} |
         IsPending(t, a) && IsPending(t, b) && a != b :: !SameRequest(t.requests[a], t.requests[b])
  }

  ghost predicate KeysOk(t: Tables)
  {
    && (forall k :: k in t.keys ==> k < t.nextKey && t.keys[k].appId in t.bindings)
    && forall a, b {:trigger RivalKeys(t.keys[a], t.keys[b])} | a in t.keys && b in t.keys && a != b ::
         !RivalKeys(t.keys[a], t.keys[b])
  }

  ghost predicate Valid(t: Tables) { BindingsApart(t) && RequestsOk(t) && KeysOk(t) }

  /** A destination name starts with "<app>_" for at most one bound app. */
  lemma OneOwnerPerName(t: Tables, a: string, b: string, destination: string)
    requires Valid(t) && a in t.bindings && b in t.bindings
    requires StartsWith(destination, a + "_") && StartsWith(destination, b + "_")
    ensures a == b
  {
    assert a == destination[..|a|] && b == destination[..|b|];
    if |a| < |b| {
      assert a + "_" == destination[..|a| + 1] == b[..|a| + 1];
    } else if |b| < |a| {
      assert b + "_" == destination[..|b| + 1] == a[..|b| + 1];
    }
    assert a != b ==> ApartBindings(t, a, b);
  }

  /** Two ids overlap exactly when some destination name would start with both of them and an underscore. */
  lemma OverlapIsSharedName(a: string, b: string)
    requires a != b
    ensures Extends(a, b) <==> exists name :: StartsWith(name, a + "_") && StartsWith(name, b + "_")
  {
    if Extends(a, b) {
      var name := if StartsWith(a, b + "_") then a + "_" else b + "_";
      assert StartsWith(name, a + "_") && StartsWith(name, b + "_");
    }
    if name :| StartsWith(name, a + "_") && StartsWith(name, b + "_") {
      assert a == name[..|a|] && b == name[..|b|];
      if |a| < |b| {
        assert a + "_" == name[..|a| + 1] == b[..|a| + 1];
      } else if |b| < |a| {
        assert b + "_" == name[..|b| + 1] == a[..|b| + 1];
      }
    }
  }

  /** Claims match a binding on all five parts; the repository name is not one of them. */
  lemma MatchIsFiveParts(b: Binding, c: Claims)
    ensures Matches(b, c) <==>
      && b.identity.repositoryId == c.identity.repositoryId && b.identity.workflowPath == c.identity.workflowPath
      && b.identity.gitRef == c.identity.gitRef && b.identity.environment == c.identity.environment
      && b.ownerId == c.ownerId
  {
  }

  // ----- What each transaction changes --------------------------------------------------

  /** Every request but this one is as it was. */
  ghost predicate OtherRequestsKept(t: Tables, after: Tables, id: nat)
  {
    && (forall r :: r != id && r in t.requests ==> r in after.requests && after.requests[r] == t.requests[r])
    && forall r :: r != id && r in after.requests ==> r in t.requests
  }

  /** Only requests changed. */
  predicate OnlyRequests(t: Tables, after: Tables)
  {
    after.bindings == t.bindings && after.keys == t.keys && after.jtis == t.jtis && after.nextKey == t.nextKey
  }

  /** Only keys changed. */
  predicate OnlyKeys(t: Tables, after: Tables)
  {
    && after.bindings == t.bindings && after.requests == t.requests && after.jtis == t.jtis
    && after.nextRequest == t.nextRequest
  }

  /** Claims on file as a pending request, last seen now. */
  predicate FiledFor(r: Request, app: string, c: Claims, createdAt: Time, now: Time)
  {
    r == Request(app, c.identity, c.ownerId, c.repository, c.runId, RequestPending, createdAt, now, None)
  }

  lemma FilingAdds(t: Tables, app: string, claims: Claims, now: Time)
    requires Valid(t)
    ensures var after := Filed(t, app, claims, now);
      && OnlyRequests(t, after) && OtherRequestsKept(t, after, t.nextRequest) && t.nextRequest !in t.requests
      && t.nextRequest in after.requests && FiledFor(after.requests[t.nextRequest], app, claims, now, now)
  {
  }

  lemma RefreshRewrites(t: Tables, app: string, id: nat, claims: Claims, now: Time)
    requires id in Matching(t, app, claims.identity)
    ensures var after := Refreshed(t, {id}, claims, now);
      && OnlyRequests(t, after) && OtherRequestsKept(t, after, id) && id in after.requests
      && after.requests[id].decidedAt == t.requests[id].decidedAt
      && FiledFor(after.requests[id].(decidedAt := None), app, claims, t.requests[id].createdAt, now)
  {
  }

  /** The app is bound as requested; the request goes, and with it every pending one for the app or the workflow. */
  lemma ApprovalBinds(t: Tables, id: nat, now: Time, other: nat)
    requires id in t.requests
    ensures var r, after := t.requests[id], Approved(t, id, now);
      && after.bindings == t.bindings[r.appId := Binding(r.identity, r.ownerId, r.repository, now)]
      && after.keys == t.keys && after.jtis == t.jtis
      && (other in after.requests <==>
            other in t.requests && other != id
            && !(IsPending(t, other) && (t.requests[other].appId == r.appId || t.requests[other].identity == r.identity)))
      && (other in after.requests ==> after.requests[other] == t.requests[other])
  {
  }

  /** A pending request is rejected now and keeps what it asked for; a rejected one stays as it is. */
  lemma RejectionMarks(t: Tables, id: nat, now: Time)
    requires id in t.requests
    ensures var r, after := t.requests[id], Rejected(t, id, now);
      && OnlyRequests(t, after) && OtherRequestsKept(t, after, id) && id in after.requests
      && (r.status == RequestRejected ==> after == t)
      && (r.status == RequestPending ==>
            after.requests[id] == Request(r.appId, r.identity, r.ownerId, r.repository, r.runId,
                                          RequestRejected, r.createdAt, now, Some(now)))
  {
  }

  /** Beside the new key, an issue only supersedes the app's active keys, now; no other key changes. */
  lemma IssueAdds(t: Tables, app: string, now: Time)
    requires Valid(t)
    ensures var after := Issued(t, app, now);
      && OnlyKeys(t, after) && after.nextKey == t.nextKey + 1 && after.keys.Keys == t.keys.Keys + {t.nextKey}
      && t.nextKey !in t.keys && after.keys[t.nextKey] == Key(app, now, KeyRecord(None, None))
      && forall k :: k in t.keys ==>
           if t.keys[k].appId == app && t.keys[k].record == KeyRecord(None, None)
           then after.keys[k] == t.keys[k].(record := KeyRecord(Some(now), None)) else after.keys[k] == t.keys[k]
  {
  }

  /** A key that works is revoked now; any other key, and one that does not work, stays as it is. */
  lemma RevocationMarks(t: Tables, k: nat, now: Time)
    requires k in t.keys
    ensures var after := Revoked(t, k, now);
      && OnlyKeys(t, after) && after.nextKey == t.nextKey && after.keys.Keys == t.keys.Keys
      && (forall other :: other in t.keys && other != k ==> after.keys[other] == t.keys[other])
      && (!KeyValid(t.keys[k].record, now) ==> after == t)
      && (KeyValid(t.keys[k].record, now) ==>
            after.keys[k] == t.keys[k].(record := KeyRecord(t.keys[k].record.supersededAt, Some(now))))
  {
  }

  /** Unbinding takes this app's binding and exactly its keys. */
  ghost predicate UnboundExactly(t: Tables, after: Tables, app: string)
  {
    && after.requests == t.requests && after.jtis == t.jtis
    && after.nextRequest == t.nextRequest && after.nextKey == t.nextKey
    && app !in after.bindings
    && (forall b :: b != app && b in t.bindings ==> b in after.bindings && after.bindings[b] == t.bindings[b])
    && (forall b :: b in after.bindings ==> b in t.bindings)
    && (forall k :: k in after.keys ==> k in t.keys && t.keys[k].appId != app)
    && forall k :: k in t.keys && t.keys[k].appId != app ==> k in after.keys && after.keys[k] == t.keys[k]
  }

  lemma UnbindingTakes(t: Tables, app: string)
    ensures UnboundExactly(t, Unbound(t, app), app)
  {
  }

  // ----- Each transaction keeps it ------------------------------------------------------

  lemma FiledValid(t: Tables, app: string, claims: Claims, now: Time)
    requires Valid(t) && app !in t.bindings && |PendingIds(t)| < MAX_PENDING_REQUESTS
    requires Matching(t, app, claims.identity) == {}
    ensures Valid(Filed(t, app, claims, now))
  {
    var after := Filed(t, app, claims, now);
    assert PendingIds(after) == PendingIds(t) + {t.nextRequest};
    forall a, b | IsPending(after, a) && IsPending(after, b) && a != b
      ensures !SameRequest(after.requests[a], after.requests[b])
    {
      assert a in t.requests ==> a !in Matching(t, app, claims.identity);
      assert b in t.requests ==> b !in Matching(t, app, claims.identity);
    }
    forall a, b | a in after.bindings && b in after.bindings && a != b ensures ApartBindings(after, a, b) {
      assert ApartBindings(t, a, b);
    }
  }

  lemma RefreshedValid(t: Tables, ids: set<nat>, claims: Claims, now: Time)
    requires Valid(t)
    ensures Valid(Refreshed(t, ids, claims, now)) && PendingIds(Refreshed(t, ids, claims, now)) == PendingIds(t)
  {
    var after := Refreshed(t, ids, claims, now);
    assert PendingIds(after) == PendingIds(t);
    forall a, b | IsPending(after, a) && IsPending(after, b) && a != b
      ensures !SameRequest(after.requests[a], after.requests[b])
    {
      assert !SameRequest(t.requests[a], t.requests[b]);
    }
    forall a, b | a in after.bindings && b in after.bindings && a != b ensures ApartBindings(after, a, b) {
      assert ApartBindings(t, a, b);
    }
  }

  /** Requests only leave the pending set. */
  lemma FewerPendingValid(t: Tables, after: Tables)
    requires Valid(t) && after == t.(requests := after.requests) && after.requests.Keys <= t.requests.Keys
    requires forall id :: id in after.requests && after.requests[id].status == RequestPending ==>
      after.requests[id] == t.requests[id]
    ensures Valid(after) && PendingIds(after) <= PendingIds(t)
  {
    SubsetSize(PendingIds(after), PendingIds(t));
    forall a, b | IsPending(after, a) && IsPending(after, b) && a != b
      ensures !SameRequest(after.requests[a], after.requests[b])
    {
      assert !SameRequest(t.requests[a], t.requests[b]);
    }
    forall a, b | a in after.bindings && b in after.bindings && a != b ensures ApartBindings(after, a, b) {
      assert ApartBindings(t, a, b);
    }
  }

  lemma BindValid(t: Tables, r: Request, now: Time)
    requires Valid(t) && r.appId !in t.bindings && !Overlaps(t, r.appId) && !IdentityBound(t, r.identity)
    requires forall id :: IsPending(t, id) ==> t.requests[id].appId != r.appId
    ensures Valid(t.(bindings := t.bindings[r.appId := Binding(r.identity, r.ownerId, r.repository, now)]))
  {
    var after := t.(bindings := t.bindings[r.appId := Binding(r.identity, r.ownerId, r.repository, now)]);
    forall a, b | a in after.bindings && b in after.bindings && a != b ensures ApartBindings(after, a, b) {
      if a != r.appId && b != r.appId { assert ApartBindings(t, a, b); }
    }
    assert PendingIds(after) == PendingIds(t);
    forall a, b | a in after.keys && b in after.keys && a != b ensures !RivalKeys(after.keys[a], after.keys[b]) {
      assert !RivalKeys(t.keys[a], t.keys[b]);
    }
    forall a, b | IsPending(after, a) && IsPending(after, b) && a != b
      ensures !SameRequest(after.requests[a], after.requests[b])
    {
      assert !SameRequest(t.requests[a], t.requests[b]);
    }
  }

  /** An approval frees every slot its app and its workflow held. */
  lemma ApprovedValid(t: Tables, id: nat, now: Time)
    requires Valid(t) && IsPending(t, id)
    requires var r := t.requests[id]; r.appId !in t.bindings && !Overlaps(t, r.appId) && !IdentityBound(t, r.identity)
    ensures Valid(Approved(t, id, now))
  {
    var r := t.requests[id];
    var rest := t.(requests := t.requests - {id} - Siblings(t, r));
    FewerPendingValid(t, rest);
    forall other | IsPending(rest, other) ensures rest.requests[other].appId != r.appId {
      assert other !in Siblings(t, r);
    }
    BindValid(rest, r, now);
  }

  lemma IssuedValid(t: Tables, app: string, now: Time)
    requires Valid(t) && app in t.bindings
    ensures Valid(Issued(t, app, now))
  {
    var after := Issued(t, app, now);
    forall a, b | a in after.keys && b in after.keys && a != b ensures !RivalKeys(after.keys[a], after.keys[b]) {
      if a in t.keys && b in t.keys { assert !RivalKeys(t.keys[a], t.keys[b]); }
    }
    OnlyKeysChange(t, after);
  }

  /** The new key is the app's one active key; the key it replaces works for the grace and no longer. */
  lemma IssueRotates(t: Tables, app: string, now: Time, k: nat, at: Time)
    requires Valid(t) && k in t.keys
    ensures var after := Issued(t, app, now);
      && t.nextKey in after.keys && after.keys[t.nextKey].appId == app && Active(after.keys[t.nextKey])
      && k in after.keys && k != t.nextKey && (after.keys[k].appId == app ==> !Active(after.keys[k]))
      && (t.keys[k].appId != app ==> after.keys[k] == t.keys[k])
      && (t.keys[k].appId == app && Active(t.keys[k]) ==>
            (KeyValid(after.keys[k].record, at) <==> at < now + 24 * HOUR))
  {
  }

  lemma OnlyKeysChange(t: Tables, after: Tables)
    requires Valid(t) && after == t.(keys := after.keys, nextKey := after.nextKey)
    ensures BindingsApart(after) && RequestsOk(after)
  {
    assert PendingIds(after) == PendingIds(t);
    forall a, b | a in after.bindings && b in after.bindings && a != b ensures ApartBindings(after, a, b) {
      assert ApartBindings(t, a, b);
    }
    forall a, b | IsPending(after, a) && IsPending(after, b) && a != b
      ensures !SameRequest(after.requests[a], after.requests[b])
    {
      assert !SameRequest(t.requests[a], t.requests[b]);
    }
  }

  lemma RevokedValid(t: Tables, k: nat, now: Time)
    requires Valid(t) && k in t.keys
    ensures Valid(Revoked(t, k, now))
  {
    var after := Revoked(t, k, now);
    forall a, b | a in after.keys && b in after.keys && a != b ensures !RivalKeys(after.keys[a], after.keys[b]) {
      assert !RivalKeys(t.keys[a], t.keys[b]);
    }
    OnlyKeysChange(t, after);
  }

  lemma UnboundValid(t: Tables, app: string)
    requires Valid(t)
    ensures Valid(Unbound(t, app))
  {
    var after := Unbound(t, app);
    assert PendingIds(after) == PendingIds(t);
    forall a, b | a in after.keys && b in after.keys && a != b ensures !RivalKeys(after.keys[a], after.keys[b]) {
      assert !RivalKeys(t.keys[a], t.keys[b]);
    }
    forall a, b | a in after.bindings && b in after.bindings && a != b ensures ApartBindings(after, a, b) {
      assert ApartBindings(t, a, b);
    }
    forall a, b | IsPending(after, a) && IsPending(after, b) && a != b
      ensures !SameRequest(after.requests[a], after.requests[b])
    {
      assert !SameRequest(t.requests[a], t.requests[b]);
    }
  }

  /** The ledger is no part of what must hold. */
  lemma LedgerIsFree(t: Tables, jtis: set<string>)
    requires Valid(t)
    ensures Valid(t.(jtis := jtis))
  {
    var after := t.(jtis := jtis);
    assert PendingIds(after) == PendingIds(t);
    forall a, b | a in after.keys && b in after.keys && a != b ensures !RivalKeys(after.keys[a], after.keys[b]) {
      assert !RivalKeys(t.keys[a], t.keys[b]);
    }
    forall a, b | a in after.bindings && b in after.bindings && a != b ensures ApartBindings(after, a, b) {
      assert ApartBindings(t, a, b);
    }
    forall a, b | IsPending(after, a) && IsPending(after, b) && a != b
      ensures !SameRequest(after.requests[a], after.requests[b])
    {
      assert !SameRequest(t.requests[a], t.requests[b]);
    }
  }
}
