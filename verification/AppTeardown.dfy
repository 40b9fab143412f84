// Removing an app and everything it owns (delivery-api/internal/appteardown).
module AppTeardown {
  import opened Common

  datatype Owner = Operator | App(id: string)

  datatype MessageRow = MessageRow(appId: string, held: bool)

  /** A link row: owner is the route or the check, target the destination. */
  datatype Link = Link(owner: nat, target: nat)

  datatype Db = Db(
    messages: map<nat, MessageRow>, checks: map<nat, Owner>, routes: map<nat, Owner>, destinations: map<nat, Owner>,
    routeLinks: set<Link>, checkLinks: set<Link>, bindings: set<string>, publishers: set<string>, upstream: set<string>)

  datatype Deleted = Deleted(
    checks: nat, routes: nat, destinations: nat, orphanedRoutes: nat, orphanedChecks: nat, heldMessages: nat)

  function OwnedBy(rows: map<nat, Owner>, app: string): set<nat> { set id | id in rows && rows[id] == App(app) }

  function HeldBy(messages: map<nat, MessageRow>, app: string): set<nat>
  {
    set id | id in messages && messages[id] == MessageRow(app, true)
  }

  /** No link dangles. */
  predicate LinksOk(links: set<Link>, owners: map<nat, Owner>, destinations: map<nat, Owner>)
  {
    forall l :: l in links ==> l.owner in owners && l.target in destinations
  }

  predicate Valid(db: Db)
  {
    LinksOk(db.routeLinks, db.routes, db.destinations) && LinksOk(db.checkLinks, db.checks, db.destinations)
  }

  /** Deleting owners cascades to their links. */
  function WithoutOwners(links: set<Link>, owners: set<nat>): set<Link> { set l | l in links && l.owner !in owners }

  function WithoutTargets(links: set<Link>, targets: set<nat>): set<Link> { set l | l in links && l.target !in targets }

  function LinksLeft(links: set<Link>, owners: set<nat>, targets: set<nat>): set<Link>
  {
    WithoutTargets(WithoutOwners(links, owners), targets)
  }

  function TornDown(db: Db, app: string): Db
  {
    var targets := OwnedBy(db.destinations, app);
    db.(messages := db.messages - HeldBy(db.messages, app),
        checks := db.checks - OwnedBy(db.checks, app),
        routes := db.routes - OwnedBy(db.routes, app),
        destinations := db.destinations - targets,
        routeLinks := LinksLeft(db.routeLinks, OwnedBy(db.routes, app), targets),
        checkLinks := LinksLeft(db.checkLinks, OwnedBy(db.checks, app), targets))
  }

  predicate Linked(links: set<Link>, owner: nat) { exists l :: l in links && l.owner == owner }

  /** Operator rows that had a link before and have none after. */
  function LostLastLink(owners: map<nat, Owner>, before: set<Link>, after: set<Link>): set<nat>
  {
    set id | id in owners && owners[id] == Operator && Linked(before, id) && !Linked(after, id)
  }

  /** What is left: no row of the app, no dangling link, and everything of others as it was. */
  lemma TornDownIsClean(db: Db, app: string)
    requires Valid(db)
    ensures var after := TornDown(db, app);
      && Valid(after)
      && OwnedBy(after.checks, app) == {} && OwnedBy(after.routes, app) == {} && OwnedBy(after.destinations, app) == {}
      && HeldBy(after.messages, app) == {}
  {
  }

  lemma OthersAreIntact(db: Db, app: string, id: nat, l: Link)
    requires Valid(db)
    ensures var after := TornDown(db, app);
      && (id in db.checks && db.checks[id] != App(app) ==> id in after.checks && after.checks[id] == db.checks[id])
      && (id in db.routes && db.routes[id] != App(app) ==> id in after.routes && after.routes[id] == db.routes[id])
      && (id in db.destinations && db.destinations[id] != App(app) ==>
            id in after.destinations && after.destinations[id] == db.destinations[id])
      && (id in db.messages && !(db.messages[id].appId == app && db.messages[id].held) ==>
            id in after.messages && after.messages[id] == db.messages[id])
    ensures var after := TornDown(db, app);
      && (l in after.routeLinks <==>
            l in db.routeLinks && db.routes[l.owner] != App(app) && db.destinations[l.target] != App(app))
      && (l in after.checkLinks <==>
            l in db.checkLinks && db.checks[l.owner] != App(app) && db.destinations[l.target] != App(app))
  {
  }

  /** Removing the app a second time removes nothing. */
  lemma TornDownTwice(db: Db, app: string)
    ensures TornDown(TornDown(db, app), app) == TornDown(db, app)
  {
    var after := TornDown(db, app);
    assert OwnedBy(after.checks, app) == {} && OwnedBy(after.routes, app) == {};
    assert OwnedBy(after.destinations, app) == {} && HeldBy(after.messages, app) == {};
    assert LinksLeft(after.routeLinks, {}, {}) == after.routeLinks;
    assert LinksLeft(after.checkLinks, {}, {}) == after.checkLinks;
  }

  // ----- The phases in order ---------------------------------------------------------

  datatype Phase = Upstream | Binding | Publisher | Objects

  function PhaseDone(db: Db, app: string, p: Phase): Db
  {
    match p
    case Upstream => db.(upstream := db.upstream - {app})
    case Binding => db.(bindings := db.bindings - {app})
    case Publisher => db.(publishers := db.publishers - {app})
    case Objects => TornDown(db, app)
  }

  /** All four phases. */
  function Gone(db: Db, app: string): Db
  {
    PhaseDone(PhaseDone(PhaseDone(PhaseDone(db, app, Upstream), app, Binding), app, Publisher), app, Objects)
  }

  /**
   * Afterwards the app has no binding, no publisher and no upstream credential and owns nothing; every
   * other app keeps all three, and rows of others and messages not held stay as they were.
   */
  lemma GoneMeans(db: Db, app: string, other: string)
    requires Valid(db)
    ensures var after := Gone(db, app);
      && app !in after.bindings && app !in after.publishers && app !in after.upstream
      && (other != app ==>
            && (other in after.bindings <==> other in db.bindings)
            && (other in after.publishers <==> other in db.publishers)
            && (other in after.upstream <==> other in db.upstream))
      && (forall id :: id in after.messages <==> id in db.messages && !(db.messages[id].appId == app && db.messages[id].held))
      && (forall id :: id in after.messages ==> after.messages[id] == db.messages[id])
      && OwnersLeft(db.checks, after.checks, app) && OwnersLeft(db.routes, after.routes, app)
      && OwnersLeft(db.destinations, after.destinations, app)
      && Valid(after)
  {
    TornDownIsClean(db, app);
  }

  /** Exactly the rows of this owner are gone. */
  ghost predicate OwnersLeft(before: map<nat, Owner>, after: map<nat, Owner>, app: string)
  {
    && (forall id :: id in after <==> id in before && before[id] != App(app))
    && forall id :: id in after ==> after[id] == before[id]
  }

  /** What the report counts is what the tables lost. */
  lemma CountsAreLosses(db: Db, app: string)
    ensures var after, counted := TornDown(db, app), Counted(db, app);
      && counted.checks == |db.checks| - |after.checks| && counted.routes == |db.routes| - |after.routes|
      && counted.destinations == |db.destinations| - |after.destinations|
      && counted.heldMessages == |db.messages| - |after.messages|
  {
    var after := TornDown(db, app);
    LostRows(db.checks, OwnedBy(db.checks, app));
    LostRows(db.routes, OwnedBy(db.routes, app));
    LostRows(db.destinations, OwnedBy(db.destinations, app));
    LostRows(db.messages, HeldBy(db.messages, app));
  }

  lemma LostRows<T>(rows: map<nat, T>, ids: set<nat>)
    requires ids <= rows.Keys
    ensures |ids| == |rows| - |rows - ids|
  {
    assert (rows - ids).Keys == rows.Keys - ids && |rows| == |rows.Keys| && |rows - ids| == |(rows - ids).Keys|;
    SubsetSize(ids, rows.Keys);
  }

  /** Having done a phase already changes nothing of where a full run ends. */
  lemma PhaseThenAll(db: Db, app: string, p: Phase)
    ensures Gone(PhaseDone(db, app, p), app) == Gone(db, app)
  {
    match p
    case Upstream => assert db.upstream - {app} - {app} == db.upstream - {app};
    case Binding => assert db.bindings - {app} - {app} == db.bindings - {app};
    case Publisher => assert db.publishers - {app} - {app} == db.publishers - {app};
    case Objects => TornDownTwice(db, app);
  }

  /** How a phase ends: done, failed without effect, or done but reported as failed. */
  datatype PhaseEnd = Done | Fails | DoneButFails

  datatype Ends = Ends(upstream: PhaseEnd, unbind: PhaseEnd, publisher: PhaseEnd, objects: PhaseEnd)

  /** What the cascade reports: every row that went, and the operator's rows left without a link. */
  function Counted(db: Db, app: string): Deleted
  {
    var after := TornDown(db, app);
    Deleted(|OwnedBy(db.checks, app)|, |OwnedBy(db.routes, app)|, |OwnedBy(db.destinations, app)|,
            |LostLastLink(db.routes, db.routeLinks, after.routeLinks)|,
            |LostLastLink(db.checks, db.checkLinks, after.checkLinks)|, |HeldBy(db.messages, app)|)
  }

  /** The first three statements: held messages, checks and routes, with the links that cascade. */
  function OwnersGone(db: Db, app: string): Db
  {
    db.(messages := db.messages - HeldBy(db.messages, app),
        checks := db.checks - OwnedBy(db.checks, app),
        routes := db.routes - OwnedBy(db.routes, app),
        routeLinks := WithoutOwners(db.routeLinks, OwnedBy(db.routes, app)),
        checkLinks := WithoutOwners(db.checkLinks, OwnedBy(db.checks, app)))
  }

  /** Links another transaction commits meanwhile. */
  function Met(db: Db, lateRoutes: set<Link>, lateChecks: set<Link>): Db
  {
    db.(routeLinks := db.routeLinks + lateRoutes, checkLinks := db.checkLinks + lateChecks)
  }

  predicate Restricts(late: set<Link>, targets: set<nat>) { exists l :: l in late && l.target in targets }

  /** Late links that survive the destination delete are links a teardown of everything keeps. */
  lemma LateLinksStay(links: set<Link>, late: set<Link>, owners: set<nat>, targets: set<nat>)
    requires !Restricts(late, targets) && forall l :: l in late ==> l.owner !in owners
    ensures LinksLeft(links, owners, targets) + late == LinksLeft(links + late, owners, targets)
  {
  }

  datatype TeardownError = InvalidAppId | UpstreamFailed | Busy | Unavailable

  class Teardown {
    var db: Db

    constructor (db: Db)
      ensures this.db == db
    {
      this.db := db;
    }

    /** DELETE ... RETURNING the owner of each link, then count the operator's owners left with none. */
    method DeleteLinksCountOrphans(links: set<Link>, owners: map<nat, Owner>, targets: set<nat>)
      returns (left: set<Link>, orphaned: nat)
      requires forall l :: l in links ==> l.owner in owners
      ensures left == WithoutTargets(links, targets)
      ensures orphaned == |LostLastLink(owners, links, left)|
    {
      left := WithoutTargets(links, targets);
      var affected := set l | l in links && l.target in targets :: l.owner;
      if affected == {} {
        forall l | l in links ensures l in left {
          assert l.target in targets ==> l.owner in affected;
        }
        assert left == links;
        assert LostLastLink(owners, links, left) == {};
        return left, 0;
      }
      var orphans := set id | id in affected && owners[id] == Operator && !Linked(left, id);
      forall id | id in LostLastLink(owners, links, left) ensures id in affected {
        var l :| l in links && l.owner == id;
        assert l !in left;
      }
      assert orphans == LostLastLink(owners, links, left);
      orphaned := |orphans|;
    }

    /** The link deletes of both tables, each counting its orphans. */
    method DeleteLinks(app: string, targets: set<nat>, ghost before: Db) returns (orphanedRoutes: nat, orphanedChecks: nat)
      requires db == OwnersGone(before, app) && Valid(before) && targets == OwnedBy(before.destinations, app)
      modifies this
      ensures db == OwnersGone(before, app).(routeLinks := TornDown(before, app).routeLinks,
                                             checkLinks := TornDown(before, app).checkLinks)
      ensures orphanedRoutes == Counted(before, app).orphanedRoutes
      ensures orphanedChecks == Counted(before, app).orphanedChecks
    {
      OrphansAreOperators(before.routes, before.routeLinks, OwnedBy(before.routes, app), targets);
      OrphansAreOperators(before.checks, before.checkLinks, OwnedBy(before.checks, app), targets);
      var routeLinks, checkLinks;
      routeLinks, orphanedRoutes := DeleteLinksCountOrphans(db.routeLinks, db.routes, targets);
      checkLinks, orphanedChecks := DeleteLinksCountOrphans(db.checkLinks, db.checks, targets);
      db := db.(routeLinks := routeLinks, checkLinks := checkLinks);
    }

    /**
     * One transaction; an error rolls it back. The late links commit between the link deletes and
     * the destination delete: one to a destination of the app restricts the delete.
     */
    method DeleteOwnedObjects(app: string, lateRoutes: set<Link>, lateChecks: set<Link>)
      returns (r: Result<Deleted, TeardownError>)
      requires Valid(db)
      requires LinksOk(lateRoutes, db.routes - OwnedBy(db.routes, app), db.destinations)
      requires LinksOk(lateChecks, db.checks - OwnedBy(db.checks, app), db.destinations)
      modifies this
      ensures r.Err? <==> Restricts(lateRoutes + lateChecks, OwnedBy(old(db).destinations, app))
      ensures r.Err? ==> db == old(db).(
        routeLinks := old(db).routeLinks + lateRoutes, checkLinks := old(db).checkLinks + lateChecks)
      ensures r.Ok? ==> db == TornDown(Met(old(db), lateRoutes, lateChecks), app) && r.value == Counted(old(db), app)
    {
      ghost var before := db;
      var rollback := Met(db, lateRoutes, lateChecks);
      var held, checks, routes := |HeldBy(db.messages, app)|, |OwnedBy(db.checks, app)|, |OwnedBy(db.routes, app)|;
      var targets := OwnedBy(db.destinations, app);
      db := OwnersGone(db, app);
      var orphanedRoutes, orphanedChecks := DeleteLinks(app, targets, before);
      if Restricts(lateRoutes + lateChecks, targets) {
        db := rollback;
        return Err(Unavailable);
      }
      assert !Restricts(lateRoutes, targets) by {
        assert forall l :: l in lateRoutes ==> l in lateRoutes + lateChecks;
      }
      assert !Restricts(lateChecks, targets) by {
        assert forall l :: l in lateChecks ==> l in lateRoutes + lateChecks;
      }
      LateLinksStay(before.routeLinks, lateRoutes, OwnedBy(before.routes, app), targets);
      LateLinksStay(before.checkLinks, lateChecks, OwnedBy(before.checks, app), targets);
      db := Met(db, lateRoutes, lateChecks).(destinations := db.destinations - targets);
      r := Ok(Deleted(checks, routes, |targets|, orphanedRoutes, orphanedChecks, held));
    }

    /** The four phases; a failure stops the cascade and later phases are not reached. */
    method Deprovision(app: string, validId: bool, ends: Ends, publisherBusy: bool)
      returns (r: Result<bool, TeardownError>)
      requires Valid(db)
      modifies this
      ensures Valid(db) && Gone(db, app) == Gone(old(db), app)
      ensures r.Ok? ==> db == Gone(old(db), app) && (r.value <==> app in old(db).bindings)
      ensures r.Ok? ==> app !in db.bindings && app !in db.publishers && app !in db.upstream
      ensures r.Ok? <==> validId && !publisherBusy && ends == Ends(Done, Done, Done, Done)
      ensures r == Err(InvalidAppId) <==> !validId
      ensures r == Err(UpstreamFailed) <==> validId && ends.upstream != Done
      ensures r == Err(InvalidAppId) || r == Err(UpstreamFailed) ==>
        db == old(db) || db == old(db).(upstream := old(db).upstream - {app})
      ensures r == Err(Busy) <==> validId && publisherBusy && ends.upstream == Done && ends.unbind == Done
      ensures
        && db.upstream == (if validId && ends.upstream != Fails then old(db).upstream - {app} else old(db).upstream)
        && db.bindings == (if validId && ends.upstream == Done && ends.unbind != Fails then old(db).bindings - {app} else old(db).bindings)
        && db.publishers ==
             (if validId && ends.upstream == Done && ends.unbind == Done && !publisherBusy && ends.publisher != Fails
              then old(db).publishers - {app} else old(db).publishers)
        && db ==
             (if validId && ends.upstream == Done && ends.unbind == Done && !publisherBusy && ends.publisher == Done
                 && ends.objects != Fails
              then TornDown(old(db), app) else old(db)).(
                upstream := db.upstream, bindings := db.bindings, publishers := db.publishers)
    {
      if !validId { return Err(InvalidAppId); }
      PhaseThenAll(db, app, Upstream);
      if ends.upstream != Fails { db := PhaseDone(db, app, Upstream); }
      if ends.upstream != Done { return Err(UpstreamFailed); }
      var unbound := app in db.bindings;
      PhaseThenAll(db, app, Binding);
      if ends.unbind != Fails { db := PhaseDone(db, app, Binding); }
      if ends.unbind != Done { return Err(Unavailable); }
      if publisherBusy { return Err(Busy); }
      PhaseThenAll(db, app, Publisher);
      if ends.publisher != Fails { db := PhaseDone(db, app, Publisher); }
      if ends.publisher != Done { return Err(Unavailable); }
      if ends.objects == Fails { return Err(Unavailable); }
      DeleteAlone(app);
      if ends.objects != Done { return Err(Unavailable); }
      r := Ok(unbound);
    }

    /** Any number of interrupted calls and then a full one end where one uninterrupted call does. */
    method DeprovisionRepeatedly(app: string, interrupted: seq<(Ends, bool)>)
      requires Valid(db)
      modifies this
      ensures db == Gone(old(db), app)
    {
      for i := 0 to |interrupted|
        invariant Valid(db) && Gone(db, app) == Gone(old(db), app)
      {
        var r := Deprovision(app, true, interrupted[i].0, interrupted[i].1);
      }
      var last := Deprovision(app, true, Ends(Done, Done, Done, Done), false);
    }

    /** The last phase with nobody linking meanwhile. */
    method DeleteAlone(app: string)
      requires Valid(db)
      modifies this
      ensures Valid(db) && db == TornDown(old(db), app) && Gone(db, app) == Gone(old(db), app)
    {
      TornDownIsClean(db, app);
      PhaseThenAll(db, app, Objects);
      assert Met(db, {}, {}) == db;
      var deleted := DeleteOwnedObjects(app, {}, {});
    }
  }
  /** Deleting the app's own rows first changes nothing about which operator rows lose their last link. */
  lemma OrphansAreOperators(owners: map<nat, Owner>, links: set<Link>, owned: set<nat>, targets: set<nat>)
    requires forall id :: id in owned ==> id in owners && owners[id] != Operator
    ensures LostLastLink(owners - owned, WithoutOwners(links, owned), LinksLeft(links, owned, targets)) ==
            LostLastLink(owners, links, LinksLeft(links, owned, targets))
  {
    forall id | id in owners && id !in owned
      ensures Linked(links, id) <==> Linked(WithoutOwners(links, owned), id)
    {
      if Linked(links, id) {
        var l :| l in links && l.owner == id;
        assert l in WithoutOwners(links, owned);
      }
    }
  }
}
