// How far the guarantees of the delivery workers reach: exactly when sends never overlap
// and the retry budget holds, and what bounds the budget otherwise
// (delivery-api/internal/dispatch/worker.go).
module LeaseBounds {
  import opened Common
  import opened Lease
  import opened MessageTables
  import Policy

  // ----- Runs that reach the bounds -----------------------------------------------------------

  lemma {:induction false} OneMore(c: Config, s: State, run: seq<Action>, a: Action)
    requires Runs(c, s, run) && Enabled(c, Final(c, s, run), a)
    ensures Runs(c, s, run + [a]) && Final(c, s, run + [a]) == Next(c, Final(c, s, run), a)
    decreases |run|
  {
    if run == [] {
      assert Runs(c, Next(c, s, a), []);
      assert ([] + [a])[1..] == [];
    } else {
      OneMore(c, Next(c, s, run[0]), run[1..], a);
      assert (run + [a])[1..] == run[1..] + [a];
    }
  }

  lemma {:induction false} Joined(c: Config, s: State, first: seq<Action>, second: seq<Action>)
    requires Runs(c, s, first) && Runs(c, Final(c, s, first), second)
    ensures Runs(c, s, first + second) && Final(c, s, first + second) == Final(c, Final(c, s, first), second)
    decreases |second|
  {
    if second == [] {
      assert first + second == first;
    } else {
      OneMore(c, s, first, second[0]);
      Joined(c, s, first + [second[0]], second[1..]);
      assert first + [second[0]] + second[1..] == first + second;
    }
  }

  const UNREACHABLE := Policy.SinkOutcome(Policy.TransportError, 0, false, None)
  const REJECTED := Policy.SinkOutcome(Policy.NoError, 400, false, None)

  /** Delivery 0 is due and every worker, w among them, idle. */
  predicate Quiet(s: State, w: nat, budget: nat, age: Time)
  {
    && (forall v :: v in s.workers ==> s.workers[v] == Idle)
    && w in s.workers && 0 in s.rows
    && s.rows[0].state == Pending && s.rows[0].nextAttemptAt <= s.now
    && s.rows[0].budgetAttempts == budget && 0 <= s.now - s.rows[0].budgetStartedAt <= age
  }

  function Fresh(now: Time): Delivery
  {
    NewDelivery(0, Target(Some(1), "d", "webhook"), Schedule(Pending, now, now))
  }

  lemma Enqueued(c: Config, now: Time, w: nat) returns (run: seq<Action>, s: State)
    requires w in c.workers
    ensures Runs(c, Init(c, now), run) && s == Final(c, Init(c, now), run)
    ensures s.workers == Init(c, now).workers && Quiet(s, w, 0, 0)
  {
    var start := Init(c, now);
    OneMore(c, start, [], Enqueue(0, Fresh(now)));
    run := [] + [Enqueue(0, Fresh(now))];
    s := Next(c, start, Enqueue(0, Fresh(now)));
  }

  /** A worker that starts now on a due row is sending after three steps. */
  lemma Takes(c: Config, s: State, w: nat) returns (run: seq<Action>, t: State)
    requires w in s.workers && s.workers[w] == Idle && 0 in s.rows
    requires s.rows[0].state == Pending && s.rows[0].nextAttemptAt <= s.now
    ensures Runs(c, s, run) && t == Final(c, s, run) && t.now == s.now
    ensures t.workers.Keys == s.workers.Keys && t.workers[w].Attempting? && t.workers[w].id == 0
    ensures forall v :: v in s.workers && v != w ==> t.workers[v] == s.workers[v]
    ensures 0 in t.rows && t.rows[0] == t.workers[w].d == Leased(s.rows[0], t.rows[0].nextAttemptAt)
  {
    run := [];
    t := s;
    OneMore(c, s, run, StartClaim(w)); run, t := run + [StartClaim(w)], Next(c, t, StartClaim(w));
    OneMore(c, s, run, Claim(w, 0)); run, t := run + [Claim(w, 0)], Next(c, t, Claim(w, 0));
    OneMore(c, s, run, BeginAttempt(w)); run, t := run + [BeginAttempt(w)], Next(c, t, BeginAttempt(w));
  }

  /** Worker w is sending the row as it stands. */
  predicate Sending(s: State, w: nat)
  {
    w in s.workers && s.workers[w].Attempting? && s.workers[w].id == 0
    && 0 in s.rows && s.rows[0] == s.workers[w].d && s.rows[0].state == Pending
  }

  /** One attempt that fails to reach the sink, recorded once or, the first two replies lost, three times. */
  lemma Charged(c: Config, s: State, w: nat, charges: nat) returns (run: seq<Action>, t: State)
    requires Sending(s, w) && (charges == 1 || (charges == 3 && c.acksLost))
    ensures Runs(c, s, run) && t == Final(c, s, run)
    ensures t.now == s.now && t.workers == s.workers[w := Idle] && 0 in t.rows
    ensures var result := Policy.Decide(s.rows[0], UNREACHABLE, s.now, None);
      && t.rows[0].state == result.nextState
      && t.rows[0].budgetStartedAt == s.rows[0].budgetStartedAt
      && t.rows[0].budgetAttempts == s.rows[0].budgetAttempts + (if result.nextState == Pending then charges else 1)
      && (result.nextState == Pending ==> t.rows[0].nextAttemptAt == result.nextAttemptAt)
  {
    var result := Policy.Decide(s.rows[0], UNREACHABLE, s.now, None);
    OneMore(c, s, [], Send(w, UNREACHABLE, None));
    run, t := [] + [Send(w, UNREACHABLE, None)], Next(c, s, Send(w, UNREACHABLE, None));
    assert t.workers[w] == Recording(0, s.rows[0], result, 0, false, s.now + RECORD_TIMEOUT);
    if charges == 3 {
      OneMore(c, s, run, RecordAckLost(w, false));
      run, t := run + [RecordAckLost(w, false)], Next(c, t, RecordAckLost(w, false));
      OneMore(c, s, run, RecordAckLost(w, false));
      run, t := run + [RecordAckLost(w, false)], Next(c, t, RecordAckLost(w, false));
    }
    OneMore(c, s, run, Record(w));
    run, t := run + [Record(w)], Next(c, t, Record(w));
  }

  /** From quiet to quiet with the budget charged, an hour later at most. */
  lemma Recharge(c: Config, s: State, w: nat, budget: nat, hours: nat, charges: nat) returns (run: seq<Action>, t: State)
    requires Quiet(s, w, budget, hours * HOUR) && budget <= 10 && hours < 24
    requires charges == 1 || (charges == 3 && c.acksLost)
    ensures Runs(c, s, run) && t == Final(c, s, run) && Quiet(t, w, budget + charges, (hours + 1) * HOUR)
  {
    var first, mid := Takes(c, s, w);
    Policy.RetryExactlyWithinBudget(mid.rows[0], UNREACHABLE, mid.now, None);
    var second, last := Charged(c, mid, w, charges);
    Joined(c, s, first, second);
    var due := last.rows[0].nextAttemptAt;
    OneMore(c, s, first + second, Tick(due));
    run, t := first + second + [Tick(due)], Next(c, last, Tick(due));
  }

  lemma BudgetClimbs(c: Config, now: Time, w: nat) returns (run: seq<Action>, s: State)
    requires w in c.workers
    ensures Runs(c, Init(c, now), run) && s == Final(c, Init(c, now), run)
    ensures Quiet(s, w, PendingBudget(c), 24 * HOUR)
  {
    var start := Init(c, now);
    run, s := Enqueued(c, now, w);
    var more, t := Recharge(c, s, w, 0, 0, 1);
    Joined(c, start, run, more);
    run, s := run + more, t;
    var budget, hours := 1, 1;
    while budget < PendingBudget(c)
      invariant 1 <= hours <= budget <= PendingBudget(c) && (c.acksLost ==> budget % 3 == 1)
      invariant Runs(c, start, run) && s == Final(c, start, run) && Quiet(s, w, budget, hours * HOUR)
    {
      var charges := if c.acksLost then 3 else 1;
      more, t := Recharge(c, s, w, budget, hours, charges);
      Joined(c, start, run, more);
      run, s, budget, hours := run + more, t, budget + charges, hours + 1;
    }
  }

  /** Both bounds are reached by some run of every configuration with a worker. */
  lemma BudgetIsReached(c: Config, now: Time, w: nat) returns (run: seq<Action>, last: seq<Action>)
    requires w in c.workers
    ensures Runs(c, Init(c, now), run)
    ensures var s := Final(c, Init(c, now), run);
      0 in s.rows && s.rows[0].state == Pending && s.rows[0].budgetAttempts == PendingBudget(c)
    ensures Runs(c, Init(c, now), run + last)
    ensures var s := Final(c, Init(c, now), run + last);
      0 in s.rows && s.rows[0].state == Dead && s.rows[0].budgetAttempts == PendingBudget(c) + 1
  {
    var s;
    run, s := BudgetClimbs(c, now, w);
    var first, mid := Takes(c, s, w);
    var second, t := Charged(c, mid, w, 1);
    Joined(c, s, first, second);
    last := first + second;
    Joined(c, Init(c, now), run, last);
  }

  // ----- Exactly when the bounds hold --------------------------------------------------------

  lemma {:induction false} WorkersStay(c: Config, s: State, run: seq<Action>)
    requires Runs(c, s, run)
    ensures Final(c, s, run).workers.Keys == s.workers.Keys
    decreases |run|
  {
    if run != [] {
      WorkersStay(c, Next(c, s, run[0]), run[1..]);
    }
  }

  /** After this run from s two workers hold one delivery. */
  ghost predicate Overlaps(c: Config, s: State, run: seq<Action>, v: nat, w: nat, id: nat)
  {
    Runs(c, s, run) &&
    var t := Final(c, s, run);
    v != w && v in t.workers && w in t.workers && Holds(t.workers[v], id) && Holds(t.workers[w], id)
  }

  ghost predicate OverlapFree(c: Config, now: Time)
  {
    forall run, v, w, id :: !Overlaps(c, Init(c, now), run, v, w, id)
  }

  /** A rejected attempt is recorded dead, the reply lost, and the delivery replayed while its worker retries. */
  lemma ReplayedUnderRetry(c: Config, now: Time, a: nat) returns (run: seq<Action>, s: State)
    requires !Regime(c) && a in c.workers
    ensures Runs(c, Init(c, now), run) && s == Final(c, Init(c, now), run)
    ensures s.workers.Keys == c.workers.Keys && forall v :: v in s.workers && v != a ==> s.workers[v] == Idle
    ensures Recorder(s, a) && s.workers[a].id == 0 && s.workers[a].result.nextState == Dead
    ensures s.workers[a].result.outcome == Terminal
    ensures 0 in s.rows && s.rows[0].state == Pending && s.rows[0].nextAttemptAt <= s.now
  {
    var start := Init(c, now);
    run, s := Enqueued(c, now, a);
    var more, t := Takes(c, s, a);
    Joined(c, start, run, more); run, s := run + more, t;
    OneMore(c, start, run, Send(a, REJECTED, None));
    run, s := run + [Send(a, REJECTED, None)], Next(c, s, Send(a, REJECTED, None));
    OneMore(c, start, run, RecordAckLost(a, false));
    run, s := run + [RecordAckLost(a, false)], Next(c, s, RecordAckLost(a, false));
    OneMore(c, start, run, Replay(0));
    run, s := run + [Replay(0)], Next(c, s, Replay(0));
  }

  /** Lost acknowledgements and replays together let any two workers send one delivery at once. */
  lemma LostAcksAndReplaysOverlap(c: Config, now: Time, a: nat, b: nat) returns (run: seq<Action>)
    requires !Regime(c) && a != b && a in c.workers && b in c.workers
    ensures Runs(c, Init(c, now), run)
    ensures var s := Final(c, Init(c, now), run);
      && a in s.workers && s.workers[a].Attempting? && s.workers[a].id == 0
      && b in s.workers && s.workers[b].Attempting? && s.workers[b].id == 0
  {
    var start := Init(c, now);
    var s;
    run, s := ReplayedUnderRetry(c, now, a);
    var more, t := Takes(c, s, b);
    Joined(c, start, run, more); run, s := run + more, t;
    OneMore(c, start, run, Record(a));
    run, s := run + [Record(a)], Next(c, s, Record(a));
    OneMore(c, start, run, Replay(0));
    run, s := run + [Replay(0)], Next(c, s, Replay(0));
    more, t := Takes(c, s, a);
    Joined(c, start, run, more); run, s := run + more, t;
  }

  lemma FreeWhen(c: Config, now: Time, run: seq<Action>, v: nat, w: nat, id: nat)
    requires now >= 0 && (Regime(c) || |c.workers| <= 1)
    ensures !Overlaps(c, Init(c, now), run, v, w, id)
  {
    if Overlaps(c, Init(c, now), run, v, w, id) {
      WorkersStay(c, Init(c, now), run);
      if Regime(c) {
        AttemptsNeverOverlap(c, now, run, v, w, id);
      } else {
        SubsetSize({v, w}, c.workers.Keys);
      }
    }
  }

  /**
   * No run of a configuration ever has two workers on one delivery exactly when acknowledgements
   * are not lost, or nobody replays, or there are not two workers.
   */
  lemma OverlapFreedomIsExact(c: Config, now: Time)
    requires now >= 0
    ensures OverlapFree(c, now) <==> Regime(c) || |c.workers| <= 1
  {
    if Regime(c) || |c.workers| <= 1 {
      forall run, v, w, id ensures !Overlaps(c, Init(c, now), run, v, w, id) { FreeWhen(c, now, run, v, w, id); }
    } else {
      var a :| a in c.workers;
      SubsetSize({a}, c.workers.Keys);
      var b :| b in c.workers.Keys - {a};
      var run := LostAcksAndReplaysOverlap(c, now, a, b);
      assert Overlaps(c, Init(c, now), run, a, b, 0);
    }
  }

  // ----- Lost acknowledgements together with replays -------------------------------------------

  /** The charges a worker may still make to a pending row of this id. */
  function Left(p: Phase, id: nat): nat
  {
    if (p.Returning? || p.Attempting?) && p.id == id && p.d.budgetAttempts <= Policy.MAX_BUDGET_ATTEMPTS - 2 then RECORD_ATTEMPTS
    else if p.Recording? && p.id == id && p.result.nextState == Pending && p.tries < RECORD_ATTEMPTS then RECORD_ATTEMPTS - p.tries
    else 0
  }

  ghost function AllLeft(workers: map<nat, Phase>, ws: set<nat>, id: nat): nat
    requires ws <= workers.Keys
  {
    if ws == {} then 0 else
      var w :| w in ws;
      Left(workers[w], id) + AllLeft(workers, ws - {w}, id)
  }

  lemma {:induction false} LeftWithout(workers: map<nat, Phase>, ws: set<nat>, id: nat, w: nat)
    requires ws <= workers.Keys && w in ws
    ensures AllLeft(workers, ws, id) == Left(workers[w], id) + AllLeft(workers, ws - {w}, id)
    decreases |ws|
  {
    var x :| x in ws && AllLeft(workers, ws, id) == Left(workers[x], id) + AllLeft(workers, ws - {x}, id);
    if x != w {
      LeftWithout(workers, ws - {x}, id, w);
      LeftWithout(workers, ws - {w}, id, x);
      assert ws - {x} - {w} == ws - {w} - {x};
    }
  }

  lemma {:induction false} LeftAgrees(workers: map<nat, Phase>, others: map<nat, Phase>, ws: set<nat>, id: nat)
    requires ws <= workers.Keys && ws <= others.Keys && forall w :: w in ws ==> workers[w] == others[w]
    ensures AllLeft(workers, ws, id) == AllLeft(others, ws, id)
    decreases |ws|
  {
    if ws != {} {
      var w :| w in ws;
      LeftWithout(workers, ws, id, w);
      LeftWithout(others, ws, id, w);
      LeftAgrees(workers, others, ws - {w}, id);
    }
  }

  lemma {:induction false} LeftAtMost(workers: map<nat, Phase>, ws: set<nat>, id: nat)
    requires ws <= workers.Keys
    ensures AllLeft(workers, ws, id) <= RECORD_ATTEMPTS * |ws|
    decreases |ws|
  {
    if ws != {} {
      var w :| w in ws;
      LeftWithout(workers, ws, id, w);
      LeftAtMost(workers, ws - {w}, id);
    }
  }

  /** Moving one worker changes the sum by what that worker gains or loses. */
  lemma LeftMoves(workers: map<nat, Phase>, w: nat, p: Phase, id: nat)
    requires w in workers
    ensures AllLeft(workers[w := p], workers[w := p].Keys, id) - Left(p, id)
      == AllLeft(workers, workers.Keys, id) - Left(workers[w], id)
  {
    assert workers[w := p].Keys == workers.Keys;
    LeftWithout(workers, workers.Keys, id, w);
    LeftWithout(workers[w := p], workers.Keys, id, w);
    LeftAgrees(workers, workers[w := p], workers.Keys - {w}, id);
  }

  /** What is charged to a row and what may still be charged fit three charges a worker. */
  ghost predicate Covered(n: nat, workers: map<nat, Phase>, id: nat, row: Delivery)
  {
    row.budgetAttempts <= Policy.MAX_BUDGET_ATTEMPTS - 1 + RECORD_ATTEMPTS * n &&
    (row.state == Pending ==>
      row.budgetAttempts + AllLeft(workers, workers.Keys, id) <= Policy.MAX_BUDGET_ATTEMPTS - 2 + RECORD_ATTEMPTS * n)
  }

  ghost predicate AllCovered(n: nat, s: State)
  {
    && |s.workers| == n
    && (forall w :: w in s.workers && s.workers[w].Recording? ==> s.workers[w].tries < RECORD_ATTEMPTS)
    && forall id :: id in s.rows ==> Covered(n, s.workers, id, s.rows[id])
  }

  /** A worker that may charge no more than before. */
  lemma MoveCovered(n: nat, workers: map<nat, Phase>, w: nat, p: Phase, id: nat, row: Delivery)
    requires w in workers && Covered(n, workers, id, row) && Left(p, id) <= Left(workers[w], id)
    ensures Covered(n, workers[w := p], id, row)
  {
    LeftMoves(workers, w, p, id);
  }

  /** A charge spends one of the charges its worker had left. */
  lemma ChargeCovered(n: nat, workers: map<nat, Phase>, w: nat, p: Phase, id: nat, row: Delivery, charged: Delivery)
    requires w in workers && Covered(n, workers, id, row) && row.state == Pending
    requires charged.budgetAttempts == row.budgetAttempts + 1
    requires charged.state == Pending ==> Left(p, id) < Left(workers[w], id)
    ensures Covered(n, workers[w := p], id, charged)
  {
    LeftMoves(workers, w, p, id);
  }

  /** Anything with at most ten charges is covered, whatever the workers hold. */
  lemma SmallCovered(n: nat, workers: map<nat, Phase>, id: nat, row: Delivery)
    requires |workers| == n && row.budgetAttempts <= Policy.MAX_BUDGET_ATTEMPTS - 2
    ensures Covered(n, workers, id, row)
  {
    LeftAtMost(workers, workers.Keys, id);
    assert |workers.Keys| == n;
  }

  lemma ClaimCovers(c: Config, n: nat, s: State, w: nat, id: nat, other: nat)
    requires AllCovered(n, s) && Claimable(s, w, id) && other in s.rows
    ensures Covered(n, Next(c, s, Claim(w, id)).workers, other, Next(c, s, Claim(w, id)).rows[other])
    ensures Covered(n, Next(c, s, ClaimLost(w, id)).workers, other, Next(c, s, ClaimLost(w, id)).rows[other])
  {
    var row := LeaseOut(c, s, w, id);
    var p := Returning(id, row, s.workers[w].readAt);
    MoveCovered(n, s.workers, w, Idle, other, s.rows[other]);
    if other == id && row.budgetAttempts <= Policy.MAX_BUDGET_ATTEMPTS - 2 {
      SmallCovered(n, s.workers[w := p], id, row);
    } else {
      MoveCovered(n, s.workers, w, p, other, s.rows[other]);
    }
  }

  lemma RecordCovers(n: nat, s: State, w: nat, p: Phase, other: nat)
    requires AllCovered(n, s) && Recorder(s, w) && s.workers[w].id in s.rows && other in s.rows
    requires forall id :: Left(p, id) <= Left(s.workers[w], id)
    requires s.workers[w].result.nextState == Pending ==> Left(p, s.workers[w].id) < Left(s.workers[w], s.workers[w].id)
    ensures Covered(n, s.workers[w := p], other, RecordInto(s, w)[other])
  {
    var id := s.workers[w].id;
    assert Left(p, other) <= Left(s.workers[w], other);
    if other == id && s.rows[id].state == Pending {
      ChargeCovered(n, s.workers, w, p, id, s.rows[id], RecordInto(s, w)[id]);
    } else {
      MoveCovered(n, s.workers, w, p, other, s.rows[other]);
    }
  }

  lemma SendCovers(c: Config, n: nat, s: State, a: Action, other: nat)
    requires AllCovered(n, s) && (a.Send? || a.CannotSend?) && Enabled(c, s, a) && other in s.rows
    ensures Covered(n, Next(c, s, a).workers, other, s.rows[other])
  {
    if a.Send? { Policy.RetryExactlyWithinBudget(s.workers[a.w].d, a.outcome, s.now, a.random); }
    MoveCovered(n, s.workers, a.w, Next(c, s, a).workers[a.w], other, s.rows[other]);
  }

  lemma RowCovers(c: Config, n: nat, s: State, a: Action, other: nat)
    requires AllCovered(n, s) && (a.Tick? || a.Enqueue? || a.Drop? || a.Replay?)
    requires Enabled(c, s, a) && other in Next(c, s, a).rows
    ensures Covered(n, Next(c, s, a).workers, other, Next(c, s, a).rows[other])
  {
    if a.Enqueue? && other == a.id { SmallCovered(n, s.workers, a.id, a.d); }
    if a.Replay? && other == a.id { SmallCovered(n, s.workers, a.id, Replayed(s.rows[a.id], s.now)); }
  }

  lemma PhaseCovers(c: Config, n: nat, s: State, a: Action, other: nat)
    requires AllCovered(n, s) && Enabled(c, s, a) && other in s.rows
    requires a.StartClaim? || a.ClaimNothing? || a.BeginAttempt? || a.Abandon? || a.RecordFails? || a.Disabled?
    ensures Covered(n, Next(c, s, a).workers, other, Next(c, s, a).rows[other])
  {
    MoveCovered(n, s.workers, a.w, Next(c, s, a).workers[a.w], other, s.rows[other]);
  }

  lemma StepCovers(c: Config, n: nat, s: State, a: Action, other: nat)
    requires AllCovered(n, s) && Enabled(c, s, a) && other in Next(c, s, a).rows
    ensures Covered(n, Next(c, s, a).workers, other, Next(c, s, a).rows[other])
  {
    if a.Tick? || a.Enqueue? || a.Drop? || a.Replay? {
      RowCovers(c, n, s, a, other);
    } else if a.StartClaim? || a.ClaimNothing? || a.BeginAttempt? || a.Abandon? || a.RecordFails? || a.Disabled? {
      PhaseCovers(c, n, s, a, other);
    } else {
      match a
      case ClaimLost(w, id) => ClaimCovers(c, n, s, w, id, other);
      case Claim(w, id) => ClaimCovers(c, n, s, w, id, other);
      case Record(w) => RecordCovers(n, s, w, AfterRecord(s.workers[w], s.now), other);
      case RecordAckLost(w, _) => RecordCovers(n, s, w, Next(c, s, a).workers[w], other);
      case _ => SendCovers(c, n, s, a, other);
    }
  }

  lemma StepKeepsCovered(c: Config, n: nat, s: State, a: Action)
    requires AllCovered(n, s) && Enabled(c, s, a)
    ensures AllCovered(n, Next(c, s, a))
  {
    var t := Next(c, s, a);
    assert t.workers.Keys == s.workers.Keys && |t.workers| == |t.workers.Keys| && |s.workers| == |s.workers.Keys|;
    forall id | id in t.rows ensures Covered(n, t.workers, id, t.rows[id]) { StepCovers(c, n, s, a, id); }
  }

  lemma {:induction false} RunKeepsCovered(c: Config, n: nat, s: State, run: seq<Action>)
    requires AllCovered(n, s) && Runs(c, s, run)
    ensures AllCovered(n, Final(c, s, run))
    decreases |run|
  {
    if run != [] {
      StepKeepsCovered(c, n, s, run[0]);
      RunKeepsCovered(c, n, Next(c, s, run[0]), run[1..]);
    }
  }

  /**
   * In every run, acknowledgements lost and replays together, each worker adds at most three
   * charges to ten: 10 + 3N while pending and 11 + 3N in all.
   */
  lemma ThreeChargesAWorker(c: Config, now: Time, run: seq<Action>, id: nat)
    requires Runs(c, Init(c, now), run)
    ensures var s := Final(c, Init(c, now), run);
      id in s.rows ==>
        && s.rows[id].budgetAttempts <= 11 + 3 * |c.workers|
        && (s.rows[id].state == Pending ==> s.rows[id].budgetAttempts <= 10 + 3 * |c.workers|)
  {
    var s := Init(c, now);
    assert s.workers.Keys == c.workers.Keys && |s.workers| == |s.workers.Keys| && |c.workers| == |c.workers.Keys|;
    RunKeepsCovered(c, |c.workers|, s, run);
  }

  /** After this run a delivery is past the retry budget of 12, or pending with all of it spent. */
  ghost predicate Overspends(c: Config, s: State, run: seq<Action>, id: nat)
  {
    Runs(c, s, run) &&
    var t := Final(c, s, run);
    id in t.rows &&
    (t.rows[id].budgetAttempts > Policy.MAX_BUDGET_ATTEMPTS ||
     (t.rows[id].state == Pending && t.rows[id].budgetAttempts == Policy.MAX_BUDGET_ATTEMPTS))
  }

  ghost predicate BudgetHolds(c: Config, now: Time)
  {
    forall run, id :: !Overspends(c, Init(c, now), run, id)
  }

  /** The retry budget bounds every run exactly when acknowledgements are not lost, or no worker charges anything. */
  lemma BudgetBoundIsExact(c: Config, now: Time)
    requires now >= 0
    ensures BudgetHolds(c, now) <==> !c.acksLost || |c.workers| == 0
  {
    if !c.acksLost || |c.workers| == 0 {
      forall run, id ensures !Overspends(c, Init(c, now), run, id) {
        if Overspends(c, Init(c, now), run, id) {
          if !c.acksLost { BudgetNeverExceeded(c, now, run, id); } else { ThreeChargesAWorker(c, now, run, id); }
        }
      }
    } else {
      var w :| w in c.workers;
      var run, last := BudgetIsReached(c, now, w);
      assert Overspends(c, Init(c, now), run + last, 0);
    }
  }
}
