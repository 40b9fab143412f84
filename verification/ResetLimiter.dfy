// The rolling-window limit on password resets (person-service/src/index.ts).
module ResetLimiter {
  import opened Common

  const RESET_LIMIT: nat := 5
  const RESET_WINDOW_MS: int := 3_600_000

  /** A password_reset row; times are in milliseconds. */
  datatype Reset = Reset(person: string, at: int)

  type Resets = map<string, Reset>

  /** The person's rows after an instant. */
  function After(rows: Resets, person: string, start: int): set<string>
  {
    set id | id in rows && rows[id].person == person && rows[id].at > start
  }

  /** The person's admitted resets in the half-open hour from start. */
  function InHour(rows: Resets, person: string, start: int): set<string>
  {
    set id | id in rows && rows[id].person == person && start <= rows[id].at < start + RESET_WINDOW_MS
  }

  /** The first statement of a claim: the person's rows outside the window go. */
  function Expired(rows: Resets, person: string, start: int): Resets
  {
    map id | id in rows && !(rows[id].person == person && rows[id].at <= start) :: rows[id]
  }

  datatype Claimed = Slot(id: string) | Refused(retryAfterSeconds: int) | IdTaken

  /** Math.ceil of an exact quotient of non-negative integers. */
  function CeilDiv(a: nat, b: nat): (q: nat)
    requires b > 0
    ensures q * b >= a && (q > 0 ==> (q - 1) * b < a)
  {
    (a + b - 1) / b
  }

  ghost predicate IsOldest(rows: Resets, person: string, start: int, oldest: int)
  {
    && (exists id :: id in After(rows, person, start) && rows[id].at == oldest)
    && forall id :: id in After(rows, person, start) ==> oldest <= rows[id].at
  }

  function RetryAfter(oldest: int, now: int): int
    requires oldest + RESET_WINDOW_MS >= now
  {
    Max(1, CeilDiv(oldest + RESET_WINDOW_MS - now, 1000))
  }

  class ResetStore {
    var rows: Resets

    constructor ()
      ensures rows == map[]
    {
      rows := map[];
    }

    /** SELECT MIN(reset_at) over the window. */
    method Oldest(person: string, start: int) returns (oldest: Option<int>)
      ensures oldest.None? <==> After(rows, person, start) == {}
      ensures oldest.Some? ==> IsOldest(rows, person, start, oldest.value)
    {
      oldest := None;
      var todo := After(rows, person, start);
      while todo != {}
        invariant todo <= After(rows, person, start)
        invariant oldest.None? <==> todo == After(rows, person, start)
        invariant oldest.Some? ==>
          exists id :: id in After(rows, person, start) && rows[id].at == oldest.value
        invariant forall id :: id in After(rows, person, start) - todo ==> oldest.Some? && oldest.value <= rows[id].at
        decreases todo
      {
        var id :| id in todo;
        todo := todo - {id};
        if oldest.None? || rows[id].at < oldest.value { oldest := Some(rows[id].at); }
      }
    }

    /** One batch: expire, insert below the limit, read the oldest. id is a fresh random identifier. */
    method ClaimResetSlot(person: string, id: string, now: int) returns (r: Claimed)
      modifies this
      ensures r.IdTaken? ==> rows == old(rows)
      ensures r.IdTaken? ==> id in Expired(old(rows), person, now - RESET_WINDOW_MS)
      ensures var start := now - RESET_WINDOW_MS;
        r.Slot? <==> |After(old(rows), person, start)| < RESET_LIMIT && id !in Expired(old(rows), person, start)
      ensures r.Slot? ==>
        r.id == id && rows == Expired(old(rows), person, now - RESET_WINDOW_MS)[id := Reset(person, now)]
      ensures r.Refused? ==> rows == Expired(old(rows), person, now - RESET_WINDOW_MS)
      ensures forall other :: other in rows && (r.Slot? ==> other != id) ==> other in old(rows) && rows[other] == old(rows)[other]
      ensures forall other :: other in old(rows) && (old(rows)[other].person != person || now - 3_600_000 < old(rows)[other].at) ==>
        other in rows && rows[other] == old(rows)[other]
      ensures !r.IdTaken? ==>
        forall other | other in old(rows) && other != id && old(rows)[other].person == person ::
          old(rows)[other].at <= now - 3_600_000 ==> other !in rows
      ensures r.Slot? ==> id in rows && rows[id] == Reset(person, now)
      ensures r.Refused? ==>
        exists oldest :: IsOldest(rows, person, now - RESET_WINDOW_MS, oldest)
          && oldest + RESET_WINDOW_MS >= now && r.retryAfterSeconds == RetryAfter(oldest, now)
    {
      var start := now - RESET_WINDOW_MS;
      var expired := Expired(rows, person, start);
      assert After(expired, person, start) == After(rows, person, start);
      if |After(expired, person, start)| < RESET_LIMIT {
        if id in expired { return IdTaken; }
        rows := expired[id := Reset(person, now)];
        return Slot(id);
      }
      rows := expired;
      var oldest := Oldest(person, start);
      r := Refused(RetryAfter(if oldest.Some? then oldest.value else now, now));
    }

    method ReleaseResetSlot(person: string, id: string) returns (released: bool)
      modifies this
      ensures released <==> id in old(rows) && old(rows)[id].person == person
      ensures rows == if released then old(rows) - {id} else old(rows)
      ensures forall other :: other in old(rows) && other != id ==> other in rows && rows[other] == old(rows)[other]
    {
      released := id in rows && rows[id].person == person;
      if released { rows := rows - {id}; }
    }

    /** A person's reset history goes with the person. */
    method DeletePerson(person: string)
      modifies this
      ensures rows == map id | id in old(rows) && old(rows)[id].person != person :: old(rows)[id]
    {
      rows := map id | id in rows && rows[id].person != person :: rows[id];
    }
  }

  // ----- Runs -----------------------------------------------------------------------

  datatype Action =
    | Claim(person: string, id: string, now: int)
    | Release(person: string, id: string)
    | DeletePerson(person: string)

  /**
   * The rows, every admission not since released or deleted with its person, every admission not
   * since released, and the clock.
   */
  datatype State = State(rows: Resets, admitted: Resets, ever: Resets, clock: int)

  function Init(clock: int): State { State(map[], map[], map[], clock) }

  predicate Admits(rows: Resets, person: string, now: int)
  {
    |After(rows, person, now - RESET_WINDOW_MS)| < RESET_LIMIT
  }

  predicate Enabled(s: State, a: Action)
  {
    match a
    case Claim(_, id, now) => s.clock <= now && id !in s.ever
    case _ => true
  }

  function Next(s: State, a: Action): State
    requires Enabled(s, a)
  {
    match a
    case Claim(person, id, now) =>
      var expired := Expired(s.rows, person, now - RESET_WINDOW_MS);
      if Admits(s.rows, person, now)
      then State(expired[id := Reset(person, now)], s.admitted[id := Reset(person, now)],
                 s.ever[id := Reset(person, now)], now)
      else State(expired, s.admitted, s.ever, now)
    case Release(person, id) =>
      if id in s.rows && s.rows[id].person == person
      then State(s.rows - {id}, s.admitted - {id}, s.ever - {id}, s.clock) else s
    case DeletePerson(person) =>
      s.(rows := map id | id in s.rows && s.rows[id].person != person :: s.rows[id],
         admitted := map id | id in s.admitted && s.admitted[id].person != person :: s.admitted[id])
  }

  /** A release frees exactly the named slot of the person; a deletion, every row of the person and no other. */
  lemma StepsFree(s: State, person: string, id: string, other: string)
    ensures var after := Next(s, Release(person, id));
      && (other in after.rows <==> other in s.rows && !(other == id && s.rows[id].person == person))
      && (other in after.rows ==> after.rows[other] == s.rows[other])
      && (id in s.rows && s.rows[id].person == person ==> id !in after.admitted && id !in after.ever)
    ensures var after := Next(s, DeletePerson(person));
      && (other in after.rows <==> other in s.rows && s.rows[other].person != person)
      && (other in after.rows ==> after.rows[other] == s.rows[other]) && after.ever == s.ever
  {
  }

  ghost predicate HoursOk(admitted: Resets)
  {
    forall person, start :: |InHour(admitted, person, start)| <= RESET_LIMIT
  }

  /** Rows are admissions, and an admission within the window still has its row. */
  ghost predicate Inv(s: State)
  {
    && (forall id :: id in s.rows ==> id in s.admitted && s.admitted[id] == s.rows[id])
    && (forall id :: id in s.admitted ==> id in s.ever && s.ever[id] == s.admitted[id])
    && (forall id :: id in s.admitted ==>
          s.admitted[id].at <= s.clock && (s.admitted[id].at > s.clock - RESET_WINDOW_MS ==> id in s.rows))
    && HoursOk(s.admitted)
  }

  /** Any hour that reaches now holds only the new reset and resets the claim counted. */
  lemma HourAtNow(s: State, person: string, id: string, now: int, start: int)
    requires Inv(s) && s.clock <= now && start <= now < start + RESET_WINDOW_MS && Admits(s.rows, person, now)
    ensures |InHour(s.admitted[id := Reset(person, now)], person, start)| <= RESET_LIMIT
  {
    var counted := After(s.rows, person, now - RESET_WINDOW_MS);
    assert InHour(s.admitted[id := Reset(person, now)], person, start) <= counted + {id};
    SubsetSize(InHour(s.admitted[id := Reset(person, now)], person, start), counted + {id});
  }

  /** The other hours stay as they were. */
  lemma HourElsewhere(s: State, person: string, id: string, now: int, p: string, start: int)
    requires id !in s.admitted && (p != person || now < start || now >= start + RESET_WINDOW_MS)
    ensures InHour(s.admitted[id := Reset(person, now)], p, start) == InHour(s.admitted, p, start)
  {
  }

  lemma AdmissionFits(s: State, person: string, id: string, now: int)
    requires Inv(s) && Enabled(s, Claim(person, id, now)) && Admits(s.rows, person, now)
    ensures HoursOk(s.admitted[id := Reset(person, now)])
  {
    var admitted := s.admitted[id := Reset(person, now)];
    forall p, start ensures |InHour(admitted, p, start)| <= RESET_LIMIT {
      if p == person && start <= now < start + RESET_WINDOW_MS {
        HourAtNow(s, person, id, now, start);
      } else {
        HourElsewhere(s, person, id, now, p, start);
      }
    }
  }

  lemma FewerFits(before: Resets, after: Resets)
    requires HoursOk(before) && forall id :: id in after ==> id in before && after[id] == before[id]
    ensures HoursOk(after)
  {
    forall p, start ensures |InHour(after, p, start)| <= RESET_LIMIT {
      SubsetSize(InHour(after, p, start), InHour(before, p, start));
    }
  }

  lemma StepKeeps(s: State, a: Action)
    requires Inv(s) && Enabled(s, a)
    ensures Inv(Next(s, a))
  {
    if a.Claim? {
      if Admits(s.rows, a.person, a.now) { AdmissionFits(s, a.person, a.id, a.now); }
    } else {
      FewerFits(s.admitted, Next(s, a).admitted);
    }
  }

  ghost predicate Runs(s: State, run: seq<Action>)
    decreases |run|
  {
    run == [] || (Enabled(s, run[0]) && Runs(Next(s, run[0]), run[1..]))
  }

  ghost function Final(s: State, run: seq<Action>): State
    requires Runs(s, run)
    decreases |run|
  {
    if run == [] then s else Final(Next(s, run[0]), run[1..])
  }

  lemma {:induction false} RunKeeps(s: State, run: seq<Action>)
    requires Inv(s) && Runs(s, run)
    ensures Inv(Final(s, run))
    decreases |run|
  {
    if run != [] {
      StepKeeps(s, run[0]);
      RunKeeps(Next(s, run[0]), run[1..]);
    }
  }

  lemma InitInv(clock: int)
    ensures Inv(Init(clock))
  {
    forall p, start ensures |InHour(map[], p, start)| <= RESET_LIMIT {
      assert InHour(map[], p, start) == {};
    }
  }

  /** With a clock that never goes back, no half-open hour holds more than five unreleased admissions of a person. */
  lemma AtMostFiveAnHour(clock: int, run: seq<Action>, person: string, start: int)
    requires Runs(Init(clock), run)
    ensures |InHour(Final(Init(clock), run).admitted, person, start)| <= RESET_LIMIT
  {
    InitInv(clock);
    RunKeeps(Init(clock), run);
  }

  /** In a reachable state a refusal counted exactly five rows. */
  lemma RefusalCountsFive(s: State, person: string, now: int)
    requires Inv(s) && s.clock <= now && !Admits(s.rows, person, now)
    ensures |After(s.rows, person, now - RESET_WINDOW_MS)| == RESET_LIMIT
  {
    var counted := After(s.rows, person, now - RESET_WINDOW_MS);
    assert counted <= InHour(s.admitted, person, now - RESET_WINDOW_MS + 1);
    SubsetSize(counted, InHour(s.admitted, person, now - RESET_WINDOW_MS + 1));
  }

  lemma WaitSuffices(s: State, person: string, now: int, first: string, retry: int, later: Resets)
    requires |After(s.rows, person, now - RESET_WINDOW_MS)| == RESET_LIMIT && now <= retry
    requires first in After(s.rows, person, now - RESET_WINDOW_MS) && s.rows[first].at + RESET_WINDOW_MS <= retry
    requires forall id :: id in later ==> id in s.rows && later[id] == s.rows[id]
    ensures Admits(later, person, retry)
  {
    var counted := After(s.rows, person, now - RESET_WINDOW_MS);
    var left := After(later, person, retry - RESET_WINDOW_MS);
    assert left <= counted - {first};
    SubsetSize(left, counted - {first});
  }

  lemma EarlierIsRefused(s: State, person: string, now: int, oldest: int, t: int)
    requires !Admits(s.rows, person, now) && IsOldest(s.rows, person, now - RESET_WINDOW_MS, oldest)
    requires now <= t < oldest + RESET_WINDOW_MS
    ensures !Admits(s.rows, person, t)
  {
    var counted := After(s.rows, person, now - RESET_WINDOW_MS);
    assert counted <= After(s.rows, person, t - RESET_WINDOW_MS);
    SubsetSize(counted, After(s.rows, person, t - RESET_WINDOW_MS));
  }

  /**
   * The advertised wait is enough, if nobody else claims, whatever is released meanwhile; and one
   * second less is not enough when nothing is released.
   */
  lemma RetryAfterIsExact(s: State, person: string, now: int, oldest: int, later: Resets)
    requires Inv(s) && s.clock <= now && !Admits(s.rows, person, now)
    requires IsOldest(s.rows, person, now - RESET_WINDOW_MS, oldest)
    requires forall id :: id in later ==> id in s.rows && later[id] == s.rows[id]
    ensures oldest + RESET_WINDOW_MS > now
    ensures Admits(later, person, now + RetryAfter(oldest, now) * 1000)
    ensures forall t :: now <= t <= now + (RetryAfter(oldest, now) - 1) * 1000 ==> !Admits(s.rows, person, t)
  {
    RefusalCountsFive(s, person, now);
    var first :| first in After(s.rows, person, now - RESET_WINDOW_MS) && s.rows[first].at == oldest;
    WaitSuffices(s, person, now, first, now + RetryAfter(oldest, now) * 1000, later);
    forall t | now <= t <= now + (RetryAfter(oldest, now) - 1) * 1000 ensures !Admits(s.rows, person, t) {
      EarlierIsRefused(s, person, now, oldest, t);
    }
  }

  // ----- What a person's deletion does to the limit ---------------------------------------

  function Deletions(run: seq<Action>, person: string): nat
  {
    if run == [] then 0 else (if run[0] == DeletePerson(person) then 1 else 0) + Deletions(run[1..], person)
  }

  /** Admissions of an hour that a deletion made the store forget. */
  function Forgotten(s: State, person: string, start: int): set<string>
  {
    set id | id in InHour(s.ever, person, start) && id !in s.admitted
  }

  ghost predicate ForgottenAtMost(s: State, person: string, deletions: nat)
  {
    forall start :: |Forgotten(s, person, start)| <= RESET_LIMIT * deletions
  }

  lemma OthersForgetNothing(s: State, a: Action, person: string, start: int)
    requires Inv(s) && Enabled(s, a) && a != DeletePerson(person)
    ensures |Forgotten(Next(s, a), person, start)| <= |Forgotten(s, person, start)|
  {
    assert Forgotten(Next(s, a), person, start) <= Forgotten(s, person, start);
    SubsetSize(Forgotten(Next(s, a), person, start), Forgotten(s, person, start));
  }

  lemma DeletionForgets(s: State, person: string, start: int)
    requires Inv(s)
    ensures |Forgotten(Next(s, DeletePerson(person)), person, start)| <= |Forgotten(s, person, start)| + RESET_LIMIT
  {
    var before, found := Forgotten(s, person, start), InHour(s.admitted, person, start);
    var after := Forgotten(Next(s, DeletePerson(person)), person, start);
    assert after <= before + found;
    SubsetSize(after, before + found);
  }

  /** A deletion forgets what it finds, at most five in any hour; nothing else forgets. */
  lemma StepForgets(s: State, a: Action, person: string, deletions: nat)
    requires Inv(s) && Enabled(s, a) && ForgottenAtMost(s, person, deletions)
    ensures ForgottenAtMost(Next(s, a), person, deletions + if a == DeletePerson(person) then 1 else 0)
  {
    var after, more := Next(s, a), if a == DeletePerson(person) then 1 else 0;
    forall start ensures |Forgotten(after, person, start)| <= RESET_LIMIT * (deletions + more) {
      if a == DeletePerson(person) { DeletionForgets(s, person, start); } else { OthersForgetNothing(s, a, person, start); }
    }
  }

  lemma EverIsKeptOrForgotten(s: State, person: string, start: int)
    requires Inv(s)
    ensures |InHour(s.ever, person, start)| <= |InHour(s.admitted, person, start)| + |Forgotten(s, person, start)|
  {
    var kept, gone := InHour(s.admitted, person, start), Forgotten(s, person, start);
    assert InHour(s.ever, person, start) <= kept + gone;
    SubsetSize(InHour(s.ever, person, start), kept + gone);
    assert |kept + gone| <= |kept| + |gone|;
  }

  lemma {:induction false} RunForgets(s: State, run: seq<Action>, person: string, deletions: nat)
    requires Inv(s) && Runs(s, run) && ForgottenAtMost(s, person, deletions)
    ensures ForgottenAtMost(Final(s, run), person, deletions + Deletions(run, person))
    decreases |run|
  {
    if run != [] {
      StepKeeps(s, run[0]);
      StepForgets(s, run[0], person, deletions);
      RunForgets(Next(s, run[0]), run[1..], person, deletions + if run[0] == DeletePerson(person) then 1 else 0);
    }
  }

  /** Over everything ever admitted, an hour holds five resets, and five more for each deletion of the person. */
  lemma FiveADeletion(clock: int, run: seq<Action>, person: string, start: int)
    requires Runs(Init(clock), run)
    ensures |InHour(Final(Init(clock), run).ever, person, start)| <= RESET_LIMIT * (1 + Deletions(run, person))
  {
    var s := Init(clock);
    InitInv(clock);
    forall hour ensures |Forgotten(s, person, hour)| <= RESET_LIMIT * 0 { assert Forgotten(s, person, hour) == {}; }
    RunForgets(s, run, person, 0);
    RunKeeps(s, run);
    var t := Final(s, run);
    EverIsKeptOrForgotten(t, person, start);
  }

  /** Every identifier used so far is at most n characters long. */
  predicate IdsWithin(s: State, n: nat) { forall id :: id in s.ever ==> |id| <= n }

  lemma HourGrows(rows: Resets, person: string, id: string, now: int)
    requires id !in rows
    ensures |InHour(rows[id := Reset(person, now)], person, now)| == |InHour(rows, person, now)| + 1
  {
    assert InHour(rows[id := Reset(person, now)], person, now) == InHour(rows, person, now) + {id};
  }

  lemma WindowGrows(rows: Resets, person: string, id: string, now: int, start: int)
    requires id !in rows && start < now
    ensures |After(Expired(rows, person, start)[id := Reset(person, now)], person, start)| == |After(rows, person, start)| + 1
  {
    assert After(Expired(rows, person, start)[id := Reset(person, now)], person, start) == After(rows, person, start) + {id};
  }

  /** While the window has room a claim with a fresh identifier is admitted. */
  lemma Admit(s: State, person: string, n: nat) returns (a: Action, t: State)
    requires Inv(s) && IdsWithin(s, n) && |After(s.rows, person, s.clock - RESET_WINDOW_MS)| < RESET_LIMIT
    ensures a.Claim? && Enabled(s, a) && t == Next(s, a) && Inv(t) && t.clock == s.clock && IdsWithin(t, n + 1)
    ensures |InHour(t.ever, person, s.clock)| == |InHour(s.ever, person, s.clock)| + 1
    ensures |After(t.rows, person, s.clock - RESET_WINDOW_MS)| == |After(s.rows, person, s.clock - RESET_WINDOW_MS)| + 1
  {
    var id := seq(n + 1, _ => 'x');
    assert id !in s.ever;
    a := Claim(person, id, s.clock);
    t := Next(s, a);
    StepKeeps(s, a);
    HourGrows(s.ever, person, id, s.clock);
    WindowGrows(s.rows, person, id, s.clock, s.clock - RESET_WINDOW_MS);
  }

  /** While rows are missing to the limit, claims at one instant are all admitted. */
  lemma {:induction false} Fill(s: State, person: string, k: nat, n: nat) returns (run: seq<Action>, t: State)
    requires Inv(s) && IdsWithin(s, n) && |After(s.rows, person, s.clock - RESET_WINDOW_MS)| + k <= RESET_LIMIT
    ensures Runs(s, run) && t == Final(s, run) && Inv(t) && t.clock == s.clock && IdsWithin(t, n + k)
    ensures |InHour(t.ever, person, s.clock)| == |InHour(s.ever, person, s.clock)| + k
    ensures Deletions(run, person) == 0
    decreases k
  {
    if k == 0 { return [], s; }
    var a, next := Admit(s, person, n);
    var rest;
    rest, t := Fill(next, person, k - 1, n + 1);
    run := [a] + rest;
    assert run[0] == a && run[1..] == rest;
  }

  lemma {:induction false} Joined(s: State, first: seq<Action>, second: seq<Action>)
    requires Runs(s, first) && Runs(Final(s, first), second)
    ensures Runs(s, first + second) && Final(s, first + second) == Final(Final(s, first), second)
    decreases |first|
  {
    if first == [] {
      assert first + second == second;
    } else {
      Joined(Next(s, first[0]), first[1..], second);
      assert (first + second)[1..] == first[1..] + second;
    }
  }

  lemma {:induction false} DeletionsAdd(first: seq<Action>, second: seq<Action>, person: string)
    ensures Deletions(first + second, person) == Deletions(first, person) + Deletions(second, person)
    decreases |first|
  {
    if first == [] {
      assert first + second == second;
    } else {
      DeletionsAdd(first[1..], second, person);
      assert (first + second)[1..] == first[1..] + second;
    }
  }

  /** Each deletion lets five more be admitted at the same instant: the bound is reached for any number of them. */
  lemma {:induction false} DeletionsReopenTheHour(clock: int, person: string, n: nat) returns (run: seq<Action>, used: nat)
    ensures Runs(Init(clock), run) && Deletions(run, person) == n
    ensures var t := Final(Init(clock), run);
      && Inv(t) && t.clock == clock && IdsWithin(t, used)
      && |InHour(t.ever, person, clock)| == RESET_LIMIT * (1 + n)
  {
    var start := Init(clock);
    InitInv(clock);
    if n == 0 {
      assert After(start.rows, person, clock - RESET_WINDOW_MS) == {} && InHour(start.ever, person, clock) == {};
      var full;
      run, full := Fill(start, person, RESET_LIMIT, 0);
      return run, RESET_LIMIT;
    }
    run, used := DeletionsReopenTheHour(clock, person, n - 1);
    var full := Final(start, run);
    var deleted := Next(full, DeletePerson(person));
    StepKeeps(full, DeletePerson(person));
    var middle := [DeletePerson(person)];
    assert Runs(deleted, []) && middle[1..] == [];
    assert After(deleted.rows, person, clock - RESET_WINDOW_MS) == {};
    var more, again := Fill(deleted, person, RESET_LIMIT, used);
    Joined(full, middle, more);
    Joined(start, run, middle + more);
    DeletionsAdd(middle, more, person);
    DeletionsAdd(run, middle + more, person);
    run, used := run + (middle + more), used + RESET_LIMIT;
  }
}
