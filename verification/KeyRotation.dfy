// Re-sealing stored secrets row by row against live writers, with an ideal seal
// (delivery-api/internal/keyrotation/rotation.go).
module KeyRotation {
  import opened Common

  // ----- The ideal seal -----------------------------------------------------------

  datatype KeyId = PrimaryKey | PreviousKey | OtherKey

  /** Only the key and the context a value was sealed with open it. */
  datatype Blob =
    | Short(bytes: nat)
    | OtherVersion(bytes: nat)
    | Sealed(key: KeyId, context: string, plaintext: string, nonce: nat)

  datatype OpenError = ErrMalformed | ErrUnsupportedVersion | ErrDecrypt

  /** Opens under the primary key, then, if there is one, the previous key. */
  function OpenReportingKey(blob: Blob, aad: string, hasPrevious: bool): Result<(string, KeyId), OpenError>
  {
    match blob
    case Short(_) => Err(ErrMalformed)
    case OtherVersion(_) => Err(ErrUnsupportedVersion)
    case Sealed(key, context, plaintext, _) =>
      if context == aad && (key == PrimaryKey || (hasPrevious && key == PreviousKey)) then Ok((plaintext, key))
      else Err(ErrDecrypt)
  }

  // ----- Tables, writers and faults -------------------------------------------------

  /** A table's name and a row's key. */
  type RowId = (string, string)

  /** A null column is None. */
  type Rows = map<RowId, Option<Blob>>

  /** How a row's context is built; None is a key the table's rule rejects. */
  type AadOf = RowId -> Option<string>

  /** What live writers do: seal under a key they hold with the row's context, clear, or delete. */
  datatype Write = Put(id: RowId, plaintext: string, key: KeyId, nonce: nat) | SetNull(id: RowId) | DeleteRow(id: RowId)

  predicate Accepted(aad: AadOf, w: Write) { w.Put? ==> aad(w.id).Some? && w.key != OtherKey }

  function Written(rows: Rows, aad: AadOf, w: Write): Rows
  {
    if !Accepted(aad, w) then rows
    else match w
         case Put(id, plaintext, key, nonce) => rows[id := Some(Sealed(key, aad(id).value, plaintext, nonce))]
         case SetNull(id) => if id in rows then rows[id := None] else rows
         case DeleteRow(id) => rows - {id}
  }

  /** The plaintext last written to each row. */
  function Remembered(truth: map<RowId, string>, aad: AadOf, w: Write): map<RowId, string>
  {
    if !Accepted(aad, w) then truth
    else if w.Put? then truth[w.id := w.plaintext] else truth - {w.id}
  }

  /** Every remembered row opens, to what was last written. */
  predicate Opens(rows: Rows, aad: AadOf, id: RowId, plaintext: string)
  {
    id in rows && rows[id].Some? && aad(id).Some?
    && exists key :: OpenReportingKey(rows[id].value, aad(id).value, true) == Ok((plaintext, key))
  }

  ghost predicate Intact(rows: Rows, truth: map<RowId, string>, aad: AadOf)
  {
    forall id :: id in truth ==> Opens(rows, aad, id, truth[id])
  }

  /** Needs nothing more: null, or sealed under the primary key. */
  predicate CurrentValue(value: Option<Blob>, context: Option<string>)
  {
    value.Some? ==> context.Some? && OpenReportingKey(value.value, context.value, false).Ok?
  }

  predicate Current(rows: Rows, aad: AadOf, id: RowId)
    requires id in rows
  {
    CurrentValue(rows[id], aad(id))
  }

  ghost predicate VerifyClean(rows: Rows, aad: AadOf, tables: seq<string>)
  {
    forall id :: id in rows && id.0 in tables ==> Current(rows, aad, id)
  }

  function NamesOf(tables: seq<string>): set<string> { set t | t in tables }

  datatype Fault = NoFault | LoadFails | HookFails | UpdateFails | UpdateCommitsThenFails

  /** What the outside does at each step: the writes that commit before it, and whether it fails. */
  datatype World = World(writes: nat -> seq<Write>, fault: nat -> Fault)

  ghost predicate PrimaryWriters(world: World)
  {
    forall n, i :: 0 <= i < |world.writes(n)| && world.writes(n)[i].Put? ==> world.writes(n)[i].key == PrimaryKey
  }

  ghost predicate NoFaults(world: World) { forall n :: world.fault(n) == NoFault }

  /** Nobody writes and nothing fails. */
  ghost predicate Calm(world: World) { NoFaults(world) && forall n :: world.writes(n) == [] }

  // ----- Reports --------------------------------------------------------------------

  datatype Reason = DecryptFailed | MalformedRow | UnsupportedVersion | ChangedConcurrently

  datatype Counts = Counts(scanned: nat, rotated: nat, alreadyCurrent: nat, skippedNull: nat, failed: nat)

  const NOTHING := Counts(0, 0, 0, 0, 0)

  predicate AddsUp(c: Counts) { c.scanned == c.rotated + c.alreadyCurrent + c.skippedNull + c.failed }

  datatype Outcome = Complete | Incomplete | Aborted | NoPrevious

  datatype RowResult = RowRotated | RowCurrent | RowNull | RowIssue(reason: Reason) | RowAborted

  function Tallied(c: Counts, r: RowResult): Counts
  {
    match r
    case RowRotated => c.(scanned := c.scanned + 1, rotated := c.rotated + 1)
    case RowCurrent => c.(scanned := c.scanned + 1, alreadyCurrent := c.alreadyCurrent + 1)
    case RowNull => c.(scanned := c.scanned + 1, skippedNull := c.skippedNull + 1)
    case RowIssue(_) => c.(scanned := c.scanned + 1, failed := c.failed + 1)
    case RowAborted => c.(scanned := c.scanned + 1)
  }

  function ReasonFor(e: OpenError): Reason
  {
    match e
    case ErrUnsupportedVersion => UnsupportedVersion
    case ErrMalformed => MalformedRow
    case ErrDecrypt => DecryptFailed
  }

  // ----- Writers keep both properties ---------------------------------------------------

  /** A write with a key its writer holds takes effect, and the plaintext put last is what is remembered; no other row moves. */
  lemma WriteSays(rows: Rows, truth: map<RowId, string>, aad: AadOf, w: Write, other: RowId)
    requires Accepted(aad, w)
    ensures var after, remembered := Written(rows, aad, w), Remembered(truth, aad, w);
      && (w.Put? ==>
            && w.id in after && w.id in remembered && remembered[w.id] == w.plaintext
            && after[w.id] == Some(Sealed(w.key, aad(w.id).value, w.plaintext, w.nonce)))
      && (w.SetNull? ==> w.id !in remembered && (w.id in after <==> w.id in rows) && (w.id in rows ==> after[w.id].None?))
      && (w.DeleteRow? ==> w.id !in remembered && w.id !in after)
      && (other != w.id ==>
            && (other in after <==> other in rows) && (other in rows ==> after[other] == rows[other])
            && (other in remembered <==> other in truth) && (other in truth ==> remembered[other] == truth[other]))
  {
  }

  lemma WriteKeepsIntact(rows: Rows, truth: map<RowId, string>, aad: AadOf, w: Write)
    requires Intact(rows, truth, aad)
    ensures Intact(Written(rows, aad, w), Remembered(truth, aad, w), aad)
  {
    var after, remembered := Written(rows, aad, w), Remembered(truth, aad, w);
    forall id | id in remembered ensures Opens(after, aad, id, remembered[id]) {
      if id in truth && id != w.id {
        assert Opens(rows, aad, id, truth[id]);
        var key :| OpenReportingKey(rows[id].value, aad(id).value, true) == Ok((truth[id], key));
        assert OpenReportingKey(after[id].value, aad(id).value, true) == Ok((remembered[id], key));
      } else if Accepted(aad, w) {
        assert OpenReportingKey(after[id].value, aad(id).value, true) == Ok((remembered[id], w.key));
      } else {
        assert Opens(rows, aad, id, truth[id]);
      }
    }
  }

  /**
   * How far a run is: every row of the tables it reached is current, or still as loaded and still
   * to be looked at.
   */
  ghost predicate Settled(rows: Rows, aad: AadOf, tables: set<string>, rest: Rows)
  {
    forall id :: id in rows && id.0 in tables ==> Current(rows, aad, id) || (id in rest && rows[id] == rest[id])
  }

  lemma WriteKeepsSettled(rows: Rows, aad: AadOf, w: Write, tables: set<string>, rest: Rows)
    requires Settled(rows, aad, tables, rest) && (w.Put? ==> w.key == PrimaryKey)
    ensures Settled(Written(rows, aad, w), aad, tables, rest)
  {
  }

  /** The compare-and-swap re-seal. */
  function Resealed(rows: Rows, id: RowId, old_: Blob, aad: string, plaintext: string, nonce: nat): Rows
  {
    if id in rows && rows[id] == Some(old_) then rows[id := Some(Sealed(PrimaryKey, aad, plaintext, nonce))] else rows
  }

  lemma ResealKeepsIntact(rows: Rows, truth: map<RowId, string>, aad: AadOf, id: RowId, blob: Blob, plaintext: string, nonce: nat)
    requires Intact(rows, truth, aad) && aad(id).Some?
    requires OpenReportingKey(blob, aad(id).value, true) == Ok((plaintext, PreviousKey))
    ensures Intact(Resealed(rows, id, blob, aad(id).value, plaintext, nonce), truth, aad)
  {
    var after := Resealed(rows, id, blob, aad(id).value, plaintext, nonce);
    forall other | other in truth ensures Opens(after, aad, other, truth[other]) {
      assert Opens(rows, aad, other, truth[other]);
      var key :| OpenReportingKey(rows[other].value, aad(other).value, true) == Ok((truth[other], key));
      if other == id && rows[id] == Some(blob) {
        assert OpenReportingKey(after[id].value, aad(id).value, true) == Ok((plaintext, PrimaryKey));
      } else {
        assert OpenReportingKey(after[other].value, aad(other).value, true) == Ok((truth[other], key));
      }
    }
  }

  /** Whether the swap matched or not, the row looked at is current or has changed since it was loaded. */
  lemma ResealSettles(rows: Rows, aad: AadOf, id: RowId, blob: Blob, plaintext: string, nonce: nat,
                      tables: set<string>, rest: Rows)
    requires Settled(rows, aad, tables, rest) && id in rest && rest[id] == Some(blob) && aad(id).Some?
    ensures Settled(Resealed(rows, id, blob, aad(id).value, plaintext, nonce), aad, tables, rest - {id})
  {
  }

  /** Opens under the previous key, so a run has to re-seal it. */
  predicate Stale(value: Option<Blob>, context: Option<string>)
  {
    value.Some? && context.Some? && value.value.Sealed? && value.value.key == PreviousKey && value.value.context == context.value
  }

  /** The same secret under the same context, sealed with the primary key. */
  predicate Rekeyed(before: Option<Blob>, after: Option<Blob>)
  {
    && before.Some? && before.value.Sealed? && after.Some? && after.value.Sealed?
    && after.value == before.value.(key := PrimaryKey, nonce := after.value.nonce)
  }

  /** What a calm run makes of the rows in reach: stale ones re-sealed, everything else untouched. */
  ghost predicate RekeyedExactly(before: Rows, after: Rows, aad: AadOf, reach: set<RowId>)
  {
    && before.Keys == after.Keys
    && forall id :: id in before ==>
         if id in reach && Stale(before[id], aad(id)) then Rekeyed(before[id], after[id]) else after[id] == before[id]
  }

  function StaleIn(rows: Rows, aad: AadOf, reach: set<RowId>): set<RowId>
  {
    set id | id in reach && id in rows && Stale(rows[id], aad(id))
  }

  function RowsOf(rows: Rows, tables: set<string>): set<RowId> { set id | id in rows && id.0 in tables }

  /** Rows a run can only report: neither null nor under either key. */
  ghost predicate Openable(rows: Rows, aad: AadOf, reach: set<RowId>)
  {
    forall id :: id in reach && id in rows ==> Current(rows, aad, id) || Stale(rows[id], aad(id))
  }

  /** The rows are still as loaded. */
  predicate Holds(rows: Rows, loaded: Rows)
  {
    forall id :: id in loaded ==> id in rows && rows[id] == loaded[id]
  }

  /** Neither null nor under either key: all a run can do is report it. */
  predicate Unreadable(value: Option<Blob>, context: Option<string>)
  {
    !CurrentValue(value, context) && !Stale(value, context)
  }

  /** Why it cannot be read. */
  function WhyUnreadable(value: Option<Blob>, context: Option<string>): Reason
  {
    if context.None? || value.None? || value.value.Short? then MalformedRow
    else if value.value.OtherVersion? then UnsupportedVersion else DecryptFailed
  }

  /** A value is as it should be when it is null or sealed with the primary key for its own row. */
  lemma CurrentMeans(value: Option<Blob>, context: Option<string>)
    ensures CurrentValue(value, context) <==>
      value.None? ||
      (context.Some? && value.value.Sealed? && value.value.key == PrimaryKey && value.value.context == context.value)
  {
  }

  function UnreadableIn(rows: Rows, aad: AadOf, reach: set<RowId>): set<RowId>
  {
    set id | id in reach && id in rows && Unreadable(rows[id], aad(id))
  }

  function NullIn(rows: Rows, reach: set<RowId>): set<RowId> { set id | id in reach && id in rows && rows[id].None? }

  function CurrentIn(rows: Rows, aad: AadOf, reach: set<RowId>): set<RowId>
  {
    set id | id in reach && id in rows && rows[id].Some? && CurrentValue(rows[id], aad(id))
  }

  /** What a calm run over these rows has to report. */
  function CountsOf(rows: Rows, aad: AadOf, reach: set<RowId>): Counts
  {
    Counts(|reach|, |StaleIn(rows, aad, reach)|, |CurrentIn(rows, aad, reach)|, |NullIn(rows, reach)|,
           |UnreadableIn(rows, aad, reach)|)
  }

  /** The rows a list of issues names. */
  function Listed(issues: seq<(RowId, Reason)>): set<RowId> { set issue | issue in issues :: issue.0 }

  /** The issues name exactly the unreadable rows in reach, each with its reason. */
  ghost predicate IssuesOf(rows: Rows, aad: AadOf, reach: set<RowId>, issues: seq<(RowId, Reason)>)
  {
    && Listed(issues) == UnreadableIn(rows, aad, reach)
    && forall issue :: issue in issues ==> ExplainsRow(rows, aad, issue)
  }

  predicate ExplainsRow(rows: Rows, aad: AadOf, issue: (RowId, Reason))
  {
    issue.0 in rows && issue.1 == WhyUnreadable(rows[issue.0], aad(issue.0))
  }

  lemma NoIssuesMeansOpenable(rows: Rows, aad: AadOf, reach: set<RowId>, issues: seq<(RowId, Reason)>)
    requires IssuesOf(rows, aad, reach, issues)
    ensures issues == [] <==> Openable(rows, aad, reach)
  {
    if issues == [] {
      assert UnreadableIn(rows, aad, reach) == {};
      forall id | id in reach && id in rows ensures Current(rows, aad, id) || Stale(rows[id], aad(id)) {
        assert id !in UnreadableIn(rows, aad, reach);
      }
    } else {
      var id := issues[0].0;
      assert issues[0] in issues && id in UnreadableIn(rows, aad, reach);
      assert id in reach && id in rows && !Current(rows, aad, id) && !Stale(rows[id], aad(id));
    }
  }

  /** A calm run after the rows in done: what it re-keyed, counted and reported. */
  ghost predicate CalmSoFar(before: Rows, rows: Rows, aad: AadOf, done: set<RowId>, counts: Counts, issues: seq<(RowId, Reason)>)
  {
    && RekeyedExactly(before, rows, aad, done)
    && counts == CountsOf(before, aad, done)
    && IssuesOf(before, aad, done, issues)
  }

  lemma CalmStart(rows: Rows, aad: AadOf)
    ensures CalmSoFar(rows, rows, aad, {}, NOTHING, [])
  {
    assert StaleIn(rows, aad, {}) == {} && CurrentIn(rows, aad, {}) == {};
    assert NullIn(rows, {}) == {} && UnreadableIn(rows, aad, {}) == {};
  }

  /** The result that fits a row. */
  predicate Fits(value: Option<Blob>, context: Option<string>, r: RowResult)
  {
    r == if value.None? then RowNull
         else if CurrentValue(value, context) then RowCurrent
         else if Stale(value, context) then RowRotated
         else RowIssue(WhyUnreadable(value, context))
  }

  function WithIssue(issues: seq<(RowId, Reason)>, id: RowId, r: RowResult): seq<(RowId, Reason)>
  {
    if r.RowIssue? then issues + [(id, r.reason)] else issues
  }

  lemma StaleOneMore(rows: Rows, aad: AadOf, done: set<RowId>, id: RowId)
    requires id in rows && id !in done
    ensures |StaleIn(rows, aad, done + {id})| == |StaleIn(rows, aad, done)| + if Stale(rows[id], aad(id)) then 1 else 0
  {
    assert StaleIn(rows, aad, done + {id}) == StaleIn(rows, aad, done) + (if Stale(rows[id], aad(id)) then {id} else {});
  }

  lemma CurrentOneMore(rows: Rows, aad: AadOf, done: set<RowId>, id: RowId)
    requires id in rows && id !in done
    ensures |CurrentIn(rows, aad, done + {id})| ==
      |CurrentIn(rows, aad, done)| + if rows[id].Some? && CurrentValue(rows[id], aad(id)) then 1 else 0
  {
    assert CurrentIn(rows, aad, done + {id}) ==
      CurrentIn(rows, aad, done) + (if rows[id].Some? && CurrentValue(rows[id], aad(id)) then {id} else {});
  }

  lemma NullOneMore(rows: Rows, done: set<RowId>, id: RowId)
    requires id in rows && id !in done
    ensures |NullIn(rows, done + {id})| == |NullIn(rows, done)| + if rows[id].None? then 1 else 0
  {
    assert NullIn(rows, done + {id}) == NullIn(rows, done) + (if rows[id].None? then {id} else {});
  }

  lemma UnreadableOneMore(rows: Rows, aad: AadOf, done: set<RowId>, id: RowId)
    requires id in rows && id !in done
    ensures |UnreadableIn(rows, aad, done + {id})| ==
      |UnreadableIn(rows, aad, done)| + if Unreadable(rows[id], aad(id)) then 1 else 0
  {
    assert UnreadableIn(rows, aad, done + {id}) ==
      UnreadableIn(rows, aad, done) + (if Unreadable(rows[id], aad(id)) then {id} else {});
  }

  lemma CountOneMore(rows: Rows, aad: AadOf, done: set<RowId>, id: RowId, r: RowResult)
    requires id in rows && id !in done && Fits(rows[id], aad(id), r)
    ensures CountsOf(rows, aad, done + {id}) == Tallied(CountsOf(rows, aad, done), r)
  {
    StaleOneMore(rows, aad, done, id);
    CurrentOneMore(rows, aad, done, id);
    NullOneMore(rows, done, id);
    UnreadableOneMore(rows, aad, done, id);
    FitIsOneClass(rows[id], aad(id), r);
  }

  lemma FitIsOneClass(value: Option<Blob>, context: Option<string>, r: RowResult)
    requires Fits(value, context, r)
    ensures r.RowNull? <==> value.None?
    ensures r.RowCurrent? <==> value.Some? && CurrentValue(value, context)
    ensures r.RowRotated? <==> Stale(value, context)
    ensures r.RowIssue? <==> Unreadable(value, context)
    ensures !r.RowAborted?
  {
  }

  lemma ListedJoin(a: seq<(RowId, Reason)>, b: seq<(RowId, Reason)>)
    ensures Listed(a + b) == Listed(a) + Listed(b)
  {
    forall id | id in Listed(a) + Listed(b) ensures id in Listed(a + b) {
      var issue :| (issue in a || issue in b) && issue.0 == id;
      assert issue in a + b;
    }
  }

  lemma ListOneMore(rows: Rows, aad: AadOf, done: set<RowId>, id: RowId, r: RowResult, issues: seq<(RowId, Reason)>)
    requires id in rows && id !in done && Fits(rows[id], aad(id), r) && IssuesOf(rows, aad, done, issues)
    ensures IssuesOf(rows, aad, done + {id}, WithIssue(issues, id, r))
  {
    var more := WithIssue(issues, id, r);
    if r.RowIssue? { ListedJoin(issues, [(id, r.reason)]); }
    assert Listed([(id, WhyUnreadable(rows[id], aad(id)))]) == {id};
    FitIsOneClass(rows[id], aad(id), r);
    assert UnreadableIn(rows, aad, done + {id}) ==
      UnreadableIn(rows, aad, done) + (if Unreadable(rows[id], aad(id)) then {id} else {});
    assert forall issue :: issue in more ==> issue in issues || issue == (id, WhyUnreadable(rows[id], aad(id)));
  }

  lemma CalmStep(before: Rows, mid: Rows, after: Rows, aad: AadOf, done: set<RowId>, id: RowId,
                 counts: Counts, issues: seq<(RowId, Reason)>, r: RowResult)
    requires CalmSoFar(before, mid, aad, done, counts, issues) && id in before && id !in done
    requires RekeyedExactly(mid, after, aad, {id}) && Fits(before[id], aad(id), r)
    ensures CalmSoFar(before, after, aad, done + {id}, Tallied(counts, r), WithIssue(issues, id, r))
  {
    CountOneMore(before, aad, done, id, r);
    ListOneMore(before, aad, done, id, r, issues);
  }

  /** Two calm stretches over disjoint or overlapping reaches make one. */
  lemma RekeyedTwice(before: Rows, mid: Rows, after: Rows, aad: AadOf, first: set<RowId>, second: set<RowId>)
    requires RekeyedExactly(before, mid, aad, first) && RekeyedExactly(mid, after, aad, second)
    ensures RekeyedExactly(before, after, aad, first + second)
    ensures Openable(before, aad, first) && Openable(mid, aad, second) <==> Openable(before, aad, first + second)
  {
    forall id | id in before
      ensures (Current(before, aad, id) || Stale(before[id], aad(id))) <==>
              (Current(mid, aad, id) || Stale(mid[id], aad(id)))
    {
    }
  }

  /** A calm run after whole tables. */
  ghost predicate CalmOver(before: Rows, rows: Rows, aad: AadOf, tables: seq<string>, issues: seq<(RowId, Reason)>)
  {
    && RekeyedExactly(before, rows, aad, RowsOf(before, NamesOf(tables)))
    && IssuesOf(before, aad, RowsOf(before, NamesOf(tables)), issues)
  }

  lemma CalmNoTables(rows: Rows, aad: AadOf)
    ensures CalmOver(rows, rows, aad, [], [])
  {
    assert RowsOf(rows, NamesOf([])) == {};
  }

  /** Re-keying other rows changes nothing about what is unreadable. */
  lemma UnreadableStays(before: Rows, mid: Rows, aad: AadOf, first: set<RowId>, reach: set<RowId>)
    requires RekeyedExactly(before, mid, aad, first)
    ensures UnreadableIn(mid, aad, reach) == UnreadableIn(before, aad, reach)
    ensures forall id :: id in UnreadableIn(before, aad, reach) ==> mid[id] == before[id]
  {
  }

  lemma IssuesJoin(rows: Rows, aad: AadOf, first: set<RowId>, second: set<RowId>,
                   a: seq<(RowId, Reason)>, b: seq<(RowId, Reason)>)
    requires IssuesOf(rows, aad, first, a) && IssuesOf(rows, aad, second, b)
    ensures IssuesOf(rows, aad, first + second, a + b)
  {
    ListedJoin(a, b);
    assert UnreadableIn(rows, aad, first + second) == UnreadableIn(rows, aad, first) + UnreadableIn(rows, aad, second);
  }

  lemma CalmNextTable(before: Rows, mid: Rows, after: Rows, aad: AadOf, front: seq<string>, table: string,
                      issues: seq<(RowId, Reason)>, counts: Counts, found: seq<(RowId, Reason)>)
    requires CalmOver(before, mid, aad, front, issues)
    requires CalmSoFar(mid, after, aad, RowsOf(mid, {table}), counts, found)
    ensures CalmOver(before, after, aad, front + [table], issues + found)
    ensures table !in front ==> counts == CountsOf(before, aad, RowsOf(before, {table}))
  {
    var first, second := RowsOf(before, NamesOf(front)), RowsOf(mid, {table});
    RekeyedTwice(before, mid, after, aad, first, second);
    UnreadableStays(before, mid, aad, first, second);
    IssuesJoin(before, aad, first, second, issues, found);
    assert first + second == RowsOf(before, NamesOf(front + [table]));
    if table !in front { CountsStay(before, mid, aad, first, second); }
  }

  lemma CountsStay(before: Rows, mid: Rows, aad: AadOf, first: set<RowId>, second: set<RowId>)
    requires RekeyedExactly(before, mid, aad, first) && first !! second
    ensures CountsOf(mid, aad, second) == CountsOf(before, aad, second)
  {
    assert StaleIn(mid, aad, second) == StaleIn(before, aad, second);
    assert CurrentIn(mid, aad, second) == CurrentIn(before, aad, second);
    assert NullIn(mid, second) == NullIn(before, second);
    assert UnreadableIn(mid, aad, second) == UnreadableIn(before, aad, second);
  }

  predicate Distinct(tables: seq<string>) { forall i, j :: 0 <= i < j < |tables| ==> tables[i] != tables[j] }

  /** Every table's counts add up, and a report without issues counts no failure. */
  predicate TalliesOk(report: map<string, Counts>, issues: seq<(RowId, Reason)>)
  {
    forall t :: t in report ==> AddsUp(report[t]) && (issues == [] ==> report[t].failed == 0)
  }

  lemma TallyOneMore(report: map<string, Counts>, issues: seq<(RowId, Reason)>, table: string, counts: Counts,
                     found: seq<(RowId, Reason)>)
    requires TalliesOk(report, issues) && AddsUp(counts) && counts.failed == |found|
    ensures TalliesOk(report[table := counts], issues + found)
    ensures report[table := counts].Keys == report.Keys + {table}
  {
    assert |issues + found| == |issues| + |found|;
  }

  ghost predicate StaysSettled(before: Rows, after: Rows, aad: AadOf)
  {
    forall tables, rest :: Settled(before, aad, tables, rest) ==> Settled(after, aad, tables, rest)
  }

  /** The rows a loop started from, and what held of them. */
  datatype Start = Start(rows: Rows, intact: bool, settled: bool, clean: bool, calm: bool)

  /** What a calm run re-keyed, reported and counted in the first i tables. */
  ghost predicate CalmReached(start: Start, rows: Rows, aad: AadOf, tables: seq<string>, i: nat, report: map<string, Counts>,
                              issues: seq<(RowId, Reason)>)
    requires i <= |tables|
  {
    && (start.calm ==> CalmOver(start.rows, rows, aad, tables[..i], issues))
    && (start.calm && Distinct(tables) ==>
          forall t :: t in report ==> report[t] == CountsOf(start.rows, aad, RowsOf(start.rows, {t})))
  }

  lemma CalmReaches(start: Start, mid: Rows, after: Rows, aad: AadOf, tables: seq<string>, i: nat,
                    report: map<string, Counts>, issues: seq<(RowId, Reason)>, counts: Counts, found: seq<(RowId, Reason)>)
    requires i < |tables| && CalmReached(start, mid, aad, tables, i, report, issues)
    requires start.calm ==> CalmSoFar(mid, after, aad, RowsOf(mid, {tables[i]}), counts, found)
    ensures CalmReached(start, after, aad, tables, i + 1, report[tables[i] := counts], issues + found)
  {
    assert tables[..i + 1] == tables[..i] + [tables[i]];
    if start.calm { CalmNextTable(start.rows, mid, after, aad, tables[..i], tables[i], issues, counts, found); }
  }

  class Rotation {
    var rows: Rows
    /** The plaintext last written to each row that opened. */
    ghost var truth: map<RowId, string>
    var step: nat
    const aad: AadOf
    const world: World

    constructor (rows: Rows, aad: AadOf, world: World, ghost truth: map<RowId, string>)
      ensures this.rows == rows && this.aad == aad && this.world == world && this.truth == truth
    {
      this.rows, this.aad, this.world, this.truth, step := rows, aad, world, truth, 0;
    }

    /** Live writers commit; the run moves on to its next step. */
    method OthersWrite()
      modifies this
      ensures old(Intact(rows, truth, aad)) ==> Intact(rows, truth, aad)
      ensures PrimaryWriters(world) ==> StaysSettled(old(rows), rows, aad)
      ensures step == old(step) + 1 && (world.writes(old(step)) == [] ==> rows == old(rows))
    {
      var writes := world.writes(step);
      for i := 0 to |writes|
        invariant old(Intact(rows, truth, aad)) ==> Intact(rows, truth, aad)
        invariant PrimaryWriters(world) ==> StaysSettled(old(rows), rows, aad)
        invariant step == old(step) && (i == 0 ==> rows == old(rows))
      {
        if Intact(rows, truth, aad) { WriteKeepsIntact(rows, truth, aad, writes[i]); }
        if PrimaryWriters(world) {
          forall tables, rest | Settled(rows, aad, tables, rest)
            ensures Settled(Written(rows, aad, writes[i]), aad, tables, rest)
          {
            WriteKeepsSettled(rows, aad, writes[i], tables, rest);
          }
        }
        truth := Remembered(truth, aad, writes[i]);
        rows := Written(rows, aad, writes[i]);
      }
      step := step + 1;
    }

    /** One loaded row: skip it, report it, or swap in its re-sealed value. */
    method RotateRow(id: RowId, loaded: Option<Blob>, ghost tables: set<string>, ghost rest: Rows) returns (r: RowResult)
      requires id in rest && rest[id] == loaded
      modifies this
      ensures old(Intact(rows, truth, aad)) ==> Intact(rows, truth, aad)
      ensures PrimaryWriters(world) && old(Settled(rows, aad, tables, rest)) && !r.RowIssue? && !r.RowAborted? ==>
        Settled(rows, aad, tables, rest - {id})
      ensures loaded.None? <==> r.RowNull?
      ensures r.RowRotated? || r.RowIssue? || r.RowAborted? ==> !CurrentValue(loaded, aad(id))
      ensures r.RowCurrent? <==> loaded.Some? && CurrentValue(loaded, aad(id))
      ensures r.RowRotated? ==> id in rows && Rekeyed(loaded, rows[id])
      ensures r == RowIssue(ChangedConcurrently) ==> Stale(loaded, aad(id)) && (id !in rows || rows[id] != loaded)
      ensures r.RowIssue? && r.reason != ChangedConcurrently <==> Unreadable(loaded, aad(id))
      ensures Unreadable(loaded, aad(id)) ==> r == RowIssue(WhyUnreadable(loaded, aad(id)))
      ensures r.RowAborted? <==>
        Stale(loaded, aad(id)) && world.fault(old(step) + 2) in {HookFails, UpdateFails, UpdateCommitsThenFails}
      ensures Calm(world) && id in old(rows) && old(rows)[id] == loaded ==>
        RekeyedExactly(old(rows), rows, aad, {id}) && Fits(loaded, aad(id), r)
    {
      OthersWrite();
      if loaded.None? { return RowNull; }
      if aad(id).None? { return RowIssue(MalformedRow); }
      var answer := OpenReportingKey(loaded.value, aad(id).value, true);
      if answer.Err? { return RowIssue(ReasonFor(answer.error)); }
      var (plaintext, used) := answer.value;
      if used == PrimaryKey { return RowCurrent; }
      OthersWrite();
      var fault := world.fault(step);
      if fault == HookFails || fault == UpdateFails { return RowAborted; }
      var matched := id in rows && rows[id] == loaded;
      if Intact(rows, truth, aad) { ResealKeepsIntact(rows, truth, aad, id, loaded.value, plaintext, step); }
      if Settled(rows, aad, tables, rest) { ResealSettles(rows, aad, id, loaded.value, plaintext, step, tables, rest); }
      rows := Resealed(rows, id, loaded.value, aad(id).value, plaintext, step);
      if fault == UpdateCommitsThenFails { return RowAborted; }
      r := if matched then RowRotated else RowIssue(ChangedConcurrently);
    }

    /** Where a run over loaded rows is, given how it started. */
    ghost predicate Underway(start: Start, tables: set<string>, loaded: Rows, done: set<RowId>, rest: Rows, counts: Counts,
                             issues: seq<(RowId, Reason)>)
      reads this
    {
      && (forall id :: id in loaded <==> (id in done) != (id in rest))
      && (start.intact ==> Intact(rows, truth, aad))
      && (start.settled && issues == [] ==> Settled(rows, aad, tables, rest))
      && AddsUp(counts) && counts.failed == |issues|
      && (start.clean ==> counts.rotated == 0 && issues == [])
      && (start.calm ==> CalmSoFar(start.rows, rows, aad, done, counts, issues))
    }

    ghost function StartOf(tables: set<string>, loaded: Rows): Start
      reads this
    {
      Start(rows, Intact(rows, truth, aad), PrimaryWriters(world) && Settled(rows, aad, tables, loaded),
            forall id :: id in loaded ==> Current(loaded, aad, id), Calm(world) && Holds(rows, loaded))
    }

    /** One round of the loop over the loaded rows. */
    method RotateNext(id: RowId, loaded: Rows, ghost done: set<RowId>, rest: Rows, counts: Counts,
                      ghost start: Start, ghost tables: set<string>, issues: seq<(RowId, Reason)>)
      returns (result: RowResult, after: Counts, more: seq<(RowId, Reason)>)
      requires id in rest && rest.Keys <= loaded.Keys && Holds(loaded, rest)
      requires start.clean ==> Current(loaded, aad, id)
      requires start.calm ==> Calm(world) && Holds(start.rows, loaded)
      requires start.settled ==> PrimaryWriters(world)
      requires Underway(start, tables, loaded, done, rest, counts, issues)
      modifies this
      ensures start.intact ==> Intact(rows, truth, aad)
      ensures result.RowAborted? ==> !NoFaults(world)
      ensures start.clean ==> after.rotated == 0 && !result.RowIssue? && more == []
      ensures !result.RowAborted? ==> Underway(start, tables, loaded, done + {id}, rest - {id}, after, more)
    {
      ghost var mid := rows;
      result := RotateRow(id, rest[id], tables, rest);
      if start.calm { CalmStep(start.rows, mid, rows, aad, done, id, counts, issues, result); }
      after := Tallied(counts, result);
      more := WithIssue(issues, id, result);
    }

    lemma Begins(tables: set<string>, loaded: Rows)
      ensures Underway(StartOf(tables, loaded), tables, loaded, {}, loaded, NOTHING, [])
    {
      CalmStart(rows, aad);
    }

    lemma Ends(start: Start, tables: set<string>, loaded: Rows, done: set<RowId>, rest: Rows, counts: Counts,
               issues: seq<(RowId, Reason)>)
      requires Underway(start, tables, loaded, done, rest, counts, issues) && rest.Keys == {}
      ensures start.settled && issues == [] ==> Settled(rows, aad, tables, map[])
      ensures start.calm ==> CalmSoFar(start.rows, rows, aad, loaded.Keys, counts, issues)
    {
      assert rest == map[] && done == loaded.Keys;
    }

    /** The loop over a table's loaded rows. */
    method RotateRows(loaded: Rows, ghost tables: set<string>)
      returns (counts: Counts, issues: seq<(RowId, Reason)>, aborted: bool)
      modifies this
      ensures old(Intact(rows, truth, aad)) ==> Intact(rows, truth, aad)
      ensures PrimaryWriters(world) && old(Settled(rows, aad, tables, loaded)) && !aborted && issues == [] ==>
        Settled(rows, aad, tables, map[])
      ensures !aborted ==> AddsUp(counts) && counts.failed == |issues|
      ensures (forall id :: id in loaded ==> Current(loaded, aad, id)) ==> counts.rotated == 0 && issues == []
      ensures NoFaults(world) ==> !aborted
      ensures Calm(world) && Holds(old(rows), loaded) ==>
        CalmSoFar(old(rows), rows, aad, loaded.Keys, counts, issues)
    {
      counts, issues, aborted := NOTHING, [], false;
      ghost var start := StartOf(tables, loaded);
      Begins(tables, loaded);
      var rest := loaded;
      ghost var done: set<RowId> := {};
      while rest.Keys != {}
        invariant Underway(start, tables, loaded, done, rest, counts, issues)
        invariant rest.Keys <= loaded.Keys && Holds(loaded, rest)
        decreases rest.Keys
      {
        var id :| id in rest.Keys;
        var result;
        result, counts, issues := RotateNext(id, loaded, done, rest, counts, start, tables, issues);
        if result.RowAborted? { aborted := true; return; }
        rest, done := rest - {id}, done + {id};
      }
      Ends(start, tables, loaded, done, rest, counts, issues);
    }

    /** One table: read it whole, then row by row. */
    method RotateTable(table: string, ghost tables: set<string>)
      returns (counts: Counts, issues: seq<(RowId, Reason)>, aborted: bool)
      modifies this
      ensures old(Intact(rows, truth, aad)) ==> Intact(rows, truth, aad)
      ensures PrimaryWriters(world) && old(Settled(rows, aad, tables, map[])) && !aborted && issues == [] ==>
        Settled(rows, aad, tables + {table}, map[])
      ensures !aborted ==> AddsUp(counts) && counts.failed == |issues|
      ensures PrimaryWriters(world) && old(Settled(rows, aad, {table}, map[])) ==> counts.rotated == 0 && issues == []
      ensures world.fault(old(step) + 1) == LoadFails ==> aborted && counts == NOTHING && issues == []
      ensures NoFaults(world) ==> !aborted
      ensures Calm(world) ==>
        CalmSoFar(old(rows), rows, aad, RowsOf(old(rows), {table}), counts, issues)
    {
      OthersWrite();
      if world.fault(step) == LoadFails { return NOTHING, [], true; }
      var loaded := map id | id in rows && id.0 == table :: rows[id];
      assert Settled(rows, aad, tables, map[]) ==> Settled(rows, aad, tables + {table}, loaded);
      assert Settled(rows, aad, {table}, map[]) ==> forall id :: id in loaded ==> Current(loaded, aad, id);
      assert loaded.Keys == RowsOf(rows, {table});
      counts, issues, aborted := RotateRows(loaded, tables + {table});
    }

    /** Where a run is after the first i tables, given how it started. */
    ghost predicate Reached(start: Start, tables: seq<string>, i: nat, report: map<string, Counts>, issues: seq<(RowId, Reason)>)
      requires i <= |tables|
      reads this
    {
      && CalmReached(start, rows, aad, tables, i, report, issues)
      && (start.intact ==> Intact(rows, truth, aad))
      && report.Keys == NamesOf(tables[..i])
      && TalliesOk(report, issues)
      && (start.clean ==> issues == [] && forall t :: t in report ==> report[t].rotated == 0)
      && (start.settled && issues == [] ==> Settled(rows, aad, SettledTables(start, tables, i), map[]))
    }

    /** Over tables that were clean from the start every table counts as settled. */
    ghost function SettledTables(start: Start, tables: seq<string>, i: nat): set<string>
      requires i <= |tables|
    {
      if start.clean then NamesOf(tables) else NamesOf(tables[..i])
    }

    lemma NextReach(start: Start, tables: seq<string>, i: nat)
      requires i < |tables|
      ensures tables[..i + 1] == tables[..i] + [tables[i]]
      ensures SettledTables(start, tables, i + 1) == SettledTables(start, tables, i) + {tables[i]}
      ensures NamesOf(tables[..i + 1]) == NamesOf(tables[..i]) + {tables[i]}
      ensures Distinct(tables) ==> tables[i] !in tables[..i]
    {
      assert tables[i] in NamesOf(tables);
    }

    /** One round of the loop over the tables. */
    method RotateNextTable(ghost start: Start, tables: seq<string>, i: nat, report: map<string, Counts>,
                           issues: seq<(RowId, Reason)>)
      returns (after: map<string, Counts>, more: seq<(RowId, Reason)>, aborted: bool)
      requires i < |tables| && Reached(start, tables, i, report, issues)
      requires (start.calm ==> Calm(world)) && (start.settled ==> PrimaryWriters(world)) && (start.clean ==> start.settled)
      modifies this
      ensures start.intact ==> Intact(rows, truth, aad)
      ensures aborted ==> !NoFaults(world)
      ensures start.clean ==> more == [] && forall t :: t in after ==> after[t].rotated == 0
      ensures !aborted ==> Reached(start, tables, i + 1, after, more)
    {
      NextReach(start, tables, i);
      ghost var reached, mid := SettledTables(start, tables, i), rows;
      assert start.clean ==> Settled(rows, aad, {tables[i]}, map[]);
      var counts, found;
      counts, found, aborted := RotateTable(tables[i], reached);
      CalmReaches(start, mid, rows, aad, tables, i, report, issues, counts, found);
      after, more := report[tables[i] := counts], issues + found;
      if !aborted { TallyOneMore(report, issues, tables[i], counts, found); }
      assert |more| == |issues| + |found|;
    }

    /**
     * Every table in turn. However it ends, and wherever it aborts, no secret is lost; a complete
     * run leaves every value under the primary key, and over such tables there is nothing to rotate.
     */
    method Rotate(tables: seq<string>, hasPrevious: bool)
      returns (outcome: Outcome, report: map<string, Counts>, issues: seq<(RowId, Reason)>)
      modifies this
      ensures outcome == NoPrevious <==> !hasPrevious
      ensures !hasPrevious ==> rows == old(rows)
      ensures old(Intact(rows, truth, aad)) ==> Intact(rows, truth, aad)
      ensures outcome.Complete? || outcome.Incomplete? ==>
        report.Keys == NamesOf(tables) && (outcome.Complete? <==> issues == [])
        && forall t :: t in report ==> AddsUp(report[t]) && (outcome.Complete? ==> report[t].failed == 0)
      ensures outcome.Complete? && PrimaryWriters(world) ==> VerifyClean(rows, aad, tables)
      ensures PrimaryWriters(world) && old(VerifyClean(rows, aad, tables)) ==>
        outcome != Incomplete && issues == [] && forall t :: t in report ==> report[t].rotated == 0
      ensures NoFaults(world) ==> outcome != Aborted
      ensures Calm(world) && hasPrevious ==>
        && CalmOver(old(rows), rows, aad, tables, issues)
        && (outcome == Complete <==> Openable(old(rows), aad, RowsOf(old(rows), NamesOf(tables))))
        && (Distinct(tables) ==>
              forall t :: t in report ==> report[t] == CountsOf(old(rows), aad, RowsOf(old(rows), {t})))
    {
      report, issues := map[], [];
      if !hasPrevious { return NoPrevious, report, issues; }
      ghost var clean := PrimaryWriters(world) && VerifyClean(rows, aad, tables);
      ghost var start := Start(rows, Intact(rows, truth, aad), PrimaryWriters(world), clean, Calm(world));
      CalmNoTables(rows, aad);
      for i := 0 to |tables|
        invariant Reached(start, tables, i, report, issues)
      {
        var aborted;
        report, issues, aborted := RotateNextTable(start, tables, i, report, issues);
        if aborted { return Aborted, report, issues; }
      }
      assert tables[..|tables|] == tables;
      outcome := if issues == [] then Complete else Incomplete;
      if start.calm { NoIssuesMeansOpenable(start.rows, aad, RowsOf(start.rows, NamesOf(tables)), issues); }
    }

    /** The rows of these tables that are neither null nor under the primary key. */
    function NotCurrent(tables: set<string>): set<RowId>
      reads this
    {
      set id | id in rows && id.0 in tables && !Current(rows, aad, id)
    }

    /** Reads only: complete exactly when every value is null or opens under the primary key alone; the issues name the others. */
    method Verify(tables: seq<string>) returns (outcome: Outcome, issues: seq<(RowId, Reason)>)
      ensures outcome == Complete || outcome == Incomplete
      ensures outcome == Complete <==> VerifyClean(rows, aad, tables)
      ensures Listed(issues) == NotCurrent(NamesOf(tables))
      ensures forall issue :: issue in issues ==> ExplainsRow(rows, aad, issue)
    {
      issues := [];
      for i := 0 to |tables|
        invariant Listed(issues) == NotCurrent(NamesOf(tables[..i]))
        invariant forall issue :: issue in issues ==> ExplainsRow(rows, aad, issue)
      {
        var loaded := map id | id in rows && id.0 == tables[i] :: rows[id];
        var found := VerifyRows(loaded, tables[i]);
        ListedJoin(issues, found);
        issues := issues + found;
        assert tables[..i + 1] == tables[..i] + [tables[i]];
        assert NotCurrent(NamesOf(tables[..i + 1])) == NotCurrent(NamesOf(tables[..i])) + NotCurrent({tables[i]});
      }
      assert tables[..|tables|] == tables;
      if issues != [] { assert issues[0] in issues && issues[0].0 in NotCurrent(NamesOf(tables)); }
      if issues == [] {
        forall id | id in rows && id.0 in tables ensures Current(rows, aad, id) {
          assert id !in NotCurrent(NamesOf(tables));
        }
      }
      outcome := if issues == [] then Complete else Incomplete;
    }

    /** One row: nothing for a current one, otherwise one issue with its reason. */
    method VerifyRow(id: RowId) returns (issues: seq<(RowId, Reason)>)
      requires id in rows
      ensures Listed(issues) == if Current(rows, aad, id) then {} else {id}
      ensures forall issue :: issue in issues ==> ExplainsRow(rows, aad, issue)
    {
      issues := [];
      if rows[id].Some? {
        if aad(id).None? {
          issues := [(id, MalformedRow)];
          assert issues[0] in issues;
        } else {
          var answer := OpenReportingKey(rows[id].value, aad(id).value, false);
          if answer.Err? {
            issues := [(id, ReasonFor(answer.error))];
            assert issues[0] in issues;
          }
        }
      }
    }

    method VerifyRows(loaded: Rows, table: string) returns (issues: seq<(RowId, Reason)>)
      requires loaded == map id | id in rows && id.0 == table :: rows[id]
      ensures Listed(issues) == NotCurrent({table})
      ensures forall issue :: issue in issues ==> ExplainsRow(rows, aad, issue)
    {
      issues := [];
      var rest := loaded;
      while rest.Keys != {}
        invariant rest.Keys <= loaded.Keys
        invariant Listed(issues) == NotCurrent({table}) - rest.Keys
        invariant forall issue :: issue in issues ==> ExplainsRow(rows, aad, issue)
        decreases rest.Keys
      {
        var id :| id in rest.Keys;
        var found := VerifyRow(id);
        ListedJoin(issues, found);
        issues := issues + found;
        rest := rest - {id};
      }
    }
  }
}
