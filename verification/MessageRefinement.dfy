// A transaction of the interleaving model that nobody disturbs does what the store's
// method does (delivery-api/internal/message).
module MessageRefinement {
  import opened Common
  import opened MessageTables
  import opened MessageCounts
  import Runs = MessageRuns
  import Store = MessageStore

  /** These steps, each enabled where it is taken, lead from s to t. */
  ghost predicate Leads(c: Runs.Config, s: Runs.Sys, steps: seq<Runs.Action>, t: Runs.Sys)
    decreases |steps|
  {
    if steps == [] then t == s
    else Runs.Enabled(s, steps[0]) && Leads(c, Runs.Next(c, s, steps[0]), steps[1..], t)
  }

  lemma {:induction false} OneMore(c: Runs.Config, s: Runs.Sys, steps: seq<Runs.Action>, mid: Runs.Sys, a: Runs.Action)
    requires Leads(c, s, steps, mid) && Runs.Enabled(mid, a)
    ensures Leads(c, s, steps + [a], Runs.Next(c, mid, a))
    decreases |steps|
  {
    if steps == [] {
      assert ([] + [a])[1..] == [];
    } else {
      OneMore(c, Runs.Next(c, s, steps[0]), steps[1..], mid, a);
      assert (steps + [a])[1..] == steps[1..] + [a];
    }
  }

  /** The only open transaction. */
  predicate Alone(s: Runs.Sys, t: nat, tx: Runs.Tx) { s.txs == map[t := tx] }

  /** Lock, decide and write are the cancel of the message found. */
  lemma CancelAlone(c: Runs.Config, s: Runs.Sys, t: nat, id: nat, at: Time) returns (steps: seq<Runs.Action>, after: Runs.Sys)
    requires id in s.db.messages && Alone(s, t, Runs.CancelTx(id, at, Runs.WantLock))
    ensures Leads(c, s, steps, after)
    ensures var (tables, outcome) := Store.Cancel(s.db, id, at);
      && after.db == tables && after.txs == map[]
      && after.cancelled == s.cancelled + (if outcome.transitioned then {id} else {})
  {
    steps, after := [], s;
    OneMore(c, s, steps, after, Runs.LockRow(t, id));
    steps, after := steps + [Runs.LockRow(t, id)], Runs.Next(c, after, Runs.LockRow(t, id));
    OneMore(c, s, steps, after, Runs.Decide(t));
    steps, after := steps + [Runs.Decide(t)], Runs.Next(c, after, Runs.Decide(t));
    OneMore(c, s, steps, after, Runs.Write(t));
    steps, after := steps + [Runs.Write(t)], Runs.Next(c, after, Runs.Write(t));
  }

  /** Lock, decide and write are the replace of the message with the key: a swap exactly while it is scheduled. */
  lemma ReplaceAlone(c: Runs.Config, s: Runs.Sys, t: nat, id: nat, e: Envelope, targets: seq<Target>, at: Time)
    returns (steps: seq<Runs.Action>, after: Runs.Sys)
    requires id in s.db.messages && SameKey(e, s.db.messages[id].envelope)
    requires Alone(s, t, Runs.ReplaceTx(e, targets, at, Runs.WantLock))
    ensures Leads(c, s, steps, after)
    ensures after.db == (if StatusOf(s.db, id) == StatusScheduled then Replaced(s.db, id, e, targets, at) else s.db)
    ensures after.txs == map[] && after.cancelled == s.cancelled
  {
    steps, after := [], s;
    OneMore(c, s, steps, after, Runs.LockRow(t, id));
    steps, after := steps + [Runs.LockRow(t, id)], Runs.Next(c, after, Runs.LockRow(t, id));
    OneMore(c, s, steps, after, Runs.Decide(t));
    steps, after := steps + [Runs.Decide(t)], Runs.Next(c, after, Runs.Decide(t));
    OneMore(c, s, steps, after, Runs.Write(t));
    steps, after := steps + [Runs.Write(t)], Runs.Next(c, after, Runs.Write(t));
  }

  /** Lock and update are the release of the messages probed. */
  lemma ReleaseAlone(c: Runs.Config, s: Runs.Sys, t: nat, candidates: set<nat>, at: Time)
    returns (steps: seq<Runs.Action>, after: Runs.Sys)
    requires candidates <= s.db.messages.Keys && Alone(s, t, Runs.ReleaseTx(candidates, at, None))
    ensures Leads(c, s, steps, after)
    ensures after.db == Released(s.db, candidates, at) && after.txs == map[]
    ensures after.released == s.released + ReleasedIds(s.db, candidates, at)
  {
    steps, after := [], s;
    OneMore(c, s, steps, after, Runs.LockCandidates(t));
    assert Runs.Lockable(s, t, candidates) == candidates;
    steps, after := steps + [Runs.LockCandidates(t)], Runs.Next(c, after, Runs.LockCandidates(t));
    OneMore(c, s, steps, after, Runs.Release(t));
    steps, after := steps + [Runs.Release(t)], Runs.Next(c, after, Runs.Release(t));
  }

  lemma LocksTaken(c: Runs.Config, s: Runs.Sys, t: nat, message: Message, targets: seq<Target>, schedule: Schedule, f: Family)
    returns (steps: seq<Runs.Action>, after: Runs.Sys)
    requires Alone(s, t, Runs.InsertTx(Runs.Capped(f), message, targets, schedule, Runs.WantGlobal))
    ensures Leads(c, s, steps, after)
    ensures after == s.(txs := map[t := Runs.InsertTx(Runs.Capped(f), message, targets, schedule,
                                         if FreeKey(s.db, message.envelope) then Runs.HasRow else Runs.Conflicted)])
  {
    steps, after := [], s;
    OneMore(c, s, steps, after, Runs.TakeGlobal(t));
    steps, after := steps + [Runs.TakeGlobal(t)], Runs.Next(c, after, Runs.TakeGlobal(t));
    OneMore(c, s, steps, after, Runs.TakeApp(t));
    steps, after := steps + [Runs.TakeApp(t)], Runs.Next(c, after, Runs.TakeApp(t));
    OneMore(c, s, steps, after, Runs.InsertRow(t));
    steps, after := steps + [Runs.InsertRow(t)], Runs.Next(c, after, Runs.InsertRow(t));
  }

  /**
   * Both locks, the row and the two counts are the capped insert: the row is stored exactly when its key
   * is free and neither cap refuses it, and otherwise nothing changes.
   */
  lemma InsertAlone(c: Runs.Config, s: Runs.Sys, t: nat, message: Message, targets: seq<Target>, schedule: Schedule, f: Family)
    returns (steps: seq<Runs.Action>, after: Runs.Sys)
    requires Alone(s, t, Runs.InsertTx(Runs.Capped(f), message, targets, schedule, Runs.WantGlobal))
    ensures Leads(c, s, steps, after) && after.txs == map[]
    ensures var caps := Store.Caps(Runs.PerApp(c, f), Runs.Total(c, f));
      after.db ==
        if FreeKey(s.db, message.envelope) && Store.CapRefusal(s.db, f, message.envelope.appId, caps).None?
        then Inserted(s.db, message, targets, schedule) else s.db
  {
    steps, after := LocksTaken(c, s, t, message, targets, schedule, f);
    if !FreeKey(s.db, message.envelope) {
      OneMore(c, s, steps, after, Runs.Abort(t));
      return steps + [Runs.Abort(t)], Runs.Next(c, after, Runs.Abort(t));
    }
    OneMore(c, s, steps, after, Runs.CountApp(t));
    steps, after := steps + [Runs.CountApp(t)], Runs.Next(c, after, Runs.CountApp(t));
    if t !in after.txs { return; }
    OneMore(c, s, steps, after, Runs.CountTotal(t));
    steps, after := steps + [Runs.CountTotal(t)], Runs.Next(c, after, Runs.CountTotal(t));
    if t !in after.txs { return; }
    OneMore(c, s, steps, after, Runs.Commit(t));
    steps, after := steps + [Runs.Commit(t)], Runs.Next(c, after, Runs.Commit(t));
  }
}
