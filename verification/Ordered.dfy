// ORDER BY time, id LIMIT n: the rows a bounded, ordered SELECT picks.
module Ordered {
  import opened Common

  /** Row a sorts strictly before row b in (time, id) order. */
  predicate Before(times: map<nat, Time>, a: nat, b: nat)
    requires a in times && b in times
  {
    times[a] < times[b] || (times[a] == times[b] && a < b)
  }

  /** picked is a prefix of the rows in (time, id) order. */
  ghost predicate Prefix(times: map<nat, Time>, picked: set<nat>)
  {
    && picked <= times.Keys
    && forall p, q :: p in picked && q in times.Keys - picked ==> Before(times, p, q)
  }

  /** picked is what LIMIT n returns: the n first rows, or all of them when there are fewer. */
  ghost predicate IsOldest(times: map<nat, Time>, picked: set<nat>, n: nat)
  {
    Prefix(times, picked) && |picked| == Min(n, |times.Keys|)
  }

  /** The order is total, so of two prefixes one contains the other. */
  lemma PrefixesNest(times: map<nat, Time>, p: set<nat>, q: set<nat>)
    requires Prefix(times, p) && Prefix(times, q)
    ensures p <= q || q <= p
  {
    if !(p <= q) {
      var a :| a in p && a !in q;
      forall b | b in q
        ensures b in p
      {
        assert b !in p ==> Before(times, a, b);
        assert Before(times, b, a);
      }
    }
  }

  /** One size has one prefix. */
  lemma PrefixUnique(times: map<nat, Time>, p: set<nat>, q: set<nat>)
    requires Prefix(times, p) && Prefix(times, q) && |p| == |q|
    ensures p == q
  {
    PrefixesNest(times, p, q);
    if p <= q { SubsetSize(p, q); } else { SubsetSize(q, p); }
  }

  /** Taking a prefix of what a prefix left over extends that prefix. */
  lemma PrefixExtends(times: map<nat, Time>, p: set<nat>, rest: map<nat, Time>, q: set<nat>)
    requires Prefix(times, p) && Prefix(rest, q)
    requires rest.Keys == times.Keys - p
    requires forall r :: r in rest ==> rest[r] == times[r]
    ensures Prefix(times, p + q) && |p + q| == |p| + |q|
  {
    assert p !! q;
    forall a, b | a in p + q && b in times.Keys - (p + q)
      ensures Before(times, a, b)
    {
      if a in q { assert Before(rest, a, b); }
    }
  }

  /** The first row in order. */
  method First(times: map<nat, Time>) returns (first: nat)
    requires times.Keys != {}
    ensures first in times
    ensures forall q :: q in times && q != first ==> Before(times, first, q)
  {
    first :| first in times.Keys;
    var todo := times.Keys - {first};
    while todo != {}
      invariant first in times && todo <= times.Keys - {first}
      invariant forall q :: q in times && q !in todo && q != first ==> Before(times, first, q)
      decreases todo
    {
      var next :| next in todo;
      todo := todo - {next};
      if Before(times, next, first) {
        first := next;
      } else {
        assert Before(times, first, next);
      }
    }
  }

  /** The n first rows in order. */
  method Oldest(times: map<nat, Time>, n: nat) returns (picked: set<nat>)
    ensures IsOldest(times, picked, n)
  {
    picked := {};
    var left := times;
    while |picked| < n && left.Keys != {}
      invariant left == times - picked
      invariant Prefix(times, picked)
      invariant |picked| <= n
      decreases left.Keys
    {
      var first := First(left);
      assert Prefix(left, {first});
      PrefixExtends(times, picked, left, {first});
      picked := picked + {first};
      left := left - {first};
    }
    SubsetSize(picked, times.Keys);
    assert left.Keys == times.Keys - picked;
  }

  // ----- ORDER BY time alone: ties fall as they may ----------------------------------

  /** No row left out is sooner than a row picked. */
  ghost predicate Sooner(times: map<nat, Time>, picked: set<nat>)
  {
    && picked <= times.Keys
    && forall p, q :: p in picked && q in times.Keys - picked ==> times[p] <= times[q]
  }

  /** What LIMIT n returns without a tie-break. */
  ghost predicate IsSoonest(times: map<nat, Time>, picked: set<nat>, n: nat)
  {
    Sooner(times, picked) && |picked| == Min(n, |times.Keys|)
  }

  /** Some row no other row is sooner than. */
  method OneSoonest(times: map<nat, Time>) returns (one: nat)
    requires times.Keys != {}
    ensures one in times && forall q :: q in times ==> times[one] <= times[q]
  {
    one :| one in times.Keys;
    var todo := times.Keys - {one};
    while todo != {}
      invariant one in times && todo <= times.Keys
      invariant forall q :: q in times && q !in todo ==> times[one] <= times[q]
      decreases todo
    {
      var next :| next in todo;
      todo := todo - {next};
      if times[next] < times[one] { one := next; }
    }
  }

  method Soonest(times: map<nat, Time>, n: nat) returns (picked: set<nat>)
    ensures IsSoonest(times, picked, n)
  {
    picked := {};
    var left := times;
    while |picked| < n && left.Keys != {}
      invariant left == times - picked
      invariant Sooner(times, picked) && |picked| <= n
      decreases left.Keys
    {
      var one := OneSoonest(left);
      forall q | q in times.Keys - picked - {one} ensures times[one] <= times[q] {
        assert q in left;
      }
      picked := picked + {one};
      left := left - {one};
    }
    SubsetSize(picked, times.Keys);
    assert left.Keys == times.Keys - picked;
  }
}
