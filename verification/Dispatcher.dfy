/**
One pass of the dispatcher over the local rings. After every message it starts
again at the first ring of the active list; what it dispatches is nevertheless
just the front of all rings laid end to end.
*/
module Dispatcher {

  const MAX_BATCH := 8192   // MAX_BATCH_PER_POLL

  datatype Msg = Msg(tag: nat, body: seq<nat>)

  /** Committed messages of each ring, by priority; a priority may have no ring. */
  type Rings = map<nat, seq<Msg>>

  function Queue(rings: Rings, priority: nat): seq<Msg> { if priority in rings then rings[priority] else [] }

  /** All queued messages, ring after ring in the order of the active list. */
  function Flat(rings: Rings, active: seq<nat>): seq<Msg> {
    if active == [] then [] else Queue(rings, active[0]) + Flat(rings, active[1..])
  }

  predicate Distinct(active: seq<nat>) { forall i, j :: 0 <= i < j < |active| ==> active[i] != active[j] }

  lemma {:induction false} FlatUntouched(rings: Rings, after: Rings, active: seq<nat>)
    requires forall i :: 0 <= i < |active| ==> Queue(after, active[i]) == Queue(rings, active[i])
    ensures Flat(after, active) == Flat(rings, active)
  {
    if active != [] {
      assert forall i :: 0 <= i < |active[1..]| ==> active[1..][i] == active[i + 1];
      FlatUntouched(rings, after, active[1..]);
    }
  }

  /** Taking the head of the first ring with a message takes the head of the concatenation. */
  lemma {:induction false} FlatHead(rings: Rings, active: seq<nat>, k: nat)
    requires Distinct(active) && k < |active| && Queue(rings, active[k]) != []
    requires forall i :: 0 <= i < k ==> Queue(rings, active[i]) == []
    ensures Flat(rings, active) != [] && Flat(rings, active)[0] == Queue(rings, active[k])[0]
    ensures Flat(rings[active[k] := Queue(rings, active[k])[1..]], active) == Flat(rings, active)[1..]
  {
    var first, rest := active[0], active[1..];
    assert forall i :: 0 <= i < |rest| ==> rest[i] == active[i + 1];
    var after := rings[active[k] := Queue(rings, active[k])[1..]];
    if k == 0 {
      FlatUntouched(rings, after, rest);
      assert (Queue(rings, first) + Flat(rings, rest))[1..] == Queue(rings, first)[1..] + Flat(rings, rest);
    } else {
      FlatHead(rings, rest, k - 1);
      assert [] + Flat(rings, rest) == Flat(rings, rest);
      assert [] + Flat(after, rest) == Flat(after, rest);
    }
  }

  lemma {:induction false} FlatEmpty(rings: Rings, active: seq<nat>)
    requires forall i :: 0 <= i < |active| ==> Queue(rings, active[i]) == []
    ensures Flat(rings, active) == []
  {
    if active != [] {
      assert forall i :: 0 <= i < |active[1..]| ==> active[1..][i] == active[i + 1];
      FlatEmpty(rings, active[1..]);
    }
  }

  function Min(a: nat, b: nat): nat { if a < b then a else b }

  class Transport {
    const active: seq<nat>   // local_active_priorities_
    var rings: Rings
    var dispatched: seq<Msg>

    constructor (active: seq<nat>, rings: Rings)
      ensures this.active == active && this.rings == rings && dispatched == []
    {
      this.active, this.rings, dispatched := active, rings, [];
    }

    /** Dequeues from the first ring that has a message and dispatches it. */
    method DispatchFrom(k: nat, ghost all: seq<Msg>, ghost total: nat, ghost before: seq<Msg>)
      requires Distinct(active) && k < |active| && Queue(rings, active[k]) != []
      requires forall i :: 0 <= i < k ==> Queue(rings, active[i]) == []
      requires total <= |all| && Flat(rings, active) == all[total..] && dispatched == before + all[..total]
      modifies this
      ensures total < |all| && Flat(rings, active) == all[total + 1..] && dispatched == before + all[..total + 1]
    {
      FlatHead(rings, active, k);
      hide Flat;
      var queue := rings[active[k]];
      dispatched := dispatched + [queue[0]];
      rings := rings[active[k] := queue[1..]];
      assert all[..total] + [all[total]] == all[..total + 1];
      assert all[total..][1..] == all[total + 1..];
    }

    /** poll_and_dispatch_once, with no producer at work. */
    method PollAndDispatchOnce() returns (total: nat)
      requires Distinct(active)
      modifies this
      ensures total == Min(MAX_BATCH, |old(Flat(rings, active))|)
      ensures dispatched == old(dispatched) + old(Flat(rings, active))[..total]
      ensures Flat(rings, active) == old(Flat(rings, active))[total..]
    {
      hide Flat;
      ghost var all := Flat(rings, active);
      total := 0;
      var k := 0;
      while k < |active|
        invariant k <= |active| && total <= MAX_BATCH && total <= |all|
        invariant Flat(rings, active) == all[total..]
        invariant dispatched == old(dispatched) + all[..total]
        invariant forall i :: 0 <= i < k ==> Queue(rings, active[i]) == []
        decreases |all| - total, |active| - k
      {
        if total >= MAX_BATCH {
          break;
        }
        var priority := active[k];
        if priority in rings && rings[priority] != [] {
          DispatchFrom(k, all, total, old(dispatched));
          total := total + 1;
          k := 0;
        } else {
          k := k + 1;
        }
      }
      if total < MAX_BATCH {
        FlatEmpty(rings, active);
      }
    }
  }
}
