/**
Flow control of the ring: a producer estimates how full the ring is from a
stale copy of the head and looks at the real head only when the estimate
reaches the threshold. The shortcut gives the answer of the full computation.
*/
module FlowControl {

  const REFRESH_INTERVAL := 1024   // FLOW_CONFIG_REFRESH_INTERVAL

  /** calculate_flow_threshold. */
  function Threshold(capacity: nat, percent: nat): nat {
    var t := (capacity * percent + 99) / 100;
    var u := if percent != 0 && t == 0 then 1 else t;
    if u > capacity then capacity else u
  }

  /** It is the least depth that is at least the given share of the capacity; the two corrections never bite. */
  lemma ThresholdIsShare(capacity: nat, percent: nat, depth: nat)
    requires capacity > 0 && percent <= 100
    ensures Threshold(capacity, percent) <= capacity
    ensures depth >= Threshold(capacity, percent) <==> depth * 100 >= capacity * percent
  {
    var t := (capacity * percent + 99) / 100;
    assert capacity * percent <= capacity * 100;
    assert percent > 0 ==> capacity * percent > 0;
  }

  /** What a remote producer keeps of the ring it sends to. */
  datatype Cache = Cache(head: nat, threshold: nat, version: nat)

  function Used(newTail: nat, head: nat): nat { if newTail >= head then newTail - head else 0 }

  /** The largest depth recorded so far, after one more sample. */
  function Deepest(recorded: nat, used: nat, capacity: nat): (d: nat)
    ensures d >= recorded && (d == recorded || d == used || d == capacity) && (used <= capacity ==> d >= used)
  {
    var depth := if used > capacity then capacity else used;
    if depth > recorded then depth else recorded
  }

  class Ring {
    const capacity: nat
    var head: nat
    var threshold: nat
    var version: nat
    var congested: bool
    var maxDepth: nat

    constructor (capacity: nat)
      requires capacity > 0
      ensures this.capacity == capacity && Valid() && head == 0 && version == 1 && !congested && maxDepth == 0
      ensures forall depth: nat :: depth >= threshold <==> depth * 100 >= capacity * 80
    {
      this.capacity := capacity;
      head, version, congested, maxDepth := 0, 1, false, 0;
      threshold := Threshold(capacity, 80);
      new;
      ThresholdIsShare(capacity, 80, 0);
      forall depth: nat ensures depth >= threshold <==> depth * 100 >= capacity * 80 {
        ThresholdIsShare(capacity, 80, depth);
      }
    }

    ghost predicate Valid()
      reads this
    {
      capacity > 0 && threshold <= capacity && version > 0
    }

    /** sample_flow_state, taken as one step. */
    method SampleFlowState(used: nat) returns (crowded: bool)
      requires Valid()
      modifies `congested, `maxDepth
      ensures Valid() && crowded == (used >= threshold) && congested == crowded
      ensures maxDepth == Deepest(old(maxDepth), used, capacity)
    {
      var depth := if used > capacity then capacity else used;
      if depth > maxDepth { maxDepth := depth; }
      if depth >= threshold {
        congested := true;
        return true;
      }
      congested := false;
      return false;
    }

    /** flow_result_after_enqueue: a local producer, which shares one cached head with the others. */
    method AfterLocalEnqueue(newTail: nat, cachedHead: nat) returns (crowded: bool, cached: nat)
      requires Valid() && cachedHead <= head
      modifies `congested, `maxDepth
      ensures Valid() && crowded == (Used(newTail, head) >= threshold)
      ensures cachedHead <= cached <= head && threshold == old(threshold)
      ensures Used(newTail, cachedHead) >= threshold ==>
        cached == head && congested == crowded && maxDepth == Deepest(old(maxDepth), Used(newTail, head), capacity)
      ensures Used(newTail, cachedHead) < threshold ==>
        cached == cachedHead && congested == old(congested) && maxDepth == old(maxDepth)
    {
      if Used(newTail, cachedHead) < threshold {
        return false, cachedHead;
      }
      crowded := SampleFlowState(Used(newTail, head));
      cached := head;
    }

    function Refreshed(c: Cache): Cache
      reads this
    {
      if version != c.version then c.(threshold := threshold, version := version) else c
    }

    /** The copy of the threshold a remote producer will use for this message. */
    function Effective(newTail: nat, c: Cache): Cache
      reads this
    {
      if c.version == 0 || newTail % REFRESH_INTERVAL == 0 then Refreshed(c) else c
    }

    /** flow_result_after_enqueue_cached: a remote producer, with its own copies of head and threshold. */
    method AfterRemoteEnqueue(newTail: nat, c: Cache) returns (crowded: bool, after: Cache)
      requires Valid() && c.head <= head && c.version <= version
      requires c.version == version ==> c.threshold == threshold
      modifies `congested, `maxDepth
      ensures Valid() && c.head <= after.head <= head && after.version <= version
      ensures after.version == version ==> after.threshold == threshold
      ensures crowded ==
        var t := Effective(newTail, c).threshold;
        t == 0 || (Used(newTail, c.head) >= t && Used(newTail, head) >= threshold)
      ensures c.version == 0 || c.version == version || newTail % 1024 == 0 ==>
        crowded == (Used(newTail, head) >= threshold)
      ensures var t := Effective(newTail, c).threshold;
        if 0 < t <= Used(newTail, c.head) then
          && after == Cache(head, threshold, version) && congested == crowded
          && maxDepth == Deepest(old(maxDepth), Used(newTail, head), capacity)
        else after == Effective(newTail, c) && congested == old(congested) && maxDepth == old(maxDepth)
    {
      after := Effective(newTail, c);
      if after.threshold == 0 {
        return true, after;
      }
      if Used(newTail, after.head) < after.threshold {
        return false, after;
      }
      after := Refreshed(after);
      after := after.(head := head);
      crowded := SampleFlowState(Used(newTail, head));
    }

    /** configure_congestion_threshold with the depth it samples. */
    method Configure(percent: nat, used: nat) returns (ok: bool)
      requires Valid()
      modifies this
      ensures Valid() && head == old(head) && (ok <==> percent <= 100)
      ensures ok ==> threshold == Threshold(capacity, percent) && version == old(version) + 1
      ensures !ok ==> threshold == old(threshold) && version == old(version) && congested == old(congested)
      ensures ok ==> forall depth: nat :: depth >= threshold <==> depth * 100 >= capacity * percent
      ensures ok ==> congested == (used >= threshold) && maxDepth == Deepest(old(maxDepth), used, capacity)
      ensures !ok ==> maxDepth == old(maxDepth)
    {
      if percent > 100 {
        return false;
      }
      threshold := Threshold(capacity, percent);
      version := version + 1;
      forall depth: nat ensures depth >= threshold <==> depth * 100 >= capacity * percent {
        ThresholdIsShare(capacity, percent, depth);
      }
      ThresholdIsShare(capacity, percent, 0);
      var _ := SampleFlowState(used);
      ok := true;
    }
  }

  // ---- edges, step by step ------------------------------------------------------------------

  datatype Edge = Enter | Exit

  /** A thread inside sample_flow_state: about to load the flag, or about to CAS it. */
  datatype Sampler = Away | Sampling(crowded: bool) | Swapping(crowded: bool)

  datatype Flag = Flag(raised: bool, edges: seq<Edge>, samplers: map<nat, Sampler>)

  function SamplerOf(s: Flag, a: nat): Sampler { if a in s.samplers then s.samplers[a] else Away }

  function Go(s: Flag, a: nat, p: Sampler): Flag { s.(samplers := s.samplers[a := p]) }

  predicate SampleStep(s: Flag, t: Flag, a: nat) {
    match SamplerOf(s, a)
    case Away => t == Go(s, a, Sampling(true)) || t == Go(s, a, Sampling(false))
    case Sampling(crowded) => t == Go(s, a, if s.raised == crowded then Away else Swapping(crowded))
    case Swapping(crowded) =>
      // compare_exchange_strong from the opposite value; the winner logs the edge
      if s.raised != crowded then
        t == Go(s.(raised := crowded, edges := s.edges + [if crowded then Enter else Exit]), a, Away)
      else t == Go(s, a, Away)
  }

  ghost predicate Next(s: Flag, t: Flag) { exists a :: SampleStep(s, t, a) }

  ghost predicate IsRun(run: seq<Flag>) {
    && 0 < |run| && run[0] == Flag(false, [], map[])
    && forall i :: 0 < i < |run| ==> Next(run[i - 1], run[i])
  }

  function EdgeAt(i: nat): Edge { if i % 2 == 0 then Enter else Exit }

  /** Enter first, then strictly in turn, the last one telling the flag. */
  predicate Alternating(s: Flag) {
    && (forall i :: 0 <= i < |s.edges| ==> s.edges[i] == EdgeAt(i))
    && (s.raised <==> |s.edges| % 2 == 1)
  }

  lemma StepAlternates(s: Flag, t: Flag)
    requires Alternating(s) && Next(s, t)
    ensures Alternating(t)
  {
    var a :| SampleStep(s, t, a);
    assert t.edges == s.edges || t.edges == s.edges + [EdgeAt(|s.edges|)];
  }

  lemma {:induction false} EdgesAlternate(run: seq<Flag>, i: nat)
    requires IsRun(run) && i < |run|
    ensures Alternating(run[i])
    decreases i
  {
    hide Next;
    if i > 0 {
      EdgesAlternate(run, i - 1);
      StepAlternates(run[i - 1], run[i]);
    }
  }

  /** A sampler that runs alone leaves the flag as it found the ring, and logs an edge exactly when that changes it. */
  lemma AloneSettles(s: Flag, a: nat, crowded: bool) returns (t: Flag)
    requires SamplerOf(s, a) == Sampling(crowded)
    ensures t.raised == crowded && SamplerOf(t, a) == Away
    ensures t.edges == if s.raised == crowded then s.edges else s.edges + [if crowded then Enter else Exit]
    ensures Next(s, t) || exists m :: Next(s, m) && Next(m, t)
  {
    if s.raised == crowded {
      t := Go(s, a, Away);
      assert SampleStep(s, t, a);
    } else {
      var m := Go(s, a, Swapping(crowded));
      assert SampleStep(s, m, a);
      t := Go(m.(raised := crowded, edges := s.edges + [if crowded then Enter else Exit]), a, Away);
      assert SampleStep(m, t, a);
      assert Next(s, m) && Next(m, t);
    }
  }
}
