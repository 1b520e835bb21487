/**
A committed message is delivered: the consumer finds every commit, gives up no
ticket that has one, and a send and a receive that run alone move any message.
*/
module RingBufferDelivery {
  import opened Modular
  import opened RingBuffer
  import opened RingBufferOrder
  import opened RingBufferPayload

  // ---- a commit stays visible until it is consumed ---------------------------------------------

  /** An unread committed ticket is named by its slot, until the consumer has cleared it. */
  predicate Visible(s: Ring)
    requires Shaped(s)
  {
    forall k :: k in s.committed && |s.log| <= k ==>
      At(s, k).ready == k + 1 || (k == |s.log| && s.consumer.CAdvance?)
  }

  lemma SameVisible(s: Ring, t: Ring)
    requires Shaped(s) && Shaped(t) && Visible(s) && t.cap == s.cap && t.slots == s.slots && t.log == s.log
    requires t.committed == s.committed && t.consumer == s.consumer
    ensures Visible(t)
  {
    assert forall k :: At(t, k) == At(s, k);
  }

  lemma ReserveVisible(u: Usage, s: Ring, t: Ring, a: nat)
    requires Shaped(s) && Visible(s) && ReserveStep(u, s, t, a)
    ensures Shaped(t) && Visible(t)
  {
    assert t == s.(tail := t.tail, sent := t.sent, caches := t.caches, producers := t.producers) by { hide Full; }
    hide ReserveStep, Visible, Shaped;
    SameShape(s, t);
    SameVisible(s, t);
  }

  lemma FlowVisible(s: Ring, t: Ring, a: nat)
    requires Shaped(s) && Visible(s) && FlowStep(s, t, a)
    ensures Shaped(t) && Visible(t)
  {
    hide Visible, Shaped;
    SameShape(s, t);
    SameVisible(s, t);
  }

  lemma WriteVisible(s: Ring, t: Ring, a: nat)
    requires Inv(s) && Young(s) && Sized(s) && Visible(s) && WriteStep(s, t, a) && !WasSkipped(s, PcOf(s, a).ticket)
    ensures Shaped(t) && Visible(t)
  {
    hide Inv;
    InvCommitted(s);
    SizedAt(s, a);
    WriteIsWrote(s, t, a);
    WriterUnread(s, a);
    WriteShape(s, t, a);
    hide WriteStep, Sized, Shaped;
    var k := PcOf(s, a).ticket;
    forall l | l in t.committed && |t.log| <= l
      ensures At(t, l).ready == l + 1 || (l == |t.log| && t.consumer.CAdvance?)
    {
      if l != k { OthersUntouched(s, t, k, l); }
    }
  }

  lemma ClearVisible(s: Ring, t: Ring)
    requires Inv(s) && Visible(s) && ConsumerStep(s, t) && s.consumer.CReset?
    ensures Shaped(t) && Visible(t)
  {
    InvCommitted(s);
    InvConsumer(s);
    ConsumerShape(s, t);
    hide Inv;
    var h := s.consumer.head;
    forall l | l in t.committed && |t.log| <= l
      ensures At(t, l).ready == l + 1 || (l == |t.log| && t.consumer.CAdvance?)
    {
      if l != h { SlotsDiffer(s, h, l); }
    }
  }

  lemma LookVisible(s: Ring, t: Ring)
    requires Shaped(s) && Visible(s) && ConsumerStep(s, t) && !s.consumer.CReset?
    ensures Shaped(t) && Visible(t)
  {
    assert t.slots == s.slots && t.cap == s.cap && t.committed == s.committed && t.room == s.room;
    SameShape(s, t);
    assert forall k :: At(t, k) == At(s, k);
  }

  lemma ForceVisible(s: Ring, t: Ring)
    requires Shaped(s) && Visible(s) && ForceStep(s, t)
    ensures Shaped(t) && Visible(t)
  {
    hide Visible, Shaped;
    SameShape(s, t);
    SameVisible(s, t);
  }

  lemma StepVisible(u: Usage, s: Ring, t: Ring)
    requires !u.resume && Inv(s) && Young(s) && Sized(s) && Shaped(s) && Visible(s) && Next(u, s, t)
    ensures Shaped(t) && Visible(t)
  {
    hide Inv, Visible, Sized, ReserveStep, WriteStep, FlowStep, ConsumerStep, ForceStep, Shaped;
    if a :| ProducerStep(u, s, t, a) {
      if ReserveStep(u, s, t, a) { ReserveVisible(u, s, t, a); }
      else if FlowStep(s, t, a) { FlowVisible(s, t, a); }
      else { WriteVisible(s, t, a); }
    } else if ConsumerStep(s, t) {
      if s.consumer.CReset? { ClearVisible(s, t); } else { LookVisible(s, t); }
    } else {
      ForceVisible(s, t);
    }
  }

  lemma {:induction false} RunVisible(u: Usage, run: seq<Ring>, i: nat)
    requires !u.resume && !u.long && IsRun(u, run) && i < |run| && Young(run[i])
    ensures Shaped(run[i]) && Visible(run[i])
    decreases i
  {
    hide Inv, Kept, Next, Sized, Visible, Shaped, Short;
    if i == 0 {
      InitVisible(run[0]);
    } else {
      SentGrows(u, run[i - 1], run[i]);
      RunVisible(u, run, i - 1);
      RunKept(u, run, i - 1);
      KeptSized(run[i - 1]);
      KeptShort(run[i - 1]);
      RunKeeps(u, run, i - 1);
      StepVisible(u, run[i - 1], run[i]);
    }
  }

  lemma InitVisible(s: Ring)
    requires Init(s)
    ensures Shaped(s) && Visible(s)
  {
  }

  // ---- what the consumer makes of a commit -------------------------------------------------------

  /** At its first look a consumer goes for a committed head, and at no later one it gives it up. */
  predicate Heeds(s: Ring, t: Ring) {
    && (s.consumer.CLoaded? && s.consumer.head in s.committed && t.consumer != s.consumer ==> t.consumer.CHeader?)
    && (s.consumer.CStale? && s.consumer.head in s.committed ==> !t.consumer.CExpired?)
    && (s.consumer.CExpired? && s.consumer.head in s.committed ==> !t.consumer.CReset?)
  }

  lemma ProducerHeeds(u: Usage, s: Ring, t: Ring, a: nat)
    requires Shaped(s) && ProducerStep(u, s, t, a)
    ensures Heeds(s, t)
  {
    hide ProducerStep, Shaped;
    ProducerSide(u, s, t, a);
  }

  lemma StepHeeds(u: Usage, s: Ring, t: Ring)
    requires Inv(s) && Young(s) && Shaped(s) && Visible(s) && Next(u, s, t)
    ensures Heeds(s, t)
  {
    InvConsumer(s);
    InvCommitted(s);
    hide ProducerStep, ConsumerStep, Shaped, Inv, Visible, ConsumerOk;
    if a :| ProducerStep(u, s, t, a) {
      ProducerHeeds(u, s, t, a);
    } else if ConsumerStep(s, t) {
      ConsumerHeeds(s, t);
    }
  }

  lemma ConsumerHeeds(s: Ring, t: Ring)
    requires Shaped(s) && ConsumerOk(s) && Visible(s) && ConsumerStep(s, t)
    requires Young(s) && forall k :: k in s.committed ==> k < |s.sent|
    ensures Heeds(s, t)
  {
    if (s.consumer.CLoaded? || s.consumer.CStale? || s.consumer.CExpired?) && s.consumer.head in s.committed {
      var h := s.consumer.head;
      assert h == |s.log| && At(s, h).ready == h + 1;
      assert (h + 1) % W == h + 1;
      hide Visible, Shaped, At;
    }
  }

  /** If skipped producers never resume and bodies stay below LONG, the consumer never misses a commit. */
  lemma CommitsHeeded(u: Usage, run: seq<Ring>, i: nat)
    requires !u.resume && !u.long && IsRun(u, run) && 0 < i < |run| && Young(run[i - 1])
    ensures Heeds(run[i - 1], run[i])
  {
    RunVisible(u, run, i - 1);
    RunKept(u, run, i - 1);
    KeptShort(run[i - 1]);
    RunKeeps(u, run, i - 1);
    hide Inv, Kept, Visible, Shaped, Heeds;
    StepHeeds(u, run[i - 1], run[i]);
  }

  /** A ticket the consumer gives up had, at that moment, not been committed. */
  lemma SkippedUnwritten(u: Usage, run: seq<Ring>, i: nat)
    requires !u.resume && !u.long && IsRun(u, run) && 0 < i < |run| && Young(run[i - 1])
    requires run[i - 1].consumer.CExpired? && run[i].consumer.CReset?
    ensures run[i].consumer == CReset(run[i - 1].consumer.head, Skipped)
    ensures run[i - 1].consumer.head == |run[i - 1].log| < |run[i - 1].sent|
    ensures run[i - 1].consumer.head !in run[i - 1].committed
  {
    hide Next, Inv, Kept, Short;
    CommitsHeeded(u, run, i);
    RunKept(u, run, i - 1);
    KeptShort(run[i - 1]);
    RunKeeps(u, run, i - 1);
    InvConsumer(run[i - 1]);
    assert Next(u, run[i - 1], run[i]);
    GivesUp(u, run[i - 1], run[i]);
  }

  lemma GivesUp(u: Usage, s: Ring, t: Ring)
    requires Next(u, s, t) && s.consumer.CExpired? && t.consumer.CReset?
    ensures t.consumer == CReset(s.consumer.head, Skipped)
  {
    hide ProducerStep, Shaped;
    if a :| ProducerStep(u, s, t, a) { ProducerSide(u, s, t, a); }
  }

  // ---- when a commit is missed ----------------------------------------------------------------------

  /** The skipped producer commits ticket 0 over the ready_seq of ticket 1. */
  lemma LateCommit(u: Usage, s: Ring, tag: nat) returns (t: Ring)
    requires u.resume && Reachable(u, s) && Shaped(s) && s.cap == 1 && s.room == 0
    requires PcOf(s, 0) == AtCommit(Msg(tag, []), 0, 0)
    ensures Reachable(u, t)
    ensures t == s.(slots := [s.slots[0].(ready := 1)], committed := s.committed + {0}, producers := t.producers)
  {
    hide Reachable;
    t := Go(s.(slots := [s.slots[0].(ready := 1)], committed := s.committed + {0}), 0, AtFlow(0));
    assert t.slots == s.slots[0 := s.slots[0].(ready := 1)];
    Produce(u, s, t, 0);
  }

  /** A run in which the committed ticket 1 comes to be given up, because ticket 0 was committed late. */
  lemma LateCommitHides(u: Usage) returns (t: Ring)
    requires u.resume
    ensures Reachable(u, t) && Young(t) && t.consumer == CExpired(1) && 1 in t.committed
    ensures Shaped(t) && t.cap == 1 && t.slots == [Slot(1, 1, 0, [])] && !t.stopped
  {
    hide Reachable;
    StartReachable(u);
    var s1 := Reserve(u, START, 0, 0, 1);
    var s2 := SkipFirst(u, s1);
    assert PcOf(s2, 1) == PcOf(START, 1) == Idle;
    var s3 := Reserve(u, s2, 1, 1, 2);
    assert PcOf(s3, 0) == PcOf(s2, 0);
    var s4 := Commit(u, s3, 1, Msg(2, []), 1);
    assert PcOf(s4, 0) == PcOf(s3, 0);
    var s5 := LateHeader(u, s4, 1);
    var s6 := LateCommit(u, s5, 1);
    assert At(s6, 1) == s6.slots[0];
    t := ExpireAlone(u, s6, 1);
  }

  /** A LONG body of zeros. */
  const ZERO_MSG := Msg(1, seq(LONG, _ => 0))

  lemma ZeroMsg()
    ensures |ZERO_MSG.body| == LONG && ZERO_MSG.tag == 1 && Behind(1, 0) == 40
    ensures EntryAt(ZERO_MSG.body, 40, 0) == Slot(0, 0, 0, [])
  {
    assert forall i :: 40 <= i < 64 ==> ZERO_MSG.body[i] == 0;
  }

  /** The long message has ticket 0 and nothing written; ticket 1 is committed. */
  lemma ShortBehind(u: Usage, m: Msg) returns (t: Ring)
    requires u.long && |m.body| == LONG
    ensures Reachable(u, t) && PcOf(t, 0) == AtHeader(m, 0, 0) && Shaped(t)
    ensures t == TWO.(tail := 2, sent := [m, Msg(2, [])], slots := [Slot(0, 0, 0, []), Slot(2, 2, 0, [])],
                      committed := {1}, caches := t.caches, producers := t.producers)
  {
    hide Reachable;
    var s1 := LongReserve(u, m);
    assert Shaped(s1) && PcOf(s1, 1) == PcOf(TWO, 1) == Idle;
    var s2 := ReserveAlone(u, s1, 1, Msg(2, []), 0);
    SameShape(s1, s2);
    assert At(s2, 1) == Slot(0, 0, 0, []) && Overlay([], []) == [];
    hide ReserveStep, Shaped;
    t := CommitAlone(u, s2, 1, Msg(2, []), 0, 1);
    assert PcOf(t, 0) == PcOf(s2, 0) == PcOf(s1, 0);
    assert t.slots == [Slot(0, 0, 0, []), Slot(2, 2, 0, [])] && t.committed == {1} && t.sent == [m, Msg(2, [])];
    TwoShaped(t);
  }

  lemma TwoShaped(s: Ring)
    requires s.cap == 2 && s.room == 0 && |s.slots| == 2 && s.slots[0].area == [] && s.slots[1].area == []
    ensures Shaped(s)
  {
  }

  /** A run in which ticket 1 was committed before the body of ticket 0 ran over its slot. */
  lemma LongBodyHides(u: Usage) returns (t: Ring)
    requires u.long
    ensures Reachable(u, t) && Young(t) && t.consumer == CExpired(1) && 1 in t.committed
    ensures Shaped(t) && t.cap == 2 && t.slots == [Slot(0, 1, LONG, []), Slot(0, 0, 0, [])] && !t.stopped
  {
    ZeroMsg();
    var empty := Slot(0, 0, 0, []);
    hide Reachable;
    var s3 := ShortBehind(u, ZERO_MSG);
    hide Overran, EntryAt;
    var s4 := LongWrite(u, s3, ZERO_MSG, empty);
    var s5 := LongRead(u, s4, empty);
    TwoShaped(s5);
    assert At(s5, 1) == s5.slots[1];
    hide Shaped;
    t := ExpireAlone(u, s5, 1);
    SameShape(s5, t);
  }

  lemma GivenUp(u: Usage, s: Ring) returns (t: Ring)
    requires Reachable(u, s) && Shaped(s) && s.consumer == CExpired(1) && !s.stopped && At(s, 1).ready < 2
    ensures Next(u, s, t) && t.consumer == CReset(1, Skipped)
  {
    t := s.(consumer := CReset(1, Skipped));
  }

  /** The consumer misses no commit in any run if and only if skipped producers stay away and no body is LONG. */
  lemma HeedsExactly(u: Usage)
    ensures (forall s, t :: Reachable(u, s) && Young(s) && Next(u, s, t) ==> Heeds(s, t)) <==> !u.resume && !u.long
  {
    if u.resume {
      var s := LateCommitHides(u);
      assert At(s, 1) == s.slots[0];
      var t := GivenUp(u, s);
      assert !Heeds(s, t);
    } else if u.long {
      var s := LongBodyHides(u);
      assert At(s, 1) == s.slots[1];
      var t := GivenUp(u, s);
      assert !Heeds(s, t);
    } else {
      hide Heeds, Next;
      forall s, t | Reachable(u, s) && Young(s) && Next(u, s, t) ensures Heeds(s, t) {
        var run :| IsRun(u, run) && run[|run| - 1] == s;
        var longer := run + [t];
        assert forall i :: 0 <= i < |run| ==> longer[i] == run[i];
        assert IsRun(u, longer);
        CommitsHeeded(u, longer, |run|);
      }
    }
  }

  // ---- send and receive --------------------------------------------------------------------------------

  /** Where the full check lets it through, a producer that runs alone commits its message under the next ticket. */
  lemma SendAlone(u: Usage, s: Ring, a: nat, m: Msg, k: nat) returns (t: Ring)
    requires !u.long && Reachable(u, s) && Young(s) && Shaped(s) && !Full(s.cap, s.head, s.tail)
    requires PcOf(s, a) == Idle && |m.body| <= s.room
    ensures Reachable(u, t) && t.sent == s.sent + [m] && t.committed == s.committed + {|s.sent|}
    ensures t.log == s.log && t.head == s.head && t.consumer == s.consumer && t.stopped == s.stopped
    ensures Shaped(t) && t.cap == s.cap && t.room == s.room
    ensures At(t, |s.sent|).ready == |s.sent| + 1 && Holds(At(t, |s.sent|), m)
  {
    ReachableOrdered(u, s);
    hide Reachable, Full;
    var n := |s.sent|;
    var s1 := ReserveAlone(u, s, a, m, k);
    SameShape(s, s1);
    assert !WasSkipped(s1, n);
    t := CommitAlone(u, s1, a, m, k, n);
    PutShaped(s1, n, At(t, n));
    assert Overlay(At(s1, n).area, m.body)[..|m.body|] == m.body;
  }

  /** In any run, a consumer that runs alone delivers a committed head, with the message sent under that ticket. */
  lemma ReceiveAlone(u: Usage, s: Ring) returns (t: Ring)
    requires !u.resume && !u.long && Reachable(u, s) && Young(s)
    requires |s.log| in s.committed && s.consumer == CIdle && !s.stopped
    ensures Reachable(u, t) && |s.log| < |s.sent| && t.sent == s.sent
    ensures t.log == s.log + [Event(|s.log|, Delivered(s.sent[|s.log|]))] && t.head == |t.log| && t.consumer == CIdle
  {
    ReachableKeeps(u, s);
    InvCommitted(s);
    assert HeadOk(s) && CommittedOk(s);
    hide Inv, Kept, Reachable, Counters;
    var h := |s.log|;
    assert h in s.committed && At(s, h).ready == h + 1 && Holds(At(s, h), s.sent[h]);
    t := TakeAlone(u, s, h);
  }

  lemma ReachableOrdered(u: Usage, s: Ring)
    requires !u.long && Reachable(u, s) && Young(s)
    ensures Ordered(s)
  {
    var run :| IsRun(u, run) && run[|run| - 1] == s;
    RunShort(u, run, |run| - 1);
    RingOrder(u, run, |run| - 1);
  }

  lemma ReachableKeeps(u: Usage, s: Ring)
    requires !u.resume && !u.long && Reachable(u, s) && Young(s)
    ensures Inv(s) && Kept(s) && Shaped(s) && Visible(s)
  {
    var run :| IsRun(u, run) && run[|run| - 1] == s;
    RunVisible(u, run, |run| - 1);
    RunKept(u, run, |run| - 1);
    KeptShort(s);
    RunKeeps(u, run, |run| - 1);
  }

  // ---- the copy ------------------------------------------------------------------------------------------

  predicate CopyFits(s: Ring) { s.consumer.CCopy? ==> s.consumer.len <= s.room }

  lemma StepFits(u: Usage, s: Ring, t: Ring)
    requires CopyFits(s) && Next(u, s, t)
    ensures CopyFits(t)
  {
    hide ProducerStep, Shaped;
    if a :| ProducerStep(u, s, t, a) { ProducerSide(u, s, t, a); }
  }

  /** Whatever the slots say, the consumer never copies more than an entry holds: in every run of every usage. */
  lemma {:induction false} CopiesInside(u: Usage, run: seq<Ring>, i: nat)
    requires IsRun(u, run) && i < |run|
    ensures CopyFits(run[i])
    decreases i
  {
    hide Next;
    if i > 0 {
      CopiesInside(u, run, i - 1);
      StepFits(u, run[i - 1], run[i]);
    }
  }
}
