/**
What the consumer delivers is what the producer of that ticket wrote, exactly
when producers whose ticket was skipped stay away from the slot and no body is
so long that the size check wraps.
*/
module RingBufferPayload {
  import opened RingBuffer
  import opened RingBufferOrder

  // ---- the invariant ---------------------------------------------------------------------

  predicate HeaderIs(x: Slot, m: Msg) { x.tag == m.tag && x.len == |m.body| }

  predicate Holds(x: Slot, m: Msg) { HeaderIs(x, m) && |m.body| <= |x.area| && x.area[..|m.body|] == m.body }

  ghost predicate Sized(s: Ring) {
    && (forall a :: HasMsg(PcOf(s, a)) ==> |PcOf(s, a).msg.body| <= s.room)
    && (forall k :: 0 <= k < |s.sent| ==> |s.sent[k].body| <= s.room)
  }

  /** A producer whose ticket is still in the ring has written what it has passed. */
  predicate WriterOk(s: Ring, p: ProducerPc)
    requires Shaped(s)
  {
    && (p.AtBody? && p.ticket >= |s.log| ==> HeaderIs(At(s, p.ticket), p.msg))
    && (p.AtCommit? && p.ticket >= |s.log| ==> Holds(At(s, p.ticket), p.msg))
  }

  ghost predicate WritersOk(s: Ring)
    requires Shaped(s)
  {
    forall a :: WriterOk(s, PcOf(s, a))
  }

  predicate CommittedOk(s: Ring)
    requires Shaped(s)
  {
    forall k :: k in s.committed && |s.log| <= k < |s.sent| ==> Holds(At(s, k), s.sent[k])
  }

  predicate Faithful(s: Ring, k: nat, out: Outcome) {
    k < |s.sent| && !out.Corrupt? && (out.Delivered? ==> out.msg == s.sent[k])
  }

  predicate ReadOk(s: Ring) {
    match s.consumer
    case CCopy(h, len) => h < |s.sent| && len == |s.sent[h].body|
    case CReset(h, out) => Faithful(s, h, out)
    case CAdvance(h, out) => Faithful(s, h, out)
    case _ => true
  }

  /** Every ticket so far was skipped or delivered with the message sent under it. */
  predicate Intact(s: Ring) { forall k :: 0 <= k < |s.log| ==> Faithful(s, k, s.log[k].out) }

  ghost predicate Kept(s: Ring) {
    Shaped(s) && Sized(s) && WritersOk(s) && CommittedOk(s) && ReadOk(s) && Intact(s)
  }

  // ---- producer steps ----------------------------------------------------------------------

  lemma SizedMove(s: Ring, t: Ring, a: nat, p: ProducerPc)
    requires Sized(s) && t.room == s.room && Moves(s, t, a, p) && (HasMsg(p) ==> |p.msg.body| <= s.room)
    requires t.sent == s.sent || (exists m: Msg :: |m.body| <= s.room && t.sent == s.sent + [m])
    ensures Sized(t)
  {
  }

  /** Steps that leave the slots and the history alone, but for a new ticket. */
  lemma QuietKept(s: Ring, t: Ring, a: nat, p: ProducerPc)
    requires Kept(s) && Sized(t) && Moves(s, t, a, p) && !p.AtBody? && !p.AtCommit?
    requires t.cap == s.cap && t.room == s.room && t.slots == s.slots && t.log == s.log
    requires t.committed == s.committed && t.consumer == s.consumer && s.sent <= t.sent
    requires forall k :: k in s.committed ==> k < |s.sent|
    ensures Kept(t)
  {
    forall b ensures WriterOk(t, PcOf(t, b)) {
      assert WriterOk(s, PcOf(s, b));
    }
    assert forall k :: At(t, k) == At(s, k);
  }

  lemma ReserveKept(u: Usage, s: Ring, t: Ring, a: nat)
    requires !u.long && Inv(s) && Kept(s) && ReserveStep(u, s, t, a)
    ensures Kept(t)
  {
    hide Inv, Kept, Full;
    assert Sized(s) && forall k :: k in s.committed ==> k < |s.sent| by { KeptSized(s); InvCommitted(s); }
    hide Sized;
    var p, q := PcOf(s, a), PcOf(t, a);
    assert HasMsg(p) ==> |p.msg.body| <= s.room by { SizedAt(s, a); }
    GoMoves(s, t, a, q);
    SizedMove(s, t, a, q);
    QuietKept(s, t, a, q);
  }

  lemma SizedAt(s: Ring, a: nat)
    requires Sized(s)
    ensures HasMsg(PcOf(s, a)) ==> |PcOf(s, a).msg.body| <= s.room
  {
  }

  lemma KeptSized(s: Ring)
    requires Kept(s)
    ensures Sized(s) && Shaped(s)
  {
  }

  lemma InvCommitted(s: Ring)
    requires Inv(s)
    ensures Shaped(s) && Counters(s) && forall k :: k in s.committed ==> k < |s.sent|
  {
  }

  lemma FlowKept(s: Ring, t: Ring, a: nat)
    requires Inv(s) && Kept(s) && FlowStep(s, t, a)
    ensures Kept(t)
  {
    hide Inv, Kept;
    KeptSized(s);
    InvCommitted(s);
    hide Sized, Shaped, Counters;
    GoMoves(s, t, a, PcOf(t, a));
    SizedMove(s, t, a, PcOf(t, a));
    QuietKept(s, t, a, PcOf(t, a));
  }

  /** A producer that may write has its ticket still unread. */
  lemma WriterUnread(s: Ring, a: nat)
    requires Inv(s) && Writing(PcOf(s, a)) && !WasSkipped(s, PcOf(s, a).ticket)
    ensures |s.log| <= PcOf(s, a).ticket < |s.sent| && PcOf(s, a).ticket !in s.committed
    ensures s.sent[PcOf(s, a).ticket] == PcOf(s, a).msg
  {
    ProducerAt(s, a);
    WritingBelow(s, PcOf(s, a));
    LoggedUncommitted(s, PcOf(s, a).ticket);
  }

  lemma LoggedUncommitted(s: Ring, k: nat)
    requires Inv(s) && k !in s.committed
    ensures k < |s.log| ==> WasSkipped(s, k)
  {
    assert k < |s.log| ==> s.log[k].ticket == k && OutcomeOk(s, k, s.log[k].out);
    assert k < |s.log| ==> s.log[k] == Event(k, Skipped);
  }

  /** Writing the slot of one unread ticket leaves the slots of the others alone. */
  lemma OthersUntouched(s: Ring, t: Ring, k: nat, l: nat)
    requires Shaped(s) && Counters(s) && t.cap == s.cap == |t.slots| && t.slots == s.slots[k % s.cap := At(t, k)]
    requires |s.log| <= k < |s.sent| && |s.log| <= l < |s.sent| && k != l
    ensures At(t, l) == At(s, l)
  {
    SlotsDiffer(s, k, l);
  }

  lemma WriteWriters(s: Ring, t: Ring, a: nat)
    requires Inv(s) && WritersOk(s) && WriteStep(s, t, a) && Shaped(t) && WriterOk(t, PcOf(t, a))
    requires |s.log| <= PcOf(s, a).ticket < |s.sent| && |PcOf(s, a).msg.body| <= s.room
    ensures WritersOk(t)
  {
    WriteIsWrote(s, t, a);
    hide WriteStep;
    InvCommitted(s);
    var k := PcOf(s, a).ticket;
    forall b ensures WriterOk(t, PcOf(t, b)) {
      if b != a {
        assert PcOf(t, b) == PcOf(s, b);
        assert WriterOk(s, PcOf(s, b));
        ProducerAt(s, b);
        WritingBelow(s, PcOf(s, b));
        if Writing(PcOf(s, b)) && PcOf(s, b).ticket >= |s.log| {
          OthersUntouched(s, t, k, PcOf(s, b).ticket);
        }
      }
    }
  }

  lemma WriteCommitted(s: Ring, t: Ring, a: nat)
    requires Inv(s) && CommittedOk(s) && WriteStep(s, t, a) && Shaped(t)
    requires |s.log| <= PcOf(s, a).ticket < |s.sent| && PcOf(s, a).ticket !in s.committed
    requires |PcOf(s, a).msg.body| <= s.room
    requires PcOf(s, a).ticket in t.committed ==> Holds(At(t, PcOf(s, a).ticket), s.sent[PcOf(s, a).ticket])
    ensures CommittedOk(t)
  {
    WriteIsWrote(s, t, a);
    hide WriteStep;
    InvCommitted(s);
    var k := PcOf(s, a).ticket;
    forall l | l in t.committed && |t.log| <= l < |t.sent| ensures Holds(At(t, l), t.sent[l]) {
      if l != k { OthersUntouched(s, t, k, l); }
    }
  }

  /** The writer's own slot after its step. */
  lemma OwnSlot(s: Ring, t: Ring, a: nat)
    requires Shaped(s) && WriteStep(s, t, a) && WriterOk(s, PcOf(s, a)) && Writing(PcOf(s, a)) &&
      PcOf(s, a).ticket >= |s.log|
    requires |PcOf(s, a).msg.body| <= s.room
    ensures Shaped(t) && WriterOk(t, PcOf(t, a))
    ensures PcOf(t, a).AtFlow? ==> Holds(At(t, PcOf(s, a).ticket), PcOf(s, a).msg)
  {
    var p, k := PcOf(s, a), PcOf(s, a).ticket;
    WriteIsWrote(s, t, a);
    PutShaped(s, k, At(t, k));
    assert |At(s, k).area| == s.room;
    if p.AtBody? {
      assert At(t, k).area[..|p.msg.body|] == p.msg.body;
    }
  }

  lemma WriteKept(s: Ring, t: Ring, a: nat)
    requires Inv(s) && Kept(s) && WriteStep(s, t, a) && !WasSkipped(s, PcOf(s, a).ticket)
    ensures Kept(t)
  {
    hide Inv, CommittedOk, WriterOk, Holds, Sized;
    InvCommitted(s);
    SizedAt(s, a);
    WriteIsWrote(s, t, a);
    WriterUnread(s, a);
    assert WriterOk(s, PcOf(s, a));
    OwnSlot(s, t, a);
    hide WriteStep, Counters, Shaped;
    WriteWriters(s, t, a);
    WriteCommitted(s, t, a);
    GoMoves(s, t, a, PcOf(t, a));
    SizedMove(s, t, a, PcOf(t, a));
  }

  // ---- consumer steps -------------------------------------------------------------------------

  lemma ConsumerSized(s: Ring, t: Ring)
    requires Sized(s) && t.producers == s.producers && t.room == s.room && t.sent == s.sent
    ensures Sized(t)
  {
    assert forall a :: PcOf(t, a) == PcOf(s, a);
  }

  /** Only ready_seq of one slot changes, and the log may grow. */
  lemma ConsumerSlots(s: Ring, t: Ring)
    requires Shaped(s) && Shaped(t) && WritersOk(s) && CommittedOk(s)
    requires t.producers == s.producers && t.cap == s.cap && t.sent == s.sent && t.committed == s.committed &&
      |s.log| <= |t.log|
    requires forall k :: At(t, k) == At(s, k).(ready := At(t, k).ready)
    ensures WritersOk(t) && CommittedOk(t)
  {
    forall a ensures WriterOk(t, PcOf(t, a)) {
      assert PcOf(t, a) == PcOf(s, a);
      assert WriterOk(s, PcOf(s, a));
    }
  }

  lemma ReadKept(s: Ring, t: Ring)
    requires Inv(s) && Shaped(s) && CommittedOk(s) && ReadOk(s) && ConsumerStep(s, t)
    requires forall k :: 0 <= k < |s.sent| ==> |s.sent[k].body| <= s.room
    ensures ReadOk(t)
  {
    InvCommitted(s);
    assert ConsumerOk(s) by { InvConsumer(s); }
    hide Inv, Counters, Shaped;
    if s.consumer.CHeader? || s.consumer.CCopy? {
      assert Holds(At(s, s.consumer.head), s.sent[s.consumer.head]);
    }
    assert s.consumer.CExpired? ==> s.consumer.head < |s.sent|;
  }

  lemma InvConsumer(s: Ring)
    requires Inv(s)
    ensures ConsumerOk(s) && |s.log| <= |s.sent|
  {
  }

  lemma ConsumerShape(s: Ring, t: Ring)
    requires Shaped(s) && ConsumerStep(s, t)
    ensures Shaped(t) && t.producers == s.producers && t.cap == s.cap && t.room == s.room
    ensures t.sent == s.sent && t.committed == s.committed
    ensures forall k :: At(t, k) == At(s, k).(ready := At(t, k).ready)
    ensures t.log == s.log || (s.consumer.CAdvance? && t.log == s.log + [Event(s.consumer.head, s.consumer.out)])
  {
    ConsumerShaped(s, t);
  }

  lemma ConsumerKept(s: Ring, t: Ring)
    requires Inv(s) && Kept(s) && ConsumerStep(s, t)
    ensures Kept(t)
  {
    ReadKept(s, t);
    ConsumerShape(s, t);
    InvConsumer(s);
    hide Inv, ConsumerStep, Shaped, Sized, WritersOk, CommittedOk;
    ConsumerSized(s, t);
    ConsumerSlots(s, t);
    assert s.consumer.CAdvance? ==> s.consumer.head == |s.log|;
  }

  lemma ForceKept(s: Ring, t: Ring)
    requires Kept(s) && ForceStep(s, t)
    ensures Kept(t)
  {
    assert forall k :: At(t, k) == At(s, k);
    ConsumerSized(s, t);
    ConsumerSlots(s, t);
  }

  // ---- runs -----------------------------------------------------------------------------------

  lemma StepKept(u: Usage, s: Ring, t: Ring)
    requires !u.resume && !u.long && Inv(s) && Kept(s) && Next(u, s, t)
    ensures Kept(t)
  {
    hide Inv, Kept, ReserveStep, WriteStep, FlowStep, ConsumerStep, ForceStep, Shaped;
    if a :| ProducerStep(u, s, t, a) {
      if ReserveStep(u, s, t, a) { ReserveKept(u, s, t, a); }
      else if FlowStep(s, t, a) { FlowKept(s, t, a); }
      else { WriteKept(s, t, a); }
    } else if ConsumerStep(s, t) {
      ConsumerKept(s, t);
    } else {
      ForceKept(s, t);
    }
  }

  lemma InitKept(s: Ring)
    requires Init(s)
    ensures Kept(s)
  {
    assert forall a :: PcOf(s, a) == Idle;
  }

  lemma KeptShort(s: Ring)
    requires Kept(s)
    ensures Short(s)
  {
  }

  lemma {:induction false} RunKept(u: Usage, run: seq<Ring>, i: nat)
    requires !u.resume && !u.long && IsRun(u, run) && i < |run| && Young(run[i])
    ensures Kept(run[i])
    decreases i
  {
    hide Inv, Kept, Init, Next, Short;
    if i == 0 {
      InitKept(run[0]);
    } else {
      SentGrows(u, run[i - 1], run[i]);
      RunKept(u, run, i - 1);
      KeptShort(run[i - 1]);
      RunKeeps(u, run, i - 1);
      StepKept(u, run[i - 1], run[i]);
    }
  }

  /** If skipped producers never resume and bodies stay below LONG, every ticket is skipped or delivered as sent. */
  lemma PayloadIntact(u: Usage, run: seq<Ring>, i: nat)
    requires !u.resume && !u.long && IsRun(u, run) && i < |run| && Young(run[i])
    ensures Intact(run[i])
  {
    RunKept(u, run, i);
  }

  // ---- a producer that resumes ---------------------------------------------------------------------

  ghost predicate Reachable(u: Usage, s: Ring) { exists run :: IsRun(u, run) && run[|run| - 1] == s }

  lemma Hop(u: Usage, s: Ring, t: Ring)
    requires Reachable(u, s) && Next(u, s, t)
    ensures Reachable(u, t)
  {
    var run :| IsRun(u, run) && run[|run| - 1] == s;
    var longer := run + [t];
    forall i | 0 < i < |longer| ensures Next(u, longer[i - 1], longer[i]) {
      if i < |run| { assert Next(u, run[i - 1], run[i]); }
    }
    assert longer[|longer| - 1] == t;
  }

  lemma Produce(u: Usage, s: Ring, t: Ring, a: nat)
    requires Reachable(u, s) && Shaped(s) && ProducerStep(u, s, t, a)
    ensures Reachable(u, t)
  {
    hide Reachable, ProducerStep, Shaped;
    Hop(u, s, t);
  }

  lemma Consume(u: Usage, s: Ring, t: Ring)
    requires Reachable(u, s) && Shaped(s) && ConsumerStep(s, t)
    ensures Reachable(u, t)
  {
    hide Reachable, ConsumerStep, Shaped;
    Hop(u, s, t);
  }

  /** An empty ring of one slot for messages with no body. */
  const START := Ring(1, 0, 0, 0, [Slot(0, 0, 0, [])], map[], map[], CIdle, FIdle, false, [], {}, [])

  lemma StartReachable(u: Usage)
    ensures Reachable(u, START)
  {
    assert IsRun(u, [START]);
  }

  /** A one-slot ring between operations, with n tickets handed out and dealt with. */
  ghost predicate Calm(s: Ring, n: nat) {
    && s.cap == 1 && s.room == 0 && |s.slots| == 1 && s.slots[0].area == [] && s.slots[0].ready == 0
    && s.head == s.tail == n && s.consumer == CIdle && s.forcer == FIdle && !s.stopped
    && |s.sent| == |s.log| == n
    && (forall k :: k in s.committed ==> k < n)
    && CacheOf(s, 0) <= n
  }

  lemma ReserveHop(u: Usage, s: Ring, t: Ring, a: nat)
    requires Reachable(u, s) && Shaped(s) && ReserveStep(u, s, t, a)
    ensures Reachable(u, t)
  {
    hide Reachable, ReserveStep, Shaped;
    Produce(u, s, t, a);
  }

  /** The cached head is too old: load the head and store it in the cache. */
  lemma Refresh(u: Usage, s: Ring, a: nat, m: Msg, k: nat, n: nat) returns (t: Ring)
    requires Reachable(u, s) && Shaped(s) && !Full(s.cap, s.head, n) && PcOf(s, a) == AtFresh(m, k, n)
    ensures Reachable(u, t) && Moves(s, t, a, AtCas(m, k, n))
    ensures t == s.(caches := s.caches[k := s.head], producers := t.producers)
  {
    hide Reachable, Shaped, Full;
    var s1 := Go(s, a, AtRefresh(m, k, n, s.head));
    ReserveHop(u, s, s1, a);
    SameShape(s, s1);
    t := Go(s1.(caches := s1.caches[k := s.head]), a, AtCas(m, k, n));
    ReserveHop(u, s1, t, a);
  }

  /** From the size check to the CAS, refreshing the cached head if it says full and the ring is not. */
  lemma ToCas(u: Usage, s: Ring, a: nat, m: Msg, k: nat, n: nat) returns (t: Ring)
    requires Reachable(u, s) && Shaped(s) && !Full(s.cap, s.head, n) && PcOf(s, a) == AtCheck(m, k, n)
    ensures Reachable(u, t) && Moves(s, t, a, AtCas(m, k, n))
    ensures t == s.(caches := t.caches, producers := t.producers)
    ensures t.caches == s.caches || t.caches == s.caches[k := s.head]
  {
    hide Reachable, Shaped, Full;
    if Full(s.cap, CacheOf(s, k), n) {
      var s1 := Go(s, a, AtFresh(m, k, n));
      ReserveHop(u, s, s1, a);
      SameShape(s, s1);
      GoMoves(s, s1, a, AtFresh(m, k, n));
      t := Refresh(u, s1, a, m, k, n);
    } else {
      t := Go(s, a, AtCas(m, k, n));
      ReserveHop(u, s, t, a);
    }
  }

  lemma TakeTicket(u: Usage, s: Ring, a: nat, m: Msg, k: nat, n: nat) returns (t: Ring)
    requires Reachable(u, s) && Shaped(s) && s.tail == n && n + 1 < W && PcOf(s, a) == AtCas(m, k, n)
    ensures Reachable(u, t) && Moves(s, t, a, AtHeader(m, k, n))
    ensures t == s.(tail := n + 1, sent := s.sent + [m], producers := t.producers)
  {
    hide Reachable, Shaped;
    t := Go(s.(tail := n + 1, sent := s.sent + [m]), a, AtHeader(m, k, n));
    ReserveHop(u, s, t, a);
    GoMoves(s, t, a, AtHeader(m, k, n));
  }

  lemma MovesTwice(s: Ring, m: Ring, t: Ring, a: nat, p: ProducerPc)
    requires Moves(s, m, a, PcOf(m, a)) && Moves(m, t, a, p)
    ensures Moves(s, t, a, p)
  {
  }

  /** While the ring has room, a producer that runs alone gets the next ticket for any message that fits. */
  lemma ReserveAlone(u: Usage, s: Ring, a: nat, m: Msg, k: nat) returns (t: Ring)
    requires Reachable(u, s) && Shaped(s) && s.tail + 1 < W && !Full(s.cap, s.head, s.tail) && PcOf(s, a) == Idle
    requires Accepts(s.room, |m.body|) && (|m.body| >= LONG ==> u.long)
    ensures Reachable(u, t) && Moves(s, t, a, AtHeader(m, k, s.tail))
    ensures t == s.(tail := s.tail + 1, sent := s.sent + [m], caches := t.caches, producers := t.producers)
    ensures t.caches == s.caches || t.caches == s.caches[k := s.head]
  {
    var n := s.tail;
    var s1 := Go(s, a, AtCheck(m, k, n));
    assert ReserveStep(u, s, s1, a);
    GoMoves(s, s1, a, AtCheck(m, k, n));
    hide Reachable, Shaped, ReserveStep, Go, Full;
    ReserveHop(u, s, s1, a);
    SameShape(s, s1);
    var s2 := ToCas(u, s1, a, m, k, n);
    SameShape(s, s2);
    t := TakeTicket(u, s2, a, m, k, n);
    MovesTwice(s, s1, s2, a, AtCas(m, k, n));
    MovesTwice(s, s2, t, a, AtHeader(m, k, n));
  }

  /** Producer a takes ticket n and goes on to write its header. */
  lemma Reserve(u: Usage, s: Ring, n: nat, a: nat, tag: nat) returns (t: Ring)
    requires Reachable(u, s) && Calm(s, n) && n + 1 < W && PcOf(s, a) == Idle
    ensures Reachable(u, t) && Moves(s, t, a, AtHeader(Msg(tag, []), 0, n))
    ensures t == s.(tail := n + 1, sent := s.sent + [Msg(tag, [])], caches := t.caches, producers := t.producers)
    ensures CacheOf(t, 0) <= n
  {
    hide Reachable;
    t := ReserveAlone(u, s, a, Msg(tag, []), 0);
  }

  lemma WriteHop(u: Usage, s: Ring, t: Ring, a: nat)
    requires Reachable(u, s) && Shaped(s) && WriteStep(s, t, a) && !WasSkipped(s, PcOf(s, a).ticket)
    ensures Reachable(u, t)
  {
    hide Reachable, WriteStep, Shaped;
    Produce(u, s, t, a);
  }

  /** Header, and body if there is one. */
  lemma FillAlone(u: Usage, s: Ring, a: nat, m: Msg, k: nat, n: nat) returns (t: Ring)
    requires Reachable(u, s) && Shaped(s) && PcOf(s, a) == AtHeader(m, k, n) && |m.body| <= s.room && !WasSkipped(s, n)
    ensures Reachable(u, t) && Moves(s, t, a, AtCommit(m, k, n)) && Shaped(t)
    ensures t == s.(slots := t.slots, producers := t.producers)
    ensures t.slots == s.slots[n % s.cap :=
      Slot(At(s, n).ready, m.tag, |m.body|, Overlay(At(s, n).area, m.body))]
  {
    hide Reachable;
    var x := At(s, n);
    var s1 := Go(PutSlot(s, n, x.(tag := m.tag, len := |m.body|)), a,
                 if m.body == [] then AtCommit(m, k, n) else AtBody(m, k, n));
    WriteHop(u, s, s1, a);
    assert Overlay(x.area, []) == x.area;
    if m.body == [] {
      t := s1;
    } else {
      t := Go(PutSlot(s1, n, At(s1, n).(area := Overlay(x.area, m.body))), a, AtCommit(m, k, n));
      WriteHop(u, s1, t, a);
    }
  }

  /** A producer that runs alone from its ticket on puts its message into the slot and commits it. */
  lemma CommitAlone(u: Usage, s: Ring, a: nat, m: Msg, k: nat, n: nat) returns (t: Ring)
    requires Reachable(u, s) && Shaped(s) && PcOf(s, a) == AtHeader(m, k, n) && |m.body| <= s.room && !WasSkipped(s, n)
    requires n + 1 < W
    ensures Reachable(u, t) && Moves(s, t, a, Idle)
    ensures t == s.(slots := t.slots, committed := s.committed + {n}, producers := t.producers)
    ensures t.slots == s.slots[n % s.cap := Slot(n + 1, m.tag, |m.body|, Overlay(At(s, n).area, m.body))]
  {
    hide Reachable;
    var s1 := FillAlone(u, s, a, m, k, n);
    var s2 := Go(PutSlot(s1, n, At(s1, n).(ready := n + 1)).(committed := s1.committed + {n}), a, AtFlow(k));
    WriteHop(u, s1, s2, a);
    PutShaped(s1, n, At(s2, n));
    t := Go(s2, a, Idle);
    hide Shaped;
    Produce(u, s2, t, a);
    GoMoves(s1, t, a, Idle);
    MovesTwice(s, s1, t, a, Idle);
  }

  lemma Commit(u: Usage, s: Ring, a: nat, m: Msg, n: nat) returns (t: Ring)
    requires Reachable(u, s) && Shaped(s) && s.cap == 1 && s.room == 0 && n + 1 < W
    requires PcOf(s, a) == AtHeader(m, 0, n) && m.body == [] && !WasSkipped(s, n)
    ensures Reachable(u, t) && Moves(s, t, a, Idle)
    ensures t == s.(slots := [Slot(n + 1, m.tag, 0, [])], committed := s.committed + {n}, producers := t.producers)
  {
    hide Reachable;
    t := CommitAlone(u, s, a, m, 0, n);
    assert n % 1 == 0 && At(s, n).area == [] && Overlay([], m.body) == [];
    assert t.slots == [Slot(n + 1, m.tag, 0, [])];
  }

  /** The consumer takes the committed message in the slot of its head, whatever it now says. */
  lemma TakeAlone(u: Usage, s: Ring, h: nat) returns (t: Ring)
    requires Reachable(u, s) && Shaped(s) && s.head == h && h + 1 < W && s.consumer == CIdle && !s.stopped
    requires At(s, h).ready == h + 1 && At(s, h).len <= s.room
    ensures Reachable(u, t)
    ensures t == s.(head := h + 1, slots := s.slots[h % s.cap := At(s, h).(ready := 0)],
                    log := s.log + [Event(h, Delivered(Msg(At(s, h).tag, At(s, h).area[..At(s, h).len])))])
  {
    hide Reachable;
    var x := At(s, h);
    var s1 := s.(consumer := CLoaded(h));
    Consume(u, s, s1);
    var s2 := s1.(consumer := CHeader(h));
    Consume(u, s1, s2);
    var s3 := s2.(consumer := CCopy(h, x.len));
    Consume(u, s2, s3);
    var s4 := s3.(consumer := CReset(h, Delivered(Msg(x.tag, x.area[..x.len]))));
    Consume(u, s3, s4);
    t := DoneAlone(u, s4, h, s4.consumer.out);
  }

  /** ready_seq is cleared and the head moves on. */
  lemma DoneAlone(u: Usage, s: Ring, h: nat, out: Outcome) returns (t: Ring)
    requires Reachable(u, s) && Shaped(s) && h + 1 < W && s.consumer == CReset(h, out) && !s.stopped
    ensures Reachable(u, t)
    ensures t == s.(head := h + 1, slots := s.slots[h % s.cap := At(s, h).(ready := 0)], consumer := CIdle,
                    log := s.log + [Event(h, out)])
  {
    hide Reachable;
    var s1 := PutSlot(s, h, At(s, h).(ready := 0)).(consumer := CAdvance(h, out));
    Consume(u, s, s1);
    PutShaped(s, h, At(s, h).(ready := 0));
    t := s1.(head := h + 1, log := s1.log + [Event(h, out)], consumer := CIdle);
    Consume(u, s1, t);
  }

  lemma Take(u: Usage, s: Ring, n: nat) returns (t: Ring)
    requires Reachable(u, s) && Shaped(s) && s.cap == 1 && s.room == 0 && n + 1 < W
    requires s.head == n && s.consumer == CIdle && !s.stopped && s.slots[0].ready == n + 1 && s.slots[0].len == 0
    ensures Reachable(u, t)
    ensures t == s.(head := n + 1, slots := [s.slots[0].(ready := 0)],
                    log := s.log + [Event(n, Delivered(Msg(s.slots[0].tag, [])))])
  {
    hide Reachable;
    assert n % 1 == 0 && At(s, n) == s.slots[0];
    t := TakeAlone(u, s, n);
    assert t.slots == [t.slots[0]] && s.slots[0].area[..0] == [];
  }

  /** A ticket that was taken and whose slot does not name it comes to the consumer's second look. */
  lemma ExpireAlone(u: Usage, s: Ring, h: nat) returns (t: Ring)
    requires Reachable(u, s) && Shaped(s) && s.head == h < s.tail && h + 1 < W && s.consumer == CIdle && !s.stopped
    requires At(s, h).ready != h + 1
    ensures Reachable(u, t) && t == s.(consumer := CExpired(h))
  {
    hide Reachable;
    var s1 := s.(consumer := CLoaded(h));
    Consume(u, s, s1);
    var s2 := s1.(consumer := CProbe(h));
    Consume(u, s1, s2);
    var s3 := s2.(consumer := CStale(h));
    Consume(u, s2, s3);
    t := s3.(consumer := CExpired(h));
    Consume(u, s3, t);
  }

  /** The consumer finds ticket 0 reserved and not written for too long. */
  lemma SkipFirst(u: Usage, s: Ring) returns (t: Ring)
    requires Reachable(u, s) && Shaped(s) && s.cap == 1
    requires s.head == 0 && s.tail == 1 && s.consumer == CIdle && !s.stopped && s.slots[0].ready == 0 && s.log == []
    ensures Reachable(u, t) && t == s.(head := 1, log := [Event(0, Skipped)])
  {
    hide Reachable;
    var s1 := ExpireAlone(u, s, 0);
    var s2 := s1.(consumer := CReset(0, Skipped));
    Consume(u, s1, s2);
    t := DoneAlone(u, s2, 0, Skipped);
    assert t.slots == s.slots;
  }

  /** The skipped producer writes its header over the slot of ticket 1. */
  lemma LateHeader(u: Usage, s: Ring, tag: nat) returns (t: Ring)
    requires u.resume && Reachable(u, s) && Shaped(s) && s.cap == 1 && s.room == 0
    requires PcOf(s, 0) == AtHeader(Msg(tag, []), 0, 0)
    ensures Reachable(u, t) && PcOf(t, 0) == AtCommit(Msg(tag, []), 0, 0)
    ensures t == s.(slots := [s.slots[0].(tag := tag, len := 0)], producers := t.producers)
  {
    hide Reachable;
    t := Go(s.(slots := [s.slots[0].(tag := tag, len := 0)]), 0, AtCommit(Msg(tag, []), 0, 0));
    assert t.slots == s.slots[0 := s.slots[0].(tag := tag, len := 0)];
    Produce(u, s, t, 0);
  }

  /** A run in which ticket 1 is delivered with the header of ticket 0. */
  lemma LateWriterGarbles(u: Usage) returns (t: Ring)
    requires u.resume
    ensures Reachable(u, t) && Young(t)
    ensures t.sent == [Msg(1, []), Msg(2, [])]
    ensures t.log == [Event(0, Skipped), Event(1, Delivered(Msg(1, [])))]
  {
    hide Reachable;
    StartReachable(u);
    var s1 := Reserve(u, START, 0, 0, 1);
    var s2 := SkipFirst(u, s1);
    assert PcOf(s2, 1) == PcOf(START, 1) == Idle;
    var s3 := Reserve(u, s2, 1, 1, 2);
    assert PcOf(s3, 0) == PcOf(s2, 0);
    var s4 := Commit(u, s3, 1, Msg(2, []), 1);
    assert PcOf(s4, 0) == PcOf(s3, 0);
    var s5 := LateHeader(u, s4, 1);
    t := Take(u, s5, 1);
  }

  lemma Garbled(s: Ring, k: nat)
    requires k < |s.log| && k < |s.sent| && s.log[k].out.Delivered? && s.log[k].out.msg != s.sent[k]
    ensures !Intact(s)
  {
  }

  // ---- a body the size check takes for a short one ---------------------------------------------------

  /** All zeros, but for the byte that lands in the next entry's ready_seq. */
  const LONG_MSG := Msg(1, seq(LONG, i => if i == 40 then 2 else 0))

  /** An empty ring of two slots for messages with no body. */
  const TWO := Ring(2, 0, 0, 0, [Slot(0, 0, 0, []), Slot(0, 0, 0, [])], map[], map[], CIdle, FIdle, false, [], {}, [])

  lemma LongMsg()
    ensures |LONG_MSG.body| == LONG && LONG_MSG.tag == 1 && Behind(1, 0) == 40
    ensures EntryAt(LONG_MSG.body, 40, 0) == Slot(2, 0, 0, [])
  {
    var b := LONG_MSG.body;
    assert b[40] == 2 && forall i :: 41 <= i < 64 ==> b[i] == 0;
  }

  lemma LongAsks(u: Usage, m: Msg) returns (t: Ring)
    requires u.long && |m.body| == LONG
    ensures Reachable(u, t) && t == Go(TWO, 0, AtCheck(m, 0, 0))
  {
    assert IsRun(u, [TWO]);
    t := Go(TWO, 0, AtCheck(m, 0, 0));
    hide Reachable;
    ReserveHop(u, TWO, t, 0);
  }

  /** The long message gets ticket 0. */
  lemma LongReserve(u: Usage, m: Msg) returns (t: Ring)
    requires u.long && |m.body| == LONG
    ensures Reachable(u, t) && Moves(TWO, t, 0, AtHeader(m, 0, 0))
    ensures t == TWO.(tail := 1, sent := [m], producers := t.producers)
  {
    hide Reachable;
    var s1 := LongAsks(u, m);
    var s2 := Go(s1, 0, AtCas(m, 0, 0));
    ReserveHop(u, s1, s2, 0);
    SameShape(s1, s2);
    t := TakeTicket(u, s2, 0, m, 0, 0);
  }

  /** Its bytes run over the next slot, whatever that held, and spell a new entry there. */
  lemma LongWrite(u: Usage, s: Ring, m: Msg, x: Slot) returns (t: Ring)
    requires |m.body| == LONG && m.tag == 1 && PcOf(s, 0) == AtHeader(m, 0, 0) && !WasSkipped(s, 0)
    requires Behind(1, 0) == 40 && EntryAt(m.body, 40, 0) == x
    requires Reachable(u, s) && Shaped(s) && s.cap == 2 && s.room == 0 && s.slots[0] == Slot(0, 0, 0, [])
    ensures Reachable(u, t)
    ensures t == s.(slots := [Slot(1, 1, LONG, []), x], committed := s.committed + {0}, producers := t.producers)
  {
    hide Reachable;
    var s1 := Go(s.(slots := [Slot(0, 1, LONG, []), s.slots[1]]), 0, AtBody(m, 0, 0));
    assert s1.slots == s.slots[0 := s.slots[0].(tag := 1, len := LONG)];
    WriteHop(u, s, s1, 0);
    var s2 := Go(s1.(slots := [Slot(0, 1, LONG, []), x]), 0, AtCommit(m, 0, 0));
    assert Overran(s1, s2.slots, 0, m.body) by { assert m.body[..0] == []; }
    WriteHop(u, s1, s2, 0);
    t := Go(s2.(slots := [Slot(1, 1, LONG, []), x], committed := s2.committed + {0}), 0, AtFlow(0));
    assert t.slots == s2.slots[0 := s2.slots[0].(ready := 1)];
    WriteHop(u, s2, t, 0);
  }

  /** The consumer finds a length beyond the entry and throws the message away. */
  lemma LongRead(u: Usage, s: Ring, x: Slot) returns (t: Ring)
    requires Reachable(u, s) && s.cap == 2 && s.room == 0 && s.head == 0 && s.consumer == CIdle && !s.stopped
    requires s.slots == [Slot(1, 1, LONG, []), x] && x.area == []
    ensures Reachable(u, t)
    ensures t == s.(head := 1, slots := [Slot(0, 1, LONG, []), x], log := s.log + [Event(0, Corrupt)])
  {
    hide Reachable;
    assert Shaped(s) && At(s, 0) == s.slots[0];
    var s1 := s.(consumer := CLoaded(0));
    Consume(u, s, s1);
    var s2 := s1.(consumer := CHeader(0));
    Consume(u, s1, s2);
    var s3 := s2.(consumer := CReset(0, Corrupt));
    Consume(u, s2, s3);
    t := DoneAlone(u, s3, 0, Corrupt);
    assert t.slots == [Slot(0, 1, LONG, []), x];
  }

  /**
  One body of 2^32 - 16 bytes passes the size check: its own message is lost as
  corrupt, and the consumer goes on to read ticket 1, which nobody ever took.
  */
  lemma LongBodyOverruns(u: Usage) returns (t: Ring)
    requires u.long
    ensures Reachable(u, t) && t.sent == [LONG_MSG] && t.log == [Event(0, Corrupt)]
    ensures t.committed == {0} && t.consumer == CHeader(1)
  {
    LongMsg();
    hide Reachable;
    var s1 := LongReserve(u, LONG_MSG);
    var s2 := LongWrite(u, s1, LONG_MSG, Slot(2, 0, 0, []));
    assert s2.committed == {0};
    var s3 := LongRead(u, s2, Slot(2, 0, 0, []));
    assert Shaped(s3) && At(s3, 1) == s3.slots[1];
    var s4 := s3.(consumer := CLoaded(1));
    Consume(u, s3, s4);
    t := s4.(consumer := CHeader(1));
    Consume(u, s4, t);
  }

  // ---- exactly when ------------------------------------------------------------------------------------

  /** Payloads are intact in every run if and only if skipped producers stay away and no body is LONG. */
  lemma IntegrityExactly(u: Usage)
    ensures (forall s :: Reachable(u, s) && Young(s) ==> Intact(s)) <==> !u.resume && !u.long
  {
    if u.long {
      var t := LongBodyOverruns(u);
      assert !Faithful(t, 0, t.log[0].out);
    } else if u.resume {
      var t := LateWriterGarbles(u);
      Garbled(t, 1);
    } else {
      hide Intact;
      forall s | Reachable(u, s) && Young(s) ensures Intact(s) {
        var run :| IsRun(u, run) && run[|run| - 1] == s;
        PayloadIntact(u, run, |run| - 1);
      }
    }
  }

  lemma {:induction false} RunShort(u: Usage, run: seq<Ring>, i: nat)
    requires !u.long && IsRun(u, run) && i < |run|
    ensures Short(run[i]) && forall a :: HasMsg(PcOf(run[i], a)) ==> |PcOf(run[i], a).msg.body| < LONG
    decreases i
  {
    hide Next, Short;
    if i == 0 {
      assert forall a :: PcOf(run[0], a) == Idle;
      assert Short(run[0]) by { NoneShort(run[0]); }
    } else {
      RunShort(u, run, i - 1);
      StepShort(u, run[i - 1], run[i]);
    }
  }

  lemma NoneShort(s: Ring)
    requires s.sent == []
    ensures Short(s)
  {
  }

  lemma ReserveShort(u: Usage, s: Ring, t: Ring, a: nat)
    requires !u.long && ReserveStep(u, s, t, a)
    requires Short(s) && (HasMsg(PcOf(s, a)) ==> |PcOf(s, a).msg.body| < LONG)
    ensures Short(t) && (HasMsg(PcOf(t, a)) ==> |PcOf(t, a).msg.body| < LONG)
    ensures t.producers == s.producers[a := PcOf(t, a)]
  {
    hide Full, Short, Accepts;
    MoreShort(s, t, if HasMsg(PcOf(s, a)) then PcOf(s, a).msg else Msg(0, []));
  }

  lemma MoreShort(s: Ring, t: Ring, m: Msg)
    requires Short(s) && (t.sent == s.sent || t.sent == s.sent + [m]) && |m.body| < LONG
    ensures Short(t)
  {
  }

  lemma WriteShort(s: Ring, t: Ring, a: nat)
    requires Shaped(s) && WriteStep(s, t, a) && (HasMsg(PcOf(s, a)) ==> |PcOf(s, a).msg.body| < LONG)
    ensures t.sent == s.sent && (HasMsg(PcOf(t, a)) ==> |PcOf(t, a).msg.body| < LONG)
    ensures t.producers == s.producers[a := PcOf(t, a)]
  {
    hide Overran, Shaped;
  }

  lemma ProducerShort(u: Usage, s: Ring, t: Ring, a: nat)
    requires !u.long && Shaped(s) && ProducerStep(u, s, t, a)
    requires Short(s) && (HasMsg(PcOf(s, a)) ==> |PcOf(s, a).msg.body| < LONG)
    ensures Short(t) && (HasMsg(PcOf(t, a)) ==> |PcOf(t, a).msg.body| < LONG)
    ensures t.producers == s.producers[a := PcOf(t, a)]
  {
    hide ReserveStep, WriteStep, Shaped;
    if ReserveStep(u, s, t, a) { ReserveShort(u, s, t, a); }
    else if WriteStep(s, t, a) { WriteShort(s, t, a); }
  }

  lemma StepShort(u: Usage, s: Ring, t: Ring)
    requires !u.long && Next(u, s, t)
    requires Short(s) && forall a :: HasMsg(PcOf(s, a)) ==> |PcOf(s, a).msg.body| < LONG
    ensures Short(t) && forall a :: HasMsg(PcOf(t, a)) ==> |PcOf(t, a).msg.body| < LONG
  {
    hide ProducerStep, Shaped;
    if a :| ProducerStep(u, s, t, a) {
      ProducerShort(u, s, t, a);
      GoMoves(s, t, a, PcOf(t, a));
    } else {
      assert t.producers == s.producers && t.sent == s.sent;
      assert forall a :: PcOf(t, a) == PcOf(s, a);
    }
  }

  /** Order, capacity and commits are kept in every run if and only if no body is LONG. */
  lemma OrderExactly(u: Usage)
    ensures (forall s :: Reachable(u, s) && Young(s) ==> Ordered(s)) <==> !u.long
  {
    if u.long {
      var t := LongBodyOverruns(u);
      assert !Ordered(t);
    } else {
      hide Ordered;
      forall s | Reachable(u, s) && Young(s) ensures Ordered(s) {
        var run :| IsRun(u, run) && run[|run| - 1] == s;
        RunShort(u, run, |run| - 1);
        RingOrder(u, run, |run| - 1);
      }
    }
  }

  // ---- the end of the 64-bit counters ----------------------------------------------------------------

  lemma Round(u: Usage, s: Ring, n: nat) returns (t: Ring)
    requires Reachable(u, s) && Calm(s, n) && n + 1 < W && PcOf(s, 0) == Idle
    requires forall e :: e in s.log ==> e.out.Delivered?
    ensures Reachable(u, t) && Calm(t, n + 1) && PcOf(t, 0) == Idle
    ensures forall e :: e in t.log ==> e.out.Delivered?
  {
    hide Reachable;
    var s1 := Reserve(u, s, n, 0, 0);
    var s2 := Commit(u, s1, 0, Msg(0, []), n);
    t := Take(u, s2, n);
  }

  lemma {:induction false} ManyRounds(u: Usage, n: nat) returns (t: Ring)
    requires n < W
    ensures Reachable(u, t) && Calm(t, n) && PcOf(t, 0) == Idle
    ensures forall e :: e in t.log ==> e.out.Delivered?
    decreases n
  {
    assert Calm(START, 0);
    hide Reachable, Calm;
    if n == 0 {
      StartReachable(u);
      t := START;
    } else {
      var s := ManyRounds(u, n - 1);
      t := Round(u, s, n - 1);
    }
  }

  /** The consumer reads only slots committed under its head. */
  predicate ReadsCommitted(s: Ring) { s.consumer.CHeader? ==> s.consumer.head in s.committed }

  /** After 2^64 - 1 tickets the expected ready_seq wraps to 0, the value of an empty slot. */
  lemma WrapReadsEmpty(u: Usage) returns (t: Ring)
    ensures Reachable(u, t) && |t.sent| == W - 1 && !ReadsCommitted(t)
  {
    hide Reachable;
    var s := ManyRounds(u, W - 1);
    assert Shaped(s) && At(s, W - 1) == s.slots[0];
    var s1 := s.(consumer := CLoaded(W - 1));
    Consume(u, s, s1);
    t := s1.(consumer := CHeader(W - 1));
    Consume(u, s1, t);
  }

  /** How many tickets a ring may hand out before the consumer could take another's slot for a message. */
  lemma WrapExactly(u: Usage, n: nat)
    ensures (forall s :: Reachable(u, s) && |s.sent| <= n ==> ReadsCommitted(s)) <==> n < W - 1 && (n == 0 || !u.long)
  {
    if n >= W - 1 {
      var t := WrapReadsEmpty(u);
    } else if n > 0 && u.long {
      var t := LongBodyOverruns(u);
      assert !ReadsCommitted(t);
    } else {
      forall s | Reachable(u, s) && |s.sent| <= n ensures ReadsCommitted(s) {
        var run :| IsRun(u, run) && run[|run| - 1] == s;
        if !u.long { RunShort(u, run, |run| - 1); }
        RingOrder(u, run, |run| - 1);
      }
    }
  }
}
