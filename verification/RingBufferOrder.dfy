/**
What every run of the ring keeps: the ring never holds more than its capacity,
the 64-bit counters never wrap, tickets leave in order and once each, and a
commit counts only for its own ticket.
*/
module RingBufferOrder {
  import opened Modular
  import opened RingBuffer

  // ---- the invariant ----------------------------------------------------------------------

  predicate Counters(s: Ring) {
    && |s.log| <= |s.sent| == s.tail <= |s.log| + s.cap && s.tail < W
    && forall i :: 0 <= i < |s.log| ==> s.log[i].ticket == i
  }

  /** A head value under which no producer takes a ticket past the real bound. */
  predicate Bounded(s: Ring, head: nat) { (head + s.cap) % W <= |s.log| + s.cap }

  predicate HeadOk(s: Ring) {
    && (!s.forcer.FIdle? ==> s.stopped)
    && (s.forcer.FLoaded? ==> s.forcer.tail <= s.tail)
    && (s.forcer.FDone? ==> Bounded(s, s.head))
    && (!s.forcer.FDone? ==> s.head == |s.log|)
  }

  predicate CachesOk(s: Ring) {
    (forall k :: k in s.caches ==> Bounded(s, s.caches[k])) && Bounded(s, 0)
  }

  predicate Writing(p: ProducerPc) { p.AtHeader? || p.AtBody? || p.AtCommit? }

  predicate HasMsg(p: ProducerPc) { !p.Idle? && !p.AtFlow? && !p.AtFlowRefresh? }

  predicate ProducerOk(s: Ring, p: ProducerPc) {
    (HasMsg(p) ==> Accepts(s.room, |p.msg.body|)) &&
    match p
    case AtRefresh(_, _, _, head) => Bounded(s, head)
    case AtFlowRefresh(_, head) => Bounded(s, head)
    case AtCas(_, _, tail) => tail < |s.log| + s.cap && tail + 1 < W
    case AtHeader(msg, _, k) => k < |s.sent| && s.sent[k] == msg && k !in s.committed
    case AtBody(msg, _, k) => k < |s.sent| && s.sent[k] == msg && k !in s.committed
    case AtCommit(msg, _, k) => k < |s.sent| && s.sent[k] == msg && k !in s.committed
    case _ => true
  }

  ghost predicate ProducersOk(s: Ring) {
    && (forall a :: ProducerOk(s, PcOf(s, a)))
    && (forall a, b :: a != b && Writing(PcOf(s, a)) && Writing(PcOf(s, b)) ==> PcOf(s, a).ticket != PcOf(s, b).ticket)
  }

  /** A nonzero ready_seq names a committed ticket of its own slot. */
  predicate ReadyOk(s: Ring)
    requires Shaped(s)
  {
    && (forall k :: k in s.committed ==> k < |s.sent|)
    && forall j :: 0 <= j < s.cap && s.slots[j].ready != 0 ==>
         s.slots[j].ready - 1 in s.committed && (s.slots[j].ready - 1) % s.cap == j
  }

  predicate OutcomeOk(s: Ring, h: nat, out: Outcome) { h < |s.sent| && (!out.Skipped? ==> h in s.committed) }

  predicate ConsumerOk(s: Ring) {
    && (s.stopped ==> s.consumer.CIdle?)
    && match s.consumer
       case CIdle => true
       case CLoaded(h) => h == |s.log|
       case CHeader(h) => h == |s.log| && h in s.committed
       case CCopy(h, _) => h == |s.log| && h in s.committed
       case CReset(h, out) => h == |s.log| && OutcomeOk(s, h, out)
       case CAdvance(h, out) => h == |s.log| && OutcomeOk(s, h, out)
       case CProbe(h) => h == |s.log|
       case CStale(h) => h == |s.log| < |s.sent|
       case CExpired(h) => h == |s.log| < |s.sent|
  }

  predicate LogOk(s: Ring) { forall i :: 0 <= i < |s.log| ==> OutcomeOk(s, i, s.log[i].out) }

  ghost predicate Inv(s: Ring) {
    Shaped(s) && Counters(s) && HeadOk(s) && CachesOk(s) && ProducersOk(s) && ReadyOk(s) && ConsumerOk(s) && LogOk(s)
  }

  /** Fewer than 2^64 - 1 tickets were ever handed out; the next ready_seq is not the empty value 0. */
  predicate Young(s: Ring) { |s.sent| < W - 1 }

  /** Every message that was given a ticket has a body below LONG. */
  predicate Short(s: Ring) { forall k :: 0 <= k < |s.sent| ==> |s.sent[k].body| < LONG }

  // ---- frames -------------------------------------------------------------------------------

  /** History only grows. */
  predicate Grows(s: Ring, t: Ring) {
    t.cap == s.cap && t.room == s.room && s.sent <= t.sent && s.log <= t.log && s.committed <= t.committed
  }

  lemma BoundedGrows(s: Ring, t: Ring, head: nat)
    requires Grows(s, t) && Bounded(s, head)
    ensures Bounded(t, head)
  {
  }

  lemma CachesGrow(s: Ring, t: Ring)
    requires Grows(s, t) && CachesOk(s) && t.caches == s.caches
    ensures CachesOk(t)
  {
  }

  lemma ProducerGrows(s: Ring, t: Ring, p: ProducerPc)
    requires Grows(s, t) && ProducerOk(s, p) && (Writing(p) ==> p.ticket !in t.committed)
    ensures ProducerOk(t, p)
  {
  }

  /** One producer moves; the rest keep their places. */
  ghost predicate Moves(s: Ring, t: Ring, a: nat, p: ProducerPc) {
    PcOf(t, a) == p && forall b :: b != a ==> PcOf(t, b) == PcOf(s, b)
  }

  lemma GoMoves(s: Ring, t: Ring, a: nat, p: ProducerPc)
    requires t.producers == s.producers[a := p]
    ensures Moves(s, t, a, p)
  {
  }

  lemma ProducersMove(s: Ring, t: Ring, a: nat, p: ProducerPc)
    requires ProducersOk(s) && Grows(s, t) && Moves(s, t, a, p) && ProducerOk(t, p)
    requires forall k :: k in t.committed && k !in s.committed ==> Writing(PcOf(s, a)) && PcOf(s, a).ticket == k
    requires Writing(p) ==> (Writing(PcOf(s, a)) && PcOf(s, a).ticket == p.ticket) || p.ticket >= |s.sent|
    ensures ProducersOk(t)
  {
    hide Grows, ProducerOk;
    forall b ensures ProducerOk(t, PcOf(t, b)) {
      if b != a {
        assert ProducerOk(s, PcOf(s, b));
        WritingBelow(s, PcOf(s, b));
        assert Writing(PcOf(s, b)) ==> PcOf(s, b).ticket !in t.committed;
        ProducerGrows(s, t, PcOf(s, b));
      }
    }
    forall b, c | b != c && Writing(PcOf(t, b)) && Writing(PcOf(t, c)) ensures PcOf(t, b).ticket != PcOf(t, c).ticket {
      WritingBelow(s, PcOf(s, b));
      WritingBelow(s, PcOf(s, c));
    }
  }

  lemma WritingBelow(s: Ring, p: ProducerPc)
    requires ProducerOk(s, p)
    ensures Writing(p) ==> p.ticket < |s.sent| && p.ticket !in s.committed && s.sent[p.ticket] == p.msg
  {
  }

  lemma ProducersStay(s: Ring, t: Ring)
    requires ProducersOk(s) && Grows(s, t) && t.producers == s.producers && t.committed == s.committed
    ensures ProducersOk(t)
  {
    hide Grows, ProducerOk;
    assert forall b :: PcOf(t, b) == PcOf(s, b);
    forall b ensures ProducerOk(t, PcOf(t, b)) {
      assert ProducerOk(s, PcOf(s, b));
      WritingBelow(s, PcOf(s, b));
      ProducerGrows(s, t, PcOf(s, b));
    }
  }

  /** A step that only moves a producer and perhaps refreshes a cached head. */
  lemma QuietProducer(s: Ring, t: Ring, a: nat, p: ProducerPc, caches: map<nat, nat>)
    requires Inv(s) && t == Go(s.(caches := caches), a, p) && ProducerOk(s, p) && !Writing(p) &&
      CachesOk(s.(caches := caches))
    ensures Inv(t)
  {
    hide Shaped, Counters, HeadOk, CachesOk, ProducersOk, ProducerOk, ReadyOk, ConsumerOk, LogOk;
    QuietRest(s, t);
    CachesGrow(s.(caches := caches), t);
    ProducerGrows(s, t, p);
    GoMoves(s, t, a, p);
    ProducersMove(s, t, a, p);
  }

  /** What does not depend on the producers or their cached heads. */
  lemma QuietRest(s: Ring, t: Ring)
    requires Shaped(s) && Counters(s) && HeadOk(s) && ReadyOk(s) && ConsumerOk(s) && LogOk(s)
    requires t == s.(caches := t.caches, producers := t.producers)
    ensures Shaped(t) && Counters(t) && HeadOk(t) && ReadyOk(t) && ConsumerOk(t) && LogOk(t)
  {
  }

  // ---- producer steps -----------------------------------------------------------------------

  lemma FullMeans(s: Ring, head: nat, tail: nat)
    requires Bounded(s, head) && !Full(s.cap, head, tail)
    ensures tail < |s.log| + s.cap && tail + 1 < W
  {
  }

  lemma HeadBounded(s: Ring)
    requires HeadOk(s)
    ensures Bounded(s, s.head)
  {
  }

  lemma CacheBounded(s: Ring, k: nat)
    requires CachesOk(s)
    ensures Bounded(s, CacheOf(s, k))
  {
  }

  lemma RefreshCaches(s: Ring, k: nat, head: nat)
    requires CachesOk(s) && Bounded(s, head)
    ensures CachesOk(s.(caches := s.caches[k := head]))
  {
  }

  lemma RefreshKeeps(u: Usage, s: Ring, t: Ring, a: nat)
    requires Inv(s) && ReserveStep(u, s, t, a) && PcOf(s, a).AtRefresh?
    ensures Inv(t)
  {
    hide Bounded, Full, HeadOk, CachesOk, Counters, ProducersOk, ReadyOk, ConsumerOk, LogOk, Shaped;
    ProducerAt(s, a);
    var p := PcOf(s, a);
    RefreshCaches(s, p.cache, p.head);
    if !Full(s.cap, p.head, p.tail) { FullMeans(s, p.head, p.tail); }
    QuietProducer(s, t, a, PcOf(t, a), s.caches[p.cache := p.head]);
  }

  lemma ReserveKeeps(u: Usage, s: Ring, t: Ring, a: nat)
    requires Inv(s) && ReserveStep(u, s, t, a) && t.tail == s.tail
    ensures Inv(t)
  {
    hide Bounded, Full, HeadOk, CachesOk, Counters, ProducersOk, ReadyOk, ConsumerOk, LogOk, Shaped;
    assert ProducerOk(s, PcOf(s, a)) by { ProducerAt(s, a); }
    HeadBounded(s);
    match PcOf(s, a)
    case Idle =>
      QuietProducer(s, t, a, PcOf(t, a), s.caches);
    case AtCheck(msg, k, tail) =>
      CacheBounded(s, k);
      if !Full(s.cap, CacheOf(s, k), tail) { FullMeans(s, CacheOf(s, k), tail); }
      QuietProducer(s, t, a, PcOf(t, a), s.caches);
    case AtFresh(msg, k, tail) =>
      QuietProducer(s, t, a, PcOf(t, a), s.caches);
    case AtRefresh(msg, k, tail, head) =>
      RefreshKeeps(u, s, t, a);
    case AtCas(msg, k, tail) =>
      TailMoves(u, s, t, a);
      QuietProducer(s, t, a, PcOf(t, a), s.caches);
    case _ =>
  }

  lemma ProducerAt(s: Ring, a: nat)
    requires ProducersOk(s)
    ensures ProducerOk(s, PcOf(s, a))
  {
  }

  /** At AtCas with the tail unchanged, the CAS failed. */
  lemma TailMoves(u: Usage, s: Ring, t: Ring, a: nat)
    requires ReserveStep(u, s, t, a) && PcOf(s, a).AtCas? && t.tail == s.tail && ProducerOk(s, PcOf(s, a))
    ensures t == Go(s, a, AtCheck(PcOf(s, a).msg, PcOf(s, a).cache, s.tail))
  {
  }

  /** The CAS on tail: the ticket is new and within the capacity. */
  lemma TakeKeeps(u: Usage, s: Ring, t: Ring, a: nat)
    requires Inv(s) && ReserveStep(u, s, t, a) && t.tail != s.tail
    ensures Inv(t)
  {
    hide CachesOk, ReadyOk, LogOk, ProducersOk, Full;
    ProducerAt(s, a);
    var p := PcOf(s, a);
    assert p.AtCas? && t == Go(s.(tail := p.tail + 1, sent := s.sent + [p.msg]), a, AtHeader(p.msg, p.cache, p.tail));
    CachesGrow(s, t);
    GoMoves(s, t, a, AtHeader(p.msg, p.cache, p.tail));
    assert p.tail !in s.committed by { assert ReadyOk(s); CommittedBelow(s, p.tail); }
    ProducersMove(s, t, a, AtHeader(p.msg, p.cache, p.tail));
    HistoryStays(s, t);
  }

  lemma CommittedBelow(s: Ring, k: nat)
    requires Shaped(s) && ReadyOk(s) && k >= |s.sent|
    ensures k !in s.committed
  {
  }

  lemma HistoryStays(s: Ring, t: Ring)
    requires Shaped(s) && Shaped(t) && ReadyOk(s) && LogOk(s)
    requires Grows(s, t) && t.committed == s.committed && t.slots == s.slots && t.log == s.log
    ensures ReadyOk(t) && LogOk(t)
  {
  }

  lemma PutShaped(s: Ring, ticket: nat, x: Slot)
    requires Shaped(s) && |x.area| == s.room
    ensures Shaped(PutSlot(s, ticket, x))
  {
  }

  lemma PutReady(s: Ring, t: Ring, ticket: nat)
    requires Shaped(s) && Shaped(t) && ReadyOk(s) && Grows(s, t) && t.slots == s.slots[ticket % s.cap := At(t, ticket)]
    requires forall k :: k in t.committed ==> k < |t.sent|
    requires At(t, ticket).ready in {0, At(s, ticket).ready} ||
      (At(t, ticket).ready == ticket + 1 && ticket in t.committed)
    ensures ReadyOk(t)
  {
  }

  /** A write changes one slot; a commit also adds the ticket to the committed ones. */
  ghost predicate Wrote(s: Ring, t: Ring, a: nat, p: ProducerPc, q: ProducerPc)
    requires Shaped(s) && Writing(p)
  {
    && t == Go(s.(slots := t.slots, committed := t.committed), a, q)
    && |t.slots| == s.cap && |At(t, p.ticket).area| == s.room
    && t.slots == s.slots[p.ticket % s.cap := At(t, p.ticket)]
    && if q.AtFlow? then t.committed == s.committed + {p.ticket} && At(t, p.ticket).ready == (p.ticket + 1) % W
       else t.committed == s.committed && At(t, p.ticket).ready == At(s, p.ticket).ready
            && Writing(q) && q.ticket == p.ticket && q.msg == p.msg
  }

  /** A short body that passed the size check fits. */
  lemma ShortFits(s: Ring, p: ProducerPc)
    requires ProducerOk(s, p) && Short(s) && Writing(p)
    ensures |p.msg.body| <= s.room
  {
    assert |s.sent[p.ticket].body| < LONG;
  }

  lemma WriteIsWrote(s: Ring, t: Ring, a: nat)
    requires Shaped(s) && WriteStep(s, t, a) && (Writing(PcOf(s, a)) ==> |PcOf(s, a).msg.body| <= s.room)
    ensures Writing(PcOf(s, a)) && Wrote(s, t, a, PcOf(s, a), PcOf(t, a))
  {
  }

  lemma WroteProducers(s: Ring, t: Ring, a: nat, p: ProducerPc, q: ProducerPc)
    requires Shaped(s) && ProducersOk(s) && PcOf(s, a) == p && Writing(p) && Wrote(s, t, a, p, q)
    ensures ProducersOk(t)
  {
    hide ProducersOk, Shaped;
    ProducerAt(s, a);
    WritingBelow(s, p);
    assert ProducerOk(t, q);
    GoMoves(s, t, a, q);
    ProducersMove(s, t, a, q);
  }

  lemma WroteReady(s: Ring, t: Ring, a: nat, p: ProducerPc, q: ProducerPc)
    requires Shaped(s) && ReadyOk(s) && Writing(p) && p.ticket < |s.sent| < W && Wrote(s, t, a, p, q)
    ensures Shaped(t) && ReadyOk(t)
  {
    PutShaped(s, p.ticket, At(t, p.ticket));
    CommittedAll(s, p.ticket);
    hide ReadyOk;
    PutReady(s, t, p.ticket);
  }

  lemma WriteKeeps(s: Ring, t: Ring, a: nat)
    requires Inv(s) && Short(s) && WriteStep(s, t, a)
    ensures Inv(t)
  {
    hide CachesOk, ReadyOk, LogOk, ProducersOk, Bounded, WriteStep, Shaped;
    var p, q := PcOf(s, a), PcOf(t, a);
    ProducerAt(s, a);
    if Writing(p) { ShortFits(s, p); }
    WriteIsWrote(s, t, a);
    WritingBelow(s, p);
    WroteProducers(s, t, a, p, q);
    WroteReady(s, t, a, p, q);
    CachesGrow(s, t);
    LogGrows(s, t);
    HeadBounded(s);
    BoundedGrows(s, t, s.head);
  }

  lemma CommittedAll(s: Ring, ticket: nat)
    requires Shaped(s) && ReadyOk(s) && ticket < |s.sent|
    ensures forall k :: k in s.committed + {ticket} ==> k < |s.sent|
  {
  }

  lemma LogGrows(s: Ring, t: Ring)
    requires LogOk(s) && Grows(s, t) && t.log == s.log
    ensures LogOk(t)
  {
  }

  lemma FlowKeeps(s: Ring, t: Ring, a: nat)
    requires Inv(s) && FlowStep(s, t, a)
    ensures Inv(t)
  {
    hide Bounded, HeadOk, CachesOk, Counters, ProducersOk, ReadyOk, ConsumerOk, LogOk, Shaped;
    ProducerAt(s, a);
    HeadBounded(s);
    if PcOf(s, a).AtFlowRefresh? {
      RefreshCaches(s, PcOf(s, a).cache, PcOf(s, a).head);
      QuietProducer(s, t, a, PcOf(t, a), t.caches);
    } else {
      QuietProducer(s, t, a, PcOf(t, a), s.caches);
    }
  }

  // ---- consumer steps -----------------------------------------------------------------------

  /** ready_seq of the head's slot equal to head + 1 means the head's own ticket was committed. */
  lemma ReadyIsOwn(s: Ring, h: nat)
    requires Shaped(s) && Counters(s) && ReadyOk(s) && h == |s.log| && At(s, h).ready == (h + 1) % W && h + 1 < W
    ensures h in s.committed
  {
    assert 0 <= h % s.cap < s.cap;
  }

  lemma QuietConsumer(s: Ring, t: Ring, c: ConsumerPc)
    requires Inv(s) && t == s.(consumer := c) && ConsumerOk(t)
    ensures Inv(t)
  {
    ProducersStay(s, t);
  }

  lemma LookKeeps(s: Ring, t: Ring)
    requires Inv(s) && Young(s) && ConsumerStep(s, t) && !s.consumer.CReset? && !s.consumer.CAdvance?
    ensures Inv(t)
  {
    hide CachesOk, LogOk, ProducersOk, Bounded;
    if s.consumer.CLoaded? && At(s, s.consumer.head).ready == (s.consumer.head + 1) % W {
      ReadyIsOwn(s, s.consumer.head);
    }
    hide ReadyOk;
    assert s.consumer.CHeader? ==> OutcomeOk(s, s.consumer.head, Corrupt) by { CommittedSent(s); }
    assert s.consumer.CCopy? ==> s.consumer.head < |s.sent| by { CommittedSent(s); }
    QuietConsumer(s, t, t.consumer);
  }

  lemma CommittedSent(s: Ring)
    requires Shaped(s) && ReadyOk(s)
    ensures forall k :: k in s.committed ==> k < |s.sent|
  {
  }

  lemma ResetKeeps(s: Ring, t: Ring)
    requires Inv(s) && ConsumerStep(s, t) && s.consumer.CReset?
    ensures Inv(t)
  {
    hide CachesOk, ReadyOk, ProducersOk, Bounded;
    var h := s.consumer.head;
    CommittedSent(s);
    PutShaped(s, h, At(s, h).(ready := 0));
    PutReady(s, t, h);
    CachesGrow(s, t);
    ProducersStay(s, t);
  }

  lemma AdvanceKeeps(s: Ring, t: Ring)
    requires Inv(s) && ConsumerStep(s, t) && s.consumer.CAdvance?
    ensures Inv(t)
  {
    hide CachesOk, ReadyOk, ProducersOk, Bounded;
    CachesGrow(s, t);
    ProducersStay(s, t);
    assert ReadyOk(t) by { ReadySame(s, t); }
    assert s.consumer.head + 1 < W;
  }

  lemma ReadySame(s: Ring, t: Ring)
    requires Shaped(s) && Shaped(t) && ReadyOk(s)
    requires t.slots == s.slots && t.cap == s.cap && t.committed == s.committed && t.sent == s.sent
    ensures ReadyOk(t)
  {
  }

  lemma ConsumerKeeps(s: Ring, t: Ring)
    requires Inv(s) && Young(s) && ConsumerStep(s, t)
    ensures Inv(t)
  {
    hide Inv, ConsumerStep;
    if s.consumer.CReset? { ResetKeeps(s, t); }
    else if s.consumer.CAdvance? { AdvanceKeeps(s, t); }
    else { LookKeeps(s, t); }
  }

  // ---- shutdown --------------------------------------------------------------------------------

  /** The forged head makes the ring look full at the tail that was read. */
  lemma ForgedBounded(s: Ring, tail: nat)
    requires Shaped(s) && tail <= |s.log| + s.cap && tail < W
    ensures Bounded(s, (tail - s.cap) % W)
  {
    Forged(tail, s.cap, W);
  }

  lemma Forged(tail: nat, cap: nat, w: nat)
    requires tail < w
    ensures ((tail - cap) % w + cap) % w == tail
  {
    ModAdd(tail - cap, cap, w);
    ModIs(tail, 0, tail, w);
  }

  lemma ForceKeeps(s: Ring, t: Ring)
    requires Inv(s) && ForceStep(s, t)
    ensures Inv(t)
  {
    hide CachesOk, ReadyOk, ProducersOk, Bounded;
    CachesGrow(s, t);
    ProducersStay(s, t);
    ReadySame(s, t);
    if s.forcer.FLoaded? { ForgedBounded(t, s.forcer.tail); }
  }

  // ---- runs ---------------------------------------------------------------------------------------

  lemma StepKeeps(u: Usage, s: Ring, t: Ring)
    requires Inv(s) && Young(s) && Short(s) && Next(u, s, t)
    ensures Inv(t)
  {
    hide Inv, ReserveStep, WriteStep, FlowStep, ConsumerStep, ForceStep;
    if a :| ProducerStep(u, s, t, a) {
      if ReserveStep(u, s, t, a) {
        if t.tail == s.tail { ReserveKeeps(u, s, t, a); } else { TakeKeeps(u, s, t, a); }
      } else if FlowStep(s, t, a) {
        FlowKeeps(s, t, a);
      } else {
        WriteKeeps(s, t, a);
      }
    } else if ConsumerStep(s, t) {
      ConsumerKeeps(s, t);
    } else {
      ForceKeeps(s, t);
    }
  }

  lemma SentGrows(u: Usage, s: Ring, t: Ring)
    requires Next(u, s, t)
    ensures s.sent <= t.sent
  {
    hide ProducerStep, Shaped;
    if a :| ProducerStep(u, s, t, a) { ProducerSide(u, s, t, a); }
  }

  lemma InitHolds(s: Ring)
    requires Init(s)
    ensures Inv(s)
  {
  }

  lemma {:induction false} RunKeeps(u: Usage, run: seq<Ring>, i: nat)
    requires IsRun(u, run) && i < |run| && Young(run[i]) && Short(run[i])
    ensures Inv(run[i])
    decreases i
  {
    hide Inv, Init, Next;
    if i == 0 {
      InitHolds(run[0]);
    } else {
      SentGrows(u, run[i - 1], run[i]);
      RunKeeps(u, run, i - 1);
      StepKeeps(u, run[i - 1], run[i]);
    }
  }

  /**
  At most cap tickets are unread and no counter wraps; the consumer has dealt
  with tickets 0, 1, 2, ... once each and in order; what it delivered or is
  about to read was committed under that very ticket.
  */
  predicate Ordered(s: Ring) {
    && s.tail == |s.sent| < W && |s.log| <= s.tail <= |s.log| + s.cap
    && (forall k :: 0 <= k < |s.log| ==> s.log[k].ticket == k)
    && (forall k :: 0 <= k < |s.log| && !s.log[k].out.Skipped? ==> k in s.committed)
    && (s.consumer.CHeader? || s.consumer.CCopy? ==> s.consumer.head == |s.log| && s.consumer.head in s.committed)
    && (!s.forcer.FDone? ==> s.head == |s.log|)
  }

  /** That holds in every state of every run, late producers included, until a LONG body has a ticket. */
  lemma RingOrder(u: Usage, run: seq<Ring>, i: nat)
    requires IsRun(u, run) && i < |run| && Young(run[i]) && Short(run[i])
    ensures Ordered(run[i])
  {
    RunKeeps(u, run, i);
  }

  // ---- forced full ------------------------------------------------------------------------------------

  /** What producers never touch. */
  predicate ConsumerSide(s: Ring, t: Ring) {
    && t.cap == s.cap && t.room == s.room && t.head == s.head && t.log == s.log
    && t.consumer == s.consumer && t.forcer == s.forcer && t.stopped == s.stopped
  }

  lemma ReserveSide(u: Usage, s: Ring, t: Ring, a: nat)
    requires ReserveStep(u, s, t, a)
    ensures ConsumerSide(s, t) && s.sent <= t.sent
  {
    hide Full, CacheOf;
  }

  lemma WriteSide(s: Ring, t: Ring, a: nat)
    requires Shaped(s) && WriteStep(s, t, a)
    ensures ConsumerSide(s, t) && t.sent == s.sent
  {
    hide Overlay, Shaped;
  }

  lemma FlowSide(s: Ring, t: Ring, a: nat)
    requires FlowStep(s, t, a)
    ensures ConsumerSide(s, t) && t.sent == s.sent
  {
  }

  lemma ProducerSide(u: Usage, s: Ring, t: Ring, a: nat)
    requires Shaped(s) && ProducerStep(u, s, t, a)
    ensures ConsumerSide(s, t) && s.sent <= t.sent
  {
    hide ReserveStep, WriteStep, FlowStep, ConsumerSide, Shaped;
    if ReserveStep(u, s, t, a) { ReserveSide(u, s, t, a); }
    else if FlowStep(s, t, a) { FlowSide(s, t, a); }
    else { WriteSide(s, t, a); }
  }

  lemma StoppedStays(u: Usage, s: Ring, t: Ring)
    requires Next(u, s, t)
    ensures t.cap == s.cap
    ensures s.stopped ==> t.stopped && t.log == s.log
  {
    hide ProducerStep, Shaped;
    if a :| ProducerStep(u, s, t, a) { ProducerSide(u, s, t, a); }
  }

  lemma {:induction false} StoppedFreezes(u: Usage, run: seq<Ring>, i: nat, j: nat)
    requires IsRun(u, run) && i <= j < |run| && run[i].stopped
    ensures run[j].stopped && run[j].log == run[i].log && run[j].cap == run[i].cap
    decreases j - i
  {
    hide Next, Init;
    if i < j {
      StoppedFreezes(u, run, i, j - 1);
      StoppedStays(u, run[j - 1], run[j]);
    }
  }

  /** Two unread tickets never share a slot. */
  lemma SlotsDiffer(s: Ring, k: nat, l: nat)
    requires Shaped(s) && |s.log| <= k < |s.log| + s.cap && |s.log| <= l < |s.log| + s.cap && k != l
    ensures k % s.cap != l % s.cap
  {
    var base := |s.log|;
    if k % s.cap == l % s.cap {
      ModDistinct(base, k - base, l - base, s.cap);
    }
  }

  // The bound needs nothing of the slots, so it holds whatever bodies are sent.

  predicate ReserverOk(s: Ring, p: ProducerPc) {
    match p
    case AtRefresh(_, _, _, head) => Bounded(s, head)
    case AtFlowRefresh(_, head) => Bounded(s, head)
    case AtCas(_, _, tail) => tail < |s.log| + s.cap && tail + 1 < W
    case _ => true
  }

  predicate ConsumerAtHead(s: Ring) { !s.consumer.CIdle? ==> s.consumer.head == |s.log| }

  /** A forged head is full for the tail it was computed from, and the tail only grows. */
  predicate StillFull(s: Ring) { s.forcer.FDone? ==> Full(s.cap, s.head, s.tail) }

  ghost predicate Bounds(s: Ring) {
    && Shaped(s) && s.tail < W && s.tail <= |s.log| + s.cap && |s.log| < W
    && HeadOk(s) && CachesOk(s) && ConsumerAtHead(s) && StillFull(s)
    && forall a :: ReserverOk(s, PcOf(s, a))
  }

  /** A producer's step: the consumer's side stays, the tail may grow within the bound. */
  lemma BoundsMove(s: Ring, t: Ring, a: nat, p: ProducerPc)
    requires Bounds(s) && Shaped(t) && ConsumerSide(s, t) && Moves(s, t, a, p) && CachesOk(t) && ReserverOk(t, p)
    requires s.tail <= t.tail < W && t.tail <= |s.log| + s.cap
    ensures Bounds(t)
  {
    hide CachesOk, Shaped;
    forall b ensures ReserverOk(t, PcOf(t, b)) {
      if b != a { assert ReserverOk(s, PcOf(s, b)); }
    }
  }

  lemma BoundsAt(s: Ring, a: nat)
    requires Bounds(s)
    ensures Shaped(s) && ReserverOk(s, PcOf(s, a)) && CachesOk(s) && Bounded(s, s.head)
    ensures s.tail < W && s.tail <= |s.log| + s.cap
  {
    HeadBounded(s);
  }

  lemma SameBounds(s: Ring, t: Ring)
    requires t.cap == s.cap && t.log == s.log && t.caches == s.caches
    ensures CachesOk(t) <==> CachesOk(s)
    ensures forall p :: ReserverOk(t, p) <==> ReserverOk(s, p)
  {
  }

  /** What a step before the CAS does to the bounds. */
  lemma ReserveEnds(u: Usage, s: Ring, t: Ring, a: nat)
    requires ReserveStep(u, s, t, a) && ReserverOk(s, PcOf(s, a)) && CachesOk(s) && Bounded(s, s.head)
    requires s.tail < W && s.tail <= |s.log| + s.cap
    ensures t.slots == s.slots && CachesOk(t) && ReserverOk(t, PcOf(t, a))
    ensures s.tail <= t.tail < W && t.tail <= |s.log| + s.cap
  {
    hide CachesOk, Bounded, Full;
    match PcOf(s, a)
    case AtCheck(msg, k, tail) =>
      CacheBounded(s, k);
      SameBounds(s, t);
      if !Full(s.cap, CacheOf(s, k), tail) { FullMeans(s, CacheOf(s, k), tail); }
    case AtRefresh(msg, k, tail, head) =>
      RefreshCaches(s, k, head);
      SameBounds(s.(caches := s.caches[k := head]), t);
      if !Full(s.cap, head, tail) { FullMeans(s, head, tail); }
    case AtFresh(_, _, _) => SameBounds(s, t);
    case _ => SameBounds(s, t);
  }

  lemma ReserveBounds(u: Usage, s: Ring, t: Ring, a: nat)
    requires Bounds(s) && ReserveStep(u, s, t, a)
    ensures Bounds(t)
  {
    hide Bounds, CachesOk, Bounded, ReserverOk;
    BoundsAt(s, a);
    ReserveEnds(u, s, t, a);
    ReserveSide(u, s, t, a);
    ReserveMoves(u, s, t, a);
    hide ReserveStep;
    SameShape(s, t);
    BoundsMove(s, t, a, PcOf(t, a));
  }

  lemma ReserveMoves(u: Usage, s: Ring, t: Ring, a: nat)
    requires ReserveStep(u, s, t, a)
    ensures Moves(s, t, a, PcOf(t, a))
  {
    hide Full, CacheOf;
    assert t.producers == s.producers[a := PcOf(t, a)];
  }

  lemma SameShape(s: Ring, t: Ring)
    requires Shaped(s) && t.cap == s.cap && t.room == s.room && t.slots == s.slots
    ensures Shaped(t)
  {
  }

  lemma FlowBounds(s: Ring, t: Ring, a: nat)
    requires Bounds(s) && FlowStep(s, t, a)
    ensures Bounds(t)
  {
    hide Bounds, CachesOk, Bounded;
    BoundsAt(s, a);
    FlowSide(s, t, a);
    SameShape(s, t);
    GoMoves(s, t, a, PcOf(t, a));
    if PcOf(s, a).AtFlowRefresh? {
      RefreshCaches(s, PcOf(s, a).cache, PcOf(s, a).head);
      SameBounds(s.(caches := s.caches[PcOf(s, a).cache := PcOf(s, a).head]), t);
    } else {
      SameBounds(s, t);
    }
    hide Shaped, ConsumerSide;
    BoundsMove(s, t, a, PcOf(t, a));
  }

  /** Whatever a write leaves in the slots, there are as many, and as large, as before. */
  lemma WriteShape(s: Ring, t: Ring, a: nat)
    requires Shaped(s) && WriteStep(s, t, a)
    ensures Shaped(t) && t.tail == s.tail && t.caches == s.caches && Writing(PcOf(s, a))
    ensures ReserverOk(t, PcOf(t, a)) && Moves(s, t, a, PcOf(t, a))
  {
    var p := PcOf(s, a);
    if p.AtBody? && |p.msg.body| > |At(s, p.ticket).area| {
      OverranShape(s, t.slots, p.ticket, p.msg.body);
    } else {
      PutShaped(s, p.ticket, At(t, p.ticket));
    }
  }

  lemma OverranShape(s: Ring, slots: seq<Slot>, ticket: nat, body: seq<Byte>)
    requires Shaped(s) && s.room < |body| && Overran(s, slots, ticket, body)
    ensures |slots| == s.cap && forall j :: 0 <= j < s.cap ==> |slots[j].area| == s.room
  {
    hide Behind, EntryAt;
  }

  lemma WriteBounds(s: Ring, t: Ring, a: nat)
    requires Bounds(s) && WriteStep(s, t, a)
    ensures Bounds(t)
  {
    hide Bounds, CachesOk, Bounded, WriteStep, Shaped, ReserverOk;
    BoundsAt(s, a);
    WriteSide(s, t, a);
    WriteShape(s, t, a);
    SameBounds(s, t);
    BoundsMove(s, t, a, PcOf(t, a));
  }

  lemma BoundsGrow(s: Ring, t: Ring)
    requires CachesOk(s) && t.cap == s.cap && |s.log| <= |t.log| && t.caches == s.caches && t.producers == s.producers
    requires forall a :: ReserverOk(s, PcOf(s, a))
    ensures CachesOk(t) && forall a :: ReserverOk(t, PcOf(t, a))
  {
    forall a ensures ReserverOk(t, PcOf(t, a)) {
      assert ReserverOk(s, PcOf(s, a)) && PcOf(t, a) == PcOf(s, a);
    }
  }

  lemma ConsumerShaped(s: Ring, t: Ring)
    requires Shaped(s) && ConsumerStep(s, t)
    ensures Shaped(t)
  {
    if s.consumer.CReset? {
      PutShaped(s, s.consumer.head, At(s, s.consumer.head).(ready := 0));
    } else {
      SameShape(s, t);
    }
  }

  /** What the consumer's step leaves alone, and how it moves. */
  lemma ConsumerFrame(s: Ring, t: Ring)
    requires Shaped(s) && ConsumerStep(s, t) && ConsumerAtHead(s) && s.head == |s.log|
    ensures t.producers == s.producers && t.cap == s.cap && t.tail == s.tail && t.caches == s.caches
    ensures t.forcer == s.forcer && t.stopped == s.stopped == false && ConsumerAtHead(t)
    ensures (t.log == s.log && t.head == s.head) || (|t.log| == |s.log| + 1 && t.head == |t.log| % W)
  {
    hide At, Shaped;
  }

  lemma ConsumerBounds(s: Ring, t: Ring)
    requires Bounds(s) && ConsumerStep(s, t) && |t.log| < W
    ensures Bounds(t)
  {
    assert s.head == |s.log|;
    hide CachesOk, Bounded, ReserverOk, Shaped, ConsumerStep, ConsumerAtHead;
    ConsumerShaped(s, t);
    ConsumerFrame(s, t);
    BoundsGrow(s, t);
  }

  lemma ForceBounds(s: Ring, t: Ring)
    requires Bounds(s) && ForceStep(s, t)
    ensures Bounds(t)
  {
    SameShape(s, t);
    BoundsGrow(s, t);
    hide CachesOk, Bounded, ReserverOk, Shaped;
    if s.forcer.FLoaded? {
      ForgedBounded(t, s.forcer.tail);
      Forged(s.forcer.tail, s.cap, W);
    }
  }

  lemma StepBounds(u: Usage, s: Ring, t: Ring)
    requires Bounds(s) && Next(u, s, t) && |t.log| < W
    ensures Bounds(t)
  {
    hide Bounds, ReserveStep, WriteStep, FlowStep, ConsumerStep, ForceStep, Shaped;
    if a :| ProducerStep(u, s, t, a) {
      if ReserveStep(u, s, t, a) { ReserveBounds(u, s, t, a); }
      else if FlowStep(s, t, a) { FlowBounds(s, t, a); }
      else { WriteBounds(s, t, a); }
    } else if ConsumerStep(s, t) {
      ConsumerBounds(s, t);
    } else {
      ForceBounds(s, t);
    }
  }

  lemma LogOnlyGrows(u: Usage, s: Ring, t: Ring)
    requires Next(u, s, t)
    ensures |s.log| <= |t.log|
  {
    hide ProducerStep, Shaped;
    if a :| ProducerStep(u, s, t, a) { ProducerSide(u, s, t, a); }
  }

  lemma {:induction false} RunBounds(u: Usage, run: seq<Ring>, i: nat)
    requires IsRun(u, run) && i < |run| && |run[i].log| < W
    ensures Bounds(run[i])
    decreases i
  {
    hide Bounds, Next;
    if i == 0 {
      InitBounds(run[0]);
    } else {
      LogOnlyGrows(u, run[i - 1], run[i]);
      RunBounds(u, run, i - 1);
      StepBounds(u, run[i - 1], run[i]);
    }
  }

  lemma InitBounds(s: Ring)
    requires Init(s)
    ensures Bounds(s)
  {
    assert forall a :: PcOf(s, a) == Idle;
  }

  /**
  Once the consumer has stopped, however the head is forged, however stale the
  producers' cached heads are and whatever bodies are sent: no ticket reaches
  the slot of an unread one, and a forged head stays full.
  */
  lemma ForcedFullBound(u: Usage, run: seq<Ring>, i: nat, j: nat)
    requires IsRun(u, run) && i <= j < |run| && run[i].stopped && |run[i].log| < W
    ensures run[j].tail <= |run[i].log| + run[i].cap
    ensures run[j].forcer.FDone? ==> (run[j].head + run[j].cap) % W <= run[j].tail
    ensures forall k, l :: |run[i].log| <= k < l < run[j].tail ==> k % run[i].cap != l % run[i].cap
  {
    StoppedFreezes(u, run, i, j);
    RunBounds(u, run, j);
    hide IsRun;
    forall k, l | |run[i].log| <= k < l < run[j].tail ensures k % run[i].cap != l % run[i].cap {
      SlotsDiffer(run[j], k, l);
    }
  }

  /** The forcer goes from the tail it read to the head it stores, and no further. */
  predicate Forging(s: Ring, tail: nat) {
    s.stopped && (s.forcer == FLoaded(tail) || (s.forcer.FDone? && s.head == (tail - s.cap) % W))
  }

  lemma ForgingStep(u: Usage, s: Ring, t: Ring, tail: nat)
    requires Forging(s, tail) && Next(u, s, t)
    ensures Forging(t, tail) && t.cap == s.cap
  {
    hide ProducerStep, Shaped;
    if a :| ProducerStep(u, s, t, a) { ProducerSide(u, s, t, a); }
  }

  lemma ForcerLoads(u: Usage, s: Ring, t: Ring)
    requires Next(u, s, t) && s.forcer.FIdle? && t.forcer.FLoaded?
    ensures Forging(t, s.tail) && t.cap == s.cap
  {
    hide ProducerStep, Shaped;
    if a :| ProducerStep(u, s, t, a) { ProducerSide(u, s, t, a); }
  }

  lemma {:induction false} ForgedFrom(u: Usage, run: seq<Ring>, i: nat, j: nat)
    requires IsRun(u, run) && 0 < i <= j < |run| && run[i - 1].forcer.FIdle? && run[i].forcer.FLoaded?
    ensures Forging(run[j], run[i - 1].tail) && run[j].cap == run[i - 1].cap
    decreases j
  {
    hide Next, Forging;
    if i == j {
      ForcerLoads(u, run[i - 1], run[i]);
    } else {
      ForgedFrom(u, run, i, j - 1);
      ForgingStep(u, run[j - 1], run[j], run[i - 1].tail);
    }
  }

  /** The head that trigger_force_full stores stands exactly a capacity before the tail it read, subtraction wrapped. */
  lemma ForcedFullExact(u: Usage, run: seq<Ring>, i: nat, j: nat)
    requires IsRun(u, run) && 0 < i <= j < |run| && run[i - 1].forcer.FIdle? && run[i].forcer.FLoaded?
    requires run[j].forcer.FDone? && |run[i - 1].log| < W
    ensures (run[j].head + run[j].cap) % W == run[i - 1].tail
  {
    hide IsRun, Forging;
    TailFits(u, run, i - 1);
    ForgedFrom(u, run, i, j);
    ForgedHead(run[j], run[i - 1].tail);
  }

  lemma TailFits(u: Usage, run: seq<Ring>, i: nat)
    requires IsRun(u, run) && i < |run| && |run[i].log| < W
    ensures run[i].tail < W
  {
    hide IsRun;
    RunBounds(u, run, i);
  }

  lemma ForgedHead(s: Ring, tail: nat)
    requires Forging(s, tail) && s.forcer.FDone? && tail < W
    ensures (s.head + s.cap) % W == tail
  {
    Forged(tail, s.cap, W);
  }
}
