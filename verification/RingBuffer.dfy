/**
The multi-producer single-consumer ring as a step system. Every load, store and
CAS on tail, head, a cached head or a slot is one step. Counters are 64-bit and
every comparison is made on the wrapped values, as in the code. A producer that
stops for long keeps its ticket in its program counter, so skipped tickets and
late commits are part of every run.
*/
module RingBuffer {
  import opened Modular

  const W := 0x1_0000_0000_0000_0000   // 2^64
  const U32 := 0x1_0000_0000           // 2^32
  const HEADER := 16                   // MSG_HEADER_LEN

  /** From this length on, header and body together pass 2^32 and the size check sees a small message. */
  const LONG := U32 - HEADER

  type Byte = b: nat | b < 256

  /** A message: the header carries the tag and the length of the body. */
  datatype Msg = Msg(tag: nat, body: seq<Byte>)

  /** One entry: ready_seq, the header, and the body area, all of it memory that keeps old bytes. */
  datatype Slot = Slot(ready: nat, tag: nat, len: nat, area: seq<Byte>)

  datatype ProducerPc =
    | Idle
    | AtCheck(msg: Msg, cache: nat, tail: nat)          // holds a tail value, full check pending
    | AtFresh(msg: Msg, cache: nat, tail: nat)          // the cached head says full
    | AtRefresh(msg: Msg, cache: nat, tail: nat, head: nat)
    | AtCas(msg: Msg, cache: nat, tail: nat)
    | AtHeader(msg: Msg, cache: nat, ticket: nat)
    | AtBody(msg: Msg, cache: nat, ticket: nat)
    | AtCommit(msg: Msg, cache: nat, ticket: nat)
    | AtFlow(cache: nat)                                // flow control may refresh the cached head
    | AtFlowRefresh(cache: nat, head: nat)

  datatype Outcome = Delivered(msg: Msg) | Skipped | Corrupt

  datatype ConsumerPc =
    | CIdle
    | CLoaded(head: nat)
    | CHeader(head: nat)                  // ready_seq matched
    | CCopy(head: nat, len: nat)          // length read and accepted
    | CReset(head: nat, out: Outcome)     // ready_seq := 0 pending
    | CAdvance(head: nat, out: Outcome)   // head store pending
    | CProbe(head: nat)                   // not ready: looking for a stale reservation
    | CStale(head: nat)                   // the tail is past head
    | CExpired(head: nat)                 // not ready for long enough, second look pending

  datatype ForcerPc = FIdle | FLoaded(tail: nat) | FDone

  /** An entry of the consumer's history: the head it worked on and what came of it. */
  datatype Event = Event(ticket: nat, out: Outcome)

  /** How the ring is used: a producer may go on writing a skipped ticket; bodies may be LONG. */
  datatype Usage = Usage(resume: bool, long: bool)

  datatype Ring = Ring(
    cap: nat, room: nat,
    head: nat, tail: nat, slots: seq<Slot>, caches: map<nat, nat>,
    producers: map<nat, ProducerPc>, consumer: ConsumerPc, forcer: ForcerPc, stopped: bool,
    sent: seq<Msg>,         // the message of each ticket, in the order of the tail CAS
    committed: set<nat>,    // tickets whose producer has stored ready_seq
    log: seq<Event>)        // what the consumer did

  function PcOf(s: Ring, a: nat): ProducerPc { if a in s.producers then s.producers[a] else Idle }

  function CacheOf(s: Ring, k: nat): nat { if k in s.caches then s.caches[k] else 0 }

  function Go(s: Ring, a: nat, p: ProducerPc): Ring { s.(producers := s.producers[a := p]) }

  function PutSlot(s: Ring, ticket: nat, x: Slot): Ring
    requires 0 < s.cap == |s.slots|
  {
    s.(slots := s.slots[ticket % s.cap := x])
  }

  function At(s: Ring, ticket: nat): Slot
    requires 0 < s.cap == |s.slots|
  {
    s.slots[ticket % s.cap]
  }

  /** The code's full check on a head value, with 64-bit wrap-around. */
  predicate Full(cap: nat, head: nat, tail: nat) { (head + cap) % W <= tail }

  /** memcpy of a body over the front of the area. */
  function Overlay(area: seq<Byte>, body: seq<Byte>): seq<Byte>
    requires |body| <= |area|
  {
    body + area[|body|..]
  }

  // ---- a body beyond its area, byte by byte -------------------------------------------------

  const PREFIX := 24                   // ready_seq and the message header, before the body area
  const CACHE_LINE := 64

  /** The distance between two entries: raw size rounded up to a cache line. */
  function Stride(room: nat): (d: nat)
    ensures PREFIX + room <= d && 0 < d
  {
    (PREFIX + room + CACHE_LINE - 1) / CACHE_LINE * CACHE_LINE
  }

  /** Little-endian numbers of four and eight bytes. */
  function Word32(b: seq<Byte>, at: nat): nat
    requires at + 4 <= |b|
  {
    var b0: nat, b1: nat, b2: nat, b3: nat := b[at], b[at + 1], b[at + 2], b[at + 3];
    b0 + 0x100 * b1 + 0x1_0000 * b2 + 0x100_0000 * b3
  }

  function Word64(b: seq<Byte>, at: nat): nat
    requires at + 8 <= |b|
  {
    Word32(b, at) + U32 * Word32(b, at + 4)
  }

  /** The entry those bytes spell: ready_seq, then thread id, body length and the rest of the header, then the area. */
  function EntryAt(b: seq<Byte>, at: nat, room: nat): Slot
    requires at + PREFIX + room <= |b|
  {
    Slot(Word64(b, at), Word64(b, at + 8) + W * Word32(b, at + 20), Word32(b, at + 16),
         b[at + PREFIX..at + PREFIX + room])
  }

  /** Where in a body the entry k places behind its own begins. */
  function Behind(k: nat, room: nat): nat
    requires k > 0
  {
    MultipleSize(k, Stride(room));
    k * Stride(room) - PREFIX
  }

  /**
  memcpy of a body that is longer than its area: the area is filled, the entries
  behind it in memory are what the body spells there, the entry at which it ends
  may be anything, and the slots before it and its own header stay.
  */
  predicate Overran(s: Ring, slots: seq<Slot>, ticket: nat, body: seq<Byte>)
    requires Shaped(s) && s.room < |body|
  {
    var own := ticket % s.cap;
    && |slots| == s.cap
    && (forall j :: 0 <= j < own ==> slots[j] == s.slots[j])
    && slots[own] == s.slots[own].(area := body[..s.room])
    && forall j :: own < j < s.cap ==>
         var at := Behind(j - own, s.room);
         && |slots[j].area| == s.room
         && (at + PREFIX + s.room <= |body| ==> slots[j] == EntryAt(body, at, s.room))
         && (|body| <= at ==> slots[j] == s.slots[j])
  }

  /** The code's size check: header and body length are added in 32 bits. */
  predicate Accepts(room: nat, len: nat) { len < U32 && (HEADER + len) % U32 <= HEADER + room }

  predicate Shaped(s: Ring) {
    && 0 < s.cap == |s.slots| && s.cap < W && W % s.cap == 0 && s.room < LONG
    && forall j :: 0 <= j < s.cap ==> |s.slots[j].area| == s.room
  }

  predicate Init(s: Ring) {
    && Shaped(s) && s.head == s.tail == 0 && s.caches == map[] && s.producers == map[]
    && s.consumer == CIdle && s.forcer == FIdle && !s.stopped
    && s.sent == [] && s.committed == {} && s.log == []
    && forall j :: 0 <= j < s.cap ==> s.slots[j].ready == 0
  }

  // ---- producers -------------------------------------------------------------------------------

  /** From the size check to the CAS on tail. A weak CAS may fail for no reason; a remote producer may give up. */
  predicate ReserveStep(u: Usage, s: Ring, t: Ring, a: nat) {
    match PcOf(s, a)
    case Idle =>
      var next := PcOf(t, a);   // a new call with some message and some cached head
      && next.AtCheck? && Accepts(s.room, |next.msg.body|) && (|next.msg.body| >= LONG ==> u.long)
      && t == Go(s, a, AtCheck(next.msg, next.cache, s.tail))
    case AtCheck(msg, k, tail) =>
      || t == Go(s, a, Idle)
      || t == Go(s, a, if Full(s.cap, CacheOf(s, k), tail) then AtFresh(msg, k, tail) else AtCas(msg, k, tail))
    case AtFresh(msg, k, tail) => t == Go(s, a, AtRefresh(msg, k, tail, s.head))
    case AtRefresh(msg, k, tail, head) =>
      t == Go(s.(caches := s.caches[k := head]), a, if Full(s.cap, head, tail) then Idle else AtCas(msg, k, tail))
    case AtCas(msg, k, tail) =>
      || t == Go(s, a, AtCheck(msg, k, s.tail))
      || (&& s.tail == tail
          && t == Go(s.(tail := (tail + 1) % W, sent := s.sent + [msg]), a, AtHeader(msg, k, tail)))
    case _ => false
  }

  /** Writing the reserved slot and committing it. */
  predicate WriteStep(s: Ring, t: Ring, a: nat)
    requires Shaped(s)
  {
    match PcOf(s, a)
    case AtHeader(msg, k, ticket) =>
      t == Go(PutSlot(s, ticket, At(s, ticket).(tag := msg.tag, len := |msg.body|)), a,
              if msg.body == [] then AtCommit(msg, k, ticket) else AtBody(msg, k, ticket))
    case AtBody(msg, k, ticket) =>
      if |msg.body| <= |At(s, ticket).area| then
        t == Go(PutSlot(s, ticket, At(s, ticket).(area := Overlay(At(s, ticket).area, msg.body))), a,
                AtCommit(msg, k, ticket))
      else
        Overran(s, t.slots, ticket, msg.body) && t == Go(s.(slots := t.slots), a, AtCommit(msg, k, ticket))
    case AtCommit(msg, k, ticket) =>
      t == Go(PutSlot(s, ticket, At(s, ticket).(ready := (ticket + 1) % W)).(committed := s.committed + {ticket}), a,
              AtFlow(k))
    case _ => false
  }

  /** flow_result_after_enqueue: the estimate from the cached head may make the producer refresh it. */
  predicate FlowStep(s: Ring, t: Ring, a: nat) {
    match PcOf(s, a)
    case AtFlow(k) => t == Go(s, a, Idle) || t == Go(s, a, AtFlowRefresh(k, s.head))
    case AtFlowRefresh(k, head) => t == Go(s.(caches := s.caches[k := head]), a, Idle)
    case _ => false
  }

  predicate WasSkipped(s: Ring, ticket: nat) { Event(ticket, Skipped) in s.log }

  predicate ProducerStep(u: Usage, s: Ring, t: Ring, a: nat)
    requires Shaped(s)
  {
    || ReserveStep(u, s, t, a)
    || (WriteStep(s, t, a) && (u.resume || !WasSkipped(s, PcOf(s, a).ticket)))
    || FlowStep(s, t, a)
  }

  // ---- the consumer ------------------------------------------------------------------------------

  predicate ConsumerStep(s: Ring, t: Ring)
    requires Shaped(s)
  {
    && !s.stopped
    && match s.consumer
       case CIdle => t == s.(consumer := CLoaded(s.head))
       case CLoaded(h) =>
         if At(s, h).ready == (h + 1) % W then t == s.(consumer := CHeader(h))
         else t == s.(consumer := CIdle) || t == s.(consumer := CProbe(h))
       case CHeader(h) =>
         t == s.(consumer := if At(s, h).len > s.room then CReset(h, Corrupt) else CCopy(h, At(s, h).len))
       case CCopy(h, len) =>
         len <= s.room && t == s.(consumer := CReset(h, Delivered(Msg(At(s, h).tag, At(s, h).area[..len]))))
       case CReset(h, out) => t == PutSlot(s, h, At(s, h).(ready := 0)).(consumer := CAdvance(h, out))
       case CAdvance(h, out) => t == s.(head := (h + 1) % W, log := s.log + [Event(h, out)], consumer := CIdle)
       case CProbe(h) => t == s.(consumer := if s.tail <= h then CIdle else CStale(h))
       case CStale(h) =>
         || t == s.(consumer := CIdle)
         || (At(s, h).ready != (h + 1) % W && t == s.(consumer := CExpired(h)))
       case CExpired(h) => t == s.(consumer := if At(s, h).ready == (h + 1) % W then CIdle else CReset(h, Skipped))
  }

  // ---- shutdown -------------------------------------------------------------------------------------

  /** The consumer has stopped between two calls; then trigger_force_full loads tail and stores a fake head. */
  predicate ForceStep(s: Ring, t: Ring) {
    match s.forcer
    case FIdle =>
      || (s.consumer == CIdle && t == s.(stopped := true))
      || (s.stopped && t == s.(forcer := FLoaded(s.tail)))
    case FLoaded(tail) => t == s.(head := (tail - s.cap) % W, forcer := FDone)
    case FDone => false
  }

  ghost predicate Next(u: Usage, s: Ring, t: Ring) {
    && Shaped(s)
    && ((exists a :: ProducerStep(u, s, t, a)) || ConsumerStep(s, t) || ForceStep(s, t))
  }

  ghost predicate IsRun(u: Usage, run: seq<Ring>) {
    && 0 < |run| && Init(run[0])
    && forall i :: 0 < i < |run| ==> Next(u, run[i - 1], run[i])
  }
}
