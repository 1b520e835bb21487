/**
Where the rings of a node go in its memory region. One pass adds up what is
needed, a second pass places the rings; both work in 64-bit arithmetic that
wraps around.
*/
module Layout {
  import opened LockTypes
  import opened Modular

  const LINE := 64                            // CACHELINE_SIZE
  const SIZE := 0x1_0000_0000_0000_0000       // size_t and addresses
  const ENTRY_HEADER := 8                     // sizeof(Entry)
  const DATA_OFFSET := 192                    // GetDataOffset()
  const MESSAGE := 24                         // sizeof(message_t)
  const MESSAGE_HEADER := 16                  // sizeof(message_header_t)
  const MAX_PRIORITIES := 8

  /** ub_ring_desc_t, with the widths of its fields. */
  datatype Desc = Desc(capacity: nat, maxMsg: nat, priority: nat) {
    predicate Typed() { capacity < U32 && maxMsg < U32 && priority < 256 }
  }

  const LOCK_RING := Desc(4096, 128, 0)

  predicate PowerOfTwo(n: nat) { n == 1 || (n > 1 && n % 2 == 0 && PowerOfTwo(n / 2)) }

  function Pad(address: nat): nat { (LINE - address % LINE) % LINE }

  function Stride(maxMsg: nat): nat { ENTRY_HEADER + maxMsg + Pad(ENTRY_HEADER + maxMsg) }

  /** CalculateMemorySize. */
  function RingSize(d: Desc): nat { DATA_OFFSET + Stride(d.maxMsg) * d.capacity }

  lemma PadAligns(address: nat)
    ensures Pad(address) < LINE && (address + Pad(address)) % LINE == 0
  {
  }

  lemma {:induction false} PowerBelow(n: nat, m: nat)
    requires PowerOfTwo(n) && PowerOfTwo(m) && n < 2 * m
    ensures n <= m
  {
    if n > 1 && m > 1 { PowerBelow(n / 2, m / 2); }
  }

  lemma HalfOfU32()
    ensures PowerOfTwo(U32 / 2)
  {
    assert PowerOfTwo(16) && PowerOfTwo(8);
    PowerTimes(16, 16);
    PowerTimes(256, 256);
    PowerTimes(8, 16);
    PowerTimes(128, 256);
    PowerTimes(32768, 65536);
  }

  lemma {:induction false} PowerTimes(n: nat, m: nat)
    requires PowerOfTwo(n) && PowerOfTwo(m)
    ensures PowerOfTwo(n * m)
    decreases n
  {
    if n > 1 {
      PowerTimes(n / 2, m);
      assert n * m == 2 * (n / 2 * m);
    }
  }

  /** No single ring overflows size_t, so its size is what the code computes. */
  lemma RingSizeFits(d: Desc)
    requires d.Typed() && PowerOfTwo(d.capacity)
    ensures RingSize(d) < SIZE
  {
    HalfOfU32();
    PowerBelow(d.capacity, U32 / 2);
    Product(Stride(d.maxMsg), d.capacity, U32 + 2 * LINE, U32 / 2);
  }

  lemma Product(a: nat, b: nat, c: nat, d: nat)
    requires a <= c && b <= d
    ensures a * b <= c * d
  {
    assert a * b <= c * b && c * b <= c * d;
  }

  // ---- the exact layout ------------------------------------------------------------------

  datatype Placed = Placed(start: nat, desc: Desc) {
    function End(): nat { start + RingSize(desc) }
  }

  /** Each ring at the next aligned address, in unbounded arithmetic. */
  function Place(address: nat, ds: seq<Desc>): seq<Placed>
    decreases |ds|
  {
    if ds == [] then []
    else
      var start := address + Pad(address);
      [Placed(start, ds[0])] + Place(start + RingSize(ds[0]), ds[1..])
  }

  /** Where the last ring ends. */
  function EndOf(address: nat, ds: seq<Desc>): nat
    decreases |ds|
  {
    if ds == [] then address else EndOf(address + Pad(address) + RingSize(ds[0]), ds[1..])
  }

  lemma {:induction false} PlaceFacts(address: nat, ds: seq<Desc>)
    ensures |Place(address, ds)| == |ds| && address <= EndOf(address, ds)
    ensures forall i :: 0 <= i < |ds| ==>
      var p := Place(address, ds)[i];
      p.desc == ds[i] && p.start % LINE == 0 && address <= p.start && p.End() <= EndOf(address, ds)
    ensures forall i, j :: 0 <= i < j < |ds| ==> Place(address, ds)[i].End() <= Place(address, ds)[j].start
    decreases |ds|
  {
    if ds != [] {
      PadAligns(address);
      var next := address + Pad(address) + RingSize(ds[0]);
      PlaceFacts(next, ds[1..]);
      var ps, rest := Place(address, ds), Place(next, ds[1..]);
      assert forall i :: 0 < i < |ds| ==> ps[i] == rest[i - 1] && ds[i] == ds[1..][i - 1];
    }
  }

  lemma {:induction false} EndOfAppend(address: nat, ds: seq<Desc>, d: Desc)
    ensures EndOf(address, ds + [d]) == EndOf(address, ds) + Pad(EndOf(address, ds)) + RingSize(d)
    decreases |ds|
  {
    if ds == [] {
      assert (ds + [d])[1..] == [];
    } else {
      assert (ds + [d])[1..] == ds[1..] + [d];
      EndOfAppend(address + Pad(address) + RingSize(ds[0]), ds[1..], d);
    }
  }

  lemma {:induction false} PlaceAppend(address: nat, ds: seq<Desc>, d: Desc)
    ensures Place(address, ds + [d]) ==
      Place(address, ds) + [Placed(EndOf(address, ds) + Pad(EndOf(address, ds)), d)]
    decreases |ds|
  {
    if ds == [] {
      assert (ds + [d])[1..] == [];
    } else {
      assert (ds + [d])[1..] == ds[1..] + [d];
      PlaceAppend(address + Pad(address) + RingSize(ds[0]), ds[1..], d);
    }
  }

  // ---- the capacity check -------------------------------------------------------------------

  predicate ValidDesc(d: Desc) {
    0 < d.priority < MAX_PRIORITIES && PowerOfTwo(d.capacity) && d.maxMsg >= MESSAGE
  }

  function Rings(ds: seq<Desc>): seq<Desc> { [LOCK_RING] + ds }

  /** What the region must offer, in unbounded arithmetic. */
  function Needed(base: nat, ds: seq<Desc>): int { EndOf(base, Rings(ds)) - base }

  /** Wrapping the running address changes neither the padding nor the wrapped sum. */
  lemma WrappedStep(address: nat, total: nat, size: nat, end: nat, base: nat)
    requires address == end % SIZE && end >= base && total == (end - base) % SIZE
    ensures Pad(address) == Pad(end)
    ensures (address + Pad(address) + size) % SIZE == (end + Pad(end) + size) % SIZE
    ensures (total + Pad(address) + size) % SIZE == (end + Pad(end) + size - base) % SIZE
  {
    ModOfMultiple(end, SIZE, LINE);
    ModAdd(end, Pad(end) + size, SIZE);
    ModAdd(end - base, Pad(end) + size, SIZE);
  }

  /** check_memory_capacity, from the ring region on. */
  method CheckCapacity(base: nat, limit: nat, ds: seq<Desc>) returns (ok: bool)
    requires base < SIZE && limit < SIZE && forall i :: 0 <= i < |ds| ==> ds[i].Typed()
    ensures ok <==> (forall i :: 0 <= i < |ds| ==> ValidDesc(ds[i])) && Needed(base, ds) % SIZE <= limit
  {
    hide Pad, Stride;
    var address, total := base, 0;
    ghost var done: seq<Desc> := [];
    ModIs(base, 0, base, SIZE);
    address, total := Grow(base, address, total, done, LOCK_RING);
    done := [LOCK_RING];
    var i := 0;
    while i < |ds|
      invariant 0 <= i <= |ds| && done == Rings(ds[..i])
      invariant forall k :: 0 <= k < i ==> ValidDesc(ds[k])
      invariant EndOf(base, done) >= base
      invariant address == EndOf(base, done) % SIZE && total == (EndOf(base, done) - base) % SIZE
    {
      if ds[i].priority == 0 || ds[i].priority >= MAX_PRIORITIES {
        return false;
      }
      if !PowerOfTwo(ds[i].capacity) {
        return false;
      }
      if ds[i].maxMsg < MESSAGE {
        return false;
      }
      address, total := Grow(base, address, total, done, ds[i]);
      done := done + [ds[i]];
      assert ds[..i + 1] == ds[..i] + [ds[i]];
      i := i + 1;
    }
    assert ds[..i] == ds;
    ok := total <= limit;
  }

  /** One ring added to the running address and total, both 64 bits wide. */
  method Grow(ghost base: nat, address: nat, total: nat, ghost done: seq<Desc>, d: Desc) returns (next: nat, sum: nat)
    requires EndOf(base, done) >= base && address == EndOf(base, done) % SIZE &&
      total == (EndOf(base, done) - base) % SIZE
    ensures EndOf(base, done + [d]) >= base
    ensures next == EndOf(base, done + [d]) % SIZE && sum == (EndOf(base, done + [d]) - base) % SIZE
  {
    var pad, size := Pad(address), RingSize(d);
    EndOfAppend(base, done, d);
    WrappedStep(address, total, size, EndOf(base, done), base);
    hide Pad, RingSize, EndOf;
    sum := (total + pad + size) % SIZE;
    next := (address + pad + size) % SIZE;
  }

  // ---- placing the rings ------------------------------------------------------------------------

  /** The largest message any of the rings accepts. */
  function Widest(ds: seq<Desc>): (w: nat)
    ensures forall i :: 0 <= i < |ds| ==> ds[i].maxMsg <= w
    ensures w == 0 || exists i :: 0 <= i < |ds| && ds[i].maxMsg == w
  {
    if ds == [] then 0
    else
      var w := Widest(ds[..|ds| - 1]);
      if ds[|ds| - 1].maxMsg > w then ds[|ds| - 1].maxMsg else w
  }

  predicate DistinctPriorities(ds: seq<Desc>) { forall i, j :: 0 <= i < j < |ds| ==> ds[i].priority != ds[j].priority }

  predicate Creatable(ds: seq<Desc>) {
    && (forall i :: 0 <= i < |ds| ==> 0 < ds[i].priority < MAX_PRIORITIES && PowerOfTwo(ds[i].capacity))
    && DistinctPriorities(ds)
  }

  /** The offset the code records for ring i. */
  function Offset(base: nat, ds: seq<Desc>, i: nat): int
    requires i < |Place(base, ds)|
  {
    (Place(base, ds)[i].start - base) % SIZE
  }

  /** One ring placed at the next aligned address; the constructor refuses a capacity that is not a power of two. */
  method PlaceNext(base: nat, address: nat, ghost done: seq<Desc>, d: Desc) returns (offset: nat, next: nat)
    requires address == EndOf(base, done) % SIZE
    ensures next == EndOf(base, done + [d]) % SIZE
    ensures |Place(base, done + [d])| == |done| + 1 == |Place(base, done)| + 1
    ensures Place(base, done + [d])[..|Place(base, done)|] == Place(base, done)
    ensures offset == Offset(base, done + [d], |done|)
  {
    ghost var end := EndOf(base, done);
    EndOfAppend(base, done, d);
    PlaceAppend(base, done, d);
    PlaceFacts(base, done);
    WrappedStart(address, end, base, RingSize(d));
    hide EndOf, RingSize, Pad;
    var start := (address + Pad(address)) % SIZE;
    offset := (start - base) % SIZE;
    next := (start + RingSize(d)) % SIZE;
    assert Place(base, done + [d])[|done|].start == end + Pad(end);
  }

  lemma WrappedStart(address: nat, end: nat, base: nat, size: nat)
    requires address == end % SIZE
    ensures ((address + Pad(address)) % SIZE - base) % SIZE == (end + Pad(end) - base) % SIZE
    ensures ((address + Pad(address)) % SIZE + size) % SIZE == (end + Pad(end) + size) % SIZE
  {
    ModOfMultiple(end, SIZE, LINE);
    assert Pad(address) == Pad(end);
    hide Pad;
    ModAdd(end, Pad(end), SIZE);
    var back: int := base;
    ModAdd(end + Pad(end), -back, SIZE);
    ModAdd(end + Pad(end), size, SIZE);
  }

  /** The rings placed so far: recorded offsets and the next free address. */
  predicate Laid(base: nat, done: seq<Desc>, offsets: seq<nat>, address: nat) {
    && address == EndOf(base, done) % SIZE
    && |offsets| == |done| == |Place(base, done)|
    && forall k :: 0 <= k < |offsets| ==> offsets[k] == Offset(base, done, k)
  }

  method LayNext(base: nat, ghost done: seq<Desc>, offsets: seq<nat>, address: nat, d: Desc)
    returns (after: seq<nat>, next: nat)
    requires Laid(base, done, offsets, address)
    ensures Laid(base, done + [d], after, next)
  {
    hide EndOf, Place, Offset;
    var offset;
    offset, next := PlaceNext(base, address, done, d);
    OffsetsKept(base, done, d);
    after := offsets + [offset];
  }

  lemma LaidNone(base: nat)
    requires base < SIZE
    ensures Laid(base, [], [], base)
  {
    ModIs(base, 0, base, SIZE);
  }

  /** Whether the next ring is refused. */
  method Refused(ds: seq<Desc>, i: nat) returns (refused: bool)
    requires i < |ds| && Creatable(ds[..i])
    ensures refused ==> !Creatable(ds)
    ensures !refused ==> Creatable(ds[..i + 1])
  {
    var d := ds[i];
    if d.priority == 0 || d.priority >= MAX_PRIORITIES {
      return true;
    }
    var used := InUse(ds, i);
    if used {
      return true;
    }
    refused := !PowerOfTwo(d.capacity);
  }

  lemma WidestAppend(ds: seq<Desc>, d: Desc)
    ensures Widest(ds + [d]) == if d.maxMsg > Widest(ds) then d.maxMsg else Widest(ds)
  {
    assert (ds + [d])[..|ds|] == ds;
  }

  /** create_local_rings: offsets in creation order, and the size of the dispatcher's buffer (32 bits). */
  method CreateRings(base: nat, ds: seq<Desc>) returns (ok: bool, offsets: seq<nat>, buffer: nat)
    requires base < SIZE && forall i :: 0 <= i < |ds| ==> ds[i].Typed()
    ensures ok <==> Creatable(ds)
    ensures ok ==> |offsets| == |Rings(ds)| == |Place(base, Rings(ds))|
    ensures ok ==> forall i :: 0 <= i < |offsets| ==> offsets[i] == Offset(base, Rings(ds), i)
    ensures ok ==> buffer == (Widest(Rings(ds)) + MESSAGE_HEADER + 64) % U32
  {
    hide EndOf, Place, Offset, Creatable, Widest;
    LaidNone(base);
    var address := base;
    offsets, address := LayNext(base, [], [], address, LOCK_RING);
    assert [] + [LOCK_RING] == Rings(ds[..0]) == [LOCK_RING];
    var widest := LOCK_RING.maxMsg;
    LockRingWidest();
    buffer := 0;
    assert Creatable(ds[..0]) by { NoneCreatable(ds[..0]); }
    var i := 0;
    while i < |ds|
      invariant 0 <= i <= |ds| && Laid(base, Rings(ds[..i]), offsets, address)
      invariant Creatable(ds[..i]) && widest == Widest(Rings(ds[..i]))
    {
      var refused := Refused(ds, i);
      if refused {
        return false, offsets, 0;
      }
      offsets, address := LayNext(base, Rings(ds[..i]), offsets, address, ds[i]);
      WidestAppend(Rings(ds[..i]), ds[i]);
      assert Rings(ds[..i + 1]) == Rings(ds[..i]) + [ds[i]];
      widest := if ds[i].maxMsg > widest then ds[i].maxMsg else widest;
      i := i + 1;
    }
    assert ds[..i] == ds;
    buffer := (widest + MESSAGE_HEADER + 64) % U32;
    ok := true;
  }

  lemma LockRingWidest()
    ensures Widest([LOCK_RING]) == LOCK_RING.maxMsg
  {
    WidestAppend([], LOCK_RING);
    assert [] + [LOCK_RING] == [LOCK_RING];
  }

  lemma NoneCreatable(ds: seq<Desc>)
    requires ds == []
    ensures Creatable(ds)
  {
  }

  lemma EndOfNone(base: nat)
    ensures EndOf(base, []) == base
  {
  }

  lemma OffsetsKept(base: nat, done: seq<Desc>, d: Desc)
    requires |Place(base, done + [d])| > |Place(base, done)|
    requires Place(base, done + [d])[..|Place(base, done)|] == Place(base, done)
    ensures forall k :: 0 <= k < |Place(base, done)| ==> Offset(base, done + [d], k) == Offset(base, done, k)
  {
    forall k | 0 <= k < |Place(base, done)| ensures Place(base, done + [d])[k] == Place(base, done)[k] {
      assert Place(base, done + [d])[..|Place(base, done)|][k] == Place(base, done)[k];
    }
  }

  /** Whether an earlier ring has the same priority. */
  method InUse(ds: seq<Desc>, i: nat) returns (used: bool)
    requires i < |ds|
    ensures used <==> exists j :: 0 <= j < i && ds[j].priority == ds[i].priority
  {
    var j := 0;
    while j < i
      invariant 0 <= j <= i
      invariant forall k :: 0 <= k < j ==> ds[k].priority != ds[i].priority
    {
      if ds[j].priority == ds[i].priority {
        return true;
      }
      j := j + 1;
    }
    return false;
  }

  // ---- both passes together ----------------------------------------------------------------------

  /** The 64-bit address at which ring i begins: the region's base plus the recorded offset. */
  function Start(base: nat, ds: seq<Desc>, i: nat): nat
    requires i < |Place(base, ds)|
  {
    (base + Offset(base, ds, i)) % SIZE
  }

  /** Whether ring i uses the byte at a 64-bit address, counting from its start with wrap-around. */
  predicate Covers(base: nat, ds: seq<Desc>, i: nat, address: nat)
    requires i < |Place(base, ds)| && i < |ds|
  {
    (address - Start(base, ds, i)) % SIZE < RingSize(ds[i])
  }

  predicate Inside(base: nat, limit: nat, ds: seq<Desc>)
    requires |Place(base, ds)| == |ds|
  {
    forall i :: 0 <= i < |ds| ==> base <= Start(base, ds, i) && Start(base, ds, i) + RingSize(ds[i]) <= base + limit
  }

  /** No byte belongs to two rings. */
  predicate Disjoint(base: nat, ds: seq<Desc>)
    requires |Place(base, ds)| == |ds|
  {
    forall i, j, address ::
      0 <= i < j < |ds| && 0 <= address < SIZE ==> !(Covers(base, ds, i, address) && Covers(base, ds, j, address))
  }

  lemma StartIs(base: nat, ds: seq<Desc>, i: nat)
    requires i < |Place(base, ds)|
    ensures Start(base, ds, i) == Place(base, ds)[i].start % SIZE
    ensures Place(base, ds)[i].start < SIZE ==> Start(base, ds, i) == Place(base, ds)[i].start
  {
    var start := Place(base, ds)[i].start;
    ModAdd(start - base, base, SIZE);
    if start < SIZE { ModIs(start, 0, start, SIZE); }
  }

  /** A ring that does not wrap covers the bytes from its start to its end. */
  lemma CoversInterval(base: nat, ds: seq<Desc>, i: nat, address: nat)
    requires i < |Place(base, ds)| && i < |ds| && address < SIZE
    requires Start(base, ds, i) + RingSize(ds[i]) <= SIZE
    ensures Covers(base, ds, i, address) <==>
      Start(base, ds, i) <= address < Start(base, ds, i) + RingSize(ds[i])
  {
    hide Start, RingSize;
    var d := address - Start(base, ds, i);
    if d >= 0 { ModIs(d, 0, d, SIZE); } else { ModIs(d, -1, d + SIZE, SIZE); }
  }

  /** No ring but the lock ring begins at address zero: it would have to be the region's base. */
  lemma OnlyFirstAtZero(base: nat, limit: nat, ds: seq<Desc>, n: nat)
    requires 0 < n < |ds| == |Place(base, ds)| && Inside(base, limit, ds) && Disjoint(base, ds)
    ensures Start(base, ds, n) != 0
  {
    if Start(base, ds, n) == 0 {
      hide Place, RingSize, Covers, Start;
      FirstAtZero(ds);
      ZeroCovered(base, ds, 0);
      ZeroCovered(base, ds, n);
    }
  }

  lemma FirstBelow(base: nat, limit: nat, ds: seq<Desc>)
    requires ds != [] && |Place(base, ds)| == |ds| && Inside(base, limit, ds)
    ensures Place(base, ds)[0].start != SIZE
  {
    StartIs(base, ds, 0);
    assert base == 0 ==> Pad(base) == 0;
    assert Place(base, ds)[0].start == base + Pad(base);
  }

  /** If the rings so far end inside the region, so does the next one. */
  lemma NextEndsInside(base: nat, limit: nat, ds: seq<Desc>, n: nat)
    requires base + limit <= SIZE && n < |ds| == |Place(base, ds)|
    requires Inside(base, limit, ds) && Disjoint(base, ds) && EndOf(base, ds[..n]) <= base + limit
    ensures EndOf(base, ds[..n + 1]) <= base + limit
  {
    hide EndOf, Place, Pad, RingSize, Start, Disjoint;
    var start := Place(base, ds)[n].start;
    NextStart(base, ds, n);
    PadBelow(EndOf(base, ds[..n]));
    StartIs(base, ds, n);
    assert start != SIZE by {
      if n == 0 { FirstBelow(base, limit, ds); } else { OnlyFirstAtZero(base, limit, ds, n); }
    }
    assert Start(base, ds, n) == start;
  }

  lemma {:induction false} EndsInside(base: nat, limit: nat, ds: seq<Desc>, n: nat)
    requires base + limit <= SIZE && n <= |ds| == |Place(base, ds)|
    requires Inside(base, limit, ds) && Disjoint(base, ds)
    ensures EndOf(base, ds[..n]) <= base + limit
    decreases n
  {
    hide Inside, Disjoint, Place, EndOf;
    if n == 0 {
      EndOfNone(base);
    } else {
      EndsInside(base, limit, ds, n - 1);
      NextEndsInside(base, limit, ds, n - 1);
    }
  }

  lemma NextStart(base: nat, ds: seq<Desc>, n: nat)
    requires n < |ds| == |Place(base, ds)|
    ensures var end := EndOf(base, ds[..n]);
      && Place(base, ds)[n].start == end + Pad(end)
      && EndOf(base, ds[..n + 1]) == end + Pad(end) + RingSize(ds[n])
  {
    assert ds[..n + 1] == ds[..n] + [ds[n]];
    EndOfAppend(base, ds[..n], ds[n]);
    PlaceAppend(base, ds[..n], ds[n]);
    PlaceFacts(base, ds[..n]);
    PlacePrefix(base, ds, n + 1);
  }

  lemma {:induction false} PlacePrefix(base: nat, ds: seq<Desc>, n: nat)
    requires n <= |ds|
    ensures n <= |Place(base, ds)| && Place(base, ds[..n]) == Place(base, ds)[..n]
    decreases |ds| - n
  {
    if n == |ds| {
      assert ds[..n] == ds;
      PlaceFacts(base, ds);
    } else {
      PlacePrefix(base, ds, n + 1);
      PlaceAppend(base, ds[..n], ds[n]);
      PlaceFacts(base, ds[..n]);
      assert ds[..n + 1] == ds[..n] + [ds[n]];
    }
  }

  /** Rounding up to a cache line does not pass 2^64, itself a multiple of the line. */
  lemma PadBelow(address: nat)
    requires address <= SIZE
    ensures address + Pad(address) <= SIZE
  {
    PadAligns(address);
  }

  lemma FirstAtZero(ds: seq<Desc>)
    requires ds != [] && |Place(0, ds)| == |ds|
    ensures Start(0, ds, 0) == 0
  {
    StartIs(0, ds, 0);
    assert Pad(0) == 0;
  }

  lemma ZeroCovered(base: nat, ds: seq<Desc>, i: nat)
    requires i < |ds| == |Place(base, ds)| && Start(base, ds, i) == 0
    ensures Covers(base, ds, i, 0)
  {
    assert RingSize(ds[i]) > 0;
    hide RingSize, Start;
    ModIs(0, 0, 0, SIZE);
  }

  /** When the sizes do not pass 2^64, ring i is at its place in the unbounded layout. */
  lemma UnwrappedStart(base: nat, limit: nat, ds: seq<Desc>, i: nat)
    requires base + limit <= SIZE && EndOf(base, ds) <= base + limit && i < |ds| == |Place(base, ds)|
    ensures Start(base, ds, i) == Place(base, ds)[i].start && Offset(base, ds, i) == Place(base, ds)[i].start - base
    ensures base <= Start(base, ds, i) && Start(base, ds, i) + RingSize(ds[i]) <= base + limit
  {
    assert RingSize(ds[i]) > 0;
    hide Place, EndOf, RingSize, Start, Offset;
    PlacedWithin(base, ds, i);
    StartIs(base, ds, i);
    OffsetIs(base, ds, i);
  }

  lemma PlacedWithin(base: nat, ds: seq<Desc>, i: nat)
    requires i < |ds| == |Place(base, ds)|
    ensures base <= Place(base, ds)[i].start && Place(base, ds)[i].start + RingSize(ds[i]) <= EndOf(base, ds)
  {
    PlaceFacts(base, ds);
    hide Place, EndOf, RingSize;
  }

  lemma OffsetIs(base: nat, ds: seq<Desc>, i: nat)
    requires i < |Place(base, ds)| && 0 <= Place(base, ds)[i].start - base < SIZE
    ensures Offset(base, ds, i) == Place(base, ds)[i].start - base
  {
    hide Place;
    var offset := Place(base, ds)[i].start - base;
    ModIs(offset, 0, offset, SIZE);
  }

  lemma UnwrappedDisjoint(base: nat, limit: nat, ds: seq<Desc>)
    requires base + limit <= SIZE && EndOf(base, ds) <= base + limit && |ds| == |Place(base, ds)|
    ensures Disjoint(base, ds)
  {
    PlaceFacts(base, ds);
    hide Place, EndOf, RingSize, Covers;
    forall i, j, address | 0 <= i < j < |ds| && 0 <= address < SIZE
      ensures !(Covers(base, ds, i, address) && Covers(base, ds, j, address))
    {
      UnwrappedStart(base, limit, ds, i);
      UnwrappedStart(base, limit, ds, j);
      CoversInterval(base, ds, i, address);
      CoversInterval(base, ds, j, address);
      assert Place(base, ds)[i].End() <= Place(base, ds)[j].start;
    }
  }

  lemma AlignedStart(base: nat, ds: seq<Desc>, i: nat)
    requires i < |ds| == |Place(base, ds)|
    ensures Start(base, ds, i) % LINE == 0
  {
    PlaceFacts(base, ds);
    StartIs(base, ds, i);
    ModOfMultiple(Place(base, ds)[i].start, SIZE, LINE);
  }

  /**
  Rings that passed the capacity check lie inside the region and share no byte,
  at the 64-bit addresses they are given, if and only if their sizes add up to
  less than 2^64. Aligned they are in any case.
  */
  lemma LayoutExactly(base: nat, limit: nat, ds: seq<Desc>)
    requires base + limit <= SIZE && 0 < limit < SIZE && Needed(base, ds) % SIZE <= limit
    ensures var rings := Rings(ds);
      && |Place(base, rings)| == |rings|
      && (Inside(base, limit, rings) && Disjoint(base, rings) <==> Needed(base, ds) < SIZE)
      && (forall i :: 0 <= i < |rings| ==> Start(base, rings, i) % LINE == 0)
  {
    var rings := Rings(ds);
    PlaceFacts(base, rings);
    hide EndOf, Place, RingSize, Disjoint, Start;
    if Needed(base, ds) < SIZE {
      ModIs(Needed(base, ds), 0, Needed(base, ds), SIZE);
      forall i | 0 <= i < |rings|
        ensures base <= Start(base, rings, i) && Start(base, rings, i) + RingSize(rings[i]) <= base + limit
      {
        UnwrappedStart(base, limit, rings, i);
      }
      UnwrappedDisjoint(base, limit, rings);
    } else if Inside(base, limit, rings) && Disjoint(base, rings) {
      assert rings[..|rings|] == rings;
      EndsInside(base, limit, rings, |rings|);
    }
    forall i | 0 <= i < |rings| ensures Start(base, rings, i) % LINE == 0 {
      AlignedStart(base, rings, i);
    }
  }

  /** Every entry of a ring, header and longest message, lies inside the ring and off its neighbours. */
  lemma EntriesInside(p: Placed, k: nat)
    requires k < p.desc.capacity
    ensures var at := p.start + DATA_OFFSET + k * Stride(p.desc.maxMsg);
      && p.start + DATA_OFFSET <= at
      && at + ENTRY_HEADER + p.desc.maxMsg <= at + Stride(p.desc.maxMsg) <= p.End()
      && (p.start % LINE == 0 ==> at % LINE == 0)
  {
    var stride := Stride(p.desc.maxMsg);
    assert (k + 1) * stride <= p.desc.capacity * stride by { Product(k + 1, stride, p.desc.capacity, stride); }
    PadAligns(ENTRY_HEADER + p.desc.maxMsg);
    if p.start % LINE == 0 {
      var q := stride / LINE;
      assert k * stride == k * q * LINE by { assert stride == q * LINE; }
      ModIs(p.start + DATA_OFFSET + k * stride, p.start / LINE + 3 + k * q, 0, LINE);
    }
  }

  /** The dispatcher's buffer holds any message of any ring if and only if its 32-bit size did not wrap. */
  lemma BufferExactly(ds: seq<Desc>)
    requires forall i :: 0 <= i < |ds| ==> ds[i].Typed()
    ensures var rings := Rings(ds);
      (forall i :: 0 <= i < |rings| ==> rings[i].maxMsg <= (Widest(rings) + MESSAGE_HEADER + 64) % U32)
      <==> Widest(rings) + MESSAGE_HEADER + 64 < U32
  {
    var rings := Rings(ds);
    assert rings[0] == LOCK_RING;
    var i :| 0 <= i < |rings| && rings[i].maxMsg == Widest(rings);
    assert i > 0 ==> rings[i] == ds[i - 1];
  }

  const BIG_ONE := Desc(0x8000_0000, 0xFFFF_FFF8, 1)
  const BIG_TWO := Desc(0x8000_0000, 0xFFFF_FFF8, 2)

  lemma BigRings()
    ensures RingSize(BIG_ONE) == RingSize(BIG_TWO) == 0x8000_0000_0000_0000 + 192 && RingSize(LOCK_RING) == 786624
  {
    assert Stride(0xFFFF_FFF8) == U32 && Stride(128) == 192;
  }

  lemma AlignedStep(address: nat, ds: seq<Desc>, d: Desc)
    requires EndOf(address, ds) % LINE == 0 && RingSize(d) % LINE == 0
    ensures EndOf(address, ds + [d]) == EndOf(address, ds) + RingSize(d) && EndOf(address, ds + [d]) % LINE == 0
  {
    EndOfAppend(address, ds, d);
    hide EndOf, RingSize;
  }

  /** Where the rings of an aligned region end, one after the other. */
  lemma BigEnds(base: nat)
    requires base % LINE == 0
    ensures EndOf(base, [LOCK_RING] + [BIG_ONE]) == base + 0x8000_0000_0000_0000 + 786816
    ensures EndOf(base, [LOCK_RING] + [BIG_ONE]) % LINE == 0
    ensures EndOf(base, Rings([BIG_ONE, BIG_TWO])) == base + SIZE + 787008
  {
    BigRings();
    EndOfNone(base);
    hide RingSize, EndOf;
    AlignedStep(base, [], LOCK_RING);
    assert [] + [LOCK_RING] == [LOCK_RING];
    AlignedStep(base, [LOCK_RING], BIG_ONE);
    AlignedStep(base, [LOCK_RING] + [BIG_ONE], BIG_TWO);
    assert Rings([BIG_ONE, BIG_TWO]) == [LOCK_RING] + [BIG_ONE] + [BIG_TWO];
  }

  lemma AlignedFirst(base: nat, ds: seq<Desc>)
    requires base % LINE == 0 && base < SIZE && ds != [] && |Place(base, ds)| == |ds|
    ensures Start(base, ds, 0) == base
  {
    StartIs(base, ds, 0);
    assert Pad(base) == 0 && Place(base, ds)[0].start == base;
  }

  lemma BigStart(base: nat)
    requires base % LINE == 0
    ensures var rings := Rings([BIG_ONE, BIG_TWO]);
      |Place(base, rings)| == 3 && Start(base, rings, 2) == (base + 0x8000_0000_0000_0000 + 786816) % SIZE
  {
    var rings := Rings([BIG_ONE, BIG_TWO]);
    BigEnds(base);
    PlaceFacts(base, rings);
    hide EndOf, Place, RingSize;
    assert rings[..2] == [LOCK_RING] + [BIG_ONE];
    NextStart(base, rings, 2);
    StartIs(base, rings, 2);
  }

  /** How far behind the start of the last ring the region's base is, with wrap-around. */
  lemma BigDistance(base: nat)
    ensures (base - (base + 0x8000_0000_0000_0000 + 786816) % SIZE) % SIZE == 0x8000_0000_0000_0000 - 786816
  {
    var far := base + 0x8000_0000_0000_0000 + 786816;
    var q := far / SIZE;
    assert far == q * SIZE + far % SIZE;
    ModIs(base - far % SIZE, q - 1, 0x8000_0000_0000_0000 - 786816, SIZE);
  }

  lemma BigCovers(base: nat)
    requires base % LINE == 0 && base < SIZE
    ensures var rings := Rings([BIG_ONE, BIG_TWO]);
      |Place(base, rings)| == |rings| && Covers(base, rings, 0, base) && Covers(base, rings, 2, base)
  {
    var rings := Rings([BIG_ONE, BIG_TWO]);
    BigRings();
    BigStart(base);
    BigDistance(base);
    AlignedFirst(base, rings);
    hide Place, Start, RingSize, Stride;
    assert rings[0] == LOCK_RING && rings[2] == BIG_TWO;
    ModIs(0, 0, 0, SIZE);
  }

  /**
  Two rings of 2^63 bytes and a little more pass the check of a one-megabyte
  region, wherever it lies. The last of them runs past 2^64 and over the lock
  ring's first byte.
  */
  lemma WrapAccepted(base: nat)
    requires base % LINE == 0 && 0 < base && base + 0x10_0000 <= SIZE
    ensures var ds := [BIG_ONE, BIG_TWO];
      && (forall i :: 0 <= i < |ds| ==> ds[i].Typed() && ValidDesc(ds[i])) && Creatable(ds)
      && Needed(base, ds) % SIZE <= 0x10_0000
      && |Place(base, Rings(ds))| == |Rings(ds)| && !Inside(base, 0x10_0000, Rings(ds))
      && Covers(base, Rings(ds), 0, base) && Covers(base, Rings(ds), 2, base)
  {
    var rings := Rings([BIG_ONE, BIG_TWO]);
    HalfOfU32();
    BigEnds(base);
    BigRings();
    BigCovers(base);
    hide EndOf, Place, PowerOfTwo, RingSize, Start, Covers;
    assert rings[1] == BIG_ONE;
    ModIs(SIZE + 787008, 1, 787008, SIZE);
    assert Start(base, rings, 1) + RingSize(rings[1]) > base + 0x10_0000 || Start(base, rings, 1) < base;
  }

  const WIDE := Desc(2, 0xFFFF_FFFF, 1)

  lemma WideNeeds(base: nat)
    requires base % LINE == 0
    ensures Needed(base, [WIDE]) == 2 * (U32 + 64) + 786816
  {
    assert RingSize(LOCK_RING) == 786624 && Stride(0xFFFF_FFFF) == U32 + 64;
    assert RingSize(WIDE) == 2 * (U32 + 64) + 192;
    EndOfNone(base);
    hide RingSize, Stride, EndOf;
    AlignedStep(base, [], LOCK_RING);
    assert [] + [LOCK_RING] == [LOCK_RING] && Rings([WIDE]) == [LOCK_RING] + [WIDE];
    AlignedStep(base, [LOCK_RING], WIDE);
  }

  lemma WideBuffer()
    ensures Widest(Rings([WIDE])) == WIDE.maxMsg
  {
    LockRingWidest();
    WidestAppend([LOCK_RING], WIDE);
    assert Rings([WIDE]) == [LOCK_RING] + [WIDE];
  }

  /**
  One ring of two entries passes the capacity check of a 16-gigabyte region and
  is created, and the buffer is 79 bytes for messages of up to 2^32 - 1.
  */
  method BufferWraps(base: nat) returns (checked: bool, created: bool, buffer: nat)
    requires base % LINE == 0 && 0 < base && base + 0x4_0000_0000 <= SIZE
    ensures checked && created && buffer == 79 < WIDE.maxMsg
  {
    hide Needed, Widest, Place, Offset;
    WideNeeds(base);
    WideBuffer();
    assert PowerOfTwo(2);
    checked := CheckCapacity(base, 0x4_0000_0000, [WIDE]);
    var offsets;
    created, offsets, buffer := CreateRings(base, [WIDE]);
  }
}
