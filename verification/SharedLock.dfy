/**
The words of the shared lock and what they mean: who holds S, SX and X across
nodes, written as numbers and read back.
*/
module SharedLock {
  import opened LockTypes

  const NO_OWNER := 255 * U32   // LOCK_INVALID_OWNER

  type Tid = t: int | -0x8000_0000 <= t < 0x8000_0000

  /** A node's X or SX hold with its recursion count. */
  datatype Holder = Holder(node: nat, tid: Tid, rec: nat)

  datatype Holdings = Holdings(readers: set<nat>, sx: Option<Holder>, x: Option<Holder>)

  /** The shared words; the reader bitmap is the set of its set bits. */
  datatype Words = Words(lockWord: int, ownerX: nat, ownerSX: nat, reserve: nat, xRec: nat, sxRec: nat,
                         bitmap: set<nat>)

  // ---- owner words --------------------------------------------------------------

  /** make_global_owner: node in the high half, the thread id cast to uint32 in the low half. */
  function OwnerWord(node: nat, tid: Tid): nat { node * U32 + tid % U32 }

  function OwnerNode(owner: nat): nat { owner / U32 }

  function OwnerTid(owner: nat): Tid {
    var low := owner % U32;
    if low < 0x8000_0000 then low else low - U32
  }

  lemma OwnerRoundTrip(node: nat, tid: Tid)
    ensures OwnerNode(OwnerWord(node, tid)) == node
    ensures OwnerTid(OwnerWord(node, tid)) == tid
    ensures node < MAX_NODES ==> OwnerWord(node, tid) != NO_OWNER
  {
  }

  /** An owner word is its node and its thread, and nothing else. */
  lemma OwnerIs(owner: nat, node: nat, tid: Tid)
    ensures OwnerNode(owner) == node && OwnerTid(owner) == tid <==> owner == OwnerWord(node, tid)
  {
    OwnerRoundTrip(node, tid);
    assert owner == OwnerNode(owner) * U32 + owner % U32;
  }

  // ---- encoding ---------------------------------------------------------------------

  predicate Consistent(h: Holdings) {
    && (forall n :: n in h.readers ==> n < MAX_NODES)
    && (h.sx.Some? ==> h.sx.value.node < MAX_NODES && h.sx.value.rec > 0)
    && (h.x.Some? ==> h.x.value.node < MAX_NODES && h.x.value.rec > 0 && h.readers == {} && h.sx.None?)
  }

  function NameOf(o: Option<Holder>): nat {
    match o
    case None => NO_OWNER
    case Some(who) => OwnerWord(who.node, who.tid)
  }

  function RecOf(o: Option<Holder>): nat { if o.None? then 0 else o.value.rec }

  function WordFor(readers: nat, sx: bool, x: bool): int {
    if x then 0 else FREE - readers - (if sx then HALF else 0)
  }

  function Encode(h: Holdings, reserve: nat): Words {
    Words(WordFor(|h.readers|, h.sx.Some?, h.x.Some?), NameOf(h.x), NameOf(h.sx), reserve, RecOf(h.x), RecOf(h.sx),
          h.readers)
  }

  function Decode(w: Words): Holdings {
    Holdings(w.bitmap,
             if 0 < w.lockWord <= HALF then Some(Holder(OwnerNode(w.ownerSX), OwnerTid(w.ownerSX), w.sxRec)) else None,
             if w.lockWord == 0 then Some(Holder(OwnerNode(w.ownerX), OwnerTid(w.ownerX), w.xRec)) else None)
  }

  lemma {:induction false} FewNodes(nodes: set<nat>, bound: nat)
    requires forall n :: n in nodes ==> n < bound
    ensures |nodes| <= bound
  {
    if bound > 0 {
      var rest := nodes - {bound - 1};
      FewNodes(rest, bound - 1);
      assert nodes <= rest + {bound - 1};
      assert bound - 1 in nodes ==> nodes == rest + {bound - 1};
      assert bound - 1 !in nodes ==> nodes == rest;
    } else {
      assert nodes == {};
    }
  }

  /** The words determine the holdings: no two consistent holdings are written alike. */
  lemma DecodeEncode(h: Holdings, reserve: nat)
    requires Consistent(h)
    ensures Decode(Encode(h, reserve)) == h
  {
    FewNodes(h.readers, MAX_NODES);
    if h.sx.Some? { OwnerRoundTrip(h.sx.value.node, h.sx.value.tid); }
    if h.x.Some? { OwnerRoundTrip(h.x.value.node, h.x.value.tid); }
  }

  /** expected_shared_owner_count. */
  function ExpectedShared(lockWord: int): int {
    if 0 < lockWord < HALF then HALF - lockWord
    else if HALF < lockWord < FREE then FREE - lockWord
    else 0
  }

  /** The count read out of the lock word is the number of bits in the bitmap. */
  lemma ExpectedIsPopulation(h: Holdings, reserve: nat)
    requires Consistent(h)
    ensures ExpectedShared(Encode(h, reserve).lockWord) == |Encode(h, reserve).bitmap|
  {
    FewNodes(h.readers, MAX_NODES);
  }
}
