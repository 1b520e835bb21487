/**
The shared lock object: recovery of a failed node and rebuilding from reports,
as sequential code over the words and the wait queue. Callers keep every other
lock call away while either runs.
*/
module RwLock {
  import opened LockTypes
  import opened SharedLock
  import opened WaitQueue
  import Recovery
  import opened Rebuild

  const REBUILDING := -1   // REBUILD_INIT_IN_PROGRESS

  /** ub_rw_lock. */
  class SharedRwLock {
    const queue: RingQueue
    var lockWord: int
    var ownerX: nat
    var ownerSX: nat
    var reserve: nat
    var xRec: nat
    var sxRec: nat
    var bitmap: set<nat>
    var inited: int

    constructor (queue: RingQueue)
      ensures this.queue == queue && Get() == Encode(Holdings({}, None, None), NO_OWNER) && inited == 0
    {
      this.queue := queue;
      lockWord, ownerX, ownerSX, reserve := FREE, NO_OWNER, NO_OWNER, NO_OWNER;
      xRec, sxRec, bitmap, inited := 0, 0, {}, 0;
    }

    function Get(): Words
      reads this
    {
      Words(lockWord, ownerX, ownerSX, reserve, xRec, sxRec, bitmap)
    }

    // ---- recovery -----------------------------------------------------------------------

    /** try_take_valid_owner on one owner word; the first `spurious` weak CAS attempts fail. */
    static method TakeOwner(owner: nat, spurious: nat) returns (taken: bool, left: nat)
      ensures taken <==> Recovery.Takes(owner, spurious)
      ensures left == if taken then NO_OWNER else owner
    {
      var i := 0;
      while i < Recovery.TAKE_RETRIES
        invariant i <= Recovery.TAKE_RETRIES
        invariant owner == NO_OWNER || i <= spurious
      {
        if owner != NO_OWNER && i >= spurious {
          return true, NO_OWNER;
        }
        i := i + 1;
      }
      return false, owner;
    }

    method RecoverX(p: nat, spurious: nat)
      modifies `lockWord, `ownerX, `reserve, `xRec
      ensures Get() == Recovery.RecoverX(old(Get()), p, spurious)
    {
      var owner := ownerX;
      var taken, left := TakeOwner(ownerX, spurious);
      ownerX := left;
      if !taken {
        reserve := NO_OWNER;
        xRec := 0;
        lockWord := FREE;
      } else if OwnerNode(owner) != p {
        ownerX := owner;
      } else {
        reserve := NO_OWNER;
        xRec := 0;
        lockWord := FREE;
      }
    }

    method RecoverSx(p: nat, spurious: nat)
      modifies `lockWord, `ownerSX, `reserve, `sxRec
      ensures Get() == Recovery.RecoverSx(old(Get()), p, spurious)
    {
      var owner := ownerSX;
      var taken, left := TakeOwner(ownerSX, spurious);
      ownerSX := left;
      if !taken {
        reserve := NO_OWNER;
        sxRec := 0;
        lockWord := FREE;
      } else if OwnerNode(owner) != p {
        ownerSX := owner;
      } else {
        reserve := NO_OWNER;
        sxRec := 0;
        lockWord := FREE;
      }
    }

    method ClearFailedBit(p: nat) returns (was: bool)
      modifies `bitmap
      ensures was <==> p in old(bitmap)
      ensures bitmap == old(bitmap) - {p}
    {
      was := p in bitmap;
      if was { bitmap := bitmap - {p}; }
    }

    method RecoverShared(p: nat)
      modifies `lockWord, `bitmap, `reserve
      ensures Get() == Recovery.RecoverShared(old(Get()), p)
    {
      var expected := ExpectedShared(lockWord);
      var actual := |Recovery.ValidBits(bitmap)|;
      if actual == expected {
        var was := ClearFailedBit(p);
        if was {
          reserve := NO_OWNER;
          lockWord := lockWord + 1;
        } else {
          assert bitmap == old(bitmap);
        }
      } else if actual < expected {
        var _ := ClearFailedBit(p);
        reserve := NO_OWNER;
        var now := ExpectedShared(lockWord);
        if now > actual {
          lockWord := lockWord + (now - actual);
        }
      } else {
        var was := ClearFailedBit(p);
        if was {
          reserve := NO_OWNER;
        } else {
          assert bitmap == old(bitmap);
        }
      }
    }

    method RecoverSxAndShared(p: nat, spurious: nat)
      modifies `lockWord, `bitmap, `reserve, `ownerSX, `sxRec
      ensures Get() == Recovery.RecoverSxAndShared(old(Get()), p, spurious)
    {
      var owner := ownerSX;
      var taken, left := TakeOwner(ownerSX, spurious);
      ownerSX := left;
      if !taken || OwnerNode(owner) == p {
        reserve := NO_OWNER;
        sxRec := 0;
        lockWord := lockWord + HALF;
      } else {
        ownerSX := owner;
      }
      RecoverShared(p);
    }

    method RecoverWords(p: nat, spurious: nat)
      modifies `lockWord, `bitmap, `reserve, `ownerX, `xRec, `ownerSX, `sxRec
      ensures Get() == Recovery.RecoverWords(old(Get()), p, spurious)
    {
      hide OwnerNode, Recovery.RecoverShared, Recovery.Takes;
      var word := lockWord;
      if word == 0 {
        RecoverX(p, spurious);
      } else if word == HALF {
        RecoverSx(p, spurious);
      } else if 0 < word < HALF {
        RecoverSxAndShared(p, spurious);
      } else if HALF < word < FREE {
        RecoverShared(p);
      }
    }

    /** Times out every half-written slot and every live slot of the failed node. */
    method PurgeQueue(p: nat)
      requires queue.Shaped() && p < MAX_NODES
      modifies queue`count, queue.slots
      ensures queue.Shaped() && queue.NoWriting()
      ensures queue.slots[..] == Purged(old(queue.slots[..]), p)
      ensures Line(queue.Window()) == Others(Line(old(queue.Window())), p)
      ensures old(queue.Valid()) ==> queue.Valid()
    {
      var i := 0;
      while i < queue.cap
        invariant i <= queue.cap == queue.slots.Length && queue.Shaped()
        invariant forall j :: 0 <= j < i ==> queue.slots[j] == PurgedSlot(old(queue.slots[j]), p)
        invariant forall j :: i <= j < queue.cap ==> queue.slots[j] == old(queue.slots[j])
        invariant old(queue.Valid()) ==> queue.Valid()
      {
        ghost var before := queue.slots[..];
        if queue.slots[i].state.Writing? {
          var _ := queue.MarkTimeout(i);
        } else if queue.slots[i].node == p {
          var _ := queue.MarkTimeout(i);
        }
        assert forall j :: 0 <= j < queue.cap && j != i ==> queue.slots[..][j] == before[j];
        assert queue.slots[..][i] == PurgedSlot(before[i], p);
        i := i + 1;
      }
      assert queue.slots[..] == Purged(old(queue.slots[..]), p);
      PurgedLine(old(queue.slots[..]), queue.head, queue.Size(), p);
    }

    /**
    recover. Besides exact words: no live slot of p, nothing half-written, the
    survivors' waiters still in line and in order, and the first of them granted
    when the lock is free.
    */
    method Recover(p: nat, spurious: nat) returns (ok: bool)
      requires queue.Shaped()
      modifies this, queue, queue.slots
      ensures queue.Shaped()
      ensures ok <==> p < MAX_NODES && old(inited) >= 0
      ensures !ok ==> Get() == old(Get()) && inited == old(inited) && queue.slots[..] == old(queue.slots[..])
      ensures ok ==>
        && Get() == Recovery.RecoverWords(old(Get()), p, spurious)
        && inited == (if old(inited) > 1 then old(inited) - 1 else old(inited))
        && QueueRecovered(old(queue.slots[..]), queue.slots[..], p)
        && (lockWord != FREE ==> queue.slots[..] == Purged(old(queue.slots[..]), p))
      ensures old(queue.Valid()) ==> queue.Valid()
      ensures ok && old(queue.Valid()) ==>
        var line := Others(Line(old(queue.Window())), p);
        Line(queue.Window()) == if lockWord == FREE then After(line, |Granted(line, 0)|, 0) else line
    {
      if p >= MAX_NODES {
        return false;
      }
      if inited < 0 {
        return false;
      }
      RecoverWords(p, spurious);
      PurgeQueue(p);
      ghost var purged := queue.slots[..];
      if lockWord == FREE {
        var _ := queue.Wake(0);
        assert OnlyGranted(purged, queue.slots[..]);
      }
      PurgedThenGranted(old(queue.slots[..]), queue.slots[..], p);
      if inited > 1 {
        inited := inited - 1;
      }
      ok := true;
    }

    // ---- rebuild ----------------------------------------------------------------------------

    /** Whether the loop goes on past entry i; when it does not, no later entry could help. */
    static method Admits(es: seq<Entry>, i: nat, seen: set<nat>, x: Option<nat>, sx: Option<nat>, token: Option<nat>,
                         ghost nodes: set<nat>, count: nat)
      returns (ok: bool)
      requires i < |es| && Scanned(es, i, x, sx, token, nodes) && count == |nodes| && seen == NodesSeen(es, i)
      ensures !ok ==> !Acceptable(es)
      ensures ok ==> Basic(es[i]) && es[i].node !in seen
      ensures ok && es[i].reserve != I ==> token == None
      ensures ok && es[i].held == X ==> x == None
      ensures ok && es[i].held == SX ==> sx == None
    {
      hide Acceptable, Scanned, WellFormed;
      var e := es[i];
      if e.node >= MAX_NODES || e.node in seen || !WellFormed(e) {
        RefusedEntry(es, i);
        return false;
      }
      if e.reserve != I {
        if (e.held != I && !(e.held == S && e.shared)) || token != None {
          RefusedToken(es, i, x, sx, token, nodes);
          return false;
        }
      }
      FormedX(e);
      if e.held == X && (x != None || sx != None || (if e.shared then count + 1 else count) > 0) {
        RefusedX(es, i, x, sx, token, nodes);
        return false;
      }
      if e.held == SX && (sx != None || x != None) {
        RefusedSX(es, i, x, sx, token, nodes);
        return false;
      }
      return true;
    }

    /** Takes an admitted entry into account. */
    static method Note(es: seq<Entry>, i: nat, x: Option<nat>, sx: Option<nat>, token: Option<nat>, nodes: set<nat>,
                       count: nat)
      returns (nextX: Option<nat>, nextSX: Option<nat>, nextToken: Option<nat>, nextNodes: set<nat>, nextCount: nat)
      requires i < |es| && Scanned(es, i, x, sx, token, nodes) && count == |nodes|
      requires Basic(es[i]) && es[i].node !in NodesSeen(es, i)
      requires es[i].reserve != I ==> token == None
      requires es[i].held == X ==> x == None
      requires es[i].held == SX ==> sx == None
      ensures Scanned(es, i + 1, nextX, nextSX, nextToken, nextNodes) && nextCount == |nextNodes|
    {
      ScannedNext(es, i, x, sx, token, nodes);
      hide *;
      var e := es[i];
      nextToken := if e.reserve != I then Some(i) else token;
      nextCount := if e.shared then count + 1 else count;
      nextNodes := if e.shared then nodes + {e.node} else nodes;
      nextX := if e.held == X then Some(i) else x;
      nextSX := if e.held == SX then Some(i) else sx;
    }

    /** The scan refuses exactly the snapshots that are not acceptable, wherever it stops. */
    static method Scan(es: seq<Entry>)
      returns (ok: bool, x: Option<nat>, sx: Option<nat>, token: Option<nat>, nodes: set<nat>)
      ensures ok <==> Acceptable(es)
      ensures ok ==> Scanned(es, |es|, x, sx, token, nodes)
    {
      x, sx, token, nodes := None, None, None, {};
      assert Scanned(es, 0, x, sx, token, nodes);
      hide *;
      NodesSeenAt(es, 0);
      var count := 0;
      var seen: set<nat> := {};
      var i := 0;
      while i < |es|
        invariant i <= |es| && Scanned(es, i, x, sx, token, nodes) && count == |nodes| && seen == NodesSeen(es, i)
      {
        var admitted := Admits(es, i, seen, x, sx, token, nodes, count);
        if !admitted {
          return false, x, sx, token, nodes;
        }
        NodesSeenAt(es, i);
        seen := seen + {es[i].node};
        x, sx, token, nodes, count := Note(es, i, x, sx, token, nodes, count);
        i := i + 1;
      }
      ok := Judge(es, x, sx, token, nodes, count);
    }

    /** The checks once every entry has been seen. */
    static method Judge(es: seq<Entry>, x: Option<nat>, sx: Option<nat>, token: Option<nat>, ghost nodes: set<nat>,
                        count: nat)
      returns (ok: bool)
      requires Scanned(es, |es|, x, sx, token, nodes) && count == |nodes|
      ensures ok <==> Acceptable(es)
    {
      ok := !(x != None && (sx != None || count > 0)) &&
        (token == None ||
         match es[token.value].reserve
         case X => x == None && sx == None && count == 0
         case SX => x == None && sx == None
         case S => x == None
         case I => false);
      assert ok <==> Verdict(es, x, sx, token, nodes);
      hide *;
      if ok {
        VerdictSound(es, x, sx, token, nodes);
      } else if Acceptable(es) {
        VerdictComplete(es, x, sx, token, nodes);
      }
    }

    method WriteHolds(es: seq<Entry>, x: Option<nat>, sx: Option<nat>, nodes: set<nat>)
      requires x.Some? ==> x.value < |es| && !HasToken(es[x.value]) && sx.None? && nodes == {}
      requires sx.Some? ==> sx.value < |es| && !HasToken(es[sx.value])
      requires Get() == Encode(Holdings({}, None, None), NO_OWNER)
      modifies `lockWord, `ownerX, `ownerSX, `xRec, `sxRec
      ensures Get() == Encode(Holdings(nodes, HolderAt(es, sx), HolderAt(es, x)), NO_OWNER).(bitmap := {})
      ensures x.Some? ==> var e := es[x.value]; Names(ownerX, xRec, e.node, e.tid, e.rec)
      ensures sx.Some? ==> var e := es[sx.value]; Names(ownerSX, sxRec, e.node, e.tid, e.rec)
    {
      hide OwnerWord, OwnerNode, OwnerTid;
      if x != None { OwnerRoundTrip(es[x.value].node, es[x.value].tid); }
      if sx != None { OwnerRoundTrip(es[sx.value].node, es[sx.value].tid); }
      if x != None {
        lockWord := 0;
        ownerX := OwnerWord(es[x.value].node, es[x.value].tid);
        xRec := es[x.value].rec;
      } else if sx != None {
        lockWord := HALF - |nodes|;
        ownerSX := OwnerWord(es[sx.value].node, es[sx.value].tid);
        sxRec := es[sx.value].rec;
      } else if nodes != {} {
        lockWord := FREE - |nodes|;
      }
    }

    /** replay_delayed_release_state, and the reader bitmap. */
    method ReplayToken(es: seq<Entry>, x: Option<nat>, sx: Option<nat>, token: Option<nat>, nodes: set<nat>)
      requires token.Some? ==> token.value < |es| && HasToken(es[token.value])
      requires x.Some? ==> x.value < |es|
      requires sx.Some? ==> sx.value < |es|
      requires Verdict(es, x, sx, token, nodes)
      requires Get() == Encode(Holdings(nodes, HolderAt(es, sx), HolderAt(es, x)), NO_OWNER).(bitmap := {})
      modifies `lockWord, `ownerX, `ownerSX, `reserve, `xRec, `sxRec, `bitmap
      ensures Get() == Encode(Replayed(es, x, sx, token, nodes),
        if token.Some? then OwnerWord(es[token.value].node, 0) else NO_OWNER)
    {
      hide OwnerWord;
      var shared := nodes;
      if token != None {
        var t := es[token.value];
        reserve := OwnerWord(t.node, 0);
        match t.reserve
        case X =>
          lockWord := 0;
          ownerX := reserve;
          xRec := 1;
        case SX =>
          lockWord := HALF - |nodes|;
          ownerSX := reserve;
          sxRec := 1;
        case S =>
          shared := nodes + {t.node};
          lockWord := (if sx != None then HALF else FREE) - |shared|;
        case I =>
      }
      bitmap := shared;
    }

    method WriteSnapshot(es: seq<Entry>, x: Option<nat>, sx: Option<nat>, token: Option<nat>, nodes: set<nat>)
      requires Acceptable(es) && Scanned(es, |es|, x, sx, token, nodes)
      requires Get() == Encode(Holdings({}, None, None), NO_OWNER)
      modifies `lockWord, `ownerX, `ownerSX, `reserve, `xRec, `sxRec, `bitmap
      ensures Get() == Encode(HoldingsOf(es), TokenOf(es)) && Says(es, Get())
    {
      ScannedMeans(es, x, sx, token, nodes);
      assert x.Some? ==> sx.None? && nodes == {};
      ReplayMeans(es, x, sx, token, nodes);
      hide *;
      WriteHolds(es, x, sx, nodes);
      ReplayToken(es, x, sx, token, nodes);
      RebuildSays(es, Get());
    }

    /**
    rebuild. `registered` says whether the node still has its local lock, `bound`
    whether rebinding it succeeded. Only the node that finds the count at zero
    writes; it publishes the number of reports as the new count.
    */
    method Rebuild(es: seq<Entry>, local: nat, registered: bool, bound: bool) returns (ok: bool)
      requires 0 < queue.cap == queue.slots.Length && queue.cap < U32 && Divisor(queue.cap)
      requires inited != REBUILDING
      modifies this, queue, queue.slots
      ensures ok <==> Rebuildable(es, local) && registered && bound && old(inited) >= 0
      ensures Rebuildable(es, local) && registered && old(inited) == 0 ==>
        && Get() == Encode(HoldingsOf(es), TokenOf(es)) && Says(es, Get())
        && queue.Valid() && queue.Window() == []
        && inited == (if bound then |es| else 0)
      ensures !(Rebuildable(es, local) && registered && old(inited) == 0) ==>
        && Get() == old(Get()) && inited == old(inited) && queue.slots[..] == old(queue.slots[..])
    {
      hide Acceptable, Scanned, HoldingsOf, TokenOf, Says;
      if local >= MAX_NODES || |es| == 0 || |es| > MAX_NODES {
        return false;
      }
      var found := FindReport(es, local);
      if !found {
        return false;
      }
      var accepted, x, sx, token, nodes := Scan(es);
      if !accepted || !registered {
        return false;
      }
      var initialize := inited == 0;
      if initialize {
        inited := REBUILDING;
      } else if inited <= 0 {
        return false;
      }
      if initialize {
        lockWord, ownerX, ownerSX, reserve := FREE, NO_OWNER, NO_OWNER, NO_OWNER;
        xRec, sxRec, bitmap := 0, 0, {};
        queue.Reset();
        WriteSnapshot(es, x, sx, token, nodes);
      }
      if !bound {
        if initialize { inited := 0; }
        return false;
      }
      if initialize { inited := |es|; }
      return true;
    }

    /** find_query_result_for_node. */
    static method FindReport(es: seq<Entry>, local: nat) returns (found: bool)
      ensures found <==> exists e :: e in es && e.node == local
    {
      var i := 0;
      while i < |es|
        invariant i <= |es|
        invariant forall k :: 0 <= k < i ==> es[k].node != local
      {
        if es[i].node == local {
          return true;
        }
        i := i + 1;
      }
      return false;
    }
  }

  /** What rebuild asks of its argument. */
  predicate Rebuildable(es: seq<Entry>, local: nat) {
    0 < |es| <= MAX_NODES && local < MAX_NODES && (exists e :: e in es && e.node == local) && Acceptable(es)
  }

  function HolderAt(es: seq<Entry>, at: Option<nat>): Option<Holder>
    requires at.Some? ==> at.value < |es|
  {
    if at.Some? then Some(HolderOf(es[at.value])) else None
  }

  /** The holds found by the scan with the token added. */
  function Replayed(es: seq<Entry>, x: Option<nat>, sx: Option<nat>, token: Option<nat>, nodes: set<nat>): Holdings
    requires x.Some? ==> x.value < |es|
    requires sx.Some? ==> sx.value < |es|
    requires token.Some? ==> token.value < |es|
  {
    var mode := if token.Some? then es[token.value].reserve else I;
    Holdings(if mode == S then nodes + {es[token.value].node} else nodes,
             HolderAt(es, if mode == SX then token else sx),
             HolderAt(es, if mode == X then token else x))
  }

  /** The scan's findings, as the holdings they stand for. */
  lemma ScannedMeans(es: seq<Entry>, x: Option<nat>, sx: Option<nat>, token: Option<nat>, nodes: set<nat>)
    requires Acceptable(es) && Scanned(es, |es|, x, sx, token, nodes)
    ensures Verdict(es, x, sx, token, nodes)
    ensures x.Some? ==> x.value < |es| && es[x.value].held == X && !HasToken(es[x.value])
    ensures sx.Some? ==> sx.value < |es| && es[sx.value].held == SX && !HasToken(es[sx.value])
    ensures token.Some? ==> token.value < |es| && HasToken(es[token.value])
    ensures TokenOf(es) == if token.Some? then OwnerWord(es[token.value].node, 0) else NO_OWNER
  {
    VerdictComplete(es, x, sx, token, nodes);
    TokenIs(es);
    if token.Some? { Claimant(es, es[token.value]); }
    if token.None? { assert forall e :: e in es ==> !HasToken(e); }
    assert x.Some? ==> Basic(es[x.value]);
    assert sx.Some? ==> Basic(es[sx.value]);
  }

  lemma ReplayMeans(es: seq<Entry>, x: Option<nat>, sx: Option<nat>, token: Option<nat>, nodes: set<nat>)
    requires Acceptable(es) && Scanned(es, |es|, x, sx, token, nodes)
    requires x.Some? ==> x.value < |es|
    requires sx.Some? ==> sx.value < |es|
    requires token.Some? ==> token.value < |es|
    ensures HoldingsOf(es) == Replayed(es, x, sx, token, nodes)
  {
    ReplayReaders(es, x, sx, token, nodes);
    VerdictComplete(es, x, sx, token, nodes);
    ReplayUpgradable(es, sx, token);
    ReplayExclusive(es, x, token);
    hide Acceptable, Only, SharedNodes, UpgradableOf, ExclusiveOf, ReadersOf;
  }

  lemma ReplayUpgradable(es: seq<Entry>, sx: Option<nat>, token: Option<nat>)
    requires Acceptable(es) && Only(es, |es|, sx, HeldSX) && Only(es, |es|, token, HasToken)
    requires token.Some? && es[token.value].reserve == SX ==> sx.None?
    ensures UpgradableOf(es) == HolderAt(es, if token.Some? && es[token.value].reserve == SX then token else sx)
  {
    UpgradableIs(es);
    if sx.Some? { Claimant(es, es[sx.value]); }
    if token.Some? { Claimant(es, es[token.value]); }
    if UpgradableOf(es).Some? {
      var e :| e in es && ClaimsSX(e) && UpgradableOf(es).value == HolderOf(e);
      var k :| 0 <= k < |es| && es[k] == e;
    }
  }

  lemma ReplayExclusive(es: seq<Entry>, x: Option<nat>, token: Option<nat>)
    requires Acceptable(es) && Only(es, |es|, x, HeldX) && Only(es, |es|, token, HasToken)
    requires token.Some? && es[token.value].reserve == X ==> x.None?
    ensures ExclusiveOf(es) == HolderAt(es, if token.Some? && es[token.value].reserve == X then token else x)
  {
    ExclusiveIs(es);
    if x.Some? { Claimant(es, es[x.value]); }
    if token.Some? { Claimant(es, es[token.value]); }
    if ExclusiveOf(es).Some? {
      var e :| e in es && ClaimsX(e) && ExclusiveOf(es).value == HolderOf(e);
      var k :| 0 <= k < |es| && es[k] == e;
    }
  }

  lemma ReplayReaders(es: seq<Entry>, x: Option<nat>, sx: Option<nat>, token: Option<nat>, nodes: set<nat>)
    requires Scanned(es, |es|, x, sx, token, nodes)
    requires token.Some? ==> token.value < |es|
    ensures ReadersOf(es) ==
      nodes + (if token.Some? && es[token.value].reserve == S then {es[token.value].node} else {})
  {
    var readers := nodes + (if token.Some? && es[token.value].reserve == S then {es[token.value].node} else {});
    forall n | n in ReadersOf(es) ensures n in readers {
      var e :| e in es && ClaimsS(e) && e.node == n;
      var k :| 0 <= k < |es| && es[k] == e;
      assert e.shared ==> es[k].node in nodes;
    }
    forall n | n in readers ensures n in ReadersOf(es) {
      if n in nodes {
        var k :| 0 <= k < |es| && es[k].shared && es[k].node == n;
        assert es[k] in es;
      }
    }
  }

  // ---- the queue after recovery ------------------------------------------------------------------

  function PurgedSlot(s: Slot, p: nat): Slot {
    if s.state.Writing? || (Live(s) && s.node == p) then Expired() else s
  }

  function Purged(a: seq<Slot>, p: nat): seq<Slot> { seq(|a|, j requires 0 <= j < |a| => PurgedSlot(a[j], p)) }

  predicate QueueRecovered(a: seq<Slot>, b: seq<Slot>, p: nat) {
    && |a| == |b|
    && (forall j :: 0 <= j < |b| ==> !b[j].state.Writing? && (Live(b[j]) ==> b[j].node != p))
    && (forall j :: 0 <= j < |a| && (a[j].state.Waiting? || a[j].state.Notified?) && a[j].node != p ==>
          Live(b[j]) && b[j].(state := a[j].state) == a[j])
  }

  /** The waiters of a line that survive the purge. */
  function Others(line: seq<Slot>, p: nat): seq<Slot> {
    if line == [] then []
    else (if line[0].state.Writing? || line[0].node == p then [] else [line[0]]) + Others(line[1..], p)
  }

  lemma {:induction false} LineOfPurged(w: seq<Slot>, p: nat)
    ensures Line(Purged(w, p)) == Others(Line(w), p)
  {
    if w != [] {
      LineOfPurged(w[1..], p);
      assert Purged(w, p)[1..] == Purged(w[1..], p);
      assert Purged(w, p)[0] == PurgedSlot(w[0], p);
      LineFirst(w);
      LineFirst(Purged(w, p));
      if Live(w[0]) {
        assert Line(w)[0] == w[0] && Line(w)[1..] == Line(w[1..]);
      } else {
        assert Line(w) == Line(w[1..]);
      }
    }
  }

  lemma PurgedLine(a: seq<Slot>, head: nat, n: nat, p: nat)
    requires |a| > 0
    ensures Line(View(Purged(a, p), head, n)) == Others(Line(View(a, head, n)), p)
  {
    LineOfPurged(View(a, head, n), p);
    assert View(Purged(a, p), head, n) == Purged(View(a, head, n), p);
  }

  lemma PurgedThenGranted(a: seq<Slot>, b: seq<Slot>, p: nat)
    requires p < MAX_NODES && OnlyGranted(Purged(a, p), b)
    ensures QueueRecovered(a, b, p)
  {
    assert forall j :: 0 <= j < |a| ==> Purged(a, p)[j] == PurgedSlot(a[j], p);
  }

  function NodesSeen(es: seq<Entry>, i: nat): set<nat>
    requires i <= |es|
  {
    set k | 0 <= k < i :: es[k].node
  }

  lemma NodesSeenAt(es: seq<Entry>, i: nat)
    requires i <= |es|
    ensures i == 0 ==> NodesSeen(es, i) == {}
    ensures i < |es| ==> NodesSeen(es, i + 1) == NodesSeen(es, i) + {es[i].node}
    ensures forall k :: 0 <= k < i ==> es[k].node in NodesSeen(es, i)
  {
  }

  // ---- why the scan may stop early -----------------------------------------------------------------

  lemma RefusedEntry(es: seq<Entry>, i: nat)
    requires i < |es|
    requires es[i].node >= MAX_NODES || !WellFormed(es[i]) || exists k :: 0 <= k < i && es[k].node == es[i].node
    ensures !Acceptable(es)
  {
    assert es[i] in es;
  }

  lemma FormedX(e: Entry)
    requires WellFormed(e)
    ensures e.held == X ==> !e.shared
  {
  }

  lemma RefusedToken(es: seq<Entry>, i: nat, x: Option<nat>, sx: Option<nat>, token: Option<nat>, nodes: set<nat>)
    requires Scanned(es, i, x, sx, token, nodes) && i < |es| && HasToken(es[i])
    requires (es[i].held != I && !(es[i].held == S && es[i].shared)) || token != None
    ensures !Acceptable(es)
  {
    assert Acceptable(es) ==> Proper(es[i]) by { assert es[i] in es; }
    if Acceptable(es) && token != None { PairAt(es, token.value, i); }
  }

  lemma RefusedX(es: seq<Entry>, i: nat, x: Option<nat>, sx: Option<nat>, token: Option<nat>, nodes: set<nat>)
    requires Scanned(es, i, x, sx, token, nodes) && i < |es| && es[i].held == X && WellFormed(es[i])
    requires x != None || sx != None || |nodes| > 0
    ensures !Acceptable(es)
  {
    if Acceptable(es) {
      if x != None { PairAt(es, x.value, i); }
      else if sx != None { PairAt(es, sx.value, i); }
      else {
        var n :| n in nodes;
        var k :| 0 <= k < i && es[k].shared && es[k].node == n;
        PairAt(es, k, i);
      }
    }
  }

  lemma RefusedSX(es: seq<Entry>, i: nat, x: Option<nat>, sx: Option<nat>, token: Option<nat>, nodes: set<nat>)
    requires Scanned(es, i, x, sx, token, nodes) && i < |es| && es[i].held == SX
    requires x != None || sx != None
    ensures !Acceptable(es)
  {
    if Acceptable(es) {
      if x != None { PairAt(es, x.value, i); }
      else { PairAt(es, sx.value, i); }
    }
  }

  lemma ScannedNext(es: seq<Entry>, i: nat, x: Option<nat>, sx: Option<nat>, token: Option<nat>, nodes: set<nat>)
    requires Scanned(es, i, x, sx, token, nodes) && i < |es| && Basic(es[i])
    requires es[i].node !in NodesSeen(es, i)
    requires es[i].reserve != I ==> token == None
    requires es[i].held == X ==> x == None
    requires es[i].held == SX ==> sx == None
    ensures Scanned(es, i + 1,
                    if es[i].held == X then Some(i) else x,
                    if es[i].held == SX then Some(i) else sx,
                    if es[i].reserve != I then Some(i) else token,
                    if es[i].shared then nodes + {es[i].node} else nodes)
    ensures es[i].shared ==> es[i].node !in nodes
  {
    NodesSeenAt(es, i);
    OnlyNext(es, i, x, HeldX);
    OnlyNext(es, i, sx, HeldSX);
    OnlyNext(es, i, token, HasToken);
    SharedNext(es, i);
    hide Only, SharedNodes, NodesSeen, Basic;
    assert forall k :: 0 <= k < i + 1 ==> Basic(es[k]);
  }

  lemma OnlyNext(es: seq<Entry>, i: nat, at: Option<nat>, mark: Entry -> bool)
    requires i < |es| && Only(es, i, at, mark) && (mark(es[i]) ==> at == None)
    ensures Only(es, i + 1, if mark(es[i]) then Some(i) else at, mark)
  {
  }

  lemma SharedNext(es: seq<Entry>, i: nat)
    requires i < |es|
    ensures SharedNodes(es, i + 1) == if es[i].shared then SharedNodes(es, i) + {es[i].node} else SharedNodes(es, i)
    ensures SharedNodes(es, i) <= NodesSeen(es, i)
  {
  }
}
