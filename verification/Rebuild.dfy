/**
Rebuilding the shared lock from what the nodes report: which reports are
accepted, and what holdings the written words stand for.
*/
module Rebuild {
  import opened LockTypes
  import opened SharedLock
  import opened Recovery

  /** ub_lock_query_result_t. */
  datatype Entry = Entry(node: nat, held: LockMode, tid: Tid, rec: nat, shared: bool, reserve: LockMode)

  /** is_valid_query_result_entry. */
  predicate WellFormed(e: Entry) {
    match e.held
    case I => e.tid == 0 && e.rec == 0 && !e.shared
    case S => e.tid == 0 && e.rec == 0 && e.shared
    case X => e.tid != 0 && e.rec > 0 && !e.shared
    case SX => e.tid != 0 && e.rec > 0
  }

  // ---- what an entry claims of the lock ------------------------------------------------

  predicate HasToken(e: Entry) { e.reserve != I }
  predicate ClaimsX(e: Entry) { e.held == X || e.reserve == X }
  predicate ClaimsSX(e: Entry) { e.held == SX || e.reserve == SX }
  predicate ClaimsS(e: Entry) { e.shared || e.reserve == S }

  /** An entry acceptable on its own. A token stays behind only where X and SX are not held. */
  predicate Proper(e: Entry) {
    && e.node < MAX_NODES && WellFormed(e)
    && (HasToken(e) ==> e.held == I || e.held == S)
    && (ClaimsX(e) ==> !ClaimsS(e))
  }

  /** The S/SX/X compatibility matrix between two nodes, and one token in all. */
  predicate Compatible(a: Entry, b: Entry) {
    && (ClaimsX(a) ==> !ClaimsX(b) && !ClaimsSX(b) && !ClaimsS(b))
    && (ClaimsX(b) ==> !ClaimsX(a) && !ClaimsSX(a) && !ClaimsS(a))
    && !(ClaimsSX(a) && ClaimsSX(b))
    && !(HasToken(a) && HasToken(b))
  }

  predicate DistinctNodes(es: seq<Entry>) {
    forall i, j :: 0 <= i < j < |es| ==> es[i].node != es[j].node
  }

  /** Which snapshots rebuild should accept, said without order. */
  predicate Acceptable(es: seq<Entry>) {
    && DistinctNodes(es)
    && (forall e :: e in es ==> Proper(e))
    && (forall a, b :: a in es && b in es && a.node != b.node ==> Compatible(a, b))
  }

  // ---- the holdings a snapshot stands for ------------------------------------------------

  /** A token counts as a hold by thread 0, taken once. */
  function HolderOf(e: Entry): Holder {
    if HasToken(e) then Holder(e.node, 0, 1) else Holder(e.node, e.tid, e.rec)
  }

  function ReadersOf(es: seq<Entry>): set<nat> { set e | e in es && ClaimsS(e) :: e.node }

  function UpgradableOf(es: seq<Entry>): Option<Holder> {
    if es == [] then None
    else if ClaimsSX(es[0]) then Some(HolderOf(es[0]))
    else UpgradableOf(es[1..])
  }

  function ExclusiveOf(es: seq<Entry>): Option<Holder> {
    if es == [] then None
    else if ClaimsX(es[0]) then Some(HolderOf(es[0]))
    else ExclusiveOf(es[1..])
  }

  function HoldingsOf(es: seq<Entry>): Holdings { Holdings(ReadersOf(es), UpgradableOf(es), ExclusiveOf(es)) }

  function TokenOf(es: seq<Entry>): nat {
    if es == [] then NO_OWNER
    else if HasToken(es[0]) then OwnerWord(es[0].node, 0)
    else TokenOf(es[1..])
  }

  lemma {:induction false} UpgradableIs(es: seq<Entry>)
    ensures UpgradableOf(es).None? <==> forall e :: e in es ==> !ClaimsSX(e)
    ensures UpgradableOf(es).Some? ==> exists e :: e in es && ClaimsSX(e) && UpgradableOf(es).value == HolderOf(e)
  {
    if es != [] {
      UpgradableIs(es[1..]);
      assert es[0] in es;
      assert forall e :: e in es <==> e == es[0] || e in es[1..];
    }
  }

  lemma {:induction false} ExclusiveIs(es: seq<Entry>)
    ensures ExclusiveOf(es).None? <==> forall e :: e in es ==> !ClaimsX(e)
    ensures ExclusiveOf(es).Some? ==> exists e :: e in es && ClaimsX(e) && ExclusiveOf(es).value == HolderOf(e)
  {
    if es != [] {
      ExclusiveIs(es[1..]);
      assert es[0] in es;
      assert forall e :: e in es <==> e == es[0] || e in es[1..];
    }
  }

  lemma {:induction false} TokenIs(es: seq<Entry>)
    ensures TokenOf(es) == NO_OWNER || exists e :: e in es && HasToken(e) && TokenOf(es) == OwnerWord(e.node, 0)
    ensures (forall e :: e in es ==> !HasToken(e)) ==> TokenOf(es) == NO_OWNER
    ensures (exists e :: e in es && HasToken(e)) ==>
      exists e :: e in es && HasToken(e) && TokenOf(es) == OwnerWord(e.node, 0)
  {
    if es != [] {
      TokenIs(es[1..]);
      assert es[0] in es;
      assert forall e :: e in es <==> e == es[0] || e in es[1..];
    }
  }

  /** Two claims that only one node may have are the same node's. */
  lemma SameEntry(es: seq<Entry>, a: Entry, b: Entry)
    requires Acceptable(es) && a in es && b in es
    requires (ClaimsSX(a) && ClaimsSX(b)) || (ClaimsX(a) && ClaimsX(b)) || (HasToken(a) && HasToken(b)) ||
      a.node == b.node
    ensures a == b
  {
    var i :| 0 <= i < |es| && es[i] == a;
    var j :| 0 <= j < |es| && es[j] == b;
    assert a.node != b.node ==> Compatible(a, b);
    SamePlace(es, i, j);
  }

  lemma SamePlace(es: seq<Entry>, i: nat, j: nat)
    requires DistinctNodes(es) && i < |es| && j < |es| && es[i].node == es[j].node
    ensures i == j
  {
  }

  /** With one claimant at most, the holder is read off any claimant. */
  lemma Claimant(es: seq<Entry>, e: Entry)
    requires Acceptable(es) && e in es
    ensures ClaimsSX(e) ==> UpgradableOf(es) == Some(HolderOf(e))
    ensures ClaimsX(e) ==> ExclusiveOf(es) == Some(HolderOf(e))
    ensures HasToken(e) ==> TokenOf(es) == OwnerWord(e.node, 0)
  {
    hide Acceptable, ClaimsX, ClaimsSX, HasToken;
    UpgradableIs(es);
    ExclusiveIs(es);
    TokenIs(es);
    if ClaimsSX(e) {
      var f :| f in es && ClaimsSX(f) && UpgradableOf(es).value == HolderOf(f);
      SameEntry(es, e, f);
    }
    if ClaimsX(e) {
      var f :| f in es && ClaimsX(f) && ExclusiveOf(es).value == HolderOf(f);
      SameEntry(es, e, f);
    }
    if HasToken(e) {
      var f :| f in es && HasToken(f) && TokenOf(es) == OwnerWord(f.node, 0);
      SameEntry(es, e, f);
    }
  }

  lemma AcceptableConsistent(es: seq<Entry>)
    requires Acceptable(es)
    ensures Consistent(HoldingsOf(es))
  {
    UpgradableIs(es);
    ExclusiveIs(es);
    if ExclusiveOf(es).Some? {
      var a :| a in es && ClaimsX(a) && ExclusiveOf(es).value == HolderOf(a);
      assert Proper(a);
      forall b | b in es ensures !ClaimsS(b) && !ClaimsSX(b) {
        assert Proper(b);
        if a.node == b.node { SameEntry(es, a, b); } else { assert Compatible(a, b); }
      }
    }
  }

  /** The words written for an accepted snapshot read back as the snapshot. */
  lemma RebuildRoundTrip(es: seq<Entry>)
    requires Acceptable(es)
    ensures var w := Encode(HoldingsOf(es), TokenOf(es));
      && Decode(w) == HoldingsOf(es)
      && ExpectedShared(w.lockWord) == |w.bitmap|
  {
    AcceptableConsistent(es);
    DecodeEncode(HoldingsOf(es), TokenOf(es));
    ExpectedIsPopulation(HoldingsOf(es), TokenOf(es));
  }

  // ---- the words against the reports, one by one ----------------------------------------------

  predicate Names(owner: nat, count: nat, node: nat, tid: Tid, rec: nat) {
    OwnerNode(owner) == node && OwnerTid(owner) == tid && count == rec
  }

  /** The X owner word and count are those of the report that holds X, or of the token that keeps X. */
  predicate SaysX(es: seq<Entry>, w: Words) {
    && (forall e :: e in es && e.held == X ==> Names(w.ownerX, w.xRec, e.node, e.tid, e.rec))
    && (forall e :: e in es && e.reserve == X ==> Names(w.ownerX, w.xRec, e.node, 0, 1))
    && ((forall e :: e in es ==> e.held != X && e.reserve != X) ==> w.ownerX == NO_OWNER && w.xRec == 0)
  }

  predicate SaysSX(es: seq<Entry>, w: Words) {
    && (forall e :: e in es && e.held == SX ==> Names(w.ownerSX, w.sxRec, e.node, e.tid, e.rec))
    && (forall e :: e in es && e.reserve == SX ==> Names(w.ownerSX, w.sxRec, e.node, 0, 1))
    && ((forall e :: e in es ==> e.held != SX && e.reserve != SX) ==> w.ownerSX == NO_OWNER && w.sxRec == 0)
  }

  predicate SaysToken(es: seq<Entry>, w: Words) {
    && (forall e :: e in es && e.reserve != I ==> OwnerNode(w.reserve) == e.node && OwnerTid(w.reserve) == 0)
    && ((forall e :: e in es ==> e.reserve == I) ==> w.reserve == NO_OWNER)
  }

  /** A bit for each node that reads or kept a read token, and a word that counts them. */
  ghost predicate SaysReaders(es: seq<Entry>, w: Words) {
    && (forall n :: n in w.bitmap <==> exists e :: e in es && e.node == n && (e.shared || e.reserve == S))
    && ((exists e :: e in es && (e.held == X || e.reserve == X)) ==> w.lockWord == 0)
    && ((forall e :: e in es ==> e.held != X && e.reserve != X && e.held != SX && e.reserve != SX) ==>
          w.lockWord == FREE - |w.bitmap|)
    && ((exists e :: e in es && (e.held == SX || e.reserve == SX)) ==> w.lockWord == HALF - |w.bitmap|)
  }

  /** The words say of every report what it reports, and nothing else. */
  ghost predicate Says(es: seq<Entry>, w: Words) {
    SaysX(es, w) && SaysSX(es, w) && SaysToken(es, w) && SaysReaders(es, w)
  }

  lemma XSaid(es: seq<Entry>, w: Words)
    requires Acceptable(es)
    ensures SaysX(es, w) <==> w.ownerX == NameOf(ExclusiveOf(es)) && w.xRec == RecOf(ExclusiveOf(es))
  {
    ExclusiveIs(es);
    if ExclusiveOf(es).Some? {
      var f :| f in es && ClaimsX(f) && ExclusiveOf(es).value == HolderOf(f);
      assert Proper(f);
      OwnerIs(w.ownerX, f.node, HolderOf(f).tid);
      forall e | e in es && ClaimsX(e) ensures e == f { SameEntry(es, e, f); }
    }
  }

  lemma SXSaid(es: seq<Entry>, w: Words)
    requires Acceptable(es)
    ensures SaysSX(es, w) <==> w.ownerSX == NameOf(UpgradableOf(es)) && w.sxRec == RecOf(UpgradableOf(es))
  {
    UpgradableIs(es);
    if UpgradableOf(es).Some? {
      var f :| f in es && ClaimsSX(f) && UpgradableOf(es).value == HolderOf(f);
      assert Proper(f);
      OwnerIs(w.ownerSX, f.node, HolderOf(f).tid);
      forall e | e in es && ClaimsSX(e) ensures e == f { SameEntry(es, e, f); }
    }
  }

  lemma TokenSaid(es: seq<Entry>, w: Words)
    requires Acceptable(es)
    ensures SaysToken(es, w) <==> w.reserve == TokenOf(es)
  {
    TokenIs(es);
    if exists e :: e in es && HasToken(e) {
      var f :| f in es && HasToken(f) && TokenOf(es) == OwnerWord(f.node, 0);
      OwnerIs(w.reserve, f.node, 0);
      forall e | e in es && HasToken(e) ensures e == f { SameEntry(es, e, f); }
    }
  }

  lemma ReadersSaid(es: seq<Entry>, w: Words)
    requires Acceptable(es)
    ensures SaysReaders(es, w) <==>
      && w.bitmap == ReadersOf(es)
      && w.lockWord == WordFor(|w.bitmap|, UpgradableOf(es).Some?, ExclusiveOf(es).Some?)
  {
    AcceptableConsistent(es);
    UpgradableIs(es);
    ExclusiveIs(es);
    assert forall n :: n in ReadersOf(es) <==> exists e :: e in es && e.node == n && (e.shared || e.reserve == S);
    if SaysReaders(es, w) { assert w.bitmap == ReadersOf(es); }
  }

  /** The words rebuild writes are the ones that say what each report reports: those, and no others. */
  lemma RebuildSays(es: seq<Entry>, w: Words)
    requires Acceptable(es)
    ensures Says(es, w) <==> w == Encode(HoldingsOf(es), TokenOf(es))
  {
    XSaid(es, w);
    SXSaid(es, w);
    TokenSaid(es, w);
    ReadersSaid(es, w);
  }

  // ---- order does not matter ----------------------------------------------------------------

  lemma Twice<T>(s: seq<T>, i: nat, j: nat)
    requires i < j < |s| && s[i] == s[j]
    ensures multiset(s)[s[i]] >= 2
  {
    assert s == s[..j] + s[j..];
    assert s[i] in s[..j] && s[j..][0] == s[i];
    assert s[i] in s[j..];
  }

  lemma TwiceBack<T>(s: seq<T>, x: T) returns (i: nat, j: nat)
    requires multiset(s)[x] >= 2
    ensures i < j < |s| && s[i] == s[j] == x
  {
    i :| 0 <= i < |s| && s[i] == x;
    assert s == s[..i] + [x] + s[i + 1..];
    if x in s[..i] {
      var k :| 0 <= k < |s[..i]| && s[..i][k] == x;
      i, j := k, i;
    } else {
      assert x in s[i + 1..];
      var k :| 0 <= k < |s[i + 1..]| && s[i + 1..][k] == x;
      j := i + 1 + k;
    }
  }

  lemma Reordered(es: seq<Entry>, fs: seq<Entry>)
    requires multiset(es) == multiset(fs)
    ensures forall e :: e in es <==> e in fs
  {
    forall e ensures e in es <==> e in fs {
      assert e in es <==> e in multiset(es);
      assert e in fs <==> e in multiset(fs);
    }
  }

  lemma DistinctReordered(es: seq<Entry>, fs: seq<Entry>)
    requires multiset(es) == multiset(fs) && DistinctNodes(es)
    ensures DistinctNodes(fs)
  {
    Reordered(es, fs);
    forall i, j | 0 <= i < j < |fs| ensures fs[i].node != fs[j].node {
      if fs[i] == fs[j] {
        Twice(fs, i, j);
        var k, l := TwiceBack(es, fs[i]);
        assert false;
      }
      assert fs[i] in es && fs[j] in es;
      var k :| 0 <= k < |es| && es[k] == fs[i];
      var l :| 0 <= l < |es| && es[l] == fs[j];
      assert k < l || l < k;
    }
  }

  /** Neither the verdict nor the words depend on the order of the reports. */
  lemma OrderIrrelevant(es: seq<Entry>, fs: seq<Entry>)
    requires multiset(es) == multiset(fs)
    ensures Acceptable(es) <==> Acceptable(fs)
    ensures Acceptable(es) ==> HoldingsOf(es) == HoldingsOf(fs) && TokenOf(es) == TokenOf(fs)
  {
    Reordered(es, fs);
    if DistinctNodes(es) { DistinctReordered(es, fs); }
    if DistinctNodes(fs) { DistinctReordered(fs, es); }
    assert Acceptable(es) <==> Acceptable(fs);
    if Acceptable(es) {
      assert ReadersOf(es) == ReadersOf(fs);
      SameHolders(es, fs);
    }
  }

  lemma SameHolders(es: seq<Entry>, fs: seq<Entry>)
    requires Acceptable(es) && Acceptable(fs) && forall e :: e in es <==> e in fs
    ensures UpgradableOf(es) == UpgradableOf(fs) && ExclusiveOf(es) == ExclusiveOf(fs) && TokenOf(es) == TokenOf(fs)
  {
    hide Acceptable, ClaimsX, ClaimsSX, HasToken, HolderOf, OwnerWord;
    UpgradableIs(es);
    UpgradableIs(fs);
    ExclusiveIs(es);
    ExclusiveIs(fs);
    TokenIs(es);
    TokenIs(fs);
    forall e | e in es
      ensures ClaimsSX(e) ==> UpgradableOf(es) == Some(HolderOf(e)) == UpgradableOf(fs)
      ensures ClaimsX(e) ==> ExclusiveOf(es) == Some(HolderOf(e)) == ExclusiveOf(fs)
      ensures HasToken(e) ==> TokenOf(es) == OwnerWord(e.node, 0) == TokenOf(fs)
    {
      Claimant(es, e);
      Claimant(fs, e);
    }
  }

  // ---- rebuild, then recover ------------------------------------------------------------------

  function Without(es: seq<Entry>, p: nat): (fs: seq<Entry>)
    ensures forall e :: e in fs <==> e in es && e.node != p
  {
    if es == [] then []
    else (if es[0].node == p then [] else [es[0]]) + Without(es[1..], p)
  }

  function Dropped(o: Option<Holder>, p: nat): Option<Holder> {
    if o.Some? && o.value.node == p then None else o
  }

  /** The holdings of the other nodes. */
  function Minus(h: Holdings, p: nat): Holdings { Holdings(h.readers - {p}, Dropped(h.sx, p), Dropped(h.x, p)) }

  function ExclusiveResidue(o: Option<Holder>, p: nat): ExclusivePart {
    if o.Some? && o.value.node == p then EHeld(o.value.tid, o.value.rec) else ENone
  }

  /** A node that holds its part of h and is in no call. */
  function WholeResidue(h: Holdings, p: nat): Residue {
    Residue(Shared(if p in h.readers then 1 else 0, p in h.readers),
            ExclusiveResidue(h.sx, p), ExclusiveResidue(h.x, p))
  }

  lemma WholeIsRaw(h: Holdings, p: nat, reserve: nat)
    requires Consistent(h) && p < MAX_NODES
    ensures Together(Minus(h, p), p, WholeResidue(h, p))
    ensures Raw(Minus(h, p), p, WholeResidue(h, p), reserve) == Encode(h, reserve)
  {
    hide OwnerWord, WordFor;
    ReaderCount(h.readers, p);
    FewNodes(h.readers, MAX_NODES);
    assert Raw(Minus(h, p), p, WholeResidue(h, p), reserve).bitmap == h.readers;
  }

  lemma ReaderCount(readers: set<nat>, p: nat)
    ensures |readers| == |readers - {p}| + (if p in readers then 1 else 0)
    ensures p in readers ==> readers == readers - {p} + {p}
    ensures p !in readers ==> readers == readers - {p} + {}
  {
    assert p in readers ==> readers == readers - {p} + {p};
    assert p !in readers ==> readers == readers - {p} + {};
  }

  /** Recovering a node that stopped between calls takes away its holds and no others. */
  lemma RecoverHolder(h: Holdings, p: nat, reserve: nat, spurious: nat)
    requires Consistent(h) && p < MAX_NODES
    ensures var w := Encode(h, reserve);
      SameButReserve(RecoverWords(w, p, spurious), Encode(Minus(h, p), reserve)) <==> !OwnerMissed(w, spurious)
  {
    WholeIsRaw(h, p, reserve);
    RecoverExact(Minus(h, p), p, WholeResidue(h, p), reserve, spurious);
    assert !OrphanBit(Minus(h, p), WholeResidue(h, p));
  }

  // ---- whole calls, write by write -------------------------------------------------------------------

  /** The writes of a first lock call to the shared words, in order. */
  function LockWrites(p: nat, tid: Tid, m: LockMode): seq<Write> {
    match m
    case S => [AddWord(-1), SetBit]
    case SX => [AddWord(-32768), NameSX(OwnerWord(p, tid)), CountSX(1)]
    case X => [SetWord(0), NameX(OwnerWord(p, tid)), CountX(1)]
    case I => []
  }

  /** Those of the unlock that ends it. */
  function UnlockWrites(m: LockMode): seq<Write> {
    match m
    case S => [AddWord(1), ClearBit]
    case SX => [NameSX(NO_OWNER), CountSX(0), AddWord(32768)]
    case X => [NameX(NO_OWNER), CountX(0), SetWord(65536)]
    case I => []
  }

  function WithHold(h: Holdings, p: nat, tid: Tid, m: LockMode): Holdings {
    match m
    case S => h.(readers := h.readers + {p})
    case SX => h.(sx := Some(Holder(p, tid, 1)))
    case X => h.(x := Some(Holder(p, tid, 1)))
    case I => h
  }

  /** The other nodes hold h, p holds nothing, and the lock may be given to p in mode m. */
  predicate MayHold(h: Holdings, p: nat, m: LockMode) {
    && Consistent(h) && p < MAX_NODES && Minus(h, p) == h
    && match m
       case S => h.x.None?
       case SX => h.x.None? && h.sx.None?
       case X => h == Holdings({}, None, None)
       case I => true
  }

  lemma Cut(h: Holdings, p: nat, r: Residue, write: Write, m: Residue, rest: seq<Write>, q: Residue)
    requires Together(h, p, m) && CallWrite(p, r, write, m) && CutOff(h, p, m, rest, q)
    ensures CutOff(h, p, r, [write] + rest, q)
  {
    hide Together, CallWrite;
    assert ([write] + rest)[0] == write && ([write] + rest)[1..] == rest;
  }

  /** The node's part once the call has returned. */
  function HeldPart(tid: Tid, m: LockMode): Residue {
    match m
    case S => NOTHING.(shared := Shared(1, true))
    case SX => NOTHING.(sx := EHeld(tid, 1))
    case X => NOTHING.(x := EHeld(tid, 1))
    case I => NOTHING
  }

  lemma CutShared(h: Holdings, p: nat, s: SharedPart, write: Write, t: SharedPart, rest: seq<Write>, q: Residue)
    requires MayHold(h, p, S) && t.units <= 1 && SharedWrite(s, write, t)
    requires CutOff(h, p, NOTHING.(shared := t), rest, q)
    ensures CutOff(h, p, NOTHING.(shared := s), [write] + rest, q)
  {
    FewNodes(h.readers, MAX_NODES);
    hide CutOff, SharedWrite, UpgradableWrite, ExclusiveWrite;
    Cut(h, p, NOTHING.(shared := s), write, NOTHING.(shared := t), rest, q);
  }

  lemma CutUpgradable(h: Holdings, p: nat, e: ExclusivePart, write: Write, g: ExclusivePart, rest: seq<Write>,
                      q: Residue)
    requires MayHold(h, p, SX) && UpgradableWrite(p, e, write, g) && CutOff(h, p, NOTHING.(sx := g), rest, q)
    ensures CutOff(h, p, NOTHING.(sx := e), [write] + rest, q)
  {
    FewNodes(h.readers, MAX_NODES);
    hide CutOff, SharedWrite, UpgradableWrite, ExclusiveWrite;
    Cut(h, p, NOTHING.(sx := e), write, NOTHING.(sx := g), rest, q);
  }

  lemma CutExclusive(h: Holdings, p: nat, e: ExclusivePart, write: Write, g: ExclusivePart, rest: seq<Write>,
                     q: Residue)
    requires MayHold(h, p, X) && ExclusiveWrite(p, e, write, g) && CutOff(h, p, NOTHING.(x := g), rest, q)
    ensures CutOff(h, p, NOTHING.(x := e), [write] + rest, q)
  {
    hide CutOff, SharedWrite, UpgradableWrite, ExclusiveWrite;
    Cut(h, p, NOTHING.(x := e), write, NOTHING.(x := g), rest, q);
  }

  lemma Chain(a: Write, b: Write, c: Write)
    ensures [c] + [] == [c] && [b] + [c] == [b, c] && [a] + [b, c] == [a, b, c]
  {
  }

  lemma LockIsCut(h: Holdings, p: nat, tid: Tid, m: LockMode)
    requires MayHold(h, p, m)
    ensures CutOff(h, p, NOTHING, LockWrites(p, tid, m), HeldPart(tid, m))
  {
    hide OwnerWord, CutOff, MayHold;
    var held, owner := HeldPart(tid, m), OwnerWord(p, tid);
    CutNowhere(h, p, held);
    match m
    case S =>
      Chain(AddWord(-1), AddWord(-1), SetBit);
      CutShared(h, p, Shared(1, false), SetBit, Shared(1, true), [], held);
      CutShared(h, p, Shared(0, false), AddWord(-1), Shared(1, false), [SetBit], held);
    case SX =>
      Chain(AddWord(-HALF), NameSX(owner), CountSX(1));
      CutUpgradable(h, p, ENamed(tid), CountSX(1), EHeld(tid, 1), [], held);
      CutUpgradable(h, p, ETaken, NameSX(owner), ENamed(tid), [CountSX(1)], held);
      CutUpgradable(h, p, ENone, AddWord(-HALF), ETaken, [NameSX(owner), CountSX(1)], held);
    case X =>
      Chain(SetWord(0), NameX(owner), CountX(1));
      CutExclusive(h, p, ENamed(tid), CountX(1), EHeld(tid, 1), [], held);
      CutExclusive(h, p, ETaken, NameX(owner), ENamed(tid), [CountX(1)], held);
      CutExclusive(h, p, ENone, SetWord(0), ETaken, [NameX(owner), CountX(1)], held);
    case I =>
  }

  lemma CutNowhere(h: Holdings, p: nat, r: Residue)
    ensures CutOff(h, p, r, [], r)
  {
  }

  lemma UnlockIsCut(h: Holdings, p: nat, tid: Tid, m: LockMode)
    requires MayHold(h, p, m)
    ensures CutOff(h, p, HeldPart(tid, m), UnlockWrites(m), NOTHING)
  {
    hide CutOff, MayHold;
    CutNowhere(h, p, NOTHING);
    match m
    case S =>
      Chain(AddWord(1), AddWord(1), ClearBit);
      CutShared(h, p, Shared(0, true), ClearBit, Shared(0, false), [], NOTHING);
      CutShared(h, p, Shared(1, true), AddWord(1), Shared(0, true), [ClearBit], NOTHING);
    case SX =>
      Chain(NameSX(NO_OWNER), CountSX(0), AddWord(HALF));
      CutUpgradable(h, p, ECleared, AddWord(HALF), ENone, [], NOTHING);
      CutUpgradable(h, p, EUnnamed(1), CountSX(0), ECleared, [AddWord(HALF)], NOTHING);
      CutUpgradable(h, p, EHeld(tid, 1), NameSX(NO_OWNER), EUnnamed(1), [CountSX(0), AddWord(HALF)], NOTHING);
    case X =>
      Chain(NameX(NO_OWNER), CountX(0), SetWord(FREE));
      CutExclusive(h, p, ECleared, SetWord(FREE), ENone, [], NOTHING);
      CutExclusive(h, p, EUnnamed(1), CountX(0), ECleared, [SetWord(FREE)], NOTHING);
      CutExclusive(h, p, EHeld(tid, 1), NameX(NO_OWNER), EUnnamed(1), [CountX(0), SetWord(FREE)], NOTHING);
    case I =>
  }

  lemma PartsEncode(h: Holdings, p: nat, tid: Tid, m: LockMode, reserve: nat)
    requires MayHold(h, p, m)
    ensures Together(h, p, NOTHING) && Together(h, p, HeldPart(tid, m))
    ensures Raw(h, p, NOTHING, reserve) == Encode(h, reserve)
    ensures Raw(h, p, HeldPart(tid, m), reserve) == Encode(WithHold(h, p, tid, m), reserve)
  {
    hide OwnerWord;
    FewNodes(h.readers, MAX_NODES);
    assert h.readers + {} == h.readers && p !in h.readers;
  }

  /** A lock call's writes, all of them, take the words of h to the words of h and the caller's hold. */
  lemma WholeLock(h: Holdings, p: nat, tid: Tid, m: LockMode, reserve: nat)
    requires MayHold(h, p, m)
    ensures CutOff(h, p, NOTHING, LockWrites(p, tid, m), HeldPart(tid, m))
    ensures DoAll(Encode(h, reserve), p, LockWrites(p, tid, m)) == Encode(WithHold(h, p, tid, m), reserve)
  {
    hide CutOff, Together, Raw, Encode, HeldPart;
    PartsEncode(h, p, tid, m, reserve);
    LockIsCut(h, p, tid, m);
    CutLeavesRaw(h, p, NOTHING, LockWrites(p, tid, m), HeldPart(tid, m), reserve);
  }

  /** And the unlock's take them back. */
  lemma WholeUnlock(h: Holdings, p: nat, tid: Tid, m: LockMode, reserve: nat)
    requires MayHold(h, p, m)
    ensures CutOff(h, p, HeldPart(tid, m), UnlockWrites(m), NOTHING)
    ensures DoAll(Encode(WithHold(h, p, tid, m), reserve), p, UnlockWrites(m)) == Encode(h, reserve)
  {
    hide CutOff, Together, Raw, Encode, HeldPart;
    PartsEncode(h, p, tid, m, reserve);
    UnlockIsCut(h, p, tid, m);
    CutLeavesRaw(h, p, HeldPart(tid, m), UnlockWrites(m), NOTHING, reserve);
  }

  lemma DistinctWithout(es: seq<Entry>, p: nat)
    requires DistinctNodes(es)
    ensures DistinctNodes(Without(es, p))
  {
    if es != [] {
      DistinctWithout(es[1..], p);
      var fs := Without(es[1..], p);
      assert forall e :: e in fs ==> e.node != es[0].node;
    }
  }

  lemma WithoutIsMinus(es: seq<Entry>, p: nat)
    requires Acceptable(es)
    ensures Acceptable(Without(es, p))
    ensures HoldingsOf(Without(es, p)) == Minus(HoldingsOf(es), p)
  {
    var fs := Without(es, p);
    DistinctWithout(es, p);
    assert Acceptable(fs);
    assert ReadersOf(fs) == ReadersOf(es) - {p} by {
      assert forall n :: n in ReadersOf(fs) <==> exists e :: e in fs && ClaimsS(e) && e.node == n;
    }
    WithoutHolders(es, fs, p);
  }

  lemma WithoutHolders(es: seq<Entry>, fs: seq<Entry>, p: nat)
    requires Acceptable(es) && Acceptable(fs) && forall e :: e in fs <==> e in es && e.node != p
    ensures UpgradableOf(fs) == Dropped(UpgradableOf(es), p) && ExclusiveOf(fs) == Dropped(ExclusiveOf(es), p)
  {
    hide Acceptable, ClaimsX, ClaimsSX;
    UpgradableIs(es);
    UpgradableIs(fs);
    ExclusiveIs(es);
    ExclusiveIs(fs);
    forall e | e in es
      ensures ClaimsSX(e) ==> UpgradableOf(es) == Some(HolderOf(e))
      ensures ClaimsX(e) ==> ExclusiveOf(es) == Some(HolderOf(e))
      ensures e in fs && ClaimsSX(e) ==> UpgradableOf(fs) == Some(HolderOf(e))
      ensures e in fs && ClaimsX(e) ==> ExclusiveOf(fs) == Some(HolderOf(e))
    {
      Claimant(es, e);
      if e in fs { Claimant(fs, e); }
    }
  }

  /** Rebuilding from a snapshot and then recovering p is encoding the snapshot without p's report. */
  lemma RebuildThenRecover(es: seq<Entry>, p: nat, spurious: nat)
    requires Acceptable(es) && p < MAX_NODES
    ensures var rebuilt := Encode(HoldingsOf(es), TokenOf(es));
      SameButReserve(RecoverWords(rebuilt, p, spurious), Encode(HoldingsOf(Without(es, p)), TokenOf(es)))
      <==> !OwnerMissed(rebuilt, spurious)
  {
    AcceptableConsistent(es);
    WithoutIsMinus(es, p);
    RecoverHolder(HoldingsOf(es), p, TokenOf(es), spurious);
  }

  // ---- several failed nodes --------------------------------------------------------------------

  function RecoverEach(w: Words, ps: seq<nat>): Words
    decreases |ps|
  {
    if ps == [] then w else RecoverEach(RecoverWords(w, ps[0], 0), ps[1..])
  }

  /** The holdings of the nodes that did not fail. */
  function Survivors(h: Holdings, dead: set<nat>): Holdings {
    Holdings(h.readers - dead,
             if h.sx.Some? && h.sx.value.node in dead then None else h.sx,
             if h.x.Some? && h.x.value.node in dead then None else h.x)
  }

  function Nodes(ps: seq<nat>): set<nat> { set p | p in ps }

  /** Recovering any nodes, in any order and any number of times, leaves the survivors' holdings. */
  lemma {:induction false} RecoverMany(h: Holdings, ps: seq<nat>, reserve: nat)
    requires Consistent(h) && forall i :: 0 <= i < |ps| ==> ps[i] < MAX_NODES
    ensures SameButReserve(RecoverEach(Encode(h, reserve), ps), Encode(Survivors(h, Nodes(ps)), reserve))
    decreases |ps|
  {
    if ps == [] {
      assert h.readers - Nodes(ps) == h.readers;
    } else {
      var p, next := ps[0], RecoverWords(Encode(h, reserve), ps[0], 0);
      RecoverFirst(h, p, reserve);
      MinusFirst(h, ps);
      hide RecoverWords, Encode, Survivors, Minus, Nodes, Consistent;
      RecoverMany(Minus(h, p), ps[1..], next.reserve);
      ReserveFree(Survivors(h, Nodes(ps)), next.reserve, reserve);
    }
  }

  lemma RecoverFirst(h: Holdings, p: nat, reserve: nat)
    requires Consistent(h) && p < MAX_NODES
    ensures Consistent(Minus(h, p))
    ensures var next := RecoverWords(Encode(h, reserve), p, 0); next == Encode(Minus(h, p), next.reserve)
  {
    hide RecoverWords;
    RecoverHolder(h, p, reserve, 0);
  }

  lemma MinusFirst(h: Holdings, ps: seq<nat>)
    requires ps != []
    ensures Survivors(Minus(h, ps[0]), Nodes(ps[1..])) == Survivors(h, Nodes(ps))
  {
    assert Nodes(ps) == {ps[0]} + Nodes(ps[1..]);
    assert h.readers - {ps[0]} - Nodes(ps[1..]) == h.readers - Nodes(ps);
  }

  lemma ReserveFree(h: Holdings, r: nat, q: nat)
    ensures SameButReserve(Encode(h, r), Encode(h, q))
  {
  }

  // ---- the scan over the reports ------------------------------------------------------------------

  /** What the loop has checked of one entry by itself. */
  predicate Basic(e: Entry) {
    e.node < MAX_NODES && WellFormed(e) && (HasToken(e) ==> e.held == I || (e.held == S && e.shared))
  }

  /** at is the one place before i that satisfies the mark, if there is one. */
  predicate Only(es: seq<Entry>, i: nat, at: Option<nat>, mark: Entry -> bool)
    requires i <= |es|
  {
    && (at.Some? ==> at.value < i && mark(es[at.value]))
    && (forall k :: 0 <= k < i && mark(es[k]) ==> at == Some(k))
  }

  predicate HeldX(e: Entry) { e.held == X }
  predicate HeldSX(e: Entry) { e.held == SX }

  function SharedNodes(es: seq<Entry>, i: nat): set<nat>
    requires i <= |es|
  {
    set k | 0 <= k < i && es[k].shared :: es[k].node
  }

  /** The loop's state after i entries. */
  predicate Scanned(es: seq<Entry>, i: nat, x: Option<nat>, sx: Option<nat>, token: Option<nat>, bitmap: set<nat>) {
    && i <= |es|
    && (forall k :: 0 <= k < i ==> Basic(es[k]))
    && (forall j, k :: 0 <= j < k < i ==> es[j].node != es[k].node)
    && Only(es, i, x, HeldX) && Only(es, i, sx, HeldSX) && Only(es, i, token, HasToken)
    && bitmap == SharedNodes(es, i)
  }

  /** The checks after the loop, is_valid_delayed_release_rebuild_state among them. */
  predicate Verdict(es: seq<Entry>, x: Option<nat>, sx: Option<nat>, token: Option<nat>, bitmap: set<nat>)
    requires token.Some? ==> token.value < |es|
  {
    && !(x.Some? && (sx.Some? || bitmap != {}))
    && (token.None? ||
        match es[token.value].reserve
        case X => x.None? && sx.None? && bitmap == {}
        case SX => x.None? && sx.None?
        case S => x.None?
        case I => false)
  }

  lemma PairAt(es: seq<Entry>, j: nat, k: nat)
    requires Acceptable(es) && j < |es| && k < |es| && j != k
    ensures Compatible(es[j], es[k]) && Proper(es[j]) && Proper(es[k])
  {
    assert es[j] in es && es[k] in es;
    assert j < k ==> es[j].node != es[k].node;
    assert k < j ==> es[k].node != es[j].node;
  }

  lemma EntryProper(es: seq<Entry>, e: Entry)
    requires Acceptable(es) && e in es
    ensures Proper(e)
  {
  }

  lemma VerdictProper(es: seq<Entry>, x: Option<nat>, sx: Option<nat>, token: Option<nat>, bitmap: set<nat>, k: nat)
    requires Scanned(es, |es|, x, sx, token, bitmap) && Verdict(es, x, sx, token, bitmap) && k < |es|
    ensures Proper(es[k])
  {
    assert Basic(es[k]);
    assert es[k].shared ==> es[k].node in bitmap;
  }

  lemma VerdictPair(es: seq<Entry>, x: Option<nat>, sx: Option<nat>, token: Option<nat>, bitmap: set<nat>,
                    j: nat, k: nat)
    requires Scanned(es, |es|, x, sx, token, bitmap) && Verdict(es, x, sx, token, bitmap) && j < |es| && k < |es| &&
      j != k
    ensures Compatible(es[j], es[k])
  {
    assert es[j].shared ==> es[j].node in bitmap;
    assert es[k].shared ==> es[k].node in bitmap;
    assert (es[j].held == X ==> HeldX(es[j])) && (es[k].held == X ==> HeldX(es[k]));
    assert (es[j].held == SX ==> HeldSX(es[j])) && (es[k].held == SX ==> HeldSX(es[k]));
  }

  /** Accepted after the whole scan: every entry and every pair fits. */
  lemma VerdictSound(es: seq<Entry>, x: Option<nat>, sx: Option<nat>, token: Option<nat>, bitmap: set<nat>)
    requires Scanned(es, |es|, x, sx, token, bitmap) && Verdict(es, x, sx, token, bitmap)
    ensures Acceptable(es)
  {
    hide Verdict, Compatible, Proper;
    forall e | e in es ensures Proper(e) {
      var k :| 0 <= k < |es| && es[k] == e;
      VerdictProper(es, x, sx, token, bitmap, k);
    }
    forall a, b | a in es && b in es && a.node != b.node ensures Compatible(a, b) {
      var j :| 0 <= j < |es| && es[j] == a;
      var k :| 0 <= k < |es| && es[k] == b;
      VerdictPair(es, x, sx, token, bitmap, j, k);
    }
  }

  lemma BitmapReader(es: seq<Entry>, bitmap: set<nat>) returns (k: nat)
    requires bitmap == SharedNodes(es, |es|) && bitmap != {}
    ensures k < |es| && es[k].shared
  {
    var n :| n in bitmap;
    k :| 0 <= k < |es| && es[k].shared && es[k].node == n;
  }

  /** Refused after the whole scan: some entry or pair does not fit. */
  lemma VerdictComplete(es: seq<Entry>, x: Option<nat>, sx: Option<nat>, token: Option<nat>, bitmap: set<nat>)
    requires Scanned(es, |es|, x, sx, token, bitmap) && Acceptable(es)
    ensures Verdict(es, x, sx, token, bitmap)
  {
    hide Acceptable;
    if x.Some? && sx.Some? { PairAt(es, x.value, sx.value); }
    if token.Some? { EntryProper(es, es[token.value]); }
    if x.Some? { EntryProper(es, es[x.value]); }
    if x.Some? && token.Some? && x.value != token.value { PairAt(es, x.value, token.value); }
    if sx.Some? && token.Some? && sx.value != token.value { PairAt(es, sx.value, token.value); }
    if bitmap != {} {
      var k := BitmapReader(es, bitmap);
      if x.Some? && x.value != k { PairAt(es, x.value, k); }
      if token.Some? && token.value != k { PairAt(es, token.value, k); }
    }
  }
}
