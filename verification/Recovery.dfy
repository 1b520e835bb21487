/**
Crash recovery of the shared lock. A node may stop at any write of an acquire
or a release; recovering it must leave the words of the survivors' holdings.
*/
module Recovery {
  import opened LockTypes
  import opened SharedLock

  const TAKE_RETRIES := 5

  // ---- what recover does to the words --------------------------------------------

  /**
  try_take_valid_owner: weak CAS, at most five attempts. `spurious` is how many
  attempts in a row fail for no reason of the lock's.
  */
  predicate Takes(owner: nat, spurious: nat) { owner != NO_OWNER && spurious < TAKE_RETRIES }

  function RecoverX(w: Words, p: nat, spurious: nat): Words {
    if Takes(w.ownerX, spurious) then
      if OwnerNode(w.ownerX) == p then w.(ownerX := NO_OWNER, reserve := NO_OWNER, xRec := 0, lockWord := FREE) else w
    else w.(reserve := NO_OWNER, xRec := 0, lockWord := FREE)
  }

  function RecoverSx(w: Words, p: nat, spurious: nat): Words {
    if Takes(w.ownerSX, spurious) then
      if OwnerNode(w.ownerSX) == p then w.(ownerSX := NO_OWNER, reserve := NO_OWNER, sxRec := 0, lockWord := FREE)
      else w
    else w.(reserve := NO_OWNER, sxRec := 0, lockWord := FREE)
  }

  function ValidBits(bitmap: set<nat>): set<nat> { set n | n in bitmap && n < MAX_NODES }

  function RecoverShared(w: Words, p: nat): Words {
    var expected, actual := ExpectedShared(w.lockWord), |ValidBits(w.bitmap)|;
    if actual == expected then
      if p in w.bitmap then w.(bitmap := w.bitmap - {p}, reserve := NO_OWNER, lockWord := w.lockWord + 1) else w
    else if actual < expected then
      w.(bitmap := w.bitmap - {p}, reserve := NO_OWNER, lockWord := w.lockWord + (expected - actual))
    else if p in w.bitmap then w.(bitmap := w.bitmap - {p}, reserve := NO_OWNER)
    else w
  }

  function RecoverSxAndShared(w: Words, p: nat, spurious: nat): Words {
    var dropped := w.(reserve := NO_OWNER, sxRec := 0, lockWord := w.lockWord + HALF);
    var v := if !Takes(w.ownerSX, spurious) then dropped
             else if OwnerNode(w.ownerSX) == p then dropped.(ownerSX := NO_OWNER)
             else w;
    RecoverShared(v, p)
  }

  function RecoverWords(w: Words, p: nat, spurious: nat): Words {
    if w.lockWord == 0 then RecoverX(w, p, spurious)
    else if w.lockWord == HALF then RecoverSx(w, p, spurious)
    else if 0 < w.lockWord < HALF then RecoverSxAndShared(w, p, spurious)
    else if HALF < w.lockWord < FREE then RecoverShared(w, p)
    else w
  }

  // ---- where a call of the failed node may have stopped ----------------------------

  /** The S units of the failed node, usually one at most, and its S bit. */
  datatype SharedPart = Shared(units: nat, bit: bool)

  /** The X or SX unit of the failed node: taken, named, held, un-named, cleared. */
  datatype ExclusivePart =
    | ENone
    | ETaken
    | ENamed(tid: Tid)
    | EHeld(tid: Tid, rec: nat)
    | EUnnamed(rec: nat)
    | ECleared

  datatype Residue = Residue(shared: SharedPart, sx: ExclusivePart, x: ExclusivePart)

  const NOTHING := Residue(Shared(0, false), ENone, ENone)

  function PartName(p: nat, e: ExclusivePart): nat {
    if e.ENamed? || e.EHeld? then OwnerWord(p, e.tid) else NO_OWNER
  }

  function PartRec(e: ExclusivePart): nat { if e.EHeld? || e.EUnnamed? then e.rec else 0 }

  /** The words when survivors hold h and node p stopped with residue r. */
  function Raw(h: Holdings, p: nat, r: Residue, reserve: nat): Words {
    Words(WordFor(|h.readers| + r.shared.units, h.sx.Some? || !r.sx.ENone?, h.x.Some? || !r.x.ENone?),
          if h.x.Some? then NameOf(h.x) else PartName(p, r.x),
          if h.sx.Some? then NameOf(h.sx) else PartName(p, r.sx),
          reserve,
          if h.x.Some? then RecOf(h.x) else PartRec(r.x),
          if h.sx.Some? then RecOf(h.sx) else PartRec(r.sx),
          h.readers + (if r.shared.bit then {p} else {}))
  }

  /** Survivors and residue can have come about together under the lock's own rules. */
  predicate Together(h: Holdings, p: nat, r: Residue) {
    && Consistent(h) && p < MAX_NODES && p !in h.readers && |h.readers| + r.shared.units < HALF
    && (h.sx.Some? ==> h.sx.value.node != p && r.sx.ENone?)
    && (h.x.Some? ==> h.x.value.node != p && r.shared.units == 0 && r.sx.ENone? && r.x.ENone?)
    && (!r.x.ENone? ==> h.readers == {} && h.sx.None? && r.shared.units == 0 && r.sx.ENone?)
  }

  // ---- every write of a call moves between residues -----------------------------------

  datatype Write =
    | AddWord(delta: int) | SetWord(value: int)
    | NameX(owner: nat) | NameSX(owner: nat)
    | CountX(rec: nat) | CountSX(rec: nat)
    | SetBit | ClearBit

  function Do(w: Words, p: nat, write: Write): Words {
    match write
    case AddWord(delta) => w.(lockWord := w.lockWord + delta)
    case SetWord(value) => w.(lockWord := value)
    case NameX(owner) => w.(ownerX := owner)
    case NameSX(owner) => w.(ownerSX := owner)
    case CountX(rec) => w.(xRec := rec)
    case CountSX(rec) => w.(sxRec := rec)
    case SetBit => w.(bitmap := w.bitmap + {p})
    case ClearBit => w.(bitmap := w.bitmap - {p})
  }

  /**
  The next write of an S call, and where it leaves the node. Calls of one node
  overlap here: a release message is handled without the local lock, so its
  unlock may clear the bit of a thread that locks again; and a node whose global
  state was reset under its readers takes a second unit.
  */
  predicate SharedWrite(s: SharedPart, write: Write, t: SharedPart) {
    || (write == AddWord(-1) && t == s.(units := s.units + 1))
    || (s.units > 0 && write == SetBit && t == s.(bit := true))
    || (s.units > 0 && write == AddWord(1) && t == s.(units := s.units - 1))
    || (write == ClearBit && t == s.(bit := false))
  }

  predicate UpgradableWrite(p: nat, e: ExclusivePart, write: Write, f: ExclusivePart) {
    || (e.ENone? && write == AddWord(-HALF) && f.ETaken?)
    || (e.ETaken? && f.ENamed? && write == NameSX(OwnerWord(p, f.tid)))
    || (e.ENamed? && write == CountSX(1) && f == EHeld(e.tid, 1))
    // recursion up and down; the outermost recursive unlock counts to zero before it clears the name
    || (e.EHeld? && write == CountSX(e.rec + 1) && f == EHeld(e.tid, e.rec + 1))
    || (e.EHeld? && e.rec > 1 && write == CountSX(e.rec - 1) && f == EHeld(e.tid, e.rec - 1))
    || (e.EHeld? && write == CountSX(0) && f == ENamed(e.tid))
    || (e.ENamed? && write == NameSX(NO_OWNER) && f == EUnnamed(0))
    // another thread of the node inherits a parked unit
    || (e.EHeld? && f.EHeld? && f.rec == e.rec && write == NameSX(OwnerWord(p, f.tid)))
    || (e.EHeld? && write == CountSX(1) && f == EHeld(e.tid, 1))
    || (e.EHeld? && write == NameSX(NO_OWNER) && f == EUnnamed(e.rec))
    || (e.EUnnamed? && write == CountSX(0) && f.ECleared?)
    || (e.ECleared? && write == AddWord(HALF) && f.ENone?)
  }

  predicate ExclusiveWrite(p: nat, e: ExclusivePart, write: Write, f: ExclusivePart) {
    || (e.ENone? && write == SetWord(0) && f.ETaken?)
    || (e.ETaken? && f.ENamed? && write == NameX(OwnerWord(p, f.tid)))
    || (e.ENamed? && write == CountX(1) && f == EHeld(e.tid, 1))
    // recursion up and down; the outermost recursive unlock counts to zero before it clears the name
    || (e.EHeld? && write == CountX(e.rec + 1) && f == EHeld(e.tid, e.rec + 1))
    || (e.EHeld? && e.rec > 1 && write == CountX(e.rec - 1) && f == EHeld(e.tid, e.rec - 1))
    || (e.EHeld? && write == CountX(0) && f == ENamed(e.tid))
    || (e.ENamed? && write == NameX(NO_OWNER) && f == EUnnamed(0))
    // another thread of the node inherits a parked unit
    || (e.EHeld? && f.EHeld? && f.rec == e.rec && write == NameX(OwnerWord(p, f.tid)))
    || (e.EHeld? && write == CountX(1) && f == EHeld(e.tid, 1))
    || (e.EHeld? && write == NameX(NO_OWNER) && f == EUnnamed(e.rec))
    || (e.EUnnamed? && write == CountX(0) && f.ECleared?)
    || (e.ECleared? && write == SetWord(FREE) && f.ENone?)
  }

  predicate CallWrite(p: nat, r: Residue, write: Write, q: Residue) {
    || (SharedWrite(r.shared, write, q.shared) && q == r.(shared := q.shared))
    || (UpgradableWrite(p, r.sx, write, q.sx) && q == r.(sx := q.sx))
    || (ExclusiveWrite(p, r.x, write, q.x) && q == r.(x := q.x))
  }

  lemma SharedWriteIsResidue(h: Holdings, p: nat, r: Residue, write: Write, t: SharedPart, reserve: nat)
    requires Together(h, p, r) && Together(h, p, r.(shared := t)) && SharedWrite(r.shared, write, t)
    ensures Do(Raw(h, p, r, reserve), p, write) == Raw(h, p, r.(shared := t), reserve)
  {
    hide OwnerWord;
    assert Do(Raw(h, p, r, reserve), p, write).bitmap == Raw(h, p, r.(shared := t), reserve).bitmap;
  }

  lemma UpgradableWriteIsResidue(h: Holdings, p: nat, r: Residue, write: Write, f: ExclusivePart, reserve: nat)
    requires Together(h, p, r) && Together(h, p, r.(sx := f)) && UpgradableWrite(p, r.sx, write, f)
    ensures Do(Raw(h, p, r, reserve), p, write) == Raw(h, p, r.(sx := f), reserve)
  {
    hide OwnerWord;
  }

  lemma ExclusiveWriteIsResidue(h: Holdings, p: nat, r: Residue, write: Write, f: ExclusivePart, reserve: nat)
    requires Together(h, p, r) && Together(h, p, r.(x := f)) && ExclusiveWrite(p, r.x, write, f)
    ensures Do(Raw(h, p, r, reserve), p, write) == Raw(h, p, r.(x := f), reserve)
  {
    hide OwnerWord;
  }

  /** Stopping after any write of any call leaves words of the form Raw. */
  lemma CallWriteIsResidue(h: Holdings, p: nat, r: Residue, write: Write, q: Residue, reserve: nat)
    requires Together(h, p, r) && Together(h, p, q) && CallWrite(p, r, write, q)
    ensures Do(Raw(h, p, r, reserve), p, write) == Raw(h, p, q, reserve)
  {
    hide Do, Raw, Together, SharedWrite, UpgradableWrite, ExclusiveWrite;
    if SharedWrite(r.shared, write, q.shared) && q == r.(shared := q.shared) {
      SharedWriteIsResidue(h, p, r, write, q.shared, reserve);
    } else if UpgradableWrite(p, r.sx, write, q.sx) && q == r.(sx := q.sx) {
      UpgradableWriteIsResidue(h, p, r, write, q.sx, reserve);
    } else {
      ExclusiveWriteIsResidue(h, p, r, write, q.x, reserve);
    }
  }

  ghost predicate CutOff(h: Holdings, p: nat, r: Residue, writes: seq<Write>, q: Residue)
    decreases |writes|
  {
    if writes == [] then q == r
    else exists m :: Together(h, p, m) && CallWrite(p, r, writes[0], m) && CutOff(h, p, m, writes[1..], q)
  }

  function DoAll(w: Words, p: nat, writes: seq<Write>): Words
    decreases |writes|
  {
    if writes == [] then w else DoAll(Do(w, p, writes[0]), p, writes[1..])
  }

  /** Any number of writes of interleaved calls, cut anywhere, starting from whole holdings. */
  lemma {:induction false} CutLeavesRaw(h: Holdings, p: nat, r: Residue, writes: seq<Write>, q: Residue, reserve: nat)
    requires Together(h, p, r) && CutOff(h, p, r, writes, q)
    ensures DoAll(Raw(h, p, r, reserve), p, writes) == Raw(h, p, q, reserve)
    ensures Together(h, p, q)
    decreases |writes|
  {
    if writes != [] {
      var m :| Together(h, p, m) && CallWrite(p, r, writes[0], m) && CutOff(h, p, m, writes[1..], q);
      CallWriteIsResidue(h, p, r, writes[0], m, reserve);
      CutLeavesRaw(h, p, m, writes[1..], q, reserve);
    }
  }

  // ---- recovery is exact ------------------------------------------------------------------

  /** The failed node's bit outlives its unit and no reader remains to show it. */
  predicate OrphanBit(h: Holdings, r: Residue) { r.shared.bit && r.shared.units == 0 && h.readers == {} }

  /** The failed node had several units and its bit, which recovery counts as one of them to be kept. */
  predicate KeptUnit(r: Residue) { r.shared.bit && r.shared.units >= 2 }

  /** Every attempt to take a set owner word fails. */
  predicate OwnerMissed(w: Words, spurious: nat) {
    spurious >= TAKE_RETRIES && (w.ownerX != NO_OWNER || w.ownerSX != NO_OWNER)
  }

  /** The words agree but for the reservation, which recovery may clear. */
  predicate SameButReserve(v: Words, w: Words) { v.(reserve := 0) == w.(reserve := 0) }

  function Units(h: Holdings, r: Residue): nat { |h.readers| + r.shared.units }

  lemma BitmapFacts(h: Holdings, p: nat, r: Residue, reserve: nat)
    requires Together(h, p, r)
    ensures |h.readers| <= MAX_NODES && MAX_NODES < HALF
    ensures ValidBits(Raw(h, p, r, reserve).bitmap) == Raw(h, p, r, reserve).bitmap
    ensures |Raw(h, p, r, reserve).bitmap| == |h.readers| + (if r.shared.bit then 1 else 0)
    ensures Raw(h, p, r, reserve).bitmap - {p} == h.readers
  {
    FewNodes(h.readers, MAX_NODES);
    var b := Raw(h, p, r, reserve).bitmap;
    assert ValidBits(b) == b;
    assert b - {p} == h.readers;
    assert r.shared.bit ==> b == h.readers + {p};
    assert !r.shared.bit ==> b == h.readers;
  }

  /** The shared part on its own: any word whose S units match the residue. */
  lemma SharedPartExact(h: Holdings, p: nat, r: Residue, reserve: nat, w: Words)
    requires Together(h, p, r) && Units(h, r) > 0
    requires w.bitmap == Raw(h, p, r, reserve).bitmap
    requires w.lockWord == FREE - Units(h, r) || w.lockWord == HALF - Units(h, r)
    ensures RecoverShared(w, p).bitmap == h.readers
    ensures RecoverShared(w, p).lockWord == w.lockWord + r.shared.units - (if KeptUnit(r) then 1 else 0)
    ensures SameButReserve(RecoverShared(w, p), w.(bitmap := h.readers, lockWord := RecoverShared(w, p).lockWord))
  {
    BitmapFacts(h, p, r, reserve);
  }

  lemma NamesKnown(h: Holdings, p: nat, r: Residue, reserve: nat)
    requires Together(h, p, r)
    ensures var w := Raw(h, p, r, reserve);
      && (h.x.Some? ==> OwnerNode(w.ownerX) != p && w.ownerX != NO_OWNER)
      && (h.x.None? && w.ownerX != NO_OWNER ==> OwnerNode(w.ownerX) == p && !r.x.ENone?)
      && (h.sx.Some? ==> OwnerNode(w.ownerSX) != p && w.ownerSX != NO_OWNER)
      && (h.sx.None? && w.ownerSX != NO_OWNER ==> OwnerNode(w.ownerSX) == p && !r.sx.ENone?)
  {
    if h.x.Some? { OwnerRoundTrip(h.x.value.node, h.x.value.tid); }
    if h.sx.Some? { OwnerRoundTrip(h.sx.value.node, h.sx.value.tid); }
    if r.x.ENamed? || r.x.EHeld? { OwnerRoundTrip(p, r.x.tid); }
    if r.sx.ENamed? || r.sx.EHeld? { OwnerRoundTrip(p, r.sx.tid); }
  }

  lemma ExclusiveCase(h: Holdings, p: nat, r: Residue, reserve: nat, spurious: nat)
    requires Together(h, p, r) && (h.x.Some? || !r.x.ENone?)
    ensures var w := Raw(h, p, r, reserve);
      SameButReserve(RecoverWords(w, p, spurious), Encode(h, reserve)) <==>
        !OrphanBit(h, r) && !KeptUnit(r) && !OwnerMissed(w, spurious)
  {
    hide OwnerNode, OwnerWord;
    NamesKnown(h, p, r, reserve);
    BitmapFacts(h, p, r, reserve);
  }

  /** No S unit in the word: it is HALF or FREE, and recovery never looks at the bitmap. */
  lemma NoUnitCase(h: Holdings, p: nat, r: Residue, reserve: nat, spurious: nat)
    requires Together(h, p, r) && h.x.None? && r.x.ENone? && Units(h, r) == 0
    ensures var w := Raw(h, p, r, reserve);
      SameButReserve(RecoverWords(w, p, spurious), Encode(h, reserve)) <==>
        !OrphanBit(h, r) && !KeptUnit(r) && !OwnerMissed(w, spurious)
  {
    hide OwnerNode, OwnerWord;
    NamesKnown(h, p, r, reserve);
    BitmapFacts(h, p, r, reserve);
  }

  lemma SharedCase(h: Holdings, p: nat, r: Residue, reserve: nat, spurious: nat)
    requires Together(h, p, r) && h.x.None? && r.x.ENone? && Units(h, r) > 0 && h.sx.None? && r.sx.ENone?
    ensures var w := Raw(h, p, r, reserve);
      SameButReserve(RecoverWords(w, p, spurious), Encode(h, reserve)) <==>
        !OrphanBit(h, r) && !KeptUnit(r) && !OwnerMissed(w, spurious)
  {
    hide OwnerNode, OwnerWord, RecoverShared;
    NamesKnown(h, p, r, reserve);
    BitmapFacts(h, p, r, reserve);
    SharedPartExact(h, p, r, reserve, Raw(h, p, r, reserve));
  }

  lemma UpgradableCase(h: Holdings, p: nat, r: Residue, reserve: nat, spurious: nat)
    requires Together(h, p, r) && h.x.None? && r.x.ENone? && Units(h, r) > 0 && (h.sx.Some? || !r.sx.ENone?)
    ensures var w := Raw(h, p, r, reserve);
      SameButReserve(RecoverWords(w, p, spurious), Encode(h, reserve)) <==>
        !OrphanBit(h, r) && !KeptUnit(r) && !OwnerMissed(w, spurious)
  {
    hide OwnerNode, OwnerWord, RecoverShared;
    NamesKnown(h, p, r, reserve);
    BitmapFacts(h, p, r, reserve);
    var w := Raw(h, p, r, reserve);
    var dropped := w.(reserve := NO_OWNER, sxRec := 0, lockWord := w.lockWord + HALF);
    SharedPartExact(h, p, r, reserve, w);
    SharedPartExact(h, p, r, reserve, dropped);
    SharedPartExact(h, p, r, reserve, dropped.(ownerSX := NO_OWNER));
  }

  /**
  Recovery leaves exactly the survivors' words unless the node stopped between
  returning its S unit and clearing its bit with no other reader left, or had
  several S units and its bit, or every attempt to take a set owner word failed.
  */
  lemma RecoverExact(h: Holdings, p: nat, r: Residue, reserve: nat, spurious: nat)
    requires Together(h, p, r)
    ensures var w := Raw(h, p, r, reserve);
      SameButReserve(RecoverWords(w, p, spurious), Encode(h, reserve)) <==>
        !OrphanBit(h, r) && !KeptUnit(r) && !OwnerMissed(w, spurious)
  {
    hide RecoverWords, SameButReserve, OrphanBit, OwnerMissed, Raw, Encode, Together;
    if h.x.Some? || !r.x.ENone? { ExclusiveCase(h, p, r, reserve, spurious); }
    else if Units(h, r) == 0 { NoUnitCase(h, p, r, reserve, spurious); }
    else if h.sx.None? && r.sx.ENone? { SharedCase(h, p, r, reserve, spurious); }
    else { UpgradableCase(h, p, r, reserve, spurious); }
  }

  /** The same over runs: cut any writes of p's calls anywhere, then recover. */
  lemma CrashThenRecover(h: Holdings, p: nat, writes: seq<Write>, q: Residue, reserve: nat, spurious: nat)
    requires Together(h, p, NOTHING) && CutOff(h, p, NOTHING, writes, q)
    ensures var crashed := DoAll(Encode(h, reserve), p, writes);
      SameButReserve(RecoverWords(crashed, p, spurious), Encode(h, reserve)) <==>
        !OrphanBit(h, q) && !KeptUnit(q) && !OwnerMissed(crashed, spurious)
  {
    assert Raw(h, p, NOTHING, reserve) == Encode(h, reserve);
    CutLeavesRaw(h, p, NOTHING, writes, q, reserve);
    RecoverExact(h, p, q, reserve, spurious);
  }

  /** A reader cut after its last write but one, alone: the stale bit survives recovery. */
  lemma StaleBitSurvives()
    ensures var h := Holdings({}, None, None);
      var crashed := DoAll(Encode(h, NO_OWNER), 3, [AddWord(-1), SetBit, AddWord(1)]);
      RecoverWords(crashed, 3, 0) == Encode(h, NO_OWNER).(bitmap := {3})
  {
    var w := Encode(Holdings({}, None, None), NO_OWNER);
    var a := Do(w, 3, AddWord(-1));
    var b := Do(a, 3, SetBit);
    var c := Do(b, 3, AddWord(1));
    assert DoAll(c, 3, []) == c;
    assert [AddWord(1)][1..] == [] && DoAll(b, 3, [AddWord(1)]) == c;
    assert [SetBit, AddWord(1)][1..] == [AddWord(1)] && DoAll(a, 3, [SetBit, AddWord(1)]) == c;
    assert [AddWord(-1), SetBit, AddWord(1)][1..] == [SetBit, AddWord(1)];
  }

  /** A node cut with two units and its bit: recovery keeps one unit that nobody will ever return. */
  lemma SecondUnitSurvives()
    ensures var h := Holdings({}, None, None);
      var crashed := DoAll(Encode(h, NO_OWNER), 3, [AddWord(-1), SetBit, AddWord(-1)]);
      RecoverWords(crashed, 3, 0) == Encode(h, NO_OWNER).(lockWord := FREE - 1)
  {
    var w := Encode(Holdings({}, None, None), NO_OWNER);
    var a := Do(w, 3, AddWord(-1));
    var b := Do(a, 3, SetBit);
    var c := Do(b, 3, AddWord(-1));
    assert DoAll(c, 3, []) == c;
    assert [AddWord(-1)][1..] == [] && DoAll(b, 3, [AddWord(-1)]) == c;
    assert [SetBit, AddWord(-1)][1..] == [AddWord(-1)] && DoAll(a, 3, [SetBit, AddWord(-1)]) == c;
    assert [AddWord(-1), SetBit, AddWord(-1)][1..] == [SetBit, AddWord(-1)];
    assert ValidBits({3}) == {3};
  }
}
