/**
The node-local lock as a step system: every load, lane CAS, word CAS,
fetch-and and store on the shared words is one step, and any number of calls
interleave. A value read earlier and used later stays in the caller's program
counter, so stale reads and failed CASes are part of every run.
*/
module LocalLockProtocol {
  import opened LocalWord

  datatype Pc =
    | Idle
    | SLoaded(seen: Lane)     // local_lock_try_acquire_s: passed the checks, CAS pending
    | HoldS
    | SUnlocking(seen: Lane)  // local_lock_try_release_s: expected lane value
    | XLoaded                 // local_lock_try_acquire_x: saw 0, CAS pending
    | XTaken                  // word is X_STATE, lock_x_owner not yet stored
    | HoldX
    | XOwned                  // unlock_x: owner check passed
    | XUnlocking              // lock_x_owner cleared, word store pending
    | SXLoaded(seen: Lane)
    | SXTaken
    | HoldSX
    | SXOwned                 // unlock_sx: owner check passed
    | SXFlagged               // unlock_sx: flag check passed
    | SXUnlocking             // lock_sx_owner cleared, fetch-and pending
    | Failed                  // an unlock returned UB_LOCK_ERROR to a holder

  datatype Local = Local(word: Word, ownerX: int, ownerSX: int, pc: map<Agent, Pc>)

  function PcOf(s: Local, a: Agent): Pc {
    if a in s.pc then s.pc[a] else Idle
  }

  predicate Reading(p: Pc) { p.HoldS? || p.SUnlocking? }
  predicate Upgradable(p: Pc) { p.SXTaken? || p.HoldSX? || p.SXOwned? || p.SXFlagged? || p.SXUnlocking? }
  predicate Exclusive(p: Pc) { p.XTaken? || p.HoldX? || p.XOwned? || p.XUnlocking? }

  function Readers(s: Local): set<Agent> { set a | a in s.pc && Reading(s.pc[a]) }
  function SxHolders(s: Local): set<Agent> { set a | a in s.pc && Upgradable(s.pc[a]) }
  function XHolders(s: Local): set<Agent> { set a | a in s.pc && Exclusive(s.pc[a]) }

  predicate Init(s: Local) {
    s.word == IDLE_WORD && s.ownerX == 0 && s.ownerSX == 0 && s.pc == map[]
  }

  function Go(s: Local, a: Agent, p: Pc): Local { s.(pc := s.pc[a := p]) }

  // ---- shared ------------------------------------------------------------

  predicate StepS(s: Local, t: Local, a: Agent)
  {
    var lane := s.word.At(LaneOf(a));
    match PcOf(s, a)
    case Idle =>
      // the full-word load of local_lock_try_acquire_s and its three checks
      && !s.word.l1.flag && !lane.sentinel && lane.count < MAX_COUNT
      && t == Go(s, a, SLoaded(lane))
    case SLoaded(seen) =>
      || t == Go(s, a, Idle)  // weak CAS failed, or the deadline passed
      || (&& lane == seen && seen.count < MAX_COUNT
          && t == Go(s.(word := s.word.Put(LaneOf(a), OneMore(seen))), a, HoldS))
    case HoldS => t == Go(s, a, SUnlocking(lane))
    case SUnlocking(seen) =>
      if seen.sentinel || seen.count == 0 then t == Go(s, a, Failed)
      else if lane == seen then
        t == Go(s.(word := s.word.Put(LaneOf(a), OneLess(seen))), a, Idle)
      else t == Go(s, a, SUnlocking(lane))
    case _ => false
  }

  // ---- exclusive -----------------------------------------------------------

  predicate StepX(s: Local, t: Local, a: Agent) {
    match PcOf(s, a)
    case Idle => s.ownerX != a.tid && s.word == IDLE_WORD && t == Go(s, a, XLoaded)
    case XLoaded =>
      || t == Go(s, a, Idle)
      || (s.word == IDLE_WORD && t == Go(s.(word := X_WORD), a, XTaken))
    case XTaken => t == Go(s.(ownerX := a.tid), a, HoldX)
    case HoldX => t == Go(s, a, if s.ownerX != a.tid then Failed else XOwned)
    case XOwned => t == Go(s.(ownerX := 0), a, XUnlocking)
    case XUnlocking => t == Go(s.(word := IDLE_WORD), a, Idle)
    case _ => false
  }

  // ---- shared-exclusive ------------------------------------------------------

  predicate StepSX(s: Local, t: Local, a: Agent) {
    match PcOf(s, a)
    case Idle =>
      && s.ownerSX != a.tid
      && !s.word.l0.flag && !s.word.l1.flag && (forall i: nat :: i < LANES ==> !s.word.At(i).sentinel)
      && t == Go(s, a, SXLoaded(s.word.l0))
    case SXLoaded(seen) =>
      || t == Go(s, a, Idle)
      || (&& s.word.l0 == seen && !seen.flag
          && t == Go(s.(word := s.word.Put(0, seen.(flag := true))), a, SXTaken))
    case SXTaken => t == Go(s.(ownerSX := a.tid), a, HoldSX)
    case HoldSX => t == Go(s, a, if s.ownerSX != a.tid then Failed else SXOwned)
    case SXOwned => t == Go(s, a, if !s.word.l0.flag then Failed else SXFlagged)
    case SXFlagged => t == Go(s.(ownerSX := 0), a, SXUnlocking)
    case SXUnlocking =>
      if s.word.l0.flag then t == Go(s.(word := s.word.Put(0, s.word.l0.(flag := false))), a, Idle)
      else t == Go(s, a, Failed)
    case _ => false
  }

  predicate AgentStep(s: Local, t: Local, a: Agent) {
    a.tid != 0 && (StepS(s, t, a) || StepX(s, t, a) || StepSX(s, t, a))
  }

  ghost predicate Next(s: Local, t: Local) {
    exists a :: AgentStep(s, t, a)
  }

  ghost predicate IsRun(run: seq<Local>) {
    && |run| > 0 && Init(run[0])
    && forall i :: 0 < i < |run| ==> Next(run[i - 1], run[i])
  }

  // ---- what every step keeps ---------------------------------------------------

  /** What a caller remembers is enough to make the CAS it is about to do legal. */
  predicate Remembers(s: Local, a: Agent, p: Pc) {
    match p
    case SLoaded(seen) => !seen.sentinel
    case SXLoaded(seen) => !seen.sentinel && !seen.flag
    case SUnlocking(seen) => !seen.sentinel && seen.count > 0
    case HoldX => s.ownerX == a.tid
    case XOwned => s.ownerX == a.tid
    case HoldSX => s.ownerSX == a.tid
    case SXOwned => s.ownerSX == a.tid
    case SXFlagged => s.ownerSX == a.tid
    case Failed => false
    case _ => true
  }

  ghost predicate Exact(s: Local) {
    Agrees(s.word, Readers(s), SxHolders(s), XHolders(s))
  }

  ghost predicate Inv(s: Local) {
    && Exact(s)
    && (forall a :: a in s.pc ==> Remembers(s, a, s.pc[a]))
  }

  lemma ClassOf(s: Local, a: Agent)
    ensures a in Readers(s) <==> Reading(PcOf(s, a))
    ensures a in SxHolders(s) <==> Upgradable(PcOf(s, a))
    ensures a in XHolders(s) <==> Exclusive(PcOf(s, a))
  {
  }

  lemma SetsAfter(s: Local, t: Local, a: Agent)
    requires t.pc == s.pc[a := PcOf(t, a)]
    ensures Readers(t) == if Reading(PcOf(t, a)) then Readers(s) + {a} else Readers(s) - {a}
    ensures SxHolders(t) == if Upgradable(PcOf(t, a)) then SxHolders(s) + {a} else SxHolders(s) - {a}
    ensures XHolders(t) == if Exclusive(PcOf(t, a)) then XHolders(s) + {a} else XHolders(s) - {a}
  {
  }

  /** A step that leaves the word alone and moves its caller inside one class. */
  lemma QuietStep(s: Local, t: Local, a: Agent)
    requires Exact(s) && t.word == s.word && t.pc == s.pc[a := PcOf(t, a)]
    requires Reading(PcOf(t, a)) == Reading(PcOf(s, a))
    requires Upgradable(PcOf(t, a)) == Upgradable(PcOf(s, a))
    requires Exclusive(PcOf(t, a)) == Exclusive(PcOf(s, a))
    ensures Exact(t)
  {
    hide Agrees;
    assert Readers(t) == Readers(s);
    assert SxHolders(t) == SxHolders(s);
    assert XHolders(t) == XHolders(s);
  }

  lemma ReaderLane(s: Local, a: Agent)
    requires Exact(s) && Reading(PcOf(s, a))
    ensures !s.word.At(LaneOf(a)).sentinel && s.word.At(LaneOf(a)).count > 0
  {
    hide Agrees;
    ClassOf(s, a);
    DropShared(s.word, Readers(s), SxHolders(s), XHolders(s), a);
  }

  lemma SharedTaken(s: Local, t: Local, a: Agent)
    requires Exact(s) && StepS(s, t, a) && PcOf(s, a).SLoaded? && PcOf(t, a).HoldS? && Remembers(s, a, PcOf(s, a))
    ensures Exact(t)
  {
    hide Agrees;
    ClassOf(s, a);
    SetsAfter(s, t, a);
    TakeShared(s.word, Readers(s), SxHolders(s), XHolders(s), a);
    assert t.word == s.word.Put(LaneOf(a), OneMore(s.word.At(LaneOf(a))));
    hide Readers, SxHolders, XHolders, StepS;
    assert Readers(t) == Readers(s) + {a} && SxHolders(t) == SxHolders(s) && XHolders(t) == XHolders(s);
  }

  lemma SharedDropped(s: Local, t: Local, a: Agent)
    requires Exact(s) && PcOf(s, a).SUnlocking? && s.word.At(LaneOf(a)).count > 0
    requires t == Go(s.(word := s.word.Put(LaneOf(a), OneLess(s.word.At(LaneOf(a))))), a, Idle)
    ensures Exact(t)
  {
    hide Agrees, Readers, SxHolders, XHolders;
    ClassOf(s, a);
    ReaderLeaves(s, t, a);
    DropShared(s.word, Readers(s), SxHolders(s), XHolders(s), a);
  }

  lemma ReaderLeaves(s: Local, t: Local, a: Agent)
    requires t.pc == s.pc[a := Idle] && PcOf(s, a).SUnlocking?
    ensures Readers(t) == Readers(s) - {a} && SxHolders(t) == SxHolders(s) && XHolders(t) == XHolders(s)
  {
  }

  lemma SharedStepExact(s: Local, t: Local, a: Agent)
    requires Inv(s) && StepS(s, t, a)
    ensures Exact(t)
  {
    hide Exact;
    if PcOf(s, a).SLoaded? && PcOf(t, a).HoldS? {
      SharedTaken(s, t, a);
    } else if PcOf(s, a).SUnlocking? && PcOf(t, a).Idle? {
      SharedDropped(s, t, a);
    } else {
      QuietStep(s, t, a);
    }
  }

  lemma ExclusiveTaken(s: Local, t: Local, a: Agent)
    requires Exact(s) && StepX(s, t, a) && PcOf(s, a).XLoaded? && PcOf(t, a).XTaken?
    ensures Exact(t)
  {
    hide Agrees;
    ClassOf(s, a);
    SetsAfter(s, t, a);
    TakeExclusive(s.word, Readers(s), SxHolders(s), XHolders(s), a);
    hide Readers, SxHolders, XHolders;
    assert Readers(t) == {} && SxHolders(t) == {} && XHolders(t) == {a};
  }

  lemma ExclusiveDropped(s: Local, t: Local, a: Agent)
    requires Exact(s) && StepX(s, t, a) && PcOf(s, a).XUnlocking?
    ensures Exact(t)
  {
    hide Agrees;
    ClassOf(s, a);
    SetsAfter(s, t, a);
    DropExclusive(s.word, Readers(s), SxHolders(s), XHolders(s), a);
    hide Readers, SxHolders, XHolders;
    assert Readers(t) == {} && SxHolders(t) == {} && XHolders(t) == {};
  }

  lemma ExclusiveStepExact(s: Local, t: Local, a: Agent)
    requires Inv(s) && StepX(s, t, a)
    ensures Exact(t)
  {
    hide Exact;
    if PcOf(s, a).XLoaded? && PcOf(t, a).XTaken? {
      ExclusiveTaken(s, t, a);
    } else if PcOf(s, a).XUnlocking? {
      ExclusiveDropped(s, t, a);
    } else {
      QuietStep(s, t, a);
    }
  }

  lemma SxFlagSet(s: Local, a: Agent)
    requires Exact(s) && Upgradable(PcOf(s, a))
    ensures s.word.l0.flag
  {
    hide Agrees;
    ClassOf(s, a);
    DropUpgradable(s.word, Readers(s), SxHolders(s), XHolders(s), a);
  }

  lemma UpgradableTaken(s: Local, t: Local, a: Agent)
    requires Exact(s) && StepSX(s, t, a) && PcOf(s, a).SXLoaded? && PcOf(t, a).SXTaken?
    requires Remembers(s, a, PcOf(s, a))
    ensures Exact(t)
  {
    hide Agrees;
    ClassOf(s, a);
    SetsAfter(s, t, a);
    TakeUpgradable(s.word, Readers(s), SxHolders(s), XHolders(s), a);
    hide Readers, SxHolders, XHolders;
    assert Readers(t) == Readers(s) && SxHolders(t) == {a} && XHolders(t) == XHolders(s);
  }

  lemma UpgradableDropped(s: Local, t: Local, a: Agent)
    requires Exact(s) && StepSX(s, t, a) && PcOf(s, a).SXUnlocking?
    ensures Exact(t)
  {
    hide Agrees;
    ClassOf(s, a);
    DropUpgradable(s.word, Readers(s), SxHolders(s), XHolders(s), a);
    SetsAfter(s, t, a);
    hide Readers, SxHolders, XHolders;
    assert Readers(t) == Readers(s) && SxHolders(t) == {} && XHolders(t) == {};
  }

  lemma UpgradableStepExact(s: Local, t: Local, a: Agent)
    requires Inv(s) && StepSX(s, t, a)
    ensures Exact(t)
  {
    hide Exact;
    if PcOf(s, a).SXLoaded? && PcOf(t, a).SXTaken? {
      UpgradableTaken(s, t, a);
    } else if PcOf(s, a).SXUnlocking? {
      UpgradableDropped(s, t, a);
    } else {
      if PcOf(s, a).SXOwned? { SxFlagSet(s, a); }
      QuietStep(s, t, a);
    }
  }

  lemma OneAtATime(s: Local, a: Agent, b: Agent)
    requires Exact(s) && a != b
    ensures !(Exclusive(PcOf(s, a)) && Exclusive(PcOf(s, b)))
    ensures !(Upgradable(PcOf(s, a)) && Upgradable(PcOf(s, b)))
    ensures Exclusive(PcOf(s, a)) ==> !Upgradable(PcOf(s, b)) && !Reading(PcOf(s, b))
  {
    ClassOf(s, a);
    ClassOf(s, b);
    if Exclusive(PcOf(s, a)) && Exclusive(PcOf(s, b)) {
      SingleHolder(XHolders(s), a, b);
    }
    if Upgradable(PcOf(s, a)) && Upgradable(PcOf(s, b)) {
      SingleHolder(SxHolders(s), a, b);
    }
  }

  lemma StepRemembers(s: Local, t: Local, a: Agent)
    requires Inv(s) && AgentStep(s, t, a)
    ensures forall b :: b in t.pc ==> Remembers(t, b, t.pc[b])
  {
    hide Exact;
    if Reading(PcOf(s, a)) { ReaderLane(s, a); }
    if Upgradable(PcOf(s, a)) { SxFlagSet(s, a); }
    if PcOf(s, a).Idle? { assert PcOf(t, a).SXLoaded? ==> !s.word.At(0).sentinel; }
    forall b | b in t.pc && b != a ensures Remembers(t, b, t.pc[b]) {
      OneAtATime(s, a, b);
    }
  }

  lemma {:induction false} RunKeeps(run: seq<Local>, i: nat)
    requires IsRun(run) && i < |run|
    ensures Inv(run[i])
  {
    if i == 0 {
      AgreesWhenEmpty();
      assert Readers(run[0]) == {} && SxHolders(run[0]) == {} && XHolders(run[0]) == {};
    } else {
      RunKeeps(run, i - 1);
      var a :| AgentStep(run[i - 1], run[i], a);
      StepRemembers(run[i - 1], run[i], a);
      if StepS(run[i - 1], run[i], a) {
        SharedStepExact(run[i - 1], run[i], a);
      } else if StepX(run[i - 1], run[i], a) {
        ExclusiveStepExact(run[i - 1], run[i], a);
      } else {
        UpgradableStepExact(run[i - 1], run[i], a);
      }
    }
  }

  /**
  In every interleaving the word decodes to exactly the calls that hold it,
  no unlock by a holder ever reports an error, and no two holds conflict.
  */
  lemma LocalLockCorrect(run: seq<Local>, i: nat)
    requires IsRun(run) && i < |run|
    ensures Exact(run[i])
    ensures forall a :: PcOf(run[i], a) != Failed
    ensures forall a, b :: a != b && PcOf(run[i], a) == HoldX ==>
      PcOf(run[i], b) !in {HoldS, HoldSX, HoldX}
    ensures forall a, b :: a != b && PcOf(run[i], a) == HoldSX ==> PcOf(run[i], b) != HoldSX
    ensures forall a :: PcOf(run[i], a) == HoldX ==> run[i].ownerX == a.tid
    ensures forall a :: PcOf(run[i], a) == HoldSX ==> run[i].ownerSX == a.tid
  {
    RunKeeps(run, i);
    var s := run[i];
    forall a, b | a != b
      ensures PcOf(s, a) == HoldX ==> PcOf(s, b) !in {HoldS, HoldSX, HoldX}
      ensures PcOf(s, a) == HoldSX ==> PcOf(s, b) != HoldSX
    {
      OneAtATime(s, a, b);
    }
  }

  // ---- when a first attempt can succeed ---------------------------------------------------------

  /** Load and CAS, with nobody in between, take the lock. */
  ghost predicate SharedOpen(s: Local, a: Agent) {
    exists m, t :: StepS(s, m, a) && StepS(m, t, a) && PcOf(t, a) == HoldS
  }

  ghost predicate UpgradableOpen(s: Local, a: Agent) {
    exists m, t :: StepSX(s, m, a) && StepSX(m, t, a) && PcOf(t, a) == SXTaken
  }

  ghost predicate ExclusiveOpen(s: Local, a: Agent) {
    exists m, t :: StepX(s, m, a) && StepX(m, t, a) && PcOf(t, a) == XTaken
  }

  lemma SharedOpens(s: Local, a: Agent)
    requires PcOf(s, a) == Idle
    ensures SharedOpen(s, a) <==>
      !s.word.l1.flag && !s.word.At(LaneOf(a)).sentinel && s.word.At(LaneOf(a)).count < MAX_COUNT
  {
    var lane := s.word.At(LaneOf(a));
    if !s.word.l1.flag && !lane.sentinel && lane.count < MAX_COUNT {
      var m := Go(s, a, SLoaded(lane));
      var t := Go(m.(word := s.word.Put(LaneOf(a), OneMore(lane))), a, HoldS);
      assert StepS(s, m, a) && StepS(m, t, a) && PcOf(t, a) == HoldS;
    }
  }

  lemma UpgradableOpens(s: Local, a: Agent)
    requires PcOf(s, a) == Idle
    ensures UpgradableOpen(s, a) <==>
      && s.ownerSX != a.tid && !s.word.l0.flag && !s.word.l1.flag
      && forall i: nat :: i < LANES ==> !s.word.At(i).sentinel
  {
    var w := s.word;
    if s.ownerSX != a.tid && !w.l0.flag && !w.l1.flag && forall i: nat :: i < LANES ==> !w.At(i).sentinel {
      var m := Go(s, a, SXLoaded(w.l0));
      var t := Go(m.(word := w.Put(0, w.l0.(flag := true))), a, SXTaken);
      assert StepSX(s, m, a) && StepSX(m, t, a) && PcOf(t, a) == SXTaken;
    }
  }

  lemma ExclusiveOpens(s: Local, a: Agent)
    requires PcOf(s, a) == Idle
    ensures ExclusiveOpen(s, a) <==> s.ownerX != a.tid && s.word == IDLE_WORD
  {
    if s.ownerX != a.tid && s.word == IDLE_WORD {
      var m := Go(s, a, XLoaded);
      var t := Go(m.(word := X_WORD), a, XTaken);
      assert StepX(s, m, a) && StepX(m, t, a) && PcOf(t, a) == XTaken;
    }
  }

  /**
  In every reachable state a first attempt by a thread that is not the named
  owner can succeed exactly when the modes are compatible: S when nobody holds
  X and the lane has room, SX when nobody holds SX or X, X when nobody holds.
  */
  lemma OpenExactly(run: seq<Local>, i: nat, a: Agent)
    requires IsRun(run) && i < |run| && PcOf(run[i], a) == Idle
    ensures var s := run[i];
      && (SharedOpen(s, a) <==> XHolders(s) == {} && |OnLane(Readers(s), LaneOf(a))| < MAX_COUNT)
      && (s.ownerSX != a.tid ==> (UpgradableOpen(s, a) <==> SxHolders(s) == {} && XHolders(s) == {}))
      && (s.ownerX != a.tid ==>
            (ExclusiveOpen(s, a) <==> Readers(s) == {} && SxHolders(s) == {} && XHolders(s) == {}))
  {
    var s := run[i];
    RunKeeps(run, i);
    SharedOpens(s, a);
    UpgradableOpens(s, a);
    ExclusiveOpens(s, a);
    hide SharedOpen, UpgradableOpen, ExclusiveOpen, IsRun;
    AgreesMeans(s.word, Readers(s), SxHolders(s), XHolders(s), a);
  }

  lemma AgreesMeans(w: Word, readers: set<Agent>, sx: set<Agent>, x: set<Agent>, a: Agent)
    requires Agrees(w, readers, sx, x)
    ensures !w.l1.flag && !w.At(LaneOf(a)).sentinel && w.At(LaneOf(a)).count < MAX_COUNT <==>
      x == {} && |OnLane(readers, LaneOf(a))| < MAX_COUNT
    ensures !w.l0.flag && !w.l1.flag && (forall i: nat :: i < LANES ==> !w.At(i).sentinel) <==> sx == {} && x == {}
    ensures w == IDLE_WORD <==> readers == {} && sx == {} && x == {}
  {
    if x != {} {
      assert w.At(0).sentinel && w.l1.flag;
    } else if readers == {} && sx == {} {
      assert forall i :: OnLane(readers, i) == {};
      assert w.At(0) == w.l0 == EMPTY_LANE && w.At(1) == w.l1 == EMPTY_LANE;
      assert w.At(2) == w.l2 == EMPTY_LANE && w.At(3) == w.l3 == EMPTY_LANE;
    } else if w == IDLE_WORD {
      TakeExclusive(w, readers, sx, x, a);
    }
  }

  // ---- lock and unlock undo each other ----------------------------------------------------------------

  ghost predicate Reachable(s: Local) { exists run :: IsRun(run) && run[|run| - 1] == s }

  lemma Hop(s: Local, t: Local, a: Agent)
    requires Reachable(s) && AgentStep(s, t, a)
    ensures Reachable(t)
  {
    hide AgentStep;
    var run :| IsRun(run) && run[|run| - 1] == s;
    var longer := run + [t];
    assert Next(s, t);
    assert forall i :: 0 <= i < |run| ==> longer[i] == run[i];
    assert IsRun(longer) && longer[|longer| - 1] == t;
  }

  /** A call run alone from its open attempt through its unlock leaves words and everybody else as they were. */
  predicate Undone(s: Local, t: Local, a: Agent) { t == s.(pc := s.pc[a := Idle]) }

  lemma SharedUndone(s: Local, a: Agent) returns (t: Local)
    requires Reachable(s) && PcOf(s, a) == Idle && a.tid != 0 && SharedOpen(s, a)
    ensures Reachable(t) && Undone(s, t, a)
  {
    SharedOpens(s, a);
    hide Reachable;
    var lane := s.word.At(LaneOf(a));
    var s1 := Go(s, a, SLoaded(lane));
    Hop(s, s1, a);
    var s2 := Go(s1.(word := s.word.Put(LaneOf(a), OneMore(lane))), a, HoldS);
    Hop(s1, s2, a);
    var s3 := Go(s2, a, SUnlocking(OneMore(lane)));
    Hop(s2, s3, a);
    t := Go(s3.(word := s3.word.Put(LaneOf(a), OneLess(OneMore(lane)))), a, Idle);
    Hop(s3, t, a);
    assert t.word == s.word;
  }

  lemma UpgradableUndone(s: Local, a: Agent) returns (t: Local)
    requires Reachable(s) && PcOf(s, a) == Idle && a.tid != 0 && UpgradableOpen(s, a)
    ensures Reachable(t) && Undone(s.(ownerSX := 0), t, a)
  {
    UpgradableOpens(s, a);
    hide Reachable;
    var s1 := Go(s, a, SXLoaded(s.word.l0));
    Hop(s, s1, a);
    var s2 := Go(s1.(word := s.word.Put(0, s.word.l0.(flag := true))), a, SXTaken);
    Hop(s1, s2, a);
    var s3 := Go(s2.(ownerSX := a.tid), a, HoldSX);
    Hop(s2, s3, a);
    t := UpgradableReleased(s3, a);
    assert t.word == s.word;
  }

  lemma UpgradableReleased(s: Local, a: Agent) returns (t: Local)
    requires Reachable(s) && PcOf(s, a) == HoldSX && a.tid != 0 && s.ownerSX == a.tid && s.word.l0.flag
    ensures Reachable(t)
    ensures t == s.(ownerSX := 0, word := s.word.(l0 := s.word.l0.(flag := false)), pc := s.pc[a := Idle])
  {
    hide Reachable;
    var s1 := Go(s, a, SXOwned);
    Hop(s, s1, a);
    var s2 := Go(s1, a, SXFlagged);
    Hop(s1, s2, a);
    var s3 := Go(s2.(ownerSX := 0), a, SXUnlocking);
    Hop(s2, s3, a);
    t := Go(s3.(word := s3.word.Put(0, s3.word.l0.(flag := false))), a, Idle);
    Hop(s3, t, a);
  }

  lemma ExclusiveUndone(s: Local, a: Agent) returns (t: Local)
    requires Reachable(s) && PcOf(s, a) == Idle && a.tid != 0 && ExclusiveOpen(s, a)
    ensures Reachable(t) && Undone(s.(ownerX := 0), t, a)
  {
    ExclusiveOpens(s, a);
    hide Reachable;
    var s1 := Go(s, a, XLoaded);
    Hop(s, s1, a);
    var s2 := Go(s1.(word := X_WORD), a, XTaken);
    Hop(s1, s2, a);
    var s3 := Go(s2.(ownerX := a.tid), a, HoldX);
    Hop(s2, s3, a);
    var s4 := Go(s3, a, XOwned);
    Hop(s3, s4, a);
    var s5 := Go(s4.(ownerX := 0), a, XUnlocking);
    Hop(s4, s5, a);
    t := Go(s5.(word := IDLE_WORD), a, Idle);
    Hop(s5, t, a);
  }
}
