/**
Two runs without delayed release that end at rest with a shared unit missing
from the word. In both a node's global state is reset while a reader is behind
a unit; the next leader overwrites the reader's reference, and the undo of the
reader's unlock then brings back a reference without the unit.
*/
module UnitStranding {
  import opened LocalWord
  import opened TwoLevelLock
  import opened TwoLevelStray
  import opened UnitCensus

  /** unlock_s by a reader that is not the last. */
  lemma FollowerUnlocks(u: Usage, s: Sys, a: Agent, g: GlobalState, refs: int, word: int) returns (t: Sys)
    requires Reachable(u, s) && Calm(s, g, refs, word) && refs > 1 && a.node == 0 && PcOf(s, a) == Holding(S)
    requires s.nodes[0].word.At(LaneOf(a)).count > 0
    ensures Reachable(u, t) && Calm(t, g, refs - 1, word) && PcOf(t, a) == Idle
    ensures forall b :: b != a ==> PcOf(t, b) == PcOf(s, b)
    ensures t.nodes[0].word == Parted(s.nodes[0].word, a)
  {
    hide Reachable, EnterStep, ClaimStep, TokenStep, ContendStep, UnlockExclusiveStep, GiveBackStep, LeaveStep;
    var s1 := Go(PutNode(s, a, s.nodes[0].(refs := refs - 1)), a, Leave(S));
    assert UnlockSharedStep(u, s, s1, a);
    Hop(u, s, s1, a);
    t := ReaderLeaves(u, s1, a, g, refs - 1, word);
  }

  /** The final local unlock of an S call. */
  lemma ReaderLeaves(u: Usage, s: Sys, a: Agent, g: GlobalState, refs: int, word: int) returns (t: Sys)
    requires Reachable(u, s) && Calm(s, g, refs, word) && a.node == 0 && PcOf(s, a) == Leave(S)
    requires s.nodes[0].word.At(LaneOf(a)).count > 0
    ensures Reachable(u, t) && Calm(t, g, refs, word) && PcOf(t, a) == Idle
    ensures forall b :: b != a ==> PcOf(t, b) == PcOf(s, b)
    ensures t.nodes[0].word == Parted(s.nodes[0].word, a)
  {
    hide Reachable, EnterStep, ClaimStep, TokenStep, ContendStep, UnlockSharedStep, UnlockExclusiveStep, GiveBackStep;
    assert !s.nodes[0].word.At(LaneOf(a)).sentinel;
    t := Go(PutNode(s, a, s.nodes[0].(word := Parted(s.nodes[0].word, a))), a, Idle);
    assert LeaveStep(s, t, a);
    Hop(u, s, t, a);
  }

  /** A leader comes and goes over the reader's reference; the reader's unlock starts, and fails. */
  lemma Overwrite(u: Usage, s: Sys, word: int) returns (t: Sys)
    requires u.stray == AsWritten && Reachable(u, s) && Calm(s, GIdle, 1, word) && 2 < word < FREE && |s.nodes| == 2
    requires PcOf(s, STRAY) == Holding(S) && PcOf(s, THIRD) == Idle && LaneCount(s, 1) > 0 && LaneCount(s, 2) < 90
    ensures Reachable(u, t) && Calm(t, GIdle, -1, word) && |t.nodes| == 2 && PcOf(t, STRAY) == SUndo
    ensures forall b :: b != STRAY ==> PcOf(t, b) == PcOf(s, b)
    ensures forall i: nat :: i < LANES ==> LaneCount(t, i) == LaneCount(s, i)
  {
    hide Reachable;
    var s1 := LeaderLocks(u, s, THIRD, 1, word);
    var s2 := LastUnlocks(u, s1, THIRD, GHeld, word - 1);
    t := StrayDown(u, s2, STRAY, GIdle, word);
  }

  /** Another leader comes, the undo adds a reference, and reader and leader leave with one unit returned. */
  lemma Resurrect(u: Usage, s: Sys, word: int) returns (t: Sys)
    requires Reachable(u, s) && Calm(s, GIdle, -1, word) && 2 < word < FREE && |s.nodes| == 2
    requires PcOf(s, STRAY) == SUndo && PcOf(s, THIRD) == Idle && LaneCount(s, 1) > 0 && LaneCount(s, 2) < 90
    ensures Reachable(u, t) && Calm(t, GIdle, 0, word) && |t.nodes| == 2 && PcOf(t, STRAY) == Idle
    ensures forall b :: b != STRAY ==> PcOf(t, b) == PcOf(s, b)
    ensures forall i: nat :: i < LANES && i != 1 ==> LaneCount(t, i) == LaneCount(s, i)
    ensures LaneCount(t, 1) == LaneCount(s, 1) - 1
  {
    hide Reachable;
    var s1 := LeaderLocks(u, s, THIRD, -1, word);
    var s2 := StrayUp(u, s1, STRAY, GHeld, 1, word - 1);
    var s3 := FollowerUnlocks(u, s2, STRAY, GHeld, 2, word - 1);
    t := LastUnlocks(u, s3, THIRD, GHeld, word - 1);
  }

  lemma Strand(u: Usage, s: Sys, word: int) returns (t: Sys)
    requires u.stray == AsWritten && Reachable(u, s) && Calm(s, GIdle, 1, word) && 2 < word < FREE && |s.nodes| == 2
    requires PcOf(s, STRAY) == Holding(S) && PcOf(s, THIRD) == Idle && LaneCount(s, 1) > 0 && LaneCount(s, 2) < 90
    ensures Reachable(u, t) && Calm(t, GIdle, 0, word) && |t.nodes| == 2 && PcOf(t, STRAY) == Idle
    ensures forall b :: b != STRAY ==> PcOf(t, b) == PcOf(s, b)
    ensures forall i: nat :: i < LANES && i != 1 ==> LaneCount(t, i) == LaneCount(s, i)
    ensures LaneCount(t, 1) == LaneCount(s, 1) - 1
  {
    hide Reachable, Calm;
    var s1 := Overwrite(u, s, word);
    t := Resurrect(u, s1, word);
  }

  lemma CalmRests(s: Sys, g: GlobalState, refs: int, word: int)
    requires Calm(s, g, refs, word) && forall a :: PcOf(s, a) == Idle
    ensures AtRest(s) && s.word == word
  {
  }

  // ---- with SX ---------------------------------------------------------------------------------

  lemma UpgraderLeaves(u: Usage, s: Sys, g: GlobalState, refs: int, word: int) returns (t: Sys)
    requires Reachable(u, s) && Calm(s, g, refs, word) && PcOf(s, UPGRADER) == Leave(SX) && s.nodes[0].word.l0.flag
    ensures Reachable(u, t) && Calm(t, g, refs, word) && PcOf(t, UPGRADER) == Idle
    ensures forall b :: b != UPGRADER ==> PcOf(t, b) == PcOf(s, b)
    ensures forall i: nat :: i < LANES ==> LaneCount(t, i) == LaneCount(s, i)
  {
    hide Reachable, EnterStep, ClaimStep, TokenStep, ContendStep, UnlockSharedStep, UnlockExclusiveStep, GiveBackStep;
    var w := s.nodes[0].word;
    assert !w.At(0).sentinel && w.At(0).count < 100;
    t := Go(PutNode(s, UPGRADER, s.nodes[0].(word := w.Put(0, w.l0.(flag := false)))), UPGRADER, Idle);
    assert LeaveStep(s, t, UPGRADER);
    Hop(u, s, t, UPGRADER);
  }

  /** One reader, one SX call, two leaders: at rest the word is one short. */
  lemma UpgradeStrandsUnit(u: Usage) returns (t: Sys)
    requires u.stray == AsWritten && u.sx
    ensures Reachable(u, t) && AtRest(t) && t.word == FREE - 1
  {
    hide Reachable, AtRest;
    var s0 := Fresh(u);
    var s1 := LeaderLocks(u, s0, STRAY, 0, FREE);
    var s2 := ResetByUpgrader(u, s1, 1);
    var s3 := UpgraderLeaves(u, s2, GIdle, 1, FREE - 1);
    t := Strand(u, s3, FREE - 1);
    CalmRests(t, GIdle, 0, FREE - 1);
  }

  // ---- without SX: three failed leaders with their cleanup half done ------------------------------

  const LATE := Agent(0, 8, 0)       // the third failed leader

  /** Where everybody is, and the counts of node 0's lanes that follow from it. */
  ghost predicate Cast(s: Sys, stray: Pc, victim: Pc, second: Pc, early: Pc, late: Pc) {
    && |s.nodes| == 2
    && PcOf(s, STRAY) == stray && PcOf(s, VICTIM) == victim
    && PcOf(s, SECOND) == second && PcOf(s, EARLY) == early && PcOf(s, LATE) == late
    && (forall a :: a !in {STRAY, VICTIM, SECOND, EARLY, LATE} ==> PcOf(s, a) == Idle)
    && LaneCount(s, 0) == (if late.Idle? then 0 else 1)
    && LaneCount(s, 1) == (if stray.Idle? then 0 else 1) + (if second.Idle? then 0 else 1)
    && LaneCount(s, 2) == (if early.Idle? then 0 else 1)
    && LaneCount(s, 3) == (if victim.Idle? then 0 else 1)
  }

  lemma ThreeFailures(u: Usage) returns (t: Sys)
    requires u.leadersFail && !u.oneStepCleanup
    ensures Reachable(u, t) && Calm(t, GIdle, 0, FREE) && Cast(t, Idle, Idle, SFailRef, SFailRef, SFailRef)
  {
    hide Reachable;
    var s0 := Fresh(u);
    var s1 := FailedLeader(u, s0, SECOND);
    var s2 := FailedLeader(u, s1, EARLY);
    t := FailedLeader(u, s2, LATE);
  }

  /** Two readers share a unit; two stale stores let the first of them return it alone. */
  lemma ReaderWithoutUnit(u: Usage, s: Sys) returns (t: Sys)
    requires u.stray == AsWritten && Reachable(u, s)
    requires Calm(s, GIdle, 0, FREE) && Cast(s, Idle, Idle, SFailRef, SFailRef, SFailRef)
    ensures Reachable(u, t) && Calm(t, GIdle, 0, FREE) && Cast(t, Idle, Holding(S), Leave(S), Leave(S), SFailRef)
  {
    hide Reachable;
    var s1 := LeaderLocks(u, s, STRAY, 0, FREE);
    var s2 := FollowerLocks(u, s1, VICTIM, 1, FREE - 1);
    var s3 := StaleStore(u, s2, SECOND, GHeld, 2, FREE - 1);
    t := FirstReturns(u, s3);
  }

  lemma FirstReturns(u: Usage, s: Sys) returns (t: Sys)
    requires u.stray == AsWritten && Reachable(u, s)
    requires Calm(s, GHeld, 0, FREE - 1) && Cast(s, Holding(S), Holding(S), Leave(S), SFailRef, SFailRef)
    ensures Reachable(u, t) && Calm(t, GIdle, 0, FREE) && Cast(t, Idle, Holding(S), Leave(S), Leave(S), SFailRef)
  {
    hide Reachable;
    var s1 := StrayDown(u, s, STRAY, GHeld, FREE - 1);
    var s2 := StaleStore(u, s1, EARLY, GHeld, -1, FREE - 1);
    var s3 := StrayUp(u, s2, STRAY, GHeld, 0, FREE - 1);
    t := LastUnlocks(u, s3, STRAY, GHeld, FREE - 1);
  }

  /** The third stale store gives the other reader a reference again. */
  lemma ReferenceWithoutUnit(u: Usage, s: Sys) returns (t: Sys)
    requires u.stray == AsWritten && Reachable(u, s)
    requires Calm(s, GIdle, 0, FREE) && Cast(s, Idle, Holding(S), Leave(S), Leave(S), SFailRef)
    ensures Reachable(u, t) && Calm(t, GIdle, 1, FREE) && Cast(t, Idle, Holding(S), Leave(S), Leave(S), Leave(S))
  {
    hide Reachable;
    var s1 := StrayDown(u, s, VICTIM, GIdle, FREE);
    var s2 := StaleStore(u, s1, LATE, GIdle, -1, FREE);
    t := StrayUp(u, s2, VICTIM, GIdle, 0, FREE);
  }

  lemma WriterClears(u: Usage, s: Sys, a: Agent) returns (t: Sys)
    requires Reachable(u, s) && a.node < |s.nodes| && PcOf(s, a) == Holding(X) && s.ownerX == Me(a)
    requires s.nodes[a.node].token == NoToken
    ensures Reachable(u, t) && t == s.(pc := t.pc) && PcOf(t, a) == PutOwner(X)
    ensures forall b :: b != a ==> PcOf(t, b) == PcOf(s, b)
  {
    hide Reachable, EnterStep, ClaimStep, TokenStep, ContendStep, UnlockSharedStep, LeaveStep;
    var s1 := Go(s, a, ClearToken(X));
    assert UnlockExclusiveStep(u, s, s1, a);
    Hop(u, s, s1, a);
    t := Go(PutNode(s1, a, s.nodes[a.node]), a, PutOwner(X));
    assert GiveBackStep(s1, t, a);
    Hop(u, s1, t, a);
  }

  lemma WriterReturns(u: Usage, s: Sys, a: Agent) returns (t: Sys)
    requires Reachable(u, s) && a.node < |s.nodes| && PcOf(s, a) == PutOwner(X)
    ensures Reachable(u, t) && t == s.(ownerX := Nobody, word := FREE, pc := t.pc) && PcOf(t, a) == After(X)
    ensures forall b :: b != a ==> PcOf(t, b) == PcOf(s, b)
  {
    hide Reachable, EnterStep, ClaimStep, TokenStep, ContendStep, UnlockSharedStep, UnlockExclusiveStep, LeaveStep;
    var s1 := Go(s.(ownerX := Nobody), a, PutWord(X));
    assert GiveBackStep(s, s1, a);
    Hop(u, s, s1, a);
    t := Go(s1.(word := FREE), a, After(X));
    assert GiveBackStep(s1, t, a);
    Hop(u, s1, t, a);
  }

  lemma WriterLeaves(u: Usage, s: Sys, a: Agent) returns (t: Sys)
    requires Reachable(u, s) && a.node < |s.nodes| && PcOf(s, a) == After(X)
    ensures Reachable(u, t) && t.ownerX == s.ownerX
    ensures Only(s, t, a, Idle, s.word, s.nodes[a.node].(gstate := GIdle, word := IDLE_WORD))
  {
    hide Reachable, EnterStep, ClaimStep, TokenStep, ContendStep, UnlockSharedStep, UnlockExclusiveStep;
    var nd := s.nodes[a.node].(gstate := GIdle);
    var s1 := Go(PutNode(s, a, nd), a, Leave(X));
    assert GiveBackStep(s, s1, a);
    Hop(u, s, s1, a);
    t := Go(PutNode(s1, a, nd.(word := IDLE_WORD)), a, Idle);
    assert LeaveStep(s1, t, a);
    Hop(u, s1, t, a);
  }

  /** The reader gives back a unit it does not have while a writer holds the word, and the writer's store hides it. */
  lemma ReturnUnderWriter(u: Usage, s: Sys) returns (t: Sys)
    requires Reachable(u, s) && Calm(s, GIdle, 1, FREE) && Cast(s, Idle, Holding(S), Leave(S), Leave(S), Leave(S))
    ensures Reachable(u, t) && Calm(t, GIdle, 0, FREE) && Cast(t, Idle, After(S), Leave(S), Leave(S), Leave(S))
  {
    hide Reachable;
    var s1 := LastOut(u, s, VICTIM);
    var s2 := LockExclusive(u, s1, WRITER);
    var s3 := PutShared(u, s2, VICTIM);
    t := WriterUnlocks(u, s3);
  }

  lemma WriterUnlocks(u: Usage, s: Sys) returns (t: Sys)
    requires Reachable(u, s) && |s.nodes| == 2 && PcOf(s, WRITER) == Holding(X) && s.ownerX == Me(WRITER)
    requires s.nodes[1].token == NoToken
    ensures Reachable(u, t) && t.ownerX == Nobody
    ensures Only(s, t, WRITER, Idle, FREE, s.nodes[1].(gstate := GIdle, word := IDLE_WORD))
  {
    hide Reachable;
    var s1 := WriterClears(u, s, WRITER);
    var s2 := WriterReturns(u, s1, WRITER);
    t := WriterLeaves(u, s2, WRITER);
  }

  /** Its last store then resets the state of the next leader's unit. */
  lemma LateReset(u: Usage, s: Sys) returns (t: Sys)
    requires Reachable(u, s) && Calm(s, GIdle, 0, FREE) && Cast(s, Idle, After(S), Leave(S), Leave(S), Leave(S))
    ensures Reachable(u, t) && Calm(t, GIdle, 1, FREE - 1) && Cast(t, Holding(S), Idle, Leave(S), Leave(S), Leave(S))
  {
    hide Reachable;
    var s1 := LeaderLocks(u, s, STRAY, 0, FREE);
    t := GoIdle(u, s1, VICTIM);
  }

  lemma FailuresLeave(u: Usage, s: Sys) returns (t: Sys)
    requires Reachable(u, s) && Calm(s, GIdle, 0, FREE - 1) && Cast(s, Idle, Idle, Leave(S), Leave(S), Leave(S))
    ensures Reachable(u, t) && Calm(t, GIdle, 0, FREE - 1) && Cast(t, Idle, Idle, Idle, Idle, Idle)
  {
    hide Reachable;
    var s1 := ReaderLeaves(u, s, SECOND, GIdle, 0, FREE - 1);
    var s2 := ReaderLeaves(u, s1, EARLY, GIdle, 0, FREE - 1);
    t := ReaderLeaves(u, s2, LATE, GIdle, 0, FREE - 1);
  }

  /** Two readers, a writer, three failed leaders and three leaders: at rest the word is one short. */
  lemma StaleStoresStrandUnit(u: Usage) returns (t: Sys)
    requires u.stray == AsWritten && u.leadersFail && !u.oneStepCleanup
    ensures Reachable(u, t) && AtRest(t) && t.word == FREE - 1
  {
    hide Reachable, AtRest, Calm;
    var s1 := ThreeFailures(u);
    var s2 := ReaderWithoutUnit(u, s1);
    var s3 := ReferenceWithoutUnit(u, s2);
    var s4 := ReturnUnderWriter(u, s3);
    var s5 := LateReset(u, s4);
    var s6 := Strand(u, s5, FREE - 1);
    var s7 := FailuresLeave(u, s6);
    t := s7;
    CalmRests(t, GIdle, 0, FREE - 1);
  }
}
