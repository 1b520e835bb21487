/**
The undo of an S unlock that found no reference to give up is not harmless.

unlock_s decrements the reference count, and when the old value was not
positive it increments it back in a second step. If in between a new leader
sets the count to one and leaves again, the increment conjures up a reference
with no unit of its own. The run below is a run of the code as written that
ends with an S hold and an X hold together; with that branch avoided, or taken
in one step, exclusion holds in every run.
*/
module TwoLevelStray {
  import opened LocalWord
  import opened TwoLevelLock

  ghost predicate Reachable(u: Usage, s: Sys) {
    exists run :: IsRun(u, run) && run[|run| - 1] == s
  }

  lemma Hop(u: Usage, s: Sys, t: Sys, a: Agent)
    requires Reachable(u, s) && AgentStep(u, s, t, a)
    ensures Reachable(u, t)
  {
    var run :| IsRun(u, run) && run[|run| - 1] == s;
    var longer := run + [t];
    forall i | 0 < i < |longer| ensures Next(u, longer[i - 1], longer[i]) {
      if i < |run| {
        assert Next(u, run[i - 1], run[i]);
      }
    }
    assert longer[|longer| - 1] == t;
  }

  /** t differs from s only in the place of a, the shared word, the X and SX owner words and the node of a. */
  ghost predicate Only(s: Sys, t: Sys, a: Agent, p: Pc, word: int, nd: Node) {
    && t.word == word && t.reserve == s.reserve
    && a.node < |s.nodes|
    && t.nodes == s.nodes[a.node := nd]
    && PcOf(t, a) == p
    && (forall b :: b != a ==> PcOf(t, b) == PcOf(s, b))
  }

  lemma OnlyOne(s: Sys, t: Sys, a: Agent, p: Pc, word: int, nd: Node)
    requires a.node < |s.nodes| && t == Go(PutNode(s.(word := word), a, nd), a, p)
    ensures Only(s, t, a, p, word, nd)
  {
  }

  /** The same when the node does not change. */
  lemma OnlySame(s: Sys, t: Sys, a: Agent, p: Pc, word: int)
    requires a.node < |s.nodes| && t == Go(s.(word := word), a, p)
    ensures Only(s, t, a, p, word, s.nodes[a.node])
  {
  }

  lemma OnlyTwo(s: Sys, m: Sys, t: Sys, a: Agent, p: Pc, word: int, nd: Node)
    requires Only(s, m, a, PcOf(m, a), m.word, if a.node < |m.nodes| then m.nodes[a.node] else nd) &&
      Only(m, t, a, p, word, nd)
    ensures Only(s, t, a, p, word, nd)
  {
  }

  function Joined(w: Word, a: Agent): Word
    requires w.At(LaneOf(a)).count < MAX_COUNT
  {
    w.Put(LaneOf(a), OneMore(w.At(LaneOf(a))))
  }

  function Parted(w: Word, a: Agent): Word
    requires w.At(LaneOf(a)).count > 0
  {
    w.Put(LaneOf(a), OneLess(w.At(LaneOf(a))))
  }

  lemma EnterShared(u: Usage, s: Sys, a: Agent) returns (t: Sys)
    requires Reachable(u, s) && a.node < |s.nodes| && PcOf(s, a) == Idle
    requires var w := s.nodes[a.node].word; !w.At(LaneOf(a)).sentinel && w.At(LaneOf(a)).count < MAX_COUNT
    ensures Reachable(u, t) && t.ownerX == s.ownerX && t.ownerSX == s.ownerSX
    ensures Only(s, t, a, SEnter, s.word, s.nodes[a.node].(word := Joined(s.nodes[a.node].word, a)))
  {
    hide Reachable, ClaimStep, TokenStep, ContendStep, UnlockSharedStep, UnlockExclusiveStep, GiveBackStep, LeaveStep;
    t := Go(PutNode(s, a, s.nodes[a.node].(word := Joined(s.nodes[a.node].word, a))), a, SEnter);
    assert EnterStep(u, s, t, a);
    Hop(u, s, t, a);
  }

  /** A thread that becomes leader, up to the contest for the shared word. */
  lemma ClaimLead(u: Usage, s: Sys, a: Agent) returns (t: Sys)
    requires Reachable(u, s) && a.node < |s.nodes| && PcOf(s, a) == SEnter
    requires s.nodes[a.node].gstate == GIdle && s.nodes[a.node].token == NoToken
    ensures Reachable(u, t) && t.ownerX == s.ownerX && t.ownerSX == s.ownerSX
    ensures Only(s, t, a, Contend(S), s.word, s.nodes[a.node].(gstate := GPending))
  {
    hide Reachable, EnterStep, ContendStep, UnlockSharedStep, UnlockExclusiveStep, GiveBackStep, LeaveStep, Only;
    var led := s.nodes[a.node].(gstate := GPending);
    var s1 := Go(PutNode(s, a, led), a, TakeToken(S));
    assert ClaimStep(s, s1, a);
    Hop(u, s, s1, a);
    OnlyOne(s, s1, a, TakeToken(S), s.word, led);
    t := Go(PutNode(s1, a, led), a, Contend(S));
    assert TokenStep(s1, t, a);
    Hop(u, s1, t, a);
    OnlyOne(s1, t, a, Contend(S), s.word, led);
    OnlyTwo(s, s1, t, a, Contend(S), s.word, led);
  }

  /** The rest of lock_s for a thread that becomes leader and finds the lock open to readers. */
  lemma Lead(u: Usage, s: Sys, a: Agent) returns (t: Sys)
    requires Reachable(u, s) && a.node < |s.nodes| && PcOf(s, a) == SEnter
    requires s.nodes[a.node].gstate == GIdle && s.nodes[a.node].token == NoToken && s.word > 0
    ensures Reachable(u, t) && t.ownerX == s.ownerX && t.ownerSX == s.ownerSX
    ensures Only(s, t, a, Got(S), s.word - 1, s.nodes[a.node].(gstate := GPending))
  {
    hide Reachable, EnterStep, ClaimStep, TokenStep, UnlockSharedStep, UnlockExclusiveStep, GiveBackStep, LeaveStep;
    var s1 := ClaimLead(u, s, a);
    t := Go(s1.(word := s1.word - 1), a, Got(S));
    assert ContendStep(u, s1, t, a);
    Hop(u, s1, t, a);
  }

  lemma Publish(u: Usage, s: Sys, a: Agent) returns (t: Sys)
    requires Reachable(u, s) && a.node < |s.nodes| && PcOf(s, a) == Got(S)
    ensures Reachable(u, t) && t.ownerX == s.ownerX && t.ownerSX == s.ownerSX
    ensures Only(s, t, a, Holding(S), s.word, s.nodes[a.node].(gstate := GHeld, refs := 1))
  {
    hide Reachable, EnterStep, ClaimStep, TokenStep, UnlockSharedStep, UnlockExclusiveStep, GiveBackStep, LeaveStep,
      Only;
    var s1 := Go(PutNode(s, a, s.nodes[a.node].(refs := 1)), a, SPublish);
    assert ContendStep(u, s, s1, a);
    Hop(u, s, s1, a);
    OnlyOne(s, s1, a, SPublish, s.word, s.nodes[a.node].(refs := 1));
    t := Go(PutNode(s1, a, s1.nodes[a.node].(gstate := GHeld)), a, Holding(S));
    assert ContendStep(u, s1, t, a);
    Hop(u, s1, t, a);
    OnlyOne(s1, t, a, Holding(S), s.word, s1.nodes[a.node].(gstate := GHeld));
    OnlyTwo(s, s1, t, a, Holding(S), s.word, s1.nodes[a.node].(gstate := GHeld));
  }

  /** The rest of lock_s for a thread that joins the node's global S. */
  lemma Follow(u: Usage, s: Sys, a: Agent) returns (t: Sys)
    requires Reachable(u, s) && a.node < |s.nodes| && PcOf(s, a) == SEnter
    requires s.nodes[a.node].gstate == GHeld && 0 < s.nodes[a.node].refs < INT32_MAX
    ensures Reachable(u, t) && t.ownerX == s.ownerX && t.ownerSX == s.ownerSX
    ensures Only(s, t, a, Holding(S), s.word, s.nodes[a.node].(refs := s.nodes[a.node].refs + 1))
  {
    hide Reachable, EnterStep, TokenStep, ContendStep, UnlockSharedStep, UnlockExclusiveStep, GiveBackStep, LeaveStep,
      Only;
    var ref := s.nodes[a.node].refs;
    var s1 := Go(s, a, SSaw);
    assert ClaimStep(s, s1, a);
    Hop(u, s, s1, a);
    var s2 := Go(s1, a, SRef(ref));
    assert ClaimStep(s1, s2, a);
    Hop(u, s1, s2, a);
    OnlySame(s, s1, a, SSaw, s.word);
    OnlySame(s1, s2, a, SRef(ref), s.word);
    OnlyTwo(s, s1, s2, a, SRef(ref), s.word, s.nodes[a.node]);
    t := FollowEnds(u, s2, a);
    OnlyTwo(s, s2, t, a, Holding(S), s.word, s.nodes[a.node].(refs := ref + 1));
  }

  lemma FollowEnds(u: Usage, s: Sys, a: Agent) returns (t: Sys)
    requires Reachable(u, s) && a.node < |s.nodes| && PcOf(s, a) == SRef(s.nodes[a.node].refs)
    requires s.nodes[a.node].gstate == GHeld && 0 < s.nodes[a.node].refs < INT32_MAX
    ensures Reachable(u, t) && t.ownerX == s.ownerX && t.ownerSX == s.ownerSX
    ensures Only(s, t, a, Holding(S), s.word, s.nodes[a.node].(refs := s.nodes[a.node].refs + 1))
  {
    hide Reachable, EnterStep, TokenStep, ContendStep, UnlockSharedStep, UnlockExclusiveStep, GiveBackStep, LeaveStep,
      Only;
    var ref := s.nodes[a.node].refs;
    var s1 := Go(s, a, SCas(ref));
    assert ClaimStep(s, s1, a);
    Hop(u, s, s1, a);
    OnlySame(s, s1, a, SCas(ref), s.word);
    t := Go(PutNode(s1, a, s1.nodes[a.node].(refs := ref + 1)), a, Holding(S));
    assert ClaimStep(s1, t, a);
    Hop(u, s1, t, a);
    OnlyOne(s1, t, a, Holding(S), s.word, s.nodes[a.node].(refs := ref + 1));
    OnlyTwo(s, s1, t, a, Holding(S), s.word, s.nodes[a.node].(refs := ref + 1));
  }

  /** unlock_s by a thread that finds the count at one and does not delay. */
  lemma LastOut(u: Usage, s: Sys, a: Agent) returns (t: Sys)
    requires Reachable(u, s) && a.node < |s.nodes| && PcOf(s, a) == Holding(S)
    requires var nd := s.nodes[a.node];
             nd.refs == 1 && !nd.word.At(LaneOf(a)).sentinel && nd.word.At(LaneOf(a)).count > 0
    ensures Reachable(u, t) && t.ownerX == s.ownerX && t.ownerSX == s.ownerSX
    ensures Only(s, t, a, ClearToken(S), s.word, s.nodes[a.node].(refs := 0))
  {
    hide Reachable, EnterStep, ClaimStep, TokenStep, ContendStep, UnlockExclusiveStep, GiveBackStep, LeaveStep, Only;
    var s1 := Go(PutNode(s, a, s.nodes[a.node].(refs := 0)), a, Release);
    assert UnlockSharedStep(u, s, s1, a);
    Hop(u, s, s1, a);
    OnlyOne(s, s1, a, Release, s.word, s.nodes[a.node].(refs := 0));
    t := Go(s1, a, ClearToken(S));
    assert UnlockSharedStep(u, s1, t, a);
    Hop(u, s1, t, a);
    OnlySame(s1, t, a, ClearToken(S), s.word);
    OnlyTwo(s, s1, t, a, ClearToken(S), s.word, s.nodes[a.node].(refs := 0));
  }

  lemma PutShared(u: Usage, s: Sys, a: Agent) returns (t: Sys)
    requires Reachable(u, s) && a.node < |s.nodes| && PcOf(s, a) == ClearToken(S)
    requires s.nodes[a.node].token == NoToken && s.word < FREE
    ensures Reachable(u, t) && t.ownerX == s.ownerX && t.ownerSX == s.ownerSX
    ensures Only(s, t, a, After(S), s.word + 1, s.nodes[a.node])
  {
    hide Reachable, EnterStep, ClaimStep, TokenStep, ContendStep, UnlockSharedStep, UnlockExclusiveStep, LeaveStep,
      Only;
    var s1 := Go(PutNode(s, a, s.nodes[a.node].(token := NoToken)), a, PutWord(S));
    assert GiveBackStep(s, s1, a);
    Hop(u, s, s1, a);
    OnlyOne(s, s1, a, PutWord(S), s.word, s.nodes[a.node].(token := NoToken));
    t := Go(s1.(word := s1.word + 1), a, After(S));
    assert GiveBackStep(s1, t, a);
    Hop(u, s1, t, a);
    OnlySame(s1, t, a, After(S), s.word + 1);
    OnlyTwo(s, s1, t, a, After(S), s.word + 1, s.nodes[a.node]);
  }

  lemma GoIdle(u: Usage, s: Sys, a: Agent) returns (t: Sys)
    requires Reachable(u, s) && a.node < |s.nodes| && PcOf(s, a) == After(S)
    requires var w := s.nodes[a.node].word; !w.At(LaneOf(a)).sentinel && w.At(LaneOf(a)).count > 0
    ensures Reachable(u, t) && t.ownerX == s.ownerX && t.ownerSX == s.ownerSX
    ensures var nd := s.nodes[a.node];
            Only(s, t, a, Idle, s.word,
                 nd.(word := Parted(nd.word, a), gstate := if nd.gstate == GHeld then GIdle else nd.gstate))
  {
    hide Reachable, EnterStep, ClaimStep, TokenStep, ContendStep, UnlockSharedStep, UnlockExclusiveStep, Only;
    var nd := s.nodes[a.node];
    var s1 := Go(PutNode(s, a, if nd.gstate != GHeld then nd else nd.(gstate := GIdle)), a, Leave(S));
    assert GiveBackStep(s, s1, a);
    Hop(u, s, s1, a);
    OnlyOne(s, s1, a, Leave(S), s.word, if nd.gstate != GHeld then nd else nd.(gstate := GIdle));
    t := Go(PutNode(s1, a, s1.nodes[a.node].(word := Parted(nd.word, a))), a, Idle);
    assert LeaveStep(s1, t, a);
    Hop(u, s1, t, a);
    OnlyOne(s1, t, a, Idle, s.word, s1.nodes[a.node].(word := Parted(nd.word, a)));
    OnlyTwo(s, s1, t, a, Idle, s.word, s1.nodes[a.node].(word := Parted(nd.word, a)));
  }

  /** lock_x or lock_sx with nothing parked, up to the contest for the shared word. */
  lemma ReachContend(u: Usage, s: Sys, a: Agent, m: Mode) returns (t: Sys)
    requires Reachable(u, s) && a.node < |s.nodes| && PcOf(s, a) == TakeToken(m) && m != S
    requires s.nodes[a.node].token == NoToken && OwnerOf(s, m) != Me(a)
    ensures Reachable(u, t) && t.ownerX == s.ownerX && t.ownerSX == s.ownerSX
    ensures Only(s, t, a, Contend(m), s.word, s.nodes[a.node])
  {
    hide Reachable, EnterStep, ClaimStep, UnlockSharedStep, UnlockExclusiveStep, GiveBackStep, LeaveStep, Only;
    var s1 := Go(PutNode(s, a, s.nodes[a.node].(token := NoToken)), a, CheckOwner(m));
    assert TokenStep(s, s1, a);
    Hop(u, s, s1, a);
    OnlyOne(s, s1, a, CheckOwner(m), s.word, s.nodes[a.node].(token := NoToken));
    t := Go(s1, a, Contend(m));
    assert ContendStep(u, s1, t, a);
    Hop(u, s1, t, a);
    OnlySame(s1, t, a, Contend(m), s.word);
    OnlyTwo(s, s1, t, a, Contend(m), s.word, s.nodes[a.node]);
  }

  lemma Win(u: Usage, s: Sys, a: Agent, m: Mode) returns (t: Sys)
    requires Reachable(u, s) && a.node < |s.nodes| && PcOf(s, a) == Contend(m) && m != S
    requires CanTake(s.word, m)
    ensures Reachable(u, t) && OwnerOf(t, m) == Me(a) && (m != X ==> t.ownerX == s.ownerX)
    ensures Only(s, t, a, Holding(m), TakeUnit(s.word, m), s.nodes[a.node])
  {
    hide Reachable, EnterStep, ClaimStep, TokenStep, UnlockSharedStep, UnlockExclusiveStep, GiveBackStep, LeaveStep;
    var s1 := Go(s.(word := TakeUnit(s.word, m)), a, Got(m));
    assert ContendStep(u, s, s1, a);
    Hop(u, s, s1, a);
    t := Go(SetOwner(s1, m, Me(a)), a, Holding(m));
    assert ContendStep(u, s1, t, a);
    Hop(u, s1, t, a);
  }

  lemma LockUpgradable(u: Usage, s: Sys, a: Agent) returns (t: Sys)
    requires Reachable(u, s) && u.sx && a.node < |s.nodes| && PcOf(s, a) == Idle
    requires var nd := s.nodes[a.node]; nd.token == NoToken && !nd.word.l0.sentinel && !nd.word.l0.flag
    requires s.word > HALF && s.ownerSX != Me(a)
    ensures Reachable(u, t) && t.ownerX == s.ownerX && t.ownerSX == Me(a)
    ensures var nd := s.nodes[a.node];
            Only(s, t, a, Holding(SX), s.word - HALF, nd.(word := nd.word.Put(0, nd.word.l0.(flag := true))))
  {
    hide Reachable, ClaimStep, TokenStep, ContendStep, UnlockSharedStep, UnlockExclusiveStep, GiveBackStep, LeaveStep;
    var nd := s.nodes[a.node];
    var s1 := Go(PutNode(s, a, nd.(word := nd.word.Put(0, nd.word.l0.(flag := true)))), a, TakeToken(SX));
    assert EnterStep(u, s, s1, a);
    Hop(u, s, s1, a);
    var s2 := ReachContend(u, s1, a, SX);
    t := Win(u, s2, a, SX);
  }

  lemma LockExclusive(u: Usage, s: Sys, a: Agent) returns (t: Sys)
    requires Reachable(u, s) && a.node < |s.nodes| && PcOf(s, a) == Idle
    requires s.nodes[a.node].word == IDLE_WORD && s.nodes[a.node].token == NoToken
    requires s.word == FREE && s.ownerX != Me(a)
    ensures Reachable(u, t) && t.ownerX == Me(a)
    ensures Only(s, t, a, Holding(X), 0, s.nodes[a.node].(word := X_WORD))
  {
    hide Reachable, ClaimStep, TokenStep, ContendStep, UnlockSharedStep, UnlockExclusiveStep, GiveBackStep, LeaveStep;
    var s1 := Go(PutNode(s, a, s.nodes[a.node].(word := X_WORD)), a, TakeToken(X));
    assert EnterStep(u, s, s1, a);
    Hop(u, s, s1, a);
    var s2 := ReachContend(u, s1, a, X);
    t := Win(u, s2, a, X);
  }

  lemma OnlyOwner(s: Sys, t: Sys, a: Agent, p: Pc, m: Mode, o: Owner)
    requires a.node < |s.nodes| && t == Go(SetOwner(s, m, o), a, p)
    ensures Only(s, t, a, p, s.word, s.nodes[a.node]) && (m != X ==> t.ownerX == s.ownerX)
  {
  }

  /** unlock_sx without delay, up to giving the unit back. */
  lemma DropUpgradableUnit(u: Usage, s: Sys, a: Agent) returns (t: Sys)
    requires Reachable(u, s) && a.node < |s.nodes| && PcOf(s, a) == Holding(SX)
    requires s.ownerSX == Me(a) && s.nodes[a.node].token == NoToken
    ensures Reachable(u, t) && t.ownerX == s.ownerX
    ensures Only(s, t, a, PutWord(SX), s.word, s.nodes[a.node])
  {
    hide Reachable, EnterStep, ClaimStep, TokenStep, ContendStep, UnlockSharedStep, LeaveStep, Only;
    var nd := s.nodes[a.node];
    var s1 := Go(s, a, ClearToken(SX));
    assert UnlockExclusiveStep(u, s, s1, a);
    Hop(u, s, s1, a);
    OnlySame(s, s1, a, ClearToken(SX), s.word);
    var s2 := Go(PutNode(s1, a, nd), a, PutOwner(SX));
    assert GiveBackStep(s1, s2, a);
    Hop(u, s1, s2, a);
    OnlyOne(s1, s2, a, PutOwner(SX), s.word, nd);
    OnlyTwo(s, s1, s2, a, PutOwner(SX), s.word, nd);
    t := DropOwnerWord(u, s2, a);
    OnlyTwo(s, s2, t, a, PutWord(SX), s.word, nd);
  }

  lemma DropOwnerWord(u: Usage, s: Sys, a: Agent) returns (t: Sys)
    requires Reachable(u, s) && a.node < |s.nodes| && PcOf(s, a) == PutOwner(SX)
    ensures Reachable(u, t) && t.ownerX == s.ownerX
    ensures Only(s, t, a, PutWord(SX), s.word, s.nodes[a.node])
  {
    hide Reachable, EnterStep, ClaimStep, TokenStep, ContendStep, UnlockSharedStep, UnlockExclusiveStep, LeaveStep,
      Only;
    t := Go(SetOwner(s, SX, Nobody), a, PutWord(SX));
    assert GiveBackStep(s, t, a);
    Hop(u, s, t, a);
    OnlyOwner(s, t, a, PutWord(SX), SX, Nobody);
  }

  /** The end of unlock_sx: it stores GLOBAL_IDLE whatever the node's readers do. */
  lemma ResetGlobal(u: Usage, s: Sys, a: Agent) returns (t: Sys)
    requires Reachable(u, s) && a.node < |s.nodes| && PcOf(s, a) == PutWord(SX)
    ensures Reachable(u, t) && t.ownerX == s.ownerX
    ensures Only(s, t, a, Leave(SX), s.word + HALF, s.nodes[a.node].(gstate := GIdle))
  {
    hide Reachable, EnterStep, ClaimStep, TokenStep, ContendStep, UnlockSharedStep, UnlockExclusiveStep, LeaveStep,
      Only;
    var s1 := Go(s.(word := s.word + HALF), a, After(SX));
    assert GiveBackStep(s, s1, a);
    Hop(u, s, s1, a);
    OnlySame(s, s1, a, After(SX), s.word + HALF);
    t := Go(PutNode(s1, a, s1.nodes[a.node].(gstate := GIdle)), a, Leave(SX));
    assert GiveBackStep(s1, t, a);
    Hop(u, s1, t, a);
    OnlyOne(s1, t, a, Leave(SX), s.word + HALF, s.nodes[a.node].(gstate := GIdle));
    OnlyTwo(s, s1, t, a, Leave(SX), s.word + HALF, s.nodes[a.node].(gstate := GIdle));
  }

  // ---- the run ---------------------------------------------------------------------------

  const STRAY := Agent(0, 1, 0)      // its unlock takes the undo branch
  const EARLY := Agent(0, 2, 0)      // unlocks once more than the units allow
  const VICTIM := Agent(0, 3, 0)     // still holds S at the end
  const UPGRADER := Agent(0, 4, 0)   // its unlock_sx resets the global state
  const SECOND := Agent(0, 5, 0)     // leads after the reset
  const THIRD := Agent(0, 6, 0)      // leads while the undo is pending
  const WRITER := Agent(1, 1, 0)     // takes X on another node

  /** Node 0 as the run needs it: nothing parked, no sentinel, room in every lane. */
  predicate Calm(s: Sys, gstate: GlobalState, refs: int, word: int) {
    && |s.nodes| == 2
    && s.nodes[1] == Node(IDLE_WORD, NoToken, false, GIdle, 0)
    && s.nodes[0].token == NoToken && s.nodes[0].gstate == gstate && s.nodes[0].refs == refs
    && s.word == word && s.ownerX == Nobody
    && (forall i: nat :: i < LANES ==> !s.nodes[0].word.At(i).sentinel && s.nodes[0].word.At(i).count < 100)
  }

  lemma LeaderLocks(u: Usage, s: Sys, a: Agent, refs: int, word: int) returns (t: Sys)
    requires Reachable(u, s) && Calm(s, GIdle, refs, word) && a.node == 0 && PcOf(s, a) == Idle && word > 0
    requires s.nodes[0].word.At(LaneOf(a)).count < 99
    ensures Reachable(u, t) && Calm(t, GHeld, 1, word - 1) && PcOf(t, a) == Holding(S)
    ensures forall b :: b != a ==> PcOf(t, b) == PcOf(s, b)
    ensures t.nodes[0].word == Joined(s.nodes[0].word, a) && t.ownerSX == s.ownerSX && t.reserve == s.reserve
  {
    hide Reachable;
    var s1 := EnterShared(u, s, a);
    var s2 := Lead(u, s1, a);
    t := Publish(u, s2, a);
  }

  lemma FollowerLocks(u: Usage, s: Sys, a: Agent, refs: int, word: int) returns (t: Sys)
    requires Reachable(u, s) && Calm(s, GHeld, refs, word) && a.node == 0 && PcOf(s, a) == Idle && 0 < refs < 100
    requires s.nodes[0].word.At(LaneOf(a)).count < 99
    ensures Reachable(u, t) && Calm(t, GHeld, refs + 1, word) && PcOf(t, a) == Holding(S)
    ensures forall b :: b != a ==> PcOf(t, b) == PcOf(s, b)
    ensures t.nodes[0].word == Joined(s.nodes[0].word, a) && t.ownerSX == s.ownerSX
  {
    hide Reachable;
    var s1 := EnterShared(u, s, a);
    t := Follow(u, s1, a);
  }

  lemma LastUnlocks(u: Usage, s: Sys, a: Agent, g: GlobalState, word: int) returns (t: Sys)
    requires Reachable(u, s) && Calm(s, g, 1, word) && a.node == 0 && PcOf(s, a) == Holding(S) && word < FREE
    requires s.nodes[0].word.At(LaneOf(a)).count > 0
    ensures Reachable(u, t) && Calm(t, if g == GHeld then GIdle else g, 0, word + 1) && PcOf(t, a) == Idle
    ensures forall b :: b != a ==> PcOf(t, b) == PcOf(s, b)
    ensures t.nodes[0].word == Parted(s.nodes[0].word, a)
  {
    hide Reachable;
    var s1 := LastOut(u, s, a);
    var s2 := PutShared(u, s1, a);
    t := GoIdle(u, s2, a);
  }

  /** Three readers share one unit; an SX unlock on their node then resets the global state. */
  lemma ReadersThenReset(u: Usage) returns (t: Sys)
    requires u.sx
    ensures Reachable(u, t) && Calm(t, GIdle, 3, FREE - 1)
    ensures PcOf(t, STRAY) == Holding(S) && PcOf(t, EARLY) == Holding(S) && PcOf(t, VICTIM) == Holding(S)
    ensures PcOf(t, SECOND) == Idle && PcOf(t, THIRD) == Idle && PcOf(t, WRITER) == Idle
    ensures |t.nodes| == 2 && LaneCount(t, 1) == 1 && LaneCount(t, 2) == 1
  {
    hide Reachable, Calm;
    var s0 := Fresh(u);
    var s1 := ThreeReaders(u, s0);
    t := ResetByUpgrader(u, s1, 3);
  }

  /** Counts of node 0's lanes, as the runs below need to follow them. */
  function LaneCount(s: Sys, i: nat): nat
    requires |s.nodes| > 0 && i < LANES
  {
    s.nodes[0].word.At(i).count
  }

  lemma Fresh(u: Usage) returns (s: Sys)
    ensures Reachable(u, s) && Calm(s, GIdle, 0, FREE) && (forall a :: PcOf(s, a) == Idle)
    ensures |s.nodes| == 2 && s.nodes[0].word == IDLE_WORD && s.ownerSX == Nobody
    ensures s.reserve == Nobody && !s.nodes[0].releasing
  {
    var nd := Node(IDLE_WORD, NoToken, false, GIdle, 0);
    s := Sys(FREE, Nobody, Nobody, Nobody, [nd, nd], map[]);
    assert IsRun(u, [s]);
  }

  /** STRAY leads, EARLY and VICTIM follow. */
  lemma ThreeReaders(u: Usage, s: Sys) returns (t: Sys)
    requires Reachable(u, s) && Calm(s, GIdle, 0, FREE) && |s.nodes| == 2
    requires PcOf(s, STRAY) == Idle && PcOf(s, EARLY) == Idle && PcOf(s, VICTIM) == Idle
    requires LaneCount(s, 1) < 9 && LaneCount(s, 2) < 9 && LaneCount(s, 3) < 9
    ensures Reachable(u, t) && Calm(t, GHeld, 3, FREE - 1) && |t.nodes| == 2
    ensures PcOf(t, STRAY) == Holding(S) && PcOf(t, EARLY) == Holding(S) && PcOf(t, VICTIM) == Holding(S)
    ensures forall b :: b != STRAY && b != EARLY && b != VICTIM ==> PcOf(t, b) == PcOf(s, b)
    ensures LaneCount(t, 1) == LaneCount(s, 1) + 1 && LaneCount(t, 2) == LaneCount(s, 2) + 1
    ensures t.ownerSX == s.ownerSX && t.nodes[0].word.l0 == s.nodes[0].word.l0
  {
    hide Reachable;
    var s1 := LeaderLocks(u, s, STRAY, 0, FREE);
    var s2 := FollowerLocks(u, s1, EARLY, 1, FREE - 1);
    t := FollowerLocks(u, s2, VICTIM, 2, FREE - 1);
  }

  lemma ResetByUpgrader(u: Usage, s: Sys, refs: int) returns (t: Sys)
    requires Reachable(u, s) && u.sx && Calm(s, GHeld, refs, FREE - 1) && PcOf(s, UPGRADER) == Idle
    requires |s.nodes| == 2 && s.ownerSX == Nobody && !s.nodes[0].word.l0.flag
    ensures Reachable(u, t) && Calm(t, GIdle, refs, FREE - 1) && |t.nodes| == 2
    ensures PcOf(t, UPGRADER) == Leave(SX) && t.nodes[0].word.l0.flag
    ensures forall b :: b != UPGRADER ==> PcOf(t, b) == PcOf(s, b)
    ensures forall i: nat :: i < LANES ==> LaneCount(t, i) == LaneCount(s, i)
  {
    hide Reachable;
    assert !s.nodes[0].word.At(0).sentinel;
    var s1 := LockUpgradable(u, s, UPGRADER);
    var s2 := DropUpgradableUnit(u, s1, UPGRADER);
    t := ResetGlobal(u, s2, UPGRADER);
  }

  /** unlock_s at a count that is not positive: decrement, and the undo is still to come. */
  lemma StrayDown(u: Usage, s: Sys, a: Agent, g: GlobalState, word: int) returns (t: Sys)
    requires u.stray == AsWritten && Reachable(u, s) && Calm(s, g, 0, word) && a.node == 0 && PcOf(s, a) == Holding(S)
    requires s.nodes[0].word.At(LaneOf(a)).count > 0
    ensures Reachable(u, t) && Calm(t, g, -1, word) && PcOf(t, a) == SUndo
    ensures forall b :: b != a ==> PcOf(t, b) == PcOf(s, b)
    ensures t.nodes[0].word == s.nodes[0].word && t.ownerSX == s.ownerSX
  {
    hide Reachable, EnterStep, ClaimStep, TokenStep, ContendStep, UnlockExclusiveStep, GiveBackStep, LeaveStep;
    t := Go(PutNode(s, a, s.nodes[0].(refs := -1)), a, SUndo);
    assert UnlockSharedStep(u, s, t, a);
    Hop(u, s, t, a);
  }

  lemma StrayUp(u: Usage, s: Sys, a: Agent, g: GlobalState, refs: int, word: int) returns (t: Sys)
    requires Reachable(u, s) && Calm(s, g, refs, word) && a.node == 0 && PcOf(s, a) == SUndo
    ensures Reachable(u, t) && Calm(t, g, refs + 1, word) && PcOf(t, a) == Holding(S)
    ensures forall b :: b != a ==> PcOf(t, b) == PcOf(s, b)
    ensures t.nodes[0].word == s.nodes[0].word && t.ownerSX == s.ownerSX
  {
    hide Reachable, EnterStep, ClaimStep, TokenStep, ContendStep, UnlockExclusiveStep, GiveBackStep, LeaveStep;
    t := Go(PutNode(s, a, s.nodes[0].(refs := refs + 1)), a, Holding(S));
    assert UnlockSharedStep(u, s, t, a);
    Hop(u, s, t, a);
  }

  /** One stray unlock, spread around a leader that comes and goes, raises the count from nothing. */
  lemma PhantomReference(u: Usage, s: Sys) returns (t: Sys)
    requires u.stray == AsWritten && Reachable(u, s) && Calm(s, GIdle, 0, FREE - 1)
    requires PcOf(s, STRAY) == Holding(S) && PcOf(s, THIRD) == Idle
    requires s.nodes[0].word.At(1).count == 1 && s.nodes[0].word.At(2).count == 1
    ensures Reachable(u, t) && Calm(t, GIdle, 1, FREE - 1)
    ensures forall b :: b != STRAY && b != THIRD ==> PcOf(t, b) == PcOf(s, b)
    ensures t.nodes[0].word.At(2).count == 1
  {
    hide Reachable;
    var s1 := StrayDown(u, s, STRAY, GIdle, FREE - 1);
    var s2 := LeaderLocks(u, s1, THIRD, -1, FREE - 1);
    var s3 := LastUnlocks(u, s2, THIRD, GHeld, FREE - 2);
    t := StrayUp(u, s3, STRAY, GIdle, 0, FREE - 1);
  }

  /** The code as written reaches a state with an S hold and an X hold. */
  lemma StrayUnlockBreaksExclusion(u: Usage) returns (t: Sys)
    requires u.stray == AsWritten && u.sx
    ensures Reachable(u, t)
    ensures PcOf(t, VICTIM) == Holding(S) && PcOf(t, WRITER) == Holding(X)
  {
    hide Reachable;
    var s1 := ReadersThenReset(u);
    var s2 := LeaderLocks(u, s1, SECOND, 3, FREE - 1);
    var s3 := LastUnlocks(u, s2, SECOND, GHeld, FREE - 2);
    var s4 := PhantomReference(u, s3);
    t := EarlyThenWriter(u, s4);
  }

  /** The phantom reference lets EARLY return the unit that VICTIM relies on. */
  lemma EarlyThenWriter(u: Usage, s: Sys) returns (t: Sys)
    requires Reachable(u, s) && Calm(s, GIdle, 1, FREE - 1) && PcOf(s, EARLY) == Holding(S)
    requires PcOf(s, VICTIM) == Holding(S) && PcOf(s, WRITER) == Idle && s.nodes[0].word.At(2).count == 1
    ensures Reachable(u, t)
    ensures PcOf(t, VICTIM) == Holding(S) && PcOf(t, WRITER) == Holding(X)
  {
    hide Reachable;
    var s1 := LastUnlocks(u, s, EARLY, GIdle, FREE - 1);
    t := LockExclusive(u, s1, WRITER);
  }

  // ---- the same without SX: two failed leaders with their cleanup half done -----------------

  /** A leader that times out, stopped between its two cleanup stores. */
  lemma LeaderFails(u: Usage, s: Sys, a: Agent, refs: int, word: int) returns (t: Sys)
    requires Reachable(u, s) && Calm(s, GIdle, refs, word) && a.node == 0 && PcOf(s, a) == SEnter
    requires u.leadersFail && !u.oneStepCleanup
    ensures Reachable(u, t) && t.ownerX == s.ownerX && t.ownerSX == s.ownerSX
    ensures Only(s, t, a, SFailRef, word, s.nodes[0])
  {
    hide Reachable;
    var s1 := ClaimLead(u, s, a);
    t := GiveUp(u, s1, a);
  }

  lemma GiveUp(u: Usage, s: Sys, a: Agent) returns (t: Sys)
    requires Reachable(u, s) && a.node < |s.nodes| && PcOf(s, a) == Contend(S) && u.leadersFail && !u.oneStepCleanup
    ensures Reachable(u, t) && t.ownerX == s.ownerX && t.ownerSX == s.ownerSX
    ensures Only(s, t, a, SFailRef, s.word, s.nodes[a.node].(gstate := GIdle))
  {
    hide Reachable, EnterStep, ClaimStep, TokenStep, UnlockSharedStep, UnlockExclusiveStep, GiveBackStep, LeaveStep,
      Only;
    var s1 := Go(s, a, SFail);
    assert ContendStep(u, s, s1, a);
    Hop(u, s, s1, a);
    OnlySame(s, s1, a, SFail, s.word);
    t := Go(PutNode(s1, a, s1.nodes[a.node].(gstate := GIdle)), a, SFailRef);
    assert ContendStep(u, s1, t, a);
    Hop(u, s1, t, a);
    OnlyOne(s1, t, a, SFailRef, s.word, s.nodes[a.node].(gstate := GIdle));
    OnlyTwo(s, s1, t, a, SFailRef, s.word, s.nodes[a.node].(gstate := GIdle));
  }

  lemma FailedLeader(u: Usage, s: Sys, a: Agent) returns (t: Sys)
    requires Reachable(u, s) && Calm(s, GIdle, 0, FREE) && a.node == 0 && PcOf(s, a) == Idle
    requires u.leadersFail && !u.oneStepCleanup
    requires s.nodes[0].word.At(LaneOf(a)).count < 99
    ensures Reachable(u, t) && Calm(t, GIdle, 0, FREE) && PcOf(t, a) == SFailRef
    ensures forall b :: b != a ==> PcOf(t, b) == PcOf(s, b)
    ensures t.nodes[0].word == Joined(s.nodes[0].word, a) && t.ownerSX == s.ownerSX
  {
    hide Reachable;
    var s1 := EnterShared(u, s, a);
    t := LeaderFails(u, s1, a, 0, FREE);
  }

  /** Two failed leaders keep a stale store each; three readers then share one unit. */
  lemma FailuresThenReaders(u: Usage) returns (t: Sys)
    requires u.leadersFail && !u.oneStepCleanup
    ensures Reachable(u, t) && Calm(t, GHeld, 3, FREE - 1)
    ensures PcOf(t, STRAY) == Holding(S) && PcOf(t, EARLY) == Holding(S) && PcOf(t, VICTIM) == Holding(S)
    ensures PcOf(t, SECOND) == SFailRef && PcOf(t, THIRD) == SFailRef && PcOf(t, WRITER) == Idle
    ensures |t.nodes| == 2 && LaneCount(t, 1) > 0 && LaneCount(t, 2) > 0
  {
    hide Reachable, Calm;
    var s0 := Fresh(u);
    var s1 := TwoFailures(u, s0);
    t := ThreeReaders(u, s1);
  }

  lemma TwoFailures(u: Usage, s: Sys) returns (t: Sys)
    requires Reachable(u, s) && Calm(s, GIdle, 0, FREE) && (forall a :: PcOf(s, a) == Idle)
    requires u.leadersFail && !u.oneStepCleanup
    requires |s.nodes| == 2 && s.nodes[0].word == IDLE_WORD
    ensures Reachable(u, t) && Calm(t, GIdle, 0, FREE) && |t.nodes| == 2
    ensures PcOf(t, SECOND) == SFailRef && PcOf(t, THIRD) == SFailRef
    ensures forall b :: b != SECOND && b != THIRD ==> PcOf(t, b) == Idle
    ensures LaneCount(t, 1) < 9 && LaneCount(t, 2) < 9 && LaneCount(t, 3) < 9
  {
    hide Reachable;
    var s1 := FailedLeader(u, s, SECOND);
    t := FailedLeader(u, s1, THIRD);
  }

  lemma StaleStore(u: Usage, s: Sys, a: Agent, g: GlobalState, refs: int, word: int) returns (t: Sys)
    requires Reachable(u, s) && Calm(s, g, refs, word) && a.node == 0 && PcOf(s, a) == SFailRef
    ensures Reachable(u, t) && Calm(t, g, 0, word) && t.nodes[0].word == s.nodes[0].word && t.ownerSX == s.ownerSX
    ensures PcOf(t, a) == Leave(S) && forall b :: b != a ==> PcOf(t, b) == PcOf(s, b)
  {
    hide Reachable, EnterStep, ClaimStep, TokenStep, UnlockSharedStep, UnlockExclusiveStep, GiveBackStep, LeaveStep;
    t := Go(PutNode(s, a, s.nodes[0].(refs := 0)), a, Leave(S));
    assert ContendStep(u, s, t, a);
    Hop(u, s, t, a);
  }

  lemma StaleStoresBreakExclusion(u: Usage) returns (t: Sys)
    requires u.stray == AsWritten && u.leadersFail && !u.oneStepCleanup
    ensures Reachable(u, t)
    ensures PcOf(t, VICTIM) == Holding(S) && PcOf(t, WRITER) == Holding(X)
  {
    hide Reachable;
    var s1 := FailuresThenReaders(u);
    var s2 := StaleStore(u, s1, SECOND, GHeld, 3, FREE - 1);
    var s3 := StrayDown(u, s2, STRAY, GHeld, FREE - 1);
    var s4 := StaleStore(u, s3, THIRD, GHeld, -1, FREE - 1);
    var s5 := StrayUp(u, s4, STRAY, GHeld, 0, FREE - 1);
    var s6 := LastUnlocks(u, s5, EARLY, GHeld, FREE - 1);
    t := LockExclusive(u, s6, WRITER);
  }
}
