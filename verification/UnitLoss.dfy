/**
Two runs that lose a parked unit: a release message takes an X unit out of the
token and finds the local lock held, and a reader's unlock clears a token that
holds an SX unit.
*/
module UnitLoss {
  import opened LocalWord
  import opened TwoLevelLock
  import opened TwoLevelStray
  import opened UnitCensus

  const OWNER := Agent(0, 1, 0)      // parks its X unit
  const WAITER := Agent(0, 2, 0)     // has the local lock when the message arrives
  const HANDLER := Agent(0, 3, 0)    // handles the message

  /** The word is drained, node 1 was never used, and only three calls may be under way. */
  ghost predicate Drained(s: Sys, owner: Pc, waiter: Pc, handler: Pc, nd: Node) {
    && s.word == 0 && |s.nodes| == 2 && s.nodes[0] == nd && s.nodes[1].token == NoToken
    && s.ownerX == Me(OWNER)
    && PcOf(s, OWNER) == owner && PcOf(s, WAITER) == waiter && PcOf(s, HANDLER) == handler
    && forall a :: a != OWNER && a != WAITER && a != HANDLER ==> PcOf(s, a) == Idle
  }

  lemma Drains(s: Sys, t: Sys, a: Agent, p: Pc, owner: Pc, waiter: Pc, handler: Pc, nd: Node, next: Node)
    requires Drained(s, owner, waiter, handler, nd) && a in {OWNER, WAITER, HANDLER}
    requires t.word == 0 && t.ownerX == s.ownerX && t.pc == s.pc[a := p] && t.nodes == s.nodes[0 := next]
    ensures Drained(t, if a == OWNER then p else owner, if a == WAITER then p else waiter,
                    if a == HANDLER then p else handler, next)
  {
    forall b | b != a ensures PcOf(t, b) == PcOf(s, b) {}
  }

  lemma ParkExclusive(u: Usage, s: Sys, nd: Node) returns (t: Sys)
    requires u.delay && Reachable(u, s) && Drained(s, Holding(X), Idle, Idle, nd) && s.reserve == Nobody
    ensures Reachable(u, t) && Drained(t, After(X), Idle, Idle, nd.(token := Parked(X)))
  {
    hide Reachable, EnterStep, ClaimStep, TokenStep, ContendStep, UnlockSharedStep, LeaveStep;
    var s1 := Go(s.(reserve := Me(OWNER)), OWNER, Park(X));
    assert UnlockExclusiveStep(u, s, s1, OWNER);
    Hop(u, s, s1, OWNER);
    Drains(s, s1, OWNER, Park(X), Holding(X), Idle, Idle, nd, nd);
    t := Go(PutNode(s1, OWNER, nd.(token := Parked(X))), OWNER, After(X));
    assert GiveBackStep(s1, t, OWNER);
    Hop(u, s1, t, OWNER);
    Drains(s1, t, OWNER, After(X), Park(X), Idle, Idle, nd, nd.(token := Parked(X)));
  }

  lemma OwnerLeaves(u: Usage, s: Sys, nd: Node) returns (t: Sys)
    requires Reachable(u, s) && Drained(s, After(X), Idle, Idle, nd)
    ensures Reachable(u, t) && Drained(t, Idle, Idle, Idle, nd.(gstate := GIdle, word := IDLE_WORD))
  {
    hide Reachable, EnterStep, ClaimStep, TokenStep, ContendStep, UnlockSharedStep, UnlockExclusiveStep;
    var s1 := Go(PutNode(s, OWNER, nd.(gstate := GIdle)), OWNER, Leave(X));
    assert GiveBackStep(s, s1, OWNER);
    Hop(u, s, s1, OWNER);
    Drains(s, s1, OWNER, Leave(X), After(X), Idle, Idle, nd, nd.(gstate := GIdle));
    t := Go(PutNode(s1, OWNER, s1.nodes[0].(word := IDLE_WORD)), OWNER, Idle);
    assert LeaveStep(s1, t, OWNER);
    Hop(u, s1, t, OWNER);
    Drains(s1, t, OWNER, Idle, Leave(X), Idle, Idle, s1.nodes[0], s1.nodes[0].(word := IDLE_WORD));
  }

  lemma MessageComes(u: Usage, s: Sys, nd: Node) returns (t: Sys)
    requires Reachable(u, s) && Drained(s, Idle, TakeToken(X), Idle, nd) && !nd.releasing
    ensures Reachable(u, t) && Drained(t, Idle, TakeToken(X), HTake, nd.(releasing := true))
  {
    hide Reachable, ClaimStep, TokenStep, ContendStep, UnlockSharedStep, UnlockExclusiveStep, GiveBackStep, LeaveStep;
    t := Go(PutNode(s, HANDLER, nd.(releasing := true)), HANDLER, HTake);
    assert EnterStep(u, s, t, HANDLER);
    Hop(u, s, t, HANDLER);
    Drains(s, t, HANDLER, HTake, Idle, TakeToken(X), Idle, nd, nd.(releasing := true));
  }

  lemma MessageTakes(u: Usage, s: Sys, nd: Node) returns (t: Sys)
    requires Reachable(u, s) && Drained(s, Idle, TakeToken(X), Idle, nd) && nd.token == Parked(X) && !nd.releasing
    ensures Reachable(u, t) && Drained(t, Idle, TakeToken(X), HHeld(X), nd.(token := NoToken, releasing := true))
  {
    hide Reachable, EnterStep, ClaimStep, ContendStep, UnlockSharedStep, UnlockExclusiveStep, GiveBackStep, LeaveStep;
    var s1 := MessageComes(u, s, nd);
    t := Go(PutNode(s1, HANDLER, s1.nodes[0].(token := NoToken)), HANDLER, HHeld(X));
    assert TokenStep(s1, t, HANDLER);
    Hop(u, s1, t, HANDLER);
    Drains(s1, t, HANDLER, HHeld(X), Idle, TakeToken(X), HTake, s1.nodes[0], s1.nodes[0].(token := NoToken));
  }

  lemma MessageDrops(u: Usage, s: Sys, nd: Node) returns (t: Sys)
    requires Reachable(u, s) && Drained(s, Idle, TakeToken(X), HHeld(X), nd) && nd.word != IDLE_WORD
    ensures Reachable(u, t) && Drained(t, Idle, TakeToken(X), Idle, nd.(releasing := false))
  {
    hide Reachable, EnterStep, ClaimStep, ContendStep, UnlockSharedStep, UnlockExclusiveStep, GiveBackStep, LeaveStep;
    var s1 := Go(s, HANDLER, HEnd);
    assert TokenStep(s, s1, HANDLER);
    Hop(u, s, s1, HANDLER);
    Drains(s, s1, HANDLER, HEnd, Idle, TakeToken(X), HHeld(X), nd, nd);
    t := Go(PutNode(s1, HANDLER, nd.(releasing := false)), HANDLER, Idle);
    assert TokenStep(s1, t, HANDLER);
    Hop(u, s1, t, HANDLER);
    Drains(s1, t, HANDLER, Idle, Idle, TakeToken(X), HEnd, nd, nd.(releasing := false));
  }

  lemma WaiterEnters(u: Usage, s: Sys, nd: Node) returns (t: Sys)
    requires Reachable(u, s) && Drained(s, Idle, Idle, Idle, nd) && nd.word == IDLE_WORD
    ensures Reachable(u, t) && Drained(t, Idle, TakeToken(X), Idle, nd.(word := X_WORD))
  {
    hide Reachable, ClaimStep, TokenStep, ContendStep, UnlockSharedStep, UnlockExclusiveStep, GiveBackStep, LeaveStep;
    t := Go(PutNode(s, WAITER, nd.(word := X_WORD)), WAITER, TakeToken(X));
    assert EnterStep(u, s, t, WAITER);
    Hop(u, s, t, WAITER);
    Drains(s, t, WAITER, TakeToken(X), Idle, Idle, Idle, nd, nd.(word := X_WORD));
  }

  /** The waiter finds no token and contends for a word that is zero. */
  lemma WaiterContends(u: Usage, s: Sys, nd: Node) returns (t: Sys)
    requires Reachable(u, s) && Drained(s, Idle, TakeToken(X), Idle, nd) && nd.token == NoToken
    ensures Reachable(u, t) && Drained(t, Idle, Contend(X), Idle, nd)
  {
    hide Reachable;
    t := ReachContend(u, s, WAITER, X);
  }

  /** Its deadline passes. */
  lemma WaiterLeaves(u: Usage, s: Sys, nd: Node) returns (t: Sys)
    requires Reachable(u, s) && Drained(s, Idle, Contend(X), Idle, nd) && nd.token == NoToken
    ensures Reachable(u, t) && t.word == 0 && AtRest(t)
  {
    hide Reachable, EnterStep, ClaimStep, TokenStep, UnlockSharedStep, UnlockExclusiveStep, GiveBackStep;
    var s1 := Go(s, WAITER, Leave(X));
    assert ContendStep(u, s, s1, WAITER);
    Hop(u, s, s1, WAITER);
    Drains(s, s1, WAITER, Leave(X), Idle, Contend(X), Idle, nd, nd);
    var left := nd.(word := IDLE_WORD);
    t := Go(PutNode(s1, WAITER, left), WAITER, Idle);
    assert LeaveStep(s1, t, WAITER);
    Hop(u, s1, t, WAITER);
    Drains(s1, t, WAITER, Idle, Idle, Leave(X), Idle, nd, left);
  }

  /**
  A writer parks its unit, another one of the node takes the local lock, and a
  release message arrives: the second writer finds no token and times out,
  everybody is idle, nothing is parked, and the word stays at zero.
  */
  lemma MessageLosesUnit(u: Usage) returns (t: Sys)
    requires u.delay
    ensures Reachable(u, t) && AtRest(t) && t.word == 0
  {
    hide Reachable, AtRest;
    var s0 := Fresh(u);
    var s1 := LockExclusive(u, s0, OWNER);
    var nd := s1.nodes[0];
    var s2 := ParkExclusive(u, s1, nd);
    var s3 := OwnerLeaves(u, s2, nd.(token := Parked(X)));
    var s4 := WaiterEnters(u, s3, s3.nodes[0]);
    var s5 := MessageTakes(u, s4, s4.nodes[0]);
    var s6 := MessageDrops(u, s5, s5.nodes[0]);
    var s7 := WaiterContends(u, s6, s6.nodes[0]);
    t := WaiterLeaves(u, s7, s7.nodes[0]);
  }

  // ---- an unlock that wipes another's token -----------------------------------------------------

  const READER := Agent(0, 1, 0)     // its unlock stores into the token
  const UPGRADED := Agent(0, 2, 0)   // parks its SX unit there

  lemma ParkUpgradable(u: Usage, s: Sys, a: Agent) returns (t: Sys)
    requires u.delay && Reachable(u, s) && a.node < |s.nodes| && PcOf(s, a) == Holding(SX) && s.reserve == Nobody
    ensures Reachable(u, t) && PcOf(t, a) == After(SX) && forall b :: b != a ==> PcOf(t, b) == PcOf(s, b)
    ensures t == s.(reserve := Me(a), nodes := s.nodes[a.node := s.nodes[a.node].(token := Parked(SX))], pc := t.pc)
  {
    hide Reachable, EnterStep, ClaimStep, TokenStep, ContendStep, UnlockSharedStep, LeaveStep;
    var s1 := Go(s.(reserve := Me(a)), a, Park(SX));
    assert UnlockExclusiveStep(u, s, s1, a);
    Hop(u, s, s1, a);
    t := Go(PutNode(s1, a, s.nodes[a.node].(token := Parked(SX))), a, After(SX));
    assert GiveBackStep(s1, t, a);
    Hop(u, s1, t, a);
  }

  lemma UpgradableLeaves(u: Usage, s: Sys, a: Agent) returns (t: Sys)
    requires Reachable(u, s) && a.node < |s.nodes| && PcOf(s, a) == After(SX) && s.nodes[a.node].word.l0.flag
    ensures Reachable(u, t) && PcOf(t, a) == Idle && forall b :: b != a ==> PcOf(t, b) == PcOf(s, b)
    ensures var nd := s.nodes[a.node];
      var left := nd.(gstate := GIdle, word := nd.word.Put(0, nd.word.l0.(flag := false)));
      t == s.(nodes := s.nodes[a.node := left], pc := t.pc)
  {
    hide Reachable, EnterStep, ClaimStep, TokenStep, ContendStep, UnlockSharedStep, UnlockExclusiveStep;
    var nd := s.nodes[a.node];
    var s1 := Go(PutNode(s, a, nd.(gstate := GIdle)), a, Leave(SX));
    assert GiveBackStep(s, s1, a);
    Hop(u, s, s1, a);
    t := Go(PutNode(s1, a, s1.nodes[a.node].(word := nd.word.Put(0, nd.word.l0.(flag := false)))), a, Idle);
    assert LeaveStep(s1, t, a);
    Hop(u, s1, t, a);
  }

  lemma WipeToken(u: Usage, s: Sys, a: Agent) returns (t: Sys)
    requires Reachable(u, s) && a.node < |s.nodes| && PcOf(s, a) == ClearToken(S) && s.word < FREE
    ensures Reachable(u, t) && PcOf(t, a) == After(S) && forall b :: b != a ==> PcOf(t, b) == PcOf(s, b)
    ensures t == s.(word := s.word + 1, nodes := s.nodes[a.node := s.nodes[a.node].(token := NoToken)], pc := t.pc)
  {
    hide Reachable, EnterStep, ClaimStep, TokenStep, ContendStep, UnlockSharedStep, UnlockExclusiveStep, LeaveStep;
    var s1 := Go(PutNode(s, a, s.nodes[a.node].(token := NoToken)), a, PutWord(S));
    assert GiveBackStep(s, s1, a);
    Hop(u, s, s1, a);
    t := Go(s1.(word := s1.word + 1), a, After(S));
    assert GiveBackStep(s1, t, a);
    Hop(u, s1, t, a);
  }

  /** A reader and an SX holder of one node; the SX unit is parked. */
  lemma ParkBesideReader(u: Usage) returns (t: Sys)
    requires u.sx && u.delay
    ensures Reachable(u, t) && |t.nodes| == 2 && t.word == FREE - 1 - HALF && PcOf(t, READER) == Holding(S)
    ensures t.nodes[1].token == NoToken && t.nodes[0].refs == 1
    ensures t.nodes[0].word.l1 == Lane(1, false, false)
    ensures forall b :: b != READER ==> PcOf(t, b) == Idle
  {
    hide Reachable;
    var s0 := Fresh(u);
    var s1 := LeaderLocks(u, s0, READER, 0, FREE);
    assert !s1.nodes[0].word.At(0).sentinel && s1.nodes[0].word.l1 == Lane(1, false, false);
    var s2 := LockUpgradable(u, s1, UPGRADED);
    var s3 := ParkUpgradable(u, s2, UPGRADED);
    t := UpgradableLeaves(u, s3, UPGRADED);
  }

  /** The reader's unlock clears the token, which was not empty: at rest the SX unit is missing. */
  lemma UnlockWipesToken(u: Usage) returns (t: Sys)
    requires u.sx && u.delay
    ensures Reachable(u, t) && AtRest(t) && t.word == FREE - HALF
  {
    hide Reachable;
    var s1 := ParkBesideReader(u);
    var s2 := LastOut(u, s1, READER);
    var s3 := WipeToken(u, s2, READER);
    t := GoIdle(u, s3, READER);
  }

  // ---- a release handler that finds the local lock idle -------------------------------------------

  /**
  However a release handler ends: it found no token, or it found the local lock
  held, or its last step gave the unit back to the shared word.
  */
  lemma HandlerEnds(u: Usage, s: Sys, t: Sys, a: Agent)
    requires AgentStep(u, s, t, a) && PcOf(t, a) == HEnd
    ensures var p, nd := PcOf(s, a), s.nodes[a.node];
      || (p == HTake && nd.token == NoToken && t.word == s.word)
      || (p.HHeld? && nd.word != IDLE_WORD && t.word == s.word)
      || (p == DropWord(S, ForMessage) && t.word == s.word + 1)
      || (p == DropWord(SX, ForMessage) && t.word == s.word + 32768)
      || (p == DropWord(X, ForMessage) && t.word == 65536)
  {
    hide EnterStep, ClaimStep, ContendStep, UnlockSharedStep, UnlockExclusiveStep, GiveBackStep, LeaveStep;
    OtherStepsGoOn(u, s, t, a);
    if PcOf(s, a).DropWord? { ModeOf(PcOf(s, a).unit); }
  }

  lemma OtherStepsGoOn(u: Usage, s: Sys, t: Sys, a: Agent)
    requires AgentStep(u, s, t, a) && PcOf(t, a) == HEnd
    ensures TokenStep(s, t, a)
  {
    hide TokenStep, EnterStep, ContendStep, GiveBackStep;
    if EnterStep(u, s, t, a) { EnterGoesOn(u, s, t, a); }
    if ContendStep(u, s, t, a) { ContendGoesOn(u, s, t, a); }
    if GiveBackStep(s, t, a) { GiveBackGoesOn(s, t, a); }
  }

  lemma EnterGoesOn(u: Usage, s: Sys, t: Sys, a: Agent)
    requires a.node < |s.nodes| && EnterStep(u, s, t, a)
    ensures PcOf(t, a) != HEnd
  {
  }

  lemma ContendGoesOn(u: Usage, s: Sys, t: Sys, a: Agent)
    requires a.node < |s.nodes| && ContendStep(u, s, t, a)
    ensures PcOf(t, a) != HEnd
  {
  }

  lemma GiveBackGoesOn(s: Sys, t: Sys, a: Agent)
    requires a.node < |s.nodes| && GiveBackStep(s, t, a)
    ensures PcOf(t, a) != HEnd
  {
  }

  lemma ModeOf(m: Mode)
    ensures m == S || m == SX || m == X
  {
  }

  /** And one that finds the lock idle goes on to give back the unit it took, of the mode it took. */
  lemma HandlerReturns(u: Usage, s: Sys, a: Agent, m: Mode) returns (t: Sys)
    requires Reachable(u, s) && a.node < |s.nodes| && PcOf(s, a) == HHeld(m) && s.nodes[a.node].word == IDLE_WORD
    ensures Reachable(u, t) && PcOf(t, a) == HEnd && t.nodes == s.nodes && t.reserve == Nobody
    ensures t.word == if m == S then s.word + 1 else if m == SX then s.word + 32768 else 65536
    ensures m == X ==> t.ownerX == Nobody
    ensures m == SX ==> t.ownerSX == Nobody
    ensures forall b :: b != a ==> PcOf(t, b) == PcOf(s, b)
  {
    hide Reachable, EnterStep, ClaimStep, ContendStep, UnlockSharedStep, UnlockExclusiveStep, GiveBackStep, LeaveStep;
    var s1 := Go(s, a, DropReserve(m, ForMessage));
    assert TokenStep(s, s1, a);
    Hop(u, s, s1, a);
    var s2 := Go(s1.(reserve := Nobody), a, if m == S then DropWord(m, ForMessage) else DropOwner(m, ForMessage));
    assert TokenStep(s1, s2, a);
    Hop(u, s1, s2, a);
    t := HandlerDrops(u, s2, a, m);
  }

  lemma HandlerDrops(u: Usage, s: Sys, a: Agent, m: Mode) returns (t: Sys)
    requires Reachable(u, s) && a.node < |s.nodes|
    requires PcOf(s, a) == if m == S then DropWord(m, ForMessage) else DropOwner(m, ForMessage)
    ensures Reachable(u, t) && PcOf(t, a) == HEnd && t.nodes == s.nodes && t.reserve == s.reserve
    ensures t.word == if m == S then s.word + 1 else if m == SX then s.word + 32768 else 65536
    ensures m == X ==> t.ownerX == Nobody
    ensures m == SX ==> t.ownerSX == Nobody
    ensures forall b :: b != a ==> PcOf(t, b) == PcOf(s, b)
  {
    hide Reachable, EnterStep, ClaimStep, ContendStep, UnlockSharedStep, UnlockExclusiveStep, GiveBackStep, LeaveStep;
    var s1 := s;
    if m != S {
      s1 := Go(SetOwner(s, m, Nobody), a, DropWord(m, ForMessage));
      assert TokenStep(s, s1, a);
      Hop(u, s, s1, a);
    }
    t := Go(s1.(word := GiveBack(s1.word, m)), a, HEnd);
    assert TokenStep(s1, t, a);
    Hop(u, s1, t, a);
    ModeOf(m);
  }
}
