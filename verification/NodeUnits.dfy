/**
Where the units of one node are. On any node whose own callers use no SX and
whose failed leaders clean up in one step, whatever the other nodes do and with
delayed release in use: every unit the node took from the shared word and did
not give back is with its readers, its writer, its token, a call that is taking
the token away, or was lost to a release message that found the lock held.
*/
module NodeUnits {
  import opened LocalWord
  import opened TwoLevelLock
  import opened TwoLevelCustody
  import opened TwoLevelLedger
  import opened ReaderGrouping

  // ---- who has a unit ------------------------------------------------------------------

  /** Places that have the S unit of their node's readers behind them. */
  predicate Backed(p: Pc) {
    match p
    case Inherit(m) => m == S
    case Got(m) => m == S
    case SPublish => true
    case Holding(m) => m == S
    case Release => true
    case ClearToken(m) => m == S
    case PutWord(m) => m == S
    case SOver => true
    case Refused(m) => m == S
    case Park(m) => m == S
    case _ => false
  }

  function BackedAt(s: Sys, n: nat): set<Agent> { set a | a in s.pc && a.node == n && Backed(s.pc[a]) }

  /** Whether the node's readers have their unit: 0 or 1. */
  function Owns(s: Sys, n: nat): int { if BackedAt(s, n) == {} then 0 else 1 }

  /** A unit on its way from the token back to the shared word. */
  predicate Carries(p: Pc, m: Mode) {
    p == HHeld(m) || ((p.DropReserve? || p.DropOwner? || p.DropWord?) && p.unit == m)
  }

  /** A writer with its X unit. */
  predicate Wields(p: Pc) {
    match p
    case Inherit(m) => m == X
    case Got(m) => m == X
    case Holding(m) => m == X
    case ClearToken(m) => m == X
    case PutOwner(m) => m == X
    case PutWord(m) => m == X
    case Park(m) => m == X
    case Refused(m) => m == X
    case _ => false
  }

  /** Calls that have a unit to themselves. */
  predicate Single(p: Pc, m: Mode) { Carries(p, m) || (m == X && Wields(p)) }

  function SinglesAt(s: Sys, n: nat, m: Mode): set<Agent> { set a | a in s.pc && a.node == n && Single(s.pc[a], m) }

  function Bit(b: bool): int { if b then 1 else 0 }

  /** The units of a mode that are somewhere on the node. */
  function With(s: Sys, n: nat, m: Mode): int
    requires n < |s.nodes|
  {
    |SinglesAt(s, n, m)| + Bit(s.nodes[n].token == Parked(m)) + (if m == S then Owns(s, n) else 0)
  }

  // ---- tokens taken and dropped ------------------------------------------------------------

  /** A release handler that has taken a unit of mode m out of the token goes on while the local lock is held. */
  predicate FindsHeld(s: Sys, t: Sys, a: Agent, m: Mode) {
    PcOf(s, a) == HHeld(m) && PcOf(t, a) != HHeld(m) && a.node < |s.nodes| && s.nodes[a.node].word != IDLE_WORD
  }

  function Drop(s: Sys, t: Sys, a: Agent, m: Mode): int { Bit(FindsHeld(s, t, a, m)) }

  /** How often that happened on node n in the first i steps. */
  ghost function Dropped(run: seq<Sys>, i: nat, m: Mode, n: nat): int
    requires i < |run|
  {
    if i == 0 then 0
    else
      var s, t := run[i - 1], run[i];
      Dropped(run, i - 1, m, n) + Bit(exists a: Agent :: a.node == n && Drop(s, t, a, m) == 1)
  }

  lemma DropIsCallers(s: Sys, t: Sys, a: Agent, m: Mode, n: nat)
    requires t.pc == s.pc[a := PcOf(t, a)]
    ensures Bit(exists b: Agent :: b.node == n && Drop(s, t, b, m) == 1) ==
      if n == a.node then Drop(s, t, a, m) else 0
  {
    forall b: Agent | b != a ensures Drop(s, t, b, m) == 0 {
      assert PcOf(t, b) == PcOf(s, b);
    }
  }

  // ---- the token is empty while a call is between taking and parking ----------------------------

  /** Past the exchange of the token, and not yet past parking it or giving the unit back. */
  predicate Busy(p: Pc) {
    match p
    case Inherit(_) => true
    case DropReserve(_, g) => g.ForLock?
    case DropOwner(_, g) => g.ForLock?
    case DropWord(_, g) => g.ForLock?
    case CheckOwner(_) => true
    case Contend(_) => true
    case Got(_) => true
    case SPublish => true
    case Holding(_) => true
    case Release => true
    case ClearToken(_) => true
    case PutOwner(_) => true
    case PutWord(_) => true
    case SOver => true
    case Refused(_) => true
    case Park(_) => true
    case _ => false
  }

  ghost predicate TokenFree(s: Sys, n: nat) {
    && n < |s.nodes| && s.nodes[n].token != Parked(SX)
    && forall a: Agent :: a.node == n ==>
      !Carries(PcOf(s, a), SX) && (Busy(PcOf(s, a)) ==> s.nodes[n].token == NoToken)
  }

  /** A writer is alone on its node. */
  lemma WriterAlone(s: Sys, a: Agent, b: Agent)
    requires NodeInv(s, a.node) && b.node == a.node && LocalMode(PcOf(s, a)) == Just(X) && LocalMode(PcOf(s, b)).Just?
    ensures b == a
  {
    var n := a.node;
    NodeAt(s, b);
    assert LocalOk(s, {}, n);
    hide NodeInv, Agrees, LocalMode;
    LocalHere(s, a);
    LocalHere(s, b);
    hide LocalAt;
    DropExclusive(s.nodes[n].word, LocalAt(s, n, S), LocalAt(s, n, SX) + OrphansAt({}, n), LocalAt(s, n, X), a);
  }

  lemma NodeAt(s: Sys, a: Agent)
    requires NodeInv(s, a.node)
    ensures Plain(PcOf(s, a)) && Settled(PcOf(s, a))
  {
  }

  lemma LocalHere(s: Sys, a: Agent)
    requires LocalMode(PcOf(s, a)).Just?
    ensures a in LocalAt(s, a.node, LocalMode(PcOf(s, a)).mode)
  {
  }

  /** The last reader out is the only one in its node's sharing. */
  lemma ReleaserOnly(s: Sys, a: Agent, b: Agent)
    requires NodeInv(s, a.node) && b.node == a.node && a in s.pc && b in s.pc
    requires RoleOf(s.pc[a]) == Releasing && RoleOf(s.pc[b]) != Other
    ensures b == a
  {
    var n := a.node;
    assert a in InRole(s, n, Releasing) && b in InRole(s, n, RoleOf(s.pc[b]));
    assert |InRole(s, n, Releasing)| > 0 && |InRole(s, n, RoleOf(s.pc[b]))| > 0;
    SingleHolder(InRole(s, n, Releasing), a, if b in InRole(s, n, Releasing) then b else a);
  }

  /** And so is a leader that has not published. */
  lemma LeaderOnly(s: Sys, a: Agent, b: Agent)
    requires NodeInv(s, a.node) && b.node == a.node && a in s.pc && b in s.pc
    requires RoleOf(s.pc[a]) == Leading && RoleOf(s.pc[b]) != Other
    ensures b == a
  {
    var n := a.node;
    assert a in InRole(s, n, Leading) && b in InRole(s, n, RoleOf(s.pc[b]));
    assert |InRole(s, n, Leading)| > 0 && |InRole(s, n, RoleOf(s.pc[b]))| > 0;
    SingleHolder(InRole(s, n, Leading), a, if b in InRole(s, n, Leading) then b else a);
  }

  /** So nobody else is busy when a call parks. */
  lemma ParkerOnly(s: Sys, a: Agent, b: Agent)
    requires NodeInv(s, a.node) && b.node == a.node && PcOf(s, a).Park? && Busy(PcOf(s, b))
    ensures b == a
  {
    assert Plain(PcOf(s, a)) && Plain(PcOf(s, b)) && Settled(PcOf(s, b));
    hide NodeInv;
    if PcOf(s, a) == Park(X) { WriterAlone(s, a, b); }
    else if LocalMode(PcOf(s, b)) == Just(X) { WriterAlone(s, b, a); }
    else { ReleaserOnly(s, a, b); }
  }

  lemma BusyElsewhere(s: Sys, t: Sys, a: Agent)
    requires TokenFree(s, a.node) && Moved(s, t, a) && !Carries(PcOf(t, a), SX)
    requires t.nodes[a.node].token == NoToken ||
      (t.nodes[a.node].token == s.nodes[a.node].token && (Busy(PcOf(t, a)) ==> s.nodes[a.node].token == NoToken))
    ensures TokenFree(t, a.node)
  {
    forall b: Agent | b.node == a.node
      ensures !Carries(PcOf(t, b), SX) && (Busy(PcOf(t, b)) ==> t.nodes[a.node].token == NoToken)
    {
      if b != a { assert PcOf(t, b) == PcOf(s, b); }
    }
  }

  /** Entering and claiming leave the token alone; only a follower becomes busy. */
  lemma EnteringEnds(u: Usage, s: Sys, t: Sys, a: Agent)
    requires Moved(s, t, a) && Settled(PcOf(s, a)) && (EnterStep(u, s, t, a) || ClaimStep(s, t, a))
    ensures var p, q := PcOf(s, a), PcOf(t, a);
      && t.nodes[a.node].token == s.nodes[a.node].token && !Carries(q, SX) && OwnsDelta(p, q) == 0
      && (Busy(q) || Backed(q) != Backed(p) ==> p.SCas? && q == Holding(S) && s.nodes[a.node].refs > 0)
  {
  }

  lemma EnteringFree(u: Usage, s: Sys, t: Sys, a: Agent)
    requires NodeInv(s, a.node) && TokenFree(s, a.node) && Moved(s, t, a)
    requires EnterStep(u, s, t, a) || ClaimStep(s, t, a)
    ensures TokenFree(t, a.node)
  {
    assert Settled(PcOf(s, a));
    EnteringEnds(u, s, t, a);
    hide NodeInv, EnterStep, ClaimStep, Carries, Moved;
    if Busy(PcOf(t, a)) {
      var b := AnotherReader(s, a);
      assert Busy(PcOf(s, b));
    }
    hide Busy;
    BusyElsewhere(s, t, a);
  }

  lemma MiddleFree(u: Usage, s: Sys, t: Sys, a: Agent)
    requires TokenFree(s, a.node) && Moved(s, t, a) && Plain(PcOf(t, a))
    requires TokenStep(s, t, a) || ContendStep(u, s, t, a)
    ensures TokenFree(t, a.node)
  {
    assert !Carries(PcOf(s, a), SX) && (Busy(PcOf(s, a)) ==> s.nodes[a.node].token == NoToken);
    BusyElsewhere(s, t, a);
  }

  lemma UnlockingFree(u: Usage, s: Sys, t: Sys, a: Agent)
    requires TokenFree(s, a.node) && Moved(s, t, a) && !PcOf(s, a).SUndo?
    requires
      || UnlockSharedStep(u, s, t, a) || UnlockExclusiveStep(u, s, t, a)
      || (GiveBackStep(s, t, a) && !PcOf(s, a).Park?)
    ensures TokenFree(t, a.node)
  {
    assert Busy(PcOf(s, a)) ==> s.nodes[a.node].token == NoToken;
    BusyElsewhere(s, t, a);
  }

  lemma LeavingFree(s: Sys, t: Sys, a: Agent)
    requires NodeInv(s, a.node) && TokenFree(s, a.node) && Moved(s, t, a) && LeaveStep(s, t, a)
    ensures TokenFree(t, a.node)
  {
    assert Plain(PcOf(s, a));
    if PcOf(s, a) == Leave(S) { SharedLane(s, a, {}); }
    hide NodeInv;
    BusyElsewhere(s, t, a);
  }

  lemma AfterNotBusy(p: Pc)
    requires p.After?
    ensures !Busy(p)
  {
  }

  lemma ParkFree(s: Sys, t: Sys, a: Agent)
    requires NodeInv(s, a.node) && TokenFree(s, a.node) && Moved(s, t, a) && GiveBackStep(s, t, a) && PcOf(s, a).Park?
    ensures TokenFree(t, a.node)
  {
    hide NodeInv;
    NodeAt(s, a);
    hide Busy, Settled;
    forall b: Agent | b.node == a.node ensures !Carries(PcOf(t, b), SX) && !Busy(PcOf(t, b)) {
      if b != a {
        assert PcOf(t, b) == PcOf(s, b);
        if Busy(PcOf(s, b)) { ParkerOnly(s, a, b); }
      } else {
        AfterNotBusy(PcOf(t, a));
      }
    }
  }

  lemma StepFree(u: Usage, s: Sys, t: Sys, a: Agent)
    requires NodeInv(s, a.node) && TokenFree(s, a.node) && AgentStep(u, s, t, a) && Plain(PcOf(t, a))
    ensures TokenFree(t, a.node)
  {
    assert Settled(PcOf(s, a));
    StepMoves(u, s, t, a);
    hide NodeInv, TokenFree, Moved, Plain;
    hide EnterStep, TokenStep, UnlockExclusiveStep, LeaveStep, ClaimStep, ContendStep, UnlockSharedStep, GiveBackStep;
    if EnterStep(u, s, t, a) || ClaimStep(s, t, a) { EnteringFree(u, s, t, a); }
    else if TokenStep(s, t, a) || ContendStep(u, s, t, a) { MiddleFree(u, s, t, a); }
    else if GiveBackStep(s, t, a) && PcOf(s, a).Park? { ParkFree(s, t, a); }
    else if LeaveStep(s, t, a) { LeavingFree(s, t, a); }
    else { UnlockingFree(u, s, t, a); }
  }

  // ---- the readers' unit --------------------------------------------------------------------------

  lemma BackedSet(s: Sys, t: Sys, a: Agent)
    requires Moved(s, t, a)
    ensures BackedAt(t, a.node) == if Backed(PcOf(t, a)) then BackedAt(s, a.node) + {a} else BackedAt(s, a.node) - {a}
    ensures a in BackedAt(s, a.node) <==> Backed(PcOf(s, a))
  {
  }

  lemma OwnsQuiet(s: Sys, t: Sys, a: Agent)
    requires Moved(s, t, a) && Backed(PcOf(t, a)) == Backed(PcOf(s, a))
    ensures Owns(t, a.node) == Owns(s, a.node)
  {
    BackedSet(s, t, a);
    assert BackedAt(t, a.node) == BackedAt(s, a.node);
  }

  /** A reader beside a, when the count shows more than a itself. */
  lemma AnotherReader(s: Sys, a: Agent) returns (b: Agent)
    requires NodeInv(s, a.node) && s.nodes[a.node].refs > (if PcOf(s, a) == Holding(S) then 1 else 0)
    requires !PcOf(s, a).SPublish?
    ensures b != a && b in BackedAt(s, a.node) && Busy(PcOf(s, b))
  {
    assert Settled(PcOf(s, a));
    GroupedIsExact(s, a.node);
    b := OneMoreReader(s, a);
    assert Settled(PcOf(s, b));
  }

  lemma OneMoreReader(s: Sys, a: Agent) returns (b: Agent)
    requires |ReadersAt(s, a.node)| > (if PcOf(s, a) == Holding(S) then 1 else 0)
    requires !PcOf(s, a).SPublish? && !PcOf(s, a).SUndo?
    ensures b != a && b in ReadersAt(s, a.node)
  {
    var rest := ReadersAt(s, a.node) - {a};
    assert a in ReadersAt(s, a.node) <==> PcOf(s, a) == Holding(S);
    assert |rest| > 0;
    b :| b in rest;
  }

  lemma FollowOwns(s: Sys, t: Sys, a: Agent)
    requires NodeInv(s, a.node) && Moved(s, t, a)
    requires
      || (PcOf(s, a).SCas? && s.nodes[a.node].refs > 0 && PcOf(t, a) == Holding(S))
      || (PcOf(s, a) == Holding(S) && s.nodes[a.node].refs > 1 && PcOf(t, a) == Leave(S))
    ensures Owns(t, a.node) == Owns(s, a.node) == 1
  {
    hide NodeInv;
    var b := AnotherReader(s, a);
    BackedSet(s, t, a);
    assert b in BackedAt(t, a.node);
  }

  /** A leader that takes a unit, from the word or from the token, is the first on its node to have one. */
  lemma LeaderAlone(s: Sys, a: Agent)
    requires NodeInv(s, a.node) && PcOf(s, a) in {Contend(S), TakeToken(S)}
    ensures BackedAt(s, a.node) == {}
  {
    hide NodeInv;
    forall b ensures b !in BackedAt(s, a.node) {
      if b in s.pc && b.node == a.node && Backed(s.pc[b]) { LeaderOnly(s, a, b); }
    }
  }

  /** The last reader out is the only call behind the unit it gives back or parks. */
  lemma ReleaserAlone(s: Sys, a: Agent)
    requires NodeInv(s, a.node) && PcOf(s, a) in {PutWord(S), Park(S)}
    ensures BackedAt(s, a.node) == {a}
  {
    hide NodeInv;
    forall b ensures b in BackedAt(s, a.node) <==> b == a {
      if b in s.pc && b.node == a.node && Backed(s.pc[b]) { ReleaserOnly(s, a, b); }
    }
  }

  /** What a step does to the readers' unit. */
  function OwnsDelta(p: Pc, q: Pc): int {
    if (p == Contend(S) && q == Got(S)) || (p == TakeToken(S) && q == Inherit(S)) then 1
    else if q == After(S) && (p == PutWord(S) || p == Park(S)) then -1
    else 0
  }

  predicate OwnsStep(s: Sys, t: Sys, a: Agent) {
    Owns(t, a.node) == Owns(s, a.node) + OwnsDelta(PcOf(s, a), PcOf(t, a))
  }

  lemma TakeOwns(s: Sys, t: Sys, a: Agent)
    requires NodeInv(s, a.node) && Moved(s, t, a)
    requires (PcOf(s, a), PcOf(t, a)) in {(Contend(S), Got(S)), (TakeToken(S), Inherit(S))}
    ensures OwnsStep(s, t, a)
  {
    hide NodeInv;
    LeaderAlone(s, a);
    BackedSet(s, t, a);
  }

  lemma PutOwns(s: Sys, t: Sys, a: Agent)
    requires NodeInv(s, a.node) && Moved(s, t, a) && PcOf(s, a) in {PutWord(S), Park(S)} && PcOf(t, a) == After(S)
    ensures OwnsStep(s, t, a)
  {
    hide NodeInv;
    ReleaserAlone(s, a);
    BackedSet(s, t, a);
  }

  lemma EnteringOwns(u: Usage, s: Sys, t: Sys, a: Agent)
    requires NodeInv(s, a.node) && Moved(s, t, a) && (EnterStep(u, s, t, a) || ClaimStep(s, t, a))
    ensures OwnsStep(s, t, a)
  {
    assert Settled(PcOf(s, a));
    EnteringEnds(u, s, t, a);
    hide NodeInv, Owns, EnterStep, ClaimStep, OwnsDelta, Moved, Carries, Busy;
    if Backed(PcOf(t, a)) != Backed(PcOf(s, a)) {
      FollowOwns(s, t, a);
    } else {
      OwnsQuiet(s, t, a);
    }
  }

  /** Of the steps on a token only taking an S token changes what the readers have. */
  lemma TokenEnds(s: Sys, t: Sys, a: Agent)
    requires a.node < |s.nodes| && TokenStep(s, t, a)
    ensures var p, q := PcOf(s, a), PcOf(t, a);
      if q == Inherit(S) then p == TakeToken(S) else Backed(q) == Backed(p) && OwnsDelta(p, q) == 0
  {
  }

  lemma TokenOwns(s: Sys, t: Sys, a: Agent)
    requires NodeInv(s, a.node) && Moved(s, t, a) && TokenStep(s, t, a)
    ensures OwnsStep(s, t, a)
  {
    assert a.node < |s.nodes|;
    hide NodeInv, Owns, TokenStep, Moved, Backed, OwnsDelta;
    TokenEnds(s, t, a);
    if PcOf(t, a) == Inherit(S) {
      hide OwnsStep;
      TakeOwns(s, t, a);
    } else {
      OwnsQuiet(s, t, a);
    }
  }

  lemma ContendOwns(u: Usage, s: Sys, t: Sys, a: Agent)
    requires NodeInv(s, a.node) && Moved(s, t, a) && ContendStep(u, s, t, a)
    ensures OwnsStep(s, t, a)
  {
    hide NodeInv, Owns;
    if PcOf(s, a) == Contend(S) && PcOf(t, a).Got? {
      hide OwnsStep;
      TakeOwns(s, t, a);
    } else {
      OwnsQuiet(s, t, a);
    }
  }

  /** A reader's unlock finds its lane and its reference. */
  lemma HolderUnlocks(u: Usage, s: Sys, t: Sys, a: Agent)
    requires NodeInv(s, a.node) && PcOf(s, a) == Holding(S) && UnlockSharedStep(u, s, t, a)
    ensures PcOf(t, a) == if s.nodes[a.node].refs > 1 then Leave(S) else Release
  {
    SharedLane(s, a, {});
    ReaderCounted(s, a);
    hide NodeInv, LocalOk, Grouped;
  }

  lemma ReleaseEnds(u: Usage, s: Sys, t: Sys, a: Agent)
    requires a.node < |s.nodes| && UnlockSharedStep(u, s, t, a) && Settled(PcOf(s, a)) && PcOf(s, a) != Holding(S)
    ensures Backed(PcOf(s, a)) && Backed(PcOf(t, a)) && OwnsDelta(PcOf(s, a), PcOf(t, a)) == 0
  {
  }

  lemma HolderOwns(u: Usage, s: Sys, t: Sys, a: Agent)
    requires NodeInv(s, a.node) && Moved(s, t, a) && UnlockSharedStep(u, s, t, a) && PcOf(s, a) == Holding(S)
    ensures OwnsStep(s, t, a)
  {
    HolderUnlocks(u, s, t, a);
    hide NodeInv, Owns, UnlockSharedStep, Moved;
    if s.nodes[a.node].refs > 1 { FollowOwns(s, t, a); } else { OwnsQuiet(s, t, a); }
  }

  lemma UnlockSharedOwns(u: Usage, s: Sys, t: Sys, a: Agent)
    requires NodeInv(s, a.node) && Moved(s, t, a) && UnlockSharedStep(u, s, t, a)
    ensures OwnsStep(s, t, a)
  {
    assert a.node < |s.nodes|;
    hide NodeInv, Owns, UnlockSharedStep, Moved, Settled, Backed, OwnsDelta;
    if PcOf(s, a) == Holding(S) {
      hide OwnsStep;
      HolderOwns(u, s, t, a);
    } else {
      NodeAt(s, a);
      ReleaseEnds(u, s, t, a);
      OwnsQuiet(s, t, a);
    }
  }

  lemma GiveBackEnds(s: Sys, t: Sys, a: Agent)
    requires a.node < |s.nodes| && GiveBackStep(s, t, a) && Settled(PcOf(s, a)) && Plain(PcOf(s, a))
    ensures var p, q := PcOf(s, a), PcOf(t, a);
      if p in {PutWord(S), Park(S)} && q == After(S) then true else Backed(q) == Backed(p) && OwnsDelta(p, q) == 0
  {
  }

  lemma GiveBackOwns(s: Sys, t: Sys, a: Agent)
    requires NodeInv(s, a.node) && Moved(s, t, a) && GiveBackStep(s, t, a)
    ensures OwnsStep(s, t, a)
  {
    assert Settled(PcOf(s, a)) && Plain(PcOf(s, a));
    GiveBackEnds(s, t, a);
    hide NodeInv, Owns, GiveBackStep, Moved, Backed, OwnsDelta;
    if PcOf(s, a) in {PutWord(S), Park(S)} && PcOf(t, a) == After(S) {
      hide OwnsStep;
      PutOwns(s, t, a);
    } else {
      OwnsQuiet(s, t, a);
    }
  }

  lemma LeavingOwns(u: Usage, s: Sys, t: Sys, a: Agent)
    requires NodeInv(s, a.node) && Moved(s, t, a)
    requires UnlockExclusiveStep(u, s, t, a) || LeaveStep(s, t, a)
    ensures OwnsStep(s, t, a)
  {
    if PcOf(s, a) == Leave(S) { SharedLane(s, a, {}); }
    hide NodeInv, Owns;
    OwnsQuiet(s, t, a);
  }

  lemma StepOwns(u: Usage, s: Sys, t: Sys, a: Agent)
    requires NodeInv(s, a.node) && AgentStep(u, s, t, a)
    ensures OwnsStep(s, t, a)
  {
    StepMoves(u, s, t, a);
    hide NodeInv, Moved, OwnsStep;
    hide EnterStep, TokenStep, UnlockExclusiveStep, LeaveStep, ClaimStep, ContendStep, UnlockSharedStep, GiveBackStep;
    if EnterStep(u, s, t, a) || ClaimStep(s, t, a) { EnteringOwns(u, s, t, a); }
    else if TokenStep(s, t, a) { TokenOwns(s, t, a); }
    else if ContendStep(u, s, t, a) { ContendOwns(u, s, t, a); }
    else if UnlockSharedStep(u, s, t, a) { UnlockSharedOwns(u, s, t, a); }
    else if GiveBackStep(s, t, a) { GiveBackOwns(s, t, a); }
    else { LeavingOwns(u, s, t, a); }
  }

  // ---- each step balances ------------------------------------------------------------------------

  /** What the call's own move, the token and the readers' unit gain is what the word gives, less what is dropped. */
  predicate Balanced(s: Sys, t: Sys, a: Agent, m: Mode)
    requires a.node < |s.nodes| == |t.nodes|
  {
    var p, q := PcOf(s, a), PcOf(t, a);
    Bit(Single(q, m)) - Bit(Single(p, m))
    + Bit(t.nodes[a.node].token == Parked(m)) - Bit(s.nodes[a.node].token == Parked(m))
    + (if m == S then OwnsDelta(p, q) else 0) + Drop(s, t, a, m) == UnitDelta(p, q, m)
  }

  lemma EnteringBalances(u: Usage, s: Sys, t: Sys, a: Agent, m: Mode)
    requires Moved(s, t, a) && (EnterStep(u, s, t, a) || ClaimStep(s, t, a))
    ensures Balanced(s, t, a, m)
  {
  }

  lemma ContendBalances(u: Usage, s: Sys, t: Sys, a: Agent, m: Mode)
    requires Moved(s, t, a) && Plain(PcOf(s, a)) && Settled(PcOf(s, a)) && ContendStep(u, s, t, a)
    ensures Balanced(s, t, a, m)
  {
  }

  lemma TokenBalances(s: Sys, t: Sys, a: Agent, m: Mode)
    requires Moved(s, t, a) && Plain(PcOf(s, a)) && TokenStep(s, t, a)
    ensures Balanced(s, t, a, m)
  {
  }

  lemma UnlockSharedBalances(u: Usage, s: Sys, t: Sys, a: Agent, m: Mode)
    requires Moved(s, t, a) && Settled(PcOf(s, a)) && UnlockSharedStep(u, s, t, a)
    ensures Balanced(s, t, a, m)
  {
  }

  lemma UnlockExclusiveBalances(u: Usage, s: Sys, t: Sys, a: Agent, m: Mode)
    requires Moved(s, t, a) && Plain(PcOf(s, a)) && UnlockExclusiveStep(u, s, t, a)
    ensures Balanced(s, t, a, m)
  {
  }

  lemma LeavingBalances(s: Sys, t: Sys, a: Agent, m: Mode)
    requires Moved(s, t, a) && Plain(PcOf(s, a)) && LeaveStep(s, t, a)
    ensures Balanced(s, t, a, m)
  {
  }

  lemma GiveBackBalances(s: Sys, t: Sys, a: Agent, m: Mode)
    requires Moved(s, t, a) && Plain(PcOf(s, a)) && Settled(PcOf(s, a)) && GiveBackStep(s, t, a)
    requires Busy(PcOf(s, a)) ==> s.nodes[a.node].token == NoToken
    ensures Balanced(s, t, a, m)
  {
  }

  lemma StepBalances(u: Usage, s: Sys, t: Sys, a: Agent, m: Mode)
    requires NodeInv(s, a.node) && TokenFree(s, a.node) && AgentStep(u, s, t, a) && Moved(s, t, a)
    ensures Balanced(s, t, a, m)
  {
    assert Plain(PcOf(s, a)) && Settled(PcOf(s, a)) && (Busy(PcOf(s, a)) ==> s.nodes[a.node].token == NoToken);
    hide NodeInv, TokenFree, Balanced, Plain, Settled, Busy;
    hide EnterStep, TokenStep, UnlockExclusiveStep, LeaveStep, ClaimStep, ContendStep, UnlockSharedStep, GiveBackStep;
    if EnterStep(u, s, t, a) || ClaimStep(s, t, a) { EnteringBalances(u, s, t, a, m); }
    else if ContendStep(u, s, t, a) { ContendBalances(u, s, t, a, m); }
    else if TokenStep(s, t, a) { TokenBalances(s, t, a, m); }
    else if GiveBackStep(s, t, a) { GiveBackBalances(s, t, a, m); }
    else if UnlockSharedStep(u, s, t, a) { UnlockSharedBalances(u, s, t, a, m); }
    else if UnlockExclusiveStep(u, s, t, a) { UnlockExclusiveBalances(u, s, t, a, m); }
    else { LeavingBalances(s, t, a, m); }
  }

  lemma SinglesSet(s: Sys, t: Sys, a: Agent, m: Mode)
    requires Moved(s, t, a)
    ensures SinglesAt(t, a.node, m) ==
      if Single(PcOf(t, a), m) then SinglesAt(s, a.node, m) + {a} else SinglesAt(s, a.node, m) - {a}
    ensures a in SinglesAt(s, a.node, m) <==> Single(PcOf(s, a), m)
  {
  }

  lemma SinglesTotal(s: Sys, t: Sys, a: Agent, m: Mode)
    requires Moved(s, t, a)
    ensures |SinglesAt(t, a.node, m)| ==
      |SinglesAt(s, a.node, m)| + Bit(Single(PcOf(t, a), m)) - Bit(Single(PcOf(s, a), m))
  {
    SinglesSet(s, t, a, m);
    hide SinglesAt, Single, Moved;
    var before := SinglesAt(s, a.node, m);
    assert a in before ==> before + {a} == before;
    assert a !in before ==> before - {a} == before;
  }

  lemma StepWith(u: Usage, s: Sys, t: Sys, a: Agent, m: Mode)
    requires NodeInv(s, a.node) && TokenFree(s, a.node) && AgentStep(u, s, t, a) && Moved(s, t, a)
    ensures With(t, a.node, m) + Drop(s, t, a, m) ==
      With(s, a.node, m) + UnitDelta(PcOf(s, a), PcOf(t, a), m)
  {
    hide NodeInv, TokenFree, AgentStep, SinglesAt, Single, Owns, OwnsDelta, UnitDelta, Drop, Bit;
    StepBalances(u, s, t, a, m);
    StepOwns(u, s, t, a);
    SinglesTotal(s, t, a, m);
  }

  lemma WithElsewhere(s: Sys, t: Sys, a: Agent, m: Mode, n: nat)
    requires Moved(s, t, a) && n != a.node && n < |s.nodes|
    ensures With(t, n, m) == With(s, n, m)
  {
    assert BackedAt(t, n) == BackedAt(s, n);
    assert SinglesAt(t, n, m) == SinglesAt(s, n, m);
  }

  lemma FreeElsewhere(s: Sys, t: Sys, a: Agent, n: nat)
    requires Moved(s, t, a) && n != a.node && TokenFree(s, n)
    ensures TokenFree(t, n)
  {
    forall b: Agent | b.node == n
      ensures !Carries(PcOf(t, b), SX) && (Busy(PcOf(t, b)) ==> t.nodes[n].token == NoToken)
    {
      assert PcOf(t, b) == PcOf(s, b);
    }
  }

  lemma NothingWith(s: Sys, n: nat, m: Mode)
    requires Init(s) && n < |s.nodes|
    ensures With(s, n, m) == 0 && TokenFree(s, n)
  {
    assert BackedAt(s, n) == {} && SinglesAt(s, n, m) == {};
  }

  /**
  At any node that keeps to Plain, whatever the others do, in every run: the
  units of each mode it took from the shared word and did not give back are
  those with its calls and token, and those its release handler dropped.
  */
  lemma {:induction false} NodeAccount(u: Usage, run: seq<Sys>, i: nat, m: Mode, n: nat)
    requires IsRun(u, run) && i < |run| && n < |run[0].nodes| && PlainRun(run, i, n)
    ensures n < |run[i].nodes| && TokenFree(run[i], n)
    ensures Out(run, i, m, n) == With(run[i], n, m) + Dropped(run, i, m, n)
    decreases i
  {
    hide NodeInv, TokenFree, AgentStep, Plain, UnitDelta, StepDelta, With, Drop, Init;
    if i == 0 {
      NothingWith(run[0], n, m);
    } else {
      var s, t := run[i - 1], run[i];
      NodeAccount(u, run, i - 1, m, n);
      RunGroups(u, run, i - 1, n);
      assert Next(u, s, t);
      var a :| AgentStep(u, s, t, a);
      StepMoves(u, s, t, a);
      DeltaIsCallers(s, t, a, m, n);
      DropIsCallers(s, t, a, m, n);
      if a.node == n {
        StepWith(u, s, t, a, m);
        StepFree(u, s, t, a);
      } else {
        WithElsewhere(s, t, a, m, n);
        FreeElsewhere(s, t, a, n);
      }
    }
  }

  /** Readers and token never have a unit each, so the node is never behind two S units at a time. */
  lemma OneUnitAtATime(s: Sys, n: nat)
    requires TokenFree(s, n)
    ensures Owns(s, n) + Bit(s.nodes[n].token == Parked(S)) <= 1
  {
    if a :| a in BackedAt(s, n) { assert Busy(PcOf(s, a)); }
  }
}
