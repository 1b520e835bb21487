/**
Readers of one node share one global S. On any node whose own callers use no SX
and whose failed leaders, if any, clean up in one step, the sharing is exact,
whatever the other nodes do: the reference count is the number of readers and
at most one call leads.
*/
module ReaderGrouping {
  import opened LocalWord
  import opened TwoLevelLock
  import opened TwoLevelCustody
  import opened TwoLevelLedger

  /** What a call does for its node's global S. */
  datatype Role = Leading | Publishing | Reading | Releasing | Other

  function RoleOf(p: Pc): Role {
    match p
    case TakeToken(m) => if m == S then Leading else Other
    case Inherit(m) => if m == S then Leading else Other
    case DropReserve(_, g) => if g == ForLock(S) then Leading else Other
    case DropOwner(_, g) => if g == ForLock(S) then Leading else Other
    case DropWord(_, g) => if g == ForLock(S) then Leading else Other
    case Contend(m) => if m == S then Leading else Other
    case Got(m) => if m == S then Leading else Other
    case SFail => Leading
    case SPublish => Publishing
    case Holding(m) => if m == S then Reading else Other
    case SUndo => Reading
    case Release => Releasing
    case ClearToken(m) => if m == S then Releasing else Other
    case PutWord(m) => if m == S then Releasing else Other
    case SOver => Releasing
    case Refused(m) => if m == S then Releasing else Other
    case Park(m) => if m == S then Releasing else Other
    case After(m) => if m == S then Releasing else Other
    case _ => Other
  }

  function InRole(s: Sys, n: nat, r: Role): set<Agent> {
    set a | a in s.pc && a.node == n && RoleOf(s.pc[a]) == r
  }

  /** The phases of a node's global S, by how many calls play each role. */
  predicate Shape(nd: Node, leading: nat, publishing: nat, reading: nat, releasing: nat) {
    && nd.refs == publishing + reading
    && match nd.gstate
       case GIdle => leading == publishing == reading == releasing == 0
       case GPending => leading + publishing == 1 && releasing == 0 && (publishing == 0 ==> reading == 0)
       case GHeld => leading == publishing == 0 && (if reading > 0 then releasing == 0 else releasing == 1)
  }

  predicate Grouped(s: Sys, n: nat)
    requires n < |s.nodes|
  {
    Shape(s.nodes[n], |InRole(s, n, Leading)|, |InRole(s, n, Publishing)|, |InRole(s, n, Reading)|,
          |InRole(s, n, Releasing)|)
  }

  /** What is asked of the node's callers: no SX, and no leader between two cleanup stores. */
  predicate Plain(p: Pc) { LocalMode(p) != Just(SX) && !p.SFailRef? }

  /** Node n kept to that in every state so far. */
  ghost predicate PlainRun(run: seq<Sys>, i: nat, n: nat)
    requires i < |run|
  {
    forall j: nat, a: Agent :: j <= i && a.node == n ==> Plain(PcOf(run[j], a))
  }

  /** Places that its calls then never reach, stray unlocks among them. */
  predicate Settled(p: Pc) {
    match p
    case SUndo => false
    case SRef(ref) => ref > 0
    case SCas(ref) => ref > 0
    case PutOwner(m) => m != S
    case CheckOwner(m) => m != S
    case _ => true
  }

  ghost predicate NodeInv(s: Sys, n: nat) {
    && n < |s.nodes| && LocalOk(s, {}, n) && Grouped(s, n)
    && forall a: Agent :: a.node == n ==> Plain(PcOf(s, a)) && Settled(PcOf(s, a))
  }

  // ---- counting roles ------------------------------------------------------------

  lemma RoleSet(s: Sys, t: Sys, a: Agent, r: Role)
    requires Moved(s, t, a) && r != Other
    ensures InRole(t, a.node, r) ==
      if RoleOf(PcOf(t, a)) == r then InRole(s, a.node, r) + {a} else InRole(s, a.node, r) - {a}
    ensures a in InRole(s, a.node, r) <==> RoleOf(PcOf(s, a)) == r
  {
  }

  function Delta(p: Pc, q: Pc, r: Role): int {
    (if RoleOf(q) == r then 1 else 0) - (if RoleOf(p) == r then 1 else 0)
  }

  lemma RoleCount(s: Sys, t: Sys, a: Agent, r: Role)
    requires Moved(s, t, a) && r != Other
    ensures |InRole(t, a.node, r)| == |InRole(s, a.node, r)| + Delta(PcOf(s, a), PcOf(t, a), r)
    ensures RoleOf(PcOf(s, a)) == r ==> |InRole(s, a.node, r)| > 0
  {
    RoleSet(s, t, a, r);
  }

  lemma RoleStays(s: Sys, t: Sys, a: Agent, r: Role)
    requires Moved(s, t, a) && r != Other && RoleOf(PcOf(t, a)) == RoleOf(PcOf(s, a))
    ensures InRole(t, a.node, r) == InRole(s, a.node, r)
  {
    RoleSet(s, t, a, r);
  }

  /** A call that keeps its role, on a node whose count and state stay. */
  lemma SameRole(s: Sys, t: Sys, a: Agent)
    requires Moved(s, t, a) && Grouped(s, a.node)
    requires RoleOf(PcOf(t, a)) == RoleOf(PcOf(s, a))
    requires t.nodes[a.node].refs == s.nodes[a.node].refs && t.nodes[a.node].gstate == s.nodes[a.node].gstate
    ensures Grouped(t, a.node)
  {
    RoleStays(s, t, a, Leading);
    RoleStays(s, t, a, Publishing);
    RoleStays(s, t, a, Reading);
    RoleStays(s, t, a, Releasing);
    hide InRole;
  }

  lemma Regroup(s: Sys, t: Sys, a: Agent)
    requires Moved(s, t, a) && Grouped(s, a.node)
    requires var n := a.node; var p, q := PcOf(s, a), PcOf(t, a);
      forall l: nat, pub: nat, r: nat, rel: nat ::
        Shape(s.nodes[n], l, pub, r, rel)
        && (RoleOf(p) == Leading ==> l > 0) && (RoleOf(p) == Publishing ==> pub > 0)
        && (RoleOf(p) == Reading ==> r > 0) && (RoleOf(p) == Releasing ==> rel > 0)
        ==> Shape(t.nodes[n], l + Delta(p, q, Leading), pub + Delta(p, q, Publishing),
                  r + Delta(p, q, Reading), rel + Delta(p, q, Releasing))
    ensures Grouped(t, a.node)
  {
    RoleCount(s, t, a, Leading);
    RoleCount(s, t, a, Publishing);
    RoleCount(s, t, a, Reading);
    RoleCount(s, t, a, Releasing);
    hide InRole, Delta;
  }

  // ---- the steps of the node's own calls ------------------------------------------------

  lemma ClaimGroups(s: Sys, t: Sys, a: Agent)
    requires a.node < |s.nodes| && Grouped(s, a.node) && ClaimStep(s, t, a) && Settled(PcOf(s, a))
    ensures Moved(s, t, a) && Grouped(t, a.node)
  {
    hide Grouped;
    ClaimMoves(s, t, a);
    if PcOf(t, a).TakeToken? || PcOf(t, a).Holding? {
      Regroup(s, t, a);
    } else {
      SameRole(s, t, a);
    }
  }

  lemma ContendGroups(u: Usage, s: Sys, t: Sys, a: Agent)
    requires a.node < |s.nodes| && Grouped(s, a.node) && ContendStep(u, s, t, a)
    requires Plain(PcOf(s, a)) && Plain(PcOf(t, a)) && Settled(PcOf(s, a))
    ensures Moved(s, t, a) && Grouped(t, a.node)
  {
    hide Grouped;
    ContendMoves(u, s, t, a);
    if PcOf(s, a) == Got(S) || PcOf(s, a).SPublish? || PcOf(s, a).SFail? {
      Regroup(s, t, a);
    } else {
      SameRole(s, t, a);
    }
  }

  /** A reader always finds its own reference counted, so the undo branch is never taken. */
  lemma ReaderCounted(s: Sys, a: Agent)
    requires a.node < |s.nodes| && Grouped(s, a.node) && PcOf(s, a) == Holding(S)
    ensures s.nodes[a.node].refs > 0
  {
    assert a in InRole(s, a.node, Reading);
    assert |InRole(s, a.node, Reading)| > 0;
  }

  lemma UnlockSharedGroups(u: Usage, s: Sys, t: Sys, a: Agent)
    requires a.node < |s.nodes| && Grouped(s, a.node) && LocalOk(s, {}, a.node) && UnlockSharedStep(u, s, t, a)
    requires Settled(PcOf(s, a))
    ensures Moved(s, t, a) && Grouped(t, a.node) && !PcOf(t, a).SUndo?
  {
    hide Grouped, LocalOk;
    UnlockMoves(u, s, t, a);
    if PcOf(s, a) == Holding(S) {
      SharedLane(s, a, {});
      ReaderCounted(s, a);
      Regroup(s, t, a);
    } else {
      SameRole(s, t, a);
    }
  }

  /** While a call holds the local X, nobody on the node plays any part in its global S. */
  lemma ExclusiveMeansIdle(s: Sys, a: Agent)
    requires a.node < |s.nodes| && LocalOk(s, {}, a.node) && Grouped(s, a.node) && LocalMode(PcOf(s, a)) == Just(X)
    ensures s.nodes[a.node].gstate == GIdle
  {
    hide Agrees;
    var n := a.node;
    DropExclusive(s.nodes[n].word, LocalAt(s, n, S), LocalAt(s, n, SX) + OrphansAt({}, n), LocalAt(s, n, X), a);
    forall r: Role | r != Other ensures InRole(s, n, r) == {} {
      forall b ensures b !in InRole(s, n, r) {
        assert b in s.pc && b.node == n && RoleOf(s.pc[b]) != Other ==> b in LocalAt(s, n, S);
      }
    }
  }

  lemma GiveBackGroups(s: Sys, t: Sys, a: Agent)
    requires a.node < |s.nodes| && LocalOk(s, {}, a.node) && Grouped(s, a.node) && GiveBackStep(s, t, a)
    requires Plain(PcOf(s, a)) && Settled(PcOf(s, a))
    ensures Moved(s, t, a) && Grouped(t, a.node)
  {
    hide Grouped, LocalOk;
    GiveBackMoves(s, t, a);
    if PcOf(s, a) == After(S) {
      Regroup(s, t, a);
    } else {
      if PcOf(s, a) == After(X) { ExclusiveMeansIdle(s, a); }
      SameRole(s, t, a);
    }
  }

  lemma EnteringGroups(u: Usage, s: Sys, t: Sys, a: Agent)
    requires a.node < |s.nodes| && Grouped(s, a.node) && EnterStep(u, s, t, a)
    ensures Moved(s, t, a) && Grouped(t, a.node)
  {
    hide Grouped;
    EnterMoves(u, s, t, a);
    SameRole(s, t, a);
  }

  lemma TokenFrame(s: Sys, t: Sys, a: Agent)
    requires a.node < |s.nodes| && TokenStep(s, t, a)
    ensures |t.nodes| == |s.nodes|
    ensures t.nodes[a.node].refs == s.nodes[a.node].refs && t.nodes[a.node].gstate == s.nodes[a.node].gstate
  {
  }

  lemma TokenRole(s: Sys, t: Sys, a: Agent)
    requires a.node < |s.nodes| && TokenStep(s, t, a)
    ensures RoleOf(PcOf(t, a)) == RoleOf(PcOf(s, a))
  {
  }

  lemma TokenGroups(s: Sys, t: Sys, a: Agent)
    requires a.node < |s.nodes| && Grouped(s, a.node) && TokenStep(s, t, a)
    ensures Moved(s, t, a) && Grouped(t, a.node)
  {
    hide Grouped, TokenStep, RoleOf;
    TokenMoves(s, t, a);
    TokenFrame(s, t, a);
    TokenRole(s, t, a);
    SameRole(s, t, a);
  }

  lemma LeavingGroups(u: Usage, s: Sys, t: Sys, a: Agent)
    requires a.node < |s.nodes| && Grouped(s, a.node) && LocalOk(s, {}, a.node) && Plain(PcOf(s, a))
    requires UnlockExclusiveStep(u, s, t, a) || LeaveStep(s, t, a)
    ensures Moved(s, t, a) && Grouped(t, a.node)
  {
    hide Grouped, LocalOk;
    if UnlockExclusiveStep(u, s, t, a) { UnlockMoves(u, s, t, a); } else { LeaveMoves(s, t, a); }
    if PcOf(s, a) == Leave(S) { SharedLane(s, a, {}); }
    SameRole(s, t, a);
  }

  lemma StepGroups(u: Usage, s: Sys, t: Sys, a: Agent)
    requires AgentStep(u, s, t, a) && NodeInv(s, a.node) && Plain(PcOf(t, a))
    ensures Moved(s, t, a) && Grouped(t, a.node) && !PcOf(t, a).SUndo?
  {
    assert Plain(PcOf(s, a)) && Settled(PcOf(s, a));
    hide Grouped, LocalOk, Moved;
    hide EnterStep, TokenStep, UnlockExclusiveStep, LeaveStep, ClaimStep, ContendStep, UnlockSharedStep, GiveBackStep;
    if UnlockSharedStep(u, s, t, a) {
      UnlockSharedGroups(u, s, t, a);
    } else {
      OnlyUnlockUndoes(u, s, t, a);
      if ClaimStep(s, t, a) {
        ClaimGroups(s, t, a);
      } else if ContendStep(u, s, t, a) {
        ContendGroups(u, s, t, a);
      } else if GiveBackStep(s, t, a) {
        GiveBackGroups(s, t, a);
      } else if EnterStep(u, s, t, a) {
        EnteringGroups(u, s, t, a);
      } else if TokenStep(s, t, a) {
        TokenGroups(s, t, a);
      } else {
        LeavingGroups(u, s, t, a);
      }
    }
  }

  lemma OnlyUnlockUndoes(u: Usage, s: Sys, t: Sys, a: Agent)
    requires AgentStep(u, s, t, a) && !UnlockSharedStep(u, s, t, a)
    ensures !PcOf(t, a).SUndo?
  {
  }

  // ---- the local lock and the places of the node's calls --------------------------------------

  lemma EnterLocal(u: Usage, s: Sys, t: Sys, a: Agent)
    requires a.node < |s.nodes| && LocalOk(s, {}, a.node) && EnterStep(u, s, t, a) && Plain(PcOf(t, a))
    ensures Moved(s, t, a) && LocalOk(t, {}, a.node)
  {
    hide LocalOk;
    EnterMoves(u, s, t, a);
    if PcOf(t, a).SEnter? { EnterShared(s, t, a, {}); }
    else if PcOf(t, a).HTake? { LocalUnmoved(s, t, a, {}, a.node); }
    else { EnterExclusive(s, t, a, {}); }
  }

  lemma LeaveLocal(s: Sys, t: Sys, a: Agent)
    requires a.node < |s.nodes| && LocalOk(s, {}, a.node) && LeaveStep(s, t, a) && Plain(PcOf(s, a))
    ensures Moved(s, t, a) && LocalOk(t, {}, a.node)
  {
    hide LocalOk;
    LeaveMoves(s, t, a);
    if PcOf(s, a).mode == S {
      SharedLane(s, a, {});
      LeaveShared(s, t, a, {});
    } else {
      LeaveExclusive(s, t, a, {});
    }
  }

  /** Every other step leaves the local word alone and keeps what its caller holds of it. */
  lemma LockingKeepsMode(u: Usage, s: Sys, t: Sys, a: Agent)
    requires a.node < |s.nodes| && |t.nodes| == |s.nodes| && (ClaimStep(s, t, a) || ContendStep(u, s, t, a))
    ensures t.nodes[a.node].word == s.nodes[a.node].word && LocalMode(PcOf(t, a)) == LocalMode(PcOf(s, a))
  {
  }

  lemma UnlockingKeepsMode(u: Usage, s: Sys, t: Sys, a: Agent)
    requires a.node < |s.nodes| && |t.nodes| == |s.nodes| && Plain(PcOf(s, a))
    requires UnlockSharedStep(u, s, t, a) || UnlockExclusiveStep(u, s, t, a) || GiveBackStep(s, t, a)
    ensures t.nodes[a.node].word == s.nodes[a.node].word && LocalMode(PcOf(t, a)) == LocalMode(PcOf(s, a))
  {
  }

  lemma TokenKeepsMode(s: Sys, t: Sys, a: Agent)
    requires a.node < |s.nodes| && |t.nodes| == |s.nodes| && TokenStep(s, t, a)
    ensures t.nodes[a.node].word == s.nodes[a.node].word && LocalMode(PcOf(t, a)) == LocalMode(PcOf(s, a))
  {
  }

  lemma StepLocal(u: Usage, s: Sys, t: Sys, a: Agent)
    requires AgentStep(u, s, t, a) && LocalOk(s, {}, a.node) && Plain(PcOf(s, a)) && Plain(PcOf(t, a))
    ensures Moved(s, t, a) && LocalOk(t, {}, a.node)
  {
    hide LocalOk, Moved, LocalMode;
    hide EnterStep, TokenStep, UnlockExclusiveStep, LeaveStep, ClaimStep, ContendStep, UnlockSharedStep, GiveBackStep;
    StepMoves(u, s, t, a);
    MovedSize(s, t, a);
    if EnterStep(u, s, t, a) {
      EnterLocal(u, s, t, a);
    } else if LeaveStep(s, t, a) {
      LeaveLocal(s, t, a);
    } else {
      if TokenStep(s, t, a) { TokenKeepsMode(s, t, a); }
      else if ClaimStep(s, t, a) || ContendStep(u, s, t, a) { LockingKeepsMode(u, s, t, a); }
      else { UnlockingKeepsMode(u, s, t, a); }
      LocalUnmoved(s, t, a, {}, a.node);
    }
  }

  lemma MovedSize(s: Sys, t: Sys, a: Agent)
    requires Moved(s, t, a)
    ensures |t.nodes| == |s.nodes|
  {
  }

  lemma LockingSettles(u: Usage, s: Sys, t: Sys, a: Agent)
    requires a.node < |s.nodes| && Settled(PcOf(s, a))
    requires EnterStep(u, s, t, a) || ClaimStep(s, t, a) || ContendStep(u, s, t, a)
    ensures Settled(PcOf(t, a))
  {
  }

  lemma TokenSettles(s: Sys, t: Sys, a: Agent)
    requires a.node < |s.nodes| && TokenStep(s, t, a)
    ensures Settled(PcOf(t, a))
  {
  }

  lemma UnlockingSettles(u: Usage, s: Sys, t: Sys, a: Agent)
    requires a.node < |s.nodes| && !PcOf(t, a).SUndo?
    requires
      || UnlockSharedStep(u, s, t, a) || UnlockExclusiveStep(u, s, t, a)
      || GiveBackStep(s, t, a) || LeaveStep(s, t, a)
    ensures Settled(PcOf(t, a))
  {
  }

  lemma StepSettles(u: Usage, s: Sys, t: Sys, a: Agent)
    requires AgentStep(u, s, t, a) && Settled(PcOf(s, a)) && !PcOf(t, a).SUndo?
    ensures Settled(PcOf(t, a))
  {
    hide EnterStep, TokenStep, UnlockExclusiveStep, LeaveStep, ClaimStep, ContendStep, UnlockSharedStep, GiveBackStep,
      Settled;
    if EnterStep(u, s, t, a) || ClaimStep(s, t, a) || ContendStep(u, s, t, a) { LockingSettles(u, s, t, a); }
    else if TokenStep(s, t, a) { TokenSettles(s, t, a); }
    else { UnlockingSettles(u, s, t, a); }
  }

  // ---- runs ----------------------------------------------------------------------------------------

  /** A step of another node does not touch this one. */
  lemma Elsewhere(s: Sys, t: Sys, a: Agent, n: nat)
    requires NodeInv(s, n) && Moved(s, t, a) && n != a.node
    ensures NodeInv(t, n)
  {
    LocalUnmoved(s, t, a, {}, n);
    hide LocalOk;
    forall r: Role ensures InRole(t, n, r) == InRole(s, n, r) {}
    forall b: Agent | b.node == n ensures PcOf(t, b) == PcOf(s, b) {}
  }

  lemma Here(u: Usage, s: Sys, t: Sys, a: Agent)
    requires NodeInv(s, a.node) && AgentStep(u, s, t, a) && Plain(PcOf(t, a))
    ensures NodeInv(t, a.node)
  {
    assert Plain(PcOf(s, a)) && Settled(PcOf(s, a));
    hide AgentStep, LocalOk, Grouped, Settled, Plain;
    StepGroups(u, s, t, a);
    StepLocal(u, s, t, a);
    StepSettles(u, s, t, a);
    forall b: Agent | b.node == a.node ensures Plain(PcOf(t, b)) && Settled(PcOf(t, b)) {
      if b != a { assert PcOf(t, b) == PcOf(s, b); }
    }
  }

  lemma InitGroups(s: Sys, n: nat)
    requires Init(s) && n < |s.nodes|
    ensures NodeInv(s, n)
  {
    hide Agrees;
    AgreesWhenEmpty();
    forall r: Role ensures InRole(s, n, r) == {} {}
    assert LocalAt(s, n, S) == {} && LocalAt(s, n, SX) + OrphansAt({}, n) == {} && LocalAt(s, n, X) == {};
  }

  lemma {:induction false} RunGroups(u: Usage, run: seq<Sys>, i: nat, n: nat)
    requires IsRun(u, run) && i < |run| && n < |run[0].nodes| && PlainRun(run, i, n)
    ensures NodeInv(run[i], n)
    decreases i
  {
    hide NodeInv, AgentStep, Init, Plain;
    if i == 0 {
      InitGroups(run[0], n);
    } else {
      RunGroups(u, run, i - 1, n);
      assert Next(u, run[i - 1], run[i]);
      var a :| AgentStep(u, run[i - 1], run[i], a);
      StepMoves(u, run[i - 1], run[i], a);
      if a.node == n { Here(u, run[i - 1], run[i], a); } else { Elsewhere(run[i - 1], run[i], a, n); }
    }
  }

  /** What the shape says: no stray readers, one leader at most, and a call that leads is alone in it. */
  predicate Exact(s: Sys, n: nat)
    requires n < |s.nodes|
  {
    && s.nodes[n].refs == |ReadersAt(s, n)|
    && |InRole(s, n, Leading)| + |InRole(s, n, Publishing)| <= 1
    && |InRole(s, n, Releasing)| <= 1
  }

  lemma GroupedIsExact(s: Sys, n: nat)
    requires n < |s.nodes| && Grouped(s, n)
    ensures Exact(s, n)
  {
    ReadersSplit(s, n);
    hide InRole, ReadersAt;
  }

  lemma ReadersSplit(s: Sys, n: nat)
    ensures |ReadersAt(s, n)| == |InRole(s, n, Publishing)| + |InRole(s, n, Reading)|
  {
    var pub, read := InRole(s, n, Publishing), InRole(s, n, Reading);
    assert ReadersAt(s, n) == pub + read;
    assert pub !! read;
  }

  /**
  Over every run of the code as written, at any node that keeps to Plain, while
  the other nodes use SX, delay releases and fail as they like: the reference
  count equals the node's readers, at most one call leads, at most one releases,
  and no S unlock of the node meets a count that is not positive.
  */
  lemma SharingIsExact(u: Usage, run: seq<Sys>, i: nat, n: nat)
    requires IsRun(u, run) && i < |run| && n < |run[0].nodes| && PlainRun(run, i, n)
    ensures n < |run[i].nodes| && Exact(run[i], n)
    ensures forall a: Agent :: a.node == n ==> !PcOf(run[i], a).SUndo?
  {
    RunGroups(u, run, i, n);
    GroupedIsExact(run[i], n);
    forall a: Agent | a.node == n ensures !PcOf(run[i], a).SUndo? { assert Settled(PcOf(run[i], a)); }
  }

  lemma PlainPrefix(run: seq<Sys>, i: nat, j: nat, n: nat)
    requires j <= i < |run| && PlainRun(run, i, n)
    ensures PlainRun(run, j, n)
  {
  }

  /** If every node keeps to it, no unlock goes stray and the lock excludes. */
  lemma SharingExcludes(u: Usage, run: seq<Sys>, i: nat)
    requires IsRun(u, run) && i < |run|
    requires forall n :: 0 <= n < |run[0].nodes| ==> PlainRun(run, i, n)
    ensures Excludes(run[i]) && NoStray(run, i)
  {
    forall j, a | 0 <= j <= i ensures !PcOf(run[j], a).SUndo? {
      if a.node < |run[0].nodes| {
        PlainPrefix(run, i, j, a.node);
        SharingIsExact(u, run, j, a.node);
      } else {
        NobodyBeyond(u, run, j, a);
      }
    }
    ExclusionUntilStrayUnlock(u, run, i);
  }

  lemma {:induction false} NobodyBeyond(u: Usage, run: seq<Sys>, i: nat, a: Agent)
    requires IsRun(u, run) && i < |run| && a.node >= |run[0].nodes|
    ensures PcOf(run[i], a) == Idle
    decreases i
  {
    hide Init, AgentStep;
    if i == 0 {
      assert run[0].pc == map[] by { InitEmpty(run[0]); }
    } else {
      NobodyBeyond(u, run, i - 1, a);
      NodesStay(u, run, i - 1);
      assert Next(u, run[i - 1], run[i]);
      var b :| AgentStep(u, run[i - 1], run[i], b);
      StepMoves(u, run[i - 1], run[i], b);
    }
  }

  lemma InitEmpty(s: Sys)
    requires Init(s)
    ensures s.pc == map[]
  {
  }
}
