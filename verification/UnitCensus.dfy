/**
The shared word counts units. When every node keeps to Plain, delayed release
included, each unit missing from the word is with one node's readers, with one
call, in one token, or was dropped by a release message that found the local
lock held. Without delayed release nothing is dropped, and the word is FREE
less one for every node that reads, or zero under one writer.
*/
module UnitCensus {
  import opened LocalWord
  import opened TwoLevelLock
  import opened TwoLevelCustody
  import opened TwoLevelLedger
  import opened ReaderGrouping
  import opened NodeUnits

  // ---- units over the first k nodes --------------------------------------------------------

  function OwningBelow(s: Sys, k: nat): set<nat> { set n | 0 <= n < k && BackedAt(s, n) != {} }

  function ParkedBelow(s: Sys, m: Mode, k: nat): set<nat>
    requires k <= |s.nodes|
  {
    set n | 0 <= n < k && s.nodes[n].token == Parked(m)
  }

  function SinglesBelow(s: Sys, m: Mode, k: nat): set<Agent> {
    set a | a in s.pc && a.node < k && Single(s.pc[a], m)
  }

  function UnitsBelow(s: Sys, m: Mode, k: nat): int
    requires k <= |s.nodes|
  {
    |SinglesBelow(s, m, k)| + |ParkedBelow(s, m, k)| + (if m == S then |OwningBelow(s, k)| else 0)
  }

  /** Nodes whose readers have a unit, tokens that hold one, and calls that have one to themselves. */
  function Units(s: Sys, m: Mode): int { UnitsBelow(s, m, |s.nodes|) }

  ghost function LostBelow(run: seq<Sys>, i: nat, m: Mode, k: nat): int
    requires i < |run|
  {
    if k == 0 then 0 else LostBelow(run, i, m, k - 1) + Dropped(run, i, m, k - 1)
  }

  ghost function Lost(run: seq<Sys>, i: nat, m: Mode): int
    requires i < |run|
  {
    LostBelow(run, i, m, |run[0].nodes|)
  }

  /** Every node kept to Plain in every state so far. */
  ghost predicate AllPlain(run: seq<Sys>, i: nat)
    requires i < |run|
  {
    forall n :: 0 <= n < |run[0].nodes| ==> PlainRun(run, i, n)
  }

  lemma SinglesNext(s: Sys, m: Mode, k: nat)
    ensures |SinglesBelow(s, m, k + 1)| == |SinglesBelow(s, m, k)| + |SinglesAt(s, k, m)|
  {
    assert SinglesBelow(s, m, k + 1) == SinglesBelow(s, m, k) + SinglesAt(s, k, m);
    assert SinglesBelow(s, m, k) !! SinglesAt(s, k, m);
  }

  lemma ParkedNext(s: Sys, m: Mode, k: nat)
    requires k < |s.nodes|
    ensures |ParkedBelow(s, m, k + 1)| == |ParkedBelow(s, m, k)| + Bit(s.nodes[k].token == Parked(m))
  {
    if s.nodes[k].token == Parked(m) {
      assert ParkedBelow(s, m, k + 1) == ParkedBelow(s, m, k) + {k};
    } else {
      assert ParkedBelow(s, m, k + 1) == ParkedBelow(s, m, k);
    }
  }

  lemma OwningNext(s: Sys, k: nat)
    ensures |OwningBelow(s, k + 1)| == |OwningBelow(s, k)| + Owns(s, k)
  {
    if BackedAt(s, k) == {} {
      assert OwningBelow(s, k + 1) == OwningBelow(s, k);
    } else {
      assert OwningBelow(s, k + 1) == OwningBelow(s, k) + {k};
    }
  }

  lemma UnitsNext(s: Sys, m: Mode, k: nat)
    requires k < |s.nodes|
    ensures UnitsBelow(s, m, k + 1) == UnitsBelow(s, m, k) + With(s, k, m)
  {
    hide SinglesBelow, SinglesAt, ParkedBelow, OwningBelow, Owns;
    SinglesNext(s, m, k);
    ParkedNext(s, m, k);
    OwningNext(s, k);
  }

  lemma UnitsNone(s: Sys, m: Mode)
    ensures UnitsBelow(s, m, 0) == 0
  {
    assert SinglesBelow(s, m, 0) == {} && ParkedBelow(s, m, 0) == {} && OwningBelow(s, 0) == {};
  }

  lemma {:induction false} SumAccount(u: Usage, run: seq<Sys>, i: nat, m: Mode, k: nat)
    requires IsRun(u, run) && i < |run| && AllPlain(run, i) && k <= |run[0].nodes| == |run[i].nodes|
    ensures SumOut(run, i, m, k) == UnitsBelow(run[i], m, k) + LostBelow(run, i, m, k)
    decreases k
  {
    hide IsRun, Out, Dropped, With, UnitsBelow, PlainRun, TokenFree;
    if k == 0 {
      UnitsNone(run[i], m);
    } else {
      SumAccount(u, run, i, m, k - 1);
      NodeAccount(u, run, i, m, k - 1);
      UnitsNext(run[i], m, k - 1);
    }
  }

  // ---- no SX unit is ever out ----------------------------------------------------------------

  lemma {:induction false} NoUpgradable(u: Usage, run: seq<Sys>, i: nat, n: nat)
    requires IsRun(u, run) && i < |run| && n < |run[0].nodes| && PlainRun(run, i, n)
    ensures Out(run, i, SX, n) == 0 == Dropped(run, i, SX, n)
    decreases i
  {
    hide IsRun, PlainRun, With, TokenFree, Out, Drop;
    NodeAccount(u, run, i, SX, n);
    NoneWith(run[i], n);
    if i > 0 {
      PlainPrefix(run, i, i - 1, n);
      NoUpgradable(u, run, i - 1, n);
      NodeAccount(u, run, i - 1, SX, n);
      forall a: Agent | a.node == n ensures Drop(run[i - 1], run[i], a, SX) == 0 {
        NoneDropped(run[i - 1], run[i], a);
      }
    }
  }

  lemma NoneDropped(s: Sys, t: Sys, a: Agent)
    requires TokenFree(s, a.node)
    ensures Drop(s, t, a, SX) == 0
  {
    assert !Carries(PcOf(s, a), SX);
  }

  lemma NoneWith(s: Sys, n: nat)
    requires TokenFree(s, n)
    ensures With(s, n, SX) == 0
  {
    forall a ensures a !in SinglesAt(s, n, SX) {
      assert a.node == n ==> !Carries(PcOf(s, a), SX);
    }
    assert SinglesAt(s, n, SX) == {};
  }

  lemma {:induction false} NoUpgradableSum(u: Usage, run: seq<Sys>, i: nat, k: nat)
    requires IsRun(u, run) && i < |run| && AllPlain(run, i) && k <= |run[0].nodes|
    ensures SumOut(run, i, SX, k) == 0
    decreases k
  {
    hide IsRun, Out, Dropped, PlainRun;
    if k > 0 {
      NoUpgradableSum(u, run, i, k - 1);
      NoUpgradable(u, run, i, k - 1);
    }
  }

  /**
  The word accounts for every unit: while an X unit is about or lost it is the
  only unit and the word is zero; otherwise the word is FREE less the S units
  about and the S units lost.
  */
  lemma WordAccount(u: Usage, run: seq<Sys>, i: nat)
    requires IsRun(u, run) && i < |run| && AllPlain(run, i)
    ensures var shared, exclusive := Units(run[i], S) + Lost(run, i, S), Units(run[i], X) + Lost(run, i, X);
      if exclusive != 0 then exclusive == 1 && shared == 0 && run[i].word == 0
      else shared >= 0 && run[i].word == FREE - shared
  {
    NodesStay(u, run, i);
    SharingExcludes(u, run, i);
    WordIsLedger(u, run, i);
    SumAccount(u, run, i, S, |run[0].nodes|);
    SumAccount(u, run, i, X, |run[0].nodes|);
    NoUpgradableSum(u, run, i, |run[0].nodes|);
    hide IsRun, AllPlain, UnitsBelow, LostBelow, SumOut, NoStray, Excludes;
  }

  // ---- when the lock is at rest -------------------------------------------------------------------

  /** No call under way and nothing parked. */
  ghost predicate AtRest(s: Sys) {
    && (forall a :: PcOf(s, a) == Idle)
    && (forall n :: 0 <= n < |s.nodes| ==> s.nodes[n].token == NoToken)
  }

  /** A release handler that had taken a token went on while its node's local lock was held. */
  ghost predicate DroppedAt(run: seq<Sys>, j: nat, a: Agent)
    requires 0 < j < |run|
  {
    PcOf(run[j - 1], a).HHeld? && FindsHeld(run[j - 1], run[j], a, PcOf(run[j - 1], a).unit)
  }

  ghost predicate NothingDropped(run: seq<Sys>, i: nat)
    requires i < |run|
  {
    forall j, a :: 0 < j <= i ==> !DroppedAt(run, j, a)
  }

  lemma RestUnits(s: Sys, m: Mode)
    requires AtRest(s)
    ensures Units(s, m) == 0
  {
    forall a ensures a !in SinglesBelow(s, m, |s.nodes|) { assert PcOf(s, a) == Idle; }
    forall n ensures n !in OwningBelow(s, |s.nodes|) {
      forall a ensures a !in BackedAt(s, n) { assert PcOf(s, a) == Idle; }
    }
    assert SinglesBelow(s, m, |s.nodes|) == {} && ParkedBelow(s, m, |s.nodes|) == {};
    assert OwningBelow(s, |s.nodes|) == {};
  }

  lemma {:induction false} DroppedMeans(run: seq<Sys>, i: nat, m: Mode, n: nat)
    requires i < |run|
    ensures Dropped(run, i, m, n) >= 0
    ensures Dropped(run, i, m, n) == 0 <==>
      forall j: nat, a: Agent :: 0 < j <= i && a.node == n && DroppedAt(run, j, a) ==> PcOf(run[j - 1], a).unit != m
    decreases i
  {
    if i > 0 {
      DroppedMeans(run, i - 1, m, n);
      forall a: Agent | a.node == n
        ensures Drop(run[i - 1], run[i], a, m) == 1 <==>
          DroppedAt(run, i, a) && PcOf(run[i - 1], a).unit == m
      {
      }
    }
  }

  lemma {:induction false} LostNone(run: seq<Sys>, i: nat, m: Mode, k: nat)
    requires i < |run| && forall n :: 0 <= n < k ==> Dropped(run, i, m, n) == 0
    ensures LostBelow(run, i, m, k) == 0
    decreases k
  {
    if k > 0 { LostNone(run, i, m, k - 1); }
  }

  lemma {:induction false} LostSome(run: seq<Sys>, i: nat, m: Mode, k: nat, n: nat)
    requires i < |run|
    ensures LostBelow(run, i, m, k) >= 0
    ensures n < k ==> LostBelow(run, i, m, k) >= Dropped(run, i, m, n)
    decreases k
  {
    hide Dropped;
    if k > 0 {
      LostSome(run, i, m, k - 1, n);
      DroppedMeans(run, i, m, k - 1);
    }
  }

  ghost predicate NodeDropsNothing(run: seq<Sys>, i: nat, n: nat)
    requires i < |run|
  {
    forall j: nat, a: Agent :: 0 < j <= i && a.node == n ==> !DroppedAt(run, j, a)
  }

  lemma NodeLost(u: Usage, run: seq<Sys>, i: nat, n: nat)
    requires IsRun(u, run) && i < |run| && n < |run[0].nodes| && PlainRun(run, i, n)
    ensures Dropped(run, i, S, n) == 0 == Dropped(run, i, X, n) <==> NodeDropsNothing(run, i, n)
  {
    NoUpgradable(u, run, i, n);
    hide IsRun, PlainRun, Dropped, Out;
    DroppedMeans(run, i, S, n);
    DroppedMeans(run, i, SX, n);
    DroppedMeans(run, i, X, n);
    hide DroppedAt;
    forall j: nat, a: Agent | 0 < j <= i && a.node == n && DroppedAt(run, j, a)
      ensures PcOf(run[j - 1], a).HHeld?
    {
      DropHeld(run, j, a);
    }
  }

  lemma DropHeld(run: seq<Sys>, j: nat, a: Agent)
    requires 0 < j < |run| && DroppedAt(run, j, a)
    ensures PcOf(run[j - 1], a).HHeld?
  {
  }

  lemma NoneDropBeyond(u: Usage, run: seq<Sys>, i: nat)
    requires IsRun(u, run) && i < |run|
    ensures forall j: nat, a: Agent :: 0 < j <= i && a.node >= |run[0].nodes| ==> !DroppedAt(run, j, a)
  {
    hide IsRun, FindsHeld;
    forall j: nat, a: Agent | 0 < j <= i && a.node >= |run[0].nodes| ensures !DroppedAt(run, j, a) {
      NobodyBeyond(u, run, j - 1, a);
    }
  }

  lemma DropsByNode(u: Usage, run: seq<Sys>, i: nat)
    requires IsRun(u, run) && i < |run|
    ensures NothingDropped(run, i) <==> forall n :: 0 <= n < |run[0].nodes| ==> NodeDropsNothing(run, i, n)
  {
    hide IsRun, DroppedAt;
    NoneDropBeyond(u, run, i);
    if forall n :: 0 <= n < |run[0].nodes| ==> NodeDropsNothing(run, i, n) {
      forall j, a | 0 < j <= i ensures !DroppedAt(run, j, a) {
        assert a.node < |run[0].nodes| ==> NodeDropsNothing(run, i, a.node);
      }
    }
  }

  lemma LostByNode(run: seq<Sys>, i: nat, k: nat)
    requires i < |run|
    requires forall n :: 0 <= n < k ==>
      (Dropped(run, i, S, n) == 0 == Dropped(run, i, X, n) <==> NodeDropsNothing(run, i, n))
    ensures LostBelow(run, i, S, k) >= 0 && LostBelow(run, i, X, k) >= 0
    ensures LostBelow(run, i, S, k) == 0 == LostBelow(run, i, X, k) <==>
      forall n :: 0 <= n < k ==> NodeDropsNothing(run, i, n)
  {
    hide LostBelow, Dropped, NodeDropsNothing;
    LostSome(run, i, S, k, 0);
    LostSome(run, i, X, k, 0);
    if forall n :: 0 <= n < k ==> NodeDropsNothing(run, i, n) {
      forall n | 0 <= n < k ensures Dropped(run, i, S, n) == 0 == Dropped(run, i, X, n) {
        assert NodeDropsNothing(run, i, n);
      }
      LostNone(run, i, S, k);
      LostNone(run, i, X, k);
    } else {
      var n :| 0 <= n < k && !NodeDropsNothing(run, i, n);
      assert Dropped(run, i, S, n) != 0 || Dropped(run, i, X, n) != 0;
      DroppedMeans(run, i, S, n);
      DroppedMeans(run, i, X, n);
      LostSome(run, i, S, k, n);
      LostSome(run, i, X, k, n);
    }
  }

  /** Nothing is lost exactly when nothing was dropped. */
  lemma LostExactly(u: Usage, run: seq<Sys>, i: nat)
    requires IsRun(u, run) && i < |run| && AllPlain(run, i)
    ensures Lost(run, i, S) >= 0 && Lost(run, i, X) >= 0
    ensures Lost(run, i, S) == 0 == Lost(run, i, X) <==> NothingDropped(run, i)
  {
    hide IsRun, LostBelow, Dropped, NodeDropsNothing, NothingDropped, PlainRun;
    DropsByNode(u, run, i);
    forall n | 0 <= n < |run[0].nodes|
      ensures Dropped(run, i, S, n) == 0 == Dropped(run, i, X, n) <==> NodeDropsNothing(run, i, n)
    {
      NodeLost(u, run, i, n);
    }
    LostByNode(run, i, |run[0].nodes|);
  }

  /**
  When the lock is at rest its word is back at FREE if and only if no release
  message, in the whole run, found the local lock held with a token in hand.
  */
  lemma RestExactly(u: Usage, run: seq<Sys>, i: nat)
    requires IsRun(u, run) && i < |run| && AllPlain(run, i) && AtRest(run[i])
    ensures run[i].word == FREE <==> NothingDropped(run, i)
  {
    WordAccount(u, run, i);
    RestUnits(run[i], S);
    RestUnits(run[i], X);
    LostExactly(u, run, i);
    hide IsRun, AllPlain, AtRest, NothingDropped, Units, Lost;
  }

  // ---- without delayed release -----------------------------------------------------------------------

  /** Node n delayed no release in any state so far. */
  ghost predicate PromptRun(run: seq<Sys>, i: nat, n: nat)
    requires i < |run|
  {
    forall j: nat, a: Agent :: j <= i && a.node == n ==> !PcOf(run[j], a).Park?
  }

  /** Nothing of the node is parked, or on its way out of the token. */
  predicate Unparked(p: Pc) {
    !p.Inherit? && !p.DropReserve? && !p.DropOwner? && !p.DropWord? && !p.Park? && !p.HHeld?
  }

  ghost predicate NothingParked(s: Sys, n: nat) {
    && n < |s.nodes| && s.nodes[n].token == NoToken
    && forall a: Agent :: a.node == n ==> Unparked(PcOf(s, a))
  }

  lemma LockingUnparked(u: Usage, s: Sys, t: Sys, a: Agent)
    requires a.node < |s.nodes| && |t.nodes| == |s.nodes| && Unparked(PcOf(s, a)) && s.nodes[a.node].token == NoToken
    requires EnterStep(u, s, t, a) || ClaimStep(s, t, a) || TokenStep(s, t, a) || ContendStep(u, s, t, a)
    ensures t.nodes[a.node].token == NoToken && Unparked(PcOf(t, a))
  {
  }

  lemma UnlockingUnparked(u: Usage, s: Sys, t: Sys, a: Agent)
    requires a.node < |s.nodes| && |t.nodes| == |s.nodes| && Unparked(PcOf(s, a)) && s.nodes[a.node].token == NoToken
    requires
      || UnlockSharedStep(u, s, t, a) || UnlockExclusiveStep(u, s, t, a)
      || GiveBackStep(s, t, a) || LeaveStep(s, t, a)
    requires !PcOf(t, a).Park?
    ensures t.nodes[a.node].token == NoToken && Unparked(PcOf(t, a))
  {
  }

  lemma StepUnparked(u: Usage, s: Sys, t: Sys, a: Agent, n: nat)
    requires NothingParked(s, n) && AgentStep(u, s, t, a) && (a.node == n ==> !PcOf(t, a).Park?)
    ensures NothingParked(t, n)
  {
    StepMoves(u, s, t, a);
    hide EnterStep, TokenStep, UnlockExclusiveStep, LeaveStep, ClaimStep, ContendStep, UnlockSharedStep, GiveBackStep;
    hide Unparked;
    if a.node == n {
      assert Unparked(PcOf(s, a)) && s.nodes[a.node].token == NoToken;
      if EnterStep(u, s, t, a) || ClaimStep(s, t, a) || TokenStep(s, t, a) || ContendStep(u, s, t, a) {
        LockingUnparked(u, s, t, a);
      } else {
        UnlockingUnparked(u, s, t, a);
      }
    }
    forall b: Agent | b.node == n ensures Unparked(PcOf(t, b)) {
      if b != a { assert PcOf(t, b) == PcOf(s, b); }
    }
  }

  lemma {:induction false} RunUnparked(u: Usage, run: seq<Sys>, i: nat, m: Mode, n: nat)
    requires IsRun(u, run) && i < |run| && n < |run[0].nodes| && PromptRun(run, i, n)
    ensures NothingParked(run[i], n)
    ensures Dropped(run, i, m, n) == 0
    decreases i
  {
    hide AgentStep, Unparked;
    if i == 0 {
      assert forall a: Agent :: PcOf(run[0], a) == Idle;
      IdleUnparked();
    } else {
      RunUnparked(u, run, i - 1, m, n);
      assert Next(u, run[i - 1], run[i]);
      var a :| AgentStep(u, run[i - 1], run[i], a);
      assert a.node == n ==> !PcOf(run[i], a).Park?;
      StepUnparked(u, run[i - 1], run[i], a, n);
      hide IsRun, PromptRun;
      forall b: Agent | b.node == n ensures Drop(run[i - 1], run[i], b, m) == 0 {
        assert Unparked(PcOf(run[i - 1], b));
        NoDrop(run[i - 1], run[i], b, m);
      }
    }
  }

  lemma IdleUnparked()
    ensures Unparked(Idle)
  {
  }

  lemma NoDrop(s: Sys, t: Sys, a: Agent, m: Mode)
    requires Unparked(PcOf(s, a))
    ensures Drop(s, t, a, m) == 0
  {
  }

  lemma PromptWith(s: Sys, n: nat)
    requires NothingParked(s, n)
    ensures With(s, n, S) == Owns(s, n)
  {
    forall a ensures a !in SinglesAt(s, n, S) { assert a.node == n ==> Unparked(PcOf(s, a)); }
    assert SinglesAt(s, n, S) == {};
  }

  /**
  At any node that keeps to Plain and delays no release, whatever the others do:
  the S units its calls took from the shared word and did not give back are one
  while some call is behind that unit, and none otherwise. So the node never has
  two units out, and the last reader gives the one back exactly once.
  */
  lemma NodeOwnsOneUnit(u: Usage, run: seq<Sys>, i: nat, n: nat)
    requires IsRun(u, run) && i < |run| && n < |run[0].nodes| && PlainRun(run, i, n) && PromptRun(run, i, n)
    ensures Out(run, i, S, n) == Owns(run[i], n)
    ensures NothingParked(run[i], n)
  {
    RunUnparked(u, run, i, S, n);
    NodeAccount(u, run, i, S, n);
    PromptWith(run[i], n);
    hide IsRun, PlainRun, PromptRun, Out, Dropped, With, Owns, NothingParked;
  }

  function OwningNodes(s: Sys): set<nat> { OwningBelow(s, |s.nodes|) }

  function Writers(s: Sys): set<Agent> { set a | a in s.pc && Wields(s.pc[a]) }

  /** The shared word is exactly one unit per owning node, or zero for the one writer. */
  predicate Census(s: Sys) {
    if Writers(s) != {} then s.word == 0 && OwningNodes(s) == {} && |Writers(s)| == 1
    else s.word == FREE - |OwningNodes(s)|
  }

  ghost predicate AllPrompt(run: seq<Sys>, i: nat)
    requires i < |run|
  {
    forall n :: 0 <= n < |run[0].nodes| ==> PromptRun(run, i, n)
  }

  lemma PromptUnits(s: Sys)
    requires forall n :: 0 <= n < |s.nodes| ==> NothingParked(s, n)
    requires forall a: Agent :: a.node >= |s.nodes| ==> PcOf(s, a) == Idle
    ensures Units(s, S) == |OwningNodes(s)| && Units(s, X) == |Writers(s)|
  {
    var k := |s.nodes|;
    forall a: Agent, m: Mode | a in s.pc && a.node < k ensures !Carries(s.pc[a], m) {
      assert NothingParked(s, a.node);
      assert Unparked(PcOf(s, a));
    }
    forall n, m: Mode | 0 <= n < k ensures s.nodes[n].token != Parked(m) { assert NothingParked(s, n); }
    hide NothingParked, Unparked;
    assert SinglesBelow(s, S, k) == {} && ParkedBelow(s, S, k) == {} && ParkedBelow(s, X, k) == {};
    forall a ensures a in SinglesBelow(s, X, k) <==> a in Writers(s) {
      assert a.node >= k ==> PcOf(s, a) == Idle;
    }
    assert SinglesBelow(s, X, k) == Writers(s);
  }

  lemma NothingLost(u: Usage, run: seq<Sys>, i: nat, m: Mode)
    requires IsRun(u, run) && i < |run| && AllPrompt(run, i)
    ensures Lost(run, i, m) == 0
  {
    forall n | 0 <= n < |run[0].nodes| ensures Dropped(run, i, m, n) == 0 {
      RunUnparked(u, run, i, m, n);
    }
    LostNone(run, i, m, |run[0].nodes|);
  }

  /**
  When every node keeps to Plain and delays nothing: in every run the shared
  word is FREE less one unit per node that owns one, or zero for one writer,
  and it is back at FREE exactly when no node owns and nobody writes.
  */
  lemma UnitsConserved(u: Usage, run: seq<Sys>, i: nat)
    requires IsRun(u, run) && i < |run| && AllPlain(run, i) && AllPrompt(run, i)
    ensures Census(run[i])
    ensures run[i].word == FREE <==> OwningNodes(run[i]) == {} && Writers(run[i]) == {}
  {
    WordAccount(u, run, i);
    NothingLost(u, run, i, S);
    NothingLost(u, run, i, X);
    NodesStay(u, run, i);
    forall n | 0 <= n < |run[i].nodes| ensures NothingParked(run[i], n) { RunUnparked(u, run, i, S, n); }
    forall a: Agent | a.node >= |run[i].nodes| ensures PcOf(run[i], a) == Idle { NobodyBeyond(u, run, i, a); }
    PromptUnits(run[i]);
    hide IsRun, AllPlain, AllPrompt, OwningBelow, Writers, Units, Lost, NothingParked;
    var owning, writers := OwningNodes(run[i]), Writers(run[i]);
    assert (owning == {} <==> |owning| == 0) && (writers == {} <==> |writers| == 0);
  }
}
