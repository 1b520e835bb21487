/**
Which units come back as long as no S unlock has taken the undo branch, SX,
failing leaders and delayed release included. A unit of a node is with a call,
in its token, behind a positive reference count, behind a count that was
overwritten, or lost from a token; and once a count was overwritten some reader
of the node can never leave. So at rest only the lost unit is missing.
*/
module UnitReturn {
  import opened LocalWord
  import opened TwoLevelLock
  import opened TwoLevelCustody
  import opened TwoLevelLedger
  import opened NodeUnits
  import opened TokenLosses
  import opened UnitCensus

  /** Calls with a unit of their own; other readers stand behind the reference count. */
  predicate Own(p: Pc, m: Mode) {
    || p == Got(m) || p == ClearToken(m) || p == PutWord(m) || p == Park(m) || p == Inherit(m) || Carries(p, m)
    || (if m == S then p == Release else p == Holding(m) || p == PutOwner(m))
  }

  function OwnAt(s: Sys, n: nat, m: Mode): set<Agent> { set a | a in s.pc && a.node == n && Own(s.pc[a], m) }

  function Counted(s: Sys, n: nat, m: Mode): int
    requires n < |s.nodes|
  {
    |OwnAt(s, n, m)| + Bit(s.nodes[n].token == Parked(m)) + (if m == S then Bit(s.nodes[n].refs > 0) else 0)
  }

  /** The stores of a leader that do not look at the reference count they replace. */
  predicate Replaces(p: Pc, q: Pc) {
    (p == Got(S) && q == SPublish) || (p.SFailRef? && q == Leave(S)) || (p.SFail? && q == Leave(S))
  }

  function Overwrites(s: Sys, t: Sys, a: Agent): int {
    Bit(a.node < |s.nodes| && s.nodes[a.node].refs > 0 && Replaces(PcOf(s, a), PcOf(t, a)))
  }

  /** How often a positive count of node n was replaced in the first i steps. */
  ghost function Overwritten(run: seq<Sys>, i: nat, n: nat): int
    requires i < |run|
  {
    if i == 0 then 0
    else Overwritten(run, i - 1, n) + Bit(exists a: Agent :: a.node == n && Overwrites(run[i - 1], run[i], a) == 1)
  }

  lemma OverwritesIsCallers(s: Sys, t: Sys, a: Agent, n: nat)
    requires t.pc == s.pc[a := PcOf(t, a)]
    ensures Bit(exists b: Agent :: b.node == n && Overwrites(s, t, b) == 1) ==
      if n == a.node then Overwrites(s, t, a) else 0
  {
    forall b: Agent | b != a ensures Overwrites(s, t, b) == 0 {
      assert PcOf(t, b) == PcOf(s, b);
    }
  }

  // ---- each step balances ------------------------------------------------------------------

  /** A step from a proper place to a proper place. */
  predicate Proper(s: Sys, t: Sys, a: Agent) {
    Moved(s, t, a) && WellPlaced(PcOf(s, a)) && WellPlaced(PcOf(t, a))
  }

  predicate Balances(s: Sys, t: Sys, a: Agent, m: Mode)
    requires Moved(s, t, a)
  {
    var p, q := PcOf(s, a), PcOf(t, a);
    Bit(Own(q, m)) - Bit(Own(p, m))
    + Bit(t.nodes[a.node].token == Parked(m)) - Bit(s.nodes[a.node].token == Parked(m)) + Bit(Loses(s, t, a, m))
    + (if m == S then Bit(t.nodes[a.node].refs > 0) - Bit(s.nodes[a.node].refs > 0) + Overwrites(s, t, a) else 0)
    == UnitDelta(p, q, m)
  }

  /** Readers gain on the count by at least one with every overwriting store, and never fall back. */
  predicate Lags(s: Sys, t: Sys, a: Agent)
    requires Moved(s, t, a)
  {
    var n := a.node;
    && t.nodes[n].refs >= 0
    && Bit(Reads(PcOf(t, a))) - Bit(Reads(PcOf(s, a))) >= t.nodes[n].refs - s.nodes[n].refs + Overwrites(s, t, a)
  }

  /** Token and count of the caller's node stay. */
  predicate SameCount(s: Sys, t: Sys, a: Agent)
    requires Moved(s, t, a)
  {
    t.nodes[a.node].token == s.nodes[a.node].token && t.nodes[a.node].refs == s.nodes[a.node].refs
  }

  lemma EnterEnds(u: Usage, s: Sys, t: Sys, a: Agent)
    requires Moved(s, t, a) && EnterStep(u, s, t, a)
    ensures PcOf(s, a) == Idle && (PcOf(t, a).SEnter? || PcOf(t, a).TakeToken? || PcOf(t, a).HTake?)
    ensures SameCount(s, t, a)
  {
  }

  lemma EnterBalances(u: Usage, s: Sys, t: Sys, a: Agent, m: Mode)
    requires Proper(s, t, a) && s.nodes[a.node].refs >= 0 && EnterStep(u, s, t, a)
    ensures Balances(s, t, a, m)
  {
    hide EnterStep, Moved;
    EnterEnds(u, s, t, a);
  }

  lemma ClaimBalances(s: Sys, t: Sys, a: Agent, m: Mode)
    requires Proper(s, t, a) && s.nodes[a.node].refs >= 0 && ClaimStep(s, t, a)
    ensures Balances(s, t, a, m)
  {
  }

  lemma TakeBalances(s: Sys, t: Sys, a: Agent, m: Mode)
    requires Proper(s, t, a) && TokenStep(s, t, a) && (PcOf(s, a).TakeToken? || PcOf(s, a).HTake?)
    ensures Balances(s, t, a, m)
  {
  }

  lemma TokenEnds(s: Sys, t: Sys, a: Agent)
    requires Moved(s, t, a) && TokenStep(s, t, a) && !PcOf(s, a).TakeToken? && !PcOf(s, a).HTake?
    ensures SameCount(s, t, a)
  {
  }

  lemma CarryBalances(s: Sys, t: Sys, a: Agent, m: Mode)
    requires Proper(s, t, a) && TokenStep(s, t, a) && SameCount(s, t, a)
    requires !PcOf(s, a).TakeToken? && !PcOf(s, a).HTake?
    ensures Balances(s, t, a, m)
  {
  }

  lemma TokenBalances(s: Sys, t: Sys, a: Agent, m: Mode)
    requires Proper(s, t, a) && s.nodes[a.node].refs >= 0 && TokenStep(s, t, a)
    ensures Balances(s, t, a, m)
  {
    hide TokenStep, Balances;
    if PcOf(s, a).TakeToken? || PcOf(s, a).HTake? {
      TakeBalances(s, t, a, m);
    } else {
      TokenEnds(s, t, a);
      CarryBalances(s, t, a, m);
    }
  }

  lemma CleanupBalances(u: Usage, s: Sys, t: Sys, a: Agent, m: Mode)
    requires Proper(s, t, a) && ContendStep(u, s, t, a) && (PcOf(s, a).SFail? || PcOf(s, a).SFailRef?)
    ensures Balances(s, t, a, m)
  {
  }

  lemma GotBalances(u: Usage, s: Sys, t: Sys, a: Agent, m: Mode)
    requires Proper(s, t, a) && ContendStep(u, s, t, a) && (PcOf(s, a).Got? || PcOf(s, a).SPublish?)
    ensures Balances(s, t, a, m)
  {
  }

  lemma SpinBalances(u: Usage, s: Sys, t: Sys, a: Agent, m: Mode)
    requires Proper(s, t, a) && ContendStep(u, s, t, a) && (PcOf(s, a).CheckOwner? || PcOf(s, a).Contend?)
    ensures Balances(s, t, a, m)
  {
  }

  lemma ContendBalances(u: Usage, s: Sys, t: Sys, a: Agent, m: Mode)
    requires Proper(s, t, a) && s.nodes[a.node].refs >= 0 && ContendStep(u, s, t, a)
    ensures Balances(s, t, a, m)
  {
    var p := PcOf(s, a);
    assert p.SFail? || p.SFailRef? || p.Got? || p.SPublish? || p.CheckOwner? || p.Contend?;
    hide ContendStep, Balances;
    if p.SFail? || p.SFailRef? { CleanupBalances(u, s, t, a, m); }
    else if p.Got? || p.SPublish? { GotBalances(u, s, t, a, m); }
    else { SpinBalances(u, s, t, a, m); }
  }

  lemma UnlockSharedBalances(u: Usage, s: Sys, t: Sys, a: Agent, m: Mode)
    requires Proper(s, t, a) && s.nodes[a.node].refs >= 0 && UnlockSharedStep(u, s, t, a)
    ensures Balances(s, t, a, m)
  {
  }

  lemma UnlockExclusiveBalances(u: Usage, s: Sys, t: Sys, a: Agent, m: Mode)
    requires Proper(s, t, a) && s.nodes[a.node].refs >= 0 && UnlockExclusiveStep(u, s, t, a)
    ensures Balances(s, t, a, m)
  {
  }

  lemma StoreBalances(s: Sys, t: Sys, a: Agent, m: Mode)
    requires Proper(s, t, a) && GiveBackStep(s, t, a) && (PcOf(s, a).ClearToken? || PcOf(s, a).Park?)
    ensures Balances(s, t, a, m)
  {
  }

  lemma PutBalances(s: Sys, t: Sys, a: Agent, m: Mode)
    requires Proper(s, t, a) && GiveBackStep(s, t, a) && !PcOf(s, a).ClearToken? && !PcOf(s, a).Park?
    ensures Balances(s, t, a, m)
  {
  }

  lemma GiveBackBalances(s: Sys, t: Sys, a: Agent, m: Mode)
    requires Proper(s, t, a) && s.nodes[a.node].refs >= 0 && GiveBackStep(s, t, a)
    ensures Balances(s, t, a, m)
  {
    hide GiveBackStep, Balances;
    if PcOf(s, a).ClearToken? || PcOf(s, a).Park? { StoreBalances(s, t, a, m); } else { PutBalances(s, t, a, m); }
  }

  lemma LeaveBalances(s: Sys, t: Sys, a: Agent, m: Mode)
    requires Proper(s, t, a) && s.nodes[a.node].refs >= 0 && LeaveStep(s, t, a)
    ensures Balances(s, t, a, m)
  {
  }

  lemma StepBalances(u: Usage, s: Sys, t: Sys, a: Agent, m: Mode)
    requires Proper(s, t, a) && s.nodes[a.node].refs >= 0 && AgentStep(u, s, t, a)
    ensures Balances(s, t, a, m)
  {
    hide Balances, Proper;
    hide EnterStep, TokenStep, UnlockExclusiveStep, LeaveStep, ClaimStep, ContendStep, UnlockSharedStep, GiveBackStep;
    if EnterStep(u, s, t, a) { EnterBalances(u, s, t, a, m); }
    else if ClaimStep(s, t, a) { ClaimBalances(s, t, a, m); }
    else if TokenStep(s, t, a) { TokenBalances(s, t, a, m); }
    else if ContendStep(u, s, t, a) { ContendBalances(u, s, t, a, m); }
    else if UnlockSharedStep(u, s, t, a) { UnlockSharedBalances(u, s, t, a, m); }
    else if UnlockExclusiveStep(u, s, t, a) { UnlockExclusiveBalances(u, s, t, a, m); }
    else if GiveBackStep(s, t, a) { GiveBackBalances(s, t, a, m); }
    else { LeaveBalances(s, t, a, m); }
  }

  lemma LockingLags(u: Usage, s: Sys, t: Sys, a: Agent)
    requires Proper(s, t, a) && s.nodes[a.node].refs >= 0 && (ClaimStep(s, t, a) || ContendStep(u, s, t, a))
    ensures Lags(s, t, a)
  {
  }

  lemma UnlockingLags(u: Usage, s: Sys, t: Sys, a: Agent)
    requires Proper(s, t, a) && s.nodes[a.node].refs >= 0 && UnlockSharedStep(u, s, t, a)
    ensures Lags(s, t, a)
  {
  }

  /** The other steps neither touch the count nor begin or end a read. */
  lemma OtherLags(u: Usage, s: Sys, t: Sys, a: Agent)
    requires Proper(s, t, a) && s.nodes[a.node].refs >= 0
    requires
      || EnterStep(u, s, t, a) || TokenStep(s, t, a) || UnlockExclusiveStep(u, s, t, a)
      || GiveBackStep(s, t, a) || LeaveStep(s, t, a)
    ensures Lags(s, t, a)
  {
    assert t.nodes[a.node].refs == s.nodes[a.node].refs;
  }

  lemma StepLags(u: Usage, s: Sys, t: Sys, a: Agent)
    requires Proper(s, t, a) && s.nodes[a.node].refs >= 0 && AgentStep(u, s, t, a)
    ensures Lags(s, t, a)
  {
    hide Lags, Proper;
    hide EnterStep, TokenStep, UnlockExclusiveStep, LeaveStep, ClaimStep, ContendStep, UnlockSharedStep, GiveBackStep;
    if ClaimStep(s, t, a) || ContendStep(u, s, t, a) { LockingLags(u, s, t, a); }
    else if UnlockSharedStep(u, s, t, a) { UnlockingLags(u, s, t, a); }
    else { OtherLags(u, s, t, a); }
  }

  // ---- the sets ---------------------------------------------------------------------------------

  lemma OwnSet(s: Sys, t: Sys, a: Agent, m: Mode)
    requires Moved(s, t, a)
    ensures OwnAt(t, a.node, m) == if Own(PcOf(t, a), m) then OwnAt(s, a.node, m) + {a} else OwnAt(s, a.node, m) - {a}
    ensures a in OwnAt(s, a.node, m) <==> Own(PcOf(s, a), m)
  {
  }

  lemma StepCounts(u: Usage, s: Sys, t: Sys, a: Agent, m: Mode)
    requires Proper(s, t, a) && s.nodes[a.node].refs >= 0 && AgentStep(u, s, t, a)
    ensures Counted(t, a.node, m) + Bit(Loses(s, t, a, m)) + (if m == S then Overwrites(s, t, a) else 0) ==
      Counted(s, a.node, m) + UnitDelta(PcOf(s, a), PcOf(t, a), m)
    ensures t.nodes[a.node].refs >= 0
    ensures |ReadersAt(t, a.node)| - t.nodes[a.node].refs >=
      |ReadersAt(s, a.node)| - s.nodes[a.node].refs + Overwrites(s, t, a)
  {
    hide AgentStep, OwnAt, Own, ReadersAt, Reads, Overwrites, UnitDelta, Loses;
    StepBalances(u, s, t, a, m);
    StepLags(u, s, t, a);
    OwnSet(s, t, a, m);
    OneAside(OwnAt(s, a.node, m), a);
    ReaderTotal(s, t, a);
  }

  lemma CountsElsewhere(s: Sys, t: Sys, a: Agent, m: Mode, n: nat)
    requires Moved(s, t, a) && n != a.node && n < |s.nodes|
    ensures Counted(t, n, m) == Counted(s, n, m) && ReadersAt(t, n) == ReadersAt(s, n)
  {
    assert OwnAt(t, n, m) == OwnAt(s, n, m);
  }

  // ---- runs ---------------------------------------------------------------------------------------

  lemma RunWellPlaced(u: Usage, run: seq<Sys>, i: nat, a: Agent)
    requires IsRun(u, run) && i < |run| && NoStray(run, i)
    ensures WellPlaced(PcOf(run[i], a))
  {
    hide IsRun, NoStray;
    var c := RunLedger(u, run, i);
    InvCalls(run[i], c);
    hide Inv;
    CallAt(run[i], a);
  }

  /** Usages that never take the undo branch in two steps. */
  lemma RunNoStray(u: Usage, run: seq<Sys>, i: nat)
    requires IsRun(u, run) && i < |run| && u.stray != AsWritten
    ensures NoStray(run, i)
  {
    hide IsRun;
    forall j, a | 0 <= j <= i ensures !PcOf(run[j], a).SUndo? {
      var c := RunHasCustody(u, run, j);
      InvCalls(run[j], c);
      hide Inv;
      CallAt(run[j], a);
    }
  }

  lemma StrayPrefix(run: seq<Sys>, i: nat, j: nat)
    requires j <= i < |run| && NoStray(run, i)
    ensures NoStray(run, j)
  {
  }

  lemma StepProper(u: Usage, run: seq<Sys>, i: nat, a: Agent)
    requires IsRun(u, run) && 0 < i < |run| && NoStray(run, i) && AgentStep(u, run[i - 1], run[i], a)
    ensures Proper(run[i - 1], run[i], a)
  {
    hide IsRun, AgentStep, WellPlaced, NoStray;
    StepMoves(u, run[i - 1], run[i], a);
    StrayPrefix(run, i, i - 1);
    RunWellPlaced(u, run, i - 1, a);
    RunWellPlaced(u, run, i, a);
  }

  /**
  The units a node took and did not return are with its calls, in its token,
  behind its positive count, behind a count that was replaced, or lost from a
  token; and there are at least as many readers without a reference as counts
  that were replaced.
  */
  lemma {:induction false} RunCounts(u: Usage, run: seq<Sys>, i: nat, m: Mode, n: nat)
    requires IsRun(u, run) && i < |run| && NoStray(run, i) && n < |run[0].nodes|
    ensures n < |run[i].nodes| && run[i].nodes[n].refs >= 0
    ensures Out(run, i, m, n) ==
      Counted(run[i], n, m) + LostAt(run, i, m, n) + (if m == S then Overwritten(run, i, n) else 0)
    ensures |ReadersAt(run[i], n)| >= run[i].nodes[n].refs + Overwritten(run, i, n)
    ensures Overwritten(run, i, n) >= 0
    decreases i
  {
    hide AgentStep, UnitDelta, StepDelta, Counted, Overwrites, ReadersAt, Proper, Loses, NoStray;
    if i == 0 {
      NothingCounted(run[0], n, m);
    } else {
      var s, t := run[i - 1], run[i];
      StrayPrefix(run, i, i - 1);
      RunCounts(u, run, i - 1, m, n);
      assert Next(u, s, t);
      var a :| AgentStep(u, s, t, a);
      StepMoves(u, s, t, a);
      NodesStay(u, run, i - 1);
      DeltaIsCallers(s, t, a, m, n);
      OverwritesIsCallers(s, t, a, n);
      LossIsCallers(s, t, a, m, n);
      if a.node == n {
        StepProper(u, run, i, a);
        StepCounts(u, s, t, a, m);
        OverwritesOnce(s, t, a);
      } else {
        CountsElsewhere(s, t, a, m, n);
      }
    }
  }

  lemma OverwritesOnce(s: Sys, t: Sys, a: Agent)
    ensures 0 <= Overwrites(s, t, a) <= 1
  {
  }

  lemma NothingCounted(s: Sys, n: nat, m: Mode)
    requires Init(s) && n < |s.nodes|
    ensures Counted(s, n, m) == 0 && s.nodes[n].refs == 0 && |ReadersAt(s, n)| == 0
  {
    assert OwnAt(s, n, m) == {} && ReadersAt(s, n) == {};
  }

  // ---- at rest --------------------------------------------------------------------------------------

  lemma NodeAtRest(u: Usage, run: seq<Sys>, i: nat, m: Mode, n: nat)
    requires IsRun(u, run) && i < |run| && NoStray(run, i) && n < |run[0].nodes| && AtRest(run[i])
    ensures Out(run, i, m, n) == LostAt(run, i, m, n)
  {
    hide IsRun, NoStray, Out, Overwritten, LostAt, Counted, ReadersAt, AtRest;
    RunCounts(u, run, i, m, n);
    NothingAtRest(run[i], m, n);
  }

  lemma NothingAtRest(s: Sys, m: Mode, n: nat)
    requires AtRest(s) && n < |s.nodes|
    ensures |ReadersAt(s, n)| == 0 && Counted(s, n, m) == if m == S then Bit(s.nodes[n].refs > 0) else 0
  {
    forall a ensures a !in ReadersAt(s, n) && a !in OwnAt(s, n, m) { assert PcOf(s, a) == Idle; }
    assert ReadersAt(s, n) == {} && OwnAt(s, n, m) == {};
  }

  lemma {:induction false} SumAtRest(u: Usage, run: seq<Sys>, i: nat, m: Mode, k: nat)
    requires IsRun(u, run) && i < |run| && NoStray(run, i) && AtRest(run[i]) && k <= |run[0].nodes|
    ensures SumOut(run, i, m, k) == SumLost(run, i, m, k)
    decreases k
  {
    hide IsRun, Out, NoStray, AtRest, LostAt;
    if k > 0 {
      SumAtRest(u, run, i, m, k - 1);
      NodeAtRest(u, run, i, m, k - 1);
    }
  }

  /**
  Up to the first stray unlock, SX, failing leaders and delayed release
  included: at rest the word is back at FREE if and only if no token was dropped
  by the release handler or wiped by an unlock's store, and otherwise exactly
  one unit is missing.
  */
  lemma RestDecided(u: Usage, run: seq<Sys>, i: nat)
    requires IsRun(u, run) && i < |run| && NoStray(run, i) && AtRest(run[i])
    ensures run[i].word == FREE <==> NoTokenLost(run, i)
    ensures run[i].word in {FREE, FREE - 1, FREE - HALF, 0}
  {
    hide IsRun, NoStray, AtRest, SumOut, SumLost, NoTokenLost, Parkers, Tokens;
    WordIsLedger(u, run, i);
    SumAtRest(u, run, i, S, |run[0].nodes|);
    SumAtRest(u, run, i, SX, |run[0].nodes|);
    SumAtRest(u, run, i, X, |run[0].nodes|);
    LostMeans(u, run, i);
    ReservationExact(u, run, i);
  }

  lemma {:induction false} NeverReserved(u: Usage, run: seq<Sys>, i: nat)
    requires IsRun(u, run) && i < |run| && AllPrompt(run, i)
    ensures run[i].reserve == Nobody
    decreases i
  {
    hide AgentStep, Init, PromptRun;
    if i == 0 {
      InitUnreserved(run[0]);
    } else {
      PromptPrefix(run, i, i - 1);
      NeverReserved(u, run, i - 1);
      assert Next(u, run[i - 1], run[i]);
      var a :| AgentStep(u, run[i - 1], run[i], a);
      StepMoves(u, run[i - 1], run[i], a);
      NodesStay(u, run, i - 1);
      assert PromptRun(run, i, a.node);
      PromptAt(run, i, a);
      StepUnreserved(u, run[i - 1], run[i], a);
    }
  }

  lemma InitUnreserved(s: Sys)
    requires Init(s)
    ensures s.reserve == Nobody
  {
  }

  lemma PromptPrefix(run: seq<Sys>, i: nat, j: nat)
    requires j <= i < |run| && AllPrompt(run, i)
    ensures AllPrompt(run, j)
  {
    forall n | 0 <= n < |run[0].nodes| ensures PromptRun(run, j, n) {
      assert PromptRun(run, i, n);
    }
  }

  lemma PromptAt(run: seq<Sys>, i: nat, a: Agent)
    requires i < |run| && PromptRun(run, i, a.node)
    ensures !PcOf(run[i], a).Park?
  {
  }

  lemma StepUnreserved(u: Usage, s: Sys, t: Sys, a: Agent)
    requires AgentStep(u, s, t, a) && s.reserve == Nobody && !PcOf(t, a).Park?
    ensures t.reserve == Nobody
  {
  }

  /** Without delayed release nothing is ever in a token, so the whole word comes back. */
  lemma RestReturns(u: Usage, run: seq<Sys>, i: nat)
    requires IsRun(u, run) && i < |run| && NoStray(run, i) && AllPrompt(run, i) && AtRest(run[i])
    ensures run[i].word == FREE
  {
    NeverReserved(u, run, i);
    ReservationExact(u, run, i);
    LostMeans(u, run, i);
    hide IsRun, NoStray, AtRest, AllPrompt, AllLost, Parkers, Tokens, NoTokenLost;
    RestDecided(u, run, i);
  }
}
