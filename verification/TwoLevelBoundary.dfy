/** Exactly when the two-level lock excludes, lets its holders unlock and gets its units back, over every usage. */
module TwoLevelBoundary {
  import opened LocalWord
  import opened TwoLevelLock
  import opened TwoLevelStray
  import opened TwoLevelCustody
  import opened TwoLevelLedger
  import opened ReaderGrouping
  import opened UnitCensus
  import UnitLoss
  import opened UnitReturn
  import UnitStranding

  ghost predicate Safe(u: Usage) {
    forall s :: Reachable(u, s) ==> Excludes(s)
  }

  lemma BrokenWhen(u: Usage)
    requires u.stray == AsWritten && (u.sx || (u.leadersFail && !u.oneStepCleanup))
    ensures !Safe(u)
  {
    var t: Sys;
    if u.sx { t := StrayUnlockBreaksExclusion(u); } else { t := StaleStoresBreakExclusion(u); }
    assert Conflict(PcOf(t, WRITER), PcOf(t, VICTIM));
    assert !Excludes(t);
  }

  // ---- usages all of whose runs are plain ------------------------------------------------

  /** Where calls can be when callers use no SX and no leader is ever between two cleanup stores. */
  predicate Tame(u: Usage, p: Pc) {
    Plain(p) && (!u.leadersFail ==> !p.SFail?)
  }

  predicate KeepsPlain(u: Usage) { !u.sx && (u.oneStepCleanup || !u.leadersFail) }

  lemma LockingTame(u: Usage, s: Sys, t: Sys, a: Agent)
    requires KeepsPlain(u) && a.node < |s.nodes| && Tame(u, PcOf(s, a))
    requires EnterStep(u, s, t, a) || ClaimStep(s, t, a) || TokenStep(s, t, a) || ContendStep(u, s, t, a)
    ensures Tame(u, PcOf(t, a))
  {
  }

  lemma UnlockingTame(u: Usage, s: Sys, t: Sys, a: Agent)
    requires a.node < |s.nodes| && Tame(u, PcOf(s, a))
    requires
      || UnlockSharedStep(u, s, t, a) || UnlockExclusiveStep(u, s, t, a)
      || GiveBackStep(s, t, a) || LeaveStep(s, t, a)
    ensures Tame(u, PcOf(t, a))
  {
  }

  lemma StepTame(u: Usage, s: Sys, t: Sys, a: Agent)
    requires KeepsPlain(u) && AgentStep(u, s, t, a) && Tame(u, PcOf(s, a))
    ensures Tame(u, PcOf(t, a))
  {
    hide EnterStep, TokenStep, UnlockExclusiveStep, LeaveStep, ClaimStep, ContendStep, UnlockSharedStep, GiveBackStep;
    hide Tame;
    if EnterStep(u, s, t, a) || ClaimStep(s, t, a) || TokenStep(s, t, a) || ContendStep(u, s, t, a) {
      LockingTame(u, s, t, a);
    } else {
      UnlockingTame(u, s, t, a);
    }
  }

  lemma {:induction false} RunTame(u: Usage, run: seq<Sys>, i: nat, a: Agent)
    requires KeepsPlain(u) && IsRun(u, run) && i < |run|
    ensures Tame(u, PcOf(run[i], a))
    decreases i
  {
    hide Init, AgentStep, KeepsPlain;
    if i == 0 {
      assert run[0].pc == map[] by { InitEmpty(run[0]); }
    } else {
      RunTame(u, run, i - 1, a);
      assert Next(u, run[i - 1], run[i]);
      var b :| AgentStep(u, run[i - 1], run[i], b);
      StepMoves(u, run[i - 1], run[i], b);
      if a == b { StepTame(u, run[i - 1], run[i], b); }
    }
  }

  lemma RunsPlain(u: Usage, run: seq<Sys>, i: nat)
    requires KeepsPlain(u) && IsRun(u, run) && i < |run|
    ensures AllPlain(run, i)
  {
    forall n | 0 <= n < |run[0].nodes| ensures PlainRun(run, i, n) {
      forall j: nat, a: Agent | j <= i && a.node == n ensures Plain(PcOf(run[j], a)) {
        RunTame(u, run, j, a);
      }
    }
  }

  /**
  Exactly when the lock excludes, over every usage: when the stray branch of
  unlock_s is avoided or is one step, or when the callers use no SX and a
  leader either never fails or cleans up in one step.
  */
  lemma ExclusionExactly(u: Usage)
    ensures Safe(u) <==> u.stray != AsWritten || (!u.sx && (u.oneStepCleanup || !u.leadersFail))
  {
    if u.stray == AsWritten && (u.sx || (u.leadersFail && !u.oneStepCleanup)) {
      BrokenWhen(u);
    } else {
      forall s | Reachable(u, s) ensures Excludes(s) {
        var run :| IsRun(u, run) && run[|run| - 1] == s;
        if u.stray != AsWritten {
          MutualExclusion(u, run, |run| - 1);
        } else {
          RunsPlain(u, run, |run| - 1);
          SharingExcludes(u, run, |run| - 1);
        }
      }
    }
  }

  // ---- getting the units back ----------------------------------------------------------------

  lemma NeverParks(u: Usage, s: Sys, t: Sys, a: Agent)
    requires !u.delay && AgentStep(u, s, t, a)
    ensures !PcOf(t, a).Park?
  {
  }

  lemma {:induction false} RunNeverParks(u: Usage, run: seq<Sys>, i: nat, a: Agent)
    requires !u.delay && IsRun(u, run) && i < |run|
    ensures !PcOf(run[i], a).Park?
    decreases i
  {
    hide Init, AgentStep;
    if i == 0 {
      assert run[0].pc == map[] by { InitEmpty(run[0]); }
    } else {
      RunNeverParks(u, run, i - 1, a);
      assert Next(u, run[i - 1], run[i]);
      var b :| AgentStep(u, run[i - 1], run[i], b);
      StepMoves(u, run[i - 1], run[i], b);
      if a == b { NeverParks(u, run[i - 1], run[i], b); }
    }
  }

  lemma RunsPrompt(u: Usage, run: seq<Sys>, i: nat)
    requires !u.delay && IsRun(u, run) && i < |run|
    ensures AllPrompt(run, i)
  {
    forall n | 0 <= n < |run[0].nodes| ensures PromptRun(run, i, n) {
      forall j: nat, a: Agent | j <= i && a.node == n ensures !PcOf(run[j], a).Park? {
        RunNeverParks(u, run, j, a);
      }
    }
  }

  lemma SafeRest(u: Usage, run: seq<Sys>, i: nat)
    requires (u.stray != AsWritten || KeepsPlain(u)) && !u.delay && IsRun(u, run) && i < |run| && AtRest(run[i])
    ensures run[i].word == FREE
  {
    RunsPrompt(u, run, i);
    if u.stray != AsWritten {
      RunNoStray(u, run, i);
      RestReturns(u, run, i);
    } else {
      RunsPlain(u, run, i);
      RestUnits(run[i], S);
      RestUnits(run[i], X);
      WordAccount(u, run, i);
      NothingLost(u, run, i, S);
      NothingLost(u, run, i, X);
    }
  }

  /**
  Over every usage: every state at rest has the whole word back if and only if
  releases are not delayed and the usage is one under which the lock excludes.
  */
  lemma ReturnsExactly(u: Usage)
    ensures (forall s :: Reachable(u, s) && AtRest(s) ==> s.word == FREE) <==>
      !u.delay && (u.stray != AsWritten || KeepsPlain(u))
  {
    if u.delay {
      var t := UnitLoss.MessageLosesUnit(u);
      assert t.word != FREE;
    } else if u.stray == AsWritten && u.sx {
      var t := UnitStranding.UpgradeStrandsUnit(u);
      assert t.word != FREE;
    } else if u.stray == AsWritten && !KeepsPlain(u) {
      var t := UnitStranding.StaleStoresStrandUnit(u);
      assert t.word != FREE;
    } else {
      forall s | Reachable(u, s) && AtRest(s) ensures s.word == FREE {
        var run :| IsRun(u, run) && run[|run| - 1] == s;
        SafeRest(u, run, |run| - 1);
      }
    }
  }

  // ---- unlocking -----------------------------------------------------------------------------

  /** No call was refused, and every reader's unlock would find its reference. */
  ghost predicate Unlockable(s: Sys) {
    forall a :: !PcOf(s, a).Refused? &&
      (PcOf(s, a) == Holding(S) ==> a.node < |s.nodes| && s.nodes[a.node].refs > 0)
  }

  /** An SX unlock resets the state, the next leader overwrites the count, and its unlock leaves none for the rest. */
  lemma ResetTakesReferences(u: Usage) returns (t: Sys)
    requires u.sx
    ensures Reachable(u, t) && |t.nodes| > 0 && PcOf(t, STRAY) == Holding(S) && t.nodes[0].refs == 0
  {
    hide Reachable;
    var s1 := ReadersThenReset(u);
    var s2 := LeaderLocks(u, s1, SECOND, 3, FREE - 1);
    t := LastUnlocks(u, s2, SECOND, GHeld, FREE - 2);
  }

  /** The second cleanup store of a failed leader wipes out the references of three readers. */
  lemma StaleStoreTakesReferences(u: Usage) returns (t: Sys)
    requires u.leadersFail && !u.oneStepCleanup
    ensures Reachable(u, t) && |t.nodes| > 0 && PcOf(t, STRAY) == Holding(S) && t.nodes[0].refs == 0
  {
    hide Reachable;
    var s := FailuresThenReaders(u);
    t := StaleStore(u, s, SECOND, GHeld, 3, FREE - 1);
  }

  lemma PlainUnlockable(u: Usage, run: seq<Sys>, i: nat, a: Agent)
    requires KeepsPlain(u) && IsRun(u, run) && i < |run|
    ensures !PcOf(run[i], a).Refused?
    ensures PcOf(run[i], a) == Holding(S) ==> a.node < |run[i].nodes| && run[i].nodes[a.node].refs > 0
  {
    RunsPlain(u, run, i);
    NodesStay(u, run, i);
    if a.node < |run[0].nodes| {
      RunGroups(u, run, i, a.node);
      if PcOf(run[i], a) == Holding(S) { ReaderCounted(run[i], a); }
    } else {
      NobodyBeyond(u, run, i, a);
    }
    SharingExcludes(u, run, i);
    var c := RunLedger(u, run, i);
    InvCalls(run[i], c);
    hide Inv, IsRun;
    CallAt(run[i], a);
  }

  /**
  Over every usage: no unlock by a holder is ever refused if and only if callers
  use no SX and S leaders never fail or clean up in one step.
  */
  lemma UnlocksExactly(u: Usage)
    ensures (forall s :: Reachable(u, s) ==> Unlockable(s)) <==> KeepsPlain(u)
  {
    if u.sx {
      var t := ResetTakesReferences(u);
      assert STRAY.node == 0 && !Unlockable(t);
    } else if !KeepsPlain(u) {
      var t := StaleStoreTakesReferences(u);
      assert STRAY.node == 0 && !Unlockable(t);
    } else {
      forall s, a | Reachable(u, s)
        ensures !PcOf(s, a).Refused? &&
          (PcOf(s, a) == Holding(S) ==> a.node < |s.nodes| && s.nodes[a.node].refs > 0)
      {
        var run :| IsRun(u, run) && run[|run| - 1] == s;
        PlainUnlockable(u, run, |run| - 1, a);
      }
    }
  }
}
