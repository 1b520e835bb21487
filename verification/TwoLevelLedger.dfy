/**
The shared word as a ledger: for every node and mode, what the node's calls
took from the word less what they gave back, read off the run itself.
*/
module TwoLevelLedger {
  import opened LocalWord
  import opened TwoLevelLock
  import opened TwoLevelCustody

  /** What one step of a run does to the units a node has out. */
  ghost function StepDelta(s: Sys, t: Sys, m: Mode, n: nat): int {
    if exists a: Agent :: a.node == n && UnitDelta(PcOf(s, a), PcOf(t, a), m) == 1 then 1
    else if exists a: Agent :: a.node == n && UnitDelta(PcOf(s, a), PcOf(t, a), m) == -1 then -1
    else 0
  }

  /** Units of a mode that node n has taken and not given back after i steps. */
  ghost function Out(run: seq<Sys>, i: nat, m: Mode, n: nat): int
    requires i < |run|
  {
    if i == 0 then 0 else Out(run, i - 1, m, n) + StepDelta(run[i - 1], run[i], m, n)
  }

  /** The same over the first k nodes. */
  ghost function SumOut(run: seq<Sys>, i: nat, m: Mode, k: nat): int
    requires i < |run|
  {
    if k == 0 then 0 else SumOut(run, i, m, k - 1) + Out(run, i, m, k - 1)
  }

  lemma StayDelta(p: Pc, m: Mode)
    ensures UnitDelta(p, p, m) == 0
  {
  }

  /** Only the caller's node is charged, and it is charged what the caller did. */
  lemma DeltaIsCallers(s: Sys, t: Sys, a: Agent, m: Mode, n: nat)
    requires t.pc == s.pc[a := PcOf(t, a)]
    ensures StepDelta(s, t, m, n) == if n == a.node then UnitDelta(PcOf(s, a), PcOf(t, a), m) else 0
  {
    hide UnitDelta;
    forall b: Agent | b != a ensures UnitDelta(PcOf(s, b), PcOf(t, b), m) == 0 {
      assert PcOf(t, b) == PcOf(s, b);
      StayDelta(PcOf(s, b), m);
    }
    assert UnitDelta(PcOf(s, a), PcOf(t, a), m) in {-1, 0, 1} by { DeltaRange(PcOf(s, a), PcOf(t, a), m); }
  }

  lemma DeltaRange(p: Pc, q: Pc, m: Mode)
    ensures UnitDelta(p, q, m) in {-1, 0, 1}
  {
  }

  lemma {:induction false} SumStep(run: seq<Sys>, i: nat, a: Agent, m: Mode, k: nat)
    requires 0 < i < |run| && run[i].pc == run[i - 1].pc[a := PcOf(run[i], a)]
    ensures SumOut(run, i, m, k) ==
      SumOut(run, i - 1, m, k) + (if a.node < k then UnitDelta(PcOf(run[i - 1], a), PcOf(run[i], a), m) else 0)
    decreases k
  {
    hide UnitDelta, StepDelta;
    if k > 0 {
      SumStep(run, i, a, m, k - 1);
      DeltaIsCallers(run[i - 1], run[i], a, m, k - 1);
    }
  }

  // ---- nodes never change in number; every step moves one call ------------------------------

  lemma StepMoves(u: Usage, s: Sys, t: Sys, a: Agent)
    requires AgentStep(u, s, t, a)
    ensures Moved(s, t, a)
  {
    hide EnterStep, ClaimStep, TokenStep, ContendStep, UnlockSharedStep, UnlockExclusiveStep, GiveBackStep, LeaveStep,
      Moved;
    if EnterStep(u, s, t, a) { EnterMoves(u, s, t, a); }
    else if ClaimStep(s, t, a) { ClaimMoves(s, t, a); }
    else if TokenStep(s, t, a) { TokenMoves(s, t, a); }
    else if ContendStep(u, s, t, a) { ContendMoves(u, s, t, a); }
    else if UnlockSharedStep(u, s, t, a) || UnlockExclusiveStep(u, s, t, a) { UnlockMoves(u, s, t, a); }
    else if GiveBackStep(s, t, a) { GiveBackMoves(s, t, a); }
    else { LeaveMoves(s, t, a); }
  }

  lemma EnterMoves(u: Usage, s: Sys, t: Sys, a: Agent)
    requires a.node < |s.nodes| && EnterStep(u, s, t, a)
    ensures Moved(s, t, a)
  {
  }

  lemma ClaimMoves(s: Sys, t: Sys, a: Agent)
    requires a.node < |s.nodes| && ClaimStep(s, t, a)
    ensures Moved(s, t, a)
  {
  }

  lemma TokenMoves(s: Sys, t: Sys, a: Agent)
    requires a.node < |s.nodes| && TokenStep(s, t, a)
    ensures Moved(s, t, a)
  {
  }

  lemma ContendMoves(u: Usage, s: Sys, t: Sys, a: Agent)
    requires a.node < |s.nodes| && ContendStep(u, s, t, a)
    ensures Moved(s, t, a)
  {
  }

  lemma UnlockMoves(u: Usage, s: Sys, t: Sys, a: Agent)
    requires a.node < |s.nodes| && (UnlockSharedStep(u, s, t, a) || UnlockExclusiveStep(u, s, t, a))
    ensures Moved(s, t, a)
  {
  }

  lemma GiveBackMoves(s: Sys, t: Sys, a: Agent)
    requires a.node < |s.nodes| && GiveBackStep(s, t, a)
    ensures Moved(s, t, a)
  {
  }

  lemma LeaveMoves(s: Sys, t: Sys, a: Agent)
    requires a.node < |s.nodes| && LeaveStep(s, t, a)
    ensures Moved(s, t, a)
  {
  }

  lemma {:induction false} NodesStay(u: Usage, run: seq<Sys>, i: nat)
    requires IsRun(u, run) && i < |run|
    ensures |run[i].nodes| == |run[0].nodes|
    decreases i
  {
    hide Init, AgentStep;
    if i > 0 {
      NodesStay(u, run, i - 1);
      assert Next(u, run[i - 1], run[i]);
      var a :| AgentStep(u, run[i - 1], run[i], a);
      StepMoves(u, run[i - 1], run[i], a);
    }
  }

  // ---- the word is the ledger --------------------------------------------------------------------

  /** No S unlock so far has taken the undo branch. */
  ghost predicate NoStray(run: seq<Sys>, i: nat)
    requires i < |run|
  {
    forall j, a :: 0 <= j <= i ==> !PcOf(run[j], a).SUndo?
  }

  /** Custody and ledger agree on how many units of each mode are out. */
  lemma {:induction false} RunLedger(u: Usage, run: seq<Sys>, i: nat) returns (c: Custody)
    requires IsRun(u, run) && i < |run| && NoStray(run, i)
    ensures Inv(run[i], c)
    ensures forall m: Mode :: |Of(c.units, m)| == SumOut(run, i, m, |run[0].nodes|)
    decreases i
  {
    hide Inv, Init, AgentStep, UnitDelta;
    if i == 0 {
      c := InitHolds(run[0]);
      forall m: Mode ensures |Of(c.units, m)| == SumOut(run, 0, m, |run[0].nodes|) {
        SumNone(run, m, |run[0].nodes|);
        assert Of(c.units, m) == {};
      }
    } else {
      var b := RunLedger(u, run, i - 1);
      assert Next(u, run[i - 1], run[i]);
      var a :| AgentStep(u, run[i - 1], run[i], a);
      assert !PcOf(run[i], a).SUndo?;
      var v := u.(stray := if u.stray == AsWritten then Never else u.stray);
      if u.stray == AsWritten { SameStep(u, v, run[i - 1], run[i], a); }
      c := StepKeeps(v, run[i - 1], run[i], a, b);
      StepMoves(u, run[i - 1], run[i], a);
      NodesStay(u, run, i - 1);
      forall m: Mode ensures |Of(c.units, m)| == SumOut(run, i, m, |run[0].nodes|) {
        SumStep(run, i, a, m, |run[0].nodes|);
      }
    }
  }

  lemma {:induction false} SumNone(run: seq<Sys>, m: Mode, k: nat)
    requires |run| > 0
    ensures SumOut(run, 0, m, k) == 0
  {
    if k > 0 { SumNone(run, m, k - 1); }
  }

  /**
  In every run up to the first stray unlock, delayed release and SX included:
  while an X unit is out it is the only unit and the word is zero; otherwise at
  most one SX unit is out and the word is FREE less the S and SX units out.
  */
  lemma WordIsLedger(u: Usage, run: seq<Sys>, i: nat)
    requires IsRun(u, run) && i < |run| && NoStray(run, i)
    ensures var nodes := |run[0].nodes|;
      var (s, sx, x) := (SumOut(run, i, S, nodes), SumOut(run, i, SX, nodes), SumOut(run, i, X, nodes));
      if x != 0 then x == 1 && s == sx == 0 && run[i].word == 0
      else 0 <= s && 0 <= sx <= 1 && run[i].word == FREE - s - HALF * sx
  {
    var c := RunLedger(u, run, i);
    assert WordOk(run[i].word, c.units) by { InvWord(run[i], c); }
    hide Inv, Of, SumOut;
    assert forall m: Mode :: Of(c.units, m) == {} <==> |Of(c.units, m)| == 0;
  }

  lemma InvWord(s: Sys, c: Custody)
    requires Inv(s, c)
    ensures WordOk(s.word, c.units)
  {
  }
}
