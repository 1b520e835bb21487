/**
The reservation word and the units lost in tokens. Over every run of every
usage: the reservation word is set exactly while one unit in the whole system is
being parked, parked or being taken out, or once one was lost. So at most one
unit is ever lost that way, and after it nobody parks again.
*/
module TokenLosses {
  import opened LocalWord
  import opened TwoLevelLock
  import opened TwoLevelCustody
  import opened TwoLevelLedger
  import opened NodeUnits

  /**
  A unit of mode m is lost: a release handler that has taken the token finds the
  local lock held; or an unlock stores into a token that is not empty.
  */
  predicate Loses(s: Sys, t: Sys, a: Agent, m: Mode) {
    var p, q := PcOf(s, a), PcOf(t, a);
    && a.node < |s.nodes|
    && (|| FindsHeld(s, t, a, m)
        || (&& s.nodes[a.node].token == Parked(m)
            && ((p.ClearToken? && (q.PutOwner? || q.PutWord?)) || (p.Park? && q.After?))))
  }

  /** Units of mode m lost on node n in the first i steps, and on the first k nodes. */
  ghost function LostAt(run: seq<Sys>, i: nat, m: Mode, n: nat): nat
    requires i < |run|
  {
    if i == 0 then 0
    else LostAt(run, i - 1, m, n) + if exists a: Agent :: a.node == n && Loses(run[i - 1], run[i], a, m) then 1 else 0
  }

  ghost function SumLost(run: seq<Sys>, i: nat, m: Mode, k: nat): nat
    requires i < |run|
  {
    if k == 0 then 0 else SumLost(run, i, m, k - 1) + LostAt(run, i, m, k - 1)
  }

  /** Units lost in the whole run. */
  ghost function AllLost(run: seq<Sys>, i: nat): nat
    requires i < |run|
  {
    var k := |run[0].nodes|;
    SumLost(run, i, S, k) + SumLost(run, i, SX, k) + SumLost(run, i, X, k)
  }

  lemma LossIsCallers(s: Sys, t: Sys, a: Agent, m: Mode, n: nat)
    requires t.pc == s.pc[a := PcOf(t, a)]
    ensures (exists b: Agent :: b.node == n && Loses(s, t, b, m)) <==> n == a.node && Loses(s, t, a, m)
  {
    forall b: Agent | b != a ensures !Loses(s, t, b, m) {
      assert PcOf(t, b) == PcOf(s, b);
    }
  }

  lemma {:induction false} LostStep(run: seq<Sys>, i: nat, a: Agent, m: Mode, k: nat)
    requires 0 < i < |run| && run[i].pc == run[i - 1].pc[a := PcOf(run[i], a)]
    ensures SumLost(run, i, m, k) == SumLost(run, i - 1, m, k) + Bit(a.node < k && Loses(run[i - 1], run[i], a, m))
    decreases k
  {
    hide Loses;
    if k > 0 {
      LostStep(run, i, a, m, k - 1);
      LossIsCallers(run[i - 1], run[i], a, m, k - 1);
    }
  }

  lemma {:induction false} LostNone(run: seq<Sys>, m: Mode, k: nat)
    requires |run| > 0
    ensures SumLost(run, 0, m, k) == 0
  {
    if k > 0 { LostNone(run, m, k - 1); }
  }

  // ---- the reservation word -----------------------------------------------------------------

  /** Calls that have reserved and not yet parked, or have taken a token and not yet cleared the reservation. */
  predicate Parking(p: Pc) { p.Park? || p.Inherit? || p.DropReserve? || p.HHeld? }

  function Parkers(s: Sys): set<Agent> { set a | a in s.pc && Parking(s.pc[a]) }

  function Tokens(s: Sys): set<nat> { set n | 0 <= n < |s.nodes| && s.nodes[n].token != NoToken }

  function LossBits(s: Sys, t: Sys, a: Agent): nat {
    Bit(Loses(s, t, a, S)) + Bit(Loses(s, t, a, SX)) + Bit(Loses(s, t, a, X))
  }

  /** The reservation changes by what the caller, its node's token and the losses change. */
  predicate Reserves(s: Sys, t: Sys, a: Agent)
    requires Moved(s, t, a)
  {
    Bit(Parking(PcOf(t, a))) - Bit(Parking(PcOf(s, a)))
    + Bit(t.nodes[a.node].token != NoToken) - Bit(s.nodes[a.node].token != NoToken)
    + LossBits(s, t, a)
    == Bit(t.reserve != Nobody) - Bit(s.reserve != Nobody)
  }

  lemma ModeCases(m: Mode)
    ensures m == S || m == SX || m == X
  {
  }

  lemma LockingReserves(u: Usage, s: Sys, t: Sys, a: Agent)
    requires Moved(s, t, a) && (EnterStep(u, s, t, a) || ClaimStep(s, t, a) || ContendStep(u, s, t, a))
    ensures Reserves(s, t, a)
  {
  }

  lemma TokenReserves(s: Sys, t: Sys, a: Agent)
    requires Moved(s, t, a) && TokenStep(s, t, a) && (Parking(PcOf(s, a)) ==> s.reserve != Nobody)
    ensures Reserves(s, t, a)
  {
    if PcOf(s, a).HHeld? { ModeCases(PcOf(s, a).unit); }
  }

  lemma UnlockingReserves(u: Usage, s: Sys, t: Sys, a: Agent)
    requires Moved(s, t, a)
    requires UnlockSharedStep(u, s, t, a) || UnlockExclusiveStep(u, s, t, a) || LeaveStep(s, t, a)
    ensures Reserves(s, t, a)
  {
  }

  lemma GiveBackReserves(s: Sys, t: Sys, a: Agent)
    requires Moved(s, t, a) && GiveBackStep(s, t, a)
    ensures Reserves(s, t, a)
  {
    if s.nodes[a.node].token.Parked? { ModeCases(s.nodes[a.node].token.mode); }
  }

  lemma StepReserves(u: Usage, s: Sys, t: Sys, a: Agent)
    requires Moved(s, t, a) && AgentStep(u, s, t, a) && (Parking(PcOf(s, a)) ==> s.reserve != Nobody)
    ensures Reserves(s, t, a)
  {
    hide Reserves, Moved, Parking;
    hide EnterStep, TokenStep, UnlockExclusiveStep, LeaveStep, ClaimStep, ContendStep, UnlockSharedStep, GiveBackStep;
    if EnterStep(u, s, t, a) || ClaimStep(s, t, a) || ContendStep(u, s, t, a) { LockingReserves(u, s, t, a); }
    else if TokenStep(s, t, a) { TokenReserves(s, t, a); }
    else if GiveBackStep(s, t, a) { GiveBackReserves(s, t, a); }
    else { UnlockingReserves(u, s, t, a); }
  }

  lemma ParkerSet(s: Sys, t: Sys, a: Agent)
    requires Moved(s, t, a)
    ensures Parkers(t) == if Parking(PcOf(t, a)) then Parkers(s) + {a} else Parkers(s) - {a}
    ensures a in Parkers(s) <==> Parking(PcOf(s, a))
  {
  }

  lemma TokenSet(s: Sys, t: Sys, a: Agent)
    requires Moved(s, t, a)
    ensures Tokens(t) == if t.nodes[a.node].token != NoToken then Tokens(s) + {a.node} else Tokens(s) - {a.node}
    ensures a.node in Tokens(s) <==> s.nodes[a.node].token != NoToken
  {
  }

  lemma OneAside<T>(who: set<T>, a: T)
    ensures |who + {a}| == |who| + 1 - Bit(a in who)
    ensures |who - {a}| == |who| - Bit(a in who)
  {
    assert a in who ==> who + {a} == who;
    assert a !in who ==> who - {a} == who;
  }

  lemma StepShifts(u: Usage, s: Sys, t: Sys, a: Agent)
    requires Moved(s, t, a) && AgentStep(u, s, t, a) && (Parkers(s) != {} ==> s.reserve != Nobody)
    ensures |Parkers(t)| + |Tokens(t)| + LossBits(s, t, a) - Bit(t.reserve != Nobody) ==
      |Parkers(s)| + |Tokens(s)| - Bit(s.reserve != Nobody)
  {
    hide AgentStep, Parkers, Tokens, Parking, LossBits, Moved;
    ParkerSet(s, t, a);
    TokenSet(s, t, a);
    StepReserves(u, s, t, a);
    OneAside(Parkers(s), a);
    OneAside(Tokens(s), a.node);
  }

  lemma {:induction false} AllLostStep(run: seq<Sys>, i: nat, a: Agent)
    requires 0 < i < |run| && run[i].pc == run[i - 1].pc[a := PcOf(run[i], a)] && a.node < |run[0].nodes|
    ensures AllLost(run, i) == AllLost(run, i - 1) + LossBits(run[i - 1], run[i], a)
  {
    var k := |run[0].nodes|;
    hide SumLost, Loses;
    LostStep(run, i, a, S, k);
    LostStep(run, i, a, SX, k);
    LostStep(run, i, a, X, k);
  }

  lemma NothingYet(run: seq<Sys>)
    requires |run| > 0
    ensures AllLost(run, 0) == 0
  {
    LostNone(run, S, |run[0].nodes|);
    LostNone(run, SX, |run[0].nodes|);
    LostNone(run, X, |run[0].nodes|);
  }

  lemma NothingParkedYet(s: Sys)
    requires Init(s)
    ensures |Parkers(s)| == |Tokens(s)| == 0 && s.reserve == Nobody
  {
    assert Parkers(s) == {} && Tokens(s) == {};
  }

  /** The reservation word is set exactly while a unit is in or around a token, or was lost from one. */
  lemma {:induction false} ReservationExact(u: Usage, run: seq<Sys>, i: nat)
    requires IsRun(u, run) && i < |run|
    ensures |Parkers(run[i])| + |Tokens(run[i])| + AllLost(run, i) == if run[i].reserve != Nobody then 1 else 0
    decreases i
  {
    hide AgentStep, Parkers, Tokens, AllLost, LossBits, Init;
    if i == 0 {
      NothingYet(run);
      NothingParkedYet(run[0]);
    } else {
      var s, t := run[i - 1], run[i];
      ReservationExact(u, run, i - 1);
      assert Next(u, s, t);
      var a :| AgentStep(u, s, t, a);
      StepMoves(u, s, t, a);
      NodesStay(u, run, i - 1);
      assert Parkers(s) != {} ==> |Parkers(s)| > 0;
      hide IsRun;
      StepShifts(u, s, t, a);
      AllLostStep(run, i, a);
    }
  }

  // ---- nothing lost ---------------------------------------------------------------------------

  ghost predicate SomeLoss(s: Sys, t: Sys) { exists a, m :: Loses(s, t, a, m) }

  ghost predicate NoTokenLost(run: seq<Sys>, i: nat)
    requires i < |run|
  {
    forall j :: 0 < j <= i ==> !SomeLoss(run[j - 1], run[j])
  }

  lemma OnlyCallerLoses(s: Sys, t: Sys, a: Agent)
    requires t.pc == s.pc[a := PcOf(t, a)]
    ensures SomeLoss(s, t) <==> LossBits(s, t, a) != 0
  {
    hide Loses;
    if SomeLoss(s, t) {
      var b, m :| Loses(s, t, b, m);
      CallerLoses(s, t, a, b, m);
      ModeCases(m);
    }
  }

  lemma CallerLoses(s: Sys, t: Sys, a: Agent, b: Agent, m: Mode)
    requires t.pc == s.pc[a := PcOf(t, a)] && Loses(s, t, b, m)
    ensures b == a
  {
    assert b != a ==> PcOf(t, b) == PcOf(s, b);
  }

  lemma {:induction false} LostMeans(u: Usage, run: seq<Sys>, i: nat)
    requires IsRun(u, run) && i < |run|
    ensures AllLost(run, i) == 0 <==> NoTokenLost(run, i)
    decreases i
  {
    hide AgentStep, AllLost, LossBits, SomeLoss, Init;
    if i == 0 {
      NothingYet(run);
    } else {
      LostMeans(u, run, i - 1);
      assert Next(u, run[i - 1], run[i]);
      var a :| AgentStep(u, run[i - 1], run[i], a);
      StepMoves(u, run[i - 1], run[i], a);
      NodesStay(u, run, i - 1);
      hide IsRun;
      AllLostStep(run, i, a);
      OnlyCallerLoses(run[i - 1], run[i], a);
    }
  }
}
