/**
The two-level S/SX/X lock as a step system.

Every node has a local lock word (module LocalWord); above them is one shared
lock word: FREE when nobody holds it, one less per shared unit, HALF less for
the shared-exclusive unit, zero for the exclusive one. Threads of a node share
one global S through a leader and a reference count. An unlock may park its
global unit in the node's token, where a later local locker inherits it or a
remote release message frees it.

One step is one atomic access to a shared word. Timeouts, weak-CAS failures,
waiting counts, and the arrival of release messages are free choices. Calls
are non-recursive; a thread may have several calls outstanding.
*/
module TwoLevelLock {
  import LockTypes
  import opened LocalWord

  const FREE := LockTypes.FREE
  const HALF := LockTypes.HALF
  const INT32_MAX := 0x7FFF_FFFF

  datatype Mode = S | SX | X

  datatype Token = NoToken | Parked(mode: Mode)          // local_is_reserve_lock

  datatype Owner = Nobody | By(node: nat, tid: int)

  datatype GlobalState = GIdle | GPending | GHeld        // global_state_

  datatype Node = Node(word: Word, token: Token, releasing: bool, gstate: GlobalState, refs: int)

  /** Why a token is being given back: by a lock call of some mode, or by a release message. */
  datatype Goal = ForLock(mode: Mode) | ForMessage

  /** Where a call stands. */
  datatype Pc =
    | Idle
    | SEnter                               // holds local S, top of wait_or_claim_global_s
    | SSaw                                 // try_inc_global_ref: saw HELD
    | SRef(ref: int)                       // try_inc_global_ref: loaded a positive count
    | SCas(ref: int)                       // try_inc_global_ref: saw HELD again, CAS pending
    | TakeToken(mode: Mode)                // delay_release_local_lock: exchange pending
    | Inherit(mode: Mode)                  // took a token of its own mode
    | DropReserve(unit: Mode, goal: Goal)  // delay_unlock: clear reserve_lock_owner
    | DropOwner(unit: Mode, goal: Goal)    // delay_unlock: clear the owner word
    | DropWord(unit: Mode, goal: Goal)     // delay_unlock: give the unit back
    | CheckOwner(mode: Mode)               // lock_x / lock_sx: compare the owner word
    | Contend(mode: Mode)                  // spin_wait_*_loop
    | Got(mode: Mode)                      // holds a unit, bookkeeping store pending
    | SPublish                             // stored ref 1, GLOBAL_HELD pending
    | SFail                                // cleanup_and_unlock_local: GLOBAL_IDLE pending
    | SFailRef                             // cleanup_and_unlock_local: ref := 0 pending
    | Holding(mode: Mode)                  // lock_* returned success
    | SUndo                                // unlock_s took the old_ref <= 0 branch
    | Release                              // unlock_s: old_ref was 1
    | ClearToken(mode: Mode)               // unlock, not delayed
    | PutOwner(mode: Mode)
    | PutWord(mode: Mode)
    | Park(mode: Mode)                     // unlock, delayed: claimed the reserve word
    | After(mode: Mode)                    // global part done, global_state_ pending
    | Leave(mode: Mode)                    // local unlock pending
    | HTake                                // UB_RELEASE handler: exchange pending
    | HHeld(unit: Mode)                    // UB_RELEASE handler: is_held pending
    | HEnd                                 // UB_RELEASE handler: end_remote_release pending
    | SOver                                // unlock_s: the word went past FREE, subtraction pending
    | Refused(mode: Mode)                  // an unlock by a holder returned UB_LOCK_ERROR, the local lock still held

  datatype Sys = Sys(word: int, ownerX: Owner, ownerSX: Owner, reserve: Owner, nodes: seq<Node>, pc: map<Agent, Pc>)

  /**
  How unlock_s behaves when it finds a reference count that is not positive.
  AsWritten is the code: decrement, notice, increment back, as two steps.
  */
  datatype StrayUnlock = Never | Undone | AsWritten

  /**
  Which runs are meant. Callers decide whether SX and delayed release are used
  and whether an S lock that leads for its node may fail, that is, time out on
  the shared word. The code decides the rest: it is stray == AsWritten, and it
  cleans up after a failed leader in two stores, oneStepCleanup == false.
  */
  datatype Usage = Usage(stray: StrayUnlock, sx: bool, delay: bool, leadersFail: bool, oneStepCleanup: bool)

  function PcOf(s: Sys, a: Agent): Pc {
    if a in s.pc then s.pc[a] else Idle
  }

  function OwnerOf(s: Sys, m: Mode): Owner { if m == X then s.ownerX else s.ownerSX }

  function SetOwner(s: Sys, m: Mode, o: Owner): Sys {
    if m == X then s.(ownerX := o) else s.(ownerSX := o)
  }

  function Me(a: Agent): Owner { By(a.node, a.tid) }

  function Go(s: Sys, a: Agent, p: Pc): Sys { s.(pc := s.pc[a := p]) }

  function PutNode(s: Sys, a: Agent, nd: Node): Sys
    requires a.node < |s.nodes|
  {
    s.(nodes := s.nodes[a.node := nd])
  }

  predicate Init(s: Sys) {
    && s.word == FREE && s.ownerX == Nobody && s.ownerSX == Nobody && s.reserve == Nobody
    && (forall n :: 0 <= n < |s.nodes| ==> s.nodes[n] == Node(IDLE_WORD, NoToken, false, GIdle, 0))
    && s.pc == map[]
  }

  // ---- starting a call: the local lock, or a release message -----------------

  predicate EnterStep(u: Usage, s: Sys, t: Sys, a: Agent)
    requires a.node < |s.nodes|
  {
    var nd := s.nodes[a.node];
    var lane := nd.word.At(LaneOf(a));
    && PcOf(s, a).Idle?
    && (|| (&& !lane.sentinel && lane.count < MAX_COUNT
            && t == Go(PutNode(s, a, nd.(word := nd.word.Put(LaneOf(a), OneMore(lane)))), a, SEnter))
        || (&& u.sx && !nd.word.l0.sentinel && !nd.word.l0.flag
            && t == Go(PutNode(s, a, nd.(word := nd.word.Put(0, nd.word.l0.(flag := true)))), a, TakeToken(SX)))
        || (&& nd.word == IDLE_WORD
            && t == Go(PutNode(s, a, nd.(word := X_WORD)), a, TakeToken(X)))
        || (&& !nd.releasing
            && t == Go(PutNode(s, a, nd.(releasing := true)), a, HTake)))
  }

  // ---- sharing the node's global S --------------------------------------------

  predicate ClaimStep(s: Sys, t: Sys, a: Agent)
    requires a.node < |s.nodes|
  {
    var nd := s.nodes[a.node];
    match PcOf(s, a)
    case SEnter =>
      || (nd.gstate == GHeld && t == Go(s, a, SSaw))
      || (nd.gstate == GIdle && t == Go(PutNode(s, a, nd.(gstate := GPending)), a, TakeToken(S)))
      || (nd.gstate != GIdle && t == Go(s, a, Leave(S)))   // the deadline passed
    case SSaw => t == Go(s, a, if nd.refs > 0 then SRef(nd.refs) else SEnter)
    case SRef(ref) => t == Go(s, a, if ref >= INT32_MAX || nd.gstate != GHeld then SEnter else SCas(ref))
    case SCas(ref) =>
      || (nd.refs == ref && t == Go(PutNode(s, a, nd.(refs := ref + 1)), a, Holding(S)))
      || t == Go(s, a, if nd.refs > 0 then SRef(nd.refs) else SEnter)
    case _ => false
  }

  // ---- the parked token ----------------------------------------------------------

  function AfterToken(goal: Goal): Pc {
    match goal
    case ForMessage => HEnd
    case ForLock(m) => if m == S then Contend(S) else CheckOwner(m)
  }

  /** What delay_unlock does to the shared word for each kind of unit. */
  function GiveBack(word: int, m: Mode): int {
    match m
    case S => word + 1
    case SX => word + HALF
    case X => FREE
  }

  predicate TokenStep(s: Sys, t: Sys, a: Agent)
    requires a.node < |s.nodes|
  {
    var nd := s.nodes[a.node];
    var untaken := PutNode(s, a, nd.(token := NoToken));
    match PcOf(s, a)
    case TakeToken(m) =>
      t == Go(untaken, a,
              if nd.token == NoToken then AfterToken(ForLock(m))
              else if nd.token == Parked(m) then Inherit(m)
              else DropReserve(nd.token.mode, ForLock(m)))
    case Inherit(m) => t == Go(s.(reserve := Nobody), a, Got(m))
    case DropReserve(unit, goal) =>
      t == Go(s.(reserve := Nobody), a, if unit == S then DropWord(unit, goal) else DropOwner(unit, goal))
    case DropOwner(unit, goal) => t == Go(SetOwner(s, unit, Nobody), a, DropWord(unit, goal))
    case DropWord(unit, goal) => t == Go(s.(word := GiveBack(s.word, unit)), a, AfterToken(goal))
    case HTake =>
      t == Go(untaken, a, if nd.token == NoToken then HEnd else HHeld(nd.token.mode))
    case HHeld(unit) => t == Go(s, a, if nd.word != IDLE_WORD then HEnd else DropReserve(unit, ForMessage))
    case HEnd => t == Go(PutNode(s, a, nd.(releasing := false)), a, Idle)
    case _ => false
  }

  // ---- taking a global unit ----------------------------------------------------------

  predicate CanTake(word: int, m: Mode) {
    match m
    case S => word > 0
    case SX => word > HALF
    case X => word == FREE
  }

  function TakeUnit(word: int, m: Mode): int {
    match m
    case S => word - 1
    case SX => word - HALF
    case X => 0
  }

  predicate ContendStep(u: Usage, s: Sys, t: Sys, a: Agent)
    requires a.node < |s.nodes|
  {
    var nd := s.nodes[a.node];
    match PcOf(s, a)
    case CheckOwner(m) => t == Go(s, a, if OwnerOf(s, m) == Me(a) then Leave(m) else Contend(m))
    case Contend(m) =>
      || (CanTake(s.word, m) && t == Go(s.(word := TakeUnit(s.word, m)), a, Got(m)))
      || ((m == S ==> u.leadersFail) && t == Go(s, a, if m == S then SFail else Leave(m)))
    case Got(m) =>
      if m == S then t == Go(PutNode(s, a, nd.(refs := 1)), a, SPublish)
      else t == Go(SetOwner(s, m, Me(a)), a, Holding(m))
    case SPublish => t == Go(PutNode(s, a, nd.(gstate := GHeld)), a, Holding(S))
    case SFail =>
      if u.oneStepCleanup then t == Go(PutNode(s, a, nd.(gstate := GIdle, refs := 0)), a, Leave(S))
      else t == Go(PutNode(s, a, nd.(gstate := GIdle)), a, SFailRef)
    case SFailRef => t == Go(PutNode(s, a, nd.(refs := 0)), a, Leave(S))
    case _ => false
  }

  // ---- unlocking -----------------------------------------------------------------------

  predicate UnlockSharedStep(u: Usage, s: Sys, t: Sys, a: Agent)
    requires a.node < |s.nodes|
  {
    var nd := s.nodes[a.node];
    var lane := nd.word.At(LaneOf(a));
    var less := PutNode(s, a, nd.(refs := nd.refs - 1));
    match PcOf(s, a)
    case Holding(S) =>
      if lane.sentinel || lane.count == 0 then t == Go(s, a, Refused(S))
      else if nd.refs > 1 then t == Go(less, a, Leave(S))
      else if nd.refs == 1 then t == Go(less, a, Release)
      else
        (match u.stray
         case Never => false
         case Undone => t == Go(s, a, Holding(S))
         case AsWritten => t == Go(less, a, SUndo))
    case SUndo => t == Go(PutNode(s, a, nd.(refs := nd.refs + 1)), a, Holding(S))
    case Release =>
      || (u.delay && s.reserve == Nobody && t == Go(s.(reserve := Me(a)), a, Park(S)))
      || t == Go(s, a, ClearToken(S))
    case _ => false
  }

  predicate UnlockExclusiveStep(u: Usage, s: Sys, t: Sys, a: Agent)
    requires a.node < |s.nodes|
  {
    match PcOf(s, a)
    case Holding(m) =>
      && m != S
      && (|| (u.delay && s.reserve == Nobody && t == Go(s.(reserve := Me(a)), a, Park(m)))
          || t == Go(s, a, if OwnerOf(s, m) == Me(a) then ClearToken(m) else Refused(m)))
    case _ => false
  }

  predicate GiveBackStep(s: Sys, t: Sys, a: Agent)
    requires a.node < |s.nodes|
  {
    var nd := s.nodes[a.node];
    match PcOf(s, a)
    case ClearToken(m) =>
      t == Go(PutNode(s, a, nd.(token := NoToken)), a, if m == S then PutWord(S) else PutOwner(m))
    case PutOwner(m) => t == Go(SetOwner(s, m, Nobody), a, PutWord(m))
    case PutWord(m) =>
      if m == S && s.word + 1 > FREE then t == Go(s.(word := s.word + 1), a, SOver)
      else
        || t == Go(s.(word := GiveBack(s.word, m)), a, After(m))
        // readers remain and no waiter is found: returns with the local SX bit still set
        || (m == SX && GiveBack(s.word, m) != FREE && t == Go(s.(word := GiveBack(s.word, m)), a, Idle))
    case SOver => t == Go(s.(word := s.word - 1), a, Refused(S))
    case Park(m) => t == Go(PutNode(s, a, nd.(token := Parked(m))), a, After(m))
    case After(m) =>
      t == Go(PutNode(s, a, if m == S && nd.gstate != GHeld then nd else nd.(gstate := GIdle)), a, Leave(m))
    case _ => false
  }

  predicate LeaveStep(s: Sys, t: Sys, a: Agent)
    requires a.node < |s.nodes|
  {
    var nd := s.nodes[a.node];
    var lane := nd.word.At(LaneOf(a));
    match PcOf(s, a)
    case Leave(S) =>
      if lane.sentinel || lane.count == 0 then t == Go(s, a, Refused(S))
      else t == Go(PutNode(s, a, nd.(word := nd.word.Put(LaneOf(a), OneLess(lane)))), a, Idle)
    case Leave(SX) =>
      if !nd.word.l0.flag then t == Go(s, a, Refused(SX))
      else t == Go(PutNode(s, a, nd.(word := nd.word.Put(0, nd.word.l0.(flag := false)))), a, Idle)
    case Leave(X) => t == Go(PutNode(s, a, nd.(word := IDLE_WORD)), a, Idle)
    case _ => false
  }

  predicate AgentStep(u: Usage, s: Sys, t: Sys, a: Agent) {
    && a.node < |s.nodes|
    && (|| EnterStep(u, s, t, a)
        || ClaimStep(s, t, a)
        || TokenStep(s, t, a)
        || ContendStep(u, s, t, a)
        || UnlockSharedStep(u, s, t, a)
        || UnlockExclusiveStep(u, s, t, a)
        || GiveBackStep(s, t, a)
        || LeaveStep(s, t, a))
  }

  ghost predicate Next(u: Usage, s: Sys, t: Sys) {
    exists a :: AgentStep(u, s, t, a)
  }

  ghost predicate IsRun(u: Usage, run: seq<Sys>) {
    && |run| > 0 && Init(run[0])
    && forall i :: 0 < i < |run| ==> Next(u, run[i - 1], run[i])
  }

  /** What a read-write lock promises: X shares with nobody, SX not with SX. */
  predicate Conflict(p: Pc, q: Pc) {
    || (p == Holding(X) && q.Holding?)
    || (p.Holding? && q == Holding(X))
    || (p == Holding(SX) && q == Holding(SX))
  }

  ghost predicate Excludes(s: Sys) {
    forall a, b :: a != b ==> !Conflict(PcOf(s, a), PcOf(s, b))
  }
}
