/**
Nested X locking with the recursive policy and no delayed release. Two
counters, one in the node's local lock and one in the shared lock, both 32 bits
wide, behave as one nesting depth. Calls are taken one at a time; a call that
would have to wait times out.
*/
module XRecursion {
  import opened LockTypes

  /** tid is never 0; 0 means no local owner. */
  datatype Agent = Agent(node: nat, tid: nat)

  datatype Result = Success | Timeout | Error

  /** LocalLock: lock_word taken by X or idle, lock_x_owner, x_recursive_. */
  datatype Local = Local(taken: bool, owner: nat, rec: nat)

  const IDLE := Local(false, 0, 0)

  datatype State = State(word: int, owner: Option<Agent>, rec: nat, locals: map<nat, Local>)

  function LocalOf(s: State, n: nat): Local { if n in s.locals then s.locals[n] else IDLE }

  function Put(s: State, n: nat, l: Local): State { s.(locals := s.locals[n := l]) }

  // ---- the local lock -----------------------------------------------------------------------

  function LocalLockX(l: Local, tid: nat): (Local, Result) {
    if l.owner == tid then (l.(rec := (l.rec + 1) % U32), Success)
    else if !l.taken then (Local(true, tid, 1), Success)
    else (l, Timeout)
  }

  function LocalUnlockX(l: Local, tid: nat): (Local, Result) {
    if l.owner != tid then (l, Error)
    else if l.rec > 1 then (l.(rec := l.rec - 1), Success)
    else (IDLE, Success)
  }

  // ---- the shared lock ------------------------------------------------------------------------

  function LockX(s: State, a: Agent): (State, Result) {
    var (l, r) := LocalLockX(LocalOf(s, a.node), a.tid);
    if r != Success then (s, r)
    else if s.owner == Some(a) then (Put(s, a.node, l).(rec := (s.rec + 1) % U32), Success)
    else if s.word == FREE then (Put(s, a.node, l).(word := 0, owner := Some(a), rec := 1), Success)
    else (Put(s, a.node, LocalUnlockX(l, a.tid).0), Timeout)
  }

  function UnlockX(s: State, a: Agent): (State, Result) {
    if s.owner != Some(a) then (s, Error)
    else
      var t := if s.rec > 1 then s.(rec := s.rec - 1) else s.(owner := None, rec := 0, word := FREE);
      var (l, r) := LocalUnlockX(LocalOf(s, a.node), a.tid);
      (Put(t, a.node, l), r)
  }

  // ---- what it refines: one holder and a depth -----------------------------------------------------

  datatype Holder = Nobody | Holder(agent: Agent, depth: nat)

  datatype Call = Lock(agent: Agent) | Unlock(agent: Agent)

  function Nest(h: Holder, c: Call): (Holder, Result) {
    match c
    case Lock(a) =>
      if h.Nobody? then (Holder(a, 1), Success)
      else if h.agent == a then (Holder(a, h.depth + 1), Success)
      else (h, Timeout)
    case Unlock(a) =>
      if h.Nobody? || h.agent != a then (h, Error)
      else if h.depth > 1 then (Holder(a, h.depth - 1), Success)
      else (Nobody, Success)
  }

  function Run(s: State, c: Call): (State, Result) {
    match c
    case Lock(a) => LockX(s, a)
    case Unlock(a) => UnlockX(s, a)
  }

  /** Both counters equal the depth, and the words are taken exactly while it is positive. */
  ghost predicate Stands(s: State, h: Holder) {
    match h
    case Nobody => s.word == FREE && s.owner == None && s.rec == 0 && forall n :: LocalOf(s, n) == IDLE
    case Holder(a, d) =>
      && s.word == 0 && s.owner == Some(a) && s.rec == d && 0 < d < U32 && a.tid != 0
      && LocalOf(s, a.node) == Local(true, a.tid, d) && forall n :: n != a.node ==> LocalOf(s, n) == IDLE
  }

  /** The counters have room: this call does not take the depth to 2^32. */
  predicate HasRoom(h: Holder, c: Call) { c.Lock? && h.Holder? && h.agent == c.agent ==> h.depth + 1 < U32 }

  /** A call touches the local lock of its own node only. */
  lemma OtherLocals(s: State, c: Call, m: nat)
    ensures m != c.agent.node ==> LocalOf(Run(s, c).0, m) == LocalOf(s, m)
  {
  }

  lemma CallStands(s: State, h: Holder, c: Call)
    requires Stands(s, h) && c.agent.tid != 0 && HasRoom(h, c)
    ensures Stands(Run(s, c).0, Nest(h, c).0) && Run(s, c).1 == Nest(h, c).1
  {
    forall m ensures m != c.agent.node ==> LocalOf(Run(s, c).0, m) == LocalOf(s, m) { OtherLocals(s, c, m); }
  }

  // ---- the objects the source keeps these fields in ----------------------------------------------------

  class RecursiveLock {
    var word: int
    var owner: Option<Agent>
    var rec: nat
    var locals: map<nat, Local>

    constructor ()
      ensures Get() == State(FREE, None, 0, map[]) && Stands(Get(), Nobody)
    {
      word, owner, rec, locals := FREE, None, 0, map[];
    }

    function Get(): State
      reads this
    {
      State(word, owner, rec, locals)
    }

    method Lock(a: Agent) returns (r: Result)
      modifies this
      ensures (Get(), r) == LockX(old(Get()), a)
      ensures forall h :: old(Stands(Get(), h)) && a.tid != 0 && HasRoom(h, Call.Lock(a)) ==>
        Stands(Get(), Nest(h, Call.Lock(a)).0) && r == Nest(h, Call.Lock(a)).1
    {
      forall h | Stands(Get(), h) && a.tid != 0 && HasRoom(h, Call.Lock(a))
        ensures Stands(LockX(Get(), a).0, Nest(h, Call.Lock(a)).0) && LockX(Get(), a).1 == Nest(h, Call.Lock(a)).1
      {
        CallStands(Get(), h, Call.Lock(a));
      }
      hide Stands, Nest, HasRoom;
      var l := LocalOf(Get(), a.node);
      if l.owner == a.tid {
        l := l.(rec := (l.rec + 1) % U32);
      } else if l.taken {
        return Timeout;
      } else {
        l := Local(true, a.tid, 1);
      }
      if owner == Some(a) {
        locals := locals[a.node := l];
        rec := (rec + 1) % U32;
        return Success;
      }
      if word == FREE {
        locals := locals[a.node := l];
        word, owner, rec := 0, Some(a), 1;
        return Success;
      }
      l := if l.rec > 1 then l.(rec := l.rec - 1) else IDLE;
      locals := locals[a.node := l];
      return Timeout;
    }

    method Unlock(a: Agent) returns (r: Result)
      modifies this
      ensures (Get(), r) == UnlockX(old(Get()), a)
      ensures forall h :: old(Stands(Get(), h)) && a.tid != 0 ==>
        Stands(Get(), Nest(h, Call.Unlock(a)).0) && r == Nest(h, Call.Unlock(a)).1
    {
      forall h | Stands(Get(), h) && a.tid != 0
        ensures Stands(UnlockX(Get(), a).0, Nest(h, Call.Unlock(a)).0)
        ensures UnlockX(Get(), a).1 == Nest(h, Call.Unlock(a)).1
      {
        CallStands(Get(), h, Call.Unlock(a));
      }
      hide Stands, Nest;
      if owner != Some(a) {
        return Error;
      }
      var l := LocalOf(Get(), a.node);
      var before := rec;
      if before > 1 {
        rec := before - 1;
      } else {
        owner, rec, word := None, 0, FREE;
      }
      if l.owner != a.tid {
        locals := locals[a.node := l];
        return Error;
      }
      l := if l.rec > 1 then l.(rec := l.rec - 1) else IDLE;
      locals := locals[a.node := l];
      return Success;
    }
  }

  // ---- every sequence of calls -----------------------------------------------------------------------

  function NestAll(h: Holder, calls: seq<Call>): Holder
    decreases |calls|
  {
    if calls == [] then h else NestAll(Nest(h, calls[0]).0, calls[1..])
  }

  function RunAll(s: State, calls: seq<Call>): State
    decreases |calls|
  {
    if calls == [] then s else RunAll(Run(s, calls[0]).0, calls[1..])
  }

  predicate Roomy(h: Holder, calls: seq<Call>)
    decreases |calls|
  {
    calls == [] ||
    (calls[0].agent.tid != 0 && HasRoom(h, calls[0]) && Roomy(Nest(h, calls[0]).0, calls[1..]))
  }

  /**
  For every sequence of calls by any threads, nested in any way: between calls
  both counters equal the depth, and the shared word is free exactly when the
  outermost lock has been matched.
  */
  lemma {:induction false} RecursionRefines(s: State, h: Holder, calls: seq<Call>)
    requires Stands(s, h) && Roomy(h, calls)
    ensures Stands(RunAll(s, calls), NestAll(h, calls))
    ensures RunAll(s, calls).word == FREE <==> NestAll(h, calls).Nobody?
    decreases |calls|
  {
    hide Stands;
    if calls == [] {
      StandsWord(s, h);
    } else {
      CallStands(s, h, calls[0]);
      RecursionRefines(Run(s, calls[0]).0, Nest(h, calls[0]).0, calls[1..]);
    }
  }

  lemma StandsWord(s: State, h: Holder)
    requires Stands(s, h)
    ensures s.word == FREE <==> h.Nobody?
  {
  }

  /** At depth 2^32 - 1 one more lock wraps both counters, and the next unlock frees the lock under its holder. */
  lemma DepthWraps(s: State, a: Agent)
    requires Stands(s, Holder(a, U32 - 1))
    ensures var t := Run(s, Lock(a)).0; Run(s, Lock(a)).1 == Success && t.rec == 0 && Run(t, Unlock(a)).0.word == FREE
  {
    assert LocalOf(Run(s, Lock(a)).0, a.node).rec == 0;
  }

  /** So a call keeps the two levels in step if and only if the counters have room for it. */
  lemma RoomExactly(s: State, h: Holder, c: Call)
    requires Stands(s, h) && c.agent.tid != 0
    ensures Stands(Run(s, c).0, Nest(h, c).0) <==> HasRoom(h, c)
  {
    if HasRoom(h, c) { CallStands(s, h, c); }
  }
}
