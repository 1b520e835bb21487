/**
The two-level mutex as a step system: a registry of local lock objects per
node, the local owner and user count of each object, and the global owner word.
Every load, CAS, store and fetch-op is one step; calls under the registry's
reader lock are one step too, and lock_free holds the writer lock over its
three loads. Queues and time are left to free choice.
*/
module MutexLock {
  import opened LockTypes

  /** A thread: its node and its tid there. */
  datatype Agent = Agent(node: nat, tid: nat)

  /** MutexLocalLock: its owner word and active_users. */
  datatype Object = Object(owner: Option<Agent>, active: int)

  datatype Pc =
    | Idle
    | LookUp                  // lock: the global owner was not the caller
    | Found(o: nat)           // user of o, own local hold to be ruled out
    | Claim(o: nat)           // lock_mutex_local
    | Contend(o: nat)         // local owner set, acquire_global pending
    | Won(o: nat)             // global owner set, active_users to be given back
    | Undo(o: nat)            // acquire_global failed: unlock_mutex_local, owner load pending
    | UndoStore(o: nat)
    | GiveUp(o: nat)          // active_users to be given back, then return an error
    | Holding
    | ReLook                  // unlock: the global owner was the caller
    | Check(o: nat)           // user of o, local owner to be compared
    | Release(o: nat)         // CAS of the global owner pending
    | Drop(o: nat)            // unlock_mutex_local, owner load pending
    | DropStore(o: nat)
    | Done(o: nat)            // active_users to be given back, then return
    | Refuse(o: nat)          // unlock found the words changed: active_users to be given back, then an error
    | Failed                  // unlock returned an error to the holder

  datatype FreePc = SawNoOwner(o: nat) | SawNoWaiters(o: nat)

  datatype Sys = Sys(
    owner: Option<Agent>,           // lock_owner
    objects: seq<Object>,           // every local object ever made
    registered: map<nat, nat>,      // node to object: the map entry of this lock
    freeing: map<nat, FreePc>,      // nodes whose lock_free holds the registry's writer lock
    pc: map<Agent, Pc>)

  function PcOf(s: Sys, a: Agent): Pc { if a in s.pc then s.pc[a] else Idle }

  function Go(s: Sys, a: Agent, p: Pc): Sys { s.(pc := s.pc[a := p]) }

  function PutOwner(s: Sys, o: nat, who: Option<Agent>): Sys
    requires o < |s.objects|
  {
    s.(objects := s.objects[o := s.objects[o].(owner := who)])
  }

  function AddUsers(s: Sys, o: nat, n: int): Sys
    requires o < |s.objects|
  {
    s.(objects := s.objects[o := s.objects[o].(active := s.objects[o].active + n)])
  }

  predicate Known(s: Sys, a: Agent) {
    && (a.node in s.registered ==> s.registered[a.node] < |s.objects|)
    && match PcOf(s, a)
       case Found(o) => o < |s.objects|
       case Claim(o) => o < |s.objects|
       case Contend(o) => o < |s.objects|
       case Won(o) => o < |s.objects|
       case Undo(o) => o < |s.objects|
       case UndoStore(o) => o < |s.objects|
       case GiveUp(o) => o < |s.objects|
       case Check(o) => o < |s.objects|
       case Release(o) => o < |s.objects|
       case Drop(o) => o < |s.objects|
       case DropStore(o) => o < |s.objects|
       case Done(o) => o < |s.objects|
       case Refuse(o) => o < |s.objects|
       case _ => true
  }

  /** acquire_mutex_local_lock, while no lock_free of the node holds the registry. */
  predicate Acquire(s: Sys, t: Sys, a: Agent, unlocking: bool)
    requires a.node in s.registered ==> s.registered[a.node] < |s.objects|
  {
    && a.node !in s.freeing
    && if a.node in s.registered then
         var o := s.registered[a.node];
         t == Go(AddUsers(s, o, 1), a, if unlocking then Check(o) else Found(o))
       else t == Go(s, a, if unlocking then Failed else Idle)
  }

  predicate LockStep(s: Sys, t: Sys, a: Agent)
    requires Known(s, a)
  {
    match PcOf(s, a)
    case Idle => s.owner != Some(a) && t == Go(s, a, LookUp)
    case LookUp => Acquire(s, t, a, false)
    case Found(o) => t == Go(s, a, if s.objects[o].owner == Some(a) then GiveUp(o) else Claim(o))
    case Claim(o) =>
      || t == Go(s, a, GiveUp(o))   // timed out or the local queue is full
      || (s.objects[o].owner == None && t == Go(PutOwner(s, o, Some(a)), a, Contend(o)))
    case Contend(o) =>
      || t == Go(s, a, Undo(o))     // timed out, the queue is full, or the owner check failed
      || (s.owner == None && t == Go(s.(owner := Some(a)), a, Won(o)))
    case Won(o) => t == Go(AddUsers(s, o, -1), a, Holding)
    case Undo(o) => t == Go(s, a, if s.objects[o].owner == Some(a) then UndoStore(o) else GiveUp(o))
    case UndoStore(o) => t == Go(PutOwner(s, o, None), a, GiveUp(o))
    case GiveUp(o) => t == Go(AddUsers(s, o, -1), a, Idle)
    case _ => false
  }

  predicate UnlockStep(s: Sys, t: Sys, a: Agent)
    requires Known(s, a)
  {
    match PcOf(s, a)
    case Holding => t == Go(s, a, if s.owner == Some(a) then ReLook else Failed)
    case ReLook => Acquire(s, t, a, true)
    case Check(o) => t == Go(s, a, if s.objects[o].owner == Some(a) then Release(o) else Refuse(o))
    case Release(o) => if s.owner == Some(a) then t == Go(s.(owner := None), a, Drop(o)) else t == Go(s, a, Refuse(o))
    case Drop(o) => t == Go(s, a, if s.objects[o].owner == Some(a) then DropStore(o) else Done(o))
    case DropStore(o) => t == Go(PutOwner(s, o, None), a, Done(o))
    case Done(o) => t == Go(AddUsers(s, o, -1), a, Idle)
    case Refuse(o) => t == Go(AddUsers(s, o, -1), a, Failed)
    case _ => false
  }

  /** lock_create's registration, and lock_free. busy says whether lock_free may start while calls use the object. */
  predicate RegistryStep(busy: bool, s: Sys, t: Sys, n: nat) {
    if n in s.freeing then
      || t == s.(freeing := s.freeing - {n})   // some check failed
      || match s.freeing[n]
         case SawNoOwner(o) => t == s.(freeing := s.freeing[n := SawNoWaiters(o)])
         case SawNoWaiters(o) =>
           o < |s.objects| && s.objects[o].active == 0
           && t == s.(registered := s.registered - {n}, freeing := s.freeing - {n})
    else if n in s.registered then
      && s.registered[n] < |s.objects| && s.objects[s.registered[n]].owner == None
      && (busy || s.objects[s.registered[n]].active == 0)
      && t == s.(freeing := s.freeing[n := SawNoOwner(s.registered[n])])
    else
      t == s.(registered := s.registered[n := |s.objects|], objects := s.objects + [Object(None, 0)])
  }

  ghost predicate Next(busy: bool, s: Sys, t: Sys) {
    || (exists a :: Known(s, a) && (LockStep(s, t, a) || UnlockStep(s, t, a)))
    || (exists n :: RegistryStep(busy, s, t, n))
  }

  predicate Init(s: Sys) { s == Sys(None, [], map[], map[], map[]) }

  ghost predicate IsRun(busy: bool, run: seq<Sys>) {
    && 0 < |run| && Init(run[0])
    && forall i :: 0 < i < |run| ==> Next(busy, run[i - 1], run[i])
  }

  // ---- the invariant ----------------------------------------------------------------------------

  /** The caller counts in active_users. */
  predicate Uses(p: Pc) {
    || p.Found? || p.Claim? || p.Contend? || p.Won? || p.Undo? || p.UndoStore? || p.GiveUp?
    || p.Check? || p.Release? || p.Drop? || p.DropStore? || p.Done? || p.Refuse?
  }

  /** No unlock by the holder has failed or is about to. */
  predicate Fine(p: Pc) { !p.Failed? && !p.Refuse? }

  /** The caller is the global owner. */
  predicate Global(p: Pc) { p.Won? || p.Holding? || p.ReLook? || p.Check? || p.Release? }

  /** The caller is its node's local owner. */
  predicate Local(p: Pc) { Global(p) || p.Contend? || p.Undo? || p.UndoStore? || p.Drop? || p.DropStore? }

  predicate Sound(s: Sys) {
    && (forall n :: n in s.registered ==> s.registered[n] < |s.objects|)
    && (forall m, n :: m in s.registered && n in s.registered && s.registered[m] == s.registered[n] ==> m == n)
  }

  function ObjectOf(s: Sys, n: nat): Object
    requires Sound(s) && n in s.registered
  {
    s.objects[s.registered[n]]
  }

  predicate ThreadOk(s: Sys, a: Agent, p: Pc)
    requires Sound(s)
  {
    && Fine(p)
    && (Uses(p) ==> a.node in s.registered && p.o == s.registered[a.node])
    && (Local(p) ==> a.node in s.registered && ObjectOf(s, a.node).owner == Some(a))
    && (Global(p) <==> s.owner == Some(a))
  }

  function Users(s: Sys, n: nat): set<Agent> { set a | a in s.pc && a.node == n && Uses(s.pc[a]) }

  ghost predicate NodeOk(s: Sys, n: nat)
    requires Sound(s) && n in s.registered
  {
    && (forall a :: ObjectOf(s, n).owner == Some(a) ==> a.node == n && Local(PcOf(s, a)))
    && ObjectOf(s, n).active == |Users(s, n)|
    && (n in s.freeing ==> s.freeing[n].o == s.registered[n] && ObjectOf(s, n) == Object(None, 0))
  }

  ghost predicate Inv(s: Sys) {
    && Sound(s)
    && (forall a :: ThreadOk(s, a, PcOf(s, a)))
    && (forall n :: n in s.registered ==> NodeOk(s, n))
    && (forall n :: n in s.freeing ==> n in s.registered)
  }

  // ---- steps ---------------------------------------------------------------------------------------

  /** Only a's place, the object of its node and the global owner may change. */
  ghost predicate OnlyAt(s: Sys, t: Sys, a: Agent, p: Pc) {
    && t == Go(s.(owner := t.owner, objects := t.objects), a, p)
    && |t.objects| == |s.objects|
    && (forall o :: 0 <= o < |s.objects| && !(a.node in s.registered && o == s.registered[a.node]) ==>
      t.objects[o] == s.objects[o])
  }

  lemma UsersAfter(s: Sys, t: Sys, a: Agent, p: Pc, n: nat)
    requires t.pc == s.pc[a := p]
    ensures n != a.node ==> Users(t, n) == Users(s, n)
    ensures n == a.node && Uses(p) ==> Users(t, n) == Users(s, n) + {a}
    ensures n == a.node && !Uses(p) ==> Users(t, n) == Users(s, n) - {a}
    ensures n == a.node ==> (a in Users(s, n) <==> Uses(PcOf(s, a)))
  {
  }

  lemma UserCount(s: Sys, t: Sys, a: Agent, p: Pc)
    requires t.pc == s.pc[a := p]
    ensures |Users(t, a.node)| - |Users(s, a.node)| == (if Uses(p) then 1 else 0) - (if Uses(PcOf(s, a)) then 1 else 0)
  {
    UsersAfter(s, t, a, p, a.node);
    hide Users, Uses;
    var before := Users(s, a.node);
    assert a in before ==> before + {a} == before;
    assert a !in before ==> before - {a} == before;
  }

  lemma OthersOk(s: Sys, t: Sys, a: Agent, p: Pc, b: Agent)
    requires Inv(s) && OnlyAt(s, t, a, p) && Sound(t) && b != a
    requires t.owner == s.owner || s.owner == Some(a) || t.owner == Some(a)
    requires t.owner == Some(a) || t.owner == None || t.owner == s.owner
    requires s.owner == None || s.owner == Some(a) || t.owner == s.owner
    requires a.node in s.registered ==>
      ObjectOf(t, a.node).owner == ObjectOf(s, a.node).owner || ObjectOf(s, a.node).owner in {None, Some(a)}
    ensures ThreadOk(t, b, PcOf(t, b))
  {
    assert ThreadOk(s, b, PcOf(s, b));
    assert PcOf(t, b) == PcOf(s, b);
  }

  /** A thread step keeps the invariant when its own part and its own object come out right. */
  lemma ThreadKeeps(s: Sys, t: Sys, a: Agent, p: Pc)
    requires Inv(s) && OnlyAt(s, t, a, p) && Sound(t) && ThreadOk(t, a, p)
    requires t.owner == s.owner || (s.owner in {None, Some(a)} && t.owner in {None, Some(a)})
    requires a.node !in s.registered ==> !Uses(PcOf(s, a)) && !Local(PcOf(s, a))
    requires a.node in s.registered ==>
      && (ObjectOf(t, a.node).owner == ObjectOf(s, a.node).owner ||
          (ObjectOf(s, a.node).owner in {None, Some(a)} && ObjectOf(t, a.node).owner in {None, Some(a)}))
      && (ObjectOf(t, a.node).owner == Some(a) ==> Local(p))
      && ObjectOf(t, a.node).active - ObjectOf(s, a.node).active ==
         (if Uses(p) then 1 else 0) - (if Uses(PcOf(s, a)) then 1 else 0)
      && (a.node in s.freeing ==> ObjectOf(t, a.node) == ObjectOf(s, a.node))
    ensures Inv(t)
  {
    forall b ensures ThreadOk(t, b, PcOf(t, b)) {
      if b != a { OthersOk(s, t, a, p, b); }
    }
    forall n | n in t.registered ensures NodeOk(t, n) {
      NodeAfter(s, t, a, p, n);
    }
  }

  lemma NodeAfter(s: Sys, t: Sys, a: Agent, p: Pc, n: nat)
    requires Inv(s) && OnlyAt(s, t, a, p) && Sound(t) && n in s.registered
    requires n == a.node ==>
      && (ObjectOf(t, n).owner == ObjectOf(s, n).owner || ObjectOf(t, n).owner in {None, Some(a)})
      && (ObjectOf(t, n).owner == Some(a) ==> Local(p))
      && ObjectOf(t, n).active - ObjectOf(s, n).active ==
        (if Uses(p) then 1 else 0) - (if Uses(PcOf(s, a)) then 1 else 0)
      && (n in s.freeing ==> ObjectOf(t, n) == ObjectOf(s, n))
    ensures NodeOk(t, n)
  {
    assert NodeOk(s, n);
    UsersAfter(s, t, a, p, n);
    UserCount(s, t, a, p);
    hide Users, Uses;
    if n != a.node { assert ObjectOf(t, n) == ObjectOf(s, n); }
    forall b | ObjectOf(t, n).owner == Some(b) ensures b.node == n && Local(PcOf(t, b)) {
      if b != a { assert PcOf(t, b) == PcOf(s, b); }
    }
  }

  lemma ThreadAt(s: Sys, a: Agent)
    requires Inv(s)
    ensures Sound(s) && ThreadOk(s, a, PcOf(s, a))
    ensures a.node in s.registered ==> NodeOk(s, a.node) && s.registered[a.node] < |s.objects|
  {
  }

  /** A user's node has no lock_free past its first check. */
  lemma NotFreeing(s: Sys, a: Agent)
    requires Inv(s) && (Uses(PcOf(s, a)) || Local(PcOf(s, a)))
    ensures a.node !in s.freeing
  {
    ThreadAt(s, a);
    assert Uses(PcOf(s, a)) ==> a in Users(s, a.node);
  }

  // What a thread step does: move only, change its user count, its local owner word, or the global owner word.

  predicate SameRights(p: Pc, q: Pc) {
    Fine(q) && (Uses(p) <==> Uses(q)) && (Uses(p) ==> p.o == q.o) && (Local(p) <==> Local(q)) &&
      (Global(p) <==> Global(q))
  }

  lemma MoveKeeps(s: Sys, t: Sys, a: Agent, p: Pc)
    requires Inv(s) && t == Go(s, a, p) && SameRights(PcOf(s, a), p)
    ensures Inv(t)
  {
    ThreadAt(s, a);
    hide Inv, Users, Uses, Local, Global;
    ThreadKeeps(s, t, a, p);
  }

  lemma CountKeeps(s: Sys, t: Sys, a: Agent, p: Pc, d: int)
    requires Inv(s) && a.node in s.registered && a.node !in s.freeing && s.registered[a.node] < |s.objects|
    requires t == Go(AddUsers(s, s.registered[a.node], d), a, p) && Fine(p)
    requires d == (if Uses(p) then 1 else 0) - (if Uses(PcOf(s, a)) then 1 else 0)
    requires Uses(p) ==> p.o == s.registered[a.node]
    requires (Local(PcOf(s, a)) <==> Local(p)) && (Global(PcOf(s, a)) <==> Global(p))
    ensures Inv(t)
  {
    ThreadAt(s, a);
    hide Inv, Users, Uses, Local, Global;
    assert Sound(t);
    ThreadKeeps(s, t, a, p);
  }

  lemma LocalKeeps(s: Sys, t: Sys, a: Agent, p: Pc, who: Option<Agent>)
    requires Inv(s) && a.node in s.registered && a.node !in s.freeing && s.registered[a.node] < |s.objects|
    requires t == Go(PutOwner(s, s.registered[a.node], who), a, p) && Fine(p)
    requires s.objects[s.registered[a.node]].owner in {None, Some(a)} && who in {None, Some(a)}
    requires who == Some(a) <==> Local(p)
    requires Uses(p) && Uses(PcOf(s, a)) && p.o == s.registered[a.node] && (Global(PcOf(s, a)) <==> Global(p))
    ensures Inv(t)
  {
    ThreadAt(s, a);
    hide Inv, Users, Uses, Local, Global;
    assert Sound(t);
    ThreadKeeps(s, t, a, p);
  }

  lemma GlobalKeeps(s: Sys, t: Sys, a: Agent, p: Pc, who: Option<Agent>)
    requires Inv(s) && t == Go(s.(owner := who), a, p) && Fine(p)
    requires s.owner in {None, Some(a)} && who in {None, Some(a)} && (who == Some(a) <==> Global(p))
    requires Uses(p) && Uses(PcOf(s, a)) && p.o == PcOf(s, a).o && Local(p) && Local(PcOf(s, a))
    ensures Inv(t)
  {
    ThreadAt(s, a);
    hide Inv, Users, Uses, Local, Global;
    ThreadKeeps(s, t, a, p);
  }

  /** Entering: no hold yet. */
  lemma EnterKeeps(s: Sys, t: Sys, a: Agent)
    requires Inv(s) && Known(s, a) && LockStep(s, t, a) && (PcOf(s, a).Idle? || PcOf(s, a).Found?)
    ensures Inv(t)
  {
    hide Inv, Go, Known;
    match PcOf(s, a)
    case Idle => MoveKeeps(s, t, a, LookUp);
    case Found(o) =>
      if t == Go(s, a, GiveUp(o)) { MoveKeeps(s, t, a, GiveUp(o)); } else { MoveKeeps(s, t, a, Claim(o)); }
  }

  lemma LookUpKeeps(s: Sys, t: Sys, a: Agent)
    requires Inv(s) && Known(s, a) && LockStep(s, t, a) && PcOf(s, a).LookUp?
    ensures Inv(t)
  {
    ThreadAt(s, a);
    hide Inv, NodeOk, Sound, Go, AddUsers, Known;
    if a.node in s.registered {
      CountKeeps(s, t, a, Found(s.registered[a.node]), 1);
    } else {
      MoveKeeps(s, t, a, Idle);
    }
  }

  /** Taking the local owner. */
  lemma ClaimKeeps(s: Sys, t: Sys, a: Agent)
    requires Inv(s) && Known(s, a) && LockStep(s, t, a) && PcOf(s, a).Claim?
    ensures Inv(t)
  {
    ThreadAt(s, a);
    NotFreeing(s, a);
    hide Inv, NodeOk, Sound, Go, PutOwner, Known;
    var o := PcOf(s, a).o;
    if t == Go(s, a, GiveUp(o)) { MoveKeeps(s, t, a, GiveUp(o)); } else { LocalKeeps(s, t, a, Contend(o), Some(a)); }
  }

  /** Taking the global owner. */
  lemma ContendKeeps(s: Sys, t: Sys, a: Agent)
    requires Inv(s) && Known(s, a) && LockStep(s, t, a) && (PcOf(s, a).Contend? || PcOf(s, a).Won?)
    ensures Inv(t)
  {
    ThreadAt(s, a);
    NotFreeing(s, a);
    hide Inv, NodeOk, Sound, Go, AddUsers, Known;
    match PcOf(s, a)
    case Contend(o) =>
      if t == Go(s, a, Undo(o)) { MoveKeeps(s, t, a, Undo(o)); } else { GlobalKeeps(s, t, a, Won(o), Some(a)); }
    case Won(o) => CountKeeps(s, t, a, Holding, -1);
  }

  /** Giving the local owner back after a failed attempt on the global one. */
  lemma BackOutKeeps(s: Sys, t: Sys, a: Agent)
    requires Inv(s) && Known(s, a) && LockStep(s, t, a) && (PcOf(s, a).Undo? || PcOf(s, a).UndoStore?)
    ensures Inv(t)
  {
    ThreadAt(s, a);
    NotFreeing(s, a);
    hide Inv, NodeOk, Sound, Go, AddUsers, PutOwner, Known;
    match PcOf(s, a)
    case Undo(o) => MoveKeeps(s, t, a, UndoStore(o));
    case UndoStore(o) => LocalKeeps(s, t, a, GiveUp(o), None);
  }

  lemma GiveUpKeeps(s: Sys, t: Sys, a: Agent)
    requires Inv(s) && Known(s, a) && LockStep(s, t, a) && PcOf(s, a).GiveUp?
    ensures Inv(t)
  {
    ThreadAt(s, a);
    NotFreeing(s, a);
    hide Inv, NodeOk, Sound, Go, AddUsers, Known;
    CountKeeps(s, t, a, Idle, -1);
  }

  lemma LockKeeps(s: Sys, t: Sys, a: Agent)
    requires Inv(s) && Known(s, a) && LockStep(s, t, a)
    ensures Inv(t)
  {
    hide Inv, Known;
    match PcOf(s, a)
    case Idle => EnterKeeps(s, t, a);
    case LookUp => LookUpKeeps(s, t, a);
    case Found(_) => EnterKeeps(s, t, a);
    case Claim(_) => ClaimKeeps(s, t, a);
    case Contend(_) => ContendKeeps(s, t, a);
    case Won(_) => ContendKeeps(s, t, a);
    case GiveUp(_) => GiveUpKeeps(s, t, a);
    case _ => BackOutKeeps(s, t, a);
  }

  /** Up to the release of the global owner: every check the holder meets succeeds. */
  lemma ReleaseKeeps(s: Sys, t: Sys, a: Agent)
    requires Inv(s) && Known(s, a) && UnlockStep(s, t, a) && Global(PcOf(s, a))
    ensures Inv(t)
  {
    ThreadAt(s, a);
    NotFreeing(s, a);
    hide Inv, NodeOk, Sound, Go, AddUsers, Known;
    match PcOf(s, a)
    case Holding => MoveKeeps(s, t, a, ReLook);
    case ReLook => CountKeeps(s, t, a, Check(s.registered[a.node]), 1);
    case Check(o) => MoveKeeps(s, t, a, Release(o));
    case Release(o) => GlobalKeeps(s, t, a, Drop(o), None);
    case _ =>
  }

  lemma DropKeeps(s: Sys, t: Sys, a: Agent)
    requires Inv(s) && Known(s, a) && UnlockStep(s, t, a) && !Global(PcOf(s, a))
    ensures Inv(t)
  {
    ThreadAt(s, a);
    NotFreeing(s, a);
    hide Inv, NodeOk, Sound, Go, AddUsers, PutOwner, Known;
    match PcOf(s, a)
    case Drop(o) => MoveKeeps(s, t, a, DropStore(o));
    case DropStore(o) => LocalKeeps(s, t, a, Done(o), None);
    case Done(o) => CountKeeps(s, t, a, Idle, -1);
    case _ =>
  }

  lemma UnlockKeeps(s: Sys, t: Sys, a: Agent)
    requires Inv(s) && Known(s, a) && UnlockStep(s, t, a)
    ensures Inv(t)
  {
    hide Inv, UnlockStep, Known;
    if Global(PcOf(s, a)) { ReleaseKeeps(s, t, a); } else { DropKeeps(s, t, a); }
  }

  lemma CreateKeeps(s: Sys, t: Sys, n: nat)
    requires Inv(s) && n !in s.registered
    requires t == s.(registered := s.registered[n := |s.objects|], objects := s.objects + [Object(None, 0)])
    ensures Inv(t)
  {
    forall a ensures ThreadOk(t, a, PcOf(t, a)) {
      ThreadAt(s, a);
      ThreadStays(s, t, a, PcOf(s, a));
    }
    NobodyThere(s, n);
    forall m | m in t.registered ensures NodeOk(t, m) {
      assert Users(t, m) == Users(s, m);
      if m != n { NodeStays(s, t, m); }
    }
  }

  lemma ThreadStays(s: Sys, t: Sys, a: Agent, p: Pc)
    requires Sound(s) && Sound(t) && ThreadOk(s, a, p) && t.owner == s.owner
    requires a.node in s.registered ==>
      && a.node in t.registered && t.registered[a.node] == s.registered[a.node]
      && ObjectOf(t, a.node) == ObjectOf(s, a.node)
    ensures ThreadOk(t, a, p)
  {
    hide Uses, Local, Global;
  }

  lemma NodeStays(s: Sys, t: Sys, n: nat)
    requires Inv(s) && Sound(t) && n in s.registered && n in t.registered && ObjectOf(t, n) == ObjectOf(s, n)
    requires t.registered[n] == s.registered[n] && t.pc == s.pc && t.freeing == s.freeing
    ensures NodeOk(t, n)
  {
    assert NodeOk(s, n);
    assert Users(t, n) == Users(s, n);
  }

  lemma NobodyThere(s: Sys, n: nat)
    requires Inv(s) && n !in s.registered
    ensures Users(s, n) == {}
  {
    forall a | a in s.pc && a.node == n ensures !Uses(s.pc[a]) { ThreadAt(s, a); }
  }

  lemma EraseKeeps(s: Sys, t: Sys, n: nat)
    requires Inv(s) && n in s.freeing && n in s.registered
    requires t == s.(registered := s.registered - {n}, freeing := s.freeing - {n})
    ensures Inv(t)
  {
    assert NodeOk(s, n);
    assert Sound(t);
    forall a ensures ThreadOk(t, a, PcOf(t, a)) {
      ThreadAt(s, a);
      if a.node == n { assert a !in Users(s, n); }
    }
    forall m | m in t.registered ensures NodeOk(t, m) {
      assert NodeOk(s, m);
      assert Users(t, m) == Users(s, m);
    }
  }

  lemma FreeingKeeps(s: Sys, t: Sys, n: nat)
    requires Inv(s) && n in s.registered && t == s.(freeing := t.freeing)
    requires t.freeing == s.freeing - {n} || exists f :: t.freeing == s.freeing[n := f] && f.o == s.registered[n]
    requires n in t.freeing ==>
      var o := s.registered[n]; o < |s.objects| && s.objects[o].owner == None && s.objects[o].active == 0
    ensures Inv(t)
  {
    forall a ensures ThreadOk(t, a, PcOf(t, a)) { ThreadAt(s, a); }
    forall m | m in t.registered ensures NodeOk(t, m) {
      assert NodeOk(s, m);
      assert Users(t, m) == Users(s, m);
    }
  }

  lemma RegistryKeeps(s: Sys, t: Sys, n: nat)
    requires Inv(s) && RegistryStep(false, s, t, n)
    ensures Inv(t)
  {
    if n in s.freeing {
      assert n in s.registered && NodeOk(s, n);
      if t.registered != s.registered { EraseKeeps(s, t, n); }
      else { FreeingKeeps(s, t, n); }
    } else if n in s.registered {
      FreeingKeeps(s, t, n);
    } else {
      CreateKeeps(s, t, n);
    }
  }

  lemma {:induction false} RunKeeps(run: seq<Sys>, i: nat)
    requires IsRun(false, run) && i < |run|
    ensures Inv(run[i])
    decreases i
  {
    if i == 0 {
      assert forall a :: PcOf(run[0], a) == Idle;
    } else {
      hide Inv;
      RunKeeps(run, i - 1);
      var s, t := run[i - 1], run[i];
      assert Next(false, s, t);
      if a :| Known(s, a) && (LockStep(s, t, a) || UnlockStep(s, t, a)) {
        if LockStep(s, t, a) { LockKeeps(s, t, a); } else { UnlockKeeps(s, t, a); }
      } else {
        var n :| RegistryStep(false, s, t, n);
        RegistryKeeps(s, t, n);
      }
    }
  }

  // ---- the theorems -------------------------------------------------------------------------------------

  /** The global owner is its node's registered local owner, and no unlock by a holder has failed. */
  ghost predicate LevelsAgree(s: Sys) {
    && (s.owner.Some? ==>
          var a := s.owner.value;
          && a.node in s.registered && s.registered[a.node] < |s.objects|
          && s.objects[s.registered[a.node]].owner == Some(a))
    && (forall a :: Fine(PcOf(s, a)))
    && (forall a, b :: Global(PcOf(s, a)) && Global(PcOf(s, b)) ==> a == b)
  }

  /** If lock_free only starts when no call uses the local object, the two levels agree in every run. */
  lemma LevelsAlwaysAgree(run: seq<Sys>, i: nat)
    requires IsRun(false, run) && i < |run|
    ensures LevelsAgree(run[i])
  {
    RunKeeps(run, i);
    var s := run[i];
    forall a ensures Fine(PcOf(s, a)) && (Global(PcOf(s, a)) <==> s.owner == Some(a)) { ThreadAt(s, a); }
    if s.owner.Some? { ThreadAt(s, s.owner.value); }
  }

  // ---- lock_free beside a lock call ------------------------------------------------------------------------

  ghost predicate Reachable(busy: bool, s: Sys) { exists run :: IsRun(busy, run) && run[|run| - 1] == s }

  lemma Hop(busy: bool, s: Sys, t: Sys)
    requires Reachable(busy, s) && Next(busy, s, t)
    ensures Reachable(busy, t)
  {
    var run :| IsRun(busy, run) && run[|run| - 1] == s;
    var longer := run + [t];
    forall i | 0 < i < |longer| ensures Next(busy, longer[i - 1], longer[i]) {
      if i < |run| { assert Next(busy, run[i - 1], run[i]); }
    }
    assert longer[|longer| - 1] == t;
  }

  lemma Act(busy: bool, s: Sys, t: Sys, a: Agent)
    requires Reachable(busy, s) && Known(s, a) && (LockStep(s, t, a) || UnlockStep(s, t, a))
    ensures Reachable(busy, t)
  {
    hide Reachable, Known, LockStep, UnlockStep;
    Hop(busy, s, t);
  }

  lemma Manage(busy: bool, s: Sys, t: Sys, n: nat)
    requires Reachable(busy, s) && RegistryStep(busy, s, t, n)
    ensures Reachable(busy, t)
  {
    hide Reachable, RegistryStep;
    Hop(busy, s, t);
  }

  const ME := Agent(0, 1)

  /** One thread, one object, and lock_free at its place. */
  function At(owner: Option<Agent>, x: Object, freeing: map<nat, FreePc>, p: Pc): Sys {
    Sys(owner, [x], map[0 := 0], freeing, map[ME := p])
  }

  /** lock() has looked up the object and not yet claimed it. */
  lemma ToClaim() returns (t: Sys)
    ensures Reachable(true, t) && t == At(None, Object(None, 1), map[], Claim(0))
  {
    var s0 := Sys(None, [], map[], map[], map[]);
    assert IsRun(true, [s0]);
    assert Reachable(true, s0);
    hide Reachable;
    var s1 := Sys(None, [Object(None, 0)], map[0 := 0], map[], map[]);
    Manage(true, s0, s1, 0);
    var s2 := At(None, Object(None, 0), map[], LookUp);
    Act(true, s1, s2, ME);
    var s3 := At(None, Object(None, 1), map[], Found(0));
    assert s3 == Go(AddUsers(s2, 0, 1), ME, Found(0));
    Act(true, s2, s3, ME);
    t := At(None, Object(None, 1), map[], Claim(0));
    assert t == Go(s3, ME, Claim(0));
    Act(true, s3, t, ME);
  }

  /**
  lock_free reads "no owner", the lock call then takes both levels and stops
  counting as a user, and lock_free reads "no users": the object of a holder is
  gone and its unlock fails.
  */
  lemma BusyFreeBreaksUnlock() returns (t: Sys)
    ensures Reachable(true, t) && PcOf(t, ME).Failed? && t.owner == Some(ME)
  {
    hide Reachable;
    var s3 := ToClaim();
    var saw := map[0 := SawNoOwner(0)];
    var s4 := At(None, Object(None, 1), saw, Claim(0));
    Manage(true, s3, s4, 0);
    var s5 := At(None, Object(Some(ME), 1), saw, Contend(0));
    assert s5 == Go(PutOwner(s4, 0, Some(ME)), ME, Contend(0));
    Act(true, s4, s5, ME);
    var s6 := At(Some(ME), Object(Some(ME), 1), saw, Won(0));
    assert s6 == Go(s5.(owner := Some(ME)), ME, Won(0));
    Act(true, s5, s6, ME);
    var s7 := At(Some(ME), Object(Some(ME), 0), saw, Holding);
    assert s7 == Go(AddUsers(s6, 0, -1), ME, Holding);
    Act(true, s6, s7, ME);
    var s8 := At(Some(ME), Object(Some(ME), 0), map[0 := SawNoWaiters(0)], Holding);
    assert s8 == s7.(freeing := s7.freeing[0 := SawNoWaiters(0)]);
    Manage(true, s7, s8, 0);
    t := ErasedThenUnlock(s8);
  }

  lemma ErasedThenUnlock(s: Sys) returns (t: Sys)
    requires Reachable(true, s) && s == At(Some(ME), Object(Some(ME), 0), map[0 := SawNoWaiters(0)], Holding)
    ensures Reachable(true, t) && PcOf(t, ME).Failed? && t.owner == Some(ME)
  {
    hide Reachable;
    var s1 := Sys(Some(ME), [Object(Some(ME), 0)], map[], map[], map[ME := Holding]);
    assert s1 == s.(registered := s.registered - {0}, freeing := s.freeing - {0});
    Manage(true, s, s1, 0);
    var s2 := s1.(pc := map[ME := ReLook]);
    assert s2 == Go(s1, ME, ReLook);
    Act(true, s1, s2, ME);
    t := s2.(pc := map[ME := Failed]);
    assert t == Go(s2, ME, Failed);
    Act(true, s2, t, ME);
  }

  /** The levels agree in every run if and only if lock_free waits until no call uses the object. */
  lemma LevelsAgreeExactly(busy: bool)
    ensures (forall s :: Reachable(busy, s) ==> LevelsAgree(s)) <==> !busy
  {
    if busy {
      var t := BusyFreeBreaksUnlock();
      assert !LevelsAgree(t);
    } else {
      forall s | Reachable(false, s) ensures LevelsAgree(s) {
        var run :| IsRun(false, run) && run[|run| - 1] == s;
        LevelsAlwaysAgree(run, |run| - 1);
      }
    }
  }

  // ---- lock_free never takes an object in use -----------------------------------------------------------------

  predicate UseOk(s: Sys, a: Agent, p: Pc) {
    && (Uses(p) ==> a.node in s.registered && p.o == s.registered[a.node])
    && (Global(p) ==> s.owner == Some(a))
    && (Owning(p) ==> p.o < |s.objects| && s.objects[p.o].owner == Some(a))
  }

  /** Past the CAS of lock_mutex_local, or past unlock's comparison with the local owner. */
  predicate Owning(p: Pc) {
    p.Contend? || p.Won? || p.Undo? || p.UndoStore? || p.Release? || p.Drop? || p.DropStore?
  }

  ghost predicate CountOk(s: Sys, n: nat)
    requires Sound(s) && n in s.registered
  {
    && ObjectOf(s, n).active == |Users(s, n)|
    && (n in s.freeing ==> s.freeing[n].o == s.registered[n])
  }

  /** What holds whenever lock_free may start. */
  ghost predicate Counted(s: Sys) {
    && Sound(s)
    && (forall a :: UseOk(s, a, PcOf(s, a)))
    && (forall n :: n in s.registered ==> CountOk(s, n))
    && (forall n :: n in s.freeing ==> n in s.registered)
  }

  /** A thread step moves a and its node's user count together, and the global owner only to or from a. */
  ghost predicate Tallies(s: Sys, t: Sys, a: Agent, p: Pc)
    requires Sound(s) && Sound(t)
  {
    && t.registered == s.registered && t.freeing == s.freeing && t.pc == s.pc[a := p]
    && (t.owner == s.owner || s.owner in {None, Some(a)})
    && (forall o: nat, b :: b != a && o < |s.objects| && s.objects[o].owner == Some(b) ==>
          o < |t.objects| && t.objects[o].owner == Some(b))
    && (forall n :: n in s.registered && n != a.node ==> ObjectOf(t, n).active == ObjectOf(s, n).active)
    && (a.node in s.registered ==>
          ObjectOf(t, a.node).active == ObjectOf(s, a.node).active + Bit(Uses(p)) - Bit(Uses(PcOf(s, a))))
  }

  function Bit(b: bool): int { if b then 1 else 0 }

  lemma TalliedKeeps(s: Sys, t: Sys, a: Agent, p: Pc)
    requires Counted(s) && Sound(t) && Tallies(s, t, a, p) && UseOk(t, a, p)
    ensures Counted(t)
  {
    forall b ensures UseOk(t, b, PcOf(t, b)) {
      if b != a { OtherUses(s, t, a, p, b); }
    }
    forall n | n in t.registered ensures CountOk(t, n) {
      assert CountOk(s, n);
      UsersTallied(s, t, a, p, n);
    }
  }

  lemma OtherUses(s: Sys, t: Sys, a: Agent, p: Pc, b: Agent)
    requires Sound(s) && Sound(t) && UseOk(s, b, PcOf(s, b)) && Tallies(s, t, a, p) && b != a
    ensures UseOk(t, b, PcOf(t, b))
  {
    hide Uses, Global;
    var q := PcOf(s, b);
    assert PcOf(t, b) == q;
    assert Owning(q) ==> s.objects[q.o].owner == Some(b) && t.objects[q.o].owner == Some(b);
  }

  lemma UsersTallied(s: Sys, t: Sys, a: Agent, p: Pc, n: nat)
    requires Sound(s) && Sound(t) && n in s.registered && CountOk(s, n) && Tallies(s, t, a, p)
    ensures CountOk(t, n)
  {
    UsersAfter(s, t, a, p, n);
    UserCount(s, t, a, p);
    hide Uses, Users;
  }

  lemma MoveTallies(s: Sys, t: Sys, a: Agent, p: Pc)
    requires Sound(s) && t == Go(s, a, p) && Bit(Uses(p)) == Bit(Uses(PcOf(s, a)))
    ensures Sound(t) && Tallies(s, t, a, p)
  {
    hide Uses;
  }

  lemma OwnerTallies(s: Sys, t: Sys, a: Agent, p: Pc)
    requires Sound(s) && t == Go(s.(owner := t.owner), a, p) && Bit(Uses(p)) == Bit(Uses(PcOf(s, a)))
    requires s.owner in {None, Some(a)}
    ensures Sound(t) && Tallies(s, t, a, p)
  {
    hide Uses;
  }

  lemma LocalTallies(s: Sys, t: Sys, a: Agent, p: Pc, o: nat, who: Option<Agent>)
    requires Sound(s) && o < |s.objects| && t == Go(PutOwner(s, o, who), a, p) && s.objects[o].owner in {None, Some(a)}
    requires Bit(Uses(p)) == Bit(Uses(PcOf(s, a)))
    ensures Sound(t) && Tallies(s, t, a, p)
  {
    hide Uses;
  }

  lemma CountTallies(s: Sys, t: Sys, a: Agent, p: Pc, d: int)
    requires Sound(s) && a.node in s.registered && t == Go(AddUsers(s, s.registered[a.node], d), a, p)
    requires d == Bit(Uses(p)) - Bit(Uses(PcOf(s, a)))
    ensures Sound(t) && Tallies(s, t, a, p)
  {
    hide Uses;
  }

  lemma LockTallies(s: Sys, t: Sys, a: Agent)
    requires Sound(s) && UseOk(s, a, PcOf(s, a)) && Known(s, a) && LockStep(s, t, a)
    requires !PcOf(s, a).LookUp? && !PcOf(s, a).Won? && !PcOf(s, a).GiveUp?
    ensures Sound(t) && Tallies(s, t, a, PcOf(t, a)) && UseOk(t, a, PcOf(t, a))
  {
    hide Tallies, Sound;
    var p := PcOf(t, a);
    match PcOf(s, a)
    case Claim(o) => if p.GiveUp? { MoveTallies(s, t, a, p); } else { LocalTallies(s, t, a, p, o, Some(a)); }
    case Contend(o) => if p.Undo? { MoveTallies(s, t, a, p); } else { OwnerTallies(s, t, a, p); }
    case UndoStore(o) => LocalTallies(s, t, a, p, o, None);
    case _ => MoveTallies(s, t, a, p);
  }

  lemma UserTallies(s: Sys, t: Sys, a: Agent)
    requires Sound(s) && UseOk(s, a, PcOf(s, a)) && Known(s, a) && LockStep(s, t, a)
    requires PcOf(s, a).LookUp? || PcOf(s, a).Won? || PcOf(s, a).GiveUp?
    ensures Sound(t) && Tallies(s, t, a, PcOf(t, a)) && UseOk(t, a, PcOf(t, a))
  {
    hide Tallies, Sound;
    var p := PcOf(t, a);
    match PcOf(s, a)
    case LookUp => if a.node in s.registered { CountTallies(s, t, a, p, 1); } else { MoveTallies(s, t, a, p); }
    case _ => CountTallies(s, t, a, p, -1);
  }

  lemma UnlockTallies(s: Sys, t: Sys, a: Agent)
    requires Sound(s) && UseOk(s, a, PcOf(s, a)) && Known(s, a) && UnlockStep(s, t, a)
    requires !PcOf(s, a).ReLook? && !PcOf(s, a).Done? && !PcOf(s, a).Refuse?
    ensures Sound(t) && Tallies(s, t, a, PcOf(t, a)) && UseOk(t, a, PcOf(t, a))
  {
    hide Tallies, Sound;
    var p := PcOf(t, a);
    match PcOf(s, a)
    case Release(_) => if p.Drop? { OwnerTallies(s, t, a, p); } else { MoveTallies(s, t, a, p); }
    case DropStore(o) => LocalTallies(s, t, a, p, o, None);
    case _ => MoveTallies(s, t, a, p);
  }

  lemma UnlockUserTallies(s: Sys, t: Sys, a: Agent)
    requires Sound(s) && UseOk(s, a, PcOf(s, a)) && Known(s, a) && UnlockStep(s, t, a)
    requires PcOf(s, a).ReLook? || PcOf(s, a).Done? || PcOf(s, a).Refuse?
    ensures Sound(t) && Tallies(s, t, a, PcOf(t, a)) && UseOk(t, a, PcOf(t, a))
  {
    hide Tallies, Sound;
    var p := PcOf(t, a);
    match PcOf(s, a)
    case ReLook => if a.node in s.registered { CountTallies(s, t, a, p, 1); } else { MoveTallies(s, t, a, p); }
    case _ => CountTallies(s, t, a, p, -1);
  }

  lemma CallCounted(s: Sys, t: Sys, a: Agent)
    requires Counted(s) && Known(s, a) && (LockStep(s, t, a) || UnlockStep(s, t, a))
    ensures Counted(t)
  {
    assert Sound(s) && UseOk(s, a, PcOf(s, a));
    hide Counted, LockStep, UnlockStep, Known, Tallies, UseOk;
    if !LockStep(s, t, a) {
      if PcOf(s, a).ReLook? || PcOf(s, a).Done? || PcOf(s, a).Refuse? { UnlockUserTallies(s, t, a); }
      else { UnlockTallies(s, t, a); }
    }
    else if PcOf(s, a).LookUp? || PcOf(s, a).Won? || PcOf(s, a).GiveUp? { UserTallies(s, t, a); }
    else { LockTallies(s, t, a); }
    TalliedKeeps(s, t, a, PcOf(t, a));
  }

  /** The object lock_free takes out of the registry has no user. */
  lemma ErasedUnused(busy: bool, s: Sys, t: Sys, n: nat, m: nat)
    requires Counted(s) && RegistryStep(busy, s, t, n) && m in s.registered && m !in t.registered
    ensures m == n && Users(s, n) == {}
  {
    assert CountOk(s, n);
  }

  lemma RegistryCounted(busy: bool, s: Sys, t: Sys, n: nat)
    requires Counted(s) && RegistryStep(busy, s, t, n)
    ensures Counted(t)
  {
    if n !in s.freeing && n !in s.registered {
      CreateCounted(s, t, n);
    } else {
      forall m | m in s.registered && m !in t.registered ensures Users(s, m) == {} {
        ErasedUnused(busy, s, t, n, m);
      }
      FreeingEnds(busy, s, t, n);
      hide RegistryStep, Users, Counted;
      FewerCounted(s, t);
    }
  }

  lemma FreeingEnds(busy: bool, s: Sys, t: Sys, n: nat)
    requires Sound(s) && RegistryStep(busy, s, t, n) && n in s.registered
    requires forall m :: m in s.freeing ==> m in s.registered && s.freeing[m].o == s.registered[m]
    ensures Sound(t) && t == s.(registered := t.registered, freeing := t.freeing)
    ensures forall m :: m in t.registered ==> m in s.registered && t.registered[m] == s.registered[m]
    ensures forall m :: m in t.freeing ==> m in t.registered && t.freeing[m].o == t.registered[m]
  {
  }

  lemma CreateCounted(s: Sys, t: Sys, n: nat)
    requires Counted(s) && n !in s.registered && n !in s.freeing
    requires t == s.(registered := s.registered[n := |s.objects|], objects := s.objects + [Object(None, 0)])
    ensures Counted(t)
  {
    forall a ensures UseOk(t, a, PcOf(t, a)) { assert UseOk(s, a, PcOf(s, a)); }
    forall m | m in t.registered ensures CountOk(t, m) {
      assert Users(t, m) == Users(s, m);
      if m != n {
        assert CountOk(s, m);
      } else {
        forall a | a in s.pc && a.node == n ensures !Uses(s.pc[a]) { assert UseOk(s, a, PcOf(s, a)); }
        assert Users(s, n) == {};
      }
    }
  }

  /** Registry entries without users may go. */
  lemma FewerCounted(s: Sys, t: Sys)
    requires Counted(s) && Sound(t) && t == s.(registered := t.registered, freeing := t.freeing)
    requires forall m :: m in t.registered ==> m in s.registered && t.registered[m] == s.registered[m]
    requires forall m :: m in s.registered && m !in t.registered ==> Users(s, m) == {}
    requires forall m :: m in t.freeing ==> m in t.registered && t.freeing[m].o == t.registered[m]
    ensures Counted(t)
  {
    forall a ensures UseOk(t, a, PcOf(t, a)) {
      assert UseOk(s, a, PcOf(s, a));
      if Uses(PcOf(s, a)) { assert a in Users(s, a.node); }
    }
    forall m | m in t.registered ensures CountOk(t, m) {
      assert Users(t, m) == Users(s, m);
      assert CountOk(s, m);
    }
  }

  lemma {:induction false} RunCounted(busy: bool, run: seq<Sys>, i: nat)
    requires IsRun(busy, run) && i < |run|
    ensures Counted(run[i])
    decreases i
  {
    if i == 0 {
      assert forall a :: PcOf(run[0], a) == Idle;
    } else {
      hide Counted;
      RunCounted(busy, run, i - 1);
      var s, t := run[i - 1], run[i];
      assert Next(busy, s, t);
      if a :| Known(s, a) && (LockStep(s, t, a) || UnlockStep(s, t, a)) {
        CallCounted(s, t, a);
      } else {
        var n :| RegistryStep(busy, s, t, n);
        RegistryCounted(busy, s, t, n);
      }
    }
  }

  /**
  In every run, whenever lock_free starts: a call at work is on the object its
  node has registered, so no object in use is ever taken out of the registry; at
  most one thread is past the global CAS; and a thread takes and gives up the
  global owner only while it owns the local object.
  */
  lemma UsedStaysRegistered(busy: bool, run: seq<Sys>, i: nat)
    requires IsRun(busy, run) && i < |run|
    ensures forall a :: Uses(PcOf(run[i], a)) ==>
      a.node in run[i].registered && run[i].registered[a.node] == PcOf(run[i], a).o
    ensures forall a, b :: Global(PcOf(run[i], a)) && Global(PcOf(run[i], b)) ==> a == b
    ensures forall a :: Owning(PcOf(run[i], a)) ==>
      PcOf(run[i], a).o < |run[i].objects| && run[i].objects[PcOf(run[i], a).o].owner == Some(a)
  {
    RunCounted(busy, run, i);
    assert forall a :: UseOk(run[i], a, PcOf(run[i], a));
  }

  lemma CallsKeepRegistry(s: Sys, t: Sys, a: Agent)
    requires Known(s, a) && (LockStep(s, t, a) || UnlockStep(s, t, a))
    ensures t.registered == s.registered
  {
  }

  /** The step that takes an object out of the registry finds no call on it, in every run, whenever lock_free starts. */
  lemma FreedUnused(busy: bool, run: seq<Sys>, i: nat, n: nat)
    requires IsRun(busy, run) && i + 1 < |run| && n in run[i].registered && n !in run[i + 1].registered
    ensures forall a :: !(Uses(PcOf(run[i], a)) && PcOf(run[i], a).o == run[i].registered[n])
  {
    RunCounted(busy, run, i);
    var s, t, j := run[i], run[i + 1], i + 1;
    assert Next(busy, run[j - 1], run[j]);
    hide LockStep, UnlockStep, Known, RegistryStep;
    if a :| Known(s, a) && (LockStep(s, t, a) || UnlockStep(s, t, a)) {
      CallsKeepRegistry(s, t, a);
      assert false;
    }
    var m :| RegistryStep(busy, s, t, m);
    ErasedUnused(busy, s, t, m, n);
    forall a ensures !(Uses(PcOf(s, a)) && PcOf(s, a).o == s.registered[n]) {
      assert UseOk(s, a, PcOf(s, a));
      assert Uses(PcOf(s, a)) ==> a in Users(s, a.node);
    }
  }

  // ---- lock and unlock undo each other -------------------------------------------------------------------------

  /** With both levels free, a call that runs alone takes them. */
  lemma LockAlone(busy: bool, s: Sys, a: Agent) returns (t: Sys)
    requires Reachable(busy, s) && PcOf(s, a) == Idle && s.owner == None
    requires a.node in s.registered && a.node !in s.freeing && s.registered[a.node] < |s.objects|
    requires s.objects[s.registered[a.node]].owner == None
    ensures Reachable(busy, t) && t == Go(PutOwner(s, s.registered[a.node], Some(a)), a, Holding).(owner := Some(a))
  {
    hide Reachable;
    var o := s.registered[a.node];
    var s1 := Go(s, a, LookUp);
    Act(busy, s, s1, a);
    var s2 := Go(AddUsers(s1, o, 1), a, Found(o));
    Act(busy, s1, s2, a);
    var s3 := Go(s2, a, Claim(o));
    Act(busy, s2, s3, a);
    var s4 := Go(PutOwner(s3, o, Some(a)), a, Contend(o));
    Act(busy, s3, s4, a);
    var s5 := Go(s4.(owner := Some(a)), a, Won(o));
    Act(busy, s4, s5, a);
    t := Go(AddUsers(s5, o, -1), a, Holding);
    Act(busy, s5, t, a);
    assert t.objects == PutOwner(s, o, Some(a)).objects;
  }

  /** And unlock, run alone, gives both back. */
  lemma UnlockAlone(busy: bool, s: Sys, a: Agent) returns (t: Sys)
    requires Reachable(busy, s) && PcOf(s, a) == Holding && s.owner == Some(a)
    requires a.node in s.registered && a.node !in s.freeing && s.registered[a.node] < |s.objects|
    requires s.objects[s.registered[a.node]].owner == Some(a)
    ensures Reachable(busy, t) && t == Go(PutOwner(s, s.registered[a.node], None), a, Idle).(owner := None)
  {
    hide Reachable;
    var o := s.registered[a.node];
    var s1 := Go(s, a, ReLook);
    Act(busy, s, s1, a);
    var s2 := Go(AddUsers(s1, o, 1), a, Check(o));
    Act(busy, s1, s2, a);
    var s3 := Go(s2, a, Release(o));
    Act(busy, s2, s3, a);
    t := UnlockEnds(busy, s3, a, o);
    assert t.objects == PutOwner(s, o, None).objects;
  }

  lemma UnlockEnds(busy: bool, s: Sys, a: Agent, o: nat) returns (t: Sys)
    requires Reachable(busy, s) && PcOf(s, a) == Release(o) && Known(s, a) && s.owner == Some(a)
    requires o < |s.objects| && s.objects[o].owner == Some(a)
    ensures Reachable(busy, t) && t == Go(AddUsers(PutOwner(s, o, None), o, -1), a, Idle).(owner := None)
  {
    hide Reachable;
    var s1 := Go(s.(owner := None), a, Drop(o));
    Act(busy, s, s1, a);
    var s2 := Go(s1, a, DropStore(o));
    Act(busy, s1, s2, a);
    var s3 := Go(PutOwner(s2, o, None), a, Done(o));
    Act(busy, s2, s3, a);
    t := Go(AddUsers(s3, o, -1), a, Idle);
    Act(busy, s3, t, a);
  }

  /** lock() then unlock() with nobody in between leaves every word as it was. */
  lemma MutexRoundTrip(busy: bool, s: Sys, a: Agent) returns (t: Sys)
    requires Reachable(busy, s) && PcOf(s, a) == Idle && s.owner == None
    requires a.node in s.registered && a.node !in s.freeing && s.registered[a.node] < |s.objects|
    requires s.objects[s.registered[a.node]].owner == None
    ensures Reachable(busy, t) && t == Go(s, a, Idle)
  {
    var m := LockAlone(busy, s, a);
    hide Reachable;
    t := UnlockAlone(busy, m, a);
    assert t.objects == s.objects;
  }

  /** lock_free of an object nobody owns or uses takes it out of the registry. */
  lemma FreeAlone(busy: bool, s: Sys, n: nat) returns (t: Sys)
    requires Reachable(busy, s) && n in s.registered && n !in s.freeing && s.registered[n] < |s.objects|
    requires s.objects[s.registered[n]] == Object(None, 0)
    ensures Reachable(busy, t) && t == s.(registered := s.registered - {n})
  {
    hide Reachable;
    var o := s.registered[n];
    var s1 := s.(freeing := s.freeing[n := SawNoOwner(o)]);
    Manage(busy, s, s1, n);
    var s2 := s.(freeing := s.freeing[n := SawNoWaiters(o)]);
    assert s2 == s1.(freeing := s1.freeing[n := SawNoWaiters(o)]);
    Manage(busy, s1, s2, n);
    t := s.(registered := s.registered - {n});
    assert t == s2.(registered := s2.registered - {n}, freeing := s2.freeing - {n});
    Manage(busy, s2, t, n);
  }
}
