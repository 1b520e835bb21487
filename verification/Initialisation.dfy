/**
Who may initialise the shared lock, and when. is_inited is 0, a marker of an
initialisation in progress, or a count of references. Creates, frees, rebuilds
and recovers interleave step by step, and an owner may stop at any point; a
free is called only by an owner of a reference.
*/
module Initialisation {

  const FIELDS := 10        // stores between the claim and the publication
  const REBUILDING := -1    // REBUILD_INIT_IN_PROGRESS
  const CREATING := -2      // CREATE_INIT_IN_PROGRESS
  const MAX_COUNT := 0x7FFF_FFFF
  const MAX_REPORTS := 16   // UB_MAX_NODES: a rebuild with more reports is refused

  datatype Pc =
    | Idle
    | Seen(state: int)                     // lock_create: the value it will act on
    | Creating(written: nat)
    | Binding                              // reference counted, local registration pending
    | Held
    | Freeing(state: int)                  // lock_free: the value it will act on
    | Rebuilding(written: nat, refs: nat)
    | Gone                                 // the owner's node stopped, its reference still counted
    | Lost                                 // a free by an owner of a reference that did not count down

  /**
  fields: how many of the lock's fields have been stored since the last claim;
  reserved: references a rebuild published for other nodes and not yet taken up.
  */
  datatype Lock = Lock(count: int, fields: nat, reserved: nat, pc: map<nat, Pc>)

  /** What callers do: recover nodes that are no stopped owners, rebuild on nodes no reference is reserved for. */
  datatype Usage = Usage(strayRecover: bool, strayRebuild: bool)

  function PcOf(s: Lock, a: nat): Pc { if a in s.pc then s.pc[a] else Idle }

  function Go(s: Lock, a: nat, p: Pc): Lock { s.(pc := s.pc[a := p]) }

  predicate CreateStep(s: Lock, t: Lock, a: nat) {
    match PcOf(s, a)
    case Idle => t == Go(s, a, Seen(s.count))
    case Seen(v) =>
      if v == CREATING then t == Go(s, a, Seen(s.count)) || t == Go(s, a, Idle)   // wait, or give up waiting
      else if v < 0 || v == MAX_COUNT then t == Go(s, a, Idle)
      else
        || t == Go(s, a, Seen(s.count))   // the weak CAS failed
        || (s.count == v && v == 0 && t == Go(s.(count := CREATING, fields := 0), a, Creating(0)))
        || (s.count == v && v > 0 && t == Go(s.(count := v + 1), a, Binding))
    case Creating(k) =>
      || t == Go(s.(count := 0), a, Idle)   // an exception
      || (if k < FIELDS then t == Go(s.(fields := s.fields + 1), a, Creating(k + 1))
          else t == Go(s.(count := 1), a, Binding))
    case Binding => t == Go(s, a, Held) || t == Go(s.(count := s.count - 1), a, Idle)   // registration may fail
    case _ => false
  }

  predicate FreeStep(s: Lock, t: Lock, a: nat) {
    match PcOf(s, a)
    case Held => t == Go(s, a, Freeing(s.count))
    case Freeing(v) =>
      if v <= 0 then t == Go(s, a, Lost)
      else t == Go(s, a, Freeing(s.count)) || (s.count == v && t == Go(s.(count := v - 1), a, Idle))
    case _ => false
  }

  predicate RebuildStep(u: Usage, s: Lock, t: Lock, a: nat) {
    match PcOf(s, a)
    case Idle =>
      || (&& s.count == 0 && PcOf(t, a).Rebuilding? && 0 < PcOf(t, a).refs <= MAX_REPORTS
          && t == Go(s.(count := REBUILDING, fields := 0), a, Rebuilding(0, PcOf(t, a).refs)))
      || (s.reserved > 0 && s.count > 0 && t == Go(s.(reserved := s.reserved - 1), a, Held))
      || (u.strayRebuild && s.reserved == 0 && s.count > 0 && t == Go(s, a, Held))
    case Rebuilding(k, n) =>
      || t == Go(s.(count := 0), a, Idle)   // an exception, or no local binding
      || (if k < FIELDS then t == Go(s.(fields := s.fields + 1), a, Rebuilding(k + 1, n))
          else n > 0 && t == Go(s.(count := n, reserved := n - 1), a, Held))
    case _ => false
  }

  /** An owner's node stops; or recover is called for node a, and counts down unless the count is one. */
  predicate RecoverStep(u: Usage, s: Lock, t: Lock, a: nat) {
    || (Owns(PcOf(s, a)) && t == Go(s, a, Gone))
    || (PcOf(s, a).Gone? && s.count > 1 && t == Go(s.(count := s.count - 1), a, Idle))
    || (u.strayRecover && !PcOf(s, a).Gone? && s.count > 1 && t == s.(count := s.count - 1))
  }

  predicate Step(u: Usage, s: Lock, t: Lock, a: nat) {
    CreateStep(s, t, a) || FreeStep(s, t, a) || RebuildStep(u, s, t, a) || RecoverStep(u, s, t, a)
  }

  ghost predicate Next(u: Usage, s: Lock, t: Lock) { exists a :: Step(u, s, t, a) }

  ghost predicate IsRun(u: Usage, run: seq<Lock>) {
    && 0 < |run| && run[0] == Lock(0, 0, 0, map[])
    && forall i :: 0 < i < |run| ==> Next(u, run[i - 1], run[i])
  }

  // ---- the invariant -------------------------------------------------------------------------

  predicate Owns(p: Pc) { p.Binding? || p.Held? || p.Freeing? || p.Gone? }

  predicate Initialising(p: Pc) { p.Creating? || p.Rebuilding? }

  function Owners(s: Lock): set<nat> { set a | a in s.pc && Owns(s.pc[a]) }

  function Initialisers(s: Lock): set<nat> { set a | a in s.pc && Initialising(s.pc[a]) }

  function References(s: Lock): nat { |Owners(s)| + s.reserved }

  /** What an initialiser has written, and the marker it put up. */
  predicate Claimed(s: Lock, p: Pc) {
    match p
    case Creating(k) => k <= FIELDS && s.count == CREATING && s.fields == k
    case Rebuilding(k, _) => k <= FIELDS && s.count == REBUILDING && s.fields == k
    case Freeing(v) => v > 0
    case Lost => false
    case _ => true
  }

  ghost predicate Inv(s: Lock) {
    && (forall a :: Claimed(s, PcOf(s, a)))
    && |Initialisers(s)| <= 1
    && (s.count >= 0 ==> Initialisers(s) == {} && s.count == References(s))
    && (s.count < 0 ==> Initialisers(s) != {} && References(s) == 0)
    && (s.count > 0 ==> s.fields == FIELDS)
  }

  lemma SetsAfter(s: Lock, t: Lock, a: nat, p: Pc)
    requires t.pc == s.pc[a := p]
    ensures Owners(t) == if Owns(p) then Owners(s) + {a} else Owners(s) - {a}
    ensures Initialisers(t) == if Initialising(p) then Initialisers(s) + {a} else Initialisers(s) - {a}
    ensures a in Owners(s) <==> Owns(PcOf(s, a))
    ensures a in Initialisers(s) <==> Initialising(PcOf(s, a))
  {
  }

  lemma OwnersAfter(s: Lock, t: Lock, a: nat, p: Pc)
    requires t.pc == s.pc[a := p]
    ensures |Owners(t)| == |Owners(s)| + (if Owns(p) then 1 else 0) - (if Owns(PcOf(s, a)) then 1 else 0)
  {
    SetsAfter(s, t, a, p);
    hide Owners, Owns, PcOf;
    OneAside(Owners(s), a);
  }

  lemma OneAside(who: set<nat>, a: nat)
    ensures |who + {a}| == |who| + (if a in who then 0 else 1)
    ensures |who - {a}| == |who| - (if a in who then 1 else 0)
  {
    assert a in who ==> who + {a} == who;
    assert a !in who ==> who - {a} == who;
  }

  /** An initialiser is the only one. */
  lemma Alone(s: Lock, a: nat)
    requires Inv(s) && Initialising(PcOf(s, a))
    ensures Initialisers(s) == {a}
  {
    assert a in Initialisers(s);
    var rest := Initialisers(s) - {a};
    assert |rest| == 0;
    assert Initialisers(s) == rest + {a};
  }

  lemma ClaimedElsewhere(s: Lock, t: Lock, a: nat, p: Pc)
    requires Inv(s) && t.pc == s.pc[a := p] && Claimed(t, p)
    requires (t.count == s.count && t.fields == s.fields) || Initialisers(s) == {} || Initialisers(s) == {a}
    ensures forall b :: Claimed(t, PcOf(t, b))
  {
    forall b ensures Claimed(t, PcOf(t, b)) {
      assert Claimed(s, PcOf(s, b));
      if b != a { assert b in Initialisers(s) <==> Initialising(PcOf(s, b)); }
    }
  }

  /** Counting up or down, with the caller's own reference. */
  lemma CountKeeps(s: Lock, t: Lock, a: nat, p: Pc)
    requires Inv(s) && t == Go(s.(count := t.count, reserved := t.reserved), a, p) && Claimed(t, p)
    requires !Initialising(p) && !Initialising(PcOf(s, a))
    requires t.count == s.count || (s.count > 0 && t.count >= 0)
    requires t.count - s.count ==
      (if Owns(p) then 1 else 0) - (if Owns(PcOf(s, a)) then 1 else 0) + t.reserved - s.reserved
    requires t.count < 0 ==> t.reserved == s.reserved
    ensures Inv(t)
  {
    SetsAfter(s, t, a, p);
    OwnersAfter(s, t, a, p);
    ClaimedElsewhere(s, t, a, p);
    hide Owners, Initialisers, Owns, Initialising;
    assert Initialisers(t) == Initialisers(s);
  }

  /** The caller claims the lock, or goes on with the claim it has. */
  lemma ClaimKeeps(s: Lock, t: Lock, a: nat, p: Pc)
    requires Inv(s) && t == Go(s.(count := t.count, fields := t.fields), a, p) && Claimed(t, p)
    requires Initialising(p) && (s.count == 0 || Initialising(PcOf(s, a))) && t.count < 0 && !Owns(PcOf(s, a))
    ensures Inv(t)
  {
    if Initialising(PcOf(s, a)) { Alone(s, a); }
    SetsAfter(s, t, a, p);
    OwnersAfter(s, t, a, p);
    ClaimedElsewhere(s, t, a, p);
    hide Owners, Initialisers, Owns, Initialising;
    assert Initialisers(t) == {a};
  }

  /** The claim ends: published with references, or given up. */
  lemma PublishKeeps(s: Lock, t: Lock, a: nat, p: Pc)
    requires Inv(s) && t == Go(s.(count := t.count, reserved := t.reserved), a, p) && Claimed(t, p)
    requires Initialising(PcOf(s, a)) && !Initialising(p)
    requires t.count == t.reserved + (if Owns(p) then 1 else 0)
    requires t.count > 0 ==> s.fields == FIELDS
    ensures Inv(t)
  {
    Alone(s, a);
    SetsAfter(s, t, a, p);
    OwnersAfter(s, t, a, p);
    ClaimedElsewhere(s, t, a, p);
    hide Owners, Initialisers, Owns, Initialising;
    assert Initialisers(t) == {};
  }

  lemma OwnerCounted(s: Lock, a: nat)
    requires Inv(s) && Owns(PcOf(s, a))
    ensures s.count > 0
  {
    assert a in Owners(s);
    assert |Owners(s)| > 0;
  }

  lemma CreatingKeeps(s: Lock, t: Lock, a: nat)
    requires Inv(s) && CreateStep(s, t, a) && PcOf(s, a).Creating?
    ensures Inv(t)
  {
    assert Claimed(s, PcOf(s, a));
    NothingReserved(s, a);
    hide Inv;
    var k := PcOf(s, a).written;
    if t == Go(s.(count := 0), a, Idle) { PublishKeeps(s, t, a, Idle); }
    else if k < FIELDS { ClaimKeeps(s, t, a, Creating(k + 1)); }
    else { PublishKeeps(s, t, a, Binding); }
  }

  lemma CreateKeeps(s: Lock, t: Lock, a: nat)
    requires Inv(s) && CreateStep(s, t, a)
    ensures Inv(t)
  {
    if Owns(PcOf(s, a)) { OwnerCounted(s, a); }
    hide Inv;
    match PcOf(s, a)
    case Idle => CountKeeps(s, t, a, PcOf(t, a));
    case Creating(_) => CreatingKeeps(s, t, a);
    case Seen(_) =>
      if PcOf(t, a).Creating? { ClaimKeeps(s, t, a, Creating(0)); } else { CountKeeps(s, t, a, PcOf(t, a)); }
    case Binding => CountKeeps(s, t, a, PcOf(t, a));
    case _ =>
  }

  lemma NothingReserved(s: Lock, a: nat)
    requires Inv(s) && Initialising(PcOf(s, a))
    ensures s.reserved == 0
  {
    Alone(s, a);
  }

  lemma FreeKeeps(s: Lock, t: Lock, a: nat)
    requires Inv(s) && FreeStep(s, t, a)
    ensures Inv(t)
  {
    assert Claimed(s, PcOf(s, a));
    OwnerCounted(s, a);
    hide Inv;
    CountKeeps(s, t, a, PcOf(t, a));
  }

  lemma RebuildKeeps(u: Usage, s: Lock, t: Lock, a: nat)
    requires Inv(s) && RebuildStep(u, s, t, a) && !u.strayRebuild
    ensures Inv(t)
  {
    assert Claimed(s, PcOf(s, a));
    hide Inv;
    match PcOf(s, a)
    case Rebuilding(k, n) =>
      NothingReserved(s, a);
      if t == Go(s.(count := 0), a, Idle) { PublishKeeps(s, t, a, Idle); }
      else if k < FIELDS { ClaimKeeps(s, t, a, Rebuilding(k + 1, n)); }
      else { PublishKeeps(s, t, a, Held); }
    case Idle =>
      if PcOf(t, a).Rebuilding? { ClaimKeeps(s, t, a, PcOf(t, a)); } else { CountKeeps(s, t, a, Held); }
    case _ =>
  }

  lemma RecoverKeeps(u: Usage, s: Lock, t: Lock, a: nat)
    requires Inv(s) && RecoverStep(u, s, t, a) && !u.strayRecover
    ensures Inv(t)
  {
    OwnerCounted(s, a);
    hide Inv;
    CountKeeps(s, t, a, PcOf(t, a));
  }

  lemma {:induction false} RunKeeps(u: Usage, run: seq<Lock>, i: nat)
    requires IsRun(u, run) && i < |run| && !u.strayRecover && !u.strayRebuild
    ensures Inv(run[i])
    decreases i
  {
    if i == 0 {
      assert forall a :: PcOf(run[0], a) == Idle;
    } else {
      hide Inv, CreateStep, FreeStep, RebuildStep, RecoverStep;
      RunKeeps(u, run, i - 1);
      var s, t := run[i - 1], run[i];
      assert Next(u, s, t);
      var a :| Step(u, s, t, a);
      if CreateStep(s, t, a) { CreateKeeps(s, t, a); }
      else if FreeStep(s, t, a) { FreeKeeps(s, t, a); }
      else if RebuildStep(u, s, t, a) { RebuildKeeps(u, s, t, a); }
      else { RecoverKeeps(u, s, t, a); }
    }
  }

  /**
  One initialiser at most, a positive count only over a fully written lock and
  equal to the references outstanding, a written lock under every owner, and no
  free of an owned reference goes uncounted.
  */
  ghost predicate Published(s: Lock) {
    && |Initialisers(s)| <= 1
    && (s.count > 0 ==> s.fields == FIELDS && s.count == References(s) && Initialisers(s) == {})
    && (forall a :: Owns(PcOf(s, a)) ==> s.count > 0)
    && (forall a :: !PcOf(s, a).Lost?)
  }

  lemma PublicationSafe(u: Usage, run: seq<Lock>, i: nat)
    requires IsRun(u, run) && i < |run| && !u.strayRecover && !u.strayRebuild
    ensures Published(run[i])
  {
    RunKeeps(u, run, i);
    var s := run[i];
    forall a ensures Owns(PcOf(s, a)) ==> s.count > 0 {
      if Owns(PcOf(s, a)) { OwnerCounted(s, a); }
    }
    forall a ensures !PcOf(s, a).Lost? { assert Claimed(s, PcOf(s, a)); }
  }

  // ---- recovers and rebuilds nobody counted ----------------------------------------------------

  ghost predicate Reachable(u: Usage, s: Lock) { exists run :: IsRun(u, run) && run[|run| - 1] == s }

  lemma Reach(u: Usage, s: Lock, t: Lock, a: nat)
    requires Reachable(u, s) && Step(u, s, t, a)
    ensures Reachable(u, t)
  {
    hide Step;
    var run :| IsRun(u, run) && run[|run| - 1] == s;
    var more := run + [t];
    assert Next(u, s, t);
    assert forall i :: 0 <= i < |run| ==> more[i] == run[i];
    assert IsRun(u, more) && more[|more| - 1] == t;
  }

  /** Node 1 alone has created the lock, and stands somewhere. */
  function Stage(count: int, fields: nat, one: Pc): Lock { Lock(count, fields, 0, map[1 := one]) }

  lemma {:induction false} Writing(u: Usage, k: nat)
    requires k <= FIELDS
    ensures Reachable(u, Stage(CREATING, k, Creating(k)))
  {
    if k == 0 {
      var s := Lock(0, 0, 0, map[]);
      assert IsRun(u, [s]) && [s][|[s]| - 1] == s;
      Reach(u, s, Stage(0, 0, Seen(0)), 1);
      Reach(u, Stage(0, 0, Seen(0)), Stage(CREATING, 0, Creating(0)), 1);
    } else {
      Writing(u, k - 1);
      Reach(u, Stage(CREATING, k - 1, Creating(k - 1)), Stage(CREATING, k, Creating(k)), 1);
    }
  }

  lemma OneOwner(u: Usage)
    ensures Reachable(u, Stage(1, FIELDS, Held))
  {
    Writing(u, FIELDS);
    Reach(u, Stage(CREATING, FIELDS, Creating(FIELDS)), Stage(1, FIELDS, Binding), 1);
    Reach(u, Stage(1, FIELDS, Binding), Stage(1, FIELDS, Held), 1);
  }

  /** Nodes 1 and 2 over a written lock. */
  function Pair(count: int, one: Pc, two: Pc): Lock { Lock(count, FIELDS, 0, map[1 := one, 2 := two]) }

  /** Two owners and a count of one: recover was called for node 3, or node 2 joined by a rebuild. */
  lemma OneTooFew(u: Usage)
    requires u.strayRecover || u.strayRebuild
    ensures Reachable(u, Pair(1, Held, Held))
  {
    OneOwner(u);
    var s := Stage(1, FIELDS, Held);
    if u.strayRebuild {
      Reach(u, s, Pair(1, Held, Held), 2);
    } else {
      Reach(u, s, Pair(1, Held, Seen(1)), 2);
      Reach(u, Pair(1, Held, Seen(1)), Pair(2, Held, Binding), 2);
      Reach(u, Pair(2, Held, Binding), Pair(2, Held, Held), 2);
      Reach(u, Pair(2, Held, Held), Pair(1, Held, Held), 3);
    }
  }

  /** The first free then closes the lock under the second owner. */
  lemma ClosedUnderOwner(u: Usage)
    requires u.strayRecover || u.strayRebuild
    ensures Reachable(u, Pair(0, Idle, Held)) && !Published(Pair(0, Idle, Held))
  {
    OneTooFew(u);
    Reach(u, Pair(1, Held, Held), Pair(1, Freeing(1), Held), 1);
    Reach(u, Pair(1, Freeing(1), Held), Pair(0, Idle, Held), 1);
    assert Owns(PcOf(Pair(0, Idle, Held), 2));
  }

  /**
  So publication is safe in every run if and only if recover is called for
  stopped owners only, and a rebuild on a lock already published only by a node
  it reserved a reference for.
  */
  lemma PublicationExactly(u: Usage)
    ensures (forall s :: Reachable(u, s) ==> Published(s)) <==> !u.strayRecover && !u.strayRebuild
  {
    if u.strayRecover || u.strayRebuild {
      ClosedUnderOwner(u);
    } else {
      forall s | Reachable(u, s) ensures Published(s) {
        var run :| IsRun(u, run) && run[|run| - 1] == s;
        PublicationSafe(u, run, |run| - 1);
      }
    }
  }

  // ---- the 32-bit counter --------------------------------------------------------------------------

  predicate Fits(s: Lock) {
    && s.count <= MAX_COUNT
    && forall a :: a in s.pc && s.pc[a].Rebuilding? ==> s.pc[a].refs <= MAX_REPORTS
  }

  lemma StepFits(u: Usage, s: Lock, t: Lock, a: nat)
    requires Fits(s) && Step(u, s, t, a)
    ensures Fits(t)
  {
    assert t.count <= MAX_COUNT;
    assert PcOf(t, a).Rebuilding? ==> PcOf(t, a).refs <= MAX_REPORTS;
    assert forall b :: b in t.pc && b != a ==> b in s.pc && t.pc[b] == s.pc[b];
  }

  /** The count never passes the largest int32, however many creates there are: the one that would is refused. */
  lemma {:induction false} CountFits(u: Usage, run: seq<Lock>, i: nat)
    requires IsRun(u, run) && i < |run|
    ensures Fits(run[i])
    decreases i
  {
    if i > 0 {
      hide Step;
      CountFits(u, run, i - 1);
      assert Next(u, run[i - 1], run[i]);
      var a :| Step(u, run[i - 1], run[i], a);
      StepFits(u, run[i - 1], run[i], a);
    }
  }

  // ---- who closes the lock ---------------------------------------------------------------------------

  lemma LastOwner(s: Lock, a: nat)
    requires Inv(s) && s.count == 1 && Owns(PcOf(s, a))
    ensures Owners(s) == {a} && s.reserved == 0
  {
    assert a in Owners(s);
    var rest := Owners(s) - {a};
    assert Owners(s) == rest + {a} && |rest| == 0;
  }

  /** A published lock is closed by its last owner alone, in its free or when its registration fails. */
  lemma ClosedByLast(u: Usage, run: seq<Lock>, i: nat)
    requires IsRun(u, run) && 0 < i < |run| && !u.strayRecover && !u.strayRebuild
    requires run[i - 1].count > 0 && run[i].count <= 0
    ensures run[i].count == 0 && run[i - 1].reserved == 0
    ensures exists a :: Owners(run[i - 1]) == {a} && (PcOf(run[i - 1], a).Freeing? || PcOf(run[i - 1], a).Binding?)
  {
    RunKeeps(u, run, i - 1);
    var s, t := run[i - 1], run[i];
    assert Next(u, s, t);
    var a :| Step(u, s, t, a);
    if Initialising(PcOf(s, a)) { Alone(s, a); }
    assert s.count == 1 && (PcOf(s, a).Freeing? || PcOf(s, a).Binding?);
    LastOwner(s, a);
  }

  // ---- calls that run alone ------------------------------------------------------------------------------

  /** A create of a published lock, also one that has waited for its creator, ends with one reference more. */
  lemma JoinAlone(u: Usage, s: Lock, a: nat) returns (t: Lock)
    requires Reachable(u, s) && 0 < s.count < MAX_COUNT && PcOf(s, a) in {Idle, Seen(CREATING)}
    ensures Reachable(u, t) && t == Go(s.(count := s.count + 1), a, Held)
  {
    hide Reachable;
    var s1 := Go(s, a, Seen(s.count));
    Reach(u, s, s1, a);
    var s2 := Go(s1.(count := s.count + 1), a, Binding);
    Reach(u, s1, s2, a);
    t := Go(s2, a, Held);
    Reach(u, s2, t, a);
  }

  /** A free by an owner ends with one reference less. */
  lemma FreeAlone(u: Usage, s: Lock, a: nat) returns (t: Lock)
    requires Reachable(u, s) && s.count > 0 && PcOf(s, a) == Held
    ensures Reachable(u, t) && t == Go(s.(count := s.count - 1), a, Idle)
  {
    hide Reachable;
    var s1 := Go(s, a, Freeing(s.count));
    Reach(u, s, s1, a);
    t := Go(s1.(count := s.count - 1), a, Idle);
    Reach(u, s1, t, a);
  }

  lemma {:induction false} CreateWrites(u: Usage, s: Lock, a: nat, k: nat)
    requires Reachable(u, s) && s.count == 0 && PcOf(s, a) == Idle && k <= FIELDS
    ensures Reachable(u, Go(s.(count := CREATING, fields := k), a, Creating(k)))
  {
    hide Reachable;
    if k == 0 {
      Reach(u, s, Go(s, a, Seen(0)), a);
      assert Go(s.(count := CREATING, fields := 0), a, Creating(0)) ==
        Go(Go(s, a, Seen(0)).(count := CREATING, fields := 0), a, Creating(0));
      Reach(u, Go(s, a, Seen(0)), Go(s.(count := CREATING, fields := 0), a, Creating(0)), a);
    } else {
      CreateWrites(u, s, a, k - 1);
      var before := Go(s.(count := CREATING, fields := k - 1), a, Creating(k - 1));
      assert Go(s.(count := CREATING, fields := k), a, Creating(k)) == Go(before.(fields := k), a, Creating(k));
      Reach(u, before, Go(s.(count := CREATING, fields := k), a, Creating(k)), a);
    }
  }

  /** The first create writes every field and publishes one reference. */
  lemma CreateAlone(u: Usage, s: Lock, a: nat) returns (t: Lock)
    requires Reachable(u, s) && s.count == 0 && PcOf(s, a) == Idle
    ensures Reachable(u, t) && t == Go(s.(count := 1, fields := FIELDS), a, Held)
  {
    CreateWrites(u, s, a, FIELDS);
    hide Reachable;
    var s1 := Go(s.(count := CREATING, fields := FIELDS), a, Creating(FIELDS));
    var s2 := Go(s1.(count := 1), a, Binding);
    Reach(u, s1, s2, a);
    t := Go(s2, a, Held);
    Reach(u, s2, t, a);
  }

  lemma {:induction false} RebuildWrites(u: Usage, s: Lock, a: nat, n: nat, k: nat)
    requires Reachable(u, s) && s.count == 0 && PcOf(s, a) == Idle && 0 < n <= MAX_REPORTS && k <= FIELDS
    ensures Reachable(u, Go(s.(count := REBUILDING, fields := k), a, Rebuilding(k, n)))
    decreases k
  {
    hide Reachable;
    if k == 0 {
      Reach(u, s, Go(s.(count := REBUILDING, fields := 0), a, Rebuilding(0, n)), a);
    } else {
      RebuildWrites(u, s, a, n, k - 1);
      var before := Go(s.(count := REBUILDING, fields := k - 1), a, Rebuilding(k - 1, n));
      assert Go(s.(count := REBUILDING, fields := k), a, Rebuilding(k, n)) ==
        Go(before.(fields := k), a, Rebuilding(k, n));
      Reach(u, before, Go(s.(count := REBUILDING, fields := k), a, Rebuilding(k, n)), a);
    }
  }

  /** A rebuild from n reports publishes n references, its own and one reserved for each other node. */
  lemma RebuildAlone(u: Usage, s: Lock, a: nat, n: nat) returns (t: Lock)
    requires Reachable(u, s) && s.count == 0 && PcOf(s, a) == Idle && 0 < n <= MAX_REPORTS
    ensures Reachable(u, t) && t == Go(s.(count := n, fields := FIELDS, reserved := n - 1), a, Held)
  {
    RebuildWrites(u, s, a, n, FIELDS);
    hide Reachable;
    var s1 := Go(s.(count := REBUILDING, fields := FIELDS), a, Rebuilding(FIELDS, n));
    t := Go(s1.(count := n, reserved := n - 1), a, Held);
    Reach(u, s1, t, a);
  }

  /** Another node's rebuild takes up its reserved reference, and the count stays. */
  lemma TakeUpAlone(u: Usage, s: Lock, a: nat) returns (t: Lock)
    requires Reachable(u, s) && s.count > 0 && s.reserved > 0 && PcOf(s, a) == Idle
    ensures Reachable(u, t) && t == Go(s.(reserved := s.reserved - 1), a, Held)
  {
    hide Reachable;
    t := Go(s.(reserved := s.reserved - 1), a, Held);
    Reach(u, s, t, a);
  }

  /** recover gives back the reference of an owner that stopped, unless it is the last one. */
  lemma RecoverAlone(u: Usage, s: Lock, a: nat) returns (t: Lock)
    requires Reachable(u, s) && s.count > 1 && Owns(PcOf(s, a))
    ensures Reachable(u, t) && t == Go(s.(count := s.count - 1), a, Idle)
  {
    hide Reachable;
    var s1 := Go(s, a, Gone);
    Reach(u, s, s1, a);
    t := Go(s1.(count := s.count - 1), a, Idle);
    Reach(u, s1, t, a);
  }

  // ---- a free nobody counted -------------------------------------------------------------------------------

  /** After the first free has closed the lock, the second owner's free is not counted. */
  lemma SecondFreeLost(u: Usage)
    requires u.strayRecover || u.strayRebuild
    ensures Reachable(u, Pair(0, Idle, Lost))
  {
    ClosedUnderOwner(u);
    hide Reachable;
    Reach(u, Pair(0, Idle, Held), Pair(0, Idle, Freeing(0)), 2);
    Reach(u, Pair(0, Idle, Freeing(0)), Pair(0, Idle, Lost), 2);
  }

  /** Every free by an owner counts in every run, exactly when callers do neither. */
  lemma FreesExactly(u: Usage)
    ensures (forall s, a :: Reachable(u, s) ==> !PcOf(s, a).Lost?) <==> !u.strayRecover && !u.strayRebuild
  {
    if u.strayRecover || u.strayRebuild {
      SecondFreeLost(u);
      assert PcOf(Pair(0, Idle, Lost), 2).Lost?;
    } else {
      PublicationExactly(u);
    }
  }
}
