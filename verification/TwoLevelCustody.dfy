/**
Why the two-level lock excludes: every amount ever subtracted from the shared
word is a unit in somebody's custody. A unit sits in the hand of one call, in
the token of one node, or in the pool that a node's readers share. Units are
never copied; losing one only makes the lock harder to take.
*/
module TwoLevelCustody {
  import opened LocalWord
  import opened TwoLevelLock

  datatype Place = Pool(node: nat) | Tok(node: nat) | Hand(agent: Agent)

  datatype Unit = Unit(mode: Mode, place: Place)

  /** Bookkeeping beside a state: live units by serial number, and calls that returned with the SX bit set. */
  datatype Custody = Custody(units: map<nat, Unit>, next: nat, orphans: set<Agent>)

  datatype Maybe = Nothing | Just(mode: Mode)

  /** The local lock a call holds. */
  function LocalMode(p: Pc): Maybe {
    match p
    case Idle => Nothing
    case HTake => Nothing
    case HHeld(_) => Nothing
    case HEnd => Nothing
    case SEnter => Just(S)
    case SSaw => Just(S)
    case SRef(_) => Just(S)
    case SCas(_) => Just(S)
    case SPublish => Just(S)
    case SFail => Just(S)
    case SFailRef => Just(S)
    case SUndo => Just(S)
    case Release => Just(S)
    case SOver => Just(S)
    case Refused(m) => Just(m)
    case DropReserve(_, g) => if g.ForMessage? then Nothing else Just(g.mode)
    case DropOwner(_, g) => if g.ForMessage? then Nothing else Just(g.mode)
    case DropWord(_, g) => if g.ForMessage? then Nothing else Just(g.mode)
    case TakeToken(m) => Just(m)
    case Inherit(m) => Just(m)
    case CheckOwner(m) => Just(m)
    case Contend(m) => Just(m)
    case Got(m) => Just(m)
    case Holding(m) => Just(m)
    case ClearToken(m) => Just(m)
    case PutOwner(m) => Just(m)
    case PutWord(m) => Just(m)
    case Park(m) => Just(m)
    case After(m) => Just(m)
    case Leave(m) => Just(m)
  }

  /** The unit a call has in its own hand. */
  function InHand(p: Pc): Maybe {
    match p
    case Inherit(m) => Just(m)
    case Got(m) => Just(m)
    case Holding(m) => if m == S then Nothing else Just(m)
    case Release => Just(S)
    case ClearToken(m) => Just(m)
    case PutOwner(m) => Just(m)
    case PutWord(m) => Just(m)
    case Park(m) => Just(m)
    case DropReserve(unit, _) => Just(unit)
    case DropOwner(unit, _) => Just(unit)
    case DropWord(unit, _) => Just(unit)
    case HHeld(unit) => Just(unit)
    case _ => Nothing
  }

  /** Calls that rely on the node's pooled S. */
  predicate Reads(p: Pc) { p.SPublish? || p.SUndo? || p == Holding(S) }

  /** The owner word that must name this call. */
  function Named(p: Pc): Maybe {
    if (p.Holding? || p.ClearToken? || p.PutOwner?) && p.mode != S then Just(p.mode) else Nothing
  }

  function Of(units: map<nat, Unit>, m: Mode): set<nat> { set k | k in units && units[k].mode == m }

  function PoolOf(units: map<nat, Unit>, n: nat): set<nat> { set k | k in units && units[k] == Unit(S, Pool(n)) }

  ghost predicate Has(units: map<nat, Unit>, u: Unit) { exists k :: k in units && units[k] == u }

  function ReadersAt(s: Sys, n: nat): set<Agent> { set a | a in s.pc && a.node == n && Reads(s.pc[a]) }

  function LocalAt(s: Sys, n: nat, m: Mode): set<Agent> {
    set a | a in s.pc && a.node == n && LocalMode(s.pc[a]) == Just(m)
  }

  function OrphansAt(orphans: set<Agent>, n: nat): set<Agent> { set a | a in orphans && a.node == n }

  // ---- the invariant ---------------------------------------------------------------

  predicate WordOk(word: int, units: map<nat, Unit>) {
    if Of(units, X) != {} then
      |Of(units, X)| == 1 && Of(units, S) == {} && Of(units, SX) == {} && word == 0
    else
      |Of(units, SX)| <= 1 && 0 <= word == FREE - |Of(units, S)| - HALF * |Of(units, SX)|
  }

  ghost predicate HandsOk(s: Sys, units: map<nat, Unit>) {
    forall a :: a in s.pc && InHand(s.pc[a]).Just? ==> Has(units, Unit(InHand(s.pc[a]).mode, Hand(a)))
  }

  ghost predicate TokensOk(s: Sys, units: map<nat, Unit>) {
    forall n :: 0 <= n < |s.nodes| && s.nodes[n].token.Parked? ==> Has(units, Unit(s.nodes[n].token.mode, Tok(n)))
  }

  /** Units a node's readers need: one behind a positive count, one for readers the count misses. */
  function Need(refs: int, readers: nat): nat {
    (if refs > 0 then 1 else 0) + (if readers > refs then 1 else 0)
  }

  predicate PoolsOk(s: Sys, units: map<nat, Unit>) {
    forall n :: 0 <= n < |s.nodes| ==> |PoolOf(units, n)| >= Need(s.nodes[n].refs, |ReadersAt(s, n)|)
  }

  ghost predicate LocalOk(s: Sys, orphans: set<Agent>, n: nat)
    requires n < |s.nodes|
  {
    Agrees(s.nodes[n].word, LocalAt(s, n, S), LocalAt(s, n, SX) + OrphansAt(orphans, n), LocalAt(s, n, X))
  }

  ghost predicate LocalsOk(s: Sys, orphans: set<Agent>) {
    forall n :: 0 <= n < |s.nodes| ==> LocalOk(s, orphans, n)
  }

  predicate OwnersOk(s: Sys) {
    forall a :: a in s.pc && Named(s.pc[a]).Just? ==> OwnerOf(s, Named(s.pc[a]).mode) == Me(a)
  }

  /** Places no call is ever found in: refused unlocks, undo of a stray unlock, owner words of S. */
  predicate WellPlaced(p: Pc) {
    match p
    case Refused(_) => false
    case SOver => false
    case SUndo => false
    case SRef(ref) => ref > 0
    case SCas(ref) => ref > 0
    case DropOwner(unit, _) => unit != S
    case PutOwner(m) => m != S
    case CheckOwner(m) => m != S
    case _ => true
  }

  predicate CallsOk(s: Sys) {
    forall a :: a in s.pc ==> a.node < |s.nodes| && WellPlaced(s.pc[a])
  }

  predicate SerialsOk(c: Custody) { forall k :: k in c.units ==> k < c.next }

  ghost predicate Inv(s: Sys, c: Custody) {
    && WordOk(s.word, c.units)
    && HandsOk(s, c.units)
    && TokensOk(s, c.units)
    && PoolsOk(s, c.units)
    && LocalsOk(s, c.orphans)
    && OwnersOk(s)
    && CallsOk(s)
    && SerialsOk(c)
  }

  // ---- moving one call -----------------------------------------------------------------

  predicate Moved(s: Sys, t: Sys, a: Agent) {
    && a.node < |s.nodes| == |t.nodes|
    && t.pc == s.pc[a := PcOf(t, a)]
    && forall n :: 0 <= n < |s.nodes| && n != a.node ==> t.nodes[n] == s.nodes[n]
  }

  /** A node's local lock is untouched by steps elsewhere, and by steps that neither take nor release it. */
  lemma LocalUnmoved(s: Sys, t: Sys, a: Agent, orphans: set<Agent>, n: nat)
    requires Moved(s, t, a) && n < |s.nodes| && LocalOk(s, orphans, n)
    requires n == a.node ==>
      t.nodes[n].word == s.nodes[n].word && LocalMode(PcOf(t, a)) == LocalMode(PcOf(s, a))
    ensures LocalOk(t, orphans, n)
  {
    hide Agrees;
    forall m: Mode ensures LocalAt(t, n, m) == LocalAt(s, n, m) {}
  }

  lemma LocalsFrame(s: Sys, t: Sys, a: Agent, orphans: set<Agent>)
    requires LocalsOk(s, orphans) && Moved(s, t, a)
    requires t.nodes[a.node].word == s.nodes[a.node].word
    requires LocalMode(PcOf(t, a)) == LocalMode(PcOf(s, a))
    ensures LocalsOk(t, orphans)
  {
    hide LocalOk;
    forall n | 0 <= n < |t.nodes| ensures LocalOk(t, orphans, n) {
      LocalUnmoved(s, t, a, orphans, n);
    }
  }

  /** Only the caller's own node needs a fresh argument. */
  lemma LocalsElsewhere(s: Sys, t: Sys, a: Agent, orphans: set<Agent>)
    requires LocalsOk(s, orphans) && Moved(s, t, a)
    requires LocalOk(t, orphans, a.node)
    ensures LocalsOk(t, orphans)
  {
    hide LocalOk;
    forall n | 0 <= n < |t.nodes| ensures LocalOk(t, orphans, n) {
      if n != a.node { LocalUnmoved(s, t, a, orphans, n); }
    }
  }

  lemma LocalAtNode(s: Sys, orphans: set<Agent>, n: nat)
    requires LocalsOk(s, orphans) && n < |s.nodes|
    ensures LocalOk(s, orphans, n)
  {
  }

  lemma PoolsFrame(s: Sys, t: Sys, a: Agent, units: map<nat, Unit>)
    requires PoolsOk(s, units) && Moved(s, t, a)
    requires t.nodes[a.node].refs == s.nodes[a.node].refs
    requires Reads(PcOf(t, a)) == Reads(PcOf(s, a))
    ensures PoolsOk(t, units)
  {
    forall n | 0 <= n < |t.nodes| ensures ReadersAt(t, n) == ReadersAt(s, n) {}
  }

  lemma PoolsElsewhere(s: Sys, t: Sys, a: Agent, units: map<nat, Unit>, after: map<nat, Unit>)
    requires PoolsOk(s, units) && Moved(s, t, a)
    requires forall n: nat :: n != a.node ==> PoolOf(after, n) == PoolOf(units, n)
    requires |PoolOf(after, a.node)| >= Need(t.nodes[a.node].refs, |ReadersAt(t, a.node)|)
    ensures PoolsOk(t, after)
  {
    forall n | 0 <= n < |t.nodes| && n != a.node ensures ReadersAt(t, n) == ReadersAt(s, n) {}
  }

  lemma HandsFrame(s: Sys, t: Sys, a: Agent, units: map<nat, Unit>)
    requires HandsOk(s, units) && Moved(s, t, a)
    requires InHand(PcOf(t, a)) == InHand(PcOf(s, a)) || InHand(PcOf(t, a)).Nothing?
    ensures HandsOk(t, units)
  {
  }

  lemma HandsElsewhere(s: Sys, t: Sys, a: Agent, units: map<nat, Unit>, after: map<nat, Unit>)
    requires HandsOk(s, units) && Moved(s, t, a)
    requires forall u :: Has(units, u) && u.place.Hand? && u.place.agent != a ==> Has(after, u)
    requires InHand(PcOf(t, a)).Just? ==> Has(after, Unit(InHand(PcOf(t, a)).mode, Hand(a)))
    ensures HandsOk(t, after)
  {
  }

  lemma TokensFrame(s: Sys, t: Sys, a: Agent, units: map<nat, Unit>)
    requires TokensOk(s, units) && Moved(s, t, a)
    requires t.nodes[a.node].token == s.nodes[a.node].token || t.nodes[a.node].token.NoToken?
    ensures TokensOk(t, units)
  {
  }

  lemma TokensElsewhere(s: Sys, t: Sys, a: Agent, units: map<nat, Unit>, after: map<nat, Unit>)
    requires TokensOk(s, units) && Moved(s, t, a)
    requires forall u :: Has(units, u) && u.place.Tok? && u.place.node != a.node ==> Has(after, u)
    requires t.nodes[a.node].token.Parked? ==> Has(after, Unit(t.nodes[a.node].token.mode, Tok(a.node)))
    ensures TokensOk(t, after)
  {
  }

  lemma OwnersFrame(s: Sys, t: Sys, a: Agent)
    requires OwnersOk(s) && Moved(s, t, a)
    requires t.ownerX == s.ownerX && t.ownerSX == s.ownerSX
    requires Named(PcOf(t, a)) == Named(PcOf(s, a)) || Named(PcOf(t, a)).Nothing?
    ensures OwnersOk(t)
  {
  }

  /** A step that changes nothing the invariant speaks of. */
  lemma Quiet(s: Sys, t: Sys, a: Agent, c: Custody)
    requires Inv(s, c) && Moved(s, t, a) && CallsOk(t)
    requires t.word == s.word && t.ownerX == s.ownerX && t.ownerSX == s.ownerSX
    requires var nd, md := s.nodes[a.node], t.nodes[a.node];
             nd.word == md.word && nd.refs == md.refs && (md.token == nd.token || md.token.NoToken?)
    requires var p, q := PcOf(s, a), PcOf(t, a);
             && LocalMode(p) == LocalMode(q) && Reads(p) == Reads(q)
             && (InHand(q) == InHand(p) || InHand(q).Nothing?)
             && (Named(q) == Named(p) || Named(q).Nothing?)
    ensures Inv(t, c)
  {
    LocalsFrame(s, t, a, c.orphans);
    PoolsFrame(s, t, a, c.units);
    HandsFrame(s, t, a, c.units);
    TokensFrame(s, t, a, c.units);
    OwnersFrame(s, t, a);
  }

  // ---- moving one unit ------------------------------------------------------------------

  function Give(c: Custody, u: Unit): Custody { c.(units := c.units[c.next := u], next := c.next + 1) }

  function Shift(c: Custody, k: nat, place: Place): Custody
    requires k in c.units
  {
    c.(units := c.units[k := c.units[k].(place := place)])
  }

  function Retire(c: Custody, k: nat): Custody { c.(units := c.units - {k}) }

  /** Units changed places and nothing else. */
  predicate SameUnits(c: Custody, d: Custody) {
    d.units.Keys == c.units.Keys && forall k :: k in c.units ==> d.units[k].mode == c.units[k].mode
  }

  /** How many units of each mode there are, against before. */
  ghost predicate Tally(c: Custody, d: Custody, m: Mode, delta: int) {
    forall o: Mode :: |Of(d.units, o)| == |Of(c.units, o)| + (if o == m then delta else 0)
  }

  /** What a step does to the number of units out: the CAS that takes one, the add or store that gives one back. */
  function UnitDelta(p: Pc, q: Pc, m: Mode): int {
    if p == Contend(m) && q == Got(m) then 1
    else if (p == PutWord(m) && (q == After(m) || q == Idle)) ||
      (p.DropWord? && p.unit == m && q == AfterToken(p.goal)) then -1
    else 0
  }

  lemma SameTally(c: Custody, d: Custody)
    requires SameUnits(c, d)
    ensures Tally(c, d, S, 0)
  {
    forall m: Mode ensures Of(d.units, m) == Of(c.units, m) {}
  }

  lemma GiveTally(c: Custody, u: Unit)
    requires SerialsOk(c)
    ensures Tally(c, Give(c, u), u.mode, 1)
  {
    OfAfterGive(c, u, S);
    OfAfterGive(c, u, SX);
    OfAfterGive(c, u, X);
    hide Of;
  }

  lemma RetireTally(c: Custody, k: nat, orphans: set<Agent>)
    requires k in c.units
    ensures Tally(c, Retire(c, k).(orphans := orphans), c.units[k].mode, -1)
  {
    var after := Retire(c, k).units;
    forall m: Mode ensures |Of(after, m)| == |Of(c.units, m)| + (if m == c.units[k].mode then -1 else 0) {
      assert k in Of(c.units, c.units[k].mode);
      assert Of(after, m) == if m == c.units[k].mode then Of(c.units, m) - {k} else Of(c.units, m);
    }
  }

  lemma HasAfterGive(c: Custody, u: Unit, v: Unit)
    requires SerialsOk(c) && (Has(c.units, v) || v == u)
    ensures Has(Give(c, u).units, v)
  {
    var after := Give(c, u).units;
    if v == u {
      assert after[c.next] == v;
    } else {
      var k :| k in c.units && c.units[k] == v;
      assert after[k] == v;
    }
  }

  lemma HasAfterShift(c: Custody, k: nat, place: Place, v: Unit)
    requires k in c.units
    requires v == c.units[k].(place := place) || (Has(c.units, v) && v.place != c.units[k].place)
    ensures Has(Shift(c, k, place).units, v)
  {
    var after := Shift(c, k, place).units;
    if v == c.units[k].(place := place) {
      assert after[k] == v;
    } else {
      var j :| j in c.units && c.units[j] == v;
      assert after[j] == v;
    }
  }

  lemma HasAfterRetire(c: Custody, k: nat, v: Unit)
    requires k in c.units && Has(c.units, v) && v.place != c.units[k].place
    ensures Has(Retire(c, k).units, v)
  {
    var j :| j in c.units && c.units[j] == v;
    assert Retire(c, k).units[j] == v;
  }

  lemma WordAfterTake(word: int, c: Custody, u: Unit)
    requires WordOk(word, c.units) && SerialsOk(c) && CanTake(word, u.mode)
    ensures WordOk(TakeUnit(word, u.mode), Give(c, u).units) && SerialsOk(Give(c, u))
  {
    OfAfterGive(c, u, S);
    OfAfterGive(c, u, SX);
    OfAfterGive(c, u, X);
    hide Of;
  }

  lemma OfAfterGive(c: Custody, u: Unit, m: Mode)
    requires SerialsOk(c)
    ensures m == u.mode ==> Of(Give(c, u).units, m) == Of(c.units, m) + {c.next} && c.next !in Of(c.units, m)
    ensures m != u.mode ==> Of(Give(c, u).units, m) == Of(c.units, m)
  {
  }

  lemma WordAfterShift(word: int, c: Custody, k: nat, place: Place)
    requires WordOk(word, c.units) && SerialsOk(c) && k in c.units
    ensures WordOk(word, Shift(c, k, place).units) && SerialsOk(Shift(c, k, place))
  {
    forall m: Mode ensures Of(Shift(c, k, place).units, m) == Of(c.units, m) {}
  }

  lemma WordAfterPut(word: int, c: Custody, k: nat)
    requires WordOk(word, c.units) && SerialsOk(c) && k in c.units
    ensures c.units[k].mode == S ==> word + 1 <= FREE
    ensures WordOk(GiveBack(word, c.units[k].mode), Retire(c, k).units) && SerialsOk(Retire(c, k))
  {
    var mode := c.units[k].mode;
    var after := Retire(c, k).units;
    assert k in Of(c.units, mode);
    forall m: Mode ensures Of(after, m) == if m == mode then Of(c.units, m) - {k} else Of(c.units, m) {}
    assert |Of(c.units, mode)| >= 1;
  }

  /** X and SX units are one of a kind, so at most one call has each in hand. */
  lemma OneHand(s: Sys, c: Custody, a: Agent, b: Agent, m: Mode)
    requires WordOk(s.word, c.units) && HandsOk(s, c.units) && m != S
    requires InHand(PcOf(s, a)) == Just(m) && InHand(PcOf(s, b)) == Just(m)
    ensures a == b
  {
    var j := UnitInHand(s, c, a, m);
    var k := UnitInHand(s, c, b, m);
    assert j in Of(c.units, m) && k in Of(c.units, m);
    var rest := Of(c.units, m) - {j};
    assert |rest| == 0;
    assert k == j || k in rest;
  }

  // ---- local acquire and release ------------------------------------------------------------

  lemma LocalAfter(s: Sys, t: Sys, a: Agent, m: Mode)
    requires Moved(s, t, a)
    ensures LocalAt(t, a.node, m) ==
      if LocalMode(PcOf(t, a)) == Just(m) then LocalAt(s, a.node, m) + {a} else LocalAt(s, a.node, m) - {a}
    ensures a in LocalAt(s, a.node, m) <==> LocalMode(PcOf(s, a)) == Just(m)
  {
  }

  lemma EnterShared(s: Sys, t: Sys, a: Agent, orphans: set<Agent>)
    requires Moved(s, t, a) && LocalOk(s, orphans, a.node)
    requires LocalMode(PcOf(s, a)).Nothing? && LocalMode(PcOf(t, a)) == Just(S)
    requires var w := s.nodes[a.node].word;
             && !w.At(LaneOf(a)).sentinel && w.At(LaneOf(a)).count < MAX_COUNT
             && t.nodes[a.node].word == w.Put(LaneOf(a), OneMore(w.At(LaneOf(a))))
    ensures LocalOk(t, orphans, a.node)
  {
    hide Agrees, LocalAt, OrphansAt, LocalMode;
    var n := a.node;
    ReaderIn(s, t, a);
    TakeShared(s.nodes[n].word, LocalAt(s, n, S), LocalAt(s, n, SX) + OrphansAt(orphans, n), LocalAt(s, n, X), a);
  }

  lemma ReaderIn(s: Sys, t: Sys, a: Agent)
    requires Moved(s, t, a) && LocalMode(PcOf(s, a)).Nothing? && LocalMode(PcOf(t, a)) == Just(S)
    ensures LocalAt(t, a.node, S) == LocalAt(s, a.node, S) + {a} && a !in LocalAt(s, a.node, S)
    ensures LocalAt(t, a.node, SX) == LocalAt(s, a.node, SX) && LocalAt(t, a.node, X) == LocalAt(s, a.node, X)
  {
  }

  lemma EnterUpgradable(s: Sys, t: Sys, a: Agent, orphans: set<Agent>)
    requires Moved(s, t, a) && LocalOk(s, orphans, a.node)
    requires LocalMode(PcOf(s, a)).Nothing? && LocalMode(PcOf(t, a)) == Just(SX)
    requires var w := s.nodes[a.node].word;
             !w.l0.sentinel && !w.l0.flag && t.nodes[a.node].word == w.Put(0, w.l0.(flag := true))
    ensures LocalOk(t, orphans, a.node)
  {
    hide Agrees;
    var n := a.node;
    LocalAfter(s, t, a, S);
    LocalAfter(s, t, a, SX);
    LocalAfter(s, t, a, X);
    TakeUpgradable(s.nodes[n].word, LocalAt(s, n, S), LocalAt(s, n, SX) + OrphansAt(orphans, n), LocalAt(s, n, X), a);
    assert LocalAt(t, n, S) == LocalAt(s, n, S) && LocalAt(t, n, X) == LocalAt(s, n, X);
    assert LocalAt(t, n, SX) + OrphansAt(orphans, n) == {a};
  }

  lemma EnterExclusive(s: Sys, t: Sys, a: Agent, orphans: set<Agent>)
    requires Moved(s, t, a) && LocalOk(s, orphans, a.node)
    requires LocalMode(PcOf(s, a)).Nothing? && LocalMode(PcOf(t, a)) == Just(X)
    requires s.nodes[a.node].word == IDLE_WORD && t.nodes[a.node].word == X_WORD
    ensures LocalOk(t, orphans, a.node)
  {
    hide Agrees;
    var n := a.node;
    LocalAfter(s, t, a, S);
    LocalAfter(s, t, a, SX);
    LocalAfter(s, t, a, X);
    TakeExclusive(s.nodes[n].word, LocalAt(s, n, S), LocalAt(s, n, SX) + OrphansAt(orphans, n), LocalAt(s, n, X), a);
    assert LocalAt(t, n, S) == {} && LocalAt(t, n, X) == {a};
    assert LocalAt(t, n, SX) + OrphansAt(orphans, n) == {};
  }

  /** A call with the local S always finds its lane releasable. */
  lemma SharedLane(s: Sys, a: Agent, orphans: set<Agent>)
    requires a.node < |s.nodes| && LocalOk(s, orphans, a.node) && LocalMode(PcOf(s, a)) == Just(S)
    ensures !s.nodes[a.node].word.At(LaneOf(a)).sentinel && s.nodes[a.node].word.At(LaneOf(a)).count > 0
  {
    hide Agrees;
    var n := a.node;
    DropShared(s.nodes[n].word, LocalAt(s, n, S), LocalAt(s, n, SX) + OrphansAt(orphans, n), LocalAt(s, n, X), a);
  }

  lemma LeaveShared(s: Sys, t: Sys, a: Agent, orphans: set<Agent>)
    requires Moved(s, t, a) && LocalOk(s, orphans, a.node)
    requires LocalMode(PcOf(s, a)) == Just(S) && LocalMode(PcOf(t, a)).Nothing?
    requires var w := s.nodes[a.node].word;
             w.At(LaneOf(a)).count > 0 && t.nodes[a.node].word == w.Put(LaneOf(a), OneLess(w.At(LaneOf(a))))
    ensures LocalOk(t, orphans, a.node)
  {
    hide Agrees, LocalAt, OrphansAt, LocalMode;
    var n := a.node;
    ReaderOut(s, t, a);
    DropShared(s.nodes[n].word, LocalAt(s, n, S), LocalAt(s, n, SX) + OrphansAt(orphans, n), LocalAt(s, n, X), a);
  }

  lemma ReaderOut(s: Sys, t: Sys, a: Agent)
    requires Moved(s, t, a) && LocalMode(PcOf(s, a)) == Just(S) && LocalMode(PcOf(t, a)).Nothing?
    ensures LocalAt(t, a.node, S) == LocalAt(s, a.node, S) - {a} && a in LocalAt(s, a.node, S)
    ensures LocalAt(t, a.node, SX) == LocalAt(s, a.node, SX) && LocalAt(t, a.node, X) == LocalAt(s, a.node, X)
  {
  }

  lemma UpgradableFlag(s: Sys, a: Agent, orphans: set<Agent>)
    requires a.node < |s.nodes| && LocalOk(s, orphans, a.node) && LocalMode(PcOf(s, a)) == Just(SX)
    ensures s.nodes[a.node].word.l0.flag
  {
    hide Agrees;
    var n := a.node;
    DropUpgradable(s.nodes[n].word, LocalAt(s, n, S), LocalAt(s, n, SX) + OrphansAt(orphans, n), LocalAt(s, n, X), a);
  }

  lemma LeaveUpgradable(s: Sys, t: Sys, a: Agent, orphans: set<Agent>)
    requires LocalsOk(s, orphans) && Moved(s, t, a)
    requires LocalMode(PcOf(s, a)) == Just(SX) && LocalMode(PcOf(t, a)).Nothing?
    requires t.nodes[a.node].word == s.nodes[a.node].word.Put(0, s.nodes[a.node].word.l0.(flag := false))
    ensures LocalsOk(t, orphans - {a})
  {
    hide Agrees;
    var n := a.node;
    assert LocalOk(s, orphans, n);
    LocalAfter(s, t, a, S);
    LocalAfter(s, t, a, SX);
    LocalAfter(s, t, a, X);
    DropUpgradable(s.nodes[n].word, LocalAt(s, n, S), LocalAt(s, n, SX) + OrphansAt(orphans, n), LocalAt(s, n, X), a);
    assert LocalAt(t, n, S) == LocalAt(s, n, S) && LocalAt(t, n, X) == LocalAt(s, n, X);
    assert LocalAt(t, n, SX) + OrphansAt(orphans - {a}, n) == {};
    OrphanChange(a, orphans, orphans - {a});
    OtherNodes(s, t, a, orphans, orphans - {a});
  }

  lemma OrphanChange(a: Agent, orphans: set<Agent>, after: set<Agent>)
    requires after == orphans - {a} || after == orphans + {a}
    ensures forall n :: n != a.node ==> OrphansAt(after, n) == OrphansAt(orphans, n)
  {
  }

  lemma OtherNodes(s: Sys, t: Sys, a: Agent, orphans: set<Agent>, after: set<Agent>)
    requires LocalsOk(s, orphans) && Moved(s, t, a)
    requires forall n :: n != a.node ==> OrphansAt(after, n) == OrphansAt(orphans, n)
    requires LocalOk(t, after, a.node)
    ensures LocalsOk(t, after)
  {
    hide Agrees;
    forall n | 0 <= n < |t.nodes| ensures LocalOk(t, after, n) {
      assert LocalOk(s, orphans, n);
      if n != a.node {
        forall m: Mode ensures LocalAt(t, n, m) == LocalAt(s, n, m) {}
      }
    }
  }

  lemma LeaveExclusive(s: Sys, t: Sys, a: Agent, orphans: set<Agent>)
    requires Moved(s, t, a) && LocalOk(s, orphans, a.node)
    requires LocalMode(PcOf(s, a)) == Just(X) && LocalMode(PcOf(t, a)).Nothing?
    requires t.nodes[a.node].word == IDLE_WORD
    ensures LocalOk(t, orphans, a.node)
  {
    hide Agrees;
    var n := a.node;
    LocalAfter(s, t, a, S);
    LocalAfter(s, t, a, SX);
    LocalAfter(s, t, a, X);
    DropExclusive(s.nodes[n].word, LocalAt(s, n, S), LocalAt(s, n, SX) + OrphansAt(orphans, n), LocalAt(s, n, X), a);
    assert LocalAt(t, n, S) == {} && LocalAt(t, n, X) == {};
    assert LocalAt(t, n, SX) + OrphansAt(orphans, n) == {};
  }

  /** A call that returns with the local SX bit set leaves the bit to an orphan. */
  lemma LeaveOrphan(s: Sys, t: Sys, a: Agent, orphans: set<Agent>)
    requires LocalsOk(s, orphans) && Moved(s, t, a)
    requires LocalMode(PcOf(s, a)) == Just(SX) && LocalMode(PcOf(t, a)).Nothing?
    requires t.nodes[a.node].word == s.nodes[a.node].word
    ensures LocalsOk(t, orphans + {a})
  {
    hide Agrees;
    var n := a.node;
    assert LocalOk(s, orphans, n);
    LocalAfter(s, t, a, S);
    LocalAfter(s, t, a, SX);
    LocalAfter(s, t, a, X);
    assert LocalAt(t, n, S) == LocalAt(s, n, S) && LocalAt(t, n, X) == LocalAt(s, n, X);
    assert LocalAt(t, n, SX) + OrphansAt(orphans + {a}, n) == LocalAt(s, n, SX) + OrphansAt(orphans, n);
    OrphanChange(a, orphans, orphans + {a});
    OtherNodes(s, t, a, orphans, orphans + {a});
  }

  // ---- every kind of step keeps the invariant ------------------------------------------------

  lemma CallsAfter(s: Sys, t: Sys, a: Agent)
    requires CallsOk(s) && Moved(s, t, a) && WellPlaced(PcOf(t, a))
    ensures CallsOk(t) && WellPlaced(PcOf(s, a))
  {
  }

  lemma EnterKeeps(u: Usage, s: Sys, t: Sys, a: Agent, c: Custody)
    requires Inv(s, c) && a.node < |s.nodes| && EnterStep(u, s, t, a)
    ensures Inv(t, c)
  {
    hide WordOk, HandsOk, TokensOk, PoolsOk, LocalsOk, LocalOk, OwnersOk, CallsOk;
    assert Moved(s, t, a);
    CallsAfter(s, t, a);
    if PcOf(t, a).HTake? {
      Quiet(s, t, a, c);
    } else {
      PoolsFrame(s, t, a, c.units);
      HandsFrame(s, t, a, c.units);
      TokensFrame(s, t, a, c.units);
      OwnersFrame(s, t, a);
      LocalAtNode(s, c.orphans, a.node);
      if PcOf(t, a).SEnter? {
        EnterShared(s, t, a, c.orphans);
      } else if PcOf(t, a) == TakeToken(SX) {
        EnterUpgradable(s, t, a, c.orphans);
      } else {
        EnterExclusive(s, t, a, c.orphans);
      }
      LocalsElsewhere(s, t, a, c.orphans);
    }
  }

  /** The local release succeeds and changes the node's local word alone. */
  lemma LeaveLocals(s: Sys, t: Sys, a: Agent, orphans: set<Agent>) returns (after: set<Agent>)
    requires LocalsOk(s, orphans) && a.node < |s.nodes| && LeaveStep(s, t, a)
    ensures LocalsOk(t, after) && PcOf(s, a).Leave? && PcOf(t, a) == Idle && Moved(s, t, a)
    ensures t.word == s.word && t.ownerX == s.ownerX && t.ownerSX == s.ownerSX
    ensures t.nodes[a.node].refs == s.nodes[a.node].refs && t.nodes[a.node].token == s.nodes[a.node].token
  {
    hide LocalsOk, LocalOk;
    after := orphans;
    LocalAtNode(s, orphans, a.node);
    match PcOf(s, a).mode
    case S =>
      SharedLane(s, a, orphans);
      LeaveShared(s, t, a, orphans);
      LocalsElsewhere(s, t, a, orphans);
    case SX =>
      UpgradableFlag(s, a, orphans);
      LeaveUpgradable(s, t, a, orphans);
      after := orphans - {a};
    case X =>
      LeaveExclusive(s, t, a, orphans);
      LocalsElsewhere(s, t, a, orphans);
  }

  lemma LeaveKeeps(s: Sys, t: Sys, a: Agent, c: Custody) returns (d: Custody)
    requires Inv(s, c) && a.node < |s.nodes| && LeaveStep(s, t, a)
    ensures Inv(t, d)
    ensures SameUnits(c, d)
  {
    hide WordOk, HandsOk, TokensOk, PoolsOk, LocalsOk, OwnersOk, CallsOk, Moved, LeaveStep, SerialsOk;
    var after := LeaveLocals(s, t, a, c.orphans);
    d := c.(orphans := after);
    CallsAfter(s, t, a);
    PoolsFrame(s, t, a, c.units);
    HandsFrame(s, t, a, c.units);
    TokensFrame(s, t, a, c.units);
    OwnersFrame(s, t, a);
    SerialsSame(c, d);
  }

  lemma SerialsSame(c: Custody, d: Custody)
    requires SerialsOk(c) && d.units == c.units && d.next == c.next
    ensures SerialsOk(d)
  {
  }

  lemma ReadersAfter(s: Sys, t: Sys, a: Agent)
    requires Moved(s, t, a)
    ensures ReadersAt(t, a.node) == if Reads(PcOf(t, a)) then ReadersAt(s, a.node) + {a} else ReadersAt(s, a.node) - {a}
    ensures a in ReadersAt(s, a.node) <==> Reads(PcOf(s, a))
  {
  }

  lemma ReaderTotal(s: Sys, t: Sys, a: Agent)
    requires Moved(s, t, a)
    ensures |ReadersAt(t, a.node)| ==
      |ReadersAt(s, a.node)| + (if Reads(PcOf(t, a)) then 1 else 0) - (if Reads(PcOf(s, a)) then 1 else 0)
  {
    ReadersAfter(s, t, a);
    hide ReadersAt, Reads, Moved;
    var before := ReadersAt(s, a.node);
    assert a in before ==> before + {a} == before;
    assert a !in before ==> before - {a} == before;
  }

  lemma NodeSet(s: Sys, t: Sys, a: Agent, nd: Node, p: Pc)
    requires a.node < |s.nodes| && t == Go(PutNode(s, a, nd), a, p)
    ensures Moved(s, t, a) && PcOf(t, a) == p && t.nodes[a.node] == nd
    ensures t.word == s.word && t.ownerX == s.ownerX && t.ownerSX == s.ownerSX
  {
  }

  lemma InvCalls(s: Sys, c: Custody)
    requires Inv(s, c)
    ensures CallsOk(s) && HandsOk(s, c.units)
  {
  }

  lemma InvPool(s: Sys, c: Custody, n: nat)
    requires Inv(s, c) && n < |s.nodes|
    ensures |PoolOf(c.units, n)| >= Need(s.nodes[n].refs, |ReadersAt(s, n)|)
  {
  }

  /** Steps that change only the reference count and the caller's place, not the units. */
  lemma RefsKeeps(s: Sys, t: Sys, a: Agent, c: Custody)
    requires Inv(s, c) && Moved(s, t, a) && CallsOk(t)
    requires t.word == s.word && t.ownerX == s.ownerX && t.ownerSX == s.ownerSX
    requires var nd, md := s.nodes[a.node], t.nodes[a.node]; nd.word == md.word && nd.token == md.token
    requires var p, q := PcOf(s, a), PcOf(t, a);
             LocalMode(p) == LocalMode(q) && InHand(q).Nothing? && Named(q).Nothing?
    requires Need(t.nodes[a.node].refs, |ReadersAt(t, a.node)|) <= Need(s.nodes[a.node].refs, |ReadersAt(s, a.node)|)
    ensures Inv(t, c)
  {
    LocalsFrame(s, t, a, c.orphans);
    PoolsElsewhere(s, t, a, c.units, c.units);
    HandsFrame(s, t, a, c.units);
    TokensFrame(s, t, a, c.units);
    OwnersFrame(s, t, a);
  }

  lemma FollowKeeps(s: Sys, t: Sys, a: Agent, c: Custody, ref: int)
    requires Inv(s, c) && a.node < |s.nodes| && ref > 0
    requires PcOf(s, a) == SCas(ref) && s.nodes[a.node].refs == ref
    requires t == Go(PutNode(s, a, s.nodes[a.node].(refs := ref + 1)), a, Holding(S))
    ensures Inv(t, c)
  {
    hide WordOk, HandsOk, TokensOk, PoolsOk, LocalsOk, OwnersOk, CallsOk;
    assert Moved(s, t, a);
    CallsAfter(s, t, a);
    ReadersAfter(s, t, a);
    RefsKeeps(s, t, a, c);
  }

  /** Every claim step but the last changes nothing the invariant speaks of. */
  lemma ClaimFrame(s: Sys, t: Sys, a: Agent)
    requires a.node < |s.nodes| && ClaimStep(s, t, a) && !PcOf(t, a).Holding? && WellPlaced(PcOf(s, a))
    ensures Moved(s, t, a) && WellPlaced(PcOf(t, a))
    ensures t.word == s.word && t.ownerX == s.ownerX && t.ownerSX == s.ownerSX
    ensures var nd, md := s.nodes[a.node], t.nodes[a.node];
      nd.word == md.word && nd.refs == md.refs && nd.token == md.token
    ensures var p, q := PcOf(s, a), PcOf(t, a);
      LocalMode(p) == LocalMode(q) && Reads(p) == Reads(q) && InHand(q).Nothing? && Named(q).Nothing?
  {
  }

  lemma CallAt(s: Sys, a: Agent)
    requires CallsOk(s)
    ensures WellPlaced(PcOf(s, a))
  {
  }

  lemma ClaimKeeps(s: Sys, t: Sys, a: Agent, c: Custody)
    requires Inv(s, c) && a.node < |s.nodes| && ClaimStep(s, t, a)
    ensures Inv(t, c)
  {
    hide Inv, CallsOk;
    InvCalls(s, c);
    CallAt(s, a);
    if PcOf(t, a).Holding? {
      FollowKeeps(s, t, a, c, PcOf(s, a).ref);
    } else {
      ClaimFrame(s, t, a);
      hide ClaimStep, Moved, LocalMode, Reads, InHand, Named;
      CallsAfter(s, t, a);
      Quiet(s, t, a, c);
    }
  }

  /** A unit changes hands; nothing else that the invariant speaks of changes. */
  lemma ShiftKeeps(s: Sys, t: Sys, a: Agent, c: Custody, k: nat, place: Place)
    requires Inv(s, c) && Moved(s, t, a) && CallsOk(t) && k in c.units
    requires c.units[k].place in {Tok(a.node), Hand(a), Pool(a.node)}
    requires place in {Tok(a.node), Hand(a), Pool(a.node)}
    requires t.word == s.word && t.ownerX == s.ownerX && t.ownerSX == s.ownerSX
    requires t.nodes[a.node].word == s.nodes[a.node].word
    requires LocalMode(PcOf(s, a)) == LocalMode(PcOf(t, a)) && Named(PcOf(t, a)).Nothing?
    requires InHand(PcOf(t, a)).Just? ==> place == Hand(a) && InHand(PcOf(t, a)).mode == c.units[k].mode
    requires t.nodes[a.node].token.Parked? ==>
      || (place == Tok(a.node) && t.nodes[a.node].token.mode == c.units[k].mode)
      || (c.units[k].place != Tok(a.node) && t.nodes[a.node].token == s.nodes[a.node].token)
    requires |PoolOf(Shift(c, k, place).units, a.node)| >= Need(t.nodes[a.node].refs, |ReadersAt(t, a.node)|)
    ensures Inv(t, Shift(c, k, place))
  {
    var d := Shift(c, k, place);
    WordAfterShift(s.word, c, k, place);
    ShiftTokens(s, t, a, c, k, place);
    UnitsElsewhere(c, k, place, a);
    hide WordOk, TokensOk, PoolsOk, LocalsOk, OwnersOk, CallsOk, Has, PoolOf, LocalMode, Named, Moved;
    LocalsFrame(s, t, a, c.orphans);
    OwnersFrame(s, t, a);
    HandsElsewhere(s, t, a, c.units, d.units);
    PoolsElsewhere(s, t, a, c.units, d.units);
  }

  /** Moving a unit of the caller's node or hand leaves the units elsewhere alone. */
  lemma UnitsElsewhere(c: Custody, k: nat, place: Place, a: Agent)
    requires k in c.units
    requires c.units[k].place in {Tok(a.node), Hand(a), Pool(a.node)} && place in {Tok(a.node), Hand(a), Pool(a.node)}
    ensures forall u :: Has(c.units, u) && u.place.Hand? && u.place.agent != a ==> Has(Shift(c, k, place).units, u)
    ensures Has(Shift(c, k, place).units, c.units[k].(place := place))
    ensures forall n: nat :: n != a.node ==> PoolOf(Shift(c, k, place).units, n) == PoolOf(c.units, n)
  {
    forall u | Has(c.units, u) && u.place.Hand? && u.place.agent != a ensures Has(Shift(c, k, place).units, u) {
      HasAfterShift(c, k, place, u);
    }
    HasAfterShift(c, k, place, c.units[k].(place := place));
    forall n: nat | n != a.node ensures PoolOf(Shift(c, k, place).units, n) == PoolOf(c.units, n) {
      PoolAfterShift(c, k, place, n);
    }
  }

  lemma ShiftTokens(s: Sys, t: Sys, a: Agent, c: Custody, k: nat, place: Place)
    requires TokensOk(s, c.units) && Moved(s, t, a) && k in c.units
    requires c.units[k].place in {Tok(a.node), Hand(a), Pool(a.node)} && place in {Tok(a.node), Hand(a), Pool(a.node)}
    requires t.nodes[a.node].token.Parked? ==>
      || (place == Tok(a.node) && t.nodes[a.node].token.mode == c.units[k].mode)
      || (c.units[k].place != Tok(a.node) && t.nodes[a.node].token == s.nodes[a.node].token)
    ensures TokensOk(t, Shift(c, k, place).units)
  {
    var d := Shift(c, k, place);
    forall v | Has(c.units, v) && v.place != c.units[k].place ensures Has(d.units, v) {
      HasAfterShift(c, k, place, v);
    }
    HasAfterShift(c, k, place, c.units[k].(place := place));
    hide Has, Shift;
    TokensElsewhere(s, t, a, c.units, d.units);
  }

  lemma PoolAfterShift(c: Custody, k: nat, place: Place, n: nat)
    requires k in c.units
    ensures var u, pool, after := c.units[k], PoolOf(c.units, n), PoolOf(Shift(c, k, place).units, n);
      && (u.place != Pool(n) && place != Pool(n) ==> after == pool)
      && (u.mode == S && u.place == Pool(n) && place != Pool(n) ==> k in pool && after == pool - {k})
      && (u.mode == S && u.place != Pool(n) && place == Pool(n) ==> k !in pool && after == pool + {k})
  {
  }

  lemma PoolGrows(c: Custody, k: nat, n: nat)
    requires k in c.units && c.units[k].mode == S && c.units[k].place != Pool(n)
    ensures |PoolOf(Shift(c, k, Pool(n)).units, n)| == |PoolOf(c.units, n)| + 1
  {
    PoolAfterShift(c, k, Pool(n), n);
  }

  lemma UnitInHand(s: Sys, c: Custody, a: Agent, m: Mode) returns (k: nat)
    requires HandsOk(s, c.units) && InHand(PcOf(s, a)) == Just(m)
    ensures k in c.units && c.units[k] == Unit(m, Hand(a))
  {
    assert Has(c.units, Unit(m, Hand(a)));
    k :| k in c.units && c.units[k] == Unit(m, Hand(a));
  }

  /** Moving a unit between hand and token leaves every pool as it is. */
  lemma PoolUntouched(s: Sys, t: Sys, a: Agent, c: Custody, k: nat, place: Place)
    requires PoolsOk(s, c.units) && Moved(s, t, a) && k in c.units
    requires !c.units[k].place.Pool? && !place.Pool?
    requires t.nodes[a.node].refs == s.nodes[a.node].refs && Reads(PcOf(t, a)) == Reads(PcOf(s, a))
    ensures |PoolOf(Shift(c, k, place).units, a.node)| >= Need(t.nodes[a.node].refs, |ReadersAt(t, a.node)|)
  {
    ReadersAfter(s, t, a);
    assert ReadersAt(t, a.node) == ReadersAt(s, a.node);
    PoolAfterShift(c, k, place, a.node);
  }

  /** Writing the owner word of a unit in hand disturbs nobody else's ownership. */
  lemma OwnerKeeps(s: Sys, t: Sys, a: Agent, c: Custody, m: Mode, o: Owner)
    requires Inv(s, c) && a.node < |s.nodes| && m != S && CallsOk(t)
    requires InHand(PcOf(s, a)) == Just(m) && InHand(PcOf(t, a)) == Just(m)
    requires LocalMode(PcOf(s, a)) == LocalMode(PcOf(t, a)) && Reads(PcOf(s, a)) == Reads(PcOf(t, a))
    requires Named(PcOf(t, a)).Nothing? || (Named(PcOf(t, a)) == Just(m) && o == Me(a))
    requires t == Go(SetOwner(s, m, o), a, PcOf(t, a))
    ensures Inv(t, c)
  {
    hide LocalsOk, PoolsOk, TokensOk;
    assert Moved(s, t, a);
    LocalsFrame(s, t, a, c.orphans);
    PoolsFrame(s, t, a, c.units);
    HandsFrame(s, t, a, c.units);
    TokensFrame(s, t, a, c.units);
    forall b | b in t.pc && b != a && Named(t.pc[b]).Just? ensures OwnerOf(t, Named(t.pc[b]).mode) == Me(b) {
      if Named(t.pc[b]) == Just(m) {
        OneHand(s, c, a, b, m);
      }
    }
  }

  /** Giving the unit in hand back to the shared word. */
  lemma PutKeeps(s: Sys, t: Sys, a: Agent, c: Custody, m: Mode) returns (d: Custody)
    requires Inv(s, c) && a.node < |s.nodes| && CallsOk(t)
    requires InHand(PcOf(s, a)) == Just(m) && InHand(PcOf(t, a)).Nothing? && Named(PcOf(t, a)).Nothing?
    requires !Reads(PcOf(s, a)) && !Reads(PcOf(t, a))
    requires
      || LocalMode(PcOf(s, a)) == LocalMode(PcOf(t, a))
      || (LocalMode(PcOf(s, a)) == Just(SX) && LocalMode(PcOf(t, a)).Nothing?)
    requires t == Go(s.(word := GiveBack(s.word, m)), a, PcOf(t, a))
    ensures Inv(t, d)
    ensures Tally(c, d, m, -1)
  {
    hide LocalsOk, PoolsOk, OwnersOk;
    assert Moved(s, t, a);
    var k := UnitInHand(s, c, a, m);
    d := Retire(c, k);
    WordAfterPut(s.word, c, k);
    forall v | Has(c.units, v) && v.place != Hand(a) ensures Has(d.units, v) { HasAfterRetire(c, k, v); }
    HandsElsewhere(s, t, a, c.units, d.units);
    TokensElsewhere(s, t, a, c.units, d.units);
    OwnersFrame(s, t, a);
    PoolsFrame(s, t, a, c.units);
    PoolsRetired(t, c, k, a);
    if LocalMode(PcOf(s, a)) == LocalMode(PcOf(t, a)) {
      LocalsFrame(s, t, a, c.orphans);
    } else {
      LeaveOrphan(s, t, a, c.orphans);
      d := d.(orphans := c.orphans + {a});
    }
    RetireTally(c, k, d.orphans);
  }

  lemma PoolsRetired(t: Sys, c: Custody, k: nat, a: Agent)
    requires PoolsOk(t, c.units) && k in c.units && c.units[k].place == Hand(a)
    ensures PoolsOk(t, Retire(c, k).units)
  {
    forall n: nat ensures PoolOf(Retire(c, k).units, n) == PoolOf(c.units, n) {}
  }

  lemma TakeKeeps(s: Sys, t: Sys, a: Agent, c: Custody, m: Mode) returns (d: Custody)
    requires Inv(s, c) && a.node < |s.nodes| && PcOf(s, a) == Contend(m) && CanTake(s.word, m)
    requires t == Go(s.(word := TakeUnit(s.word, m)), a, Got(m))
    ensures Inv(t, d)
    ensures Tally(c, d, m, 1)
  {
    hide WordOk, LocalsOk, PoolsOk, OwnersOk, CallsOk;
    var u := Unit(m, Hand(a));
    d := Give(c, u);
    assert Moved(s, t, a);
    CallsAfter(s, t, a);
    GiveTally(c, u);
    WordAfterTake(s.word, c, u);
    forall v | Has(c.units, v) || v == u ensures Has(d.units, v) { HasAfterGive(c, u, v); }
    HandsElsewhere(s, t, a, c.units, d.units);
    TokensElsewhere(s, t, a, c.units, d.units);
    OwnersFrame(s, t, a);
    LocalsFrame(s, t, a, c.orphans);
    PoolsFrame(s, t, a, c.units);
    PoolsGiven(t, c, u);
  }

  lemma PoolsGiven(t: Sys, c: Custody, u: Unit)
    requires PoolsOk(t, c.units) && SerialsOk(c) && u.place.Hand?
    ensures PoolsOk(t, Give(c, u).units)
  {
    forall n: nat ensures PoolOf(Give(c, u).units, n) == PoolOf(c.units, n) {}
  }

  /** Exchanging a parked token moves its unit into the caller's hand. */
  lemma UnparkKeeps(s: Sys, t: Sys, a: Agent, c: Custody, p: Pc) returns (d: Custody)
    requires Inv(s, c) && a.node < |s.nodes| && s.nodes[a.node].token.Parked?
    requires InHand(p) == Just(s.nodes[a.node].token.mode) && LocalMode(p) == LocalMode(PcOf(s, a))
    requires Named(p).Nothing? && !Reads(p) && !Reads(PcOf(s, a)) && WellPlaced(p)
    requires t == Go(PutNode(s, a, s.nodes[a.node].(token := NoToken)), a, p)
    ensures Inv(t, d)
    ensures SameUnits(c, d)
  {
    hide WordOk, HandsOk, PoolsOk, LocalsOk, OwnersOk, CallsOk;
    var n := a.node;
    assert Moved(s, t, a);
    CallsAfter(s, t, a);
    var k :| k in c.units && c.units[k] == Unit(s.nodes[n].token.mode, Tok(n));
    PoolUntouched(s, t, a, c, k, Hand(a));
    ShiftKeeps(s, t, a, c, k, Hand(a));
    d := Shift(c, k, Hand(a));
  }

  lemma ExchangeKeeps(s: Sys, t: Sys, a: Agent, c: Custody) returns (d: Custody)
    requires Inv(s, c) && a.node < |s.nodes| && TokenStep(s, t, a)
    requires PcOf(s, a).TakeToken? || PcOf(s, a).HTake?
    ensures Inv(t, d)
    ensures SameUnits(c, d)
  {
    hide WordOk, HandsOk, TokensOk, PoolsOk, LocalsOk, OwnersOk, CallsOk;
    d := c;
    assert Moved(s, t, a);
    if s.nodes[a.node].token.Parked? {
      d := UnparkKeeps(s, t, a, c, PcOf(t, a));
    } else {
      CallsAfter(s, t, a);
      Quiet(s, t, a, c);
    }
  }

  lemma TokenQuiet(s: Sys, t: Sys, a: Agent, c: Custody)
    requires Inv(s, c) && a.node < |s.nodes| && TokenStep(s, t, a)
    requires PcOf(s, a).Inherit? || PcOf(s, a).DropReserve? || PcOf(s, a).HHeld? || PcOf(s, a).HEnd?
    ensures Inv(t, c)
  {
    hide WordOk, HandsOk, TokensOk, PoolsOk, LocalsOk, OwnersOk, CallsOk;
    assert Moved(s, t, a);
    CallsAfter(s, t, a);
    Quiet(s, t, a, c);
  }

  lemma TokenKeeps(s: Sys, t: Sys, a: Agent, c: Custody) returns (d: Custody)
    requires Inv(s, c) && a.node < |s.nodes| && TokenStep(s, t, a)
    ensures Inv(t, d)
    ensures forall m: Mode :: |Of(d.units, m)| == |Of(c.units, m)| + UnitDelta(PcOf(s, a), PcOf(t, a), m)
  {
    hide WordOk, HandsOk, TokensOk, PoolsOk, LocalsOk, OwnersOk, CallsOk;
    d := c;
    var p := PcOf(s, a);
    if p.TakeToken? || p.HTake? {
      d := ExchangeKeeps(s, t, a, c);
    } else if p.DropOwner? {
      assert Moved(s, t, a);
      CallsAfter(s, t, a);
      OwnerKeeps(s, t, a, c, p.unit, Nobody);
    } else if p.DropWord? {
      assert Moved(s, t, a);
      CallsAfter(s, t, a);
      d := PutKeeps(s, t, a, c, p.unit);
    } else {
      TokenQuiet(s, t, a, c);
    }
    if !p.DropWord? { SameTally(c, d); }
  }

  // ---- taking the unit and publishing it ------------------------------------------------------

  /** The leader's unit joins the pool as the count is set to one. */
  lemma PoolKeeps(s: Sys, t: Sys, a: Agent, c: Custody) returns (d: Custody)
    requires Inv(s, c) && a.node < |s.nodes| && PcOf(s, a) == Got(S)
    requires t == Go(PutNode(s, a, s.nodes[a.node].(refs := 1)), a, SPublish)
    ensures Inv(t, d)
    ensures SameUnits(c, d)
  {
    hide Inv, CallsOk, HandsOk, PoolOf, ReadersAt;
    var n := a.node;
    InvCalls(s, c);
    InvPool(s, c, n);
    var k := UnitInHand(s, c, a, S);
    NodeSet(s, t, a, s.nodes[n].(refs := 1), SPublish);
    hide Go, PutNode, Moved;
    CallsAfter(s, t, a);
    ReaderTotal(s, t, a);
    PoolGrows(c, k, n);
    ShiftKeeps(s, t, a, c, k, Pool(n));
    d := Shift(c, k, Pool(n));
  }

  lemma ClearRefsKeeps(s: Sys, t: Sys, a: Agent, c: Custody, g: GlobalState, p: Pc)
    requires Inv(s, c) && a.node < |s.nodes| && (PcOf(s, a).SFail? || PcOf(s, a).SFailRef?) && p == Leave(S)
    requires t == Go(PutNode(s, a, s.nodes[a.node].(gstate := g, refs := 0)), a, p)
    ensures Inv(t, c)
  {
    hide Inv, CallsOk;
    NodeSet(s, t, a, s.nodes[a.node].(gstate := g, refs := 0), p);
    InvCalls(s, c);
    hide Go, PutNode, Moved;
    CallsAfter(s, t, a);
    ReaderTotal(s, t, a);
    RefsKeeps(s, t, a, c);
  }

  lemma ContendQuiet(u: Usage, s: Sys, t: Sys, a: Agent, c: Custody)
    requires Inv(s, c) && a.node < |s.nodes| && ContendStep(u, s, t, a)
    requires
      || PcOf(s, a).CheckOwner? || PcOf(s, a).SPublish? || (PcOf(s, a).Contend? && !PcOf(t, a).Got?)
      || (PcOf(s, a).SFail? && !u.oneStepCleanup)
    ensures Inv(t, c)
  {
    hide WordOk, HandsOk, TokensOk, PoolsOk, LocalsOk, OwnersOk, CallsOk;
    assert Moved(s, t, a);
    CallsAfter(s, t, a);
    Quiet(s, t, a, c);
  }

  lemma ContendKeeps(u: Usage, s: Sys, t: Sys, a: Agent, c: Custody) returns (d: Custody)
    requires Inv(s, c) && a.node < |s.nodes| && ContendStep(u, s, t, a)
    ensures Inv(t, d)
    ensures forall m: Mode :: |Of(d.units, m)| == |Of(c.units, m)| + UnitDelta(PcOf(s, a), PcOf(t, a), m)
  {
    hide WordOk, HandsOk, TokensOk, PoolsOk, LocalsOk, OwnersOk, CallsOk;
    d := c;
    var p := PcOf(s, a);
    if p.Contend? && PcOf(t, a).Got? {
      d := TakeKeeps(s, t, a, c, p.mode);
    } else if p == Got(S) {
      d := PoolKeeps(s, t, a, c);
    } else if p.Got? {
      assert Moved(s, t, a);
      CallsAfter(s, t, a);
      OwnerKeeps(s, t, a, c, p.mode, Me(a));
    } else if p.SFailRef? {
      ClearRefsKeeps(s, t, a, c, s.nodes[a.node].gstate, Leave(S));
    } else if p.SFail? && u.oneStepCleanup {
      ClearRefsKeeps(s, t, a, c, GIdle, Leave(S));
    } else {
      ContendQuiet(u, s, t, a, c);
    }
    if !(p.Contend? && PcOf(t, a).Got?) { SameTally(c, d); }
  }

  // ---- unlocking ---------------------------------------------------------------------------------

  lemma FollowerLeaves(s: Sys, t: Sys, a: Agent, c: Custody)
    requires Inv(s, c) && a.node < |s.nodes| && PcOf(s, a) == Holding(S) && s.nodes[a.node].refs > 1
    requires t == Go(PutNode(s, a, s.nodes[a.node].(refs := s.nodes[a.node].refs - 1)), a, Leave(S))
    ensures Inv(t, c)
  {
    hide WordOk, HandsOk, TokensOk, PoolsOk, LocalsOk, OwnersOk, CallsOk;
    assert Moved(s, t, a);
    CallsAfter(s, t, a);
    ReadersAfter(s, t, a);
    RefsKeeps(s, t, a, c);
  }

  /** The last counted reader takes one unit out of the pool, and what stays still covers the strays. */
  lemma LastOutTakes(s: Sys, t: Sys, a: Agent, c: Custody) returns (d: Custody)
    requires Inv(s, c) && a.node < |s.nodes| && PcOf(s, a) == Holding(S) && s.nodes[a.node].refs == 1
    requires t == Go(PutNode(s, a, s.nodes[a.node].(refs := 0)), a, Release)
    ensures Inv(t, d)
    ensures SameUnits(c, d)
  {
    hide Inv, CallsOk;
    var n := a.node;
    InvCalls(s, c);
    InvPool(s, c, n);
    NodeSet(s, t, a, s.nodes[n].(refs := 0), Release);
    hide Go, PutNode, Moved, ReadersAt;
    CallsAfter(s, t, a);
    ReaderTotal(s, t, a);
    assert |PoolOf(c.units, n)| > 0;
    var k :| k in PoolOf(c.units, n);
    PoolAfterShift(c, k, Hand(a), n);
    ShiftKeeps(s, t, a, c, k, Hand(a));
    d := Shift(c, k, Hand(a));
  }

  lemma UnlockSharedKeeps(u: Usage, s: Sys, t: Sys, a: Agent, c: Custody) returns (d: Custody)
    requires Inv(s, c) && a.node < |s.nodes| && UnlockSharedStep(u, s, t, a) && u.stray != AsWritten
    ensures Inv(t, d)
    ensures SameUnits(c, d)
  {
    hide WordOk, HandsOk, TokensOk, PoolsOk, LocalsOk, OwnersOk, CallsOk;
    d := c;
    assert Moved(s, t, a);
    var p := PcOf(s, a);
    if p == Holding(S) {
      LocalAtNode(s, c.orphans, a.node);
      SharedLane(s, a, c.orphans);
      if s.nodes[a.node].refs > 1 {
        FollowerLeaves(s, t, a, c);
      } else if s.nodes[a.node].refs == 1 {
        d := LastOutTakes(s, t, a, c);
      } else {
        CallsAfter(s, t, a);
        Quiet(s, t, a, c);
      }
    } else {
      CallsAfter(s, t, a);
      Quiet(s, t, a, c);
    }
  }

  lemma UnlockExclusiveKeeps(u: Usage, s: Sys, t: Sys, a: Agent, c: Custody)
    requires Inv(s, c) && a.node < |s.nodes| && UnlockExclusiveStep(u, s, t, a)
    ensures Inv(t, c)
  {
    hide WordOk, HandsOk, TokensOk, PoolsOk, LocalsOk, CallsOk;
    assert Moved(s, t, a);
    assert a in s.pc && OwnerOf(s, PcOf(s, a).mode) == Me(a);
    CallsAfter(s, t, a);
    Quiet(s, t, a, c);
  }

  lemma ParkKeeps(s: Sys, t: Sys, a: Agent, c: Custody, m: Mode) returns (d: Custody)
    requires Inv(s, c) && a.node < |s.nodes| && PcOf(s, a) == Park(m)
    requires t == Go(PutNode(s, a, s.nodes[a.node].(token := Parked(m))), a, After(m))
    ensures Inv(t, d)
    ensures SameUnits(c, d)
  {
    hide WordOk, HandsOk, TokensOk, PoolsOk, LocalsOk, OwnersOk, CallsOk;
    assert Moved(s, t, a);
    CallsAfter(s, t, a);
    var k := UnitInHand(s, c, a, m);
    PoolUntouched(s, t, a, c, k, Tok(a.node));
    ShiftKeeps(s, t, a, c, k, Tok(a.node));
    d := Shift(c, k, Tok(a.node));
  }

  lemma RoomForShared(s: Sys, a: Agent, c: Custody)
    requires Inv(s, c) && PcOf(s, a) == PutWord(S)
    ensures s.word + 1 <= FREE
  {
    var k := UnitInHand(s, c, a, S);
    WordAfterPut(s.word, c, k);
  }

  lemma GiveBackKeeps(s: Sys, t: Sys, a: Agent, c: Custody) returns (d: Custody)
    requires Inv(s, c) && a.node < |s.nodes| && GiveBackStep(s, t, a)
    ensures Inv(t, d)
    ensures forall m: Mode :: |Of(d.units, m)| == |Of(c.units, m)| + UnitDelta(PcOf(s, a), PcOf(t, a), m)
  {
    hide WordOk, HandsOk, TokensOk, PoolsOk, LocalsOk, OwnersOk, CallsOk;
    d := c;
    assert Moved(s, t, a);
    CallAt(s, a);
    var p := PcOf(s, a);
    if p.Park? {
      d := ParkKeeps(s, t, a, c, p.mode);
    } else if p.PutWord? {
      if p.mode == S { RoomForShared(s, a, c); }
      CallsAfter(s, t, a);
      d := PutKeeps(s, t, a, c, p.mode);
    } else if p.PutOwner? {
      CallsAfter(s, t, a);
      OwnerKeeps(s, t, a, c, p.mode, Nobody);
    } else {
      CallsAfter(s, t, a);
      Quiet(s, t, a, c);
    }
    if p.PutWord? {
      assert PcOf(t, a) == After(p.mode) || PcOf(t, a) == Idle;
      assert forall m: Mode :: UnitDelta(p, PcOf(t, a), m) == if m == p.mode then -1 else 0;
    } else {
      SameTally(c, d);
      assert forall m: Mode :: UnitDelta(p, PcOf(t, a), m) == 0;
    }
  }

  // ---- whole runs ----------------------------------------------------------------------------------

  lemma StepKeeps(u: Usage, s: Sys, t: Sys, a: Agent, c: Custody) returns (d: Custody)
    requires Inv(s, c) && AgentStep(u, s, t, a) && u.stray != AsWritten
    ensures Inv(t, d)
    ensures forall m: Mode :: |Of(d.units, m)| == |Of(c.units, m)| + UnitDelta(PcOf(s, a), PcOf(t, a), m)
  {
    hide Inv, EnterStep, ClaimStep, TokenStep, ContendStep, UnlockSharedStep, UnlockExclusiveStep, GiveBackStep,
      LeaveStep;
    d := c;
    if EnterStep(u, s, t, a) {
      EnterKeeps(u, s, t, a, c);
      OtherDelta(u, s, t, a, c, d);
    } else if ClaimStep(s, t, a) {
      ClaimKeeps(s, t, a, c);
      OtherDelta(u, s, t, a, c, d);
    } else if TokenStep(s, t, a) {
      d := TokenKeeps(s, t, a, c);
    } else if ContendStep(u, s, t, a) {
      d := ContendKeeps(u, s, t, a, c);
    } else if UnlockSharedStep(u, s, t, a) {
      d := UnlockSharedKeeps(u, s, t, a, c);
      OtherDelta(u, s, t, a, c, d);
    } else if UnlockExclusiveStep(u, s, t, a) {
      UnlockExclusiveKeeps(u, s, t, a, c);
      OtherDelta(u, s, t, a, c, d);
    } else if GiveBackStep(s, t, a) {
      d := GiveBackKeeps(s, t, a, c);
    } else {
      d := LeaveKeeps(s, t, a, c);
      OtherDelta(u, s, t, a, c, d);
    }
  }

  /** The other kinds of step move no unit in or out. */
  lemma OtherDelta(u: Usage, s: Sys, t: Sys, a: Agent, c: Custody, d: Custody)
    requires a.node < |s.nodes| && SameUnits(c, d)
    requires
      || EnterStep(u, s, t, a) || ClaimStep(s, t, a) || UnlockSharedStep(u, s, t, a)
      || UnlockExclusiveStep(u, s, t, a) || LeaveStep(s, t, a)
    ensures forall m: Mode :: |Of(d.units, m)| == |Of(c.units, m)| + UnitDelta(PcOf(s, a), PcOf(t, a), m)
  {
    SameTally(c, d);
    assert forall m: Mode :: UnitDelta(PcOf(s, a), PcOf(t, a), m) == 0;
  }

  lemma InitHolds(s: Sys) returns (c: Custody)
    requires Init(s)
    ensures Inv(s, c) && c.units == map[]
  {
    hide Agrees;
    c := Custody(map[], 0, {});
    AgreesWhenEmpty();
    forall n | 0 <= n < |s.nodes| ensures LocalOk(s, c.orphans, n) {
      assert LocalAt(s, n, S) == {} && LocalAt(s, n, SX) + OrphansAt({}, n) == {} && LocalAt(s, n, X) == {};
    }
    forall n: nat ensures ReadersAt(s, n) == {} {}
  }

  /** Every state of every run has a custody record. */
  lemma {:induction false} RunHasCustody(u: Usage, run: seq<Sys>, i: nat) returns (c: Custody)
    requires IsRun(u, run) && i < |run| && u.stray != AsWritten
    ensures Inv(run[i], c)
  {
    hide Inv, Init, AgentStep;
    if i == 0 {
      c := InitHolds(run[0]);
    } else {
      var b := RunHasCustody(u, run, i - 1);
      assert Next(u, run[i - 1], run[i]);
      var a :| AgentStep(u, run[i - 1], run[i], a);
      c := StepKeeps(u, run[i - 1], run[i], a, b);
    }
  }

  // ---- mutual exclusion ------------------------------------------------------------------------------

  /** A reader's node has a shared unit, so no exclusive unit exists anywhere. */
  lemma ReaderHasUnit(s: Sys, c: Custody, a: Agent)
    requires Inv(s, c) && PcOf(s, a) == Holding(S)
    ensures Of(c.units, S) != {} && Of(c.units, X) == {}
  {
    hide Agrees;
    var n := a.node;
    assert a in ReadersAt(s, n);
    assert |ReadersAt(s, n)| > 0;
    assert |PoolOf(c.units, n)| > 0;
    var k :| k in PoolOf(c.units, n);
    assert k in Of(c.units, S);
  }

  lemma ExclusiveHasUnit(s: Sys, c: Custody, a: Agent, m: Mode)
    requires Inv(s, c) && PcOf(s, a) == Holding(m) && m != S
    ensures Of(c.units, m) != {}
    ensures m == X ==> Of(c.units, SX) == {}
  {
    hide Agrees;
    var k := UnitInHand(s, c, a, m);
    assert k in Of(c.units, m);
  }

  lemma NoConflict(s: Sys, c: Custody, a: Agent, b: Agent)
    requires Inv(s, c) && a != b && PcOf(s, a) == Holding(X)
    ensures !PcOf(s, b).Holding?
  {
    hide Agrees;
    ExclusiveHasUnit(s, c, a, X);
    if PcOf(s, b).Holding? {
      match PcOf(s, b).mode
      case S => ReaderHasUnit(s, c, b);
      case SX => ExclusiveHasUnit(s, c, b, SX);
      case X => OneHand(s, c, a, b, X);
    }
  }

  lemma InvExcludes(s: Sys, c: Custody)
    requires Inv(s, c)
    ensures Excludes(s)
  {
    hide Inv;
    forall a, b | a != b ensures !Conflict(PcOf(s, a), PcOf(s, b)) {
      if PcOf(s, a) == Holding(X) { NoConflict(s, c, a, b); }
      if PcOf(s, b) == Holding(X) { NoConflict(s, c, b, a); }
      if PcOf(s, a) == Holding(SX) && PcOf(s, b) == Holding(SX) { OneSx(s, c, a, b); }
    }
  }

  lemma OneSx(s: Sys, c: Custody, a: Agent, b: Agent)
    requires Inv(s, c) && PcOf(s, a) == Holding(SX) && PcOf(s, b) == Holding(SX)
    ensures a == b
  {
    hide Agrees;
    OneHand(s, c, a, b, SX);
  }

  /**
  Mutual exclusion over every run, delayed release and release messages
  included, as long as no S unlock is undone after it found no reference to
  give up. Nor does an unlock by a holder fail any other check: the lane of its
  local lock, its owner word, or the bound on the shared word.
  */
  lemma MutualExclusion(u: Usage, run: seq<Sys>, i: nat)
    requires IsRun(u, run) && i < |run| && u.stray != AsWritten
    ensures Excludes(run[i])
    ensures forall a :: !PcOf(run[i], a).Refused?
  {
    hide IsRun, Excludes;
    var c := RunHasCustody(u, run, i);
    InvExcludes(run[i], c);
    assert CallsOk(run[i]);
  }

  /** With the code exactly as written: exclusion holds until some S unlock takes the undo branch. */
  lemma ExclusionUntilStrayUnlock(u: Usage, run: seq<Sys>, i: nat)
    requires IsRun(u, run) && i < |run|
    requires forall j, a :: 0 <= j <= i ==> !PcOf(run[j], a).SUndo?
    ensures Excludes(run[i])
  {
    var v := u.(stray := if u.stray == AsWritten then Never else u.stray);
    forall j | 0 < j < i + 1 ensures Next(v, run[j - 1], run[j]) {
      assert Next(u, run[j - 1], run[j]);
      var a :| AgentStep(u, run[j - 1], run[j], a);
      assert !PcOf(run[j], a).SUndo?;
      if u.stray == AsWritten { SameStep(u, v, run[j - 1], run[j], a); }
    }
    assert IsRun(v, run[..i + 1]);
    MutualExclusion(v, run[..i + 1], i);
  }

  lemma SameStep(u: Usage, v: Usage, s: Sys, t: Sys, a: Agent)
    requires AgentStep(u, s, t, a) && v == u.(stray := Never) && u.stray == AsWritten
    requires !PcOf(t, a).SUndo?
    ensures AgentStep(v, s, t, a)
  {
    hide ClaimStep, TokenStep, GiveBackStep, LeaveStep;
  }
}
