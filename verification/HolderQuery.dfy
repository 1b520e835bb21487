/**
What a node reports of a lock it holds, and the way back: querying every node
and rebuilding from the reports writes the words of what the nodes hold, as
long as the fields a node reports from are those of what it holds. One flag
stands for the S, SX and X holds of a node: the last part says exactly when the
fields are no longer those of the holds.
*/
module HolderQuery {
  import opened LockTypes
  import opened SharedLock
  import opened Rebuild

  /** The fields of LocalLock that query_holder reads. */
  datatype LocalLock = LocalLock(reserve: LockMode, refs: int, holdsGlobal: bool, xOwner: Tid, sxOwner: Tid,
                                 xRec: nat, sxRec: nat)

  /** A count of zero stands for one. */
  function Depth(rec: nat): (d: nat)
    ensures d > 0 && (rec > 0 ==> d == rec)
  {
    if rec == 0 then 1 else rec
  }

  /** query_holder; a node that has no local lock holds nothing. */
  function QueryHolder(node: nat, local: Option<LocalLock>): Entry {
    match local
    case None => Entry(node, I, 0, 0, false, I)
    case Some(l) =>
      if l.holdsGlobal && l.xOwner != 0 then Entry(node, X, l.xOwner, Depth(l.xRec), l.refs > 0, l.reserve)
      else if l.holdsGlobal && l.sxOwner != 0 then Entry(node, SX, l.sxOwner, Depth(l.sxRec), l.refs > 0, l.reserve)
      else Entry(node, if l.refs > 0 then S else I, 0, 0, l.refs > 0, l.reserve)
  }

  // ---- what nodes may hold ----------------------------------------------------------------------

  /** A unit whose release was delayed: its node and mode. */
  datatype Token = Token(node: nat, mode: LockMode)

  predicate Named(o: Option<Holder>) { o.Some? ==> o.value.tid != 0 }

  predicate HeldBy(o: Option<Holder>, n: nat) { o.Some? && o.value.node == n }

  predicate TokenAt(token: Option<Token>, n: nat) { token.Some? && token.value.node == n }

  /** Holdings by threads and one delayed unit, under the rules of the lock. */
  predicate Possible(h: Holdings, token: Option<Token>) {
    && Consistent(h) && Named(h.sx) && Named(h.x)
    && (token.Some? ==>
          && token.value.node < MAX_NODES && h.x.None? && !HeldBy(h.sx, token.value.node)
          && match token.value.mode
             case S => true
             case SX => h.sx.None?
             case X => h.sx.None? && h.readers == {}
             case I => false)
  }

  /** A delayed unit counts as a hold by thread 0. */
  function WithToken(h: Holdings, token: Option<Token>): Holdings {
    match token
    case None => h
    case Some(t) =>
      match t.mode
      case S => h.(readers := h.readers + {t.node})
      case SX => h.(sx := Some(Holder(t.node, 0, 1)))
      case X => h.(x := Some(Holder(t.node, 0, 1)))
      case I => h
  }

  function TokenWord(token: Option<Token>): nat {
    if token.Some? then OwnerWord(token.value.node, 0) else NO_OWNER
  }

  /** What node n has to say of that. */
  function Report(h: Holdings, token: Option<Token>, n: nat): Entry {
    var held := if HeldBy(h.x, n) then X else if HeldBy(h.sx, n) then SX else if n in h.readers then S else I;
    Entry(n, held,
          if held == X then h.x.value.tid else if held == SX then h.sx.value.tid else 0,
          if held == X then h.x.value.rec else if held == SX then h.sx.value.rec else 0,
          n in h.readers,
          if TokenAt(token, n) then token.value.mode else I)
  }

  predicate MatchesOwner(holds: bool, owner: Tid, rec: nat, o: Option<Holder>, n: nat) {
    if HeldBy(o, n) then holds && owner == o.value.tid && Depth(rec) == o.value.rec else !holds || owner == 0
  }

  /** The node's fields between calls, when the system holds h and the token. */
  predicate Reflects(l: LocalLock, h: Holdings, token: Option<Token>, n: nat) {
    && (l.refs > 0 <==> n in h.readers)
    && MatchesOwner(l.holdsGlobal, l.xOwner, l.xRec, h.x, n)
    && MatchesOwner(l.holdsGlobal, l.sxOwner, l.sxRec, h.sx, n)
    && l.reserve == (if TokenAt(token, n) then token.value.mode else I)
  }

  predicate ReflectsAt(locals: map<nat, LocalLock>, h: Holdings, token: Option<Token>, n: nat) {
    if n in locals then Reflects(locals[n], h, token, n)
    else n !in h.readers && !HeldBy(h.x, n) && !HeldBy(h.sx, n) && !TokenAt(token, n)
  }

  function Query(locals: map<nat, LocalLock>, n: nat): Entry {
    QueryHolder(n, if n in locals then Some(locals[n]) else None)
  }

  /** A query tells exactly what the node holds. */
  lemma QueryTells(locals: map<nat, LocalLock>, h: Holdings, token: Option<Token>, n: nat)
    requires Possible(h, token) && ReflectsAt(locals, h, token, n)
    ensures Query(locals, n) == Report(h, token, n)
  {
  }

  // ---- reports are accepted -----------------------------------------------------------------------

  lemma ReportProper(h: Holdings, token: Option<Token>, n: nat)
    requires Possible(h, token) && n < MAX_NODES
    ensures Proper(Report(h, token, n))
  {
  }

  lemma ReportsCompatible(h: Holdings, token: Option<Token>, m: nat, n: nat)
    requires Possible(h, token) && m != n
    ensures Compatible(Report(h, token, m), Report(h, token, n))
  {
  }

  ghost predicate Explains(h: Holdings, token: Option<Token>, es: seq<Entry>) {
    Possible(h, token) && forall e :: e in es ==> e == Report(h, token, e.node)
  }

  lemma ReportsAccepted(h: Holdings, token: Option<Token>, es: seq<Entry>)
    requires Explains(h, token, es) && DistinctNodes(es) && forall e :: e in es ==> e.node < MAX_NODES
    ensures Acceptable(es)
  {
    hide Proper, Compatible, Report, Possible;
    forall e | e in es ensures Proper(e) { ReportProper(h, token, e.node); }
    forall a, b | a in es && b in es && a.node != b.node ensures Compatible(a, b) {
      ReportsCompatible(h, token, a.node, b.node);
    }
  }

  // ---- and nothing else is ------------------------------------------------------------------------

  /** The holder a report names. */
  function Holding(e: Entry): Option<Holder> { Some(Holder(e.node, e.tid, e.rec)) }

  lemma HeldOf(es: seq<Entry>, mode: LockMode) returns (o: Option<Holder>)
    requires Acceptable(es) && (mode == X || mode == SX)
    ensures forall e :: e in es && e.held == mode ==> o == Holding(e)
    ensures o.Some? ==> exists e :: e in es && e.held == mode && o == Holding(e)
  {
    if f :| f in es && f.held == mode {
      o := Holding(f);
      forall e | e in es && e.held == mode ensures e == f { SameEntry(es, e, f); }
    } else {
      o := None;
    }
  }

  lemma TokenIn(es: seq<Entry>) returns (t: Option<Token>)
    requires Acceptable(es)
    ensures forall e :: e in es && HasToken(e) ==> t == Some(Token(e.node, e.reserve))
    ensures t.Some? ==> exists e :: e in es && HasToken(e) && t == Some(Token(e.node, e.reserve))
  {
    if f :| f in es && HasToken(f) {
      t := Some(Token(f.node, f.reserve));
      forall e | e in es && HasToken(e) ensures e == f { SameEntry(es, e, f); }
    } else {
      t := None;
    }
  }

  function SharedIn(es: seq<Entry>): set<nat> { set e | e in es && e.shared :: e.node }

  lemma TwoEntries(es: seq<Entry>, a: Entry, b: Entry)
    requires Acceptable(es) && a in es && b in es
    ensures Proper(a) && Proper(b) && (a == b || (a.node != b.node && Compatible(a, b)))
  {
    if a.node == b.node { SameEntry(es, a, b); }
  }

  lemma SnapshotPossible(es: seq<Entry>, sx: Option<Holder>, x: Option<Holder>, t: Option<Token>)
    requires Acceptable(es)
    requires sx.Some? ==> exists e :: e in es && e.held == SX && sx == Holding(e)
    requires x.Some? ==> exists e :: e in es && e.held == X && x == Holding(e)
    requires t.Some? ==> exists e :: e in es && HasToken(e) && t == Some(Token(e.node, e.reserve))
    ensures Possible(Holdings(SharedIn(es), sx, x), t)
  {
    hide Acceptable;
    forall e | e in es ensures Proper(e) { TwoEntries(es, e, e); }
    forall a, b | a in es && b in es ensures a == b || (a.node != b.node && Compatible(a, b)) { TwoEntries(es, a, b); }
    assert forall n :: n in SharedIn(es) ==> exists e :: e in es && e.shared && e.node == n;
  }

  /** Every accepted snapshot is what nodes would report of some possible holdings. */
  lemma SnapshotExplained(es: seq<Entry>) returns (h: Holdings, t: Option<Token>)
    requires Acceptable(es)
    ensures Explains(h, t, es)
  {
    var sx := HeldOf(es, SX);
    var x := HeldOf(es, X);
    t := TokenIn(es);
    h := Holdings(SharedIn(es), sx, x);
    SnapshotPossible(es, sx, x, t);
    forall e | e in es ensures e == Report(h, t, e.node) {
      EntryExplained(es, sx, x, t, e);
    }
  }

  lemma EntryExplained(es: seq<Entry>, sx: Option<Holder>, x: Option<Holder>, t: Option<Token>, e: Entry)
    requires Acceptable(es) && e in es
    requires forall f :: f in es && f.held == SX ==> sx == Holding(f)
    requires forall f :: f in es && f.held == X ==> x == Holding(f)
    requires forall f :: f in es && HasToken(f) ==> t == Some(Token(f.node, f.reserve))
    requires sx.Some? ==> exists f :: f in es && f.held == SX && sx == Holding(f)
    requires x.Some? ==> exists f :: f in es && f.held == X && x == Holding(f)
    requires t.Some? ==> exists f :: f in es && HasToken(f) && t == Some(Token(f.node, f.reserve))
    ensures e == Report(Holdings(SharedIn(es), sx, x), t, e.node)
  {
    assert Proper(e);
    forall f | f in es && f.node == e.node ensures f == e { SameEntry(es, f, e); }
    assert e.node in SharedIn(es) <==> e.shared;
  }

  /** rebuild accepts a snapshot if and only if nodes under the lock's rules could have reported it. */
  lemma AcceptedExactly(es: seq<Entry>)
    ensures Acceptable(es) <==>
      DistinctNodes(es) && (forall e :: e in es ==> e.node < MAX_NODES) && exists h, t :: Explains(h, t, es)
  {
    hide Explains;
    if Acceptable(es) {
      var h, t := SnapshotExplained(es);
      forall e | e in es ensures e.node < MAX_NODES { TwoEntries(es, e, e); }
    } else if DistinctNodes(es) && (forall e :: e in es ==> e.node < MAX_NODES) && exists h, t :: Explains(h, t, es) {
      var h, t :| Explains(h, t, es);
      ReportsAccepted(h, t, es);
    }
  }

  // ---- query, then rebuild --------------------------------------------------------------------------

  function QueryAll(locals: map<nat, LocalLock>, ns: seq<nat>): seq<Entry> {
    seq(|ns|, i requires 0 <= i < |ns| => Query(locals, ns[i]))
  }

  /** Every node that holds something is asked. */
  predicate Covers(ns: seq<nat>, h: Holdings, token: Option<Token>) {
    && (forall n :: n in h.readers ==> n in ns)
    && (h.sx.Some? ==> h.sx.value.node in ns) && (h.x.Some? ==> h.x.value.node in ns)
    && (token.Some? ==> token.value.node in ns)
  }

  lemma ReportsHold(h: Holdings, token: Option<Token>, ns: seq<nat>, es: seq<Entry>)
    requires Explains(h, token, es) && Acceptable(es) && Covers(ns, h, token)
    requires forall n :: n in ns ==> Report(h, token, n) in es
    ensures HoldingsOf(es) == WithToken(h, token) && TokenOf(es) == TokenWord(token)
  {
    ReadersHold(h, token, ns, es);
    UpgradableIs(es);
    ExclusiveIs(es);
    TokenIs(es);
    hide Acceptable;
    if h.x.Some? { Claimant(es, Report(h, token, h.x.value.node)); }
    if h.sx.Some? { Claimant(es, Report(h, token, h.sx.value.node)); }
    if token.Some? { Claimant(es, Report(h, token, token.value.node)); }
  }

  lemma ReadersHold(h: Holdings, token: Option<Token>, ns: seq<nat>, es: seq<Entry>)
    requires Explains(h, token, es) && Covers(ns, h, token)
    requires forall n :: n in ns ==> Report(h, token, n) in es
    ensures ReadersOf(es) == WithToken(h, token).readers
  {
    forall n | n in WithToken(h, token).readers ensures n in ReadersOf(es) {
      var e := Report(h, token, n);
      assert e in es && ClaimsS(e) && e.node == n;
    }
    forall n | n in ReadersOf(es) ensures n in WithToken(h, token).readers {
      var e :| e in es && ClaimsS(e) && e.node == n;
      assert e == Report(h, token, n);
    }
  }

  /**
  Ask every node that holds something, in any order, and rebuild: the reports
  are accepted and the words written are those of exactly what the nodes hold.
  */
  lemma QueryThenRebuild(locals: map<nat, LocalLock>, h: Holdings, token: Option<Token>, ns: seq<nat>)
    requires Possible(h, token) && Covers(ns, h, token)
    requires forall i :: 0 <= i < |ns| ==> ns[i] < MAX_NODES && ReflectsAt(locals, h, token, ns[i])
    requires forall i, j :: 0 <= i < j < |ns| ==> ns[i] != ns[j]
    ensures var es := QueryAll(locals, ns);
      && Acceptable(es)
      && Encode(HoldingsOf(es), TokenOf(es)) == Encode(WithToken(h, token), TokenWord(token))
      && Decode(Encode(HoldingsOf(es), TokenOf(es))) == WithToken(h, token)
  {
    var es := QueryAll(locals, ns);
    hide Possible, Report, Query, ReflectsAt;
    forall i | 0 <= i < |es| ensures es[i] == Report(h, token, ns[i]) && es[i].node == ns[i] {
      QueryTells(locals, h, token, ns[i]);
      ReportNode(h, token, ns[i]);
    }
    assert forall n :: n in ns ==> Report(h, token, n) in es by {
      forall n | n in ns ensures Report(h, token, n) in es {
        var i :| 0 <= i < |ns| && ns[i] == n;
        assert es[i] == Report(h, token, n);
      }
    }
    ReportsAccepted(h, token, es);
    ReportsHold(h, token, ns, es);
    RebuildRoundTrip(es);
  }

  lemma ReportNode(h: Holdings, token: Option<Token>, n: nat)
    ensures Report(h, token, n).node == n
  {
  }

  // ---- one flag for three modes -----------------------------------------------------------------------

  /** Calls of one node's threads, one after another and without the recursive policy. */
  datatype Call =
    | LockS | UnlockS(delay: bool)
    | LockSX(tid: Tid) | UnlockSX(delay: bool)
    | LockX(tid: Tid) | UnlockX(delay: bool)

  /** What the node's threads hold, and the mode of the unit a delayed unlock left with the node. */
  datatype Hold = Hold(readers: nat, sx: Option<Tid>, x: Option<Tid>, parked: LockMode)

  predicate Unheld(h: Hold) { h.readers == 0 && h.sx.None? && h.x.None? }

  /** A node: its holds, its local lock, and whether global_state_ says that the node has a global S. */
  datatype Node = Node(hold: Hold, local: LocalLock, sharing: bool)

  const FRESH := Node(Hold(0, None, None, I), LocalLock(I, 0, false, 0, 0, 0, 0), false)

  /** What callers may do and the lock grants; mixed says whether readers and an upgrader of the node overlap. */
  predicate Grantable(mixed: bool, h: Hold, c: Call) {
    match c
    case LockS => h.x.None? && (mixed || h.sx.None?)
    case UnlockS(_) => h.readers > 0
    case LockSX(tid) => tid != 0 && h.sx.None? && h.x.None? && (mixed || h.readers == 0)
    case UnlockSX(_) => h.sx.Some?
    case LockX(tid) => tid != 0 && Unheld(h)
    case UnlockX(_) => h.x.Some?
  }

  /** lock_s: the first reader leads, unless global_state_ already says that there is a global S. */
  function DoLockS(s: Node): Node {
    var h, l := s.hold.(readers := s.hold.readers + 1), s.local;
    if s.sharing && l.refs > 0 then Node(h, l.(refs := l.refs + 1), true)
    else Node(h.(parked := I), l.(reserve := I, refs := 1, holdsGlobal := true), true)
  }

  /** A delayed unlock leaves its unit with the node; a plain one does not know of a unit left earlier. */
  function Leave(h: Hold, delay: bool, m: LockMode): Hold { if delay then h.(parked := m) else h }

  /** unlock_s: refused when no reference is left; the last reference gives the unit back or parks it. */
  function DoUnlockS(s: Node, delay: bool): Node
    requires s.hold.readers > 0
  {
    var h, l := s.hold.(readers := s.hold.readers - 1), s.local;
    if l.refs <= 0 then s
    else if l.refs > 1 then Node(h, l.(refs := l.refs - 1), s.sharing)
    else Node(Leave(h, delay, S), l.(refs := 0, reserve := if delay then S else I, holdsGlobal := false), false)
  }

  function Do(s: Node, c: Call): Node
    requires Grantable(true, s.hold, c)
  {
    var l := s.local;
    match c
    case LockS => DoLockS(s)
    case UnlockS(delay) => DoUnlockS(s, delay)
    case LockSX(tid) =>
      Node(s.hold.(sx := Some(tid), parked := I),
           l.(sxOwner := tid, sxRec := 1, reserve := I, holdsGlobal := true), s.sharing)
    case UnlockSX(delay) =>
      Node(Leave(s.hold.(sx := None), delay, SX),
           l.(sxOwner := 0, sxRec := 0, reserve := if delay then SX else I, holdsGlobal := false), false)
    case LockX(tid) =>
      Node(s.hold.(x := Some(tid), parked := I),
           l.(xOwner := tid, xRec := 1, reserve := I, holdsGlobal := true), s.sharing)
    case UnlockX(delay) =>
      Node(Leave(s.hold.(x := None), delay, X),
           l.(xOwner := 0, xRec := 0, reserve := if delay then X else I, holdsGlobal := false), false)
  }

  ghost predicate IsHistory(mixed: bool, calls: seq<Call>, nodes: seq<Node>) {
    && |nodes| == |calls| + 1 && nodes[0] == FRESH
    && forall i :: 0 <= i < |calls| ==>
         Grantable(mixed, nodes[i].hold, calls[i]) && nodes[i + 1] == Do(nodes[i], calls[i])
  }

  /** The report says who holds what, the writer or upgrader by name, and what was left with the node. */
  predicate Tells(e: Entry, h: Hold) {
    && e.shared == (h.readers > 0) && e.reserve == h.parked
    && if h.x.Some? then e.held == X && e.tid == h.x.value && e.rec == 1
       else if h.sx.Some? then e.held == SX && e.tid == h.sx.value && e.rec == 1
       else e.held == (if h.readers > 0 then S else I) && e.tid == 0 && e.rec == 0
  }

  predicate OwnerIsNamed(o: Option<Tid>, owner: Tid, rec: nat) {
    if o.Some? then o.value != 0 && owner == o.value && rec == 1 else owner == 0
  }

  /** Without overlap the fields are those of the holds. */
  predicate Agrees(s: Node) {
    && s.local.refs == s.hold.readers && (s.sharing <==> s.hold.readers > 0)
    && OwnerIsNamed(s.hold.sx, s.local.sxOwner, s.local.sxRec) && OwnerIsNamed(s.hold.x, s.local.xOwner, s.local.xRec)
    && (s.hold.x.Some? ==> s.hold.readers == 0 && s.hold.sx.None?) && (s.hold.sx.Some? ==> s.hold.readers == 0)
    && (s.local.holdsGlobal <==> !Unheld(s.hold))
    && s.local.reserve == s.hold.parked && (!Unheld(s.hold) ==> s.hold.parked == I)
  }

  lemma {:induction false} HistoryAgrees(calls: seq<Call>, nodes: seq<Node>, i: nat)
    requires IsHistory(false, calls, nodes) && i < |nodes|
    ensures Agrees(nodes[i])
    decreases i
  {
    if i > 0 {
      HistoryAgrees(calls, nodes, i - 1);
      var j := i - 1;
      assert nodes[j + 1] == Do(nodes[j], calls[j]);
    }
  }

  lemma AgreesTells(s: Node, n: nat)
    requires Agrees(s)
    ensures Tells(QueryHolder(n, Some(s.local)), s.hold)
  {
  }

  lemma HistoryNext(mixed: bool, calls: seq<Call>, nodes: seq<Node>, c: Call) returns (s: Node)
    requires IsHistory(mixed, calls, nodes) && Grantable(mixed, nodes[|calls|].hold, c)
    ensures s == Do(nodes[|calls|], c) && IsHistory(mixed, calls + [c], nodes + [s])
  {
    s := Do(nodes[|calls|], c);
    var cs, ns := calls + [c], nodes + [s];
    forall i | 0 <= i < |cs| ensures Grantable(mixed, ns[i].hold, cs[i]) && ns[i + 1] == Do(ns[i], cs[i]) {
      if i < |calls| { assert ns[i] == nodes[i] && ns[i + 1] == nodes[i + 1] && cs[i] == calls[i]; }
    }
  }

  /** An upgrader, and a reader that comes and goes: the flag is gone, and the report says that nothing is held. */
  lemma UpgraderForgotten(n: nat) returns (calls: seq<Call>, nodes: seq<Node>)
    requires n < MAX_NODES
    ensures IsHistory(true, calls, nodes) && nodes[|calls|].hold == Hold(0, Some(1), None, I)
    ensures var e := QueryHolder(n, Some(nodes[|calls|].local));
      e == Entry(n, I, 0, 0, false, I) && Acceptable([e])
      && Encode(HoldingsOf([e]), TokenOf([e])) == Encode(Holdings({}, None, None), NO_OWNER)
  {
    assert IsHistory(true, [], [FRESH]);
    var s1 := HistoryNext(true, [], [FRESH], LockSX(1));
    var s2 := HistoryNext(true, [LockSX(1)], [FRESH, s1], LockS);
    var s3 := HistoryNext(true, [LockSX(1), LockS], [FRESH, s1, s2], UnlockS(false));
    calls, nodes := [LockSX(1), LockS, UnlockS(false)], [FRESH, s1, s2, s3];
    NothingHeld(Entry(n, I, 0, 0, false, I));
  }

  lemma NothingHeld(e: Entry)
    requires e == Entry(e.node, I, 0, 0, false, I) && e.node < MAX_NODES
    ensures Acceptable([e])
    ensures Encode(HoldingsOf([e]), TokenOf([e])) == Encode(Holdings({}, None, None), NO_OWNER)
  {
    var es := [e];
    UpgradableIs(es);
    ExclusiveIs(es);
    TokenIs(es);
    assert ReadersOf(es) == {};
  }

  /**
  A reader, an upgrader that comes and goes, a second reader that comes and
  goes: the second one overwrote the reference of the first, which still reads.
  */
  lemma ReaderForgotten(n: nat) returns (calls: seq<Call>, nodes: seq<Node>)
    ensures IsHistory(true, calls, nodes) && nodes[|calls|].hold == Hold(1, None, None, I)
    ensures QueryHolder(n, Some(nodes[|calls|].local)) == Entry(n, I, 0, 0, false, I)
  {
    assert IsHistory(true, [], [FRESH]);
    var s1 := HistoryNext(true, [], [FRESH], LockS);
    var s2 := HistoryNext(true, [LockS], [FRESH, s1], LockSX(1));
    var s3 := HistoryNext(true, [LockS, LockSX(1)], [FRESH, s1, s2], UnlockSX(false));
    var s4 := HistoryNext(true, [LockS, LockSX(1), UnlockSX(false)], [FRESH, s1, s2, s3], LockS);
    var s5 := HistoryNext(true, [LockS, LockSX(1), UnlockSX(false), LockS], [FRESH, s1, s2, s3, s4], UnlockS(false));
    calls := [LockS, LockSX(1), UnlockSX(false), LockS, UnlockS(false)];
    nodes := [FRESH, s1, s2, s3, s4, s5];
  }

  /** A reader, and an upgrader whose unlock is delayed: the reader's unlock wipes the token, and the unit is lost. */
  lemma TokenForgotten(n: nat) returns (calls: seq<Call>, nodes: seq<Node>)
    ensures IsHistory(true, calls, nodes) && nodes[|calls|].hold == Hold(0, None, None, SX)
    ensures QueryHolder(n, Some(nodes[|calls|].local)) == Entry(n, I, 0, 0, false, I)
  {
    assert IsHistory(true, [], [FRESH]);
    var s1 := HistoryNext(true, [], [FRESH], LockS);
    var s2 := HistoryNext(true, [LockS], [FRESH, s1], LockSX(1));
    var s3 := HistoryNext(true, [LockS, LockSX(1)], [FRESH, s1, s2], UnlockSX(true));
    var s4 := HistoryNext(true, [LockS, LockSX(1), UnlockSX(true)], [FRESH, s1, s2, s3], UnlockS(false));
    calls, nodes := [LockS, LockSX(1), UnlockSX(true), UnlockS(false)], [FRESH, s1, s2, s3, s4];
  }

  /** Queries tell the truth after every history if and only if readers and upgraders of a node never overlap. */
  lemma QueryTellsExactly(mixed: bool, n: nat)
    requires n < MAX_NODES
    ensures (forall calls, nodes: seq<Node> :: IsHistory(mixed, calls, nodes) ==>
              Tells(QueryHolder(n, Some(nodes[|calls|].local)), nodes[|calls|].hold)) <==> !mixed
  {
    if mixed {
      var calls, nodes := UpgraderForgotten(n);
      assert !Tells(QueryHolder(n, Some(nodes[|calls|].local)), nodes[|calls|].hold);
    } else {
      forall calls, nodes: seq<Node> | IsHistory(false, calls, nodes)
        ensures Tells(QueryHolder(n, Some(nodes[|calls|].local)), nodes[|calls|].hold)
      {
        HistoryAgrees(calls, nodes, |calls|);
        AgreesTells(nodes[|calls|], n);
      }
    }
  }
}
