/**
Calls of the two-level lock that run alone, from any reachable state: what each
takes and gives back, with the numbers of the shared word written out. Lock and
unlock undo each other in every mode; a delayed unlock leaves its unit for the
next call of its node, for a call of another mode to give back, or for a
release message.
*/
module TwoLevelCalls {
  import opened LocalWord
  import opened TwoLevelLock
  import opened TwoLevelStray

  // ---- numbers and words, said apart from the steps ---------------------------------------------------

  predicate Open(word: int, m: Mode) {
    match m
    case S => word > 0
    case SX => word > 32768
    case X => word == 65536
  }

  function Taken(word: int, m: Mode): int {
    match m
    case S => word - 1
    case SX => word - 32768
    case X => 0
  }

  function Returned(word: int, m: Mode): int {
    match m
    case S => word + 1
    case SX => word + 32768
    case X => 65536
  }

  /** The shared owner word of a mode; S has none. */
  function Named(b: Sys, m: Mode, o: Owner): Sys {
    match m
    case S => b
    case SX => b.(ownerSX := o)
    case X => b.(ownerX := o)
  }

  predicate Vacant(w: Word, a: Agent, m: Mode) {
    match m
    case S => !w.At(LaneOf(a)).sentinel && w.At(LaneOf(a)).count < MAX_COUNT
    case SX => !w.l0.sentinel && !w.l0.flag
    case X => w == IDLE_WORD
  }

  function Locked(w: Word, a: Agent, m: Mode): Word
    requires Vacant(w, a, m)
  {
    match m
    case S => w.Put(LaneOf(a), w.At(LaneOf(a)).(count := w.At(LaneOf(a)).count + 1))
    case SX => w.Put(0, w.l0.(flag := true))
    case X => X_WORD
  }

  /** Node nd of agent a and the place of a, over the words of b. */
  function At(b: Sys, a: Agent, nd: Node, p: Pc): Sys
    requires a.node < |b.nodes|
  {
    b.(nodes := b.nodes[a.node := nd], pc := b.pc[a := p])
  }

  lemma AtAgain(b: Sys, a: Agent, nd: Node, p: Pc, nd2: Node, p2: Pc)
    requires a.node < |b.nodes|
    ensures At(b, a, nd, p).nodes[a.node] == nd && PcOf(At(b, a, nd, p), a) == p
    ensures Go(PutNode(At(b, a, nd, p), a, nd2), a, p2) == At(b, a, nd2, p2)
    ensures Go(At(b, a, nd, p), a, p2) == At(b, a, nd, p2)
  {
  }

  lemma Stay(u: Usage, b: Sys, a: Agent, nd: Node, p: Pc, nd2: Node, p2: Pc)
    requires a.node < |b.nodes| && Reachable(u, At(b, a, nd, p))
    requires AgentStep(u, At(b, a, nd, p), Go(PutNode(At(b, a, nd, p), a, nd2), a, p2), a)
    ensures Reachable(u, At(b, a, nd2, p2))
  {
    hide Reachable, AgentStep;
    Hop(u, At(b, a, nd, p), Go(PutNode(At(b, a, nd, p), a, nd2), a, p2), a);
    AtAgain(b, a, nd, p, nd2, p2);
  }

  lemma Move(u: Usage, b: Sys, a: Agent, nd: Node, p: Pc, b2: Sys, p2: Pc)
    requires a.node < |b.nodes| && b2 == b.(word := b2.word, ownerX := b2.ownerX, ownerSX := b2.ownerSX,
                                            reserve := b2.reserve)
    requires Reachable(u, At(b, a, nd, p)) && AgentStep(u, At(b, a, nd, p), Go(At(b2, a, nd, p), a, p2), a)
    ensures Reachable(u, At(b2, a, nd, p2))
  {
    hide Reachable, AgentStep;
    Hop(u, At(b, a, nd, p), Go(At(b2, a, nd, p), a, p2), a);
    AtAgain(b2, a, nd, p, nd, p2);
  }

  // ---- entering -----------------------------------------------------------------------------------------

  lemma Enters(u: Usage, s: Sys, a: Agent, m: Mode)
    requires Reachable(u, s) && a.node < |s.nodes| && PcOf(s, a) == Idle && (m == SX ==> u.sx)
    requires Vacant(s.nodes[a.node].word, a, m)
    ensures var nd := s.nodes[a.node];
      Reachable(u, At(s, a, nd.(word := Locked(nd.word, a, m)), if m == S then SEnter else TakeToken(m)))
  {
    hide Reachable, ClaimStep, TokenStep, ContendStep, UnlockSharedStep, UnlockExclusiveStep, GiveBackStep, LeaveStep;
    var nd := s.nodes[a.node];
    var t := At(s, a, nd.(word := Locked(nd.word, a, m)), if m == S then SEnter else TakeToken(m));
    match m {
      case S =>
        var lane := nd.word.At(LaneOf(a));
        assert OneMore(lane) == lane.(count := lane.count + 1);
      case SX =>
      case X =>
    }
    assert EnterStep(u, s, t, a);
    Hop(u, s, t, a);
  }

  /** The first S of a node claims to lead. */
  lemma Claims(u: Usage, s: Sys, a: Agent)
    requires Reachable(u, s) && a.node < |s.nodes| && PcOf(s, a) == Idle && s.nodes[a.node].gstate == GIdle
    requires Vacant(s.nodes[a.node].word, a, S)
    ensures var nd := s.nodes[a.node];
      Reachable(u, At(s, a, nd.(word := Locked(nd.word, a, S), gstate := GPending), TakeToken(S)))
  {
    hide Reachable, EnterStep, TokenStep, ContendStep, UnlockSharedStep, UnlockExclusiveStep, GiveBackStep, LeaveStep;
    var nd := s.nodes[a.node].(word := Locked(s.nodes[a.node].word, a, S));
    Enters(u, s, a, S);
    AtAgain(s, a, nd, SEnter, nd.(gstate := GPending), TakeToken(S));
    Stay(u, s, a, nd, SEnter, nd.(gstate := GPending), TakeToken(S));
  }

  lemma SeesShared(u: Usage, b: Sys, a: Agent, nd: Node)
    requires a.node < |b.nodes| && Reachable(u, At(b, a, nd, SEnter)) && nd.gstate == GHeld && nd.refs > 0
    ensures Reachable(u, At(b, a, nd, SRef(nd.refs)))
  {
    hide Reachable, EnterStep, TokenStep, ContendStep, UnlockSharedStep, UnlockExclusiveStep, GiveBackStep, LeaveStep;
    AtAgain(b, a, nd, SEnter, nd, SSaw);
    Stay(u, b, a, nd, SEnter, nd, SSaw);
    AtAgain(b, a, nd, SSaw, nd, SRef(nd.refs));
    Stay(u, b, a, nd, SSaw, nd, SRef(nd.refs));
  }

  /** A later S joins the node's global S. */
  lemma Joins(u: Usage, s: Sys, a: Agent)
    requires Reachable(u, s) && a.node < |s.nodes| && PcOf(s, a) == Idle && s.nodes[a.node].gstate == GHeld
    requires Vacant(s.nodes[a.node].word, a, S) && 0 < s.nodes[a.node].refs < INT32_MAX
    ensures var nd := s.nodes[a.node];
      Reachable(u, At(s, a, nd.(word := Locked(nd.word, a, S), refs := nd.refs + 1), Holding(S)))
  {
    hide Reachable, EnterStep, TokenStep, ContendStep, UnlockSharedStep, UnlockExclusiveStep, GiveBackStep, LeaveStep;
    var nd := s.nodes[a.node].(word := Locked(s.nodes[a.node].word, a, S));
    Enters(u, s, a, S);
    SeesShared(u, s, a, nd);
    AtAgain(s, a, nd, SRef(nd.refs), nd, SCas(nd.refs));
    Stay(u, s, a, nd, SRef(nd.refs), nd, SCas(nd.refs));
    AtAgain(s, a, nd, SCas(nd.refs), nd.(refs := nd.refs + 1), Holding(S));
    Stay(u, s, a, nd, SCas(nd.refs), nd.(refs := nd.refs + 1), Holding(S));
  }

  // ---- taking a unit ----------------------------------------------------------------------------------------

  /** With the token empty and the word open, a call past its local lock gets a unit and is named. */
  lemma Takes(u: Usage, b: Sys, a: Agent, nd: Node, m: Mode)
    requires a.node < |b.nodes| && Reachable(u, At(b, a, nd, TakeToken(m))) && nd.token == NoToken
    requires Open(b.word, m) && (m != S ==> OwnerOf(b, m) != Me(a))
    ensures Reachable(u, At(Named(b, m, Me(a)).(word := Taken(b.word, m)), a,
                            if m == S then nd.(refs := 1, gstate := GHeld) else nd, Holding(m)))
  {
    hide Reachable, EnterStep, ClaimStep, UnlockSharedStep, UnlockExclusiveStep, GiveBackStep, LeaveStep;
    var p := if m == S then Contend(S) else CheckOwner(m);
    AtAgain(b, a, nd, TakeToken(m), nd.(token := NoToken), p);
    Stay(u, b, a, nd, TakeToken(m), nd, p);
    if m != S {
      AtAgain(b, a, nd, p, nd, Contend(m));
      Stay(u, b, a, nd, p, nd, Contend(m));
    }
    var b2 := b.(word := Taken(b.word, m));
    AtAgain(b, a, nd, Contend(m), nd, Got(m));
    Move(u, b, a, nd, Contend(m), b2, Got(m));
    Settles(u, b2, a, nd, m);
  }

  lemma Settles(u: Usage, b: Sys, a: Agent, nd: Node, m: Mode)
    requires a.node < |b.nodes| && Reachable(u, At(b, a, nd, Got(m)))
    ensures Reachable(u, At(Named(b, m, Me(a)), a, if m == S then nd.(refs := 1, gstate := GHeld) else nd, Holding(m)))
  {
    hide Reachable, EnterStep, ClaimStep, TokenStep, UnlockSharedStep, UnlockExclusiveStep, GiveBackStep, LeaveStep;
    if m == S {
      AtAgain(b, a, nd, Got(S), nd.(refs := 1), SPublish);
      Stay(u, b, a, nd, Got(S), nd.(refs := 1), SPublish);
      AtAgain(b, a, nd.(refs := 1), SPublish, nd.(refs := 1, gstate := GHeld), Holding(S));
      Stay(u, b, a, nd.(refs := 1), SPublish, nd.(refs := 1, gstate := GHeld), Holding(S));
    } else {
      AtAgain(b, a, nd, Got(m), nd, Holding(m));
      Move(u, b, a, nd, Got(m), Named(b, m, Me(a)), Holding(m));
    }
  }

  /** A unit parked by its node in the same mode is taken over: the shared word does not move. */
  lemma Inherits(u: Usage, b: Sys, a: Agent, nd: Node, m: Mode)
    requires a.node < |b.nodes| && Reachable(u, At(b, a, nd, TakeToken(m))) && nd.token == Parked(m)
    ensures Reachable(u, At(Named(b, m, Me(a)).(reserve := Nobody), a,
                            if m == S then nd.(token := NoToken, refs := 1, gstate := GHeld) else nd.(token := NoToken),
                            Holding(m)))
  {
    hide Reachable, EnterStep, ClaimStep, ContendStep, UnlockSharedStep, UnlockExclusiveStep, GiveBackStep, LeaveStep;
    var empty := nd.(token := NoToken);
    AtAgain(b, a, nd, TakeToken(m), empty, Inherit(m));
    Stay(u, b, a, nd, TakeToken(m), empty, Inherit(m));
    AtAgain(b, a, empty, Inherit(m), empty, Got(m));
    Move(u, b, a, empty, Inherit(m), b.(reserve := Nobody), Got(m));
    Settles(u, b.(reserve := Nobody), a, empty, m);
  }

  /** A unit parked in another mode is given back first, and its owner word and the reservation cleared. */
  lemma Drops(u: Usage, b: Sys, a: Agent, nd: Node, m: Mode, k: Mode)
    requires a.node < |b.nodes| && Reachable(u, At(b, a, nd, TakeToken(m))) && nd.token == Parked(k) && k != m
    ensures Reachable(u, At(Named(b, k, Nobody).(word := Returned(b.word, k), reserve := Nobody), a,
                            nd.(token := NoToken), if m == S then Contend(S) else CheckOwner(m)))
  {
    hide Reachable, EnterStep, ClaimStep, ContendStep, UnlockSharedStep, UnlockExclusiveStep, GiveBackStep, LeaveStep;
    var empty := nd.(token := NoToken);
    AtAgain(b, a, nd, TakeToken(m), empty, DropReserve(k, ForLock(m)));
    Stay(u, b, a, nd, TakeToken(m), empty, DropReserve(k, ForLock(m)));
    GivesBack(u, b, a, empty, k, ForLock(m));
  }

  lemma GivesBack(u: Usage, b: Sys, a: Agent, nd: Node, k: Mode, goal: Goal)
    requires a.node < |b.nodes| && Reachable(u, At(b, a, nd, DropReserve(k, goal)))
    ensures Reachable(u, At(Named(b, k, Nobody).(word := Returned(b.word, k), reserve := Nobody), a, nd,
                            if goal.ForMessage? then HEnd else if goal.mode == S then Contend(S)
                            else CheckOwner(goal.mode)))
  {
    hide Reachable, EnterStep, ClaimStep, ContendStep, UnlockSharedStep, UnlockExclusiveStep, GiveBackStep, LeaveStep;
    var p := if k == S then DropWord(k, goal) else DropOwner(k, goal);
    var b1, b2 := b.(reserve := Nobody), Named(b, k, Nobody).(reserve := Nobody);
    AtAgain(b, a, nd, DropReserve(k, goal), nd, p);
    Move(u, b, a, nd, DropReserve(k, goal), b1, p);
    if k != S {
      AtAgain(b1, a, nd, p, nd, DropWord(k, goal));
      Move(u, b1, a, nd, p, b2, DropWord(k, goal));
    }
    GivesWordBack(u, b2, a, nd, k, goal);
  }

  lemma GivesWordBack(u: Usage, b: Sys, a: Agent, nd: Node, k: Mode, goal: Goal)
    requires a.node < |b.nodes| && Reachable(u, At(b, a, nd, DropWord(k, goal)))
    ensures Reachable(u, At(b.(word := Returned(b.word, k)), a, nd,
                            if goal.ForMessage? then HEnd else if goal.mode == S then Contend(S)
                            else CheckOwner(goal.mode)))
  {
    hide Reachable, EnterStep, ClaimStep, ContendStep, UnlockSharedStep, UnlockExclusiveStep, GiveBackStep, LeaveStep;
    AtAgain(b, a, nd, DropWord(k, goal), nd, AfterToken(goal));
    Move(u, b, a, nd, DropWord(k, goal), b.(word := Returned(b.word, k)), AfterToken(goal));
  }

  // ---- giving up --------------------------------------------------------------------------------------------

  /** A call whose time is up leaves the local lock as it found it. */
  lemma Leaves(u: Usage, b: Sys, a: Agent, nd: Node, w: Word, m: Mode)
    requires a.node < |b.nodes| && Reachable(u, At(b, a, nd, Leave(m))) && Vacant(w, a, m) && nd.word == Locked(w, a, m)
    ensures Reachable(u, At(b, a, nd.(word := w), Idle))
  {
    hide Reachable, EnterStep, ClaimStep, TokenStep, ContendStep, UnlockSharedStep, UnlockExclusiveStep, GiveBackStep;
    AtAgain(b, a, nd, Leave(m), nd.(word := w), Idle);
    UnlocksLocal(nd.word, w, a, m);
    Stay(u, b, a, nd, Leave(m), nd.(word := w), Idle);
  }

  lemma UnlocksLocal(v: Word, w: Word, a: Agent, m: Mode)
    requires Vacant(w, a, m) && v == Locked(w, a, m)
    ensures m == S ==>
      var lane := v.At(LaneOf(a)); !lane.sentinel && lane.count > 0 && v.Put(LaneOf(a), OneLess(lane)) == w
    ensures m == SX ==> v.l0.flag && v.Put(0, v.l0.(flag := false)) == w
    ensures m == X ==> v == X_WORD && w == IDLE_WORD
  {
  }

  /** An S that finds the node's global S taken or pending may time out, and changes nothing. */
  lemma SharedTimesOut(u: Usage, s: Sys, a: Agent) returns (t: Sys)
    requires Reachable(u, s) && a.node < |s.nodes| && PcOf(s, a) == Idle && s.nodes[a.node].gstate != GIdle
    requires Vacant(s.nodes[a.node].word, a, S)
    ensures Reachable(u, t) && t == s.(pc := s.pc[a := Idle])
  {
    hide Reachable, EnterStep, TokenStep, ContendStep, UnlockSharedStep, UnlockExclusiveStep, GiveBackStep, LeaveStep;
    var mine := s.nodes[a.node];
    var nd := mine.(word := Locked(mine.word, a, S));
    Enters(u, s, a, S);
    AtAgain(s, a, nd, SEnter, nd, Leave(S));
    Stay(u, s, a, nd, SEnter, nd, Leave(S));
    Leaves(u, s, a, nd, mine.word, S);
    t := At(s, a, mine, Idle);
    assert t.nodes == s.nodes;
  }

  lemma GivesUp(u: Usage, b: Sys, a: Agent, nd: Node, m: Mode)
    requires a.node < |b.nodes| && Reachable(u, At(b, a, nd, TakeToken(m))) && m != S && nd.token == NoToken
    ensures Reachable(u, At(b, a, nd, Leave(m)))
  {
    hide Reachable, EnterStep, ClaimStep, UnlockSharedStep, UnlockExclusiveStep, GiveBackStep, LeaveStep;
    AtAgain(b, a, nd, TakeToken(m), nd.(token := NoToken), CheckOwner(m));
    Stay(u, b, a, nd, TakeToken(m), nd, CheckOwner(m));
    var p := if OwnerOf(b, m) == Me(a) then Leave(m) else Contend(m);
    AtAgain(b, a, nd, CheckOwner(m), nd, p);
    Stay(u, b, a, nd, CheckOwner(m), nd, p);
    if p == Contend(m) {
      AtAgain(b, a, nd, Contend(m), nd, Leave(m));
      Stay(u, b, a, nd, Contend(m), nd, Leave(m));
    }
  }

  /** So may an SX or X that finds the word taken. */
  lemma ExclusiveTimesOut(u: Usage, s: Sys, a: Agent, m: Mode) returns (t: Sys)
    requires Reachable(u, s) && a.node < |s.nodes| && PcOf(s, a) == Idle && m != S && (m == SX ==> u.sx)
    requires s.nodes[a.node].token == NoToken && Vacant(s.nodes[a.node].word, a, m)
    ensures Reachable(u, t) && t == s.(pc := s.pc[a := Idle])
  {
    hide Reachable, Locked;
    var mine := s.nodes[a.node];
    var nd := mine.(word := Locked(mine.word, a, m));
    Enters(u, s, a, m);
    GivesUp(u, s, a, nd, m);
    Leaves(u, s, a, nd, mine.word, m);
    t := At(s, a, mine, Idle);
    assert t.nodes == s.nodes;
  }

  // ---- unlocking ------------------------------------------------------------------------------------------------

  /** The state after the global part of an unlock: a GLOBAL_HELD ends with the last S, any state with SX or X. */
  function Ended(nd: Node, m: Mode): Node { if m == S && nd.gstate != GHeld then nd else nd.(gstate := GIdle) }

  lemma Finishes(u: Usage, b: Sys, a: Agent, nd: Node, w: Word, m: Mode)
    requires a.node < |b.nodes| && Reachable(u, At(b, a, nd, After(m))) && Vacant(w, a, m) && nd.word == Locked(w, a, m)
    ensures Reachable(u, At(b, a, Ended(nd, m).(word := w), Idle))
  {
    hide Reachable, EnterStep, ClaimStep, TokenStep, ContendStep, UnlockSharedStep, UnlockExclusiveStep, LeaveStep;
    AtAgain(b, a, nd, After(m), Ended(nd, m), Leave(m));
    Stay(u, b, a, nd, After(m), Ended(nd, m), Leave(m));
    Leaves(u, b, a, Ended(nd, m), w, m);
  }

  lemma Clears(u: Usage, b: Sys, a: Agent, nd: Node, m: Mode)
    requires a.node < |b.nodes| && Reachable(u, At(b, a, nd, ClearToken(m)))
    ensures Reachable(u, At(Named(b, m, Nobody), a, nd.(token := NoToken), PutWord(m)))
  {
    hide Reachable, EnterStep, ClaimStep, TokenStep, ContendStep, UnlockSharedStep, UnlockExclusiveStep, LeaveStep;
    var empty, p := nd.(token := NoToken), if m == S then PutWord(S) else PutOwner(m);
    AtAgain(b, a, nd, ClearToken(m), empty, p);
    Stay(u, b, a, nd, ClearToken(m), empty, p);
    if m != S {
      AtAgain(b, a, empty, p, empty, PutWord(m));
      Move(u, b, a, empty, p, Named(b, m, Nobody), PutWord(m));
    }
  }

  lemma Puts(u: Usage, b: Sys, a: Agent, nd: Node, m: Mode)
    requires a.node < |b.nodes| && Reachable(u, At(b, a, nd, ClearToken(m))) && (m == S ==> b.word < FREE)
    ensures Reachable(u, At(Named(b, m, Nobody).(word := Returned(b.word, m)), a, nd.(token := NoToken), After(m)))
  {
    hide Reachable;
    Clears(u, b, a, nd, m);
    PutsWord(u, Named(b, m, Nobody), a, nd.(token := NoToken), m);
  }

  lemma PutsWord(u: Usage, b: Sys, a: Agent, nd: Node, m: Mode)
    requires a.node < |b.nodes| && Reachable(u, At(b, a, nd, PutWord(m))) && (m == S ==> b.word < FREE)
    ensures Reachable(u, At(b.(word := Returned(b.word, m)), a, nd, After(m)))
  {
    hide Reachable, EnterStep, ClaimStep, TokenStep, ContendStep, UnlockSharedStep, UnlockExclusiveStep, LeaveStep;
    AtAgain(b, a, nd, PutWord(m), nd, After(m));
    Move(u, b, a, nd, PutWord(m), b.(word := Returned(b.word, m)), After(m));
  }

  /** Where an unlock of m by its only holder goes when it does not delay, and when it does. */
  lemma StartsUnlock(u: Usage, b: Sys, a: Agent, nd: Node, w: Word, m: Mode)
    requires a.node < |b.nodes| && Reachable(u, At(b, a, nd, Holding(m)))
    requires Vacant(w, a, m) && nd.word == Locked(w, a, m)
    requires if m == S then nd.refs == 1 else OwnerOf(b, m) == Me(a)
    ensures Reachable(u, At(b, a, if m == S then nd.(refs := 0) else nd, ClearToken(m)))
    ensures u.delay && b.reserve == Nobody ==>
      Reachable(u, At(b.(reserve := Me(a)), a, if m == S then nd.(refs := 0) else nd, Park(m)))
  {
    hide Reachable, EnterStep, ClaimStep, TokenStep, ContendStep, GiveBackStep, LeaveStep;
    if m == S {
      UnlocksLocal(nd.word, w, a, m);
      var none := nd.(refs := 0);
      AtAgain(b, a, nd, Holding(S), none, Release);
      Stay(u, b, a, nd, Holding(S), none, Release);
      AtAgain(b, a, none, Release, none, ClearToken(S));
      Stay(u, b, a, none, Release, none, ClearToken(S));
      if u.delay && b.reserve == Nobody { Move(u, b, a, none, Release, b.(reserve := Me(a)), Park(S)); }
    } else {
      AtAgain(b, a, nd, Holding(m), nd, ClearToken(m));
      Stay(u, b, a, nd, Holding(m), nd, ClearToken(m));
      if u.delay && b.reserve == Nobody { Move(u, b, a, nd, Holding(m), b.(reserve := Me(a)), Park(m)); }
    }
  }

  /** What is left of a node's fields when its only hold of mode m is unlocked. */
  function Unlocked(nd: Node, w: Word, m: Mode, token: Token): Node {
    Ended(if m == S then nd.(refs := 0, token := token) else nd.(token := token), m).(word := w)
  }

  /** An unlock that does not delay gives its unit back, its name and the local lock, and empties the token. */
  lemma Unlocks(u: Usage, b: Sys, a: Agent, nd: Node, w: Word, m: Mode)
    requires a.node < |b.nodes| && Reachable(u, At(b, a, nd, Holding(m)))
    requires Vacant(w, a, m) && nd.word == Locked(w, a, m)
    requires if m == S then nd.refs == 1 && b.word < FREE else OwnerOf(b, m) == Me(a)
    ensures Reachable(u, At(Named(b, m, Nobody).(word := Returned(b.word, m)), a, Unlocked(nd, w, m, NoToken), Idle))
  {
    hide Reachable;
    StartsUnlock(u, b, a, nd, w, m);
    var none := if m == S then nd.(refs := 0) else nd;
    Puts(u, b, a, none, m);
    Finishes(u, Named(b, m, Nobody).(word := Returned(b.word, m)), a, none.(token := NoToken), w, m);
  }

  /** One that delays leaves word and name, and puts the unit into the token and the caller into the reservation. */
  lemma Parks(u: Usage, b: Sys, a: Agent, nd: Node, w: Word, m: Mode)
    requires a.node < |b.nodes| && Reachable(u, At(b, a, nd, Holding(m)))
    requires Vacant(w, a, m) && nd.word == Locked(w, a, m)
    requires (if m == S then nd.refs == 1 else OwnerOf(b, m) == Me(a)) && u.delay && b.reserve == Nobody
    ensures Reachable(u, At(b.(reserve := Me(a)), a, Unlocked(nd, w, m, Parked(m)), Idle))
  {
    hide Reachable, EnterStep, ClaimStep, TokenStep, ContendStep, UnlockSharedStep, UnlockExclusiveStep, LeaveStep;
    StartsUnlock(u, b, a, nd, w, m);
    var none, b2 := if m == S then nd.(refs := 0) else nd, b.(reserve := Me(a));
    AtAgain(b2, a, none, Park(m), none.(token := Parked(m)), After(m));
    Stay(u, b2, a, none, Park(m), none.(token := Parked(m)), After(m));
    Finishes(u, b2, a, none.(token := Parked(m)), w, m);
  }

  /** A reader that is not the last gives its reference back, and nothing else. */
  lemma ReaderLeaves(u: Usage, b: Sys, a: Agent, nd: Node, w: Word)
    requires a.node < |b.nodes| && Reachable(u, At(b, a, nd, Holding(S)))
    requires Vacant(w, a, S) && nd.word == Locked(w, a, S)
    requires nd.refs > 1
    ensures Reachable(u, At(b, a, nd.(refs := nd.refs - 1, word := w), Idle))
  {
    hide Reachable, EnterStep, ClaimStep, TokenStep, ContendStep, UnlockExclusiveStep, GiveBackStep, LeaveStep;
    UnlocksLocal(nd.word, w, a, S);
    AtAgain(b, a, nd, Holding(S), nd.(refs := nd.refs - 1), Leave(S));
    Stay(u, b, a, nd, Holding(S), nd.(refs := nd.refs - 1), Leave(S));
    Leaves(u, b, a, nd.(refs := nd.refs - 1), w, S);
  }

  // ---- whole calls -------------------------------------------------------------------------------------------------

  /** A node without holds, and the system when the mode can be had. */
  predicate Ready(u: Usage, s: Sys, a: Agent, m: Mode) {
    && a.node < |s.nodes| && PcOf(s, a) == Idle && (m == SX ==> u.sx)
    && Vacant(s.nodes[a.node].word, a, m) && (m == S ==> s.nodes[a.node].gstate == GIdle && s.nodes[a.node].refs == 0)
  }

  function HeldNode(nd: Node, a: Agent, m: Mode): Node
    requires Vacant(nd.word, a, m)
  {
    var l := nd.(word := Locked(nd.word, a, m), token := NoToken);
    if m == S then l.(refs := 1, gstate := GHeld) else l
  }

  /** Past the local lock, at the token. */
  lemma Arrives(u: Usage, s: Sys, a: Agent, m: Mode)
    requires Reachable(u, s) && Ready(u, s, a, m)
    ensures var nd := s.nodes[a.node];
      Reachable(u, At(s, a, if m == S then nd.(word := Locked(nd.word, a, S), gstate := GPending)
                            else nd.(word := Locked(nd.word, a, m)), TakeToken(m)))
  {
    hide Reachable, Locked;
    if m == S { Claims(u, s, a); } else { Enters(u, s, a, m); }
  }

  /** Lock in any mode that the word allows. */
  lemma Lock(u: Usage, s: Sys, a: Agent, m: Mode) returns (t: Sys)
    requires Reachable(u, s) && Ready(u, s, a, m) && s.nodes[a.node].token == NoToken
    requires Open(s.word, m) && (m != S ==> OwnerOf(s, m) != Me(a))
    ensures Reachable(u, t)
    ensures t == At(Named(s, m, Me(a)).(word := Taken(s.word, m)), a, HeldNode(s.nodes[a.node], a, m), Holding(m))
  {
    hide Reachable, Locked;
    var nd := s.nodes[a.node];
    Arrives(u, s, a, m);
    Takes(u, s, a, if m == S then nd.(word := Locked(nd.word, a, S), gstate := GPending)
                   else nd.(word := Locked(nd.word, a, m)), m);
    t := At(Named(s, m, Me(a)).(word := Taken(s.word, m)), a, HeldNode(nd, a, m), Holding(m));
  }

  /** Lock, then unlock without delay: every word is as it was, but for an owner word that now names nobody. */
  lemma LockThenUnlock(u: Usage, s: Sys, a: Agent, m: Mode) returns (t: Sys)
    requires Reachable(u, s) && Ready(u, s, a, m) && s.nodes[a.node].token == NoToken
    requires Open(s.word, m) && s.word <= FREE && (m != S ==> OwnerOf(s, m) != Me(a))
    ensures Reachable(u, t)
    ensures t == Named(s, m, Nobody).(nodes := t.nodes, pc := s.pc[a := Idle])
    ensures t.nodes == s.nodes[a.node := s.nodes[a.node].(gstate := GIdle)]
  {
    hide Reachable, Locked;
    var nd, held := s.nodes[a.node], Named(s, m, Me(a)).(word := Taken(s.word, m));
    t := Lock(u, s, a, m);
    Unlocks(u, held, a, HeldNode(nd, a, m), nd.word, m);
    t := At(Named(held, m, Nobody).(word := Returned(held.word, m)), a,
            Unlocked(HeldNode(nd, a, m), nd.word, m, NoToken), Idle);
  }

  /** Lock, then unlock with delay: the shared word still has the unit out, and the token has it. */
  lemma LockThenPark(u: Usage, s: Sys, a: Agent, m: Mode) returns (t: Sys)
    requires Reachable(u, s) && Ready(u, s, a, m) && s.nodes[a.node].token == NoToken && u.delay && s.reserve == Nobody
    requires Open(s.word, m) && (m != S ==> OwnerOf(s, m) != Me(a))
    ensures Reachable(u, t) && t.word == Taken(s.word, m) && t.reserve == Me(a) && |t.nodes| == |s.nodes|
    ensures t.nodes[a.node] == s.nodes[a.node].(token := Parked(m), gstate := GIdle)
    ensures t.pc == s.pc[a := Idle]
  {
    hide Reachable, Locked;
    var nd, held := s.nodes[a.node], Named(s, m, Me(a)).(word := Taken(s.word, m));
    t := Lock(u, s, a, m);
    Parks(u, held, a, HeldNode(nd, a, m), nd.word, m);
    t := At(held.(reserve := Me(a)), a, Unlocked(HeldNode(nd, a, m), nd.word, m, Parked(m)), Idle);
  }

  /** Any thread of the node that then locks in the same mode has the unit, and the shared word never moved. */
  lemma LockAfterPark(u: Usage, s: Sys, a: Agent, m: Mode) returns (t: Sys)
    requires Reachable(u, s) && Ready(u, s, a, m) && s.nodes[a.node].token == Parked(m)
    ensures Reachable(u, t)
    ensures t == At(Named(s, m, Me(a)).(reserve := Nobody), a, HeldNode(s.nodes[a.node], a, m), Holding(m))
  {
    hide Reachable, Locked;
    var nd := s.nodes[a.node];
    Arrives(u, s, a, m);
    Inherits(u, s, a, if m == S then nd.(word := Locked(nd.word, a, S), gstate := GPending)
                      else nd.(word := Locked(nd.word, a, m)), m);
    t := At(Named(s, m, Me(a)).(reserve := Nobody), a, HeldNode(nd, a, m), Holding(m));
  }

  /** One that locks in another mode gives the parked unit back and contends for its own. */
  lemma LockDropsParked(u: Usage, s: Sys, a: Agent, m: Mode, k: Mode) returns (t: Sys)
    requires Reachable(u, s) && Ready(u, s, a, m) && s.nodes[a.node].token == Parked(k) && k != m
    ensures Reachable(u, t) && t.word == Returned(s.word, k) && t.reserve == Nobody && |t.nodes| == |s.nodes|
    ensures t.nodes[a.node].token == NoToken && PcOf(t, a) == if m == S then Contend(S) else CheckOwner(m)
    ensures (k == X ==> t.ownerX == Nobody) && (k == SX ==> t.ownerSX == Nobody)
  {
    hide Reachable, Locked;
    var nd := s.nodes[a.node];
    Arrives(u, s, a, m);
    var l := if m == S then nd.(word := Locked(nd.word, a, S), gstate := GPending)
             else nd.(word := Locked(nd.word, a, m));
    Drops(u, s, a, l, m, k);
    t := At(Named(s, k, Nobody).(word := Returned(s.word, k), reserve := Nobody), a, l.(token := NoToken),
            if m == S then Contend(S) else CheckOwner(m));
  }

  /** A release message to a node with an idle local lock gives its parked unit back. */
  lemma MessageFrees(u: Usage, s: Sys, a: Agent, k: Mode) returns (t: Sys)
    requires Reachable(u, s) && a.node < |s.nodes| && PcOf(s, a) == Idle && !s.nodes[a.node].releasing
    requires s.nodes[a.node].word == IDLE_WORD && s.nodes[a.node].token == Parked(k)
    ensures Reachable(u, t)
    ensures t == At(Named(s, k, Nobody).(word := Returned(s.word, k), reserve := Nobody), a,
                    s.nodes[a.node].(token := NoToken), Idle)
  {
    hide Reachable, EnterStep, ClaimStep, ContendStep, UnlockSharedStep, UnlockExclusiveStep, GiveBackStep, LeaveStep;
    var busy := s.nodes[a.node].(releasing := true);
    var empty, b := busy.(token := NoToken), Named(s, k, Nobody).(word := Returned(s.word, k), reserve := Nobody);
    MessageArrives(u, s, a);
    MessageDrops(u, s, a, busy, k);
    GivesBack(u, s, a, empty, k, ForMessage);
    AtAgain(b, a, empty, HEnd, empty.(releasing := false), Idle);
    Stay(u, b, a, empty, HEnd, empty.(releasing := false), Idle);
    t := At(b, a, empty.(releasing := false), Idle);
  }

  lemma MessageDrops(u: Usage, b: Sys, a: Agent, nd: Node, k: Mode)
    requires a.node < |b.nodes| && Reachable(u, At(b, a, nd, HTake)) && nd.token == Parked(k) && nd.word == IDLE_WORD
    ensures Reachable(u, At(b, a, nd.(token := NoToken), DropReserve(k, ForMessage)))
  {
    hide Reachable, EnterStep, ClaimStep, ContendStep, UnlockSharedStep, UnlockExclusiveStep, GiveBackStep, LeaveStep;
    var empty := nd.(token := NoToken);
    AtAgain(b, a, nd, HTake, empty, HHeld(k));
    Stay(u, b, a, nd, HTake, empty, HHeld(k));
    AtAgain(b, a, empty, HHeld(k), empty, DropReserve(k, ForMessage));
    Stay(u, b, a, empty, HHeld(k), empty, DropReserve(k, ForMessage));
  }

  lemma MessageArrives(u: Usage, s: Sys, a: Agent)
    requires Reachable(u, s) && a.node < |s.nodes| && PcOf(s, a) == Idle && !s.nodes[a.node].releasing
    ensures Reachable(u, At(s, a, s.nodes[a.node].(releasing := true), HTake))
  {
    hide Reachable, ClaimStep, TokenStep, ContendStep, UnlockSharedStep, UnlockExclusiveStep, GiveBackStep, LeaveStep;
    var t := At(s, a, s.nodes[a.node].(releasing := true), HTake);
    assert EnterStep(u, s, t, a);
    Hop(u, s, t, a);
  }

  /** Park, then a release message: the unit is back, and nobody is named or reserved. */
  lemma ParkThenMessage(u: Usage, s: Sys, a: Agent, c: Agent, m: Mode) returns (t: Sys)
    requires Reachable(u, s) && Ready(u, s, a, m) && s.nodes[a.node].token == NoToken && u.delay && s.reserve == Nobody
    requires Open(s.word, m) && (m != S ==> OwnerOf(s, m) != Me(a)) && s.nodes[a.node].word == IDLE_WORD
    requires c.node == a.node && PcOf(s, c) == Idle && !s.nodes[a.node].releasing
    ensures Reachable(u, t) && t.word == s.word && t.reserve == Nobody && |t.nodes| == |s.nodes|
    ensures t.nodes[a.node] == s.nodes[a.node].(gstate := GIdle)
  {
    hide Reachable, Locked;
    var parked := LockThenPark(u, s, a, m);
    t := MessageFrees(u, parked, c, m);
  }

  /** An SX unlock beside readers may return before its local unlock: the node's SX flag stays set. */
  lemma UpgraderReturnsEarly(u: Usage, s: Sys, a: Agent) returns (t: Sys)
    requires Reachable(u, s) && Ready(u, s, a, SX) && s.nodes[a.node].token == NoToken
    requires Open(s.word, SX) && s.word != FREE && OwnerOf(s, SX) != Me(a)
    ensures Reachable(u, t) && PcOf(t, a) == Idle && t.word == s.word && t.ownerSX == Nobody
    ensures |t.nodes| == |s.nodes| && t.nodes[a.node].word.l0.flag
    ensures forall c: Agent :: c.node == a.node ==>
      !Vacant(t.nodes[a.node].word, c, SX) && !Vacant(t.nodes[a.node].word, c, X)
  {
    hide Reachable, EnterStep, ClaimStep, TokenStep, ContendStep, UnlockSharedStep, UnlockExclusiveStep, LeaveStep;
    var nd, b := HeldNode(s.nodes[a.node], a, SX), Named(s, SX, Me(a)).(word := Taken(s.word, SX));
    t := Lock(u, s, a, SX);
    StartsUnlock(u, b, a, nd, s.nodes[a.node].word, SX);
    ReturnsEarly(u, b, a, nd);
    t := At(Named(b, SX, Nobody).(word := s.word), a, nd, Idle);
  }

  lemma ReturnsEarly(u: Usage, b: Sys, a: Agent, nd: Node)
    requires a.node < |b.nodes| && Reachable(u, At(b, a, nd, ClearToken(SX))) && nd.token == NoToken
    requires b.word + 32768 != FREE
    ensures Reachable(u, At(Named(b, SX, Nobody).(word := b.word + 32768), a, nd, Idle))
  {
    hide Reachable, EnterStep, ClaimStep, TokenStep, ContendStep, UnlockSharedStep, UnlockExclusiveStep, LeaveStep;
    var b2 := Named(b, SX, Nobody);
    Clears(u, b, a, nd, SX);
    AtAgain(b2, a, nd, PutWord(SX), nd, Idle);
    Move(u, b2, a, nd, PutWord(SX), b2.(word := b.word + 32768), Idle);
  }

  /**
  In any state, exclusion broken or not: an SX or X unlock that gives its unit
  back at once is the one the owner word names, and any other is refused or
  parks its unit with the reservation free.
  */
  lemma UnlocksByName(u: Usage, s: Sys, t: Sys, a: Agent, m: Mode)
    requires AgentStep(u, s, t, a) && PcOf(s, a) == Holding(m) && m != S
    ensures PcOf(t, a) == ClearToken(m) ==> (if m == X then s.ownerX else s.ownerSX) == By(a.node, a.tid)
    ensures PcOf(t, a) == Park(m) ==> u.delay && s.reserve == Nobody && t.reserve == By(a.node, a.tid)
    ensures PcOf(t, a) in {ClearToken(m), Park(m), Refused(m)} && t.word == s.word && t.nodes == s.nodes
  {
    hide EnterStep, ClaimStep, TokenStep, ContendStep, GiveBackStep, LeaveStep;
    OtherSteps(u, s, t, a);
  }

  lemma OtherSteps(u: Usage, s: Sys, t: Sys, a: Agent)
    requires AgentStep(u, s, t, a) && PcOf(s, a).Holding?
    ensures UnlockSharedStep(u, s, t, a) || UnlockExclusiveStep(u, s, t, a)
  {
    hide UnlockSharedStep, UnlockExclusiveStep;
  }

  /** In any state: an S unlock goes on with the word at FREE or below; one that overshot takes its unit back. */
  lemma SharedUnlockBounded(u: Usage, s: Sys, t: Sys, a: Agent)
    requires AgentStep(u, s, t, a) && (PcOf(s, a) == PutWord(S) || PcOf(s, a) == SOver)
    ensures PcOf(s, a) == PutWord(S) ==> t.word == s.word + 1 && (t.word <= 65536 <==> PcOf(t, a) == After(S))
    ensures PcOf(s, a) == SOver ==> t.word == s.word - 1 && PcOf(t, a) == Refused(S)
    ensures PcOf(t, a) in {After(S), SOver, Refused(S)}
  {
  }

  /** A reader joins on the second sight of GLOBAL_HELD only, and never past the largest count. */
  lemma JoinsOnSecondSight(u: Usage, s: Sys, t: Sys, a: Agent)
    requires AgentStep(u, s, t, a) && PcOf(t, a).SCas? && t != s
    ensures PcOf(s, a) == SRef(PcOf(t, a).ref) && s.nodes[a.node].gstate == GHeld && PcOf(t, a).ref < 0x7FFF_FFFF
  {
    hide EnterStep, TokenStep, ContendStep, GiveBackStep;
    if EnterStep(u, s, t, a) { assert false by { EnterSkips(u, s, t, a); } }
    if TokenStep(s, t, a) { assert false by { TokenSkips(s, t, a); } }
    if ContendStep(u, s, t, a) { assert false by { ContendSkips(u, s, t, a); } }
    if GiveBackStep(s, t, a) { assert false by { GiveBackSkips(s, t, a); } }
  }

  lemma EnterSkips(u: Usage, s: Sys, t: Sys, a: Agent)
    requires a.node < |s.nodes| && EnterStep(u, s, t, a)
    ensures !PcOf(t, a).SCas?
  {
  }

  lemma TokenSkips(s: Sys, t: Sys, a: Agent)
    requires a.node < |s.nodes| && TokenStep(s, t, a)
    ensures !PcOf(t, a).SCas?
  {
  }

  lemma ContendSkips(u: Usage, s: Sys, t: Sys, a: Agent)
    requires a.node < |s.nodes| && ContendStep(u, s, t, a)
    ensures !PcOf(t, a).SCas?
  {
  }

  lemma GiveBackSkips(s: Sys, t: Sys, a: Agent)
    requires a.node < |s.nodes| && GiveBackStep(s, t, a)
    ensures !PcOf(t, a).SCas?
  {
  }
}
