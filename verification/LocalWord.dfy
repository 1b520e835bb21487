/**
The node-local lock word: four 16-bit lanes inside one 64-bit word.

Each lane holds a 14-bit reader count, a sentinel bit that only an exclusive
holder sets, and a flag bit: the flag of lane 0 is SX, the flag of lane 1 is X.
S and SX are taken and released by lane-wide operations, X by whole-word ones.
*/
module LocalWord {

  const LANES := 4
  const MAX_COUNT := 0x3FFF     // LOCAL_LOCK_READER_COUNT_MASK
  const SENTINEL := 0x4000
  const FLAG := 0x8000
  const LANE_SIZE := 0x10000

  /** One outstanding lock call: a thread of a node may have several at once. */
  datatype Agent = Agent(node: nat, tid: int, call: nat)

  type Count = c: nat | c <= MAX_COUNT

  datatype Lane = Lane(count: Count, sentinel: bool, flag: bool)

  datatype Word = Word(l0: Lane, l1: Lane, l2: Lane, l3: Lane) {
    function At(i: nat): Lane
      requires i < LANES
    {
      if i == 0 then l0 else if i == 1 then l1 else if i == 2 then l2 else l3
    }

    function Put(i: nat, v: Lane): (w: Word)
      requires i < LANES
      ensures forall j: nat :: j < LANES ==> w.At(j) == if j == i then v else At(j)
    {
      if i == 0 then this.(l0 := v) else if i == 1 then this.(l1 := v)
      else if i == 2 then this.(l2 := v) else this.(l3 := v)
    }
  }

  /** local_lock_lane_for_tid: the two low bits of the thread id. */
  function LaneOf(a: Agent): nat { a.tid % LANES }

  const EMPTY_LANE := Lane(0, false, false)
  const IDLE_WORD := Word(EMPTY_LANE, EMPTY_LANE, EMPTY_LANE, EMPTY_LANE)

  /** LOCAL_LOCK_X_STATE: the X flag on lane 1 and a sentinel on every lane. */
  const X_WORD := Word(Lane(0, true, false), Lane(0, true, true), Lane(0, true, false), Lane(0, true, false))

  // ---- the numbers the code computes with --------------------------------

  function LaneNumber(v: Lane): nat {
    v.count + (if v.sentinel then SENTINEL else 0) + (if v.flag then FLAG else 0)
  }

  /** The code's mask tests on a 16-bit lane value. */
  function LaneFrom(n: nat): Lane
  {
    Lane(n % SENTINEL, n / SENTINEL % 2 == 1, n / FLAG % 2 == 1)
  }

  /** The masks see each field of the lane and nothing else. */
  lemma LaneRoundTrip(v: Lane)
    ensures LaneNumber(v) < LANE_SIZE
    ensures LaneFrom(LaneNumber(v)) == v
  {
  }

  function WordNumber(w: Word): nat {
    LaneNumber(w.l0) + LANE_SIZE * (LaneNumber(w.l1) + LANE_SIZE * (LaneNumber(w.l2) + LANE_SIZE * LaneNumber(w.l3)))
  }

  /** local_lock_lane_value: shift right by 16 bits per lane, keep 16 bits. */
  function LaneValue(state: nat, lane: nat): nat
  {
    if lane == 0 then state % LANE_SIZE else LaneValue(state / LANE_SIZE, lane - 1)
  }

  lemma SplitLow(v: nat, rest: nat)
    requires v < LANE_SIZE
    ensures (v + LANE_SIZE * rest) % LANE_SIZE == v
    ensures (v + LANE_SIZE * rest) / LANE_SIZE == rest
  {
  }

  lemma PieceOf(v0: nat, v1: nat, v2: nat, v3: nat)
    requires v0 < LANE_SIZE && v1 < LANE_SIZE && v2 < LANE_SIZE && v3 < LANE_SIZE
    ensures var n := v0 + LANE_SIZE * (v1 + LANE_SIZE * (v2 + LANE_SIZE * v3));
            LaneValue(n, 0) == v0 && LaneValue(n, 1) == v1 && LaneValue(n, 2) == v2 && LaneValue(n, 3) == v3
  {
    var r2 := v2 + LANE_SIZE * v3;
    var r1 := v1 + LANE_SIZE * r2;
    var n := v0 + LANE_SIZE * r1;
    SplitLow(v0, r1);
    SplitLow(v1, r2);
    SplitLow(v2, v3);
    assert LaneValue(n, 1) == LaneValue(r1, 0);
    assert LaneValue(n, 2) == LaneValue(r1, 1) == LaneValue(r2, 0);
    assert LaneValue(n, 3) == LaneValue(r1, 2) == LaneValue(r2, 1) == LaneValue(v3, 0);
  }

  /** Reading a lane out of the 64-bit number and decoding it gives that lane, for every word. */
  lemma LaneOfNumber(w: Word, lane: nat)
    requires lane < LANES
    ensures LaneFrom(LaneValue(WordNumber(w), lane)) == w.At(lane)
  {
    hide LaneFrom;
    hide LaneValue;
    LaneRoundTrip(w.l0);
    LaneRoundTrip(w.l1);
    LaneRoundTrip(w.l2);
    LaneRoundTrip(w.l3);
    PieceOf(LaneNumber(w.l0), LaneNumber(w.l1), LaneNumber(w.l2), LaneNumber(w.l3));
  }

  /** The 64-bit number determines the word: a whole-word CAS compares every lane. */
  lemma NumberInjective(v: Word, w: Word)
    requires WordNumber(v) == WordNumber(w)
    ensures v == w
  {
    forall i: nat | i < LANES ensures v.At(i) == w.At(i) {
      LaneOfNumber(v, i);
      LaneOfNumber(w, i);
    }
    assert v.At(0) == w.At(0) && v.At(1) == w.At(1) && v.At(2) == w.At(2) && v.At(3) == w.At(3);
  }

  // ---- the word against the set of holders ------------------------------

  function OnLane(agents: set<Agent>, lane: nat): set<Agent> {
    set a | a in agents && LaneOf(a) == lane
  }

  /**
  The word says exactly who holds: either the X state with one X holder and
  nobody else, or no sentinel anywhere, lane counts equal to the readers of
  the lane, and the SX flag exactly when there is the one SX holder.
  */
  ghost predicate Agrees(w: Word, readers: set<Agent>, sx: set<Agent>, x: set<Agent>) {
    if x != {} then
      |x| == 1 && readers == {} && sx == {} && w == X_WORD
    else
      && (forall i: nat :: i < LANES ==> !w.At(i).sentinel && w.At(i).count == |OnLane(readers, i)|)
      && !w.l1.flag && !w.l2.flag && !w.l3.flag
      && w.l0.flag == (sx != {})
      && |sx| <= 1
  }

  lemma OnLaneInsert(agents: set<Agent>, a: Agent)
    requires a !in agents
    ensures forall i :: 0 <= i < LANES ==>
      |OnLane(agents + {a}, i)| == |OnLane(agents, i)| + (if i == LaneOf(a) then 1 else 0)
  {
    forall i | 0 <= i < LANES
      ensures |OnLane(agents + {a}, i)| == |OnLane(agents, i)| + (if i == LaneOf(a) then 1 else 0)
    {
      if i == LaneOf(a) {
        assert OnLane(agents + {a}, i) == OnLane(agents, i) + {a};
      } else {
        assert OnLane(agents + {a}, i) == OnLane(agents, i);
      }
    }
  }

  lemma OnLaneDelete(agents: set<Agent>, a: Agent)
    requires a in agents
    ensures forall i :: 0 <= i < LANES ==>
      |OnLane(agents - {a}, i)| == |OnLane(agents, i)| - (if i == LaneOf(a) then 1 else 0)
  {
    assert agents - {a} + {a} == agents;
    OnLaneInsert(agents - {a}, a);
  }

  lemma AgreesWhenEmpty()
    ensures Agrees(IDLE_WORD, {}, {}, {})
  {
    assert forall i :: OnLane({}, i) == {};
  }

  /** The lane that a successful S lane-CAS writes. */
  function OneMore(v: Lane): Lane
    requires v.count < MAX_COUNT
  {
    v.(count := v.count + 1)
  }

  function OneLess(v: Lane): Lane
    requires v.count > 0
  {
    v.(count := v.count - 1)
  }

  lemma SingleHolder(holders: set<Agent>, a: Agent, b: Agent)
    requires |holders| <= 1 && a in holders && b in holders
    ensures a == b
  {
    var rest := holders - {a};
    assert |rest| == 0;
    assert b == a || b in rest;
  }

  /** A successful S lane-CAS: whatever lane value passes the checks, nobody holds X. */
  lemma TakeShared(w: Word, readers: set<Agent>, sx: set<Agent>, x: set<Agent>, a: Agent)
    requires Agrees(w, readers, sx, x) && a !in readers
    requires !w.At(LaneOf(a)).sentinel && w.At(LaneOf(a)).count < MAX_COUNT
    ensures x == {}
    ensures Agrees(w.Put(LaneOf(a), OneMore(w.At(LaneOf(a)))), readers + {a}, sx, x)
  {
    OnLaneInsert(readers, a);
  }

  /** An S holder always finds its lane releasable, and the release is exact. */
  lemma DropShared(w: Word, readers: set<Agent>, sx: set<Agent>, x: set<Agent>, a: Agent)
    requires Agrees(w, readers, sx, x) && a in readers
    ensures !w.At(LaneOf(a)).sentinel && w.At(LaneOf(a)).count > 0
    ensures Agrees(w.Put(LaneOf(a), OneLess(w.At(LaneOf(a)))), readers - {a}, sx, x)
  {
    assert a in OnLane(readers, LaneOf(a));
    OnLaneDelete(readers, a);
  }

  lemma TakeUpgradable(w: Word, readers: set<Agent>, sx: set<Agent>, x: set<Agent>, a: Agent)
    requires Agrees(w, readers, sx, x)
    requires !w.l0.sentinel && !w.l0.flag
    ensures x == {} && sx == {}
    ensures Agrees(w.Put(0, w.l0.(flag := true)), readers, {a}, x)
  {
  }

  lemma DropUpgradable(w: Word, readers: set<Agent>, sx: set<Agent>, x: set<Agent>, a: Agent)
    requires Agrees(w, readers, sx, x) && a in sx
    ensures sx == {a} && w.l0.flag && x == {}
    ensures Agrees(w.Put(0, w.l0.(flag := false)), readers, {}, x)
  {
    assert |sx - {a}| == 0;
  }

  lemma TakeExclusive(w: Word, readers: set<Agent>, sx: set<Agent>, x: set<Agent>, a: Agent)
    requires Agrees(w, readers, sx, x) && w == IDLE_WORD
    ensures readers == {} && sx == {} && x == {}
    ensures Agrees(X_WORD, {}, {}, {a})
  {
    assert forall i: nat :: i < LANES ==> IDLE_WORD.At(i) == EMPTY_LANE;
    assert forall b :: b in readers ==> b in OnLane(readers, LaneOf(b));
  }

  lemma DropExclusive(w: Word, readers: set<Agent>, sx: set<Agent>, x: set<Agent>, a: Agent)
    requires Agrees(w, readers, sx, x) && a in x
    ensures x == {a} && readers == {} && sx == {} && w == X_WORD
    ensures Agrees(IDLE_WORD, {}, {}, {})
  {
    assert |x - {a}| == 0;
    AgreesWhenEmpty();
  }
}
