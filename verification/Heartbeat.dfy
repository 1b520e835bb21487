/**
The heartbeat monitor: a peer bumps a counter from time to time, the monitor
looks at it from time to time and decides whether the peer is alive. Times are
microseconds of the monitor's steady clock.
*/
module Heartbeat {

  const DEFAULT_INTERVAL_MS := 100
  const US_PER_MS := 1000

  /** What the monitor keeps of one peer: last counter value, when it was first seen, the verdict. */
  datatype Peer = Peer(value: nat, seen: nat, alive: bool)

  const UNKNOWN := Peer(0, 0, false)

  function Max(a: nat, b: nat): nat { if a < b then b else a }

  /** A peer's bump interval in microseconds; one that declares none has the default. */
  function Declared(remoteMs: nat): nat {
    (if remoteMs == 0 then DEFAULT_INTERVAL_MS else remoteMs) * US_PER_MS
  }

  /** effective_timeout_us: the least that covers the local timeout, three bump intervals and two looks. */
  function Effective(localUs: nat, remoteMs: nat, checkUs: nat): (e: nat)
    ensures e >= localUs && e >= 3 * Declared(remoteMs) && e >= 2 * checkUs
    ensures e == localUs || e == 3 * Declared(remoteMs) || e == 2 * checkUs
  {
    Max(localUs, Max(Declared(remoteMs) * 3, checkUs * 2))
  }

  /** One look at one peer. */
  function Observe(p: Peer, now: nat, beat: nat, timeout: nat): Peer {
    if beat != 0 && beat != p.value then Peer(beat, now, true)
    else p.(alive := p.seen != 0 && now >= p.seen && now - p.seen <= timeout)
  }

  // ---- one pass over all peers ----------------------------------------------------------

  datatype Board = Board(node: nat, initialized: bool, beat: nat, intervalMs: nat)

  function PeerOf(peers: map<nat, Peer>, n: nat): Peer { if n in peers then peers[n] else UNKNOWN }

  class Monitor {
    const self: nat
    var peers: map<nat, Peer>
    var localUs: nat
    var checkUs: nat

    constructor (self: nat, localUs: nat, checkUs: nat)
      ensures this.self == self && peers == map[] && this.localUs == localUs && this.checkUs == checkUs
    {
      this.self, peers, this.localUs, this.checkUs := self, map[], localUs, checkUs;
    }

    predicate Watches(b: Board, limit: nat) { b.node != self && b.node < limit && b.initialized }

    /** A watched peer's next state, by its own timeout. */
    function Looked(p: Peer, now: nat, b: Board): Peer
      reads this
    {
      Observe(p, now, b.beat, Effective(localUs, b.intervalMs, checkUs))
    }

    /** The body of the monitor's loop: every initialised peer is looked at once, the others not at all. */
    method Pass(now: nat, boards: seq<Board>, limit: nat)
      requires forall i, j :: 0 <= i < j < |boards| ==> boards[i].node != boards[j].node
      modifies `peers
      ensures forall i :: 0 <= i < |boards| && Watches(boards[i], limit) ==>
        PeerOf(peers, boards[i].node) == Looked(PeerOf(old(peers), boards[i].node), now, boards[i])
      ensures forall n :: (forall i :: 0 <= i < |boards| && boards[i].node == n ==> !Watches(boards[i], limit)) ==>
        PeerOf(peers, n) == PeerOf(old(peers), n)
    {
      hide Observe, Effective;
      var k := 0;
      while k < |boards|
        invariant 0 <= k <= |boards|
        invariant forall i :: 0 <= i < k && Watches(boards[i], limit) ==>
          PeerOf(peers, boards[i].node) == Looked(PeerOf(old(peers), boards[i].node), now, boards[i])
        invariant forall n :: (forall i :: 0 <= i < k && boards[i].node == n ==> !Watches(boards[i], limit)) ==>
          PeerOf(peers, n) == PeerOf(old(peers), n)
      {
        var b := boards[k];
        if b.node != self && b.node < limit && b.initialized {
          assert PeerOf(peers, b.node) == PeerOf(old(peers), b.node);
          ghost var before := peers;
          peers := peers[b.node := Looked(PeerOf(peers, b.node), now, b)];
          assert forall n :: n != b.node ==> PeerOf(peers, n) == PeerOf(before, n);
        }
        k := k + 1;
      }
    }
  }

  // ---- timed runs ------------------------------------------------------------------------

  datatype Look = Look(now: nat, beat: nat)

  /** How often the peer has bumped its counter by a given time. */
  function Beats(bumps: seq<nat>, now: nat): nat {
    if bumps == [] then 0
    else if bumps[|bumps| - 1] <= now then |bumps|
    else Beats(bumps[..|bumps| - 1], now)
  }

  predicate Rising(times: seq<nat>) { forall i, j :: 0 <= i < j < |times| ==> times[i] <= times[j] }

  /** The looks follow the clock, and each reads the counter as it stands. */
  predicate Timed(bumps: seq<nat>, looks: seq<Look>) {
    && Rising(bumps)
    && (forall i :: 0 <= i < |looks| ==> 0 < looks[i].now && looks[i].beat == Beats(bumps, looks[i].now))
    && (forall i, j :: 0 <= i < j < |looks| ==> looks[i].now <= looks[j].now)
  }

  /** The monitor's view after the first n looks. */
  function View(looks: seq<Look>, timeout: nat, n: nat): Peer
    requires n <= |looks|
  {
    if n == 0 then UNKNOWN else Observe(View(looks, timeout, n - 1), looks[n - 1].now, looks[n - 1].beat, timeout)
  }

  lemma {:induction false} BeatsMeans(bumps: seq<nat>, now: nat)
    requires Rising(bumps)
    ensures Beats(bumps, now) <= |bumps|
    ensures forall k :: 0 <= k < |bumps| ==> (k < Beats(bumps, now) <==> bumps[k] <= now)
    decreases |bumps|
  {
    if bumps != [] && bumps[|bumps| - 1] > now {
      BeatsMeans(bumps[..|bumps| - 1], now);
    }
  }

  lemma BeatsGrow(bumps: seq<nat>, early: nat, late: nat)
    requires Rising(bumps) && early <= late
    ensures Beats(bumps, early) <= Beats(bumps, late)
  {
    BeatsMeans(bumps, early);
    BeatsMeans(bumps, late);
    var k := Beats(bumps, early);
    assert k > 0 ==> bumps[k - 1] <= late;
  }

  /** The remembered value is the one last read, and was first read no earlier than it was written. */
  lemma {:induction false} ViewMeans(bumps: seq<nat>, looks: seq<Look>, timeout: nat, n: nat)
    requires Timed(bumps, looks) && 0 < n <= |looks|
    ensures View(looks, timeout, n).value == looks[n - 1].beat
    ensures var p := View(looks, timeout, n);
      p.value > 0 ==> p.value <= |bumps| && bumps[p.value - 1] <= p.seen <= looks[n - 1].now && p.seen > 0
  {
    BeatsMeans(bumps, looks[n - 1].now);
    if n > 1 {
      ViewMeans(bumps, looks, timeout, n - 1);
      BeatsGrow(bumps, looks[n - 2].now, looks[n - 1].now);
    }
  }

  /** A peer whose counter has not moved was never alive. */
  lemma {:induction false} UnseenDead(bumps: seq<nat>, looks: seq<Look>, timeout: nat, n: nat)
    requires Timed(bumps, looks) && n <= |looks| && (n > 0 ==> Beats(bumps, looks[n - 1].now) == 0)
    ensures View(looks, timeout, n) == UNKNOWN
  {
    if n > 1 { BeatsGrow(bumps, looks[n - 2].now, looks[n - 1].now); }
    if n > 0 { UnseenDead(bumps, looks, timeout, n - 1); }
  }

  /** The remembered time is that of the first look that read the present value. */
  lemma {:induction false} SeenFirst(bumps: seq<nat>, looks: seq<Look>, timeout: nat, f: nat, n: nat)
    requires Timed(bumps, looks) && f < n <= |looks| && looks[f].beat == looks[n - 1].beat > 0
    requires forall g :: 0 <= g < f ==> looks[g].beat != looks[f].beat
    ensures View(looks, timeout, n).value == looks[f].beat && View(looks, timeout, n).seen == looks[f].now
    decreases n
  {
    if n == f + 1 {
      if f > 0 { ViewMeans(bumps, looks, timeout, f); }
    } else {
      BeatsGrow(bumps, looks[f].now, looks[n - 2].now);
      BeatsGrow(bumps, looks[n - 2].now, looks[n - 1].now);
      SeenFirst(bumps, looks, timeout, f, n - 1);
    }
  }

  /**
  Over every timed run the verdict is exact: a peer is alive if and only if it
  has bumped its counter and its present value was first read no longer ago
  than the timeout.
  */
  lemma AliveExactly(bumps: seq<nat>, looks: seq<Look>, timeout: nat, f: nat, n: nat)
    requires Timed(bumps, looks) && f < n <= |looks| && looks[f].beat == looks[n - 1].beat
    requires forall g :: 0 <= g < f ==> looks[g].beat != looks[f].beat
    ensures View(looks, timeout, n).alive <==>
      Beats(bumps, looks[n - 1].now) > 0 && looks[n - 1].now - looks[f].now <= timeout
  {
    if looks[n - 1].beat == 0 {
      UnseenDead(bumps, looks, timeout, n);
    } else {
      SeenFirst(bumps, looks, timeout, f, n);
      if n > f + 1 {
        BeatsGrow(bumps, looks[f].now, looks[n - 2].now);
        BeatsGrow(bumps, looks[n - 2].now, looks[n - 1].now);
        SeenFirst(bumps, looks, timeout, f, n - 1);
      } else if f > 0 {
        ViewMeans(bumps, looks, timeout, f);
      }
    }
  }

  /**
  A peer that has been seen is marked dead only after a silence longer than the
  effective timeout: its last bump is that far back.
  */
  lemma DeadMeansSilent(bumps: seq<nat>, looks: seq<Look>, timeout: nat, n: nat)
    requires Timed(bumps, looks) && 0 < n <= |looks| && looks[n - 1].beat > 0
    ensures looks[n - 1].beat <= |bumps|
    ensures !View(looks, timeout, n).alive ==> looks[n - 1].now - bumps[looks[n - 1].beat - 1] > timeout
  {
    ViewMeans(bumps, looks, timeout, n);
    if n > 1 { ViewMeans(bumps, looks, timeout, n - 1); }
  }

  /** Bumps follow one another within a gap, and still do at a given time. */
  predicate Punctual(bumps: seq<nat>, gap: nat, now: nat) {
    && (forall k :: 0 < k < |bumps| ==> bumps[k] - bumps[k - 1] <= gap)
    && (bumps != [] ==> now <= bumps[|bumps| - 1] + gap)
  }

  /** So bumps at most three declared intervals apart never lose a peer, whatever the local settings. */
  lemma PunctualNeverDead(bumps: seq<nat>, looks: seq<Look>, localUs: nat, remoteMs: nat, checkUs: nat, n: nat)
    requires Timed(bumps, looks) && 0 < n <= |looks| && looks[n - 1].beat > 0
    requires Punctual(bumps, 3 * Declared(remoteMs), looks[n - 1].now)
    ensures View(looks, Effective(localUs, remoteMs, checkUs), n).alive
  {
    var now, k := looks[n - 1].now, looks[n - 1].beat;
    DeadMeansSilent(bumps, looks, Effective(localUs, remoteMs, checkUs), n);
    BeatsMeans(bumps, now);
    hide View, Effective, Declared;
    assert k < |bumps| ==> now < bumps[k] <= bumps[k - 1] + 3 * Declared(remoteMs);
  }

  // ---- any counter ----------------------------------------------------------------------------

  /** The last value read that was not zero. */
  function LastRead(looks: seq<Look>, n: nat): nat
    requires n <= |looks|
  {
    if n == 0 then 0 else if looks[n - 1].beat != 0 then looks[n - 1].beat else LastRead(looks, n - 1)
  }

  /** A look that reads something new; a counter that went back to zero is not. */
  predicate Moved(looks: seq<Look>, f: nat)
    requires f < |looks|
  {
    looks[f].beat != 0 && looks[f].beat != LastRead(looks, f)
  }

  /** The looks follow the clock; the counter may do anything, a restarted peer's included. */
  predicate Clocked(looks: seq<Look>) {
    && (forall i :: 0 <= i < |looks| ==> 0 < looks[i].now)
    && (forall i, j :: 0 <= i < j < |looks| ==> looks[i].now <= looks[j].now)
  }

  /** What is remembered: the last value read, and the last time it moved. */
  lemma {:induction false} Remembered(looks: seq<Look>, timeout: nat, n: nat)
    requires Clocked(looks) && n <= |looks|
    ensures View(looks, timeout, n).value == LastRead(looks, n)
    ensures LastMoved(looks, n, View(looks, timeout, n).seen)
  {
    if n > 0 {
      Remembered(looks, timeout, n - 1);
      RemembersNext(looks, timeout, n - 1);
      var before, after := View(looks, timeout, n - 1).seen, View(looks, timeout, n).seen;
      hide View, LastRead, Moved;
      LastMovedNext(looks, n - 1, before, after);
    }
  }

  /** The time of the last look, of the first n, that read something new; zero when there is none. */
  predicate LastMoved(looks: seq<Look>, n: nat, seen: nat)
    requires n <= |looks|
  {
    && (seen != 0 ==> exists f :: 0 <= f < n && Moved(looks, f) && looks[f].now == seen)
    && (forall f :: 0 <= f < n && Moved(looks, f) ==> looks[f].now <= seen)
  }

  lemma LastMovedNext(looks: seq<Look>, n: nat, before: nat, after: nat)
    requires Clocked(looks) && n < |looks| && LastMoved(looks, n, before)
    requires after == if Moved(looks, n) then looks[n].now else before
    ensures LastMoved(looks, n + 1, after)
  {
    hide Moved;
    if !Moved(looks, n) && before != 0 {
      var f :| 0 <= f < n && Moved(looks, f) && looks[f].now == before;
      assert 0 <= f < n + 1;
    }
  }

  /** One look more: what is remembered changes exactly when the counter moved. */
  lemma RemembersNext(looks: seq<Look>, timeout: nat, n: nat)
    requires n < |looks| && View(looks, timeout, n).value == LastRead(looks, n)
    ensures View(looks, timeout, n + 1).value == LastRead(looks, n + 1)
    ensures View(looks, timeout, n + 1).seen ==
      if Moved(looks, n) then looks[n].now else View(looks, timeout, n).seen
  {
  }

  /**
  For every counter, restarts and wrap-arounds included: a peer is alive if and
  only if the counter was seen to move, and not back to zero, within the timeout.
  */
  lemma AliveMeansMoved(looks: seq<Look>, timeout: nat, n: nat)
    requires Clocked(looks) && 0 < n <= |looks|
    ensures View(looks, timeout, n).alive <==>
      exists f :: 0 <= f < n && Moved(looks, f) && looks[n - 1].now - looks[f].now <= timeout
  {
    Remembered(looks, timeout, n);
    Remembered(looks, timeout, n - 1);
    var p, now := View(looks, timeout, n), looks[n - 1].now;
    assert p.alive <==> p.seen != 0 && now - p.seen <= timeout;
    if p.seen != 0 {
      var f :| 0 <= f < n && Moved(looks, f) && looks[f].now == p.seen;
      assert now - p.seen <= timeout ==> now - looks[f].now <= timeout;
    }
  }

  // ---- detection ---------------------------------------------------------------------------

  /** The monitor looks at least once every interval. */
  predicate Regular(looks: seq<Look>, interval: nat) {
    forall i :: 0 < i < |looks| ==> looks[i].now - looks[i - 1].now <= interval
  }

  /** The first look at or after a time comes within one interval of it. */
  lemma FirstLook(bumps: seq<nat>, looks: seq<Look>, interval: nat, time: nat) returns (f: nat)
    requires Timed(bumps, looks) && Regular(looks, interval)
    requires looks != [] && looks[0].now <= time + interval && looks[|looks| - 1].now >= time
    ensures f < |looks| && time <= looks[f].now <= time + interval
    ensures f > 0 ==> looks[f].now < time + interval
    ensures forall i :: 0 <= i < f ==> looks[i].now < time
  {
    f := 0;
    while looks[f].now < time
      invariant f < |looks| && (f == 0 || looks[f - 1].now < time)
      invariant forall i :: 0 <= i < f ==> looks[i].now < time
      decreases |looks| - f
    {
      f := f + 1;
    }
  }

  /** After the peer's last bump the remembered value and its time no longer change. */
  lemma {:induction false} SeenFixed(bumps: seq<nat>, looks: seq<Look>, timeout: nat, f: nat, n: nat)
    requires Timed(bumps, looks) && bumps != [] && f < n <= |looks| && looks[f].now >= bumps[|bumps| - 1]
    ensures View(looks, timeout, n).value == |bumps| && View(looks, timeout, n).seen <= looks[f].now
  {
    ViewMeans(bumps, looks, timeout, n);
    BeatsMeans(bumps, looks[n - 1].now);
    assert looks[n - 1].beat == |bumps|;
    if n > f + 1 { SeenFixed(bumps, looks, timeout, f, n - 1); }
  }

  lemma Overdue(bumps: seq<nat>, looks: seq<Look>, timeout: nat, f: nat, n: nat)
    requires Timed(bumps, looks) && bumps != [] && f + 1 < n <= |looks| && looks[f].now >= bumps[|bumps| - 1]
    requires looks[n - 1].now > looks[f].now + timeout
    ensures !View(looks, timeout, n).alive
  {
    SeenFixed(bumps, looks, timeout, f, n - 1);
    SeenFixed(bumps, looks, timeout, f, n);
    BeatsMeans(bumps, looks[n - 1].now);
  }

  /**
  A peer that stops is marked dead within the timeout and two check intervals
  of its last bump, and stays dead.
  */
  lemma StoppedIsFound(bumps: seq<nat>, looks: seq<Look>, timeout: nat, interval: nat) returns (j: nat)
    requires Timed(bumps, looks) && Regular(looks, interval) && bumps != [] && interval > 0
    requires var last := bumps[|bumps| - 1];
      looks != [] && looks[0].now <= last + interval && looks[|looks| - 1].now >= last + timeout + 2 * interval
    ensures 0 < j <= |looks| && looks[j - 1].now <= bumps[|bumps| - 1] + timeout + 2 * interval
    ensures forall n :: j <= n <= |looks| ==> !View(looks, timeout, n).alive
  {
    var last := bumps[|bumps| - 1];
    var f := FirstLook(bumps, looks, interval, last);
    var g := FirstLook(bumps, looks, interval, looks[f].now + timeout + 1);
    j := g + 1;
    forall n | j <= n <= |looks| ensures !View(looks, timeout, n).alive {
      Overdue(bumps, looks, timeout, f, n);
    }
  }
}
