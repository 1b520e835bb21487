/**
The ring of waiters behind every lock: a fixed array, 32-bit head and tail
tickets that wrap around, and a state per slot. Each operation runs alone;
what is proved is that the ring is a first-in first-out line of live waiters.
*/
module WaitQueue {
  import opened Modular
  import opened LockTypes

  datatype State = Empty | Writing | Waiting | Notified | TimedOut

  datatype Slot = Slot(state: State, mode: LockMode, node: nat, tid: int)

  const BLANK := Slot(Empty, I, NO_NODE, 0)

  predicate Live(s: Slot) { s.state.Writing? || s.state.Waiting? || s.state.Notified? }

  /** The slot of a timed-out waiter: ring_queue_try_mark_timeout clears the payload. */
  function Expired(): Slot { BLANK.(state := TimedOut) }

  // ---- the ring as a sequence -----------------------------------------------------

  function Idx(head: nat, i: nat, cap: nat): (j: nat)
    requires cap > 0
    ensures j < cap
  {
    (head + i) % cap
  }

  /** Tickets keep their slot when they wrap around. */
  predicate Divisor(cap: nat)
    requires cap > 0
  {
    U32 % cap == 0
  }

  /** The slots holding tickets head, head+1, ..., head+n-1. */
  function View(a: seq<Slot>, head: nat, n: nat): (w: seq<Slot>)
    requires |a| > 0
    ensures |w| == n
    ensures forall i :: 0 <= i < n ==> w[i] == a[Idx(head, i, |a|)]
  {
    seq(n, i requires 0 <= i => a[Idx(head, i, |a|)])
  }

  predicate DeadOutside(a: seq<Slot>, head: nat, n: nat)
    requires |a| > 0
  {
    forall j :: 0 <= j < |a| && Live(a[j]) ==> exists i :: 0 <= i < n && Idx(head, i, |a|) == j
  }

  lemma PushView(a: seq<Slot>, head: nat, n: nat, x: Slot)
    requires 0 <= n < |a| && DeadOutside(a, head, n)
    ensures View(a[Idx(head, n, |a|) := x], head, n + 1) == View(a, head, n) + [x]
    ensures DeadOutside(a[Idx(head, n, |a|) := x], head, n + 1)
  {
    var k := Idx(head, n, |a|);
    var b := a[k := x];
    forall i | 0 <= i < n ensures b[Idx(head, i, |a|)] == a[Idx(head, i, |a|)] {
      if Idx(head, i, |a|) == k { ModDistinct(head, i, n, |a|); }
    }
    forall j | 0 <= j < |b| && Live(b[j]) ensures exists i :: 0 <= i < n + 1 && Idx(head, i, |a|) == j {
      if j != k {
        var i :| 0 <= i < n && Idx(head, i, |a|) == j;
        assert 0 <= i < n + 1;
      }
    }
  }

  lemma SetView(a: seq<Slot>, head: nat, n: nat, k: nat, x: Slot)
    requires k < n <= |a| && DeadOutside(a, head, n)
    ensures View(a[Idx(head, k, |a|) := x], head, n) == View(a, head, n)[k := x]
    ensures DeadOutside(a[Idx(head, k, |a|) := x], head, n)
  {
    var b := a[Idx(head, k, |a|) := x];
    forall i | 0 <= i < n ensures b[Idx(head, i, |a|)] == View(a, head, n)[k := x][i] {
      if Idx(head, i, |a|) == Idx(head, k, |a|) { ModDistinct(head, i, k, |a|); }
    }
    assert forall j :: 0 <= j < |b| && Live(b[j]) && j != Idx(head, k, |a|) ==> Live(a[j]);
  }

  /** Moving the head past a dead slot, with 32-bit wrap-around. */
  lemma PopView(a: seq<Slot>, head: nat, n: nat)
    requires 0 < n <= |a| && DeadOutside(a, head, n) && !Live(a[Idx(head, 0, |a|)]) && Divisor(|a|)
    ensures View(a, (head + 1) % U32, n - 1) == View(a, head, n)[1..]
    ensures DeadOutside(a, (head + 1) % U32, n - 1)
  {
    var next := (head + 1) % U32;
    forall i: nat ensures Idx(next, i, |a|) == Idx(head, i + 1, |a|) {
      ModOfMultiple(head + 1, U32, |a|);
      ModAdd(head + 1, i, |a|);
      ModAdd(next, i, |a|);
    }
    forall j | 0 <= j < |a| && Live(a[j]) ensures exists i :: 0 <= i < n - 1 && Idx(next, i, |a|) == j {
      var i :| 0 <= i < n && Idx(head, i, |a|) == j;
      assert i > 0;
      assert Idx(next, i - 1, |a|) == j;
    }
  }

  // ---- the line of live waiters ------------------------------------------------------

  /** Live waiters in ticket order: what a first-in first-out queue would hold. */
  function Line(w: seq<Slot>): seq<Slot> {
    if w == [] then [] else (if Live(w[0]) then [w[0]] else []) + Line(w[1..])
  }

  lemma {:induction false} LineConcat(v: seq<Slot>, w: seq<Slot>)
    ensures Line(v + w) == Line(v) + Line(w)
  {
    if v == [] {
      assert v + w == w;
    } else {
      LineConcat(v[1..], w);
      assert (v + w)[1..] == v[1..] + w;
      var first := if Live(v[0]) then [v[0]] else [];
      assert Line(v + w) == first + (Line(v[1..]) + Line(w));
      assert Line(v) == first + Line(v[1..]);
    }
  }

  lemma LineFirst(w: seq<Slot>)
    requires w != []
    ensures Line(w) == (if Live(w[0]) then [w[0]] else []) + Line(w[1..])
  {
  }

  /** A live head is first in the line. */
  lemma LineWithoutHead(w: seq<Slot>)
    requires w != [] && Live(w[0])
    ensures Line(w) == [w[0]] + Line(w[1..]) && Line(w)[1..] == Line(w[1..]) && |Line(w[1..])| == |Line(w)| - 1
  {
    LineFirst(w);
    hide Line;
  }

  lemma LineSplit(w: seq<Slot>, i: nat)
    requires i < |w|
    ensures Line(w) == Line(w[..i]) + (if Live(w[i]) then [w[i]] else []) + Line(w[i + 1..])
  {
    hide Line, Live;
    LineConcat(w[..i], w[i..]);
    LineFirst(w[i..]);
    SplitAt(w, i);
    Associates(Line(w[..i]), if Live(w[i]) then [w[i]] else [], Line(w[i + 1..]));
  }

  lemma SplitAt(w: seq<Slot>, i: nat)
    requires i < |w|
    ensures w[..i] + w[i..] == w && w[i..][0] == w[i] && w[i..][1..] == w[i + 1..]
  {
  }

  lemma Associates(u: seq<Slot>, v: seq<Slot>, w: seq<Slot>)
    ensures u + (v + w) == u + v + w
  {
  }

  /** Changing one slot changes only its own entry in the line. */
  lemma LineUpdate(w: seq<Slot>, i: nat, x: Slot)
    requires i < |w|
    ensures Line(w[i := x]) == Line(w[..i]) + (if Live(x) then [x] else []) + Line(w[i + 1..])
  {
    LineSplit(w[i := x], i);
    assert w[i := x][..i] == w[..i] && w[i := x][i + 1..] == w[i + 1..];
  }

  lemma LineExpire(w: seq<Slot>, i: nat)
    requires i < |w| && Live(w[i])
    ensures |Line(w[i := Expired()])| == |Line(w)| - 1
  {
    LineUpdate(w, i, Expired());
    LineSplit(w, i);
    hide Line;
  }

  /** How many slots at the front have timed out. */
  function DeadPrefix(w: seq<Slot>): (k: nat)
    ensures k <= |w|
    ensures forall i :: 0 <= i < k ==> w[i].state.TimedOut?
    ensures k < |w| ==> !w[k].state.TimedOut?
  {
    if w != [] && w[0].state.TimedOut? then 1 + DeadPrefix(w[1..]) else 0
  }

  /** Skipping timed-out slots passes no live waiter. */
  lemma {:induction false} LineOfDead(w: seq<Slot>, k: nat)
    requires k <= |w| && forall i :: 0 <= i < k ==> w[i].state.TimedOut?
    ensures Line(w[k..]) == Line(w)
  {
    if k > 0 {
      LineOfDead(w[1..], k - 1);
      assert w[1..][k - 1..] == w[k..];
    }
  }

  /** Between operations a ticket in the ring is waiting, timed out, or notified and first. */
  predicate Orderly(w: seq<Slot>) {
    forall i :: 0 <= i < |w| ==>
      && (w[i].state.Waiting? || w[i].state.Notified? || w[i].state.TimedOut?)
      && (w[i].state.Notified? ==> i == 0)
  }

  lemma OrderlyPush(w: seq<Slot>, x: Slot)
    requires x.state.Waiting?
    ensures Orderly(w) ==> Orderly(w + [x])
  {
  }

  lemma OrderlyExpire(w: seq<Slot>, i: nat)
    requires i < |w|
    ensures Orderly(w) ==> Orderly(w[i := Expired()])
  {
  }

  lemma OrderlyTail(w: seq<Slot>, k: nat)
    requires k <= |w|
    ensures Orderly(w) ==> Orderly(w[k..])
  {
  }

  // ---- the ring ---------------------------------------------------------------------------

  class RingQueue {
    const cap: nat
    const slots: array<Slot>
    var head: nat
    var tail: nat
    var count: nat

    /** Tickets in the ring: the 32-bit difference tail - head. */
    function Size(): nat
      reads this
    {
      (tail - head) % U32
    }

    ghost predicate Shaped()
      reads this, slots
    {
      && 0 < cap == slots.Length && cap < U32 && Divisor(cap)
      && head < U32 && tail < U32 && Size() <= cap
      && DeadOutside(slots[..], head, Size())
    }

    ghost function Window(): (w: seq<Slot>)
      requires Shaped()
      reads this, slots
      ensures |w| == Size()
    {
      View(slots[..], head, Size())
    }

    ghost predicate Valid()
      reads this, slots
    {
      Shaped() && Orderly(Window()) && count == |Line(Window())|
    }

    /** The ticket a waiter at a place in the window was given. */
    function TicketAt(i: nat): nat
      reads this
    {
      (head + i) % U32
    }

    lemma TicketSlot(i: nat)
      requires Shaped() && i <= Size()
      ensures TicketAt(i) % cap == Idx(head, i, cap)
      ensures i == Size() ==> TicketAt(i) == tail
    {
      hide Divisor, Idx, DeadOutside;
      TicketIndex(head, i, cap);
      if i == Size() { LastTicket(head, tail); }
    }

    /** The ring is empty when head meets tail; otherwise the head's slot is first in the window. */
    lemma HeadSlot()
      requires Shaped()
      ensures head != tail <==> Window() != []
      ensures head != tail ==> slots[head % cap] == Window()[0]
    {
      assert head % cap == Idx(head, 0, cap);
    }

    /** Two places in the window never share a 32-bit ticket. */
    lemma TicketsDiffer(i: nat, j: nat)
      requires Shaped() && i < Size() && j < Size() && TicketAt(i) == TicketAt(j)
      ensures i == j
    {
      ModDistinct(head, i, j, U32);
    }

    constructor (cap: nat)
      requires 0 < cap < U32 && Divisor(cap)
      ensures Valid() && fresh(slots) && this.cap == cap && Window() == []
    {
      this.cap := cap;
      head := 0;
      tail := 0;
      count := 0;
      slots := new Slot[cap](_ => BLANK);
    }

    /** The empty ring, as at creation. */
    method Reset()
      requires 0 < cap == slots.Length && cap < U32 && Divisor(cap)
      modifies this, slots
      ensures Valid() && Window() == [] && NoWriting() && head == tail == 0
    {
      head := 0;
      tail := 0;
      count := 0;
      var i := 0;
      while i < cap
        modifies slots
        invariant 0 <= i <= cap
        invariant forall j :: 0 <= j < i ==> slots[j] == BLANK
      {
        slots[i] := BLANK;
        i := i + 1;
      }
    }

    /** Takes the next ticket and fills its slot. */
    method Push(entry: Slot) returns (ticket: nat)
      requires Shaped() && Size() < cap
      modifies `tail, slots
      ensures Shaped() && ticket == old(tail) && Window() == old(Window()) + [entry]
    {
      hide Divisor, View, DeadOutside;
      ghost var n := Size();
      TicketSlot(n);
      PushView(slots[..], head, n, entry);
      ticket := tail;
      tail := (tail + 1) % U32;
      GrownSize(head, ticket, tail);
      slots[ticket % cap] := entry;
      assert slots[..] == old(slots[..])[Idx(head, n, cap) := entry];
      assert Size() == n + 1;
    }

    method Enqueue(mode: LockMode, node: nat, tid: int) returns (ok: bool, ticket: nat)
      requires Shaped()
      modifies this, slots
      ensures Shaped() && head == old(head)
      ensures ok <==> old(Size()) < cap
      ensures !ok ==> Window() == old(Window()) && count == old(count)
      ensures ok ==>
        && ticket == old(tail)
        && Window() == old(Window()) + [Slot(Waiting, mode, node, tid)]
        && count == old(count) + 1
      ensures old(Valid()) ==> Valid()
      ensures ok ==> Line(Window()) == Line(old(Window())) + [Slot(Waiting, mode, node, tid)]
    {
      if (tail - head) % U32 >= cap {
        return false, 0;
      }
      ghost var w := Window();
      var entry := Slot(Waiting, mode, node, tid);
      LineConcat(w, [entry]);
      assert Line([entry]) == [entry];
      OrderlyPush(w, entry);
      hide Divisor, View, DeadOutside, Line, Orderly;
      ticket := Push(entry);
      count := count + 1;
      ok := true;
    }

    /** Where in the window a live slot stands. */
    lemma PlaceOf(j: nat) returns (i: nat)
      requires Shaped() && j < cap && Live(slots[j])
      ensures i < Size() && Idx(head, i, cap) == j && Window()[i] == slots[j]
    {
      i :| 0 <= i < Size() && Idx(head, i, cap) == j;
    }

    /** ring_queue_try_mark_timeout on one slot. */
    method MarkTimeout(j: nat) returns (marked: bool)
      requires Shaped() && j < cap
      modifies `count, slots
      ensures Shaped()
      ensures marked <==> old(Live(slots[j]))
      ensures slots[..] == if marked then old(slots[..])[j := Expired()] else old(slots[..])
      ensures count == if marked && old(count) > 0 then old(count) - 1 else old(count)
      ensures old(Valid()) ==> Valid()
    {
      marked := Live(slots[j]);
      if marked {
        ghost var w := Window();
        ghost var i := PlaceOf(j);
        hide Divisor, View, DeadOutside, Line, Orderly, Idx;
        SetView(slots[..], head, Size(), i, Expired());
        LineExpire(w, i);
        OrderlyExpire(w, i);
        slots[j] := Expired();
        assert slots[..] == old(slots[..])[j := Expired()];
        if count > 0 { count := count - 1; }
      }
    }

    /** A waiter that gives up takes its own entry out of the line, wherever it stands. */
    method CleanTimeout(ticket: nat)
      requires Shaped()
      modifies `count, slots
      ensures Shaped()
      ensures forall i :: 0 <= i < Size() && ticket == TicketAt(i) && Live(old(Window())[i]) ==>
        && Window() == old(Window())[i := Expired()]
        && Line(Window()) == Line(old(Window())[..i]) + Line(old(Window())[i + 1..])
      ensures old(Valid()) ==> Valid()
    {
      hide Divisor, DeadOutside, Line, Orderly;
      ghost var w := Window();
      var j := ticket % cap;
      var _ := MarkTimeout(j);
      forall i | 0 <= i < Size() && ticket == TicketAt(i) && Live(w[i])
        ensures Window() == w[i := Expired()]
        ensures Line(Window()) == Line(w[..i]) + Line(w[i + 1..])
        ensures Line(w) == Line(w[..i]) + [w[i]] + Line(w[i + 1..])
      {
        TicketSlot(i);
        SetView(old(slots[..]), head, Size(), i, Expired());
        LineUpdate(w, i, Expired());
        LineSplit(w, i);
      }
    }

    /** Grants the waiter at the head, if it is still waiting. */
    method Outqueue() returns (ok: bool)
      requires Shaped()
      modifies slots
      ensures Shaped()
      ensures ok <==> old(Window()) != [] && old(Window())[0].state.Waiting?
      ensures !ok ==> slots[..] == old(slots[..])
      ensures ok ==>
        && slots[..] == old(slots[..])[head % cap := old(Window())[0].(state := Notified)]
        && Window() == old(Window())[0 := old(Window())[0].(state := Notified)]
        && Line(Window()) == [old(Window())[0].(state := Notified)] + Line(old(Window()))[1..]
        && |Line(Window())| == |Line(old(Window()))|
      ensures old(Valid()) ==> Valid()
    {
      var sanity := cap * 4;
      ok := false;
      while sanity > 0
        invariant slots[..] == old(slots[..])
        invariant sanity < cap * 4 ==> slots[Idx(head, 0, cap)].state.Writing?
      {
        sanity := sanity - 1;
        var j := head % cap;
        assert j == Idx(head, 0, cap);
        if slots[j].state.Writing? {
          continue;
        }
        if slots[j].state.Waiting? {
          ghost var w := Window();
          ghost var i :| 0 <= i < Size() && Idx(head, i, cap) == j;
          ModDistinct(head, i, 0, cap);
          SetView(slots[..], head, Size(), 0, slots[j].(state := Notified));
          LineUpdate(w, 0, slots[j].(state := Notified));
          LineSplit(w, 0);
          slots[j] := slots[j].(state := Notified);
          return true;
        }
        return false;
      }
    }

    ghost predicate NoWriting()
      reads slots
    {
      forall j :: 0 <= j < slots.Length ==> !slots[j].state.Writing?
    }

    /** Between operations no slot is half-written. */
    lemma NothingHalfWritten()
      requires Valid()
      ensures NoWriting()
    {
      forall j | 0 <= j < cap ensures !slots[j].state.Writing? {
        if Live(slots[..][j]) {
          var i :| 0 <= i < Size() && Idx(head, i, cap) == j;
          assert Window()[i] == slots[j];
        }
      }
    }

    /** The head moves past a ticket whose slot is dead. */
    method Advance()
      requires Shaped() && Window() != [] && !Live(Window()[0])
      modifies `head
      ensures Shaped() && Window() == old(Window())[1..] && head == (old(head) + 1) % U32
    {
      hide Divisor, Idx, View, DeadOutside;
      ghost var a, n := slots[..], Size();
      assert !Live(a[Idx(head, 0, |a|)]);
      PopView(a, head, n);
      ShrunkSize(head, tail);
      head := (head + 1) % U32;
      assert Size() == n - 1;
    }

    /** Whether the head's ticket has timed out. */
    method HeadExpired() returns (expired: bool)
      requires Shaped()
      ensures expired <==> Window() != [] && Window()[0].state.TimedOut?
    {
      HeadSlot();
      hide Divisor, View, DeadOutside;
      expired := head != tail && slots[head % cap].state.TimedOut?;
    }

    /** The loop of ring_queue_peek_head_mode_clean: passes timed-out tickets, and only those. */
    method SkipDead()
      requires Shaped() && NoWriting()
      modifies `head
      ensures Shaped() && NoWriting()
      ensures Window() == old(Window())[DeadPrefix(old(Window()))..]
    {
      hide Divisor, View, DeadOutside, DeadPrefix;
      ghost var w, k := Window(), 0;
      var expired := HeadExpired();
      while expired
        invariant Shaped() && NoWriting() && 0 <= k <= |w| && Window() == w[k..]
        invariant expired <==> Window() != [] && Window()[0].state.TimedOut?
        invariant forall i :: 0 <= i < k ==> w[i].state.TimedOut?
        decreases |w| - k
      {
        assert Window()[0] == w[k] && w[k..][1..] == w[k + 1..];
        Advance();
        expired := HeadExpired();
        k := k + 1;
      }
      assert k < |w| ==> Window()[0] == w[k];
      DeadPrefixIs(w, k);
    }

    /** ring_queue_peek_head_mode_clean. */
    method PeekHead() returns (found: bool, mode: LockMode)
      requires Shaped() && NoWriting()
      modifies `head
      ensures Shaped() && NoWriting()
      ensures Window() == old(Window())[DeadPrefix(old(Window()))..]
      ensures Line(Window()) == Line(old(Window()))
      ensures found <==> Window() != [] && Window()[0].state.Waiting?
      ensures found ==> mode == Window()[0].mode
      ensures old(Valid()) ==> Valid()
    {
      hide Divisor, View, DeadOutside, Line, Orderly;
      found, mode := false, I;
      ghost var w := Window();
      SkipDead();
      HeadSlot();
      LineOfDead(w, DeadPrefix(w));
      OrderlyTail(w, DeadPrefix(w));
      if head == tail {
        return;
      }
      var slot := slots[head % cap];
      if slot.state.Waiting? {
        found, mode := true, slot.mode;
      }
    }

    /** A notified waiter leaves the ring. */
    method PopHead(ticket: nat)
      requires Shaped() && Window() != [] && Window()[0].state.Notified? && ticket == head
      modifies this, slots
      ensures Shaped() && Window() == old(Window())[1..]
      ensures Line(Window()) == Line(old(Window()))[1..]
      ensures slots[..] == old(slots[..])[ticket % cap := BLANK]
      ensures old(Valid()) ==> Valid()
    {
      ghost var w := Window();
      LineWithoutHead(w);
      OrderlyTail(w, 1);
      assert ticket % cap == Idx(head, 0, cap);
      SetView(slots[..], head, Size(), 0, BLANK);
      hide Divisor, View, DeadOutside, Line, Orderly, Idx;
      slots[ticket % cap] := BLANK;
      assert slots[..] == old(slots[..])[ticket % cap := BLANK];
      assert Window() == w[0 := BLANK];
      Advance();
      assert w[0 := BLANK][1..] == w[1..];
      if count > 0 { count := count - 1; }
    }

    /** A waiter grants itself, only from the head. */
    method SelfHandoff(ticket: nat) returns (ok: bool)
      requires Shaped()
      modifies slots
      ensures Shaped()
      ensures ok <==> old(Window()) != [] && ticket == head && old(Window())[0].state.Waiting?
      ensures !ok ==> slots[..] == old(slots[..])
      ensures ok ==> Window() == old(Window())[0 := old(Window())[0].(state := Notified)]
      ensures old(Valid()) ==> Valid()
    {
      if head == tail || head != ticket {
        return false;
      }
      TicketSlot(0);
      var j := ticket % cap;
      ok := slots[j].state.Waiting?;
      if ok {
        ghost var w := Window();
        SetView(slots[..], head, Size(), 0, slots[j].(state := Notified));
        LineUpdate(w, 0, slots[j].(state := Notified));
        LineSplit(w, 0);
        slots[j] := slots[j].(state := Notified);
      }
    }

    /**
    dequeue_and_notify_one on a waiting head. The notified waiter may take the
    lock and leave the ring before the waker looks again; pop says whether it does.
    */
    method GrantHead(pop: bool)
      requires Shaped() && NoWriting() && Window() != [] && Window()[0].state.Waiting?
      modifies this, slots
      ensures Shaped() && NoWriting()
      ensures pop ==> Window() == old(Window())[1..]
      ensures pop ==> Line(Window()) == Line(old(Window()))[1..]
      ensures !pop ==> Window() == old(Window())[0 := old(Window())[0].(state := Notified)]
      ensures !pop ==> slots[..] == old(slots[..])[head % cap := old(Window())[0].(state := Notified)]
      ensures !pop ==> head == old(head)
      ensures !pop ==> Line(Window()) == [old(Window())[0].(state := Notified)] + Line(old(Window()))[1..]
      ensures Line(old(Window())) != [] && Line(old(Window()))[0] == old(Window())[0]
      ensures old(Valid()) ==> Valid()
    {
      ghost var w := Window();
      LineSplit(w, 0);
      var sanity := 512;
      var ok := false;
      while sanity > 0 && !ok
        invariant Shaped() && NoWriting() && head == old(head)
        invariant sanity < 512 ==> ok
        invariant !ok ==> slots[..] == old(slots[..]) && Window() == w
        invariant ok ==>
          && slots[..] == old(slots[..])[head % cap := w[0].(state := Notified)]
          && Window() == w[0 := w[0].(state := Notified)]
          && Line(Window()) == [w[0].(state := Notified)] + Line(w)[1..]
        invariant old(Valid()) ==> Valid()
      {
        ok := Outqueue();
        sanity := sanity - 1;
      }
      if pop {
        PopHead(head);
      }
    }

    /**
    Where a wake-up stands: the first `pops` of those granted have left the
    line, and the next one is notified and still first.
    */
    ghost predicate Granting(line: seq<Slot>, woken: seq<Slot>, pops: nat)
      requires Shaped()
      reads this, slots
    {
      && |woken| <= |line| && woken == line[..|woken|] && |woken| <= pops + 1
      && Line(Window()) == After(line, |woken|, pops)
      && (|woken| > pops ==> Window() != [] && Window()[0].state.Notified?)
    }

    /** Grants the waiting head and adds it to the batch. */
    method GrantNext(ghost line: seq<Slot>, woken: seq<Slot>, pops: nat) returns (next: seq<Slot>)
      requires Shaped() && NoWriting() && Window() != [] && Window()[0].state.Waiting?
      requires Granting(line, woken, pops)
      modifies this, slots
      ensures Shaped() && NoWriting() && next == woken + [old(Window())[0]]
      ensures Granting(line, next, pops)
      ensures |next| <= pops ==> Size() < old(Size())
      ensures |next| > pops ==> Size() == old(Size())
      ensures pops == 0 ==> OnlyGranted(old(slots[..]), slots[..])
      ensures old(Valid()) ==> Valid()
    {
      ghost var w := Window();
      assert slots[head % cap] == w[0];
      next := woken + [slots[head % cap]];
      GrantHead(|next| <= pops);
      assert line[|woken|..][0] == w[0];
      assert line[|woken|..][1..] == line[|next|..];
    }

    /** No waiting head: the ring is empty or its head has been notified already. */
    lemma NobodyWaits(line: seq<Slot>, woken: seq<Slot>, pops: nat)
      requires Shaped() && Orderly(Window()) && WaitingBehind(line) && Granting(line, woken, pops)
      requires Window() == [] || !(Window()[0].state.Waiting? || Window()[0].state.TimedOut?)
      ensures |woken| > pops || |woken| == |line| || (woken == [] && line[0].state.Notified?)
    {
      if Window() != [] { LineHead(Window()); }
    }

    /** Who stands first in the ring is next in the line. */
    lemma NextInLine(line: seq<Slot>, woken: seq<Slot>, pops: nat)
      requires Shaped() && Granting(line, woken, pops) && Window() != [] && Window()[0].state.Waiting?
      ensures |woken| < |line| && line[|woken|] == Window()[0] && woken + [Window()[0]] == line[..|woken| + 1]
    {
    }

    /** wake_s_chain or wake_sx_chain, after its first grant. */
    method WakeChain(ghost line: seq<Slot>, first: seq<Slot>, mode: LockMode, pops: nat) returns (woken: seq<Slot>)
      requires Shaped() && NoWriting() && 0 < |first| && Granting(line, first, pops)
      requires Batched(first, mode, mode == SX)
      modifies this, slots
      ensures Shaped() && NoWriting() && Granting(line, woken, pops) && BatchRule(woken)
      ensures old(Valid()) && WaitingBehind(line) ==> Valid() && woken == Granted(line, pops)
      ensures pops == 0 ==> OnlyGranted(old(slots[..]), slots[..])
    {
      hide Divisor, Idx, Orderly, Line, DeadOutside, View, Batched, BatchRule, Batch, Granted;
      woken := first;
      var sxSeen := mode == SX;
      while true
        invariant Shaped() && NoWriting() && 0 < |woken| && Granting(line, woken, pops)
        invariant Batched(woken, mode, sxSeen)
        invariant pops == 0 ==> OnlyGranted(old(slots[..]), slots[..])
        invariant old(Valid()) ==> Valid()
        decreases Size() + 1 - (if Window() != [] && Window()[0].state.Notified? then 1 else 0)
      {
        BatchedRule(woken, mode, sxSeen);
        var more, m := PeekHead();
        if !more {
          if old(Valid()) && WaitingBehind(line) {
            NobodyWaits(line, woken, pops);
            StopsHere(line, woken, pops);
          }
          return;
        }
        NextInLine(line, woken, pops);
        if m == X || m == I || (m == SX && sxSeen) {
          BatchedEnds(woken, Window()[0], mode, sxSeen);
          StopsHere(line, woken, pops);
          return;
        }
        BatchedNext(woken, Window()[0], mode, sxSeen);
        woken := GrantNext(line, woken, pops);
        if m == SX {
          sxSeen := true;
        }
      }
    }

    /**
    wake_after_unlock_exclusive with its S and SX chains. The first `pops`
    waiters it grants leave the ring at once; the next one stays at the head,
    and ends the chain there.
    */
    method Wake(pops: nat) returns (woken: seq<Slot>)
      requires Shaped() && NoWriting()
      modifies this, slots
      ensures Shaped() && NoWriting()
      ensures woken <= Line(old(Window())) && BatchRule(woken)
      ensures Line(Window()) == After(Line(old(Window())), |woken|, pops)
      ensures old(Valid()) ==> Valid() && woken == Granted(Line(old(Window())), pops)
      ensures old(Valid()) ==> (woken == Batch(Line(old(Window()))) <==> |Batch(Line(old(Window())))| <= pops + 1)
      ensures pops == 0 ==> OnlyGranted(old(slots[..]), slots[..])
    {
      hide Divisor, Idx, Orderly, Line, DeadOutside, View, Batched, BatchRule, Batch;
      ghost var w := Window();
      ghost var line := Line(w);
      if Valid() { LineWaiting(w); }
      woken := [];
      EmptyBatch();
      var found, mode := PeekHead();
      if !found {
        if old(Valid()) { NobodyWaits(line, woken, pops); StopsHere(line, woken, pops); }
        return;
      }
      NextInLine(line, woken, pops);
      if mode == I {
        NoBatch(line);
        return;
      }
      woken := GrantNext(line, woken, pops);
      FirstOfBatch(woken);
      if mode == X {
        ExclusiveAlone(line, woken, pops);
        return;
      }
      woken := WakeChain(line, woken, mode, pops);
    }
  }

  /** Nothing changed but waiting slots that became notified. */
  predicate OnlyGranted(a: seq<Slot>, b: seq<Slot>) {
    && |a| == |b|
    && forall j :: 0 <= j < |a| ==> b[j] == a[j] || (a[j].state.Waiting? && b[j] == a[j].(state := Notified))
  }

  // ---- which waiters a wake-up grants ----------------------------------------------------------

  /** Which waiters may be granted together: one X, or S with at most one SX, that one first or behind an S. */
  predicate BatchRule(woken: seq<Slot>) {
    && (forall i :: 0 <= i < |woken| ==> woken[i].state.Waiting?)
    && (woken != [] ==>
          match woken[0].mode
          case X => |woken| == 1
          case S =>
            && (forall i :: 0 <= i < |woken| ==> woken[i].mode.S? || woken[i].mode.SX?)
            && (forall i, j :: 0 <= i < j < |woken| && woken[i].mode.SX? ==> !woken[j].mode.SX?)
          case SX => forall i :: 0 < i < |woken| ==> woken[i].mode.S?
          case I => false)
  }

  lemma RulePrefix(woken: seq<Slot>, k: nat)
    requires k <= |woken| && BatchRule(woken)
    ensures BatchRule(woken[..k])
  {
  }

  function BatchSize(line: seq<Slot>, k: nat): (n: nat)
    requires k <= |line| && BatchRule(line[..k])
    ensures k <= n <= |line| && BatchRule(line[..n])
    ensures n < |line| ==> !BatchRule(line[..n + 1])
    decreases |line| - k
  {
    if k < |line| && BatchRule(line[..k + 1]) then BatchSize(line, k + 1) else k
  }

  /** The whole batch: the longest prefix of the line that keeps to the rule. */
  function Batch(line: seq<Slot>): (b: seq<Slot>)
    ensures b <= line && BatchRule(b)
    ensures |b| < |line| ==> !BatchRule(line[..|b| + 1])
  {
    EmptyBatch();
    line[..BatchSize(line, 0)]
  }

  lemma BatchLongest(line: seq<Slot>, b: seq<Slot>)
    requires b <= line && BatchRule(b)
    ensures b <= Batch(line)
  {
    hide BatchRule;
    var n := |Batch(line)|;
    assert n < |b| ==> b[..n + 1] == line[..n + 1];
    if n < |b| { RulePrefix(b, n + 1); }
  }

  lemma BatchIs(line: seq<Slot>, k: nat)
    requires k <= |line| && BatchRule(line[..k])
    requires k < |line| ==> !BatchRule(line[..k + 1])
    ensures Batch(line) == line[..k]
  {
    hide BatchRule, Batch;
    BatchLongest(line, line[..k]);
    var b := Batch(line);
    assert k < |b| ==> b[..k + 1] == line[..k + 1];
    if k < |b| { RulePrefix(b, k + 1); }
  }

  /** What one wake-up grants when the first `pops` granted waiters leave while it runs. */
  function Granted(line: seq<Slot>, pops: nat): (g: seq<Slot>)
    ensures g <= Batch(line)
    ensures g == Batch(line) <==> |Batch(line)| <= pops + 1
  {
    var b := Batch(line);
    if |b| <= pops + 1 then b else b[..pops + 1]
  }

  /** The line once k of its waiters are granted. */
  function After(line: seq<Slot>, k: nat, pops: nat): seq<Slot>
    requires k <= |line|
  {
    if k <= pops then line[k..] else [line[k - 1].(state := Notified)] + line[k..]
  }

  /** Two readers wait and neither has left yet: the batch is both, the wake-up grants one. */
  lemma SecondReaderLeft(a: Slot, b: Slot)
    requires a.state == b.state == Waiting && a.mode == b.mode == S
    ensures Batch([a, b]) == [a, b] && Granted([a, b], 0) == [a]
    ensures After([a, b], |Granted([a, b], 0)|, 0) == [a.(state := Notified), b]
  {
    var line := [a, b];
    assert line[..2] == line;
    BatchIs(line, 2);
    assert line[..1] == [a];
  }

  /** The same on a ring: two readers queue up behind a writer, and its unlock wakes the first only. */
  method SecondReaderSleeps() returns (queue: RingQueue, woken: seq<Slot>)
    ensures fresh(queue) && queue.Valid()
    ensures woken == [Slot(Waiting, S, 0, 1)]
    ensures Line(queue.Window()) == [Slot(Notified, S, 0, 1), Slot(Waiting, S, 0, 2)]
  {
    var a, b := Slot(Waiting, S, 0, 1), Slot(Waiting, S, 0, 2);
    queue := TwoReaders();
    SecondReaderLeft(a, b);
    hide Line, View, DeadOutside, Orderly, Batch, BatchRule, Granted, OnlyGranted;
    woken := queue.Wake(0);
  }

  method TwoReaders() returns (queue: RingQueue)
    ensures fresh(queue) && fresh(queue.slots) && queue.Valid() && queue.NoWriting()
    ensures Line(queue.Window()) == [Slot(Waiting, S, 0, 1), Slot(Waiting, S, 0, 2)]
  {
    assert Line([]) == [];
    hide Divisor, Idx, View, DeadOutside, Orderly, Line;
    DividesU32();
    queue := new RingQueue(256);
    var _, _ := queue.Enqueue(S, 0, 1);
    var _, _ := queue.Enqueue(S, 0, 2);
    queue.NothingHalfWritten();
  }

  lemma DividesU32()
    ensures Divisor(256)
  {
  }

  lemma EmptyBatch()
    ensures forall line: seq<Slot> :: BatchRule(line[..0])
    ensures BatchRule([])
  {
  }

  /** A wake-up that stops where nobody waits, or where the next waiter breaks the rule, granted what it should. */
  lemma StopsHere(line: seq<Slot>, woken: seq<Slot>, pops: nat)
    requires |woken| <= |line| && woken == line[..|woken|] && |woken| <= pops + 1 && BatchRule(woken)
    requires
      || |woken| > pops || |woken| == |line| || (woken == [] && line[0].state.Notified?)
      || !BatchRule(line[..|woken| + 1])
    ensures woken == Granted(line, pops)
  {
    var k := |woken|;
    BatchLongest(line, woken);
    if k <= pops {
      assert woken == [] && line != [] && line[0].state.Notified? ==> line[..1][0] == line[0];
      BatchIs(line, k);
    }
  }

  lemma NoBatch(line: seq<Slot>)
    requires line != [] && line[0].mode == I
    ensures Batch(line) == []
  {
    assert line[..1][0] == line[0];
    BatchIs(line, 0);
  }

  lemma FirstOfBatch(woken: seq<Slot>)
    requires |woken| == 1 && woken[0].state.Waiting? && woken[0].mode != I
    ensures BatchRule(woken)
    ensures woken[0].mode in {S, SX} ==> Batched(woken, woken[0].mode, woken[0].mode == SX)
  {
  }

  lemma ExclusiveAlone(line: seq<Slot>, woken: seq<Slot>, pops: nat)
    requires line != [] && line[0].mode == X && woken == line[..1] && BatchRule(woken)
    ensures woken == Granted(line, pops)
  {
    if |line| > 1 { assert line[..2][0] == line[0]; }
    BatchIs(line, 1);
  }

  /** The rule as the chains keep it: S and SX only, SX at most once when S came first and only first otherwise. */
  predicate Batched(woken: seq<Slot>, mode: LockMode, sxSeen: bool)
    requires |woken| > 0
  {
    && (forall i :: 0 <= i < |woken| ==> woken[i].state.Waiting?)
    && mode in {S, SX} && woken[0].mode == mode
    && (forall i :: 0 < i < |woken| ==> woken[i].mode.S? || (mode == S && woken[i].mode.SX?))
    && (sxSeen <==> exists i :: 0 <= i < |woken| && woken[i].mode.SX?)
    && (forall i, j :: 0 <= i < j < |woken| && woken[i].mode.SX? ==> !woken[j].mode.SX?)
  }

  lemma BatchedNext(woken: seq<Slot>, x: Slot, mode: LockMode, sxSeen: bool)
    requires |woken| > 0 && Batched(woken, mode, sxSeen)
    requires x.state.Waiting? && (x.mode == S || (x.mode == SX && !sxSeen))
    ensures Batched(woken + [x], mode, sxSeen || x.mode == SX)
  {
    var next := woken + [x];
    assert forall i :: 0 <= i < |woken| ==> next[i] == woken[i];
    assert next[|woken|] == x;
  }

  lemma BatchedEnds(woken: seq<Slot>, x: Slot, mode: LockMode, sxSeen: bool)
    requires |woken| > 0 && Batched(woken, mode, sxSeen)
    requires x.mode == X || x.mode == I || (x.mode == SX && sxSeen)
    ensures !BatchRule(woken + [x])
  {
    var next := woken + [x];
    assert next[0] == woken[0] && next[|woken|] == x;
    if x.mode == SX {
      var i :| 0 <= i < |woken| && woken[i].mode.SX?;
      assert next[i] == woken[i];
    }
  }

  lemma BatchedRule(woken: seq<Slot>, mode: LockMode, sxSeen: bool)
    requires |woken| > 0 && Batched(woken, mode, sxSeen)
    ensures BatchRule(woken)
  {
  }

  /** Only the first of the line can have been notified. */
  predicate WaitingBehind(line: seq<Slot>) {
    forall i :: 0 <= i < |line| ==> line[i].state.Waiting? || (i == 0 && line[i].state.Notified?)
  }

  lemma {:induction false} LineWaiting(w: seq<Slot>)
    requires Orderly(w)
    ensures WaitingBehind(Line(w))
    ensures w != [] && !w[0].state.Notified? ==> forall i :: 0 <= i < |Line(w)| ==> Line(w)[i].state.Waiting?
  {
    if w != [] {
      OrderlyTail(w, 1);
      LineWaiting(w[1..]);
    }
  }

  lemma LineHead(w: seq<Slot>)
    requires Orderly(w) && w != [] && !w[0].state.TimedOut?
    ensures Line(w) != [] && Line(w)[0] == w[0]
  {
  }

  lemma DeadPrefixIs(w: seq<Slot>, k: nat)
    requires k <= |w| && (forall i :: 0 <= i < k ==> w[i].state.TimedOut?)
    requires k < |w| ==> !w[k].state.TimedOut?
    ensures DeadPrefix(w) == k
  {
  }

  lemma TicketIndex(head: nat, i: nat, cap: nat)
    requires cap > 0 && Divisor(cap)
    ensures (head + i) % U32 % cap == Idx(head, i, cap)
  {
    ModOfMultiple(head + i, U32, cap);
  }

  lemma LastTicket(head: nat, tail: nat)
    requires head < U32 && tail < U32
    ensures (head + (tail - head) % U32) % U32 == tail
  {
  }

  lemma ShrunkSize(head: nat, tail: nat)
    requires head < U32 && tail < U32 && head != tail
    ensures (tail - (head + 1) % U32) % U32 == (tail - head) % U32 - 1
  {
  }

  lemma GrownSize(head: nat, tail: nat, next: nat)
    requires head < U32 && tail < U32 && next == (tail + 1) % U32 && (tail - head) % U32 + 1 < U32
    ensures (next - head) % U32 == (tail - head) % U32 + 1
  {
  }
}
