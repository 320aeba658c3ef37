// The receive rings of platform/platform.c: an interrupt handler stores, the main loop pops, no lock.
// The main loop's pop is split into its memory accesses, and a whole interrupt may run between any two.
module RxRing {
  import opened Common
  import opened Ring

  /** Where the main loop is inside a pop. */
  datatype Pop<+T> =
    | Outside              // not in the function
    | FoundItem            // tail differed from head
    | TookItem(item: T)    // the slot at the tail was copied out

  /** The shared ring, the main loop's position, and the history: what was stored and what was popped. */
  datatype Rx<+T> = Rx(slots: seq<T>, head: nat, tail: nat, pop: Pop<T>, accepted: seq<T>, delivered: seq<T>)

  datatype Event<+T> =
    | Arrive(item: T)   // the interrupt handler, start to end
    | MainStep          // the next memory access of the main loop

  function Arrival<T>(s: Rx<T>, item: T): Rx<T>
    requires s.head < |s.slots|
  {
    var n := Next(s.head, |s.slots|);
    if n == s.tail then s
    else s.(slots := s.slots[s.head := item], head := n, accepted := s.accepted + [item])
  }

  function PopStep<T>(s: Rx<T>): Rx<T>
    requires s.tail < |s.slots|
  {
    match s.pop
    case Outside => if s.tail == s.head then s else s.(pop := FoundItem)
    case FoundItem => s.(pop := TookItem(s.slots[s.tail]))
    case TookItem(x) => s.(tail := Next(s.tail, |s.slots|), pop := Outside, delivered := s.delivered + [x])
  }

  ghost predicate Inv<T>(s: Rx<T>) {
    && s.head < |s.slots| && s.tail < |s.slots|
    && s.accepted == s.delivered + Contents(s.slots, s.head, s.tail)
    && (!s.pop.Outside? ==> s.head != s.tail)
    && (s.pop.TookItem? ==> s.pop.item == s.slots[s.tail])
  }

  function Empty<T>(slots: seq<T>): Rx<T> {
    Rx(slots, 0, 0, Outside, [], [])
  }

  function Step<T>(s: Rx<T>, e: Event<T>): Rx<T>
    requires Inv(s)
  {
    match e
    case Arrive(x) => Arrival(s, x)
    case MainStep => PopStep(s)
  }

  /** The interrupt refuses an item exactly when every slot but one is unread; otherwise it appends it. */
  lemma ArrivalAppends<T>(s: Rx<T>, x: T)
    requires Inv(s)
    ensures var t := Arrival(s, x);
            && Inv(t) && t.pop == s.pop && t.delivered == s.delivered
            && (if |Contents(s.slots, s.head, s.tail)| == |s.slots| - 1 then t == s
                else t.accepted == s.accepted + [x])
            && (!s.pop.Outside? ==> t.slots[t.tail] == s.slots[s.tail])
  {
    FullExactly(s.slots, s.head, s.tail);
    ContentsEmpty(s.slots, s.head, s.tail);
    if Next(s.head, |s.slots|) != s.tail {
      PushAppends(s.slots, s.head, s.tail, x);
    }
  }

  lemma PopStepKeepsInv<T>(s: Rx<T>)
    requires Inv(s)
    ensures Inv(PopStep(s)) && PopStep(s).accepted == s.accepted
  {
    if s.pop.TookItem? {
      PopRemoves(s.slots, s.head, s.tail);
      assert s.delivered + ([s.pop.item] + Contents(s.slots, s.head, Next(s.tail, |s.slots|)))
          == (s.delivered + [s.pop.item]) + Contents(s.slots, s.head, Next(s.tail, |s.slots|));
    }
  }

  /** The slot at the tail holds the oldest accepted item that has not been delivered. */
  lemma OldestUnread<T>(s: Rx<T>)
    requires Inv(s) && s.head != s.tail
    ensures |s.delivered| < |s.accepted| && s.slots[s.tail] == s.accepted[|s.delivered|]
  {
    PopRemoves(s.slots, s.head, s.tail);
  }

  lemma StepKeepsInv<T>(s: Rx<T>, e: Event<T>)
    requires Inv(s)
    ensures Inv(Step(s, e))
  {
    match e
    case Arrive(x) => ArrivalAppends(s, x);
    case MainStep => PopStepKeepsInv(s);
  }

  function Run<T>(s: Rx<T>, events: seq<Event<T>>): Rx<T>
    requires Inv(s)
    decreases events
  {
    if events == [] then s else
      StepKeepsInv(s, events[0]);
      Run(Step(s, events[0]), events[1..])
  }

  // ---------------------------------------------------------------- the bounded queue it implements

  /** A queue of at most limit items, with the record of what has left it. */
  datatype Fifo<+T> = Fifo(limit: nat, unread: seq<T>, left: seq<T>)

  function Enqueue<T>(q: Fifo<T>, item: T): Fifo<T> {
    if |q.unread| < q.limit then q.(unread := q.unread + [item]) else q
  }

  function Dequeue<T>(q: Fifo<T>): Fifo<T>
    requires q.unread != []
  {
    q.(unread := q.unread[1..], left := q.left + [q.unread[0]])
  }

  function Abstract<T>(s: Rx<T>): Fifo<T>
    requires s.head < |s.slots| && s.tail < |s.slots|
  {
    Fifo(|s.slots| - 1, Contents(s.slots, s.head, s.tail), s.delivered)
  }

  lemma ArrivalRefinesFifo<T>(s: Rx<T>, x: T)
    requires Inv(s)
    ensures Inv(Arrival(s, x)) && Abstract(Arrival(s, x)) == Enqueue(Abstract(s), x)
  {
    UnreadBound(s);
    FullExactly(s.slots, s.head, s.tail);
    ArrivalAppends(s, x);
    if Next(s.head, |s.slots|) != s.tail {
      PushAppends(s.slots, s.head, s.tail, x);
    }
    hide Contents, Next, Inv;
  }

  lemma PopStepRefinesFifo<T>(s: Rx<T>)
    requires Inv(s)
    ensures Inv(PopStep(s))
    ensures s.pop.TookItem? ==> Abstract(s).unread != []
    ensures Abstract(PopStep(s)) == if s.pop.TookItem? then Dequeue(Abstract(s)) else Abstract(s)
  {
    PopStepKeepsInv(s);
    if s.pop.TookItem? {
      PopRemoves(s.slots, s.head, s.tail);
      hide Contents, Next;
    }
  }

  /** Every event is an enqueue, the last access of a pop is a dequeue, and its other accesses change nothing. */
  lemma StepRefinesFifo<T>(s: Rx<T>, e: Event<T>)
    requires Inv(s)
    ensures Inv(Step(s, e))
    ensures (e.MainStep? && s.pop.TookItem?) ==> Abstract(s).unread != []
    ensures Abstract(Step(s, e)) ==
            if e.Arrive? then Enqueue(Abstract(s), e.item)
            else if s.pop.TookItem? then Dequeue(Abstract(s))
            else Abstract(s)
  {
    hide Inv, Abstract, Enqueue, Dequeue, Arrival, PopStep;
    match e {
      case Arrive(x) => ArrivalRefinesFifo(s, x);
      case MainStep => PopStepRefinesFifo(s);
    }
  }

  /** What one event admits: an arrival, if fewer than all slots but one are unread. */
  function Admits<T>(s: Rx<T>, e: Event<T>): seq<T>
    requires Inv(s)
  {
    if e.Arrive? && |Contents(s.slots, s.head, s.tail)| < |s.slots| - 1 then [e.item] else []
  }

  /** The arrivals a bounded queue of the same capacity admits along a schedule. */
  function Admitted<T>(s: Rx<T>, events: seq<Event<T>>): seq<T>
    requires Inv(s)
    decreases events
  {
    if events == [] then [] else
      StepKeepsInv(s, events[0]);
      Admits(s, events[0]) + Admitted(Step(s, events[0]), events[1..])
  }

  lemma StepAdmits<T>(s: Rx<T>, e: Event<T>)
    requires Inv(s)
    ensures Inv(Step(s, e)) && Step(s, e).accepted == s.accepted + Admits(s, e)
  {
    UnreadBound(s);
    match e
    case Arrive(x) => ArrivalAppends(s, x);
    case MainStep => PopStepKeepsInv(s);
  }

  lemma UnreadBound<T>(s: Rx<T>)
    requires Inv(s)
    ensures |Contents(s.slots, s.head, s.tail)| < |s.slots|
  {}

  lemma {:induction false} AcceptedAreAdmitted<T>(s: Rx<T>, events: seq<Event<T>>)
    requires Inv(s)
    ensures Inv(Run(s, events)) && Run(s, events).accepted == s.accepted + Admitted(s, events)
    decreases events
  {
    hide Inv, Step, Admits;
    if events != [] {
      StepAdmits(s, events[0]);
      AcceptedAreAdmitted(Step(s, events[0]), events[1..]);
    }
  }

  /**
   * Under every interleaving, the popped items followed by the unread ones are exactly the admitted arrivals in
   * order: nothing is lost after admission, duplicated, reordered or overwritten.
   */
  lemma FifoUnderInterleaving<T>(slots: seq<T>, events: seq<Event<T>>)
    requires |slots| > 0
    ensures Inv(Empty(slots))
    ensures var t := Run(Empty(slots), events);
            Inv(t) && t.delivered + Contents(t.slots, t.head, t.tail) == Admitted(Empty(slots), events)
  {
    AcceptedAreAdmitted(Empty(slots), events);
  }

  // ---------------------------------------------------------------- a whole pop with interrupts in it

  /** The arrivals of interrupts that run at one point of the main loop. */
  function ArriveAll<T>(s: Rx<T>, items: seq<T>): (t: Rx<T>)
    requires Inv(s)
    ensures Inv(t) && t.pop == s.pop && t.delivered == s.delivered && |t.slots| == |s.slots|
    ensures s.accepted <= t.accepted
    ensures !s.pop.Outside? ==> t.slots[t.tail] == s.slots[s.tail]
    ensures s.head != s.tail ==> t.head != t.tail
    decreases items
  {
    if items == [] then s else
      ArrivalAppends(s, items[0]);
      ArrivalLeavesItems(s, items[0]);
      ArriveAll(Arrival(s, items[0]), items[1..])
  }

  lemma ArrivalLeavesItems<T>(s: Rx<T>, x: T)
    requires Inv(s)
    ensures |Arrival(s, x).slots| == |s.slots|
    ensures s.head != s.tail ==> Arrival(s, x).head != Arrival(s, x).tail
  {}

  /** A pop from start to end: arrivals after it has looked, and after it has copied the item out. */
  function PopWhole<T>(s: Rx<T>, first: seq<T>, second: seq<T>): (r: (Rx<T>, Option<T>))
    requires Inv(s) && s.pop.Outside?
    ensures Inv(r.0) && r.0.pop.Outside? && |r.0.slots| == |s.slots| && s.accepted <= r.0.accepted
    ensures r.1.None? <==> s.head == s.tail
    ensures r.1.None? ==> r.0 == s
    ensures r.1.Some? ==>
              && |s.delivered| < |s.accepted| && r.1.value == s.accepted[|s.delivered|]
              && r.0.delivered == s.delivered + [r.1.value]
  {
    if s.head == s.tail then (s, None) else
      OldestUnread(s);
      PopStepKeepsInv(s);
      var a := ArriveAll(PopStep(s), first);
      PopStepKeepsInv(a);
      var b := ArriveAll(PopStep(a), second);
      PopStepKeepsInv(b);
      (PopStep(b), Some(b.pop.item))
  }

  /** An arrival with the number of items unread at the time. */
  datatype Met<+T> = Met(item: T, unread: nat)

  function Meets<T>(s: Rx<T>, items: seq<T>): (r: seq<Met<T>>)
    requires Inv(s)
    ensures |r| == |items| && forall k :: 0 <= k < |r| ==> r[k].item == items[k]
    decreases items
  {
    if items == [] then [] else
      ArrivalAppends(s, items[0]);
      [Met(items[0], |Contents(s.slots, s.head, s.tail)|)] + Meets(Arrival(s, items[0]), items[1..])
  }

  /** What one arrival adds: itself, if fewer than all slots but one are unread. */
  function Fits<T>(m: Met<T>, limit: nat): seq<T> {
    if m.unread < limit then [m.item] else []
  }

  /** The arrivals that met fewer than so many unread items. */
  function Fitting<T>(met: seq<Met<T>>, limit: nat): seq<T> {
    if met == [] then [] else Fits(met[0], limit) + Fitting(met[1..], limit)
  }

  lemma {:induction false} FittingConcat<T>(a: seq<Met<T>>, b: seq<Met<T>>, limit: nat)
    ensures Fitting(a + b, limit) == Fitting(a, limit) + Fitting(b, limit)
    decreases a
  {
    if a == [] {
      assert a + b == b;
    } else {
      FittingConcat(a[1..], b, limit);
      assert (a + b)[1..] == a[1..] + b;
      Regroup(Fits(a[0], limit), Fitting(a[1..], limit), Fitting(b, limit));
    }
  }

  lemma FittingCons<T>(m: Met<T>, rest: seq<Met<T>>, limit: nat)
    ensures Fitting([m] + rest, limit) == Fits(m, limit) + Fitting(rest, limit)
  {
    assert ([m] + rest)[1..] == rest;
  }

  lemma ArrivalFits<T>(s: Rx<T>, x: T)
    requires Inv(s)
    ensures Inv(Arrival(s, x)) && |Arrival(s, x).slots| == |s.slots|
    ensures Arrival(s, x).accepted
         == s.accepted + Fits(Met(x, |Contents(s.slots, s.head, s.tail)|), |s.slots| - 1)
  {
    ArrivalAppends(s, x);
    ArrivalLeavesItems(s, x);
    UnreadBound(s);
    hide Inv, Contents, Arrival;
  }

  function Waiting<T>(s: Rx<T>): nat
    requires Inv(s)
  {
    |Contents(s.slots, s.head, s.tail)|
  }

  lemma FirstArrival<T>(s: Rx<T>, items: seq<T>)
    requires Inv(s) && items != []
    ensures Inv(Arrival(s, items[0])) && |Arrival(s, items[0]).slots| == |s.slots| > 0
    ensures ArriveAll(s, items) == ArriveAll(Arrival(s, items[0]), items[1..])
    ensures Meets(s, items) == [Met(items[0], Waiting(s))] + Meets(Arrival(s, items[0]), items[1..])
    ensures Arrival(s, items[0]).accepted == s.accepted + Fits(Met(items[0], Waiting(s)), |s.slots| - 1)
  {
    ArrivalFits(s, items[0]);
    UnreadBound(s);
    hide Inv, Contents, Arrival, Fits;
  }

  /** The ring takes exactly the arrivals that leave one slot free. */
  lemma {:induction false} ArriveAllFits<T>(s: Rx<T>, items: seq<T>)
    requires Inv(s)
    ensures |s.slots| > 0
    ensures ArriveAll(s, items).accepted == s.accepted + Fitting(Meets(s, items), |s.slots| - 1)
    decreases items
  {
    hide Inv, Contents, Arrival, Fits, Waiting, Fitting, ArriveAll, Meets;
    NoArrival(s);
    if items != [] {
      FirstArrival(s, items);
      var t, m, rest := Arrival(s, items[0]), Met(items[0], Waiting(s)), Meets(Arrival(s, items[0]), items[1..]);
      ArriveAllFits(t, items[1..]);
      FittingCons(m, rest, |s.slots| - 1);
      Regroup(s.accepted, Fits(m, |s.slots| - 1), Fitting(rest, |s.slots| - 1));
    }
  }

  lemma NoArrival<T>(s: Rx<T>)
    requires Inv(s)
    ensures s.head < |s.slots| && ArriveAll(s, []) == s
    ensures s.accepted + Fitting(Meets(s, []), |s.slots| - 1) == s.accepted
  {
    UnreadBound(s);
    hide Inv, Contents;
  }

  /** The arrivals within a pop. */
  function PopMeets<T>(s: Rx<T>, first: seq<T>, second: seq<T>): seq<Met<T>>
    requires Inv(s) && s.pop.Outside?
  {
    if s.head == s.tail then [] else
      PopStepKeepsInv(s);
      var a := ArriveAll(PopStep(s), first);
      PopStepKeepsInv(a);
      Meets(PopStep(s), first) + Meets(PopStep(a), second)
  }

  lemma PopWholeFits<T>(s: Rx<T>, first: seq<T>, second: seq<T>)
    requires Inv(s) && s.pop.Outside?
    ensures PopWhole(s, first, second).0.accepted == s.accepted + Fitting(PopMeets(s, first, second), |s.slots| - 1)
  {
    hide Inv, Contents, ArriveAll, Meets;
    if s.head != s.tail {
      hide Fitting;
      PopStepKeepsInv(s);
      var a := ArriveAll(PopStep(s), first);
      PopStepKeepsInv(a);
      var b := ArriveAll(PopStep(a), second);
      PopStepKeepsInv(b);
      ArriveAllFits(PopStep(s), first);
      ArriveAllFits(PopStep(a), second);
      var limit := |s.slots| - 1;
      FittingConcat(Meets(PopStep(s), first), Meets(PopStep(a), second), limit);
      Regroup(s.accepted, Fitting(Meets(PopStep(s), first), limit), Fitting(Meets(PopStep(a), second), limit));
    }
  }

  lemma WaitingCounts<T>(s: Rx<T>)
    requires Inv(s)
    ensures Waiting(s) == |s.accepted| - |s.delivered| && (s.head == s.tail <==> Waiting(s) == 0)
  {
    ContentsEmpty(s.slots, s.head, s.tail);
  }

  lemma {:induction false} FittingIsShorter<T>(met: seq<Met<T>>, limit: nat)
    ensures |Fitting(met, limit)| <= |met|
    decreases met
  {
    if met != [] {
      FittingIsShorter(met[1..], limit);
    }
  }

  /** Arrivals meet at most what was unread and the arrivals before them, and add at most themselves. */
  lemma {:induction false} ArrivalsMeet<T>(s: Rx<T>, items: seq<T>)
    requires Inv(s)
    ensures Waiting(ArriveAll(s, items)) <= Waiting(s) + |items|
    ensures forall k :: 0 <= k < |items| ==> Meets(s, items)[k].unread <= Waiting(s) + k
    decreases items
  {
    hide Inv, Contents, Arrival, Fits, Waiting, Fitting, ArriveAll, Meets;
    NoArrival(s);
    if items != [] {
      FirstArrival(s, items);
      var t := Arrival(s, items[0]);
      OneMoreWaiting(s, items[0]);
      ArrivalsMeet(t, items[1..]);
    }
  }

  lemma OneMoreWaiting<T>(s: Rx<T>, x: T)
    requires Inv(s)
    ensures Inv(Arrival(s, x)) && Waiting(Arrival(s, x)) <= Waiting(s) + 1
  {
    ArrivalAppends(s, x);
    WaitingCounts(s);
    WaitingCounts(Arrival(s, x));
    hide Inv, Contents, Arrival, Waiting;
  }

  /** The same for a whole pop, which takes one item out. */
  lemma PopMeetsBound<T>(s: Rx<T>, first: seq<T>, second: seq<T>)
    requires Inv(s) && s.pop.Outside?
    ensures var n := |first| + |second|;
            && (Waiting(s) == 0 <==> PopWhole(s, first, second).1.None?)
            && |PopMeets(s, first, second)| <= n
            && (forall k :: 0 <= k < |PopMeets(s, first, second)| ==>
                  PopMeets(s, first, second)[k].unread <= Waiting(s) + k)
            && (Waiting(s) > 0 ==> Waiting(PopWhole(s, first, second).0) <= Waiting(s) + n - 1)
  {
    hide Inv, Contents, ArriveAll, Meets, Waiting, Fitting;
    WaitingCounts(s);
    if s.head != s.tail {
      PopStepKeepsInv(s);
      WaitingCounts(PopStep(s));
      var a := ArriveAll(PopStep(s), first);
      ArrivalsMeet(PopStep(s), first);
      PopStepKeepsInv(a);
      WaitingCounts(a);
      WaitingCounts(PopStep(a));
      var b := ArriveAll(PopStep(a), second);
      ArrivalsMeet(PopStep(a), second);
      PopStepKeepsInv(b);
      WaitingCounts(b);
      WaitingCounts(PopWhole(s, first, second).0);
    }
  }

  lemma PopWholeKeeps<T>(s: Rx<T>, first: seq<T>, second: seq<T>)
    requires Inv(s) && s.pop.Outside?
    ensures Inv(PopWhole(s, first, second).0)
  {}

  // ---------------------------------------------------------------- the code

  class RxQueue<T> {
    const slots: array<T>
    var head: nat
    var tail: nat
    ghost var pop: Pop<T>
    ghost var accepted: seq<T>
    ghost var delivered: seq<T>

    ghost function View(): Rx<T>
      reads this, slots
    {
      Rx(slots[..], head, tail, pop, accepted, delivered)
    }

    ghost predicate Valid()
      reads this, slots
    {
      Inv(View())
    }

    constructor (capacity: nat, initial: T)
      requires capacity > 0
      ensures Valid() && fresh(slots) && slots.Length == capacity
      ensures View() == Empty(seq(capacity, _ => initial))
    {
      slots := new T[capacity](_ => initial);
      head, tail := 0, 0;
      pop, accepted, delivered := Outside, [], [];
    }

    /** The storing part of the interrupt handler. */
    method Store(item: T) returns (stored: bool)
      requires Valid()
      modifies this`head, this`accepted, slots
      ensures Valid() && View() == Arrival(old(View()), item)
      ensures stored <==> old(Next(head, slots.Length) != tail)
    {
      ArrivalAppends(View(), item);
      var n := Next(head, slots.Length);
      if n == tail {
        return false;
      }
      slots[head] := item;
      head := n;
      accepted := accepted + [item];
      return true;
    }

    /** Interrupts that happen to run at one point of the main loop. */
    method Interrupts(arrivals: seq<T>)
      requires Valid()
      modifies this`head, this`accepted, slots
      ensures View() == ArriveAll(old(View()), arrivals)
      ensures Valid()
    {
      hide Inv, Arrival;
      var i := 0;
      while i < |arrivals|
        invariant i <= |arrivals| && Valid()
        invariant ArriveAll(old(View()), arrivals) == ArriveAll(View(), arrivals[i..])
      {
        assert arrivals[i..][0] == arrivals[i] && arrivals[i..][1..] == arrivals[i + 1..];
        var _ := Store(arrivals[i]);
        i := i + 1;
      }
    }

    method Look() returns (found: bool)
      requires Valid() && pop == Outside
      modifies this`pop
      ensures Valid() && View() == PopStep(old(View()))
      ensures found <==> pop == FoundItem
    {
      PopStepKeepsInv(View());
      found := tail != head;
      if found {
        pop := FoundItem;
      }
    }

    method Take() returns (item: T)
      requires Valid() && pop == FoundItem
      modifies this`pop
      ensures Valid() && View() == PopStep(old(View())) && pop == TookItem(item)
    {
      PopStepKeepsInv(View());
      item := slots[tail];
      pop := TookItem(item);
    }

    method Advance()
      requires Valid() && pop.TookItem?
      modifies this`tail, this`pop, this`delivered
      ensures Valid() && View() == PopStep(old(View()))
    {
      PopStepKeepsInv(View());
      tail := Next(tail, slots.Length);
      delivered := delivered + [pop.item];
      pop := Outside;
    }

    /** platform_uart_rx_pop, with arbitrary arrivals between its memory accesses. */
    method PopItem(first: seq<T>, second: seq<T>) returns (item: Option<T>)
      requires Valid() && pop == Outside
      modifies this, slots
      ensures (View(), item) == PopWhole(old(View()), first, second)
      ensures Valid() && pop == Outside
    {
      hide Inv, ArriveAll;
      PopWholeKeeps(View(), first, second);
      var found := Look();
      if !found {
        return None;
      }
      Interrupts(first);
      var x := Take();
      Interrupts(second);
      Advance();
      return Some(x);
    }

    /** Both indices back to zero: what was unread is discarded. */
    method Clear()
      requires Valid() && pop == Outside
      modifies this`head, this`tail, this`accepted
      ensures Valid() && head == tail == 0 && accepted == delivered
    {
      head, tail := 0, 0;
      accepted := delivered;
    }
  }
}
