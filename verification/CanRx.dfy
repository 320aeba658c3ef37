// The CAN receive ring of platform/platform.c with its two flags, shared between the CAN interrupt and the main loop.
module CanRx {
  import opened Common
  import opened Bytes
  import opened WrapTime
  import opened Ring
  import opened RxRing

  const QUEUE_SIZE := 16
  const MAX_DATA := 8
  const EXTENDED_FLAG := 0x8000_0000

  /** A message in the controller's FIFO. */
  datatype Message = Message(extended: bool, dataFrame: bool, id: nat, dlc: nat, data: seq<byte>) {
    predicate Acceptable() {
      extended && dataFrame && dlc <= MAX_DATA
    }
  }

  /** A message with the microsecond count at its turn in the handler. */
  type Batch = seq<(Message, u32)>

  datatype Slot = Slot(id: nat, data: seq<byte>, timestamp: u32)

  /** What the handler stores for an acceptable message. */
  function Stored(m: Message, now: u32): Slot {
    Slot(m.id + EXTENDED_FLAG, if m.dlc <= |m.data| then m.data[..m.dlc] else m.data, now)
  }

  /** How a frame left the ring. */
  datatype Fate = Popped(slot: Slot) | Dropped(slot: Slot)

  /**
   * The ring and the flags. History: how every frame that is no longer in the ring left it, in ring order; the messages
   * refused since the overflow flag was last taken, and ever. In rx.accepted a reinitialisation forgets what it drops.
   */
  datatype Can = Can(rx: Rx<Slot>, overflow: bool, activity: bool, past: seq<Fate>, refused: nat, refusedEver: nat)

  datatype CanEvent =
    | Irq(batch: Batch)     // the handler empties the controller's FIFO
    | PopAccess             // the next memory access of the main loop's pop
    | TakeOverflow
    | TakeActivity
    | Reinit

  /** The frames the main loop has got, of those that left the ring. */
  function PoppedOf(past: seq<Fate>): seq<Slot> {
    if past == [] then [] else
      var last := past[|past| - 1];
      PoppedOf(past[..|past| - 1]) + (if last.Popped? then [last.slot] else [])
  }

  function Slots(past: seq<Fate>): (r: seq<Slot>)
    ensures |r| == |past|
  {
    seq(|past|, k requires 0 <= k < |past| => past[k].slot)
  }

  function Drop(slots: seq<Slot>): (r: seq<Fate>)
    ensures |r| == |slots|
  {
    seq(|slots|, k requires 0 <= k < |slots| => Dropped(slots[k]))
  }

  ghost predicate CanInv(s: Can) {
    && Inv(s.rx) && |s.rx.slots| == QUEUE_SIZE
    && (s.overflow <==> s.refused > 0)
    && PoppedOf(s.past) == s.rx.delivered
  }

  function Unread(s: Can): seq<Slot>
    requires s.rx.head < |s.rx.slots| && s.rx.tail < |s.rx.slots|
  {
    Contents(s.rx.slots, s.rx.head, s.rx.tail)
  }

  function Start(slots: seq<Slot>): Can {
    Can(Empty(slots), false, false, [], 0, 0)
  }

  lemma StartInv(slots: seq<Slot>)
    requires |slots| == QUEUE_SIZE
    ensures CanInv(Start(slots)) && Unread(Start(slots)) == []
  {}

  // ---------------------------------------------------------------- the interrupt handler

  function Receive(s: Can, m: Message, now: u32): Can
    requires s.rx.head < |s.rx.slots|
  {
    if !m.Acceptable() || Next(s.rx.head, |s.rx.slots|) == s.rx.tail then
      s.(activity := true, overflow := true, refused := s.refused + 1, refusedEver := s.refusedEver + 1)
    else
      s.(activity := true, rx := Arrival(s.rx, Stored(m, now)))
  }

  /** The frame a bounded queue of 15 would take in: the message is of the right kind and meets fewer than 15 unread. */
  function Admits(s: Can, m: Message, now: u32): seq<Slot>
    requires CanInv(s)
  {
    if m.Acceptable() && |Unread(s)| < 15 then [Stored(m, now)] else []
  }

  /** A message is refused exactly when it is of the wrong kind or 15 frames are unread; only then does the count grow. */
  lemma ReceiveExactly(s: Can, m: Message, now: u32)
    requires CanInv(s)
    ensures var t := Receive(s, m, now);
            && CanInv(t) && t.activity && t.rx.pop == s.rx.pop && t.past == s.past
            && Unread(t) == Unread(s) + Admits(s, m, now)
            && t.refused == s.refused + 1 - |Admits(s, m, now)|
            && t.refusedEver == s.refusedEver + 1 - |Admits(s, m, now)|
            && (Admits(s, m, now) == [] ==> t.rx == s.rx && t.overflow)
  {
    FullExactly(s.rx.slots, s.rx.head, s.rx.tail);
    UnreadBound(s.rx);
    if m.Acceptable() {
      ArrivalRefinesFifo(s.rx, Stored(m, now));
      ArrivalAppends(s.rx, Stored(m, now));
    }
    hide Contents, Next, Inv, PoppedOf;
  }

  function ReceiveAll(s: Can, batch: Batch): Can
    requires CanInv(s)
    decreases batch
  {
    if batch == [] then s else
      ReceiveExactly(s, batch[0].0, batch[0].1);
      ReceiveAll(Receive(s, batch[0].0, batch[0].1), batch[1..])
  }

  function BatchAdmits(s: Can, batch: Batch): (r: seq<Slot>)
    requires CanInv(s)
    ensures |r| <= |batch|
    decreases batch
  {
    if batch == [] then [] else
      ReceiveExactly(s, batch[0].0, batch[0].1);
      Admits(s, batch[0].0, batch[0].1) + BatchAdmits(Receive(s, batch[0].0, batch[0].1), batch[1..])
  }

  lemma {:induction false} ReceiveAllExactly(s: Can, batch: Batch)
    requires CanInv(s)
    ensures var t := ReceiveAll(s, batch);
            && CanInv(t) && t.rx.pop == s.rx.pop && t.past == s.past
            && Unread(t) == Unread(s) + BatchAdmits(s, batch)
            && t.refused == s.refused + |batch| - |BatchAdmits(s, batch)|
            && t.refusedEver == s.refusedEver + |batch| - |BatchAdmits(s, batch)|
    decreases batch
  {
    if batch != [] {
      var (m, now) := batch[0];
      var u := Receive(s, m, now);
      ReceiveExactly(s, m, now);
      Regroup(Unread(s), Admits(s, m, now), BatchAdmits(u, batch[1..]));
      hide CanInv, Receive, Admits, Contents, Unread;
      ReceiveAllExactly(u, batch[1..]);
    }
  }

  // ---------------------------------------------------------------- the main loop's accesses

  /** The next access of a pop; the last one takes the frame out. */
  function Access(s: Can): Can
    requires s.rx.tail < |s.rx.slots|
  {
    s.(rx := PopStep(s.rx), past := if s.rx.pop.TookItem? then s.past + [Popped(s.rx.pop.item)] else s.past)
  }

  function Cleared(s: Can): Can
    requires s.rx.head < |s.rx.slots| && s.rx.tail < |s.rx.slots|
  {
    s.(rx := s.rx.(head := 0, tail := 0, accepted := s.rx.delivered), activity := false, past := s.past + Drop(Unread(s)))
  }

  function Taken(s: Can): Can {
    s.(overflow := false, refused := 0)
  }

  lemma SlotsConcat(a: seq<Fate>, b: seq<Fate>)
    ensures Slots(a + b) == Slots(a) + Slots(b)
  {}

  lemma {:induction false} PoppedConcat(a: seq<Fate>, slots: seq<Slot>)
    ensures PoppedOf(a + Drop(slots)) == PoppedOf(a)
    decreases slots
  {
    if slots == [] {
      assert a + Drop(slots) == a;
    } else {
      var n := |slots| - 1;
      PoppedConcat(a, slots[..n]);
      assert (a + Drop(slots))[..|a| + n] == a + Drop(slots[..n]);
    }
  }

  lemma PoppedLast(past: seq<Fate>, x: Slot)
    ensures PoppedOf(past + [Popped(x)]) == PoppedOf(past) + [x]
    ensures Slots(past + [Popped(x)]) == Slots(past) + [x]
  {
    assert (past + [Popped(x)])[..|past|] == past;
  }

  /** The last access of a pop takes the oldest unread frame out. */
  lemma AccessTakes(s: Can)
    requires CanInv(s) && s.rx.pop.TookItem?
    ensures var t := Access(s);
            && CanInv(t) && t.past == s.past + [Popped(s.rx.pop.item)]
            && Unread(s) == [s.rx.pop.item] + Unread(t)
  {
    PopStepKeepsInv(s.rx);
    PopRemoves(s.rx.slots, s.rx.head, s.rx.tail);
    PoppedLast(s.past, s.rx.pop.item);
    hide Contents, Next, PoppedOf, Slots;
  }

  lemma AccessExactly(s: Can)
    requires CanInv(s)
    ensures var t := Access(s);
            && CanInv(t) && t.refused == s.refused && t.refusedEver == s.refusedEver
            && Slots(t.past) + Unread(t) == Slots(s.past) + Unread(s)
  {
    hide PoppedOf, Slots, Contents, Next;
    if s.rx.pop.TookItem? {
      AccessTakes(s);
      PoppedLast(s.past, s.rx.pop.item);
      Regroup(Slots(s.past), [s.rx.pop.item], Unread(Access(s)));
    } else {
      PopStepKeepsInv(s.rx);
    }
  }

  lemma ClearedExactly(s: Can)
    requires CanInv(s) && s.rx.pop.Outside?
    ensures var t := Cleared(s);
            && CanInv(t) && t.refused == s.refused && t.refusedEver == s.refusedEver && Unread(t) == []
            && Slots(t.past) == Slots(s.past) + Unread(s)
  {
    PoppedConcat(s.past, Unread(s));
    SlotsConcat(s.past, Drop(Unread(s)));
    assert Slots(Drop(Unread(s))) == Unread(s);
  }

  /** The controller is reinitialised only outside a pop. */
  predicate Enabled(s: Can, e: CanEvent) {
    e.Reinit? ==> s.rx.pop.Outside?
  }

  function CanStep(s: Can, e: CanEvent): Can
    requires CanInv(s) && Enabled(s, e)
  {
    match e
    case Irq(batch) => ReceiveAll(s, batch)
    case PopAccess => Access(s)
    case TakeOverflow => Taken(s)
    case TakeActivity => s.(activity := false)
    case Reinit => Cleared(s)
  }

  // ---------------------------------------------------------------- whole runs

  function EventAdmits(s: Can, e: CanEvent): seq<Slot>
    requires CanInv(s)
  {
    if e.Irq? then BatchAdmits(s, e.batch) else []
  }

  function Arriving(e: CanEvent): nat {
    if e.Irq? then |e.batch| else 0
  }

  lemma StepExactly(s: Can, e: CanEvent)
    requires CanInv(s) && Enabled(s, e)
    ensures var t := CanStep(s, e);
            && CanInv(t)
            && Slots(t.past) + Unread(t) == Slots(s.past) + Unread(s) + EventAdmits(s, e)
            && t.refusedEver == s.refusedEver + Arriving(e) - |EventAdmits(s, e)|
            && t.refused == if e.TakeOverflow? then 0 else s.refused + Arriving(e) - |EventAdmits(s, e)|
  {
    var past, unread := Slots(s.past), Unread(s);
    hide CanInv, Unread, ReceiveAll, BatchAdmits, Slots, Access, Cleared;
    match e {
      case Irq(batch) =>
        ReceiveAllExactly(s, batch);
        Regroup(past, unread, BatchAdmits(s, batch));
      case PopAccess => AccessExactly(s);
      case Reinit => ClearedExactly(s);
      case _ => FlagsOnly(s, e);
    }
  }

  lemma FlagsOnly(s: Can, e: CanEvent)
    requires CanInv(s) && (e.TakeOverflow? || e.TakeActivity?)
    ensures CanInv(CanStep(s, e)) && Unread(CanStep(s, e)) == Unread(s)
  {
    hide Contents, PoppedOf;
  }

  /** t is reached from s by the events, none of which reinitialises inside a pop. */
  ghost predicate Runs(s: Can, events: seq<CanEvent>, t: Can)
    requires CanInv(s)
    decreases events
  {
    if events == [] then s == t
    else Enabled(s, events[0]) && (StepExactly(s, events[0]); Runs(CanStep(s, events[0]), events[1..], t))
  }

  /** The acceptable messages that met fewer than 15 unread frames, in order of arrival. */
  ghost function Admitted(s: Can, events: seq<CanEvent>, t: Can): seq<Slot>
    requires CanInv(s) && Runs(s, events, t)
    decreases events
  {
    if events == [] then [] else
      StepExactly(s, events[0]);
      EventAdmits(s, events[0]) + Admitted(CanStep(s, events[0]), events[1..], t)
  }

  function Arrivals(events: seq<CanEvent>): nat {
    if events == [] then 0 else Arriving(events[0]) + Arrivals(events[1..])
  }

  /** The messages refused after the overflow flag was last taken, n of them before the events. */
  ghost function Outstanding(n: nat, s: Can, events: seq<CanEvent>, t: Can): nat
    requires CanInv(s) && Runs(s, events, t)
    decreases events
  {
    if events == [] then n else
      StepExactly(s, events[0]);
      var e := events[0];
      Outstanding(if e.TakeOverflow? then 0 else n + Arriving(e) - |EventAdmits(s, e)|, CanStep(s, e), events[1..], t)
  }

  /**
   * Over every run, with flags taken and the controller reinitialised at any time: the frames that left the ring and
   * then the unread ones are what was there before and then the admitted messages, in order.
   */
  lemma {:induction false} FramesInOrder(s: Can, events: seq<CanEvent>, t: Can)
    requires CanInv(s) && Runs(s, events, t)
    ensures CanInv(t)
    ensures Slots(t.past) + Unread(t) == Slots(s.past) + Unread(s) + Admitted(s, events, t)
    ensures t.refusedEver + |Admitted(s, events, t)| == s.refusedEver + Arrivals(events)
    ensures t.refused == Outstanding(s.refused, s, events, t)
    decreases events
  {
    var before := Slots(s.past) + Unread(s);
    hide CanInv, CanStep, EventAdmits, Slots, Unread;
    if events != [] {
      var u := CanStep(s, events[0]);
      StepExactly(s, events[0]);
      FramesInOrder(u, events[1..], t);
      Regroup(before, EventAdmits(s, events[0]), Admitted(u, events[1..], t));
    }
  }

  /**
   * From an empty ring: what the main loop has popped, with the frames thrown away by reinitialisations put back in
   * their places, and then the unread frames, are exactly the acceptable messages that met fewer than 15 unread, in
   * order of arrival; every message that arrived was popped, is unread, was thrown away, or was refused; and the
   * overflow flag is set exactly when a message was refused since it was last taken.
   */
  lemma EveryMessageAccountedFor(slots: seq<Slot>, events: seq<CanEvent>, t: Can)
    requires |slots| == QUEUE_SIZE && CanInv(Start(slots)) && Runs(Start(slots), events, t)
    ensures CanInv(t)
    ensures t.rx.delivered == PoppedOf(t.past)
    ensures Slots(t.past) + Unread(t) == Admitted(Start(slots), events, t)
    ensures Arrivals(events) == |t.past| + |Unread(t)| + t.refusedEver
    ensures t.overflow <==> Outstanding(0, Start(slots), events, t) > 0
  {
    FramesInOrder(Start(slots), events, t);
    assert Slots([]) == [];
    hide Runs, Admitted, Outstanding, Arrivals, Contents;
  }

  /** Without a reinitialisation nothing is thrown away: the popped frames and the unread ones are the admitted ones. */
  lemma {:induction false} NothingDropped(s: Can, events: seq<CanEvent>, t: Can)
    requires CanInv(s) && Runs(s, events, t)
    requires forall k :: 0 <= k < |events| ==> !events[k].Reinit?
    requires forall k :: 0 <= k < |s.past| ==> s.past[k].Popped?
    ensures forall k :: 0 <= k < |t.past| ==> t.past[k].Popped?
    decreases events
  {
    hide CanInv, CanStep;
    if events != [] {
      StepExactly(s, events[0]);
      PastGrows(s, events[0]);
      NothingDropped(CanStep(s, events[0]), events[1..], t);
    }
  }

  /** Only a reinitialisation drops frames. */
  lemma PastGrows(s: Can, e: CanEvent)
    requires CanInv(s) && Enabled(s, e) && !e.Reinit?
    ensures s.past <= CanStep(s, e).past
    ensures forall k :: |s.past| <= k < |CanStep(s, e).past| ==> CanStep(s, e).past[k].Popped?
  {
    hide CanInv, ReceiveAll;
    if e.Irq? {
      ReceiveAllExactly(s, e.batch);
    }
  }

  // ---------------------------------------------------------------- a whole pop with interrupts in it

  /** platform_can_rx_pop: a batch of interrupts after it has looked, and one after it has copied the frame out. */
  function PopFrame(s: Can, first: Batch, second: Batch): (r: (Can, Option<Slot>))
    requires CanInv(s) && s.rx.pop.Outside?
    ensures CanInv(r.0) && r.0.rx.pop.Outside?
    ensures r.1.None? <==> s.rx.head == s.rx.tail
    ensures r.1.None? ==> r.0 == s
    ensures r.1.Some? ==> r.0.past == s.past + [Popped(r.1.value)]
    ensures r.0.refused >= s.refused
  {
    if s.rx.head == s.rx.tail then (s, None) else
      AccessExactly(s);
      ReceiveAllExactly(Access(s), first);
      var a := ReceiveAll(Access(s), first);
      AccessExactly(a);
      ReceiveAllExactly(Access(a), second);
      var b := ReceiveAll(Access(a), second);
      AccessExactly(b);
      (Access(b), Some(b.rx.pop.item))
  }

  // ---------------------------------------------------------------- the code

  class CanReceiver {
    const queue: RxQueue<Slot>
    var canOverflow: bool
    var canActivity: bool
    ghost var past: seq<Fate>
    ghost var refused: nat
    ghost var refusedEver: nat

    ghost function View(): Can
      reads this, queue, queue.slots
    {
      Can(queue.View(), canOverflow, canActivity, past, refused, refusedEver)
    }

    ghost predicate Valid()
      reads this, queue, queue.slots
    {
      CanInv(View())
    }

    constructor (initial: Slot)
      ensures Valid() && View() == Start(seq(QUEUE_SIZE, _ => initial)) && fresh(queue) && fresh(queue.slots)
    {
      queue := new RxQueue<Slot>(QUEUE_SIZE, initial);
      canOverflow, canActivity, past, refused, refusedEver := false, false, [], 0, 0;
    }

    method Refuse()
      modifies this`canOverflow, this`refused, this`refusedEver
      ensures canOverflow && refused == old(refused) + 1 && refusedEver == old(refusedEver) + 1
    {
      canOverflow := true;
      refused, refusedEver := refused + 1, refusedEver + 1;
    }

    /** The handler's work for one message. */
    method ReceiveOne(m: Message, now: u32)
      requires Valid()
      modifies this`canOverflow, this`canActivity, this`refused, this`refusedEver, queue`head, queue`accepted, queue.slots
      ensures View() == Receive(old(View()), m, now)
      ensures Valid()
    {
      ReceiveExactly(View(), m, now);
      hide Arrival, PoppedOf, Contents;
      canActivity := true;
      if !m.Acceptable() {
        Refuse();
        return;
      }
      var stored := queue.Store(Stored(m, now));
      if !stored {
        assert queue.View() == old(queue.View()) by { RefusedUnchanged(old(queue.View()), Stored(m, now)); }
        Refuse();
      }
    }

    /** CAN1_RX0_IRQHandler, from start to end; each message comes with the microsecond count at its turn. */
    method RxIrqHandler(batch: Batch)
      requires Valid()
      modifies this`canOverflow, this`canActivity, this`refused, this`refusedEver, queue`head, queue`accepted, queue.slots
      ensures View() == ReceiveAll(old(View()), batch)
      ensures Valid()
    {
      hide CanInv, Receive;
      var i := 0;
      while i < |batch|
        invariant i <= |batch| && Valid()
        invariant ReceiveAll(old(View()), batch) == ReceiveAll(View(), batch[i..])
      {
        assert batch[i..][0] == batch[i] && batch[i..][1..] == batch[i + 1..];
        ReceiveOne(batch[i].0, batch[i].1);
        i := i + 1;
      }
    }

    method Look() returns (found: bool)
      requires Valid() && queue.pop == Outside
      modifies queue`pop
      ensures View() == Access(old(View())) && found == old(queue.head != queue.tail)
      ensures Valid() && (found <==> queue.pop == FoundItem) && (!found ==> queue.pop == Outside)
    {
      AccessExactly(View());
      found := queue.Look();
    }

    method Take() returns (item: Slot)
      requires Valid() && queue.pop == FoundItem
      modifies queue`pop
      ensures View() == Access(old(View()))
      ensures Valid() && queue.pop == TookItem(item)
    {
      AccessExactly(View());
      item := queue.Take();
    }

    method Advance()
      requires Valid() && queue.pop.TookItem?
      modifies queue`pop, queue`tail, queue`delivered, this`past
      ensures View() == Access(old(View()))
      ensures Valid() && queue.pop == Outside
    {
      AccessExactly(View());
      past := past + [Popped(queue.pop.item)];
      queue.Advance();
    }

    /** platform_can_rx_pop, with whole interrupts between its memory accesses. */
    method RxPop(first: Batch, second: Batch) returns (item: Option<Slot>)
      requires Valid() && queue.pop == Outside
      modifies this`canOverflow, this`canActivity, this`refused, this`refusedEver, this`past, queue, queue.slots
      ensures (View(), item) == PopFrame(old(View()), first, second)
      ensures Valid() && queue.pop == Outside
    {
      hide CanInv, ReceiveAll, Access;
      ghost var s := View();
      var found := Look();
      if !found {
        assert View() == s by { LookedInVain(s); }
        return None;
      }
      ReceiveAllExactly(View(), first);
      RxIrqHandler(first);
      var x := Take();
      ReceiveAllExactly(View(), second);
      RxIrqHandler(second);
      Advance();
      return Some(x);
    }

    /** take_flag on the overflow flag: interrupts are off around the read and the clear. */
    method TakeRxOverflow() returns (value: bool)
      requires Valid()
      modifies this`canOverflow, this`refused
      ensures View() == Taken(old(View()))
      ensures Valid() && (value <==> old(refused) > 0)
    {
      value := canOverflow;
      canOverflow := false;
      refused := 0;
    }

    method TakeRxActivity() returns (value: bool)
      requires Valid()
      modifies this`canActivity
      ensures View() == old(View()).(activity := false)
      ensures Valid() && value == old(canActivity)
    {
      value := canActivity;
      canActivity := false;
    }

    /** platform_can_reinit: the CAN interrupts are disabled around it, and the overflow flag is left alone. */
    method CanReinit()
      requires Valid() && queue.pop == Outside
      modifies this`canActivity, this`past, queue`head, queue`tail, queue`accepted
      ensures View() == Cleared(old(View()))
      ensures Valid() && queue.pop == Outside
    {
      ClearedExactly(View());
      past := past + Drop(Unread(View()));
      queue.Clear();
      canActivity := false;
    }
  }

  lemma RefusedUnchanged(s: Rx<Slot>, x: Slot)
    requires s.head < |s.slots| && Next(s.head, |s.slots|) == s.tail
    ensures Arrival(s, x) == s
  {}

  lemma LookedInVain(s: Can)
    requires CanInv(s) && s.rx.pop.Outside? && s.rx.head == s.rx.tail
    ensures Access(s) == s
  {}
}
