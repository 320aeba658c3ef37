// The CAN receive loop of the main loop (protocol/dronecan.c:67 over platform/platform.c:154-155 and 178-181): how many
// frames a poll pops whatever interrupts do, and that at a bounded rate every acceptable message is popped.
module MainReceive {
  import opened Common
  import opened WrapTime
  import opened CanRx
  import opened MainIo
  import opened Health
  import opened MainModel
  import opened MainRuns
  import CanTx
  import CanRecovery

  // ---------------------------------------------------------------- one loop

  /** The frames waiting in the CAN ring. */
  function InRing(io: Io): int {
    |io.admitted| - |io.can.past|
  }

  lemma InRingIsUnread(io: Io)
    requires CanCounted(io)
    ensures InRing(io) == |Unread(io.can)|
    ensures io.can.rx.head == io.can.rx.tail <==> InRing(io) == 0
  {
    assert |Slots(io.can.past) + Unread(io.can)| == |Slots(io.can.past)| + |Unread(io.can)|;
    hide Slots, PoppedOf;
  }

  /** All that left the ring from position n on was popped. */
  predicate PoppedSince(past: seq<Fate>, n: nat) {
    forall k :: n <= k < |past| ==> past[k].Popped?
  }

  lemma AccessedPops(io: Io)
    requires CanCounted(io)
    ensures io.can.past <= Accessed(io).can.past && PoppedSince(Accessed(io).can.past, |io.can.past|)
    ensures Accessed(io).admitted == io.admitted
  {}

  lemma PopOnePops(io: Io, batches: seq<Batch>, k: nat)
    requires MainIo.CanInv(io)
    ensures var (u, found) := PopOne(io, batches, k);
            && io.can.past <= u.can.past && PoppedSince(u.can.past, |io.can.past|)
            && (!found ==> InRing(u) == 0)
  {
    hide CanCounted, MainIo.CanIrq, Accessed, CanRx.CanInv, CanRx.Unread, Slots;
    var a := MainIo.CanIrq(io, BatchAt(batches, k));
    InRingIsUnread(a);
    if a.can.rx.head != a.can.rx.tail {
      AccessedPops(a);
      var b := MainIo.CanIrq(Accessed(a), BatchAt(batches, k + 1));
      AccessedPops(b);
      var c := MainIo.CanIrq(Accessed(b), BatchAt(batches, k + 2));
      AccessedPops(c);
    }
  }

  lemma {:induction false} PopAllPops(io: Io, batches: seq<Batch>, k: nat, budget: nat)
    requires MainIo.CanInv(io)
    ensures var (u, n) := PopAll(io, batches, k, budget);
            && io.can.past <= u.can.past && PoppedSince(u.can.past, |io.can.past|)
            && (n == budget || InRing(u) == 0)
    decreases budget
  {
    hide CanCounted, PopOne;
    if budget > 0 {
      PopOnePops(io, batches, k);
      var (u, found) := PopOne(io, batches, k);
      if found {
        PopAllPops(u, batches, k + 3, budget - 1);
      }
    }
  }

  /**
   * Whatever interrupts come at any point of it, the receive loop of a poll pops frames until it has 16 or has found
   * the ring empty, in ring order, and throws none away.
   */
  lemma PolledExactly(io: Io, batches: seq<Batch>)
    requires IoInv(io)
    ensures CanRx.CanInv(io.can)
    ensures var (u, n) := Polled(io, batches);
            && CanRx.CanInv(u.can) && (n == 16 || (n < 16 && Unread(u.can) == []))
            && u.can.past[..|io.can.past|] == io.can.past && |u.can.past| == |io.can.past| + n
            && forall k :: |io.can.past| <= k < |u.can.past| ==>
                 u.can.past[k].Popped? && u.can.past[k].slot == u.admitted[k]
  {
    CanParts(io);
    hide IoInv, MainIo.CanInv, PopAll, CanRx.CanInv, Unread, PoppedSince;
    CanParts(Polled(io, batches).0);
    LoopPops(io, batches);
  }

  lemma LoopPops(io: Io, batches: seq<Batch>)
    requires MainIo.CanInv(io)
    ensures CanRx.CanInv(PopAll(io, batches, 3, CAN_RX_BUDGET).0.can)
    ensures var (u, n) := PopAll(io, batches, 3, CAN_RX_BUDGET);
            && (n == 16 || (n < 16 && Unread(u.can) == []))
            && u.can.past[..|io.can.past|] == io.can.past && |u.can.past| == |io.can.past| + n
            && forall k :: |io.can.past| <= k < |u.can.past| ==>
                 u.can.past[k].Popped? && u.can.past[k].slot == u.admitted[k]
  {
    hide CanCounted, PopAll, PopOne;
    PopAllPops(io, batches, 3, CAN_RX_BUDGET);
    var u := PopAll(io, batches, 3, CAN_RX_BUDGET).0;
    InRingIsUnread(u);
    PastIsAdmitted(u);
    CountedInv(u);
    hide CanRx.CanInv, Unread, MainIo.CanInv;
  }

  lemma CountedInv(io: Io)
    requires CanCounted(io)
    ensures CanRx.CanInv(io.can)
  {}

  lemma CanParts(io: Io)
    requires IoInv(io)
    ensures MainIo.CanInv(io) && CanCounted(io) && CanRx.CanInv(io.can)
  {
    hide UartInv, RxInv, CanRx.CanInv;
  }

  lemma PastIsAdmitted(io: Io)
    requires CanCounted(io)
    ensures |io.can.past| <= |io.admitted|
    ensures forall k :: 0 <= k < |io.can.past| ==> io.can.past[k].slot == io.admitted[k]
  {
    hide PoppedOf, Unread;
    var s := Slots(io.can.past);
    assert forall k :: 0 <= k < |s| ==> s[k] == io.admitted[k];
  }

  /** A reinitialisation empties the ring and throws away what was in it; without one nothing leaves the ring. */
  lemma RecoveredExactly(io: Io, batches: seq<Batch>, reinit: bool)
    requires IoInv(io)
    ensures CanRx.CanInv(io.can)
    ensures var u := Recovered(io, batches, reinit);
            && CanRx.CanInv(u.can)
            && |io.can.past| <= |u.can.past| && u.can.past[..|io.can.past|] == io.can.past
            && (if reinit
                then Unread(u.can) == []
                     && forall k :: |io.can.past| <= k < |u.can.past| ==> u.can.past[k] == Dropped(u.admitted[k])
                else u.can.past == io.can.past)
  {
    hide *;
    CanParts(io);
    RecoveredIs(io, batches, reinit);
    var u, a := Recovered(io, batches, reinit), MainIo.CanIrq(io, BatchAt(batches, 2));
    CanParts(u);
    PastIsAdmitted(u);
    if reinit {
      ReinitialiseDrops(a);
      AllDropped(io.can.past, u.can.past, u.admitted);
    } else {
      WholePrefix(io.can.past);
    }
  }

  lemma RecoveredIs(io: Io, batches: seq<Batch>, reinit: bool)
    requires IoInv(io) && MainIo.CanInv(io)
    ensures var a := MainIo.CanIrq(io, BatchAt(batches, 2));
            && MainIo.CanInv(a) && a.can.past == io.can.past
            && Recovered(io, batches, reinit) == if reinit then MainIo.Reinitialise(a) else a
  {
    hide IoInv, CanCounted, MainIo.CanIrq, MainIo.Reinitialise;
  }

  lemma AllDropped(before: seq<Fate>, after: seq<Fate>, admitted: seq<Slot>)
    requires |before| <= |after| <= |admitted| && forall k :: |before| <= k < |after| ==> after[k].Dropped?
    requires forall k :: 0 <= k < |after| ==> after[k].slot == admitted[k]
    ensures forall k :: |before| <= k < |after| ==> after[k] == Dropped(admitted[k])
  {}

  lemma WholePrefix(a: seq<Fate>)
    ensures a[..|a|] == a
  {}

  lemma ReinitialiseDrops(io: Io)
    requires MainIo.CanInv(io)
    ensures CanRx.CanInv(MainIo.Reinitialise(io).can)
    ensures var u := MainIo.Reinitialise(io);
            && Unread(u.can) == [] && |io.can.past| <= |u.can.past| && u.can.past[..|io.can.past|] == io.can.past
            && forall k :: |io.can.past| <= k < |u.can.past| ==> u.can.past[k].Dropped?
  {
    ClearedExactly(io.can);
    DropsAll(io.can);
    hide CanRx.CanInv, Unread, PoppedOf, Slots;
  }

  lemma DropsAll(s: Can)
    requires CanRx.CanInv(s)
    ensures var t := Cleared(s);
            s.past <= t.past && forall k :: |s.past| <= k < |t.past| ==> t.past[k].Dropped?
  {
    hide PoppedOf, Unread;
  }

  // ---------------------------------------------------------------- a ring that never fills

  /**
   * The frame a message should give: an extended data frame of at most 8 bytes gives one, with the extended flag set.
   */
  function FrameOf(m: Message, now: u32): (r: seq<Slot>)
    ensures |r| <= 1
  {
    if m.extended && m.dataFrame && m.dlc <= 8
    then [Slot(0x8000_0000 + m.id, if m.dlc <= |m.data| then m.data[..m.dlc] else m.data, now)] else []
  }

  function AcceptableOf(batch: Batch): (r: seq<Slot>)
    ensures |r| <= |batch|
  {
    if batch == [] then [] else FrameOf(batch[0].0, batch[0].1) + AcceptableOf(batch[1..])
  }

  lemma {:induction false} AcceptableConcat(a: Batch, b: Batch)
    ensures AcceptableOf(a + b) == AcceptableOf(a) + AcceptableOf(b)
    decreases a
  {
    if a == [] {
      assert a + b == b;
    } else {
      assert (a + b)[1..] == a[1..] + b;
      AcceptableConcat(a[1..], b);
      Regroup(FrameOf(a[0].0, a[0].1), AcceptableOf(a[1..]), AcceptableOf(b));
    }
  }

  /** A ring with room for a whole batch takes its acceptable messages. */
  lemma {:induction false} BatchFits(s: Can, batch: Batch)
    requires CanRx.CanInv(s) && |Unread(s)| + |batch| <= 15
    ensures BatchAdmits(s, batch) == AcceptableOf(batch)
    decreases batch
  {
    if batch != [] {
      var (m, now) := batch[0];
      ReceiveExactly(s, m, now);
      OneFits(s, m, now);
      hide CanRx.CanInv, Receive, Unread, Admits, FrameOf;
      BatchFits(Receive(s, m, now), batch[1..]);
    }
  }

  lemma OneFits(s: Can, m: Message, now: u32)
    requires CanRx.CanInv(s) && |Unread(s)| < 15
    ensures Admits(s, m, now) == FrameOf(m, now)
  {
    hide CanRx.CanInv, Unread;
  }

  lemma IrqFits(io: Io, batch: Batch)
    requires CanCounted(io) && InRing(io) + |batch| <= 15
    ensures var u := MainIo.CanIrq(io, batch);
            && u.admitted == io.admitted + AcceptableOf(batch) && u.arrived == io.arrived + |batch|
            && InRing(u) <= InRing(io) + |batch|
  {
    InRingIsUnread(io);
    CountedInv(io);
    hide CanRx.CanInv, Unread, AcceptableOf;
    BatchFits(io.can, batch);
  }

  /** The messages that come at the points from first up to but not including limit. */
  function Span(batches: seq<Batch>, first: nat, limit: nat): Batch
    requires first <= limit
    decreases limit - first
  {
    if first == limit then [] else BatchAt(batches, first) + Span(batches, first + 1, limit)
  }

  lemma {:induction false} SpanSplits(batches: seq<Batch>, first: nat, middle: nat, limit: nat)
    requires first <= middle <= limit
    ensures Span(batches, first, limit) == Span(batches, first, middle) + Span(batches, middle, limit)
    decreases middle - first
  {
    if first < middle {
      SpanSplits(batches, first + 1, middle, limit);
      Regroup(BatchAt(batches, first), Span(batches, first + 1, middle), Span(batches, middle, limit));
    }
  }

  lemma ThreePoints(batches: seq<Batch>, k: nat)
    ensures Span(batches, k, k + 3) == BatchAt(batches, k) + BatchAt(batches, k + 1) + BatchAt(batches, k + 2)
    ensures Span(batches, k, k + 1) == BatchAt(batches, k)
  {
    assert Span(batches, k, k + 3) == BatchAt(batches, k) + Span(batches, k + 1, k + 3);
    assert Span(batches, k + 1, k + 3) == BatchAt(batches, k + 1) + Span(batches, k + 2, k + 3);
    assert Span(batches, k + 2, k + 3) == BatchAt(batches, k + 2) + Span(batches, k + 3, k + 3);
    assert Span(batches, k, k + 1) == BatchAt(batches, k) + Span(batches, k + 1, k + 1);
    hide Span;
  }

  /** All messages still to come, from point k on. */
  function StillToCome(batches: seq<Batch>, k: nat): nat
    decreases |batches| - k
  {
    if k >= |batches| then 0 else |batches[k]| + StillToCome(batches, k + 1)
  }

  lemma ComeFrom(batches: seq<Batch>, k: nat)
    ensures StillToCome(batches, k) == |BatchAt(batches, k)| + StillToCome(batches, k + 1)
  {}

  lemma ComeInThree(batches: seq<Batch>, k: nat)
    ensures StillToCome(batches, k)
         == |BatchAt(batches, k)| + |BatchAt(batches, k + 1)| + |BatchAt(batches, k + 2)| + StillToCome(batches, k + 3)
  {
    ComeFrom(batches, k);
    ComeFrom(batches, k + 1);
    ComeFrom(batches, k + 2);
    hide StillToCome, BatchAt;
  }

  /** u is io after the messages of the points from first to limit, all of them met by room. */
  predicate TookIn(io: Io, u: Io, batches: seq<Batch>, first: nat, limit: nat)
    requires first <= limit
  {
    && u.admitted == io.admitted + AcceptableOf(Span(batches, first, limit))
    && u.arrived == io.arrived + |Span(batches, first, limit)|
  }

  lemma TookInBoth(io: Io, a: Io, u: Io, batches: seq<Batch>, first: nat, middle: nat, limit: nat)
    requires first <= middle <= limit
    requires TookIn(io, a, batches, first, middle) && TookIn(a, u, batches, middle, limit)
    ensures TookIn(io, u, batches, first, limit)
  {
    hide Span, AcceptableOf;
    SpanSplits(batches, first, middle, limit);
    AcceptableConcat(Span(batches, first, middle), Span(batches, middle, limit));
    Regroup(io.admitted, AcceptableOf(Span(batches, first, middle)), AcceptableOf(Span(batches, middle, limit)));
  }

  lemma AccessedCounts(io: Io)
    requires CanCounted(io)
    ensures Accessed(io).admitted == io.admitted && Accessed(io).arrived == io.arrived
        && InRing(Accessed(io)) <= InRing(io)
  {}

  lemma PointTookIn(io: Io, batches: seq<Batch>, k: nat)
    requires CanCounted(io) && InRing(io) + |BatchAt(batches, k)| <= 15
    ensures TookIn(io, MainIo.CanIrq(io, BatchAt(batches, k)), batches, k, k + 1)
  {
    hide CanCounted, Span, AcceptableOf, BatchAt;
    IrqFits(io, BatchAt(batches, k));
    ThreePoints(batches, k);
  }

  lemma PopOneFits(io: Io, batches: seq<Batch>, k: nat)
    requires MainIo.CanInv(io) && InRing(io) + StillToCome(batches, k) <= 15
    ensures var (u, found) := PopOne(io, batches, k);
            && TookIn(io, u, batches, k, if found then k + 3 else k + 1)
            && (if found then InRing(u) + StillToCome(batches, k + 3) + 1 <= InRing(io) + StillToCome(batches, k)
                else InRing(u) == 0)
  {
    PopOnePops(io, batches, k);
    hide CanCounted, MainIo.CanIrq, Accessed, StillToCome, BatchAt, TookIn;
    ComeInThree(batches, k);
    PointTookIn(io, batches, k);
    IrqFits(io, BatchAt(batches, k));
    var a := MainIo.CanIrq(io, BatchAt(batches, k));
    if a.can.rx.head != a.can.rx.tail {
      PopOneRest(io, a, batches, k);
    }
  }

  lemma PopOneRest(io: Io, a: Io, batches: seq<Batch>, k: nat)
    requires CanCounted(a) && TookIn(io, a, batches, k, k + 1)
    requires InRing(a) + |BatchAt(batches, k + 1)| + |BatchAt(batches, k + 2)| <= 15
    ensures var b := MainIo.CanIrq(Accessed(a), BatchAt(batches, k + 1));
            var u := Accessed(MainIo.CanIrq(Accessed(b), BatchAt(batches, k + 2)));
            && TookIn(io, u, batches, k, k + 3)
            && |u.admitted| <= |a.admitted| + |BatchAt(batches, k + 1)| + |BatchAt(batches, k + 2)|
  {
    hide CanCounted, MainIo.CanIrq, Accessed, BatchAt, TookIn;
    AccessedCounts(a);
    PointTookIn(Accessed(a), batches, k + 1);
    IrqFits(Accessed(a), BatchAt(batches, k + 1));
    var b := MainIo.CanIrq(Accessed(a), BatchAt(batches, k + 1));
    TookInAlike(a, Accessed(a), b, b, batches, k + 1, k + 2);
    TookInBoth(io, a, b, batches, k, k + 1, k + 2);
    AccessedCounts(b);
    PointTookIn(Accessed(b), batches, k + 2);
    IrqFits(Accessed(b), BatchAt(batches, k + 2));
    var c := MainIo.CanIrq(Accessed(b), BatchAt(batches, k + 2));
    AccessedCounts(c);
    TookInAlike(b, Accessed(b), c, Accessed(c), batches, k + 2, k + 3);
    TookInBoth(io, b, Accessed(c), batches, k, k + 2, k + 3);
  }

  lemma TookInAlike(io: Io, io': Io, u: Io, u': Io, batches: seq<Batch>, first: nat, limit: nat)
    requires first <= limit && TookIn(io', u, batches, first, limit)
    requires io.admitted == io'.admitted && io.arrived == io'.arrived && u.admitted == u'.admitted
        && u.arrived == u'.arrived
    ensures TookIn(io, u', batches, first, limit)
  {}

  /** The points of its loop a poll gets to when it pops n frames and then finds the ring empty. */
  function LoopEnd(k: nat, n: nat): nat {
    k + 3 * n + 1
  }

  lemma {:induction false} PopAllFits(io: Io, batches: seq<Batch>, k: nat, budget: nat)
    requires MainIo.CanInv(io) && InRing(io) + StillToCome(batches, k) <= 15
        && InRing(io) + StillToCome(batches, k) < budget
    ensures var (u, n) := PopAll(io, batches, k, budget);
            InRing(u) == 0 && TookIn(io, u, batches, k, LoopEnd(k, n))
    decreases budget
  {
    hide CanCounted, PopOne, StillToCome, TookIn;
    PopOneFits(io, batches, k);
    InRingCounts(io);
    var (u, found) := PopOne(io, batches, k);
    if found {
      PopAllFits(u, batches, k + 3, budget - 1);
      var (v, n) := PopAll(u, batches, k + 3, budget - 1);
      assert LoopEnd(k + 3, n) == LoopEnd(k, n + 1);
      TookInBoth(io, u, v, batches, k, k + 3, LoopEnd(k, n + 1));
    }
  }

  lemma InRingCounts(io: Io)
    requires MainIo.CanInv(io)
    ensures InRing(io) >= 0
  {
    InRingIsUnread(io);
  }

  // ---------------------------------------------------------------- one iteration

  lemma FlagsFit(io: Io, batches: seq<Batch>)
    requires IoInv(io) && InRing(io) + StillToCome(batches, 0) <= 15
    ensures var u := MainIo.Flags(io, batches).0;
            && TookIn(io, u, batches, 0, 2) && u.can.past == io.can.past
            && InRing(u) + StillToCome(batches, 2) <= InRing(io) + StillToCome(batches, 0)
  {
    CanParts(io);
    hide IoInv, MainIo.CanInv, CanCounted, MainIo.CanIrq, MainIo.TakeActivity, MainIo.TakeOverflow, StillToCome, TookIn;
    FlagsTookIn(io, batches);
  }

  lemma FlagsTookIn(io: Io, batches: seq<Batch>)
    requires MainIo.CanInv(io) && InRing(io) + StillToCome(batches, 0) <= 15
    ensures var a := MainIo.TakeActivity(MainIo.CanIrq(io, BatchAt(batches, 0)));
            var u := MainIo.TakeOverflow(MainIo.CanIrq(a, BatchAt(batches, 1)));
            && TookIn(io, u, batches, 0, 2) && u.can.past == io.can.past
            && InRing(u) + StillToCome(batches, 2) <= InRing(io) + StillToCome(batches, 0)
  {
    ComeFrom(batches, 0);
    ComeFrom(batches, 1);
    hide CanCounted, MainIo.CanIrq, BatchAt, StillToCome, TookIn;
    PointTookIn(io, batches, 0);
    IrqFits(io, BatchAt(batches, 0));
    var a := MainIo.TakeActivity(MainIo.CanIrq(io, BatchAt(batches, 0)));
    TookInAlike(io, io, MainIo.CanIrq(io, BatchAt(batches, 0)), a, batches, 0, 1);
    PointTookIn(a, batches, 1);
    IrqFits(a, BatchAt(batches, 1));
    var u := MainIo.TakeOverflow(MainIo.CanIrq(a, BatchAt(batches, 1)));
    TookInAlike(a, a, MainIo.CanIrq(a, BatchAt(batches, 1)), u, batches, 1, 2);
    TookInBoth(io, a, u, batches, 0, 1, 2);
  }

  lemma RecoveredFits(io: Io, batches: seq<Batch>, reinit: bool)
    requires IoInv(io) && InRing(io) + StillToCome(batches, 2) <= 15
    ensures var u := Recovered(io, batches, reinit);
            && TookIn(io, u, batches, 2, 3) && io.can.past <= u.can.past && (!reinit ==> u.can.past == io.can.past)
            && InRing(u) + StillToCome(batches, 3) <= InRing(io) + StillToCome(batches, 2)
  {
    RecoveredExactly(io, batches, reinit);
    CanParts(io);
    ComeFrom(batches, 2);
    hide IoInv, CanCounted, MainIo.CanIrq, BatchAt, StillToCome, TookIn, CanRx.CanInv;
    PointTookIn(io, batches, 2);
    IrqFits(io, BatchAt(batches, 2));
    var a := MainIo.CanIrq(io, BatchAt(batches, 2));
    CanPastPrefix(io.can.past, Recovered(io, batches, reinit).can.past);
    TookInAlike(io, io, a, Recovered(io, batches, reinit), batches, 2, 3);
  }

  lemma CanPastPrefix(a: seq<Fate>, b: seq<Fate>)
    requires |a| <= |b| && b[..|a|] == a
    ensures a <= b
  {}

  /** All an iteration does to the CAN ring, from the state its publications leave. */
  lemma RingNext(s: Loop, i: Turn) returns (io: Io, reinit: bool)
    requires Inv(s)
    ensures IoInv(io) && io.can == s.io.can && io.arrived == s.io.arrived && io.admitted == s.io.admitted
    ensures var polled := Polled(Recovered(MainIo.Flags(io, i.irqs.can).0, i.irqs.can, reinit), i.irqs.can);
            var u := Iterate(s, i);
            && u.io == polled.0 && FramesGot(s, i) == polled.1
            && u.reinits == if reinit then s.reinits + [i.t] else s.reinits
  {
    hide Kept, Runnable, SensorStages, PublishStages, BusStage, TakeStage, IoInv, TofTurn, PmwStages, TofFlagged,
      CanRecovery.Step, MainIo.Flags, Recovered, Polled;
    KeptFacts(s);
    SensorStagesShape(s, i);
    var (a, flowDue, rangeDue) := SensorStages(s, i);
    PublishStagesIo(a, i, flowDue, rangeDue);
    var b := PublishStages(a, i, flowDue, rangeDue);
    PublishStagesShape(a, i, flowDue, rangeDue);
    io := b.io;
    reinit := BusStageIo(b, i);
    PollStageIo(BusStage(b, i), i);
  }

  lemma BusStageIo(s: Loop, i: Turn) returns (reinit: bool)
    requires IoInv(s.io)
    ensures BusStage(s, i).io == Recovered(MainIo.Flags(s.io, i.irqs.can).0, i.irqs.can, reinit)
    ensures BusStage(s, i).reinits == if reinit then s.reinits + [i.t] else s.reinits
  {
    hide Noted, Raise, Lower, CanRecovery.Step, Stamp, IoInv, MainIo.Flags, Recovered;
    reinit := CanRecovery.Step(s.recovery, i.busOff, Stamp(i.t), CAN_RECOVERY_MS).1;
  }

  lemma PollStageIo(s: Loop, i: Turn)
    requires IoInv(s.io)
    ensures var u := TakeStage(PollStage(s, i)); u.io == Polled(s.io, i.irqs.can).0 && u.reinits == s.reinits
  {
    hide Noted, CanTx.Poll, IoInv, Polled, PollWith;
  }

  /**
   * What an iteration does to the frames in the CAN ring: its poll pops frames in ring order until it has 16 or finds
   * the ring empty, and none is thrown away unless the controller is reinitialised in it.
   */
  lemma IteratePops(s: Loop, i: Turn)
    requires Inv(s)
    ensures CanRx.CanInv(Iterate(s, i).io.can)
    ensures var p, u, n := s.io.can.past, Iterate(s, i), FramesGot(s, i);
            var q := u.io.can.past;
            && (n == 16 || (n < 16 && Unread(u.io.can) == []))
            && |q| >= |p| + n && q[..|p|] == p
            && |q| <= |u.io.admitted|
            && (forall k :: |q| - n <= k < |q| ==> q[k] == Popped(u.io.admitted[k]))
            && (u.reinits == s.reinits ==> |q| == |p| + n)
            && (u.reinits != s.reinits ==> forall k :: |p| <= k < |q| - n ==> q[k] == Dropped(u.io.admitted[k]))
  {
    hide Inv, Iterate, IoInv, CanRx.CanInv, Unread, MainIo.Flags, Recovered, Polled, CanCounted, FramesGot;
    var io, reinit := RingNext(s, i);
    RingPops(io, i.irqs.can, reinit);
    AppendedDiffers(s.reinits, i.t);
  }

  lemma AppendedDiffers(times: seq<int>, t: int)
    ensures times + [t] != times
  {
    assert |times + [t]| == |times| + 1;
  }

  lemma RingPops(io: Io, batches: seq<Batch>, reinit: bool)
    requires IoInv(io)
    ensures CanRx.CanInv(Polled(Recovered(MainIo.Flags(io, batches).0, batches, reinit), batches).0.can)
    ensures var (u, n) := Polled(Recovered(MainIo.Flags(io, batches).0, batches, reinit), batches);
            var p, q := io.can.past, u.can.past;
            && (n == 16 || (n < 16 && Unread(u.can) == []))
            && |q| >= |p| + n && q[..|p|] == p && |q| <= |u.admitted|
            && (forall k :: |q| - n <= k < |q| ==> q[k] == Popped(u.admitted[k]))
            && (!reinit ==> |q| == |p| + n)
            && (reinit ==> forall k :: |p| <= k < |q| - n ==> q[k] == Dropped(u.admitted[k]))
  {
    hide IoInv, CanRx.CanInv, Unread, MainIo.Flags, Recovered, Polled;
    FlagsPast(io, batches);
    var a := MainIo.Flags(io, batches).0;
    RecoveredExactly(a, batches, reinit);
    var b := Recovered(a, batches, reinit);
    PolledExactly(b, batches);
    var u := Polled(b, batches).0;
    AdmittedGrows(b, batches);
    AdmittedGrows(u, batches);
    LongerPast(io.can.past, b.can.past, u.can.past);
    forall k | |u.can.past| - Polled(b, batches).1 <= k < |u.can.past| ensures u.can.past[k] == Popped(u.admitted[k]) {
      assert u.can.past[k].Popped?;
    }
  }

  lemma FlagsPast(io: Io, batches: seq<Batch>)
    requires IoInv(io)
    ensures MainIo.Flags(io, batches).0.can.past == io.can.past
  {
    CanParts(io);
    hide IoInv, CanCounted, MainIo.CanIrq;
  }

  lemma LongerPast(a: seq<Fate>, b: seq<Fate>, c: seq<Fate>)
    requires |a| <= |b| <= |c| && b[..|a|] == a && c[..|b|] == b
    ensures c[..|a|] == a && forall k :: |a| <= k < |b| ==> c[k] == b[k]
  {}

  lemma AdmittedGrows(io: Io, batches: seq<Batch>)
    requires IoInv(io)
    ensures io.admitted <= Polled(io, batches).0.admitted && |io.can.past| <= |io.admitted|
  {
    CanParts(io);
    PastIsAdmitted(io);
    hide IoInv, CanCounted, MainIo.CanInv, PopAll;
    PopAllAdmits(io, batches, 3, CAN_RX_BUDGET);
  }

  lemma IrqAdmits(io: Io, batch: Batch)
    requires CanCounted(io)
    ensures io.admitted <= MainIo.CanIrq(io, batch).admitted
  {
    hide CanCounted;
  }

  lemma PopOneAdmits(io: Io, batches: seq<Batch>, k: nat)
    requires MainIo.CanInv(io)
    ensures io.admitted <= PopOne(io, batches, k).0.admitted
  {
    hide CanCounted, MainIo.CanIrq;
    var a := MainIo.CanIrq(io, BatchAt(batches, k));
    IrqAdmits(io, BatchAt(batches, k));
    if a.can.rx.head != a.can.rx.tail {
      IrqAdmits(Accessed(a), BatchAt(batches, k + 1));
      var b := MainIo.CanIrq(Accessed(a), BatchAt(batches, k + 1));
      IrqAdmits(Accessed(b), BatchAt(batches, k + 2));
    }
  }

  lemma {:induction false} PopAllAdmits(io: Io, batches: seq<Batch>, k: nat, budget: nat)
    requires MainIo.CanInv(io)
    ensures io.admitted <= PopAll(io, batches, k, budget).0.admitted
    decreases budget
  {
    hide CanCounted, PopOne;
    if budget > 0 {
      PopOneAdmits(io, batches, k);
      var (u, found) := PopOne(io, batches, k);
      if found {
        PopAllAdmits(u, batches, k + 3, budget - 1);
      }
    }
  }

  // ---------------------------------------------------------------- no frame is lost

  /** The messages that come in an iteration, by the point at which its poll finds the ring empty. */
  ghost function Coming(s: Loop, i: Turn): Batch
    requires Inv(s)
  {
    Span(i.irqs.can, 0, LoopEnd(3, FramesGot(s, i)))
  }

  lemma IterateTakes(s: Loop, i: Turn)
    requires Inv(s) && InRing(s.io) + StillToCome(i.irqs.can, 0) <= 15
    ensures var u := Iterate(s, i).io;
            && u.admitted == s.io.admitted + AcceptableOf(Coming(s, i))
            && u.arrived == s.io.arrived + |Coming(s, i)| && InRing(u) == 0
  {
    hide Inv, Iterate, IoInv, MainIo.Flags, Recovered, Polled, FramesGot, StillToCome, Span, AcceptableOf, TookIn;
    var io, reinit := RingNext(s, i);
    RingTakes(io, i.irqs.can, reinit);
    TookInMeans(io, Iterate(s, i).io, i.irqs.can, LoopEnd(3, FramesGot(s, i)));
  }

  lemma TookInMeans(io: Io, u: Io, batches: seq<Batch>, limit: nat)
    requires TookIn(io, u, batches, 0, limit)
    ensures u.admitted == io.admitted + AcceptableOf(Span(batches, 0, limit))
    ensures u.arrived == io.arrived + |Span(batches, 0, limit)|
  {}

  lemma RingTakes(io: Io, batches: seq<Batch>, reinit: bool)
    requires IoInv(io) && InRing(io) + StillToCome(batches, 0) <= 15
    ensures var (u, n) := Polled(Recovered(MainIo.Flags(io, batches).0, batches, reinit), batches);
            InRing(u) == 0 && TookIn(io, u, batches, 0, LoopEnd(3, n))
  {
    hide IoInv, MainIo.Flags, Recovered, MainIo.CanInv, CanCounted, PopAll, StillToCome, TookIn;
    FlagsFit(io, batches);
    var a := MainIo.Flags(io, batches).0;
    RecoveredFits(a, batches, reinit);
    var b := Recovered(a, batches, reinit);
    CanParts(b);
    PopAllFits(b, batches, 3, CAN_RX_BUDGET);
    var (u, n) := Polled(b, batches);
    TookInBoth(io, a, b, batches, 0, 2, 3);
    TookInBoth(io, b, u, batches, 0, 3, LoopEnd(3, n));
  }

  /** All that come in a run. */
  ghost function AllComing(s: Loop, turns: seq<Turn>): Batch
    requires Inv(s)
    decreases turns
  {
    if turns == [] then [] else
      IterateReports(s, turns[0]);
      Coming(s, turns[0]) + AllComing(Iterate(s, turns[0]), turns[1..])
  }

  /** At most 15 CAN messages come in each iteration. */
  predicate Unhurried(turns: seq<Turn>) {
    forall k :: 0 <= k < |turns| ==> StillToCome(turns[k].irqs.can, 0) <= 15
  }

  lemma {:induction false} RunTakes(s: Loop, turns: seq<Turn>)
    requires Inv(s) && InRing(s.io) == 0 && Unhurried(turns)
    ensures var u := Run(s, turns).io;
            && u.admitted == s.io.admitted + AcceptableOf(AllComing(s, turns))
            && u.arrived == s.io.arrived + |AllComing(s, turns)| && InRing(u) == 0
    decreases turns
  {
    hide Inv, Iterate, Reports, AcceptableOf, Coming, StillToCome;
    if turns == [] {
      assert AcceptableOf([]) == [] by { NoneAcceptable(); }
    } else {
      IterateReports(s, turns[0]);
      IterateTakes(s, turns[0]);
      var u, rest := Iterate(s, turns[0]), turns[1..];
      assert Unhurried(rest);
      RunTakes(u, rest);
      AcceptableConcat(Coming(s, turns[0]), AllComing(u, rest));
      Regroup(s.io.admitted, AcceptableOf(Coming(s, turns[0])), AcceptableOf(AllComing(u, rest)));
    }
  }

  lemma NoneAcceptable()
    ensures AcceptableOf([]) == []
  {}

  /** Without a reinitialisation nothing but pops takes frames out of the ring. */
  lemma {:induction false} RunPops(s: Loop, turns: seq<Turn>)
    requires Inv(s) && PoppedSince(s.io.can.past, 0)
    ensures s.reinits <= Run(s, turns).reinits
    ensures Run(s, turns).reinits == s.reinits ==> PoppedSince(Run(s, turns).io.can.past, 0)
    decreases turns
  {
    hide Inv, Iterate, Reports, CanRx.CanInv, Unread, FramesGot, PoppedSince;
    if turns != [] {
      IterateReports(s, turns[0]);
      var u := Iterate(s, turns[0]);
      IteratePops(s, turns[0]);
      ReinitsGrow(s, turns[0]);
      if u.reinits == s.reinits {
        StillPopped(s.io.can.past, u.io.can.past, FramesGot(s, turns[0]), u.io.admitted);
        RunPops(u, turns[1..]);
      } else {
        RunReinits(u, turns[1..]);
      }
    }
  }

  lemma StillPopped(p: seq<Fate>, q: seq<Fate>, n: nat, admitted: seq<Slot>)
    requires PoppedSince(p, 0) && |q| == |p| + n && q[..|p|] == p && |q| <= |admitted|
    requires forall k :: |q| - n <= k < |q| ==> q[k] == Popped(admitted[k])
    ensures PoppedSince(q, 0)
  {
    assert forall k :: 0 <= k < |p| ==> q[k] == p[k];
  }

  lemma ReinitsGrow(s: Loop, i: Turn)
    requires Inv(s)
    ensures s.reinits <= Iterate(s, i).reinits
  {
    hide Inv, Iterate, IoInv, MainIo.Flags, Recovered, Polled, FramesGot;
    var io, reinit := RingNext(s, i);
  }

  lemma {:induction false} RunReinits(s: Loop, turns: seq<Turn>)
    requires Inv(s)
    ensures s.reinits <= Run(s, turns).reinits
    decreases turns
  {
    hide Inv, Iterate, Reports;
    if turns != [] {
      IterateReports(s, turns[0]);
      ReinitsGrow(s, turns[0]);
      RunReinits(Iterate(s, turns[0]), turns[1..]);
    }
  }

  /**
   * With at most 15 CAN messages an iteration none is refused for lack of space: from power-on, the frames admitted
   * are the acceptable messages that came, in order, only the others count as refused, none waits at the end of an
   * iteration, and without a reinitialisation the loop has popped every one of them.
   */
  lemma NoFrameLost(t: int, us: int, turns: seq<Turn>)
    requires Unhurried(turns)
    ensures Inv(Initial(t, us))
    ensures var u, all := Run(Initial(t, us), turns), AllComing(Initial(t, us), turns);
            && u.io.admitted == AcceptableOf(all) && u.io.arrived == |all|
            && u.io.can.refusedEver == |all| - |AcceptableOf(all)|
            && |u.io.can.past| == |u.io.admitted|
            && (u.reinits == [] ==> u.io.can.rx.delivered == AcceptableOf(all))
  {
    NothingCameYet(t, us);
    hide Run, Inv, Initial, Unhurried, AcceptableOf, AllComing, CanRx.CanInv, PoppedOf, Unread, PoppedSince;
    InitialInv(t, us);
    RunKeepsInv(Initial(t, us), turns);
    RunTakes(Initial(t, us), turns);
    RunPops(Initial(t, us), turns);
    var u := Run(Initial(t, us), turns);
    CanRingKept(u);
    EmptyRing(u);
    if u.reinits == [] {
      AllPopped(u.io.can.past);
    }
  }

  lemma NothingCameYet(t: int, us: int)
    ensures var s := Initial(t, us);
            s.io.admitted == [] && s.io.arrived == 0 && InRing(s.io) == 0 && PoppedSince(s.io.can.past, 0)
                && s.reinits == []
  {}

  lemma EmptyRing(s: Loop)
    requires Inv(s) && InRing(s.io) == 0
    ensures CanRx.CanInv(s.io.can) && Unread(s.io.can) == [] && Slots(s.io.can.past) == s.io.admitted
  {
    CanRingKept(s);
    hide Inv, CanRx.CanInv, PoppedOf, Slots, Unread;
    assert Slots(s.io.can.past) + Unread(s.io.can) == s.io.admitted;
  }

  lemma {:induction false} AllPopped(past: seq<Fate>)
    requires PoppedSince(past, 0)
    ensures PoppedOf(past) == Slots(past)
    decreases past
  {
    if past != [] {
      var n := |past| - 1;
      AllPopped(past[..n]);
      assert Slots(past) == Slots(past[..n]) + [past[n].slot];
    }
  }
}
