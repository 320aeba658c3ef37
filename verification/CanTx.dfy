// The DroneCAN transmit side: broadcast and dronecan_poll of protocol/dronecan.c over libcanard's transmit queue
// and block pool. Clock readings are true microseconds since dronecan_init, which CanClock shows the clock tells.
module CanTx {
  import opened WrapTime

  const CAPACITY := 51            // a 2048-byte arena of 40-byte blocks
  const RESERVE := 16
  const PRIORITY_HIGH := 8
  const PRIORITY_LOW := 24
  const TX_DEADLINE_US := 100_000
  const HIGH_PRIORITY_TX_DEADLINE_US := 500_000
  const CLEANUP_INTERVAL_US := 50_000
  const STATUS_INTERVAL_MS := 1000
  const RX_BUDGET := 16
  const TX_BUDGET := 16
  const NODE_ID := 125
  const FLOW_ID := 20200
  const RANGE_ID := 1050
  const STATUS_ID := 341
  const NODE_INFO_ID := 1
  const FLOW_LENGTH := 21
  const RANGE_LENGTH := 15
  const STATUS_LENGTH := 7

  /** A queued CAN frame; serial numbers the frames in the order in which blocks were allocated for them. */
  datatype Frame = Frame(id: nat, deadline: nat, serial: nat)

  /**
   * The queue, the blocks held by half-received transfers, tx_overflow_pending and the two deadlines. History: every
   * frame made, those that left by hardware acceptance, stale cleanup and bus-off, and the transfers refused since
   * the overflow flag was last taken.
   */
  datatype Tx = Tx(queue: seq<Frame>, rxBlocks: nat, overflow: bool, nextCleanup: nat, nextStatus: u32,
                   made: seq<Frame>, sent: seq<Frame>, expired: seq<Frame>, flushed: seq<Frame>, refused: nat)

  const INITIAL := Tx([], 0, false, 0, 0, [], [], [], [], 0)

  function AtMost(a: nat, b: int): nat {
    if b < 0 then 0 else if a <= b then a else b
  }

  function Free(s: Tx): int {
    CAPACITY - (|s.queue| + s.rxBlocks)
  }

  // ---------------------------------------------------------------- the queue

  predicate SortedById(q: seq<Frame>) {
    forall i, j :: 0 <= i < j < |q| ==> q[i].id <= q[j].id
  }

  /** Frames of one id stand in the order in which they were made. */
  predicate PerIdOrder(q: seq<Frame>) {
    forall i, j :: 0 <= i < j < |q| && q[i].id == q[j].id ==> q[i].serial < q[j].serial
  }

  /** How many frames stay ahead of a new frame with this id; lower ids go first. */
  function Place(q: seq<Frame>, id: nat): (p: nat)
    ensures p <= |q|
    ensures forall k :: 0 <= k < p ==> q[k].id <= id
    ensures p < |q| ==> id < q[p].id
  {
    if q == [] || id < q[0].id then 0 else 1 + Place(q[1..], id)
  }

  /** pushTxQueue */
  function Insert(q: seq<Frame>, f: Frame): seq<Frame> {
    var p := Place(q, f.id);
    q[..p] + [f] + q[p..]
  }

  lemma InsertIntoOrder(before: seq<Frame>, f: Frame, after: seq<Frame>)
    requires PerIdOrder(before + after)
    requires forall x :: x in before ==> x.serial < f.serial
    requires forall x :: x in after ==> x.id != f.id
    ensures PerIdOrder(before + [f] + after)
  {
    var s, t := before + after, before + [f] + after;
    var n := |before|;
    assert forall m :: n < m < |t| ==> t[m] == after[m - n - 1] && t[m] in after;
    forall i, j | 0 <= i < j < |t| && t[i].id == t[j].id ensures t[i].serial < t[j].serial {
      if j == n {
        assert t[i] in before;
      } else if i != n {
        var a, b := if i < n then i else i - 1, if j < n then j else j - 1;
        assert t[i] == s[a] && t[j] == s[b];
      }
    }
  }

  lemma InsertAdds(q: seq<Frame>, f: Frame)
    ensures multiset(Insert(q, f)) == multiset(q) + multiset{f} && |Insert(q, f)| == |q| + 1
  {
    var p := Place(q, f.id);
    assert q == q[..p] + q[p..];
  }

  lemma InsertKeepsSorted(q: seq<Frame>, f: Frame)
    requires SortedById(q)
    ensures SortedById(Insert(q, f))
  {
    var p, r := Place(q, f.id), Insert(q, f);
    forall i, j | 0 <= i < j < |r| ensures r[i].id <= r[j].id {
      var a, b := if i <= p then i else i - 1, if j <= p then j else j - 1;
      assert (i != p ==> r[i] == q[a]) && (j != p ==> r[j] == q[b]);
    }
  }

  lemma InsertKeepsOrder(sent: seq<Frame>, q: seq<Frame>, f: Frame)
    requires SortedById(q) && PerIdOrder(sent + q)
    requires forall x :: x in sent || x in q ==> x.serial < f.serial
    ensures PerIdOrder(sent + Insert(q, f))
  {
    var p := Place(q, f.id);
    assert (sent + q[..p]) + q[p..] == sent + q;
    InsertIntoOrder(sent + q[..p], f, q[p..]);
    assert (sent + q[..p]) + [f] + q[p..] == sent + Insert(q, f);
  }

  /** The frames a cleanup at this time leaves and removes. */
  function Kept(q: seq<Frame>, now: nat): seq<Frame> {
    if q == [] then [] else (if now > q[0].deadline then [] else [q[0]]) + Kept(q[1..], now)
  }

  function Stale(q: seq<Frame>, now: nat): seq<Frame> {
    if q == [] then [] else (if now > q[0].deadline then [q[0]] else []) + Stale(q[1..], now)
  }

  /** Taking one frame out keeps the others in order. */
  lemma DropOneKeepsOrder(before: seq<Frame>, f: Frame, after: seq<Frame>)
    requires PerIdOrder(before + [f] + after)
    ensures PerIdOrder(before + after)
  {
    var s, t := before + [f] + after, before + after;
    forall i, j | 0 <= i < j < |t| && t[i].id == t[j].id ensures t[i].serial < t[j].serial {
      var n := |before|;
      var a, b := if i < n then i else i + 1, if j < n then j else j + 1;
      assert s[a] == t[i] && s[b] == t[j];
    }
  }

  lemma {:induction false} KeptMembers(q: seq<Frame>, now: nat)
    ensures |Kept(q, now)| <= |q|
    ensures forall x :: x in Kept(q, now) <==> x in q && now <= x.deadline
  {
    if q != [] {
      assert q == [q[0]] + q[1..];
      KeptMembers(q[1..], now);
    }
  }

  lemma SortedCons(f: Frame, q: seq<Frame>)
    requires SortedById(q) && forall x :: x in q ==> f.id <= x.id
    ensures SortedById([f] + q)
  {}

  lemma SortedTail(q: seq<Frame>)
    requires SortedById(q) && q != []
    ensures SortedById(q[1..]) && forall x :: x in q[1..] ==> q[0].id <= x.id
  {}

  lemma {:induction false} KeptSorted(q: seq<Frame>, now: nat)
    requires SortedById(q)
    ensures SortedById(Kept(q, now))
  {
    if q != [] {
      SortedTail(q);
      hide SortedById;
      KeptSorted(q[1..], now);
      KeptMembers(q[1..], now);
      SortedCons(q[0], Kept(q[1..], now));
      assert [] + Kept(q[1..], now) == Kept(q[1..], now);
    }
  }

  lemma {:induction false} KeptAndStale(q: seq<Frame>, now: nat)
    ensures multiset(Kept(q, now)) + multiset(Stale(q, now)) == multiset(q)
  {
    if q != [] {
      assert q == [q[0]] + q[1..];
      KeptAndStale(q[1..], now);
    }
  }

  lemma {:induction false} KeptKeepsOrder(before: seq<Frame>, q: seq<Frame>, now: nat)
    requires PerIdOrder(before + q)
    ensures PerIdOrder(before + Kept(q, now))
    decreases q
  {
    if q != [] {
      assert q == [q[0]] + q[1..];
      if now > q[0].deadline {
        assert before + q == before + [q[0]] + q[1..];
        DropOneKeepsOrder(before, q[0], q[1..]);
        KeptKeepsOrder(before, q[1..], now);
        assert Kept(q, now) == Kept(q[1..], now);
      } else {
        assert before + q == (before + [q[0]]) + q[1..];
        KeptKeepsOrder(before + [q[0]], q[1..], now);
        assert (before + [q[0]]) + Kept(q[1..], now) == before + Kept(q, now);
      }
    }
  }

  // ---------------------------------------------------------------- what every step keeps

  ghost predicate Inv(s: Tx) {
    && |s.queue| + s.rxBlocks <= CAPACITY
    && SortedById(s.queue)
    && PerIdOrder(s.sent + s.queue)
    && (forall i :: 0 <= i < |s.made| ==> s.made[i].serial == i)
    && multiset(s.made) == multiset(s.queue) + multiset(s.sent) + multiset(s.expired) + multiset(s.flushed)
    && (s.overflow <==> s.refused > 0)
  }

  lemma InitialInv()
    ensures Inv(INITIAL)
  {}

  /** Every frame anywhere was made before the next one. */
  lemma SerialsBelow(s: Tx)
    requires Inv(s)
    ensures forall x :: x in s.queue || x in s.sent ==> x.serial < |s.made|
  {
    forall x | x in s.queue || x in s.sent ensures x.serial < |s.made| {
      assert x in multiset(s.made);
      assert x in s.made;
    }
  }

  // ---------------------------------------------------------------- queueing a transfer

  /** One frame into a fresh block. */
  function Push(s: Tx, id: nat, deadline: nat): Tx {
    var f := Frame(id, deadline, |s.made|);
    s.(queue := Insert(s.queue, f), made := s.made + [f])
  }

  lemma PushKeepsInv(s: Tx, id: nat, deadline: nat)
    requires Inv(s) && Free(s) > 0
    ensures Inv(Push(s, id, deadline))
    ensures Free(Push(s, id, deadline)) == Free(s) - 1
  {
    var f := Frame(id, deadline, |s.made|);
    SerialsBelow(s);
    InsertAdds(s.queue, f);
    InsertKeepsSorted(s.queue, f);
    InsertKeepsOrder(s.sent, s.queue, f);
    hide PerIdOrder, SortedById, Insert;
  }

  /** enqueueTxFrames for a transfer of k frames: it stops where the pool runs out, and keeps what is queued. */
  function Enqueue(s: Tx, id: nat, deadline: nat, k: nat): (Tx, bool)
    decreases k
  {
    if k == 0 then (s, true)
    else if Free(s) <= 0 then (s, false)
    else Enqueue(Push(s, id, deadline), id, deadline, k - 1)
  }

  function Batch(id: nat, deadline: nat, first: nat, n: nat): (r: seq<Frame>)
    ensures |r| == n
  {
    seq(n, i requires 0 <= i < n => Frame(id, deadline, first + i))
  }

  /** t is s with n frames of one transfer queued. */
  ghost predicate Queued(s: Tx, t: Tx, id: nat, deadline: nat, n: nat) {
    var b := Batch(id, deadline, |s.made|, n);
    && t == s.(queue := t.queue, made := s.made + b)
    && multiset(t.queue) == multiset(s.queue) + multiset(b)
    && Free(t) == Free(s) - n
  }

  lemma OneMoreQueued(s: Tx, t: Tx, id: nat, deadline: nat, n: nat)
    requires Queued(Push(s, id, deadline), t, id, deadline, n)
    ensures Queued(s, t, id, deadline, n + 1)
  {
    var f := Frame(id, deadline, |s.made|);
    var rest := Batch(id, deadline, |s.made| + 1, n);
    InsertAdds(s.queue, f);
    assert Batch(id, deadline, |s.made|, n + 1) == [f] + rest;
    assert s.made + [f] + rest == s.made + ([f] + rest);
    hide Insert, Batch;
  }

  /** Queued whole exactly when the pool has a block for every frame; otherwise the transfer's head fills the pool. */
  ghost predicate QueuedExactly(s: Tx, id: nat, deadline: nat, k: nat, t: Tx, ok: bool) {
    && Inv(t) && (ok <==> k <= Free(s))
    && Queued(s, t, id, deadline, AtMost(k, Free(s)))
  }

  lemma PushThenExactly(s: Tx, id: nat, deadline: nat, k: nat, t: Tx, ok: bool)
    requires Inv(s) && Free(s) > 0
    requires QueuedExactly(Push(s, id, deadline), id, deadline, k, t, ok)
    ensures QueuedExactly(s, id, deadline, k + 1, t, ok)
  {
    hide Push, Queued, Inv;
    PushKeepsInv(s, id, deadline);
    OneMoreQueued(s, t, id, deadline, AtMost(k, Free(s) - 1));
  }

  lemma NothingQueued(s: Tx, id: nat, deadline: nat, k: nat)
    requires Inv(s) && (k == 0 || Free(s) <= 0)
    ensures QueuedExactly(s, id, deadline, k, s, k == 0)
  {
    hide PerIdOrder, SortedById;
    assert s.made + Batch(id, deadline, |s.made|, 0) == s.made;
  }

  lemma {:induction false} EnqueueExactly(s: Tx, id: nat, deadline: nat, k: nat)
    requires Inv(s)
    ensures var (t, ok) := Enqueue(s, id, deadline, k); QueuedExactly(s, id, deadline, k, t, ok)
    decreases k
  {
    hide Inv, Push, QueuedExactly, Free;
    if k == 0 || Free(s) <= 0 {
      NothingQueued(s, id, deadline, k);
    } else {
      PushKeepsInv(s, id, deadline);
      EnqueueExactly(Push(s, id, deadline), id, deadline, k - 1);
      var (t, ok) := Enqueue(Push(s, id, deadline), id, deadline, k - 1);
      PushThenExactly(s, id, deadline, k - 1, t, ok);
    }
  }

  /** Frames of a transfer: up to seven bytes fit beside the tail byte; a longer one also carries a two-byte CRC. */
  function FramesFor(length: nat): nat {
    if length < 8 then 1 else (length + 2 + 6) / 7
  }

  function BroadcastId(priority: nat, dataType: nat): nat {
    priority * 0x100_0000 + dataType * 0x100 + NODE_ID
  }

  function ResponseId(source: nat): nat {
    PRIORITY_HIGH * 0x100_0000 + NODE_INFO_ID * 0x1_0000 + source * 0x100 + 0x80 + NODE_ID
  }

  function Refuse(s: Tx): Tx {
    s.(overflow := true, refused := s.refused + 1)
  }

  function Timeout(priority: nat): nat {
    if priority <= PRIORITY_HIGH then HIGH_PRIORITY_TX_DEADLINE_US else TX_DEADLINE_US
  }

  /** broadcast */
  function Broadcast(s: Tx, dataType: nat, priority: nat, length: nat, us: nat): (Tx, bool) {
    if priority >= PRIORITY_LOW && Free(s) <= RESERVE then (Refuse(s), false)
    else
      var (t, ok) := Enqueue(s, BroadcastId(priority, dataType), us + Timeout(priority), FramesFor(length));
      (if ok then t else Refuse(t), ok)
  }

  function PublishFlow(s: Tx, us: nat): (Tx, bool) {
    Broadcast(s, FLOW_ID, PRIORITY_LOW, FLOW_LENGTH, us)
  }

  function PublishRange(s: Tx, us: nat): (Tx, bool) {
    Broadcast(s, RANGE_ID, PRIORITY_LOW, RANGE_LENGTH, us)
  }

  /** Every refusal is counted, and a broadcast touches nothing but the queue and the overflow record. */
  lemma BroadcastExactly(s: Tx, dataType: nat, priority: nat, length: nat, us: nat)
    requires Inv(s)
    ensures var (t, ok) := Broadcast(s, dataType, priority, length, us);
            var k := FramesFor(length);
            && Inv(t)
            && (ok <==> k <= Free(s) && (priority >= PRIORITY_LOW ==> Free(s) > RESERVE))
            && t.refused == s.refused + (if ok then 0 else 1)
            && t.sent == s.sent && t.expired == s.expired && t.flushed == s.flushed
            && t.nextCleanup == s.nextCleanup && t.nextStatus == s.nextStatus && t.rxBlocks == s.rxBlocks
            && (ok ==>
                  var b := Batch(BroadcastId(priority, dataType), us + Timeout(priority), |s.made|, k);
                  && Free(t) == Free(s) - k
                  && t.made == s.made + b && multiset(t.queue) == multiset(s.queue) + multiset(b))
  {
    hide Enqueue;
    EnqueueExactly(s, BroadcastId(priority, dataType), us + Timeout(priority), FramesFor(length));
  }

  /** A sensor transfer is counted when it is refused. */
  lemma PublishCounts(s: Tx, dataType: nat, length: nat, us: nat)
    requires Inv(s)
    ensures var (t, ok) := Broadcast(s, dataType, PRIORITY_LOW, length, us);
            Inv(t) && t.refused == s.refused + (if ok then 0 else 1)
  {
    hide Inv, Broadcast;
    BroadcastExactly(s, dataType, PRIORITY_LOW, length, us);
  }

  lemma RefusalIsFlagged(s: Tx, dataType: nat, priority: nat, length: nat, us: nat)
    ensures !Broadcast(s, dataType, priority, length, us).1 ==> Broadcast(s, dataType, priority, length, us).0.overflow
  {
    hide Enqueue;
  }

  /**
   * Low-priority transfers keep the reserve: one of k <= 17 frames is queued whole, exactly when more than 16 blocks
   * are free, and leaves at least 17 - k; refused, it leaves the queue and the pool as they were.
   */
  lemma LowPriorityKeepsReserve(s: Tx, dataType: nat, priority: nat, length: nat, us: nat)
    requires Inv(s) && priority >= PRIORITY_LOW && FramesFor(length) <= RESERVE + 1
    ensures var (t, ok) := Broadcast(s, dataType, priority, length, us);
            && (ok <==> Free(s) > RESERVE)
            && (ok ==> Free(t) == Free(s) - FramesFor(length) >= RESERVE + 1 - FramesFor(length))
            && (!ok ==> t == Refuse(s))
  {
    hide Enqueue;
    BroadcastExactly(s, dataType, priority, length, us);
  }

  /** The flow and range transfers are such: four and three frames. */
  lemma SensorTransferSizes()
    ensures FramesFor(FLOW_LENGTH) == 4 && FramesFor(RANGE_LENGTH) == 3 && FramesFor(STATUS_LENGTH) == 1
  {}

  /**
   * A longer low-priority transfer would not be: it is torn, with only its first frames queued, exactly when the
   * pool has more than 16 blocks but fewer than it needs.
   */
  lemma TornExactly(s: Tx, dataType: nat, priority: nat, length: nat, us: nat)
    requires Inv(s) && priority >= PRIORITY_LOW
    ensures var (t, ok) := Broadcast(s, dataType, priority, length, us);
            !ok && |t.made| > |s.made| <==> RESERVE < Free(s) < FramesFor(length)
  {
    hide Enqueue;
    EnqueueExactly(s, BroadcastId(priority, dataType), us + Timeout(priority), FramesFor(length));
  }

  // ---------------------------------------------------------------- dronecan_poll

  /** Receiving a frame changes how many blocks receive states hold; a GetNodeInfo request also makes a response. */
  datatype Arrival =
    | Quiet(held: nat)
    | Request(before: nat, source: nat, length: nat, us: nat, held: nat)

  datatype PollInput = PollInput(nowMs: u32, nowUs: nat, rxLeft: nat, arrivals: seq<Arrival>,
                                 busOff: bool, statusUs: nat, accepts: nat)

  /** Receive states may come to hold any number of blocks the pool can give. */
  function Hold(s: Tx, blocks: nat): Tx {
    s.(rxBlocks := AtMost(blocks, CAPACITY - |s.queue|))
  }

  /** canardCleanupStaleTransfers, when its interval has passed. */
  function Clean(s: Tx, us: nat, rxLeft: nat): Tx {
    if us < s.nextCleanup then s
    else s.(queue := Kept(s.queue, us), expired := s.expired + Stale(s.queue, us),
            rxBlocks := AtMost(rxLeft, s.rxBlocks), nextCleanup := us + CLEANUP_INTERVAL_US)
  }

  /** on_reception's answer to a GetNodeInfo request. */
  function Respond(s: Tx, source: nat, length: nat, us: nat): Tx {
    var (t, ok) := Enqueue(s, ResponseId(source), us + HIGH_PRIORITY_TX_DEADLINE_US, FramesFor(length));
    if ok then t else Refuse(t)
  }

  function Receive(s: Tx, a: Arrival): Tx {
    match a
    case Quiet(held) => Hold(s, held)
    case Request(before, source, length, us, held) => Hold(Respond(Hold(s, before), source, length, us), held)
  }

  function ReceiveAll(s: Tx, arrivals: seq<Arrival>): Tx
    decreases arrivals
  {
    if arrivals == [] then s else ReceiveAll(Receive(s, arrivals[0]), arrivals[1..])
  }

  function Flush(s: Tx): Tx {
    s.(queue := [], flushed := s.flushed + s.queue)
  }

  function Status(s: Tx, nowMs: u32, us: nat): Tx {
    if Reached(nowMs, s.nextStatus) then
      Broadcast(s, STATUS_ID, PRIORITY_HIGH, STATUS_LENGTH, us).0.(nextStatus := Plus(nowMs, STATUS_INTERVAL_MS))
    else s
  }

  /** The controller accepts n frames from the front of the queue. */
  function Send(s: Tx, n: nat): Tx {
    var k := AtMost(n, |s.queue|);
    s.(queue := s.queue[k..], sent := s.sent + s.queue[..k])
  }

  function Budgeted(arrivals: seq<Arrival>): seq<Arrival> {
    if |arrivals| <= RX_BUDGET then arrivals else arrivals[..RX_BUDGET]
  }

  function Poll(s: Tx, i: PollInput): Tx {
    var t := ReceiveAll(Clean(s, i.nowUs, i.rxLeft), Budgeted(i.arrivals));
    if i.busOff then Flush(t) else Send(Status(t, i.nowMs, i.statusUs), AtMost(i.accepts, TX_BUDGET))
  }

  lemma CleanKeepsInv(s: Tx, us: nat, rxLeft: nat)
    requires Inv(s)
    ensures Inv(Clean(s, us, rxLeft))
  {
    hide PerIdOrder, SortedById, Kept, Stale;
    if us >= s.nextCleanup {
      KeptMembers(s.queue, us);
      KeptSorted(s.queue, us);
      KeptAndStale(s.queue, us);
      KeptKeepsOrder(s.sent, s.queue, us);
      assert multiset(s.expired + Stale(s.queue, us)) == multiset(s.expired) + multiset(Stale(s.queue, us));
    }
  }

  lemma RespondKeepsInv(s: Tx, source: nat, length: nat, us: nat)
    requires Inv(s)
    ensures Inv(Respond(s, source, length, us))
    ensures var t := Respond(s, source, length, us);
            && t.sent == s.sent && t.expired == s.expired && t.flushed == s.flushed && s.made <= t.made
            && t.nextCleanup == s.nextCleanup && t.nextStatus == s.nextStatus
            && t.refused >= s.refused
  {
    EnqueueExactly(s, ResponseId(source), us + HIGH_PRIORITY_TX_DEADLINE_US, FramesFor(length));
    hide Enqueue, FramesFor, PerIdOrder, SortedById;
  }

  /** Receiving queues frames and counts refusals; it takes nothing from the queue. */
  lemma ReceiveKeepsInv(s: Tx, a: Arrival)
    requires Inv(s)
    ensures Inv(Receive(s, a))
    ensures var t := Receive(s, a);
            && t.sent == s.sent && t.expired == s.expired && t.flushed == s.flushed && s.made <= t.made
            && t.nextCleanup == s.nextCleanup && t.nextStatus == s.nextStatus
            && t.refused >= s.refused
  {
    hide Respond, PerIdOrder, SortedById;
    if a.Request? {
      RespondKeepsInv(Hold(s, a.before), a.source, a.length, a.us);
    }
  }

  lemma {:induction false} ReceiveAllKeepsInv(s: Tx, arrivals: seq<Arrival>)
    requires Inv(s)
    ensures Inv(ReceiveAll(s, arrivals))
    ensures var t := ReceiveAll(s, arrivals);
            && t.sent == s.sent && t.expired == s.expired && t.flushed == s.flushed && s.made <= t.made
            && t.nextCleanup == s.nextCleanup && t.nextStatus == s.nextStatus
            && t.refused >= s.refused
    decreases arrivals
  {
    hide Inv, Receive;
    if arrivals != [] {
      ReceiveKeepsInv(s, arrivals[0]);
      ReceiveAllKeepsInv(Receive(s, arrivals[0]), arrivals[1..]);
    }
  }

  lemma FlushKeepsInv(s: Tx)
    requires Inv(s)
    ensures Inv(Flush(s))
  {
    assert forall i :: 0 <= i < |s.sent| ==> (s.sent + s.queue)[i] == s.sent[i];
  }

  lemma SendKeepsInv(s: Tx, n: nat)
    requires Inv(s)
    ensures Inv(Send(s, n))
    ensures Send(s, n).sent + Send(s, n).queue == s.sent + s.queue
  {
    hide PerIdOrder;
    var k := AtMost(n, |s.queue|);
    assert s.queue == s.queue[..k] + s.queue[k..];
    assert (s.sent + s.queue[..k]) + s.queue[k..] == s.sent + s.queue;
    assert SortedById(s.queue[k..]);
    hide SortedById;
  }

  /**
   * A due NodeStatus is queued exactly when a block is free, and refused otherwise; the next one is due a second later.
   * One that is not due changes nothing.
   */
  lemma StatusExactly(s: Tx, nowMs: u32, us: nat)
    requires Inv(s)
    ensures var t := Status(s, nowMs, us);
            if !Reached(nowMs, s.nextStatus) then t == s
            else
              && t.nextStatus == Plus(nowMs, STATUS_INTERVAL_MS)
              && t.made == (if Free(s) > 0
                            then s.made + [Frame(BroadcastId(PRIORITY_HIGH, STATUS_ID), us + HIGH_PRIORITY_TX_DEADLINE_US, |s.made|)]
                            else s.made)
              && t.refused == s.refused + (if Free(s) > 0 then 0 else 1)
  {
    SingleFrame(s, BroadcastId(PRIORITY_HIGH, STATUS_ID), us + HIGH_PRIORITY_TX_DEADLINE_US);
    hide Inv, Enqueue, Reached, Plus, BroadcastId;
  }

  lemma SingleFrame(s: Tx, id: nat, deadline: nat)
    requires Inv(s)
    ensures var (t, ok) := Enqueue(s, id, deadline, 1);
            && (ok <==> Free(s) > 0)
            && t.made == (if Free(s) > 0 then s.made + [Frame(id, deadline, |s.made|)] else s.made)
            && t.refused == s.refused
  {
    hide Inv, Insert;
    if Free(s) > 0 {
      assert Enqueue(s, id, deadline, 1) == Enqueue(Push(s, id, deadline), id, deadline, 0);
    }
  }

  /**
   * An answer to GetNodeInfo is not guarded by the reserve: it is queued whole exactly when the pool has a block for
   * every frame, and torn, its first frames queued and the refusal counted, exactly when it has some but too few.
   */
  lemma AnswerExactly(s: Tx, source: nat, length: nat, us: nat)
    requires Inv(s)
    ensures var t := Respond(s, source, length, us);
            var b := Batch(ResponseId(source), us + HIGH_PRIORITY_TX_DEADLINE_US, |s.made|, AtMost(FramesFor(length), Free(s)));
            && t.made == s.made + b && multiset(t.queue) == multiset(s.queue) + multiset(b)
            && (t.refused == s.refused <==> FramesFor(length) <= Free(s))
            && (t.refused > s.refused && |t.made| > |s.made| <==> 0 < Free(s) < FramesFor(length))
  {
    EnqueueExactly(s, ResponseId(source), us + HIGH_PRIORITY_TX_DEADLINE_US, FramesFor(length));
    hide Inv, Enqueue, FramesFor, ResponseId;
  }

  lemma StatusKeepsInv(s: Tx, nowMs: u32, us: nat)
    requires Inv(s)
    ensures var t := Status(s, nowMs, us);
            && Inv(t) && t.sent == s.sent && t.expired == s.expired && t.flushed == s.flushed && s.made <= t.made
            && t.nextCleanup == s.nextCleanup && t.refused >= s.refused
  {
    hide Broadcast, PerIdOrder, SortedById, Reached;
    BroadcastExactly(s, STATUS_ID, PRIORITY_HIGH, STATUS_LENGTH, us);
    BroadcastKeepsInv(s, STATUS_ID, PRIORITY_HIGH, STATUS_LENGTH, us);
  }

  lemma BroadcastKeepsInv(s: Tx, dataType: nat, priority: nat, length: nat, us: nat)
    requires Inv(s)
    ensures Inv(Broadcast(s, dataType, priority, length, us).0)
    ensures s.made <= Broadcast(s, dataType, priority, length, us).0.made
  {
    hide Enqueue, PerIdOrder, SortedById;
    EnqueueExactly(s, BroadcastId(priority, dataType), us + Timeout(priority), FramesFor(length));
  }

  lemma PollKeepsInv(s: Tx, i: PollInput)
    requires Inv(s)
    ensures Inv(Poll(s, i))
  {
    hide Inv, Clean, ReceiveAll, Flush, Status, Send;
    var c := Clean(s, i.nowUs, i.rxLeft);
    CleanKeepsInv(s, i.nowUs, i.rxLeft);
    var t := ReceiveAll(c, Budgeted(i.arrivals));
    ReceiveAllKeepsInv(c, Budgeted(i.arrivals));
    FlushKeepsInv(t);
    StatusKeepsInv(t, i.nowMs, i.statusUs);
    SendKeepsInv(Status(t, i.nowMs, i.statusUs), AtMost(i.accepts, TX_BUDGET));
  }

  /**
   * A poll that sees bus-off sends nothing and leaves the queue empty; any other poll flushes nothing and sends at
   * most 16 frames.
   */
  lemma BusOffDecides(s: Tx, i: PollInput)
    requires Inv(s)
    ensures i.busOff ==> Poll(s, i).queue == [] && Poll(s, i).sent == s.sent
    ensures !i.busOff ==>
              && Poll(s, i).flushed == s.flushed
              && s.sent <= Poll(s, i).sent && |Poll(s, i).sent| <= |s.sent| + TX_BUDGET
  {
    hide Inv, Clean, ReceiveAll, Status;
    CleanTakesOnlyStale(s, i.nowUs, i.rxLeft);
    var c := Clean(s, i.nowUs, i.rxLeft);
    CleanKeepsInv(s, i.nowUs, i.rxLeft);
    var t := ReceiveAll(c, Budgeted(i.arrivals));
    ReceiveAllKeepsInv(c, Budgeted(i.arrivals));
    StatusKeepsInv(t, i.nowMs, i.statusUs);
  }

  /** A poll forgets no refusal. */
  lemma PollCountsRefusals(s: Tx, i: PollInput)
    requires Inv(s)
    ensures Poll(s, i).refused >= s.refused
  {
    hide Inv, Clean, ReceiveAll, Status;
    CleanTakesOnlyStale(s, i.nowUs, i.rxLeft);
    var c := Clean(s, i.nowUs, i.rxLeft);
    CleanKeepsInv(s, i.nowUs, i.rxLeft);
    ReceiveAllKeepsInv(c, Budgeted(i.arrivals));
    StatusKeepsInv(ReceiveAll(c, Budgeted(i.arrivals)), i.nowMs, i.statusUs);
  }

  lemma CleanTakesOnlyStale(s: Tx, us: nat, rxLeft: nat)
    ensures var c := Clean(s, us, rxLeft);
            && c.sent == s.sent && c.flushed == s.flushed && c.made == s.made
            && c.refused == s.refused && s.expired <= c.expired
  {}

  // ---------------------------------------------------------------- NodeStatus among the frames made

  const STATUS_FRAME_ID := BroadcastId(PRIORITY_HIGH, STATUS_ID)

  /** How many of the frames are NodeStatus broadcasts. */
  function Statuses(frames: seq<Frame>): nat {
    if frames == [] then 0 else
      var n := |frames| - 1;
      Statuses(frames[..n]) + (if frames[n].id == STATUS_FRAME_ID then 1 else 0)
  }

  lemma OneMoreFrame(made: seq<Frame>, f: Frame)
    ensures Statuses(made + [f]) == Statuses(made) + (if f.id == STATUS_FRAME_ID then 1 else 0)
  {
    assert (made + [f])[..|made|] == made;
  }

  lemma {:induction false} OtherFrames(made: seq<Frame>, id: nat, deadline: nat, first: nat, n: nat)
    requires id != STATUS_FRAME_ID
    ensures Statuses(made + Batch(id, deadline, first, n)) == Statuses(made)
    decreases n
  {
    if n == 0 {
      assert made + Batch(id, deadline, first, n) == made;
    } else {
      OtherFrames(made, id, deadline, first, n - 1);
      var f := Frame(id, deadline, first + n - 1);
      assert made + Batch(id, deadline, first, n) == (made + Batch(id, deadline, first, n - 1)) + [f];
      OneMoreFrame(made + Batch(id, deadline, first, n - 1), f);
    }
  }

  lemma EnqueueNoStatus(s: Tx, id: nat, deadline: nat, k: nat)
    requires Inv(s) && id != STATUS_FRAME_ID
    ensures Statuses(Enqueue(s, id, deadline, k).0.made) == Statuses(s.made)
  {
    EnqueueExactly(s, id, deadline, k);
    hide Enqueue, Inv, Statuses, Batch;
    OtherFrames(s.made, id, deadline, |s.made|, AtMost(k, Free(s)));
  }

  /** No sensor transfer is a NodeStatus. */
  lemma PublishNoStatus(s: Tx, us: nat)
    requires Inv(s)
    ensures Statuses(PublishFlow(s, us).0.made) == Statuses(s.made)
    ensures Statuses(PublishRange(s, us).0.made) == Statuses(s.made)
  {
    hide Enqueue, Inv, Statuses;
    EnqueueNoStatus(s, BroadcastId(PRIORITY_LOW, FLOW_ID), us + TX_DEADLINE_US, FramesFor(FLOW_LENGTH));
    EnqueueNoStatus(s, BroadcastId(PRIORITY_LOW, RANGE_ID), us + TX_DEADLINE_US, FramesFor(RANGE_LENGTH));
  }

  /** Nor is an answer. */
  lemma ReceiveNoStatus(s: Tx, a: Arrival)
    requires Inv(s)
    ensures Statuses(Receive(s, a).made) == Statuses(s.made)
  {
    hide Enqueue, PerIdOrder, SortedById, Statuses;
    if a.Request? {
      assert ResponseId(a.source) % 256 == 253 && STATUS_FRAME_ID % 256 == 125;
      EnqueueNoStatus(Hold(s, a.before), ResponseId(a.source), a.us + HIGH_PRIORITY_TX_DEADLINE_US, FramesFor(a.length));
    }
  }

  lemma {:induction false} ReceiveAllNoStatus(s: Tx, arrivals: seq<Arrival>)
    requires Inv(s)
    ensures Statuses(ReceiveAll(s, arrivals).made) == Statuses(s.made)
    decreases arrivals
  {
    hide Inv, Receive, Statuses;
    if arrivals != [] {
      ReceiveKeepsInv(s, arrivals[0]);
      ReceiveNoStatus(s, arrivals[0]);
      ReceiveAllNoStatus(Receive(s, arrivals[0]), arrivals[1..]);
    }
  }

  /** Whether a poll finds NodeStatus due: it does not look while the bus is off. */
  predicate StatusDue(s: Tx, i: PollInput) {
    !i.busOff && Reached(i.nowMs, s.nextStatus)
  }

  /** The state after cleanup and receiving, in which a poll looks at the bus. */
  function Received(s: Tx, i: PollInput): Tx {
    ReceiveAll(Clean(s, i.nowUs, i.rxLeft), Budgeted(i.arrivals))
  }

  /**
   * A poll makes one NodeStatus frame exactly when one is due and, after cleanup and receiving, a block is free; one
   * that is due with no block free counts as a refusal. The next is due a second after one was.
   */
  lemma PollMakesStatus(s: Tx, i: PollInput)
    requires Inv(s)
    ensures var t, due, room := Poll(s, i), StatusDue(s, i), Free(Received(s, i)) > 0;
            && t.nextStatus == (if due then Plus(i.nowMs, STATUS_INTERVAL_MS) else s.nextStatus)
            && Statuses(t.made) == Statuses(s.made) + (if due && room then 1 else 0)
            && t.refused == Received(s, i).refused + (if due && !room then 1 else 0) >= s.refused
  {
    hide Inv, Clean, ReceiveAll, Status, Statuses, Reached, Plus, Free;
    CleanTakesOnlyStale(s, i.nowUs, i.rxLeft);
    CleanKeepsStatus(s, i.nowUs, i.rxLeft);
    var c := Clean(s, i.nowUs, i.rxLeft);
    CleanKeepsInv(s, i.nowUs, i.rxLeft);
    var t := ReceiveAll(c, Budgeted(i.arrivals));
    ReceiveAllKeepsInv(c, Budgeted(i.arrivals));
    ReceiveAllNoStatus(c, Budgeted(i.arrivals));
    StatusExactly(t, i.nowMs, i.statusUs);
    OneMoreFrame(t.made, Frame(STATUS_FRAME_ID, i.statusUs + HIGH_PRIORITY_TX_DEADLINE_US, |t.made|));
  }

  lemma CleanKeepsStatus(s: Tx, us: nat, rxLeft: nat)
    ensures Clean(s, us, rxLeft).nextStatus == s.nextStatus
  {}

  /** What the controller is handed goes before everything left behind: a lower id, or the same id and made earlier. */
  lemma SendsHighestPriority(s: Tx, n: nat, f: Frame, g: Frame)
    requires Inv(s)
    requires f in Send(s, n).sent[|s.sent|..] && g in Send(s, n).queue
    ensures f.id < g.id || (f.id == g.id && f.serial < g.serial)
  {
    var k := AtMost(n, |s.queue|);
    assert Send(s, n).sent[|s.sent|..] == s.queue[..k];
    var i :| 0 <= i < k && s.queue[i] == f;
    var j :| 0 <= j < |s.queue| - k && s.queue[k..][j] == g;
    var all := s.sent + s.queue;
    assert all[|s.sent| + i] == f && all[|s.sent| + k + j] == s.queue[k + j] == g;
  }

  // ---------------------------------------------------------------- whole runs

  datatype Event =
    | Flow(us: nat)
    | Range(us: nat)
    | Polled(i: PollInput)
    | TakeOverflow

  function Take(s: Tx): Tx {
    s.(overflow := false, refused := 0)
  }

  function Step(s: Tx, e: Event): Tx {
    match e
    case Flow(us) => PublishFlow(s, us).0
    case Range(us) => PublishRange(s, us).0
    case Polled(i) => Poll(s, i)
    case TakeOverflow => Take(s)
  }

  lemma StepKeepsInv(s: Tx, e: Event)
    requires Inv(s)
    ensures Inv(Step(s, e))
  {
    hide Broadcast, Poll, PerIdOrder, SortedById;
    match e {
      case Flow(us) => BroadcastExactly(s, FLOW_ID, PRIORITY_LOW, FLOW_LENGTH, us);
      case Range(us) => BroadcastExactly(s, RANGE_ID, PRIORITY_LOW, RANGE_LENGTH, us);
      case Polled(i) => PollKeepsInv(s, i);
      case TakeOverflow =>
    }
  }

  function Run(s: Tx, events: seq<Event>): Tx
    decreases events
  {
    if events == [] then s else Run(Step(s, events[0]), events[1..])
  }

  lemma {:induction false} RunKeepsInv(s: Tx, events: seq<Event>)
    requires Inv(s)
    ensures Inv(Run(s, events))
    decreases events
  {
    hide Inv, Step;
    if events != [] {
      StepKeepsInv(s, events[0]);
      RunKeepsInv(Step(s, events[0]), events[1..]);
    }
  }

  /**
   * In every reachable state: the pool is never overdrawn; every frame ever made is in exactly one place, the queue,
   * or where it left by hardware acceptance, as stale, or at bus-off; frames of one id are handed to the controller
   * in the order they were made; and a refusal not yet taken shows as the overflow flag.
   */
  lemma FramesAccountedFor(events: seq<Event>)
    ensures var s := Run(INITIAL, events);
            && |s.queue| + s.rxBlocks <= CAPACITY
            && multiset(s.made) == multiset(s.queue) + multiset(s.sent) + multiset(s.expired) + multiset(s.flushed)
            && (forall i :: 0 <= i < |s.made| ==> s.made[i].serial == i)
            && PerIdOrder(s.sent)
            && (s.overflow <==> s.refused > 0)
  {
    RunKeepsInv(INITIAL, events);
    var s := Run(INITIAL, events);
    assert forall i :: 0 <= i < |s.sent| ==> (s.sent + s.queue)[i] == s.sent[i];
  }

  // ---------------------------------------------------------------- how late a frame can be

  /** Every queued frame's deadline was still ahead at the last cleanup. */
  predicate Dated(s: Tx) {
    forall f :: f in s.queue ==> f.deadline + CLEANUP_INTERVAL_US >= s.nextCleanup
  }

  predicate ArrivalsAfter(arrivals: seq<Arrival>, us: nat) {
    forall k :: 0 <= k < |arrivals| && arrivals[k].Request? ==> arrivals[k].us >= us
  }

  /** No clock reading is earlier than that of the last poll. */
  predicate ClockedInput(i: PollInput, last: nat) {
    i.nowUs >= last && i.statusUs >= i.nowUs && ArrivalsAfter(i.arrivals, i.nowUs)
  }

  predicate Clocked(last: nat, events: seq<Event>)
    decreases events
  {
    if events == [] then true else
    match events[0]
    case Flow(us) => us >= last && Clocked(last, events[1..])
    case Range(us) => us >= last && Clocked(last, events[1..])
    case Polled(i) => ClockedInput(i, last) && Clocked(i.nowUs, events[1..])
    case TakeOverflow => Clocked(last, events[1..])
  }

  lemma EnqueueDated(s: Tx, id: nat, deadline: nat, k: nat)
    requires Inv(s) && Dated(s) && deadline + CLEANUP_INTERVAL_US >= s.nextCleanup
    ensures Dated(Enqueue(s, id, deadline, k).0)
  {
    EnqueueExactly(s, id, deadline, k);
    var t := Enqueue(s, id, deadline, k).0;
    hide Enqueue, Inv;
    forall f | f in t.queue ensures f.deadline + CLEANUP_INTERVAL_US >= t.nextCleanup {
      assert f in multiset(t.queue);
    }
  }

  lemma BroadcastDated(s: Tx, dataType: nat, priority: nat, length: nat, us: nat)
    requires Inv(s) && Dated(s) && us + CLEANUP_INTERVAL_US >= s.nextCleanup
    ensures Dated(Broadcast(s, dataType, priority, length, us).0)
  {
    hide Enqueue, Inv;
    EnqueueDated(s, BroadcastId(priority, dataType), us + Timeout(priority), FramesFor(length));
  }

  lemma ReceiveDated(s: Tx, a: Arrival, us: nat)
    requires Inv(s) && Dated(s) && us + CLEANUP_INTERVAL_US >= s.nextCleanup && (a.Request? ==> a.us >= us)
    ensures Dated(Receive(s, a))
  {
    if a.Request? {
      var h := Hold(s, a.before);
      assert Inv(h) by { hide PerIdOrder, SortedById; }
      EnqueueDated(h, ResponseId(a.source), a.us + HIGH_PRIORITY_TX_DEADLINE_US, FramesFor(a.length));
      hide Enqueue, Inv;
      assert Respond(h, a.source, a.length, a.us).nextCleanup == s.nextCleanup by {
        RespondKeepsInv(h, a.source, a.length, a.us);
      }
    }
  }

  lemma {:induction false} ReceiveAllDated(s: Tx, arrivals: seq<Arrival>, us: nat)
    requires Inv(s) && Dated(s) && us + CLEANUP_INTERVAL_US >= s.nextCleanup && ArrivalsAfter(arrivals, us)
    ensures Dated(ReceiveAll(s, arrivals))
    decreases arrivals
  {
    hide Inv, Dated, Receive;
    if arrivals != [] {
      ReceiveDated(s, arrivals[0], us);
      ReceiveKeepsInv(s, arrivals[0]);
      assert ArrivalsAfter(arrivals[1..], us);
      ReceiveAllDated(Receive(s, arrivals[0]), arrivals[1..], us);
    }
  }

  lemma CleanDated(s: Tx, us: nat, rxLeft: nat)
    requires Inv(s) && Dated(s) && s.nextCleanup <= us + CLEANUP_INTERVAL_US
    ensures var c := Clean(s, us, rxLeft); Dated(c) && us < c.nextCleanup <= us + CLEANUP_INTERVAL_US
  {
    KeptMembers(s.queue, us);
    hide Kept, Stale;
  }

  /**
   * A poll leaves no frame in the queue, and hands none to the controller, that is 50 ms or more past its deadline.
   */
  lemma PollNeverLate(s: Tx, i: PollInput, last: nat)
    requires Inv(s) && Dated(s) && s.nextCleanup <= last + CLEANUP_INTERVAL_US && ClockedInput(i, last)
    ensures var t := Poll(s, i);
            && Dated(t) && t.nextCleanup <= i.nowUs + CLEANUP_INTERVAL_US
            && s.sent <= t.sent
            && (forall f :: f in t.queue || f in t.sent[|s.sent|..] ==> i.nowUs < f.deadline + CLEANUP_INTERVAL_US)
  {
    hide Inv, Clean, ReceiveAll, Broadcast, Reached;
    var c := Clean(s, i.nowUs, i.rxLeft);
    CleanKeepsInv(s, i.nowUs, i.rxLeft);
    CleanDated(s, i.nowUs, i.rxLeft);
    CleanTakesOnlyStale(s, i.nowUs, i.rxLeft);
    var t := ReceiveAll(c, Budgeted(i.arrivals));
    ReceiveAllKeepsInv(c, Budgeted(i.arrivals));
    ReceiveAllDated(c, Budgeted(i.arrivals), i.nowUs);
    var u := Status(t, i.nowMs, i.statusUs);
    BroadcastDated(t, STATUS_ID, PRIORITY_HIGH, STATUS_LENGTH, i.statusUs);
    StatusKeepsInv(t, i.nowMs, i.statusUs);
    BroadcastExactly(t, STATUS_ID, PRIORITY_HIGH, STATUS_LENGTH, i.statusUs);
    assert Dated(u);
    var k := AtMost(AtMost(i.accepts, TX_BUDGET), |u.queue|);
    assert !i.busOff ==> Poll(s, i).sent[|s.sent|..] == u.queue[..k];
  }

  lemma StepDated(s: Tx, e: Event, last: nat)
    requires Inv(s) && Dated(s) && s.nextCleanup <= last + CLEANUP_INTERVAL_US && Clocked(last, [e])
    ensures Dated(Step(s, e))
    ensures Step(s, e).nextCleanup <= (if e.Polled? then e.i.nowUs else last) + CLEANUP_INTERVAL_US
  {
    hide Broadcast, Inv, Poll;
    match e {
      case Flow(us) =>
        BroadcastDated(s, FLOW_ID, PRIORITY_LOW, FLOW_LENGTH, us);
        BroadcastExactly(s, FLOW_ID, PRIORITY_LOW, FLOW_LENGTH, us);
      case Range(us) =>
        BroadcastDated(s, RANGE_ID, PRIORITY_LOW, RANGE_LENGTH, us);
        BroadcastExactly(s, RANGE_ID, PRIORITY_LOW, RANGE_LENGTH, us);
      case Polled(i) =>
        PollNeverLate(s, i, last);
      case TakeOverflow =>
    }
  }

  lemma {:induction false} RunDated(s: Tx, last: nat, events: seq<Event>)
    requires Inv(s) && Dated(s) && s.nextCleanup <= last + CLEANUP_INTERVAL_US && Clocked(last, events)
    ensures Inv(Run(s, events)) && Dated(Run(s, events))
    decreases events
  {
    if events != [] {
      var e := events[0];
      assert Clocked(last, [e]);
      StepKeepsInv(s, e);
      StepDated(s, e, last);
      hide Inv, Dated, Step;
      RunDated(Step(s, e), if e.Polled? then e.i.nowUs else last, events[1..]);
    }
  }

  /** The same for any poll after any run, from dronecan_init on. */
  lemma QueueNeverStale(events: seq<Event>, i: PollInput, last: nat)
    requires Clocked(0, events) && last == LastPoll(0, events) && ClockedInput(i, last)
    ensures var s := Run(INITIAL, events);
            var t := Poll(s, i);
            && s.sent <= t.sent
            && (forall f :: f in t.queue || f in t.sent[|s.sent|..] ==> i.nowUs < f.deadline + CLEANUP_INTERVAL_US)
  {
    InitialInv();
    RunDated(INITIAL, 0, events);
    RunCleanupAhead(INITIAL, 0, events);
    PollNeverLate(Run(INITIAL, events), i, last);
  }

  function LastPoll(last: nat, events: seq<Event>): nat
    decreases events
  {
    if events == [] then last else LastPoll(if events[0].Polled? then events[0].i.nowUs else last, events[1..])
  }

  lemma {:induction false} RunCleanupAhead(s: Tx, last: nat, events: seq<Event>)
    requires Inv(s) && Dated(s) && s.nextCleanup <= last + CLEANUP_INTERVAL_US && Clocked(last, events)
    ensures Run(s, events).nextCleanup <= LastPoll(last, events) + CLEANUP_INTERVAL_US
    decreases events
  {
    if events != [] {
      var e := events[0];
      assert Clocked(last, [e]);
      StepKeepsInv(s, e);
      StepDated(s, e, last);
      hide Inv, Dated, Step;
      RunCleanupAhead(Step(s, e), if e.Polled? then e.i.nowUs else last, events[1..]);
    }
  }
}
