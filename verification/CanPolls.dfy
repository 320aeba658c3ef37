// What a poll of the DroneCAN transmit side does with frames (protocol/dronecan.c:64-71): which it removes as stale,
// which answers it makes, how many it hands to the controller, and how long polls take to drain a queue.
module CanPolls {
  import opened WrapTime
  import opened CanTx

  // ---------------------------------------------------------------- cleanup

  lemma {:induction false} StaleMembers(q: seq<Frame>, now: nat)
    ensures forall x :: x in Stale(q, now) <==> x in q && now > x.deadline
  {
    if q != [] {
      assert q == [q[0]] + q[1..];
      StaleMembers(q[1..], now);
    }
  }

  lemma CleanExpires(s: Tx, us: nat, rxLeft: nat)
    ensures var c := Clean(s, us, rxLeft);
            && s.expired <= c.expired
            && (forall f :: f in c.expired[|s.expired|..] <==> us >= s.nextCleanup && f in s.queue && us > f.deadline)
            && multiset(c.queue) + multiset(c.expired[|s.expired|..]) == multiset(s.queue)
  {
    StaleMembers(s.queue, us);
    KeptAndStale(s.queue, us);
    hide Kept, Stale;
    var c := Clean(s, us, rxLeft);
    if us >= s.nextCleanup {
      assert c.expired[|s.expired|..] == Stale(s.queue, us);
    } else {
      assert c.expired[|s.expired|..] == [];
    }
  }

  /**
   * A poll removes as stale exactly the queued frames whose deadline has passed, when its 50 ms are over, and no other
   * frame leaves the queue before the bus is looked at: what is left of the queue and what was made meanwhile is there.
   */
  lemma PollExpiresExactly(s: Tx, i: PollInput)
    requires Inv(s)
    ensures var t, c := Poll(s, i), Received(s, i);
            && s.expired <= t.expired && t.expired == c.expired && c.sent == s.sent && s.made <= c.made
            && (forall f :: f in t.expired[|s.expired|..] <==>
                  i.nowUs >= s.nextCleanup && f in s.queue && i.nowUs > f.deadline)
            && multiset(c.queue) + multiset(t.expired[|s.expired|..])
               == multiset(s.queue) + multiset(c.made[|s.made|..])
  {
    hide Inv, Clean, ReceiveAll, Status, Free;
    CleanExpires(s, i.nowUs, i.rxLeft);
    CleanTakesOnlyStale(s, i.nowUs, i.rxLeft);
    var c := Clean(s, i.nowUs, i.rxLeft);
    CleanKeepsInv(s, i.nowUs, i.rxLeft);
    ReceiveAllKeepsInv(c, Budgeted(i.arrivals));
    ReceiveAllQueues(c, Budgeted(i.arrivals));
    var t := ReceiveAll(c, Budgeted(i.arrivals));
    StatusKeepsInv(t, i.nowMs, i.statusUs);
    assert Received(s, i) == t;
  }

  // ---------------------------------------------------------------- answers

  function Needed(length: nat): (n: nat)
    ensures if length < 8 then n == 1 else 7 * (n - 1) < length + 2 <= 7 * n
  {
    FramesFor(length)
  }

  /** The frames of an answer, or as many as there are blocks for. */
  predicate Answered(s: Tx, t: Tx, a: Arrival) {
    match a
    case Quiet(held) => t.made == s.made && t.queue == s.queue && t.refused == s.refused
    case Request(before, source, length, us, held) =>
      var free := CAPACITY - |s.queue| - AtMost(before, CAPACITY - |s.queue|);
      var b := Batch(0x801_0000 + source * 0x100 + 0x80 + 125, us + 500_000, |s.made|, AtMost(Needed(length), free));
      && t.made == s.made + b && multiset(t.queue) == multiset(s.queue) + multiset(b)
      && t.refused == s.refused + (if Needed(length) <= free then 0 else 1)
  }

  lemma ReceiveAnswers(s: Tx, a: Arrival)
    requires Inv(s)
    ensures Inv(Receive(s, a)) && Answered(s, Receive(s, a), a)
  {
    hide Inv, Respond, Batch, Needed, Hold;
    ReceiveKeepsInv(s, a);
    match a {
      case Quiet(held) => HoldHolds(s, held);
      case Request(before, source, length, us, held) =>
        HoldKeepsInv(s, before);
        HoldHolds(s, before);
        RespondMakes(Hold(s, before), source, length, us);
        HoldHolds(Respond(Hold(s, before), source, length, us), held);
    }
  }

  lemma HoldHolds(s: Tx, blocks: nat)
    ensures var t := Hold(s, blocks);
            && t.made == s.made && t.queue == s.queue && t.refused == s.refused
            && Free(t) == CAPACITY - |s.queue| - AtMost(blocks, CAPACITY - |s.queue|)
  {}

  lemma HoldKeepsInv(s: Tx, blocks: nat)
    requires Inv(s)
    ensures Inv(Hold(s, blocks))
  {
    hide PerIdOrder, SortedById;
  }

  lemma RespondMakes(s: Tx, source: nat, length: nat, us: nat)
    requires Inv(s)
    ensures var t := Respond(s, source, length, us);
            var b := Batch(0x801_0000 + source * 0x100 + 0x80 + 125, us + 500_000, |s.made|, AtMost(Needed(length),
                Free(s)));
            && t.made == s.made + b && multiset(t.queue) == multiset(s.queue) + multiset(b)
            && t.refused == s.refused + (if Needed(length) <= Free(s) then 0 else 1)
  {
    assert ResponseId(source) == 0x801_0000 + source * 0x100 + 0x80 + 125;
    hide Inv, Respond, Batch, FramesFor, ResponseId;
    AnswerExactly(s, source, length, us);
    RespondRefuses(s, source, length, us);
  }

  lemma RespondRefuses(s: Tx, source: nat, length: nat, us: nat)
    requires Inv(s)
    ensures Respond(s, source, length, us).refused == s.refused + (if FramesFor(length) <= Free(s) then 0 else 1)
  {
    EnqueueExactly(s, ResponseId(source), us + HIGH_PRIORITY_TX_DEADLINE_US, FramesFor(length));
    hide Enqueue, FramesFor, Inv;
  }

  lemma {:induction false} ReceiveAllSnoc(s: Tx, arrivals: seq<Arrival>, a: Arrival)
    ensures ReceiveAll(s, arrivals + [a]) == Receive(ReceiveAll(s, arrivals), a)
    decreases arrivals
  {
    hide Receive;
    if arrivals == [] {
      assert ([] + [a])[1..] == [];
      assert ReceiveAll(s, [a]) == ReceiveAll(Receive(s, a), []);
    } else {
      assert (arrivals + [a])[1..] == arrivals[1..] + [a];
      ReceiveAllSnoc(Receive(s, arrivals[0]), arrivals[1..], a);
    }
  }

  /** Receiving only queues: the frames made are the frames added. */
  lemma {:induction false} ReceiveAllQueues(s: Tx, arrivals: seq<Arrival>)
    requires Inv(s)
    ensures var t := ReceiveAll(s, arrivals);
            s.made <= t.made && multiset(t.queue) == multiset(s.queue) + multiset(t.made[|s.made|..])
    decreases arrivals
  {
    hide Inv, Receive, Batch, Needed;
    if arrivals == [] {
      assert s.made[|s.made|..] == [];
    } else {
      ReceiveAnswers(s, arrivals[0]);
      var u := Receive(s, arrivals[0]);
      ReceiveAllQueues(u, arrivals[1..]);
      var t := ReceiveAll(s, arrivals);
      assert s.made <= u.made && t.made[|s.made|..] == u.made[|s.made|..] + t.made[|u.made|..];
      assert multiset(u.queue) == multiset(s.queue) + multiset(u.made[|s.made|..]);
    }
  }

  /**
   * What frame k of a poll's first 16 brings: a GetNodeInfo request its answer, whole if the pool has the blocks for
   * it, to the node that asked, at high priority and with half a second to be sent; any other frame nothing. Later
   * frames are left to the next poll.
   */
  lemma PollAnswers(s: Tx, i: PollInput, k: nat)
    requires Inv(s) && k < |i.arrivals|
    ensures var a, b := Received(s, i.(arrivals := i.arrivals[..k])), Received(s, i.(arrivals := i.arrivals[..k + 1]));
            Inv(a) && if k < 16 then Answered(a, b, i.arrivals[k]) else b == a
  {
    hide Inv, Clean, ReceiveAll, Receive, Answered;
    var c := Clean(s, i.nowUs, i.rxLeft);
    CleanKeepsInv(s, i.nowUs, i.rxLeft);
    ReceiveAllKeepsInv(c, Budgeted(i.arrivals[..k]));
    if k < 16 {
      assert i.arrivals[..k + 1] == i.arrivals[..k] + [i.arrivals[k]];
      ReceiveAllSnoc(c, i.arrivals[..k], i.arrivals[k]);
      ReceiveAnswers(ReceiveAll(c, i.arrivals[..k]), i.arrivals[k]);
    } else {
      assert i.arrivals[..k + 1][..16] == i.arrivals[..16] && i.arrivals[..k][..16] == i.arrivals[..16];
      assert Budgeted(i.arrivals[..k]) == i.arrivals[..16] == Budgeted(i.arrivals[..k + 1]);
    }
  }

  // ---------------------------------------------------------------- what the controller is handed

  function Least(a: nat, b: nat): nat {
    if a <= b then a else b
  }

  /** The NodeStatus frame a poll makes, if one is due and a block is free. */
  function StatusFrames(s: Tx, i: PollInput): (r: seq<Frame>)
    ensures |r| <= 1
  {
    if !i.busOff && Reached(i.nowMs, s.nextStatus) && Free(Received(s, i)) > 0
    then [Frame(8 * 0x100_0000 + 341 * 0x100 + 125, i.statusUs + 500_000, |Received(s, i).made|)] else []
  }

  lemma StatusQueues(s: Tx, nowMs: u32, us: nat)
    requires Inv(s)
    ensures var t := Status(s, nowMs, us);
            var f := if Reached(nowMs, s.nextStatus) && Free(s) > 0
                     then [Frame(8 * 0x100_0000 + 341 * 0x100 + 125, us + 500_000, |s.made|)] else [];
            && t.made == s.made + f && multiset(t.queue) == multiset(s.queue) + multiset(f)
            && |t.queue| == |s.queue| + |f| && t.rxBlocks == s.rxBlocks
  {
    StatusBroadcast(s, us);
    hide Inv, Reached, Plus, Broadcast, Free;
  }

  lemma StatusBroadcast(s: Tx, us: nat)
    requires Inv(s)
    ensures var t := Broadcast(s, STATUS_ID, PRIORITY_HIGH, STATUS_LENGTH, us).0;
            var f := if Free(s) > 0 then [Frame(8 * 0x100_0000 + 341 * 0x100 + 125, us + 500_000, |s.made|)] else [];
            && t.made == s.made + f && multiset(t.queue) == multiset(s.queue) + multiset(f)
            && |t.queue| == |s.queue| + |f| && t.rxBlocks == s.rxBlocks
  {
    var f := Frame(8 * 0x100_0000 + 341 * 0x100 + 125, us + 500_000, |s.made|);
    assert Batch(BroadcastId(PRIORITY_HIGH, STATUS_ID), us + Timeout(PRIORITY_HIGH), |s.made|, 1) == [f];
    NothingFree(s, STATUS_ID, us);
    BroadcastExactly(s, STATUS_ID, PRIORITY_HIGH, STATUS_LENGTH, us);
    hide Inv, Broadcast, Batch, Timeout, BroadcastId;
  }

  lemma NothingFree(s: Tx, dataType: nat, us: nat)
    ensures Free(s) <= 0 ==> Broadcast(s, dataType, PRIORITY_HIGH, STATUS_LENGTH, us).0 == Refuse(s)
  {}

  /**
   * With the bus on a poll hands the controller as many frames as it accepts, is allowed and has: w are queued when it
   * begins, those that waited and came while receiving and a due NodeStatus, and min(accepts, 16, w) leave. What leaves
   * goes before what stays: by id, then by age. With the bus off nothing is sent.
   */
  lemma PollSendsExactly(s: Tx, i: PollInput)
    requires Inv(s)
    ensures var t, c, f := Poll(s, i), Received(s, i), StatusFrames(s, i);
            var w := |c.queue| + |f|;
            var k := if i.busOff then 0 else Least(i.accepts, Least(16, w));
            && s.sent <= t.sent && |t.sent| == |s.sent| + k
            && |t.queue| == (if i.busOff then 0 else w - k)
            && t.made == c.made + f
            && (!i.busOff ==>
                  && multiset(t.sent[|s.sent|..]) + multiset(t.queue) == multiset(c.queue) + multiset(f)
                  && (forall x, y :: x in t.sent[|s.sent|..] && y in t.queue ==>
                        x.id < y.id || (x.id == y.id && x.serial < y.serial)))
  {
    hide Inv, Clean, ReceiveAll, Status, Free, Reached, PerIdOrder, SortedById;
    CleanTakesOnlyStale(s, i.nowUs, i.rxLeft);
    CleanKeepsStatus(s, i.nowUs, i.rxLeft);
    var a := Clean(s, i.nowUs, i.rxLeft);
    CleanKeepsInv(s, i.nowUs, i.rxLeft);
    ReceiveAllKeepsInv(a, Budgeted(i.arrivals));
    var c := ReceiveAll(a, Budgeted(i.arrivals));
    assert Received(s, i) == c;
    StatusQueues(c, i.nowMs, i.statusUs);
    StatusKeepsInv(c, i.nowMs, i.statusUs);
    if !i.busOff {
      var u := Status(c, i.nowMs, i.statusUs);
      SendSplits(u, Least(i.accepts, 16));
      assert Poll(s, i) == Send(u, Least(i.accepts, 16));
    }
  }

  lemma SendSplits(u: Tx, n: nat)
    requires Inv(u)
    ensures var t := Send(u, n);
            && u.sent <= t.sent && |t.sent| == |u.sent| + Least(n, |u.queue|)
               && |t.queue| == |u.queue| - Least(n, |u.queue|)
            && t.made == u.made
            && multiset(t.sent[|u.sent|..]) + multiset(t.queue) == multiset(u.queue)
            && (forall x, y :: x in t.sent[|u.sent|..] && y in t.queue ==>
                  x.id < y.id || (x.id == y.id && x.serial < y.serial))
  {
    hide Inv, PerIdOrder, SortedById;
    var t, k := Send(u, n), Least(n, |u.queue|);
    assert t.sent[|u.sent|..] == u.queue[..k];
    assert u.queue == u.queue[..k] + u.queue[k..];
    forall x, y | x in t.sent[|u.sent|..] && y in t.queue ensures x.id < y.id || (x.id == y.id && x.serial < y.serial) {
      SendsHighestPriority(u, n, x, y);
    }
  }

  // ---------------------------------------------------------------- draining a queue

  /** Polls with the bus on and a controller that accepts at least one frame, and no request among what they receive. */
  predicate Draining(i: PollInput) {
    !i.busOff && i.accepts > 0 && forall k :: 0 <= k < |i.arrivals| ==> i.arrivals[k].Quiet?
  }

  function Rest(n: nat, taken: nat): nat {
    if n <= taken then 0 else n - taken
  }

  function Accepted(inputs: seq<PollInput>): nat {
    if inputs == [] then 0 else Least(inputs[0].accepts, 16) + Accepted(inputs[1..])
  }

  function PollAll(s: Tx, inputs: seq<PollInput>): Tx
    decreases inputs
  {
    if inputs == [] then s else PollAll(Poll(s, inputs[0]), inputs[1..])
  }

  lemma {:induction false} QuietQueuesNothing(s: Tx, arrivals: seq<Arrival>)
    requires forall k :: 0 <= k < |arrivals| ==> arrivals[k].Quiet?
    ensures ReceiveAll(s, arrivals).queue == s.queue && ReceiveAll(s, arrivals).made == s.made
    decreases arrivals
  {
    if arrivals != [] {
      QuietQueuesNothing(Receive(s, arrivals[0]), arrivals[1..]);
    }
  }

  lemma DrainingPoll(s: Tx, i: PollInput)
    requires Inv(s) && Draining(i)
    ensures var t := Poll(s, i);
            && Inv(t) && s.made <= t.made <= s.made + StatusFrames(s, i)
            && |t.queue| <= Rest(|s.queue| + |t.made| - |s.made|, Least(i.accepts, 16))
            && (t.made != s.made ==> Reached(i.nowMs, s.nextStatus))
  {
    hide Inv, Clean, ReceiveAll, Poll, Kept, Free, Reached;
    PollSendsExactly(s, i);
    PollKeepsInv(s, i);
    QuietQueuesNothing(Clean(s, i.nowUs, i.rxLeft), Budgeted(i.arrivals));
    CleanTakesOnlyStale(s, i.nowUs, i.rxLeft);
    CleanShrinks(s, i.nowUs, i.rxLeft);
  }

  lemma CleanShrinks(s: Tx, us: nat, rxLeft: nat)
    ensures |Clean(s, us, rxLeft).queue| <= |s.queue|
  {
    KeptMembers(s.queue, us);
  }

  /**
   * A queue drains: of the frames that waited and the NodeStatus frames made meanwhile no more are left than exceed
   * what the controller accepted in these polls, at most 16 counted for each.
   */
  lemma {:induction false} PollsDrain(s: Tx, inputs: seq<PollInput>)
    requires Inv(s) && forall k :: 0 <= k < |inputs| ==> Draining(inputs[k])
    ensures var t := PollAll(s, inputs);
            && s.made <= t.made && |t.made| - |s.made| <= |inputs| <= Accepted(inputs)
            && |t.queue| <= Rest(|s.queue| + |t.made| - |s.made|, Accepted(inputs))
    decreases inputs
  {
    hide Inv, Poll, StatusFrames;
    if inputs != [] {
      DrainingPoll(s, inputs[0]);
      PollsDrain(Poll(s, inputs[0]), inputs[1..]);
    }
  }

  // ---------------------------------------------------------------- counting frames by id

  function Tally(frames: seq<Frame>, id: nat): nat {
    if frames == [] then 0 else (if frames[0].id == id then 1 else 0) + Tally(frames[1..], id)
  }

  lemma {:induction false} TallyConcat(a: seq<Frame>, b: seq<Frame>, id: nat)
    ensures Tally(a + b, id) == Tally(a, id) + Tally(b, id)
    decreases a
  {
    if a == [] {
      assert a + b == b;
    } else {
      assert (a + b)[1..] == a[1..] + b;
      TallyConcat(a[1..], b, id);
    }
  }

  lemma {:induction false} TallyBatch(id: nat, deadline: nat, first: nat, n: nat, other: nat)
    ensures Tally(Batch(id, deadline, first, n), other) == if id == other then n else 0
    decreases n
  {
    if n > 0 {
      assert Batch(id, deadline, first, n)[1..] == Batch(id, deadline, first + 1, n - 1);
      TallyBatch(id, deadline, first + 1, n - 1, other);
    }
  }

  lemma {:induction false} TallyNone(frames: seq<Frame>, id: nat)
    requires forall f :: f in frames ==> f.id != id
    ensures Tally(frames, id) == 0
    decreases frames
  {
    if frames != [] {
      TallyNone(frames[1..], id);
    }
  }

  /** Receiving makes answers only. */
  lemma {:induction false} OnlyAnswers(s: Tx, arrivals: seq<Arrival>)
    requires Inv(s)
    ensures var t := ReceiveAll(s, arrivals);
            s.made <= t.made && forall f :: f in t.made[|s.made|..] ==> f.id % 256 == 253
    decreases arrivals
  {
    hide Inv, Receive, Needed, Batch;
    if arrivals != [] {
      ReceiveAnswers(s, arrivals[0]);
      AnswerIds(s, Receive(s, arrivals[0]), arrivals[0]);
      var u := Receive(s, arrivals[0]);
      OnlyAnswers(u, arrivals[1..]);
      var t := ReceiveAll(s, arrivals);
      assert t.made[|s.made|..] == u.made[|s.made|..] + t.made[|u.made|..];
    }
  }

  lemma AnswerIds(s: Tx, t: Tx, a: Arrival)
    requires Answered(s, t, a)
    ensures s.made <= t.made && forall f :: f in t.made[|s.made|..] ==> f.id % 256 == 253
  {
    hide Needed;
    if a.Request? {
      assert (0x801_0000 + a.source * 0x100 + 0x80 + 125) % 256 == 253;
    }
  }

  /** A poll makes no frame of an id other than those of answers and of NodeStatus. */
  lemma PollTally(s: Tx, i: PollInput, id: nat)
    requires Inv(s) && id % 256 == 125 && id != 8 * 0x100_0000 + 341 * 0x100 + 125
    ensures Tally(Poll(s, i).made, id) == Tally(s.made, id)
  {
    hide Inv, Clean, ReceiveAll, Poll, Free, Reached;
    PollSendsExactly(s, i);
    CleanTakesOnlyStale(s, i.nowUs, i.rxLeft);
    var a := Clean(s, i.nowUs, i.rxLeft);
    CleanKeepsInv(s, i.nowUs, i.rxLeft);
    OnlyAnswers(a, Budgeted(i.arrivals));
    var c := Received(s, i);
    TallyNone(c.made[|s.made|..], id);
    TallyNone(StatusFrames(s, i), id);
    TallyConcat(s.made, c.made[|s.made|..], id);
    assert c.made == s.made + c.made[|s.made|..];
    TallyConcat(c.made, StatusFrames(s, i), id);
  }
}
