// What the main loop publishes over DroneCAN (app/main.c:48 and 56, protocol/dronecan.c:54-61): which due reports are
// queued, in how many frames of which id and deadline, and that a working bus carries all of them.
module MainPublish {
  import opened Common
  import opened WrapTime
  import opened Health
  import opened MainModel
  import opened MainRuns
  import opened MainStatus
  import CanTx
  import CanPolls
  import CanRecovery
  import MainIo
  import MspSensors
  import PmwCounts
  import Scheduler

  const FLOW_CAN_ID := 24 * 0x100_0000 + 20200 * 0x100 + 125
  const RANGE_CAN_ID := 24 * 0x100_0000 + 1050 * 0x100 + 125

  /** The blocks of the pool that are neither queued nor held by half-received transfers. */
  function Blocks(c: CanTx.Tx): int {
    51 - |c.queue| - c.rxBlocks
  }

  /**
   * u is s with a report of k frames queued, if more than 16 blocks are free; else a refusal is counted and flagged.
   */
  predicate Offers(s: CanTx.Tx, u: CanTx.Tx, id: nat, us: nat, k: nat) {
    if Blocks(s) > 16 then
      var b := CanTx.Batch(id, us + 100_000, |s.made|, k);
      && u == s.(queue := u.queue, made := s.made + b)
      && multiset(u.queue) == multiset(s.queue) + multiset(b)
    else u == s.(overflow := true, refused := s.refused + 1)
  }

  lemma BroadcastOffers(s: CanTx.Tx, dataType: nat, length: nat, us: nat)
    requires CanTx.Inv(s) && CanTx.FramesFor(length) <= 17
    ensures var (u, ok) := CanTx.Broadcast(s, dataType, CanTx.PRIORITY_LOW, length, us);
            && Offers(s, u, 24 * 0x100_0000 + dataType * 0x100 + 125, us, CanTx.FramesFor(length))
            && (ok <==> Blocks(s) > 16)
  {
    var id := CanTx.BroadcastId(CanTx.PRIORITY_LOW, dataType);
    assert id == 24 * 0x100_0000 + dataType * 0x100 + 125;
    CanTx.EnqueueExactly(s, id, us + 100_000, CanTx.FramesFor(length));
    hide CanTx.Enqueue, CanTx.Inv, CanTx.FramesFor, CanTx.Batch, CanTx.BroadcastId;
  }

  /** A flow report due with the bus on is offered to the queue as four frames; nothing else is. */
  lemma FlowStageOffers(s: Loop, i: Turn, due: bool)
    requires MainIo.IoInv(s.io) && CanTx.Inv(s.can)
    ensures var u := FlowStage(s, i, due);
            if due && !i.busOff then Offers(s.can, u.can, 24 * 0x100_0000 + 20200 * 0x100 + 125, i.flowUs, 4)
            else u.can == s.can
  {
    BroadcastOffers(s.can, CanTx.FLOW_ID, CanTx.FLOW_LENGTH, i.flowUs);
    hide MainIo.IoInv, MainIo.Idle, FlowSent, FlowReport, Noted, Taken, PmwCounts.FlowStep, CanTx.Inv, CanTx.Broadcast,
      Offers;
  }

  lemma RangeOffers(s: CanTx.Tx, us: nat)
    requires CanTx.Inv(s)
    ensures Offers(s, CanTx.PublishRange(s, us).0, 24 * 0x100_0000 + 1050 * 0x100 + 125, us, 3)
  {
    hide CanTx.Inv, CanTx.Broadcast, Offers;
    BroadcastOffers(s, CanTx.RANGE_ID, CanTx.RANGE_LENGTH, us);
  }

  lemma RangeStageCan(s: Loop, i: Turn, due: bool)
    requires MainIo.IoInv(s.io)
    ensures RangeStage(s, i, due).can == if due && !i.busOff then CanTx.PublishRange(s.can, i.rangeUs).0 else s.can
  {
    hide MainIo.IoInv, MainIo.Idle, RangeSent, Noted, Taken, MspSensors.RangeMessage, CanTx.PublishRange;
  }

  /** A range report as three. */
  lemma RangeStageOffers(s: Loop, i: Turn, due: bool)
    requires MainIo.IoInv(s.io) && CanTx.Inv(s.can)
    ensures var u := RangeStage(s, i, due);
            if due && !i.busOff then Offers(s.can, u.can, 24 * 0x100_0000 + 1050 * 0x100 + 125, i.rangeUs, 3)
            else u.can == s.can
  {
    hide MainIo.IoInv, RangeStage, CanTx.Inv, CanTx.PublishRange, Offers;
    RangeOffers(s.can, i.rangeUs);
    RangeStageCan(s, i, due);
  }

  // ---------------------------------------------------------------- one iteration

  /** Whether the flow report of an iteration is queued. */
  ghost predicate FlowQueued(s: Loop, i: Turn)
    requires Inv(s)
  {
    FlowDue(s, i) && !i.busOff && Blocks(s.can) > 16
  }

  /** Whether its range report is, after it. */
  ghost predicate RangeQueued(s: Loop, i: Turn)
    requires Inv(s)
  {
    RangeDue(s, i) && !i.busOff && Blocks(s.can) - (if FlowQueued(s, i) then 4 else 0) > 16
  }

  /** The frames of both, in the order in which they are made. */
  ghost function Reported(s: Loop, i: Turn): seq<CanTx.Frame>
    requires Inv(s)
  {
    var f := if FlowQueued(s, i) then CanTx.Batch(FLOW_CAN_ID, i.flowUs + 100_000, |s.can.made|, 4) else [];
    f + (if RangeQueued(s, i) then CanTx.Batch(RANGE_CAN_ID, i.rangeUs + 100_000, |s.can.made| + |f|, 3) else [])
  }

  ghost function Refusals(s: Loop, i: Turn): nat
    requires Inv(s)
  {
    (if FlowDue(s, i) && !i.busOff && !FlowQueued(s, i) then 1 else 0)
    + (if RangeDue(s, i) && !i.busOff && !RangeQueued(s, i) then 1 else 0)
  }

  lemma OfferedPool(s: CanTx.Tx, u: CanTx.Tx, id: nat, us: nat, k: nat)
    requires Offers(s, u, id, us, k)
    ensures |u.made| == |s.made| + (if Blocks(s) > 16 then k else 0)
    ensures Blocks(u) == Blocks(s) - (if Blocks(s) > 16 then k else 0)
  {
    if Blocks(s) > 16 {
      assert |multiset(u.queue)| == |u.queue| && |multiset(s.queue)| == |s.queue|;
    }
  }

  /** t is s with these frames queued, and some more refusals. */
  predicate Grown(s: CanTx.Tx, t: CanTx.Tx, frames: seq<CanTx.Frame>, refusals: nat) {
    && t == s.(queue := t.queue, made := s.made + frames, overflow := s.overflow || refusals > 0,
               refused := s.refused + refusals)
    && multiset(t.queue) == multiset(s.queue) + multiset(frames) && |t.queue| == |s.queue| + |frames|
  }

  lemma OfferGrows(s: CanTx.Tx, u: CanTx.Tx, id: nat, us: nat, k: nat)
    requires Offers(s, u, id, us, k)
    ensures Grown(s, u, if Blocks(s) > 16 then CanTx.Batch(id, us + 100_000, |s.made|, k) else [],
        if Blocks(s) > 16 then 0 else 1)
  {
    OfferedPool(s, u, id, us, k);
    hide CanTx.Batch;
    assert s.made + [] == s.made;
  }

  lemma GrownTwice(s: CanTx.Tx, t: CanTx.Tx, u: CanTx.Tx, a: seq<CanTx.Frame>, b: seq<CanTx.Frame>, m: nat, n: nat)
    requires Grown(s, t, a, m) && Grown(t, u, b, n)
    ensures Grown(s, u, a + b, m + n)
  {
    assert s.made + a + b == s.made + (a + b);
  }

  lemma NotGrown(s: CanTx.Tx)
    ensures Grown(s, s, [], 0)
  {
    assert s.made + [] == s.made;
  }

  /**
   * What the iteration's publications do to the transmit side before its poll: with the bus on, a due flow report is
   * queued as four frames of id 24 << 24 | 20200 << 8 | 125 to be sent within 100 ms, if more than 16 blocks are free,
   * and then a due range report as three of id 24 << 24 | 1050 << 8 | 125; each other one is refused, counted and
   * flagged.
   */
  lemma IteratePublishes(s: Loop, i: Turn)
    requires Inv(s)
    ensures CanTx.Inv(AtPoll(s, i).can) && Grown(s.can, AtPoll(s, i).can, Reported(s, i), Refusals(s, i))
  {
    hide Kept, Runnable, SensorStages, FlowStage, RangeStage, BusStage, PmwStages, TofTurn, TofFlagged, MainIo.IoInv,
      CanTx.Inv, Offers, Grown, FlowDue, RangeDue, Blocks;
    KeptFacts(s);
    SensorStagesShape(s, i);
    DueInSensorStages(s, i);
    AtPollQueue(s, i);
    var (a, flowDue, rangeDue) := SensorStages(s, i);
    BusStageShape(PublishStages(a, i, flowDue, rangeDue), i);
    FlowStageOffers(a, i, flowDue);
    var b := FlowStage(a, i, flowDue);
    FlowStageQueue(a, i, flowDue);
    RangeStageOffers(b, i, rangeDue);
    var c := RangeStage(b, i, rangeDue);
    OffersBoth(s, i, b.can, c.can);
  }

  lemma FlowStageQueue(s: Loop, i: Turn, due: bool)
    requires MainIo.IoInv(s.io) && CanTx.Inv(s.can)
    ensures CanTx.Inv(FlowStage(s, i, due).can)
  {
    hide Noted, Taken, FlowReport, CanTx.Broadcast, PmwCounts.FlowStep, MainIo.IoInv, MainIo.Idle, FlowSent, CanTx.Inv;
    CanTx.BroadcastExactly(s.can, CanTx.FLOW_ID, CanTx.PRIORITY_LOW, CanTx.FLOW_LENGTH, i.flowUs);
  }

  lemma OffersBoth(s: Loop, i: Turn, b: CanTx.Tx, c: CanTx.Tx)
    requires Inv(s)
    requires if FlowDue(s, i) && !i.busOff then Offers(s.can, b, FLOW_CAN_ID, i.flowUs, 4) else b == s.can
    requires if RangeDue(s, i) && !i.busOff then Offers(b, c, RANGE_CAN_ID, i.rangeUs, 3) else c == b
    ensures Grown(s.can, c, Reported(s, i), Refusals(s, i))
  {
    hide Inv, Offers, Grown, FlowDue, RangeDue, Blocks, CanTx.Batch;
    NotGrown(s.can);
    NotGrown(b);
    var f := if FlowQueued(s, i) then CanTx.Batch(FLOW_CAN_ID, i.flowUs + 100_000, |s.can.made|, 4) else [];
    if FlowDue(s, i) && !i.busOff {
      OfferGrows(s.can, b, FLOW_CAN_ID, i.flowUs, 4);
      OfferedPool(s.can, b, FLOW_CAN_ID, i.flowUs, 4);
    }
    if RangeDue(s, i) && !i.busOff {
      OfferGrows(b, c, RANGE_CAN_ID, i.rangeUs, 3);
    }
    var r := if RangeQueued(s, i) then CanTx.Batch(RANGE_CAN_ID, i.rangeUs + 100_000, |s.can.made| + |f|, 3) else [];
    GrownTwice(s.can, b, c, f, r, if FlowDue(s, i) && !i.busOff && !FlowQueued(s, i) then 1 else 0,
               if RangeDue(s, i) && !i.busOff && !RangeQueued(s, i) then 1 else 0);
  }

  /**
   * The rest of what an iteration does to the transmit side: one poll, on the frames its receive loop has got, with
   * the effects given for them, and the overflow flag taken.
   */
  lemma IteratePolls(s: Loop, i: Turn)
    requires Inv(s) && FramesGot(s, i) <= |i.poll.arrivals|
    ensures Iterate(s, i).can == CanTx.Take(CanTx.Poll(AtPoll(s, i).can,
              i.poll.(nowMs := Stamp(i.t), arrivals := i.poll.arrivals[..FramesGot(s, i)])))
  {
    hide Kept, Runnable, SensorStages, PublishStages, BusStage, PmwStages, TofTurn, TofFlagged, MainIo.IoInv,
      CanTx.Inv, CanTx.Poll, MainIo.Polled, CanTx.Take;
    AtPollQueue(s, i);
    var n := FramesGot(s, i);
    assert Effects(i.poll.arrivals, n) == i.poll.arrivals[..n];
    PollStageCan(AtPoll(s, i), i);
  }

  lemma PollStageCan(s: Loop, i: Turn)
    requires MainIo.IoInv(s.io)
    ensures TakeStage(PollStage(s, i)).can == CanTx.Take(CanTx.Poll(s.can, PollWith(i, MainIo.Polled(s.io,
        i.irqs.can).1)))
  {
    hide CanTx.Poll, MainIo.IoInv, MainIo.Polled, PollWith, Noted;
  }

  // ---------------------------------------------------------------- whole runs

  lemma ReportedTally(s: Loop, i: Turn)
    requires Inv(s)
    ensures CanPolls.Tally(Reported(s, i), FLOW_CAN_ID) == if FlowQueued(s, i) then 4 else 0
    ensures CanPolls.Tally(Reported(s, i), RANGE_CAN_ID) == if RangeQueued(s, i) then 3 else 0
  {
    hide Inv, FlowQueued, RangeQueued, CanTx.Batch, CanPolls.Tally;
    var n := |s.can.made|;
    var f := if FlowQueued(s, i) then CanTx.Batch(FLOW_CAN_ID, i.flowUs + 100_000, n, 4) else [];
    var r := if RangeQueued(s, i) then CanTx.Batch(RANGE_CAN_ID, i.rangeUs + 100_000, n + |f|, 3) else [];
    CanPolls.TallyConcat(f, r, FLOW_CAN_ID);
    CanPolls.TallyConcat(f, r, RANGE_CAN_ID);
    CanPolls.TallyBatch(FLOW_CAN_ID, i.flowUs + 100_000, n, 4, FLOW_CAN_ID);
    CanPolls.TallyBatch(FLOW_CAN_ID, i.flowUs + 100_000, n, 4, RANGE_CAN_ID);
    CanPolls.TallyBatch(RANGE_CAN_ID, i.rangeUs + 100_000, n + |f|, 3, FLOW_CAN_ID);
    CanPolls.TallyBatch(RANGE_CAN_ID, i.rangeUs + 100_000, n + |f|, 3, RANGE_CAN_ID);
    CanPolls.TallyNone([], FLOW_CAN_ID);
    CanPolls.TallyNone([], RANGE_CAN_ID);
  }

  /** The iteration's poll, as it is. */
  lemma IterateCan(s: Loop, i: Turn)
    requires Inv(s)
    ensures Iterate(s, i).can == CanTx.Take(CanTx.Poll(AtPoll(s, i).can, PollWith(i, FramesGot(s, i))))
  {
    hide Kept, Runnable, SensorStages, PublishStages, BusStage, PmwStages, TofTurn, TofFlagged, MainIo.IoInv,
      CanTx.Inv, CanTx.Poll, MainIo.Polled, CanTx.Take, PollWith;
    AtPollQueue(s, i);
    PollStageCan(AtPoll(s, i), i);
  }

  /** An iteration makes the frames of its queued reports, and no others of their ids. */
  lemma IterateTally(s: Loop, i: Turn)
    requires Inv(s)
    ensures var made := Iterate(s, i).can.made;
            && CanPolls.Tally(made, FLOW_CAN_ID)
               == CanPolls.Tally(s.can.made, FLOW_CAN_ID) + (if FlowQueued(s, i) then 4 else 0)
            && CanPolls.Tally(made, RANGE_CAN_ID)
               == CanPolls.Tally(s.can.made, RANGE_CAN_ID) + (if RangeQueued(s, i) then 3 else 0)
  {
    hide Inv, Iterate, AtPoll, FlowQueued, RangeQueued, CanTx.Inv, CanTx.Poll, FramesGot, PollWith, CanPolls.Tally,
        Reported,
      Grown;
    IteratePublishes(s, i);
    IterateCan(s, i);
    ReportedTally(s, i);
    PollTallies(s.can, AtPoll(s, i).can, Reported(s, i), Refusals(s, i), PollWith(i, FramesGot(s, i)));
  }

  lemma PollTallies(s: CanTx.Tx, p: CanTx.Tx, frames: seq<CanTx.Frame>, refusals: nat, input: CanTx.PollInput)
    requires Grown(s, p, frames, refusals) && CanTx.Inv(p)
    ensures var made := CanTx.Poll(p, input).made;
            && CanPolls.Tally(made, FLOW_CAN_ID) == CanPolls.Tally(s.made, FLOW_CAN_ID) + CanPolls.Tally(frames,
               FLOW_CAN_ID)
            && CanPolls.Tally(made, RANGE_CAN_ID) == CanPolls.Tally(s.made, RANGE_CAN_ID) + CanPolls.Tally(frames,
               RANGE_CAN_ID)
  {
    hide CanTx.Inv, CanTx.Poll, CanPolls.Tally;
    CanPolls.TallyConcat(s.made, frames, FLOW_CAN_ID);
    CanPolls.TallyConcat(s.made, frames, RANGE_CAN_ID);
    CanPolls.PollTally(p, input, FLOW_CAN_ID);
    CanPolls.PollTally(p, input, RANGE_CAN_ID);
  }

  /** How many reports of each kind a run queues. */
  ghost function FlowsQueued(s: Loop, turns: seq<Turn>): nat
    requires Inv(s)
    decreases turns
  {
    if turns == [] then 0 else
      IterateReports(s, turns[0]);
      (if FlowQueued(s, turns[0]) then 1 else 0) + FlowsQueued(Iterate(s, turns[0]), turns[1..])
  }

  ghost function RangesQueued(s: Loop, turns: seq<Turn>): nat
    requires Inv(s)
    decreases turns
  {
    if turns == [] then 0 else
      IterateReports(s, turns[0]);
      (if RangeQueued(s, turns[0]) then 1 else 0) + RangesQueued(Iterate(s, turns[0]), turns[1..])
  }

  /**
   * Over any run: four frames for each flow report due with the bus on and more than 16 blocks free, and three for
   * ranges.
   */
  lemma {:induction false} RunTally(s: Loop, turns: seq<Turn>)
    requires Inv(s)
    ensures var made := Run(s, turns).can.made;
            && CanPolls.Tally(made, FLOW_CAN_ID) == CanPolls.Tally(s.can.made, FLOW_CAN_ID) + 4 * FlowsQueued(s, turns)
            && CanPolls.Tally(made, RANGE_CAN_ID) == CanPolls.Tally(s.can.made, RANGE_CAN_ID) + 3 * RangesQueued(s,
               turns)
    decreases turns
  {
    hide Inv, Iterate, Reports, FlowQueued, RangeQueued, CanPolls.Tally;
    if turns != [] {
      IterateReports(s, turns[0]);
      IterateTally(s, turns[0]);
      RunTally(Iterate(s, turns[0]), turns[1..]);
    }
  }

  // ---------------------------------------------------------------- a bus that works

  /**
   * The bus is on, the controller accepts 8 frames or more, receive states hold at most 20 blocks, nothing asks for an
   * answer, and the poll comes within 100 ms of the publications.
   */
  predicate Working(i: Turn) {
    && !i.busOff && !i.poll.busOff && i.poll.accepts >= 8
    && (forall k :: 0 <= k < |i.poll.arrivals| ==> i.poll.arrivals[k].Quiet? && i.poll.arrivals[k].held <= 20)
    && i.poll.nowUs <= i.flowUs + 100_000 && i.poll.nowUs <= i.rangeUs + 100_000
  }

  /** Nothing waits, and everything made was sent. */
  ghost predicate Clear(c: CanTx.Tx) {
    && c.queue == [] && c.expired == [] && c.flushed == [] && c.rxBlocks <= 20 && multiset(c.sent) == multiset(c.made)
  }

  lemma {:induction false} QuietHolds(s: CanTx.Tx, arrivals: seq<CanTx.Arrival>)
    requires s.rxBlocks <= 20 && forall k :: 0 <= k < |arrivals| ==> arrivals[k].Quiet? && arrivals[k].held <= 20
    ensures var t := CanTx.ReceiveAll(s, arrivals); t.rxBlocks <= 20 && t == s.(rxBlocks := t.rxBlocks)
    decreases arrivals
  {
    if arrivals != [] {
      QuietHolds(CanTx.Receive(s, arrivals[0]), arrivals[1..]);
    }
  }

  lemma {:induction false} NoneStale(q: seq<CanTx.Frame>, now: nat)
    requires forall f :: f in q ==> now <= f.deadline
    ensures CanTx.Kept(q, now) == q && CanTx.Stale(q, now) == []
    decreases q
  {
    if q != [] {
      NoneStale(q[1..], now);
      assert [q[0]] + q[1..] == q;
    }
  }

  lemma WorkingReceives(s: CanTx.Tx, p: CanTx.PollInput)
    requires s.rxBlocks <= 20 && (forall f :: f in s.queue ==> p.nowUs <= f.deadline)
    requires forall k :: 0 <= k < |p.arrivals| ==> p.arrivals[k].Quiet? && p.arrivals[k].held <= 20
    ensures var c := CanTx.Received(s, p);
            && c.rxBlocks <= 20 && c == s.(rxBlocks := c.rxBlocks, nextCleanup := c.nextCleanup)
  {
    NoneStale(s.queue, p.nowUs);
    var a := CanTx.Clean(s, p.nowUs, p.rxLeft);
    assert s.expired + [] == s.expired;
    QuietHolds(a, CanTx.Budgeted(p.arrivals));
    hide CanTx.ReceiveAll, CanTx.Kept, CanTx.Stale;
  }

  /** A poll of a working bus sends up to seven waiting frames and a NodeStatus, and leaves nothing. */
  lemma WorkingPoll(s: CanTx.Tx, p: CanTx.PollInput)
    requires CanTx.Inv(s) && s.rxBlocks <= 20 && |s.queue| <= 7 && !p.busOff && p.accepts >= 8
    requires (forall f :: f in s.queue ==> p.nowUs <= f.deadline) && s.expired == [] && s.flushed == []
    requires forall k :: 0 <= k < |p.arrivals| ==> p.arrivals[k].Quiet? && p.arrivals[k].held <= 20
    ensures Clear(CanTx.Poll(s, p)) && CanTx.Poll(s, p).refused == s.refused
  {
    hide CanTx.Clean, CanTx.ReceiveAll, CanTx.Poll, CanTx.PerIdOrder, CanTx.SortedById, Reached, CanTx.Received,
        CanTx.Statuses;
    WorkingReceives(s, p);
    CanPolls.PollSendsExactly(s, p);
    CanPolls.PollExpiresExactly(s, p);
    CanTx.PollKeepsInv(s, p);
    CanTx.PollMakesStatus(s, p);
    CanTx.BusOffDecides(s, p);
    PollHolds(s, p);
  }

  lemma PollHolds(s: CanTx.Tx, p: CanTx.PollInput)
    requires CanTx.Inv(s) && !p.busOff
    ensures CanTx.Poll(s, p).rxBlocks == CanTx.Received(s, p).rxBlocks
  {
    hide CanTx.Inv, CanTx.Clean, CanTx.ReceiveAll, Reached, Plus, CanTx.Enqueue;
    var c := CanTx.Received(s, p);
    CanTx.CleanKeepsInv(s, p.nowUs, p.rxLeft);
    CanTx.ReceiveAllKeepsInv(CanTx.Clean(s, p.nowUs, p.rxLeft), CanTx.Budgeted(p.arrivals));
    CanTx.BroadcastExactly(c, CanTx.STATUS_ID, CanTx.PRIORITY_HIGH, CanTx.STATUS_LENGTH, p.statusUs);
    hide CanTx.Broadcast;
  }

  lemma ReportedDeadlines(s: Loop, i: Turn)
    requires Inv(s) && Working(i)
    ensures |Reported(s, i)| <= 7 && forall f :: f in Reported(s, i) ==> i.poll.nowUs <= f.deadline
  {
    hide Inv, FlowQueued, RangeQueued;
  }

  lemma EffectsQuiet(i: Turn, n: nat)
    requires Working(i)
    ensures var p := PollWith(i, n);
            && !p.busOff && p.accepts == i.poll.accepts && p.nowUs == i.poll.nowUs
            && forall k :: 0 <= k < |p.arrivals| ==> p.arrivals[k].Quiet? && p.arrivals[k].held <= 20
  {}

  lemma WorkingIterate(s: Loop, i: Turn)
    requires Inv(s) && Clear(s.can) && Working(i)
    ensures FlowQueued(s, i) == FlowDue(s, i) && RangeQueued(s, i) == RangeDue(s, i)
    ensures Clear(Iterate(s, i).can) && BeforeTake(s, i).can.refused == 0
  {
    hide Inv, Iterate, AtPoll, FlowDue, RangeDue, CanTx.Inv, CanTx.Poll, FramesGot, PollWith, Reported, BeforeTake,
        Stamp;
    IteratePublishes(s, i);
    IterateCan(s, i);
    ReportedDeadlines(s, i);
    NoneRefusedBefore(s);
    EffectsQuiet(i, FramesGot(s, i));
    var p := AtPoll(s, i).can;
    assert |multiset(p.queue)| == |p.queue|;
    assert forall f :: f in p.queue ==> f in multiset(p.queue);
    SentKeeps(s.can, p, Reported(s, i), Refusals(s, i));
    WorkingPoll(p, PollWith(i, FramesGot(s, i)));
    BeforeTakeCan(s, i);
  }

  lemma NoneRefusedBefore(s: Loop)
    requires Inv(s)
    ensures s.can.refused == 0
  {}

  lemma BeforeTakeCan(s: Loop, i: Turn)
    requires Inv(s)
    ensures BeforeTake(s, i).can == CanTx.Poll(AtPoll(s, i).can, PollWith(i, FramesGot(s, i)))
  {
    hide Kept, Runnable, SensorStages, PublishStages, BusStage, PmwStages, TofTurn, TofFlagged, MainIo.IoInv,
      CanTx.Inv, CanTx.Poll, MainIo.Polled, PollWith;
    KeptFacts(s);
  }

  lemma SentKeeps(s: CanTx.Tx, p: CanTx.Tx, frames: seq<CanTx.Frame>, refusals: nat)
    requires Clear(s) && Grown(s, p, frames, refusals)
    ensures multiset(p.queue) == multiset(frames) && |p.queue| == |frames|
    ensures p.expired == [] && p.flushed == [] && p.rxBlocks <= 20 && p.refused == s.refused + refusals
  {}

  predicate AllWorking(turns: seq<Turn>) {
    forall k :: 0 <= k < |turns| ==> Working(turns[k])
  }

  lemma DuesNext(s: Loop, i: Turn)
    requires Inv(s)
    ensures s.flowTask.period > 0 && s.rangeTask.period > 0
    ensures FlowDue(s, i) == Scheduler.Poll(s.flowTask, Stamp(i.t)).1
    ensures RangeDue(s, i) == Scheduler.Poll(s.rangeTask, Stamp(i.t)).1
    ensures Iterate(s, i).flowTask == Scheduler.Poll(s.flowTask, Stamp(i.t)).0
    ensures Iterate(s, i).rangeTask == Scheduler.Poll(s.rangeTask, Stamp(i.t)).0
  {
    PeriodsKept(s);
    IterateShape(s, i);
    hide Inv, Iterate, TofTurn, CanRecovery.Step, PmwStages, PmwCounts.FlowStep, Scheduler.Poll;
  }

  /**
   * On a working bus a run queues a report each time its task fires, leaves nothing unsent, and has nothing refused.
   */
  lemma {:induction false} WorkingRun(s: Loop, turns: seq<Turn>)
    requires Inv(s) && Clear(s.can) && AllWorking(turns)
    ensures s.flowTask.period > 0 && s.rangeTask.period > 0
    ensures Clear(Run(s, turns).can)
    ensures FlowsQueued(s, turns) == Scheduler.Count(Scheduler.Firings(s.flowTask, Times(turns)))
    ensures RangesQueued(s, turns) == Scheduler.Count(Scheduler.Firings(s.rangeTask, Times(turns)))
    ensures Read(Run(s, turns).health).txOverflow == Read(s.health).txOverflow
    decreases turns
  {
    hide Inv, Iterate, FlowQueued, RangeQueued, FlowDue, RangeDue, Clear, Working, Scheduler.Poll, Read, BeforeTake,
      ReportRefused, MainIo.Flags, MainIo.IoInv, Sensed;
    PeriodsKept(s);
    if turns != [] {
      var i, rest := turns[0], turns[1..];
      IterateReports(s, i);
      WorkingIterate(s, i);
      DuesNext(s, i);
      assert AllWorking(rest);
      WorkingRun(Iterate(s, i), rest);
      assert Times(turns) == [i.t] + Times(rest);
      FirstFiring(s.flowTask, i.t, Times(rest));
      FirstFiring(s.rangeTask, i.t, Times(rest));
    }
  }

  /**
   * A working bus carries every report: from power-on, after every iteration everything made has been sent, with
   * nothing expired, flushed or refused; and that is four frames for each flow report and three for each range report
   * the tasks called for, one for each 20 and 25 ms that were polled in.
   */
  lemma WorkingBusCarriesReports(t: int, us: int, turns: seq<Turn>)
    requires AllWorking(turns) && Scheduler.Polled(t, Times(turns))
    ensures Inv(Initial(t, us))
    ensures var s := Run(Initial(t, us), turns);
            && s.can.queue == [] && s.can.expired == [] && s.can.flushed == [] && !Read(s.health).txOverflow
            && multiset(s.can.sent) == multiset(s.can.made)
            && CanPolls.Tally(s.can.made, FLOW_CAN_ID)
               == 4 * Scheduler.Count(Scheduler.GridCrossings(t, 20, t, Times(turns)))
            && CanPolls.Tally(s.can.made, RANGE_CAN_ID)
               == 3 * Scheduler.Count(Scheduler.GridCrossings(t, 25, t, Times(turns)))
  {
    ClearAtStart(t, us);
    hide Run, Inv, Initial, AllWorking, CanPolls.Tally, Read, FlowsQueued, RangesQueued, Scheduler.Firings,
        Scheduler.Count,
      Scheduler.GridCrossings, Scheduler.Polled, Times;
    InitialInv(t, us);
    WorkingRun(Initial(t, us), turns);
    RunTally(Initial(t, us), turns);
    Scheduler.FiringsAreGridCrossings(t, FLOW_PERIOD_MS, Times(turns));
    Scheduler.FiringsAreGridCrossings(t, RANGE_PERIOD_MS, Times(turns));
  }

  lemma ClearAtStart(t: int, us: int)
    ensures var s := Initial(t, us);
            && Clear(s.can) && !Read(s.health).txOverflow
            && CanPolls.Tally(s.can.made, FLOW_CAN_ID) == 0 && CanPolls.Tally(s.can.made, RANGE_CAN_ID) == 0
            && s.flowTask == Scheduler.NewTask(Stamp(t), FLOW_PERIOD_MS)
            && s.rangeTask == Scheduler.NewTask(Stamp(t), RANGE_PERIOD_MS)
  {}
}
