// How late a CAN frame can be over whole runs of the main loop, with the clock readings of each iteration in order.
module MainQueue {
  import opened WrapTime
  import opened MainModel
  import opened MainRuns
  import CanTx
  import MainIo
  import PmwCounts

  /** No clock reading of an iteration comes before the last poll's, and those of a poll not before its first. */
  predicate InClockOrder(last: nat, i: Turn) {
    && i.flowUs >= last && i.rangeUs >= last
    && i.poll.nowUs >= last && i.poll.statusUs >= i.poll.nowUs && CanTx.ArrivalsAfter(i.poll.arrivals, i.poll.nowUs)
  }

  predicate AllInClockOrder(last: nat, turns: seq<Turn>)
    decreases turns
  {
    turns == [] || (InClockOrder(last, turns[0]) && AllInClockOrder(turns[0].poll.nowUs, turns[1..]))
  }

  /** The reading of the last poll. */
  function LastPoll(last: nat, turns: seq<Turn>): nat {
    if turns == [] then last else turns[|turns| - 1].poll.nowUs
  }

  /** What the queue keeps from poll to poll. */
  ghost predicate Punctual(c: CanTx.Tx, last: nat) {
    CanTx.Dated(c) && c.nextCleanup <= last + CanTx.CLEANUP_INTERVAL_US
  }

  lemma PublishPunctual(s: Loop, i: Turn, flowDue: bool, rangeDue: bool, last: nat)
    requires MainIo.IoInv(s.io) && CanTx.Inv(s.can) && Punctual(s.can, last) && InClockOrder(last, i)
    ensures var u := PublishStages(s, i, flowDue, rangeDue).can;
            CanTx.Inv(u) && Punctual(u, last) && u.sent == s.can.sent
  {
    hide Noted, Taken, FlowReport, CanTx.Broadcast, PmwCounts.FlowStep, MainIo.IoInv, MainIo.Idle, MainIo.ListenAll,
      FlowSent, RangeSent, CanTx.Inv, CanTx.Dated;
    var a := FlowStage(s, i, flowDue).can;
    CanTx.BroadcastDated(s.can, CanTx.FLOW_ID, CanTx.PRIORITY_LOW, CanTx.FLOW_LENGTH, i.flowUs);
    CanTx.BroadcastExactly(s.can, CanTx.FLOW_ID, CanTx.PRIORITY_LOW, CanTx.FLOW_LENGTH, i.flowUs);
    CanTx.BroadcastDated(a, CanTx.RANGE_ID, CanTx.PRIORITY_LOW, CanTx.RANGE_LENGTH, i.rangeUs);
    CanTx.BroadcastExactly(a, CanTx.RANGE_ID, CanTx.PRIORITY_LOW, CanTx.RANGE_LENGTH, i.rangeUs);
  }

  /** Frames queued or sent in a poll, and none of them 50 ms or more past its deadline. */
  ghost predicate NoneStale(before: CanTx.Tx, after: CanTx.Tx, nowUs: nat) {
    && before.sent <= after.sent
    && forall f :: f in after.queue || f in after.sent[|before.sent|..] ==> nowUs < f.deadline + CanTx.CLEANUP_INTERVAL_US
  }

  lemma PollPunctual(s: Loop, i: Turn, last: nat)
    requires MainIo.IoInv(s.io) && CanTx.Inv(s.can) && Punctual(s.can, last) && InClockOrder(last, i)
    ensures var u := TakeStage(PollStage(s, i)).can; Punctual(u, i.poll.nowUs) && NoneStale(s.can, u, i.poll.nowUs)
  {
    hide MainIo.IoInv, MainIo.Polled, CanTx.Inv, CanTx.Poll, Noted, Stamp;
    var n := MainIo.Polled(s.io, i.irqs.can).1;
    CanTx.PollNeverLate(s.can, PollWith(i, n), last);
  }

  lemma IteratePunctual(s: Loop, i: Turn, last: nat)
    requires Inv(s) && Punctual(s.can, last) && InClockOrder(last, i)
    ensures var u := Iterate(s, i).can; Punctual(u, i.poll.nowUs) && NoneStale(s.can, u, i.poll.nowUs)
  {
    hide Kept, Runnable, SensorStages, PublishStages, BusStage, PollStage, TakeStage, PmwStages, TofTurn, TofFlagged,
      MainIo.IoInv, CanTx.Inv, Punctual, InClockOrder;
    KeptFacts(s);
    SensorStagesShape(s, i);
    var (a, flowDue, rangeDue) := SensorStages(s, i);
    PublishPunctual(a, i, flowDue, rangeDue, last);
    var b := PublishStages(a, i, flowDue, rangeDue);
    BusStageShape(b, i);
    PollPunctual(BusStage(b, i), i, last);
  }

  lemma {:induction false} RunPunctual(s: Loop, last: nat, turns: seq<Turn>)
    requires Inv(s) && Punctual(s.can, last) && AllInClockOrder(last, turns)
    ensures Punctual(Run(s, turns).can, LastPoll(last, turns))
    decreases turns
  {
    hide Inv, Iterate, Reports, Punctual, InClockOrder, NoneStale;
    if turns != [] {
      IterateReports(s, turns[0]);
      IteratePunctual(s, turns[0], last);
      RunPunctual(Iterate(s, turns[0]), turns[0].poll.nowUs, turns[1..]);
    }
  }

  /**
   * In any run of the main loop from power-on, no iteration leaves a frame in the queue, or hands one to the controller,
   * that is 50 ms or more past its deadline.
   */
  lemma FramesNeverStale(t: int, us: int, turns: seq<Turn>, i: Turn)
    requires AllInClockOrder(0, turns) && InClockOrder(LastPoll(0, turns), i)
    ensures Inv(Initial(t, us)) && Inv(Run(Initial(t, us), turns))
    ensures var s := Run(Initial(t, us), turns);
            var u := Iterate(s, i);
            && s.can.sent <= u.can.sent
            && forall f :: f in u.can.queue || f in u.can.sent[|s.can.sent|..] ==>
                 i.poll.nowUs < f.deadline + CanTx.CLEANUP_INTERVAL_US
  {
    QueueAtStart(t, us);
    hide Run, Inv, Initial, Iterate, InClockOrder, AllInClockOrder, LastPoll, Punctual;
    InitialInv(t, us);
    RunKeepsInv(Initial(t, us), turns);
    RunPunctual(Initial(t, us), 0, turns);
    IteratePunctual(Run(Initial(t, us), turns), i, LastPoll(0, turns));
  }

  lemma QueueAtStart(t: int, us: int)
    ensures Punctual(Initial(t, us).can, 0)
  {}
}
