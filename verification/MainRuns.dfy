// Whole runs of the main loop from power-on: what holds in every reachable state, and how often things happen.
module MainRuns {
  import opened Common
  import opened WrapTime
  import opened Health
  import opened MainModel
  import Scheduler
  import CanRecovery
  import CanRx
  import CanTx
  import MainIo
  import RxRing
  import TofModel
  import PmwModel
  import PmwCounts
  import RangeReport

  ghost function Run(s: Loop, turns: seq<Turn>): Loop
    requires Inv(s)
    decreases turns
  {
    if turns == [] then s else
      IterateReports(s, turns[0]);
      Run(Iterate(s, turns[0]), turns[1..])
  }

  lemma {:induction false} RunKeepsInv(s: Loop, turns: seq<Turn>)
    requires Inv(s)
    ensures Inv(Run(s, turns))
    decreases turns
  {
    hide Inv, Iterate, Reports;
    if turns != [] {
      IterateReports(s, turns[0]);
      RunKeepsInv(Iterate(s, turns[0]), turns[1..]);
    }
  }

  lemma RunCons(s: Loop, i: Turn, rest: seq<Turn>)
    requires Inv(s)
    ensures Inv(Iterate(s, i)) && Run(s, [i] + rest) == Run(Iterate(s, i), rest)
  {
    hide Inv, Iterate, Reports;
    IterateReports(s, i);
    assert ([i] + rest)[1..] == rest;
  }

  lemma {:induction false} RunSnoc(s: Loop, turns: seq<Turn>, i: Turn)
    requires Inv(s)
    ensures Inv(Run(s, turns)) && Run(s, turns + [i]) == Iterate(Run(s, turns), i)
    decreases turns
  {
    hide Inv, Iterate;
    if turns == [] {
      RunCons(s, i, []);
      assert turns + [i] == [i] + [];
    } else {
      var rest := turns[1..];
      RunCons(s, turns[0], rest);
      RunCons(s, turns[0], rest + [i]);
      assert turns == [turns[0]] + rest && turns + [i] == [turns[0]] + (rest + [i]);
      hide Run;
      RunSnoc(Iterate(s, turns[0]), rest, i);
    }
  }

  lemma {:induction false} RunConcat(s: Loop, a: seq<Turn>, b: seq<Turn>)
    requires Inv(s)
    ensures Inv(Run(s, a)) && Run(s, a + b) == Run(Run(s, a), b)
    decreases a
  {
    hide Inv, Iterate, Reports;
    if a == [] {
      assert a + b == b;
    } else {
      IterateReports(s, a[0]);
      RunConcat(Iterate(s, a[0]), a[1..], b);
      assert (a + b)[1..] == a[1..] + b;
    }
  }

  /** Overflow bits, once set, stay set. */
  lemma {:induction false} OverflowBitsStick(s: Loop, turns: seq<Turn>)
    requires Inv(s)
    ensures var f, g := Read(s.health), Read(Run(s, turns).health);
            && (f.rxOverflow ==> g.rxOverflow) && (f.txOverflow ==> g.txOverflow) && (f.uartOverflow ==> g.uartOverflow)
    decreases turns
  {
    hide Inv, Iterate, Read, BeforeTake, FlowDue, RangeDue;
    if turns != [] {
      IterateReports(s, turns[0]);
      OverflowBitsStick(Iterate(s, turns[0]), turns[1..]);
    }
  }

  /**
   * After every iteration of every run from power-on, whatever the environment does: a flagged PMW3901 fault means
   * the device is not initialised; the range sensor's two bits are set exactly while it is not running; the bus-off
   * bit is the flag as sampled; the overflow bits account for exactly the refusals; and the reported severity follows.
   */
  lemma ReachableHealth(t: int, us: int, turns: seq<Turn>, i: Turn)
    ensures Inv(Initial(t, us))
    ensures var s := Run(Initial(t, us), turns);
            && Inv(s) && Reports(s, i, Iterate(s, i))
            && Run(Initial(t, us), turns + [i]) == Iterate(s, i)
            && var u := Iterate(s, i);
               && (NodeHealth(u.health) == Critical <==> i.busOff)
               && (NodeHealth(u.health) == Ok ==> u.tof.tof.state == TofModel.Running)
  {
    hide Inv, Iterate, Reports, Run, Initial;
    InitialInv(t, us);
    RunKeepsInv(Initial(t, us), turns);
    RunSnoc(Initial(t, us), turns, i);
    IterateReports(Run(Initial(t, us), turns), i);
    SeverityAfter(Run(Initial(t, us), turns), i);
  }

  /**
   * While the bus is off an iteration queues no sensor message: all it does to the transmit side is the poll. When
   * the poll sees bus-off too, nothing is sent and the queue is empty afterwards.
   */
  lemma BusOffIteration(s: Loop, i: Turn)
    requires Inv(s) && i.busOff
    ensures var u := Iterate(s, i);
            && u.can == CanTx.Take(CanTx.Poll(s.can, PollWith(i, FramesGot(s, i))))
            && (i.poll.busOff ==> u.can.queue == [] && u.can.sent == s.can.sent)
  {
    hide SensorStages, PublishStages, BusStage, CanTx.Inv, CanTx.Poll, PmwStages, TofTurn, Stamp, Noted, TofFlagged,
      MainIo.IoInv, MainIo.Polled, Effects, Runnable, Kept;
    KeptFacts(s);
    SensorStagesShape(s, i);
    var (a, flowDue, rangeDue) := SensorStages(s, i);
    NoSensorTransfers(a, i, flowDue, rangeDue);
    BusStageShape(PublishStages(a, i, flowDue, rangeDue), i);
    CanTx.BusOffDecides(s.can, PollWith(i, FramesGot(s, i)));
  }

  /** How many frames the poll of this iteration gets from the receive ring. */
  ghost function FramesGot(s: Loop, i: Turn): nat
    requires Inv(s)
  {
    var (a, flowDue, rangeDue) := SensorStages(s, i);
    MainIo.Polled(BusStage(PublishStages(a, i, flowDue, rangeDue), i).io, i.irqs.can).1
  }

  lemma NoSensorTransfers(s: Loop, i: Turn, flowDue: bool, rangeDue: bool)
    requires i.busOff && MainIo.IoInv(s.io)
    ensures PublishStages(s, i, flowDue, rangeDue).can == s.can
  {
    hide Noted, Taken, FlowReport, CanTx.PublishFlow, CanTx.PublishRange, PmwCounts.FlowStep, MainIo.IoInv, MainIo.Idle,
      MainIo.ListenAll, FlowSent, RangeSent;
  }

  /** The transmit side in every reachable state: see CanTx.FramesAccountedFor. Refusals do not outlive an iteration. */
  lemma ReachableTransmitter(t: int, us: int, turns: seq<Turn>)
    ensures Inv(Initial(t, us))
    ensures var c := Run(Initial(t, us), turns).can;
            && |c.queue| + c.rxBlocks <= CanTx.CAPACITY
            && multiset(c.made) == multiset(c.queue) + multiset(c.sent) + multiset(c.expired) + multiset(c.flushed)
            && CanTx.PerIdOrder(c.sent + c.queue)
            && c.refused == 0 && !c.overflow
  {
    hide Run, CanTx.PerIdOrder, CanTx.SortedById, Initial, MainIo.IoInv, PmwInv, FlowsInv, Wired, TofModel.Inv;
    InitialInv(t, us);
    RunKeepsInv(Initial(t, us), turns);
  }

  lemma CanRingKept(s: Loop)
    requires Inv(s)
    ensures CanRx.CanInv(s.io.can) && s.io.can.rx.delivered == CanRx.PoppedOf(s.io.can.past)
    ensures CanRx.Slots(s.io.can.past) + CanRx.Unread(s.io.can) == s.io.admitted
    ensures s.io.arrived == |s.io.can.past| + |CanRx.Unread(s.io.can)| + s.io.can.refusedEver
  {
    hide MainIo.UartInv, MainIo.RxInv, CanTx.Inv, PmwInv, FlowsInv, Wired, TofModel.Inv, TofModel.Classified, Read,
      CanRx.PoppedOf, CanRx.Unread, RxRing.Inv;
  }

  /**
   * The receive ring in every reachable state, with the flags taken in every iteration and the controller reinitialised
   * after bus-off: the frames popped, those thrown away by reinitialisations put back in their places, and the unread
   * ones are the frames admitted, in order of arrival; and every message that arrived was popped, thrown away, is
   * unread, or was refused.
   */
  lemma ReachableReceiver(t: int, us: int, turns: seq<Turn>)
    ensures Inv(Initial(t, us))
    ensures var io := Run(Initial(t, us), turns).io;
            && CanRx.CanInv(io.can) && io.can.rx.delivered == CanRx.PoppedOf(io.can.past)
            && CanRx.Slots(io.can.past) + CanRx.Unread(io.can) == io.admitted
            && io.arrived == |io.can.past| + |CanRx.Unread(io.can)| + io.can.refusedEver
  {
    hide Run, Inv, Initial, CanRx.CanInv, CanRx.PoppedOf, CanRx.Unread;
    InitialInv(t, us);
    RunKeepsInv(Initial(t, us), turns);
    CanRingKept(Run(Initial(t, us), turns));
  }

  // ---------------------------------------------------------------- counts

  /**
   * In every reachable state: the counts read from the sensor are the counts in the published samples, those pending,
   * those thrown away by resets, and what saturation took; and every sample marked invalid carries zero counts.
   */
  lemma ReachableCounts(t: int, us: int, turns: seq<Turn>)
    ensures Inv(Initial(t, us))
    ensures var s := Run(Initial(t, us), turns);
            && s.flow.x.read == SumX(s.flows) + s.flow.att.dev.accX + s.flow.x.discarded + s.flow.x.clamped
            && s.flow.y.read == SumY(s.flows) + s.flow.att.dev.accY + s.flow.y.discarded + s.flow.y.clamped
            && (!s.flow.att.dev.initialized ==> s.flow.att.dev.accX == 0 && s.flow.att.dev.accY == 0)
            && (forall k :: 0 <= k < |s.flows| && !s.flows[k].valid ==> s.flows[k].countX == 0 && s.flows[k].countY == 0)
  {
    hide Run, Initial, MainIo.IoInv, CanTx.Inv, Wired, TofModel.Inv;
    InitialInv(t, us);
    RunKeepsInv(Initial(t, us), turns);
  }

  const LIMIT := 65536

  /** No more motion reads between two clearings than the configured mounting allows. */
  ghost predicate ReadsBounded(s: Loop, turns: seq<Turn>)
    requires Inv(s)
    decreases turns
  {
    turns == [] ||
    (MotionStage(PmwOf(s), turns[0]).flow.taken <= LIMIT &&
     (IterateReports(s, turns[0]); ReadsBounded(Iterate(s, turns[0]), turns[1..])))
  }

  /** Within the limit, and nothing lost to saturation. */
  predicate Lossless(f: PmwCounts.Flow) {
    && PmwCounts.Conserved(f) && PmwCounts.Contained(PmwCounts.CONFIGURED, f)
    && f.taken <= LIMIT && f.x.clamped == 0 && f.y.clamped == 0
  }

  lemma StepLossless(f: PmwCounts.Flow, e: PmwCounts.Event)
    requires Lossless(f) && PmwCounts.FlowStep(PmwCounts.CONFIGURED, f, e).taken <= LIMIT
    ensures Lossless(PmwCounts.FlowStep(PmwCounts.CONFIGURED, f, e))
  {
    hide PmwCounts.FlowStep, PmwCounts.Conserved, PmwCounts.Contained;
    PmwCounts.StepConserves(PmwCounts.CONFIGURED, f, e);
    PmwCounts.StepWithinLimit(PmwCounts.CONFIGURED, f, e);
  }

  lemma MotionStageLossless(s: Pmw, i: Turn)
    requires Lossless(s.flow) && MotionStage(s, i).flow.taken <= LIMIT
    ensures Lossless(MotionStage(s, i).flow)
  {
    hide Lossless, Raise, Plus, Stamp, PmwCounts.FlowStep;
    if i.motionIrq && s.Device().initialized {
      match i.motion {
        case Some(m) => StepLossless(s.flow, PmwCounts.Moved(m));
        case None =>
          ClearingStep(s.flow, PmwCounts.Reset(i.us.motion));
          StepLossless(s.flow, PmwCounts.Reset(i.us.motion));
      }
    }
  }

  /** Every event but a motion read leaves the number of reads alone or clears it. */
  lemma ClearingStep(f: PmwCounts.Flow, e: PmwCounts.Event)
    requires !e.Moved?
    ensures PmwCounts.FlowStep(PmwCounts.CONFIGURED, f, e).taken <= f.taken
  {
    hide PmwModel.InitStep, Stamp, Plus;
  }

  lemma QuietStepLossless(f: PmwCounts.Flow, e: PmwCounts.Event)
    requires Lossless(f) && !e.Moved?
    ensures Lossless(PmwCounts.FlowStep(PmwCounts.CONFIGURED, f, e))
  {
    ClearingStep(f, e);
    assert f.taken <= LIMIT;
    hide Lossless, PmwCounts.FlowStep;
    StepLossless(f, e);
  }

  lemma LaterStagesLossless(s: Pmw, i: Turn)
    requires Lossless(s.flow)
    ensures Lossless(RetryStage(s, i).flow) && Lossless(InitStage(s, i).flow) && Lossless(CheckStage(s, i).flow)
  {
    QuietStepLossless(s.flow, PmwCounts.Begin(i.us.begin));
    QuietStepLossless(s.flow, PmwCounts.Initialise(i.us.step, i.spi));
    QuietStepLossless(s.flow, PmwCounts.Reset(i.us.check));
    AbandonedLossless(s.Flowed(PmwCounts.Initialise(i.us.step, i.spi)).flow);
    hide Lossless, PmwCounts.FlowStep, PmwModel.InitStep, Raise, Lower, Plus, Stamp, Reached, Abandoned;
  }

  lemma AbandonedLossless(f: PmwCounts.Flow)
    requires Lossless(f)
    ensures Lossless(Abandoned(f))
  {}

  lemma IterateLossless(s: Loop, i: Turn)
    requires Inv(s) && Lossless(s.flow) && MotionStage(PmwOf(s), i).flow.taken <= LIMIT
    ensures Lossless(Iterate(s, i).flow)
  {
    IterateShape(s, i);
    hide Lossless, Inv, Iterate, MotionStage, RetryStage, InitStage, CheckStage, FlowDue, RangeDue, PmwCounts.FlowStep,
      TofTurn, Scheduler.Poll, CanRecovery.Step;
    var p := PmwOf(s);
    MotionStageLossless(p, i);
    var a := MotionStage(p, i);
    LaterStagesLossless(a, i);
    var b := RetryStage(a, i);
    LaterStagesLossless(b, i);
    LaterStagesLossless(InitStage(b, i), i);
    QuietStepLossless(PmwStages(p, i).flow, PmwCounts.Report(i.us.publish));
  }

  lemma {:induction false} RunLossless(s: Loop, turns: seq<Turn>)
    requires Inv(s) && Lossless(s.flow) && ReadsBounded(s, turns)
    ensures Lossless(Run(s, turns).flow)
    decreases turns
  {
    hide Inv, Lossless, Iterate, MotionStage, Reports;
    if turns != [] {
      IterateReports(s, turns[0]);
      IterateLossless(s, turns[0]);
      RunLossless(Iterate(s, turns[0]), turns[1..]);
    }
  }

  /** With at most 65536 motion reads between clearings the balance is exact: saturation takes nothing. */
  lemma CountsExact(t: int, us: int, turns: seq<Turn>)
    requires Inv(Initial(t, us)) && ReadsBounded(Initial(t, us), turns)
    ensures var s := Run(Initial(t, us), turns);
            && s.flow.x.read == SumX(s.flows) + s.flow.att.dev.accX + s.flow.x.discarded
            && s.flow.y.read == SumY(s.flows) + s.flow.att.dev.accY + s.flow.y.discarded
  {
    hide Run, ReadsBounded, Inv;
    RunLossless(Initial(t, us), turns);
    ReachableCounts(t, us, turns);
  }

  // ---------------------------------------------------------------- publication rates

  function Times(turns: seq<Turn>): (r: seq<int>)
    ensures |r| == |turns|
    ensures turns != [] ==> r[|r| - 1] == turns[|turns| - 1].t
  {
    if turns == [] then [] else [turns[0].t] + Times(turns[1..])
  }

  lemma {:induction false} PublicationsCounted(s: Loop, turns: seq<Turn>)
    requires Inv(s)
    ensures s.flowTask.period > 0 && s.rangeTask.period > 0
    ensures |Run(s, turns).flows| == |s.flows| + Scheduler.Count(Scheduler.Firings(s.flowTask, Times(turns)))
    ensures |Run(s, turns).ranges| == |s.ranges| + Scheduler.Count(Scheduler.Firings(s.rangeTask, Times(turns)))
    decreases turns
  {
    hide Inv, Iterate, Reports, TofTurn, CanRecovery.Step, PmwStages, PmwCounts.Publish, PmwCounts.FlowStep, Kept,
      TofModel.Inv, MainIo.IoInv;
    PeriodsKept(s);
    if turns != [] {
      var i := turns[0];
      IterateReports(s, i);
      IterateShape(s, i);
      PublicationsCounted(Iterate(s, i), turns[1..]);
      assert Times(turns) == [i.t] + Times(turns[1..]);
      FirstFiring(s.flowTask, i.t, Times(turns[1..]));
      FirstFiring(s.rangeTask, i.t, Times(turns[1..]));
    }
  }

  lemma PeriodsKept(s: Loop)
    requires Inv(s)
    ensures s.flowTask.period == FLOW_PERIOD_MS && s.rangeTask.period == RANGE_PERIOD_MS
  {
    hide MainIo.IoInv, CanTx.Inv, PmwInv, FlowsInv, Wired, TofModel.Inv, Read, TofModel.Classified;
  }

  lemma FirstFiring(task: Scheduler.Task, t: int, rest: seq<int>)
    requires task.period > 0
    ensures var (next, fired) := Scheduler.Poll(task, Stamp(t));
            && next.period == task.period
            && Scheduler.Count(Scheduler.Firings(task, [t] + rest))
               == (if fired then 1 else 0) + Scheduler.Count(Scheduler.Firings(next, rest))
  {
    hide Scheduler.CatchUp, Stamp, Reached;
    var (next, fired) := Scheduler.Poll(task, Stamp(t));
    assert ([t] + rest)[1..] == rest;
    var later := Scheduler.Firings(next, rest);
    assert ([fired] + later)[1..] == later;
  }

  /**
   * Flow samples are published at most once every 20 ms on average and range samples every 25 ms, and exactly so
   * when no iteration skips a whole period.
   */
  lemma PublicationRates(t: int, us: int, turns: seq<Turn>)
    requires turns != [] && Scheduler.Polled(t, Times(turns))
    ensures Inv(Initial(t, us))
    ensures var s := Run(Initial(t, us), turns);
            var elapsed := turns[|turns| - 1].t - t;
            && elapsed >= 0
            && |s.flows| <= elapsed / 20 && |s.ranges| <= elapsed / 25
            && (|s.flows| == elapsed / 20 <==> Scheduler.NoCellSkipped(t, 20, t, Times(turns)))
            && (|s.ranges| == elapsed / 25 <==> Scheduler.NoCellSkipped(t, 25, t, Times(turns)))
  {
    hide Run, Inv, Scheduler.NoCellSkipped, Scheduler.Polled, Scheduler.Count, Scheduler.Firings, Times;
    InitialInv(t, us);
    PublicationsCounted(Initial(t, us), turns);
    Scheduler.FiringRate(t, FLOW_PERIOD_MS, Times(turns));
    Scheduler.FiringRate(t, RANGE_PERIOD_MS, Times(turns));
  }

  // ---------------------------------------------------------------- freshness of published ranges

  /** Iterations in order of true time, none more than 2^31 ms after the one before it. */
  predicate Spaced(last: int, turns: seq<Turn>)
    decreases turns
  {
    turns == [] || (last <= turns[0].t <= last + HALF && Spaced(turns[0].t, turns[1..]))
  }

  /** A range sample that was published as usable was read less than 100 ms before. */
  predicate Fresh(n: RangeNote) {
    TofModel.Usable(n.sample) ==> n.readAt <= n.at < n.readAt + TofModel.SAMPLE_TIMEOUT_MS
  }

  predicate AllFresh(notes: seq<RangeNote>) {
    forall k :: 0 <= k < |notes| ==> Fresh(notes[k])
  }

  lemma TofTurnTimed(s: TofModel.Sys, last: int, i: Turn)
    requires TofModel.Inv(s) && TofModel.Timed(s, last) && last <= i.t <= last + HALF
    ensures TofModel.Inv(TofTurn(s, i).0) && TofModel.Timed(TofTurn(s, i).0, i.t)
    ensures Fresh(RangeNote(TofTurn(s, i).0.sample, i.t, TofTurn(s, i).0.readAt))
  {
    hide TofModel.TofStep;
    TofTurnKeeps(s, i);
    TofModel.StepKeepsTimed(if i.tofIrq then TofModel.Notify(s) else s, last, i.t, i.bus);
  }

  lemma RangesFromShape(s: Loop, i: Turn)
    requires Inv(s)
    ensures var u := Iterate(s, i);
            && u.tof == TofTurn(s.tof, i).0
            && (u.ranges == s.ranges || u.ranges == s.ranges + [RangeNote(u.tof.sample, i.t, u.tof.readAt)])
  {
    IterateShape(s, i);
    hide Inv, Iterate, TofTurn, CanRecovery.Step, PmwStages, Scheduler.Poll, FlowDue, RangeDue, PmwCounts.FlowStep;
  }

  lemma TofKept(s: Loop)
    requires Inv(s)
    ensures TofModel.Inv(s.tof)
  {
    hide MainIo.IoInv, CanTx.Inv, PmwInv, FlowsInv, Wired, TofModel.Inv, Read, TofModel.Classified;
  }

  lemma RangesNext(s: Loop, last: int, i: Turn)
    requires Inv(s) && TofModel.Timed(s.tof, last) && AllFresh(s.ranges) && last <= i.t <= last + HALF
    ensures TofModel.Timed(Iterate(s, i).tof, i.t) && AllFresh(Iterate(s, i).ranges)
  {
    hide Inv, Iterate, TofTurn, Fresh, TofModel.Inv, TofModel.Timed;
    TofKept(s);
    RangesFromShape(s, i);
    TofTurnTimed(s.tof, last, i);
  }

  lemma {:induction false} RangesStayFresh(s: Loop, last: int, turns: seq<Turn>)
    requires Inv(s) && TofModel.Timed(s.tof, last) && AllFresh(s.ranges) && Spaced(last, turns)
    ensures AllFresh(Run(s, turns).ranges)
    decreases turns
  {
    hide Inv, Iterate, Reports, AllFresh, TofModel.Timed;
    if turns != [] {
      IterateReports(s, turns[0]);
      RangesNext(s, last, turns[0]);
      RangesStayFresh(Iterate(s, turns[0]), turns[0].t, turns[1..]);
    }
  }

  /**
   * Over every run from power-on: each range sample ever published, over either protocol, that claims a valid, too
   * close or too far distance was read from the sensor less than 100 ms of true time before it was published, and
   * the two protocols report it consistently.
   */
  lemma PublishedRangesFresh(t: int, us: int, turns: seq<Turn>)
    requires Spaced(t, turns)
    ensures Inv(Initial(t, us))
    ensures forall k :: 0 <= k < |Run(Initial(t, us), turns).ranges| ==>
              var n := Run(Initial(t, us), turns).ranges[k];
              && RangeReport.Agree(n.sample)
              && (TofModel.Usable(n.sample) ==> n.readAt <= n.at < n.readAt + TofModel.SAMPLE_TIMEOUT_MS)
  {
    InitialInv(t, us);
    TofModel.InitialInv(t);
    RangesStayFresh(Initial(t, us), t, turns);
    RunKeepsInv(Initial(t, us), turns);
    var notes := Run(Initial(t, us), turns).ranges;
    assert forall k :: 0 <= k < |notes| ==> TofModel.Classified(notes[k].sample);
    hide Run, Inv, RangeReport.Agree, TofModel.Classified;
    forall k | 0 <= k < |notes| ensures RangeReport.Agree(notes[k].sample) && Fresh(notes[k]) {
      RangeReport.ClassifiedAgrees(notes[k].sample);
    }
  }

  // ---------------------------------------------------------------- bus-off recovery

  function History(turns: seq<Turn>): (h: seq<CanRecovery.Poll>)
    ensures |h| == |turns|
    ensures forall k :: 0 <= k < |h| ==> h[k] == CanRecovery.Poll(turns[k].busOff, turns[k].t)
  {
    seq(|turns|, k requires 0 <= k < |turns| => CanRecovery.Poll(turns[k].busOff, turns[k].t))
  }

  lemma RecoveryNext(s: Loop, i: Turn)
    requires Inv(s)
    ensures var (recovery, reinit) := CanRecovery.Step(s.recovery, i.busOff, Stamp(i.t), CAN_RECOVERY_MS);
            && Iterate(s, i).recovery == recovery
            && Iterate(s, i).reinits == if reinit then s.reinits + [i.t] else s.reinits
  {
    IterateShape(s, i);
    hide Inv, Iterate, TofTurn, CanRecovery.Step, PmwStages, Scheduler.Poll, FlowDue, RangeDue, PmwCounts.FlowStep;
  }

  lemma {:induction false} RecoveryFollows(t: int, us: int, turns: seq<Turn>, n: nat)
    requires n <= |turns| && Inv(Initial(t, us))
    ensures Run(Initial(t, us), turns[..n]).recovery == CanRecovery.StateBefore(History(turns), CAN_RECOVERY_MS, n)
  {
    hide Inv, Iterate, CanRecovery.Step;
    if n > 0 {
      RecoveryFollows(t, us, turns, n - 1);
      RunSnoc(Initial(t, us), turns[..n - 1], turns[n - 1]);
      assert turns[..n - 1] + [turns[n - 1]] == turns[..n];
      hide Run;
      RecoveryNext(Run(Initial(t, us), turns[..n - 1]), turns[n - 1]);
    }
  }

  /**
   * In iteration n of any run the controller is reinitialised exactly when the bus was off in the iteration before
   * and still is, and a second has passed since it went off or was last reinitialised.
   */
  lemma ReinitialisedExactly(t: int, us: int, turns: seq<Turn>, n: nat)
    requires n < |turns| && CanRecovery.Timely(History(turns))
    ensures Inv(Initial(t, us)) && Inv(Run(Initial(t, us), turns[..n]))
    ensures var s := Run(Initial(t, us), turns[..n]);
            Iterate(s, turns[n]).reinits ==
              if CanRecovery.ReinitDue(History(turns), CAN_RECOVERY_MS, n) then s.reinits + [turns[n].t] else s.reinits
  {
    InitialInv(t, us);
    hide Run, Inv, Iterate, CanRecovery.StateBefore, CanRecovery.ReinitDue, CanRecovery.Timely, CanRecovery.Step;
    RecoveryFollows(t, us, turns, n);
    RunSnoc(Initial(t, us), turns[..n], turns[n]);
    CanRecovery.ReinitExactly(History(turns), CAN_RECOVERY_MS, n);
    RecoveryNext(Run(Initial(t, us), turns[..n]), turns[n]);
  }

  // ---------------------------------------------------------------- the flow sensor's bring-up

  /** The microsecond counter is read in order of true time. */
  predicate InOrder(last: int, us: Micros) {
    last <= us.motion <= us.begin <= us.step <= us.check <= us.publish
  }

  predicate Clocked(last: int, turns: seq<Turn>)
    decreases turns
  {
    turns == [] || (InOrder(last, turns[0].us) && Clocked(turns[0].us.publish, turns[1..]))
  }

  lemma ResetOnScript(us: int)
    ensures PmwModel.OnScript(PmwModel.Attempt(PmwModel.ResetDevice(Stamp(us)), []), us)
  {}

  lemma AbandonedOnScript(f: PmwCounts.Flow, now: int)
    requires PmwModel.OnScript(f.att, now) && !f.att.dev.initialized
    ensures PmwModel.OnScript(Abandoned(f).att, now)
  {}

  lemma MotionStageOnScript(s: Pmw, i: Turn, now: int)
    requires PmwModel.OnScript(s.flow.att, now) && now <= i.us.motion
    ensures PmwModel.OnScript(MotionStage(s, i).flow.att, i.us.motion)
  {
    PmwModel.LaterOnScript(s.flow.att, now, i.us.motion);
    ResetOnScript(i.us.motion);
    if i.motion.Some? {
      var d := PmwCounts.Accumulate(PmwCounts.CONFIGURED, s.Device(), i.motion.value);
      PmwModel.SameOnScript(s.flow.att, s.flow.att.(dev := d), i.us.motion);
    }
    hide PmwModel.OnScript, PmwCounts.Transform, Stamp, Raise, Plus;
  }

  lemma RetryStageOnScript(s: Pmw, i: Turn, now: int)
    requires PmwModel.OnScript(s.flow.att, now) && now <= i.us.begin
    ensures PmwModel.OnScript(RetryStage(s, i).flow.att, i.us.begin)
  {
    PmwModel.LaterOnScript(s.flow.att, now, i.us.begin);
    PmwModel.StartOnScript(s.flow.att, i.us.begin);
    hide PmwModel.OnScript, PmwModel.StartInit, Stamp, Reached, Plus;
  }

  lemma InitStageOnScript(s: Pmw, i: Turn, now: int)
    requires PmwModel.OnScript(s.flow.att, now) && now <= i.us.step
    requires s.Device().initState != PmwModel.Failed
    ensures PmwModel.OnScript(InitStage(s, i).flow.att, i.us.step)
  {
    assert s.Device().initialized <==> s.Device().initState == PmwModel.Done;
    PmwModel.LaterOnScript(s.flow.att, now, i.us.step);
    PmwModel.InitStepOnScript(s.flow.att, now, i.us.step, i.spi);
    if !s.Device().initialized && s.Device().initState != PmwModel.Idle {
      InitStepReturns(s.flow.att, i.us.step, i.spi);
      var u := s.Flowed(PmwCounts.Initialise(i.us.step, i.spi)).flow;
      if !u.att.dev.initialized {
        AbandonedOnScript(u, i.us.step);
      }
    }
    hide PmwModel.OnScript, PmwModel.InitStep, Stamp, Plus, Raise, Lower, Abandoned;
  }

  lemma CheckStageOnScript(s: Pmw, i: Turn, now: int)
    requires PmwModel.OnScript(s.flow.att, now) && now <= i.us.check
    ensures PmwModel.OnScript(CheckStage(s, i).flow.att, i.us.check)
  {
    PmwModel.LaterOnScript(s.flow.att, now, i.us.check);
    ResetOnScript(i.us.check);
    hide PmwModel.OnScript, Stamp, Reached, Plus, Raise;
  }

  lemma PmwStagesOnScript(s: Pmw, i: Turn, now: int)
    requires PmwInv(s) && PmwModel.OnScript(s.flow.att, now) && InOrder(now, i.us)
    ensures PmwModel.OnScript(PmwStages(s, i).flow.att, i.us.check)
  {
    MotionStageKeeps(s, i);
    var a := MotionStage(s, i);
    MotionStageOnScript(s, i, now);
    RetryStageKeeps(a, i);
    var b := RetryStage(a, i);
    RetryStageOnScript(a, i, i.us.motion);
    assert b.Device().initState != PmwModel.Failed;
    hide PmwModel.OnScript, PmwInv, MotionStage, RetryStage, InitStage, CheckStage;
    InitStageOnScript(b, i, i.us.begin);
    CheckStageOnScript(InitStage(b, i), i, i.us.step);
  }

  lemma ReportOnScript(f: PmwCounts.Flow, now: int, us: int)
    requires PmwModel.OnScript(f.att, now) && now <= us
    ensures PmwModel.OnScript(PmwCounts.FlowStep(PmwCounts.CONFIGURED, f, PmwCounts.Report(us)).att, us)
  {
    PmwModel.LaterOnScript(f.att, now, us);
    PmwModel.SameOnScript(f.att, f.att.(dev := PmwCounts.Publish(f.att.dev, Stamp(us)).0), us);
    hide PmwModel.OnScript, Stamp;
  }

  lemma IterateOnScript(s: Loop, i: Turn, now: int)
    requires Inv(s) && PmwModel.OnScript(s.flow.att, now) && InOrder(now, i.us)
    ensures PmwModel.OnScript(Iterate(s, i).flow.att, i.us.publish)
  {
    IterateShape(s, i);
    PmwStagesOnScript(PmwOf(s), i, now);
    hide Inv, Iterate, PmwStages, PmwModel.OnScript, TofTurn, Scheduler.Poll, CanRecovery.Step, PmwCounts.FlowStep,
      PmwCounts.Publish, FlowDue, RangeDue;
    var f := PmwStages(PmwOf(s), i).flow;
    ReportOnScript(f, i.us.check, i.us.publish);
    PmwModel.LaterOnScript(f.att, i.us.check, i.us.publish);
  }

  lemma InitialOnScript(t: int, us: int)
    ensures PmwModel.OnScript(Initial(t, us).flow.att, us)
  {
    hide PmwModel.OnScript, PmwModel.StartInit, Stamp;
    PmwModel.StartOnScript(PmwModel.Attempt(PmwModel.ResetDevice(Stamp(us)), []), us);
  }

  function LastClock(last: int, turns: seq<Turn>): int {
    if turns == [] then last else turns[|turns| - 1].us.publish
  }

  lemma {:induction false} RunOnScript(s: Loop, last: int, turns: seq<Turn>)
    requires Inv(s) && PmwModel.OnScript(s.flow.att, last) && Clocked(last, turns)
    ensures PmwModel.OnScript(Run(s, turns).flow.att, LastClock(last, turns))
    decreases turns
  {
    hide Inv, Iterate, Reports, PmwModel.OnScript;
    if turns != [] {
      IterateReports(s, turns[0]);
      IterateOnScript(s, turns[0], last);
      RunOnScript(Iterate(s, turns[0]), turns[0].us.publish, turns[1..]);
    }
  }

  /**
   * In every reachable state with an initialised flow sensor, the whole bring-up script has been carried out since
   * its reset: all 83 actions, in order, with every pause kept.
   */
  lemma InitialisedMeansBroughtUp(t: int, us: int, turns: seq<Turn>)
    requires Clocked(us, turns)
    ensures Inv(Initial(t, us))
    ensures var a := Run(Initial(t, us), turns).flow.att;
            a.dev.initialized ==>
              && |a.log| == PmwModel.PREAMBLE + PmwModel.SEQUENCE_COUNT
              && (forall k :: 0 <= k < |a.log| ==> a.log[k].action == PmwModel.Script(k))
              && (forall k :: 0 < k < |a.log| ==> a.log[k].time >= a.log[k - 1].time + PmwModel.Pause(k))
  {
    hide Run, Inv, PmwModel.OnScript, Initial, PmwModel.Script, PmwModel.Pause;
    InitialInv(t, us);
    InitialOnScript(t, us);
    RunOnScript(Initial(t, us), us, turns);
    var a := Run(Initial(t, us), turns).flow.att;
    if a.dev.initialized {
      PmwModel.InitialisedMeansScriptDone(a, LastClock(us, turns));
    }
  }
}
