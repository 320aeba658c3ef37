// The variables of main in app/main.c and the objects they stand for, updated in place, one method a statement of the
// loop. Every method is proved to do what MainModel says; a Turn supplies what the platform returns. The rings that main
// shares with interrupt handlers are objects of their own (MainPorts); the state they are in is passed along.
module MainDriver {
  import opened Common
  import opened WrapTime
  import opened Samples
  import opened Bytes
  import opened Health
  import opened MainModel
  import opened TofDriver
  import opened PmwDriver
  import opened CanTxDriver
  import Scheduler
  import CanRecovery
  import CanTx
  import TofModel
  import PmwModel
  import PmwCounts
  import MainIo
  import Msp
  import MspSensors

  const FRAME_SIZE := 32

  /** pmw3901_reset_state and pmw3901_start_init on a new device. */
  method StartedPmw(us: int) returns (pmw: Pmw3901)
    ensures fresh(pmw) && pmw.View() == PmwModel.StartInit(PmwModel.Attempt(PmwModel.ResetDevice(Stamp(us)), []), us)
  {
    hide Stamp, Plus;
    pmw := new Pmw3901(Stamp(us));
    pmw.StartInit(Stamp(us), us);
  }

  /** tof_begin on a new device, and the sample main starts with. */
  method StartedTof(t: int) returns (tof: TofDriver.Device, range: RangeCell)
    ensures fresh(tof) && fresh(range) && tof.View(range) == TofModel.Initial(t)
  {
    hide Stamp, TofModel.Begin;
    tof := new TofDriver.Device(Stamp(t), t);
    range := new RangeCell();
  }

  method StartedTasks(t: int) returns (flowPub: Scheduler.PeriodicTask, rangePub: Scheduler.PeriodicTask)
    ensures fresh(flowPub) && fresh(rangePub) && flowPub != rangePub
    ensures flowPub.View() == Scheduler.NewTask(Stamp(t), FLOW_PERIOD_MS)
    ensures rangePub.View() == Scheduler.NewTask(Stamp(t), RANGE_PERIOD_MS)
  {
    hide Stamp, Scheduler.NewTask;
    flowPub := new Scheduler.PeriodicTask(Stamp(t), FLOW_PERIOD_MS);
    rangePub := new Scheduler.PeriodicTask(Stamp(t), RANGE_PERIOD_MS);
  }

  class MainLoop {
    const pmw: Pmw3901
    const tof: TofDriver.Device
    const range: RangeCell
    const flowPub: Scheduler.PeriodicTask
    const rangePub: Scheduler.PeriodicTask
    const canRecovery: CanRecovery.CanRecoveryState
    const can: Transmitter
    const frame: array<byte>
    var health: bv16
    var pmwRetry: u32
    var pmwHealthCheck: u32
    ghost const repr: set<object>
    ghost var x: PmwCounts.Ledger
    ghost var y: PmwCounts.Ledger
    ghost var taken: nat
    ghost var flows: seq<FlowSample>
    ghost var ranges: seq<RangeNote>
    ghost var messages: seq<Msp.Message>
    ghost var reinits: seq<int>

    ghost function FlowView(): PmwCounts.Flow
      reads this, pmw
    {
      PmwCounts.Flow(pmw.View(), x, y, taken)
    }

    ghost function PmwView(): Pmw
      reads this, pmw
    {
      Pmw(FlowView(), pmwRetry, pmwHealthCheck, health)
    }

    /** The objects main's variables stand for are its representation; the two tasks are distinct. */
    ghost predicate Owned() {
      repr == Objects() && flowPub != rangePub && frame.Length == FRAME_SIZE
    }

    ghost function View(io: MainIo.Io): Loop
      requires Owned()
      reads repr
    {
      Loop(FlowView(), pmwRetry, pmwHealthCheck, tof.View(range), health, flowPub.View(), rangePub.View(),
           canRecovery.View(), can.View(), io, flows, ranges, messages, reinits)
    }

    /** The rings play no other part in the view. */
    lemma WithPorts(a: MainIo.Io, b: MainIo.Io)
      requires Owned()
      ensures View(a) == View(b).(io := a) && View(a).io == a
    {}

    /** What the view shows of the sensor objects and the tasks. */
    lemma SampleShows(io: MainIo.Io)
      requires Owned()
      ensures View(io).tof == tof.View(range) && View(io).tof.sample == range.View()
    {}

    lemma PeriodsShow(io: MainIo.Io)
      requires Owned()
      ensures View(io).flowTask.period == flowPub.period && View(io).rangeTask.period == rangePub.period
      ensures View(io).can == can.View()
    {}

    ghost function Objects(): set<object> {
      {this, pmw, tof, range, flowPub, rangePub, canRecovery, can, frame}
    }

    /** Everything before the loop, at true time t in milliseconds and us in microseconds. */
    constructor (t: int, us: int)
      ensures Owned() && View(MainIo.Start()) == Initial(t, us) && can.Numbered() && fresh(repr)
    {
      hide MainIo.Start, Stamp, Plus, PmwModel.StartInit, PmwModel.ResetDevice, TofModel.Initial, TofModel.Inv,
        Scheduler.NewTask, CanTx.Inv;
      var newPmw := StartedPmw(us);
      var newTof, newRange := StartedTof(t);
      var newFlowPub, newRangePub := StartedTasks(t);
      pmw, tof, range, flowPub, rangePub := newPmw, newTof, newRange, newFlowPub, newRangePub;
      canRecovery := new CanRecovery.CanRecoveryState();
      can := new Transmitter();
      frame := new byte[FRAME_SIZE];
      health := 0;
      pmwRetry, pmwHealthCheck := Plus(Stamp(t), SENSOR_RETRY_MS), Plus(Stamp(t), PMW_HEALTH_CHECK_MS);
      x, y, taken := PmwCounts.Ledger(0, 0, 0, 0), PmwCounts.Ledger(0, 0, 0, 0), 0;
      flows, ranges, messages, reinits := [], [], [], [];
      repr := {this, pmw, tof, range, flowPub, rangePub, canRecovery, can, frame};
    }

    // ---------------------------------------------------------------- the optical flow sensor

    method Lose(i: Turn, us: int)
      modifies pmw, `health, `pmwRetry, `x, `y, `taken
      ensures PmwView() == LosePmw(old(PmwView()), i.t, us)
    {
      ghost var f := PmwCounts.FlowStep(PmwCounts.CONFIGURED, FlowView(), PmwCounts.Reset(us));
      health := Raise(health, PMW_FAULT);
      pmw.ResetState(Stamp(us));
      pmwRetry := Plus(Stamp(i.t), SENSOR_RETRY_MS);
      x, y, taken := f.x, f.y, f.taken;
    }

    method ReadMotion(i: Turn)
      modifies pmw, `health, `pmwRetry, `x, `y, `taken
      ensures PmwView() == MotionStage(old(PmwView()), i)
    {
      hide Raise, Stamp, Plus, LosePmw, PmwCounts.Transform;
      if i.motionIrq && pmw.initialized {
        if i.motion.Some? {
          ghost var f := PmwCounts.FlowStep(PmwCounts.CONFIGURED, FlowView(), PmwCounts.Moved(i.motion.value));
          pmw.Accumulate(PmwCounts.CONFIGURED, i.motion.value);
          x, y, taken := f.x, f.y, f.taken;
        } else {
          Lose(i, i.us.motion);
        }
      }
    }

    method Retry(i: Turn)
      modifies pmw, `pmwRetry, `x, `y, `taken
      ensures PmwView() == RetryStage(old(PmwView()), i)
    {
      hide Stamp, Plus, Reached;
      if !pmw.initialized && Reached(Stamp(i.t), pmwRetry) {
        ghost var f := PmwCounts.FlowStep(PmwCounts.CONFIGURED, FlowView(), PmwCounts.Begin(i.us.begin));
        pmw.StartInit(Stamp(i.us.begin), i.us.begin);
        pmwRetry := Plus(Stamp(i.t), SENSOR_RETRY_MS);
        x, y, taken := f.x, f.y, f.taken;
      }
    }

    method Initialise(i: Turn)
      modifies pmw, `health, `pmwRetry
      ensures PmwView() == InitStage(old(PmwView()), i)
    {
      hide Stamp, Plus, Raise, Lower, PmwModel.InitStep;
      if !pmw.initialized && pmw.initState != PmwModel.Idle {
        var result := pmw.InitStep(Stamp(i.us.step), i.spi, i.us.step);
        if result == PmwModel.Ready {
          health := Lower(health, PMW_FAULT);
        } else if result == PmwModel.Faulty {
          health := Raise(health, PMW_FAULT);
          pmw.Abandon();
          pmwRetry := Plus(Stamp(i.t), SENSOR_RETRY_MS);
        }
      }
    }

    method CheckAlive(i: Turn)
      modifies pmw, `health, `pmwRetry, `pmwHealthCheck, `x, `y, `taken
      ensures PmwView() == CheckStage(old(PmwView()), i)
    {
      hide Stamp, Plus, Reached, LosePmw;
      if pmw.initialized && Reached(Stamp(i.t), pmwHealthCheck) {
        pmwHealthCheck := Plus(Stamp(i.t), PMW_HEALTH_CHECK_MS);
        if !i.alive {
          Lose(i, i.us.check);
        }
      }
    }

    method StepPmw(i: Turn)
      modifies pmw, `health, `pmwRetry, `pmwHealthCheck, `x, `y, `taken
      ensures PmwView() == PmwStages(old(PmwView()), i)
    {
      hide MotionStage, RetryStage, InitStage, CheckStage;
      ReadMotion(i);
      Retry(i);
      Initialise(i);
      CheckAlive(i);
    }

    // ---------------------------------------------------------------- the range sensor

    method StepTof(i: Turn)
      requires TofModel.Inv(tof.View(range))
      modifies tof, range, `health
      ensures TofModel.Inv(tof.View(range))
      ensures (tof.View(range), health) ==
              (TofTurn(old(tof.View(range)), i).0, TofFlagged(old(health), TofTurn(old(tof.View(range)), i).1))
    {
      TofModel.NotifyKeeps(tof.View(range));
      hide Stamp, TofModel.TofStep, TofModel.Inv, Raise, Lower;
      if i.tofIrq {
        tof.IrqNotify(range);
      }
      var running, isNew := tof.TofStep(Stamp(i.t), i.bus, range, i.t);
      if running {
        health := Lower(health, TOF_FAULT | I2C_FAULT);
      } else {
        health := Raise(health, TOF_FAULT | I2C_FAULT);
      }
    }

    /** Both sensors. */
    method StepSensors(i: Turn, ghost io: MainIo.Io)
      requires Owned() && TofModel.Inv(tof.View(range))
      modifies pmw, tof, range, `health, `pmwRetry, `pmwHealthCheck, `x, `y, `taken
      ensures var p := PmwStages(PmwOf(old(View(io))), i);
              var (sys, running) := TofTurn(old(View(io)).tof, i);
              View(io) == WithPmw(old(View(io)), p).(tof := sys, health := TofFlagged(p.health, running))
    {
      hide PmwStages, TofTurn, TofFlagged, TofModel.Inv;
      StepPmw(i);
      StepTof(i);
    }

    // ---------------------------------------------------------------- publication

    method TakeReport(i: Turn, ghost io: MainIo.Io) returns (sample: FlowSample)
      requires Owned()
      modifies pmw, `x, `y, `taken, `flows
      ensures sample == FlowReport(old(View(io)), i)
      ensures var f := PmwCounts.FlowStep(PmwCounts.CONFIGURED, old(View(io)).flow, PmwCounts.Report(i.us.publish));
              View(io) == old(View(io)).(flow := f, flows := old(View(io)).flows + [sample])
    {
      hide Stamp;
      ghost var f := PmwCounts.FlowStep(PmwCounts.CONFIGURED, FlowView(), PmwCounts.Report(i.us.publish));
      sample := pmw.Publish(Stamp(i.us.publish));
      x, y, taken, flows := f.x, f.y, f.taken, flows + [sample];
    }

    method FillFlow(sample: FlowSample, ghost io: MainIo.Io) returns (n: nat)
      requires Owned()
      modifies frame
      ensures View(io) == old(View(io))
      ensures n == 18 && frame[..n] == Msp.Encode(MspSensors.FlowMessage(sample))
    {
      hide MspSensors.FlowMessage, Msp.Encode;
      n := MspSensors.EncodeFlow(sample, frame, FRAME_SIZE);
      ghost var e := Msp.Encode(MspSensors.FlowMessage(sample));
      assert frame[..][..18] == e;
    }

    method FillRange(ghost io: MainIo.Io) returns (n: nat)
      requires Owned()
      modifies frame
      ensures View(io) == old(View(io))
      ensures n == 14 && frame[..n] == Msp.Encode(MspSensors.RangeMessage(View(io).tof.sample))
    {
      hide MspSensors.RangeMessage, Msp.Encode;
      var sample := RangeSample(range.timestampUs, range.distanceMm, range.quality, range.status);
      n := MspSensors.EncodeRange(sample, frame, FRAME_SIZE);
      ghost var e := Msp.Encode(MspSensors.RangeMessage(sample));
      assert frame[..][..14] == e;
    }

    method NoteRange(i: Turn, ghost io: MainIo.Io)
      requires Owned()
      modifies `ranges
      ensures View(io) == old(View(io)).(ranges := old(View(io)).ranges
                                                 + [RangeNote(old(View(io)).tof.sample, i.t, old(View(io)).tof.readAt)])
    {
      ranges := ranges + [RangeNote(range.View(), i.t, tof.readAt)];
    }

    /** The result of platform_uart_tx on a frame of n bytes, noted in the health word. */
    method NoteUart(n: nat, accepted: bool, ghost m: Msp.Message, ghost io: MainIo.Io)
      requires Owned() && n > 0
      modifies `health, `messages
      ensures View(io) == old(View(io)).(health := Noted(old(View(io)).health, accepted, UART_TX_OVERFLOW),
                                         messages := Taken(old(View(io)).messages, m, accepted))
    {
      hide Raise;
      if n == 0 || !accepted {
        health := Raise(health, UART_TX_OVERFLOW);
      }
      messages := Taken(messages, m, accepted);
    }

    method OfferFlow(i: Turn, ghost io: MainIo.Io)
      requires Owned() && can.Valid()
      modifies can, `health
      ensures can.Valid()
      ensures View(io) == Offered(old(View(io)), i.busOff, CanTx.PublishFlow(old(View(io)).can, i.flowUs))
    {
      hide CanTx.Inv, CanTx.PublishFlow, Raise;
      if !i.busOff {
        var ok := can.PublishFlow(i.flowUs);
        if !ok {
          health := Raise(health, CAN_TX_OVERFLOW);
        }
      }
    }

    method OfferRange(i: Turn, ghost io: MainIo.Io)
      requires Owned() && can.Valid()
      modifies can, `health
      ensures can.Valid()
      ensures View(io) == Offered(old(View(io)), i.busOff, CanTx.PublishRange(old(View(io)).can, i.rangeUs))
    {
      hide CanTx.Inv, CanTx.PublishRange, Raise;
      if !i.busOff {
        var ok := can.PublishRange(i.rangeUs);
        if !ok {
          health := Raise(health, CAN_TX_OVERFLOW);
        }
      }
    }

    method FlowDue(i: Turn, ghost io: MainIo.Io) returns (due: bool)
      requires Owned() && flowPub.period > 0
      modifies flowPub`deadline
      ensures var (task, fired) := Scheduler.Poll(old(View(io)).flowTask, Stamp(i.t));
              View(io) == old(View(io)).(flowTask := task) && due == fired
    {
      hide Stamp, Scheduler.Poll;
      due := flowPub.Due(Stamp(i.t));
    }

    method RangeDue(i: Turn, ghost io: MainIo.Io) returns (due: bool)
      requires Owned() && rangePub.period > 0
      modifies rangePub`deadline
      ensures var (task, fired) := Scheduler.Poll(old(View(io)).rangeTask, Stamp(i.t));
              View(io) == old(View(io)).(rangeTask := task) && due == fired
    {
      hide Stamp, Scheduler.Poll;
      due := rangePub.Due(Stamp(i.t));
    }

    // ---------------------------------------------------------------- the CAN bus

    /** The two CAN bits of the health word, and recovery's decision. */
    method FlagBus(i: Turn, overflow: bool, ghost io: MainIo.Io) returns (reinit: bool)
      requires Owned()
      modifies canRecovery, `health, `reinits
      ensures var s := old(View(io));
              var h := Noted(s.health, !overflow, CAN_RX_OVERFLOW);
              var (recovery, r) := CanRecovery.Step(s.recovery, i.busOff, Stamp(i.t), CAN_RECOVERY_MS);
              && reinit == r
              && View(io) == s.(health := if i.busOff then Raise(h, CAN_BUS_OFF) else Lower(h, CAN_BUS_OFF),
                                recovery := recovery, reinits := if r then s.reinits + [i.t] else s.reinits)
    {
      hide Raise, Lower, Stamp, CanRecovery.Step;
      if overflow {
        health := Raise(health, CAN_RX_OVERFLOW);
      }
      if i.busOff {
        health := Raise(health, CAN_BUS_OFF);
      } else {
        health := Lower(health, CAN_BUS_OFF);
      }
      reinit := canRecovery.RecoveryStep(i.busOff, Stamp(i.t), CAN_RECOVERY_MS);
      if reinit {
        reinits := reinits + [i.t];
      }
    }

    /** dronecan_poll on the frames it has got, and the transmit overflow flag taken. */
    method PollCan(p: CanTx.PollInput, ghost io: MainIo.Io)
      requires Owned() && can.Valid()
      modifies can, `health
      ensures can.Valid()
      ensures var s := old(View(io)); View(io) == TakeStage(s.(can := CanTx.Poll(s.can, p)))
    {
      hide Raise, CanTx.Poll;
      can.Poll(p);
      var pending := can.TakeTxOverflow();
      if pending {
        health := Raise(health, CAN_TX_OVERFLOW);
      }
    }
  }
}
