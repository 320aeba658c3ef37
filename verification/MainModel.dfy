// The main loop of app/main.c: one iteration over both sensors, the periodic publications, bus-off recovery and the
// DroneCAN poll, with the health word they share and the rings they use. What the environment does in an iteration is
// a Turn: true time, interrupts and what they bring, and transfer outcomes.
module MainModel {
  import opened Common
  import opened WrapTime
  import opened Samples
  import opened Health
  import Scheduler
  import CanRecovery
  import CanRx
  import CanTx
  import TofModel
  import PmwModel
  import PmwCounts
  import MainIo
  import Msp
  import MspSensors
  import MspWire
  import UartTx

  const SENSOR_RETRY_MS := 1000
  const PMW_HEALTH_CHECK_MS := 1000
  const FLOW_PERIOD_MS := 20
  const RANGE_PERIOD_MS := 25
  const CAN_RECOVERY_MS := 1000

  /** A range sample as published: the true time of publication, and that of the reading it holds. */
  datatype RangeNote = RangeNote(sample: RangeSample, at: int, readAt: int)

  /**
   * The variables of main, with the histories of the samples published, the MSP messages the UART ring took, and the
   * times of reinitialisation.
   */
  datatype Loop = Loop(flow: PmwCounts.Flow, pmwRetry: u32, pmwCheck: u32,
                       tof: TofModel.Sys, health: bv16,
                       flowTask: Scheduler.Task, rangeTask: Scheduler.Task,
                       recovery: CanRecovery.Recovery, can: CanTx.Tx, io: MainIo.Io,
                       flows: seq<FlowSample>, ranges: seq<RangeNote>, messages: seq<Msp.Message>, reinits: seq<int>)

  /** The true microsecond times at which an iteration may read the microsecond counter, in order. */
  datatype Micros = Micros(motion: int, begin: int, step: int, check: int, publish: int)

  datatype Turn = Turn(t: int, us: Micros,
                       motionIrq: bool, motion: Option<PmwCounts.Motion>, spi: PmwModel.Spi, alive: bool,
                       tofIrq: bool, bus: TofModel.Bus, busOff: bool, flowUs: nat, rangeUs: nat,
                       poll: CanTx.PollInput, irqs: MainIo.Irqs)

  /** The part of the state the optical flow stages work on. */
  datatype Pmw = Pmw(flow: PmwCounts.Flow, retryAt: u32, checkAt: u32, health: bv16) {
    function Device(): PmwModel.Device {
      flow.att.dev
    }

    function Flowed(e: PmwCounts.Event): Pmw {
      this.(flow := PmwCounts.FlowStep(PmwCounts.CONFIGURED, flow, e))
    }
  }

  // ---------------------------------------------------------------- the optical flow sensor

  /** A failed transfer: flag the fault, forget the device, try again in a second. */
  function LosePmw(s: Pmw, t: int, us: int): Pmw {
    s.Flowed(PmwCounts.Reset(us)).(health := Raise(s.health, PMW_FAULT), retryAt := Plus(Stamp(t), SENSOR_RETRY_MS))
  }

  function MotionStage(s: Pmw, i: Turn): Pmw {
    if !i.motionIrq || !s.Device().initialized then s
    else match i.motion
      case Some(m) => s.Flowed(PmwCounts.Moved(m))
      case None => LosePmw(s, i.t, i.us.motion)
  }

  function RetryStage(s: Pmw, i: Turn): Pmw {
    if !s.Device().initialized && Reached(Stamp(i.t), s.retryAt) then
      s.Flowed(PmwCounts.Begin(i.us.begin)).(retryAt := Plus(Stamp(i.t), SENSOR_RETRY_MS))
    else s
  }

  /** init_state set back to idle after a fault. */
  function Abandoned(f: PmwCounts.Flow): PmwCounts.Flow {
    f.(att := f.att.(dev := f.att.dev.(initState := PmwModel.Idle)))
  }

  function InitStage(s: Pmw, i: Turn): Pmw {
    if s.Device().initialized || s.Device().initState == PmwModel.Idle then s
    else
      var u := s.Flowed(PmwCounts.Initialise(i.us.step, i.spi));
      match PmwModel.InitStep(s.flow.att, i.us.step, i.spi).1
      case Busy => u
      case Ready => u.(health := Lower(u.health, PMW_FAULT))
      case Faulty => u.(flow := Abandoned(u.flow), health := Raise(u.health, PMW_FAULT),
                        retryAt := Plus(Stamp(i.t), SENSOR_RETRY_MS))
  }

  function CheckStage(s: Pmw, i: Turn): Pmw {
    if !s.Device().initialized || !Reached(Stamp(i.t), s.checkAt) then s
    else
      var u := s.(checkAt := Plus(Stamp(i.t), PMW_HEALTH_CHECK_MS));
      if i.alive then u else LosePmw(u, i.t, i.us.check)
  }

  function PmwStages(s: Pmw, i: Turn): Pmw {
    CheckStage(InitStage(RetryStage(MotionStage(s, i), i), i), i)
  }

  function PmwOf(s: Loop): Pmw {
    Pmw(s.flow, s.pmwRetry, s.pmwCheck, s.health)
  }

  function WithPmw(s: Loop, p: Pmw): Loop {
    s.(flow := p.flow, pmwRetry := p.retryAt, pmwCheck := p.checkAt, health := p.health)
  }

  // ---------------------------------------------------------------- the range sensor

  /** The range sensor's interrupt and step: its new state and whether it runs. */
  function TofTurn(s: TofModel.Sys, i: Turn): (TofModel.Sys, bool)
    requires TofModel.Inv(s)
  {
    var n := if i.tofIrq then TofModel.Notify(s) else s;
    TofModel.IndexFromInv(n);
    var (u, isNew, running) := TofModel.TofStep(n, i.t, i.bus);
    (u, running)
  }

  function TofFlagged(h: bv16, running: bool): bv16 {
    if running then Lower(h, TOF_FAULT | I2C_FAULT) else Raise(h, TOF_FAULT | I2C_FAULT)
  }

  // ---------------------------------------------------------------- publication

  /** The health word after a frame was offered to the UART ring or a transfer to libcanard. */
  function Noted(h: bv16, taken: bool, bit: bv16): bv16 {
    if taken then h else Raise(h, bit)
  }

  /** The transfer offered to libcanard, unless the bus is off. */
  function Offered(s: Loop, busOff: bool, result: (CanTx.Tx, bool)): Loop {
    if busOff then s else s.(can := result.0, health := Noted(s.health, result.1, CAN_TX_OVERFLOW))
  }

  /** The messages the UART ring has taken, once this one has been offered. */
  function Taken(messages: seq<Msp.Message>, m: Msp.Message, taken: bool): seq<Msp.Message> {
    if taken then messages + [m] else messages
  }

  function FlowReport(s: Loop, i: Turn): FlowSample {
    PmwCounts.Publish(s.flow.att.dev, Stamp(i.us.publish)).1
  }

  /** The flow frame offered to the UART ring, with the interrupts before and in the call. */
  function FlowSent(s: Loop, i: Turn): (r: (MainIo.Io, bool))
    requires MainIo.IoInv(s.io)
    ensures MainIo.IoInv(r.0)
  {
    MainIo.Send(MainIo.Idle(s.io, i.irqs.beforeFlow), MspSensors.FlowMessage(FlowReport(s, i)), i.irqs.flowCall)
  }

  /** The counts published, and their frame offered to the UART ring. */
  function FlowOut(s: Loop, i: Turn): (r: Loop)
    requires MainIo.IoInv(s.io)
    ensures MainIo.IoInv(r.io)
  {
    var (io, taken) := FlowSent(s, i);
    s.(flow := PmwCounts.FlowStep(PmwCounts.CONFIGURED, s.flow, PmwCounts.Report(i.us.publish)),
       flows := s.flows + [FlowReport(s, i)],
       messages := Taken(s.messages, MspSensors.FlowMessage(FlowReport(s, i)), taken),
       io := io, health := Noted(s.health, taken, UART_TX_OVERFLOW))
  }

  /** The flow publication, when its task is due. */
  function FlowStage(s: Loop, i: Turn, due: bool): (r: Loop)
    requires MainIo.IoInv(s.io)
    ensures MainIo.IoInv(r.io)
  {
    if due then Offered(FlowOut(s, i), i.busOff, CanTx.PublishFlow(s.can, i.flowUs))
    else s.(io := MainIo.Idle(s.io, i.irqs.beforeFlow))
  }

  function RangeSent(s: Loop, i: Turn): (r: (MainIo.Io, bool))
    requires MainIo.IoInv(s.io)
    ensures MainIo.IoInv(r.0)
  {
    MainIo.Send(MainIo.Idle(s.io, i.irqs.beforeRange), MspSensors.RangeMessage(s.tof.sample), i.irqs.rangeCall)
  }

  function RangeOut(s: Loop, i: Turn): (r: Loop)
    requires MainIo.IoInv(s.io)
    ensures MainIo.IoInv(r.io)
  {
    var (io, taken) := RangeSent(s, i);
    s.(ranges := s.ranges + [RangeNote(s.tof.sample, i.t, s.tof.readAt)],
       messages := Taken(s.messages, MspSensors.RangeMessage(s.tof.sample), taken),
       io := io, health := Noted(s.health, taken, UART_TX_OVERFLOW))
  }

  /** The range publication, when its task is due. */
  function RangeStage(s: Loop, i: Turn, due: bool): (r: Loop)
    requires MainIo.IoInv(s.io)
    ensures MainIo.IoInv(r.io)
  {
    if due then Offered(RangeOut(s, i), i.busOff, CanTx.PublishRange(s.can, i.rangeUs))
    else s.(io := MainIo.Idle(s.io, i.irqs.beforeRange))
  }

  /** Received bytes to the parser. */
  function ListenStage(s: Loop, i: Turn): (r: Loop)
    requires MainIo.IoInv(s.io)
    ensures MainIo.IoInv(r.io)
  {
    s.(io := MainIo.ListenAll(MainIo.Idle(s.io, i.irqs.atEnd), i.irqs.bytes, 0, MainIo.UART_RX_BUDGET))
  }

  // ---------------------------------------------------------------- the CAN bus

  function BusStage(s: Loop, i: Turn): (r: Loop)
    requires MainIo.IoInv(s.io)
    ensures MainIo.IoInv(r.io)
  {
    var (io, overflow) := MainIo.Flags(s.io, i.irqs.can);
    var h := Noted(s.health, !overflow, CAN_RX_OVERFLOW);
    var (recovery, reinit) := CanRecovery.Step(s.recovery, i.busOff, Stamp(i.t), CAN_RECOVERY_MS);
    s.(health := if i.busOff then Raise(h, CAN_BUS_OFF) else Lower(h, CAN_BUS_OFF),
       recovery := recovery, io := MainIo.Recovered(io, i.irqs.can, reinit),
       reinits := if reinit then s.reinits + [i.t] else s.reinits)
  }

  /** What receiving n frames does to the block pool: as given, and nothing held where nothing is given. */
  function Effects(arrivals: seq<CanTx.Arrival>, n: nat): (r: seq<CanTx.Arrival>)
    ensures |r| == n
  {
    seq(n, k => if 0 <= k < |arrivals| then arrivals[k] else CanTx.Quiet(0))
  }

  /** dronecan_poll: it receives the frames it pops. */
  function PollStage(s: Loop, i: Turn): (r: Loop)
    requires MainIo.IoInv(s.io)
    ensures MainIo.IoInv(r.io)
  {
    var (io, n) := MainIo.Polled(s.io, i.irqs.can);
    s.(io := io, can := CanTx.Poll(s.can, PollWith(i, n)))
  }

  function PollWith(i: Turn, n: nat): CanTx.PollInput {
    i.poll.(nowMs := Stamp(i.t), arrivals := Effects(i.poll.arrivals, n))
  }

  function TakeStage(s: Loop): Loop {
    s.(can := CanTx.Take(s.can), health := Noted(s.health, !s.can.overflow, CAN_TX_OVERFLOW))
  }

  // ---------------------------------------------------------------- one iteration

  ghost predicate Runnable(s: Loop) {
    && s.flowTask.period == FLOW_PERIOD_MS && s.rangeTask.period == RANGE_PERIOD_MS
    && TofModel.Inv(s.tof) && MainIo.IoInv(s.io)
  }

  /** After both sensors; the two tasks are polled in the same millisecond. */
  function SensorStages(s: Loop, i: Turn): (r: (Loop, bool, bool))
    requires Runnable(s)
    ensures r.0.io == s.io
  {
    var (flowTask, flowDue) := Scheduler.Poll(s.flowTask, Stamp(i.t));
    var (rangeTask, rangeDue) := Scheduler.Poll(s.rangeTask, Stamp(i.t));
    var (tof, running) := TofTurn(s.tof, i);
    var a := WithPmw(s, PmwStages(PmwOf(s), i));
    (a.(tof := tof, health := TofFlagged(a.health, running), flowTask := flowTask, rangeTask := rangeTask),
     flowDue, rangeDue)
  }

  function PublishStages(s: Loop, i: Turn, flowDue: bool, rangeDue: bool): (r: Loop)
    requires MainIo.IoInv(s.io)
    ensures MainIo.IoInv(r.io)
  {
    ListenStage(RangeStage(FlowStage(s, i, flowDue), i, rangeDue), i)
  }

  function BusStages(s: Loop, i: Turn): (r: Loop)
    requires MainIo.IoInv(s.io)
    ensures MainIo.IoInv(r.io)
  {
    PollStage(BusStage(s, i), i)
  }

  /** All but the last statement about CAN: taking the transmit overflow flag. */
  ghost function BeforeTake(s: Loop, i: Turn): Loop
    requires Inv(s)
  {
    hide MainIo.IoInv, TofModel.Inv, CanTx.Inv, PmwInv, FlowsInv, Wired, Read;
    var (a, flowDue, rangeDue) := SensorStages(s, i);
    BusStages(PublishStages(a, i, flowDue, rangeDue), i)
  }

  /** The body of main's loop. */
  ghost function Iterate(s: Loop, i: Turn): Loop
    requires Inv(s)
  {
    TakeStage(BeforeTake(s, i))
  }

  /** The state before the first iteration, started at true time t (ms) and us (microseconds). */
  function Initial(t: int, us: int): Loop {
    Loop(PmwCounts.Flow(PmwModel.StartInit(PmwModel.Attempt(PmwModel.ResetDevice(Stamp(us)), []), us),
                        PmwCounts.Ledger(0, 0, 0, 0), PmwCounts.Ledger(0, 0, 0, 0), 0),
         Plus(Stamp(t), SENSOR_RETRY_MS), Plus(Stamp(t), PMW_HEALTH_CHECK_MS),
         TofModel.Initial(t), 0,
         Scheduler.NewTask(Stamp(t), FLOW_PERIOD_MS), Scheduler.NewTask(Stamp(t), RANGE_PERIOD_MS),
         CanRecovery.START, CanTx.INITIAL, MainIo.Start(), [], [], [], [])
  }

  // ---------------------------------------------------------------- what every iteration keeps, at any timing

  /** Sums over the published flow samples. */
  function SumX(flows: seq<FlowSample>): int {
    if flows == [] then 0 else SumX(flows[..|flows| - 1]) + flows[|flows| - 1].countX
  }

  function SumY(flows: seq<FlowSample>): int {
    if flows == [] then 0 else SumY(flows[..|flows| - 1]) + flows[|flows| - 1].countY
  }

  /** What the flow stages keep among themselves. */
  ghost predicate PmwInv(s: Pmw) {
    && PmwCounts.Conserved(s.flow)
    && (s.Device().initialized <==> s.Device().initState == PmwModel.Done)
    && s.Device().initState != PmwModel.Failed
    && (Read(s.health).pmw ==> !s.Device().initialized)
  }

  /** The published flow samples add up to the ledgers, and the invalid ones are zero. */
  ghost predicate FlowsInv(s: Loop) {
    && s.flow.x.published == SumX(s.flows) && s.flow.y.published == SumY(s.flows)
    && (forall k :: 0 <= k < |s.flows| && !s.flows[k].valid ==> s.flows[k].countX == 0 && s.flows[k].countY == 0)
  }

  /** The frames the UART ring accepted are those of the messages. */
  ghost predicate Wired(s: Loop) {
    s.io.uart.frames == MspWire.Encoded(s.messages) && MspWire.AllValid(s.messages)
  }

  /** What holds all through an iteration. */
  ghost predicate Kept(s: Loop) {
    && Runnable(s)
    && PmwInv(PmwOf(s)) && FlowsInv(s)
    && (forall k :: 0 <= k < |s.ranges| ==> TofModel.Classified(s.ranges[k].sample))
    && CanTx.Inv(s.can) && Wired(s)
    && !Read(s.health).spare
  }

  /** What holds between iterations: also, no refused transfer is still to be reported. */
  ghost predicate Inv(s: Loop) {
    Kept(s) && s.can.refused == 0
  }

  lemma InitialInv(t: int, us: int)
    ensures Inv(Initial(t, us))
  {
    TofModel.InitialInv(t);
    CanTx.InitialInv();
    MainIo.StartInv();
    assert MspWire.Encoded([]) == [];
  }

  /** Only the PMW3901 bit changes, and nothing is published. */
  predicate OnlyPmw(s: Pmw, u: Pmw) {
    && Read(u.health) == Read(s.health).(pmw := Read(u.health).pmw)
    && u.flow.x.published == s.flow.x.published && u.flow.y.published == s.flow.y.published
  }

  lemma LosePmwKeeps(s: Pmw, t: int, us: int)
    requires PmwInv(s)
    ensures PmwInv(LosePmw(s, t, us)) && OnlyPmw(s, LosePmw(s, t, us))
    ensures Read(LosePmw(s, t, us).health).pmw
  {
    RaisePmw(s.health);
    PmwCounts.StepConserves(PmwCounts.CONFIGURED, s.flow, PmwCounts.Reset(us));
    hide Read, Raise, Stamp, Plus, PmwCounts.Conserved;
  }

  lemma MotionStageKeeps(s: Pmw, i: Turn)
    requires PmwInv(s)
    ensures PmwInv(MotionStage(s, i)) && OnlyPmw(s, MotionStage(s, i))
  {
    hide Read, LosePmw, Stamp, Plus, PmwCounts.Conserved, PmwCounts.Transform;
    LosePmwKeeps(s, i.t, i.us.motion);
    match i.motion {
      case Some(m) => PmwCounts.StepConserves(PmwCounts.CONFIGURED, s.flow, PmwCounts.Moved(m));
      case None =>
    }
  }

  lemma RetryStageKeeps(s: Pmw, i: Turn)
    requires PmwInv(s)
    ensures PmwInv(RetryStage(s, i)) && OnlyPmw(s, RetryStage(s, i))
  {
    hide Read, Stamp, Plus, Reached, PmwCounts.Conserved;
    PmwCounts.StepConserves(PmwCounts.CONFIGURED, s.flow, PmwCounts.Begin(i.us.begin));
  }

  /** What an initialisation step returns, for a device in the middle of an attempt. */
  lemma InitStepReturns(a: PmwModel.Attempt, us: int, spi: PmwModel.Spi)
    requires !a.dev.initialized && !(a.dev.initState in {PmwModel.Idle, PmwModel.Done, PmwModel.Failed})
    ensures var (b, r) := PmwModel.InitStep(a, us, spi);
            && (b.dev.initialized <==> b.dev.initState == PmwModel.Done)
            && (r == PmwModel.Ready <==> b.dev.initState == PmwModel.Done)
            && (r == PmwModel.Faulty <==> b.dev.initState == PmwModel.Failed)
  {
    hide Stamp, Plus, Reached, PmwModel.Entry, PmwModel.MotionReads;
  }

  lemma InitStageKeeps(s: Pmw, i: Turn)
    requires PmwInv(s)
    ensures PmwInv(InitStage(s, i)) && OnlyPmw(s, InitStage(s, i))
  {
    hide Read, Raise, Lower, Stamp, Plus, PmwModel.InitStep;
    RaisePmw(s.health);
    LowerChanges(s.health);
    if !s.Device().initialized && s.Device().initState != PmwModel.Idle {
      InitStepReturns(s.flow.att, i.us.step, i.spi);
      PmwCounts.InitStepKeepsCounts(s.flow.att, i.us.step, i.spi);
    }
  }

  lemma CheckStageKeeps(s: Pmw, i: Turn)
    requires PmwInv(s)
    ensures PmwInv(CheckStage(s, i)) && OnlyPmw(s, CheckStage(s, i))
  {
    var u := s.(checkAt := Plus(Stamp(i.t), PMW_HEALTH_CHECK_MS));
    assert PmwInv(u);
    LosePmwKeeps(u, i.t, i.us.check);
    hide PmwInv, Read, LosePmw, Stamp, Plus, Reached;
  }

  /** Whatever the transfers do: a flagged fault means a device that is not initialised, and counts are conserved. */
  lemma PmwStagesKeep(s: Pmw, i: Turn)
    requires PmwInv(s)
    ensures PmwInv(PmwStages(s, i)) && OnlyPmw(s, PmwStages(s, i))
  {
    hide PmwInv, MotionStage, RetryStage, InitStage, CheckStage, Read;
    MotionStageKeeps(s, i);
    var a := MotionStage(s, i);
    RetryStageKeeps(a, i);
    var b := RetryStage(a, i);
    InitStageKeeps(b, i);
    CheckStageKeeps(InitStage(b, i), i);
  }

  // ---------------------------------------------------------------- the other stages

  /** Nothing is done to the flow device or the sensors' bits, and refusals only grow. */
  predicate Published(s: Loop, u: Loop, untaken: bool) {
    && u == s.(flow := u.flow, flows := u.flows, ranges := u.ranges, messages := u.messages, can := u.can, health := u.health,
            io := u.io)
    && u.can.refused >= s.can.refused
    && Read(u.health) == Read(s.health).(uartOverflow := Read(s.health).uartOverflow || untaken,
                                         txOverflow := Read(s.health).txOverflow || u.can.refused > s.can.refused)
  }

  lemma UartNoted(h: bv16, taken: bool)
    ensures Read(Noted(h, taken, UART_TX_OVERFLOW)) == Read(h).(uartOverflow := Read(h).uartOverflow || !taken)
  {
    RaiseUart(h);
    hide Read, Raise;
  }

  lemma TxNoted(h: bv16, taken: bool)
    ensures Read(Noted(h, taken, CAN_TX_OVERFLOW)) == Read(h).(txOverflow := Read(h).txOverflow || !taken)
  {
    RaiseTx(h);
    hide Read, Raise;
  }

  lemma RxNoted(h: bv16, taken: bool)
    ensures Read(Noted(h, taken, CAN_RX_OVERFLOW)) == Read(h).(rxOverflow := Read(h).rxOverflow || !taken)
  {
    RaiseRx(h);
    hide Read, Raise;
  }

  lemma OfferedReads(s: Loop, busOff: bool, result: (CanTx.Tx, bool))
    requires CanTx.Inv(s.can) && CanTx.Inv(result.0)
    requires result.0.refused == s.can.refused + (if result.1 then 0 else 1)
    ensures Published(s, Offered(s, busOff, result), false) && CanTx.Inv(Offered(s, busOff, result).can)
    ensures var u := Offered(s, busOff, result); u == s.(can := u.can, health := u.health)
  {
    hide Read, Noted, CanTx.Inv;
    TxNoted(s.health, result.1);
  }

  /** Publication keeps the device, appends its counts, and clears them. */
  lemma ReportKeeps(s: Loop, i: Turn)
    requires PmwInv(PmwOf(s)) && FlowsInv(s)
    ensures var f := PmwCounts.FlowStep(PmwCounts.CONFIGURED, s.flow, PmwCounts.Report(i.us.publish));
            var u := s.(flow := f, flows := s.flows + [FlowReport(s, i)]);
            PmwInv(PmwOf(u)) && FlowsInv(u)
  {
    hide Read, Stamp;
    PmwCounts.StepConserves(PmwCounts.CONFIGURED, s.flow, PmwCounts.Report(i.us.publish));
    assert (s.flows + [FlowReport(s, i)])[..|s.flows|] == s.flows;
  }

  /** A frame the ring took is a message more. */
  lemma WiredSent(s: Loop, io: MainIo.Io, m: Msp.Message, taken: bool)
    requires Wired(s) && m.Valid()
    requires io.uart.frames == if taken then s.io.uart.frames + [Msp.Encode(m)] else s.io.uart.frames
    ensures Wired(s.(io := io, messages := Taken(s.messages, m, taken)))
  {
    hide Msp.Encode;
    assert MspWire.Encoded(s.messages + [m]) == MspWire.Encoded(s.messages) + [Msp.Encode(m)];
  }

  lemma FlowSentFrames(s: Loop, i: Turn)
    requires MainIo.IoInv(s.io)
    ensures var (io, taken) := FlowSent(s, i);
            io.uart.frames == if taken then s.io.uart.frames + [Msp.Encode(MspSensors.FlowMessage(FlowReport(s, i)))]
                              else s.io.uart.frames
  {
    hide MainIo.IoInv, Msp.Encode, MspSensors.FlowMessage, FlowReport, MainIo.Idle, MainIo.Send;
  }

  lemma FlowOutWired(s: Loop, i: Turn)
    requires MainIo.IoInv(s.io) && Wired(s)
    ensures Wired(FlowOut(s, i))
  {
    hide MainIo.IoInv, Msp.Encode, MspSensors.FlowMessage, FlowReport, FlowSent, Noted, Stamp, PmwCounts.FlowStep, Wired,
      Taken;
    var (io, taken) := FlowSent(s, i);
    var m := MspSensors.FlowMessage(FlowReport(s, i));
    FlowSentFrames(s, i);
    WiredSent(s, io, m, taken);
    WiredAlike(s.(io := io, messages := Taken(s.messages, m, taken)), FlowOut(s, i));
  }

  lemma FlowOutReads(s: Loop, i: Turn)
    requires MainIo.IoInv(s.io)
    ensures Published(s, FlowOut(s, i), !FlowSent(s, i).1)
  {
    hide Read, Noted, Taken, Stamp, PmwCounts.FlowStep, FlowReport, MspSensors.FlowMessage, FlowSent, MainIo.IoInv;
    UartNoted(s.health, FlowSent(s, i).1);
  }

  lemma FlowOutKeeps(s: Loop, i: Turn)
    requires PmwInv(PmwOf(s)) && FlowsInv(s) && MainIo.IoInv(s.io) && Wired(s)
    ensures PmwInv(PmwOf(FlowOut(s, i))) && FlowsInv(FlowOut(s, i)) && Wired(FlowOut(s, i))
    ensures Published(s, FlowOut(s, i), !FlowSent(s, i).1)
  {
    hide Wired, MainIo.IoInv, Published, Read;
    FlowOutWired(s, i);
    FlowOutReads(s, i);
    hide Noted, Taken, Stamp, PmwCounts.FlowStep, PmwCounts.Conserved, SumX, SumY, FlowReport, MspSensors.FlowMessage,
      FlowSent;
    UartNoted(s.health, FlowSent(s, i).1);
    ReportKeeps(s, i);
  }

  lemma WiredAlike(s: Loop, u: Loop)
    requires Wired(s) && u.io.uart.frames == s.io.uart.frames && u.messages == s.messages
    ensures Wired(u)
  {}

  /** Offering a transfer after a frame was sent. */
  lemma OfferedKeeps(s: Loop, a: Loop, busOff: bool, result: (CanTx.Tx, bool), untaken: bool)
    requires Published(s, a, untaken) && a.can == s.can && a.ranges == s.ranges
    requires PmwInv(PmwOf(a)) && FlowsInv(a) && Wired(a) && CanTx.Inv(a.can) && CanTx.Inv(result.0)
    requires result.0.refused == s.can.refused + (if result.1 then 0 else 1)
    ensures var u := Offered(a, busOff, result);
            && CanTx.Inv(u.can) && FlowsInv(u) && PmwInv(PmwOf(u)) && Wired(u)
            && Published(s, u, untaken) && u.ranges == s.ranges
  {
    hide Read, Noted, CanTx.Inv, PmwCounts.Conserved, SumX, SumY, Offered;
    var u := Offered(a, busOff, result);
    OfferedReads(a, busOff, result);
    SensorBitsKeep(PmwOf(a), u.health);
    WiredAlike(a, u);
    hide PmwInv, Wired;
    FlowsStay(a, u);
  }

  lemma FlowStageKeeps(s: Loop, i: Turn, due: bool)
    requires PmwInv(PmwOf(s)) && FlowsInv(s) && CanTx.Inv(s.can) && MainIo.IoInv(s.io) && Wired(s)
    ensures var u := FlowStage(s, i, due);
            && CanTx.Inv(u.can) && FlowsInv(u) && PmwInv(PmwOf(u)) && Wired(u)
            && Published(s, u, due && !FlowSent(s, i).1) && u.ranges == s.ranges
  {
    hide Read, Noted, CanTx.Inv, CanTx.Broadcast, PmwCounts.FlowStep, PmwCounts.Publish, PmwCounts.Conserved, SumX, SumY,
      MainIo.IoInv, FlowSent;
    if due {
      FlowOutKeeps(s, i);
      CanTx.PublishCounts(s.can, CanTx.FLOW_ID, CanTx.FLOW_LENGTH, i.flowUs);
      OfferedKeeps(s, FlowOut(s, i), i.busOff, CanTx.PublishFlow(s.can, i.flowUs), !FlowSent(s, i).1);
    } else {
      WiredAlike(s, FlowStage(s, i, due));
    }
  }

  lemma RangeSentFrames(s: Loop, i: Turn)
    requires MainIo.IoInv(s.io)
    ensures var (io, taken) := RangeSent(s, i);
            io.uart.frames == if taken then s.io.uart.frames + [Msp.Encode(MspSensors.RangeMessage(s.tof.sample))]
                              else s.io.uart.frames
  {
    hide MainIo.IoInv, Msp.Encode, MspSensors.RangeMessage, MainIo.Idle, MainIo.Send;
  }

  lemma RangeOutWired(s: Loop, i: Turn)
    requires MainIo.IoInv(s.io) && Wired(s)
    ensures Wired(RangeOut(s, i))
  {
    hide MainIo.IoInv, Msp.Encode, MspSensors.RangeMessage, RangeSent, Noted, Wired, Taken;
    var (io, taken) := RangeSent(s, i);
    var m := MspSensors.RangeMessage(s.tof.sample);
    RangeSentFrames(s, i);
    WiredSent(s, io, m, taken);
    WiredAlike(s.(io := io, messages := Taken(s.messages, m, taken)), RangeOut(s, i));
  }

  lemma RangeOutReads(s: Loop, i: Turn)
    requires MainIo.IoInv(s.io)
    ensures Published(s, RangeOut(s, i), !RangeSent(s, i).1)
  {
    hide Read, Noted, Taken, MspSensors.RangeMessage, RangeSent, MainIo.IoInv;
    UartNoted(s.health, RangeSent(s, i).1);
  }

  lemma RangeStageKeeps(s: Loop, i: Turn, due: bool)
    requires CanTx.Inv(s.can) && MainIo.IoInv(s.io) && Wired(s)
    ensures var u := RangeStage(s, i, due);
            && CanTx.Inv(u.can) && Wired(u)
            && Published(s, u, due && !RangeSent(s, i).1) && u.flow == s.flow && u.flows == s.flows
            && u.ranges == if due then s.ranges + [RangeNote(s.tof.sample, i.t, s.tof.readAt)] else s.ranges
  {
    hide Read, Noted, CanTx.Inv, MainIo.IoInv, RangeSent, Taken, MspSensors.RangeMessage;
    if due {
      RangeOutWired(s, i);
      RangeOutReads(s, i);
      CanTx.PublishCounts(s.can, CanTx.RANGE_ID, CanTx.RANGE_LENGTH, i.rangeUs);
      OfferedReads(RangeOut(s, i), i.busOff, CanTx.PublishRange(s.can, i.rangeUs));
      WiredAlike(RangeOut(s, i), RangeStage(s, i, due));
      hide Offered, CanTx.Broadcast, Wired;
    } else {
      WiredAlike(s, RangeStage(s, i, due));
    }
  }

  lemma ListenStageKeeps(s: Loop, i: Turn)
    requires MainIo.IoInv(s.io) && Wired(s)
    ensures var u := ListenStage(s, i); u == s.(io := u.io) && Wired(u) && u.io.can == s.io.can
  {
    WiredAlike(s, ListenStage(s, i));
    hide MainIo.IoInv, MainIo.ListenAll, MainIo.Idle, Wired;
  }

  lemma BusStageReads(s: Loop, i: Turn)
    requires MainIo.IoInv(s.io)
    ensures var overflow := MainIo.Flags(s.io, i.irqs.can).1;
            Read(BusStage(s, i).health) ==
            Read(s.health).(rxOverflow := Read(s.health).rxOverflow || overflow, busOff := i.busOff)
  {
    hide Read, Noted, Raise, Lower, CanRecovery.Step, Stamp, MainIo.IoInv, MainIo.Flags, MainIo.Recovered;
    var overflow := MainIo.Flags(s.io, i.irqs.can).1;
    var h := Noted(s.health, !overflow, CAN_RX_OVERFLOW);
    RxNoted(s.health, !overflow);
    if i.busOff {
      RaiseBusOff(h);
    } else {
      LowerChanges(h);
    }
  }

  // ---------------------------------------------------------------- one whole iteration

  /** Only the two sensors, their bits and the two tasks change. */
  lemma SensorStagesShape(s: Loop, i: Turn)
    requires Runnable(s)
    ensures var a := SensorStages(s, i).0;
            && a == s.(flow := a.flow, pmwRetry := a.pmwRetry, pmwCheck := a.pmwCheck, tof := TofTurn(s.tof, i).0,
                       health := a.health, flowTask := a.flowTask, rangeTask := a.rangeTask)
            && a.flowTask.period == FLOW_PERIOD_MS && a.rangeTask.period == RANGE_PERIOD_MS
            && PmwOf(a) == PmwStages(PmwOf(s), i).(health := TofFlagged(PmwStages(PmwOf(s), i).health, TofTurn(s.tof, i).1))
  {
    hide PmwStages, Scheduler.CatchUp, Reached, Stamp, TofModel.Inv, TofTurn, TofFlagged;
  }

  lemma TofFlaggedReads(h: bv16, running: bool)
    ensures Read(TofFlagged(h, running)) == Read(h).(tof := !running, i2c := !running)
  {
    hide Read, Raise, Lower;
    if running {
      LowerChanges(h);
    } else {
      RaiseTof(h);
    }
  }

  lemma SensorStagesKeep(s: Loop, i: Turn)
    requires Inv(s)
    ensures var a := SensorStages(s, i).0;
            && Runnable(a) && PmwInv(PmwOf(a)) && FlowsInv(a)
            && var down := a.tof.tof.state != TofModel.Running;
               Read(a.health) == Read(s.health).(pmw := Read(a.health).pmw, tof := down, i2c := down)
  {
    hide Read, PmwInv, FlowsInv, PmwStages, TofModel.Inv, TofTurn, SensorStages, CanTx.Inv, TofFlagged;
    SensorStagesShape(s, i);
    PmwStagesKeep(PmwOf(s), i);
    TofTurnKeeps(s.tof, i);
    var p := PmwStages(PmwOf(s), i);
    var running := TofTurn(s.tof, i).1;
    TofFlaggedReads(p.health, running);
    SensorBitsKeep(p, TofFlagged(p.health, running));
    FlowsStay(s, SensorStages(s, i).0);
  }

  lemma FlowsStay(s: Loop, u: Loop)
    requires FlowsInv(s) && u.flows == s.flows
    requires u.flow.x.published == s.flow.x.published && u.flow.y.published == s.flow.y.published
    ensures FlowsInv(u)
  {}

  lemma TofTurnKeeps(s: TofModel.Sys, i: Turn)
    requires TofModel.Inv(s)
    ensures var (u, running) := TofTurn(s, i);
            TofModel.Inv(u) && (running <==> u.tof.state == TofModel.Running)
  {
    var n := if i.tofIrq then TofModel.Notify(s) else s;
    TofModel.StepKeepsInv(n, i.t, i.bus);
    hide TofModel.Inv, TofModel.TofStep;
  }

  lemma SensorBitsKeep(p: Pmw, h: bv16)
    requires PmwInv(p) && Read(h).pmw == Read(p.health).pmw
    ensures PmwInv(p.(health := h))
  {}

  lemma FlowStageKept(s: Loop, i: Turn, due: bool)
    requires Kept(s)
    ensures Kept(FlowStage(s, i, due)) && Published(s, FlowStage(s, i, due), due && !FlowSent(s, i).1)
  {
    hide Read, FlowStage, FlowSent, FlowsInv, PmwInv, CanTx.Inv, TofModel.Inv, TofModel.Classified, MainIo.IoInv, Wired;
    FlowStageKeeps(s, i, due);
  }

  lemma RangesClassified(s: Loop, u: Loop)
    requires TofModel.Inv(s.tof)
    requires forall k :: 0 <= k < |s.ranges| ==> TofModel.Classified(s.ranges[k].sample)
    requires u.ranges == s.ranges || exists n :: u.ranges == s.ranges + [n] && n.sample == s.tof.sample
    ensures forall k :: 0 <= k < |u.ranges| ==> TofModel.Classified(u.ranges[k].sample)
  {
    assert TofModel.Classified(s.tof.sample);
    hide TofModel.Inv, TofModel.Classified;
  }

  lemma RangeStageKept(s: Loop, i: Turn, due: bool)
    requires Kept(s)
    ensures Kept(RangeStage(s, i, due)) && Published(s, RangeStage(s, i, due), due && !RangeSent(s, i).1)
  {
    hide Read, RangeStage, RangeSent, PmwInv, FlowsInv, CanTx.Inv, TofModel.Inv, TofModel.Classified, MainIo.IoInv, Wired;
    var u := RangeStage(s, i, due);
    RangeStageKeeps(s, i, due);
    SensorBitsKeep(PmwOf(s), u.health);
    FlowsStay(s, u);
    assert u.ranges == s.ranges + [RangeNote(s.tof.sample, i.t, s.tof.readAt)] || u.ranges == s.ranges;
    RangesClassified(s, u);
  }

  lemma ListenStageKept(s: Loop, i: Turn)
    requires Kept(s)
    ensures Kept(ListenStage(s, i)) && ListenStage(s, i) == s.(io := ListenStage(s, i).io)
  {
    hide Read, ListenStage, FlowsInv, PmwInv, CanTx.Inv, TofModel.Inv, TofModel.Classified, MainIo.IoInv, Wired;
    ListenStageKeeps(s, i);
    FlowsStay(s, ListenStage(s, i));
  }

  /** The CAN statements at the end of the iteration leave the flow device and the UART alone. */
  predicate BusOnly(s: Loop, u: Loop) {
    && u == s.(health := u.health, recovery := u.recovery, reinits := u.reinits, can := u.can, io := u.io)
    && u.io.uart == s.io.uart
  }

  lemma BusOnlyKept(s: Loop, u: Loop)
    requires Kept(s) && BusOnly(s, u) && CanTx.Inv(u.can) && MainIo.IoInv(u.io)
    requires Read(u.health).pmw == Read(s.health).pmw && !Read(u.health).spare
    ensures Kept(u)
  {
    hide Read, CanTx.Inv, TofModel.Inv, TofModel.Classified, SumX, SumY, MainIo.IoInv;
    SensorBitsKeep(PmwOf(s), u.health);
    WiredAlike(s, u);
    hide PmwInv, Wired;
  }

  lemma BusStageKept(s: Loop, i: Turn)
    requires Kept(s)
    ensures MainIo.IoInv(s.io)
    ensures Kept(BusStage(s, i)) && BusStage(s, i).can == s.can
  {
    hide Read, Noted, Raise, Lower, CanRecovery.Step, Kept, Runnable, Stamp, MainIo.IoInv, BusStage;
    KeptFacts(s);
    BusStageReads(s, i);
    BusStageShape(s, i);
    BusOnlyKept(s, BusStage(s, i));
  }

  lemma KeptFacts(s: Loop)
    requires Kept(s)
    ensures Runnable(s) && MainIo.IoInv(s.io) && CanTx.Inv(s.can) && !Read(s.health).spare
    ensures Read(s.health).pmw ==> !s.flow.att.dev.initialized
  {}

  lemma PollStageKept(s: Loop, i: Turn)
    requires Kept(s)
    ensures MainIo.IoInv(s.io)
    ensures var u := PollStage(s, i);
            Kept(u) && BusOnly(s, u) && u.health == s.health && u.can.refused >= s.can.refused
  {
    hide Read, CanTx.Poll, CanTx.Inv, Kept, Runnable, Stamp, MainIo.IoInv, MainIo.Polled, PollWith;
    KeptFacts(s);
    var n := MainIo.Polled(s.io, i.irqs.can).1;
    CanTx.PollKeepsInv(s.can, PollWith(i, n));
    CanTx.PollCountsRefusals(s.can, PollWith(i, n));
    BusOnlyKept(s, PollStage(s, i));
  }

  lemma TakeStageKept(s: Loop)
    requires Kept(s)
    ensures Kept(TakeStage(s)) && TakeStage(s).can.refused == 0
    ensures Read(TakeStage(s).health) == Read(s.health).(txOverflow := Read(s.health).txOverflow || s.can.refused > 0)
  {
    KeptFacts(s);
    CanTx.StepKeepsInv(s.can, CanTx.TakeOverflow);
    hide Read, Noted, CanTx.PerIdOrder, CanTx.SortedById, Kept, Runnable, MainIo.IoInv;
    TxNoted(s.health, !s.can.overflow);
    BusOnlyKept(s, TakeStage(s));
  }

  /** Whether the two publications are due in this iteration. */
  ghost predicate FlowDue(s: Loop, i: Turn)
    requires Inv(s)
  {
    Scheduler.Poll(s.flowTask, Stamp(i.t)).1
  }

  ghost predicate RangeDue(s: Loop, i: Turn)
    requires Inv(s)
  {
    Scheduler.Poll(s.rangeTask, Stamp(i.t)).1
  }

  /** The bytes still unsent when the flow frame, and the range frame, is checked against the ring. */
  ghost function FlowMeets(s: Loop, i: Turn): nat
    requires MainIo.IoInv(s.io)
  {
    MainIo.Met(MainIo.Idle(s.io, i.irqs.beforeFlow), i.irqs.flowCall)
  }

  ghost function RangeMeets(s: Loop, i: Turn): nat
    requires MainIo.IoInv(s.io)
  {
    MainIo.Met(MainIo.Idle(s.io, i.irqs.beforeRange), i.irqs.rangeCall)
  }

  const FLOW_FRAME := 18
  const RANGE_FRAME := 14

  lemma FramesFit(s: Loop, i: Turn)
    requires MainIo.IoInv(s.io)
    ensures FlowSent(s, i).1 <==> FlowMeets(s, i) <= 255 - FLOW_FRAME
    ensures RangeSent(s, i).1 <==> RangeMeets(s, i) <= 255 - RANGE_FRAME
  {
    hide MainIo.IoInv, MainIo.Idle, MainIo.Met, Msp.Encode;
  }

  /** A due report that the UART ring has no room for. */
  ghost predicate ReportRefused(a: Loop, i: Turn, flowDue: bool, rangeDue: bool)
    requires MainIo.IoInv(a.io)
  {
    || (flowDue && FlowMeets(a, i) > 255 - FLOW_FRAME)
    || (rangeDue && RangeMeets(FlowStage(a, i, flowDue), i) > 255 - RANGE_FRAME)
  }

  /** The state after both sensors' stages. */
  ghost function Sensed(s: Loop, i: Turn): (a: Loop)
    requires Inv(s)
    ensures a.io == s.io && MainIo.IoInv(a.io)
  {
    SensorStages(s, i).0
  }

  /**
   * The health word after an iteration: the three sensor bits and bus-off say how things stand, the overflow bits stay
   * set and are set by exactly the refusals of this iteration: a due report that met too many unsent bytes, a CAN
   * message that arrived and was not admitted, a transfer libcanard did not take.
   */
  ghost predicate Reports(s: Loop, i: Turn, u: Loop)
    requires Inv(s)
  {
    var f, g := Read(s.health), Read(u.health);
    var down := u.tof.tof.state != TofModel.Running;
    && (g.pmw ==> !u.flow.att.dev.initialized)
    && g.tof == down && g.i2c == down
    && g.busOff == i.busOff
    && g.rxOverflow == (f.rxOverflow || MainIo.Flags(s.io, i.irqs.can).1)
    && g.txOverflow == (f.txOverflow || BeforeTake(s, i).can.refused > 0)
    && g.uartOverflow == (f.uartOverflow || ReportRefused(Sensed(s, i), i, FlowDue(s, i), RangeDue(s, i)))
    && !g.spare
  }

  lemma PublishStagesKept(s: Loop, i: Turn, flowDue: bool, rangeDue: bool)
    requires Kept(s)
    ensures MainIo.IoInv(s.io)
    ensures var u := PublishStages(s, i, flowDue, rangeDue);
            Kept(u) && Published(s, u, ReportRefused(s, i, flowDue, rangeDue))
  {
    hide Read, Kept, Runnable, FlowStage, RangeStage, ListenStage, FlowMeets, RangeMeets, FlowSent, RangeSent, MainIo.IoInv;
    KeptFacts(s);
    FlowStageKept(s, i, flowDue);
    FramesFit(s, i);
    var a := FlowStage(s, i, flowDue);
    RangeStageKept(a, i, rangeDue);
    FramesFit(a, i);
    ListenStageKept(RangeStage(a, i, rangeDue), i);
  }

  lemma BusStagesKept(s: Loop, i: Turn)
    requires Kept(s)
    ensures MainIo.IoInv(s.io)
    ensures var u := BusStages(s, i);
            var overflow := MainIo.Flags(s.io, i.irqs.can).1;
            && Kept(u) && BusOnly(s, u) && u.can.refused >= s.can.refused
            && Read(u.health) == Read(s.health).(rxOverflow := Read(s.health).rxOverflow || overflow, busOff := i.busOff)
  {
    hide Read, Kept, Runnable, BusStage, PollStage, CanTx.Poll, Stamp, MainIo.IoInv, MainIo.Flags;
    BusStageKept(s, i);
    BusStageReads(s, i);
    BusStageShape(s, i);
    PollStageKept(BusStage(s, i), i);
  }

  /** Publication and the receive loop leave the CAN ring alone. */
  lemma PublishStagesIo(s: Loop, i: Turn, flowDue: bool, rangeDue: bool)
    requires MainIo.IoInv(s.io)
    ensures var u := PublishStages(s, i, flowDue, rangeDue);
            u.io.can == s.io.can && u.io.arrived == s.io.arrived && u.io.admitted == s.io.admitted
  {
    hide MainIo.IoInv, MainIo.Idle, MainIo.Send, MainIo.ListenAll, Noted, Taken, FlowReport, CanTx.PublishFlow,
      CanTx.PublishRange, PmwCounts.FlowStep, MspSensors.FlowMessage, MspSensors.RangeMessage;
  }

  lemma FlagsAlike(a: MainIo.Io, b: MainIo.Io, batches: seq<CanRx.Batch>)
    requires MainIo.IoInv(a) && MainIo.IoInv(b)
    requires a.can == b.can && a.arrived == b.arrived && a.admitted == b.admitted
    ensures MainIo.Flags(a, batches).1 == MainIo.Flags(b, batches).1
  {
    hide CanRx.ReceiveAll, CanRx.BatchAdmits, CanRx.CanInv, MainIo.IoInv, UartTx.Inv;
  }

  lemma BeforeTakeKept(s: Loop, i: Turn)
    requires Inv(s)
    ensures var u := BeforeTake(s, i);
            var f, g := Read(s.health), Read(u.health);
            var down := u.tof.tof.state != TofModel.Running;
            && Kept(u) && u.tof == TofTurn(s.tof, i).0
            && g.tof == down && g.i2c == down && g.busOff == i.busOff
            && g.rxOverflow == (f.rxOverflow || MainIo.Flags(s.io, i.irqs.can).1)
            && (f.txOverflow ==> g.txOverflow) && (g.txOverflow ==> f.txOverflow || u.can.refused > 0)
            && g.uartOverflow == (f.uartOverflow || ReportRefused(Sensed(s, i), i, FlowDue(s, i), RangeDue(s, i)))
  {
    hide Inv, Runnable, Read, Kept, SensorStages, TofTurn, FlowDue, RangeDue, PublishStages, BusStages, ReportRefused,
      MainIo.IoInv, MainIo.Flags;
    SensorStagesKept(s, i);
    var a, flowDue, rangeDue := SensorStages(s, i).0, SensorStages(s, i).1, SensorStages(s, i).2;
    PublishStagesKept(a, i, flowDue, rangeDue);
    var b := PublishStages(a, i, flowDue, rangeDue);
    PublishStagesIo(a, i, flowDue, rangeDue);
    BusStagesKept(b, i);
    FlagsAlike(b.io, s.io, i.irqs.can);
  }

  lemma BusStageShape(s: Loop, i: Turn)
    requires MainIo.IoInv(s.io)
    ensures BusOnly(s, BusStage(s, i)) && BusStage(s, i).can == s.can
  {
    hide Noted, Raise, Lower, CanRecovery.Step, Stamp, MainIo.IoInv, MainIo.Flags, MainIo.Recovered;
  }

  lemma SensorStagesKept(s: Loop, i: Turn)
    requires Inv(s)
    ensures Runnable(s) && MainIo.IoInv(s.io) && Kept(SensorStages(s, i).0) && SensorStages(s, i).0.can.refused == 0
    ensures SensorStages(s, i).1 == FlowDue(s, i) && SensorStages(s, i).2 == RangeDue(s, i)
    ensures var a := SensorStages(s, i).0;
            var down := a.tof.tof.state != TofModel.Running;
            && a.tof == TofTurn(s.tof, i).0
            && Read(a.health) == Read(s.health).(pmw := Read(a.health).pmw, tof := down, i2c := down)
  {
    SensorStagesShape(s, i);
    SensorStagesKeep(s, i);
    DueInSensorStages(s, i);
    hide Read, TofTurn, TofModel.Inv, TofModel.Classified, PmwInv, FlowsInv, CanTx.Inv, SensorStages, FlowDue, RangeDue,
      PmwStages, TofFlagged;
  }

  lemma DueInSensorStages(s: Loop, i: Turn)
    requires Inv(s)
    ensures SensorStages(s, i).1 == FlowDue(s, i) && SensorStages(s, i).2 == RangeDue(s, i)
  {
    hide TofTurn, TofModel.Inv, PmwStages, Scheduler.CatchUp, Reached, Stamp, TofFlagged;
  }

  /** One iteration keeps the invariant and reports what happened in it. */
  lemma IterateReports(s: Loop, i: Turn)
    requires Inv(s)
    ensures Inv(Iterate(s, i)) && Reports(s, i, Iterate(s, i))
  {
    hide Read, Kept, BeforeTake, TofTurn, FlowDue, RangeDue, Noted, ReportRefused, MainIo.Flags, Sensed, MainIo.IoInv;
    BeforeTakeKept(s, i);
    var b := BeforeTake(s, i);
    TakeStageKept(b);
    KeptFacts(TakeStage(b));
  }

  /** The severity reported after an iteration. */
  lemma SeverityAfter(s: Loop, i: Turn)
    requires Inv(s)
    ensures var u := Iterate(s, i);
            var f := Read(u.health);
            NodeHealth(u.health) ==
              if i.busOff then Critical
              else if f.pmw || u.tof.tof.state != TofModel.Running then Error
              else if f.rxOverflow || f.txOverflow || f.uartOverflow then Warning
              else Ok
  {
    IterateReports(s, i);
    hide Iterate, Inv, Read;
    SeverityRead(Iterate(s, i).health);
  }

  // ---------------------------------------------------------------- what an iteration does to each component

  lemma PublishStagesShape(s: Loop, i: Turn, flowDue: bool, rangeDue: bool)
    requires MainIo.IoInv(s.io)
    ensures var u := PublishStages(s, i, flowDue, rangeDue);
            && u == s.(flow := u.flow, flows := u.flows, ranges := u.ranges, messages := u.messages, can := u.can,
                       health := u.health, io := u.io)
            && u.flow == (if flowDue then PmwCounts.FlowStep(PmwCounts.CONFIGURED, s.flow, PmwCounts.Report(i.us.publish)) else s.flow)
            && u.flows == (if flowDue then s.flows + [FlowReport(s, i)] else s.flows)
            && u.ranges == (if rangeDue then s.ranges + [RangeNote(s.tof.sample, i.t, s.tof.readAt)] else s.ranges)
  {
    hide Noted, CanTx.PublishFlow, CanTx.PublishRange, PmwCounts.FlowStep, FlowReport, Stamp, Taken, MainIo.IoInv,
      MainIo.ListenAll, MainIo.Idle, FlowSent, RangeSent, MspSensors.FlowMessage, MspSensors.RangeMessage;
  }

  lemma BusStagesShape(s: Loop, i: Turn)
    requires MainIo.IoInv(s.io)
    ensures var u := TakeStage(BusStages(s, i));
            var (recovery, reinit) := CanRecovery.Step(s.recovery, i.busOff, Stamp(i.t), CAN_RECOVERY_MS);
            && u == s.(health := u.health, recovery := recovery, can := u.can, io := u.io,
                       reinits := if reinit then s.reinits + [i.t] else s.reinits)
  {
    hide Noted, Raise, Lower, CanRecovery.Step, CanTx.Poll, CanTx.Take, Stamp, MainIo.IoInv, MainIo.Flags,
      MainIo.Recovered, MainIo.Polled, PollWith;
  }

  /** Where each component of the state after an iteration comes from. */
  lemma IterateShape(s: Loop, i: Turn)
    requires Inv(s)
    ensures var u := Iterate(s, i);
            && u.tof == TofTurn(s.tof, i).0
            && u.flowTask == Scheduler.Poll(s.flowTask, Stamp(i.t)).0
            && u.rangeTask == Scheduler.Poll(s.rangeTask, Stamp(i.t)).0
            && u.ranges == (if RangeDue(s, i) then s.ranges + [RangeNote(u.tof.sample, i.t, u.tof.readAt)] else s.ranges)
            && u.recovery == CanRecovery.Step(s.recovery, i.busOff, Stamp(i.t), CAN_RECOVERY_MS).0
            && u.reinits == (if CanRecovery.Step(s.recovery, i.busOff, Stamp(i.t), CAN_RECOVERY_MS).1
                             then s.reinits + [i.t] else s.reinits)
    ensures var u := Iterate(s, i);
            var f := PmwStages(PmwOf(s), i).flow;
            if FlowDue(s, i) then
              && u.flow == PmwCounts.FlowStep(PmwCounts.CONFIGURED, f, PmwCounts.Report(i.us.publish))
              && u.flows == s.flows + [PmwCounts.Publish(f.att.dev, Stamp(i.us.publish)).1]
            else u.flow == f && u.flows == s.flows
  {
    hide MainIo.IoInv, Kept, TofTurn, Scheduler.Poll, SensorStages, PublishStages, BusStages, TakeStage, Reached, Stamp,
      PmwStages, FlowDue, RangeDue, CanRecovery.Step, PmwCounts.FlowStep, TofFlagged, Runnable;
    KeptFacts(s);
    SensorStagesShape(s, i);
    DueInSensorStages(s, i);
    TasksInSensorStages(s, i);
    var a, flowDue, rangeDue := SensorStages(s, i).0, SensorStages(s, i).1, SensorStages(s, i).2;
    PublishStagesShape(a, i, flowDue, rangeDue);
    BusStagesShape(PublishStages(a, i, flowDue, rangeDue), i);
    hide PmwCounts.Publish;
  }

  lemma TasksInSensorStages(s: Loop, i: Turn)
    requires Runnable(s)
    ensures SensorStages(s, i).0.flowTask == Scheduler.Poll(s.flowTask, Stamp(i.t)).0
    ensures SensorStages(s, i).0.rangeTask == Scheduler.Poll(s.rangeTask, Stamp(i.t)).0
  {
    hide TofTurn, TofModel.Inv, PmwStages, Scheduler.CatchUp, Reached, Stamp, TofFlagged;
  }
}
