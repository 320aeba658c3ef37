// One iteration of main's loop on the objects themselves: the variables of main, and the rings they share with the
// interrupt handlers. Every method is proved to do what MainModel says, whatever runs in between.
module Firmware {
  import opened WrapTime
  import opened Health
  import opened MainModel
  import opened MainDriver
  import opened MainPorts
  import CanRecovery
  import CanTx
  import CanTxDriver
  import MainIo
  import Msp
  import MspSensors
  import PmwCounts
  import Scheduler
  import TofModel

  class Node {
    const main: MainLoop
    const ports: Ports

    /** The variables of main are apart from the rings. */
    ghost predicate Separate() {
      && main.Owned() && main.Objects() <= main.repr
      && ports.Apart() && {ports as object} + ports.Sending() + ports.Listening() + ports.OnBus() <= ports.repr
      && main.repr !! ports.repr
    }

    ghost function View(): Loop
      requires Separate()
      reads main.repr, ports.repr
    {
      main.View(ports.View())
    }

    /** What holds inside an iteration. */
    ghost predicate Sound()
      reads main.repr, ports.repr
    {
      Separate() && ports.Valid() && main.can.Valid() && main.flowPub.period > 0 && main.rangePub.period > 0
    }

    ghost predicate Valid()
      reads main.repr, ports.repr
    {
      Separate() && main.can.Numbered() && Inv(View())
    }

    /** Everything before the loop, at true time t in milliseconds and us in microseconds. */
    constructor (t: int, us: int)
      ensures Valid() && View() == Initial(t, us)
      ensures fresh(main.repr) && fresh(ports.repr)
    {
      hide Inv, Initial, MainIo.Start, MainIo.IoInv, MainLoop.View, Ports.View;
      InitialInv(t, us);
      var newPorts := new Ports();
      var newMain := new MainLoop(t, us);
      main, ports := newMain, newPorts;
    }

    // ---------------------------------------------------------------- publication

    /** The n bytes in the frame, an encoded message, to the UART ring; the result noted. */
    method Transmit(n: nat, before: seq<bool>, irqs: seq<seq<bool>>, ghost m: Msp.Message)
      requires Sound() && 0 < n <= FRAME_SIZE && main.frame[..n] == Msp.Encode(m)
      modifies main.repr, ports.repr
      ensures Sound()
      ensures var s := old(View());
              var (io, ok) := MainIo.Send(MainIo.Idle(s.io, before), m, irqs);
              View() == s.(io := io, messages := Taken(s.messages, m, ok), health := Noted(s.health, ok, UART_TX_OVERFLOW))
    {
      hide MainIo.IoInv, MainIo.Send, MainIo.Idle, Noted, Taken, Msp.Encode, MainLoop.View, Ports.View, Ports.Apart,
        Ports.Sending, Ports.Listening, Ports.OnBus, CanTxDriver.Transmitter.Valid;
      ghost var io := ports.View();
      main.WithPorts(io, io);
      ports.Idle(before);
      var ok := ports.Send(main.frame, n, m, irqs);
      main.WithPorts(ports.View(), io);
      main.NoteUart(n, ok, m, ports.View());
    }

    method SendFlow(i: Turn)
      requires Sound()
      modifies main.repr, ports.repr
      ensures Sound() && View() == FlowOut(old(View()), i)
    {
      hide MainIo.IoInv, MainIo.Send, MainIo.Idle, Noted, Taken, FlowReport, PmwCounts.FlowStep,
        MspSensors.FlowMessage, Msp.Encode, CanTxDriver.Transmitter.Valid, MainLoop.View, Ports.View, Ports.Apart,
        Ports.Sending, Ports.Listening, Ports.OnBus;
      main.WithPorts(ports.View(), ports.View());
      var sample := main.TakeReport(i, ports.View());
      var n := main.FillFlow(sample, ports.View());
      Transmit(n, i.irqs.beforeFlow, i.irqs.flowCall, MspSensors.FlowMessage(sample));
    }

    method OfferFlow(i: Turn)
      requires Sound()
      modifies main.repr
      ensures Sound() && View() == Offered(old(View()), i.busOff, CanTx.PublishFlow(old(View()).can, i.flowUs))
    {
      hide MainIo.IoInv, CanTx.Inv, CanTx.PublishFlow, Offered, MainLoop.View, Ports.View, Ports.Apart, Ports.Sending,
        Ports.Listening, Ports.OnBus;
      main.OfferFlow(i, ports.View());
    }

    /** The flow publication: the report leaves as an MSP frame and as a DroneCAN transfer. */
    method PublishFlow(i: Turn)
      requires Sound()
      modifies main.repr, ports.repr
      ensures Sound() && View() == FlowStage(old(View()), i, true)
    {
      hide MainIo.IoInv, CanTx.PublishFlow, Offered, FlowOut, FlowStage, Sound, View, MainLoop.View, Ports.View,
        Ports.Apart, Ports.Sending, Ports.Listening, Ports.OnBus;
      SoundPorts();
      FirstOverUart(View(), i);
      SendFlow(i);
      OfferFlow(i);
    }

    method SendRange(i: Turn)
      requires Sound()
      modifies main.repr, ports.repr
      ensures Sound() && View() == RangeOut(old(View()), i)
    {
      hide MainIo.IoInv, MainIo.Send, MainIo.Idle, Noted, Taken, MspSensors.RangeMessage, Msp.Encode,
        CanTxDriver.Transmitter.Valid, MainLoop.View, Ports.View, Ports.Apart, Ports.Sending, Ports.Listening,
        Ports.OnBus;
      main.WithPorts(ports.View(), ports.View());
      main.NoteRange(i, ports.View());
      var n := main.FillRange(ports.View());
      Transmit(n, i.irqs.beforeRange, i.irqs.rangeCall, MspSensors.RangeMessage(View().tof.sample));
    }

    method OfferRange(i: Turn)
      requires Sound()
      modifies main.repr
      ensures Sound() && View() == Offered(old(View()), i.busOff, CanTx.PublishRange(old(View()).can, i.rangeUs))
    {
      hide MainIo.IoInv, CanTx.Inv, CanTx.PublishRange, Offered, MainLoop.View, Ports.View, Ports.Apart,
        Ports.Sending, Ports.Listening, Ports.OnBus;
      main.OfferRange(i, ports.View());
    }

    /** The range publication: the sample leaves as an MSP frame and as a DroneCAN transfer. */
    method PublishRange(i: Turn)
      requires Sound()
      modifies main.repr, ports.repr
      ensures Sound() && View() == RangeStage(old(View()), i, true)
    {
      hide MainIo.IoInv, CanTx.PublishRange, Offered, RangeOut, RangeStage, Sound, View, MainLoop.View, Ports.View,
        Ports.Apart, Ports.Sending, Ports.Listening, Ports.OnBus;
      SoundPorts();
      FirstOverUart(View(), i);
      SendRange(i);
      OfferRange(i);
    }

    method FlowIfDue(i: Turn)
      requires Sound()
      modifies main.repr, ports.repr
      ensures Sound()
      ensures var (task, due) := Scheduler.Poll(old(View()).flowTask, Stamp(i.t));
              View() == FlowStage(old(View()).(flowTask := task), i, due)
    {
      hide MainIo.IoInv, MainIo.Idle, Stamp, Scheduler.Poll, FlowStage, CanTxDriver.Transmitter.Valid, MainLoop.View,
        Ports.View, Ports.Apart, Ports.Sending, Ports.Listening, Ports.OnBus;
      var due := main.FlowDue(i, ports.View());
      main.WithPorts(ports.View(), ports.View());
      NotDueYet(View(), i);
      if due {
        PublishFlow(i);
      } else {
        ghost var io := ports.View();
        ports.Idle(i.irqs.beforeFlow);
        main.WithPorts(ports.View(), io);
      }
    }

    method RangeIfDue(i: Turn)
      requires Sound()
      modifies main.repr, ports.repr
      ensures Sound()
      ensures var (task, due) := Scheduler.Poll(old(View()).rangeTask, Stamp(i.t));
              View() == RangeStage(old(View()).(rangeTask := task), i, due)
    {
      hide MainIo.IoInv, MainIo.Idle, Stamp, Scheduler.Poll, RangeStage, CanTxDriver.Transmitter.Valid, MainLoop.View,
        Ports.View, Ports.Apart, Ports.Sending, Ports.Listening, Ports.OnBus;
      var due := main.RangeDue(i, ports.View());
      main.WithPorts(ports.View(), ports.View());
      NotDueYet(View(), i);
      if due {
        PublishRange(i);
      } else {
        ghost var io := ports.View();
        ports.Idle(i.irqs.beforeRange);
        main.WithPorts(ports.View(), io);
      }
    }

    /** The received bytes to the parser. */
    method Listen(i: Turn)
      requires Sound()
      modifies main.repr, ports.repr
      ensures Sound() && View() == ListenStage(old(View()), i)
    {
      hide MainIo.IoInv, MainIo.ListenAll, MainIo.Idle, CanTxDriver.Transmitter.Valid, MainLoop.View, Ports.View,
        Ports.Apart, Ports.Sending, Ports.Listening, Ports.OnBus;
      ghost var io := ports.View();
      main.WithPorts(io, io);
      ports.Idle(i.irqs.atEnd);
      ports.ListenAll(i.irqs.bytes);
      main.WithPorts(ports.View(), io);
    }

    /** Both publications, each when its task is due, and the received bytes. */
    method PublishDue(i: Turn)
      requires Sound()
      modifies main.repr, ports.repr
      ensures Sound()
      ensures var (flowTask, flowDue) := Scheduler.Poll(old(View()).flowTask, Stamp(i.t));
              var (rangeTask, rangeDue) := Scheduler.Poll(old(View()).rangeTask, Stamp(i.t));
              View() == PublishStages(old(View()).(flowTask := flowTask, rangeTask := rangeTask), i, flowDue, rangeDue)
    {
      hide Stamp, Scheduler.Poll, FlowStage, RangeStage, ListenStage, MainIo.IoInv, Sound, View, MainLoop.View,
        Ports.View, Ports.Apart, Ports.Sending, Ports.Listening, Ports.OnBus;
      SoundPorts();
      ghost var s := View();
      ghost var (flowTask, flowDue) := Scheduler.Poll(s.flowTask, Stamp(i.t));
      ghost var (rangeTask, rangeDue) := Scheduler.Poll(s.rangeTask, Stamp(i.t));
      FlowIfDue(i);
      RangeTaskAside(s.(flowTask := flowTask), i, flowDue, rangeTask);
      RangeIfDue(i);
      Listen(i);
    }

    lemma SoundPorts()
      requires Sound()
      ensures Separate() && MainIo.IoInv(View().io) && View().flowTask.period > 0 && View().rangeTask.period > 0
    {
      hide MainIo.IoInv, CanTx.Inv;
      main.WithPorts(ports.View(), ports.View());
      main.PeriodsShow(ports.View());
    }

    // ---------------------------------------------------------------- the CAN bus

    method WatchBus(i: Turn)
      requires Sound()
      modifies main.repr, ports.repr
      ensures Sound() && View() == BusStage(old(View()), i)
    {
      hide Noted, Raise, Lower, Stamp, CanRecovery.Step, MainIo.IoInv, MainIo.Flags, MainIo.Recovered,
        CanTxDriver.Transmitter.Valid, MainLoop.View, Ports.View, Ports.Apart, Ports.Sending, Ports.Listening,
        Ports.OnBus;
      ghost var io := ports.View();
      main.WithPorts(io, io);
      var overflow := ports.TakeFlags(i.irqs.can);
      var reinit := main.FlagBus(i, overflow, io);
      ports.Recover(i.irqs.can, reinit);
      main.WithPorts(ports.View(), io);
    }

    /** dronecan_poll, with the frames it pops. */
    method Poll(i: Turn)
      requires Sound()
      modifies main.repr, ports.repr
      ensures Sound() && View() == TakeStage(PollStage(old(View()), i))
    {
      hide Noted, CanTx.Poll, CanTx.Take, MainIo.IoInv, MainIo.Polled, PollWith, CanTx.Inv, MainLoop.View, Ports.View,
        Ports.Apart, Ports.Sending, Ports.Listening, Ports.OnBus;
      ghost var io := ports.View();
      main.WithPorts(io, io);
      var n := ports.PollRx(i.irqs.can);
      main.WithPorts(ports.View(), io);
      main.PollCan(PollWith(i, n), ports.View());
    }

    // ---------------------------------------------------------------- one iteration

    method StepSensors(i: Turn)
      requires Sound() && TofModel.Inv(View().tof)
      modifies main.repr
      ensures Sound()
      ensures var p := PmwStages(PmwOf(old(View())), i);
              var (sys, running) := TofTurn(old(View()).tof, i);
              View() == WithPmw(old(View()), p).(tof := sys, health := TofFlagged(p.health, running))
    {
      hide PmwStages, TofTurn, TofFlagged, TofModel.Inv, MainIo.IoInv, CanTxDriver.Transmitter.Valid, MainLoop.View,
        Ports.View, Ports.Apart, Ports.Sending, Ports.Listening, Ports.OnBus;
      main.SampleShows(ports.View());
      main.StepSensors(i, ports.View());
    }

    /** One iteration of the loop. */
    method Iterate(i: Turn)
      requires Valid()
      modifies main.repr, ports.repr
      ensures Valid() && View() == MainModel.Iterate(old(View()), i)
    {
      hide Inv, PmwStages, TofTurn, TofFlagged, PublishStages, BusStage, PollStage, TakeStage, Scheduler.Poll, Stamp,
        TofModel.Inv, MainIo.IoInv, Sound, View, Reports, MainLoop.View, Ports.View, Ports.Apart, Ports.Sending,
        Ports.Listening, Ports.OnBus;
      IterateReports(View(), i);
      IsSound();
      StepSensors(i);
      PublishDue(i);
      WatchBus(i);
      Poll(i);
      StillValid();
    }

    lemma IsSound()
      requires Valid()
      ensures Sound() && TofModel.Inv(View().tof)
    {
      KeptFacts(View());
      main.WithPorts(ports.View(), ports.View());
      main.PeriodsShow(ports.View());
      hide MainIo.IoInv, CanTx.Inv, TofModel.Inv, PmwInv, FlowsInv, Wired, TofModel.Classified, Read;
    }

    lemma StillValid()
      requires Sound() && Inv(View())
      ensures Valid()
    {
      hide Inv, MainIo.IoInv, CanTx.Inv;
    }
  }

  /** A due publication is first sent over the UART, which leaves the transmit side of CAN alone, and then offered. */
  lemma FirstOverUart(s: Loop, i: Turn)
    requires MainIo.IoInv(s.io)
    ensures FlowStage(s, i, true) == Offered(FlowOut(s, i), i.busOff, CanTx.PublishFlow(FlowOut(s, i).can, i.flowUs))
    ensures RangeStage(s, i, true) == Offered(RangeOut(s, i), i.busOff, CanTx.PublishRange(RangeOut(s, i).can, i.rangeUs))
  {
    hide MainIo.IoInv, FlowSent, RangeSent, FlowReport, PmwCounts.FlowStep, Noted, Taken, CanTx.Broadcast;
  }

  lemma NotDueYet(s: Loop, i: Turn)
    requires MainIo.IoInv(s.io)
    ensures FlowStage(s, i, false) == s.(io := MainIo.Idle(s.io, i.irqs.beforeFlow))
    ensures RangeStage(s, i, false) == s.(io := MainIo.Idle(s.io, i.irqs.beforeRange))
  {
    hide MainIo.IoInv, MainIo.Idle;
  }

  /** The flow publication neither reads nor writes the range task. */
  lemma RangeTaskAside(s: Loop, i: Turn, due: bool, task: Scheduler.Task)
    requires MainIo.IoInv(s.io)
    ensures FlowStage(s.(rangeTask := task), i, due) == FlowStage(s, i, due).(rangeTask := task)
    ensures FlowStage(s, i, due).rangeTask == s.rangeTask
  {
    hide Noted, Taken, Stamp, PmwCounts.FlowStep, PmwCounts.Publish, CanTx.PublishFlow, MspSensors.FlowMessage,
      MainIo.IoInv, MainIo.Idle, MainIo.Send;
  }
}
