// The MSP link over whole runs of the main loop: what the host reads of the reports the loop offered, and what the
// loop's parser makes of the bytes the UART received.
module HostLink {
  import opened Common
  import opened Bytes
  import opened MainModel
  import opened MainRuns
  import Msp
  import MspParser
  import MspSensors
  import MspWire
  import Ring
  import RxRing
  import UartTx
  import CanRecovery
  import CanTx
  import MainIo
  import PmwCounts
  import TofModel
  import opened Health

  // ---------------------------------------------------------------- to the host

  /** The bytes sent are the first of the accepted ones, and all of them once the ring is empty. */
  lemma SentOfFrames(u: UartTx.Tx)
    requires UartTx.Inv(u)
    ensures u.sent <= UartTx.Flatten(u.frames)
    ensures u.head == u.tail ==> u.sent == UartTx.Flatten(u.frames)
  {
    hide UartTx.Flatten, Ring.Contents;
    Ring.ContentsEmpty(u.buffer, u.head, u.tail);
  }

  /**
   * With the frames of a list of messages in the ring: what a fresh parser makes of the bytes sent so far is a prefix
   * of the list, and the whole list once the ring is empty.
   */
  lemma SentIsRead(u: UartTx.Tx, messages: seq<Msp.Message>)
    requires UartTx.Inv(u) && u.frames == MspWire.Encoded(messages) && MspWire.AllValid(messages)
    ensures MspParser.FreshOutput(u.sent) <= messages
    ensures u.head == u.tail ==> MspParser.FreshOutput(u.sent) == messages
  {
    hide MspParser.Output, UartTx.Flatten, UartTx.Inv, MspWire.Encoded, MspWire.AllValid, MspParser.INITIAL;
    SentOfFrames(u);
    MspWire.FramesRead(messages);
    MspWire.PartRead(u.sent, UartTx.Flatten(u.frames));
  }

  /**
   * The same for the ring alone: whatever the interleaving of calls, their memory accesses and the USART interrupt,
   * with the frames accepted being those of a list of messages.
   */
  lemma HostReadsPrefix(buffer: seq<byte>, events: seq<UartTx.Event>, messages: seq<Msp.Message>)
    requires |buffer| == UartTx.RING_SIZE && MspWire.AllValid(messages)
    requires UartTx.Inv(UartTx.Start(buffer))
    requires UartTx.Run(UartTx.Start(buffer), events).frames == MspWire.Encoded(messages)
    ensures var t := UartTx.Run(UartTx.Start(buffer), events);
            && MspParser.FreshOutput(t.sent) <= messages
            && (t.head == t.tail ==> MspParser.FreshOutput(t.sent) == messages)
  {
    hide UartTx.Run, UartTx.Inv, UartTx.Start, MspWire.Encoded, MspWire.AllValid, MspParser.FreshOutput;
    UartTx.RunKeepsInv(UartTx.Start(buffer), events);
    SentIsRead(UartTx.Run(UartTx.Start(buffer), events), messages);
  }

  lemma UartKept(s: Loop)
    requires Inv(s)
    ensures UartTx.Inv(s.io.uart) && s.io.uart.frames == MspWire.Encoded(s.messages) && MspWire.AllValid(s.messages)
  {
    hide MainIo.RxInv, MainIo.CanInv, CanTx.Inv, PmwInv, FlowsInv, UartTx.Inv, TofModel.Inv, TofModel.Classified, Read,
      MspWire.AllValid, MspWire.Encoded;
  }

  /** The reports of an iteration that the ring takes: those due that meet at most 255 bytes with their own. */
  ghost function Accepted(s: Loop, i: Turn): seq<Msp.Message>
    requires Inv(s)
  {
    var a := Sensed(s, i);
    var b := FlowStage(a, i, FlowDue(s, i));
    (if FlowDue(s, i) && FlowMeets(a, i) + FLOW_FRAME <= 255 then [MspSensors.FlowMessage(FlowReport(a, i))] else [])
    + (if RangeDue(s, i) && RangeMeets(b, i) + RANGE_FRAME <= 255 then [MspSensors.RangeMessage(a.tof.sample)] else [])
  }

  lemma FlowStageAccepts(s: Loop, i: Turn, due: bool)
    requires MainIo.IoInv(s.io)
    ensures var u := FlowStage(s, i, due);
            && u.tof == s.tof
            && u.messages == s.messages + (if due && FlowMeets(s, i) + FLOW_FRAME <= 255
                                           then [MspSensors.FlowMessage(FlowReport(s, i))] else [])
  {
    hide MainIo.IoInv, FlowMeets, FlowSent, FlowReport, MspSensors.FlowMessage, Noted, CanTx.PublishFlow,
      PmwCounts.FlowStep, MainIo.Idle;
    FramesFit(s, i);
  }

  lemma RangeStageAccepts(s: Loop, i: Turn, due: bool)
    requires MainIo.IoInv(s.io)
    ensures RangeStage(s, i, due).messages
         == s.messages + (if due && RangeMeets(s, i) + RANGE_FRAME <= 255
                          then [MspSensors.RangeMessage(s.tof.sample)] else [])
  {
    hide MainIo.IoInv, RangeMeets, RangeSent, MspSensors.RangeMessage, Noted, CanTx.PublishRange, MainIo.Idle;
    FramesFit(s, i);
  }

  /** An iteration's accepted messages are its due reports, the flow report first, without those that met too much. */
  lemma MessagesNext(s: Loop, i: Turn)
    requires Inv(s)
    ensures Iterate(s, i).messages == s.messages + Accepted(s, i)
  {
    hide Kept, Runnable, SensorStages, FlowStage, RangeStage, FlowMeets, RangeMeets, BusStages, TakeStage, MainIo.IoInv,
      TofTurn, PmwStages, TofFlagged, FlowReport, FlowDue, RangeDue, MspSensors.FlowMessage, MspSensors.RangeMessage,
      MainIo.ListenAll, MainIo.Idle, CanRecovery.Step;
    KeptFacts(s);
    SensorStagesShape(s, i);
    DueInSensorStages(s, i);
    var (a, flowDue, rangeDue) := SensorStages(s, i);
    FlowStageAccepts(a, i, flowDue);
    var b := FlowStage(a, i, flowDue);
    RangeStageAccepts(b, i, rangeDue);
    BusStagesShape(PublishStages(a, i, flowDue, rangeDue), i);
  }

  /** The reports the ring takes over a run. */
  ghost function AllAccepted(s: Loop, turns: seq<Turn>): seq<Msp.Message>
    requires Inv(s)
    decreases turns
  {
    if turns == [] then [] else
      IterateReports(s, turns[0]);
      Accepted(s, turns[0]) + AllAccepted(Iterate(s, turns[0]), turns[1..])
  }

  lemma {:induction false} MessagesAreAccepted(s: Loop, turns: seq<Turn>)
    requires Inv(s)
    ensures Run(s, turns).messages == s.messages + AllAccepted(s, turns)
    decreases turns
  {
    hide Inv, Iterate, Reports, Accepted;
    if turns != [] {
      IterateReports(s, turns[0]);
      MessagesNext(s, turns[0]);
      MessagesAreAccepted(Iterate(s, turns[0]), turns[1..]);
      Regroup(s.messages, Accepted(s, turns[0]), AllAccepted(Iterate(s, turns[0]), turns[1..]));
    }
  }

  /**
   * The whole way, from power-on: whatever happens to the sensors and the CAN bus, and however the USART interrupt
   * cuts into the main loop, the frames in the UART ring are those of the due reports that met enough room, in order;
   * the host has read a prefix of these reports, and all of them once the ring has drained.
   */
  lemma HostFollowsMainLoop(t: int, us: int, turns: seq<Turn>)
    ensures Inv(Initial(t, us))
    ensures var u := Run(Initial(t, us), turns).io.uart;
            var reports := AllAccepted(Initial(t, us), turns);
            && u.frames == MspWire.Encoded(reports)
            && MspParser.FreshOutput(u.sent) <= reports
            && (u.head == u.tail ==> MspParser.FreshOutput(u.sent) == reports)
  {
    hide Run, Inv, Initial, UartTx.Inv, MspWire.AllValid, MspWire.Encoded, MspParser.FreshOutput, AllAccepted;
    InitialInv(t, us);
    RunKeepsInv(Initial(t, us), turns);
    MessagesFromPowerOn(t, us, turns);
    HostFollows(Run(Initial(t, us), turns));
  }

  lemma HostFollows(s: Loop)
    requires Inv(s)
    ensures s.io.uart.frames == MspWire.Encoded(s.messages)
    ensures MspParser.FreshOutput(s.io.uart.sent) <= s.messages
    ensures s.io.uart.head == s.io.uart.tail ==> MspParser.FreshOutput(s.io.uart.sent) == s.messages
  {
    hide Inv, UartTx.Inv, MspWire.AllValid, MspWire.Encoded, MspParser.FreshOutput;
    UartKept(s);
    SentIsRead(s.io.uart, s.messages);
  }

  lemma MessagesFromPowerOn(t: int, us: int, turns: seq<Turn>)
    requires Inv(Initial(t, us))
    ensures Run(Initial(t, us), turns).messages == AllAccepted(Initial(t, us), turns)
  {
    NothingSentYet(t, us);
    hide Run, Inv, Initial, AllAccepted;
    MessagesAreAccepted(Initial(t, us), turns);
  }

  lemma NothingSentYet(t: int, us: int)
    ensures Initial(t, us).messages == []
  {}

  // ---------------------------------------------------------------- from the host

  /**
   * Under every interleaving of the receive interrupt with the pops, what the parser has handed over is a prefix of
   * the messages of the grammar in the bytes the ring took.
   */
  lemma ParserFollowsRing(slots: seq<byte>, events: seq<RxRing.Event<byte>>)
    requires |slots| > 0
    ensures RxRing.Inv(RxRing.Empty(slots))
    ensures MspParser.FreshOutput(RxRing.Run(RxRing.Empty(slots), events).delivered)
         <= Msp.Messages(RxRing.Admitted(RxRing.Empty(slots), events))
  {
    RxRing.FifoUnderInterleaving(slots, events);
    hide RxRing.Run, RxRing.Admitted, RxRing.Inv, MspParser.Output, MspParser.After, MspParser.INITIAL, Msp.Messages;
    var whole := RxRing.Admitted(RxRing.Empty(slots), events);
    MspWire.PartRead(RxRing.Run(RxRing.Empty(slots), events).delivered, whole);
    MspParser.StreamDecodes(whole);
  }

  /** The bytes that came and were taken: those that met fewer than 255 unread. */
  function TakenOf(came: seq<RxRing.Met<byte>>): seq<byte> {
    RxRing.Fitting(came, MainIo.UART_RING_SIZE - 1)
  }

  lemma RxKept(s: Loop)
    requires Inv(s)
    ensures s.io.rx.delivered <= TakenOf(s.io.came) && s.io.heard == MspParser.FreshOutput(s.io.rx.delivered)
    ensures RxRing.Inv(s.io.rx) && s.io.rx.accepted == TakenOf(s.io.came)
  {
    hide MainIo.UartInv, MainIo.CanInv, CanTx.Inv, PmwInv, FlowsInv, Wired, TofModel.Inv, TofModel.Classified, Read,
      MspParser.FreshOutput, MspParser.FreshAfter, RxRing.Fitting, Ring.Contents;
  }

  /**
   * In every reachable state of the main loop: of the bytes that came over the UART the receive ring took, in order,
   * exactly those that met fewer than 255 unread; the messages the parser has handed over are those of the grammar in the
   * bytes popped so far, and a prefix of those in the bytes taken.
   */
  lemma ParserFollowsMainLoop(t: int, us: int, turns: seq<Turn>)
    ensures Inv(Initial(t, us))
    ensures var io := Run(Initial(t, us), turns).io;
            && io.rx.accepted == TakenOf(io.came)
            && io.heard == Msp.Messages(io.rx.delivered) && io.heard <= Msp.Messages(TakenOf(io.came))
  {
    hide Run, Inv, Initial, MspParser.Output, MspParser.After, MspParser.INITIAL, Msp.Messages, RxRing.Inv, TakenOf;
    InitialInv(t, us);
    RunKeepsInv(Initial(t, us), turns);
    var io := Run(Initial(t, us), turns).io;
    RxKept(Run(Initial(t, us), turns));
    MspParser.StreamDecodes(io.rx.delivered);
    MspParser.StreamDecodes(TakenOf(io.came));
    MspWire.PartRead(io.rx.delivered, TakenOf(io.came));
  }

  // ---------------------------------------------------------------- no byte is lost

  lemma PublishedIo(s: Loop, i: Turn, flowDue: bool, rangeDue: bool) returns (io: MainIo.Io)
    requires MainIo.IoInv(s.io)
    ensures MainIo.IoInv(io) && io.rx == s.io.rx && io.came == s.io.came
    ensures PublishStages(s, i, flowDue, rangeDue).io == MainIo.ListenAll(io, i.irqs.bytes, 0, MainIo.UART_RX_BUDGET)
  {
    hide MainIo.IoInv, MainIo.Idle, MainIo.Send, MainIo.ListenAll, Noted, Taken, FlowReport, CanTx.PublishFlow,
      CanTx.PublishRange, PmwCounts.FlowStep, MspSensors.FlowMessage, MspSensors.RangeMessage;
    io := MainIo.Idle(RangeStage(FlowStage(s, i, flowDue), i, rangeDue).io, i.irqs.atEnd);
  }

  /** All of an iteration's receiving is its receive loop. */
  lemma ReceiveNext(s: Loop, i: Turn) returns (io: MainIo.Io)
    requires Inv(s)
    ensures MainIo.IoInv(io) && io.rx == s.io.rx && io.came == s.io.came
    ensures var u := MainIo.ListenAll(io, i.irqs.bytes, 0, MainIo.UART_RX_BUDGET);
            Iterate(s, i).io.rx == u.rx && Iterate(s, i).io.came == u.came
  {
    hide Kept, Runnable, SensorStages, PublishStages, TakeStage, MainIo.IoInv, TofTurn, PmwStages, TofFlagged,
      MainIo.ListenAll, CanRecovery.Step;
    KeptFacts(s);
    SensorStagesShape(s, i);
    var (a, flowDue, rangeDue) := SensorStages(s, i);
    io := PublishedIo(a, i, flowDue, rangeDue);
    BusLeavesRx(PublishStages(a, i, flowDue, rangeDue), i);
  }

  lemma BusLeavesRx(s: Loop, i: Turn)
    requires MainIo.IoInv(s.io)
    ensures var u := TakeStage(BusStages(s, i)).io; u.rx == s.io.rx && u.came == s.io.came
  {
    hide Noted, Raise, Lower, CanRecovery.Step, CanTx.Poll, CanTx.Take, MainIo.IoInv, MainIo.Flags, MainIo.Recovered,
      MainIo.Polled, PollWith;
  }

  /** At most 64 bytes come in each iteration. */
  predicate Modest(turns: seq<Turn>) {
    forall k :: 0 <= k < |turns| ==> MainIo.Left(turns[k].irqs.bytes, 0) <= MainIo.UART_RX_BUDGET
  }

  /** Nothing unread between iterations, and no byte has met a full ring. */
  ghost predicate CaughtUp(s: Loop) {
    RxRing.Inv(s.io.rx) && RxRing.Waiting(s.io.rx) == 0 && MainIo.AllFit(s.io.came, 0)
  }

  lemma StaysCaughtUp(s: Loop, i: Turn)
    requires Inv(s) && CaughtUp(s) && MainIo.Left(i.irqs.bytes, 0) <= MainIo.UART_RX_BUDGET
    ensures CaughtUp(Iterate(s, i))
  {
    hide Inv, Iterate, RxRing.Inv, RxRing.Waiting, MainIo.IoInv, MainIo.ListenAll, MainIo.Left, MainIo.AllFit;
    var io := ReceiveNext(s, i);
    MainIo.LoopKeepsUp(io, i.irqs.bytes, 0, MainIo.UART_RX_BUDGET);
    var u := MainIo.ListenAll(io, i.irqs.bytes, 0, MainIo.UART_RX_BUDGET);
    MainIo.AllFitExtends(io.came, u.came, 0);
  }

  lemma {:induction false} RunCaughtUp(s: Loop, turns: seq<Turn>)
    requires Inv(s) && CaughtUp(s) && Modest(turns)
    ensures CaughtUp(Run(s, turns))
    decreases turns
  {
    hide Inv, Iterate, Reports, CaughtUp, MainIo.Left;
    if turns != [] {
      IterateReports(s, turns[0]);
      StaysCaughtUp(s, turns[0]);
      assert Modest(turns[1..]);
      RunCaughtUp(Iterate(s, turns[0]), turns[1..]);
    }
  }

  function AllBytes(came: seq<RxRing.Met<byte>>): (r: seq<byte>)
    ensures |r| == |came|
  {
    seq(|came|, k requires 0 <= k < |came| => came[k].item)
  }

  lemma {:induction false} AllTaken(came: seq<RxRing.Met<byte>>)
    requires MainIo.AllFit(came, 0)
    ensures TakenOf(came) == AllBytes(came)
    decreases came
  {
    if came != [] {
      AllTaken(came[1..]);
      assert AllBytes(came) == [came[0].item] + AllBytes(came[1..]);
    }
  }

  /**
   * The receive loop keeps up: if at most 64 bytes come over the UART in each iteration, the ring takes every byte, all
   * are popped by the end of the iteration, and the messages handed over are those in all the bytes that came.
   */
  lemma NoByteLost(t: int, us: int, turns: seq<Turn>)
    requires Modest(turns)
    ensures Inv(Initial(t, us))
    ensures var io := Run(Initial(t, us), turns).io;
            io.rx.delivered == AllBytes(io.came) && io.heard == Msp.Messages(AllBytes(io.came))
  {
    StartCaughtUp(t, us);
    hide Run, Inv, Initial, Modest, Msp.Messages, TakenOf, RxRing.Inv, RxRing.Waiting, MainIo.AllFit;
    InitialInv(t, us);
    RunKeepsInv(Initial(t, us), turns);
    RunCaughtUp(Initial(t, us), turns);
    var io := Run(Initial(t, us), turns).io;
    RxKept(Run(Initial(t, us), turns));
    RxRing.WaitingCounts(io.rx);
    ParserFollowsMainLoop(t, us, turns);
    AllTaken(io.came);
    assert io.rx.delivered == TakenOf(io.came);
  }

  lemma StartCaughtUp(t: int, us: int)
    ensures CaughtUp(Initial(t, us))
  {}
}
