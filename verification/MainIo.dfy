// What the main loop of app/main.c shares with interrupt handlers: the UART and CAN rings, and the MSP parser fed from
// one of them. Each function is one use the main loop makes of a ring, with the interrupts that run during it.
module MainIo {
  import opened Common
  import opened Bytes
  import UartTx
  import RxRing
  import CanRx
  import Msp
  import MspParser

  const UART_RX_BUDGET := 64
  const CAN_RX_BUDGET := 16
  const UART_RING_SIZE := 256

  /**
   * The three rings and the parser. History: the messages the parser handed over, how many CAN messages arrived, the CAN
   * frames that were admitted, in order of arrival, and the bytes that came over the UART, with the unread ones they met.
   */
  datatype Io = Io(uart: UartTx.Tx, can: CanRx.Can, rx: RxRing.Rx<byte>, parser: MspParser.Parser,
                   heard: seq<Msp.Message>, arrived: nat, admitted: seq<CanRx.Slot>, came: seq<RxRing.Met<byte>>)

  /**
   * The interrupts of one iteration. For the UART transmit half, those before and during the two calls and at the end;
   * for its receive half, the bytes that come before each access of the receive loop; for CAN, the messages that come
   * at each point where the main loop touches the ring or its flags.
   */
  datatype Irqs = Irqs(beforeFlow: seq<bool>, flowCall: seq<seq<bool>>, beforeRange: seq<bool>, rangeCall: seq<seq<bool>>,
                       atEnd: seq<bool>, bytes: seq<seq<byte>>, can: seq<CanRx.Batch>)

  function BytesAt(bytes: seq<seq<byte>>, k: nat): seq<byte> {
    if k < |bytes| then bytes[k] else []
  }

  function BatchAt(batches: seq<CanRx.Batch>, k: nat): CanRx.Batch {
    if k < |batches| then batches[k] else []
  }

  // ---------------------------------------------------------------- what every use keeps

  ghost predicate UartInv(io: Io) {
    UartTx.Inv(io.uart) && io.uart.call.Outside?
  }

  /** The parser has taken what was popped, and handed over the messages in it; the ring took the bytes that fitted. */
  ghost predicate RxInv(io: Io) {
    && RxRing.Inv(io.rx) && io.rx.pop.Outside? && |io.rx.slots| == UART_RING_SIZE
    && io.parser == MspParser.FreshAfter(io.rx.delivered)
    && io.heard == MspParser.FreshOutput(io.rx.delivered)
    && io.rx.accepted == RxRing.Fitting(io.came, UART_RING_SIZE - 1)
  }

  /** Every CAN message that arrived is accounted for, and the frames are in order of arrival. */
  ghost predicate CanCounted(io: Io) {
    && CanRx.CanInv(io.can)
    && CanRx.Slots(io.can.past) + CanRx.Unread(io.can) == io.admitted
    && io.arrived == |io.admitted| + io.can.refusedEver
  }

  ghost predicate CanInv(io: Io) {
    CanCounted(io) && io.can.rx.pop.Outside?
  }

  ghost predicate IoInv(io: Io) {
    UartInv(io) && RxInv(io) && CanInv(io)
  }

  function Start(): Io {
    Io(UartTx.Start(seq(UartTx.RING_SIZE, _ => 0)), CanRx.Start(seq(CanRx.QUEUE_SIZE, _ => CanRx.Slot(0, [], 0))),
       RxRing.Empty(seq(UART_RING_SIZE, _ => 0)), MspParser.INITIAL, [], 0, [], [])
  }

  lemma StartInv()
    ensures IoInv(Start())
  {
    CanRx.StartInv(seq(CanRx.QUEUE_SIZE, _ => CanRx.Slot(0, [], 0)));
    assert CanRx.Slots([]) == [];
    assert UartInv(Start());
    assert RxInv(Start());
  }

  // ---------------------------------------------------------------- sending a frame

  /** Interrupts while the main loop is elsewhere. */
  function Idle(io: Io, flags: seq<bool>): (r: Io)
    requires IoInv(io)
    ensures IoInv(r) && r == io.(uart := r.uart) && r.uart.frames == io.uart.frames
    ensures |UartTx.Unsent(r.uart)| == UartTx.Less(|UartTx.Unsent(io.uart)|, UartTx.Ready(flags))
  {
    UartTx.InterruptsDrain(io.uart, flags);
    io.(uart := UartTx.AfterInterrupts(io.uart, flags))
  }

  /** The bytes unsent when a call reads the tail. */
  function Met(io: Io, irqs: seq<seq<bool>>): nat
    requires IoInv(io)
  {
    UartTx.Less(|UartTx.Unsent(io.uart)|, UartTx.Ready(UartTx.At(irqs, 0)))
  }

  /**
   * platform_uart_tx on an encoded message; the second component is its result. The ring takes the frame whole, exactly
   * when it fits beside the bytes then unsent.
   */
  function Send(io: Io, m: Msp.Message, irqs: seq<seq<bool>>): (r: (Io, bool))
    requires IoInv(io)
    ensures IoInv(r.0) && r.0 == io.(uart := r.0.uart)
    ensures r.1 <==> Met(io, irqs) + |Msp.Encode(m)| <= 255
    ensures r.0.uart.frames == if r.1 then io.uart.frames + [Msp.Encode(m)] else io.uart.frames
  {
    UartTx.CallDecides(io.uart, Msp.Encode(m), irqs);
    var u := UartTx.Transmitted(io.uart, Msp.Encode(m), irqs);
    (io.(uart := u), |u.frames| > |io.uart.frames|)
  }

  // ---------------------------------------------------------------- the receive loop

  /** One byte for the parser. */
  function Fed(io: Io, b: byte): Io
    requires io.parser.Valid()
  {
    io.(parser := MspParser.Consume(io.parser, b).0, heard := io.heard + MspParser.Output1(io.parser, b))
  }

  /** The bytes that come in one turn of the receive loop, from access k of it. */
  function TurnMeets(io: Io, bytes: seq<seq<byte>>, k: nat): seq<RxRing.Met<byte>>
    requires IoInv(io)
  {
    var a := RxRing.ArriveAll(io.rx, BytesAt(bytes, k));
    RxRing.Meets(io.rx, BytesAt(bytes, k)) + RxRing.PopMeets(a, BytesAt(bytes, k + 1), BytesAt(bytes, k + 2))
  }

  /** One turn of the receive loop, from access k of it: the bytes that come meanwhile, and whether there was one. */
  function Listen(io: Io, bytes: seq<seq<byte>>, k: nat): (r: (Io, bool))
    requires IoInv(io)
    ensures r.0 == io.(rx := r.0.rx, parser := r.0.parser, heard := r.0.heard, came := io.came + TurnMeets(io, bytes, k))
  {
    var a := RxRing.ArriveAll(io.rx, BytesAt(bytes, k));
    var (b, item) := RxRing.PopWhole(a, BytesAt(bytes, k + 1), BytesAt(bytes, k + 2));
    var u := io.(rx := b, came := io.came + TurnMeets(io, bytes, k));
    if item.None? then (u, false) else (Fed(u, item.value), true)
  }

  /** The ring takes the bytes of a turn that fit. */
  lemma TurnFits(io: Io, bytes: seq<seq<byte>>, k: nat)
    requires IoInv(io)
    ensures var a := RxRing.ArriveAll(io.rx, BytesAt(bytes, k));
            RxRing.PopWhole(a, BytesAt(bytes, k + 1), BytesAt(bytes, k + 2)).0.accepted
            == RxRing.Fitting(io.came + TurnMeets(io, bytes, k), UART_RING_SIZE - 1)
  {
    var first, second, third := BytesAt(bytes, k), BytesAt(bytes, k + 1), BytesAt(bytes, k + 2);
    var a := RxRing.ArriveAll(io.rx, first);
    hide RxRing.Inv, RxRing.ArriveAll, RxRing.PopWhole, RxRing.Fitting, RxRing.Meets, RxRing.PopMeets, UartTx.Inv,
      CanCounted, MspParser.FreshAfter, MspParser.FreshOutput;
    RxRing.ArriveAllFits(io.rx, first);
    RxRing.PopWholeFits(a, second, third);
    var m, n, limit := RxRing.Meets(io.rx, first), RxRing.PopMeets(a, second, third), UART_RING_SIZE - 1;
    RxRing.FittingConcat(io.came, m + n, limit);
    RxRing.FittingConcat(m, n, limit);
    Regroup(RxRing.Fitting(io.came, limit), RxRing.Fitting(m, limit), RxRing.Fitting(n, limit));
  }

  lemma ListenKeeps(io: Io, bytes: seq<seq<byte>>, k: nat)
    requires IoInv(io)
    ensures IoInv(Listen(io, bytes, k).0)
  {
    hide RxRing.Inv, RxRing.ArriveAll, RxRing.PopWhole, RxRing.Fitting, TurnMeets, MspParser.Consume,
      MspParser.FreshAfter, MspParser.FreshOutput, MspParser.Output1, UartTx.Inv, CanRx.CanInv, CanRx.Unread;
    var a := RxRing.ArriveAll(io.rx, BytesAt(bytes, k));
    var (b, item) := RxRing.PopWhole(a, BytesAt(bytes, k + 1), BytesAt(bytes, k + 2));
    TurnFits(io, bytes, k);
    if item.Some? {
      MspParser.OneMore(io.rx.delivered, item.value);
    }
  }

  /** The loop over the received bytes, with a budget. */
  function ListenAll(io: Io, bytes: seq<seq<byte>>, k: nat, budget: nat): (r: Io)
    requires IoInv(io)
    ensures IoInv(r) && r == io.(rx := r.rx, parser := r.parser, heard := r.heard, came := r.came) && io.came <= r.came
    decreases budget
  {
    if budget == 0 then io else
      ListenKeeps(io, bytes, k);
      var (u, more) := Listen(io, bytes, k);
      if more then ListenAll(u, bytes, k + 3, budget - 1) else u
  }

  lemma ListenAllNext(io: Io, bytes: seq<seq<byte>>, k: nat, budget: nat)
    requires IoInv(io) && budget > 0
    ensures var (u, more) := Listen(io, bytes, k);
            && IoInv(u)
            && ListenAll(io, bytes, k, budget) == if more then ListenAll(u, bytes, k + 3, budget - 1) else u
  {
    hide IoInv, Listen;
    ListenKeeps(io, bytes, k);
  }

  lemma NothingHeard(io: Io, bytes: seq<seq<byte>>, k: nat)
    requires IoInv(io)
    ensures ListenAll(io, bytes, k, 0) == io
  {}

  // ---------------------------------------------------------------- whether the receive loop keeps up

  /** The bytes still to come in an iteration, from access k of its receive loop. */
  function Left(bytes: seq<seq<byte>>, k: nat): nat
    decreases |bytes| - k
  {
    if k >= |bytes| then 0 else |bytes[k]| + Left(bytes, k + 1)
  }

  lemma LeftAfterTurn(bytes: seq<seq<byte>>, k: nat)
    ensures Left(bytes, k)
         == |BytesAt(bytes, k)| + |BytesAt(bytes, k + 1)| + |BytesAt(bytes, k + 2)| + Left(bytes, k + 3)
  {
    LeftFrom(bytes, k);
    LeftFrom(bytes, k + 1);
    LeftFrom(bytes, k + 2);
    hide Left;
  }

  lemma LeftFrom(bytes: seq<seq<byte>>, k: nat)
    ensures Left(bytes, k) == |BytesAt(bytes, k)| + Left(bytes, k + 1)
  {}

  /** No byte from position n on met a full ring. */
  predicate AllFit(came: seq<RxRing.Met<byte>>, n: nat) {
    forall k :: n <= k < |came| ==> came[k].unread < UART_RING_SIZE - 1
  }

  /** The bytes of one turn. */
  lemma TurnKeepsUp(io: Io, bytes: seq<seq<byte>>, k: nat)
    requires IoInv(io) && RxRing.Waiting(io.rx) + Left(bytes, k) <= UART_RING_SIZE - 1
    ensures IoInv(Listen(io, bytes, k).0)
    ensures var (u, more) := Listen(io, bytes, k);
            && AllFit(u.came, |io.came|)
            && (!more ==> RxRing.Waiting(u.rx) == 0)
            && (more ==> RxRing.Waiting(u.rx) + Left(bytes, k + 3) <= RxRing.Waiting(io.rx) + Left(bytes, k) - 1)
  {
    hide IoInv, RxRing.Inv, RxRing.ArriveAll, RxRing.PopWhole, RxRing.Meets, RxRing.PopMeets, RxRing.Waiting, Left,
      MspParser.Consume, MspParser.Output1, MspParser.Parser.Valid;
    RxReady(io);
    ListenKeeps(io, bytes, k);
    LeftAfterTurn(bytes, k);
    var first, second, third := BytesAt(bytes, k), BytesAt(bytes, k + 1), BytesAt(bytes, k + 2);
    var a := RxRing.ArriveAll(io.rx, first);
    RxRing.ArrivalsMeet(io.rx, first);
    RxRing.PopMeetsBound(a, second, third);
  }

  lemma RxReady(io: Io)
    requires IoInv(io)
    ensures RxRing.Inv(io.rx) && io.rx.pop.Outside? && io.parser.Valid()
  {
    hide UartInv, CanInv, RxRing.Inv, MspParser.FreshOutput;
  }

  /**
   * If the unread bytes and those to come fit into the ring, none is refused, and the loop leaves no more unread than
   * exceed its budget.
   */
  lemma {:induction false} LoopKeepsUp(io: Io, bytes: seq<seq<byte>>, k: nat, budget: nat)
    requires IoInv(io) && RxRing.Waiting(io.rx) + Left(bytes, k) <= UART_RING_SIZE - 1
    ensures var u := ListenAll(io, bytes, k, budget);
            && IoInv(u) && RxRing.Inv(u.rx) && AllFit(u.came, |io.came|)
            && RxRing.Waiting(u.rx) <= UartTx.Less(RxRing.Waiting(io.rx) + Left(bytes, k), budget)
    decreases budget
  {
    hide *;
    RxReady(io);
    if budget == 0 {
      NothingHeard(io, bytes, k);
      NoneSince(io.came);
      LessAtMost(RxRing.Waiting(io.rx), RxRing.Waiting(io.rx) + Left(bytes, k), 0);
    } else {
      ListenAllNext(io, bytes, k, budget);
      TurnKeepsUp(io, bytes, k);
      var (u, more) := Listen(io, bytes, k);
      RxReady(u);
      if more {
        LoopKeepsUp(u, bytes, k + 3, budget - 1);
        LessStep(RxRing.Waiting(u.rx) + Left(bytes, k + 3), RxRing.Waiting(io.rx) + Left(bytes, k), budget);
        AllFitExtends(u.came, ListenAll(u, bytes, k + 3, budget - 1).came, |io.came|);
      }
    }
  }

  lemma LessAtMost(n: nat, m: nat, k: nat)
    requires n + k <= m
    ensures n <= UartTx.Less(m, k)
  {}

  lemma LessStep(n: nat, m: nat, k: nat)
    requires n + 1 <= m && k > 0
    ensures UartTx.Less(n, k - 1) <= UartTx.Less(m, k)
  {}

  lemma NoneSince(came: seq<RxRing.Met<byte>>)
    ensures AllFit(came, |came|)
  {}

  lemma AllFitExtends(a: seq<RxRing.Met<byte>>, b: seq<RxRing.Met<byte>>, n: nat)
    requires a <= b && n <= |a| && AllFit(a, n) && AllFit(b, |a|)
    ensures AllFit(b, n)
  {}

  // ---------------------------------------------------------------- the CAN ring

  /** The CAN handler, from start to end. */
  function CanIrq(io: Io, batch: CanRx.Batch): (r: Io)
    requires CanCounted(io)
    ensures CanCounted(r) && r.can.rx.pop == io.can.rx.pop && r.can.past == io.can.past
    ensures r.can.refused - io.can.refused == (r.arrived - io.arrived) - (|r.admitted| - |io.admitted|) >= 0
    ensures r == io.(can := r.can, arrived := r.arrived, admitted := r.admitted)
  {
    CanRx.ReceiveAllExactly(io.can, batch);
    Regroup(CanRx.Slots(io.can.past), CanRx.Unread(io.can), CanRx.BatchAdmits(io.can, batch));
    io.(can := CanRx.ReceiveAll(io.can, batch), arrived := io.arrived + |batch|,
        admitted := io.admitted + CanRx.BatchAdmits(io.can, batch))
  }

  /** The next memory access of a pop. */
  function Accessed(io: Io): (r: Io)
    requires CanCounted(io)
    ensures CanCounted(r) && r == io.(can := CanRx.Access(io.can)) && r.can.refused == io.can.refused
  {
    CanRx.AccessExactly(io.can);
    io.(can := CanRx.Access(io.can))
  }

  function TakeActivity(io: Io): (r: Io)
    requires CanInv(io)
    ensures CanInv(r) && r == io.(can := r.can) && r.can.refused == io.can.refused
  {
    CanRx.FlagsOnly(io.can, CanRx.TakeActivity);
    io.(can := io.can.(activity := false))
  }

  function TakeOverflow(io: Io): (r: Io)
    requires CanInv(io)
    ensures CanInv(r) && r == io.(can := r.can) && r.can.refused == 0
  {
    CanRx.FlagsOnly(io.can, CanRx.TakeOverflow);
    io.(can := CanRx.Taken(io.can))
  }

  function Reinitialise(io: Io): (r: Io)
    requires CanInv(io)
    ensures CanInv(r) && r.can.refused == io.can.refused
  {
    CanRx.ClearedExactly(io.can);
    io.(can := CanRx.Cleared(io.can))
  }

  /** One platform_can_rx_pop: interrupts before it looks, after it has looked, and after it has copied the frame. */
  function PopOne(io: Io, batches: seq<CanRx.Batch>, k: nat): (r: (Io, bool))
    requires CanInv(io)
    ensures CanInv(r.0) && r.0.can.refused >= io.can.refused
    ensures r.0 == io.(can := r.0.can, arrived := r.0.arrived, admitted := r.0.admitted)
    ensures |r.0.can.past| == |io.can.past| + (if r.1 then 1 else 0)
  {
    var a := CanIrq(io, BatchAt(batches, k));
    if a.can.rx.head == a.can.rx.tail then (a, false) else
      var b := CanIrq(Accessed(a), BatchAt(batches, k + 1));
      var c := CanIrq(Accessed(b), BatchAt(batches, k + 2));
      (Accessed(c), true)
  }

  /** The receive loop of dronecan_poll: the frames popped, at most 16. */
  function PopAll(io: Io, batches: seq<CanRx.Batch>, k: nat, budget: nat): (r: (Io, nat))
    requires CanInv(io)
    ensures CanInv(r.0) && r.0.can.refused >= io.can.refused
    ensures r.0 == io.(can := r.0.can, arrived := r.0.arrived, admitted := r.0.admitted)
    ensures r.1 <= budget && |r.0.can.past| == |io.can.past| + r.1
    decreases budget
  {
    if budget == 0 then (io, 0) else
      var (u, found) := PopOne(io, batches, k);
      if !found then (u, 0) else
        var (v, n) := PopAll(u, batches, k + 3, budget - 1);
        (v, n + 1)
  }

  /**
   * The flags taken, with interrupts before each. The second component is the overflow flag: it is set exactly when a
   * message was refused since it was last taken, before or during this.
   */
  function Flags(io: Io, batches: seq<CanRx.Batch>): (r: (Io, bool))
    requires IoInv(io)
    ensures IoInv(r.0) && r.0 == io.(can := r.0.can, arrived := r.0.arrived, admitted := r.0.admitted)
    ensures r.0.can.refused == 0
    ensures r.1 <==> io.can.refused > 0 || r.0.arrived - io.arrived > |r.0.admitted| - |io.admitted|
  {
    hide CanIrq, TakeActivity, TakeOverflow, CanCounted, UartTx.Inv, RxRing.Inv, MspParser.FreshAfter,
      MspParser.FreshOutput;
    var a := CanIrq(TakeActivity(CanIrq(io, BatchAt(batches, 0))), BatchAt(batches, 1));
    OverflowMeans(a);
    (TakeOverflow(a), a.can.overflow)
  }

  lemma OverflowMeans(io: Io)
    requires CanCounted(io)
    ensures io.can.overflow <==> io.can.refused > 0
  {
    hide CanRx.PoppedOf, CanRx.Unread, CanRx.Slots, RxRing.Inv;
  }

  /** The controller reinitialised or not, with interrupts before. */
  function Recovered(io: Io, batches: seq<CanRx.Batch>, reinit: bool): (r: Io)
    requires IoInv(io)
    ensures IoInv(r) && r == io.(can := r.can, arrived := r.arrived, admitted := r.admitted)
  {
    var a := CanIrq(io, BatchAt(batches, 2));
    if reinit then Reinitialise(a) else a
  }

  /** The pops of dronecan_poll; the number of frames got. */
  function Polled(io: Io, batches: seq<CanRx.Batch>): (r: (Io, nat))
    requires IoInv(io)
    ensures IoInv(r.0) && r.0 == io.(can := r.0.can, arrived := r.0.arrived, admitted := r.0.admitted)
    ensures r.1 <= CAN_RX_BUDGET
  {
    PopAll(io, batches, 3, CAN_RX_BUDGET)
  }
}
