// The rings, their flags and the MSP parser as main and the drivers it calls use them, updated in place. Every method
// is proved to do what MainIo says, with the interrupts that run at each point of it.
module MainPorts {
  import opened Common
  import opened Bytes
  import opened CanRx
  import opened MainIo
  import opened MspReceiver
  import Msp
  import MspParser
  import RxRing
  import UartTx

  ghost function ListenerParts(rx: RxRing.RxQueue<byte>, parser: Receiver, received: FrameBuffer): set<object> {
    {rx, rx.slots, parser, parser.frame, parser.frame.payload, received, received.payload}
  }

  method NewListener() returns (rx: RxRing.RxQueue<byte>, parser: Receiver, received: FrameBuffer)
    ensures fresh(ListenerParts(rx, parser, received))
    ensures {rx as object, rx.slots} !! {parser as object, parser.frame, parser.frame.payload, received, received.payload}
    ensures received != parser.frame && received.payload != parser.frame.payload
    ensures received.payload.Length == Msp.MAX_PAYLOAD
    ensures rx.View() == RxRing.Empty(seq(UART_RING_SIZE, _ => 0)) && parser.View() == MspParser.INITIAL
  {
    hide RxRing.Inv, MspParser.INITIAL;
    rx := new RxRing.RxQueue<byte>(UART_RING_SIZE, 0);
    parser := new Receiver();
    received := new FrameBuffer();
  }

  class Ports {
    const uart: UartTx.Uart
    const canRx: CanReceiver
    const uartRx: RxRing.RxQueue<byte>
    const parser: Receiver
    const received: FrameBuffer
    ghost const repr: set<object>
    ghost var heard: seq<Msp.Message>
    ghost var came: seq<RxRing.Met<byte>>
    ghost var arrived: nat
    ghost var admitted: seq<Slot>

    ghost function Sending(): set<object> {
      {uart, uart.uartTx}
    }

    ghost function Listening(): set<object> {
      ListenerParts(uartRx, parser, received)
    }

    ghost function OnBus(): set<object> {
      {canRx, canRx.queue, canRx.queue.slots}
    }

    /** The objects of the three halves are distinct, and together they are the representation. */
    ghost predicate Apart() {
      && Sending() !! Listening() && Sending() !! OnBus() && Listening() !! OnBus()
      && this !in Sending() && this !in Listening() && this !in OnBus()
      && {uartRx as object, uartRx.slots} !! {parser as object, parser.frame, parser.frame.payload, received, received.payload}
      && received != parser.frame && received.payload != parser.frame.payload
      && received.payload.Length == Msp.MAX_PAYLOAD
      && repr == {this} + Sending() + Listening() + OnBus()
    }

    ghost function View(): Io
      requires Apart()
      reads repr
    {
      Io(uart.View(), canRx.View(), uartRx.View(), parser.View(), heard, arrived, admitted, came)
    }

    ghost predicate Valid()
      reads repr
    {
      Apart() && IoInv(View())
    }

    constructor ()
      ensures Valid() && View() == MainIo.Start() && fresh(repr)
    {
      hide IoInv, UartTx.Inv, RxRing.Inv, CanRx.CanInv, MspParser.INITIAL;
      var newUart := new UartTx.Uart();
      ghost var sending: set<object> := {newUart, newUart.uartTx};
      var newCanRx := new CanReceiver(Slot(0, [], 0));
      ghost var onBus: set<object> := {newCanRx, newCanRx.queue, newCanRx.queue.slots};
      assert sending !! onBus;
      var newRx, newParser, newFrame := NewListener();
      ghost var listening: set<object> := ListenerParts(newRx, newParser, newFrame);
      assert sending !! listening && listening !! onBus;
      uart, canRx, uartRx, parser, received := newUart, newCanRx, newRx, newParser, newFrame;
      repr := {this} + sending + listening + onBus;
      heard, arrived, admitted, came := [], 0, [], [];
      new;
      assert Sending() == sending && Listening() == listening && OnBus() == onBus;
      MainIo.StartInv();
    }

    // ---------------------------------------------------------------- sending

    /** Interrupts while the main loop is elsewhere. */
    method Idle(flags: seq<bool>)
      requires Valid()
      modifies Sending()
      ensures Valid() && View() == MainIo.Idle(old(View()), flags)
    {
      hide IoInv, UartTx.AfterInterrupts;
      assert UartTx.Inv(uart.View()) by { UartPart(View()); }
      ghost var io := View();
      uart.Interrupted(flags);
      assert View() == MainIo.Idle(io, flags);
    }

    /** platform_uart_tx on the first n bytes of the frame, an encoded message. */
    method Send(frame: array<byte>, n: nat, ghost m: Msp.Message, irqs: seq<seq<bool>>) returns (ok: bool)
      requires Valid() && frame !in repr && n <= frame.Length && frame[..n] == Msp.Encode(m)
      modifies Sending()
      ensures Valid() && (View(), ok) == MainIo.Send(old(View()), m, irqs)
    {
      hide IoInv, UartTx.Transmitted, Msp.Encode, UartTx.Inv;
      ghost var io := View();
      UartPart(io);
      ok := uart.UartTransmit(frame, n, irqs);
      assert View() == MainIo.Send(io, m, irqs).0;
    }

    // ---------------------------------------------------------------- the receive loop

    /** One byte to the parser. */
    method Feed(b: byte)
      requires Apart() && parser.Valid()
      modifies this`heard, parser, parser.frame, parser.frame.payload, received, received.payload
      ensures View() == Fed(old(View()), b)
    {
      hide MspParser.Consume, MspParser.Parser.Valid;
      heard := heard + MspParser.Output1(parser.View(), b);
      var _ := parser.Consume(b, received);
    }

    /** One turn of the loop over received bytes, with the bytes that come before each access. */
    method Listen(bytes: seq<seq<byte>>, ghost k: nat, before: seq<byte>, found: seq<byte>, took: seq<byte>)
      returns (more: bool)
      requires Valid() && before == BytesAt(bytes, k) && found == BytesAt(bytes, k + 1) && took == BytesAt(bytes, k + 2)
      modifies this`heard, this`came, Listening()
      ensures Valid() && (View(), more) == MainIo.Listen(old(View()), bytes, k)
    {
      hide IoInv, RxRing.Inv, RxRing.ArriveAll, RxRing.PopWhole, TurnMeets, MspParser.Consume, MspParser.Parser.Valid,
        MainIo.Fed;
      ghost var io := View();
      RxPart(io);
      ListenKeeps(io, bytes, k);
      came := came + TurnMeets(io, bytes, k);
      uartRx.Interrupts(before);
      var item := uartRx.PopItem(found, took);
      more := item.Some?;
      if more {
        Feed(item.value);
      }
    }

    /** At most 64 received bytes to the parser. */
    method ListenAll(bytes: seq<seq<byte>>)
      requires Valid()
      modifies this`heard, this`came, Listening()
      ensures Valid() && View() == MainIo.ListenAll(old(View()), bytes, 0, UART_RX_BUDGET)
    {
      hide Apart, View, IoInv, Listening, MainIo.Listen, MainIo.ListenAll;
      var count, more := 0, true;
      while count < UART_RX_BUDGET && more
        invariant count <= UART_RX_BUDGET && Valid()
        invariant MainIo.ListenAll(old(View()), bytes, 0, UART_RX_BUDGET) ==
                  if more then MainIo.ListenAll(View(), bytes, 3 * count, UART_RX_BUDGET - count) else View()
      {
        var k := 3 * count;
        ListenAllNext(View(), bytes, k, UART_RX_BUDGET - count);
        more := Listen(bytes, k, BytesAt(bytes, k), BytesAt(bytes, k + 1), BytesAt(bytes, k + 2));
        count := count + 1;
      }
      if more {
        NothingHeard(View(), bytes, 3 * count);
      }
    }

    // ---------------------------------------------------------------- the CAN ring and its flags

    /** The CAN handler, from start to end. */
    method CanIrq(batch: Batch)
      requires Apart() && CanCounted(View())
      modifies this`arrived, this`admitted, canRx`canOverflow, canRx`canActivity, canRx`refused, canRx`refusedEver,
        canRx.queue`head, canRx.queue`accepted, canRx.queue.slots
      ensures View() == MainIo.CanIrq(old(View()), batch)
      ensures CanCounted(View())
    {
      hide CanRx.CanInv, CanRx.ReceiveAll, CanRx.BatchAdmits;
      ghost var io := View();
      arrived, admitted := arrived + |batch|, admitted + CanRx.BatchAdmits(io.can, batch);
      canRx.RxIrqHandler(batch);
    }

    method TakeActivity()
      requires Apart() && MainIo.CanInv(View())
      modifies canRx`canActivity
      ensures View() == MainIo.TakeActivity(old(View()))
    {
      hide CanRx.CanInv;
      var _ := canRx.TakeRxActivity();
    }

    method TakeOverflow() returns (overflow: bool)
      requires Apart() && MainIo.CanInv(View())
      modifies canRx`canOverflow, canRx`refused
      ensures View() == MainIo.TakeOverflow(old(View())) && overflow == old(View()).can.overflow
    {
      OverflowMeans(View());
      hide CanRx.CanInv;
      overflow := canRx.TakeRxOverflow();
    }

    method BothFlags(first: Batch, second: Batch) returns (overflow: bool)
      requires Apart() && MainIo.CanInv(View())
      modifies this`arrived, this`admitted, OnBus()
      ensures var a := MainIo.CanIrq(MainIo.TakeActivity(MainIo.CanIrq(old(View()), first)), second);
              View() == MainIo.TakeOverflow(a) && overflow == a.can.overflow
    {
      hide Apart, View, CanCounted, MainIo.CanIrq, MainIo.TakeActivity, MainIo.TakeOverflow;
      CanIrq(first);
      TakeActivity();
      CanIrq(second);
      overflow := TakeOverflow();
    }

    /** The two flags, taken after the loop over received bytes. */
    method TakeFlags(batches: seq<Batch>) returns (overflow: bool)
      requires Valid()
      modifies this`arrived, this`admitted, OnBus()
      ensures Valid() && (View(), overflow) == MainIo.Flags(old(View()), batches)
    {
      CanPart(View());
      hide View, IoInv, CanCounted, MainIo.CanIrq, MainIo.TakeActivity, MainIo.TakeOverflow;
      overflow := BothFlags(BatchAt(batches, 0), BatchAt(batches, 1));
    }

    method InterruptAndReinitialise(batch: Batch, reinit: bool)
      requires Apart() && MainIo.CanInv(View())
      modifies this`arrived, this`admitted, OnBus()
      ensures var a := MainIo.CanIrq(old(View()), batch); View() == if reinit then MainIo.Reinitialise(a) else a
    {
      hide Apart, View, CanCounted, MainIo.CanIrq, MainIo.Reinitialise;
      CanIrq(batch);
      if reinit {
        Reinitialise();
      }
    }

    /** platform_can_reinit, when recovery asks for it. */
    method Recover(batches: seq<Batch>, reinit: bool)
      requires Valid()
      modifies this`arrived, this`admitted, OnBus()
      ensures Valid() && View() == Recovered(old(View()), batches, reinit)
    {
      CanPart(View());
      hide View, IoInv, CanCounted, MainIo.CanIrq, MainIo.Reinitialise;
      InterruptAndReinitialise(BatchAt(batches, 2), reinit);
    }

    method Reinitialise()
      requires Apart() && MainIo.CanInv(View())
      modifies canRx`canActivity, canRx`past, canRx.queue`head, canRx.queue`tail, canRx.queue`accepted
      ensures View() == MainIo.Reinitialise(old(View()))
    {
      hide CanRx.CanInv;
      canRx.CanReinit();
    }

    // The memory accesses of platform_can_rx_pop.

    method Look() returns (found: bool)
      requires Apart() && MainIo.CanInv(View())
      modifies canRx.queue`pop
      ensures View() == if found then Accessed(old(View())) else old(View())
      ensures found == (old(canRx.queue.head) != old(canRx.queue.tail))
      ensures CanCounted(View()) && canRx.queue.pop == if found then RxRing.FoundItem else RxRing.Outside
    {
      ghost var io := View();
      hide CanRx.CanInv;
      found := canRx.Look();
      if !found {
        CanRx.LookedInVain(io.can);
      }
    }

    method TakeItem()
      requires Apart() && CanCounted(View()) && canRx.queue.pop == RxRing.FoundItem
      modifies canRx.queue`pop
      ensures View() == Accessed(old(View()))
      ensures CanCounted(View()) && canRx.queue.pop.TookItem?
    {
      hide CanRx.CanInv;
      var _ := canRx.Take();
    }

    method Advance()
      requires Apart() && CanCounted(View()) && canRx.queue.pop.TookItem?
      modifies canRx.queue`pop, canRx.queue`tail, canRx.queue`delivered, canRx`past
      ensures View() == Accessed(old(View()))
      ensures CanCounted(View()) && canRx.queue.pop == RxRing.Outside
    {
      hide CanRx.CanInv;
      canRx.Advance();
    }

    /** platform_can_rx_pop. */
    method PopOne(before: Batch, found: Batch, took: Batch, ghost batches: seq<Batch>, ghost k: nat) returns (more: bool)
      requires Apart() && MainIo.CanInv(View())
      requires before == BatchAt(batches, k) && found == BatchAt(batches, k + 1) && took == BatchAt(batches, k + 2)
      modifies this`arrived, this`admitted, OnBus()
      ensures MainIo.CanInv(View()) && (View(), more) == MainIo.PopOne(old(View()), batches, k)
    {
      hide Apart, CanCounted, MainIo.CanIrq, Accessed;
      CanIrq(before);
      more := Look();
      if more {
        CanIrq(found);
        TakeItem();
        CanIrq(took);
        Advance();
      }
    }

    method PopFrames(batches: seq<Batch>) returns (n: nat)
      requires Apart() && MainIo.CanInv(View())
      modifies this`arrived, this`admitted, OnBus()
      ensures (View(), n) == PopAll(old(View()), batches, 3, CAN_RX_BUDGET)
    {
      hide Apart, View, MainIo.CanInv, MainIo.PopOne, PopAll;
      n := 0;
      var more := true;
      while n < CAN_RX_BUDGET && more
        decreases CAN_RX_BUDGET - n, more
        invariant n <= CAN_RX_BUDGET && MainIo.CanInv(View())
        invariant PopAll(old(View()), batches, 3, CAN_RX_BUDGET) ==
                  if more then Counted(PopAll(View(), batches, 3 + 3 * n, CAN_RX_BUDGET - n), n) else (View(), n)
      {
        var k := 3 + 3 * n;
        PopAllNext(View(), batches, k, CAN_RX_BUDGET - n);
        more := PopOne(BatchAt(batches, k), BatchAt(batches, k + 1), BatchAt(batches, k + 2), batches, k);
        if more {
          n := n + 1;
        }
      }
      if more {
        NothingMore(View(), batches, 3 + 3 * n);
      }
    }

    /** The receive loop of dronecan_poll; n is the number of frames got. */
    method PollRx(batches: seq<Batch>) returns (n: nat)
      requires Valid()
      modifies this`arrived, this`admitted, OnBus()
      ensures Valid() && (View(), n) == Polled(old(View()), batches)
    {
      CanPart(View());
      hide Apart, IoInv, MainIo.CanInv, PopAll;
      n := PopFrames(batches);
    }
  }

  /** The result of popping the rest, after n frames. */
  function Counted(r: (Io, nat), n: nat): (Io, nat) {
    (r.0, n + r.1)
  }

  lemma PopAllNext(io: Io, batches: seq<Batch>, k: nat, budget: nat)
    requires MainIo.CanInv(io) && budget > 0
    ensures var (u, found) := MainIo.PopOne(io, batches, k);
            PopAll(io, batches, k, budget) == if found then Counted(PopAll(u, batches, k + 3, budget - 1), 1) else (u, 0)
  {
    hide MainIo.CanInv, MainIo.PopOne;
  }

  lemma NothingMore(io: Io, batches: seq<Batch>, k: nat)
    requires MainIo.CanInv(io)
    ensures PopAll(io, batches, k, 0) == (io, 0)
  {}

  lemma CanPart(io: Io)
    requires IoInv(io)
    ensures MainIo.CanInv(io) && CanCounted(io)
  {
    hide UartInv, RxInv, CanRx.CanInv;
  }

  lemma RxPart(io: Io)
    requires IoInv(io)
    ensures RxRing.Inv(io.rx) && io.rx.pop.Outside? && io.parser.Valid()
  {
    hide UartInv, MainIo.CanInv, RxRing.Inv, MspParser.FreshOutput;
  }

  lemma UartPart(io: Io)
    requires IoInv(io)
    ensures UartTx.Inv(io.uart) && io.uart.call.Outside?
  {
    hide RxInv, MainIo.CanInv, UartTx.Inv;
  }
}
