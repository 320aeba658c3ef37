// The static state of protocol/dronecan.c with libcanard's transmit queue, updated in place. Every call is proved to
// do what CanTx says. Frame payloads and libcanard's receive states are not part of this model: a frame is its id,
// deadline and serial number, and the receive side only shows in how many blocks it holds.
module CanTxDriver {
  import opened WrapTime
  import opened CanTx

  class Transmitter {
    var txQueue: seq<Frame>
    var rxBlocks: nat
    var txOverflowPending: bool
    var nextCleanupUs: nat
    var nextStatusMs: u32
    var allocations: nat             // blocks handed out to frames so far; the model's numbering of frames
    ghost var made: seq<Frame>
    ghost var sent: seq<Frame>
    ghost var expired: seq<Frame>
    ghost var flushed: seq<Frame>
    ghost var refused: nat

    ghost function View(): Tx
      reads this
    {
      Tx(txQueue, rxBlocks, txOverflowPending, nextCleanupUs, nextStatusMs, made, sent, expired, flushed, refused)
    }

    ghost predicate Numbered()
      reads this
    {
      allocations == |made|
    }

    ghost predicate Valid()
      reads this
    {
      Numbered() && Inv(View())
    }

    /** dronecan_init */
    constructor ()
      ensures View() == INITIAL
      ensures Valid()
    {
      txQueue, rxBlocks, txOverflowPending, nextCleanupUs, nextStatusMs := [], 0, false, 0, 0;
      allocations, made, sent, expired, flushed, refused := 0, [], [], [], [], 0;
    }

    function FreeBlocks(): int
      reads this
    {
      CAPACITY - (|txQueue| + rxBlocks)
    }

    /** pushTxQueue: walk past every frame that does not lose to the new one. */
    method PushTxQueue(f: Frame)
      modifies this`txQueue
      ensures txQueue == Insert(old(txQueue), f)
    {
      var p := 0;
      while p < |txQueue| && txQueue[p].id <= f.id
        invariant p <= |txQueue|
        invariant Place(txQueue, f.id) == p + Place(txQueue[p..], f.id)
      {
        assert txQueue[p..][1..] == txQueue[p + 1..];
        p := p + 1;
      }
      txQueue := txQueue[..p] + [f] + txQueue[p..];
    }

    /** One block taken, filled and queued. */
    method PushFrame(id: nat, deadline: nat)
      requires Numbered()
      modifies this`txQueue, this`made, this`allocations
      ensures View() == Push(old(View()), id, deadline)
      ensures Numbered()
    {
      hide Insert;
      var f := Frame(id, deadline, allocations);
      PushTxQueue(f);
      allocations, made := allocations + 1, made + [f];
    }

    /** Frames still to make for a transfer of this length, when so many of its payload bytes are in frames already. */
    static function FramesLeft(length: nat, dataIndex: nat): nat
      requires dataIndex <= length
    {
      if dataIndex == 0 then FramesFor(length) else (length - dataIndex + 6) / 7
    }

    /** enqueueTxFrames, frame by frame; out of memory leaves the frames made so far in the queue. */
    method EnqueueTxFrames(id: nat, deadline: nat, length: nat) returns (ok: bool)
      requires Numbered()
      modifies this`txQueue, this`made, this`allocations
      ensures (View(), ok) == Enqueue(old(View()), id, deadline, FramesFor(length))
      ensures Numbered()
    {
      hide Push;
      if length < 8 {
        if FreeBlocks() <= 0 {
          return false;
        }
        PushFrame(id, deadline);
        return true;
      }
      var dataIndex := 0;
      while dataIndex != length
        invariant dataIndex <= length && Numbered()
        invariant Enqueue(old(View()), id, deadline, FramesFor(length))
               == Enqueue(View(), id, deadline, FramesLeft(length, dataIndex))
      {
        if FreeBlocks() <= 0 {
          return false;
        }
        PushFrame(id, deadline);
        var room := if dataIndex == 0 then 5 else 7;
        dataIndex := if length - dataIndex <= room then length else dataIndex + room;
      }
      return true;
    }

    method NoteRefusal()
      modifies this`txOverflowPending, this`refused
      ensures View() == Refuse(old(View()))
    {
      txOverflowPending := true;
      refused := refused + 1;
    }

    /** broadcast; us is the clock reading its deadline is counted from. */
    method Broadcast(dataType: nat, priority: nat, length: nat, us: nat) returns (ok: bool)
      requires Numbered()
      modifies this`txQueue, this`made, this`allocations, this`txOverflowPending, this`refused
      ensures (View(), ok) == CanTx.Broadcast(old(View()), dataType, priority, length, us)
      ensures Numbered()
    {
      hide Enqueue, FramesFor, BroadcastId, Timeout;
      if priority >= PRIORITY_LOW && FreeBlocks() <= RESERVE {
        NoteRefusal();
        return false;
      }
      var queued := EnqueueTxFrames(BroadcastId(priority, dataType), us + Timeout(priority), length);
      if !queued {
        NoteRefusal();
      }
      return queued;
    }

    method PublishFlow(us: nat) returns (ok: bool)
      requires Valid()
      modifies this`txQueue, this`made, this`allocations, this`txOverflowPending, this`refused
      ensures (View(), ok) == CanTx.PublishFlow(old(View()), us)
      ensures Valid()
    {
      BroadcastKeepsInv(View(), FLOW_ID, PRIORITY_LOW, FLOW_LENGTH, us);
      hide Inv, CanTx.Broadcast;
      ok := Broadcast(FLOW_ID, PRIORITY_LOW, FLOW_LENGTH, us);
    }

    method PublishRange(us: nat) returns (ok: bool)
      requires Valid()
      modifies this`txQueue, this`made, this`allocations, this`txOverflowPending, this`refused
      ensures (View(), ok) == CanTx.PublishRange(old(View()), us)
      ensures Valid()
    {
      BroadcastKeepsInv(View(), RANGE_ID, PRIORITY_LOW, RANGE_LENGTH, us);
      hide Inv, CanTx.Broadcast;
      ok := Broadcast(RANGE_ID, PRIORITY_LOW, RANGE_LENGTH, us);
    }

    /** dronecan_take_tx_overflow */
    method TakeTxOverflow() returns (pending: bool)
      requires Valid()
      modifies this`txOverflowPending, this`refused
      ensures View() == Take(old(View()))
      ensures Valid()
      ensures pending <==> old(refused) > 0
    {
      hide PerIdOrder, SortedById;
      pending := txOverflowPending;
      txOverflowPending := false;
      refused := 0;
    }

    /** The transmit half of canardCleanupStaleTransfers: unlink every frame whose deadline has passed. */
    method RemoveStale(us: nat)
      modifies this`txQueue, this`expired
      ensures txQueue == Kept(old(txQueue), us) && expired == old(expired) + Stale(old(txQueue), us)
    {
      var i := 0;
      while i < |txQueue|
        invariant i <= |txQueue|
        invariant Kept(old(txQueue), us) == txQueue[..i] + Kept(txQueue[i..], us)
        invariant old(expired) + Stale(old(txQueue), us) == expired + Stale(txQueue[i..], us)
        decreases |txQueue| - i
      {
        var f := txQueue[i];
        ghost var rest := txQueue[i..];
        assert rest[0] == f && rest[1..] == txQueue[i + 1..];
        if us > f.deadline {
          assert [] + Kept(rest[1..], us) == Kept(rest, us);
          txQueue := txQueue[..i] + txQueue[i + 1..];
          expired := expired + [f];
          assert txQueue[i..] == rest[1..];
        } else {
          assert txQueue[..i] + ([f] + Kept(rest[1..], us)) == txQueue[..i + 1] + Kept(rest[1..], us);
          i := i + 1;
        }
      }
    }

    method CleanUp(us: nat, rxLeft: nat)
      requires Numbered()
      modifies this`txQueue, this`expired, this`rxBlocks, this`nextCleanupUs
      ensures View() == Clean(old(View()), us, rxLeft)
      ensures Numbered()
    {
      hide Kept, Stale, AtMost;
      if us >= nextCleanupUs {
        RemoveStale(us);
        rxBlocks, nextCleanupUs := AtMost(rxLeft, rxBlocks), us + CLEANUP_INTERVAL_US;
      }
    }

    method SetRxBlocks(blocks: nat)
      requires Numbered()
      modifies this`rxBlocks
      ensures View() == Hold(old(View()), blocks)
      ensures Numbered()
    {
      hide PerIdOrder, SortedById;
      rxBlocks := AtMost(blocks, CAPACITY - |txQueue|);
    }

    /** on_reception, for a GetNodeInfo request. */
    method OnReception(source: nat, length: nat, us: nat)
      requires Numbered()
      modifies this`txQueue, this`made, this`allocations, this`txOverflowPending, this`refused
      ensures View() == Respond(old(View()), source, length, us)
      ensures Numbered()
    {
      hide Enqueue, FramesFor, ResponseId;
      var queued := EnqueueTxFrames(ResponseId(source), us + HIGH_PRIORITY_TX_DEADLINE_US, length);
      if !queued {
        NoteRefusal();
      }
    }

    method HandleRxFrame(a: Arrival)
      requires Numbered()
      modifies this`txQueue, this`made, this`allocations, this`txOverflowPending, this`refused, this`rxBlocks
      ensures View() == Receive(old(View()), a)
      ensures Numbered()
    {
      hide Respond, Hold;
      match a {
        case Quiet(held) =>
          SetRxBlocks(held);
        case Request(before, source, length, us, held) =>
          SetRxBlocks(before);
          OnReception(source, length, us);
          SetRxBlocks(held);
      }
    }

    /** The receive loop of dronecan_poll: at most 16 frames. */
    method ReceiveFrames(arrivals: seq<Arrival>)
      requires Numbered()
      modifies this`txQueue, this`made, this`allocations, this`txOverflowPending, this`refused, this`rxBlocks
      ensures View() == ReceiveAll(old(View()), Budgeted(arrivals))
      ensures Numbered()
    {
      hide Receive;
      ghost var all := Budgeted(arrivals);
      var count := 0;
      while count < RX_BUDGET && count < |arrivals|
        invariant count <= |all| && Numbered()
        invariant ReceiveAll(old(View()), all) == ReceiveAll(View(), all[count..])
      {
        assert all[count..][0] == arrivals[count] && all[count..][1..] == all[count + 1..];
        HandleRxFrame(arrivals[count]);
        count := count + 1;
      }
    }

    /** Bus-off: pop until the queue is empty. */
    method DiscardQueue()
      requires Numbered()
      modifies this`txQueue, this`flushed
      ensures View() == Flush(old(View()))
      ensures Numbered()
    {
      PopAll();
    }

    method PopAll()
      modifies this`txQueue, this`flushed
      ensures txQueue == [] && flushed == old(flushed + txQueue)
    {
      while txQueue != []
        invariant flushed + txQueue == old(flushed + txQueue)
        decreases |txQueue|
      {
        assert [txQueue[0]] + txQueue[1..] == txQueue;
        flushed, txQueue := flushed + [txQueue[0]], txQueue[1..];
      }
    }

    /** The transmit loop of dronecan_poll: at most 16 frames, while the controller accepts them. */
    method TransmitFrames(accepts: nat)
      requires Numbered()
      modifies this`txQueue, this`sent
      ensures View() == Send(old(View()), AtMost(accepts, TX_BUDGET))
      ensures Numbered()
    {
      SendWhileAccepted(accepts);
    }

    method SendWhileAccepted(accepts: nat)
      modifies this`txQueue, this`sent
      ensures var k := AtMost(AtMost(accepts, TX_BUDGET), |old(txQueue)|);
              txQueue == old(txQueue)[k..] && sent == old(sent) + old(txQueue)[..k]
    {
      ghost var before := txQueue;
      var count := 0;
      while count < TX_BUDGET
        invariant count <= TX_BUDGET && count <= |before| && count <= accepts
        invariant txQueue == before[count..] && sent == old(sent) + before[..count]
      {
        if txQueue == [] || count == accepts {
          break;
        }
        assert before[..count] + [before[count]] == before[..count + 1];
        assert before[count..][1..] == before[count + 1..];
        sent, txQueue := sent + [txQueue[0]], txQueue[1..];
        count := count + 1;
      }
    }

    method BroadcastStatus(nowMs: u32, us: nat)
      requires Numbered()
      modifies this`txQueue, this`made, this`allocations, this`txOverflowPending, this`refused, this`nextStatusMs
      ensures View() == Status(old(View()), nowMs, us)
      ensures Numbered()
    {
      RefusalIsFlagged(View(), STATUS_ID, PRIORITY_HIGH, STATUS_LENGTH, us);
      hide CanTx.Broadcast, Reached, Plus;
      if Reached(nowMs, nextStatusMs) {
        var ok := Broadcast(STATUS_ID, PRIORITY_HIGH, STATUS_LENGTH, us);
        if !ok {
          txOverflowPending := true;
        }
        nextStatusMs := Plus(nowMs, STATUS_INTERVAL_MS);
      }
    }

    /** dronecan_poll */
    method Poll(i: PollInput)
      requires Valid()
      modifies this
      ensures View() == CanTx.Poll(old(View()), i)
      ensures Valid()
    {
      PollKeepsInv(View(), i);
      hide Inv, Clean, ReceiveAll, Flush, Send, Status;
      CleanUp(i.nowUs, i.rxLeft);
      ReceiveFrames(i.arrivals);
      if i.busOff {
        DiscardQueue();
        return;
      }
      BroadcastStatus(i.nowMs, i.statusUs);
      TransmitFrames(i.accepts);
    }
  }
}
