// The UART transmit ring of platform/platform.c. platform_uart_tx is split into its memory accesses; a whole
// USART interrupt may run between any two of them, and at any time outside it.
module UartTx {
  import opened Common
  import opened Bytes
  import opened WrapTime
  import opened Ring

  const RING_SIZE := 256

  /** Where the main loop is inside platform_uart_tx. */
  datatype Call =
    | Outside
    | HeadRead(data: seq<byte>, head: nat)               // the head index has been read, the tail not yet
    | Copying(data: seq<byte>, done: nat, next: nat)     // the check has passed and done bytes are copied
    | Published                                          // the head index is stored, the interrupt not yet enabled

  /** Ring, interrupt enable bit, main-loop position; history: frames accepted and bytes sent. */
  datatype Tx = Tx(buffer: seq<byte>, head: nat, tail: nat, enabled: bool, call: Call,
                   frames: seq<seq<byte>>, sent: seq<byte>)

  datatype Event =
    | Transmit(data: seq<byte>)   // the main loop enters platform_uart_tx
    | Proceed                     // its next memory access
    | Interrupt(empty: bool)      // the USART handler, with the data register empty or not

  function Flatten(frames: seq<seq<byte>>): seq<byte> {
    if frames == [] then [] else Flatten(frames[..|frames| - 1]) + frames[|frames| - 1]
  }

  lemma FlattenSnoc(frames: seq<seq<byte>>, f: seq<byte>)
    ensures Flatten(frames + [f]) == Flatten(frames) + f
  {
    assert (frames + [f])[..|frames|] == frames;
  }

  predicate InRange(s: Tx) {
    |s.buffer| == RING_SIZE && s.head < RING_SIZE && s.tail < RING_SIZE
    && (s.call.Copying? ==> s.call.next < RING_SIZE && s.call.done <= |s.call.data|)
  }

  /** The transmit half of USART1_IRQHandler. */
  function Handler(s: Tx, empty: bool): Tx
    requires InRange(s)
  {
    if !empty then s
    else if s.tail == s.head then s.(enabled := false)
    else s.(tail := Next(s.tail, RING_SIZE), sent := s.sent + [s.buffer[s.tail]])
  }

  /** The check of platform_uart_tx, with the head as read before and the tail as it is now. */
  predicate Fits(s: Tx, length: nat)
    requires InRange(s) && s.call.HeadRead?
  {
    s.call.head < RING_SIZE && length < WRAP && CanWrite(RING_SIZE, s.call.head, s.tail, length)
  }

  function Main(s: Tx): Tx
    requires InRange(s)
  {
    match s.call
    case Outside => s
    case HeadRead(data, h) => s.(call := if Fits(s, |data|) then Copying(data, 0, h) else Outside)
    case Copying(data, i, next) =>
      if i < |data| then s.(buffer := s.buffer[next := data[i]], call := Copying(data, i + 1, Next(next, RING_SIZE)))
      else s.(head := next, frames := s.frames + [data], call := Published)
    case Published => s.(enabled := true, call := Outside)
  }

  function Step(s: Tx, e: Event): Tx
    requires InRange(s)
  {
    match e
    case Transmit(data) => if s.call.Outside? then s.(call := HeadRead(data, s.head)) else s
    case Proceed => Main(s)
    case Interrupt(empty) => Handler(s, empty)
  }

  /** What is queued between the indices is exactly the rest of the accepted frames. */
  ghost predicate Inv(s: Tx) {
    && InRange(s)
    && s.sent + Contents(s.buffer, s.head, s.tail) == Flatten(s.frames)
    && (s.call.HeadRead? ==> s.call.head == s.head)
    && (s.call.Copying? ==>
          && |Contents(s.buffer, s.head, s.tail)| + |s.call.data| < RING_SIZE
          && Contents(s.buffer, s.call.next, s.tail)
             == Contents(s.buffer, s.head, s.tail) + s.call.data[..s.call.done])
    && (!s.call.Published? && s.head != s.tail ==> s.enabled)
  }

  /** An interrupt that sends a byte while no copy is going on. */
  lemma SendKeepsQueue(s: Tx)
    requires Inv(s) && s.tail != s.head
    ensures var t := Handler(s, true);
            && t.sent + Contents(t.buffer, t.head, t.tail) == Flatten(t.frames)
            && Contents(s.buffer, s.head, s.tail) == [s.buffer[s.tail]] + Contents(t.buffer, t.head, t.tail)
  {
    var x := s.buffer[s.tail];
    var rest := Contents(s.buffer, s.head, Next(s.tail, RING_SIZE));
    PopRemoves(s.buffer, s.head, s.tail);
    Regroup(s.sent, [x], rest);
    hide Contents, Flatten;
  }

  /** One that sends a byte in the middle of a copy leaves the copied part where it is. */
  lemma SendKeepsCopy(s: Tx)
    requires Inv(s) && s.tail != s.head && s.call.Copying?
    ensures var t := Handler(s, true);
            Contents(t.buffer, t.call.next, t.tail) == Contents(t.buffer, t.head, t.tail) + t.call.data[..t.call.done]
  {
    var x := s.buffer[s.tail];
    var rest := Contents(s.buffer, s.head, Next(s.tail, RING_SIZE));
    var ahead := Contents(s.buffer, s.call.next, Next(s.tail, RING_SIZE));
    PopRemoves(s.buffer, s.head, s.tail);
    CopyingNotEmpty(s);
    PopRemoves(s.buffer, s.call.next, s.tail);
    hide Contents, Flatten, Next;
    CancelFirst(x, ahead, rest, s.call.data[..s.call.done]);
  }

  lemma HandlerKeepsInv(s: Tx, empty: bool)
    requires Inv(s)
    ensures Inv(Handler(s, empty))
    ensures Handler(s, empty).frames == s.frames && Handler(s, empty).call == s.call
    ensures Handler(s, empty).head == s.head && Handler(s, empty).buffer == s.buffer
    ensures s.sent <= Handler(s, empty).sent
  {
    hide Contents, Flatten, Next;
    if empty && s.tail != s.head {
      NextInRange(s.tail, RING_SIZE);
      SendKeepsQueue(s);
      if s.call.Copying? {
        SendShortens(s);
        SendKeepsCopy(s);
      }
    }
  }

  lemma SendShortens(s: Tx)
    requires Inv(s) && s.tail != s.head
    ensures var t := Handler(s, true); |Contents(t.buffer, t.head, t.tail)| < |Contents(s.buffer, s.head, s.tail)|
  {
    hide Contents, Flatten, Next;
    SendKeepsQueue(s);
  }

  lemma CancelFirst(x: byte, whole: seq<byte>, a: seq<byte>, b: seq<byte>)
    requires [x] + whole == ([x] + a) + b
    ensures whole == a + b
  {
    assert ([x] + whole)[1..] == whole && (([x] + a) + b)[1..] == a + b;
  }

  /** While copying into a ring that is not empty, the write position has not met the tail. */
  lemma CopyingNotEmpty(s: Tx)
    requires Inv(s) && s.call.Copying? && s.head != s.tail
    ensures s.call.next != s.tail
  {
    ContentsEmpty(s.buffer, s.head, s.tail);
    ContentsEmpty(s.buffer, s.call.next, s.tail);
  }

  /** Storing one byte beyond the head: the queue stays, and the copied part grows by it. */
  lemma CopyGrows(s: Tx)
    requires Inv(s) && s.call.Copying? && s.call.done < |s.call.data|
    ensures var t := Main(s);
            && InRange(t)
            && Contents(t.buffer, t.head, t.tail) == Contents(s.buffer, s.head, s.tail)
            && Contents(t.buffer, t.call.next, t.tail) == Contents(s.buffer, s.call.next, s.tail) + [s.call.data[s.call.done]]
  {
    var next, x := s.call.next, s.call.data[s.call.done];
    FullExactly(s.buffer, next, s.tail);
    PushAppends(s.buffer, next, s.tail, x);
    WriteBeyondHead(s.buffer, s.head, s.tail, next, x);
    hide Contents, Next, Flatten;
  }

  lemma CopyKeepsInv(s: Tx)
    requires Inv(s) && s.call.Copying? && s.call.done < |s.call.data|
    ensures Inv(Main(s))
  {
    CopyGrows(s);
    var data, i := s.call.data, s.call.done;
    assert data[..i + 1] == data[..i] + [data[i]];
    Regroup(Contents(s.buffer, s.head, s.tail), data[..i], [data[i]]);
    hide Contents, Next, Flatten;
  }

  /** Publishing the head takes the whole copy over. */
  lemma PublishKeepsInv(s: Tx)
    requires Inv(s) && s.call.Copying? && s.call.done == |s.call.data|
    ensures Inv(Main(s))
  {
    var data := s.call.data;
    assert data[..|data|] == data;
    FlattenSnoc(s.frames, data);
    Regroup(s.sent, Contents(s.buffer, s.head, s.tail), data);
    hide Contents, Next, Flatten;
  }

  /** Storing at a write position that the unread items do not reach leaves them alone. */
  lemma WriteBeyondHead(buffer: seq<byte>, head: nat, tail: nat, next: nat, x: byte)
    requires head < |buffer| && tail < |buffer| && next < |buffer|
    requires |Contents(buffer, head, tail)| <= |Contents(buffer, next, tail)|
    ensures Contents(buffer[next := x], head, tail) == Contents(buffer, head, tail)
  {}

  lemma CheckKeepsInv(s: Tx)
    requires Inv(s) && s.call.HeadRead?
    ensures Inv(Main(s))
    ensures Main(s) == s.(call := if |Contents(s.buffer, s.head, s.tail)| + |s.call.data| <= 255
                                  then Copying(s.call.data, 0, s.head) else Outside)
  {
    if |s.call.data| < WRAP {
      CanWriteExactly(s.buffer, s.head, s.tail, |s.call.data|);
    }
    assert s.call.data[..0] == [];
    hide Contents, Flatten, CanWrite;
  }

  lemma MainKeepsInv(s: Tx)
    requires Inv(s)
    ensures Inv(Main(s))
  {
    match s.call {
      case HeadRead(_, _) => CheckKeepsInv(s);
      case Copying(data, i, _) =>
        hide Main;
        if i < |data| {
          CopyKeepsInv(s);
        } else {
          PublishKeepsInv(s);
        }
      case _ =>
    }
    hide Contents, Flatten;
  }

  lemma StepKeepsInv(s: Tx, e: Event)
    requires Inv(s)
    ensures Inv(Step(s, e))
  {
    match e
    case Transmit(data) =>
    case Proceed => MainKeepsInv(s);
    case Interrupt(empty) => HandlerKeepsInv(s, empty);
  }

  // ---------------------------------------------------------------- whole runs

  function Start(buffer: seq<byte>): Tx {
    Tx(buffer, 0, 0, false, Outside, [], [])
  }

  function Run(s: Tx, events: seq<Event>): Tx
    requires Inv(s)
    decreases events
  {
    if events == [] then s else
      StepKeepsInv(s, events[0]);
      Run(Step(s, events[0]), events[1..])
  }

  /** A frame is taken over whole, by one store of the head index. */
  lemma StepTakesWholeFrames(s: Tx, e: Event)
    requires Inv(s)
    ensures Step(s, e).frames ==
            if e.Proceed? && s.call.Copying? && s.call.done == |s.call.data| then s.frames + [s.call.data] else s.frames
    ensures s.sent <= Step(s, e).sent
  {}

  lemma {:induction false} RunKeepsInv(s: Tx, events: seq<Event>)
    requires Inv(s)
    ensures Inv(Run(s, events)) && s.frames <= Run(s, events).frames && s.sent <= Run(s, events).sent
    decreases events
  {
    if events != [] {
      StepKeepsInv(s, events[0]);
      StepTakesWholeFrames(s, events[0]);
      hide Step, Inv;
      RunKeepsInv(Step(s, events[0]), events[1..]);
    }
  }

  /**
   * Under every interleaving: the bytes sent are a prefix of the accepted frames put end to end, what is queued is
   * the rest of them, and outside a call bytes in the queue mean the interrupt that sends them is enabled.
   */
  lemma SentIsPrefixOfAccepted(buffer: seq<byte>, events: seq<Event>)
    requires |buffer| == RING_SIZE
    ensures Inv(Start(buffer))
    ensures var t := Run(Start(buffer), events);
            && InRange(t)
            && t.sent <= Flatten(t.frames)
            && Contents(t.buffer, t.head, t.tail) == Flatten(t.frames)[|t.sent|..]
            && (t.call.Outside? && Contents(t.buffer, t.head, t.tail) != [] ==> t.enabled)
  {
    assert Inv(Start(buffer));
    RunKeepsInv(Start(buffer), events);
    var t := Run(Start(buffer), events);
    ContentsEmpty(t.buffer, t.head, t.tail);
  }

  /** A call is refused exactly when its bytes and the unsent ones exceed 255, and a refusal changes nothing else. */
  lemma RefusedExactly(s: Tx)
    requires Inv(s) && s.call.HeadRead?
    ensures Main(s).call == Outside <==> |Contents(s.buffer, s.head, s.tail)| + |s.call.data| > 255
    ensures Main(s) == s.(call := Main(s).call)
  {
    if |s.call.data| < WRAP {
      CanWriteExactly(s.buffer, s.head, s.tail, |s.call.data|);
    }
  }

  function Interrupts(n: nat): (r: seq<Event>)
    ensures |r| == n
  {
    if n == 0 then [] else [Interrupt(true)] + Interrupts(n - 1)
  }

  /** Output never stalls: from any state outside a call, as many interrupts as bytes are queued send them all. */
  lemma {:induction false} QueueDrains(s: Tx, n: nat)
    requires Inv(s) && s.call.Outside? && n == |Contents(s.buffer, s.head, s.tail)|
    ensures Run(s, Interrupts(n)).sent == Flatten(s.frames)
    ensures n > 0 ==> s.enabled
    decreases n
  {
    ContentsEmpty(s.buffer, s.head, s.tail);
    if n > 0 {
      var t := Step(s, Interrupt(true));
      HandlerKeepsInv(s, true);
      PopRemoves(s.buffer, s.head, s.tail);
      hide Handler;
      QueueDrains(t, n - 1);
      assert Interrupts(n)[1..] == Interrupts(n - 1);
    }
  }

  // ---------------------------------------------------------------- a whole call with interrupts in it

  function Unsent(s: Tx): seq<byte>
    requires InRange(s)
  {
    Contents(s.buffer, s.head, s.tail)
  }

  /** The interrupts at one point of the main loop; each flag says whether the data register was empty. */
  function AfterInterrupts(s: Tx, flags: seq<bool>): Tx
    requires Inv(s)
    decreases flags
  {
    if flags == [] then s else
      HandlerKeepsInv(s, flags[0]);
      AfterInterrupts(Handler(s, flags[0]), flags[1..])
  }

  /** The interrupts that find the data register empty. */
  function Ready(flags: seq<bool>): nat {
    if flags == [] then 0 else (if flags[0] then 1 else 0) + Ready(flags[1..])
  }

  function Less(n: nat, k: nat): nat {
    if k <= n then n - k else 0
  }

  lemma HandlerDrains(s: Tx, empty: bool)
    requires Inv(s)
    ensures Inv(Handler(s, empty))
    ensures |Unsent(Handler(s, empty))| == Less(|Unsent(s)|, if empty then 1 else 0)
  {
    HandlerKeepsInv(s, empty);
    ContentsEmpty(s.buffer, s.head, s.tail);
    if empty && s.tail != s.head {
      SendKeepsQueue(s);
    }
    hide Contents, Flatten, Next;
  }

  /** Interrupts send the oldest bytes, one each time the data register is empty, and touch nothing else. */
  lemma {:induction false} InterruptsDrain(s: Tx, flags: seq<bool>)
    requires Inv(s)
    ensures var t := AfterInterrupts(s, flags);
            && Inv(t) && t.frames == s.frames && t.call == s.call && t.head == s.head && t.buffer == s.buffer
            && s.sent <= t.sent
            && |Unsent(t)| == Less(|Unsent(s)|, Ready(flags))
    decreases flags
  {
    if flags != [] {
      HandlerKeepsInv(s, flags[0]);
      HandlerDrains(s, flags[0]);
      hide Inv, Handler, Unsent;
      InterruptsDrain(Handler(s, flags[0]), flags[1..]);
    }
  }

  /** The interrupts scheduled for one point of the main loop. */
  function At(irqs: seq<seq<bool>>, k: nat): seq<bool> {
    if k < |irqs| then irqs[k] else []
  }

  /** The memory accesses left in a call. */
  function AccessesLeft(c: Call): nat {
    match c
    case Outside => 0
    case HeadRead(data, _) => |data| + 3
    case Copying(data, i, _) => if i <= |data| then |data| - i + 2 else 0
    case Published => 1
  }

  lemma InterruptsKeepInv(s: Tx, flags: seq<bool>)
    requires Inv(s)
    ensures Inv(AfterInterrupts(s, flags)) && AfterInterrupts(s, flags).call == s.call
  {
    InterruptsDrain(s, flags);
  }

  /** The rest of a call: before its k-th access the k-th scheduled interrupts run. */
  function Complete(s: Tx, irqs: seq<seq<bool>>, k: nat): Tx
    requires Inv(s)
    decreases AccessesLeft(s.call)
  {
    if s.call.Outside? then s else
      InterruptsKeepInv(s, At(irqs, k));
      MainKeepsInv(AfterInterrupts(s, At(irqs, k)));
      Complete(Main(AfterInterrupts(s, At(irqs, k))), irqs, k + 1)
  }

  /** platform_uart_tx from start to end. */
  function Transmitted(s: Tx, data: seq<byte>, irqs: seq<seq<bool>>): Tx
    requires Inv(s) && s.call.Outside?
  {
    Complete(s.(call := HeadRead(data, s.head)), irqs, 0)
  }

  lemma {:induction false} CopyCompletes(s: Tx, irqs: seq<seq<bool>>, k: nat)
    requires Inv(s) && !s.call.HeadRead?
    ensures var t := Complete(s, irqs, k);
            && Inv(t) && t.call.Outside? && s.sent <= t.sent
            && t.frames == if s.call.Copying? then s.frames + [s.call.data] else s.frames
    decreases AccessesLeft(s.call)
  {
    if !s.call.Outside? {
      InterruptsDrain(s, At(irqs, k));
      MainKeepsInv(AfterInterrupts(s, At(irqs, k)));
      hide Inv, Flatten, AfterInterrupts;
      CopyCompletes(Main(AfterInterrupts(s, At(irqs, k))), irqs, k + 1);
    }
  }

  /**
   * A call accepts its frame exactly when the frame fits beside the bytes still unsent when it reads the tail, which
   * are those unsent before, less one for each ready interrupt up to then. Else it changes nothing but what is sent.
   */
  lemma CallDecides(s: Tx, data: seq<byte>, irqs: seq<seq<bool>>)
    requires Inv(s) && s.call.Outside?
    ensures var t := Transmitted(s, data, irqs);
            && Inv(t) && t.call.Outside? && s.sent <= t.sent
            && t.frames == if Less(|Unsent(s)|, Ready(At(irqs, 0))) + |data| <= 255 then s.frames + [data] else s.frames
  {
    var u := s.(call := HeadRead(data, s.head));
    InterruptsDrain(u, At(irqs, 0));
    var v := AfterInterrupts(u, At(irqs, 0));
    CheckKeepsInv(v);
    hide Inv, Flatten, AfterInterrupts, Contents, Main;
    CopyCompletes(Main(v), irqs, 1);
  }

  /** Whether the call was accepted shows in the frames. */
  lemma AcceptedShows(s: Tx, bytes: seq<byte>, irqs: seq<seq<bool>>)
    requires Inv(s) && s.call.Outside?
    ensures Transmitted(s, bytes, irqs).frames != s.frames <==> Less(|Unsent(s)|, Ready(At(irqs, 0))) + |bytes| <= 255
  {
    hide Inv, Complete, Contents;
    CallDecides(s, bytes, irqs);
  }

  lemma NothingLeft(s: Tx, irqs: seq<seq<bool>>, k: nat)
    requires Inv(s) && s.call.Outside?
    ensures Complete(s, irqs, k) == s
  {}

  // ---------------------------------------------------------------- the code

  class Uart {
    const uartTx: array<byte>
    var utxHead: nat
    var utxTail: nat
    var tdbeEnabled: bool
    ghost var call: Call
    ghost var frames: seq<seq<byte>>
    ghost var sent: seq<byte>

    ghost function View(): Tx
      reads this, uartTx
    {
      Tx(uartTx[..], utxHead, utxTail, tdbeEnabled, call, frames, sent)
    }

    ghost predicate Valid()
      reads this, uartTx
    {
      Inv(View())
    }

    /** How many bytes wait in the ring. */
    ghost function Queued(): nat
      reads this, uartTx
      requires Valid()
    {
      |Contents(uartTx[..], utxHead, utxTail)|
    }

    constructor ()
      ensures Valid() && fresh(uartTx) && View() == Start(seq(RING_SIZE, _ => 0))
    {
      uartTx := new byte[RING_SIZE](_ => 0);
      utxHead, utxTail, tdbeEnabled := 0, 0, false;
      call, frames, sent := Outside, [], [];
    }

    /** The transmit half of USART1_IRQHandler. */
    method UsartIrqHandler(empty: bool)
      requires Valid()
      modifies this`utxTail, this`tdbeEnabled, this`sent
      ensures Valid() && View() == Handler(old(View()), empty)
    {
      HandlerKeepsInv(View(), empty);
      if empty {
        if utxTail == utxHead {
          tdbeEnabled := false;
        } else {
          sent := sent + [uartTx[utxTail]];
          utxTail := Next(utxTail, RING_SIZE);
        }
      }
    }

    /** The interrupts that run at one point of the main loop. */
    method Interrupted(flags: seq<bool>)
      requires Valid()
      modifies this`utxTail, this`tdbeEnabled, this`sent
      ensures View() == AfterInterrupts(old(View()), flags)
      ensures Valid()
    {
      hide Inv, Handler;
      var i := 0;
      while i < |flags|
        invariant i <= |flags| && Valid()
        invariant AfterInterrupts(old(View()), flags) == AfterInterrupts(View(), flags[i..])
      {
        assert flags[i..][0] == flags[i] && flags[i..][1..] == flags[i + 1..];
        UsartIrqHandler(flags[i]);
        i := i + 1;
      }
    }

    // The memory accesses of platform_uart_tx, one method each.

    method ReadHead(ghost bytes: seq<byte>) returns (head: nat)
      requires Valid() && call == Outside
      modifies this`call
      ensures View() == old(View()).(call := HeadRead(bytes, head)) && head == utxHead
      ensures Valid()
    {
      head := utxHead;
      call := HeadRead(bytes, head);
    }

    method ReadTailAndCheck(head: nat, length: nat) returns (fits: bool)
      requires Valid() && call.HeadRead? && call.head == head && |call.data| == length
      modifies this`call
      ensures View() == Main(old(View()))
      ensures Valid() && call == if fits then Copying(old(call.data), 0, head) else Outside
    {
      CheckKeepsInv(View());
      fits := length < WRAP && CanWrite(RING_SIZE, head, utxTail, length);
      call := if fits then Copying(call.data, 0, head) else Outside;
    }

    method StoreByte(x: byte, position: nat) returns (next: nat)
      requires Valid() && call.Copying? && call.next == position
      requires call.done < |call.data| && call.data[call.done] == x
      modifies this`call, uartTx
      ensures View() == Main(old(View()))
      ensures Valid() && call == Copying(old(call.data), old(call.done) + 1, next)
    {
      MainKeepsInv(View());
      hide Contents, Flatten;
      uartTx[position] := x;
      next := Next(position, RING_SIZE);
      call := Copying(call.data, call.done + 1, next);
    }

    method PublishHead(next: nat)
      requires Valid() && call.Copying? && call.next == next && call.done == |call.data|
      modifies this`call, this`utxHead, this`frames
      ensures View() == Main(old(View()))
      ensures Valid() && call == Published
    {
      MainKeepsInv(View());
      utxHead := next;
      frames := frames + [call.data];
      call := Published;
    }

    method EnableInterrupt()
      requires Valid() && call == Published
      modifies this`call, this`tdbeEnabled
      ensures View() == Main(old(View()))
      ensures Valid() && call == Outside
    {
      MainKeepsInv(View());
      tdbeEnabled := true;
      call := Outside;
    }

    /** The copy loop; before each store the interrupts scheduled for that access run. */
    method CopyIn(data: array<byte>, length: nat, head: nat, irqs: seq<seq<bool>>) returns (next: nat)
      requires Valid() && length <= data.Length && data != uartTx
      requires call == Copying(data[..length], 0, head)
      modifies this`utxTail, this`tdbeEnabled, this`sent, this`call, uartTx
      ensures Valid() && call == Copying(old(data[..length]), length, next)
      ensures Complete(old(View()), irqs, 1) == Complete(View(), irqs, length + 1)
    {
      hide Inv, Main, AfterInterrupts;
      next := head;
      var i := 0;
      while i < length
        invariant i <= length && Valid()
        invariant data[..length] == old(data[..length]) && call == Copying(old(data[..length]), i, next)
        invariant Complete(old(View()), irqs, 1) == Complete(View(), irqs, i + 1)
      {
        assert data[..length][i] == data[i];
        InterruptsKeepInv(View(), At(irqs, i + 1));
        Interrupted(At(irqs, i + 1));
        next := StoreByte(data[i], next);
        i := i + 1;
      }
    }

    /** Up to the check. */
    method BeginCall(ghost bytes: seq<byte>, length: nat, irqs: seq<seq<bool>>) returns (head: nat, fits: bool)
      requires Valid() && call == Outside && |bytes| == length
      modifies this`utxTail, this`tdbeEnabled, this`sent, this`call
      ensures Valid() && call == if fits then Copying(bytes, 0, head) else Outside
      ensures Complete(View(), irqs, 1) == Transmitted(old(View()), bytes, irqs)
    {
      hide Inv, Main, AfterInterrupts, CanWrite;
      head := ReadHead(bytes);
      InterruptsKeepInv(View(), At(irqs, 0));
      Interrupted(At(irqs, 0));
      fits := ReadTailAndCheck(head, length);
    }

    /** From the last store on. */
    method FinishCall(next: nat, length: nat, irqs: seq<seq<bool>>)
      requires Valid() && call.Copying? && call.done == |call.data| == length && call.next == next
      modifies this`utxHead, this`utxTail, this`tdbeEnabled, this`sent, this`call, this`frames
      ensures Valid() && call == Outside
      ensures View() == Complete(old(View()), irqs, length + 1)
    {
      hide Inv, Main, AfterInterrupts;
      InterruptsKeepInv(View(), At(irqs, length + 1));
      Interrupted(At(irqs, length + 1));
      PublishHead(next);
      assert Complete(old(View()), irqs, length + 1) == Complete(View(), irqs, length + 2);
      ghost var published := View();
      InterruptsKeepInv(published, At(irqs, length + 2));
      Interrupted(At(irqs, length + 2));
      EnableInterrupt();
      assert Complete(published, irqs, length + 2) == Complete(View(), irqs, length + 3);
      NothingLeft(View(), irqs, length + 3);
    }

    /** platform_uart_tx with bytes to send, and the interrupts irqs[k] before its k-th access after the head was read. */
    method TransmitBytes(data: array?<byte>, length: nat, irqs: seq<seq<bool>>) returns (ok: bool)
      requires Valid() && call == Outside
      requires if data == null then length == 0 else length <= data.Length && data != uartTx
      modifies this, uartTx
      ensures Valid() && call == Outside
      ensures View() == Transmitted(old(View()), if data == null then [] else old(data[..length]), irqs)
      ensures ok <==> frames != old(frames)
    {
      hide Inv, Main, AfterInterrupts, CanWrite, Transmitted, Complete;
      ghost var bytes := if data == null then [] else data[..length];
      ghost var s := View();
      var head, fits := BeginCall(bytes, length, irqs);
      if !fits {
        NothingLeft(View(), irqs, 1);
        return false;
      }
      CopyCompletes(View(), irqs, 1);
      var next := head;
      if data != null {
        next := CopyIn(data, length, head, irqs);
      }
      FinishCall(next, length, irqs);
      return true;
    }

    /** platform_uart_tx. With a null pointer and a length it has no bytes to accept. */
    method UartTransmit(data: array?<byte>, length: nat, irqs: seq<seq<bool>>) returns (ok: bool)
      requires Valid() && call == Outside
      requires data != null ==> length <= data.Length && data != uartTx
      modifies this, uartTx
      ensures Valid() && call == Outside
      ensures data == null && length != 0 ==> !ok && View() == AfterInterrupts(old(View()), At(irqs, 0))
      ensures data != null || length == 0 ==>
                && View() == Transmitted(old(View()), if data == null then [] else old(data[..length]), irqs)
                && (ok <==> Less(old(Queued()), Ready(At(irqs, 0))) + length <= 255)
    {
      ghost var s := View();
      InterruptsKeepInv(s, At(irqs, 0));
      hide Inv, AfterInterrupts, Transmitted;
      if data == null && length != 0 {
        Interrupted(At(irqs, 0));
        return false;
      }
      AcceptedShows(s, if data == null then [] else data[..length], irqs);
      ok := TransmitBytes(data, length, irqs);
    }
  }
}
