// The loop over received bytes (app/main.c:60): how many it pops whatever interrupts do, and which bytes have come by
// then.
module MainListen {
  import opened Common
  import opened Bytes
  import opened MainIo
  import opened MainModel
  import opened MainRuns
  import HostLink
  import Msp
  import MspParser
  import RxRing

  /** How many bytes the loop has popped. */
  function PopsOf(io: Io, u: Io): int {
    |u.rx.delivered| - |io.rx.delivered|
  }

  /** The bytes that come at the points from first up to but not including limit. */
  function Span(bytes: seq<seq<byte>>, first: nat, limit: nat): seq<byte>
    requires first <= limit
    decreases limit - first
  {
    if first == limit then [] else BytesAt(bytes, first) + Span(bytes, first + 1, limit)
  }

  lemma ThreePoints(bytes: seq<seq<byte>>, k: nat)
    ensures Span(bytes, k, k + 3) == BytesAt(bytes, k) + (BytesAt(bytes, k + 1) + BytesAt(bytes, k + 2))
    ensures Span(bytes, k, k + 1) == BytesAt(bytes, k)
  {
    assert Span(bytes, k, k + 3) == BytesAt(bytes, k) + Span(bytes, k + 1, k + 3);
    assert Span(bytes, k + 1, k + 3) == BytesAt(bytes, k + 1) + Span(bytes, k + 2, k + 3);
    assert Span(bytes, k + 2, k + 3) == BytesAt(bytes, k + 2) + Span(bytes, k + 3, k + 3);
    assert Span(bytes, k, k + 1) == BytesAt(bytes, k) + Span(bytes, k + 1, k + 1);
    hide Span;
  }

  lemma {:induction false} SpanSplits(bytes: seq<seq<byte>>, first: nat, middle: nat, limit: nat)
    requires first <= middle <= limit
    ensures Span(bytes, first, limit) == Span(bytes, first, middle) + Span(bytes, middle, limit)
    decreases middle - first
  {
    if first < middle {
      SpanSplits(bytes, first + 1, middle, limit);
      Regroup(BytesAt(bytes, first), Span(bytes, first + 1, middle), Span(bytes, middle, limit));
    }
  }

  lemma ItemsConcat(a: seq<RxRing.Met<byte>>, b: seq<RxRing.Met<byte>>)
    ensures HostLink.AllBytes(a + b) == HostLink.AllBytes(a) + HostLink.AllBytes(b)
  {}

  lemma MeetsItems(s: RxRing.Rx<byte>, items: seq<byte>)
    requires RxRing.Inv(s)
    ensures HostLink.AllBytes(RxRing.Meets(s, items)) == items
  {}

  lemma PopMeetsItems(s: RxRing.Rx<byte>, first: seq<byte>, second: seq<byte>)
    requires RxRing.Inv(s) && s.pop.Outside?
    ensures HostLink.AllBytes(RxRing.PopMeets(s, first, second)) == if s.head == s.tail then [] else first + second
  {
    hide RxRing.Inv, RxRing.ArriveAll, RxRing.Meets;
    if s.head != s.tail {
      RxRing.PopStepKeepsInv(s);
      var a := RxRing.ArriveAll(RxRing.PopStep(s), first);
      RxRing.PopStepKeepsInv(a);
      MeetsItems(RxRing.PopStep(s), first);
      MeetsItems(RxRing.PopStep(a), second);
      ItemsConcat(RxRing.Meets(RxRing.PopStep(s), first), RxRing.Meets(RxRing.PopStep(a), second));
    }
  }

  /** One turn of the loop: the bytes of its points have come, and it has popped one unless the ring is empty. */
  lemma ListenOnce(io: Io, bytes: seq<seq<byte>>, k: nat)
    requires IoInv(io)
    ensures RxRing.Inv(Listen(io, bytes, k).0.rx)
    ensures var (u, more) := Listen(io, bytes, k);
            && HostLink.AllBytes(u.came) == HostLink.AllBytes(io.came) + Span(bytes, k, if more then k + 3 else k + 1)
            && PopsOf(io, u) == (if more then 1 else 0)
            && (!more ==> RxRing.Waiting(u.rx) == 0)
  {
    RxReady(io);
    ThreePoints(bytes, k);
    var first, second, third := BytesAt(bytes, k), BytesAt(bytes, k + 1), BytesAt(bytes, k + 2);
    hide IoInv, RxRing.Inv, RxRing.ArriveAll, RxRing.PopWhole, RxRing.Meets, RxRing.PopMeets, Span, BytesAt,
        RxRing.Waiting,
      MspParser.Consume, MspParser.Output1, MspParser.Parser.Valid, HostLink.AllBytes;
    var a := RxRing.ArriveAll(io.rx, first);
    MeetsItems(io.rx, first);
    PopMeetsItems(a, second, third);
    RxRing.WaitingCounts(a);
    ItemsConcat(RxRing.Meets(io.rx, first), RxRing.PopMeets(a, second, third));
    ItemsConcat(io.came, TurnMeets(io, bytes, k));
  }

  /** The points the loop gets to when it has popped n bytes of at most budget. */
  function LoopEnd(k: nat, n: nat, budget: nat): nat {
    if n < budget then k + 3 * n + 1 else k + 3 * budget
  }

  lemma {:induction false} ListenAllPops(io: Io, bytes: seq<seq<byte>>, k: nat, budget: nat)
    requires IoInv(io)
    ensures RxRing.Inv(ListenAll(io, bytes, k, budget).rx)
    ensures var u := ListenAll(io, bytes, k, budget);
            && 0 <= PopsOf(io, u) <= budget && (PopsOf(io, u) == budget || RxRing.Waiting(u.rx) == 0)
            && HostLink.AllBytes(u.came) == HostLink.AllBytes(io.came) + Span(bytes, k, LoopEnd(k, PopsOf(io, u),
               budget))
    decreases budget
  {
    hide IoInv, RxRing.Inv, Listen, ListenAll, RxRing.Waiting, Span, HostLink.AllBytes, PopsOf, LoopEnd;
    if budget == 0 {
      NothingPopped(io, bytes, k);
    } else {
      ListenAllNext(io, bytes, k, budget);
      ListenOnce(io, bytes, k);
      var (u, more) := Listen(io, bytes, k);
      if more {
        ListenAllPops(u, bytes, k + 3, budget - 1);
        PopsAdd(io, u, ListenAll(u, bytes, k + 3, budget - 1), bytes, k, budget);
      } else {
        assert LoopEnd(k, 0, budget) == k + 1 by { FirstEnd(k, budget); }
      }
    }
  }

  lemma FirstEnd(k: nat, budget: nat)
    requires budget > 0
    ensures LoopEnd(k, 0, budget) == k + 1
  {}

  lemma NothingPopped(io: Io, bytes: seq<seq<byte>>, k: nat)
    requires IoInv(io)
    ensures ListenAll(io, bytes, k, 0) == io && RxRing.Inv(io.rx) && PopsOf(io, io) == 0
    ensures HostLink.AllBytes(io.came) + Span(bytes, k, LoopEnd(k, 0, 0)) == HostLink.AllBytes(io.came)
  {
    NothingHeard(io, bytes, k);
    RxReady(io);
    EmptySpan(bytes, k);
    hide IoInv, RxRing.Inv, ListenAll, Span, HostLink.AllBytes;
  }

  lemma PopsAdd(io: Io, u: Io, v: Io, bytes: seq<seq<byte>>, k: nat, budget: nat)
    requires budget > 0 && PopsOf(io, u) == 1 && 0 <= PopsOf(u, v) <= budget - 1
    requires HostLink.AllBytes(u.came) == HostLink.AllBytes(io.came) + Span(bytes, k, k + 3)
    requires HostLink.AllBytes(v.came) == HostLink.AllBytes(u.came) + Span(bytes, k + 3, LoopEnd(k + 3, PopsOf(u, v),
        budget - 1))
    ensures PopsOf(io, v) == PopsOf(u, v) + 1
    ensures HostLink.AllBytes(v.came) == HostLink.AllBytes(io.came) + Span(bytes, k, LoopEnd(k, PopsOf(io, v), budget))
  {
    hide Span, HostLink.AllBytes, LoopEnd;
    SpansJoin(bytes, k, PopsOf(u, v), budget, HostLink.AllBytes(io.came));
  }

  lemma SpansJoin(bytes: seq<seq<byte>>, k: nat, n: nat, budget: nat, before: seq<byte>)
    requires 0 < budget && n <= budget - 1
    ensures before + Span(bytes, k, k + 3) + Span(bytes, k + 3, LoopEnd(k + 3, n, budget - 1))
         == before + Span(bytes, k, LoopEnd(k, n + 1, budget))
  {
    var end := LoopEnd(k, n + 1, budget);
    assert LoopEnd(k + 3, n, budget - 1) == end;
    hide Span;
    SpanSplits(bytes, k, k + 3, end);
    Regroup(before, Span(bytes, k, k + 3), Span(bytes, k + 3, end));
  }

  lemma EmptySpan(bytes: seq<seq<byte>>, k: nat)
    ensures Span(bytes, k, k) == []
  {}

  /** The bytes that come in an iteration, by the point at which its receive loop ends. */
  ghost function Coming(s: Loop, i: Turn): seq<byte>
    requires Inv(s)
  {
    Span(i.irqs.bytes, 0, LoopEnd(0, Popped(s, i), UART_RX_BUDGET))
  }

  ghost function Popped(s: Loop, i: Turn): nat
    requires Inv(s)
  {
    IteratePops(s, i);
    PopsOf(s.io, Iterate(s, i).io)
  }

  /**
   * Whatever interrupts come at any point of it, the receive loop of an iteration pops bytes until it has 64 or has
   * found the ring empty.
   */
  lemma IteratePops(s: Loop, i: Turn)
    requires Inv(s)
    ensures RxRing.Inv(Iterate(s, i).io.rx)
    ensures var u := Iterate(s, i).io;
            var n := |u.rx.delivered| - |s.io.rx.delivered|;
            && 0 <= n <= 64 && (n == 64 || RxRing.Waiting(u.rx) == 0)
            && HostLink.AllBytes(u.came) == HostLink.AllBytes(s.io.came)
                                            + Span(i.irqs.bytes, 0, if n < 64 then 3 * n + 1 else 192)
  {
    hide Inv, Iterate, IoInv, RxRing.Inv, RxRing.Waiting, ListenAll, Span, HostLink.AllBytes;
    var io := HostLink.ReceiveNext(s, i);
    ListenAllPops(io, i.irqs.bytes, 0, UART_RX_BUDGET);
  }

  /** All that come in a run. */
  ghost function AllComing(s: Loop, turns: seq<Turn>): seq<byte>
    requires Inv(s)
    decreases turns
  {
    if turns == [] then [] else
      IterateReports(s, turns[0]);
      Coming(s, turns[0]) + AllComing(Iterate(s, turns[0]), turns[1..])
  }

  lemma {:induction false} RunComes(s: Loop, turns: seq<Turn>)
    requires Inv(s)
    ensures HostLink.AllBytes(Run(s, turns).io.came) == HostLink.AllBytes(s.io.came) + AllComing(s, turns)
    decreases turns
  {
    hide Inv, Iterate, Reports, Span, HostLink.AllBytes, RxRing.Inv, RxRing.Waiting;
    if turns != [] {
      IterateReports(s, turns[0]);
      IteratePops(s, turns[0]);
      RunComes(Iterate(s, turns[0]), turns[1..]);
      Regroup(HostLink.AllBytes(s.io.came), Coming(s, turns[0]), AllComing(Iterate(s, turns[0]), turns[1..]));
    }
  }

  /**
   * With at most 64 bytes an iteration the host's messages arrive: from power-on the parser has handed over exactly the
   * messages in all the bytes that came, in order.
   */
  lemma HostIsHeard(t: int, us: int, turns: seq<Turn>)
    requires HostLink.Modest(turns)
    ensures Inv(Initial(t, us))
    ensures var io, all := Run(Initial(t, us), turns).io, AllComing(Initial(t, us), turns);
            io.rx.delivered == all && io.heard == Msp.Messages(all)
  {
    NothingCameYet(t, us);
    hide Run, Inv, Initial, HostLink.Modest, AllComing, HostLink.AllBytes, Msp.Messages;
    HostLink.NoByteLost(t, us, turns);
    RunComes(Initial(t, us), turns);
  }

  lemma NothingCameYet(t: int, us: int)
    ensures HostLink.AllBytes(Initial(t, us).io.came) == []
  {}
}
