// Runs of the main loop in which a deadline that lies more than 2^31 ms back is taken for one still ahead: the flow
// sensor is not checked, and NodeStatus is not sent. The loop turns once a millisecond all along.
module MainMisses {
  import opened Common
  import opened WrapTime
  import opened Health
  import opened MainModel
  import opened MainRuns
  import opened MainRetry
  import opened MainBringUp
  import opened MainStatus
  import CanTx
  import MainIo
  import PmwCounts
  import PmwModel
  import TofModel

  /** What a quiet iteration differs in: nothing, the bus being off, or the flow sensor not taking the power-up write. */
  datatype Kind = Calm | BusOff | Deaf

  /** An iteration at t in which nothing else happens; the counters start together. */
  function Tick(t: int, kind: Kind): Turn {
    Turn(t, Micros(1000 * t, 1000 * t, 1000 * t, 1000 * t, 1000 * t), false, None,
         PmwModel.Spi(kind != Deaf, true, PmwModel.PRODUCT_ID, true, PmwModel.INVERSE_ID, true, true), true,
         false, TofModel.Bus(0, true, true, true, true, true, true, true, true, true, true, true, true, true, true, 0, 0),
         kind == BusOff, 0, 0, CanTx.PollInput(0, 0, 0, [], kind == BusOff, 0, 0),
         MainIo.Irqs([], [], [], [], [], [], []))
  }

  /** One such iteration in each of the n milliseconds after t. */
  function Ticks(t: int, n: nat, kind: Kind): (r: seq<Turn>)
    ensures |r| == n
    decreases n
  {
    if n == 0 then [] else [Tick(t + 1, kind)] + Ticks(t + 1, n - 1, kind)
  }

  /** Iterations exactly a millisecond apart. */
  predicate EveryMs(last: int, turns: seq<Turn>)
    decreases turns
  {
    turns == [] || (turns[0].t == last + 1 && EveryMs(turns[0].t, turns[1..]))
  }

  lemma {:induction false} TicksRun(t: int, n: nat, kind: Kind)
    ensures EveryMs(t, Ticks(t, n, kind)) && End(t, Ticks(t, n, kind)) == t + n
    ensures forall k :: 0 <= k < n ==> Ticks(t, n, kind)[k].poll.busOff == (kind == BusOff)
    decreases n
  {
    if n > 0 {
      TicksRun(t + 1, n - 1, kind);
      assert Ticks(t, n, kind)[1..] == Ticks(t + 1, n - 1, kind);
    }
  }

  lemma {:induction false} EveryMsConcat(last: int, a: seq<Turn>, b: seq<Turn>)
    requires EveryMs(last, a) && EveryMs(End(last, a), b)
    ensures EveryMs(last, a + b) && End(last, a + b) == End(End(last, a), b)
    decreases a
  {
    if a == [] {
      assert a + b == b;
    } else {
      assert (a + b)[1..] == a[1..] + b;
      EveryMsConcat(a[0].t, a[1..], b);
    }
  }

  // ---------------------------------------------------------------- NodeStatus is missed

  /** The first poll of a node whose counter starts below 2^31 finds NodeStatus due, with the whole pool free. */
  lemma FirstStatusDue(t: int, us: int)
    requires Stamp(t) < HALF
    ensures Due(Initial(t, us), Tick(t, Calm)) && Initial(t, us).can == CanTx.INITIAL
  {}

  lemma PublishedFree(s: Loop, i: Turn, flowDue: bool, rangeDue: bool)
    requires MainIo.IoInv(s.io) && CanTx.Inv(s.can) && CanTx.Free(s.can) >= 40
    ensures CanTx.Free(PublishStages(s, i, flowDue, rangeDue).can) >= CanTx.Free(s.can) - 7
    ensures PublishStages(s, i, flowDue, rangeDue).can.rxBlocks == s.can.rxBlocks
  {
    hide Noted, Taken, FlowReport, CanTx.Broadcast, PmwCounts.FlowStep, MainIo.IoInv, MainIo.Idle, MainIo.ListenAll,
      FlowSent, RangeSent, CanTx.Inv;
    var a := FlowStage(s, i, flowDue).can;
    CanTx.BroadcastExactly(s.can, CanTx.FLOW_ID, CanTx.PRIORITY_LOW, CanTx.FLOW_LENGTH, i.flowUs);
    CanTx.BroadcastExactly(a, CanTx.RANGE_ID, CanTx.PRIORITY_LOW, CanTx.RANGE_LENGTH, i.rangeUs);
  }

  lemma {:induction false} QuietReceipts(s: CanTx.Tx, arrivals: seq<CanTx.Arrival>)
    requires forall k :: 0 <= k < |arrivals| ==> arrivals[k] == CanTx.Quiet(0)
    requires CanTx.Free(s) > 0
    ensures CanTx.Free(CanTx.ReceiveAll(s, arrivals)) > 0
    decreases arrivals
  {
    if arrivals != [] {
      QuietReceipts(CanTx.Receive(s, arrivals[0]), arrivals[1..]);
    }
  }

  lemma QuietPollHasRoom(s: CanTx.Tx, p: CanTx.PollInput, n: nat)
    requires CanTx.Free(s) > 0 && p.arrivals == Effects([], n)
    ensures CanTx.Free(CanTx.Received(s, p)) > 0
  {
    hide CanTx.ReceiveAll;
    CanTx.KeptMembers(s.queue, p.nowUs);
    QuietReceipts(CanTx.Clean(s, p.nowUs, p.rxLeft), CanTx.Budgeted(p.arrivals));
  }

  lemma FirstPollHasRoom(t: int, us: int)
    requires Stamp(t) < HALF
    ensures Inv(Initial(t, us)) && Room(Initial(t, us), Tick(t, Calm))
  {
    InitialInv(t, us);
    FirstStatusDue(t, us);
    var s, i := Initial(t, us), Tick(t, Calm);
    var empty := CanTx.INITIAL;
    assert CanTx.Free(empty) == 51 && CanTx.Inv(empty) by { CanTx.InitialInv(); }
    assert i.poll.arrivals == [];
    hide Inv, Initial, Tick, SensorStages, PublishStages, BusStage, CanTx.Inv, CanTx.Free, CanTx.Received, MainIo.IoInv,
      MainIo.Polled, Effects, Kept, Runnable, PmwStages, TofTurn, TofFlagged, Stamp;
    PollOf(s, i, empty);
  }

  /** An iteration that gives a poll nothing to answer has room for NodeStatus when most of the pool was free. */
  lemma PollOf(s: Loop, i: Turn, c: CanTx.Tx)
    requires Inv(s) && s.can == c && CanTx.Inv(c) && CanTx.Free(c) == 51 && i.poll.arrivals == []
    ensures Room(s, i)
  {
    hide Kept, SensorStages, PublishStages, BusStage, CanTx.Inv, CanTx.Free, CanTx.Received, MainIo.IoInv,
      MainIo.Polled, Effects, Runnable, PmwStages, TofTurn, TofFlagged, Stamp;
    KeptFacts(s);
    SensorStagesShape(s, i);
    var (a, flowDue, rangeDue) := SensorStages(s, i);
    PublishedFree(a, i, flowDue, rangeDue);
    var b := PublishStages(a, i, flowDue, rangeDue);
    BusStageShape(b, i);
    var n := MainIo.Polled(BusStage(b, i).io, i.irqs.can).1;
    QuietPollHasRoom(b.can, PollWith(i, n), n);
  }

  /** Bus-off polls neither call for a NodeStatus nor move its deadline. */
  lemma {:induction false} BusOffAside(t: int, n: nat, r: int, rest: seq<Turn>)
    ensures Prompt(r, Ticks(t, n, BusOff) + rest) <==> Prompt(r, rest)
    decreases n
  {
    if n == 0 {
      assert Ticks(t, n, BusOff) + rest == rest;
    } else {
      var all := Ticks(t, n, BusOff) + rest;
      assert all[0] == Tick(t + 1, BusOff) && all[1..] == Ticks(t + 1, n - 1, BusOff) + rest;
      BusOffAside(t + 1, n - 1, r, rest);
    }
  }

  lemma BusOffUnseen(t: int, n: nat, r: int, more: seq<Turn>)
    requires r + HALF <= t + n && Ordered(t + n, more) && End(t + n, more) < r + WRAP
    ensures Unseen(r, Ticks(t, n, BusOff) + more)
  {
    TicksRun(t, n, BusOff);
    OrderedUnseen(t + n, r, more);
    hide Ticks;
  }

  /** With the bus on at t and off for n ms: the turns, and what comes after. */
  function LongBusOff(t: int, n: nat): seq<Turn> {
    [Tick(t, Calm)] + Ticks(t, n, BusOff)
  }

  /**
   * A reachable run that silences the node. The counter starts below 2^31, as it does, counting from zero at reset, and
   * the first poll makes a NodeStatus. Then the bus goes off for n ms, 2^31 ms and a second at least, with an iteration
   * every millisecond. Whatever comes after, no other NodeStatus is made until 2^32 ms after the second one was due.
   */
  lemma StatusMissed(t: int, us: int, n: nat, more: seq<Turn>)
    requires Stamp(t) < HALF && n >= HALF + CanTx.STATUS_INTERVAL_MS
    requires Ordered(t + n, more) && End(t + n, more) < t + CanTx.STATUS_INTERVAL_MS + WRAP
    ensures Inv(Initial(t, us)) && EveryMs(t - 1, LongBusOff(t, n))
    ensures CanTx.Statuses(Run(Initial(t, us), [Tick(t, Calm)]).can.made) == 1
    ensures CanTx.Statuses(Run(Initial(t, us), LongBusOff(t, n) + more).can.made) == 1
    ensures more != [] && !more[0].poll.busOff ==> !Prompt(FirstDue(t), LongBusOff(t, n) + more)
  {
    hide Run, Inv, Initial, Iterate, Tick, Ticks, Room, Due, Stamp, Unseen, Prompt, Ordered, CanTx.Statuses;
    var first, rest := Tick(t, Calm), Ticks(t, n, BusOff) + more;
    assert LongBusOff(t, n) + more == [first] + rest;
    LongBusOffEveryMs(t, n);
    LateCall(t, n, more);
    FirstStatusMade(t, us);
    FirstTick(t);
    BusOffUnseen(t, n, t + CanTx.STATUS_INTERVAL_MS, more);
    SilentAfterLongBusOff(Initial(t, us), first, rest);
    RunCons(Initial(t, us), first, rest);
    RunOne(Initial(t, us), first);
  }

  lemma FirstTick(t: int)
    ensures Tick(t, Calm).t == t && !Tick(t, Calm).poll.busOff
  {}

  lemma LongBusOffEveryMs(t: int, n: nat)
    ensures EveryMs(t - 1, LongBusOff(t, n))
  {
    TicksRun(t, n, BusOff);
    FirstTick(t);
    hide Ticks, Tick;
    assert LongBusOff(t, n)[1..] == Ticks(t, n, BusOff);
  }

  lemma FirstStatusMade(t: int, us: int)
    requires Stamp(t) < HALF
    ensures Inv(Initial(t, us)) && Due(Initial(t, us), Tick(t, Calm))
    ensures CanTx.Statuses(Iterate(Initial(t, us), Tick(t, Calm)).can.made) == 1
  {
    hide Inv, Initial, Iterate, Tick, Room, Due, Stamp, CanTx.Statuses, Read;
    FirstStatusDue(t, us);
    FirstPollHasRoom(t, us);
    NothingMade();
    StatusNext(Initial(t, us), Tick(t, Calm));
  }

  lemma RunOne(s: Loop, i: Turn)
    requires Inv(s)
    ensures Run(s, [i]) == Iterate(s, i)
  {
    hide Iterate, Inv;
    RunCons(s, i, []);
    assert [i] + [] == [i];
  }

  lemma NothingMade()
    ensures CanTx.INITIAL.made == [] && CanTx.Statuses([]) == 0
  {}

  /** The first poll with the bus on after the stretch is called to make a NodeStatus and comes too late. */
  lemma LateCall(t: int, n: nat, more: seq<Turn>)
    requires Stamp(t) < HALF && n >= HALF + CanTx.STATUS_INTERVAL_MS
    requires Ordered(t + n, more) && End(t + n, more) < t + CanTx.STATUS_INTERVAL_MS + WRAP
    ensures more != [] && !more[0].poll.busOff ==> !Prompt(FirstDue(t), LongBusOff(t, n) + more)
  {
    var first, rest := Tick(t, Calm), Ticks(t, n, BusOff) + more;
    assert first.t == t && !first.poll.busOff && FirstDue(t) <= t;
    var all := LongBusOff(t, n) + more;
    assert all == [first] + rest && all[0] == first && all[1..] == rest;
    BusOffAside(t, n, t + 1000, more);
    hide Tick, Ticks, LongBusOff;
    if more != [] {
      OrderedUnseen(more[0].t, t + 1000, more[1..]);
    }
  }

  // ---------------------------------------------------------------- health checks are missed

  /** No iteration checks the flow sensor. */
  ghost predicate NoChecks(s: Loop, turns: seq<Turn>)
    requires Inv(s)
    decreases turns
  {
    turns != [] ==>
    !Checks(s, turns[0]) && (IterateReports(s, turns[0]); NoChecks(Iterate(s, turns[0]), turns[1..]))
  }

  lemma {:induction false} NoChecksConcat(s: Loop, a: seq<Turn>, b: seq<Turn>)
    requires Inv(s) && NoChecks(s, a)
    ensures Inv(Run(s, a)) && (NoChecks(Run(s, a), b) ==> NoChecks(s, a + b))
    decreases a
  {
    hide Inv, Iterate, Reports, Checks;
    if a == [] {
      assert a + b == b;
    } else {
      IterateReports(s, a[0]);
      NoChecksConcat(Iterate(s, a[0]), a[1..], b);
      assert (a + b)[1..] == a[1..] + b;
    }
  }

  /** Without checks the deadline stays. */
  lemma {:induction false} NoChecksKeepDeadline(s: Loop, turns: seq<Turn>)
    requires Inv(s) && NoChecks(s, turns)
    ensures Run(s, turns).pmwCheck == s.pmwCheck
    decreases turns
  {
    hide Inv, Iterate, Reports, Checks, ToCheck;
    if turns != [] {
      IterateReports(s, turns[0]);
      CheckNext(s, turns[0]);
      NoChecksKeepDeadline(Iterate(s, turns[0]), turns[1..]);
    }
  }

  /** No check is made from 2^31 ms to 2^32 ms after the true deadline. */
  lemma {:induction false} UncheckedWhileUnseen(s: Loop, c: int, last: int, turns: seq<Turn>)
    requires Inv(s) && s.pmwCheck == Stamp(c) && c + HALF <= last && Ordered(last, turns) && End(last, turns) < c + WRAP
    ensures NoChecks(s, turns)
    decreases turns
  {
    hide Inv, Iterate, Reports, Stamp, Reached, ToCheck;
    if turns != [] {
      var i := turns[0];
      OrderedUnseen(i.t, c, turns[1..]);
      ReachedModulo(i.t, c);
      IterateReports(s, i);
      CheckNext(s, i);
      UncheckedWhileUnseen(Iterate(s, i), c, i.t, turns[1..]);
    }
  }

  /** The sensor is down after an iteration at t, its next attempt at r: at rest, or at a step it can still take. */
  ghost predicate Down(p: Pmw, last: int, t: int, r: int) {
    && PmwModel.OnScript(p.flow.att, last) && p.retryAt == Stamp(r) && t < r <= t + SENSOR_RETRY_MS
    && 1000 * t <= last < 1000 * (t + 1)
    && (p.Device().initState == PmwModel.Idle
        || (p.Device().initState in {PmwModel.ResetAsserted, PmwModel.ReleaseWait}
            && OnCourse(p, last, r, 1000, 1000 * r - 1)))
  }

  lemma DownFacts(p: Pmw, last: int, t: int, r: int)
    requires Down(p, last, t, r)
    ensures PmwModel.OnScript(p.flow.att, last) && p.retryAt == Stamp(r) && t < r <= t + SENSOR_RETRY_MS
    ensures 1000 * t <= last < 1000 * (t + 1) && !p.Device().initialized
    ensures p.Device().initState in {PmwModel.Idle, PmwModel.ResetAsserted, PmwModel.ReleaseWait}
    ensures p.Device().initState != PmwModel.Idle ==> OnCourse(p, last, r, 1000, 1000 * r - 1)
  {
    DoneIsInitialised(p.flow.att, last);
    hide PmwModel.OnScript, OnCourse, Stamp;
  }

  /** Without the power-up write an attempt gets no further than the write. */
  lemma DeafStep(a: PmwModel.Attempt, us: int, spi: PmwModel.Spi)
    requires a.dev.initState in {PmwModel.ResetAsserted, PmwModel.ReleaseWait} && !spi.powerOk
    ensures PmwModel.InitStep(a, us, spi).0.dev.initState
            in {PmwModel.ResetAsserted, PmwModel.ReleaseWait, PmwModel.Failed}
  {
    hide Stamp, Plus, Reached;
  }

  lemma DeafInitStage(p: Pmw, last: int, t: int, r: int)
    requires p.retryAt == Stamp(r) && t + 1 < r <= t + 1 + SENSOR_RETRY_MS && !p.Device().initialized
    requires PmwModel.OnScript(p.flow.att, last) && last <= 1000 * (t + 1) <= last + 1000
    requires p.Device().initState in {PmwModel.ResetAsserted, PmwModel.ReleaseWait}
    requires OnCourse(p, last, r, 1000, 1000 * r - 1)
    ensures var q := InitStage(p, Tick(t + 1, Deaf));
            !q.Device().initialized
            && (Down(q, 1000 * (t + 1), t + 1, r) || Down(q, 1000 * (t + 1), t + 1, t + 1 + SENSOR_RETRY_MS))
  {
    var i, us := Tick(t + 1, Deaf), 1000 * (t + 1);
    DeafTick(t + 1);
    hide PmwModel.OnScript, OnCourse, PmwModel.InitStep, PmwModel.Advances, Stamp, Plus, Raise, Lower, Tick;
    DeafStep(p.flow.att, us, i.spi);
    PmwModel.StepExactly(p.flow.att, last, us, i.spi);
    InitStepReturns(p.flow.att, us, i.spi);
    var b := PmwModel.InitStep(p.flow.att, us, i.spi).0;
    if b.dev.initState == PmwModel.Failed {
      PlusIsTrue(t + 1, SENSOR_RETRY_MS);
      AbandonedOnScript(p.Flowed(PmwCounts.Initialise(us, i.spi)).flow, us);
    } else {
      StepOnCourse(p, InitStage(p, i), last, us, i.spi, r, 1000, 1000 * r - 1);
    }
  }

  lemma DeafTick(t: int)
    ensures var i := Tick(t, Deaf);
            && i.t == t && i.us.begin == i.us.step == 1000 * t && !i.spi.powerOk && i.alive && !i.motionIrq
  {}

  /** An iteration of a sensor that does not take the power-up write leaves it down. */
  lemma DeafStages(p: Pmw, last: int, t: int, r: int) returns (next: int)
    requires Down(p, last, t, r)
    ensures Down(PmwStages(p, Tick(t + 1, Deaf)), 1000 * (t + 1), t + 1, next)
    ensures var i := Tick(t + 1, Deaf);
            !InitStage(RetryStage(MotionStage(p, i), i), i).Device().initialized
  {
    var i := Tick(t + 1, Deaf);
    DeafTick(t + 1);
    DownFacts(p, last, t, r);
    hide Down, PmwModel.OnScript, OnCourse, MotionStage, InitStage, CheckStage, Stamp, Plus, Reached, Tick,
      PmwModel.StartInit;
    DownStages(p, i);
    ReachedNear(t + 1, r);
    var b := RetryStage(p, i);
    if t + 1 == r {
      PlusIsTrue(r, SENSOR_RETRY_MS);
      next := DeafStart(p, b, t);
    } else if p.Device().initState == PmwModel.Idle {
      next := r;
      IdleStays(p, last, t, r);
    } else {
      DeafInitStage(p, last, t, r);
      next := if Down(InitStage(p, i), 1000 * (t + 1), t + 1, r) then r else t + 1 + SENSOR_RETRY_MS;
    }
    DownStages(InitStage(b, i), i);
  }

  lemma IdleStays(p: Pmw, last: int, t: int, r: int)
    requires Down(p, last, t, r) && p.Device().initState == PmwModel.Idle && t + 1 < r
    ensures InitStage(p, Tick(t + 1, Deaf)) == p && !p.Device().initialized
    ensures Down(p, 1000 * (t + 1), t + 1, r)
  {
    DownFacts(p, last, t, r);
    PmwModel.LaterOnScript(p.flow.att, last, 1000 * (t + 1));
    hide PmwModel.OnScript, OnCourse, Stamp;
  }

  lemma DeafStart(p: Pmw, b: Pmw, t: int) returns (next: int)
    requires b.flow.att == PmwModel.StartInit(p.flow.att, 1000 * (t + 1))
    requires b.retryAt == Stamp(t + 1 + SENSOR_RETRY_MS)
    ensures Down(InitStage(b, Tick(t + 1, Deaf)), 1000 * (t + 1), t + 1, next)
    ensures !InitStage(b, Tick(t + 1, Deaf)).Device().initialized
  {
    var us := 1000 * (t + 1);
    PmwModel.StartOnScript(p.flow.att, us);
    assert b.Device().initState == PmwModel.ResetAsserted && !b.Device().initialized;
    hide PmwModel.OnScript, OnCourse, InitStage, Stamp, Plus, Tick, PmwModel.StartInit;
    NewAttemptOnCourse(b, p.flow.att, us, t + 1 + SENSOR_RETRY_MS, 1000);
    LaterFinish(b, us, t + 1 + SENSOR_RETRY_MS, us + 187_000, 1000 * (t + 1 + SENSOR_RETRY_MS) - 1);
    DeafInitStage(b, us, t, t + 1 + SENSOR_RETRY_MS);
    next := t + 1 + SENSOR_RETRY_MS;
  }

  lemma LaterFinish(p: Pmw, last: int, retry: int, finish: int, later: int)
    requires OnCourse(p, last, retry, 1000, finish) && finish <= later
    ensures OnCourse(p, last, retry, 1000, later)
  {
    hide PmwModel.OnScript, Stamp;
  }

  /** While the sensor is deaf it stays down, and no iteration checks it. */
  lemma {:induction false} DeafRun(s: Loop, last: int, t: int, r: int, n: nat) returns (end: int, next: int)
    requires Inv(s) && Down(PmwOf(s), last, t, r)
    ensures NoChecks(s, Ticks(t, n, Deaf))
    ensures Down(PmwOf(Run(s, Ticks(t, n, Deaf))), end, t + n, next)
    decreases n
  {
    hide Inv, Iterate, Reports, Down, PmwStages, Stamp, Reached, Tick, MotionStage, RetryStage, InitStage;
    if n == 0 {
      return last, r;
    }
    var i := Tick(t + 1, Deaf);
    IterateReports(s, i);
    var u := Iterate(s, i);
    var r' := DeafStages(PmwOf(s), last, t, r);
    IterateAttempt(s, i);
    SameDown(PmwStages(PmwOf(s), i), PmwOf(u), 1000 * (t + 1), t + 1, r');
    end, next := DeafRun(u, 1000 * (t + 1), t + 1, r', n - 1);
    assert Ticks(t, n, Deaf)[1..] == Ticks(t + 1, n - 1, Deaf);
  }

  lemma SameDown(p: Pmw, q: Pmw, last: int, t: int, r: int)
    requires Down(p, last, t, r) && PmwModel.SameAttempt(p.flow.att, q.flow.att) && q.retryAt == p.retryAt
    ensures Down(q, last, t, r)
  {
    PmwModel.SameOnScript(p.flow.att, q.flow.att, last);
    hide PmwModel.OnScript, OnCourse, Stamp;
    if p.Device().initState != PmwModel.Idle {
      SameOnCourse(p, q, last, r, 1000, 1000 * r - 1);
    }
  }

  lemma CalmTick(t: int)
    ensures var i := Tick(t, Calm);
            && i.t == t && i.us.begin == i.us.step == 1000 * t && i.alive && !i.motionIrq && PmwModel.AllWell(i.spi)
            && MainBringUp.Calm(i)
  {}

  lemma {:induction false} TicksAreSmooth(t: int, last: int, n: nat)
    requires 1000 * t <= last <= 1000 * (t + 1)
    ensures Smooth(t, last, 1000, Ticks(t, n, Calm))
    ensures n > 0 ==> LastStep(last, Ticks(t, n, Calm)) == 1000 * (t + n)
    decreases n
  {
    hide Tick;
    if n > 0 {
      CalmTick(t + 1);
      TicksAreSmooth(t + 1, 1000 * (t + 1), n - 1);
      assert Ticks(t, n, Calm)[1..] == Ticks(t + 1, n - 1, Calm);
    }
  }

  /** A sensor at rest stays so until its next attempt is due. */
  lemma RestsOn(s: Loop, last: int, t: int, r: int)
    requires Inv(s) && Down(PmwOf(s), last, t, r) && s.flow.att.dev.initState == PmwModel.Idle && t + 1 < r
    ensures Inv(Iterate(s, Tick(t + 1, Calm)))
    ensures var u := Iterate(s, Tick(t + 1, Calm));
            Down(PmwOf(u), 1000 * (t + 1), t + 1, r) && u.flow.att.dev.initState == PmwModel.Idle
  {
    var i, p := Tick(t + 1, Calm), PmwOf(s);
    CalmTick(t + 1);
    hide Inv, Iterate, Reports, Down, Stamp, Reached, Tick, MotionStage, CheckStage;
    IterateReports(s, i);
    DownFacts(p, last, t, r);
    ReachedNear(t + 1, r);
    DownStages(p, i);
    assert PmwStages(p, i) == p;
    IterateAttempt(s, i);
    RestLater(p, last, t, r);
    SameDown(p, PmwOf(Iterate(s, i)), 1000 * (t + 1), t + 1, r);
  }

  lemma RestLater(p: Pmw, last: int, t: int, r: int)
    requires Down(p, last, t, r) && p.Device().initState == PmwModel.Idle && t + 1 < r
    ensures Down(p, 1000 * (t + 1), t + 1, r)
  {
    PmwModel.LaterOnScript(p.flow.att, last, 1000 * (t + 1));
    hide PmwModel.OnScript, OnCourse, Stamp;
  }

  /** Once the sensor takes transfers again, it is up 200 ms after its next attempt is due. */
  lemma {:induction false} Heals(s: Loop, last: int, t: int, r: int, n: nat)
    requires Inv(s) && Down(PmwOf(s), last, t, r) && t + n >= r + 200
    ensures Run(s, Ticks(t, n, Calm)).flow.att.dev.initialized
    decreases n
  {
    hide Inv, Iterate, Reports, Down, OnCourse, Stamp, Reached, Tick, Smooth, Starts, LastStep;
    DownFacts(PmwOf(s), last, t, r);
    var i := Tick(t + 1, Calm);
    CalmTick(t + 1);
    assert Ticks(t, n, Calm) == [i] + Ticks(t + 1, n - 1, Calm);
    if s.flow.att.dev.initState != PmwModel.Idle {
      TicksAreSmooth(t, last, n);
      RunOnCourse(s, t, last, r, 1000, 1000 * r - 1, Ticks(t, n, Calm));
      UpByTheFinish(PmwOf(Run(s, Ticks(t, n, Calm))), 1000 * (t + n), r, 1000, 1000 * r - 1);
    } else {
      RunCons(s, i, Ticks(t + 1, n - 1, Calm));
      if t + 1 < r {
        RestsOn(s, last, t, r);
        Heals(Iterate(s, i), 1000 * (t + 1), t + 1, r, n - 1);
      } else {
        StartsAgain(s, last, t, r);
        TicksAreSmooth(t + 1, 1000 * (t + 1), n - 1);
        RestartCompletes(s, i, Ticks(t + 1, n - 1, Calm), 1000, 1000);
      }
    }
  }

  lemma StartsAgain(s: Loop, last: int, t: int, r: int)
    requires Down(PmwOf(s), last, t, r) && t + 1 == r
    ensures Starts(s, Tick(t + 1, Calm))
  {
    DownFacts(PmwOf(s), last, t, r);
    CalmTick(t + 1);
    ReachedNear(t + 1, r);
    hide Down, OnCourse, PmwModel.OnScript, Stamp, Reached, Tick;
  }

  /** The sensor takes no power-up write for n ms, and every transfer succeeds in the m ms after that. */
  function LateBringUp(t: int, n: nat, m: nat): seq<Turn> {
    Ticks(t, n, Deaf) + Ticks(t + n, m, Calm)
  }

  lemma LateBringUpTimes(t: int, n: nat, m: nat)
    ensures EveryMs(t, LateBringUp(t, n, m)) && End(t, LateBringUp(t, n, m)) == t + n + m
  {
    TicksRun(t, n, Deaf);
    TicksRun(t + n, m, Calm);
    EveryMsConcat(t, Ticks(t, n, Deaf), Ticks(t + n, m, Calm));
    hide Ticks;
  }

  lemma DownAtStart(t: int, us: int)
    requires 1000 * t <= us < 1000 * (t + 1)
    ensures Down(PmwOf(Initial(t, us)), us, t, t + SENSOR_RETRY_MS)
  {
    var p := PmwOf(Initial(t, us));
    var prior := PmwModel.Attempt(PmwModel.ResetDevice(Stamp(us)), []);
    InitialDeadlines(t, us);
    assert p.flow.att == PmwModel.StartInit(prior, us) && p.Device().initState == PmwModel.ResetAsserted;
    hide PmwModel.OnScript, OnCourse, Initial, Stamp, PmwModel.StartInit;
    PmwModel.StartOnScript(prior, us);
    NewAttemptOnCourse(p, prior, us, t + SENSOR_RETRY_MS, 1000);
    LaterFinish(p, us, t + SENSOR_RETRY_MS, us + 187_000, 1000 * (t + SENSOR_RETRY_MS) - 1);
  }

  /** The run up to the end of the bring-up. */
  lemma LateBringUpRun(t: int, us: int, n: nat, m: nat)
    requires Inv(Initial(t, us)) && 1000 * t <= us < 1000 * (t + 1) && n >= HALF + PMW_HEALTH_CHECK_MS && m >= 1200
    requires n + m < WRAP
    ensures var s := Run(Initial(t, us), LateBringUp(t, n, m));
            Inv(s) && s.flow.att.dev.initialized && NoChecks(Initial(t, us), LateBringUp(t, n, m))
  {
    hide Run, Inv, Initial, Down, Ticks, Stamp, NoChecks, EveryMs, Ordered;
    var s := Initial(t, us);
    var deaf, calm := Ticks(t, n, Deaf), Ticks(t + n, m, Calm);
    DownAtStart(t, us);
    var last, r := DeafRun(s, us, t, t + SENSOR_RETRY_MS, n);
    RunKeepsInv(s, deaf);
    var u := Run(s, deaf);
    DownFacts(PmwOf(u), last, t + n, r);
    Heals(u, last, t + n, r, m);
    RunConcat(s, deaf, calm);
    RunKeepsInv(u, calm);
    NoChecksKeepDeadline(s, deaf);
    InitialDeadlines(t, us);
    TicksRun(t + n, m, Calm);
    EveryMsOrdered(t + n, calm);
    UncheckedWhileUnseen(u, t + PMW_HEALTH_CHECK_MS, t + n, calm);
    NoChecksConcat(s, deaf, calm);
  }

  lemma {:induction false} EveryMsOrdered(last: int, turns: seq<Turn>)
    requires EveryMs(last, turns)
    ensures Ordered(last, turns)
    decreases turns
  {
    if turns != [] {
      EveryMsOrdered(turns[0].t, turns[1..]);
    }
  }

  /**
   * A reachable run that misses the health checks. The flow sensor does not take the power-up write for n ms, 2^31 ms and
   * a second at least, with an iteration every millisecond; then it is brought up. It is not checked then, nor in any
   * iteration after that until 2^32 ms after the first check was due.
   */
  lemma CheckMissed(t: int, us: int, n: nat, m: nat, more: seq<Turn>)
    requires 1000 * t <= us < 1000 * (t + 1) && n >= HALF + PMW_HEALTH_CHECK_MS && m >= 1200 && n + m < WRAP
    requires Ordered(t + n + m, more) && End(t + n + m, more) < t + PMW_HEALTH_CHECK_MS + WRAP
    ensures EveryMs(t, LateBringUp(t, n, m)) && Inv(Initial(t, us))
    ensures Run(Initial(t, us), LateBringUp(t, n, m)).flow.att.dev.initialized
    ensures NoChecks(Initial(t, us), LateBringUp(t, n, m) + more)
    ensures !Attended(Initial(t, us), t + PMW_HEALTH_CHECK_MS, LateBringUp(t, n, m))
  {
    hide Run, Inv, Initial, Stamp, Attended, CheckDue, ChecksOnTime, LateBringUp, NoChecks, Ordered, EveryMs;
    var s, turns := Initial(t, us), LateBringUp(t, n, m);
    InitialInv(t, us);
    InitialDeadlines(t, us);
    LateBringUpTimes(t, n, m);
    LateBringUpRun(t, us, n, m);
    NoChecksKeepDeadline(s, turns);
    UncheckedWhileUnseen(Run(s, turns), t + PMW_HEALTH_CHECK_MS, t + n + m, more);
    NoChecksConcat(s, turns, more);
    EveryMsOrdered(t, turns);
    CheckedExactly(t, us, turns);
    if Attended(s, t + PMW_HEALTH_CHECK_MS, turns) {
      DifferentStamps(t + PMW_HEALTH_CHECK_MS, CheckDue(s, t + PMW_HEALTH_CHECK_MS, turns));
    }
  }

  lemma DifferentStamps(a: int, b: int)
    requires a < b < a + WRAP
    ensures Stamp(a) != Stamp(b)
  {}
}
