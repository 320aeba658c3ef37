// NodeStatus over whole runs of the main loop (protocol/dronecan.c:64-71): when it keeps its one-second schedule, and
// two kinds of runs in which it falls silent.
module MainStatus {
  import opened WrapTime
  import opened Health
  import opened MainModel
  import opened MainRuns
  import opened MainRetry
  import CanTx
  import MainIo
  import PmwCounts
  import TofModel

  // ---------------------------------------------------------------- one iteration

  /** Whether the poll of an iteration finds NodeStatus due. */
  predicate Due(s: Loop, i: Turn) {
    !i.poll.busOff && Reached(Stamp(i.t), s.can.nextStatus)
  }

  /** Whether one is called for, r being the true time it is due: bus-off polls do not count. */
  predicate CalledFor(i: Turn, r: int) {
    !i.poll.busOff && i.t >= r
  }

  function NextDue(i: Turn, r: int): int {
    if CalledFor(i, r) then i.t + CanTx.STATUS_INTERVAL_MS else r
  }

  lemma PublishStagesQueue(s: Loop, i: Turn, flowDue: bool, rangeDue: bool)
    requires MainIo.IoInv(s.io) && CanTx.Inv(s.can)
    ensures var u := PublishStages(s, i, flowDue, rangeDue).can;
            && CanTx.Inv(u) && u.nextStatus == s.can.nextStatus && CanTx.Statuses(u.made) == CanTx.Statuses(s.can.made)
            && u.refused >= s.can.refused
  {
    hide Noted, Taken, FlowReport, CanTx.Broadcast, PmwCounts.FlowStep, MainIo.IoInv, MainIo.Idle, MainIo.ListenAll,
      FlowSent, RangeSent, CanTx.Inv, CanTx.Statuses;
    var a := FlowStage(s, i, flowDue).can;
    CanTx.PublishNoStatus(s.can, i.flowUs);
    CanTx.BroadcastExactly(s.can, CanTx.FLOW_ID, CanTx.PRIORITY_LOW, CanTx.FLOW_LENGTH, i.flowUs);
    CanTx.PublishNoStatus(a, i.rangeUs);
    CanTx.BroadcastExactly(a, CanTx.RANGE_ID, CanTx.PRIORITY_LOW, CanTx.RANGE_LENGTH, i.rangeUs);
  }

  /** Whether the poll of a stage has a block free for a NodeStatus. */
  ghost predicate StageRoom(s: Loop, i: Turn)
    requires MainIo.IoInv(s.io)
  {
    CanTx.Free(CanTx.Received(s.can, PollWith(i, MainIo.Polled(s.io, i.irqs.can).1))) > 0
  }

  lemma PollStageStatus(s: Loop, i: Turn)
    requires MainIo.IoInv(s.io) && CanTx.Inv(s.can)
    ensures var u := TakeStage(PollStage(s, i));
            && u.can.nextStatus == (if Due(s, i) then Stamp(i.t + CanTx.STATUS_INTERVAL_MS) else s.can.nextStatus)
            && CanTx.Statuses(u.can.made)
               == CanTx.Statuses(s.can.made) + (if Due(s, i) && StageRoom(s, i) then 1 else 0)
            && (Due(s, i) && !StageRoom(s, i) ==> Read(u.health).txOverflow)
  {
    hide MainIo.IoInv, MainIo.Polled, CanTx.Inv, CanTx.Statuses, CanTx.Poll, Read, Raise, Effects, Stamp, Reached, Plus,
      CanTx.Received, CanTx.Free;
    var n := MainIo.Polled(s.io, i.irqs.can).1;
    CanTx.PollMakesStatus(s.can, PollWith(i, n));
    CanTx.PollKeepsInv(s.can, PollWith(i, n));
    PlusIsTrue(i.t, CanTx.STATUS_INTERVAL_MS);
    OverflowKept(PollStage(s, i).can);
    TxNoted(s.health, !PollStage(s, i).can.overflow);
  }

  lemma OverflowKept(s: CanTx.Tx)
    requires CanTx.Inv(s)
    ensures s.overflow <==> s.refused > 0
  {
    hide CanTx.PerIdOrder, CanTx.SortedById;
  }

  /** The state in which an iteration polls. */
  ghost function AtPoll(s: Loop, i: Turn): (r: Loop)
    requires Inv(s)
    ensures MainIo.IoInv(r.io)
  {
    var (a, flowDue, rangeDue) := SensorStages(s, i);
    BusStage(PublishStages(a, i, flowDue, rangeDue), i)
  }

  /** Whether an iteration has a block free for a NodeStatus, after its publications, cleanup and receiving. */
  ghost predicate Room(s: Loop, i: Turn)
    requires Inv(s)
  {
    StageRoom(AtPoll(s, i), i)
  }

  lemma AtPollQueue(s: Loop, i: Turn)
    requires Inv(s)
    ensures var u := AtPoll(s, i);
            && CanTx.Inv(u.can) && u.can.nextStatus == s.can.nextStatus && u.can.refused >= s.can.refused
            && CanTx.Statuses(u.can.made) == CanTx.Statuses(s.can.made)
            && Iterate(s, i) == TakeStage(PollStage(u, i))
  {
    hide Kept, Runnable, SensorStages, PublishStages, BusStage, PollStage, TakeStage, PmwStages, TofTurn, TofFlagged,
      MainIo.IoInv, CanTx.Inv, CanTx.Statuses;
    KeptFacts(s);
    SensorStagesShape(s, i);
    var (a, flowDue, rangeDue) := SensorStages(s, i);
    PublishStagesQueue(a, i, flowDue, rangeDue);
    BusStageShape(PublishStages(a, i, flowDue, rangeDue), i);
  }

  /**
   * An iteration makes one NodeStatus frame exactly when it finds one due and has a block free, and flags one that is due
   * with no block free; then the next is due a second later, and otherwise when it was before.
   */
  lemma StatusNext(s: Loop, i: Turn)
    requires Inv(s)
    ensures var u := Iterate(s, i);
            && u.can.nextStatus == (if Due(s, i) then Stamp(i.t + CanTx.STATUS_INTERVAL_MS) else s.can.nextStatus)
            && CanTx.Statuses(u.can.made) == CanTx.Statuses(s.can.made) + (if Due(s, i) && Room(s, i) then 1 else 0)
            && (Due(s, i) && !Room(s, i) ==> Read(u.health).txOverflow)
  {
    hide Inv, Iterate, AtPoll, PollStage, TakeStage, StageRoom, MainIo.IoInv, Read;
    hide CanTx.Inv, CanTx.Statuses, Stamp, Reached;
    AtPollQueue(s, i);
    PollStageStatus(AtPoll(s, i), i);
  }

  // ---------------------------------------------------------------- the health word it carries

  lemma WordFacts(s: Loop, i: Turn)
    requires Inv(s)
    ensures s.can.refused == 0 && Kept(AtPoll(s, i))
    ensures var f, w, u := Read(s.health), Read(AtPoll(s, i).health), AtPoll(s, i);
            var down := u.tof.tof.state != TofModel.Running;
            && w == f.(pmw := w.pmw, tof := down, i2c := down, busOff := i.busOff,
                       rxOverflow := f.rxOverflow || MainIo.Flags(s.io, i.irqs.can).1,
                       txOverflow := f.txOverflow || u.can.refused > 0,
                       uartOverflow := f.uartOverflow || ReportRefused(Sensed(s, i), i, FlowDue(s, i), RangeDue(s, i)))
  {
    hide Runnable, Read, Kept, SensorStages, TofTurn, FlowDue, RangeDue, PublishStages, BusStage, ReportRefused,
      MainIo.IoInv, MainIo.Flags;
    SensorStagesKept(s, i);
    var (a, flowDue, rangeDue) := SensorStages(s, i);
    PublishStagesKept(a, i, flowDue, rangeDue);
    var b := PublishStages(a, i, flowDue, rangeDue);
    PublishStagesIo(a, i, flowDue, rangeDue);
    BusStageKept(b, i);
    BusStageReads(b, i);
    BusStageShape(b, i);
    FlagsAlike(b.io, s.io, i.irqs.can);
  }

  /**
   * The severity a NodeStatus of this iteration reports, if it makes one: it knows the sensors, the bus and the overflows
   * of this iteration, but of refused transfers only those before the poll; the poll's own, an answer's or its own
   * refusal, show from the next iteration on.
   */
  lemma StatusReports(s: Loop, i: Turn)
    requires Inv(s)
    ensures var w, u := Read(AtPoll(s, i).health), AtPoll(s, i);
            && NodeHealth(u.health) ==
               (if i.busOff then Critical
                else if w.pmw || u.tof.tof.state != TofModel.Running then Error
                else if w.rxOverflow || w.txOverflow || w.uartOverflow then Warning
                else Ok)
            && (w.pmw ==> !u.flow.att.dev.initialized)
            && (w.txOverflow <==> Read(s.health).txOverflow || u.can.refused > 0)
            && Read(Iterate(s, i).health) == w.(txOverflow := w.txOverflow || PollStage(u, i).can.refused > 0)
  {
    hide Inv, AtPoll, Kept, Read, Iterate, PollStage, TakeStage, MainIo.IoInv, MainIo.Flags, ReportRefused, Sensed,
      FlowDue, RangeDue, NodeHealth;
    WordFacts(s, i);
    var u := AtPoll(s, i);
    KeptFacts(u);
    SeverityRead(u.health);
    AtPollQueue(s, i);
    PollStageKept(u, i);
    TakeStageKept(PollStage(u, i));
  }

  // ---------------------------------------------------------------- whole runs

  /** Every iteration finds NodeStatus due exactly when it is called for. */
  ghost predicate OnTime(s: Loop, r: int, turns: seq<Turn>)
    requires Inv(s)
    decreases turns
  {
    turns != [] ==>
    && (Due(s, turns[0]) <==> CalledFor(turns[0], r))
    && (IterateReports(s, turns[0]); OnTime(Iterate(s, turns[0]), NextDue(turns[0], r), turns[1..]))
  }

  /** No poll that is called to send one comes 2^31 ms or more too late, counted modulo 2^32. */
  predicate Prompt(r: int, turns: seq<Turn>)
    decreases turns
  {
    turns != [] ==>
    && (CalledFor(turns[0], r) ==> (turns[0].t - r) % WRAP < HALF)
    && Prompt(NextDue(turns[0], r), turns[1..])
  }

  /** Where a run has taken the true deadline. */
  function DueAfter(r: int, turns: seq<Turn>): int
    decreases turns
  {
    if turns == [] then r else DueAfter(NextDue(turns[0], r), turns[1..])
  }

  predicate Armed(s: Loop, r: int, last: int) {
    s.can.nextStatus == Stamp(r) && r <= last + CanTx.STATUS_INTERVAL_MS
  }

  lemma DueExactly(s: Loop, i: Turn, r: int, last: int)
    requires Armed(s, r, last) && last <= i.t
    ensures CalledFor(i, r) ==> (Due(s, i) <==> (i.t - r) % WRAP < HALF)
    ensures !CalledFor(i, r) ==> !Due(s, i)
  {
    hide Stamp, Reached;
    ReachedModulo(i.t, r);
    if i.t < r {
      ReachedNear(i.t, r);
    }
  }

  lemma StaysArmed(s: Loop, r: int, last: int, i: Turn)
    requires Inv(s) && Armed(s, r, last) && last <= i.t
    requires Due(s, i) <==> CalledFor(i, r)
    ensures Armed(Iterate(s, i), NextDue(i, r), i.t)
  {
    hide Inv, Iterate, Room, Stamp, Reached, Read, CanTx.Statuses;
    StatusNext(s, i);
  }

  lemma {:induction false} OnTimeFrom(s: Loop, r: int, last: int, turns: seq<Turn>)
    requires Inv(s) && Armed(s, r, last) && Ordered(last, turns)
    ensures OnTime(s, r, turns) <==> Prompt(r, turns)
    ensures Prompt(r, turns) ==> Armed(Run(s, turns), DueAfter(r, turns), End(last, turns))
    decreases turns
  {
    hide Inv, Iterate, Reports, Armed, Due, CalledFor, NextDue;
    if turns != [] {
      var i := turns[0];
      DueExactly(s, i, r, last);
      IterateReports(s, i);
      if Due(s, i) <==> CalledFor(i, r) {
        StaysArmed(s, r, last, i);
        OnTimeFrom(Iterate(s, i), NextDue(i, r), i.t, turns[1..]);
      }
    }
  }

  /** After an iteration whose poll did not see bus-off the deadline is ahead. */
  lemma {:induction false} DueAhead(r: int, turns: seq<Turn>)
    requires turns != [] && !turns[|turns| - 1].poll.busOff
    ensures turns[|turns| - 1].t < DueAfter(r, turns)
    decreases turns
  {
    if |turns| > 1 {
      DueAhead(NextDue(turns[0], r), turns[1..]);
    } else {
      assert DueAfter(r, turns) == DueAfter(NextDue(turns[0], r), []);
    }
  }

  /** The true time at which the first NodeStatus is due: the instant of start at which the counter read zero. */
  function FirstDue(t: int): int {
    t - Stamp(t)
  }

  lemma FirstArmed(t: int, us: int)
    ensures Armed(Initial(t, us), FirstDue(t), t)
  {}

  /**
   * Over any run from power-on: NodeStatus is found due in exactly those iterations in which the bus is on and a
   * second has passed since it last was, the first time at once, if and only if no iteration called to send one comes
   * 2^31 ms or more too late. Then, after an iteration with the bus on, the next is due within a second and not
   * overdue.
   */
  lemma StatusOnSchedule(t: int, us: int, turns: seq<Turn>)
    requires Ordered(t, turns)
    ensures Inv(Initial(t, us))
    ensures OnTime(Initial(t, us), FirstDue(t), turns) <==> Prompt(FirstDue(t), turns)
    ensures Prompt(FirstDue(t), turns) && turns != [] && !turns[|turns| - 1].poll.busOff ==>
              var r := DueAfter(FirstDue(t), turns);
              && Run(Initial(t, us), turns).can.nextStatus == Stamp(r)
              && End(t, turns) < r <= End(t, turns) + CanTx.STATUS_INTERVAL_MS
  {
    hide Run, Inv, Initial, Stamp, OnTime, Prompt, Ordered, DueAfter, FirstDue;
    InitialInv(t, us);
    FirstArmed(t, us);
    OnTimeFrom(Initial(t, us), FirstDue(t), t, turns);
    if turns != [] && !turns[|turns| - 1].poll.busOff {
      DueAhead(FirstDue(t), turns);
    }
  }

  /** Successive polls with the bus on come at most 2^31 ms apart. */
  predicate ShortStretches(last: int, turns: seq<Turn>)
    decreases turns
  {
    turns != [] ==>
    if turns[0].poll.busOff then ShortStretches(last, turns[1..])
    else turns[0].t <= last + HALF && ShortStretches(turns[0].t, turns[1..])
  }

  /** That is enough; at the start, counted from just before the counter's last zero. */
  lemma {:induction false} ShortStretchesSuffice(last: int, r: int, turns: seq<Turn>)
    requires last < r && ShortStretches(last, turns)
    ensures Prompt(r, turns)
    decreases turns
  {
    if turns != [] {
      ShortStretchesSuffice(if turns[0].poll.busOff then last else turns[0].t, NextDue(turns[0], r), turns[1..]);
    }
  }

  // ---------------------------------------------------------------- where it falls silent

  /** Every poll with the bus on falls into the half period that the comparison takes for the time before r. */
  predicate Unseen(r: int, turns: seq<Turn>) {
    forall k :: 0 <= k < |turns| && !turns[k].poll.busOff ==> r + HALF <= turns[k].t < r + WRAP
  }

  /** In such iterations no NodeStatus is made or refused for. */
  lemma {:induction false} SilentWhileUnseen(s: Loop, r: int, turns: seq<Turn>)
    requires Inv(s) && s.can.nextStatus == Stamp(r) && Unseen(r, turns)
    ensures var u := Run(s, turns);
            u.can.nextStatus == s.can.nextStatus && CanTx.Statuses(u.can.made) == CanTx.Statuses(s.can.made)
    decreases turns
  {
    hide Inv, Iterate, Room, Reports, Stamp, Reached, CanTx.Statuses, Read;
    if turns != [] {
      var i := turns[0];
      ReachedModulo(i.t, r);
      IterateReports(s, i);
      StatusNext(s, i);
      SilentWhileUnseen(Iterate(s, i), r, turns[1..]);
    }
  }

  /**
   * What the deadline of zero means for a counter at any value: started while it reads 2^31 or more, the node announces
   * itself only after it has wrapped. The platform's tick counts from zero at reset (platform/platform.c:39), so this
   * is about dronecan.c with another time base and does not happen here.
   */
  lemma SilentUntilWrap(t: int, us: int, turns: seq<Turn>)
    requires Stamp(t) >= HALF && Ordered(t, turns) && End(t, turns) < FirstDue(t) + WRAP
    ensures Inv(Initial(t, us)) && CanTx.Statuses(Run(Initial(t, us), turns).can.made) == 0
  {
    hide Run, Inv, Unseen, Ordered;
    InitialInv(t, us);
    OrderedUnseen(t, FirstDue(t), turns);
    SilentWhileUnseen(Initial(t, us), FirstDue(t), turns);
  }

  lemma {:induction false} OrderedUnseen(last: int, r: int, turns: seq<Turn>)
    requires r + HALF <= last && Ordered(last, turns) && End(last, turns) < r + WRAP
    ensures Unseen(r, turns) && last <= End(last, turns)
    decreases turns
  {
    if turns != [] {
      OrderedUnseen(turns[0].t, r, turns[1..]);
      assert forall k :: 0 < k < |turns| ==> turns[k] == turns[1..][k - 1];
    }
  }

  /**
   * After a poll with the bus on at t0 that found NodeStatus due, a stretch of bus-off of 2^31 ms and a second more
   * silences the node for the 2^31 ms after it.
   */
  lemma SilentAfterLongBusOff(s: Loop, i: Turn, turns: seq<Turn>)
    requires Inv(s) && Due(s, i) && Unseen(i.t + CanTx.STATUS_INTERVAL_MS, turns)
    ensures Inv(Iterate(s, i))
    ensures CanTx.Statuses(Run(Iterate(s, i), turns).can.made) == CanTx.Statuses(Iterate(s, i).can.made)
  {
    hide Inv, Iterate, Room, Reports, Run, CanTx.Statuses, Read, Due, Unseen;
    IterateReports(s, i);
    StatusNext(s, i);
    SilentWhileUnseen(Iterate(s, i), i.t + CanTx.STATUS_INTERVAL_MS, turns);
  }
}
