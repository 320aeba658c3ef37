// The flow samples the main loop publishes over whole runs, told by the turns: how their counts add up, what a report
// between two publications carries, and when the fault bit of the sensor is set.
module MainFlow {
  import opened Common
  import opened WrapTime
  import opened Health
  import opened MainModel
  import opened MainRuns
  import opened MainMotion
  import MainBringUp
  import MainCounts
  import MainIo
  import PmwCounts
  import PmwModel
  import Scheduler

  // ---------------------------------------------------------------- the counts add up

  /** The motion read in a run: see MainMotion.Counts. */
  ghost function AllMovedX(s: Loop, turns: seq<Turn>): int
    requires Inv(s)
    decreases turns
  {
    if turns == [] then 0 else
      IterateReports(s, turns[0]);
      MovedX(s.flow.att.dev.initialized, turns[0]) + AllMovedX(Iterate(s, turns[0]), turns[1..])
  }

  ghost function AllMovedY(s: Loop, turns: seq<Turn>): int
    requires Inv(s)
    decreases turns
  {
    if turns == [] then 0 else
      IterateReports(s, turns[0]);
      MovedY(s.flow.att.dev.initialized, turns[0]) + AllMovedY(Iterate(s, turns[0]), turns[1..])
  }

  lemma {:induction false} RunReads(s: Loop, turns: seq<Turn>)
    requires Inv(s)
    ensures var u := Run(s, turns).flow;
            u.x.read == s.flow.x.read + AllMovedX(s, turns) && u.y.read == s.flow.y.read + AllMovedY(s, turns)
    decreases turns
  {
    hide Inv, Iterate, Reports, MovedX, MovedY, Loses, Clamped;
    if turns != [] {
      IterateReports(s, turns[0]);
      IterateReads(s, turns[0]);
      RunReads(Iterate(s, turns[0]), turns[1..]);
    }
  }

  /** Each motion read succeeds, and each check finds the sensor. */
  predicate Steady(i: Turn) {
    (i.motionIrq ==> i.motion.Some?) && i.alive
  }

  predicate AllSteady(turns: seq<Turn>) {
    forall k :: 0 <= k < |turns| ==> Steady(turns[k])
  }

  lemma SteadyLosesNothing(p: Pmw, i: Turn)
    requires Steady(i)
    ensures !Loses(p, i)
  {}

  lemma {:induction false} RunDiscards(s: Loop, turns: seq<Turn>)
    requires Inv(s) && AllSteady(turns)
    ensures var u := Run(s, turns).flow; u.x.discarded == s.flow.x.discarded && u.y.discarded == s.flow.y.discarded
    decreases turns
  {
    hide Inv, Iterate, Reports, MovedX, MovedY, Loses, Clamped, Steady;
    if turns != [] {
      IterateReports(s, turns[0]);
      IterateReads(s, turns[0]);
      SteadyLosesNothing(PmwOf(s), turns[0]);
      assert AllSteady(turns[1..]);
      RunDiscards(Iterate(s, turns[0]), turns[1..]);
    }
  }

  lemma NothingReadYet(t: int, us: int)
    ensures var f := Initial(t, us).flow;
            f.x.read == 0 && f.y.read == 0 && f.x.discarded == 0 && f.y.discarded == 0
  {}

  /**
   * In every reachable state: the motion read in the turns so far is what the published samples carry, what is pending,
   * what was thrown away by losing the sensor, and what saturation took; and samples marked invalid carry zeros.
   */
  lemma MotionIsAccountedFor(t: int, us: int, turns: seq<Turn>)
    ensures Inv(Initial(t, us))
    ensures var s := Run(Initial(t, us), turns);
            && AllMovedX(Initial(t, us), turns) == SumX(s.flows) + s.flow.att.dev.accX + s.flow.x.discarded
               + s.flow.x.clamped
            && AllMovedY(Initial(t, us), turns) == SumY(s.flows) + s.flow.att.dev.accY + s.flow.y.discarded
               + s.flow.y.clamped
            && forall k :: 0 <= k < |s.flows| && !s.flows[k].valid ==> s.flows[k].countX == 0 && s.flows[k].countY == 0
  {
    NothingReadYet(t, us);
    hide Run, Inv, Initial, AllMovedX, AllMovedY, SumX, SumY;
    ReachableCounts(t, us, turns);
    RunReads(Initial(t, us), turns);
  }

  /**
   * Nothing is lost on the way: over any run in which reads succeed, checks find the sensor, iterations are less than
   * 500 ms apart and reads at least 170 us, the motion read in the turns is exactly what the published samples carry
   * and what is pending.
   */
  lemma MotionIsPublished(t: int, us: int, turns: seq<Turn>, lag: nat)
    requires AllSteady(turns)
    requires 520_000 + lag <= LIMIT * MainCounts.READ_US && MainCounts.Regular(t, us, lag, turns)
    ensures Inv(Initial(t, us))
    ensures var s := Run(Initial(t, us), turns);
            && AllMovedX(Initial(t, us), turns) == SumX(s.flows) + s.flow.att.dev.accX
            && AllMovedY(Initial(t, us), turns) == SumY(s.flows) + s.flow.att.dev.accY
  {
    NothingReadYet(t, us);
    hide Run, Inv, Initial, AllMovedX, AllMovedY, SumX, SumY, MainCounts.Regular, AllSteady;
    MainCounts.CountsExactInTime(t, us, turns, lag);
    RunReads(Initial(t, us), turns);
    RunDiscards(Initial(t, us), turns);
  }

  // ---------------------------------------------------------------- what a report carries

  /** The counts of one axis after the motion of some turns, each sum held within int32_t. */
  function TotalX(from: int, turns: seq<Turn>): int
    decreases turns
  {
    if turns == [] then from else TotalX(Clamped(from + MovedX(true, turns[0])), turns[1..])
  }

  function TotalY(from: int, turns: seq<Turn>): int
    decreases turns
  {
    if turns == [] then from else TotalY(Clamped(from + MovedY(true, turns[0])), turns[1..])
  }

  /** The quality of the last read. */
  function LastQuality(from: u8, turns: seq<Turn>): u8
    requires AllSteady(turns)
    decreases turns
  {
    if turns == [] then from else
      LastQuality(if turns[0].motionIrq then turns[0].motion.value.quality else from, turns[1..])
  }

  /** The device with these counts and quality since at. */
  predicate Gathered(d: PmwModel.Device, x: int, y: int, quality: u8, at: int) {
    d.initialized && d.accX == x && d.accY == y && d.quality == quality && d.integrationStart == Stamp(at)
  }

  lemma SteadyStages(p: Pmw, i: Turn, x: int, y: int, quality: u8, at: int)
    requires PmwInv(p) && Steady(i) && Gathered(p.Device(), x, y, quality, at)
    ensures Gathered(PmwStages(p, i).Device(), Clamped(x + MovedX(true, i)), Clamped(y + MovedY(true, i)),
                     if i.motionIrq then i.motion.value.quality else quality, at)
  {
    hide PmwInv, PmwStages, Flagged, Stamp, MovedX, MovedY, Clamped;
    PmwStagesExactly(p, i);
    SteadyLosesNothing(p, i);
  }

  /** Quiet turns gather, and the turn in which the task fires publishes what was gathered. */
  lemma GatherNext(s: Loop, i: Turn, x: int, y: int, quality: u8, at: int)
    requires Inv(s) && Steady(i) && Gathered(s.flow.att.dev, x, y, quality, at)
    ensures s.flowTask.period > 0 && Iterate(s, i).flowTask == Scheduler.Poll(s.flowTask, Stamp(i.t)).0
    ensures var u, q := Iterate(s, i), if i.motionIrq then i.motion.value.quality else quality;
            var sumX, sumY := Clamped(x + MovedX(true, i)), Clamped(y + MovedY(true, i));
            if Scheduler.Poll(s.flowTask, Stamp(i.t)).1 then
              && u.flow.att.dev.initialized && Cleared(u.flow.att.dev, i.us.publish)
              && |u.flows| == |s.flows| + 1 && u.flows[..|s.flows|] == s.flows
              && var f := u.flows[|s.flows|];
                 && f.valid && f.countX == sumX && f.countY == sumY && f.quality == q
                 && f.integrationUs == (i.us.publish - at) % WRAP
            else u.flows == s.flows && Gathered(u.flow.att.dev, sumX, sumY, q, at)
  {
    hide Inv, Iterate, PmwInv, PmwStages, PmwCounts.FlowStep, PmwCounts.Publish, Stamp, MovedX, MovedY, Clamped,
      Scheduler.Poll, FlowDue, Elapsed;
    PmwPart(s);
    SteadyStages(PmwOf(s), i, x, y, quality, at);
    IterateFlow(s, i);
    ReportExactly(PmwStages(PmwOf(s), i).flow, i.us.publish);
    MeasuredModulo(i.us.publish, at);
  }

  lemma MeasuredModulo(now: int, since: int)
    ensures Elapsed(Stamp(now), Stamp(since)) == (now - since) % WRAP
  {
    ElapsedModulo(now, since);
  }

  /** The task fires in the last turn, and in none before it. */
  predicate FiresLast(task: Scheduler.Task, turns: seq<Turn>)
    requires task.period > 0
    decreases turns
  {
    && turns != []
    && var (next, fired) := Scheduler.Poll(task, Stamp(turns[0].t));
       if |turns| == 1 then fired else !fired && FiresLast(next, turns[1..])
  }

  /**
   * What a flow report carries: since the counts were last cleared, at true time at, the sums of the motion read, each
   * held within int32_t, the quality of the last read, or what it was when cleared, and the time since then in
   * microseconds, modulo 2^32.
   */
  lemma {:induction false} ReportFollowsTurns(s: Loop, turns: seq<Turn>, x: int, y: int, quality: u8, at: int)
    requires Inv(s) && AllSteady(turns) && Gathered(s.flow.att.dev, x, y, quality, at)
    requires s.flowTask.period > 0 && FiresLast(s.flowTask, turns)
    ensures var u := Run(s, turns);
            && u.flow.att.dev.initialized && Cleared(u.flow.att.dev, turns[|turns| - 1].us.publish)
            && |u.flows| == |s.flows| + 1 && u.flows[..|s.flows|] == s.flows
            && var f := u.flows[|s.flows|];
               && f.valid && f.countX == TotalX(x, turns) && f.countY == TotalY(y, turns)
               && f.quality == LastQuality(quality, turns)
               && f.integrationUs == (turns[|turns| - 1].us.publish - at) % WRAP
    decreases turns
  {
    hide Inv, Iterate, Reports, Gathered, Cleared, Scheduler.Poll, Steady, MovedX, MovedY, Clamped;
    var i, rest := turns[0], turns[1..];
    assert Steady(i);
    IterateReports(s, i);
    GatherNext(s, i, x, y, quality, at);
    PeriodsKept(Iterate(s, i));
    QualityOf(i, turns, quality);
    if rest == [] {
      TotalOfOne(i, turns, x, y, quality);
    } else {
      assert AllSteady(rest);
      ReportFollowsTurns(Iterate(s, i), rest, Clamped(x + MovedX(true, i)), Clamped(y + MovedY(true, i)),
                         if i.motionIrq then i.motion.value.quality else quality, at);
    }
  }

  lemma QualityOf(i: Turn, turns: seq<Turn>, quality: u8)
    requires AllSteady(turns) && turns != [] && turns[0] == i
    ensures i.motionIrq ==> i.motion.Some?
    ensures AllSteady(turns[1..])
    ensures LastQuality(quality, turns) == LastQuality(if i.motionIrq then i.motion.value.quality else quality,
        turns[1..])
  {}

  lemma TotalOfOne(i: Turn, turns: seq<Turn>, x: int, y: int, quality: u8)
    requires turns == [i] && AllSteady(turns)
    ensures TotalX(x, turns) == Clamped(x + MovedX(true, i)) && TotalY(y, turns) == Clamped(y + MovedY(true, i))
    ensures LastQuality(quality, turns) == if i.motionIrq then i.motion.value.quality else quality
  {
    assert turns[1..] == [];
    assert TotalX(Clamped(x + MovedX(true, i)), []) == Clamped(x + MovedX(true, i));
    assert TotalY(Clamped(y + MovedY(true, i)), []) == Clamped(y + MovedY(true, i));
  }

  /** Between two publications of a sensor that stays up: the sums begin at zero, and so does the quality. */
  lemma ReportBetween(s: Loop, first: Turn, turns: seq<Turn>)
    requires Inv(s) && s.flow.att.dev.initialized && Steady(first) && AllSteady(turns)
    requires s.flowTask.period > 0 && Scheduler.Poll(s.flowTask, Stamp(first.t)).1
    requires FiresLast(Scheduler.Poll(s.flowTask, Stamp(first.t)).0, turns)
    ensures Inv(Iterate(s, first))
    ensures var before, flows := Iterate(s, first).flows, Run(s, [first] + turns).flows;
            && |flows| == |before| + 1 && flows[..|before|] == before
            && var f := flows[|before|];
               && f.valid && f.countX == TotalX(0, turns) && f.countY == TotalY(0, turns)
               && f.quality == LastQuality(0, turns)
               && f.integrationUs == (turns[|turns| - 1].us.publish - first.us.publish) % WRAP
  {
    var d := s.flow.att.dev;
    StampAfter(d.integrationStart, 0);
    hide Inv, Iterate, Reports, Run, Scheduler.Poll, Steady, AllSteady, MovedX, MovedY, Clamped, Stamp, Elapsed;
    IterateReports(s, first);
    GatherNext(s, first, d.accX, d.accY, d.quality, Elapsed(d.integrationStart, Stamp(0)));
    RunCons(s, first, turns);
    PeriodsKept(Iterate(s, first));
    ReportFollowsTurns(Iterate(s, first), turns, 0, 0, 0, first.us.publish);
  }

  /** A sensor that comes up begins to gather at the step that completes its bring-up, from zero. */
  lemma GathersFromBringUp(s: Loop, i: Turn)
    requires Inv(s) && !s.flow.att.dev.initialized && Iterate(s, i).flow.att.dev.initialized && !FlowDue(s, i)
    ensures Gathered(Iterate(s, i).flow.att.dev, 0, 0, 0, i.us.step)
  {
    hide Inv, Iterate, PmwInv, PmwStages, PmwCounts.FlowStep, PmwCounts.Publish, Stamp, Scheduler.Poll, Gathered;
    PmwPart(s);
    IterateFlow(s, i);
    CompletesAt(PmwOf(s), i);
  }

  lemma CompletesAt(p: Pmw, i: Turn)
    requires PmwInv(p) && !p.Device().initialized && PmwStages(p, i).Device().initialized
    ensures Gathered(PmwStages(p, i).Device(), 0, 0, 0, i.us.step)
  {
    hide PmwInv, RetryStage, InitStage, CheckStage, Read, Stamp, Gathered;
    RetryStageKeeps(p, i);
    var b := RetryStage(p, i);
    RetryStageKeepsCounts(p, i);
    InitStageKeepsCounts(b, i);
    var c := InitStage(b, i);
    InitStageKeeps(b, i);
    CheckStageFlags(c, i);
    CheckKeepsUp(c, i);
    InitStageStarts(b, i);
  }

  lemma CheckKeepsUp(p: Pmw, i: Turn)
    ensures CheckStage(p, i).Device().initialized ==> CheckStage(p, i).Device() == p.Device()
  {
    hide Stamp, Plus, Reached, Raise;
  }

  lemma InitStageStarts(p: Pmw, i: Turn)
    requires PmwInv(p) && !p.Device().initialized && InitStage(p, i).Device().initialized
    ensures Gathered(InitStage(p, i).Device(), 0, 0, 0, i.us.step)
  {
    PmwCounts.InitStepKeepsCounts(p.flow.att, i.us.step, i.spi);
    hide Read, Raise, Lower, Stamp, Plus, Reached, PmwModel.Entry, PmwModel.MotionReads;
  }

  // ---------------------------------------------------------------- the fault bit

  lemma IterateBit(s: Loop, i: Turn)
    requires Inv(s)
    ensures Read(Iterate(s, i).health).pmw == Read(PmwStages(PmwOf(s), i).health).pmw
  {
    hide Runnable, Read, Kept, SensorStages, TofTurn, FlowDue, RangeDue, PublishStages, BusStages, ReportRefused,
      MainIo.IoInv, MainIo.Flags, PmwStages, TakeStage, TofFlagged;
    SensorStagesKept(s, i);
    SensorStagesShape(s, i);
    TofKept(s);
    var (a, flowDue, rangeDue) := SensorStages(s, i);
    TofFlaggedReads(PmwStages(PmwOf(s), i).health, TofTurn(s.tof, i).1);
    PublishStagesKept(a, i, flowDue, rangeDue);
    var b := PublishStages(a, i, flowDue, rangeDue);
    BusStagesKept(b, i);
    TakeStageKept(BusStages(b, i));
  }

  /**
   * The fault bit of the flow sensor, exactly: after an iteration it is clear if the sensor is initialised; otherwise
   * it is set if it was before, or if the iteration lost the sensor or gave up an attempt, which leaves the device
   * idle with a retry in a second.
   */
  lemma FaultBitExactly(s: Loop, i: Turn)
    requires Inv(s)
    ensures var u := Iterate(s, i);
            var gaveUp := u.flow.att.dev.initState == PmwModel.Idle && s.flow.att.dev.initState != PmwModel.Idle;
            && (u.flow.att.dev.initialized ==> !Read(u.health).pmw)
            && (!u.flow.att.dev.initialized ==> Read(u.health).pmw == (Read(s.health).pmw || gaveUp))
            && (gaveUp ==> u.pmwRetry == Stamp(i.t + 1000))
            && (s.flow.att.dev.initialized ==> u.flow.att.dev.initialized == !Loses(PmwOf(s), i))
  {
    hide Inv, Iterate, PmwInv, PmwStages, Read, Stamp, Loses;
    PmwPart(s);
    PmwStagesExactly(PmwOf(s), i);
    IterateBit(s, i);
    MainBringUp.IterateAttempt(s, i);
  }
}
