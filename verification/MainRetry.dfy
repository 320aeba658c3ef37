// Retries and health checks of the optical flow sensor over whole runs (app/main.c:35-38): retries are never overdue, and
// checks come on time under an exact condition.
module MainRetry {
  import opened WrapTime
  import opened MainModel
  import opened MainRuns
  import CanRecovery
  import MainIo
  import PmwModel
  import PmwCounts
  import Scheduler

  /** Without an initialised device, the next attempt is due in at most a second, and not overdue. */
  predicate RetryPending(p: Pmw, t: int) {
    !p.Device().initialized ==> 0 < Elapsed(p.retryAt, Stamp(t)) <= SENSOR_RETRY_MS
  }

  /** In the middle of an iteration at t: the deadline is the old one, at true time r, or has just been set. */
  predicate Waiting(p: Pmw, r: int, t: int) {
    !p.Device().initialized ==> p.retryAt == Stamp(r) || p.retryAt == Stamp(t + SENSOR_RETRY_MS)
  }

  /** The deadline is ahead of t. */
  predicate Ahead(p: Pmw, r: int, t: int) {
    !p.Device().initialized ==> (p.retryAt == Stamp(r) && t < r) || p.retryAt == Stamp(t + SENSOR_RETRY_MS)
  }

  lemma MotionStageWaits(s: Pmw, i: Turn, r: int)
    requires !s.Device().initialized ==> s.retryAt == Stamp(r)
    ensures Waiting(MotionStage(s, i), r, i.t)
  {
    PlusIsTrue(i.t, SENSOR_RETRY_MS);
    hide Stamp, Plus, PmwCounts.Transform, PmwCounts.Enter;
  }

  lemma RetryStageAhead(s: Pmw, i: Turn, r: int)
    requires Waiting(s, r, i.t) && -HALF <= i.t - r < HALF
    ensures Ahead(RetryStage(s, i), r, i.t)
  {
    PlusIsTrue(i.t, SENSOR_RETRY_MS);
    ReachedNear(i.t, r);
    hide Stamp, Plus, Reached;
  }

  lemma LaterStagesAhead(s: Pmw, i: Turn, r: int)
    requires Ahead(s, r, i.t)
    ensures Ahead(InitStage(s, i), r, i.t) && Ahead(CheckStage(s, i), r, i.t)
  {
    PlusIsTrue(i.t, SENSOR_RETRY_MS);
    PmwCounts.InitStepKeepsCounts(s.flow.att, i.us.step, i.spi);
    hide Stamp, Plus, Reached, PmwModel.InitStep;
  }

  lemma PmwStagesRetry(s: Pmw, i: Turn, last: int)
    requires RetryPending(s, last) && last <= i.t <= last + HALF
    ensures RetryPending(PmwStages(s, i), i.t)
  {
    var r := last + Elapsed(s.retryAt, Stamp(last));
    StampAfter(s.retryAt, last);
    hide MotionStage, RetryStage, InitStage, CheckStage;
    if s.Device().initialized {
      MotionStageWaits(s, i, i.t + SENSOR_RETRY_MS);
      FinishRetry(s, i, i.t + SENSOR_RETRY_MS);
    } else {
      MotionStageWaits(s, i, r);
      FinishRetry(s, i, r);
    }
  }

  lemma FinishRetry(s: Pmw, i: Turn, r: int)
    requires Waiting(MotionStage(s, i), r, i.t) && -SENSOR_RETRY_MS <= i.t - r < HALF
    ensures RetryPending(PmwStages(s, i), i.t)
  {
    hide MotionStage, RetryStage, InitStage, CheckStage, Waiting, Ahead, Stamp, Elapsed;
    var a := MotionStage(s, i);
    RetryStageAhead(a, i, r);
    var b := RetryStage(a, i);
    LaterStagesAhead(b, i, r);
    var c := InitStage(b, i);
    LaterStagesAhead(c, i, r);
    AheadIsPending(CheckStage(c, i), i.t, r);
  }

  lemma AheadIsPending(p: Pmw, t: int, r: int)
    requires Ahead(p, r, t) && r <= t + SENSOR_RETRY_MS
    ensures RetryPending(p, t)
  {
    ElapsedExact(r, t);
    ElapsedExact(t + SENSOR_RETRY_MS, t);
    hide Stamp, Elapsed;
  }

  lemma DeadlinesThrough(s: Loop, i: Turn)
    requires Inv(s)
    ensures Iterate(s, i).pmwRetry == PmwStages(PmwOf(s), i).retryAt
    ensures Iterate(s, i).pmwCheck == PmwStages(PmwOf(s), i).checkAt
  {
    hide Kept, Runnable, SensorStages, PublishStages, BusStages, TakeStage, PmwStages, TofTurn, TofFlagged, Stamp,
      MainIo.IoInv, CanRecovery.Step;
    KeptFacts(s);
    SensorStagesShape(s, i);
    var (a, flowDue, rangeDue) := SensorStages(s, i);
    PublishStagesShape(a, i, flowDue, rangeDue);
    BusStagesShape(PublishStages(a, i, flowDue, rangeDue), i);
  }

  lemma InitialisedThrough(s: Loop, i: Turn)
    requires Inv(s)
    ensures Iterate(s, i).flow.att.dev.initialized == PmwStages(PmwOf(s), i).flow.att.dev.initialized
  {
    hide Inv, Iterate, PmwStages, TofTurn, FlowDue, RangeDue, Stamp, Scheduler.Poll, CanRecovery.Step;
    IterateShape(s, i);
  }

  /** Publication leaves both deadlines and the device's initialisation alone. */
  lemma IterateFlowSensor(s: Loop, i: Turn)
    requires Inv(s)
    ensures var p, u := PmwStages(PmwOf(s), i), PmwOf(Iterate(s, i));
            u.retryAt == p.retryAt && u.checkAt == p.checkAt && u.Device().initialized == p.Device().initialized
  {
    hide Inv, Iterate, PmwStages;
    DeadlinesThrough(s, i);
    InitialisedThrough(s, i);
  }

  lemma {:induction false} RetryNeverOverdueFrom(s: Loop, last: int, turns: seq<Turn>)
    requires Inv(s) && RetryPending(PmwOf(s), last) && Spaced(last, turns)
    ensures RetryPending(PmwOf(Run(s, turns)), End(last, turns))
    decreases turns
  {
    hide Inv, Iterate, Reports, PmwStages, Elapsed, Stamp;
    if turns != [] {
      var i := turns[0];
      IterateReports(s, i);
      PmwStagesRetry(PmwOf(s), i, last);
      IterateFlowSensor(s, i);
      RetryNeverOverdueFrom(Iterate(s, i), i.t, turns[1..]);
    }
  }

  function End(last: int, turns: seq<Turn>): int {
    if turns == [] then last else turns[|turns| - 1].t
  }

  /**
   * In every reachable state without an initialised flow sensor, the next attempt is due within a second: however
   * transfers fail, an iteration a second later starts the sensor again.
   */
  lemma RetryNeverOverdue(t: int, us: int, turns: seq<Turn>)
    requires Spaced(t, turns)
    ensures Inv(Initial(t, us))
    ensures var s := Run(Initial(t, us), turns);
            !s.flow.att.dev.initialized ==> 0 < Elapsed(s.pmwRetry, Stamp(End(t, turns))) <= SENSOR_RETRY_MS
  {
    hide Run, Inv, Stamp, Elapsed, Plus, Spaced;
    InitialInv(t, us);
    InitialDeadlines(t, us);
    ElapsedExact(t + SENSOR_RETRY_MS, t);
    RetryNeverOverdueFrom(Initial(t, us), t, turns);
  }

  lemma InitialDeadlines(t: int, us: int)
    ensures Initial(t, us).pmwRetry == Stamp(t + SENSOR_RETRY_MS)
    ensures Initial(t, us).pmwCheck == Stamp(t + PMW_HEALTH_CHECK_MS)
    ensures !PmwOf(Initial(t, us)).Device().initialized
  {
    PlusIsTrue(t, SENSOR_RETRY_MS);
    hide Stamp, Plus;
  }

  // ---------------------------------------------------------------- the periodic health check

  /** The stages before the check. */
  function ToCheck(s: Loop, i: Turn): Pmw {
    InitStage(RetryStage(MotionStage(PmwOf(s), i), i), i)
  }

  /** Whether an iteration checks the sensor, as the code decides it. */
  predicate Checks(s: Loop, i: Turn) {
    ToCheck(s, i).Device().initialized && Reached(Stamp(i.t), s.pmwCheck)
  }

  /** Whether a check is called for, c being the true time it is due. */
  predicate CheckCalledFor(s: Loop, i: Turn, c: int) {
    ToCheck(s, i).Device().initialized && i.t >= c
  }

  /** The true time the next check is due: a second after the one called for in this iteration, if any. */
  function NextCheck(s: Loop, i: Turn, c: int): int {
    if CheckCalledFor(s, i, c) then i.t + PMW_HEALTH_CHECK_MS else c
  }

  /** Where a run has taken the true deadline. */
  ghost function CheckDue(s: Loop, c: int, turns: seq<Turn>): int
    requires Inv(s)
    decreases turns
  {
    if turns == [] then c else
      IterateReports(s, turns[0]);
      CheckDue(Iterate(s, turns[0]), NextCheck(s, turns[0], c), turns[1..])
  }

  /** Every iteration checks the sensor exactly when that is called for. */
  ghost predicate ChecksOnTime(s: Loop, c: int, turns: seq<Turn>)
    requires Inv(s)
    decreases turns
  {
    turns != [] ==>
    && (Checks(s, turns[0]) <==> CheckCalledFor(s, turns[0], c))
    && (IterateReports(s, turns[0]); ChecksOnTime(Iterate(s, turns[0]), NextCheck(s, turns[0], c), turns[1..]))
  }

  /** No iteration that calls for a check is late by 2^31 ms or more, counted modulo 2^32. */
  ghost predicate Attended(s: Loop, c: int, turns: seq<Turn>)
    requires Inv(s)
    decreases turns
  {
    turns != [] ==>
    && (CheckCalledFor(s, turns[0], c) ==> (turns[0].t - c) % WRAP < HALF)
    && (IterateReports(s, turns[0]); Attended(Iterate(s, turns[0]), NextCheck(s, turns[0], c), turns[1..]))
  }

  /** Iterations in order of true time. */
  predicate Ordered(last: int, turns: seq<Turn>)
    decreases turns
  {
    turns == [] || (last <= turns[0].t && Ordered(turns[0].t, turns[1..]))
  }

  lemma EarlierStagesKeepCheck(s: Pmw, i: Turn)
    ensures InitStage(RetryStage(MotionStage(s, i), i), i).checkAt == s.checkAt
  {
    hide Stamp, Plus, Reached, PmwModel.InitStep, PmwCounts.FlowStep;
  }

  /** A check called for is made exactly when its lateness modulo 2^32 is below 2^31; one not called for never is. */
  lemma ChecksExactly(s: Loop, i: Turn, c: int)
    requires s.pmwCheck == Stamp(c) && c <= i.t + PMW_HEALTH_CHECK_MS
    ensures CheckCalledFor(s, i, c) ==> (Checks(s, i) <==> (i.t - c) % WRAP < HALF)
    ensures !CheckCalledFor(s, i, c) ==> !Checks(s, i)
  {
    hide ToCheck, Stamp, Reached;
    ReachedModulo(i.t, c);
    if i.t < c {
      ReachedNear(i.t, c);
    }
  }

  /** What the check stage leaves behind. */
  lemma CheckStageDeadline(p: Pmw, i: Turn)
    ensures CheckStage(p, i).checkAt ==
            if p.Device().initialized && Reached(Stamp(i.t), p.checkAt) then Stamp(i.t + PMW_HEALTH_CHECK_MS) else p.checkAt
    ensures CheckStage(p, i).Device().initialized <==>
            p.Device().initialized && (i.alive || !Reached(Stamp(i.t), p.checkAt))
  {
    PlusIsTrue(i.t, PMW_HEALTH_CHECK_MS);
    hide Stamp, Plus, Reached;
  }

  /** A check re-arms the deadline, and a sensor that is not found is given up; without a check neither happens. */
  lemma CheckNext(s: Loop, i: Turn)
    requires Inv(s)
    ensures Iterate(s, i).pmwCheck == if Checks(s, i) then Stamp(i.t + PMW_HEALTH_CHECK_MS) else s.pmwCheck
    ensures PmwOf(Iterate(s, i)).Device().initialized <==>
            ToCheck(s, i).Device().initialized && (i.alive || !Checks(s, i))
  {
    hide Inv, Iterate, MotionStage, RetryStage, InitStage, CheckStage, Stamp, Reached;
    IterateFlowSensor(s, i);
    EarlierStagesKeepCheck(PmwOf(s), i);
    CheckStageDeadline(ToCheck(s, i), i);
  }

  /** The deadline the code keeps is that of true time c, at most a second ahead of the last iteration. */
  predicate CheckArmed(s: Loop, c: int, last: int) {
    s.pmwCheck == Stamp(c) && c <= last + PMW_HEALTH_CHECK_MS
  }

  lemma CheckStaysArmed(s: Loop, c: int, last: int, i: Turn)
    requires Inv(s) && CheckArmed(s, c, last) && last <= i.t
    requires Checks(s, i) <==> CheckCalledFor(s, i, c)
    ensures CheckArmed(Iterate(s, i), NextCheck(s, i, c), i.t)
    ensures PmwOf(Iterate(s, i)).Device().initialized ==> i.t < NextCheck(s, i, c)
  {
    hide Inv, Iterate, ToCheck, Stamp, Reached;
    CheckNext(s, i);
  }

  lemma {:induction false} ChecksOnTimeFrom(s: Loop, c: int, last: int, turns: seq<Turn>)
    requires Inv(s) && CheckArmed(s, c, last) && Ordered(last, turns)
    ensures ChecksOnTime(s, c, turns) <==> Attended(s, c, turns)
    decreases turns
  {
    hide Inv, Iterate, Reports, Checks, CheckCalledFor, NextCheck;
    if turns != [] {
      var i := turns[0];
      ChecksExactly(s, i, c);
      IterateReports(s, i);
      if Checks(s, i) <==> CheckCalledFor(s, i, c) {
        CheckStaysArmed(s, c, last, i);
        ChecksOnTimeFrom(Iterate(s, i), NextCheck(s, i, c), i.t, turns[1..]);
      }
    }
  }

  lemma {:induction false} ArmedAfterRun(s: Loop, c: int, last: int, turns: seq<Turn>)
    requires Inv(s) && CheckArmed(s, c, last) && Ordered(last, turns) && ChecksOnTime(s, c, turns)
    requires PmwOf(s).Device().initialized ==> last < c
    ensures CheckArmed(Run(s, turns), CheckDue(s, c, turns), End(last, turns))
    ensures PmwOf(Run(s, turns)).Device().initialized ==> End(last, turns) < CheckDue(s, c, turns)
    decreases turns
  {
    hide Inv, Iterate, Reports, Checks, CheckCalledFor, NextCheck, CheckArmed;
    if turns != [] {
      var i := turns[0];
      IterateReports(s, i);
      CheckStaysArmed(s, c, last, i);
      ArmedAfterRun(Iterate(s, i), NextCheck(s, i, c), i.t, turns[1..]);
    }
  }

  /**
   * Over any run from power-on, of any length: the flow sensor is checked in exactly those iterations in which it
   * is initialised and a second has passed since the last check, or since power-on, if and only if no iteration that
   * calls for a check comes 2^31 ms or more too late. Then the deadline the code keeps is the true one, at most a
   * second ahead, and with the sensor initialised it is ahead.
   */
  lemma CheckedExactly(t: int, us: int, turns: seq<Turn>)
    requires Ordered(t, turns)
    ensures Inv(Initial(t, us))
    ensures var s, first := Initial(t, us), t + PMW_HEALTH_CHECK_MS;
            && (ChecksOnTime(s, first, turns) <==> Attended(s, first, turns))
            && (Attended(s, first, turns) ==>
                  var u, c := Run(s, turns), CheckDue(s, first, turns);
                  && u.pmwCheck == Stamp(c) && c <= End(t, turns) + PMW_HEALTH_CHECK_MS
                  && (u.flow.att.dev.initialized ==> End(t, turns) < c))
  {
    hide Run, Inv, Initial, Stamp, ChecksOnTime, Attended, CheckDue, Ordered;
    InitialInv(t, us);
    InitialDeadlines(t, us);
    ChecksOnTimeFrom(Initial(t, us), t + PMW_HEALTH_CHECK_MS, t, turns);
    if Attended(Initial(t, us), t + PMW_HEALTH_CHECK_MS, turns) {
      ArmedAfterRun(Initial(t, us), t + PMW_HEALTH_CHECK_MS, t, turns);
    }
  }
}
