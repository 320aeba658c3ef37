// How fast the main loop must turn for the optical flow sensor to come up (app/main.c:35-37): a bring-up takes 76
// steps, one an iteration, and is started over 1000 ms after it began.
module MainBringUp {
  import opened Health
  import opened WrapTime
  import opened MainModel
  import opened MainRuns
  import opened PmwModel
  import CanRecovery
  import MainRetry
  import PmwCounts
  import Scheduler

  /** Publication leaves the attempt and the retry deadline alone. */
  lemma IterateAttempt(s: Loop, i: Turn)
    requires Inv(s)
    ensures var p, u := PmwStages(PmwOf(s), i), PmwOf(Iterate(s, i));
            SameAttempt(p.flow.att, u.flow.att) && u.retryAt == p.retryAt
  {
    hide Inv, Iterate, PmwStages, FlowDue, RangeDue, Stamp, TofTurn, Scheduler.Poll, CanRecovery.Step;
    IterateShape(s, i);
    MainRetry.DeadlinesThrough(s, i);
  }

  /** The step reading of the last turn. */
  function LastStep(last: int, turns: seq<Turn>): int {
    if turns == [] then last else turns[|turns| - 1].us.step
  }

  // ---------------------------------------------------------------- a loop that is fast enough

  /** Every transfer with the optical flow sensor succeeds. */
  predicate Calm(i: Turn) {
    (i.motionIrq ==> i.motion.Some?) && AllWell(i.spi) && i.alive
  }

  /**
   * The sensor is up, or an attempt is under way that will be over by the finish if steps are at most gap apart; last
   * is the latest reading for a step, retry the true time at which the attempt would be started over.
   */
  ghost predicate OnCourse(p: Pmw, last: int, retry: int, gap: nat, finish: int) {
    var a := p.flow.att;
    && OnScript(a, last)
    && (a.dev.initState == Done ||
        (&& Undecided(a.dev) && p.retryAt == Stamp(retry)
         && last <= Deadline(a) && Deadline(a) + PausesLeft(a.dev) + StepsLeft(a.dev) * gap <= finish))
  }

  lemma SameOnCourse(p: Pmw, q: Pmw, last: int, retry: int, gap: nat, finish: int)
    requires OnCourse(p, last, retry, gap, finish) && SameAttempt(p.flow.att, q.flow.att) && q.retryAt == p.retryAt
    ensures OnCourse(q, last, retry, gap, finish)
  {
    hide OnScript, Stamp, Pause;
    SameOnScript(p.flow.att, q.flow.att, last);
    if Undecided(p.Device()) {
      InAttempt(p.flow.att, last);
      InAttempt(q.flow.att, last);
    }
  }

  /** Any step of an attempt under way leaves time for the steps after it. */
  lemma OneStepLess(n: nat, gap: nat)
    requires n > 0
    ensures n * gap == (n - 1) * gap + gap >= gap
  {}

  lemma AttemptOnCourse(p: Pmw, last: int, retry: int, gap: nat, finish: int)
    requires OnCourse(p, last, retry, gap, finish) && Undecided(p.Device())
    ensures 0 < |p.flow.att.log| <= PREAMBLE + SEQUENCE_COUNT && last <= Deadline(p.flow.att)
    ensures Deadline(p.flow.att) + gap <= finish
    ensures !p.Device().initialized && p.retryAt == Stamp(retry)
  {
    hide OnScript, Stamp, Deadline, PausesLeft, StepsLeft;
    InAttempt(p.flow.att, last);
    DoneIsInitialised(p.flow.att, last);
    StepsLeftBound(p.flow.att, last);
    OneStepLess(StepsLeft(p.Device()), gap);
  }

  lemma StepOnCourse(p: Pmw, q: Pmw, last: int, u: int, spi: Spi, retry: int, gap: nat, finish: int)
    requires OnCourse(p, last, retry, gap, finish) && Undecided(p.Device())
    requires last <= u <= last + gap && gap < HALF
    requires q.flow.att == InitStep(p.flow.att, u, spi).0 && q.retryAt == p.retryAt && q.Device().initState != Failed
    ensures OnCourse(q, u, retry, gap, finish)
  {
    var a, b := p.flow.att, q.flow.att;
    hide OnScript, InitStep, Stamp, Deadline, PausesLeft;
    InAttempt(a, last);
    StepExactly(a, last, u, spi);
    if u >= Deadline(a) && b.dev.initState != Done {
      StepsLeftBound(b, u);
      OneStepLess(StepsLeft(a.dev), gap);
      hide StepsLeft;
      assert StepsLeft(b.dev) * gap == (StepsLeft(a.dev) - 1) * gap;
    }
  }

  lemma InitStageOnCourse(p: Pmw, i: Turn, last: int, retry: int, gap: nat, finish: int)
    requires OnCourse(p, last, retry, gap, finish)
    requires last <= i.us.step <= last + gap && AllWell(i.spi) && gap < HALF
    ensures OnCourse(InitStage(p, i), i.us.step, retry, gap, finish)
  {
    hide OnScript, InitStep, Stamp, Raise, Lower, Deadline, PausesLeft, StepsLeft;
    DoneIsInitialised(p.flow.att, last);
    if p.Device().initState == Done {
      LaterOnScript(p.flow.att, last, i.us.step);
    } else {
      InitStepReturns(p.flow.att, i.us.step, i.spi);
      StepExactly(p.flow.att, last, i.us.step, i.spi);
      NotFailed(p.flow.att, last, i.us.step, i.spi);
      StepOnCourse(p, InitStage(p, i), last, i.us.step, i.spi, retry, gap, finish);
    }
  }

  lemma DoneIsInitialised(a: Attempt, now: int)
    requires OnScript(a, now)
    ensures a.dev.initialized <==> a.dev.initState == Done
  {
    hide Follows, Stamp;
  }

  lemma NotFailed(a: Attempt, now: int, t: int, spi: Spi)
    requires OnScript(a, now) && Undecided(a.dev) && now <= t && AllWell(spi)
    ensures InitStep(a, t, spi).0.dev.initState != Failed
  {
    hide OnScript, InitStep, Stamp, Deadline, PausesLeft, StepsLeft;
    StepExactly(a, now, t, spi);
  }

  lemma CalmStages(p: Pmw, i: Turn)
    requires Calm(i)
    ensures SameAttempt(p.flow.att, MotionStage(p, i).flow.att) && MotionStage(p, i).retryAt == p.retryAt
    ensures SameAttempt(p.flow.att, CheckStage(p, i).flow.att) && CheckStage(p, i).retryAt == p.retryAt
  {
    hide Stamp, Plus, Reached, PmwCounts.Transform;
  }

  lemma PmwStagesOnCourse(p: Pmw, i: Turn, last: int, retry: int, gap: nat, finish: int)
    requires OnCourse(p, last, retry, gap, finish)
    requires Calm(i) && last <= i.us.step <= last + gap && gap < HALF
    requires Undecided(p.Device()) ==> !Reached(Stamp(i.t), Stamp(retry))
    ensures OnCourse(PmwStages(p, i), i.us.step, retry, gap, finish)
  {
    hide OnCourse, MotionStage, InitStage, CheckStage, Stamp, Reached;
    var a := MotionStage(p, i);
    CalmStages(p, i);
    SameOnCourse(p, a, last, retry, gap, finish);
    UpOrUnderWay(a, last, retry, gap, finish);
    assert RetryStage(a, i) == a;
    var b := InitStage(a, i);
    InitStageOnCourse(a, i, last, retry, gap, finish);
    CalmStages(b, i);
    SameOnCourse(b, CheckStage(b, i), i.us.step, retry, gap, finish);
  }

  lemma UpOrUnderWay(p: Pmw, last: int, retry: int, gap: nat, finish: int)
    requires OnCourse(p, last, retry, gap, finish)
    ensures p.Device().initialized || (Undecided(p.Device()) && p.retryAt == Stamp(retry))
  {
    DoneIsInitialised(p.flow.att, last);
    hide OnScript, Stamp, Deadline, PausesLeft, StepsLeft;
  }

  /**
   * Iterations that follow one another in time, read the counter for the step at most gap microseconds after the
   * last time, no sooner than their millisecond begins, and whose transfers succeed.
   */
  predicate Smooth(lastMs: int, last: int, gap: nat, turns: seq<Turn>)
    decreases turns
  {
    turns != [] ==>
    && Calm(turns[0]) && lastMs <= turns[0].t && 1000 * turns[0].t <= turns[0].us.step
    && last <= turns[0].us.step <= last + gap
    && Smooth(turns[0].t, turns[0].us.step, gap, turns[1..])
  }

  lemma TurnOnCourse(s: Loop, i: Turn, last: int, retry: int, gap: nat, finish: int)
    requires Inv(s) && OnCourse(PmwOf(s), last, retry, gap, finish) && finish < 1000 * retry && gap < HALF
    requires Calm(i) && retry <= i.t + SENSOR_RETRY_MS && 1000 * i.t <= i.us.step && last <= i.us.step <= last + gap
    ensures OnCourse(PmwOf(Iterate(s, i)), i.us.step, retry, gap, finish)
  {
    hide Inv, Iterate, PmwStages, OnCourse, Stamp, Reached;
    var p := PmwOf(s);
    if Undecided(p.Device()) {
      AttemptOnCourse(p, last, retry, gap, finish);
      assert i.t < retry;
      ReachedNear(i.t, retry);
    }
    PmwStagesOnCourse(p, i, last, retry, gap, finish);
    IterateAttempt(s, i);
    SameOnCourse(PmwStages(p, i), PmwOf(Iterate(s, i)), i.us.step, retry, gap, finish);
  }

  lemma {:induction false} RunOnCourse(s: Loop, lastMs: int, last: int, retry: int, gap: nat, finish: int, turns: seq<Turn>)
    requires Inv(s) && OnCourse(PmwOf(s), last, retry, gap, finish) && finish < 1000 * retry && gap < HALF
    requires retry <= lastMs + SENSOR_RETRY_MS && Smooth(lastMs, last, gap, turns)
    ensures OnCourse(PmwOf(Run(s, turns)), LastStep(last, turns), retry, gap, finish)
    decreases turns
  {
    hide Inv, Iterate, Reports, OnCourse, Calm;
    if turns != [] {
      var i := turns[0];
      IterateReports(s, i);
      TurnOnCourse(s, i, last, retry, gap, finish);
      RunOnCourse(Iterate(s, i), i.t, i.us.step, retry, gap, finish, turns[1..]);
    }
  }

  lemma UpByTheFinish(p: Pmw, last: int, retry: int, gap: nat, finish: int)
    requires OnCourse(p, last, retry, gap, finish) && last > finish - gap
    ensures p.Device().initialized
  {
    UpOrUnderWay(p, last, retry, gap, finish);
    if Undecided(p.Device()) {
      AttemptOnCourse(p, last, retry, gap, finish);
    }
    hide OnCourse;
  }

  /** A new attempt: 76 steps and 111 ms of pauses ahead of it. */
  lemma NewAttemptOnCourse(p: Pmw, prior: Attempt, us: int, retry: int, gap: nat)
    requires p.flow.att == StartInit(prior, us) && p.retryAt == Stamp(retry)
    ensures OnCourse(p, us, retry, gap, us + 111_000 + 76 * gap)
  {
    StartOnScript(prior, us);
    hide OnScript, Stamp, Plus;
    InAttempt(p.flow.att, us);
  }

  /** From power-on, with steps at most gap microseconds apart, the sensor is up after 111 ms and 75 gaps. */
  lemma BringUpCompletes(t: int, us: int, turns: seq<Turn>, gap: nat, lag: nat)
    requires 76 * gap + 111_000 + lag <= 1_000_000
    requires us < 1000 * t + lag && Smooth(t, us, gap, turns)
    ensures Inv(Initial(t, us))
    ensures LastStep(us, turns) > us + 111_000 + 75 * gap ==> Run(Initial(t, us), turns).flow.att.dev.initialized
  {
    hide Run, Inv, OnCourse, Stamp, Plus, Smooth, StartInit;
    InitialInv(t, us);
    var s := Initial(t, us);
    PlusIsTrue(t, SENSOR_RETRY_MS);
    var finish := us + 111_000 + 76 * gap;
    NewAttemptOnCourse(PmwOf(s), Attempt(ResetDevice(Stamp(us)), []), us, t + SENSOR_RETRY_MS, gap);
    RunOnCourse(s, t, us, t + SENSOR_RETRY_MS, gap, finish, turns);
    if LastStep(us, turns) > finish - gap {
      UpByTheFinish(PmwOf(Run(s, turns)), LastStep(us, turns), t + SENSOR_RETRY_MS, gap, finish);
    }
  }

  /** Whether an iteration starts an attempt. */
  predicate Starts(s: Loop, i: Turn) {
    !MotionStage(PmwOf(s), i).Device().initialized && Reached(Stamp(i.t), MotionStage(PmwOf(s), i).retryAt)
  }

  lemma StartOnCourse(s: Loop, i: Turn, gap: nat)
    requires Inv(s) && Starts(s, i) && gap < HALF
    requires AllWell(i.spi) && i.alive && i.us.begin <= i.us.step <= i.us.begin + gap
    ensures OnCourse(PmwOf(Iterate(s, i)), i.us.step, i.t + SENSOR_RETRY_MS, gap, i.us.begin + 111_000 + 76 * gap)
  {
    hide Inv, Iterate, OnCourse, MotionStage, InitStage, CheckStage, Stamp, Plus, Reached, StartInit;
    var a := MotionStage(PmwOf(s), i);
    var b := RetryStage(a, i);
    var retry, finish := i.t + SENSOR_RETRY_MS, i.us.begin + 111_000 + 76 * gap;
    PlusIsTrue(i.t, SENSOR_RETRY_MS);
    NewAttemptOnCourse(b, a.flow.att, i.us.begin, retry, gap);
    InitStageOnCourse(b, i, i.us.begin, retry, gap, finish);
    var c := InitStage(b, i);
    StillAlive(c, i);
    SameOnCourse(c, CheckStage(c, i), i.us.step, retry, gap, finish);
    IterateAttempt(s, i);
    SameOnCourse(CheckStage(c, i), PmwOf(Iterate(s, i)), i.us.step, retry, gap, finish);
  }

  lemma StillAlive(p: Pmw, i: Turn)
    requires i.alive
    ensures SameAttempt(p.flow.att, CheckStage(p, i).flow.att) && CheckStage(p, i).retryAt == p.retryAt
  {
    hide Stamp, Plus, Reached;
  }

  /** The same for every attempt started later, in any reachable state. */
  lemma RestartCompletes(s: Loop, i: Turn, turns: seq<Turn>, gap: nat, lag: nat)
    requires 76 * gap + 111_000 + lag <= 1_000_000
    requires Inv(s) && Starts(s, i)
    requires AllWell(i.spi) && i.alive && i.us.begin <= i.us.step <= i.us.begin + gap
    requires i.us.begin < 1000 * i.t + lag && Smooth(i.t, i.us.step, gap, turns)
    ensures Inv(Iterate(s, i))
    ensures LastStep(i.us.step, turns) > i.us.begin + 111_000 + 75 * gap ==>
              Run(Iterate(s, i), turns).flow.att.dev.initialized
  {
    hide Run, Inv, Iterate, Reports, OnCourse, Smooth, Starts;
    IterateReports(s, i);
    StartOnCourse(s, i, gap);
    var u, retry, finish := Iterate(s, i), i.t + SENSOR_RETRY_MS, i.us.begin + 111_000 + 76 * gap;
    RunOnCourse(u, i.t, i.us.step, retry, gap, finish, turns);
    if LastStep(i.us.step, turns) > finish - gap {
      UpByTheFinish(PmwOf(Run(u, turns)), LastStep(i.us.step, turns), retry, gap, finish);
    }
  }

  // ---------------------------------------------------------------- a loop that is too slow

  /** The earliest reading at which an attempt can be over: its next step is no earlier than given, the rest gap apart. */
  function Soonest(a: Attempt, earliest: int, gap: nat): int
    requires 0 < |a.log| <= PREAMBLE + SEQUENCE_COUNT && (a.dev.initState == Sequence ==> a.dev.initIndex <= SEQUENCE_COUNT)
  {
    (if earliest >= Deadline(a) then earliest else Deadline(a))
    + (StepsLeft(a.dev) - 1) * gap
    + (if PausesLeft(a.dev) >= 100_000 then 100_000 - gap else 0)
  }

  /**
   * The sensor is down, and an attempt under way cannot be over before it is due to be started over at true time
   * retry, with the counter for a step read less than lag microseconds after its millisecond begins.
   */
  ghost predicate Lagging(p: Pmw, last: int, earliest: int, retry: int, gap: nat, lag: nat) {
    var a := p.flow.att;
    && OnScript(a, last) && p.retryAt == Stamp(retry)
    && (a.dev.initState == Idle ||
        (Undecided(a.dev) && (InAttempt(a, last); Soonest(a, earliest, gap) >= 1000 * (retry - 1) + lag)))
  }

  lemma LaggingIsDown(p: Pmw, last: int, earliest: int, retry: int, gap: nat, lag: nat)
    requires Lagging(p, last, earliest, retry, gap, lag)
    ensures !p.Device().initialized
  {
    DoneIsInitialised(p.flow.att, last);
    hide OnScript, Soonest, Stamp;
  }

  /** Each step uses up at least a gap, and the one before the long pause at least that pause. */
  lemma StepLags(a: Attempt, b: Attempt, last: int, earliest: int, u: int, gap: nat)
    requires OnScript(a, last) && Undecided(a.dev) && OnScript(b, u) && Undecided(b.dev)
    requires u >= earliest && gap <= 100_000
    ensures 0 < |a.log| <= PREAMBLE + SEQUENCE_COUNT && (a.dev.initState == Sequence ==> a.dev.initIndex <= SEQUENCE_COUNT)
    ensures 0 < |b.log| <= PREAMBLE + SEQUENCE_COUNT && (b.dev.initState == Sequence ==> b.dev.initIndex <= SEQUENCE_COUNT)
    ensures b == a || (Deadline(a) <= u && OneOn(a, b, u)) ==>
              Soonest(b, u + gap, gap) >= Soonest(a, earliest, gap)
  {
    hide OnScript, Stamp, Pause;
    InAttempt(a, last);
    InAttempt(b, u);
    StepsLeftBound(a, last);
    OneStepLess(StepsLeft(a.dev), gap);
    if b != a && Deadline(a) <= u && OneOn(a, b, u) {
      StepsLeftBound(b, u);
      OneStepLess(StepsLeft(b.dev), gap);
      hide StepsLeft, Deadline;
      assert StepsLeft(b.dev) * gap == (StepsLeft(a.dev) - 1) * gap;
    }
  }

  /** The steps of an iteration in a lagging bring-up, after a start has been given its chance. */
  lemma InitStageLags(p: Pmw, i: Turn, last: int, earliest: int, retry: int, gap: nat, lag: nat) returns (next: int)
    requires Lagging(p, last, earliest, retry, gap, lag) && gap <= 100_000
    requires i.t < retry <= i.t + SENSOR_RETRY_MS
    requires last <= i.us.step && earliest <= i.us.step < 1000 * i.t + lag
    ensures Lagging(InitStage(p, i), i.us.step, i.us.step + gap, next, gap, lag)
    ensures i.t < next <= i.t + SENSOR_RETRY_MS
  {
    var a, u := p.flow.att, i.us.step;
    hide OnScript, InitStep, Stamp, Plus, Raise, Lower, Soonest, OneOn, Lagging;
    LaggingIsDown(p, last, earliest, retry, gap, lag);
    LaggingShape(p, last, earliest, retry, gap, lag);
    if a.dev.initState == Idle {
      LaterOnScript(a, last, u);
      IdleLags(p, u, u + gap, retry, gap, lag);
      return retry;
    }
    var b := InitStep(a, u, i.spi).0;
    StepExactly(a, last, u, i.spi);
    InitStepReturns(a, u, i.spi);
    InitStepDecides(a, last, u, i.spi);
    if b.dev.initState == Failed {
      PlusIsTrue(i.t, SENSOR_RETRY_MS);
      AbandonedOnScript(p.Flowed(PmwCounts.Initialise(u, i.spi)).flow, u);
      IdleLags(InitStage(p, i), u, u + gap, i.t + SENSOR_RETRY_MS, gap, lag);
      return i.t + SENSOR_RETRY_MS;
    }
    LastStepComesLate(p, b, last, earliest, u, i.spi, retry, gap, lag);
    StepLags(a, b, last, earliest, u, gap);
    UnderWayLags(p, InitStage(p, i), last, earliest, u, retry, gap, lag);
    return retry;
  }

  lemma LaggingShape(p: Pmw, last: int, earliest: int, retry: int, gap: nat, lag: nat)
    requires Lagging(p, last, earliest, retry, gap, lag)
    ensures OnScript(p.flow.att, last) && p.retryAt == Stamp(retry)
    ensures p.Device().initState == Idle || Undecided(p.Device())
  {
    hide OnScript, Soonest, Stamp;
  }

  lemma IdleLags(p: Pmw, last: int, earliest: int, retry: int, gap: nat, lag: nat)
    requires OnScript(p.flow.att, last) && p.Device().initState == Idle && p.retryAt == Stamp(retry)
    ensures Lagging(p, last, earliest, retry, gap, lag)
  {
    hide OnScript, Soonest, Stamp;
  }

  lemma UnderWayLags(p: Pmw, q: Pmw, last: int, earliest: int, u: int, retry: int, gap: nat, lag: nat)
    requires Lagging(p, last, earliest, retry, gap, lag) && Undecided(p.Device())
    requires OnScript(q.flow.att, u) && Undecided(q.Device()) && q.retryAt == p.retryAt
    requires 0 < |p.flow.att.log| <= PREAMBLE + SEQUENCE_COUNT
    requires p.Device().initState == Sequence ==> p.Device().initIndex <= SEQUENCE_COUNT
    requires 0 < |q.flow.att.log| <= PREAMBLE + SEQUENCE_COUNT
    requires q.Device().initState == Sequence ==> q.Device().initIndex <= SEQUENCE_COUNT
    requires Soonest(q.flow.att, u + gap, gap) >= Soonest(p.flow.att, earliest, gap)
    ensures Lagging(q, u, u + gap, retry, gap, lag)
  {
    hide OnScript, Soonest, Stamp;
  }

  /** A step leaves an attempt under way, or decides it. */
  lemma InitStepDecides(a: Attempt, now: int, t: int, spi: Spi)
    requires OnScript(a, now) && Undecided(a.dev)
    ensures InitStep(a, t, spi).0.dev.initState in {Done, Failed} || Undecided(InitStep(a, t, spi).0.dev)
  {
    StepsStayInAttempt(a, t, spi);
    hide OnScript, InitStep;
  }

  /** The step that would complete the attempt is read too late for an iteration before the retry. */
  lemma LastStepComesLate(p: Pmw, b: Attempt, last: int, earliest: int, u: int, spi: Spi, retry: int, gap: nat, lag: nat)
    requires Lagging(p, last, earliest, retry, gap, lag) && Undecided(p.Device()) && earliest <= u
    requires u < 1000 * (retry - 1) + lag
    requires b == InitStep(p.flow.att, u, spi).0 && last <= u
    ensures b.dev.initState != Done
  {
    var a := p.flow.att;
    hide OnScript, InitStep, Stamp, Pause;
    InAttempt(a, last);
    StepExactly(a, last, u, spi);
  }

  lemma NewAttemptLags(p: Pmw, prior: Attempt, us: int, t: int, gap: nat, lag: nat)
    requires p.flow.att == StartInit(prior, us) && p.retryAt == Stamp(t + SENSOR_RETRY_MS) && 1000 * t <= us
    requires 74 * gap + 102_000 >= 1_000_000 + lag && gap <= 100_000
    ensures Lagging(p, us, us, t + SENSOR_RETRY_MS, gap, lag)
  {
    StartOnScript(prior, us);
    hide OnScript, Stamp, Plus;
    InAttempt(p.flow.att, us);
  }

  /** With the sensor down, the motion stage and the health check do nothing. */
  lemma DownStages(p: Pmw, i: Turn)
    requires !p.Device().initialized
    ensures MotionStage(p, i) == p && CheckStage(p, i) == p
  {}

  /** One iteration of a slow loop: read is when the counter was last read for a step, and earliest when it is next. */
  predicate SlowTurn(i: Turn, lastMs: int, read: int, earliest: int, lag: nat) {
    && lastMs <= i.t <= lastMs + HALF
    && read <= i.us.begin <= i.us.step && 1000 * i.t <= i.us.begin && i.us.step < 1000 * i.t + lag
    && earliest <= i.us.step
  }

  lemma PmwStagesLag(p: Pmw, i: Turn, lastMs: int, read: int, earliest: int, retry: int, gap: nat, lag: nat)
    returns (next: int)
    requires Lagging(p, read, earliest, retry, gap, lag) && lastMs < retry <= lastMs + SENSOR_RETRY_MS
    requires SlowTurn(i, lastMs, read, earliest, lag)
    requires 74 * gap + 102_000 >= 1_000_000 + lag && gap <= 100_000
    ensures Lagging(PmwStages(p, i), i.us.step, i.us.step + gap, next, gap, lag)
    ensures i.t < next <= i.t + SENSOR_RETRY_MS
  {
    hide Lagging, MotionStage, InitStage, CheckStage, Stamp, Plus, Reached, StartInit;
    LaggingIsDown(p, read, earliest, retry, gap, lag);
    LaggingShape(p, read, earliest, retry, gap, lag);
    DownStages(p, i);
    ReachedNear(i.t, retry);
    var b := RetryStage(p, i);
    if i.t >= retry {
      PlusIsTrue(i.t, SENSOR_RETRY_MS);
      NewAttemptLags(b, p.flow.att, i.us.begin, i.t, gap, lag);
      next := InitStageLags(b, i, i.us.begin, i.us.begin, i.t + SENSOR_RETRY_MS, gap, lag);
    } else {
      next := InitStageLags(p, i, read, earliest, retry, gap, lag);
    }
    var c := InitStage(b, i);
    LaggingIsDown(c, i.us.step, i.us.step + gap, next, gap, lag);
    DownStages(c, i);
  }

  /** Iterations of a loop that takes at least gap microseconds from step to step. */
  predicate Slow(lastMs: int, read: int, earliest: int, gap: nat, lag: nat, turns: seq<Turn>)
    decreases turns
  {
    turns != [] ==>
    && SlowTurn(turns[0], lastMs, read, earliest, lag)
    && Slow(turns[0].t, turns[0].us.step, turns[0].us.step + gap, gap, lag, turns[1..])
  }

  lemma SameLags(p: Pmw, q: Pmw, last: int, earliest: int, retry: int, gap: nat, lag: nat)
    requires Lagging(p, last, earliest, retry, gap, lag) && SameAttempt(p.flow.att, q.flow.att) && q.retryAt == p.retryAt
    ensures Lagging(q, last, earliest, retry, gap, lag)
  {
    SameOnScript(p.flow.att, q.flow.att, last);
    hide OnScript, Stamp;
    if Undecided(p.Device()) {
      InAttempt(p.flow.att, last);
      InAttempt(q.flow.att, last);
    }
  }

  lemma {:induction false} DownAllAlong(s: Loop, lastMs: int, read: int, earliest: int, retry: int, gap: nat, lag: nat,
                                        turns: seq<Turn>)
    requires Inv(s) && Lagging(PmwOf(s), read, earliest, retry, gap, lag)
    requires lastMs < retry <= lastMs + SENSOR_RETRY_MS
    requires Slow(lastMs, read, earliest, gap, lag, turns)
    requires 74 * gap + 102_000 >= 1_000_000 + lag && gap <= 100_000
    ensures !Run(s, turns).flow.att.dev.initialized
    decreases turns
  {
    hide Inv, Iterate, Reports, Lagging, PmwStages, SlowTurn;
    LaggingIsDown(PmwOf(s), read, earliest, retry, gap, lag);
    if turns != [] {
      var i := turns[0];
      IterateReports(s, i);
      var next := PmwStagesLag(PmwOf(s), i, lastMs, read, earliest, retry, gap, lag);
      IterateAttempt(s, i);
      SameLags(PmwStages(PmwOf(s), i), PmwOf(Iterate(s, i)), i.us.step, i.us.step + gap, next, gap, lag);
      DownAllAlong(Iterate(s, i), i.t, i.us.step, i.us.step + gap, next, gap, lag, turns[1..]);
    }
  }

  /**
   * A loop that takes too long from step to step never brings the sensor up, whatever the transfers do: every attempt
   * is started over before its last step.
   */
  lemma SlowLoopNeverUp(t: int, us: int, turns: seq<Turn>, gap: nat, lag: nat)
    requires 74 * gap + 102_000 >= 1_000_000 + lag && gap <= 100_000
    requires 1000 * t <= us && Slow(t, us, us, gap, lag, turns)
    ensures Inv(Initial(t, us))
    ensures !Run(Initial(t, us), turns).flow.att.dev.initialized
  {
    hide Run, Inv, Lagging, Stamp, Plus, Slow, StartInit;
    InitialInv(t, us);
    PlusIsTrue(t, SENSOR_RETRY_MS);
    NewAttemptLags(PmwOf(Initial(t, us)), Attempt(ResetDevice(Stamp(us)), []), us, t, gap, lag);
    DownAllAlong(Initial(t, us), t, us, us, t + SENSOR_RETRY_MS, gap, lag, turns);
  }
}
