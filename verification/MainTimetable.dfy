// When the optical flow sensor is up, as a function of the times of the iterations alone, with every transfer
// succeeding: the bring-up as a timetable of three numbers (app/main.c:36-37).
module MainTimetable {
  import opened WrapTime
  import opened Health
  import opened MainModel
  import opened MainRuns
  import opened MainBringUp
  import opened PmwModel

  /** The steps left, when the next one is due, and when the attempt is started over; no steps left means up. */
  datatype Plan = Plan(left: nat, due: int, retry: int)

  const ALL_STEPS := 76

  /** The pause a step is followed by, told by the steps then left: two of 5 ms, and one of 100 ms. */
  function PauseAfter(left: nat): nat {
    if left >= 74 then 5000 else if left == 15 then 100_000 else 0
  }

  /** A word comparison sees an instant as passed. */
  predicate Passed(t: int, deadline: int) {
    (t - deadline) % WRAP < HALF
  }

  function Started(p: Plan, i: Turn): Plan {
    if p.left > 0 && Passed(i.t, p.retry) then Plan(ALL_STEPS, i.us.begin + 1000, i.t + SENSOR_RETRY_MS) else p
  }

  function Stepped(p: Plan, i: Turn): Plan {
    if p.left > 0 && Passed(i.us.step, p.due) then
      p.(left := p.left - 1, due := i.us.step + PauseAfter(p.left - 1))
    else p
  }

  /** One iteration: the attempt is started over if its time has come, and takes a step if one is due. */
  function PlanTurn(p: Plan, i: Turn): Plan {
    Stepped(Started(p, i), i)
  }

  function AfterTurns(p: Plan, turns: seq<Turn>): Plan
    decreases turns
  {
    if turns == [] then p else AfterTurns(PlanTurn(p, turns[0]), turns[1..])
  }

  /** The device is where the plan says. */
  ghost predicate Follows(p: Pmw, now: int, plan: Plan) {
    var a := p.flow.att;
    && OnScript(a, now)
    && (if plan.left == 0 then a.dev.initState == Done
        else
          && Undecided(a.dev) && (InAttempt(a, now); StepsLeft(a.dev) == plan.left && Deadline(a) == plan.due)
          && p.retryAt == Stamp(plan.retry))
  }

  lemma SameFollows(p: Pmw, q: Pmw, now: int, plan: Plan)
    requires Follows(p, now, plan) && SameAttempt(p.flow.att, q.flow.att) && q.retryAt == p.retryAt
    ensures Follows(q, now, plan)
  {
    hide OnScript, Stamp, Pause;
    SameOnScript(p.flow.att, q.flow.att, now);
    if plan.left > 0 {
      InAttempt(p.flow.att, now);
      InAttempt(q.flow.att, now);
    }
  }

  lemma LaterFollows(p: Pmw, now: int, t: int, plan: Plan)
    requires Follows(p, now, plan) && now <= t
    ensures Follows(p, t, plan)
  {
    LaterOnScript(p.flow.att, now, t);
    hide OnScript, Stamp, Deadline;
  }

  lemma FollowsMeans(p: Pmw, now: int, plan: Plan)
    requires Follows(p, now, plan)
    ensures p.Device().initialized <==> plan.left == 0
    ensures OnScript(p.flow.att, now)
    ensures plan.left > 0 ==> Undecided(p.Device()) && p.retryAt == Stamp(plan.retry)
  {
    DoneIsInitialised(p.flow.att, now);
    hide OnScript, Stamp, Deadline, StepsLeft;
  }

  /** The pauses still to come, told by the steps left. */
  lemma PausesByLeft(a: Attempt, b: Attempt, t: int)
    requires Undecided(a.dev) && (a.dev.initState == Sequence ==> a.dev.initIndex <= SEQUENCE_COUNT)
    requires OneOn(a, b, t)
    ensures 0 < |b.log| <= PREAMBLE + SEQUENCE_COUNT && Deadline(b) == t + PauseAfter(StepsLeft(b.dev))
  {
    hide Deadline;
  }

  lemma RetryFollows(p: Pmw, i: Turn, now: int, plan: Plan)
    requires Follows(p, now, plan) && now <= i.us.begin
    ensures Follows(RetryStage(p, i), i.us.begin, Started(plan, i))
  {
    hide OnScript, Stamp, Plus, Reached, StartInit;
    FollowsMeans(p, now, plan);
    if plan.left > 0 {
      ReachedModulo(i.t, plan.retry);
    }
    if plan.left > 0 && Passed(i.t, plan.retry) {
      PlusIsTrue(i.t, SENSOR_RETRY_MS);
      NewAttemptFollows(RetryStage(p, i), p.flow.att, i.us.begin, i.t + SENSOR_RETRY_MS);
    } else {
      LaterFollows(p, now, i.us.begin, plan);
    }
  }

  lemma NewAttemptFollows(p: Pmw, prior: Attempt, us: int, retry: int)
    requires p.flow.att == StartInit(prior, us) && p.retryAt == Stamp(retry)
    ensures Follows(p, us, Plan(ALL_STEPS, us + 1000, retry))
  {
    StartOnScript(prior, us);
    hide OnScript, Stamp, Plus;
    InAttempt(p.flow.att, us);
  }

  lemma StepFollows(p: Pmw, q: Pmw, now: int, u: int, spi: Spi, plan: Plan)
    requires Follows(p, now, plan) && plan.left > 0 && now <= u && AllWell(spi)
    requires q.flow.att == InitStep(p.flow.att, u, spi).0 && q.retryAt == p.retryAt
    ensures Follows(q, u, if Passed(u, plan.due)
                          then plan.(left := plan.left - 1, due := u + PauseAfter(plan.left - 1)) else plan)
  {
    var a, b := p.flow.att, q.flow.att;
    hide OnScript, InitStep, Stamp, Reached, Deadline;
    InAttempt(a, now);
    ReachedModulo(u, plan.due);
    InitStepOnScript(a, now, u, spi);
    if Passed(u, plan.due) {
      DueStepAdvances(a, now, u, spi);
      if b.dev.initState != Done {
        PausesByLeft(a, b, u);
        InAttempt(b, u);
      }
    } else {
      IdleStep(a, now, u, spi);
    }
  }

  lemma InitStageFollows(p: Pmw, i: Turn, now: int, plan: Plan)
    requires Follows(p, now, plan) && now <= i.us.step && AllWell(i.spi)
    ensures Follows(InitStage(p, i), i.us.step, Stepped(plan, i))
  {
    hide OnScript, InitStep, Stamp, Plus, Raise, Lower, Follows, Passed;
    FollowsMeans(p, now, plan);
    if plan.left == 0 {
      LaterFollows(p, now, i.us.step, plan);
    } else {
      InitStepReturns(p.flow.att, i.us.step, i.spi);
      NotFailed(p.flow.att, now, i.us.step, i.spi);
      NotUpYet(p, now);
      StepFollows(p, InitStage(p, i), now, i.us.step, i.spi, plan);
    }
  }

  lemma NotUpYet(p: Pmw, now: int)
    requires OnScript(p.flow.att, now) && Undecided(p.Device())
    ensures !p.Device().initialized && p.Device().initState != Idle
  {
    DoneIsInitialised(p.flow.att, now);
    hide OnScript;
  }

  /** The three readings of the counter that matter come in order. */
  lemma TurnFollows(s: Loop, i: Turn, now: int, plan: Plan)
    requires Inv(s) && Follows(PmwOf(s), now, plan) && Calm(i) && now <= i.us.begin <= i.us.step
    ensures Follows(PmwOf(Iterate(s, i)), i.us.step, PlanTurn(plan, i))
  {
    hide Inv, Iterate, Follows, MotionStage, RetryStage, InitStage, CheckStage, Started, Stepped;
    var p := PmwOf(s);
    var a := MotionStage(p, i);
    CalmStages(p, i);
    SameFollows(p, a, now, plan);
    RetryFollows(a, i, now, plan);
    var b := RetryStage(a, i);
    InitStageFollows(b, i, i.us.begin, Started(plan, i));
    var c := InitStage(b, i);
    CalmStages(c, i);
    SameFollows(c, CheckStage(c, i), i.us.step, PlanTurn(plan, i));
    IterateAttempt(s, i);
    SameFollows(CheckStage(c, i), PmwOf(Iterate(s, i)), i.us.step, PlanTurn(plan, i));
  }

  /** Every transfer with the sensor succeeds, and the counter is read in order. */
  predicate AllCalm(last: int, turns: seq<Turn>)
    decreases turns
  {
    turns != [] ==>
    Calm(turns[0]) && last <= turns[0].us.begin <= turns[0].us.step && AllCalm(turns[0].us.step, turns[1..])
  }

  lemma {:induction false} RunFollows(s: Loop, now: int, plan: Plan, turns: seq<Turn>)
    requires Inv(s) && Follows(PmwOf(s), now, plan) && AllCalm(now, turns)
    ensures Follows(PmwOf(Run(s, turns)), LastStep(now, turns), AfterTurns(plan, turns))
    decreases turns
  {
    hide Inv, Iterate, Reports, Follows, Calm, PlanTurn;
    if turns != [] {
      IterateReports(s, turns[0]);
      TurnFollows(s, turns[0], now, plan);
      RunFollows(Iterate(s, turns[0]), turns[0].us.step, PlanTurn(plan, turns[0]), turns[1..]);
    }
  }

  /**
   * With every transfer succeeding, and at any gaps between iterations at all, the sensor is up after a run from power-on
   * if and only if the timetable, which looks at three times of each iteration, has no steps left.
   */
  lemma UpExactlyByTimetable(t: int, us: int, turns: seq<Turn>)
    requires AllCalm(us, turns)
    ensures Inv(Initial(t, us))
    ensures Run(Initial(t, us), turns).flow.att.dev.initialized <==>
            AfterTurns(Plan(ALL_STEPS, us + 1000, t + SENSOR_RETRY_MS), turns).left == 0
  {
    hide Run, Inv, Follows, Stamp, Plus, AllCalm, StartInit, AfterTurns;
    InitialInv(t, us);
    PlusIsTrue(t, SENSOR_RETRY_MS);
    var plan := Plan(ALL_STEPS, us + 1000, t + SENSOR_RETRY_MS);
    NewAttemptFollows(PmwOf(Initial(t, us)), Attempt(ResetDevice(Stamp(us)), []), us, t + SENSOR_RETRY_MS);
    RunFollows(Initial(t, us), us, plan, turns);
    FollowsMeans(PmwOf(Run(Initial(t, us), turns)), LastStep(us, turns), AfterTurns(plan, turns));
  }
}
