// The main loop never loses motion counts to saturation: the 20 ms publication clears them long before 65536 reads,
// as a read takes 170 us of busy waiting (drivers/pmw3901.c:73-74) and the watchdog ends gaps of 500 ms.
module MainCounts {
  import opened WrapTime
  import opened MainModel
  import opened MainRuns
  import CanRecovery
  import PmwCounts
  import PmwModel
  import Scheduler
  import TofModel

  const READ_US := 170
  const WATCHDOG_MS := 500

  /** Whether an iteration reads motion; with the sensor down it reads none, whatever it would have read. */
  predicate Reads(i: Turn) {
    i.motionIrq && i.motion.Some?
  }

  /**
   * Iterations less than 500 ms apart; those that read motion are 170 us or more after the last such one, and no later
   * than lag microseconds after their millisecond begins.
   */
  predicate Regular(lastMs: int, lastRead: int, lag: nat, turns: seq<Turn>)
    decreases turns
  {
    turns != [] ==>
    && RegularTurn(lastMs, lastRead, lag, turns[0])
    && Regular(turns[0].t, ReadAt(lastRead, turns[0]), lag, turns[1..])
  }

  predicate RegularTurn(lastMs: int, lastRead: int, lag: nat, i: Turn) {
    && lastMs <= i.t < lastMs + WATCHDOG_MS
    && 1000 * i.t <= i.us.motion < 1000 * i.t + lag
    && (Reads(i) ==> i.us.motion >= lastRead + READ_US)
  }

  function ReadAt(lastRead: int, i: Turn): int {
    if Reads(i) then i.us.motion else lastRead
  }

  /** The reads since the last publication, in the iteration at z, fit into the time since then; none is due since. */
  ghost predicate Spread(s: Loop, start: int, z: int, lastMs: int, lastRead: int) {
    && Scheduler.OnGrid(s.flowTask, start, FLOW_PERIOD_MS, lastMs) && start <= z <= lastMs
    && Scheduler.Cell(start, FLOW_PERIOD_MS, z) == Scheduler.Cell(start, FLOW_PERIOD_MS, lastMs)
    && (s.flow.taken > 0 ==> (s.flow.taken - 1) * READ_US <= lastRead - 1000 * z)
  }

  lemma MotionTakes(p: Pmw, i: Turn)
    ensures MotionStage(p, i).flow.taken <= p.flow.taken + (if Reads(i) then 1 else 0)
  {
    hide PmwCounts.Transform, PmwCounts.Enter, Stamp, Plus;
  }

  /** The flow counts after the four stages about the sensor. */
  lemma StagesTake(p: Pmw, i: Turn)
    ensures PmwStages(p, i).flow.taken <= MotionStage(p, i).flow.taken
  {
    hide MotionStage, Stamp, Plus, Reached, PmwModel.InitStep;
    var a := MotionStage(p, i);
    RetryTakes(a, i);
    InitTakes(RetryStage(a, i), i);
    CheckTakes(InitStage(RetryStage(a, i), i), i);
  }

  lemma RetryTakes(p: Pmw, i: Turn)
    ensures RetryStage(p, i).flow.taken <= p.flow.taken
  {
    hide Stamp, Plus, Reached;
  }

  lemma InitTakes(p: Pmw, i: Turn)
    ensures InitStage(p, i).flow.taken <= p.flow.taken
  {
    hide Stamp, Plus, PmwModel.InitStep;
  }

  lemma CheckTakes(p: Pmw, i: Turn)
    ensures CheckStage(p, i).flow.taken <= p.flow.taken
  {
    hide Stamp, Plus, Reached;
  }

  lemma SameCellIsNear(start: int, a: int, b: int)
    requires start <= a <= b && Scheduler.Cell(start, FLOW_PERIOD_MS, a) == Scheduler.Cell(start, FLOW_PERIOD_MS, b)
    ensures b < a + FLOW_PERIOD_MS
  {
    Scheduler.CellBounds(start, FLOW_PERIOD_MS, a);
    Scheduler.CellBounds(start, FLOW_PERIOD_MS, b);
    hide Scheduler.Cell;
  }

  /** The reads up to and with this iteration's are few. */
  lemma ReadsAreFew(s: Loop, i: Turn, start: int, z: int, lastMs: int, lastRead: int, lag: nat)
    requires Spread(s, start, z, lastMs, lastRead) && RegularTurn(lastMs, lastRead, lag, i)
    requires 520_000 + lag <= LIMIT * READ_US && s.flow.taken <= LIMIT
    ensures var taken := MotionStage(PmwOf(s), i).flow.taken;
            taken <= LIMIT && (taken > 0 ==> (taken - 1) * READ_US <= ReadAt(lastRead, i) - 1000 * z)
  {
    MotionTakes(PmwOf(s), i);
    SameCellIsNear(start, z, lastMs);
    hide MotionStage, Scheduler.Cell, Scheduler.OnGrid;
  }

  /** An iteration publishes, and clears the counts, exactly when its millisecond lies in a later cell. */
  lemma FlowNext(s: Loop, i: Turn)
    requires Inv(s)
    ensures s.flowTask.period > 0
    ensures var (task, fired) := Scheduler.Poll(s.flowTask, Stamp(i.t));
            var u := Iterate(s, i);
            && u.flowTask == task
            && u.flow.taken <= (if fired then 0 else MotionStage(PmwOf(s), i).flow.taken)
  {
    hide Inv, Iterate, TofTurn, MotionStage, RetryStage, InitStage, CheckStage, PmwStages, Stamp, Scheduler.Poll,
      CanRecovery.Step;
    PeriodsKept(s);
    IterateShape(s, i);
    StagesTake(PmwOf(s), i);
  }

  lemma SpreadNext(s: Loop, i: Turn, start: int, z: int, lastMs: int, lastRead: int, lag: nat) returns (next: int)
    requires Inv(s) && Spread(s, start, z, lastMs, lastRead) && RegularTurn(lastMs, lastRead, lag, i)
    requires 520_000 + lag <= LIMIT * READ_US && s.flow.taken <= LIMIT
    ensures Spread(Iterate(s, i), start, next, i.t, ReadAt(lastRead, i)) && Iterate(s, i).flow.taken <= LIMIT
  {
    hide Inv, Iterate, MotionStage, Scheduler.Cell, Scheduler.OnGrid, Scheduler.Poll, Stamp;
    ReadsAreFew(s, i, start, z, lastMs, lastRead, lag);
    FlowNext(s, i);
    Scheduler.PollOnGrid(s.flowTask, start, FLOW_PERIOD_MS, lastMs, i.t);
    Scheduler.CellMonotone(start, FLOW_PERIOD_MS, lastMs, i.t);
    next := if Scheduler.Poll(s.flowTask, Stamp(i.t)).1 then i.t else z;
    var u := Iterate(s, i);
    if !Scheduler.Poll(s.flowTask, Stamp(i.t)).1 && u.flow.taken > 0 {
      FewerFits(u.flow.taken, MotionStage(PmwOf(s), i).flow.taken, ReadAt(lastRead, i) - 1000 * z);
    }
  }

  lemma FewerFits(n: nat, m: nat, time: int)
    requires 0 < n <= m && (m - 1) * READ_US <= time
    ensures (n - 1) * READ_US <= time
  {}

  lemma {:induction false} RegularIsBounded(s: Loop, start: int, z: int, lastMs: int, lastRead: int, lag: nat,
                                            turns: seq<Turn>)
    requires Inv(s) && Spread(s, start, z, lastMs, lastRead) && Regular(lastMs, lastRead, lag, turns)
    requires 520_000 + lag <= LIMIT * READ_US && s.flow.taken <= LIMIT
    ensures ReadsBounded(s, turns)
    decreases turns
  {
    hide Inv, Iterate, Reports, Spread, MotionStage, RegularTurn;
    if turns != [] {
      var i := turns[0];
      IterateReports(s, i);
      ReadsAreFew(s, i, start, z, lastMs, lastRead, lag);
      var next := SpreadNext(s, i, start, z, lastMs, lastRead, lag);
      RegularIsBounded(Iterate(s, i), start, next, i.t, ReadAt(lastRead, i), lag, turns[1..]);
    }
  }

  /**
   * Over any regular run from power-on the balance of counts is exact: what was read from the sensor was published, is
   * pending, or was thrown away by a reset, and saturation took nothing.
   */
  lemma CountsExactInTime(t: int, us: int, turns: seq<Turn>, lag: nat)
    requires 520_000 + lag <= LIMIT * READ_US && Regular(t, us, lag, turns)
    ensures Inv(Initial(t, us))
    ensures var s := Run(Initial(t, us), turns);
            && s.flow.x.read == SumX(s.flows) + s.flow.att.dev.accX + s.flow.x.discarded
            && s.flow.y.read == SumY(s.flows) + s.flow.att.dev.accY + s.flow.y.discarded
  {
    SpreadAtStart(t, us);
    hide Run, Inv, Initial, Spread, Regular, ReadsBounded;
    InitialInv(t, us);
    RegularIsBounded(Initial(t, us), t, t, t, us, lag, turns);
    CountsExact(t, us, turns);
  }

  lemma SpreadAtStart(t: int, us: int)
    ensures Spread(Initial(t, us), t, t, t, us) && Initial(t, us).flow.taken == 0
  {
    Scheduler.NewTaskOnGrid(t, FLOW_PERIOD_MS);
    hide Scheduler.OnGrid, Scheduler.Cell, Scheduler.NewTask, TofModel.Initial;
  }
}
