// What the main loop makes of the motion the sensor reports (app/main.c:35-38 and 43, drivers/pmw3901.c:105-121): which
// readings enter the counts, when counts are thrown away, and what a published flow sample carries, told by the turns.
module MainMotion {
  import opened Common
  import opened WrapTime
  import opened Samples
  import opened Health
  import opened MainModel
  import opened MainRuns
  import CanRecovery
  import CanTx
  import MainIo
  import PmwCounts
  import PmwModel
  import Scheduler
  import TofModel

  /** Whether an iteration that starts with the sensor in this state reads motion that counts. */
  predicate Counts(initialized: bool, i: Turn) {
    i.motionIrq && initialized && i.motion.Some? && i.motion.value.motion
  }

  function MovedX(initialized: bool, i: Turn): int {
    if Counts(initialized, i) then i.motion.value.dx else 0
  }

  function MovedY(initialized: bool, i: Turn): int {
    if Counts(initialized, i) then i.motion.value.dy else 0
  }

  /** A count within the range of int32_t. */
  function Clamped(v: int): int {
    if v > 0x7FFF_FFFF then 0x7FFF_FFFF else if v < -0x8000_0000 then -0x8000_0000 else v
  }

  // ---------------------------------------------------------------- the stages

  /** A good read adds its motion to the counts and replaces the quality; a failed one loses the sensor. */
  lemma MotionStageExactly(p: Pmw, i: Turn)
    ensures var q, d := MotionStage(p, i), p.Device();
            var e := q.Device();
            && q.flow.x.read == p.flow.x.read + MovedX(d.initialized, i)
            && q.flow.y.read == p.flow.y.read + MovedY(d.initialized, i)
            && (if !i.motionIrq || !d.initialized then q == p
                else if i.motion.None? then
                  !e.initialized && e.initState == PmwModel.Idle && q.retryAt == Stamp(i.t + 1000)
                  && e.accX == 0 && e.accY == 0 && e.quality == 0 && Read(q.health).pmw
                  && q.flow.x.discarded == p.flow.x.discarded + d.accX
                     && q.flow.y.discarded == p.flow.y.discarded + d.accY
                else
                  && e == d.(quality := i.motion.value.quality, accX := Clamped(d.accX + MovedX(true, i)),
                             accY := Clamped(d.accY + MovedY(true, i)))
                  && q == p.(flow := q.flow)
                  && q.flow.x.discarded == p.flow.x.discarded && q.flow.y.discarded == p.flow.y.discarded)
  {
    RaisePmw(p.health);
    PlusIsTrue(i.t, 1000);
    hide Read, Raise, Stamp, Plus;
  }

  /** Neither a retry nor an initialisation step touches the counts of a sensor that has none. */
  lemma RetryStageKeepsCounts(p: Pmw, i: Turn)
    requires PmwInv(p)
    ensures var q := RetryStage(p, i);
            && q.flow.x.read == p.flow.x.read && q.flow.y.read == p.flow.y.read
            && q.flow.x.discarded == p.flow.x.discarded && q.flow.y.discarded == p.flow.y.discarded
            && q.Device().initialized == p.Device().initialized && (p.Device().initialized ==> q == p)
            && q.health == p.health
            && (q != p ==> q.Device().initState == PmwModel.ResetAsserted && q.retryAt == Stamp(i.t + 1000))
  {
    PlusIsTrue(i.t, 1000);
    hide Read, Stamp, Plus, Reached;
  }

  lemma InitStageKeepsCounts(p: Pmw, i: Turn)
    requires PmwInv(p)
    ensures var q := InitStage(p, i);
            && q.flow.x == p.flow.x && q.flow.y == p.flow.y
            && q.Device().accX == p.Device().accX && q.Device().accY == p.Device().accY
            && (p.Device().initialized || p.Device().initState == PmwModel.Idle ==> q == p)
  {
    hide Read, Raise, Lower, Stamp, Plus, PmwModel.InitStep;
    PmwCounts.InitStepKeepsCounts(p.flow.att, i.us.step, i.spi);
  }

  /** An initialisation step clears the fault bit exactly when it completes, and sets it exactly when it gives up. */
  lemma InitStageFlags(p: Pmw, i: Turn)
    requires PmwInv(p) && !p.Device().initialized && p.Device().initState != PmwModel.Idle
    ensures var q := InitStage(p, i);
            && (q.Device().initialized ==> !Read(q.health).pmw)
            && (q.Device().initState == PmwModel.Idle ==> Read(q.health).pmw && q.retryAt == Stamp(i.t + 1000))
            && (!q.Device().initialized && q.Device().initState != PmwModel.Idle ==>
                  q.health == p.health && q.retryAt == p.retryAt)
  {
    RaisePmw(p.health);
    LowerChanges(p.health);
    PlusIsTrue(i.t, 1000);
    InitStepReturns(p.flow.att, i.us.step, i.spi);
    InitStepNeverIdle(p.flow.att, i.us.step, i.spi);
    hide Read, Raise, Lower, Stamp, Plus, PmwModel.InitStep;
  }

  lemma InitStepNeverIdle(a: PmwModel.Attempt, us: int, spi: PmwModel.Spi)
    requires a.dev.initState != PmwModel.Idle
    ensures PmwModel.InitStep(a, us, spi).0.dev.initState != PmwModel.Idle
  {
    hide Stamp, Plus, Reached, PmwModel.Entry, PmwModel.MotionReads;
  }

  /** A due check that does not find the sensor loses it with what was pending. */
  lemma CheckStageExactly(p: Pmw, i: Turn)
    ensures var q, d := CheckStage(p, i), p.Device();
            && q.flow.x.read == p.flow.x.read && q.flow.y.read == p.flow.y.read
            && (if d.initialized && Reached(Stamp(i.t), p.checkAt) && !i.alive then
                  !q.Device().initialized && q.Device().initState == PmwModel.Idle && q.retryAt == Stamp(i.t + 1000)
                  && Read(q.health).pmw
                  && q.flow.x.discarded == p.flow.x.discarded + d.accX
                     && q.flow.y.discarded == p.flow.y.discarded + d.accY
                else q == p.(checkAt := q.checkAt))
  {
    RaisePmw(p.health);
    PlusIsTrue(i.t, 1000);
    hide Read, Raise, Stamp, Plus, Reached;
  }

  /** Whether the iteration loses an initialised sensor: a failed read, or a due check that does not find it. */
  predicate Loses(p: Pmw, i: Turn) {
    p.Device().initialized
    && ((i.motionIrq && i.motion.None?) || (Reached(Stamp(i.t), p.checkAt) && !i.alive))
  }

  /** What four statements about the sensor do to the counts of one axis: read and discarded. */
  predicate Accounted(p: Pmw, q: Pmw, i: Turn) {
    var d := p.Device();
    && q.flow.x.read == p.flow.x.read + MovedX(d.initialized, i)
    && q.flow.y.read == p.flow.y.read + MovedY(d.initialized, i)
    && q.flow.x.discarded == p.flow.x.discarded + (if Loses(p, i) then Clamped(d.accX + MovedX(true, i)) else 0)
    && q.flow.y.discarded == p.flow.y.discarded + (if Loses(p, i) then Clamped(d.accY + MovedY(true, i)) else 0)
    && (d.initialized ==> q.Device().initialized == !Loses(p, i))
    && (d.initialized && !Loses(p, i) ==>
          q.Device().accX == Clamped(d.accX + MovedX(true, i)) && q.Device().accY == Clamped(d.accY + MovedY(true, i))
          && q.Device().quality == (if i.motionIrq then i.motion.value.quality else d.quality)
          && q.Device().integrationStart == d.integrationStart)
  }

  /**
   * The fault bit, exactly: clear on an initialised sensor, set by each loss and each failed attempt, and else as it
   * was.
   */
  predicate Flagged(p: Pmw, q: Pmw, i: Turn) {
    var gaveUp := q.Device().initState == PmwModel.Idle && p.Device().initState != PmwModel.Idle;
    && (q.Device().initialized ==> !Read(q.health).pmw)
    && (!q.Device().initialized ==> Read(q.health).pmw == (Read(p.health).pmw || gaveUp))
    && (gaveUp ==> q.retryAt == Stamp(i.t + 1000))
  }

  lemma NotDueYet(t: int)
    ensures !Reached(Stamp(t), Stamp(t + 1000))
  {
    ReachedNear(t, t + 1000);
  }

  lemma PmwStagesExactly(p: Pmw, i: Turn)
    requires PmwInv(p)
    ensures Accounted(p, PmwStages(p, i), i) && Flagged(p, PmwStages(p, i), i)
  {
    if p.Device().initialized {
      UpStages(p, i);
    } else {
      DownStages(p, i);
    }
  }

  lemma InvFacts(p: Pmw)
    requires PmwInv(p)
    ensures !p.Device().initialized ==> p.Device().accX == 0 && p.Device().accY == 0
    ensures p.Device().initialized <==> p.Device().initState == PmwModel.Done
    ensures Read(p.health).pmw ==> !p.Device().initialized
    ensures -0x8000_0000 <= p.Device().accX <= 0x7FFF_FFFF && -0x8000_0000 <= p.Device().accY <= 0x7FFF_FFFF
  {
    hide Read;
  }

  lemma UpStages(p: Pmw, i: Turn)
    requires PmwInv(p) && p.Device().initialized
    ensures Accounted(p, PmwStages(p, i), i) && Flagged(p, PmwStages(p, i), i)
  {
    MotionStageKeeps(p, i);
    var a := MotionStage(p, i);
    RetryStageKeeps(a, i);
    var b := RetryStage(a, i);
    InitStageKeeps(b, i);
    PmwStagesKeep(p, i);
    InvFacts(p);
    InvFacts(a);
    InvFacts(PmwStages(p, i));
    MotionStageExactly(p, i);
    NotDueYet(i.t);
    RetryAsIs(a, i);
    RetryStageKeepsCounts(a, i);
    InitStageKeepsCounts(b, i);
    CheckStageExactly(InitStage(b, i), i);
    hide PmwInv, MotionStage, RetryStage, InitStage, CheckStage, Read, Stamp, Reached, Raise, Lower;
    if a.Device().initialized {
      assert InitStage(b, i) == a;
    } else {
      assert b == a && InitStage(b, i) == a;
    }
  }

  lemma RetryAsIs(p: Pmw, i: Turn)
    ensures p.Device().initialized || !Reached(Stamp(i.t), p.retryAt) ==> RetryStage(p, i) == p
  {}

  lemma DownStages(p: Pmw, i: Turn)
    requires PmwInv(p) && !p.Device().initialized
    ensures Accounted(p, PmwStages(p, i), i) && Flagged(p, PmwStages(p, i), i)
  {
    DownAccounted(p, i);
    DownFlagged(p, i);
    assert MotionStage(p, i) == p;
    hide PmwInv, RetryStage, InitStage, CheckStage, Accounted, Flagged;
  }

  lemma DownAccounted(p: Pmw, i: Turn)
    requires PmwInv(p) && !p.Device().initialized
    ensures Accounted(p, CheckStage(InitStage(RetryStage(p, i), i), i), i)
  {
    hide PmwInv, RetryStage, InitStage, CheckStage, Read, Stamp, Reached, Raise, Lower;
    RetryStageKeeps(p, i);
    var b := RetryStage(p, i);
    InvFacts(p);
    InvFacts(b);
    RetryStageKeepsCounts(p, i);
    InitStageKeepsCounts(b, i);
    CheckStageExactly(InitStage(b, i), i);
  }

  lemma DownFlagged(p: Pmw, i: Turn)
    requires PmwInv(p) && !p.Device().initialized
    ensures Flagged(p, CheckStage(InitStage(RetryStage(p, i), i), i), i)
  {
    hide PmwInv, RetryStage, InitStage, CheckStage, Read, Stamp, Reached, Raise, Lower;
    RetryStageKeeps(p, i);
    var b := RetryStage(p, i);
    RetryStageKeepsCounts(p, i);
    InitStageKeeps(b, i);
    var c := InitStage(b, i);
    InvFacts(c);
    CheckStageKeeps(c, i);
    InvFacts(CheckStage(c, i));
    if b.Device().initState == PmwModel.Idle {
      InitStageKeepsCounts(b, i);
    } else {
      InitStageFlags(b, i);
    }
    if b != p {
      StartedNotIdle(b, i);
    }
    CheckStageFlags(c, i);
  }

  lemma CheckStageFlags(p: Pmw, i: Turn)
    ensures var q := CheckStage(p, i);
            if q.Device() == p.Device() then q.health == p.health && q.retryAt == p.retryAt
            else p.Device().initialized && q.Device().initState == PmwModel.Idle && Read(q.health).pmw
                 && q.retryAt == Stamp(i.t + 1000)
  {
    CheckStageExactly(p, i);
    hide Read, Raise, Stamp, Plus, Reached, LosePmw;
  }

  lemma StartedNotIdle(p: Pmw, i: Turn)
    requires PmwInv(p) && p.Device().initState == PmwModel.ResetAsserted
    ensures InitStage(p, i).Device().initState in {PmwModel.ResetAsserted, PmwModel.ReleaseWait}
    ensures !InitStage(p, i).Device().initialized
  {
    hide Read, Raise, Lower, Stamp, Plus, Reached;
  }

  // ---------------------------------------------------------------- one iteration

  /** The sample of a sensor with these counts, published at now. */
  predicate Carries(f: FlowSample, d: PmwModel.Device, now: int) {
    && f.countX == d.accX && f.countY == d.accY && f.quality == d.quality && f.valid == d.initialized
    && f.integrationUs == Elapsed(Stamp(now), d.integrationStart)
  }

  /** Counts and quality cleared at a true time. */
  predicate Cleared(d: PmwModel.Device, at: int) {
    d.accX == 0 && d.accY == 0 && d.quality == 0 && d.integrationStart == Stamp(at)
  }

  lemma ReportExactly(f: PmwCounts.Flow, us: int)
    ensures var g := PmwCounts.FlowStep(PmwCounts.CONFIGURED, f, PmwCounts.Report(us));
            && Carries(PmwCounts.Publish(f.att.dev, Stamp(us)).1, f.att.dev, us)
            && Cleared(g.att.dev, us) && g.att.dev.initialized == f.att.dev.initialized
            && g.x.read == f.x.read && g.y.read == f.y.read
            && g.x.discarded == f.x.discarded && g.y.discarded == f.y.discarded
            && g.att.dev.initState == f.att.dev.initState
  {
    hide Stamp, Elapsed;
  }

  lemma IterateFlow(s: Loop, i: Turn)
    requires Inv(s)
    ensures s.flowTask.period > 0 && FlowDue(s, i) == Scheduler.Poll(s.flowTask, Stamp(i.t)).1
    ensures Iterate(s, i).flowTask == Scheduler.Poll(s.flowTask, Stamp(i.t)).0
    ensures var u, f := Iterate(s, i), PmwStages(PmwOf(s), i).flow;
            if FlowDue(s, i) then
              && u.flow == PmwCounts.FlowStep(PmwCounts.CONFIGURED, f, PmwCounts.Report(i.us.publish))
              && u.flows == s.flows + [PmwCounts.Publish(f.att.dev, Stamp(i.us.publish)).1]
            else u.flow == f && u.flows == s.flows
  {
    PeriodsKept(s);
    IterateShape(s, i);
    hide Inv, Iterate, TofTurn, CanRecovery.Step, PmwStages, PmwCounts.FlowStep, PmwCounts.Publish, Scheduler.Poll;
  }

  lemma PmwPart(s: Loop)
    requires Inv(s)
    ensures PmwInv(PmwOf(s))
  {
    hide MainIo.IoInv, CanTx.Inv, FlowsInv, Wired, TofModel.Inv, TofModel.Classified, Read;
  }

  /**
   * One iteration adds to the counts read exactly the motion it reads: that of a motion interrupt of an initialised
   * sensor whose read succeeds and has its motion bit set. It throws counts away only by losing an initialised sensor,
   * and then those pending.
   */
  lemma IterateReads(s: Loop, i: Turn)
    requires Inv(s)
    ensures var u, d := Iterate(s, i), s.flow.att.dev;
            && u.flow.x.read == s.flow.x.read + MovedX(d.initialized, i)
            && u.flow.y.read == s.flow.y.read + MovedY(d.initialized, i)
            && u.flow.x.discarded
               == s.flow.x.discarded + (if Loses(PmwOf(s), i) then Clamped(d.accX + MovedX(true, i)) else 0)
            && u.flow.y.discarded
               == s.flow.y.discarded + (if Loses(PmwOf(s), i) then Clamped(d.accY + MovedY(true, i)) else 0)
            && (d.initialized ==> u.flow.att.dev.initialized == !Loses(PmwOf(s), i))
  {
    hide Inv, Iterate, PmwInv, PmwStages, PmwCounts.FlowStep, PmwCounts.Publish, FlowDue, Stamp, Loses, Flagged, Read,
      Scheduler.Poll;
    PmwPart(s);
    PmwStagesExactly(PmwOf(s), i);
    IterateFlow(s, i);
    ReportExactly(PmwStages(PmwOf(s), i).flow, i.us.publish);
  }
}
