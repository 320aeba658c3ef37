// The retry of the VL53L1X driver over whole runs (drivers/vl53l1x.c:32-35 and 66): a faulted sensor is powered up
// again by the first step a second or more after its fault.
module TofRetry {
  import opened WrapTime
  import opened TofModel

  /** A faulted sensor's retry is due in at most a second, and not overdue. */
  predicate RetryPending(s: Tof, t: int) {
    s.state == RetryWait ==> 0 < Elapsed(s.deadline, Stamp(t)) <= RETRY_MS
  }

  /** In the middle of a step at t: the deadline is the old one, at true time r, or has just been set. */
  predicate Waiting(s: Tof, r: int, t: int) {
    s.state == RetryWait ==> s.deadline == Stamp(r) || s.deadline == Stamp(t + RETRY_MS)
  }

  lemma StagesWait(s: Sys, r: int, t: int, bus: Bus)
    requires Waiting(s.tof, r, t)
    ensures Waiting(PowerUp(s, t, BootWait).tof, r, t)
    ensures IndexOk(s) ==> Waiting(InitStage(s, t, bus).sys.tof, r, t)
    ensures Waiting(CalibrateStage(s, t, bus).sys.tof, r, t)
    ensures Waiting(ReadStage(s, t, bus).sys.tof, r, t)
    ensures Waiting(StaleStage(s, t, bus).sys.tof, r, t)
  {
    PlusIsTrue(t, RETRY_MS);
    hide Stamp, Plus, Reached, POST_CALIBRATION, ConfigValue;
  }

  /** A stage that returns early has just faulted. */
  lemma DoneMeansFaulted(s: Sys, t: int, bus: Bus)
    ensures IndexOk(s) && InitStage(s, t, bus).done ==> InitStage(s, t, bus).sys.tof.deadline == Stamp(t + RETRY_MS)
    ensures CalibrateStage(s, t, bus).done ==> CalibrateStage(s, t, bus).sys.tof.deadline == Stamp(t + RETRY_MS)
    ensures ReadStage(s, t, bus).done ==> ReadStage(s, t, bus).sys.tof.deadline == Stamp(t + RETRY_MS)
    ensures StaleStage(s, t, bus).done ==> StaleStage(s, t, bus).sys.tof.deadline == Stamp(t + RETRY_MS)
  {
    PlusIsTrue(t, RETRY_MS);
    hide Stamp, Plus, Reached, POST_CALIBRATION, ConfigValue;
  }

  lemma JustFaulted(s: Tof, t: int)
    requires s.state == RetryWait ==> s.deadline == Stamp(t + RETRY_MS)
    ensures RetryPending(s, t)
  {
    ElapsedExact(t + RETRY_MS, t);
    hide Elapsed, Stamp;
  }

  lemma LastStagePending(s: Sys, r: int, t: int)
    requires Waiting(s.tof, r, t) && -HALF <= t - r < HALF && r <= t + RETRY_MS
    ensures RetryPending(PowerUp(s, t, RetryWait).tof, t)
  {
    ReachedNear(t, r);
    ElapsedExact(r, t);
    ElapsedExact(t + RETRY_MS, t);
    hide Elapsed, Stamp, Reached, Plus;
  }

  lemma StepRetries(s: Sys, r: int, t: int, bus: Bus)
    requires Inv(s) && Waiting(s.tof, r, t) && -HALF <= t - r < HALF && r <= t + RETRY_MS
    ensures RetryPending(TofStep(s, t, bus).0.tof, t)
  {
    var a := PowerUp(s, t, BootWait);
    PowerUpKeeps(s, t, BootWait);
    IndexFromInv(s);
    IndexFromInv(a);
    hide PowerUp, InitStage, CalibrateStage, ReadStage, StaleStage, Inv, Waiting, Stamp, RetryPending, IndexOk;
    StagesWait(s, r, t, bus);
    StagesWait(a, r, t, bus);
    DoneMeansFaulted(a, t, bus);
    var b := InitStage(a, t, bus);
    StagesWait(b.sys, r, t, bus);
    DoneMeansFaulted(b.sys, t, bus);
    var c := CalibrateStage(b.sys, t, bus);
    StagesWait(c.sys, r, t, bus);
    DoneMeansFaulted(c.sys, t, bus);
    var d := ReadStage(c.sys, t, bus);
    StagesWait(d.sys, r, t, bus);
    DoneMeansFaulted(d.sys, t, bus);
    var e := StaleStage(d.sys, t, bus);
    if b.done {
      JustFaulted(b.sys.tof, t);
    } else if c.done {
      JustFaulted(c.sys.tof, t);
    } else if d.done {
      JustFaulted(d.sys.tof, t);
    } else if e.done {
      JustFaulted(e.sys.tof, t);
    } else {
      LastStagePending(e.sys, r, t);
    }
  }

  lemma TurnRetries(s: Sys, last: int, i: Input)
    requires Inv(s) && RetryPending(s.tof, last) && last <= i.t <= last + HALF
    ensures RetryPending(Turn(s, i).tof, i.t)
  {
    var n := if i.irq then Notify(s) else s;
    var r := if s.tof.state == RetryWait then last + Elapsed(s.tof.deadline, Stamp(last)) else i.t;
    StampAfter(s.tof.deadline, last);
    NotifyKeeps(s);
    assert Waiting(n.tof, r, i.t);
    hide TofStep, Inv, Elapsed, Stamp, Waiting;
    StepRetries(n, r, i.t, i.bus);
  }

  lemma {:induction false} RunRetries(s: Sys, last: int, inputs: seq<Input>)
    requires Inv(s) && RetryPending(s.tof, last) && Spaced(last, inputs)
    ensures RetryPending(After(s, inputs).tof, End(last, inputs))
    decreases inputs
  {
    hide Inv, Turn, RetryPending, Timed;
    if inputs != [] {
      TurnKeeps(s, last, inputs[0]);
      TurnRetries(s, last, inputs[0]);
      TurnKeeps(s, inputs[0].t, inputs[0]);
      RunRetries(Turn(s, inputs[0]), inputs[0].t, inputs[1..]);
    }
  }

  /** In every reachable state a sensor waiting for its retry gets it within a second; it is never left waiting. */
  lemma RetryNeverOverdue(t0: int, inputs: seq<Input>)
    requires Spaced(t0, inputs)
    ensures Inv(Initial(t0))
    ensures var s := After(Initial(t0), inputs).tof;
            s.state == RetryWait ==> 0 < Elapsed(s.deadline, Stamp(End(t0, inputs))) <= RETRY_MS
  {
    InitialInv(t0);
    RunRetries(Initial(t0), t0, inputs);
  }
}
