// What each step of the VL53L1X driver does in each of its states (drivers/vl53l1x.c:37-68), and how its bring-up and
// its readings go over whole runs.
module TofSteps {
  import opened WrapTime
  import opened Samples
  import opened TofModel

  // ---------------------------------------------------------------- outcomes

  /** The sensor is shut down for a second and the sample says so. */
  predicate Faulted(u: Sys, t: int, bus: Bus) {
    && u.tof.state == RetryWait && u.tof.deadline == Stamp(t + 1000)
    && u.sample == RangeSample(bus.micros, -1, 0, Fault) && u.log == [Xshut(false)]
  }

  /** Powered up at t: the first write is due in 3 ms. */
  predicate PoweredUp(s: Sys, u: Sys, t: int) {
    && u == s.(tof := u.tof, log := [Xshut(true)])
    && u.tof == s.tof.(state := Initializing, deadline := Stamp(t + 3), initIndex := 0)
  }

  /** Ranging continuously since t, with whatever sample and interrupt there was. */
  predicate StartedAt(s: Sys, u: Sys, t: int) {
    && u == s.(tof := u.tof, log := u.log, armedAt := t)
    && u.tof == s.tof.(state := Running, timeout := Stamp(t + 100))
  }

  /** The reading of a running sensor taken over at t. */
  predicate TookReading(u: Sys, t: int, bus: Bus) {
    && u.tof.state == Running && !u.tof.irqPending && u.tof.timeout == Stamp(t + 100)
    && u.armedAt == t && u.readAt == t && IsReading(u.sample, bus)
  }

  // ---------------------------------------------------------------- the steps

  lemma NotYet(t: int, d: nat)
    requires 0 < d <= 1000
    ensures !Reached(Stamp(t), Stamp(t + d)) && Plus(Stamp(t), d) == Stamp(t + d)
  {
    ReachedNear(t, t + d);
    PlusIsTrue(t, d);
  }

  /** The waits of the driver, none of which has passed when it begins. */
  lemma WaitsBegin(t: int)
    ensures !Reached(Stamp(t), Stamp(t + 1)) && Plus(Stamp(t), 1) == Stamp(t + 1)
    ensures !Reached(Stamp(t), Stamp(t + 3)) && Plus(Stamp(t), 3) == Stamp(t + 3)
    ensures !Reached(Stamp(t), Stamp(t + 100)) && Plus(Stamp(t), 100) == Stamp(t + 100)
    ensures !Reached(Stamp(t), Stamp(t + 500)) && Plus(Stamp(t), 500) == Stamp(t + 500)
    ensures !Reached(Stamp(t), Stamp(t + 1000)) && Plus(Stamp(t), 1000) == Stamp(t + 1000)
  {
    NotYet(t, 1);
    NotYet(t, 3);
    NotYet(t, 100);
    NotYet(t, 500);
    NotYet(t, 1000);
    hide Stamp, Plus, Reached;
  }

  /** A running sensor with an interrupt pending: its reading is stored, or it faults exactly when a transfer failed. */
  lemma RunningStep(s: Sys, t: int, bus: Bus)
    requires Inv(s) && s.tof.state == Running && s.tof.irqPending
    ensures var (u, isNew, running) := TofStep(s, t, bus);
            && isNew && (running <==> bus.resultOk && bus.ackOk)
            && (if bus.resultOk && bus.ackOk then TookReading(u, t, bus) && u.log == s.log else Faulted(u, t, bus))
  {
    WaitsBegin(t);
    hide Stamp, Plus, Reached, ConfigValue, POST_CALIBRATION, ConfigWrites;
  }

  /** A running sensor without one: it faults exactly when its timeout has passed, and otherwise nothing changes. */
  lemma QuietStep(s: Sys, t: int, bus: Bus)
    requires Inv(s) && s.tof.state == Running && !s.tof.irqPending
    ensures var (u, isNew, running) := TofStep(s, t, bus);
            if Reached(Stamp(t), s.tof.timeout) then isNew && !running && Faulted(u, t, bus)
            else !isNew && running && u == s
  {
    WaitsBegin(t);
    hide Stamp, Plus, Reached, ConfigValue, POST_CALIBRATION, ConfigWrites;
  }

  /** A sensor that waits is powered up exactly when the wait is over. */
  lemma WaitingStep(s: Sys, t: int, bus: Bus)
    requires Inv(s) && (s.tof.state == BootWait || s.tof.state == RetryWait)
    ensures var (u, isNew, running) := TofStep(s, t, bus);
            && !isNew && !running
            && (if Reached(Stamp(t), s.tof.deadline) then PoweredUp(s, u, t) else u == s)
  {
    WaitsBegin(t);
    hide Stamp, Plus, Reached, ConfigValue, POST_CALIBRATION, ConfigWrites;
  }

  /** One configuration write a step, from 3 ms after power-up on; the last one starts the ranging. */
  lemma InitializingStep(s: Sys, t: int, bus: Bus)
    requires Inv(s) && s.tof.state == Initializing
    ensures var (u, isNew, running) := TofStep(s, t, bus);
            var i := s.tof.initIndex;
            && i <= 90 && !running
            && (if !Reached(Stamp(t), s.tof.deadline) then !isNew && u == s
                else if !bus.writeOk || (i == 90 && !bus.startOk) then isNew && Faulted(u, t, bus)
                else
                  && !isNew && u.sample == s.sample && u.readAt == s.readAt && u.tof.irqPending == s.tof.irqPending
                  && (if i < 90 then u.tof == s.tof.(initIndex := i + 1)
                      else u.tof.state == Calibrating && u.tof.deadline == Stamp(t + 1)
                           && u.tof.timeout == Stamp(t + 500) && u.armedAt == t))
  {
    WaitsBegin(t);
    hide Stamp, Plus, Reached, ConfigValue, POST_CALIBRATION, ConfigWrites;
  }

  /**
   * A calibrating sensor is asked again every millisecond. It runs from the step in which it is ready on, and faults
   * exactly when a transfer fails or its half second has passed; an interrupt that is already pending is then read in
   * the same step.
   */
  lemma CalibratingStep(s: Sys, t: int, bus: Bus)
    requires Inv(s) && s.tof.state == Calibrating
    ensures var (u, isNew, running) := TofStep(s, t, bus);
            if !Reached(Stamp(t), s.tof.deadline) then !isNew && !running && u == s
            else if !bus.checkOk || (if bus.ready then !PostCalibrationOk(bus) else Reached(Stamp(t), s.tof.timeout))
            then isNew && !running && Faulted(u, t, bus)
            else if !bus.ready then !isNew && !running && u == s.(tof := s.tof.(deadline := Stamp(t + 1)))
            else if !s.tof.irqPending then !isNew && running && StartedAt(s, u, t)
            else isNew && (running <==> bus.resultOk && bus.ackOk)
                 && (if bus.resultOk && bus.ackOk then TookReading(u, t, bus) else Faulted(u, t, bus))
  {
    WaitsBegin(t);
    hide Stamp, Plus, Reached, ConfigValue, POST_CALIBRATION, ConfigWrites, BroughtUp;
  }
}
