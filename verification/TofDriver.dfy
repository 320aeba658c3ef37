// The tof_t object of drivers/vl53l1x.c and the sample it updates through a pointer. Every call is proved to do
// what TofModel.TofStep says; the bus outcomes stand for the ST core's return codes.
module TofDriver {
  import opened Common
  import opened WrapTime
  import opened Samples
  import opened TofModel

  /** A range_sample_t updated in place. */
  class RangeCell {
    var timestampUs: nat
    var distanceMm: int32
    var quality: u8
    var status: RangeStatus

    ghost function View(): RangeSample
      reads this
    {
      RangeSample(timestampUs, distanceMm, quality, status)
    }

    constructor ()
      ensures View() == RangeSample(0, -1, 0, Invalid)
    {
      timestampUs, distanceMm, quality, status := 0, -1, 0, Invalid;
    }

    method Invalidate(nowUs: u32, status: RangeStatus)
      modifies this
      ensures View() == RangeSample(nowUs, -1, 0, status)
    {
      timestampUs, distanceMm, quality := nowUs, -1, 0;
      this.status := status;
    }
  }

  class Device {
    var state: State
    var deadlineMs: u32
    var timeoutMs: u32
    var initIndex: u8
    var irqPending: bool
    ghost var log: seq<Command>
    ghost var armedAt: int
    ghost var readAt: int

    ghost function View(s: RangeCell): Sys
      reads this, s
    {
      Sys(Tof(state, deadlineMs, timeoutMs, initIndex, irqPending), s.View(), log, armedAt, readAt)
    }

    /** tof_begin */
    constructor (now: u32, ghost t: int)
      requires now == Stamp(t)
      ensures Tof(state, deadlineMs, timeoutMs, initIndex, irqPending) == Begin(t)
      ensures log == [] && armedAt == t && readAt == t
    {
      state, deadlineMs, timeoutMs, initIndex, irqPending := BootWait, Plus(now, 2), 0, 0, false;
      log, armedAt, readAt := [], t, t;
    }

    method IrqNotify(ghost s: RangeCell)
      modifies this`irqPending
      ensures View(s) == Notify(old(View(s)))
    {
      irqPending := true;
    }

    method EnterFault(now: u32, s: RangeCell, micros: u32, ghost t: int)
      requires now == Stamp(t)
      modifies this, s
      ensures View(s) == TofModel.EnterFault(old(View(s)), t, micros)
    {
      s.Invalidate(micros, Fault);
      log := [Xshut(false)];
      state := RetryWait;
      deadlineMs := Plus(now, RETRY_MS);
    }

    method PowerUp(now: u32, from: State, ghost s: RangeCell, ghost t: int)
      requires now == Stamp(t)
      modifies this
      ensures View(s) == TofModel.PowerUp(old(View(s)), t, from)
    {
      if state == from && Reached(now, deadlineMs) {
        log := [Xshut(true)];
        state, deadlineMs, initIndex := Initializing, Plus(now, 3), 0;
      }
    }

    method Initialise(now: u32, bus: Bus, s: RangeCell, ghost t: int) returns (failed: bool)
      requires now == Stamp(t) && IndexOk(View(s))
      modifies this, s
      ensures Step(View(s), failed, failed) == InitStage(old(View(s)), t, bus)
    {
      hide ConfigValue, Stamp, Reached, Plus;
      if state == Initializing && Reached(now, deadlineMs) {
        var reg := CONFIG_FIRST + initIndex;
        if !bus.writeOk {
          EnterFault(now, s, bus.micros, t);
          return true;
        }
        log := log + [Write(reg, ConfigValue(initIndex))];
        if reg == CONFIG_LAST {
          if !bus.startOk {
            EnterFault(now, s, bus.micros, t);
            return true;
          }
          log, armedAt := log + [StartRanging], t;
          state, timeoutMs, deadlineMs := Calibrating, Plus(now, BOOT_TIMEOUT_MS), Plus(now, 1);
        } else {
          initIndex := initIndex + 1;
        }
      }
      return false;
    }

    method Calibrate(now: u32, bus: Bus, s: RangeCell, ghost t: int) returns (failed: bool)
      requires now == Stamp(t)
      modifies this, s
      ensures Step(View(s), failed, failed) == CalibrateStage(old(View(s)), t, bus)
    {
      hide Stamp, Reached, Plus, POST_CALIBRATION;
      if state == Calibrating && Reached(now, deadlineMs) {
        if !bus.checkOk {
          EnterFault(now, s, bus.micros, t);
          return true;
        }
        if bus.ready {
          if !bus.clearOk || !bus.stopOk || !bus.vhvOk || !bus.tempOk
             || !(bus.modeOk && bus.budgetOk && bus.periodOk && bus.restartOk) {
            EnterFault(now, s, bus.micros, t);
            return true;
          }
          log, armedAt := log + POST_CALIBRATION, t;
          state, timeoutMs := Running, Plus(now, SAMPLE_TIMEOUT_MS);
        } else if Reached(now, timeoutMs) {
          EnterFault(now, s, bus.micros, t);
          return true;
        } else {
          deadlineMs := Plus(now, 1);
        }
      }
      return false;
    }

    method Read(now: u32, bus: Bus, s: RangeCell, ghost t: int) returns (isNew: bool, failed: bool)
      requires now == Stamp(t)
      modifies this, s
      ensures Step(View(s), isNew, failed) == ReadStage(old(View(s)), t, bus)
    {
      hide Stamp, Reached, Plus;
      if state == Running && irqPending {
        irqPending := false;
        if !bus.resultOk || !bus.ackOk {
          EnterFault(now, s, bus.micros, t);
          return true, true;
        }
        s.timestampUs, s.distanceMm := bus.micros, bus.distance + RANGE_OFFSET_MM;
        s.quality := if bus.status == 0 then 100 else 0;
        if bus.status == 0 && s.distanceMm < RANGE_MIN_MM {
          s.status := TooClose;
        } else if bus.status == 0 && s.distanceMm > RANGE_MAX_MM {
          s.status := TooFar;
        } else if bus.status == 0 {
          s.status := Valid;
        } else {
          s.status := Invalid;
        }
        timeoutMs := Plus(now, SAMPLE_TIMEOUT_MS);
        armedAt, readAt := t, t;
        return true, false;
      }
      return false, false;
    }

    method Expire(now: u32, bus: Bus, s: RangeCell, ghost t: int) returns (failed: bool)
      requires now == Stamp(t)
      modifies this, s
      ensures Step(View(s), failed, failed) == StaleStage(old(View(s)), t, bus)
    {
      hide Stamp, Reached, Plus;
      if state == Running && !irqPending && Reached(now, timeoutMs) {
        EnterFault(now, s, bus.micros, t);
        return true;
      }
      return false;
    }

    /** tof_step at the true time t behind the tick now; isNew is the out-parameter fresh. */
    method TofStep(now: u32, bus: Bus, s: RangeCell, ghost t: int) returns (running: bool, isNew: bool)
      requires now == Stamp(t) && Inv(View(s))
      modifies this, s
      ensures (View(s), isNew, running) == TofModel.TofStep(old(View(s)), t, bus)
      ensures Inv(View(s))
    {
      StepKeepsInv(View(s), t, bus);
      PowerUpKeeps(View(s), t, BootWait);
      IndexFromInv(TofModel.PowerUp(View(s), t, BootWait));
      hide Inv, IndexOk, TofModel.PowerUp, InitStage, CalibrateStage, ReadStage, StaleStage, Stamp;
      PowerUp(now, BootWait, s, t);
      var failed := Initialise(now, bus, s, t);
      if failed {
        return false, true;
      }
      failed := Calibrate(now, bus, s, t);
      if failed {
        return false, true;
      }
      isNew, failed := Read(now, bus, s, t);
      if failed {
        return false, true;
      }
      failed := Expire(now, bus, s, t);
      if failed {
        return false, true;
      }
      PowerUp(now, RetryWait, s, t);
      return state == Running, isNew;
    }
  }
}
