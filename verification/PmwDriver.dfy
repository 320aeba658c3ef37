// The pmw3901_t object of drivers/pmw3901.c, updated in place. Every call is proved to do what PmwModel and
// PmwCounts say; the SPI outcomes stand for the transfers' return values.
module PmwDriver {
  import opened Common
  import opened WrapTime
  import opened Samples
  import opened PmwModel
  import opened PmwCounts

  class Pmw3901 {
    var accumulatedX: int32
    var accumulatedY: int32
    var integrationStartUs: u32
    var quality: u8
    var initialized: bool
    var initState: InitState
    var initIndex: u8
    var initDeadlineUs: u32
    ghost var log: seq<Stamped>

    ghost function View(): Attempt
      reads this
    {
      Attempt(Device(accumulatedX, accumulatedY, integrationStartUs, quality, initialized,
                     initState, initIndex, initDeadlineUs), log)
    }

    constructor (now: u32)
      ensures View() == Attempt(PmwModel.ResetDevice(now), [])
    {
      accumulatedX, accumulatedY, integrationStartUs, quality := 0, 0, now, 0;
      initialized, initState, initIndex, initDeadlineUs, log := false, Idle, 0, now, [];
    }

    method ResetState(now: u32)
      modifies this
      ensures View() == Attempt(PmwModel.ResetDevice(now), [])
    {
      accumulatedX, accumulatedY, integrationStartUs, quality := 0, 0, now, 0;
      initialized, initState, initIndex, initDeadlineUs, log := false, Idle, 0, now, [];
    }

    method StartInit(now: u32, ghost t: int)
      requires now == Stamp(t)
      modifies this
      ensures View() == PmwModel.StartInit(old(View()), t)
    {
      initialized, accumulatedX, accumulatedY, quality, integrationStartUs := false, 0, 0, 0, now;
      initIndex, initState, initDeadlineUs := 0, ResetAsserted, Plus(now, 1000);
      log := [Stamped(AssertReset, t)];
    }

    /** The main loop puts a failed device back to idle. */
    method Abandon()
      modifies this`initState
      ensures View() == old(View()).(dev := old(View()).dev.(initState := Idle))
    {
      initState := Idle;
    }

    method WriteEntry(now: u32, spi: Spi, ghost t: int) returns (result: InitResult)
      requires now == Stamp(t)
      modifies this
      ensures (View(), result) == SequenceStep(old(View()), t, spi)
    {
      hide Entry, Stamp, Plus;
      if initIndex < SEQUENCE_COUNT {
        var entry := Entry(initIndex);
        initIndex := initIndex + 1;
        if !spi.entryOk {
          initState := Failed;
          return Faulty;
        }
        log := log + [Stamped(Write(entry.reg, entry.value), t)];
        initDeadlineUs := Plus(now, 1000 * entry.delayMs);
        return Busy;
      }
      initialized, integrationStartUs, initState := true, now, Done;
      return Ready;
    }

    method InitStep(now: u32, spi: Spi, ghost t: int) returns (result: InitResult)
      requires now == Stamp(t)
      modifies this
      ensures (View(), result) == PmwModel.InitStep(old(View()), t, spi)
    {
      hide Entry, Stamp, Plus, Reached, SequenceStep;
      if !Reached(now, initDeadlineUs) {
        return Busy;
      }
      if initState == ResetAsserted {
        log := log + [Stamped(ReleaseReset, t)];
        initState, initDeadlineUs := ReleaseWait, Plus(now, 5000);
        return Busy;
      }
      if initState == ReleaseWait {
        if !spi.powerOk {
          initState := Failed;
          return Faulty;
        }
        log := log + [Stamped(Write(0x3A, 0x5A), t)];
        initState, initDeadlineUs := IdWait, Plus(now, 5000);
        return Busy;
      }
      if initState == IdWait {
        if !spi.productOk || !spi.inverseOk || spi.product != PRODUCT_ID || spi.inverse != INVERSE_ID || !spi.motionOk {
          initState := Failed;
          return Faulty;
        }
        log := log + [Stamped(ReadBack(0x00, spi.product), t), Stamped(ReadBack(0x5F, spi.inverse), t)] + MotionReads(t);
        initState := Sequence;
      }
      if initState == Sequence {
        result := WriteEntry(now, spi, t);
        return;
      }
      return if initState == Done then Ready else Faulty;
    }

    method Accumulate(o: Orientation, m: Motion)
      modifies this
      ensures View() == old(View()).(dev := PmwCounts.Accumulate(o, old(View()).dev, m))
    {
      hide Transform;
      quality := m.quality;
      if !m.motion {
        return;
      }
      var (x, y) := Transform(o, m.dx, m.dy);
      var sx, sy := accumulatedX as int + x, accumulatedY as int + y;
      accumulatedX := if sx > INT32_MAX then INT32_MAX else if sx < INT32_MIN then INT32_MIN else sx;
      accumulatedY := if sy > INT32_MAX then INT32_MAX else if sy < INT32_MIN then INT32_MIN else sy;
    }

    method Publish(now: u32) returns (sample: FlowSample)
      modifies this
      ensures (View().dev, sample) == PmwCounts.Publish(old(View()).dev, now) && log == old(log)
    {
      sample := FlowSample(Elapsed(now, integrationStartUs), accumulatedX, accumulatedY, quality, initialized);
      accumulatedX, accumulatedY, quality, integrationStartUs := 0, 0, 0, now;
    }
  }
}
