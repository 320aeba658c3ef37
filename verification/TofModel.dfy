// The VL53L1X range sensor driver of drivers/vl53l1x.c: staged bring-up, calibration, readings, timeouts, retries.
// Every bus transaction may fail and every reading is arbitrary; time is the true time behind the 32-bit tick.
module TofModel {
  import opened Common
  import opened WrapTime
  import opened Samples

  const BOOT_TIMEOUT_MS := 500
  const SAMPLE_TIMEOUT_MS := 100
  const RETRY_MS := 1000
  const RANGE_MIN_MM := 80
  const RANGE_MAX_MM := 3500
  const RANGE_OFFSET_MM := 0
  const CONFIG_FIRST := 0x2D
  const CONFIG_LAST := 0x87

  /** The sensor's default configuration, for registers 0x2D to 0x87. */
  const CONFIGURATION: seq<u8> := [
    0x00, 0x00, 0x00, 0x01, 0x02, 0x00, 0x02, 0x08, 0x00, 0x08, 0x10, 0x01, 0x01, 0x00, 0x00, 0x00,
    0x00, 0xFF, 0x00, 0x0F, 0x00, 0x00, 0x00, 0x00, 0x00, 0x20, 0x0B, 0x00, 0x00, 0x02, 0x0A, 0x21,
    0x00, 0x00, 0x05, 0x00, 0x00, 0x00, 0x00, 0xC8, 0x00, 0x00, 0x38, 0xFF, 0x01, 0x00, 0x08, 0x00,
    0x00, 0x01, 0xCC, 0x0F, 0x01, 0xF1, 0x0D, 0x01, 0x68, 0x00, 0x80, 0x08, 0xB8, 0x00, 0x00, 0x00,
    0x00, 0x0F, 0x89, 0x00, 0x00, 0x00, 0x00, 0x00, 0x00, 0x00, 0x01, 0x0F, 0x0D, 0x0E, 0x0E, 0x00,
    0x00, 0x02, 0xC7, 0xFF, 0x9B, 0x00, 0x00, 0x00, 0x01, 0x00, 0x00
  ]

  const CONFIG_COUNT := 91

  lemma ConfigurationSize()
    ensures |CONFIGURATION| == CONFIG_COUNT == CONFIG_LAST - CONFIG_FIRST + 1
  {}

  function ConfigValue(i: nat): u8
    requires i < CONFIG_COUNT
  {
    ConfigurationSize();
    CONFIGURATION[i]
  }

  // ---------------------------------------------------------------- state, bus and history

  datatype State = Off | BootWait | Initializing | Calibrating | Running | RetryWait

  datatype Tof = Tof(state: State, deadline: u32, timeout: u32, initIndex: u8, irqPending: bool)

  /** What the bus and the sensor do during one step: the outcome of every transaction that may be attempted. */
  datatype Bus = Bus(micros: u32, writeOk: bool, startOk: bool, checkOk: bool, ready: bool,
                     clearOk: bool, stopOk: bool, vhvOk: bool, tempOk: bool,
                     modeOk: bool, budgetOk: bool, periodOk: bool, restartOk: bool,
                     resultOk: bool, ackOk: bool, status: u8, distance: u16)

  datatype Command =
    | Xshut(high: bool)
    | Write(reg: nat, value: u8)
    | StartRanging
    | ClearInterrupt
    | StopRanging
    | SetDistanceMode(mode: nat)
    | SetTimingBudget(ms: nat)
    | SetInterMeasurement(ms: nat)

  /**
   * The driver and the sample it keeps, with the history the properties speak of: the successful commands of the
   * current attempt, the true time at which timeout was last set, and the true time of the last reading.
   */
  datatype Sys = Sys(tof: Tof, sample: RangeSample, log: seq<Command>, armedAt: int, readAt: int)

  /** The result of one call: the new system, whether a new sample was stored, whether the call returned early. */
  datatype Step = Step(sys: Sys, isNew: bool, done: bool)

  function Begin(t: int): Tof {
    Tof(BootWait, Plus(Stamp(t), 2), 0, 0, false)
  }

  function Initial(t: int): Sys {
    Sys(Begin(t), RangeSample(0, -1, 0, Invalid), [], t, t)
  }

  function Notify(s: Sys): Sys {
    s.(tof := s.tof.(irqPending := true))
  }

  // ---------------------------------------------------------------- the stages of tof_step

  /** enter_fault */
  function EnterFault(s: Sys, t: int, micros: u32): Sys {
    s.(tof := s.tof.(state := RetryWait, deadline := Plus(Stamp(t), RETRY_MS)),
       sample := RangeSample(micros, -1, 0, Fault), log := [Xshut(false)])
  }

  /** Power-up, after the boot wait and after the retry wait. */
  function PowerUp(s: Sys, t: int, from: State): Sys {
    if s.tof.state == from && Reached(Stamp(t), s.tof.deadline) then
      s.(tof := s.tof.(state := Initializing, deadline := Plus(Stamp(t), 3), initIndex := 0), log := [Xshut(true)])
    else s
  }

  /** The index into the configuration table is inside it whenever it is used. */
  predicate IndexOk(s: Sys) {
    s.tof.state == Initializing ==> s.tof.initIndex < CONFIG_COUNT
  }

  function InitStage(s: Sys, t: int, bus: Bus): Step
    requires IndexOk(s)
  {
    if s.tof.state != Initializing || !Reached(Stamp(t), s.tof.deadline) then
      Step(s, false, false)
    else
      var i := s.tof.initIndex;
      var reg := CONFIG_FIRST + i;
      if !bus.writeOk then Step(EnterFault(s, t, bus.micros), true, true)
      else
        var w := s.(log := s.log + [Write(reg, ConfigValue(i))]);
        if reg != CONFIG_LAST then Step(w.(tof := w.tof.(initIndex := i + 1)), false, false)
        else if !bus.startOk then Step(EnterFault(w, t, bus.micros), true, true)
        else
          Step(w.(tof := w.tof.(state := Calibrating, timeout := Plus(Stamp(t), BOOT_TIMEOUT_MS),
                                deadline := Plus(Stamp(t), 1)),
                  log := w.log + [StartRanging], armedAt := t), false, false)
  }

  const POST_CALIBRATION: seq<Command> := [
    ClearInterrupt, StopRanging, Write(0x08, 0x09), Write(0x0B, 0),
    SetDistanceMode(2), SetTimingBudget(20), SetInterMeasurement(25), StartRanging
  ]

  predicate PostCalibrationOk(bus: Bus) {
    bus.clearOk && bus.stopOk && bus.vhvOk && bus.tempOk && bus.modeOk && bus.budgetOk && bus.periodOk && bus.restartOk
  }

  function CalibrateStage(s: Sys, t: int, bus: Bus): Step {
    if s.tof.state != Calibrating || !Reached(Stamp(t), s.tof.deadline) then Step(s, false, false)
    else if !bus.checkOk then Step(EnterFault(s, t, bus.micros), true, true)
    else if bus.ready then
      if !PostCalibrationOk(bus) then Step(EnterFault(s, t, bus.micros), true, true)
      else Step(s.(tof := s.tof.(state := Running, timeout := Plus(Stamp(t), SAMPLE_TIMEOUT_MS)),
                   log := s.log + POST_CALIBRATION, armedAt := t), false, false)
    else if Reached(Stamp(t), s.tof.timeout) then Step(EnterFault(s, t, bus.micros), true, true)
    else Step(s.(tof := s.tof.(deadline := Plus(Stamp(t), 1))), false, false)
  }

  /** The sample a reading gives. */
  function Reading(bus: Bus): RangeSample {
    var d := bus.distance + RANGE_OFFSET_MM;
    if bus.status != 0 then RangeSample(bus.micros, d, 0, Invalid)
    else RangeSample(bus.micros, d, 100, if d < RANGE_MIN_MM then TooClose else if d > RANGE_MAX_MM then TooFar else Valid)
  }

  function ReadStage(s: Sys, t: int, bus: Bus): Step {
    if s.tof.state != Running || !s.tof.irqPending then Step(s, false, false)
    else
      var a := s.(tof := s.tof.(irqPending := false));
      if !bus.resultOk || !bus.ackOk then Step(EnterFault(a, t, bus.micros), true, true)
      else Step(a.(tof := a.tof.(timeout := Plus(Stamp(t), SAMPLE_TIMEOUT_MS)),
                   sample := Reading(bus), armedAt := t, readAt := t), true, false)
  }

  function StaleStage(s: Sys, t: int, bus: Bus): Step {
    if s.tof.state == Running && !s.tof.irqPending && Reached(Stamp(t), s.tof.timeout) then
      Step(EnterFault(s, t, bus.micros), true, true)
    else Step(s, false, false)
  }

  /** tof_step: the new system, whether the sample is fresh, and the returned flag. */
  function TofStep(s: Sys, t: int, bus: Bus): (Sys, bool, bool)
    requires IndexOk(s)
  {
    var a := InitStage(PowerUp(s, t, BootWait), t, bus);
    if a.done then (a.sys, true, false) else
    var b := CalibrateStage(a.sys, t, bus);
    if b.done then (b.sys, true, false) else
    var c := ReadStage(b.sys, t, bus);
    if c.done then (c.sys, true, false) else
    var d := StaleStage(c.sys, t, bus);
    if d.done then (d.sys, true, false) else
    var e := PowerUp(d.sys, t, RetryWait);
    (e, c.isNew, e.tof.state == Running)
  }

  // ---------------------------------------------------------------- what every run keeps

  /** The first n configuration writes, in register order. */
  function ConfigWrites(n: nat): (r: seq<Command>)
    requires n <= CONFIG_COUNT
    ensures |r| == n
  {
    seq(n, i requires 0 <= i < n => Write(CONFIG_FIRST + i, ConfigValue(i)))
  }

  /** The commands of a bring-up that has come as far as the machine's state says. */
  ghost predicate BroughtUp(s: Sys) {
    match s.tof.state
    case Initializing => s.tof.initIndex < CONFIG_COUNT && s.log == [Xshut(true)] + ConfigWrites(s.tof.initIndex)
    case Calibrating => s.log == [Xshut(true)] + ConfigWrites(CONFIG_COUNT) + [StartRanging]
    case Running => s.log == [Xshut(true)] + ConfigWrites(CONFIG_COUNT) + [StartRanging] + POST_CALIBRATION
    case _ => true
  }

  /**
   * The sample is what the sensor gave: the distance, full quality for status 0 alone, and the status by 80 and 3500
   * mm.
   */
  predicate IsReading(r: RangeSample, bus: Bus) {
    && r.timestampUs == bus.micros && r.distanceMm == bus.distance
    && r.quality == (if bus.status == 0 then 100 else 0)
    && (r.status == Valid <==> bus.status == 0 && 80 <= bus.distance <= 3500)
    && (r.status == TooClose <==> bus.status == 0 && bus.distance < 80)
    && (r.status == TooFar <==> bus.status == 0 && bus.distance > 3500)
    && (r.status == Invalid <==> bus.status != 0)
  }

  predicate Usable(r: RangeSample) {
    r.status == Valid || r.status == TooClose || r.status == TooFar
  }

  /** A sample says what its status means. */
  predicate Classified(r: RangeSample) {
    match r.status
    case Valid => RANGE_MIN_MM <= r.distanceMm <= RANGE_MAX_MM && r.quality == 100
    case TooClose => 0 <= r.distanceMm < RANGE_MIN_MM && r.quality == 100
    case TooFar => r.distanceMm > RANGE_MAX_MM && r.quality == 100
    case Invalid => r.quality == 0
    case Fault => r.quality == 0 && r.distanceMm == -1
  }

  /** What holds after every step, whatever the timing. */
  ghost predicate Inv(s: Sys) {
    && s.tof.state != Off
    && BroughtUp(s)
    && Classified(s.sample)
    && (Usable(s.sample) ==> s.tof.state == Running && s.readAt == s.armedAt)
  }

  /** What holds after a step at true time t, when steps are at most 2^31 ms apart. */
  ghost predicate Timed(s: Sys, t: int) {
    && (s.tof.state == Calibrating ==>
          && s.tof.timeout == Stamp(s.armedAt + BOOT_TIMEOUT_MS) && s.tof.deadline == Stamp(t + 1)
          && s.armedAt <= t < s.armedAt + BOOT_TIMEOUT_MS)
    && (s.tof.state == Running ==>
          && s.tof.timeout == Stamp(s.armedAt + SAMPLE_TIMEOUT_MS)
          && s.armedAt <= t < s.armedAt + SAMPLE_TIMEOUT_MS)
  }

  lemma InitialInv(t: int)
    ensures Inv(Initial(t)) && Timed(Initial(t), t)
  {}

  lemma ConfigWritesNext(n: nat)
    requires n < CONFIG_COUNT
    ensures ConfigWrites(n + 1) == ConfigWrites(n) + [Write(CONFIG_FIRST + n, ConfigValue(n))]
  {
    hide ConfigValue;
  }

  lemma NotifyKeeps(s: Sys)
    requires Inv(s)
    ensures Inv(Notify(s))
  {}

  lemma PowerUpKeeps(s: Sys, t: int, from: State)
    requires Inv(s) && (from == BootWait || from == RetryWait)
    ensures Inv(PowerUp(s, t, from))
    ensures PowerUp(s, t, from) != s ==> PowerUp(s, t, from).tof.state == Initializing
  {
    hide Reached, ConfigValue;
  }

  lemma InitStageKeeps(s: Sys, t: int, bus: Bus)
    requires Inv(s)
    ensures Inv(InitStage(s, t, bus).sys)
    ensures var u := InitStage(s, t, bus).sys;
            u.tof.state == s.tof.state == Initializing || u == s || u.tof.state == RetryWait
            || (u.tof.state == Calibrating && u.armedAt == t && u.tof.timeout == Plus(Stamp(t), BOOT_TIMEOUT_MS)
                && u.tof.deadline == Plus(Stamp(t), 1))
    ensures InitStage(s, t, bus).done ==> InitStage(s, t, bus).sys.tof.state == RetryWait
  {
    hide Reached, ConfigValue, ConfigWrites, Stamp, Plus;
    if s.tof.state == Initializing {
      ConfigWritesNext(s.tof.initIndex);
    }
  }

  lemma CalibrateStageKeeps(s: Sys, t: int, bus: Bus)
    requires Inv(s)
    ensures Inv(CalibrateStage(s, t, bus).sys)
    ensures CalibrateStage(s, t, bus).done ==> CalibrateStage(s, t, bus).sys.tof.state == RetryWait
  {
    hide Reached, ConfigValue, ConfigWrites, POST_CALIBRATION, Stamp, Plus;
  }

  lemma ReadStageKeeps(s: Sys, t: int, bus: Bus)
    requires Inv(s)
    ensures Inv(ReadStage(s, t, bus).sys)
    ensures ReadStage(s, t, bus).done ==> ReadStage(s, t, bus).sys.tof.state == RetryWait
    ensures ReadStage(s, t, bus).sys.tof.state == Running ==> !ReadStage(s, t, bus).sys.tof.irqPending
  {
    hide Reached, ConfigValue, ConfigWrites, POST_CALIBRATION, Stamp, Plus;
  }

  lemma StaleStageKeeps(s: Sys, t: int, bus: Bus)
    requires Inv(s)
    ensures Inv(StaleStage(s, t, bus).sys)
    ensures StaleStage(s, t, bus).done ==> StaleStage(s, t, bus).sys.tof.state == RetryWait
  {
    hide Reached, ConfigValue, ConfigWrites, POST_CALIBRATION, Stamp, Plus;
  }

  /** Whatever the bus does and whenever it is called, a step keeps the invariant; it returns whether it is running. */
  lemma StepKeepsInv(s: Sys, t: int, bus: Bus)
    requires Inv(s)
    ensures var (u, isNew, running) := TofStep(s, t, bus);
            Inv(u) && (running <==> u.tof.state == Running)
  {
    PowerUpKeeps(s, t, BootWait);
    var a := PowerUp(s, t, BootWait);
    InitStageKeeps(a, t, bus);
    var b := InitStage(a, t, bus).sys;
    CalibrateStageKeeps(b, t, bus);
    var c := CalibrateStage(b, t, bus).sys;
    ReadStageKeeps(c, t, bus);
    var d := ReadStage(c, t, bus).sys;
    StaleStageKeeps(d, t, bus);
    PowerUpKeeps(StaleStage(d, t, bus).sys, t, RetryWait);
    hide PowerUp, InitStage, CalibrateStage, ReadStage, StaleStage, Inv;
  }

  // ---------------------------------------------------------------- timing, stage by stage

  /** Between the start of a step at true time t and its end: deadlines set by this step or by the last one. */
  ghost predicate Aging(s: Sys, last: int, t: int) {
    && (s.tof.state == Calibrating ==>
          && s.tof.timeout == Stamp(s.armedAt + BOOT_TIMEOUT_MS) && s.armedAt <= t
          && (|| (s.tof.deadline == Stamp(t + 1) && t < s.armedAt + BOOT_TIMEOUT_MS)
              || (s.tof.deadline == Stamp(last + 1) && last < s.armedAt + BOOT_TIMEOUT_MS)))
    && (s.tof.state == Running ==>
          s.tof.timeout == Stamp(s.armedAt + SAMPLE_TIMEOUT_MS) && s.armedAt <= t
              && last < s.armedAt + SAMPLE_TIMEOUT_MS)
  }

  lemma InitStageAges(s: Sys, last: int, t: int, bus: Bus)
    requires IndexOk(s) && Aging(s, last, t) && last <= t <= last + HALF
    ensures Aging(InitStage(s, t, bus).sys, last, t)
  {
    hide Stamp, Plus, Reached, ConfigValue;
    PlusIsTrue(t, BOOT_TIMEOUT_MS);
    PlusIsTrue(t, 1);
  }

  lemma CalibrateStageAges(s: Sys, last: int, t: int, bus: Bus)
    requires Aging(s, last, t) && last <= t <= last + HALF
    ensures var u := CalibrateStage(s, t, bus).sys;
            && Aging(u, last, t)
            && (u.tof.state == Calibrating ==> u.tof.deadline == Stamp(t + 1) && t < u.armedAt + BOOT_TIMEOUT_MS)
  {
    hide Stamp, Plus, Reached, POST_CALIBRATION;
    PlusIsTrue(t, SAMPLE_TIMEOUT_MS);
    PlusIsTrue(t, 1);
    if s.tof.state == Calibrating {
      ReachedNear(t, t + 1);
      ReachedNear(t, last + 1);
      if t > last {
        ReachedNear(t, s.armedAt + BOOT_TIMEOUT_MS);
      }
    }
  }

  lemma ReadStageAges(s: Sys, last: int, t: int, bus: Bus)
    requires Aging(s, last, t) && last <= t
    ensures var u := ReadStage(s, t, bus).sys;
            && Aging(u, last, t)
            && (u.tof.state == Calibrating ==> u == s)
            && (u.tof.state == Running ==> !u.tof.irqPending)
  {
    hide Stamp, Plus, Reached;
    PlusIsTrue(t, SAMPLE_TIMEOUT_MS);
  }

  lemma StaleStageAges(s: Sys, last: int, t: int, bus: Bus)
    requires Aging(s, last, t) && last <= t <= last + HALF
    requires s.tof.state == Running ==> !s.tof.irqPending
    ensures var u := StaleStage(s, t, bus).sys;
            && Aging(u, last, t)
            && (u.tof.state == Calibrating ==> u == s)
            && (u.tof.state == Running ==> t < u.armedAt + SAMPLE_TIMEOUT_MS)
  {
    hide Stamp, Plus, Reached;
    if s.tof.state == Running {
      ReachedNear(t, s.armedAt + SAMPLE_TIMEOUT_MS);
    }
  }

  /** Steps at most 2^31 ms apart keep the true-time bounds. */
  lemma StepKeepsTimed(s: Sys, last: int, t: int, bus: Bus)
    requires Inv(s) && Timed(s, last) && last <= t <= last + HALF
    ensures Timed(TofStep(s, t, bus).0, t)
  {
    hide Stamp, Plus, Reached, InitStage, CalibrateStage, ReadStage, StaleStage;
    var a := PowerUp(s, t, BootWait);
    PowerUpKeeps(s, t, BootWait);
    assert Aging(a, last, t);
    InitStageAges(a, last, t, bus);
    var b := InitStage(a, t, bus).sys;
    CalibrateStageAges(b, last, t, bus);
    var c := CalibrateStage(b, t, bus).sys;
    ReadStageAges(c, last, t, bus);
    var d := ReadStage(c, t, bus).sys;
    StaleStageAges(d, last, t, bus);
    InitStageKeeps(a, t, bus);
    CalibrateStageKeeps(b, t, bus);
    ReadStageKeeps(c, t, bus);
    StaleStageKeeps(d, t, bus);
  }

  // ---------------------------------------------------------------- whole runs

  /** One turn of the main loop as the driver sees it. */
  datatype Input = Input(t: int, irq: bool, bus: Bus)

  function Turn(s: Sys, i: Input): Sys
    requires Inv(s)
  {
    TofStep(if i.irq then Notify(s) else s, i.t, i.bus).0
  }

  /** Turns in order of true time, none more than 2^31 ms after the one before it. */
  predicate Spaced(last: int, inputs: seq<Input>)
    decreases inputs
  {
    inputs == [] || (last <= inputs[0].t <= last + HALF && Spaced(inputs[0].t, inputs[1..]))
  }

  function End(last: int, inputs: seq<Input>): int {
    if inputs == [] then last else inputs[|inputs| - 1].t
  }

  lemma TurnKeeps(s: Sys, last: int, i: Input)
    requires Inv(s)
    ensures Inv(Turn(s, i))
    ensures Timed(s, last) && last <= i.t <= last + HALF ==> Timed(Turn(s, i), i.t)
  {
    hide TofStep;
    var n := if i.irq then Notify(s) else s;
    StepKeepsInv(n, i.t, i.bus);
    if Timed(s, last) && last <= i.t <= last + HALF {
      StepKeepsTimed(n, last, i.t, i.bus);
    }
  }

  function After(s: Sys, inputs: seq<Input>): Sys
    requires Inv(s)
    decreases inputs
  {
    if inputs == [] then s else
      TurnKeeps(s, inputs[0].t, inputs[0]);
      After(Turn(s, inputs[0]), inputs[1..])
  }

  lemma {:induction false} RunKeeps(s: Sys, last: int, inputs: seq<Input>)
    requires Inv(s)
    ensures Inv(After(s, inputs))
    ensures Timed(s, last) && Spaced(last, inputs) ==> Timed(After(s, inputs), End(last, inputs))
    decreases inputs
  {
    hide Inv, Timed, Turn;
    if inputs != [] {
      TurnKeeps(s, last, inputs[0]);
      TurnKeeps(s, inputs[0].t, inputs[0]);
      RunKeeps(Turn(s, inputs[0]), inputs[0].t, inputs[1..]);
    }
  }

  /**
   * Stale distance is never relabelled: in every reachable state a sample marked valid, too close or too far means
   * the machine is running and the reading was taken less than 100 ms of true time ago.
   */
  lemma UsableMeansRecent(t0: int, inputs: seq<Input>)
    requires Spaced(t0, inputs)
    ensures Inv(Initial(t0))
    ensures var s := After(Initial(t0), inputs);
            var now := End(t0, inputs);
            Usable(s.sample) ==> s.tof.state == Running && s.readAt <= now < s.readAt + SAMPLE_TIMEOUT_MS
  {
    InitialInv(t0);
    RunKeeps(Initial(t0), t0, inputs);
  }

  /** u's usable sample, if it has one, and its reading time are those of s. */
  predicate SampleFrom(s: Sys, u: Sys) {
    && u.tof.irqPending == s.tof.irqPending
    && (Usable(u.sample) ==> u.sample == s.sample && u.readAt == s.readAt)
  }

  lemma PowerUpReadsNothing(s: Sys, t: int, from: State)
    ensures SampleFrom(s, PowerUp(s, t, from))
  {}

  lemma InitStageReadsNothing(s: Sys, t: int, bus: Bus)
    requires IndexOk(s)
    ensures SampleFrom(s, InitStage(s, t, bus).sys)
  {
    hide Stamp, Plus, Reached, ConfigValue;
  }

  lemma LaterStagesReadNothing(s: Sys, t: int, bus: Bus)
    ensures SampleFrom(s, CalibrateStage(s, t, bus).sys) && SampleFrom(s, StaleStage(s, t, bus).sys)
  {
    hide Stamp, Plus, Reached, POST_CALIBRATION;
  }

  lemma ReadStageReads(s: Sys, t: int, bus: Bus)
    ensures var u := ReadStage(s, t, bus).sys;
            || u == s || !Usable(u.sample)
            || (IsReading(u.sample, bus) && u.readAt == t && bus.resultOk && bus.ackOk && s.tof.irqPending)
  {
    hide Stamp, Plus, Reached;
  }

  /** A usable sample is the reading of this step, taken because an interrupt was pending, or an older reading kept. */
  lemma UsableComesFromReading(s: Sys, t: int, bus: Bus)
    requires Inv(s)
    ensures var u := TofStep(s, t, bus).0;
            Usable(u.sample) ==>
              || (u.readAt == t && IsReading(u.sample, bus) && bus.resultOk && bus.ackOk && s.tof.irqPending)
              || (u.readAt == s.readAt && u.sample == s.sample)
  {
    hide PowerUp, InitStage, CalibrateStage, ReadStage, StaleStage, IsReading, Inv;
    var a := PowerUp(s, t, BootWait);
    PowerUpKeeps(s, t, BootWait);
    PowerUpReadsNothing(s, t, BootWait);
    IndexFromInv(s);
    IndexFromInv(a);
    InitStageReadsNothing(a, t, bus);
    var b := InitStage(a, t, bus).sys;
    LaterStagesReadNothing(b, t, bus);
    var c := CalibrateStage(b, t, bus).sys;
    ReadStageReads(c, t, bus);
    var d := ReadStage(c, t, bus).sys;
    LaterStagesReadNothing(d, t, bus);
    PowerUpReadsNothing(StaleStage(d, t, bus).sys, t, RetryWait);
  }

  lemma IndexFromInv(s: Sys)
    requires Inv(s)
    ensures IndexOk(s)
  {}

  /** In every reachable state, at any timing, the bring-up commands are complete for the state reached. */
  lemma BringUpIsComplete(t0: int, inputs: seq<Input>)
    ensures Inv(Initial(t0))
    ensures var s := After(Initial(t0), inputs);
            BroughtUp(s) && Classified(s.sample) && (Usable(s.sample) ==> s.tof.state == Running)
  {
    InitialInv(t0);
    RunKeeps(Initial(t0), t0, inputs);
  }

  /** Calibration has ended by the first turn 500 ms or more after it began. */
  lemma CalibrationEnds(t0: int, inputs: seq<Input>)
    requires Spaced(t0, inputs)
    ensures Inv(Initial(t0))
    ensures var s := After(Initial(t0), inputs);
            s.tof.state == Calibrating ==> s.armedAt <= End(t0, inputs) < s.armedAt + BOOT_TIMEOUT_MS
  {
    InitialInv(t0);
    RunKeeps(Initial(t0), t0, inputs);
  }

  /**
   * Beyond the half-range the stale check can fail: with no interrupt, a running machine whose timeout has passed
   * faults exactly when the true time since the timeout, modulo 2^32, is below 2^31.
   */
  lemma StaleCheckExactly(s: Sys, last: int, t: int, bus: Bus)
    requires Inv(s) && Timed(s, last) && s.tof.state == Running && !s.tof.irqPending
    requires t >= s.armedAt + SAMPLE_TIMEOUT_MS
    ensures var late := t - (s.armedAt + SAMPLE_TIMEOUT_MS);
            var u := TofStep(s, t, bus).0;
            if late % WRAP < HALF then u.sample.status == Fault && u.tof.state != Running
            else u.sample == s.sample && u.tof.state == Running
  {
    ReachedModulo(t, s.armedAt + SAMPLE_TIMEOUT_MS);
    hide Stamp, Plus, Reached, ConfigValue, POST_CALIBRATION;
  }
}
