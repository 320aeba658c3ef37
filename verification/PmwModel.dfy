// The PMW3901 optical flow driver of drivers/pmw3901.c: staged initialisation over SPI, accumulation of motion
// counts, publication. Time is the true microsecond time behind the 32-bit counter.
module PmwModel {
  import opened Common
  import opened WrapTime

  const PRODUCT_ID: u8 := 0x49
  const INVERSE_ID: u8 := 0xB6
  const INT32_MAX := 0x7FFF_FFFF
  const INT32_MIN := -0x8000_0000

  type int16 = x: int | -0x8000 <= x < 0x8000

  datatype RegInit = RegInit(reg: u8, value: u8, delayMs: u16)

  /** init_sequence, in parts of at most fifteen entries. */
  const INIT_SEQUENCE_1: seq<RegInit> := [
    RegInit(0x7F, 0x00, 0), RegInit(0x61, 0xAD, 0), RegInit(0x7F, 0x03, 0), RegInit(0x40, 0x00, 0), RegInit(0x7F, 0x05, 0),
    RegInit(0x41, 0xB3, 0), RegInit(0x43, 0xF1, 0), RegInit(0x45, 0x14, 0), RegInit(0x5B, 0x32, 0), RegInit(0x5F, 0x34, 0),
    RegInit(0x7B, 0x08, 0), RegInit(0x7F, 0x06, 0), RegInit(0x44, 0x1B, 0), RegInit(0x40, 0xBF, 0), RegInit(0x4E, 0x3F, 0)
  ]

  const INIT_SEQUENCE_2: seq<RegInit> := [
    RegInit(0x7F, 0x08, 0), RegInit(0x65, 0x20, 0), RegInit(0x6A, 0x18, 0), RegInit(0x7F, 0x09, 0), RegInit(0x4F, 0xAF, 0),
    RegInit(0x5F, 0x40, 0), RegInit(0x48, 0x80, 0), RegInit(0x49, 0x80, 0), RegInit(0x57, 0x77, 0), RegInit(0x60, 0x78, 0),
    RegInit(0x61, 0x78, 0), RegInit(0x62, 0x08, 0), RegInit(0x63, 0x50, 0), RegInit(0x7F, 0x0A, 0), RegInit(0x45, 0x60, 0)
  ]

  const INIT_SEQUENCE_3: seq<RegInit> := [
    RegInit(0x7F, 0x00, 0), RegInit(0x4D, 0x11, 0), RegInit(0x55, 0x80, 0), RegInit(0x74, 0x1F, 0), RegInit(0x75, 0x1F, 0),
    RegInit(0x4A, 0x78, 0), RegInit(0x4B, 0x78, 0), RegInit(0x44, 0x08, 0), RegInit(0x45, 0x50, 0), RegInit(0x64, 0xFF, 0),
    RegInit(0x65, 0x1F, 0), RegInit(0x7F, 0x14, 0), RegInit(0x65, 0x60, 0), RegInit(0x66, 0x08, 0), RegInit(0x63, 0x78, 0)
  ]

  const INIT_SEQUENCE_4: seq<RegInit> := [
    RegInit(0x7F, 0x15, 0), RegInit(0x48, 0x58, 0), RegInit(0x7F, 0x07, 0), RegInit(0x41, 0x0D, 0), RegInit(0x43, 0x14, 0),
    RegInit(0x4B, 0x0E, 0), RegInit(0x45, 0x0F, 0), RegInit(0x44, 0x42, 0), RegInit(0x4C, 0x80, 0), RegInit(0x7F, 0x10, 0),
    RegInit(0x5B, 0x02, 0), RegInit(0x7F, 0x07, 0), RegInit(0x40, 0x41, 0), RegInit(0x70, 0x00, 100), RegInit(0x32, 0x44, 0)
  ]

  const INIT_SEQUENCE_5: seq<RegInit> := [
    RegInit(0x7F, 0x07, 0), RegInit(0x40, 0x40, 0), RegInit(0x7F, 0x06, 0), RegInit(0x62, 0xF0, 0), RegInit(0x63, 0x00, 0),
    RegInit(0x7F, 0x0D, 0), RegInit(0x48, 0xC0, 0), RegInit(0x6F, 0xD5, 0), RegInit(0x7F, 0x00, 0), RegInit(0x5B, 0xA0, 0),
    RegInit(0x4E, 0xA8, 0), RegInit(0x5A, 0x50, 0), RegInit(0x40, 0x80, 0)
  ]

  const INIT_SEQUENCE := INIT_SEQUENCE_1 + INIT_SEQUENCE_2 + INIT_SEQUENCE_3 + INIT_SEQUENCE_4 + INIT_SEQUENCE_5

  const SEQUENCE_COUNT := 73

  lemma SequenceSize()
    ensures |INIT_SEQUENCE| == SEQUENCE_COUNT
  {}

  function Entry(i: nat): RegInit
    requires i < SEQUENCE_COUNT
  {
    SequenceSize();
    INIT_SEQUENCE[i]
  }

  /** The entry after which the driver waits 100 ms. */
  lemma PausedEntry()
    ensures Entry(58) == RegInit(0x70, 0x00, 100)
  {}

  // ---------------------------------------------------------------- the device and what one attempt has done

  datatype InitState = Idle | ResetAsserted | ReleaseWait | IdWait | Sequence | Done | Failed

  datatype Device = Device(accX: int32, accY: int32, integrationStart: u32, quality: u8, initialized: bool,
                           initState: InitState, initIndex: u8, initDeadline: u32)

  datatype InitResult = Busy | Ready | Faulty

  /** The outcomes of the SPI transfers one initialisation step may attempt. */
  datatype Spi = Spi(powerOk: bool, productOk: bool, product: u8, inverseOk: bool, inverse: u8,
                     motionOk: bool, entryOk: bool)

  datatype Action =
    | AssertReset
    | ReleaseReset
    | Write(reg: u8, value: u8)
    | ReadBack(reg: u8, value: u8)   // a register read and found to hold the value
    | ReadAny(reg: u8)

  /** An action with the true time at which it was done. */
  datatype Stamped = Stamped(action: Action, time: int)

  datatype Attempt = Attempt(dev: Device, log: seq<Stamped>)

  function MotionReads(t: int): seq<Stamped> {
    [Stamped(ReadAny(2), t), Stamped(ReadAny(3), t), Stamped(ReadAny(4), t), Stamped(ReadAny(5), t), Stamped(ReadAny(6), t)]
  }

  function ResetDevice(now: u32): Device {
    Device(0, 0, now, 0, false, Idle, 0, now)
  }

  /** pmw3901_start_init */
  function StartInit(a: Attempt, t: int): Attempt {
    Attempt(Device(0, 0, Stamp(t), 0, false, ResetAsserted, 0, Plus(Stamp(t), 1000)), [Stamped(AssertReset, t)])
  }

  function Fail(a: Attempt): (Attempt, InitResult) {
    (a.(dev := a.dev.(initState := Failed)), Faulty)
  }

  /** The sequence stage: one table entry, or completion once all are written. */
  function SequenceStep(a: Attempt, t: int, spi: Spi): (Attempt, InitResult) {
    var d := a.dev;
    if d.initIndex < SEQUENCE_COUNT then
      var e := Entry(d.initIndex);
      var b := a.(dev := d.(initIndex := d.initIndex + 1));
      if !spi.entryOk then Fail(b)
      else (b.(dev := b.dev.(initDeadline := Plus(Stamp(t), 1000 * e.delayMs)),
               log := a.log + [Stamped(Write(e.reg, e.value), t)]), Busy)
    else (a.(dev := d.(initialized := true, integrationStart := Stamp(t), initState := Done)), Ready)
  }

  /** pmw3901_init_step */
  function InitStep(a: Attempt, t: int, spi: Spi): (Attempt, InitResult) {
    var d := a.dev;
    if !Reached(Stamp(t), d.initDeadline) then (a, Busy)
    else match d.initState
      case ResetAsserted =>
        (Attempt(d.(initState := ReleaseWait, initDeadline := Plus(Stamp(t), 5000)),
                 a.log + [Stamped(ReleaseReset, t)]), Busy)
      case ReleaseWait =>
        if !spi.powerOk then Fail(a)
        else (Attempt(d.(initState := IdWait, initDeadline := Plus(Stamp(t), 5000)),
                      a.log + [Stamped(Write(0x3A, 0x5A), t)]), Busy)
      case IdWait =>
        if !spi.productOk || !spi.inverseOk || spi.product != PRODUCT_ID || spi.inverse != INVERSE_ID || !spi.motionOk
        then Fail(a)
        else
          SequenceStep(Attempt(d.(initState := Sequence),
                               a.log + [Stamped(ReadBack(0x00, spi.product), t), Stamped(ReadBack(0x5F, spi.inverse), t)]
                               + MotionReads(t)), t, spi)
      case Sequence => SequenceStep(a, t, spi)
      case Done => (a, Ready)
      case _ => (a, Faulty)
  }

  // ---------------------------------------------------------------- the script of a complete initialisation

  const PREAMBLE := 10

  /** Action number k of the initialisation. */
  function Script(k: nat): Action
    requires k < PREAMBLE + SEQUENCE_COUNT
  {
    if k == 0 then AssertReset
    else if k == 1 then ReleaseReset
    else if k == 2 then Write(0x3A, 0x5A)
    else if k == 3 then ReadBack(0x00, PRODUCT_ID)
    else if k == 4 then ReadBack(0x5F, INVERSE_ID)
    else if k < PREAMBLE then ReadAny(k - 3)
    else var e := Entry(k - PREAMBLE); Write(e.reg, e.value)
  }

  /** The least time, in microseconds, from action k - 1 to action k, or to completion for the last k. */
  function Pause(k: nat): nat
    requires 0 < k <= PREAMBLE + SEQUENCE_COUNT
  {
    if k == 1 then 1000 else if k == 2 || k == 3 then 5000
    else if k <= PREAMBLE then 0 else 1000 * Entry(k - 1 - PREAMBLE).delayMs
  }

  /** The log is the script so far, with the pauses kept. */
  ghost predicate Follows(log: seq<Stamped>) {
    && |log| <= PREAMBLE + SEQUENCE_COUNT
    && (forall k :: 0 <= k < |log| ==> log[k].action == Script(k))
    && (forall k :: 0 < k < |log| ==> log[k].time >= log[k - 1].time + Pause(k))
  }

  function ActionsDone(d: Device): nat {
    match d.initState
    case ResetAsserted => 1
    case ReleaseWait => 2
    case IdWait => 3
    case Sequence => PREAMBLE + d.initIndex
    case Done => PREAMBLE + SEQUENCE_COUNT
    case _ => 0
  }

  /** What every state of an attempt keeps, seen at true time now. */
  ghost predicate OnScript(a: Attempt, now: int) {
    var d := a.dev;
    && (d.initialized <==> d.initState == Done)
    && (d.initState in {ResetAsserted, ReleaseWait, IdWait} ==> d.initIndex == 0)
    && (d.initState == Sequence ==> d.initIndex <= SEQUENCE_COUNT)
    && (d.initState in {ResetAsserted, ReleaseWait, IdWait, Sequence, Done} ==>
          && Follows(a.log) && |a.log| == ActionsDone(d)
          && a.log[|a.log| - 1].time <= now)
    && (d.initState in {ResetAsserted, ReleaseWait, IdWait, Sequence} ==>
          d.initDeadline == Stamp(a.log[|a.log| - 1].time + Pause(|a.log|)))
    && (d.initState == Done ==> a.log[|a.log| - 1].time + Pause(|a.log|) <= now)
  }

  /** Time may pass. */
  lemma LaterOnScript(a: Attempt, now: int, t: int)
    requires OnScript(a, now) && now <= t
    ensures OnScript(a, t)
  {
    hide Follows, Stamp;
  }

  /** The parts of an attempt that the bring-up looks at are the same: counts, quality and integration start are not. */
  predicate SameAttempt(a: Attempt, b: Attempt) {
    && b.log == a.log && b.dev.initialized == a.dev.initialized && b.dev.initState == a.dev.initState
    && b.dev.initIndex == a.dev.initIndex && b.dev.initDeadline == a.dev.initDeadline
  }

  lemma SameOnScript(a: Attempt, b: Attempt, now: int)
    requires SameAttempt(a, b) && OnScript(a, now)
    ensures OnScript(b, now)
  {
    hide Follows, Stamp, Pause, Script, Entry;
  }

  /** A deadline at most 2^31 ahead of any instant since it was set is never seen early. */
  lemma NeverEarly(t: int, since: int, pause: nat)
    requires t >= since && pause <= HALF
    requires Reached(Stamp(t), Stamp(since + pause))
    ensures t >= since + pause
  {
    ReachedModulo(t, since + pause);
  }

  lemma PauseBound(k: nat)
    requires 0 < k <= PREAMBLE + SEQUENCE_COUNT
    ensures Pause(k) < HALF
  {
    hide Entry;
  }

  lemma FollowsNext(log: seq<Stamped>, t: int)
    requires Follows(log) && 0 < |log| < PREAMBLE + SEQUENCE_COUNT
    requires t >= log[|log| - 1].time + Pause(|log|)
    ensures Follows(log + [Stamped(Script(|log|), t)])
  {
    hide Entry, Pause, Script;
  }

  lemma StartOnScript(a: Attempt, t: int)
    ensures OnScript(StartInit(a, t), t)
  {
    hide Stamp, Plus;
    PlusIsTrue(t, 1000);
  }

  lemma SequenceStepOnScript(a: Attempt, t: int, spi: Spi)
    requires a.dev.initState == Sequence && !a.dev.initialized && a.dev.initIndex <= SEQUENCE_COUNT
    requires Follows(a.log) && |a.log| == PREAMBLE + a.dev.initIndex
    requires t >= a.log[|a.log| - 1].time + Pause(|a.log|)
    ensures OnScript(SequenceStep(a, t, spi).0, t)
  {
    hide Stamp, Plus, Follows, Entry;
    var k := |a.log|;
    if k < PREAMBLE + SEQUENCE_COUNT {
      FollowsNext(a.log, t);
      PauseBound(k + 1);
      PlusIsTrue(t, Pause(k + 1));
    }
  }

  /** The two identity reads and the five motion-register reads follow the power-up write. */
  lemma ReadsOnScript(log: seq<Stamped>, t: int)
    requires Follows(log) && |log| == 3 && t >= log[2].time + Pause(3)
    ensures Follows(log + [Stamped(ReadBack(0x00, PRODUCT_ID), t), Stamped(ReadBack(0x5F, INVERSE_ID), t)] + MotionReads(t))
  {
    hide Entry;
  }

  lemma IdWaitOnScript(a: Attempt, t: int, spi: Spi)
    requires a.dev.initState == IdWait && !a.dev.initialized && a.dev.initIndex == 0
    requires Follows(a.log) && |a.log| == 3 && t >= a.log[2].time + Pause(3)
    requires Reached(Stamp(t), a.dev.initDeadline)
    ensures OnScript(InitStep(a, t, spi).0, t)
  {
    hide Stamp, Reached, SequenceStep, Follows;
    if spi.productOk && spi.inverseOk && spi.product == PRODUCT_ID && spi.inverse == INVERSE_ID && spi.motionOk {
      var log := a.log + [Stamped(ReadBack(0x00, spi.product), t), Stamped(ReadBack(0x5F, spi.inverse), t)] + MotionReads(t);
      ReadsOnScript(a.log, t);
      SequenceStepOnScript(Attempt(a.dev.(initState := Sequence), log), t, spi);
    }
  }

  lemma ResetOnScript(a: Attempt, t: int, spi: Spi)
    requires OnScript(a, t) && (a.dev.initState == ResetAsserted || a.dev.initState == ReleaseWait)
    requires Reached(Stamp(t), a.dev.initDeadline)
    requires t >= a.log[|a.log| - 1].time + Pause(|a.log|)
    ensures OnScript(InitStep(a, t, spi).0, t)
  {
    hide Stamp, Reached, Follows, Plus, SequenceStep;
    PlusIsTrue(t, 5000);
    FollowsNext(a.log, t);
  }

  /** An initialisation step at any later time, with any SPI outcomes, stays on the script. */
  lemma InitStepOnScript(a: Attempt, now: int, t: int, spi: Spi)
    requires OnScript(a, now) && now <= t
    ensures OnScript(InitStep(a, t, spi).0, t)
  {
    hide Stamp, Reached, Follows, Plus, SequenceStep, Entry, Script;
    LaterOnScript(a, now, t);
    var d := a.dev;
    if Reached(Stamp(t), d.initDeadline) && d.initState in {ResetAsserted, ReleaseWait, IdWait, Sequence} {
      var k := |a.log|;
      PauseBound(k);
      NeverEarly(t, a.log[k - 1].time, Pause(k));
      match d.initState {
        case IdWait => IdWaitOnScript(a, t, spi);
        case Sequence => SequenceStepOnScript(a, t, spi);
        case _ => ResetOnScript(a, t, spi);
      }
    }
  }

  /** Steps left before the attempt is decided. */
  function StepsLeft(d: Device): nat
    requires d.initState == Sequence ==> d.initIndex <= SEQUENCE_COUNT
  {
    match d.initState
    case ResetAsserted => SEQUENCE_COUNT + 3
    case ReleaseWait => SEQUENCE_COUNT + 2
    case IdWait => SEQUENCE_COUNT + 1
    case Sequence => SEQUENCE_COUNT - d.initIndex + 1
    case _ => 0
  }

  /** Once its deadline is reached, a step brings the attempt closer to READY or FAULT, or decides it. */
  lemma AttemptProgresses(a: Attempt, now: int, t: int, spi: Spi)
    requires OnScript(a, now) && now <= t
    requires a.dev.initState in {ResetAsserted, ReleaseWait, IdWait, Sequence}
    requires Reached(Stamp(t), a.dev.initDeadline)
    ensures OnScript(InitStep(a, t, spi).0, t)
    ensures StepsLeft(InitStep(a, t, spi).0.dev) < StepsLeft(a.dev)
    ensures InitStep(a, t, spi).1 == Ready <==> InitStep(a, t, spi).0.dev.initState == Done
    ensures InitStep(a, t, spi).1 == Faulty <==> InitStep(a, t, spi).0.dev.initState == Failed
  {
    InitStepOnScript(a, now, t, spi);
    hide Stamp, Reached, Follows, Plus, Entry;
  }

  // ---------------------------------------------------------------- whole attempts

  predicate Undecided(d: Device) {
    d.initState in {ResetAsserted, ReleaseWait, IdWait, Sequence}
  }

  /** The true times of steps, with the outcomes of their transfers. */
  type Steps = seq<(int, Spi)>

  function RunSteps(a: Attempt, steps: Steps): Attempt
    decreases steps
  {
    if steps == [] then a else RunSteps(InitStep(a, steps[0].0, steps[0].1).0, steps[1..])
  }

  /** How many of the steps find the attempt undecided and its deadline reached. */
  function DueSteps(a: Attempt, steps: Steps): nat
    decreases steps
  {
    if steps == [] then 0 else
      (if Undecided(a.dev) && Reached(Stamp(steps[0].0), a.dev.initDeadline) then 1 else 0)
      + DueSteps(InitStep(a, steps[0].0, steps[0].1).0, steps[1..])
  }

  predicate Later(now: int, steps: Steps)
    decreases steps
  {
    steps == [] || (now <= steps[0].0 && Later(steps[0].0, steps[1..]))
  }

  function LastTime(now: int, steps: Steps): int {
    if steps == [] then now else steps[|steps| - 1].0
  }

  /** A step that is not due, or comes after the decision, changes nothing. */
  lemma IdleStep(a: Attempt, now: int, t: int, spi: Spi)
    requires OnScript(a, now) && !(Undecided(a.dev) && Reached(Stamp(t), a.dev.initDeadline))
    ensures InitStep(a, t, spi).0 == a
  {
    hide Stamp, Reached, Follows;
  }

  /**
   * However the transfers turn out: each due step of an attempt uses up one of the steps it has left, at most 76, and
   * with none left the attempt has ended, ready or failed.
   */
  lemma {:induction false} AttemptEnds(a: Attempt, now: int, steps: Steps)
    requires OnScript(a, now) && Later(now, steps)
    ensures var b := RunSteps(a, steps);
            && OnScript(b, LastTime(now, steps))
            && DueSteps(a, steps) + StepsLeft(b.dev) <= StepsLeft(a.dev) <= 76
            && (Undecided(a.dev) && DueSteps(a, steps) == StepsLeft(a.dev) ==> b.dev.initState in {Done, Failed})
    decreases steps
  {
    hide OnScript, InitStep, Stamp, Reached;
    StepsLeftBound(a, now);
    if steps != [] {
      var (t, spi) := steps[0];
      var b := InitStep(a, t, spi).0;
      LaterOnScript(a, now, t);
      InitStepOnScript(a, now, t, spi);
      StepsLeftBound(b, t);
      if Undecided(a.dev) && Reached(Stamp(t), a.dev.initDeadline) {
        AttemptProgresses(a, now, t, spi);
        StepsStayInAttempt(a, t, spi);
      } else {
        IdleStep(a, now, t, spi);
      }
      AttemptEnds(b, t, steps[1..]);
      if !Undecided(b.dev) {
        DecidedStays(b, t, steps[1..]);
      }
    }
  }

  lemma StepsLeftBound(a: Attempt, now: int)
    requires OnScript(a, now)
    ensures a.dev.initState == Sequence ==> a.dev.initIndex <= SEQUENCE_COUNT
    ensures StepsLeft(a.dev) <= 76 && (StepsLeft(a.dev) > 0 <==> Undecided(a.dev))
  {
    hide Follows, Stamp;
  }

  lemma StepsStayInAttempt(a: Attempt, t: int, spi: Spi)
    requires Undecided(a.dev)
    ensures Undecided(InitStep(a, t, spi).0.dev) || InitStep(a, t, spi).0.dev.initState in {Done, Failed}
  {
    hide Stamp, Reached, Entry;
  }

  lemma {:induction false} DecidedStays(a: Attempt, now: int, steps: Steps)
    requires OnScript(a, now) && Later(now, steps) && !Undecided(a.dev)
    ensures RunSteps(a, steps) == a
    decreases steps
  {
    hide OnScript, InitStep;
    if steps != [] {
      IdleStep(a, now, steps[0].0, steps[0].1);
      LaterOnScript(a, now, steps[0].0);
      DecidedStays(a, steps[0].0, steps[1..]);
    }
  }

  // ---------------------------------------------------------------- how long an attempt takes

  /** Every transfer succeeds and the sensor is the right one. */
  predicate AllWell(spi: Spi) {
    && spi.powerOk && spi.productOk && spi.inverseOk && spi.motionOk && spi.entryOk
    && spi.product == PRODUCT_ID && spi.inverse == INVERSE_ID
  }

  /** The true time of the deadline of an undecided attempt. */
  function Deadline(a: Attempt): int
    requires 0 < |a.log| <= PREAMBLE + SEQUENCE_COUNT
  {
    a.log[|a.log| - 1].time + Pause(|a.log|)
  }

  /** The pauses after the next deadline, in microseconds. */
  function PausesLeft(d: Device): nat {
    match d.initState
    case ResetAsserted => 110_000
    case ReleaseWait => 105_000
    case IdWait => 100_000
    case Sequence => if d.initIndex <= 58 then 100_000 else 0
    case _ => 0
  }

  predicate NoPauses(entries: seq<RegInit>) {
    forall k :: 0 <= k < |entries| ==> entries[k].delayMs == 0
  }

  lemma PausesByPart()
    ensures |INIT_SEQUENCE_1| == |INIT_SEQUENCE_2| == |INIT_SEQUENCE_3| == |INIT_SEQUENCE_4| == 15
    ensures |INIT_SEQUENCE_5| == 13
    ensures NoPauses(INIT_SEQUENCE_1) && NoPauses(INIT_SEQUENCE_2) && NoPauses(INIT_SEQUENCE_3) && NoPauses(INIT_SEQUENCE_5)
    ensures forall k :: 0 <= k < 15 ==> INIT_SEQUENCE_4[k].delayMs == if k == 13 then 100 else 0
  {}

  lemma OnlyPause(i: nat)
    requires i < SEQUENCE_COUNT
    ensures Entry(i).delayMs == if i == 58 then 100 else 0
  {
    PausesByPart();
    hide INIT_SEQUENCE_1, INIT_SEQUENCE_2, INIT_SEQUENCE_3, INIT_SEQUENCE_4, INIT_SEQUENCE_5;
  }

  lemma InAttempt(a: Attempt, now: int)
    requires OnScript(a, now) && Undecided(a.dev)
    ensures 0 < |a.log| <= PREAMBLE + SEQUENCE_COUNT && |a.log| == ActionsDone(a.dev)
    ensures a.log[|a.log| - 1].time <= now && a.dev.initDeadline == Stamp(Deadline(a))
    ensures a.dev.initState == Sequence ==> a.dev.initIndex <= SEQUENCE_COUNT
    ensures a.dev.initState != Sequence ==> a.dev.initIndex == 0
  {
    hide Stamp, Pause, Script;
  }

  /** The deadline before and after writing a table entry. */
  lemma EntryTakes(a: Attempt, t: int, spi: Spi)
    requires a.dev.initState == Sequence && a.dev.initIndex < SEQUENCE_COUNT && spi.entryOk
    requires |a.log| == PREAMBLE + a.dev.initIndex
    ensures var b := SequenceStep(a, t, spi).0;
            && b.dev.initState == Sequence && b.dev.initIndex == a.dev.initIndex + 1
            && |b.log| == |a.log| + 1 && Deadline(b) + PausesLeft(b.dev) == t + PausesLeft(a.dev)
  {
    hide Entry, Stamp, Plus, Script;
    OnlyPause(a.dev.initIndex);
    var b := SequenceStep(a, t, spi).0;
    assert b.log[|b.log| - 1].time == t;
    assert Pause(|b.log|) == 1000 * Entry(a.dev.initIndex).delayMs;
  }

  /** One step on at time t, with the pauses still to come counted from there. */
  predicate OneOn(a: Attempt, b: Attempt, t: int)
    requires a.dev.initState == Sequence ==> a.dev.initIndex <= SEQUENCE_COUNT
  {
    && Undecided(b.dev) && (b.dev.initState == Sequence ==> b.dev.initIndex <= SEQUENCE_COUNT)
    && StepsLeft(b.dev) == StepsLeft(a.dev) - 1
    && 0 < |b.log| <= PREAMBLE + SEQUENCE_COUNT
    && Deadline(b) + PausesLeft(b.dev) == t + PausesLeft(a.dev) && Deadline(b) >= t
  }

  /** What a due step does: it fails, completes the attempt as its last step, or takes it one step on. */
  predicate Advances(a: Attempt, b: Attempt, t: int, spi: Spi)
    requires a.dev.initState == Sequence ==> a.dev.initIndex <= SEQUENCE_COUNT
  {
    || (b.dev.initState == Failed && !AllWell(spi))
    || (b.dev.initState == Done && StepsLeft(a.dev) == 1)
    || OneOn(a, b, t)
  }

  lemma SequenceAdvances(a: Attempt, t: int, spi: Spi)
    requires a.dev.initState == Sequence && a.dev.initIndex <= SEQUENCE_COUNT && |a.log| == PREAMBLE + a.dev.initIndex
    ensures Advances(a, SequenceStep(a, t, spi).0, t, spi)
  {
    if a.dev.initIndex < SEQUENCE_COUNT && spi.entryOk {
      EntryTakes(a, t, spi);
    }
    hide Entry, Stamp, Plus, Deadline;
  }

  lemma IdWaitAdvances(a: Attempt, t: int, spi: Spi)
    requires a.dev.initState == IdWait && a.dev.initIndex == 0 && |a.log| == 3
    requires Reached(Stamp(t), a.dev.initDeadline)
    ensures Advances(a, InitStep(a, t, spi).0, t, spi)
  {
    hide Entry, Stamp, Plus, Reached, SequenceStep, Deadline;
    if spi.productOk && spi.inverseOk && spi.product == PRODUCT_ID && spi.inverse == INVERSE_ID && spi.motionOk {
      var log := a.log + [Stamped(ReadBack(0x00, spi.product), t), Stamped(ReadBack(0x5F, spi.inverse), t)] + MotionReads(t);
      SequenceAdvances(Attempt(a.dev.(initState := Sequence), log), t, spi);
    }
  }

  lemma DueStepAdvances(a: Attempt, now: int, t: int, spi: Spi)
    requires OnScript(a, now) && Undecided(a.dev) && Reached(Stamp(t), a.dev.initDeadline)
    ensures a.dev.initState == Sequence ==> a.dev.initIndex <= SEQUENCE_COUNT
    ensures Advances(a, InitStep(a, t, spi).0, t, spi)
  {
    InAttempt(a, now);
    hide OnScript, Entry, Stamp, Plus, Reached, SequenceStep, Script;
    match a.dev.initState {
      case IdWait => IdWaitAdvances(a, t, spi);
      case Sequence => SequenceAdvances(a, t, spi);
      case _ =>
    }
  }

  /**
   * Exactly what a step at a later time does to an attempt under way: nothing before its deadline; at or after it,
   * unless 2^31 microseconds have passed, it fails, completes the attempt as its last step, or takes it one step on,
   * with the pauses still to come counted from the time of the step.
   */
  lemma StepExactly(a: Attempt, now: int, t: int, spi: Spi)
    requires OnScript(a, now) && Undecided(a.dev) && now <= t
    ensures 0 < |a.log| <= PREAMBLE + SEQUENCE_COUNT && (a.dev.initState == Sequence ==> a.dev.initIndex <= SEQUENCE_COUNT)
    ensures var b := InitStep(a, t, spi).0;
            && OnScript(b, t)
            && (t < Deadline(a) ==> b == a)
            && (Deadline(a) <= t < Deadline(a) + HALF ==> Advances(a, b, t, spi))
            && (b == a || (Deadline(a) <= t && Advances(a, b, t, spi)))
  {
    hide OnScript, InitStep, Advances, Stamp, Reached, Pause, Entry;
    InAttempt(a, now);
    InitStepOnScript(a, now, t, spi);
    PauseBound(|a.log|);
    ReachedModulo(t, Deadline(a));
    if Reached(Stamp(t), a.dev.initDeadline) {
      NeverEarly(t, a.log[|a.log| - 1].time, Pause(|a.log|));
      DueStepAdvances(a, now, t, spi);
    } else {
      IdleStep(a, now, t, spi);
    }
  }

  /**
   * An initialised device has done the whole script: the reset held for 1 ms, both 5 ms waits, the power-up write,
   * both identities matched, the motion registers read, and every table entry written once, in order, with its pause.
   */
  lemma InitialisedMeansScriptDone(a: Attempt, now: int)
    requires OnScript(a, now) && a.dev.initialized
    ensures |a.log| == PREAMBLE + SEQUENCE_COUNT
    ensures forall k :: 0 <= k < |a.log| ==> a.log[k].action == Script(k)
    ensures forall k :: 0 < k < |a.log| ==> a.log[k].time >= a.log[k - 1].time + Pause(k)
    ensures now >= a.log[|a.log| - 1].time + Pause(|a.log|)
  {}
}
