// The bring-up of the VL53L1X driver over whole runs (drivers/vl53l1x.c:22-51): its two waits, and that it completes
// when the bus works. 93 steps: power-up, 91 configuration writes, and the check that finds the calibration ready.
module TofBringUp {
  import opened WrapTime
  import opened TofModel
  import opened TofSteps

  /** Every transaction succeeds. */
  predicate AllWell(bus: Bus) {
    && bus.writeOk && bus.startOk && bus.checkOk && bus.clearOk && bus.stopOk && bus.vhvOk && bus.tempOk
    && bus.modeOk && bus.budgetOk && bus.periodOk && bus.restartOk && bus.resultOk && bus.ackOk
  }

  /** Steps at most gap ms apart on a bus that works, with the calibration found ready from the instant ready on. */
  predicate Smooth(last: int, gap: nat, ready: int, inputs: seq<Input>)
    decreases inputs
  {
    inputs != [] ==>
    && last <= inputs[0].t <= last + gap && AllWell(inputs[0].bus) && (inputs[0].t >= ready ==> inputs[0].bus.ready)
    && Smooth(inputs[0].t, gap, ready, inputs[1..])
  }

  function Later(a: int, b: int): int {
    if a >= b then a else b
  }

  /** The time of n steps. */
  function Steps(n: nat, gap: nat): nat {
    n * gap
  }

  lemma OneStep(n: nat, gap: nat)
    ensures Steps(0, gap) == 0 && Steps(n + 1, gap) == Steps(n, gap) + gap
    ensures n <= 91 ==> Steps(n, gap) <= 91 * gap
  {}

  /** The next thing to do is due at due, and everything will be done by finish. */
  ghost predicate Ahead(s: Sys, last: int, due: int, gap: nat, ready: int, finish: int) {
    && s.tof.deadline == Stamp(due)
    && match s.tof.state
       case BootWait => last < due <= last + 1000 && ready <= due + 503
                        && Later(due + 1 + 92 * gap, ready - 1) + gap <= finish
       case RetryWait => last < due <= last + 1000 && ready <= due + 503
                         && Later(due + 1 + 92 * gap, ready - 1) + gap <= finish
       case Initializing => WritesAhead(s.tof.initIndex, last, due, gap, ready, finish)
       case Calibrating => CheckAhead(s, last, due, gap, ready, finish)
       case _ => false
  }

  predicate WritesAhead(i: nat, last: int, due: int, gap: nat, ready: int, finish: int) {
    && i <= 90 && due <= last + 3 && (if i == 0 then last < due else due <= last < due + Steps(i, gap))
    && ready <= due + 500
    && Later(Later(last, due - 1) + Steps(91 - i, gap), ready - 1) + gap <= finish
  }

  predicate CheckAhead(s: Sys, last: int, due: int, gap: nat, ready: int, finish: int) {
    && due == last + 1 && s.tof.timeout == Stamp(s.armedAt + BOOT_TIMEOUT_MS)
    && s.armedAt <= last < s.armedAt + 500 && ready <= s.armedAt + 500
    && Later(last, ready - 1) + gap <= finish
  }

  lemma WaitGoesOn(s: Sys, last: int, due: int, gap: nat, ready: int, finish: int, t: int, bus: Bus) returns (next: int)
    requires Inv(s) && Ahead(s, last, due, gap, ready, finish) && (s.tof.state == BootWait || s.tof.state == RetryWait)
    requires 0 < gap <= 0x100_0000 && last <= t <= last + gap
    ensures Ahead(TofStep(s, t, bus).0, t, next, gap, ready, finish)
  {
    hide Inv, TofStep, Stamp, Reached;
    WaitingStep(s, t, bus);
    ReachedNear(t, due);
    next := if t >= due then t + 3 else due;
  }

  /** The arithmetic of one write at t. */
  lemma WritesNext(i: nat, last: int, due: int, gap: nat, ready: int, finish: int, t: int)
    requires WritesAhead(i, last, due, gap, ready, finish) && 0 < gap <= 0x100_0000 && last <= t <= last + gap
    ensures -HALF <= t - due < HALF
    ensures t < due ==> WritesAhead(i, t, due, gap, ready, finish)
    ensures due <= t && i < 90 ==> WritesAhead(i + 1, t, due, gap, ready, finish)
    ensures due <= t && i == 90 ==> Later(t, ready - 1) + gap <= finish && ready <= t + 500
  {
    hide Steps;
    OneStep(i, gap);
    OneStep(90 - i, gap);
    assert 91 - (i + 1) == 90 - i;
  }

  lemma WriteGoesOn(s: Sys, last: int, due: int, gap: nat, ready: int, finish: int, t: int,
      bus: Bus) returns (next: int)
    requires Inv(s) && Ahead(s, last, due, gap, ready, finish) && s.tof.state == Initializing
    requires 0 < gap <= 0x100_0000 && last <= t <= last + gap && AllWell(bus)
    ensures Ahead(TofStep(s, t, bus).0, t, next, gap, ready, finish)
  {
    hide *;
    IndexFromInv(s);
    var u, i := TofStep(s, t, bus).0, s.tof.initIndex;
    WritingAhead(s, last, due, gap, ready, finish);
    WorksAll(bus);
    WritesNext(i, last, due, gap, ready, finish, t);
    InitializingStep(s, t, bus);
    ReachedNear(t, due);
    next := if t >= due && i == 90 then t + 1 else due;
    if t >= due && i == 90 {
      CalibrationBegins(u, t, gap, ready, finish);
    } else {
      StillWriting(u, t, due, gap, ready, finish);
    }
  }

  lemma WorksAll(bus: Bus)
    requires AllWell(bus)
    ensures bus.writeOk && bus.startOk
  {}

  lemma WritingAhead(s: Sys, last: int, due: int, gap: nat, ready: int, finish: int)
    requires Ahead(s, last, due, gap, ready, finish) && s.tof.state == Initializing
    ensures s.tof.deadline == Stamp(due) && WritesAhead(s.tof.initIndex, last, due, gap, ready, finish)
  {
    hide Stamp, WritesAhead;
  }

  lemma StillWriting(s: Sys, last: int, due: int, gap: nat, ready: int, finish: int)
    requires s.tof.state == Initializing && s.tof.deadline == Stamp(due)
    requires WritesAhead(s.tof.initIndex, last, due, gap, ready, finish)
    ensures Ahead(s, last, due, gap, ready, finish)
  {
    hide Stamp, WritesAhead;
  }

  lemma CalibrationBegins(u: Sys, t: int, gap: nat, ready: int, finish: int)
    requires u.tof.state == Calibrating && u.tof.deadline == Stamp(t + 1) && u.tof.timeout == Stamp(t + 500)
    requires u.armedAt == t && ready <= t + 500 && Later(t, ready - 1) + gap <= finish
    ensures Ahead(u, t, t + 1, gap, ready, finish)
  {
    hide Stamp, Later;
  }

  /** A check that finds the calibration ready ends the bring-up. */
  lemma CheckGoesOn(s: Sys, last: int, due: int, gap: nat, ready: int, finish: int, t: int,
      bus: Bus) returns (next: int)
    requires Inv(s) && Ahead(s, last, due, gap, ready, finish) && s.tof.state == Calibrating
    requires 0 < gap <= 0x100_0000 && last <= t <= last + gap && AllWell(bus) && (t >= ready ==> bus.ready)
    ensures var u := TofStep(s, t, bus).0;
            u.tof.state == Running || Ahead(u, t, next, gap, ready, finish)
  {
    hide Inv, TofStep, Stamp, Reached;
    CalibratingStep(s, t, bus);
    ReachedNear(t, due);
    ReachedNear(t, s.armedAt + BOOT_TIMEOUT_MS);
    next := t + 1;
  }

  lemma TurnGoesOn(s: Sys, last: int, due: int, gap: nat, ready: int, finish: int, i: Input) returns (next: int)
    requires Inv(s) && Ahead(s, last, due, gap, ready, finish)
    requires 0 < gap <= 0x100_0000 && last <= i.t <= last + gap && AllWell(i.bus) && (i.t >= ready ==> i.bus.ready)
    ensures Inv(Turn(s, i))
    ensures Turn(s, i).tof.state == Running || Ahead(Turn(s, i), i.t, next, gap, ready, finish)
  {
    TurnKeeps(s, last, i);
    NotifyKeeps(s);
    var n := if i.irq then Notify(s) else s;
    assert Ahead(n, last, due, gap, ready, finish);
    hide Inv, Ahead, TofStep, Stamp, AllWell;
    match s.tof.state {
      case Initializing => next := WriteGoesOn(n, last, due, gap, ready, finish, i.t, i.bus);
      case Calibrating => next := CheckGoesOn(n, last, due, gap, ready, finish, i.t, i.bus);
      case _ =>
        AheadStates(n, last, due, gap, ready, finish);
        next := WaitGoesOn(n, last, due, gap, ready, finish, i.t, i.bus);
    }
  }

  lemma AheadStates(s: Sys, last: int, due: int, gap: nat, ready: int, finish: int)
    requires Ahead(s, last, due, gap, ready, finish)
    ensures s.tof.state in {BootWait, RetryWait, Initializing, Calibrating}
  {}

  lemma AheadOfFinish(s: Sys, last: int, due: int, gap: nat, ready: int, finish: int)
    requires Ahead(s, last, due, gap, ready, finish) && gap > 0
    ensures last < finish
  {
    hide Stamp, Steps;
  }

  /** The turn after which a sensor under way first runs. */
  lemma {:induction false} Completes(s: Sys, last: int, due: int, gap: nat, ready: int, finish: int, inputs: seq<Input>)
    returns (n: nat)
    requires Inv(s) && Ahead(s, last, due, gap, ready, finish) && 0 < gap <= 0x100_0000
    requires Smooth(last, gap, ready, inputs) && End(last, inputs) >= finish
    ensures 0 < n <= |inputs| && After(s, inputs[..n]).tof.state == Running && inputs[n - 1].t < finish + gap
    decreases inputs
  {
    hide Inv, Ahead, Turn, AllWell;
    AheadOfFinish(s, last, due, gap, ready, finish);
    var i, rest := inputs[0], inputs[1..];
    var next := TurnGoesOn(s, last, due, gap, ready, finish, i);
    TurnKeeps(s, i.t, i);
    if Turn(s, i).tof.state == Running {
      n := 1;
      assert inputs[..1][1..] == [];
    } else {
      var k := Completes(Turn(s, i), i.t, next, gap, ready, finish, rest);
      n := k + 1;
      assert inputs[..n][1..] == rest[..k] && inputs[..n][0] == i;
    }
  }

  /**
   * From tof_begin on, on a bus that works and with steps at most gap ms apart, the sensor runs within 93 steps and
   * two waits: 2 ms before power-up and 3 ms before the first write. The calibration may take until any instant up to
   * 500 ms after the first write can be.
   */
  lemma BringUpCompletes(t0: int, gap: nat, ready: int, inputs: seq<Input>) returns (n: nat)
    requires 0 < gap <= 0x100_0000 && ready <= t0 + 505 && Smooth(t0, gap, ready, inputs)
    requires End(t0, inputs) >= Later(t0 + 3 + 92 * gap, ready - 1) + gap
    ensures Inv(Initial(t0))
    ensures 0 < n <= |inputs| && After(Initial(t0), inputs[..n]).tof.state == Running
    ensures inputs[n - 1].t < Later(t0 + 3 + 92 * gap, ready - 1) + 2 * gap
  {
    InitialInv(t0);
    PlusIsTrue(t0, 2);
    hide Inv, After, Smooth, End, Stamp;
    n := Completes(Initial(t0), t0, t0 + 2, gap, ready, Later(t0 + 3 + 92 * gap, ready - 1) + gap, inputs);
  }

  /** The same for every retry, in any state in which one is pending, due at true time due. */
  lemma RetryCompletes(s: Sys, last: int, due: int, gap: nat, ready: int, inputs: seq<Input>) returns (n: nat)
    requires Inv(s) && s.tof.state == RetryWait && s.tof.deadline == Stamp(due) && last < due <= last + 1000
    requires 0 < gap <= 0x100_0000 && ready <= due + 503 && Smooth(last, gap, ready, inputs)
    requires End(last, inputs) >= Later(due + 1 + 92 * gap, ready - 1) + gap
    ensures 0 < n <= |inputs| && After(s, inputs[..n]).tof.state == Running
    ensures inputs[n - 1].t < Later(due + 1 + 92 * gap, ready - 1) + 2 * gap
  {
    hide Inv, After, Smooth, End, Stamp;
    n := Completes(s, last, due, gap, ready, Later(due + 1 + 92 * gap, ready - 1) + gap, inputs);
  }

  // ---------------------------------------------------------------- the waits are kept

  /** Turns in order of time, all before the given instant. */
  predicate Before(last: int, limit: int, inputs: seq<Input>)
    decreases inputs
  {
    inputs != [] ==> last <= inputs[0].t < limit && Before(inputs[0].t, limit, inputs[1..])
  }

  /** But for the interrupt flag, nothing has changed. */
  predicate Untouched(s: Sys, u: Sys) {
    u == s.(tof := s.tof.(irqPending := u.tof.irqPending))
  }

  lemma {:induction false} WaitIsKept(s: Sys, last: int, due: int, inputs: seq<Input>)
    requires Inv(s) && s.tof.state in {BootWait, RetryWait, Initializing} && s.tof.deadline == Stamp(due)
    requires due - HALF <= last && Before(last, due, inputs)
    ensures Untouched(s, After(s, inputs))
    decreases inputs
  {
    hide Inv, TofStep, Stamp, Reached;
    if inputs != [] {
      var i := inputs[0];
      var n := if i.irq then Notify(s) else s;
      NotifyKeeps(s);
      ReachedNear(i.t, due);
      if s.tof.state == Initializing {
        InitializingStep(n, i.t, i.bus);
      } else {
        WaitingStep(n, i.t, i.bus);
      }
      TurnKeeps(s, i.t, i);
      WaitIsKept(Turn(s, i), i.t, due, inputs[1..]);
    }
  }

  /**
   * Both waits, and the second before a retry, whatever the bus does: nothing is done before 2 ms after tof_begin or a
   * second after a fault; power-up is all that is done then; and nothing is written in the 3 ms after it.
   */
  lemma WaitsAreKept(s: Sys, last: int, due: int, early: seq<Input>, i: Input, late: seq<Input>)
    requires Inv(s) && s.tof.state in {BootWait, RetryWait} && s.tof.deadline == Stamp(due)
    requires due - HALF <= last && Before(last, due, early)
    requires due <= i.t < due + HALF && Before(i.t, i.t + 3, late)
    ensures var a := After(s, early); Inv(a) && Untouched(s, a)
    ensures var u := Turn(After(s, early), i);
            Inv(u) && u.log == [Xshut(true)] && u.tof.state == Initializing && u.tof.initIndex == 0
            && Untouched(u, After(u, late))
  {
    hide Inv, TofStep, Stamp, Reached, After, Timed, Spaced;
    WaitIsKept(s, last, due, early);
    RunKeeps(s, last, early);
    var a := After(s, early);
    var n := if i.irq then Notify(a) else a;
    NotifyKeeps(a);
    ReachedNear(i.t, due);
    WaitingStep(n, i.t, i.bus);
    TurnKeeps(a, i.t, i);
    WaitIsKept(Turn(a, i), i.t, i.t + 3, late);
  }

  // ---------------------------------------------------------------- readings

  /** Each interrupt finds its transfers working, and comes within 100 ms of the one before. */
  predicate Alive(armed: int, last: int, inputs: seq<Input>)
    decreases inputs
  {
    inputs != [] ==>
    var i := inputs[0];
    && last <= i.t
    && (if i.irq then i.bus.resultOk && i.bus.ackOk && Alive(i.t, i.t, inputs[1..])
        else i.t < armed + SAMPLE_TIMEOUT_MS && Alive(armed, i.t, inputs[1..]))
  }

  /** Turn k is the last one with an interrupt. */
  predicate LastIrq(inputs: seq<Input>, k: int) {
    0 <= k < |inputs| && inputs[k].irq && forall j :: k < j < |inputs| ==> !inputs[j].irq
  }

  /** Running, with nothing pending, since the last reading or start at armed. */
  ghost predicate Ranging(s: Sys, armed: int, last: int) {
    && Inv(s) && s.tof.state == Running && !s.tof.irqPending && s.tof.timeout == Stamp(armed + 100)
    && armed <= last
  }

  lemma RangingTurn(s: Sys, armed: int, last: int, i: Input)
    requires Ranging(s, armed, last) && Alive(armed, last, [i])
    ensures Ranging(Turn(s, i), if i.irq then i.t else armed, i.t)
    ensures if i.irq then Turn(s, i).readAt == i.t && IsReading(Turn(s, i).sample, i.bus)
            else Turn(s, i).readAt == s.readAt && Turn(s, i).sample == s.sample
  {
    TurnKeeps(s, i.t, i);
    hide Inv, TofStep, Stamp, Reached, IsReading;
    if i.irq {
      NotifyKeeps(s);
      RunningStep(Notify(s), i.t, i.bus);
    } else {
      QuietStep(s, i.t, i.bus);
      ReachedNear(i.t, armed + 100);
    }
  }

  /**
   * A running sensor stays running, and its sample is the reading of the last interrupt; or, before there was one, the
   * sample it began with.
   */
  lemma {:induction false} SampleIsLastReading(s: Sys, armed: int, last: int, inputs: seq<Input>)
    requires Ranging(s, armed, last) && Alive(armed, last, inputs)
    ensures var u := After(s, inputs);
            && Inv(u) && u.tof.state == Running && !u.tof.irqPending
            && (forall k :: LastIrq(inputs, k) ==>
                  u.readAt == inputs[k].t && IsReading(u.sample, inputs[k].bus))
            && ((forall k :: 0 <= k < |inputs| ==> !inputs[k].irq) ==> u.sample == s.sample && u.readAt == s.readAt)
    decreases inputs
  {
    hide Inv, Turn, Stamp, IsReading;
    if inputs != [] {
      var i, rest := inputs[0], inputs[1..];
      assert Alive(armed, last, [i]);
      RangingTurn(s, armed, last, i);
      TurnKeeps(s, i.t, i);
      SampleIsLastReading(Turn(s, i), if i.irq then i.t else armed, i.t, rest);
      forall k | LastIrq(inputs, k) && k > 0 ensures LastIrq(rest, k - 1) {
        LastInRest(inputs, k);
      }
      if !i.irq && (forall k :: 0 <= k < |rest| ==> !rest[k].irq) {
        assert forall k :: 0 < k < |inputs| ==> inputs[k] == rest[k - 1];
      }
      if (forall k :: 0 <= k < |inputs| ==> !inputs[k].irq) {
        assert forall k :: 0 <= k < |rest| ==> rest[k] == inputs[k + 1];
      }
      if LastIrq(inputs, 0) {
        assert forall k :: 0 <= k < |rest| ==> rest[k] == inputs[k + 1];
      }
    }
  }

  lemma LastInRest(inputs: seq<Input>, k: nat)
    requires LastIrq(inputs, k) && k > 0
    ensures LastIrq(inputs[1..], k - 1)
  {
    assert forall j :: 0 <= j < |inputs[1..]| ==> inputs[1..][j] == inputs[j + 1];
  }
}
