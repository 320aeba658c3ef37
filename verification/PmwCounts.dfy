// Motion counts of drivers/pmw3901.c: transform, saturating accumulation, publication and the resets that
// discard counts, with a ledger of what was read and where it went.
module PmwCounts {
  import opened Common
  import opened WrapTime
  import opened Samples
  import opened PmwModel

  // ---------------------------------------------------------------- axis transform

  datatype Rotation = Deg0 | Deg90 | Deg180 | Deg270

  /** The compile-time mounting options of config/config.h. */
  datatype Orientation = Orientation(rotation: Rotation, swapXY: bool, flipX: bool, flipY: bool)

  const CONFIGURED := Orientation(Deg0, false, false, false)

  function Negated(negate: bool, v: int): int {
    if negate then -v else v
  }

  /** pmw3901_transform */
  function Transform(o: Orientation, rawX: int16, rawY: int16): (int32, int32) {
    var a: int := if o.swapXY then rawY else rawX;
    var b: int := if o.swapXY then rawX else rawY;
    var c: int := match o.rotation { case Deg0 => a case Deg90 => -b case Deg180 => -a case Deg270 => b };
    var d: int := match o.rotation { case Deg0 => b case Deg90 => a case Deg180 => -b case Deg270 => -a };
    (Negated(o.flipX, c), Negated(o.flipY, d))
  }

  predicate NegatesX(o: Orientation) {
    (o.rotation == Deg90 || o.rotation == Deg180) != o.flipX
  }

  predicate NegatesY(o: Orientation) {
    (o.rotation == Deg180 || o.rotation == Deg270) != o.flipY
  }

  /** The two counts are the two raw values, each possibly negated, in one order or the other. */
  lemma TransformIsSignedPermutation(o: Orientation, rawX: int16, rawY: int16)
    ensures var (x, y) := Transform(o, rawX, rawY);
            var (u, v) := (Negated(NegatesX(o), x), Negated(NegatesY(o), y));
            if (o.rotation == Deg90 || o.rotation == Deg270) != o.swapXY then u == rawY && v == rawX
            else u == rawX && v == rawY
  {}

  // ---------------------------------------------------------------- accumulation and publication

  datatype Motion = Motion(dx: int16, dy: int16, quality: u8, motion: bool)

  function Saturate(v: int): int32 {
    if v > INT32_MAX then INT32_MAX else if v < INT32_MIN then INT32_MIN else v
  }

  /** pmw3901_accumulate */
  function Accumulate(o: Orientation, d: Device, m: Motion): Device {
    if !m.motion then d.(quality := m.quality)
    else
      var (x, y) := Transform(o, m.dx, m.dy);
      d.(quality := m.quality, accX := Saturate(d.accX + x), accY := Saturate(d.accY + y))
  }

  /** pmw3901_publish */
  function Publish(d: Device, now: u32): (Device, FlowSample) {
    (d.(accX := 0, accY := 0, quality := 0, integrationStart := now),
     FlowSample(Elapsed(now, d.integrationStart), d.accX, d.accY, d.quality, d.initialized))
  }

  // ---------------------------------------------------------------- the ledger of one axis

  /** Counts read after the transform, and where they went; clamped is what saturation took away. */
  datatype Ledger = Ledger(read: int, published: int, discarded: int, clamped: int)

  predicate Balanced(l: Ledger, pending: int) {
    l.read == l.published + pending + l.discarded + l.clamped
  }

  function Enter(l: Ledger, pending: int, count: int): Ledger {
    l.(read := l.read + count, clamped := l.clamped + (pending + count - Saturate(pending + count)))
  }

  // ---------------------------------------------------------------- the device over whole runs

  /** The device with its attempt log, one ledger an axis, and the motion reads since the counts were last cleared. */
  datatype Flow = Flow(att: Attempt, x: Ledger, y: Ledger, taken: nat)

  datatype Event =
    | Reset(t: int)
    | Begin(t: int)
    | Initialise(t: int, spi: Spi)
    | Moved(m: Motion)       // a motion interrupt whose burst read succeeded
    | Report(t: int)

  function Discard(f: Flow, att: Attempt): Flow {
    f.(att := att, taken := 0,
       x := f.x.(discarded := f.x.discarded + f.att.dev.accX), y := f.y.(discarded := f.y.discarded + f.att.dev.accY))
  }

  /** One event; the main loop reads motion only from an initialised device. */
  function FlowStep(o: Orientation, f: Flow, e: Event): Flow {
    var d := f.att.dev;
    match e
    case Reset(t) => Discard(f, Attempt(ResetDevice(Stamp(t)), []))
    case Begin(t) => Discard(f, StartInit(f.att, t))
    case Initialise(t, spi) => f.(att := InitStep(f.att, t, spi).0)
    case Moved(m) =>
      if !d.initialized then f
      else if !m.motion then f.(att := f.att.(dev := Accumulate(o, d, m)))
      else
        var (cx, cy) := Transform(o, m.dx, m.dy);
        f.(att := f.att.(dev := Accumulate(o, d, m)), taken := f.taken + 1,
           x := Enter(f.x, d.accX, cx), y := Enter(f.y, d.accY, cy))
    case Report(t) =>
      var (q, s) := Publish(d, Stamp(t));
      f.(att := f.att.(dev := q), taken := 0,
         x := f.x.(published := f.x.published + s.countX), y := f.y.(published := f.y.published + s.countY))
  }

  /** Both axes balance, and a device that is not initialised holds no counts and no quality. */
  predicate Conserved(f: Flow) {
    && Balanced(f.x, f.att.dev.accX) && Balanced(f.y, f.att.dev.accY)
    && (!f.att.dev.initialized ==> f.att.dev.accX == 0 && f.att.dev.accY == 0 && f.att.dev.quality == 0)
  }

  lemma InitStepKeepsCounts(a: Attempt, t: int, spi: Spi)
    ensures var b := InitStep(a, t, spi).0;
            && b.dev.accX == a.dev.accX && b.dev.accY == a.dev.accY && b.dev.quality == a.dev.quality
            && (a.dev.initialized ==> b.dev.initialized)
  {
    hide Stamp, Plus, Reached, Entry;
  }

  lemma StepConserves(o: Orientation, f: Flow, e: Event)
    requires Conserved(f)
    ensures Conserved(FlowStep(o, f, e))
  {
    hide Stamp, Plus, Reached, InitStep, Transform, Elapsed;
    if e.Initialise? {
      InitStepKeepsCounts(f.att, e.t, e.spi);
    }
  }

  function RunFlow(o: Orientation, f: Flow, events: seq<Event>): Flow
    decreases events
  {
    if events == [] then f else RunFlow(o, FlowStep(o, f, events[0]), events[1..])
  }

  /** The most motion reads between clearings that can never saturate. */
  function Limit(o: Orientation): nat {
    if NegatesX(o) || NegatesY(o) then 65535 else 65536
  }

  /** Never more than limit motion reads between clearings. */
  predicate ReadsBounded(o: Orientation, f: Flow, events: seq<Event>, limit: nat)
    decreases events
  {
    f.taken <= limit && (events == [] || ReadsBounded(o, FlowStep(o, f, events[0]), events[1..], limit))
  }

  function LeastRead(negated: bool): int { if negated then -0x7FFF else -0x8000 }
  function MostRead(negated: bool): int { if negated then 0x8000 else 0x7FFF }

  /** Pending counts are no more than the motion reads since the last clearing can have brought. */
  predicate Contained(o: Orientation, f: Flow) {
    && f.taken * LeastRead(NegatesX(o)) <= f.att.dev.accX <= f.taken * MostRead(NegatesX(o))
    && f.taken * LeastRead(NegatesY(o)) <= f.att.dev.accY <= f.taken * MostRead(NegatesY(o))
  }

  lemma ReadsInRange(o: Orientation, m: Motion)
    ensures var (x, y) := Transform(o, m.dx, m.dy);
            && LeastRead(NegatesX(o)) <= x <= MostRead(NegatesX(o))
            && LeastRead(NegatesY(o)) <= y <= MostRead(NegatesY(o))
  {
    TransformIsSignedPermutation(o, m.dx, m.dy);
  }

  lemma StepWithinLimit(o: Orientation, f: Flow, e: Event)
    requires Conserved(f) && Contained(o, f)
    requires FlowStep(o, f, e).taken <= Limit(o)
    ensures var g := FlowStep(o, f, e);
            Contained(o, g) && g.x.clamped == f.x.clamped && g.y.clamped == f.y.clamped
  {
    hide Stamp, Plus, Reached, InitStep, Transform, Elapsed;
    match e {
      case Initialise(t, spi) => InitStepKeepsCounts(f.att, t, spi);
      case Moved(m) => ReadsInRange(o, m);
      case _ =>
    }
  }

  /** Over any run, both axes balance; within the read limit saturation takes nothing away. */
  lemma {:induction false} CountsConserved(o: Orientation, f: Flow, events: seq<Event>)
    requires Conserved(f)
    ensures Conserved(RunFlow(o, f, events))
    ensures Contained(o, f) && ReadsBounded(o, f, events, Limit(o)) ==>
              && RunFlow(o, f, events).x.clamped == f.x.clamped
              && RunFlow(o, f, events).y.clamped == f.y.clamped
    decreases events
  {
    hide FlowStep, Conserved, Contained;
    if events != [] {
      var g := FlowStep(o, f, events[0]);
      StepConserves(o, f, events[0]);
      if Contained(o, f) && ReadsBounded(o, f, events, Limit(o)) {
        assert ReadsBounded(o, g, events[1..], Limit(o));
        StepWithinLimit(o, f, events[0]);
      }
      CountsConserved(o, g, events[1..]);
    }
  }

  function PowerOn(t: int): Flow {
    Flow(Attempt(ResetDevice(Stamp(t)), []), Ledger(0, 0, 0, 0), Ledger(0, 0, 0, 0), 0)
  }

  /**
   * From power-on, whatever happens: counts read equal counts published, pending and discarded, exactly, as long as
   * no more motion reads fall between clearings than the limit for the mounting.
   */
  lemma ConservationFromPowerOn(o: Orientation, t: int, events: seq<Event>)
    requires ReadsBounded(o, PowerOn(t), events, Limit(o))
    ensures var f := RunFlow(o, PowerOn(t), events);
            && f.x.read == f.x.published + f.att.dev.accX + f.x.discarded
            && f.y.read == f.y.published + f.att.dev.accY + f.y.discarded
            && (!f.att.dev.initialized ==> f.att.dev.accX == 0 && f.att.dev.accY == 0)
  {
    NothingAtPowerOn(o, t);
    CountsConserved(o, PowerOn(t), events);
    var f := RunFlow(o, PowerOn(t), events);
    hide RunFlow, ReadsBounded, Contained, Limit, PowerOn;
    assert Conserved(f) && f.x.clamped == 0 && f.y.clamped == 0;
  }

  lemma NothingAtPowerOn(o: Orientation, t: int)
    ensures var f := PowerOn(t); Conserved(f) && Contained(o, f) && f.x.clamped == 0 && f.y.clamped == 0
  {
    hide Contained, Stamp;
    ContainedAtZero(o, PowerOn(t));
  }

  lemma ContainedAtZero(o: Orientation, f: Flow)
    requires f.taken == 0 && f.att.dev.accX == 0 && f.att.dev.accY == 0
    ensures Contained(o, f)
  {}

  /** What an uninitialised device publishes: zero counts and quality, marked invalid. */
  lemma UninitialisedPublishesZero(f: Flow, now: u32)
    requires Conserved(f) && !f.att.dev.initialized
    ensures var s := Publish(f.att.dev, now).1; s.countX == 0 && s.countY == 0 && s.quality == 0 && !s.valid
  {}

  // ---------------------------------------------------------------- the limit is exact

  const HARDEST := Moved(Motion(-0x8000, -0x8000, 0, true))

  /** n reads of the most negative motion. */
  function HardestReads(n: nat): (r: seq<Event>)
    ensures |r| == n
  {
    if n == 0 then [] else HardestReads(n - 1) + [HARDEST]
  }

  lemma {:induction false} RunFlowSnoc(o: Orientation, f: Flow, events: seq<Event>, e: Event)
    ensures RunFlow(o, f, events + [e]) == FlowStep(o, RunFlow(o, f, events), e)
    decreases events
  {
    hide FlowStep;
    if events == [] {
      assert RunFlow(o, f, [e]) == RunFlow(o, FlowStep(o, f, e), [e][1..]);
    } else {
      assert (events + [e])[1..] == events[1..] + [e];
      RunFlowSnoc(o, FlowStep(o, f, events[0]), events[1..], e);
    }
  }

  /**
   * In the configured mounting the limit of 65536 cannot be raised: repeating the most negative motion, counts are
   * lost to saturation exactly from the 65537th read on.
   */
  lemma {:induction false} LimitIsExact(f: Flow, n: nat)
    requires f.att.dev.initialized && f.att.dev.accX == 0 && f.x.clamped == 0
    ensures var g := RunFlow(CONFIGURED, f, HardestReads(n));
            && g.att.dev.initialized
            && g.att.dev.accX == (if n <= 65536 then -0x8000 * n else INT32_MIN)
            && (g.x.clamped == 0 <==> n <= 65536)
            && g.x.clamped <= 0
  {
    if n > 0 {
      LimitIsExact(f, n - 1);
      RunFlowSnoc(CONFIGURED, f, HardestReads(n - 1), HARDEST);
      assert Transform(CONFIGURED, -0x8000, -0x8000) == (-0x8000, -0x8000);
      hide RunFlow, Transform;
    }
  }
}
