// The extended microsecond clock of protocol/dronecan.c and the time stamps of received CAN frames.
module CanClock {
  import opened WrapTime

  const WRAP64 := 0x1_0000_0000_0000_0000
  type u64 = x: int | 0 <= x < 0x1_0000_0000_0000_0000

  datatype Clock = Clock(last: u32, extended: u64)

  /** dronecan_init at true time t0. */
  function Init(now: u32): Clock {
    Clock(now, 0)
  }

  /** monotonic_us; its result is the extended field afterwards. */
  function Sample(c: Clock, now: u32): Clock {
    Clock(now, (c.extended + Elapsed(now, c.last)) % WRAP64)
  }

  /** extend_rx_timestamp: the clock only lends its last reading. */
  function ExtendRxTimestamp(c: Clock, raw: u64, now: u64): u64 {
    var age := Elapsed(c.last, raw % WRAP);
    if age <= now then now - age else 0
  }

  class MonotonicClock {
    var clockLastUs: u32
    var clockExtendedUs: u64

    ghost function View(): Clock
      reads this
    {
      Clock(clockLastUs, clockExtendedUs)
    }

    constructor (now: u32)
      ensures View() == Init(now)
    {
      clockLastUs, clockExtendedUs := now, 0;
    }

    method MonotonicUs(now: u32) returns (us: u64)
      modifies this
      ensures View() == Sample(old(View()), now) && us == View().extended
    {
      clockExtendedUs := (clockExtendedUs + Elapsed(now, clockLastUs)) % WRAP64;
      clockLastUs := now;
      return clockExtendedUs;
    }
  }

  // ---------------------------------------------------------------- the clock over whole runs

  /** The clock after samples at the given true times. */
  function AfterSamples(c: Clock, times: seq<int>): Clock
    decreases times
  {
    if times == [] then c else AfterSamples(Sample(c, Stamp(times[0])), times[1..])
  }

  /** Samples in order of true time, each less than 2^32 us after the one before it. */
  predicate SampledOften(last: int, times: seq<int>)
    decreases times
  {
    times == [] || (last <= times[0] < last + WRAP && SampledOften(times[0], times[1..]))
  }

  /** The clock read at true time t shows the true time since t0. */
  predicate Tells(c: Clock, t0: int, t: int) {
    t0 <= t < t0 + WRAP64 && c == Clock(Stamp(t), t - t0)
  }

  /** One sample keeps true time exactly when it comes less than 2^32 us after the one before. */
  lemma SampleTellsTime(c: Clock, t0: int, last: int, t: int)
    requires Tells(c, t0, last) && last <= t < t0 + WRAP64
    ensures Tells(Sample(c, Stamp(t)), t0, t) <==> t - last < WRAP
  {
    ElapsedExact(t, last);
    hide Stamp, Elapsed;
    if t - last >= WRAP {
      var lost := t - last - Elapsed(Stamp(t), Stamp(last));
      assert lost > 0;
    }
  }

  function End(last: int, times: seq<int>): int {
    if times == [] then last else times[|times| - 1]
  }

  lemma {:induction false} ClockTellsTimeFrom(c: Clock, t0: int, last: int, times: seq<int>)
    requires Tells(c, t0, last) && SampledOften(last, times) && End(last, times) < t0 + WRAP64
    ensures Tells(AfterSamples(c, times), t0, End(last, times))
    decreases times
  {
    hide Tells, Sample;
    if times != [] {
      EndIsLatest(times[0], times[1..]);
      SampleKeepsTime(c, t0, last, times[0]);
      ClockTellsTimeFrom(Sample(c, Stamp(times[0])), t0, times[0], times[1..]);
    }
  }

  lemma SampleKeepsTime(c: Clock, t0: int, last: int, t: int)
    requires Tells(c, t0, last) && last <= t < last + WRAP && t < t0 + WRAP64
    ensures Tells(Sample(c, Stamp(t)), t0, t)
  {
    SampleTellsTime(c, t0, last, t);
  }

  lemma {:induction false} EndIsLatest(first: int, times: seq<int>)
    requires SampledOften(first, times)
    ensures first <= End(first, times)
    decreases times
  {
    if times != [] {
      EndIsLatest(times[0], times[1..]);
    }
  }

  /**
   * In every reachable state the extended clock equals the true time since dronecan_init, as long as samples
   * are less than 2^32 us apart and the 64-bit count has not run out.
   */
  lemma ClockTellsTime(t0: int, times: seq<int>)
    requires SampledOften(t0, times) && End(t0, times) < t0 + WRAP64
    ensures AfterSamples(Init(Stamp(t0)), times).extended == End(t0, times) - t0
  {
    ClockTellsTimeFrom(Init(Stamp(t0)), t0, t0, times);
  }

  // ---------------------------------------------------------------- received frames

  /** A stamp never lies in the future of the now it is computed from, whatever the inputs. */
  lemma StampNotInFuture(c: Clock, raw: u64, now: u64)
    ensures ExtendRxTimestamp(c, raw, now) <= now
  {}

  /**
   * Let the clock tell time at true time t, and let the frame have arrived at true time a, not before init.
   * Its stamp is the true arrival time exactly when it arrived no later than t and less than 2^32 us before t.
   */
  lemma StampExactly(c: Clock, t0: int, t: int, a: int)
    requires Tells(c, t0, t) && t0 <= a
    ensures ExtendRxTimestamp(c, Stamp(a), c.extended) == a - t0 <==> a <= t < a + WRAP
  {
    var age := Elapsed(Stamp(t), Stamp(a));
    assert Stamp(a) % WRAP == Stamp(a);
    ElapsedExact(t, a);
    if a <= t {
      AgeAtMostTrue(t, a);
    }
  }

  lemma AgeAtMostTrue(t: int, a: int)
    requires a <= t
    ensures 0 <= Elapsed(Stamp(t), Stamp(a)) <= t - a
  {
    ElapsedModulo(t, a);
  }

  /**
   * How far a stamp is off for a frame that arrived at true time a, when now was read at t and the clock was last read
   * at u: the time from t to u, and the whole range of the counter for a frame that came after that.
   */
  function StampError(t: int, u: int, a: int): int {
    (u - t) + (if a > u then WRAP else 0)
  }

  /** The stamp is early by exactly that much, or zero where that would put it before init. */
  lemma StampAfterClockMoved(c: Clock, t0: int, t: int, u: int, a: int)
    requires Tells(c, t0, u) && t0 <= t <= u && t0 <= a && u - WRAP < a <= u + WRAP
    ensures var stamp := ExtendRxTimestamp(c, Stamp(a), t - t0);
            && stamp == (if a - t0 >= StampError(t, u, a) then (a - t0) - StampError(t, u, a) else 0)
            && (stamp == a - t0 <==> a <= u == t || a == t0)
  {
    assert Stamp(a) % WRAP == Stamp(a);
    if a <= u {
      ElapsedExact(u, a);
    } else {
      ElapsedExact(u + WRAP, a);
      ElapsedModulo(u + WRAP, a);
      ElapsedModulo(u, a);
    }
  }

  // ---------------------------------------------------------------- the receive loop of a poll

  /** A frame handled in a poll: when it arrived, and when its handling read the clock again to answer it, if it did. */
  datatype Handled = Handled(arrived: int, answered: bool, at: int)

  function AfterHandling(c: Clock, f: Handled): Clock {
    if f.answered then Sample(c, Stamp(f.at)) else c
  }

  /** The stamps a poll gives its frames; all are computed from the one reading at its start. */
  function Stamps(c: Clock, now: u64, frames: seq<Handled>): (r: seq<u64>)
    ensures |r| == |frames|
    decreases frames
  {
    if frames == [] then [] else
      [ExtendRxTimestamp(c, Stamp(frames[0].arrived), now)] + Stamps(AfterHandling(c, frames[0]), now, frames[1..])
  }

  function LastRead(u: int, f: Handled): int {
    if f.answered then f.at else u
  }

  /** Answers in order of true time, and arrivals within the range of the counter of the last reading before them. */
  predicate Handles(t0: int, u: int, frames: seq<Handled>)
    decreases frames
  {
    frames != [] ==>
    && t0 <= frames[0].arrived && u - WRAP < frames[0].arrived <= u + WRAP
    && u <= LastRead(u, frames[0]) < u + WRAP && LastRead(u, frames[0]) < t0 + WRAP64
    && Handles(t0, LastRead(u, frames[0]), frames[1..])
  }

  /** The last reading before frame k. */
  function ReadBefore(u: int, frames: seq<Handled>, k: nat): int
    requires k < |frames|
    decreases frames
  {
    if k == 0 then u else ReadBefore(LastRead(u, frames[0]), frames[1..], k - 1)
  }

  /**
   * A poll that reads the clock at true time t stamps frame k exactly, if and only if the frame arrived no later and no
   * answer moved the clock on before it; else the stamp is early by the move, and by 2^32 us more if the frame came
   * after the last reading, or zero. (A frame that arrived at init is stamped zero in any case.)
   */
  lemma {:induction false} PollStamps(c: Clock, t0: int, t: int, u: int, frames: seq<Handled>, k: nat)
    requires Tells(c, t0, u) && t0 <= t <= u && Handles(t0, u, frames) && k < |frames|
    ensures var a, r := frames[k].arrived, ReadBefore(u, frames, k);
            var error := StampError(t, r, a);
            && t <= r
            && Stamps(c, t - t0, frames)[k] == (if a - t0 >= error then (a - t0) - error else 0)
            && (Stamps(c, t - t0, frames)[k] == a - t0 <==> a <= r == t || a == t0)
    decreases frames
  {
    hide Tells, Sample, ExtendRxTimestamp;
    if k == 0 {
      ReadInRange(c, t0, u);
      StampAfterClockMoved(c, t0, t, u, frames[0].arrived);
    } else {
      if frames[0].answered {
        SampleKeepsTime(c, t0, u, frames[0].at);
      }
      PollStamps(AfterHandling(c, frames[0]), t0, t, LastRead(u, frames[0]), frames[1..], k - 1);
    }
  }

  lemma ReadInRange(c: Clock, t0: int, t: int)
    requires Tells(c, t0, t)
    ensures t0 <= t < t0 + WRAP64
  {}
}
