// Which range samples the main loop publishes, in terms of what the sensor gave in which iterations.
module MainRange {
  import opened Common
  import opened WrapTime
  import opened MainModel
  import opened MainRuns
  import TofModel
  import TofBringUp
  import Scheduler
  import CanRecovery
  import PmwCounts

  /** The turns as the range sensor's driver sees them. */
  function RangeInputs(turns: seq<Turn>): (r: seq<TofModel.Input>)
    ensures |r| == |turns|
  {
    seq(|turns|, k requires 0 <= k < |turns| => TofModel.Input(turns[k].t, turns[k].tofIrq, turns[k].bus))
  }

  lemma TofNext(s: Loop, i: Turn)
    requires Inv(s)
    ensures TofModel.Inv(s.tof) && Iterate(s, i).tof == TofModel.Turn(s.tof, TofModel.Input(i.t, i.tofIrq, i.bus))
  {
    TofKept(s);
    RangesFromShape(s, i);
    hide Inv, Iterate, TofModel.TofStep;
  }

  /** The range sensor of the main loop is the driver of its own, fed with the turns. */
  lemma {:induction false} TofFollowsTurns(s: Loop, turns: seq<Turn>)
    requires Inv(s)
    ensures TofModel.Inv(s.tof) && Run(s, turns).tof == TofModel.After(s.tof, RangeInputs(turns))
    decreases turns
  {
    hide Inv, Iterate, Reports, TofModel.Turn;
    TofKept(s);
    if turns != [] {
      IterateReports(s, turns[0]);
      TofNext(s, turns[0]);
      TofFollowsTurns(Iterate(s, turns[0]), turns[1..]);
      assert RangeInputs(turns)[1..] == RangeInputs(turns[1..]);
    }
  }

  lemma RangeNext(s: Loop, i: Turn)
    requires Inv(s)
    ensures s.rangeTask.period > 0
    ensures var u := Iterate(s, i);
            && u.rangeTask == Scheduler.Poll(s.rangeTask, Stamp(i.t)).0
            && u.ranges == (if Scheduler.Poll(s.rangeTask, Stamp(i.t)).1
                            then s.ranges + [RangeNote(u.tof.sample, i.t, u.tof.readAt)] else s.ranges)
  {
    PeriodsKept(s);
    IterateShape(s, i);
    hide Inv, Iterate, TofTurn, CanRecovery.Step, PmwStages, FlowDue, PmwCounts.FlowStep, Scheduler.Poll;
  }

  /** The last turn publishes exactly if the task fires in it, and then the sample and reading time it ends with. */
  lemma {:induction false} LastNote(s: Loop, turns: seq<Turn>)
    requires Inv(s) && turns != []
    ensures s.rangeTask.period > 0
    ensures var n, u := |turns| - 1, Run(s, turns);
            && Inv(Run(s, turns[..n]))
            && u.ranges == Run(s, turns[..n]).ranges
                           + (if Scheduler.Firings(s.rangeTask, Times(turns))[n]
                              then [RangeNote(u.tof.sample, turns[n].t, u.tof.readAt)] else [])
    decreases turns
  {
    hide Inv, Iterate, Reports, Scheduler.Poll;
    var i, rest := turns[0], turns[1..];
    IterateReports(s, i);
    RangeNext(s, i);
    assert Times(turns) == [i.t] + Times(rest);
    assert Times(turns)[1..] == Times(rest);
    if rest != [] {
      LastNote(Iterate(s, i), rest);
      var n := |turns| - 1;
      assert turns[..n][1..] == rest[..n - 1] && turns[..n][0] == i;
    }
  }

  /**
   * While the range sensor keeps running, each sample the loop publishes is what the sensor gave in the iteration of
   * the last interrupt, with the time of that iteration.
   */
  lemma PublishedIsLastReading(s: Loop, armed: int, last: int, turns: seq<Turn>, k: int)
    requires Inv(s) && turns != [] && TofBringUp.Ranging(s.tof, armed, last)
    requires TofBringUp.Alive(armed, last, RangeInputs(turns)) && TofBringUp.LastIrq(RangeInputs(turns), k)
    ensures s.rangeTask.period > 0 && Inv(Run(s, turns[..|turns| - 1]))
    ensures Run(s, turns).tof.tof.state == TofModel.Running
    ensures var n, before := |turns| - 1, Run(s, turns[..|turns| - 1]).ranges;
            if !Scheduler.Firings(s.rangeTask, Times(turns))[n] then Run(s, turns).ranges == before
            else
              var note := RangeNote(Run(s, turns).tof.sample, turns[n].t, turns[k].t);
              Run(s, turns).ranges == before + [note] && TofModel.IsReading(note.sample, turns[k].bus)
  {
    hide Run, Inv, TofModel.After, TofBringUp.Ranging, TofBringUp.Alive, TofBringUp.LastIrq, TofModel.IsReading,
      Scheduler.Firings;
    LastNote(s, turns);
    TofFollowsTurns(s, turns);
    TofBringUp.SampleIsLastReading(s.tof, armed, last, RangeInputs(turns));
    InIndex(turns, k);
  }

  lemma InIndex(turns: seq<Turn>, k: int)
    requires TofBringUp.LastIrq(RangeInputs(turns), k)
    ensures 0 <= k < |turns| && RangeInputs(turns)[k] == TofModel.Input(turns[k].t, turns[k].tofIrq, turns[k].bus)
  {}

  // ---------------------------------------------------------------- from power-on

  /** The sample was read in one of the turns, with both transfers good. */
  predicate ReadIn(turns: seq<Turn>, n: RangeNote) {
    exists k :: 0 <= k < |turns| && turns[k].t == n.readAt && turns[k].bus.resultOk && turns[k].bus.ackOk
                && TofModel.IsReading(n.sample, turns[k].bus)
  }

  predicate AllRead(turns: seq<Turn>, notes: seq<RangeNote>) {
    forall n :: 0 <= n < |notes| && TofModel.Usable(notes[n].sample) ==> ReadIn(turns, notes[n])
  }

  ghost function Held(s: Loop): RangeNote {
    RangeNote(s.tof.sample, 0, s.tof.readAt)
  }

  lemma ReadInMore(turns: seq<Turn>, i: Turn, n: RangeNote)
    ensures ReadIn(turns, n) ==> ReadIn(turns + [i], n)
    ensures n.readAt == i.t && i.bus.resultOk && i.bus.ackOk && TofModel.IsReading(n.sample, i.bus) ==>
        ReadIn(turns + [i], n)
  {
    hide TofModel.IsReading;
    var more := turns + [i];
    assert more[|turns|] == i;
    if ReadIn(turns, n) {
      var k :| 0 <= k < |turns| && turns[k].t == n.readAt && turns[k].bus.resultOk && turns[k].bus.ackOk
               && TofModel.IsReading(n.sample, turns[k].bus);
      assert more[k] == turns[k];
    }
  }

  lemma HeldNext(s: Loop, i: Turn)
    requires Inv(s)
    ensures var u := Iterate(s, i).tof;
            TofModel.Usable(u.sample) ==>
              || (u.readAt == i.t && TofModel.IsReading(u.sample, i.bus) && i.bus.resultOk && i.bus.ackOk)
              || (u.readAt == s.tof.readAt && u.sample == s.tof.sample)
  {
    TofNext(s, i);
    hide Inv, Iterate, TofModel.TofStep, TofModel.Inv, TofModel.IsReading, TofModel.Usable;
    TofModel.NotifyKeeps(s.tof);
    TofModel.UsableComesFromReading(if i.tofIrq then TofModel.Notify(s.tof) else s.tof, i.t, i.bus);
  }

  lemma ReadNext(s: Loop, turns: seq<Turn>, i: Turn)
    requires Inv(s) && AllRead(turns, s.ranges) && (TofModel.Usable(s.tof.sample) ==> ReadIn(turns, Held(s)))
    ensures var u := Iterate(s, i);
            AllRead(turns + [i], u.ranges) && (TofModel.Usable(u.tof.sample) ==> ReadIn(turns + [i], Held(u)))
  {
    hide Inv, Iterate, TofModel.IsReading, TofModel.Usable, ReadIn, Scheduler.Poll;
    HeldNext(s, i);
    RangeNext(s, i);
    var u := Iterate(s, i);
    ReadInMore(turns, i, Held(s));
    ReadInMore(turns, i, Held(u));
    SameReading(turns + [i], Held(s), Held(u));
    SameReading(turns + [i], Held(u), RangeNote(u.tof.sample, i.t, u.tof.readAt));
    forall n | 0 <= n < |u.ranges| && TofModel.Usable(u.ranges[n].sample) ensures ReadIn(turns + [i], u.ranges[n]) {
      if n < |s.ranges| {
        assert u.ranges[n] == s.ranges[n];
        ReadInMore(turns, i, s.ranges[n]);
      }
    }
  }

  lemma SameReading(turns: seq<Turn>, a: RangeNote, b: RangeNote)
    ensures a.sample == b.sample && a.readAt == b.readAt && ReadIn(turns, a) ==> ReadIn(turns, b)
  {
    hide TofModel.IsReading;
  }

  lemma {:induction false} ReadFromPowerOn(t: int, us: int, turns: seq<Turn>)
    requires Inv(Initial(t, us))
    ensures var u := Run(Initial(t, us), turns);
            AllRead(turns, u.ranges) && (TofModel.Usable(u.tof.sample) ==> ReadIn(turns, Held(u)))
    decreases turns
  {
    hide Inv, Iterate, Initial, AllRead, ReadIn, Held, TofModel.Usable;
    if turns == [] {
      NothingYet(t, us);
    } else {
      var n := |turns| - 1;
      ReadFromPowerOn(t, us, turns[..n]);
      RunSnoc(Initial(t, us), turns[..n], turns[n]);
      ReadNext(Run(Initial(t, us), turns[..n]), turns[..n], turns[n]);
      assert turns[..n] + [turns[n]] == turns;
    }
  }

  lemma NothingYet(t: int, us: int)
    ensures AllRead([], Initial(t, us).ranges) && !TofModel.Usable(Initial(t, us).tof.sample)
  {}

  /**
   * Over every run from power-on, whatever the bus does: each range sample ever published as valid, too close or too
   * far is what the sensor gave in some iteration, with both transfers good, at the time noted with it.
   */
  lemma PublishedRangesAreReadings(t: int, us: int, turns: seq<Turn>)
    ensures Inv(Initial(t, us))
    ensures var notes := Run(Initial(t, us), turns).ranges;
            forall n :: 0 <= n < |notes| && TofModel.Usable(notes[n].sample) ==>
              exists k :: 0 <= k < |turns| && turns[k].t == notes[n].readAt
                          && turns[k].bus.resultOk && turns[k].bus.ackOk
                          && TofModel.IsReading(notes[n].sample, turns[k].bus)
  {
    hide Run, Inv, Initial, TofModel.IsReading, TofModel.Usable;
    InitialInv(t, us);
    ReadFromPowerOn(t, us, turns);
  }

  /**
   * From power-on, on a bus that works, the range sensor of the main loop runs within 93 iterations and its two waits.
   */
  lemma RangeComesUp(t: int, us: int, gap: nat, ready: int, turns: seq<Turn>) returns (n: nat)
    requires 0 < gap <= 0x100_0000 && ready <= t + 505 && TofBringUp.Smooth(t, gap, ready, RangeInputs(turns))
    requires turns != [] && turns[|turns| - 1].t >= TofBringUp.Later(t + 3 + 92 * gap, ready - 1) + gap
    ensures Inv(Initial(t, us)) && 0 < n <= |turns|
    ensures Run(Initial(t, us), turns[..n]).tof.tof.state == TofModel.Running
    ensures turns[n - 1].t < TofBringUp.Later(t + 3 + 92 * gap, ready - 1) + 2 * gap
  {
    InitialTof(t, us);
    hide Run, Inv, Initial, TofModel.After, TofBringUp.Smooth;
    InitialInv(t, us);
    var inputs := RangeInputs(turns);
    n := TofBringUp.BringUpCompletes(t, gap, ready, inputs);
    TofFollowsTurns(Initial(t, us), turns[..n]);
    assert RangeInputs(turns[..n]) == inputs[..n];
  }

  lemma InitialTof(t: int, us: int)
    ensures Initial(t, us).tof == TofModel.Initial(t)
  {}
}
