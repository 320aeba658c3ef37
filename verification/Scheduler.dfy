// The periodic tasks of app/scheduler.c: a deadline that catches up by whole periods under wrap-around.
module Scheduler {
  import opened WrapTime

  datatype Task = Task(deadline: u32, period: u32)

  function NewTask(now: u32, period: u32): Task {
    Task(Plus(now, period), period)
  }

  /** How far the catch-up loop still is from stopping: it closes in on now, or on the half-range beyond it. */
  function Distance(deadline: u32, period: u32, now: u32): nat {
    var behind := Elapsed(now, deadline);
    if period <= HALF then behind else WRAP - behind
  }

  lemma DistanceDrops(deadline: u32, period: u32, now: u32)
    requires period > 0 && Reached(now, deadline) && Reached(now, Plus(deadline, period))
    ensures Distance(Plus(deadline, period), period, now) < Distance(deadline, period, now)
  {}

  /** The deadline the do-while loop leaves behind. */
  function CatchUp(deadline: u32, period: u32, now: u32): u32
    requires period > 0 && Reached(now, deadline)
    decreases Distance(deadline, period, now)
  {
    var next := Plus(deadline, period);
    if Reached(now, next) then
      DistanceDrops(deadline, period, now);
      CatchUp(next, period, now)
    else next
  }

  /** A poll of a task; with a period of zero it does not return from a due one, as LoopStopsExactly shows. */
  function Poll(t: Task, now: u32): (Task, bool)
    requires Reached(now, t.deadline) ==> t.period > 0
  {
    if Reached(now, t.deadline) then (t.(deadline := CatchUp(t.deadline, t.period, now)), true) else (t, false)
  }

  class PeriodicTask {
    var deadline: u32
    var period: u32

    ghost function View(): Task
      reads this
    {
      Task(deadline, period)
    }

    constructor (now: u32, period: u32)
      ensures View() == NewTask(now, period)
    {
      this.period := period;
      this.deadline := Plus(now, period);
    }

    method Due(now: u32) returns (due: bool)
      requires Reached(now, deadline) ==> period > 0
      modifies this`deadline
      ensures (View(), due) == Poll(old(View()), now)
    {
      hide Reached, Plus, Distance;
      if !Reached(now, deadline) {
        return false;
      }
      ghost var first := deadline;
      deadline := Plus(deadline, period);
      while Reached(now, deadline)
        invariant CatchUp(first, period, now) == if Reached(now, deadline) then CatchUp(deadline, period, now) else deadline
        decreases if Reached(now, deadline) then 1 + Distance(deadline, period, now) else 0
      {
        if Reached(now, Plus(deadline, period)) {
          DistanceDrops(deadline, period, now);
        }
        deadline := Plus(deadline, period);
      }
      return true;
    }
  }

  /** The deadline after n turns of the loop. */
  function Advanced(deadline: u32, period: u32, n: nat): u32
    decreases n
  {
    if n == 0 then deadline else Advanced(Plus(deadline, period), period, n - 1)
  }

  lemma {:induction false} NeverAdvances(deadline: u32, n: nat)
    ensures Advanced(deadline, 0, n) == deadline
    decreases n
  {
    if n > 0 {
      NeverAdvances(deadline, n - 1);
    }
  }

  lemma {:induction false} TurnsToStop(deadline: u32, period: u32, now: u32) returns (n: nat)
    requires period > 0 && Reached(now, deadline)
    ensures n > 0 && !Reached(now, Advanced(deadline, period, n))
    decreases Distance(deadline, period, now)
  {
    var next := Plus(deadline, period);
    if Reached(now, next) {
      DistanceDrops(deadline, period, now);
      hide Reached, Plus, Distance;
      var k := TurnsToStop(next, period, now);
      return k + 1;
    }
    assert Advanced(deadline, period, 1) == Advanced(next, period, 0);
    return 1;
  }

  /** The loop over a due task stops if and only if the period is not zero. */
  lemma LoopStopsExactly(deadline: u32, period: u32, now: u32)
    requires Reached(now, deadline)
    ensures (exists n: nat :: !Reached(now, Advanced(deadline, period, n))) <==> period > 0
  {
    hide Reached, Advanced;
    if period > 0 {
      var n := TurnsToStop(deadline, period, now);
    } else {
      forall n: nat ensures Reached(now, Advanced(deadline, period, n)) {
        NeverAdvances(deadline, n);
      }
    }
  }

  /** A fresh task is not already due, exactly when its period is nonzero and at most 2^31. */
  lemma FreshTaskWaits(start: int, period: u32)
    ensures !Reached(Stamp(start), NewTask(Stamp(start), period).deadline) <==> 0 < period <= HALF
  {
    PlusIsTrue(start, period);
    ReachedModulo(start, start + period);
  }

  // ---------------------------------------------------------------- the grid of true deadlines

  /** The number of whole periods from start to t. */
  function Cell(start: int, period: int, t: int): nat
    requires period > 0 && t >= start
  {
    (t - start) / period
  }

  function GridPoint(start: int, period: int, k: nat): int {
    start + k * period
  }

  lemma CellBounds(start: int, period: int, t: int)
    requires period > 0 && t >= start
    ensures var k := Cell(start, period, t);
            GridPoint(start, period, k) <= t < GridPoint(start, period, k + 1)
            && GridPoint(start, period, k + 1) == GridPoint(start, period, k) + period
  {
    var k := Cell(start, period, t);
    assert (k + 1) * period == k * period + period;
  }

  /** A grid point has passed exactly when the cell number has got there. */
  lemma {:induction false} GridPointPassed(start: int, period: int, k: nat, t: int)
    requires period > 0 && t >= start
    ensures t >= GridPoint(start, period, k) <==> Cell(start, period, t) >= k
  {
    CellBounds(start, period, t);
    var c := Cell(start, period, t);
    if c >= k {
      assert c * period == (c - k) * period + k * period;
      assert (c - k) * period >= 0;
    } else {
      assert k * period == (k - c - 1) * period + (c + 1) * period;
      assert (k - c - 1) * period >= 0;
    }
  }

  lemma CellMonotone(start: int, period: int, t: int, u: int)
    requires period > 0 && start <= t <= u
    ensures Cell(start, period, t) <= Cell(start, period, u)
  {
    CellBounds(start, period, t);
    GridPointPassed(start, period, Cell(start, period, t), u);
  }

  /** From a true deadline on the grid that has passed, the loop stops at the first grid point after now. */
  lemma {:induction false} CatchUpIsNextGridPoint(start: int, period: u32, k: nat, t: int)
    requires 0 < period <= HALF && t >= start
    requires 0 <= t - GridPoint(start, period, k) < HALF
    ensures Reached(Stamp(t), Stamp(GridPoint(start, period, k)))
    ensures CatchUp(Stamp(GridPoint(start, period, k)), period, Stamp(t)) ==
            Stamp(GridPoint(start, period, Cell(start, period, t) + 1))
    decreases t - GridPoint(start, period, k)
  {
    hide Stamp, Reached, Plus, Elapsed, Cell;
    var d := GridPoint(start, period, k);
    var e := GridPoint(start, period, k + 1);
    assert e == d + period by { assert (k + 1) * period == k * period + period; }
    ReachedNear(t, d);
    ReachedNear(t, e);
    PlusIsTrue(d, period);
    GridPointPassed(start, period, k, t);
    GridPointPassed(start, period, k + 1, t);
    if t >= e {
      CatchUpIsNextGridPoint(start, period, k + 1, t);
    }
  }

  // ---------------------------------------------------------------- whole polling histories

  /** Polls in order of true time, none more than 2^31 after the one before it. */
  predicate Polled(last: int, polls: seq<int>)
    decreases polls
  {
    polls == [] || (last <= polls[0] <= last + HALF && Polled(polls[0], polls[1..]))
  }

  /** The task after a poll at true time last that left the deadline on the grid. */
  predicate OnGrid(t: Task, start: int, period: u32, last: int) {
    && 0 < period <= HALF
    && last >= start
    && t == Task(Stamp(GridPoint(start, period, Cell(start, period, last) + 1)), period)
  }

  lemma NewTaskOnGrid(start: int, period: u32)
    requires 0 < period <= HALF
    ensures OnGrid(NewTask(Stamp(start), period), start, period, start)
  {
    CellBounds(start, period, start);
    assert Cell(start, period, start) == 0;
    PlusIsTrue(start, period);
  }

  /** One poll: it fires exactly when a grid point has passed since the last poll, and stays on the grid. */
  lemma PollOnGrid(task: Task, start: int, period: u32, last: int, t: int)
    requires OnGrid(task, start, period, last) && last <= t <= last + HALF
    ensures OnGrid(Poll(task, Stamp(t)).0, start, period, t)
    ensures Poll(task, Stamp(t)).1 <==> Cell(start, period, t) > Cell(start, period, last)
  {
    var k := Cell(start, period, last) + 1;
    var d := GridPoint(start, period, k);
    CellBounds(start, period, last);
    CellMonotone(start, period, last, t);
    GridPointPassed(start, period, k, t);
    ReachedNear(t, d);
    if t >= d {
      CatchUpIsNextGridPoint(start, period, k, t);
    }
  }

  function Firings(task: Task, polls: seq<int>): (r: seq<bool>)
    requires task.period > 0
    ensures |r| == |polls|
    decreases polls
  {
    if polls == [] then [] else
      var (next, fired) := Poll(task, Stamp(polls[0]));
      [fired] + Firings(next, polls[1..])
  }

  /** Firing exactly at the polls that lie in a later cell than the poll before them. */
  function GridCrossings(start: int, period: int, last: int, polls: seq<int>): seq<bool>
    requires period > 0 && start <= last && Polled(last, polls)
    decreases polls
  {
    if polls == [] then [] else
      [Cell(start, period, polls[0]) > Cell(start, period, last)]
      + GridCrossings(start, period, polls[0], polls[1..])
  }

  function Count(fired: seq<bool>): nat {
    if fired == [] then 0 else (if fired[0] then 1 else 0) + Count(fired[1..])
  }

  /** The distinct cells in which the task was polled, the cell of last included. */
  function CellsVisited(start: int, period: int, last: int, polls: seq<int>): set<nat>
    requires period > 0 && start <= last && Polled(last, polls)
    decreases polls
  {
    {Cell(start, period, last)} + (if polls == [] then {} else CellsVisited(start, period, polls[0], polls[1..]))
  }

  lemma {:induction false} CellsAreLater(start: int, period: int, last: int, polls: seq<int>)
    requires period > 0 && start <= last && Polled(last, polls)
    ensures forall c :: c in CellsVisited(start, period, last, polls) ==> c >= Cell(start, period, last)
    decreases polls
  {
    if polls != [] {
      CellMonotone(start, period, last, polls[0]);
      CellsAreLater(start, period, polls[0], polls[1..]);
    }
  }

  lemma {:induction false} FiringsFromGrid(task: Task, start: int, period: u32, last: int, polls: seq<int>)
    requires OnGrid(task, start, period, last) && Polled(last, polls)
    ensures Firings(task, polls) == GridCrossings(start, period, last, polls)
    decreases polls
  {
    if polls != [] {
      PollOnGrid(task, start, period, last, polls[0]);
      hide OnGrid, Poll;
      FiringsFromGrid(Poll(task, Stamp(polls[0])).0, start, period, polls[0], polls[1..]);
    }
  }

  lemma {:induction false} CrossingsCountCells(start: int, period: int, last: int, polls: seq<int>)
    requires period > 0 && start <= last && Polled(last, polls)
    ensures Count(GridCrossings(start, period, last, polls)) == |CellsVisited(start, period, last, polls)| - 1
    decreases polls
  {
    hide Cell;
    if polls != [] {
      CellMonotone(start, period, last, polls[0]);
      CrossingsCountCells(start, period, polls[0], polls[1..]);
      CellsAreLater(start, period, polls[0], polls[1..]);
      var later := CellsVisited(start, period, polls[0], polls[1..]);
      if Cell(start, period, polls[0]) == Cell(start, period, last) {
        assert {Cell(start, period, last)} + later == later;
      }
    }
  }

  /**
   * Over any polling history within the half-range, the 32-bit task fires at a poll exactly when a grid point
   * start + k * period has passed since the poll before, and the firings number the distinct cells polled in
   * after the first.
   */
  lemma FiringsAreGridCrossings(start: int, period: u32, polls: seq<int>)
    requires 0 < period <= HALF && Polled(start, polls)
    ensures Firings(NewTask(Stamp(start), period), polls) == GridCrossings(start, period, start, polls)
    ensures Count(Firings(NewTask(Stamp(start), period), polls)) == |CellsVisited(start, period, start, polls)| - 1
  {
    NewTaskOnGrid(start, period);
    FiringsFromGrid(NewTask(Stamp(start), period), start, period, start, polls);
    CrossingsCountCells(start, period, start, polls);
  }

  /** No poll is more than one cell after the poll before it. */
  predicate NoCellSkipped(start: int, period: int, last: int, polls: seq<int>)
    requires period > 0 && start <= last && Polled(last, polls)
    decreases polls
  {
    polls == [] ||
    (Cell(start, period, polls[0]) <= Cell(start, period, last) + 1 && NoCellSkipped(start, period, polls[0], polls[1..]))
  }

  lemma {:induction false} CrossingsAtMostElapsed(start: int, period: int, last: int, polls: seq<int>)
    requires period > 0 && start <= last && Polled(last, polls)
    ensures var end := if polls == [] then last else polls[|polls| - 1];
            && end >= start
            && Count(GridCrossings(start, period, last, polls)) <= Cell(start, period, end) - Cell(start, period, last)
            && (Count(GridCrossings(start, period, last, polls)) == Cell(start, period, end) - Cell(start, period, last)
                <==> NoCellSkipped(start, period, last, polls))
    decreases polls
  {
    if polls != [] {
      hide Cell;
      CellMonotone(start, period, last, polls[0]);
      CrossingsAtMostElapsed(start, period, polls[0], polls[1..]);
    }
  }

  /** The firings never exceed floor(elapsed / period), and reach it exactly when no cell is skipped. */
  lemma FiringRate(start: int, period: u32, polls: seq<int>)
    requires 0 < period <= HALF && Polled(start, polls) && polls != []
    ensures polls[|polls| - 1] >= start
    ensures var n := Count(Firings(NewTask(Stamp(start), period), polls));
            var whole := (polls[|polls| - 1] - start) / period;
            n <= whole && (n == whole <==> NoCellSkipped(start, period, start, polls))
  {
    hide Count, GridCrossings, Firings, NoCellSkipped, Polled, NewTask;
    FiringsAreGridCrossings(start, period, polls);
    CrossingsAtMostElapsed(start, period, start, polls);
    assert Cell(start, period, start) == 0;
  }
}
