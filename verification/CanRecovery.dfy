// Bus-off recovery of app/can_recovery.c: when the CAN controller is reinitialised.
module CanRecovery {
  import opened WrapTime

  datatype Recovery = Recovery(active: bool, retryAt: u32)

  const START := Recovery(false, 0)

  function Step(s: Recovery, busOff: bool, now: u32, retry: u32): (Recovery, bool) {
    if !busOff then (Recovery(false, 0), false)
    else if !s.active then (Recovery(true, Plus(now, retry)), false)
    else if Reached(now, s.retryAt) then (s.(retryAt := Plus(now, retry)), true)
    else (s, false)
  }

  class CanRecoveryState {
    var active: bool
    var retryAtMs: u32

    ghost function View(): Recovery
      reads this
    {
      Recovery(active, retryAtMs)
    }

    constructor ()
      ensures View() == START
    {
      active, retryAtMs := false, 0;
    }

    method RecoveryStep(busOff: bool, now: u32, retry: u32) returns (reinit: bool)
      modifies this
      ensures (View(), reinit) == Step(old(View()), busOff, now, retry)
    {
      if !busOff {
        active, retryAtMs := false, 0;
        return false;
      }
      if !active {
        active, retryAtMs := true, Plus(now, retry);
        return false;
      }
      if Reached(now, retryAtMs) {
        retryAtMs := Plus(now, retry);
        return true;
      }
      return false;
    }
  }

  // ---------------------------------------------------------------- polling histories in true time

  datatype Poll = Poll(busOff: bool, time: int)

  /** The state before poll i of a history. */
  function StateBefore(h: seq<Poll>, retry: u32, i: nat): Recovery
    requires i <= |h|
  {
    if i == 0 then START
    else Step(StateBefore(h, retry, i - 1), h[i - 1].busOff, Stamp(h[i - 1].time), retry).0
  }

  /** Whether the controller is reinitialised at poll i. */
  predicate Reinit(h: seq<Poll>, retry: u32, i: nat)
    requires i < |h|
  {
    Step(StateBefore(h, retry, i), h[i].busOff, Stamp(h[i].time), retry).1
  }

  /** Polls in order of true time, each less than 2^31 after the one before it. */
  predicate Timely(h: seq<Poll>) {
    forall i :: 0 < i < |h| ==> h[i - 1].time <= h[i].time < h[i - 1].time + HALF
  }

  /**
   * The poll the retry time runs from, while the bus is off at poll i: the latest poll up to i that
   * either saw the bus go off or reinitialised the controller.
   */
  function Anchor(h: seq<Poll>, retry: u32, i: nat): (a: nat)
    requires i < |h| && h[i].busOff
    ensures a <= i
    ensures forall k :: a <= k <= i ==> h[k].busOff
    ensures forall k :: a < k <= i ==> !Reinit(h, retry, k)
    ensures a == 0 || !h[a - 1].busOff || Reinit(h, retry, a)
  {
    if i == 0 || !h[i - 1].busOff || Reinit(h, retry, i) then i else Anchor(h, retry, i - 1)
  }

  lemma {:induction false} TimeOrder(h: seq<Poll>, i: nat, j: nat)
    requires Timely(h) && i <= j < |h|
    ensures h[i].time <= h[j].time
  {
    if i < j {
      TimeOrder(h, i, j - 1);
    }
  }

  /** The stored deadline is the anchor's time plus the retry time, and has not passed unseen. */
  lemma {:induction false} DeadlineFollowsAnchor(h: seq<Poll>, retry: u32, i: nat)
    requires Timely(h) && retry <= HALF && i < |h|
    ensures var s := StateBefore(h, retry, i + 1);
            if h[i].busOff then
              var a := Anchor(h, retry, i);
              && s.active && s.retryAt == Stamp(h[a].time + retry)
              && (a == i || h[i].time < h[a].time + retry)
            else !s.active
  {
    hide Stamp, Plus, Reached;
    PlusIsTrue(h[i].time, retry);
    if i > 0 {
      assert h[i - 1].time <= h[i].time < h[i - 1].time + HALF;
      hide Timely;
      DeadlineFollowsAnchor(h, retry, i - 1);
      if h[i].busOff && h[i - 1].busOff {
        var a := Anchor(h, retry, i - 1);
        TimeOrder(h, a, i - 1);
        ReachedNear(h[i].time, h[a].time + retry);
      }
    }
  }

  /** The bus was off at the poll before and still is, and the retry time has run since the anchor. */
  ghost predicate ReinitDue(h: seq<Poll>, retry: u32, i: nat)
    requires i < |h|
  {
    i > 0 && h[i - 1].busOff && h[i].busOff && h[i].time - h[Anchor(h, retry, i - 1)].time >= retry
  }

  /**
   * A reinit happens at a poll exactly when the bus was already off at the poll before, is still off, and the
   * retry time has run since it went off or was last reinitialised.
   */
  lemma ReinitExactly(h: seq<Poll>, retry: u32, i: nat)
    requires Timely(h) && retry <= HALF && i < |h|
    ensures Reinit(h, retry, i) <==> ReinitDue(h, retry, i)
  {
    hide Stamp, Plus, Reached;
    if i > 0 {
      assert h[i - 1].time <= h[i].time < h[i - 1].time + HALF;
      hide StateBefore, Anchor, Timely;
      DeadlineFollowsAnchor(h, retry, i - 1);
      if h[i].busOff && h[i - 1].busOff {
        var a := Anchor(h, retry, i - 1);
        TimeOrder(h, a, i - 1);
        ReachedNear(h[i].time, h[a].time + retry);
      }
    }
  }

  /** Before a reinit the bus was off at every poll for at least the retry time. */
  lemma ReinitOnlyAfterRetryTime(h: seq<Poll>, retry: u32, i: nat) returns (a: nat)
    requires Timely(h) && retry <= HALF && i < |h| && Reinit(h, retry, i)
    ensures a < i && h[i].time - h[a].time >= retry
    ensures forall k :: a <= k <= i ==> h[k].busOff
    ensures forall k :: a < k < i ==> !Reinit(h, retry, k)
    ensures a == 0 || !h[a - 1].busOff || Reinit(h, retry, a)
  {
    ReinitExactly(h, retry, i);
    a := Anchor(h, retry, i - 1);
  }

  /** Two consecutive reinits of one bus-off episode, polled at most g apart, are between retry and retry + g apart. */
  lemma ReinitSpacing(h: seq<Poll>, retry: u32, g: int, i: nat, j: nat)
    requires Timely(h) && retry <= HALF && i < j < |h|
    requires Reinit(h, retry, i) && Reinit(h, retry, j)
    requires forall k :: i < k < j ==> h[k].busOff && !Reinit(h, retry, k)
    requires h[j].time - h[j - 1].time <= g
    ensures retry <= h[j].time - h[i].time <= retry + g
  {
    hide Reinit, Anchor;
    ReinitExactly(h, retry, i);
    ReinitExactly(h, retry, j);
    AnchorAtReinit(h, retry, i, j - 1);
    if i < j - 1 {
      ReinitExactly(h, retry, j - 1);
      AnchorAtReinit(h, retry, i, j - 2);
    }
  }

  lemma {:induction false} AnchorAtReinit(h: seq<Poll>, retry: u32, i: nat, j: nat)
    requires i <= j < |h|
    requires Reinit(h, retry, i)
    requires forall k :: i < k <= j ==> h[k].busOff && !Reinit(h, retry, k)
    ensures h[j].busOff && Anchor(h, retry, j) == i
  {
    if i < j {
      AnchorAtReinit(h, retry, i, j - 1);
    }
  }

  /** While the bus stays off, the controller is never left alone for retry + g: some poll in between reinitialises it. */
  lemma ReinitNeverOverdue(h: seq<Poll>, retry: u32, i: nat)
    requires Timely(h) && retry <= HALF && i < |h| && h[i].busOff
    ensures var a := Anchor(h, retry, i); a == i || h[i].time - h[a].time < retry
  {
    DeadlineFollowsAnchor(h, retry, i);
  }
}
