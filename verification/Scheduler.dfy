/** Periodic transmission on the absolute grid of multiples of an interval. Times are real numbers. */
module Scheduler {

  function Power2(log: int): (r: real)
    ensures r > 0.0
    decreases if log < 0 then -log else log
  {
    if log == 0 then 1.0 else if log > 0 then 2.0 * Power2(log - 1) else Power2(log + 1) / 2.0
  }

  /** The grid slot a time lies in: slot k is [k * interval, (k + 1) * interval). */
  function Slot(t: real, interval: real): int
    requires interval > 0.0
  {
    (t / interval).Floor
  }

  function NextBoundary(now: real, interval: real): real
    requires interval > 0.0
  {
    (Slot(now, interval) + 1) as real * interval
  }

  lemma ScaleStrictly(a: real, b: real, m: real)
    requires a < b && m > 0.0
    ensures a * m < b * m
  {
  }

  lemma ScaleWeakly(a: real, b: real, m: real)
    requires a <= b && m > 0.0
    ensures a * m <= b * m
  {
  }

  lemma SlotBounds(t: real, interval: real)
    requires interval > 0.0
    ensures Slot(t, interval) as real * interval <= t < (Slot(t, interval) + 1) as real * interval
  {
    var q := t / interval;
    var lower, upper := Slot(t, interval) as real, (Slot(t, interval) + 1) as real;
    assert lower <= q < upper;
    assert q * interval == t;
    ScaleWeakly(lower, q, interval);
    ScaleStrictly(q, upper, interval);
    assert t < upper * interval;
  }

  lemma SlotNotBefore(t: real, interval: real, k: int)
    requires interval > 0.0 && Slot(t, interval) >= k
    ensures t >= k as real * interval
  {
    var start := Slot(t, interval) as real * interval;
    SlotBounds(t, interval);
    assert start <= t;
    ScaleWeakly(k as real, Slot(t, interval) as real, interval);
    assert k as real * interval <= start;
  }

  lemma SlotBefore(t: real, interval: real, k: int)
    requires interval > 0.0 && Slot(t, interval) + 1 <= k
    ensures t < k as real * interval
  {
    var end := (Slot(t, interval) + 1) as real * interval;
    SlotBounds(t, interval);
    assert t < end;
    ScaleWeakly((Slot(t, interval) + 1) as real, k as real, interval);
    assert end <= k as real * interval;
  }

  /** A time has reached the start of slot k exactly when its own slot has. */
  lemma SlotReaches(t: real, interval: real, k: int)
    requires interval > 0.0
    ensures t >= k as real * interval <==> Slot(t, interval) >= k
  {
    if Slot(t, interval) >= k {
      SlotNotBefore(t, interval, k);
    } else {
      SlotBefore(t, interval, k);
    }
  }

  lemma NextSlotStart(k: int, interval: real)
    ensures (k + 1) as real * interval == k as real * interval + interval
  {
  }

  datatype Sched = Sched(interval: real, deadline: real, skipped: nat) {
    predicate Due(now: real) {
      now >= deadline
    }

    /** More than half an interval late: the tick counts as skipped. */
    predicate Late(now: real) {
      now > deadline + interval / 2.0
    }

    function Advanced(now: real): Sched
      requires interval > 0.0
    {
      var boundary := NextBoundary(now, interval);
      if Late(now) then Sched(interval, boundary, skipped + 1)
      else if deadline + interval <= now then Sched(interval, boundary, skipped)
      else Sched(interval, deadline + interval, skipped)
    }

    function WaitTimeout(now: real): real {
      if deadline - now > 0.0 then deadline - now else 0.0
    }

    /** The deadline is where the slot after `reached` begins. */
    ghost predicate Reached(reached: int) {
      interval > 0.0 && deadline == (reached + 1) as real * interval
    }
  }

  function NewSched(logInterval: int, now: real): Sched {
    Sched(Power2(logInterval), NextBoundary(now, Power2(logInterval)), 0)
  }

  /** What advancing does on the grid: on to the slot of `now` when due, one slot further when not.
      The new deadline lies behind both the old one and `now`; due, it is the next boundary, at most
      an interval ahead; and the branch that catches up is never taken. */
  lemma AdvanceOnGrid(s: Sched, reached: int, now: real)
    requires s.Reached(reached)
    ensures s.Due(now) <==> Slot(now, s.interval) > reached
    ensures s.Advanced(now).Reached(if s.Due(now) then Slot(now, s.interval) else reached + 1)
    ensures s.Advanced(now).deadline > s.deadline && s.Advanced(now).deadline > now
    ensures s.Due(now) ==> s.Advanced(now).deadline == NextBoundary(now, s.interval) <= now + s.interval
    ensures !s.Late(now) ==> s.deadline + s.interval > now
  {
    SlotReaches(now, s.interval, reached + 1);
    SlotReaches(now, s.interval, reached + 2);
    SlotBounds(now, s.interval);
    NextSlotStart(reached + 1, s.interval);
    NextSlotStart(Slot(now, s.interval), s.interval);
  }

  /** Waiting that long, and no shorter, makes it due. */
  lemma WaitEndsWhenDue(s: Sched, now: real, wait: real)
    requires wait >= 0.0
    ensures s.WaitTimeout(now) >= 0.0
    ensures s.Due(now + wait) <==> wait >= s.WaitTimeout(now)
  {
  }

  lemma NewSchedOnGrid(logInterval: int, now: real)
    ensures NewSched(logInterval, now).Reached(Slot(now, Power2(logInterval)))
  {
  }

  // ---- Runs ----

  /** A turn of the transmit loop as one scheduler sees it: a poll that sends and advances when due,
      a poll whose send fails, or the realignment after the fault's backoff. */
  datatype Event = Poll(now: real) | FailedPoll(now: real) | Realign(now: real)

  function Next(s: Sched, e: Event): (s': Sched)
    requires s.interval > 0.0
    ensures s'.interval == s.interval
  {
    match e
    case Poll(now) => if s.Due(now) then s.Advanced(now) else s
    case FailedPoll(now) => s
    case Realign(now) => s.Advanced(now)
  }

  function After(s: Sched, es: seq<Event>): (s': Sched)
    requires s.interval > 0.0
    ensures s'.interval == s.interval
  {
    if es == [] then s else Next(After(s, es[..|es| - 1]), es[|es| - 1])
  }

  /** The reference: a count of slots, no deadlines. */
  function NextReached(reached: int, interval: real, e: Event): (r: int)
    requires interval > 0.0
    ensures r >= reached
  {
    var slot := Slot(e.now, interval);
    match e
    case Poll(_) => if slot > reached then slot else reached
    case FailedPoll(_) => reached
    case Realign(_) => if slot > reached then slot else reached + 1
  }

  function ReachedAfter(reached: int, interval: real, es: seq<Event>): (r: int)
    requires interval > 0.0
    ensures r >= reached
  {
    if es == [] then reached else NextReached(ReachedAfter(reached, interval, es[..|es| - 1]), interval, es[|es| - 1])
  }

  /** Over any run the deadline stands at the slot after the ones reached, so a poll is due
      exactly when it falls in a slot not yet reached. */
  lemma {:induction false} RunStaysOnGrid(s: Sched, reached: int, es: seq<Event>, now: real)
    requires s.Reached(reached)
    ensures After(s, es).Reached(ReachedAfter(reached, s.interval, es))
    ensures After(s, es).deadline >= s.deadline
    ensures After(s, es).Due(now) <==> Slot(now, s.interval) > ReachedAfter(reached, s.interval, es)
  {
    if es != [] {
      var before, e := es[..|es| - 1], es[|es| - 1];
      RunStaysOnGrid(s, reached, before, e.now);
      AdvanceOnGrid(After(s, before), ReachedAfter(reached, s.interval, before), e.now);
    }
    AdvanceOnGrid(After(s, es), ReachedAfter(reached, s.interval, es), now);
  }

  /** Event k of the run sends. */
  predicate Sends(s: Sched, es: seq<Event>, k: nat)
    requires s.interval > 0.0 && k < |es|
  {
    es[k].Poll? && After(s, es[..k]).Due(es[k].now)
  }

  lemma {:induction false} ReachedGrows(reached: int, interval: real, es: seq<Event>, i: nat, j: nat)
    requires interval > 0.0 && i <= j <= |es|
    ensures ReachedAfter(reached, interval, es[..i]) <= ReachedAfter(reached, interval, es[..j])
  {
    if i < j {
      ReachedGrows(reached, interval, es, i, j - 1);
      assert es[..j][..j - 1] == es[..j - 1];
    }
  }

  /** At most one send falls in a slot, and sends move forward on the grid, whatever the clock does. */
  lemma SendsMoveForward(s: Sched, reached: int, es: seq<Event>, i: nat, j: nat)
    requires s.Reached(reached) && i < j < |es|
    requires Sends(s, es, i) && Sends(s, es, j)
    ensures Slot(es[i].now, s.interval) < Slot(es[j].now, s.interval)
  {
    RunStaysOnGrid(s, reached, es[..i], es[i].now);
    RunStaysOnGrid(s, reached, es[..j], es[j].now);
    assert es[..i + 1][..i] == es[..i];
    ReachedGrows(reached, s.interval, es, i + 1, j);
  }

  /** Without faults, a poll sends exactly when no earlier poll, nor the start, lay in its slot or a later one. */
  lemma {:induction false} SendsExactlyInNewSlots(s: Sched, reached: int, es: seq<Event>, k: nat)
    requires s.Reached(reached) && k < |es| && forall i | 0 <= i < |es| :: es[i].Poll?
    ensures Sends(s, es, k) <==>
            reached < Slot(es[k].now, s.interval)
            && forall i | 0 <= i < k :: Slot(es[i].now, s.interval) < Slot(es[k].now, s.interval)
  {
    RunStaysOnGrid(s, reached, es[..k], es[k].now);
    ReachedIsHighestSlot(reached, s.interval, es[..k], Slot(es[k].now, s.interval));
    assert forall i | 0 <= i < k :: es[..k][i] == es[i];
  }

  lemma {:induction false} ReachedIsHighestSlot(reached: int, interval: real, es: seq<Event>, slot: int)
    requires interval > 0.0 && forall i | 0 <= i < |es| :: es[i].Poll?
    ensures ReachedAfter(reached, interval, es) < slot <==>
            reached < slot && forall i | 0 <= i < |es| :: Slot(es[i].now, interval) < slot
  {
    if es != [] {
      ReachedIsHighestSlot(reached, interval, es[..|es| - 1], slot);
    }
  }

  // ---- The object ----

  class PeriodicScheduler {
    const interval: real
    var deadline: real
    var skipped: nat
    ghost var reached: int

    ghost predicate Valid()
      reads this
    {
      View().Reached(reached)
    }

    function View(): Sched
      reads this
    {
      Sched(interval, deadline, skipped)
    }

    constructor (logInterval: int, now: real)
      ensures Valid() && View() == NewSched(logInterval, now)
    {
      interval := Power2(logInterval);
      deadline := NextBoundary(now, Power2(logInterval));
      skipped := 0;
      reached := Slot(now, Power2(logInterval));
      new;
      NewSchedOnGrid(logInterval, now);
    }

    function Due(now: real): bool
      reads this
    {
      now >= deadline
    }

    method Advance(now: real) returns (wasSkipped: bool)
      requires Valid()
      modifies this
      ensures Valid() && View() == old(View()).Advanced(now)
      ensures wasSkipped == old(View()).Late(now)
      ensures reached == (if old(View()).Due(now) then Slot(now, interval) else old(reached) + 1)
      ensures deadline > old(deadline) && deadline > now
    {
      AdvanceOnGrid(View(), reached, now);
      reached := if View().Due(now) then Slot(now, interval) else reached + 1;
      var boundary := NextBoundary(now, interval);
      wasSkipped := now > deadline + interval / 2.0;
      if wasSkipped {
        skipped := skipped + 1;
        deadline := boundary;
      } else {
        deadline := if deadline + interval <= now then boundary else deadline + interval;
      }
    }
  }
}
