/** The transmit thread on the grid: over whole runs, with faults and reschedules, at most one Announce
    and one Sync go out in a slot. */
module TxGrid {
  import opened Outcomes
  import opened Octets
  import opened Timestamp
  import opened Scheduler
  import opened TxMachine

  // ---- Slots of what has gone out ----

  /** Two messages of one kind that went out on one grid, in order: the later slot is later. */
  predicate Rises(a: Attempt, b: Attempt) {
    a.kind == b.kind && !a.kind.FollowUpMsg? && a.ok && b.ok && a.interval == b.interval ==> a.slot < b.slot
  }

  predicate RisesAt(trace: seq<Attempt>, i: nat, j: nat)
    requires i < |trace| && j < |trace|
  {
    Rises(trace[i], trace[j])
  }

  ghost predicate Rising(trace: seq<Attempt>) {
    forall i, j | 0 <= i < j < |trace| :: RisesAt(trace, i, j)
  }

  /** What has gone out on this grid lies in slots up to this one. */
  predicate UpTo(trace: seq<Attempt>, k: nat, kind: Kind, interval: real, slot: int)
    requires k < |trace|
  {
    var e := trace[k];
    e.kind == kind && e.ok && e.interval == interval ==> e.slot <= slot
  }

  ghost predicate AllUpTo(trace: seq<Attempt>, kind: Kind, interval: real, slot: int) {
    forall k | 0 <= k < |trace| :: UpTo(trace, k, kind, interval, slot)
  }

  lemma UpToLater(trace: seq<Attempt>, kind: Kind, interval: real, slot: int, later: int)
    requires AllUpTo(trace, kind, interval, slot) && slot <= later
    ensures AllUpTo(trace, kind, interval, later)
  {
    forall k | 0 <= k < |trace|
      ensures UpTo(trace, k, kind, interval, later)
    {
      assert UpTo(trace, k, kind, interval, slot);
    }
  }

  lemma UpToGrows(trace: seq<Attempt>, e: Attempt, kind: Kind, interval: real, slot: int)
    requires AllUpTo(trace, kind, interval, slot) && (e.kind == kind && e.ok && e.interval == interval ==> e.slot <= slot)
    ensures AllUpTo(trace + [e], kind, interval, slot)
  {
    forall k | 0 <= k < |trace + [e]|
      ensures UpTo(trace + [e], k, kind, interval, slot)
    {
      assert k < |trace| ==> UpTo(trace, k, kind, interval, slot);
    }
  }

  lemma RisingGrows(trace: seq<Attempt>, e: Attempt, slot: int)
    requires Rising(trace) && AllUpTo(trace, e.kind, e.interval, slot)
    requires e.ok && !e.kind.FollowUpMsg? ==> slot < e.slot
    ensures Rising(trace + [e])
  {
    var more := trace + [e];
    forall i, j | 0 <= i < j < |more|
      ensures RisesAt(more, i, j)
    {
      if j < |trace| {
        assert RisesAt(trace, i, j);
      } else {
        assert UpTo(trace, i, e.kind, e.interval, slot);
      }
    }
  }

  /** An attempt is filed under the slot of its own time. */
  predicate SlotIsTrue(trace: seq<Attempt>, k: nat)
    requires k < |trace|
  {
    trace[k].interval > 0.0 ==> trace[k].slot == Slot(trace[k].at, trace[k].interval)
  }

  ghost predicate SlotsAreTrue(trace: seq<Attempt>) {
    forall k | 0 <= k < |trace| :: SlotIsTrue(trace, k)
  }

  lemma SlotsStayTrue(trace: seq<Attempt>, e: Attempt)
    requires SlotsAreTrue(trace) && (e.interval > 0.0 ==> e.slot == Slot(e.at, e.interval))
    ensures SlotsAreTrue(trace + [e])
  {
    forall k | 0 <= k < |trace + [e]|
      ensures SlotIsTrue(trace + [e], k)
    {
      assert k < |trace| ==> SlotIsTrue(trace, k);
    }
  }

  /** By a certain time nothing can have gone out in a later slot than that time's. */
  lemma UpToNow(trace: seq<Attempt>, kind: Kind, interval: real, now: real)
    requires SlotsAreTrue(trace) && interval > 0.0 && forall k | 0 <= k < |trace| :: trace[k].at <= now
    ensures AllUpTo(trace, kind, interval, Slot(now, interval))
  {
    forall k | 0 <= k < |trace|
      ensures UpTo(trace, k, kind, interval, Slot(now, interval))
    {
      assert SlotIsTrue(trace, k);
      SlotsKeepOrder(trace[k].at, now, interval);
    }
  }

  lemma SlotsKeepOrder(a: real, b: real, interval: real)
    requires interval > 0.0 && a <= b
    ensures Slot(a, interval) <= Slot(b, interval)
  {
    SlotBounds(a, interval);
    SlotReaches(b, interval, Slot(a, interval));
  }

  // ---- Where the thread stands ----

  /** The time of an Announce that went out and is still to advance its scheduler. */
  function AnnounceOwed(s: State): Option<real> {
    match s.tx
    case Sending(kind, c, stage) => if kind.AnnounceMsg? && stage.Counting? then Some(c.now) else None
    case AnnounceDone(at) => Some(at)
    case _ => None
  }

  /** The same for a Sync; its Follow_Up may fail before it does. */
  function SyncOwed(s: State): Option<real> {
    match s.tx
    case Sending(kind, c, stage) =>
      if kind.FollowUpMsg? || (kind.SyncMsg? && stage.Counting?) then Some(c.now) else None
    case Gap(c) => Some(c.now)
    case SyncDone(at) => Some(at)
    case Faulted => LostFollowUp(s.trace)
    case BackingOff => LostFollowUp(s.trace)
    case _ => None
  }

  function LostFollowUp(trace: seq<Attempt>): Option<real> {
    if trace != [] && trace[|trace| - 1].kind.FollowUpMsg? then Some(trace[|trace| - 1].at) else None
  }

  /** A scheduler, what has gone out on it, and what it is owed. */
  ghost predicate OnGrid(x: Sched, reached: int, trace: seq<Attempt>, kind: Kind, owed: Option<real>) {
    && x.Reached(reached)
    && (owed.Some? ==> x.Due(owed.value))
    && AllUpTo(trace, kind, x.interval, if owed.Some? then SlotOf(x, owed.value) else reached)
  }

  ghost predicate AnnouncesOnGrid(s: State) {
    && OnGrid(s.announceSched, s.announceReached, s.trace, AnnounceMsg, AnnounceOwed(s))
    && (s.tx.Sending? && s.tx.kind.AnnounceMsg? ==> s.announceSched.Due(s.tx.c.now))
  }

  ghost predicate SyncsOnGrid(s: State) {
    && OnGrid(s.syncSched, s.syncReached, s.trace, SyncMsg, SyncOwed(s))
    && (s.tx.Sending? && s.tx.kind.SyncMsg? ==> s.syncSched.Due(s.tx.c.now))
  }

  /** The thread has stopped, or will before it sends again, or will build new schedules first. */
  predicate Through(s: State) {
    || s.tx.Stopped? || s.tx.Dead? || s.tx.Regen? || s.tx.Resched?
    || ((s.tx.Top? || s.tx.BackingOff?) && s.gen != s.shared.intervalGen)
    || (s.stopping && (s.tx.Top? || s.tx.Pausing? || s.tx.BackingOff?))
  }

  ghost predicate Gridded(s: State) {
    && s.gen <= s.shared.intervalGen
    && if s.tx.Starting? then s.trace == [] && s.gen == 0
       else Rising(s.trace) && SlotsAreTrue(s.trace) && (Through(s) || (AnnouncesOnGrid(s) && SyncsOnGrid(s)))
  }

  // ---- Advancing ----

  /** Advancing pays what is owed, whenever it reaches that slot. */
  lemma OnwardPays(x: Sched, reached: int, trace: seq<Attempt>, kind: Kind, owed: Option<real>, now: real)
    requires OnGrid(x, reached, trace, kind, owed)
    requires owed.Some? ==> SlotOf(x, owed.value) <= OnwardReached(x, reached, now)
    ensures OnGrid(Onward(x, now), OnwardReached(x, reached, now), trace, kind, None)
    ensures Onward(x, now).deadline > x.deadline && Onward(x, now).deadline > now
  {
    AdvanceOnGrid(x, reached, now);
    UpToLater(trace, kind, x.interval, if owed.Some? then SlotOf(x, owed.value) else reached,
              OnwardReached(x, reached, now));
  }

  lemma FreshOnGrid(logInterval: int, now: real, trace: seq<Attempt>, kind: Kind)
    requires AllUpTo(trace, kind, Power2(logInterval), Slot(now, Power2(logInterval)))
    ensures var x := NewSched(logInterval, now); OnGrid(x, SlotOf(x, now), trace, kind, None)
  {
    NewSchedOnGrid(logInterval, now);
  }

  // ---- What the clock may do ----

  /** Schedules rebuilt at this time lie beyond all that has gone out on their grids. */
  ghost predicate RebuildsAhead(s: State, now: real) {
    var a, b := Power2(s.shared.cfg.logAnnounceInterval), Power2(s.shared.cfg.logSyncInterval);
    AllUpTo(s.trace, AnnounceMsg, a, Slot(now, a)) && AllUpTo(s.trace, SyncMsg, b, Slot(now, b))
  }

  /** Schedules realigned at this time leave behind the slot of a Sync whose Follow_Up failed. */
  predicate RealignsAhead(s: State, now: real) {
    LostFollowUp(s.trace).Some? ==>
      SlotOf(s.syncSched, LostFollowUp(s.trace).value) <= OnwardReached(s.syncSched, s.syncReached, now)
  }

  /** The clock has not gone back behind a slot already served, where that matters: while the thread is to
      go on, when it rebuilds its schedules, and when it realigns those it keeps. */
  ghost predicate ClockHolds(s: State, now: real) {
    !s.stopping ==>
      && (s.tx.Resched? ==> RebuildsAhead(s, now))
      && (s.tx.BackingOff? && s.gen == s.shared.intervalGen ==> RealignsAhead(s, now))
  }

  /** A send of this kind goes out in a slot beyond all earlier ones; any other send is no matter. */
  lemma AttemptOnGrid(x: Sched, reached: int, trace: seq<Attempt>, kind: Kind, owed: Option<real>, e: Attempt)
    requires OnGrid(x, reached, trace, kind, owed)
    requires e.kind == kind ==> owed.None? && x.Due(e.at) && e.interval == x.interval && e.slot == SlotOf(x, e.at)
    ensures OnGrid(x, reached, trace + [e], kind, if e.kind == kind && e.ok then Some(e.at) else owed)
    ensures e.kind == kind ==> e.slot > reached
  {
    if e.kind == kind {
      AdvanceOnGrid(x, reached, e.at);
      if e.ok {
        UpToLater(trace, kind, x.interval, reached, e.slot);
        UpToGrows(trace, e, kind, x.interval, e.slot);
      } else {
        UpToGrows(trace, e, kind, x.interval, reached);
      }
    } else {
      UpToGrows(trace, e, kind, x.interval, if owed.Some? then SlotOf(x, owed.value) else reached);
    }
  }

  lemma AttemptKeepsGrid(s: State, frame: seq<octet>, ok: bool)
    requires s.tx.Sending? && s.tx.stage == HaveFrame(frame) && Gridded(s)
    ensures Gridded(SentNext(s, s.tx.kind, s.tx.c, frame, ok))
  {
    var e := AttemptOf(s, s.tx.kind, s.tx.c, frame, ok);
    AttemptOnGrid(s.announceSched, s.announceReached, s.trace, AnnounceMsg, AnnounceOwed(s), e);
    AttemptOnGrid(s.syncSched, s.syncReached, s.trace, SyncMsg, SyncOwed(s), e);
    SlotsStayTrue(s.trace, e);
    match s.tx.kind
    case AnnounceMsg => RisingGrows(s.trace, e, s.announceReached);
    case SyncMsg => RisingGrows(s.trace, e, s.syncReached);
    case FollowUpMsg => RisingFollowUp(s.trace, e);
  }

  lemma RisingFollowUp(trace: seq<Attempt>, e: Attempt)
    requires Rising(trace) && e.kind.FollowUpMsg?
    ensures Rising(trace + [e])
  {
    var more := trace + [e];
    forall i, j | 0 <= i < j < |more|
      ensures RisesAt(more, i, j)
    {
      assert j < |trace| ==> RisesAt(trace, i, j);
    }
  }

  lemma SendKeepsGrid(s: State, t: PTPTimestamp, ok: bool)
    requires s.tx.Sending? && Gridded(s)
    ensures Gridded(SendNext(s, s.tx.kind, s.tx.c, s.tx.stage, t, ok))
  {
    match s.tx.stage
    case HaveFrame(frame) => AttemptKeepsGrid(s, frame, ok);
    case _ => assert s.trace == SendNext(s, s.tx.kind, s.tx.c, s.tx.stage, t, ok).trace;
  }

  lemma StartingOnGrid(s: State, now: real)
    requires Gridded(s) && s.tx.Starting?
    ensures Gridded(Rescheduled(s, now, NeedGen))
  {
    FreshOnGrid(s.shared.cfg.logAnnounceInterval, now, s.trace, AnnounceMsg);
    FreshOnGrid(s.shared.cfg.logSyncInterval, now, s.trace, SyncMsg);
  }

  lemma ReschedulingKeepsGrid(s: State, now: real)
    requires Gridded(s) && s.tx.Resched? && ClockHolds(s, now)
    ensures Gridded(Rescheduled(s, now, Pausing))
  {
    if !s.stopping {
      FreshOnGrid(s.shared.cfg.logAnnounceInterval, now, s.trace, AnnounceMsg);
      FreshOnGrid(s.shared.cfg.logSyncInterval, now, s.trace, SyncMsg);
    }
  }

  lemma RealigningKeepsGrid(s: State, now: real)
    requires Gridded(s) && s.tx.BackingOff? && !s.stopping && ClockHolds(s, now)
    ensures Gridded(SyncAdvanced(AnnounceAdvanced(s, now), now).(tx := Top))
  {
    if s.gen == s.shared.intervalGen {
      OnwardPays(s.announceSched, s.announceReached, s.trace, AnnounceMsg, AnnounceOwed(s), now);
      OnwardPays(s.syncSched, s.syncReached, s.trace, SyncMsg, SyncOwed(s), now);
    }
  }

  lemma LoopKeepsGrid(s: State, now: real, t: PTPTimestamp)
    requires Gridded(s) && !s.tx.Sending? && ClockHolds(s, now)
    ensures Gridded(LoopNext(s, now, t))
  {
    match s.tx
    case Starting => StartingOnGrid(s, now);
    case Resched => ReschedulingKeepsGrid(s, now);
    case BackingOff => if !s.stopping { RealigningKeepsGrid(s, now); }
    case AnnounceDone(at) => AnnouncePaid(s, at);
    case SyncDone(at) => SyncPaid(s, at);
    case _ => IdleKeepsGrid(s, now, t);
  }

  lemma AnnouncePaid(s: State, at: real)
    requires Gridded(s) && s.tx == AnnounceDone(at)
    ensures Gridded(AnnounceAdvanced(s, at).(tx := SyncTime(at)))
  {
    OnwardPays(s.announceSched, s.announceReached, s.trace, AnnounceMsg, AnnounceOwed(s), at);
  }

  lemma SyncPaid(s: State, at: real)
    requires Gridded(s) && s.tx == SyncDone(at)
    ensures Gridded(SyncAdvanced(s, at).(tx := Passed))
  {
    OnwardPays(s.syncSched, s.syncReached, s.trace, SyncMsg, SyncOwed(s), at);
  }

  lemma IdleKeepsGrid(s: State, now: real, t: PTPTimestamp)
    requires Gridded(s) && !s.tx.Sending? && !s.tx.Starting? && !s.tx.Resched? && !s.tx.BackingOff?
    requires !s.tx.AnnounceDone? && !s.tx.SyncDone?
    ensures Gridded(LoopNext(s, now, t))
  {
  }

  lemma StepKeepsGrid(s: State, e: Step)
    requires Gridded(s) && (e.TxStep? ==> ClockHolds(s, e.now))
    ensures Gridded(TxMachine.Next(s, e))
  {
    if e.TxStep? {
      if s.tx.Sending? {
        SendKeepsGrid(s, e.t, e.ok);
      } else {
        LoopKeepsGrid(s, e.now, e.t);
      }
    }
  }

  // ---- Whole runs ----

  ghost predicate ClockHoldsAt(ss: seq<State>, es: seq<Step>, n: nat)
    requires |ss| == |es| + 1 && n < |es|
  {
    es[n].TxStep? ==> ClockHolds(ss[n], es[n].now)
  }

  lemma {:induction false} RunStaysGridded(ss: seq<State>, es: seq<Step>, n: nat)
    requires IsRun(ss, es) && n <= |es| && forall m | 0 <= m < n :: ClockHoldsAt(ss, es, m)
    ensures Gridded(ss[n])
  {
    if n > 0 {
      RunStaysGridded(ss, es, n - 1);
      assert Follows(ss, es, n - 1) && ClockHoldsAt(ss, es, n - 1);
      StepKeepsGrid(ss[n - 1], es[n - 1]);
    }
  }

  /** Of the Announces, and of the Syncs, that go out on one interval's grid, no two share a slot, and
      later ones lie in later slots: through faults, realignments, lost Follow_Ups, and updates that
      rebuild the schedules, to other intervals and back; as long as the clock does not go back behind a
      slot already served just when the schedules are rebuilt or realigned. */
  lemma AtMostOneSendPerSlot(ss: seq<State>, es: seq<Step>, n: nat, i: nat, j: nat)
    requires IsRun(ss, es) && n <= |es| && i < j < |ss[n].trace|
    requires forall m | 0 <= m < n :: ClockHoldsAt(ss, es, m)
    requires var a, b := ss[n].trace[i], ss[n].trace[j];
             a.kind == b.kind && !a.kind.FollowUpMsg? && a.ok && b.ok && a.interval == b.interval
    ensures ss[n].trace[i].slot < ss[n].trace[j].slot
  {
    RunStaysGridded(ss, es, n);
    assert RisesAt(ss[n].trace, i, j);
  }

  // ---- A clock that does not go back ----

  ghost predicate Forward(es: seq<Step>) {
    forall i, j | 0 <= i < j < |es| && es[i].TxStep? && es[j].TxStep? :: es[i].now <= es[j].now
  }

  /** The time at which the thread found what it is about. */
  function TimeOf(tx: Tx): Option<real> {
    match tx
    case AnnounceTime(at) => Some(at)
    case Sending(_, c, _) => Some(c.now)
    case AnnounceDone(at) => Some(at)
    case SyncTime(at) => Some(at)
    case Gap(c) => Some(c.now)
    case SyncDone(at) => Some(at)
    case _ => None
  }

  /** Every time on record is at or before t. */
  ghost predicate TimesBelow(s: State, t: real) {
    && (forall k | 0 <= k < |s.trace| :: s.trace[k].at <= t)
    && (TimeOf(s.tx).Some? ==> TimeOf(s.tx).value <= t)
  }

  lemma SendKeepsTimes(s: State, clock: PTPTimestamp, ok: bool, t: real)
    requires TimesBelow(s, t) && s.tx.Sending?
    ensures TimesBelow(SendNext(s, s.tx.kind, s.tx.c, s.tx.stage, clock, ok), t)
  {
  }

  lemma LoopKeepsTimes(s: State, now: real, clock: PTPTimestamp, t: real)
    requires TimesBelow(s, t) && !s.tx.Sending? && now <= t
    ensures TimesBelow(LoopNext(s, now, clock), t)
  {
  }

  lemma StepKeepsTimes(s: State, e: Step, t: real)
    requires TimesBelow(s, t) && (e.TxStep? ==> e.now <= t)
    ensures TimesBelow(TxMachine.Next(s, e), t)
  {
    if e.TxStep? {
      if s.tx.Sending? {
        SendKeepsTimes(s, e.t, e.ok, t);
      } else {
        LoopKeepsTimes(s, e.now, e.t, t);
      }
    }
  }

  lemma {:induction false} TimesStayBelow(ss: seq<State>, es: seq<Step>, n: nat, m: nat)
    requires IsRun(ss, es) && Forward(es) && n <= m < |es| && es[m].TxStep?
    ensures TimesBelow(ss[n], es[m].now)
    decreases n
  {
    if n > 0 {
      TimesStayBelow(ss, es, n - 1, m);
      assert Follows(ss, es, n - 1);
      StepKeepsTimes(ss[n - 1], es[n - 1], es[m].now);
    }
  }

  lemma ForwardHolds(s: State, now: real)
    requires Gridded(s) && TimesBelow(s, now)
    ensures ClockHolds(s, now)
  {
    if s.tx.Resched? {
      UpToNow(s.trace, AnnounceMsg, Power2(s.shared.cfg.logAnnounceInterval), now);
      UpToNow(s.trace, SyncMsg, Power2(s.shared.cfg.logSyncInterval), now);
    }
    if s.tx.BackingOff? && !Through(s) && LostFollowUp(s.trace).Some? {
      SlotsKeepOrder(LostFollowUp(s.trace).value, now, s.syncSched.interval);
    }
  }

  /** A clock that never goes back holds throughout. */
  lemma {:induction false} ForwardClockHolds(ss: seq<State>, es: seq<Step>, n: nat)
    requires IsRun(ss, es) && Forward(es) && n <= |es|
    ensures Gridded(ss[n]) && forall m | 0 <= m < n :: ClockHoldsAt(ss, es, m)
  {
    if n > 0 {
      ForwardClockHolds(ss, es, n - 1);
      assert Follows(ss, es, n - 1);
      if es[n - 1].TxStep? {
        TimesStayBelow(ss, es, n - 1, n - 1);
        ForwardHolds(ss[n - 1], es[n - 1].now);
      }
      StepKeepsGrid(ss[n - 1], es[n - 1]);
    }
  }

  lemma AtMostOneSendPerSlotForward(ss: seq<State>, es: seq<Step>, n: nat, i: nat, j: nat)
    requires IsRun(ss, es) && Forward(es) && n <= |es| && i < j < |ss[n].trace|
    requires var a, b := ss[n].trace[i], ss[n].trace[j];
             a.kind == b.kind && !a.kind.FollowUpMsg? && a.ok && b.ok && a.interval == b.interval
    ensures ss[n].trace[i].slot < ss[n].trace[j].slot
  {
    ForwardClockHolds(ss, es, n);
    AtMostOneSendPerSlot(ss, es, n, i, j);
  }
}
