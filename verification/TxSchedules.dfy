/** Whether the transmit thread's schedules are those of the configuration in force. */
module TxSchedules {
  import opened Timestamp
  import opened TxMachine
  import Scheduler
  import U = RuntimeUpdate

  /** Both schedulers run at the configured intervals. */
  predicate Current(s: State) {
    && s.announceSched.interval == Scheduler.Power2(s.shared.cfg.logAnnounceInterval)
    && s.syncSched.interval == Scheduler.Power2(s.shared.cfg.logSyncInterval)
  }

  /** The thread has built its first schedulers and read the generation they belong to. */
  predicate Started(tx: Tx) {
    !tx.Starting? && !tx.NeedGen?
  }

  /** It is not about to build new ones. */
  predicate Running(tx: Tx) {
    Started(tx) && !tx.Regen? && !tx.Resched?
  }

  /** No update is half done, and none has come since the thread last looked. */
  predicate UpToDate(s: State) {
    s.shared.lock.None? && s.gen == s.shared.intervalGen
  }

  /** If the thread thinks its schedules are the configured ones, they are. */
  ghost predicate FollowsConfig(s: State) {
    s.gen <= s.shared.intervalGen && (Running(s.tx) && UpToDate(s) ==> Current(s))
  }

  lemma SendKeepsSchedules(s: State, t: PTPTimestamp, ok: bool)
    requires s.tx.Sending?
    ensures var r := SendNext(s, s.tx.kind, s.tx.c, s.tx.stage, t, ok);
            && r.announceSched == s.announceSched && r.syncSched == s.syncSched && r.gen == s.gen && r.shared == s.shared
            && Running(r.tx)
  {
  }

  /** Outside a send the thread keeps the intervals and the generation, but for noticing a new one and
      building schedules for it. */
  predicate KeepsSchedules(s: State, r: State) {
    && r.shared == s.shared && Started(r.tx)
    && r.gen == (if s.tx.Regen? then s.shared.intervalGen else s.gen)
    && (r.tx.Regen? ==> s.tx.Top? && s.gen != s.shared.intervalGen)
    && (r.tx.Resched? <==> s.tx.Regen?)
    && (if s.tx.Resched? then Current(r)
        else r.announceSched.interval == s.announceSched.interval && r.syncSched.interval == s.syncSched.interval)
  }

  lemma BeginningKeepsSchedules(s: State, now: real, t: PTPTimestamp)
    requires AboutToSend(s.tx)
    ensures KeepsSchedules(s, LoopNext(s, now, t))
  {
  }

  lemma TurningKeepsSchedules(s: State, now: real, t: PTPTimestamp)
    requires Started(s.tx) && !s.tx.Sending? && !AboutToSend(s.tx)
    ensures KeepsSchedules(s, LoopNext(s, now, t))
  {
  }

  lemma LoopKeepsSchedules(s: State, now: real, t: PTPTimestamp)
    requires Started(s.tx) && !s.tx.Sending?
    ensures KeepsSchedules(s, LoopNext(s, now, t))
  {
    if AboutToSend(s.tx) {
      BeginningKeepsSchedules(s, now, t);
    } else {
      TurningKeepsSchedules(s, now, t);
    }
  }

  lemma StepFollowsConfig(s: State, e: Step)
    requires FollowsConfig(s) && Started(s.tx)
    ensures FollowsConfig(Next(s, e)) && Started(Next(s, e).tx)
  {
    match e
    case TxStep(now, t, ok) =>
      if s.tx.Sending? {
        SendKeepsSchedules(s, t, ok);
      } else {
        LoopKeepsSchedules(s, now, t);
      }
    case Update(u) =>
    case Stop =>
  }

  lemma {:induction false} FollowsFrom(ss: seq<State>, es: seq<Step>, m: nat, n: nat)
    requires IsRun(ss, es) && m <= n <= |es| && FollowsConfig(ss[m]) && Started(ss[m].tx)
    ensures FollowsConfig(ss[n]) && Started(ss[n].tx)
    decreases n
  {
    if m < n {
      FollowsFrom(ss, es, m, n - 1);
      assert Follows(ss, es, n - 1);
      StepFollowsConfig(ss[n - 1], es[n - 1]);
    }
  }

  /** At the moment the thread first reads the generation. */
  predicate ReadsGen(ss: seq<State>, es: seq<Step>, m: nat)
    requires |ss| == |es| + 1 && m < |es|
  {
    ss[m].tx.NeedGen? && es[m].TxStep?
  }

  /** The schedules built just before are still right, or an update is half done and will be noticed. */
  predicate ReadInTime(s: State) {
    Current(s) || s.shared.lock.Some?
  }

  /** From then on the schedules follow the configuration exactly if, at that moment, both intervals are
      still those they were built with or an update holds the lock. */
  lemma SchedulesFollowConfigIff(ss: seq<State>, es: seq<Step>, m: nat)
    requires IsRun(ss, es) && m < |es| && ReadsGen(ss, es, m)
    ensures ReadInTime(ss[m]) <==> forall n | m < n <= |es| :: FollowsConfig(ss[n])
  {
    assert Follows(ss, es, m);
    if ReadInTime(ss[m]) {
      forall n | m < n <= |es|
        ensures FollowsConfig(ss[n])
      {
        FollowsFrom(ss, es, m + 1, n);
      }
    } else {
      assert !FollowsConfig(ss[m + 1]);
    }
  }

  // ---- What is missed, and for how long ----

  /** No update has been completed since the thread read this generation, and it still runs the schedules
      of before. */
  predicate Missed(s: State, gen: nat, announce: real, sync: real) {
    && s.gen == gen && Running(s.tx)
    && s.announceSched.interval == announce && s.syncSched.interval == sync
  }

  ghost predicate MissedSoFar(s: State, start: State) {
    && Started(s.tx) && s.gen <= s.shared.intervalGen
    && start.shared.intervalGen <= s.shared.intervalGen
    && if s.shared.intervalGen == start.shared.intervalGen then
         && Missed(s, start.shared.intervalGen, start.announceSched.interval, start.syncSched.interval)
         && (s.shared.lock.None? ==> s.shared.cfg == start.shared.cfg)
       else FollowsConfig(s)
  }

  lemma StepMisses(s: State, e: Step, start: State)
    requires MissedSoFar(s, start)
    ensures MissedSoFar(Next(s, e), start)
  {
    match e
    case TxStep(now, t, ok) =>
      if s.tx.Sending? {
        SendKeepsSchedules(s, t, ok);
      } else {
        LoopKeepsSchedules(s, now, t);
      }
    case Update(u) =>
    case Stop =>
  }

  lemma {:induction false} MissedUntil(ss: seq<State>, es: seq<Step>, m: nat, n: nat)
    requires IsRun(ss, es) && m < n <= |es| && ReadsGen(ss, es, m) && ss[m].shared.lock.None?
    ensures MissedSoFar(ss[n], ss[m])
    decreases n
  {
    assert Follows(ss, es, n - 1);
    if m + 1 < n {
      MissedUntil(ss, es, m, n - 1);
      StepMisses(ss[n - 1], es[n - 1], ss[m]);
    }
  }

  /** Otherwise the thread goes on with the intervals it was built with, and as if it were up to date,
      until the next update is completed, and from then on the schedules follow the configuration. */
  lemma MissedUntilNextUpdate(ss: seq<State>, es: seq<Step>, m: nat, n: nat)
    requires IsRun(ss, es) && m < n <= |es| && ReadsGen(ss, es, m) && !ReadInTime(ss[m])
    ensures if ss[n].shared.intervalGen == ss[m].shared.intervalGen then
              && Missed(ss[n], ss[m].shared.intervalGen, ss[m].announceSched.interval, ss[m].syncSched.interval)
              && (FollowsConfig(ss[n]) <==> ss[n].shared.lock.Some?)
            else FollowsConfig(ss[n])
  {
    MissedUntil(ss, es, m, n);
  }

  /** Updates that keep both intervals are never missed, wherever they come. */
  lemma OnlyIntervalsAreMissed(ss: seq<State>, es: seq<Step>, b: nat, m: nat)
    requires IsRun(ss, es) && b < m < |es| && ss[b].tx.Starting? && es[b].TxStep? && ReadsGen(ss, es, m)
    requires forall k | b < k < m :: SameIntervals(ss[k], ss[k + 1])
    ensures ReadInTime(ss[m])
  {
    assert Follows(ss, es, b);
    BuiltStays(ss, es, b + 1, m);
  }

  predicate SameIntervals(s: State, r: State) {
    && s.shared.cfg.logAnnounceInterval == r.shared.cfg.logAnnounceInterval
    && s.shared.cfg.logSyncInterval == r.shared.cfg.logSyncInterval
  }

  lemma {:induction false} BuiltStays(ss: seq<State>, es: seq<Step>, b: nat, m: nat)
    requires IsRun(ss, es) && b <= m < |es| && ss[b].tx.NeedGen? && ss[m].tx.NeedGen? && Current(ss[b])
    requires forall k | b <= k < m :: SameIntervals(ss[k], ss[k + 1])
    ensures Current(ss[m])
    decreases m
  {
    if b < m {
      assert Follows(ss, es, m - 1);
      if ss[m - 1].tx.NeedGen? {
        BuiltStays(ss, es, b, m - 1);
        assert SameIntervals(ss[m - 1], ss[m]);
      } else {
        NeverBack(ss, es, b, m - 1);
      }
    }
  }

  /** The thread is started once. */
  lemma {:induction false} NeverBack(ss: seq<State>, es: seq<Step>, b: nat, m: nat)
    requires IsRun(ss, es) && b <= m <= |es| && ss[b].tx.NeedGen?
    ensures ss[m].tx.NeedGen? || Started(ss[m].tx)
    decreases m
  {
    if b < m {
      NeverBack(ss, es, b, m - 1);
      assert Follows(ss, es, m - 1);
      var s, e := ss[m - 1], es[m - 1];
      if Started(s.tx) && e.TxStep? {
        if s.tx.Sending? {
          SendKeepsSchedules(s, e.t, e.ok);
        } else {
          LoopKeepsSchedules(s, e.now, e.t);
        }
      }
    }
  }

  /** A sync interval of 1/8 s halved by a call that falls between the two is such a case. */
  lemma UpdateDuringStartIsMissed(s: State, now: real, t: PTPTimestamp)
    requires Initial(s) && s.shared.cfg.logSyncInterval == -3
    ensures var built := Next(s, TxStep(now, t, true));
            var updated := built.(shared := U.Call(s.shared, 0, [U.SetLogSyncInterval(-4)]));
            var r := Next(updated, TxStep(now, t, true));
            && updated.tx.NeedGen? && !ReadInTime(updated)
            && r.shared.cfg.logSyncInterval == -4 && r.syncSched.interval == 0.125
            && !FollowsConfig(r) && Next(r, TxStep(now, t, true)).tx.Pausing?
  {
    var patch := [U.SetLogSyncInterval(-4)];
    assert patch[..0] == [];
    assert U.Patched(s.shared.cfg, patch) == s.shared.cfg.(logSyncInterval := -4);
    U.CallAppliesOrRejects(s.shared, s.shared.cfg, 0, patch);
    assert Scheduler.Power2(-3) == Scheduler.Power2(-2) / 2.0 && Scheduler.Power2(-4) == Scheduler.Power2(-3) / 2.0;
    assert Scheduler.Power2(-2) == Scheduler.Power2(-1) / 2.0 && Scheduler.Power2(-1) == Scheduler.Power2(0) / 2.0;
  }
}
