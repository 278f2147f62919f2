/** Why the clock must hold: where it does not, a second Announce or Sync can go out in one slot. */
module TxDoubles {
  import opened Outcomes
  import opened Octets
  import opened Timestamp
  import opened Config
  import opened Scheduler
  import opened TxMachine
  import opened TxAlone
  import opened TxFate
  import opened TxGrid
  import R = TxRuns
  import U = RuntimeUpdate

  predicate Doubled(trace: seq<Attempt>, i: nat, j: nat)
    requires i < j < |trace|
  {
    var a, b := trace[i], trace[j];
    a.kind == b.kind && !a.kind.FollowUpMsg? && a.ok && b.ok && a.interval == b.interval && a.slot == b.slot
  }

  /** Two messages of one kind, both sent, share a slot. */
  ghost predicate Doubles(trace: seq<Attempt>) {
    exists i: nat, j: nat | i < j < |trace| :: Doubled(trace, i, j)
  }

  // ---- What a scheduler takes for due again ----

  /** Realigned at `now`, a scheduler that was due at `at` is due there again exactly when the slot reached
      then is an earlier one: that of `now`, when it says due, and otherwise the next. */
  lemma LostFollowUpRepeatsIff(s: State, at: real, now: real, t: PTPTimestamp, ok: bool)
    requires s.tx.BackingOff? && !s.stopping && s.syncSched.Reached(s.syncReached) && s.syncSched.Due(at)
    ensures var r := TxMachine.Next(s, TxStep(now, t, ok));
            && SlotOf(r.syncSched, at) == SlotOf(s.syncSched, at)
            && (r.syncSched.Due(at) <==>
                  if s.syncSched.Due(now) then SlotOf(s.syncSched, now) < SlotOf(s.syncSched, at)
                  else s.syncReached + 1 < SlotOf(s.syncSched, at))
  {
    AdvanceOnGrid(s.syncSched, s.syncReached, now);
    AdvanceOnGrid(s.syncSched, s.syncReached, at);
    AdvanceOnGrid(Onward(s.syncSched, now), OnwardReached(s.syncSched, s.syncReached, now), at);
  }

  /** Rebuilt at `now`, one is due at `at` exactly when that lies in a later slot. */
  lemma RebuiltRepeatsIff(logInterval: int, now: real, at: real)
    ensures NewSched(logInterval, now).Due(at) <==> Slot(now, Power2(logInterval)) < Slot(at, Power2(logInterval))
  {
    NewSchedOnGrid(logInterval, now);
    AdvanceOnGrid(NewSched(logInterval, now), Slot(now, Power2(logInterval)), at);
  }

  // ---- A Sync still to be accounted for is on the wire ----

  predicate Sent(x: Attempt, kind: Kind, at: real, interval: real) {
    x.kind == kind && x.ok && x.at == at && x.interval == interval
  }

  ghost predicate OwedSent(s: State) {
    SyncOwed(s).Some? ==>
      exists k | 0 <= k < |s.trace| :: Sent(s.trace[k], SyncMsg, SyncOwed(s).value, s.syncSched.interval)
  }

  lemma AttemptKeepsOwed(s: State, frame: seq<octet>, ok: bool)
    requires s.tx.Sending? && s.tx.stage == HaveFrame(frame) && OwedSent(s)
    ensures OwedSent(SentNext(s, s.tx.kind, s.tx.c, frame, ok))
  {
    var e, r := AttemptOf(s, s.tx.kind, s.tx.c, frame, ok), SentNext(s, s.tx.kind, s.tx.c, frame, ok);
    if s.tx.kind.FollowUpMsg? {
      var k :| 0 <= k < |s.trace| && Sent(s.trace[k], SyncMsg, s.tx.c.now, s.syncSched.interval);
      assert r.trace[k] == s.trace[k];
    } else if s.tx.kind.SyncMsg? && ok {
      assert Sent(r.trace[|s.trace|], SyncMsg, s.tx.c.now, s.syncSched.interval);
    }
  }

  lemma StepKeepsOwed(s: State, e: Step)
    requires OwedSent(s)
    ensures OwedSent(TxMachine.Next(s, e))
  {
    if e.TxStep? {
      if s.tx.Sending? {
        match s.tx.stage
        case HaveFrame(frame) => AttemptKeepsOwed(s, frame, e.ok);
        case _ => assert s.trace == SendNext(s, s.tx.kind, s.tx.c, s.tx.stage, e.t, e.ok).trace;
      } else {
        LoopKeepsOwed(s, e.now, e.t);
      }
    }
  }

  lemma LoopKeepsOwed(s: State, now: real, t: PTPTimestamp)
    requires OwedSent(s) && !s.tx.Sending?
    ensures OwedSent(LoopNext(s, now, t))
  {
    LoopKeepsTrace(s, now, t);
    assert SyncOwed(LoopNext(s, now, t)).Some? ==> SyncOwed(LoopNext(s, now, t)) == SyncOwed(s);
  }

  lemma LoopKeepsTrace(s: State, now: real, t: PTPTimestamp)
    requires !s.tx.Sending?
    ensures LoopNext(s, now, t).trace == s.trace
    ensures !s.tx.Starting? && !s.tx.Resched? ==> LoopNext(s, now, t).syncSched.interval == s.syncSched.interval
  {
  }

  lemma StepKeepsSlots(s: State, e: Step)
    requires SlotsAreTrue(s.trace)
    ensures SlotsAreTrue(TxMachine.Next(s, e).trace)
  {
    if e.TxStep? && s.tx.Sending? && s.tx.stage.HaveFrame? {
      SlotsStayTrue(s.trace, AttemptOf(s, s.tx.kind, s.tx.c, s.tx.stage.frame, e.ok));
    } else {
      assert TxMachine.Next(s, e).trace == s.trace;
    }
  }

  /** What the argument needs of a state, whatever the clock did before. */
  ghost predicate Sane(s: State) {
    OwedSent(s) && SlotsAreTrue(s.trace) && s.shared.cfg.Valid() && |s.mac| == 6
    && 0 <= s.seqAnnounce < 0x1_0000 && 0 <= s.seqSync < 0x1_0000
  }

  lemma {:induction false} RunIsSane(ss: seq<State>, es: seq<Step>, n: nat)
    requires IsRun(ss, es) && n <= |es|
    ensures Sane(ss[n])
  {
    R.RunKeeps(ss, es, n);
    if n > 0 {
      RunIsSane(ss, es, n - 1);
      assert Follows(ss, es, n - 1);
      StepKeepsOwed(ss[n - 1], es[n - 1]);
      StepKeepsSlots(ss[n - 1], es[n - 1]);
    }
  }

  // ---- Sending in a given slot ----

  /** Waiting for a deadline, with nothing to keep the thread from sending. */
  ghost predicate Ready(p: State) {
    && p.tx.Pausing? && !p.stopping && p.shared.cfg.Valid() && |p.mac| == 6
    && 0 <= p.seqAnnounce < 0x1_0000 && 0 <= p.seqSync < 0x1_0000 && AnnounceFieldsFit(p.shared.cfg)
  }

  /** From p on, on the same Sync schedule. */
  ghost predicate Held(p: State, r: State) {
    && Going(p, r) && r.gen == p.gen && p.trace <= r.trace
    && r.syncSched == p.syncSched && r.syncReached == p.syncReached
  }

  /** Up to the question whether an Announce is due. */
  lemma ComesToAnnounceTime(p: State, at: real, t: PTPTimestamp) returns (r: State)
    requires Ready(p)
    ensures r == p.(tx := AnnounceTime(at)) && Held(p, r)
  {
    ReachesItself(p);
    GoesOn(p, p, at, t);
    r := LoopNext(p, at, t);
  }

  /** And, an Announce being due, to where it has gone out. */
  lemma SendsAnnounce(p: State, at: real, t: PTPTimestamp) returns (r: State)
    requires Ready(p) && p.announceSched.Due(at)
    ensures Held(p, r) && r.tx == AnnounceDone(at)
    ensures |r.trace| == |p.trace| + 1 && Sent(r.trace[|p.trace|], AnnounceMsg, at, p.announceSched.interval)
  {
    var q := ComesToAnnounceTime(p, at, t);
    GoesOn(p, q, at, t);
    r := LoopNext(q, at, t);
    r := GoesPastSend(p, r, t);
  }

  /** Up to the question whether a Sync is due. */
  lemma ComesToSync(p: State, at: real, t: PTPTimestamp) returns (r: State)
    requires Ready(p)
    ensures Held(p, r) && r.tx == SyncTime(at)
    ensures p.announceSched.Due(at) ==>
              |r.trace| == |p.trace| + 1 && Sent(r.trace[|p.trace|], AnnounceMsg, at, p.announceSched.interval)
  {
    var q: State;
    if p.announceSched.Due(at) {
      q := SendsAnnounce(p, at, t);
    } else {
      q := ComesToAnnounceTime(p, at, t);
    }
    GoesOn(p, q, at, t);
    r := LoopNext(q, at, t);
  }

  /** And up to where the Sync has gone out. */
  lemma SendsSync(p: State, at: real, t: PTPTimestamp) returns (r: State)
    requires Ready(p) && p.syncSched.Due(at)
    ensures Held(p, r) && |r.trace| > |p.trace| && Sent(r.trace[|r.trace| - 1], SyncMsg, at, p.syncSched.interval)
    ensures p.announceSched.Due(at) ==> Sent(r.trace[|p.trace|], AnnounceMsg, at, p.announceSched.interval)
    ensures if p.shared.cfg.twoStep then r.tx.Gap? && r.tx.c.now == at && r.tx.c.cfg == p.shared.cfg && ContextFits(r.tx.c)
            else r.tx == SyncDone(at)
  {
    var q := ComesToSync(p, at, t);
    GoesOn(p, q, at, t);
    r := LoopNext(q, at, t);
    r := GoesPastSend(p, r, t);
  }

  // ---- The two ways ----

  lemma DoublesWith(trace: seq<Attempt>, k: nat)
    requires SlotsAreTrue(trace) && k + 1 < |trace| && !trace[k].kind.FollowUpMsg? && trace[k].interval > 0.0
    requires var e := trace[k]; e.ok && Sent(trace[|trace| - 1], e.kind, e.at, e.interval)
    ensures Doubles(trace)
  {
    assert SlotIsTrue(trace, k) && SlotIsTrue(trace, |trace| - 1);
    assert Doubled(trace, k, |trace| - 1);
  }

  lemma {:induction false} AloneKeepsSlots(s: State, es: seq<Step>)
    requires SlotsAreTrue(s.trace)
    ensures SlotsAreTrue(Ran(s, es).trace)
    decreases es
  {
    if es != [] {
      StepKeepsSlots(s, es[0]);
      AloneKeepsSlots(TxMachine.Next(s, es[0]), es[1..]);
    }
  }

  lemma ReachedSlots(p: State, r: State)
    requires Reaches(p, r) && SlotsAreTrue(p.trace)
    ensures SlotsAreTrue(r.trace)
  {
    var es :| Undisturbed(es) && Ran(p, es) == r;
    AloneKeepsSlots(p, es);
  }

  ghost predicate CanDouble(s: State) {
    exists r :: Reaches(s, r) && Doubles(r.trace)
  }

  lemma AnnounceDoubles(p: State, k: nat, t: PTPTimestamp)
    requires Ready(p) && SlotsAreTrue(p.trace) && k < |p.trace| && p.trace[k].interval > 0.0
    requires Sent(p.trace[k], AnnounceMsg, p.trace[k].at, p.announceSched.interval) && p.announceSched.Due(p.trace[k].at)
    ensures CanDouble(p)
  {
    var r := ComesToSync(p, p.trace[k].at, t);
    ReachedSlots(p, r);
    DoublesWith(r.trace, k);
  }

  lemma SyncDoubles(p: State, k: nat, t: PTPTimestamp)
    requires Ready(p) && SlotsAreTrue(p.trace) && k < |p.trace| && p.trace[k].interval > 0.0
    requires Sent(p.trace[k], SyncMsg, p.trace[k].at, p.syncSched.interval) && p.syncSched.Due(p.trace[k].at)
    ensures CanDouble(p)
  {
    var r := SendsSync(p, p.trace[k].at, t);
    ReachedSlots(p, r);
    DoublesWith(r.trace, k);
  }

  /** Schedules rebuilt at a time behind a slot already served. */
  lemma RebuildingDoubles(s: State, e: Step, t: PTPTimestamp)
    requires Sane(s) && s.tx.Resched? && !s.stopping && e.TxStep? && !RebuildsAhead(s, e.now)
    requires AnnounceFieldsFit(s.shared.cfg)
    ensures CanDouble(TxMachine.Next(s, e))
  {
    var p, a, b := TxMachine.Next(s, e), s.shared.cfg.logAnnounceInterval, s.shared.cfg.logSyncInterval;
    if !AllUpTo(s.trace, AnnounceMsg, Power2(a), Slot(e.now, Power2(a))) {
      var k :| 0 <= k < |s.trace| && !UpTo(s.trace, k, AnnounceMsg, Power2(a), Slot(e.now, Power2(a)));
      assert SlotIsTrue(s.trace, k);
      RebuiltRepeatsIff(a, e.now, s.trace[k].at);
      AnnounceDoubles(p, k, t);
    } else {
      var k :| 0 <= k < |s.trace| && !UpTo(s.trace, k, SyncMsg, Power2(b), Slot(e.now, Power2(b)));
      assert SlotIsTrue(s.trace, k);
      RebuiltRepeatsIff(b, e.now, s.trace[k].at);
      SyncDoubles(p, k, t);
    }
  }

  /** Schedules realigned at a time that leaves the slot of a Sync still to come. */
  lemma RealigningDoubles(s: State, e: Step, t: PTPTimestamp)
    requires Sane(s) && s.tx.BackingOff? && !s.stopping && s.gen == s.shared.intervalGen && e.TxStep?
    requires s.syncSched.Reached(s.syncReached) && !RealignsAhead(s, e.now) && AnnounceFieldsFit(s.shared.cfg)
    ensures CanDouble(TxMachine.Next(s, e))
  {
    var u, at := TxMachine.Next(s, e), LostFollowUp(s.trace).value;
    var k :| 0 <= k < |s.trace| && Sent(s.trace[k], SyncMsg, at, s.syncSched.interval);
    var reached := OnwardReached(s.syncSched, s.syncReached, e.now);
    AdvanceOnGrid(s.syncSched, s.syncReached, e.now);
    AdvanceOnGrid(Onward(s.syncSched, e.now), reached, at);
    ReachesItself(u);
    GoesOn(u, u, e.now, t);
    var p := LoopNext(u, e.now, t);
    SyncDoubles(p, k, t);
    var r :| Reaches(p, r) && Doubles(r.trace);
    ReachesOn(u, p, r);
  }

  /** A run up to its n-th state, and from there with other steps. */
  function Continued(ss: seq<State>, n: nat, es: seq<Step>): seq<State>
    requires n < |ss|
  {
    ss[..n] + StatesOf(ss[n], es)
  }

  lemma ContinuedIsARun(ss: seq<State>, es: seq<Step>, n: nat, more: seq<Step>)
    requires IsRun(ss, es) && n <= |es|
    ensures IsRun(Continued(ss, n, more), es[..n] + more)
  {
    var qs, steps := Continued(ss, n, more), es[..n] + more;
    assert qs[0] == ss[0];
    forall k | 0 <= k < |steps|
      ensures Follows(qs, steps, k)
    {
      if k < n {
        assert Follows(ss, es, k) && qs[k] == ss[k] && qs[k + 1] == ss[k + 1];
      } else {
        StatesFollow(ss[n], more, k - n);
      }
    }
  }

  /** From the n-th state on the thread alone can make the run one in which a slot is served twice. */
  ghost predicate DoublesAfter(ss: seq<State>, es: seq<Step>, n: nat)
    requires n < |ss| && n <= |es|
  {
    exists more ::
      && Undisturbed(more) && IsRun(Continued(ss, n, more), es[..n] + more)
      && Doubles(Continued(ss, n, more)[n + |more|].trace)
  }

  lemma CanDoubleContinues(ss: seq<State>, es: seq<Step>, n: nat)
    requires IsRun(ss, es) && n <= |es| && CanDouble(ss[n])
    ensures DoublesAfter(ss, es, n)
  {
    var r :| Reaches(ss[n], r) && Doubles(r.trace);
    var more :| Undisturbed(more) && Ran(ss[n], more) == r;
    ContinuedIsARun(ss, es, n, more);
    assert Continued(ss, n, more)[n + |more|] == r;
  }

  lemma FailingDoubles(s: State, e: Step, t: PTPTimestamp)
    requires Sane(s) && Gridded(s) && e.TxStep? && !ClockHolds(s, e.now) && AnnounceFieldsFit(s.shared.cfg)
    ensures CanDouble(TxMachine.Next(s, e))
  {
    if s.tx.Resched? {
      RebuildingDoubles(s, e, t);
    } else {
      RealigningDoubles(s, e, t);
    }
  }

  /** In any run in which the clock has held so far, let it fail to hold at a step. Then, if the Announces
      of the configuration in force can be built, the thread left alone can go on to send two messages of
      one kind in one slot. */
  lemma ClockMustHold(ss: seq<State>, es: seq<Step>, n: nat, t: PTPTimestamp)
    requires IsRun(ss, es) && n < |es| && forall m | 0 <= m < n :: ClockHoldsAt(ss, es, m)
    requires !ClockHoldsAt(ss, es, n) && AnnounceFieldsFit(ss[n].shared.cfg)
    ensures DoublesAfter(ss, es, n + 1)
  {
    RunStaysGridded(ss, es, n);
    RunIsSane(ss, es, n);
    assert Follows(ss, es, n);
    FailingDoubles(ss[n], es[n], t);
    CanDoubleContinues(ss, es, n + 1);
  }

  // ---- Two such runs, from the start ----

  /** Every send succeeds, nobody stops the thread, and updates set priority1 and nothing else. */
  ghost predicate Mild(es: seq<Step>) {
    forall k | 0 <= k < |es| :: MildStep(es[k])
  }

  predicate MildStep(e: Step) {
    match e
    case TxStep(_, _, ok) => ok
    case Stop => false
    case Update(u) => u.Begin? ==> u.patch == [U.SetPriority1(5)]
  }

  /** Nobody else does anything. */
  ghost predicate OnlyThread(es: seq<Step>) {
    forall k | 0 <= k < |es| :: es[k].TxStep?
  }

  /** Where the thread first waits, its clock having said zero. */
  lemma ComesToPausing(s: State, t: PTPTimestamp) returns (p: State)
    requires Initial(s) && AnnounceFieldsFit(s.shared.cfg)
    ensures Going(s, p) && Ready(p) && p.trace == [] && p.gen == p.shared.intervalGen
    ensures p.announceSched == NewSched(s.shared.cfg.logAnnounceInterval, 0.0)
    ensures p.syncSched == NewSched(s.shared.cfg.logSyncInterval, 0.0) && p.syncReached == SlotOf(p.syncSched, 0.0)
  {
    p := ComesToTop(s, t);
    GoesOn(s, p, 0.0, t);
    p := LoopNext(p, 0.0, t);
  }

  /** A full turn of the loop with everything due and every send succeeding. */
  lemma ComesRound(p: State, at: real, t: PTPTimestamp) returns (r: State)
    requires Ready(p) && p.syncSched.Due(at) && p.announceSched.Due(at) && Harmless(p.shared.cfg, p.waitLimit)
    ensures Going(p, r) && r.tx.Top? && r.gen == p.gen && |r.trace| > |p.trace|
    ensures Sent(r.trace[|p.trace|], AnnounceMsg, at, p.announceSched.interval)
  {
    r := ComesToSyncDone(p, at, t);
    GoesOn(p, r, at, t);
    r := LoopNext(r, at, t);
    GoesOn(p, r, at, t);
    r := LoopNext(r, at, t);
  }

  lemma ComesToSyncDone(p: State, at: real, t: PTPTimestamp) returns (r: State)
    requires Ready(p) && p.syncSched.Due(at) && p.announceSched.Due(at) && Harmless(p.shared.cfg, p.waitLimit)
    ensures Going(p, r) && r.tx == SyncDone(at) && r.gen == p.gen && |r.trace| > |p.trace|
    ensures Sent(r.trace[|p.trace|], AnnounceMsg, at, p.announceSched.interval)
  {
    r := SendsSync(p, at, t);
    if p.shared.cfg.twoStep {
      GoesOn(p, r, at, t);
      r := LoopNext(r, at, t);
      r := GoesPastSend(p, r, t);
    }
  }

  /** A call that sets priority1 alone, step by step. */
  function Calls(u: nat, n: int): seq<Step> {
    var patch := [U.SetPriority1(n)];
    [Update(U.Begin(u, patch)), Update(U.Check(u)), Update(U.Store(u)), Update(U.Finish(u))]
  }

  lemma CallsUpdate(p: State, n: int)
    requires p.shared.cfg.Valid() && p.shared.callers == map[] && p.shared.lock == None
    ensures var shared := U.Call(p.shared, 0, [U.SetPriority1(n)]);
            && Ran(p, Calls(0, n)) == p.(shared := shared)
            && shared.cfg == p.shared.cfg.(priority1 := n) && shared.intervalGen == p.shared.intervalGen + 1
  {
    U.OneChange(p.shared.cfg, U.SetPriority1(n));
    U.CallAppliesOrRejects(p.shared, p.shared.cfg, 0, [U.SetPriority1(n)]);
    FourSteps(p, Calls(0, n));
  }

  lemma FourSteps(p: State, es: seq<Step>)
    requires |es| == 4
    ensures Ran(p, es) == TxMachine.Next(TxMachine.Next(TxMachine.Next(TxMachine.Next(p, es[0]), es[1]), es[2]), es[3])
  {
    OneStep(p, es[0], es[1..]);
    OneStep(TxMachine.Next(p, es[0]), es[1], es[2..]);
    OneStep(TxMachine.Next(TxMachine.Next(p, es[0]), es[1]), es[2], es[3..]);
    assert es == [es[0]] + es[1..] && es[1..] == [es[1]] + es[2..] && es[2..] == [es[2]] + es[3..] && es[3..] == [es[3]];
  }

  lemma OneStep(p: State, e: Step, es: seq<Step>)
    ensures Ran(p, [e] + es) == Ran(TxMachine.Next(p, e), es)
  {
    assert ([e] + es)[1..] == es;
  }

  /** Waiting after an update, the thread goes round and comes to rebuild its schedules. */
  lemma ComesToRebuild(v: State, at: real, t: PTPTimestamp) returns (r: State)
    requires Ready(v) && v.syncSched.Due(at) && v.announceSched.Due(at) && Harmless(v.shared.cfg, v.waitLimit)
    requires v.gen != v.shared.intervalGen
    ensures Going(v, r) && r.tx.Resched? && |r.trace| > |v.trace|
    ensures Sent(r.trace[|v.trace|], AnnounceMsg, at, v.announceSched.interval)
  {
    r := ComesRound(v, at, t);
    GoesOn(v, r, at, t);
    r := LoopNext(r, at, t);
    GoesOn(v, r, at, t);
    r := LoopNext(r, at, t);
  }

  /** About to rebuild, with an Announce of the interval to be built for behind it: the clock must not be
      back at zero. */
  ghost predicate RebuildTrap(r: State) {
    var a := r.shared.cfg.logAnnounceInterval;
    && r.tx.Resched? && !r.stopping && AnnounceFieldsFit(r.shared.cfg) && r.trace != []
    && Sent(r.trace[0], AnnounceMsg, r.trace[0].at, Power2(a)) && NewSched(a, 0.0).Due(r.trace[0].at)
  }

  lemma RebuildTrapDoubles(r: State, t: PTPTimestamp)
    requires Sane(r) && RebuildTrap(r)
    ensures CanDouble(TxMachine.Next(r, TxStep(0.0, t, true)))
  {
    var a := r.shared.cfg.logAnnounceInterval;
    RebuiltRepeatsIff(a, 0.0, r.trace[0].at);
    assert SlotIsTrue(r.trace, 0) && !UpTo(r.trace, 0, AnnounceMsg, Power2(a), Slot(0.0, Power2(a)));
    RebuildingDoubles(r, TxStep(0.0, t, true), t);
  }

  lemma StepsTo(s: State, r: State) returns (es: seq<Step>)
    requires Reaches(s, r)
    ensures Undisturbed(es) && Ran(s, es) == r
  {
    es :| Undisturbed(es) && Ran(s, es) == r;
  }

  lemma UpdatedIsReady(p: State) returns (v: State)
    requires Ready(p) && Harmless(p.shared.cfg, p.waitLimit) && p.gen == p.shared.intervalGen
    requires p.shared.callers == map[] && p.shared.lock == None
    ensures Ran(p, Calls(0, 5)) == v && Ready(v) && Harmless(v.shared.cfg, v.waitLimit) && v.gen != v.shared.intervalGen
    ensures v.announceSched == p.announceSched && v.syncSched == p.syncSched && v.trace == p.trace
    ensures v.shared.cfg.logAnnounceInterval == p.shared.cfg.logAnnounceInterval
  {
    CallsUpdate(p, 5);
    v := Ran(p, Calls(0, 5));
  }

  lemma ComesToRebuildTrap(v: State, t: PTPTimestamp) returns (r: State)
    requires Ready(v) && Harmless(v.shared.cfg, v.waitLimit) && v.gen != v.shared.intervalGen && v.trace == []
    requires v.announceSched == NewSched(v.shared.cfg.logAnnounceInterval, 0.0)
    ensures Reaches(v, r) && RebuildTrap(r)
  {
    var at := if v.announceSched.deadline > v.syncSched.deadline then v.announceSched.deadline else v.syncSched.deadline;
    r := ComesToRebuild(v, at, t);
  }

  /** A run of this kind, up to a state where the clock must hold and a step where it does not, can go on
      to serve a slot twice. */
  lemma RunsOnToDouble(s: State, es: seq<Step>, e: Step) returns (qs: seq<Step>)
    requires Initial(s) && e.TxStep? && e.ok && CanDouble(TxMachine.Next(Ran(s, es), e))
    ensures IsRun(StatesOf(s, qs), qs) && Doubles(Ran(s, qs).trace)
    ensures Mild(es) ==> Mild(qs)
    ensures OnlyThread(es) ==> OnlyThread(qs)
  {
    RunsOn(s, es, e);
    var r :| Reaches(TxMachine.Next(Ran(s, es), e), r) && Doubles(r.trace);
    var more := StepsTo(Ran(s, es + [e]), r);
    RanTogether(s, es + [e], more);
    qs := es + [e] + more;
    StatesAreARun(s, qs);
    UndisturbedIsMild(more);
  }

  lemma RanIsSane(s: State, es: seq<Step>)
    requires Initial(s)
    ensures Sane(Ran(s, es))
  {
    StatesAreARun(s, es);
    RunIsSane(StatesOf(s, es), es, |es|);
  }

  lemma MildTogether(a: seq<Step>, b: seq<Step>)
    requires Mild(a) && Mild(b)
    ensures Mild(a + b)
  {
  }

  lemma UndisturbedIsMild(es: seq<Step>)
    requires Undisturbed(es)
    ensures Mild(es)
  {
  }

  /** Updated while it waits for its first deadline. */
  lemma ComesToUpdated(s: State, t: PTPTimestamp) returns (es: seq<Step>, v: State)
    requires Initial(s) && Harmless(s.shared.cfg, s.waitLimit)
    ensures Mild(es) && Ran(s, es) == v && Ready(v) && Harmless(v.shared.cfg, v.waitLimit)
    ensures v.gen != v.shared.intervalGen && v.trace == []
    ensures v.announceSched == NewSched(v.shared.cfg.logAnnounceInterval, 0.0)
  {
    var p := ComesToPausing(s, t);
    var one := StepsTo(s, p);
    v := UpdatedIsReady(p);
    RanTogether(s, one, Calls(0, 5));
    UndisturbedIsMild(one);
    MildTogether(one, Calls(0, 5));
    es := one + Calls(0, 5);
  }

  lemma UpdateSetsTheTrap(s: State, t: PTPTimestamp) returns (es: seq<Step>)
    requires Initial(s) && Harmless(s.shared.cfg, s.waitLimit)
    ensures Mild(es) && RebuildTrap(Ran(s, es))
  {
    var one, v := ComesToUpdated(s, t);
    var r := ComesToRebuildTrap(v, t);
    var two := StepsTo(v, r);
    RanTogether(s, one, two);
    UndisturbedIsMild(two);
    MildTogether(one, two);
    es := one + two;
  }

  /** From any harmless configuration: priority1 is updated, and when that is noticed the clock has gone
      back; all sends succeed. */
  lemma RebuildCanDouble(s: State, t: PTPTimestamp) returns (es: seq<Step>)
    requires Initial(s) && Harmless(s.shared.cfg, s.waitLimit)
    ensures IsRun(StatesOf(s, es), es) && Mild(es) && Doubles(Ran(s, es).trace)
  {
    var start := UpdateSetsTheTrap(s, t);
    RanIsSane(s, start);
    RebuildTrapDoubles(Ran(s, start), t);
    es := RunsOnToDouble(s, start, TxStep(0.0, t, true));
  }

  lemma RunsOn(s: State, es: seq<Step>, e: Step)
    ensures Ran(s, es + [e]) == TxMachine.Next(Ran(s, es), e)
  {
    RanTogether(s, es, [e]);
    OneStep(Ran(s, es), e, []);
    assert [e] + [] == [e];
  }

  // ---- And with a Follow_Up that fails ----

  /** Up to where the Follow_Up of a Sync has failed. */
  lemma ComesToBackOff(p: State, at: real, t: PTPTimestamp) returns (es: seq<Step>, r: State)
    requires Ready(p) && p.syncSched.Due(at) && p.shared.cfg.twoStep && Harmless(p.shared.cfg, p.waitLimit)
    ensures OnlyThread(es) && Ran(p, es) == r && r.tx.BackingOff? && !r.stopping && r.shared == p.shared && r.gen == p.gen
    ensures r.syncSched == p.syncSched && r.syncReached == p.syncReached && LostFollowUp(r.trace) == Some(at)
  {
    var q := SendsSync(p, at, t);
    GoesOn(p, q, at, t);
    q := LoopNext(q, at, t);
    var one :| Undisturbed(one) && Ran(p, one) == q;
    var two := FailsToSend(q, t);
    RanTogether(p, one, two);
    es := one + two;
    r := Ran(p, es);
    var e := TxStep(at, t, true);
    RunsOn(p, es, e);
    es, r := es + [e], TxMachine.Next(r, e);
  }

  lemma FailsToSend(q: State, t: PTPTimestamp) returns (es: seq<Step>)
    requires q.tx.Sending? && q.tx.stage.NeedSource? && q.tx.kind.FollowUpMsg? && ContextFits(q.tx.c)
    requires q.shared.cfg.Valid() && |q.mac| == 6
    ensures OnlyThread(es) && var r := Ran(q, es);
            && r == q.(trace := r.trace, tx := Faulted) && LostFollowUp(r.trace) == Some(q.tx.c.now)
  {
    es := FailingAlone(q, t, 5);
    TransmittedIsTheThreadAlone(q, q.tx.kind, q.tx.c, t, false);
    assert q.(tx := Sending(q.tx.kind, q.tx.c, NeedSource)) == q;
    TransmittedOnTheWire(q, q.tx.kind, q.tx.c, t, false);
  }

  lemma {:induction false} FailingAlone(q: State, t: PTPTimestamp, n: nat) returns (es: seq<Step>)
    ensures OnlyThread(es) && Ran(q, es) == SendAlone(q, t, false, n)
    decreases n
  {
    if n == 0 || !q.tx.Sending? {
      es := [];
    } else {
      var e := TxStep(0.0, t, false);
      var more := FailingAlone(TxMachine.Next(q, e), t, n - 1);
      OneStep(q, e, more);
      es := [e] + more;
    }
  }

  /** Backing off after a Follow_Up whose Sync went out two slots on: the clock must not be back at zero. */
  ghost predicate RealignTrap(r: State) {
    && r.tx.BackingOff? && !r.stopping && r.gen == r.shared.intervalGen && AnnounceFieldsFit(r.shared.cfg)
    && r.syncSched.Reached(r.syncReached) && !RealignsAhead(r, 0.0)
  }

  lemma ComesToRealignTrap(p: State, t: PTPTimestamp) returns (es: seq<Step>)
    requires Ready(p) && Harmless(p.shared.cfg, p.waitLimit) && p.shared.cfg.twoStep && p.gen == p.shared.intervalGen
    requires p.syncSched == NewSched(p.shared.cfg.logSyncInterval, 0.0) && p.syncReached == SlotOf(p.syncSched, 0.0)
    ensures OnlyThread(es) && RealignTrap(Ran(p, es))
  {
    TwoSlotsOn(p.shared.cfg.logSyncInterval);
    var r: State;
    es, r := ComesToBackOff(p, 2.0 * p.syncSched.interval, t);
  }

  lemma LostFollowUpSetsTheTrap(s: State, t: PTPTimestamp) returns (es: seq<Step>)
    requires Initial(s) && Harmless(s.shared.cfg, s.waitLimit) && s.shared.cfg.twoStep
    ensures OnlyThread(es) && RealignTrap(Ran(s, es))
  {
    var p := ComesToPausing(s, t);
    var one := StepsTo(s, p);
    var two := ComesToRealignTrap(p, t);
    RanTogether(s, one, two);
    es := one + two;
  }

  /** From any harmless configuration in two-step mode: nobody updates it, a Sync goes out two slots late,
      its Follow_Up fails, and after the wait the clock is back where it began. */
  lemma LostFollowUpCanDouble(s: State, t: PTPTimestamp) returns (es: seq<Step>)
    requires Initial(s) && Harmless(s.shared.cfg, s.waitLimit) && s.shared.cfg.twoStep
    ensures IsRun(StatesOf(s, es), es) && OnlyThread(es) && Doubles(Ran(s, es).trace)
  {
    var start := LostFollowUpSetsTheTrap(s, t);
    RanIsSane(s, start);
    RealigningDoubles(Ran(s, start), TxStep(0.0, t, true), t);
    es := RunsOnToDouble(s, start, TxStep(0.0, t, true));
  }

  lemma TwoSlotsOn(logInterval: int)
    ensures var x := NewSched(logInterval, 0.0);
            && SlotOf(x, 0.0) == 0 && x.Reached(0) && !x.Due(0.0)
            && x.Due(2.0 * x.interval) && SlotOf(x, 2.0 * x.interval) >= 2
  {
    var interval := Power2(logInterval);
    SlotReaches(0.0, interval, 0);
    SlotReaches(0.0, interval, 1);
    SlotReaches(2.0 * interval, interval, 2);
    NewSchedOnGrid(logInterval, 0.0);
  }
}
