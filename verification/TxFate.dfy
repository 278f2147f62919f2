/** Which configurations end the transmit thread. */
module TxFate {
  import opened Timestamp
  import opened Config
  import Scheduler
  import opened TxMachine
  import opened TxAlone
  import R = TxRuns

  /** Its Announces can be built, and the gap before its Follow_Ups can be waited for. */
  predicate Harmless(cfg: MasterConfig, waitLimit: real) {
    AnnounceFieldsFit(cfg) && (cfg.twoStep ==> !GapTooLong(cfg, waitLimit))
  }

  // ---- Harmless ones never do ----

  ghost predicate Alive(s: State, waitLimit: real) {
    && s.waitLimit == waitLimit && !s.tx.Dead?
    && (s.tx.Sending? || s.tx.Gap? ==> Harmless(s.tx.c.cfg, waitLimit))
  }

  lemma SendStaysAlive(s: State, start: MasterConfig, t: PTPTimestamp, ok: bool, waitLimit: real)
    requires Contents(s, start) && Alive(s, waitLimit) && s.tx.Sending?
    ensures Alive(SendNext(s, s.tx.kind, s.tx.c, s.tx.stage, t, ok), waitLimit)
  {
    R.SendDiesOfUnfitAnnounce(s, start, t, ok);
  }

  lemma LoopStaysAlive(s: State, now: real, t: PTPTimestamp, waitLimit: real)
    requires TxFits(s.tx) && Alive(s, waitLimit) && !s.tx.Sending? && Harmless(s.shared.cfg, waitLimit)
    ensures Alive(LoopNext(s, now, t), waitLimit)
  {
  }

  /** Whatever else happens, the thread lives while every configuration in force is harmless. */
  lemma {:induction false} HarmlessConfigurationsKeepItAlive(ss: seq<State>, es: seq<Step>, n: nat)
    requires IsRun(ss, es) && n <= |es| && forall k | 0 <= k < n :: Harmless(ss[k].shared.cfg, ss[0].waitLimit)
    ensures Alive(ss[n], ss[0].waitLimit)
  {
    if n > 0 {
      HarmlessConfigurationsKeepItAlive(ss, es, n - 1);
      R.RunKeeps(ss, es, n - 1);
      assert Follows(ss, es, n - 1);
      var s, e := ss[n - 1], es[n - 1];
      if e.TxStep? {
        if s.tx.Sending? {
          SendStaysAlive(s, ss[0].shared.cfg, e.t, e.ok, ss[0].waitLimit);
        } else {
          LoopStaysAlive(s, e.now, e.t, ss[0].waitLimit);
        }
      }
    }
  }

  // ---- Any other does, at its first Announce or after its first Sync ----

  /** The states of a run from s, one after the other. */
  function StatesOf(s: State, es: seq<Step>): (ss: seq<State>)
    ensures |ss| == |es| + 1 && ss[0] == s
    decreases es
  {
    if es == [] then [s] else [s] + StatesOf(Next(s, es[0]), es[1..])
  }

  function Ran(s: State, es: seq<Step>): State {
    StatesOf(s, es)[|es|]
  }

  lemma {:induction false} StatesFollow(s: State, es: seq<Step>, n: nat)
    requires n < |es|
    ensures Follows(StatesOf(s, es), es, n)
    decreases n
  {
    if n > 0 {
      StatesFollow(Next(s, es[0]), es[1..], n - 1);
      assert Follows(StatesOf(Next(s, es[0]), es[1..]), es[1..], n - 1);
    }
  }

  lemma StatesAreARun(s: State, es: seq<Step>)
    requires Initial(s)
    ensures IsRun(StatesOf(s, es), es)
  {
    forall n | 0 <= n < |es|
      ensures Follows(StatesOf(s, es), es, n)
    {
      StatesFollow(s, es, n);
    }
  }

  /** The thread alone, all sends succeeding, can bring s to r. */
  ghost predicate Reaches(s: State, r: State) {
    exists es: seq<Step> :: Undisturbed(es) && Ran(s, es) == r
  }

  ghost predicate Undisturbed(es: seq<Step>) {
    forall k | 0 <= k < |es| :: es[k].TxStep? && es[k].ok
  }

  lemma {:induction false} RanTogether(s: State, a: seq<Step>, b: seq<Step>)
    ensures Ran(s, a + b) == Ran(Ran(s, a), b)
    decreases a
  {
    if a == [] {
      assert a + b == b;
    } else {
      RanTogether(Next(s, a[0]), a[1..], b);
      assert (a + b)[1..] == a[1..] + b;
    }
  }

  lemma ReachesOn(s: State, r: State, q: State)
    requires Reaches(s, r) && Reaches(r, q)
    ensures Reaches(s, q)
  {
    var a :| Undisturbed(a) && Ran(s, a) == r;
    var b :| Undisturbed(b) && Ran(r, b) == q;
    RanTogether(s, a, b);
    assert Undisturbed(a + b);
  }

  lemma ReachesNext(s: State, r: State, now: real, t: PTPTimestamp)
    requires Reaches(s, r)
    ensures Reaches(s, TxNext(r, now, t, true))
  {
    var e := TxStep(now, t, true);
    assert StatesOf(r, [e]) == [r, Next(r, e)];
    assert Undisturbed([e]) && Ran(r, [e]) == Next(r, e);
    ReachesOn(s, r, Next(r, e));
  }

  lemma ReachesItself(s: State)
    ensures Reaches(s, s)
  {
    assert Undisturbed([]) && Ran(s, []) == s;
  }

  lemma {:induction false} ReachesSendAlone(s: State, r: State, now: real, t: PTPTimestamp, n: nat)
    requires Reaches(s, r)
    ensures Reaches(s, SendAlone(r, t, true, n))
    decreases n
  {
    if n > 0 && r.tx.Sending? {
      ReachesNext(s, r, now, t);
      ReachesSendAlone(s, TxNext(r, now, t, true), now, t, n - 1);
    }
  }

  lemma ReachesTransmitted(s: State, r: State, now: real, t: PTPTimestamp)
    requires Reaches(s, r) && r.tx.Sending? && r.tx.stage.NeedSource?
    ensures Reaches(s, Transmitted(r, r.tx.kind, r.tx.c, t, true))
  {
    ReachesSendAlone(s, r, now, t, 5);
    TransmittedIsTheThreadAlone(r, r.tx.kind, r.tx.c, t, true);
    assert r.(tx := Sending(r.tx.kind, r.tx.c, NeedSource)) == r;
  }

  /** On its way with this configuration, nobody having interfered. */
  ghost predicate Going(s: State, r: State) {
    && Reaches(s, r) && r.shared == s.shared && r.waitLimit == s.waitLimit && r.mac == s.mac && !r.stopping
    && 0 <= r.seqAnnounce < 0x1_0000 && 0 <= r.seqSync < 0x1_0000
  }

  /** One step on, outside a send. */
  lemma GoesOn(s: State, r: State, now: real, t: PTPTimestamp)
    requires Going(s, r) && !r.tx.Sending?
    ensures Going(s, LoopNext(r, now, t))
  {
    ReachesNext(s, r, now, t);
    assert TxNext(r, now, t, true) == LoopNext(r, now, t);
    LoopIdles(r, now, t);
  }

  /** A whole message on. */
  lemma GoesPastSend(s: State, r: State, t: PTPTimestamp) returns (q: State)
    requires Going(s, r) && r.tx.Sending? && r.tx.stage.NeedSource? && r.shared.cfg.Valid() && |r.mac| == 6
    requires ContextFits(r.tx.c) && (r.tx.kind.AnnounceMsg? ==> AnnounceFieldsFit(r.tx.c.cfg))
    ensures Going(s, q) && q == CountedNext(r.(trace := q.trace), r.tx.kind, r.tx.c, t)
    ensures |q.trace| == |r.trace| + 1 && q.trace[..|r.trace|] == r.trace
    ensures q.trace[|r.trace|] == AttemptOf(r, r.tx.kind, r.tx.c, q.trace[|r.trace|].frame, true)
  {
    ReachesTransmitted(s, r, 0.0, t);
    TransmittedOnTheWire(r, r.tx.kind, r.tx.c, t, true);
    q := Transmitted(r, r.tx.kind, r.tx.c, t, true);
  }

  lemma ComesToTop(s: State, t: PTPTimestamp) returns (r: State)
    requires Initial(s)
    ensures Going(s, r) && r.tx.Top? && r.gen == r.shared.intervalGen && r.trace == []
    ensures r.announceSched == Scheduler.NewSched(s.shared.cfg.logAnnounceInterval, 0.0)
    ensures r.syncSched == Scheduler.NewSched(s.shared.cfg.logSyncInterval, 0.0) && r.syncReached == SlotOf(r.syncSched, 0.0)
  {
    ReachesItself(s);
    r := LoopNext(s, 0.0, t);
    GoesOn(s, s, 0.0, t);
    GoesOn(s, r, 0.0, t);
    r := LoopNext(r, 0.0, t);
  }

  /** Up to where the first Announce and the first Sync are due. */
  lemma ComesToAnnounce(s: State, t: PTPTimestamp) returns (r: State)
    requires Initial(s)
    ensures Going(s, r) && r.tx.AnnounceTime? && r.announceSched.Due(r.tx.now) && r.syncSched.Due(r.tx.now)
  {
    r := ComesToTop(s, t);
    GoesOn(s, r, 0.0, t);
    r := LoopNext(r, 0.0, t);
    var due := if r.announceSched.deadline > r.syncSched.deadline then r.announceSched.deadline else r.syncSched.deadline;
    GoesOn(s, r, due, t);
    r := LoopNext(r, due, t);
  }

  /** Up to its first Announce in hand. */
  lemma ComesToSendAnnounce(s: State, t: PTPTimestamp) returns (r: State)
    requires Initial(s)
    ensures Going(s, r) && r.tx.Sending? && r.tx.kind.AnnounceMsg? && r.tx.stage.NeedSource?
    ensures ContextFits(r.tx.c) && r.tx.c.cfg == s.shared.cfg && r.syncSched.Due(r.tx.c.now)
  {
    r := ComesToAnnounce(s, t);
    GoesOn(s, r, 0.0, t);
    r := LoopNext(r, 0.0, t);
  }

  lemma DiesAtAnnounce(s: State, t: PTPTimestamp) returns (r: State)
    requires Initial(s) && !AnnounceFieldsFit(s.shared.cfg)
    ensures Reaches(s, r) && r.tx.Dead?
  {
    r := ComesToSendAnnounce(s, t);
    ReachesTransmitted(s, r, 0.0, t);
    BuildReads(AnnounceMsg, r.tx.c, r.shared.cfg, r.shared.port);
    r := Transmitted(r, r.tx.kind, r.tx.c, t, true);
  }

  /** Up to where its first Announce has gone out. */
  lemma ComesPastAnnounce(s: State, t: PTPTimestamp) returns (r: State)
    requires Initial(s) && AnnounceFieldsFit(s.shared.cfg)
    ensures Going(s, r) && r.tx.AnnounceDone? && r.syncSched.Due(r.tx.now)
  {
    r := ComesToSendAnnounce(s, t);
    r := GoesPastSend(s, r, t);
  }

  /** Up to its first Sync in hand. */
  lemma ComesToSendSync(s: State, t: PTPTimestamp) returns (r: State)
    requires Initial(s) && AnnounceFieldsFit(s.shared.cfg)
    ensures Going(s, r) && r.tx.Sending? && r.tx.kind.SyncMsg? && r.tx.stage.NeedSource?
    ensures ContextFits(r.tx.c) && r.tx.c.cfg == s.shared.cfg
  {
    r := ComesPastAnnounce(s, t);
    GoesOn(s, r, 0.0, t);
    r := LoopNext(r, 0.0, t);
    GoesOn(s, r, 0.0, t);
    r := LoopNext(r, 0.0, t);
  }

  lemma DiesInGap(s: State, t: PTPTimestamp) returns (r: State)
    requires Initial(s) && AnnounceFieldsFit(s.shared.cfg) && s.shared.cfg.twoStep && GapTooLong(s.shared.cfg, s.waitLimit)
    ensures Reaches(s, r) && r.tx.Dead?
  {
    r := ComesToSendSync(s, t);
    r := GoesPastSend(s, r, t);
    GoesOn(s, r, 0.0, t);
    r := LoopNext(r, 0.0, t);
  }

  ghost predicate CanDie(s: State) {
    exists r :: Reaches(s, r) && r.tx.Dead?
  }

  /** Left alone with one configuration the thread can die exactly when that is not harmless, although
      validate() accepts it. */
  lemma DiesIffNotHarmless(s: State, t: PTPTimestamp)
    requires Initial(s)
    ensures CanDie(s) <==> !Harmless(s.shared.cfg, s.waitLimit)
  {
    if !AnnounceFieldsFit(s.shared.cfg) {
      var r := DiesAtAnnounce(s, t);
    } else if !Harmless(s.shared.cfg, s.waitLimit) {
      var r := DiesInGap(s, t);
    } else if r :| Reaches(s, r) && r.tx.Dead? {
      var es :| Undisturbed(es) && Ran(s, es) == r;
      StatesAreARun(s, es);
      AloneKeepsConfiguration(s, es, |es|);
      HarmlessConfigurationsKeepItAlive(StatesOf(s, es), es, |es|);
      assert false;
    }
  }

  lemma {:induction false} AloneKeepsConfiguration(s: State, es: seq<Step>, n: nat)
    requires Undisturbed(es) && n <= |es|
    ensures forall k | 0 <= k <= n :: StatesOf(s, es)[k].shared == s.shared
  {
    if n > 0 {
      AloneKeepsConfiguration(s, es, n - 1);
      StatesFollow(s, es, n - 1);
      StepKeepsShared(StatesOf(s, es)[n - 1], es[n - 1]);
    }
  }

  lemma StepKeepsShared(s: State, e: Step)
    requires e.TxStep?
    ensures Next(s, e).shared == s.shared
  {
    if s.tx.Sending? {
      assert SendNext(s, s.tx.kind, s.tx.c, s.tx.stage, e.t, e.ok).shared == s.shared;
    }
  }

  /** Such as any valid configuration with a gap a second beyond what can be waited for. */
  lemma ValidDoesNotMeanHarmless(cfg: MasterConfig, waitLimit: real)
    requires cfg.Valid() && waitLimit >= 30.0
    ensures var bad := cfg.(twoStep := true, followUpGapMs := (waitLimit + 1.0) * 1000.0);
            bad.Valid() && !Harmless(bad, waitLimit)
  {
  }
}
