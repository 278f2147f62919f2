/** What every run of the transmit thread keeps. */
module TxRuns {
  import opened Octets
  import opened Timestamp
  import opened Config
  import opened TxMachine

  // ---- Each Follow_Up follows its Sync ----

  /** A Sync that went out with the two-step bit set, and a Follow_Up with its sequence id. */
  predicate Pairs(sync: Attempt, followUp: Attempt) {
    && sync.kind.SyncMsg? && sync.ok && sync.twoStep
    && followUp.kind.FollowUpMsg? && followUp.seqId == sync.seqId
  }

  predicate Follows(trace: seq<Attempt>, k: nat)
    requires k < |trace|
  {
    trace[k].kind.FollowUpMsg? ==> k > 0 && Pairs(trace[k - 1], trace[k])
  }

  ghost predicate FollowUpsFollow(trace: seq<Attempt>) {
    forall k | 0 <= k < |trace| :: Follows(trace, k)
  }

  lemma DisciplineGrows(trace: seq<Attempt>, e: Attempt)
    requires FollowUpsFollow(trace)
    requires e.kind.FollowUpMsg? ==> trace != [] && Pairs(trace[|trace| - 1], e)
    ensures FollowUpsFollow(trace + [e])
  {
    forall k | 0 <= k < |trace + [e]|
      ensures Follows(trace + [e], k)
    {
      assert k < |trace| ==> Follows(trace, k);
    }
  }

  /** The last attempt was this Sync. */
  predicate JustSynced(trace: seq<Attempt>, c: Context) {
    && trace != []
    && var e := trace[|trace| - 1];
       e.kind.SyncMsg? && e.ok && e.seqId == c.seqId && e.twoStep == c.cfg.twoStep
  }

  ghost predicate Disciplined(tx: Tx, trace: seq<Attempt>) {
    && FollowUpsFollow(trace)
    && (tx.Gap? ==> JustSynced(trace, tx.c))
    && (tx.Sending? && tx.kind.SyncMsg? && tx.stage.Counting? ==> JustSynced(trace, tx.c))
    && (tx.Sending? && tx.kind.FollowUpMsg? && !tx.stage.Counting? ==> JustSynced(trace, tx.c))
  }

  lemma AttemptKeepsDiscipline(s: State, frame: seq<octet>, ok: bool)
    requires s.tx.Sending? && s.tx.stage == HaveFrame(frame) && TxFits(s.tx) && Disciplined(s.tx, s.trace)
    ensures var s' := SentNext(s, s.tx.kind, s.tx.c, frame, ok); Disciplined(s'.tx, s'.trace)
  {
    DisciplineGrows(s.trace, AttemptOf(s, s.tx.kind, s.tx.c, frame, ok));
  }

  // ---- Sequence numbers count the attempts ----

  /** How many of the first n attempts are of this kind; with `ok`, how many of those succeeded. */
  function Count(trace: seq<Attempt>, kind: Kind, ok: bool, n: nat): nat
    requires n <= |trace|
    decreases n
  {
    if n == 0 then 0
    else Count(trace, kind, ok, n - 1) + (if trace[n - 1].kind == kind && (ok ==> trace[n - 1].ok) then 1 else 0)
  }

  lemma {:induction false} CountSoFar(trace: seq<Attempt>, e: Attempt, kind: Kind, ok: bool, n: nat)
    requires n <= |trace|
    ensures Count(trace + [e], kind, ok, n) == Count(trace, kind, ok, n)
    decreases n
  {
    if n > 0 {
      CountSoFar(trace, e, kind, ok, n - 1);
    }
  }

  function Attempts(trace: seq<Attempt>, kind: Kind): nat {
    Count(trace, kind, false, |trace|)
  }

  function Successes(trace: seq<Attempt>, kind: Kind): nat {
    Count(trace, kind, true, |trace|)
  }

  lemma CountsGrow(trace: seq<Attempt>, e: Attempt, kind: Kind)
    ensures Attempts(trace + [e], kind) == Attempts(trace, kind) + (if e.kind == kind then 1 else 0)
    ensures Successes(trace + [e], kind) == Successes(trace, kind) + (if e.kind == kind && e.ok then 1 else 0)
  {
    CountSoFar(trace, e, kind, false, |trace|);
    CountSoFar(trace, e, kind, true, |trace|);
  }

  /** Announce and Sync attempts carry the number of earlier attempts of their kind, modulo 2^16. */
  ghost predicate Numbered(trace: seq<Attempt>) {
    forall k | 0 <= k < |trace| :: NumberFits(trace, k)
  }

  predicate NumberFits(trace: seq<Attempt>, k: nat)
    requires k < |trace|
  {
    trace[k].kind.FollowUpMsg? || trace[k].seqId == Count(trace, trace[k].kind, false, k) % 0x1_0000
  }

  /** The counter of a kind stands at its attempts so far, or one further while one is in hand. */
  ghost predicate CountsOn(tx: Tx, trace: seq<Attempt>, kind: Kind, next: int) {
    if tx.Dead? then true
    else if tx.Sending? && tx.kind == kind && !tx.stage.Counting? then
      tx.c.seqId == Attempts(trace, kind) % 0x1_0000 && next == NextSeq(tx.c.seqId)
    else next == Attempts(trace, kind) % 0x1_0000
  }

  ghost predicate Sequenced(s: State) {
    Numbered(s.trace) && CountsOn(s.tx, s.trace, AnnounceMsg, s.seqAnnounce) && CountsOn(s.tx, s.trace, SyncMsg, s.seqSync)
  }

  lemma NumberedGrows(trace: seq<Attempt>, e: Attempt)
    requires Numbered(trace) && (!e.kind.FollowUpMsg? ==> e.seqId == Attempts(trace, e.kind) % 0x1_0000)
    ensures Numbered(trace + [e])
  {
    var longer := trace + [e];
    forall k | 0 <= k < |longer|
      ensures NumberFits(longer, k)
    {
      assert k < |trace| ==> NumberFits(trace, k);
      CountSoFar(trace, e, longer[k].kind, false, k);
    }
  }

  lemma NextSeqCounts(n: nat)
    ensures NextSeq(n % 0x1_0000) == (n + 1) % 0x1_0000
  {
  }

  lemma AttemptKeepsSequence(s: State, frame: seq<octet>, ok: bool)
    requires s.tx.Sending? && s.tx.stage == HaveFrame(frame) && Sequenced(s)
    ensures Sequenced(SentNext(s, s.tx.kind, s.tx.c, frame, ok))
  {
    var c := s.tx.c;
    var e := AttemptOf(s, s.tx.kind, c, frame, ok);
    NumberedGrows(s.trace, e);
    CountsGrow(s.trace, e, AnnounceMsg);
    CountsGrow(s.trace, e, SyncMsg);
    NextSeqCounts(Attempts(s.trace, AnnounceMsg));
    NextSeqCounts(Attempts(s.trace, SyncMsg));
  }

  // ---- The counters count what went out ----

  function Pending(tx: Tx, kind: Kind): nat {
    if tx.Sending? && tx.kind == kind && tx.stage.Counting? then 1 else 0
  }

  /** Between a Sync that calls for one and the count of its Follow_Up. */
  function FollowUpDue(tx: Tx): nat {
    if tx.Gap? || (tx.Sending? && tx.kind.FollowUpMsg?) then 1 else 0
  }

  ghost predicate Counted(s: State) {
    && s.announceSent + Pending(s.tx, AnnounceMsg) == Successes(s.trace, AnnounceMsg)
    && s.syncSent + Pending(s.tx, SyncMsg) == Successes(s.trace, SyncMsg)
    && s.followUpSent + Pending(s.tx, FollowUpMsg) == Successes(s.trace, FollowUpMsg)
    && s.followUpSent + FollowUpDue(s.tx) <= s.syncSent
  }

  lemma AttemptKeepsCounts(s: State, frame: seq<octet>, ok: bool)
    requires s.tx.Sending? && s.tx.stage == HaveFrame(frame) && Counted(s)
    ensures Counted(SentNext(s, s.tx.kind, s.tx.c, frame, ok))
  {
    var e := AttemptOf(s, s.tx.kind, s.tx.c, frame, ok);
    CountsGrow(s.trace, e, AnnounceMsg);
    CountsGrow(s.trace, e, SyncMsg);
    CountsGrow(s.trace, e, FollowUpMsg);
  }

  // ---- Backoff ----

  /** The wait after so many faults without a fault-free iteration between them. */
  function Level(faults: nat): real {
    match faults
    case 0 => 0.0
    case 1 => 1.0
    case 2 => 2.0
    case 3 => 4.0
    case 4 => 8.0
    case 5 => 16.0
    case _ => 30.0
  }

  lemma WorseLevel(faults: nat)
    ensures Worse(Level(faults)) == Level(faults + 1)
  {
  }

  ghost predicate BacksOff(s: State) {
    s.backoff == Level(s.faults) && (s.mode.FAULT? ==> s.backoff >= 1.0)
  }

  // ---- Every step keeps all of it ----

  ghost predicate Kept(s: State) {
    Disciplined(s.tx, s.trace) && Sequenced(s) && Counted(s) && BacksOff(s)
  }

  /** Outside a send, a step sends nothing and counts nothing; it may begin a send with the next
      sequence id, or with the Sync's when it is a Follow_Up's. */
  ghost predicate Quiet(s: State, r: State) {
    && r.trace == s.trace
    && r.announceSent == s.announceSent && r.syncSent == s.syncSent && r.followUpSent == s.followUpSent
    && !r.tx.Gap?
    && (s.tx.Dead? ==> r.tx.Dead?)
    && (|| (r.backoff == s.backoff && r.faults == s.faults && (r.mode == s.mode || r.mode.STOPPED?))
        || (r.backoff == 0.0 && r.faults == 0 && r.mode.ACTIVE?)
        || (r.backoff == Worse(s.backoff) && r.faults == s.faults + 1))
    && (if r.tx.Sending? then
          && r.tx.stage.NeedSource?
          && match r.tx.kind
             case AnnounceMsg =>
               r.tx.c.seqId == s.seqAnnounce && r.seqAnnounce == NextSeq(s.seqAnnounce) && r.seqSync == s.seqSync && !s.tx.Gap?
             case SyncMsg =>
               r.tx.c.seqId == s.seqSync && r.seqSync == NextSeq(s.seqSync) && r.seqAnnounce == s.seqAnnounce && !s.tx.Gap?
             case FollowUpMsg => s.tx.Gap? && r.tx.c == s.tx.c && r.seqAnnounce == s.seqAnnounce && r.seqSync == s.seqSync
        else r.seqAnnounce == s.seqAnnounce && r.seqSync == s.seqSync)
  }

  lemma LoopIsQuiet(s: State, now: real, t: PTPTimestamp)
    requires !s.tx.Sending?
    ensures Quiet(s, LoopNext(s, now, t))
  {
  }

  lemma QuietKeeps(s: State, r: State)
    requires !s.tx.Sending? && Quiet(s, r) && Kept(s)
    ensures Kept(r)
  {
    WorseLevel(s.faults);
  }

  lemma LoopKeeps(s: State, now: real, t: PTPTimestamp)
    requires Kept(s) && !s.tx.Sending?
    ensures Kept(LoopNext(s, now, t))
  {
    LoopIsQuiet(s, now, t);
    QuietKeeps(s, LoopNext(s, now, t));
  }

  lemma CountingKeeps(s: State, t: PTPTimestamp)
    requires Kept(s) && s.tx.Sending? && s.tx.stage.Counting? && TxFits(s.tx)
    ensures Kept(CountedNext(s, s.tx.kind, s.tx.c, t))
  {
  }

  lemma AttemptKeeps(s: State, frame: seq<octet>, ok: bool)
    requires Kept(s) && s.tx.Sending? && s.tx.stage == HaveFrame(frame) && TxFits(s.tx)
    ensures Kept(SentNext(s, s.tx.kind, s.tx.c, frame, ok))
  {
    AttemptKeepsDiscipline(s, frame, ok);
    AttemptKeepsSequence(s, frame, ok);
    AttemptKeepsCounts(s, frame, ok);
  }

  lemma StageKeeps(s: State, tx: Tx)
    requires Kept(s) && s.tx.Sending? && !s.tx.stage.Counting?
    requires tx.Dead? || (tx.Sending? && tx.kind == s.tx.kind && tx.c == s.tx.c && !tx.stage.Counting?)
    ensures Kept(s.(tx := tx))
  {
  }

  lemma SendKeeps(s: State, t: PTPTimestamp, ok: bool)
    requires Kept(s) && s.tx.Sending? && TxFits(s.tx)
    ensures Kept(SendNext(s, s.tx.kind, s.tx.c, s.tx.stage, t, ok))
  {
    match s.tx.stage
    case HaveFrame(frame) => AttemptKeeps(s, frame, ok);
    case Counting => CountingKeeps(s, t);
    case _ => StageKeeps(s, SendNext(s, s.tx.kind, s.tx.c, s.tx.stage, t, ok).tx);
  }

  lemma StepKeeps(s: State, e: Step)
    requires Kept(s) && TxFits(s.tx)
    ensures Kept(Next(s, e))
  {
    if e.TxStep? {
      if s.tx.Sending? {
        SendKeeps(s, e.t, e.ok);
      } else {
        LoopKeeps(s, e.now, e.t);
      }
    }
  }

  ghost predicate Invariant(s: State, start: MasterConfig) {
    Kept(s) && Contents(s, start)
  }

  lemma InitiallyInvariant(s: State)
    requires Initial(s)
    ensures Invariant(s, s.shared.cfg)
  {
  }

  lemma StepKeepsInvariant(s: State, e: Step, start: MasterConfig)
    requires Invariant(s, start)
    ensures Invariant(Next(s, e), start)
  {
    StepKeeps(s, e);
    StepKeepsContents(s, e, start);
  }

  lemma {:induction false} RunKeeps(ss: seq<State>, es: seq<Step>, n: nat)
    requires IsRun(ss, es) && n <= |es|
    ensures Invariant(ss[n], ss[0].shared.cfg)
  {
    if n == 0 {
      InitiallyInvariant(ss[0]);
    } else {
      RunKeeps(ss, es, n - 1);
      assert TxMachine.Follows(ss, es, n - 1);
      StepKeepsInvariant(ss[n - 1], es[n - 1], ss[0].shared.cfg);
    }
  }

  /** Each Follow_Up attempt comes directly after a Sync that went out with the same sequence id, and on
      the wire that Sync has the two-step bit set. */
  lemma FollowUpsFollowTheirSync(ss: seq<State>, es: seq<Step>, n: nat, k: nat)
    requires IsRun(ss, es) && n <= |es| && k < |ss[n].trace| && ss[n].trace[k].kind.FollowUpMsg?
    ensures k > 0
    ensures var followUp, sync := ss[n].trace[k], ss[n].trace[k - 1];
            && sync.ok && FrameReads(sync.frame, SyncMsg, followUp.seqId, true)
            && FrameReads(followUp.frame, FollowUpMsg, followUp.seqId, followUp.twoStep)
  {
    RunKeeps(ss, es, n);
    var trace := ss[n].trace;
    assert Follows(trace, k) && AttemptReads(trace, k) && AttemptReads(trace, k - 1);
  }

  /** The n-th attempt at an Announce, and at a Sync, carries n modulo 2^16 on the wire, whether earlier
      ones succeeded or not. */
  lemma SequenceIdsCountAttempts(ss: seq<State>, es: seq<Step>, n: nat, k: nat)
    requires IsRun(ss, es) && n <= |es| && k < |ss[n].trace| && !ss[n].trace[k].kind.FollowUpMsg?
    ensures var e := ss[n].trace[k];
            FrameReads(e.frame, e.kind, Count(ss[n].trace, e.kind, false, k) % 0x1_0000, e.twoStep)
  {
    RunKeeps(ss, es, n);
    assert AttemptReads(ss[n].trace, k) && NumberFits(ss[n].trace, k);
  }

  /** Between iterations the counters are the numbers of messages that went out, and there are never more
      Follow_Ups than Syncs. */
  lemma CountersCountSends(ss: seq<State>, es: seq<Step>, n: nat)
    requires IsRun(ss, es) && n <= |es|
    ensures ss[n].followUpSent <= ss[n].syncSent
    ensures ss[n].tx.Top? ==>
              && ss[n].announceSent == Successes(ss[n].trace, AnnounceMsg)
              && ss[n].syncSent == Successes(ss[n].trace, SyncMsg)
              && ss[n].followUpSent == Successes(ss[n].trace, FollowUpMsg)
    ensures ss[n].backoff == Level(ss[n].faults)
  {
    RunKeeps(ss, es, n);
  }

  // ---- After stop() ----

  function Rank(kind: Kind): nat {
    match kind
    case AnnounceMsg => 0
    case SyncMsg => 1
    case FollowUpMsg => 2
  }

  /** The first kind that may still be attempted before the thread looks at the stop event again. */
  function Standing(tx: Tx): nat {
    match tx
    case AnnounceTime(_) => 0
    case Sending(kind, _, stage) => if stage.Counting? then Rank(kind) + 1 else Rank(kind)
    case AnnounceDone(_) => 1
    case SyncTime(_) => 1
    case Gap(_) => 2
    case _ => 3
  }

  function Left(tx: Tx, kind: Kind): nat {
    if Standing(tx) <= Rank(kind) then 1 else 0
  }

  lemma LoopSpends(s: State, now: real, t: PTPTimestamp, kind: Kind)
    requires s.stopping && !s.tx.Sending?
    ensures LoopNext(s, now, t).trace == s.trace && LoopNext(s, now, t).stopping
    ensures Left(LoopNext(s, now, t).tx, kind) <= Left(s.tx, kind)
  {
  }

  lemma SendSpends(s: State, t: PTPTimestamp, ok: bool, kind: Kind)
    requires s.stopping && s.tx.Sending?
    ensures var r := SendNext(s, s.tx.kind, s.tx.c, s.tx.stage, t, ok);
            r.stopping && Attempts(r.trace, kind) + Left(r.tx, kind) <= Attempts(s.trace, kind) + Left(s.tx, kind)
  {
    match s.tx.stage
    case HaveFrame(frame) => CountsGrow(s.trace, AttemptOf(s, s.tx.kind, s.tx.c, frame, ok), kind);
    case _ => assert SendNext(s, s.tx.kind, s.tx.c, s.tx.stage, t, ok).trace == s.trace;
  }

  lemma StopSpends(s: State, e: Step, kind: Kind)
    requires s.stopping
    ensures var r := Next(s, e);
            r.stopping && Attempts(r.trace, kind) + Left(r.tx, kind) <= Attempts(s.trace, kind) + Left(s.tx, kind)
  {
    if e.TxStep? {
      if s.tx.Sending? {
        SendSpends(s, e.t, e.ok, kind);
      } else {
        LoopSpends(s, e.now, e.t, kind);
      }
    }
  }

  lemma {:induction false} StopBoundsSends(ss: seq<State>, es: seq<Step>, m: nat, n: nat, kind: Kind)
    requires IsRun(ss, es) && m <= n <= |es| && ss[m].stopping
    ensures ss[n].stopping
    ensures Attempts(ss[n].trace, kind) + Left(ss[n].tx, kind) <= Attempts(ss[m].trace, kind) + Left(ss[m].tx, kind)
    decreases n
  {
    if m < n {
      StopBoundsSends(ss, es, m, n - 1, kind);
      assert TxMachine.Follows(ss, es, n - 1);
      StopSpends(ss[n - 1], es[n - 1], kind);
    }
  }

  /** Once stop() is called at most one Announce, one Sync and one Follow_Up are still attempted. */
  lemma StopEndsSending(ss: seq<State>, es: seq<Step>, m: nat, n: nat, kind: Kind)
    requires IsRun(ss, es) && m <= n <= |es| && ss[m].stopping
    ensures Attempts(ss[n].trace, kind) <= Attempts(ss[m].trace, kind) + 1
  {
    StopBoundsSends(ss, es, m, n, kind);
  }

  // ---- What ends the thread ----

  /** About to build an Announce whose unchecked fields do not fit the wire. */
  predicate AtUnfitAnnounce(s: State) {
    s.tx.Sending? && s.tx.kind.AnnounceMsg? && s.tx.stage.NeedPort? && !AnnounceFieldsFit(s.tx.c.cfg)
  }

  /** About to wait, without a stop to cut it short, for a gap that cannot be waited for. */
  predicate AtEndlessGap(s: State) {
    s.tx.Gap? && !s.stopping && GapTooLong(s.tx.c.cfg, s.waitLimit)
  }

  lemma SendDiesOfUnfitAnnounce(s: State, start: MasterConfig, t: PTPTimestamp, ok: bool)
    requires Contents(s, start) && s.tx.Sending?
    ensures SendNext(s, s.tx.kind, s.tx.c, s.tx.stage, t, ok).tx.Dead? <==> AtUnfitAnnounce(s)
  {
    match s.tx.stage
    case NeedPort(sourceCfg) => BuildReads(s.tx.kind, s.tx.c, sourceCfg, s.shared.port);
    case HavePayload(payload) =>
      FramingReads(s.shared.cfg, s.tx.kind, s.mac, payload, s.tx.c.seqId, s.tx.c.cfg.twoStep);
    case _ =>
  }

  lemma LoopDiesOfEndlessGap(s: State, now: real, t: PTPTimestamp)
    requires !s.tx.Sending? && !s.tx.Dead?
    ensures LoopNext(s, now, t).tx.Dead? <==> AtEndlessGap(s)
  {
  }

  /** The thread dies of exactly two things: an Announce whose unchecked fields do not fit the wire, and
      a gap before a Follow_Up that is too long to wait for. */
  lemma ThreadDiesOfTwoThings(ss: seq<State>, es: seq<Step>, n: nat)
    requires IsRun(ss, es) && n < |es| && !ss[n].tx.Dead?
    ensures ss[n + 1].tx.Dead? <==> es[n].TxStep? && (AtUnfitAnnounce(ss[n]) || AtEndlessGap(ss[n]))
  {
    RunKeeps(ss, es, n);
    assert TxMachine.Follows(ss, es, n);
    if es[n].TxStep? {
      if ss[n].tx.Sending? {
        SendDiesOfUnfitAnnounce(ss[n], ss[0].shared.cfg, es[n].t, es[n].ok);
      } else {
        LoopDiesOfEndlessGap(ss[n], es[n].now, es[n].t);
      }
    }
  }
}
