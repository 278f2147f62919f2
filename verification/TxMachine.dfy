/** The transmit thread: Announce, Sync and Follow_Up on two schedules, with send failures, backoff,
    runtime updates and stop, one shared-memory step at a time. A step not enabled changes nothing. */
module TxMachine {
  import opened Outcomes
  import opened Octets
  import opened Timestamp
  import opened Header
  import opened Messages
  import opened Transport
  import opened Config
  import opened Scheduler
  import U = RuntimeUpdate

  datatype Kind = AnnounceMsg | SyncMsg | FollowUpMsg

  /** What a send in progress has read so far: the configuration at its start, its sequence id, its time. */
  datatype Context = Context(now: real, cfg: MasterConfig, seqId: int, t: PTPTimestamp)

  datatype Stage =
    | NeedSource                            // on to _source_for, which reads the configuration again
    | NeedPort(sourceCfg: MasterConfig)     // on to reading source_port, and building
    | HavePayload(payload: seq<octet>)      // on to _send_frame, which reads the configuration again
    | HaveFrame(frame: seq<octet>)          // on to the send
    | Counting                              // sent; on to the counter

  datatype Tx =
    | Starting
    | NeedGen                    // schedulers built; on to reading the generation
    | Top                        // at the head of the loop
    | Regen                      // the generation has changed
    | Resched
    | Pausing                    // waiting for the earlier deadline
    | AnnounceTime(now: real)    // is an Announce due?
    | Sending(kind: Kind, c: Context, stage: Stage)
    | AnnounceDone(now: real)
    | SyncTime(now: real)        // is a Sync due?
    | Gap(c: Context)            // between Sync and Follow_Up
    | SyncDone(now: real)
    | Passed                     // an iteration without fault
    | Faulted                    // a send raised OSError
    | BackingOff
    | Stopped
    | Dead                       // an exception nobody catches

  datatype Mode = LISTENING | ACTIVE | FAULT | STOPPED

  /** An attempt to send: what went on the wire, when the loop found it due, the interval of its schedule
      and the slot of that time on the interval's grid. */
  datatype Attempt = Attempt(kind: Kind, seqId: int, twoStep: bool, frame: seq<octet>, ok: bool, at: real,
                             interval: real, slot: int)

  datatype State = State(
    shared: U.Shared,
    mac: seq<octet>,
    waitLimit: real,         // the longest time an event can be waited for, in seconds
    stopping: bool,
    tx: Tx,
    announceSched: Sched,
    syncSched: Sched,
    gen: nat,
    seqAnnounce: int,
    seqSync: int,
    backoff: real,
    mode: Mode,
    announceSent: nat,
    syncSent: nat,
    followUpSent: nat,
    txErrors: nat,
    // for the record
    trace: seq<Attempt>,
    faults: nat,
    announceReached: int,    // the slots their deadlines follow
    syncReached: int)

  datatype Step =
    | TxStep(now: real, t: PTPTimestamp, ok: bool)   // the clocks' readings; ok: the send succeeds
    | Stop
    | Update(e: U.Step)

  function KeyOf(kind: Kind): MsgKey {
    match kind
    case AnnounceMsg => AnnounceKey
    case SyncMsg => SyncKey
    case FollowUpMsg => FollowUpKey
  }

  function PayloadOf(kind: Kind, c: Context, source: PortIdentity): Result<seq<octet>> {
    match kind
    case AnnounceMsg => AnnouncePayload(c.cfg, source, c.t, c.seqId)
    case SyncMsg => SyncPayload(c.cfg, source, c.t, c.seqId)
    case FollowUpMsg => FollowUpPayload(c.cfg, source, c.t, c.seqId)
  }

  function Build(kind: Kind, c: Context, sourceCfg: MasterConfig, own: PortIdentity): Result<seq<octet>> {
    var source :- SourceFor(sourceCfg, own, KeyOf(kind));
    PayloadOf(kind, c, source)
  }

  function NextSeq(n: int): int {
    (n + 1) % 0x1_0000
  }

  /** A scheduler's interval is a power of two and so positive. */
  function Onward(x: Sched, now: real): Sched {
    if x.interval > 0.0 then x.Advanced(now) else x
  }

  function SlotOf(x: Sched, t: real): int {
    if x.interval > 0.0 then Slot(t, x.interval) else 0
  }

  function OnwardReached(x: Sched, reached: int, now: real): int {
    if x.Due(now) then SlotOf(x, now) else reached + 1
  }

  function Rescheduled(s: State, now: real, tx: Tx): State {
    var a, b := NewSched(s.shared.cfg.logAnnounceInterval, now), NewSched(s.shared.cfg.logSyncInterval, now);
    s.(announceSched := a, syncSched := b, tx := tx, announceReached := SlotOf(a, now), syncReached := SlotOf(b, now))
  }

  function AnnounceAdvanced(s: State, now: real): State {
    s.(announceSched := Onward(s.announceSched, now),
       announceReached := OnwardReached(s.announceSched, s.announceReached, now))
  }

  function SyncAdvanced(s: State, now: real): State {
    s.(syncSched := Onward(s.syncSched, now), syncReached := OnwardReached(s.syncSched, s.syncReached, now))
  }

  function SchedOf(s: State, kind: Kind): Sched {
    if kind.AnnounceMsg? then s.announceSched else s.syncSched
  }

  function Worse(backoff: real): real {
    if backoff == 0.0 then 1.0 else if backoff * 2.0 < 1.0 then 1.0 else if backoff * 2.0 > 30.0 then 30.0 else backoff * 2.0
  }

  /** The send is over; `t` is the clock read after it. */
  function CountedNext(s: State, kind: Kind, c: Context, t: PTPTimestamp): State {
    match kind
    case AnnounceMsg => s.(announceSent := s.announceSent + 1, mode := ACTIVE, tx := AnnounceDone(c.now))
    case SyncMsg =>
      s.(syncSent := s.syncSent + 1, mode := ACTIVE, tx := if c.cfg.twoStep then Gap(c.(t := t)) else SyncDone(c.now))
    case FollowUpMsg => s.(followUpSent := s.followUpSent + 1, tx := SyncDone(c.now))
  }

  function AttemptOf(s: State, kind: Kind, c: Context, frame: seq<octet>, ok: bool): Attempt {
    Attempt(kind, c.seqId, c.cfg.twoStep, frame, ok, c.now, SchedOf(s, kind).interval, SlotOf(SchedOf(s, kind), c.now))
  }

  function SentNext(s: State, kind: Kind, c: Context, frame: seq<octet>, ok: bool): State {
    s.(trace := s.trace + [AttemptOf(s, kind, c, frame, ok)],
       tx := if ok then Sending(kind, c, Counting) else Faulted)
  }

  function SendNext(s: State, kind: Kind, c: Context, stage: Stage, t: PTPTimestamp, ok: bool): State {
    match stage
    case NeedSource => s.(tx := Sending(kind, c, NeedPort(s.shared.cfg)))
    case NeedPort(sourceCfg) =>
      var p := Build(kind, c, sourceCfg, s.shared.port);
      s.(tx := if p.Ok? then Sending(kind, c, HavePayload(p.value)) else Dead)
    case HavePayload(payload) =>
      var f := FrameFor(s.shared.cfg, KeyOf(kind), None, s.mac, payload);
      s.(tx := if f.Ok? then Sending(kind, c, HaveFrame(f.value)) else Dead)
    case HaveFrame(frame) => SentNext(s, kind, c, frame, ok)
    case Counting => CountedNext(s, kind, c, t)
  }

  /** The gap cannot be waited for: the wait raises OverflowError, which the loop does not catch. */
  predicate GapTooLong(cfg: MasterConfig, waitLimit: real) {
    cfg.followUpGapMs > 0.0 && cfg.followUpGapMs / 1000.0 > waitLimit
  }

  function GapNext(s: State, c: Context): State {
    if c.cfg.followUpGapMs > 0.0 && s.stopping then s.(tx := SyncDone(c.now))
    else if GapTooLong(c.cfg, s.waitLimit) then s.(tx := Dead)
    else s.(tx := Sending(FollowUpMsg, c, NeedSource))
  }

  function LoopNext(s: State, now: real, t: PTPTimestamp): State {
    match s.tx
    case Starting => Rescheduled(s, now, NeedGen)
    case NeedGen => s.(gen := s.shared.intervalGen, tx := Top)
    case Top => s.(tx := if s.stopping then Stopped else if s.shared.intervalGen != s.gen then Regen else Pausing)
    case Regen => s.(gen := s.shared.intervalGen, tx := Resched)
    case Resched => Rescheduled(s, now, Pausing)
    case Pausing => s.(tx := if s.stopping then Stopped else AnnounceTime(now))
    case AnnounceTime(at) =>
      if s.announceSched.Due(at) then
        s.(tx := Sending(AnnounceMsg, Context(at, s.shared.cfg, s.seqAnnounce, t), NeedSource), seqAnnounce := NextSeq(s.seqAnnounce))
      else s.(tx := SyncTime(at))
    case AnnounceDone(at) => AnnounceAdvanced(s, at).(tx := SyncTime(at))
    case SyncTime(at) =>
      if s.syncSched.Due(at) then
        s.(tx := Sending(SyncMsg, Context(at, s.shared.cfg, s.seqSync, t), NeedSource), seqSync := NextSeq(s.seqSync))
      else s.(tx := Passed)
    case Gap(c) => GapNext(s, c)
    case SyncDone(at) => SyncAdvanced(s, at).(tx := Passed)
    case Passed => if s.backoff > 0.0 then s.(backoff := 0.0, mode := ACTIVE, faults := 0, tx := Top) else s.(tx := Top)
    case Faulted =>
      s.(txErrors := s.txErrors + 1, backoff := Worse(s.backoff), mode := FAULT, faults := s.faults + 1, tx := BackingOff)
    case BackingOff =>
      if s.stopping then s.(tx := Stopped)
      else SyncAdvanced(AnnounceAdvanced(s, now), now).(tx := Top)
    case Stopped => s.(mode := STOPPED)
    case _ => s
  }

  function TxNext(s: State, now: real, t: PTPTimestamp, ok: bool): State {
    if s.tx.Sending? then SendNext(s, s.tx.kind, s.tx.c, s.tx.stage, t, ok) else LoopNext(s, now, t)
  }

  function Next(s: State, e: Step): State {
    match e
    case TxStep(now, t, ok) => TxNext(s, now, t, ok)
    case Stop => s.(stopping := true)
    case Update(u) => s.(shared := U.Next(s.shared, u))
  }

  /** The loop's own waits are of half a minute at most, which any platform can time. */
  ghost predicate Initial(s: State) {
    && s.waitLimit >= 30.0 && !s.stopping
    && s.shared.cfg.Valid() && s.shared.callers == map[] && s.shared.lock == None
    && |s.mac| == 6 && s.tx == Starting && s.seqAnnounce == 0 && s.seqSync == 0 && s.backoff == 0.0
    && s.announceSent == 0 && s.syncSent == 0 && s.followUpSent == 0
    && s.trace == [] && s.faults == 0 && s.mode == LISTENING && s.gen == 0
  }

  ghost predicate Follows(ss: seq<State>, es: seq<Step>, n: nat)
    requires |ss| == |es| + 1 && n < |es|
  {
    ss[n + 1] == Next(ss[n], es[n])
  }

  ghost predicate IsRun(ss: seq<State>, es: seq<Step>) {
    |ss| == |es| + 1 && Initial(ss[0]) && forall n | 0 <= n < |es| :: Follows(ss, es, n)
  }

  // ---- What is sent reads as what it is ----

  function TypeOf(kind: Kind): int {
    match kind
    case AnnounceMsg => ANNOUNCE
    case SyncMsg => SYNC
    case FollowUpMsg => FOLLOW_UP
  }

  predicate PayloadReads(payload: seq<octet>, kind: Kind, seqId: int, twoStep: bool) {
    var h := UnpackHeader(payload);
    && h.Ok? && h.value.messageType == TypeOf(kind) && h.value.sequenceId == seqId
    && (kind.SyncMsg? ==> HasFlag(h.value.flags, FLAG_TWO_STEP) == twoStep)
  }

  predicate FrameReads(frame: seq<octet>, kind: Kind, seqId: int, twoStep: bool) {
    var p := ParseEthernetFrame(frame);
    p.Ok? && p.value.Some? && PayloadReads(p.value.value.payload, kind, seqId, twoStep)
  }

  predicate AttemptReads(trace: seq<Attempt>, k: nat)
    requires k < |trace|
  {
    FrameReads(trace[k].frame, trace[k].kind, trace[k].seqId, trace[k].twoStep)
  }

  ghost predicate TraceReads(trace: seq<Attempt>) {
    forall k | 0 <= k < |trace| :: AttemptReads(trace, k)
  }

  lemma TraceGrows(trace: seq<Attempt>, e: Attempt)
    requires TraceReads(trace) && FrameReads(e.frame, e.kind, e.seqId, e.twoStep)
    ensures TraceReads(trace + [e])
  {
    forall k | 0 <= k < |trace + [e]|
      ensures AttemptReads(trace + [e], k)
    {
      assert k < |trace| ==> AttemptReads(trace, k);
    }
  }

  ghost predicate ContextFits(c: Context) {
    c.cfg.Valid() && 0 <= c.seqId < 0x1_0000
  }

  ghost predicate TxFits(tx: Tx) {
    && (tx.Sending? ==>
          && ContextFits(tx.c)
          && (tx.kind.FollowUpMsg? ==> tx.c.cfg.twoStep)
          && match tx.stage
             case NeedPort(sourceCfg) => sourceCfg.Valid()
             case HavePayload(payload) => PayloadReads(payload, tx.kind, tx.c.seqId, tx.c.cfg.twoStep)
             case HaveFrame(frame) => FrameReads(frame, tx.kind, tx.c.seqId, tx.c.cfg.twoStep)
             case _ => true)
    && (tx.Gap? ==> ContextFits(tx.c) && tx.c.cfg.twoStep)
  }

  ghost predicate Contents(s: State, start: MasterConfig) {
    && U.Sound(s.shared, start) && |s.mac| == 6
    && 0 <= s.seqAnnounce < 0x1_0000 && 0 <= s.seqSync < 0x1_0000
    && TxFits(s.tx) && TraceReads(s.trace)
  }

  /** Building fails only for an Announce whose unchecked fields do not fit; else the message reads
      as what it is, whatever valid configuration the source identity was taken from. */
  lemma BuildReads(kind: Kind, c: Context, sourceCfg: MasterConfig, own: PortIdentity)
    requires ContextFits(c) && sourceCfg.Valid()
    ensures var p := Build(kind, c, sourceCfg, own);
            && (p.Ok? <==> (kind.AnnounceMsg? ==> AnnounceFieldsFit(c.cfg)))
            && (p.Ok? ==> PayloadReads(p.value, kind, c.seqId, c.cfg.twoStep))
  {
    SourceAlwaysBuilds(sourceCfg, own, KeyOf(kind));
    var source := SourceFor(sourceCfg, own, KeyOf(kind)).value;
    match kind
    case AnnounceMsg =>
      AnnounceBuildsIffFieldsFit(c.cfg, source, c.t, c.seqId);
      if AnnounceFieldsFit(c.cfg) {
        AnnounceReadsBack(c.cfg, source, c.t, c.seqId, []);
        var p := AnnouncePayload(c.cfg, source, c.t, c.seqId).value;
        assert p + [] == p;
      }
    case SyncMsg =>
      SyncAlwaysBuilds(c.cfg, source, c.t, c.seqId, []);
      var p := SyncPayload(c.cfg, source, c.t, c.seqId).value;
      assert p + [] == p;
    case FollowUpMsg =>
      FollowUpAlwaysBuilds(c.cfg, source, c.t, c.seqId, []);
      var p := FollowUpPayload(c.cfg, source, c.t, c.seqId).value;
      assert p + [] == p;
  }

  lemma FramingReads(cfg: MasterConfig, kind: Kind, mac: seq<octet>, payload: seq<octet>, seqId: int, twoStep: bool)
    requires cfg.Valid() && |mac| == 6 && PayloadReads(payload, kind, seqId, twoStep)
    ensures var f := FrameFor(cfg, KeyOf(kind), None, mac, payload); f.Ok? && FrameReads(f.value, kind, seqId, twoStep)
  {
    FrameAlwaysBuilds(cfg, KeyOf(kind), None, mac, payload, []);
    var f := FrameFor(cfg, KeyOf(kind), None, mac, payload).value;
    assert f + [] == f && payload + [] == payload;
  }

  lemma SendKeepsContents(s: State, start: MasterConfig, t: PTPTimestamp, ok: bool)
    requires Contents(s, start) && s.tx.Sending?
    ensures Contents(SendNext(s, s.tx.kind, s.tx.c, s.tx.stage, t, ok), start)
  {
    var Sending(kind, c, stage) := s.tx;
    match stage
    case NeedPort(sourceCfg) => BuildReads(kind, c, sourceCfg, s.shared.port);
    case HavePayload(payload) => FramingReads(s.shared.cfg, kind, s.mac, payload, c.seqId, c.cfg.twoStep);
    case HaveFrame(frame) => TraceGrows(s.trace, AttemptOf(s, kind, c, frame, ok));
    case _ =>
  }

  /** Outside a send only the thread's own place changes, and it may take the configuration along. */
  ghost predicate Idles(s: State, r: State) {
    && r.shared == s.shared && r.mac == s.mac && r.trace == s.trace
    && r.waitLimit == s.waitLimit && r.stopping == s.stopping
    && 0 <= r.seqAnnounce < 0x1_0000 && 0 <= r.seqSync < 0x1_0000
    && (TxFits(s.tx) && s.shared.cfg.Valid() ==> TxFits(r.tx))
  }

  predicate AboutToSend(tx: Tx) {
    tx.AnnounceTime? || tx.SyncTime? || tx.Gap?
  }

  lemma BeginningIdles(s: State, now: real, t: PTPTimestamp)
    requires AboutToSend(s.tx)
    requires 0 <= s.seqAnnounce < 0x1_0000 && 0 <= s.seqSync < 0x1_0000
    ensures Idles(s, LoopNext(s, now, t))
  {
  }

  lemma TurningIdles(s: State, now: real, t: PTPTimestamp)
    requires !s.tx.Sending? && !AboutToSend(s.tx)
    requires 0 <= s.seqAnnounce < 0x1_0000 && 0 <= s.seqSync < 0x1_0000
    ensures Idles(s, LoopNext(s, now, t))
  {
  }

  lemma LoopIdles(s: State, now: real, t: PTPTimestamp)
    requires !s.tx.Sending? && 0 <= s.seqAnnounce < 0x1_0000 && 0 <= s.seqSync < 0x1_0000
    ensures Idles(s, LoopNext(s, now, t))
  {
    if AboutToSend(s.tx) {
      BeginningIdles(s, now, t);
    } else {
      TurningIdles(s, now, t);
    }
  }

  lemma LoopKeepsContents(s: State, start: MasterConfig, now: real, t: PTPTimestamp)
    requires Contents(s, start) && !s.tx.Sending?
    ensures Contents(LoopNext(s, now, t), start)
  {
    LoopIdles(s, now, t);
  }

  lemma StepKeepsContents(s: State, e: Step, start: MasterConfig)
    requires Contents(s, start)
    ensures Contents(Next(s, e), start)
  {
    match e
    case TxStep(now, t, ok) =>
      if s.tx.Sending? {
        SendKeepsContents(s, start, t, ok);
      } else {
        LoopKeepsContents(s, start, now, t);
      }
    case Update(u) => U.StepKeepsSound(s.shared, u, start);
    case Stop =>
  }
}
