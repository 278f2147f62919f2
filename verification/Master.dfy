/** The master as one object. Each method, run with nothing between its steps, does to the object what
    its thread's steps do to the machines' state. */
module Master {
  import opened Outcomes
  import opened Octets
  import opened Timestamp
  import opened Header
  import opened Messages
  import opened Config
  import opened Session
  import opened DelayAlone
  import opened TxAlone
  import opened Scheduler
  import U = RuntimeUpdate
  import D = DelayMachine
  import X = TxMachine

  /** A slave is forgotten after twice the announce receipt timeout. */
  function SessionTimeout(cfg: MasterConfig): real {
    cfg.announceReceiptTimeout as real * Power2(cfg.logAnnounceInterval) * 2.0
  }

  function ClockIdentityFromMac(mac: seq<octet>): (id: seq<octet>)
    requires |mac| == 6
    ensures |id| == 8
  {
    mac[..3] + [0xFF, 0xFE] + mac[3..]
  }

  class PtpL2Master {
    var cfg: MasterConfig
    var port: PortIdentity
    var intervalGen: nat
    const mac: seq<octet>
    const waitLimit: real             // the longest time an event can be waited for
    const sessions: SessionTable
    var transportOpen: bool
    var stats: D.Stats
    var queue: seq<D.Item>
    var handled: nat                  // numbers the frames, for the record
    var seqAnnounce: int
    var seqSync: int
    var announceSent: nat
    var syncSent: nat
    var followUpSent: nat
    var mode: X.Mode
    var stopping: bool
    ghost var frames: seq<D.Received>
    ghost var accepted: set<nat>
    ghost var wire: seq<D.OnWire>
    ghost var abandoned: nat
    ghost var judged: seq<D.Judgement>
    ghost var trace: seq<X.Attempt>

    ghost predicate Valid()
      reads this, sessions
    {
      && cfg.Valid() && sessions.Valid() && |mac| == 6 && |queue| <= D.QUEUE_MAX && handled == |frames|
      && 0 <= seqAnnounce < 0x1_0000 && 0 <= seqSync < 0x1_0000
      && AllFit(queue)
    }

    ghost function Shared(): U.Shared
      reads this
    {
      U.Shared(cfg, port, intervalGen, map[], None)
    }

    /** The object as the machine's state, its threads at rest. */
    ghost function View(): D.State
      reads this, sessions
    {
      D.State(Shared(), sessions.View(), stats, queue, stopping, mac, transportOpen, D.RxIdle, D.Polling, D.NotStarted,
              frames, accepted, wire, abandoned, judged, 0)
    }

    /** The master once started; an invalid configuration is refused before. */
    constructor (cfg: MasterConfig, mac: seq<octet>, waitLimit: real)
      requires cfg.Valid() && |mac| == 6
      ensures Valid() && fresh(sessions) && D.Initial(View()) && View().shared.cfg == cfg
      ensures this.mac == mac && this.waitLimit == waitLimit && port.portNumber == cfg.portNumber
      ensures sessions.View() == Table(cfg.maxSlaves, SessionTimeout(cfg), cfg.delayRespRateLimit as real, [], 0)
      ensures port.clockIdentity == (if cfg.clockIdentity.Some? then cfg.clockIdentity.value else ClockIdentityFromMac(mac))
    {
      this.cfg := cfg;
      this.mac := mac;
      this.waitLimit := waitLimit;
      port := IdentityPair(if cfg.clockIdentity.Some? then cfg.clockIdentity.value else ClockIdentityFromMac(mac), cfg.portNumber);
      intervalGen := 0;
      sessions := new SessionTable(cfg.maxSlaves, cfg.delayRespRateLimit as real, SessionTimeout(cfg));
      transportOpen, stats, queue, handled := true, D.NO_STATS, [], 0;
      frames, accepted, wire, abandoned, judged, trace := [], {}, [], 0, [], [];
      seqAnnounce, seqSync, announceSent, syncSent, followUpSent := 0, 0, 0, 0, 0;
      mode, stopping := X.LISTENING, false;
    }

    /** The receive thread's filters, in order. */
    method Classify(payload: seq<octet>) returns (c: D.Class)
      ensures c == D.Classify(cfg, port, payload)
    {
      if |payload| < HEADER_LEN {
        return D.ParseError;
      }
      var hdr := UnpackHeader(payload).value;
      if hdr.versionPtp != 2 {
        return D.BadVersion;
      }
      if Num(hdr.domainNumber) !in D.EffectiveDomains(cfg) {
        return D.OtherDomain;
      }
      if Some(hdr.source.clockIdentity) in D.OwnIds(cfg, port) {
        return D.Ignored;
      }
      if hdr.messageType == ANNOUNCE {
        return D.Ignored;
      }
      if hdr.messageType != DELAY_REQ {
        return D.OtherType;
      }
      var req := ParseDelayReq(payload);
      return if req.Raise? then D.ParseError else D.Request(req.value.header);
    }

    method CountClass(c: D.Class)
      requires Valid()
      modifies this`stats, this`judged
      ensures Valid() && View() == D.ClassNext(old(View()), D.Judgement(cfg, port, c)).(rx := D.RxIdle)
    {
      stats := D.Counted(stats, c);
      judged := judged + [D.Judgement(cfg, port, c)];
    }

    method Record(f: D.Received)
      requires Valid()
      modifies this`handled, this`frames
      ensures Valid() && View() == old(View()).(frames := old(frames) + [f])
    {
      frames, handled := frames + [f], handled + 1;
    }

    method HandleFrame(f: D.Received)
      requires Valid() && f.InRange()
      modifies this`stats, this`queue, this`accepted, this`handled, this`frames, this`judged, sessions
      ensures Valid()
      ensures View() == Handled(old(View()), f)
    {
      Record(f);
      var c := Classify(f.payload);
      CountClass(c);
      if c.Request? {
        HeaderReadBack(f.payload);
        Answer(f, c.header);
      }
    }

    method Answer(f: D.Received, hdr: PTPHeader)
      requires Valid() && f.InRange() && frames != [] && frames[|frames| - 1] == f
      requires 0 <= hdr.sequenceId < 0x1_0000
      modifies this`stats, this`queue, this`accepted, sessions
      ensures Valid()
      ensures View() == Requested(old(View()), hdr, f)
    {
      var verdict := sessions.RegisterOrTouch(hdr.source, f.srcMac, f.rxMono);
      CountAndQueue(f, hdr, verdict);
    }

    /** The request counted, and queued or dropped as the table said. */
    method CountAndQueue(f: D.Received, hdr: PTPHeader, verdict: Verdict)
      requires Valid() && f.InRange() && frames != [] && frames[|frames| - 1] == f
      requires 0 <= hdr.sequenceId < 0x1_0000 && verdict != Overflow
      modifies this`stats, this`queue, this`accepted
      ensures Valid()
      ensures View() == Judged(old(View()), hdr, verdict, f)
    {
      stats := stats.(reqRecv := stats.reqRecv + 1);
      if verdict == Refused {
        stats := stats.(respDropped := stats.respDropped + 1);
      } else {
        Enqueue(D.Item(handled - 1, hdr, f.rxNs, f.srcMac));
      }
    }

    /** put_nowait, and what follows when the queue is full. */
    method Enqueue(item: D.Item)
      requires Valid() && item.Fits()
      modifies this`queue, this`accepted, this`stats
      ensures Valid()
      ensures if |old(queue)| < D.QUEUE_MAX
              then queue == old(queue) + [item] && accepted == old(accepted) + {item.no} && stats == old(stats)
              else
                && queue == old(queue) && accepted == old(accepted)
                && stats == old(stats).(queueFull := old(stats).queueFull + 1, respDropped := old(stats).respDropped + 1)
    {
      if |queue| < D.QUEUE_MAX {
        queue, accepted := queue + [item], accepted + {item.no};
      } else {
        stats := stats.(queueFull := stats.queueFull + 1);
        stats := stats.(respDropped := stats.respDropped + 1);
      }
    }

    /** Without an exception in between, which a valid configuration rules out. */
    method SendDelayResp(item: D.Item, ok: bool)
      requires Valid() && item.Fits()
      modifies this`stats, this`wire, this`abandoned, sessions
      ensures Valid() && View() == Responded(old(View()), item, ok)
    {
      if !transportOpen {
        abandoned := abandoned + 1;
        return;
      }
      D.PrepareAnswers(item, cfg, cfg, port);
      var p := D.Prepare(item, cfg, cfg, port).value;
      D.FramingAnswers(item, cfg, p.dst, mac, p.payload);
      ghost var frame := FrameFor(cfg, DelayRespKey, Some(p.dst), mac, p.payload).value;
      Finish(item, frame, ok);
    }

    /** The send and what follows it. */
    method Finish(item: D.Item, ghost frame: seq<octet>, ok: bool)
      requires Valid()
      modifies this`stats, this`wire, sessions
      ensures Valid() && View() == Finished(old(View()), item, frame, ok)
    {
      if !ok {
        stats := stats.(txErrors := stats.txErrors + 1);
        stats := stats.(respDropped := stats.respDropped + 1);
        return;
      }
      wire := wire + [D.OnWire(item.no, frame)];
      stats := stats.(respSent := stats.respSent + 1);
      sessions.MarkRespSent(item.header.source);
    }

    /** Answers what is queued until the queue is empty or the deadline has passed, `budget` items on. */
    method DrainRespQueue(budget: nat, ok: nat -> bool)
      requires Valid()
      modifies this`stats, this`wire, this`abandoned, this`queue, sessions
      ensures Valid() && View() == Drained(old(View()), budget, ok)
    {
      for k := 0 to budget
        invariant Valid() && View() == Drained(old(View()), k, ok)
      {
        AnswerOne(ok(k));
      }
    }

    method AnswerOne(ok: bool)
      requires Valid()
      modifies this`stats, this`wire, this`abandoned, this`queue, sessions
      ensures Valid() && View() == DrainedOne(old(View()), ok)
    {
      if queue != [] {
        var item := queue[0];
        queue := queue[1..];
        SendDelayResp(item, ok);
      }
    }

    /** Validates a patched configuration and stores it; says whether it did. */
    method ApplyRuntimeUpdate(patch: seq<U.Change>) returns (applied: bool)
      requires Valid()
      modifies this`cfg, this`port, this`intervalGen
      ensures Valid()
      ensures applied <==> patch != [] && U.AllAllowed(patch) && U.Patched(old(cfg), patch).Valid()
      ensures Shared() == U.Call(old(Shared()), 0, patch)
      ensures cfg == if applied then U.Patched(old(cfg), patch) else old(cfg)
    {
      U.CallAppliesOrRejects(Shared(), cfg, 0, patch);
      applied := false;
      if patch != [] && U.AllAllowed(patch) {
        var changed := U.Patched(cfg, patch);
        if changed.Valid() {
          cfg, port, intervalGen := changed, U.OwnPort(changed, port).Extract(), intervalGen + 1;
          applied := true;
        }
      }
    }

    // ---- Sending ----

    /** The object as the transmit machine's state, the loop's own variables as in `base`. */
    ghost function TxView(base: X.State): X.State
      reads this
    {
      base.(shared := Shared(), mac := mac, waitLimit := waitLimit, stopping := stopping,
            seqAnnounce := seqAnnounce, seqSync := seqSync,
            announceSent := announceSent, syncSent := syncSent, followUpSent := followUpSent, mode := mode, trace := trace)
    }

    /** Builds and sends one message; `ok` tells whether the send succeeds. */
    method Transmit(kind: X.Kind, c: X.Context, t: PTPTimestamp, ok: bool, ghost base: X.State) returns (r: Result<()>)
      modifies this`trace, this`announceSent, this`syncSent, this`followUpSent, this`mode
      ensures var u := Transmitted(old(TxView(base)), kind, c, t, ok);
              TxView(u) == u && (r.Ok? <==> !u.tx.Dead? && !u.tx.Faulted?)
    {
      var payload :- X.Build(kind, c, cfg, port);
      var frame :- FrameFor(cfg, X.KeyOf(kind), None, mac, payload);
      r := Send(kind, c, frame, t, ok, base);
    }

    /** The send itself, and the count of it. */
    method Send(kind: X.Kind, c: X.Context, frame: seq<octet>, t: PTPTimestamp, ok: bool, ghost base: X.State)
      returns (r: Result<()>)
      modifies this`trace, this`announceSent, this`syncSent, this`followUpSent, this`mode
      ensures var u := Went(old(TxView(base)), kind, c, frame, t, ok);
              TxView(u) == u && (r.Ok? <==> ok) && (u.tx.Faulted? <==> !ok) && !u.tx.Dead?
    {
      trace := trace + [X.AttemptOf(base, kind, c, frame, ok)];
      if !ok {
        return Raise(OsError);
      }
      match kind {
        case AnnounceMsg => announceSent := announceSent + 1;
        case SyncMsg => syncSent := syncSent + 1;
        case FollowUpMsg => followUpSent := followUpSent + 1;
      }
      if !kind.FollowUpMsg? {
        mode := X.ACTIVE;
      }
      return Ok(());
    }

    method SendAnnounce(now: real, t: PTPTimestamp, ok: bool, ghost base: X.State) returns (r: Result<()>)
      modifies this`trace, this`announceSent, this`syncSent, this`followUpSent, this`mode, this`seqAnnounce
      ensures var c := X.Context(now, cfg, old(seqAnnounce), t);
              var u := Transmitted(old(TxView(base)).(seqAnnounce := X.NextSeq(old(seqAnnounce))), X.AnnounceMsg, c, t, ok);
              TxView(u) == u && (r.Ok? <==> !u.tx.Dead? && !u.tx.Faulted?)
    {
      var c := X.Context(now, cfg, seqAnnounce, t);
      seqAnnounce := (seqAnnounce + 1) % 0x1_0000;
      r := Transmit(X.AnnounceMsg, c, t, ok, base);
    }

    /** `t1` and `precise` are the clock's readings before and after the Sync is sent. */
    method SendSyncPair(now: real, t1: PTPTimestamp, precise: PTPTimestamp, ok: bool, followUpOk: bool, ghost base: X.State)
      returns (r: Result<()>)
      modifies this`trace, this`announceSent, this`syncSent, this`followUpSent, this`mode, this`seqSync
      ensures var u := SyncPair(old(TxView(base)), now, t1, precise, ok, followUpOk);
              TxView(u) == u && (r.Ok? <==> !u.tx.Dead? && !u.tx.Faulted?)
    {
      var c := X.Context(now, cfg, seqSync, t1);
      seqSync := (seqSync + 1) % 0x1_0000;
      ghost var u := Transmitted(TxView(base), X.SyncMsg, c, precise, ok);
      r := Transmit(X.SyncMsg, c, precise, ok, base);
      if r.Raise? || !c.cfg.twoStep {
        return;
      }
      if c.cfg.followUpGapMs > 0.0 && stopping {
        return;
      }
      if X.GapTooLong(c.cfg, waitLimit) {
        return Raise(OverflowError);
      }
      r := Transmit(X.FollowUpMsg, c.(t := precise), precise, followUpOk, u);
    }
  }
}
