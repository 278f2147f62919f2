/** The sends of a transmit thread that no other thread disturbs. */
module TxAlone {
  import opened Outcomes
  import opened Octets
  import opened Timestamp
  import opened Config
  import X = TxMachine

  /** The thread's steps until its send is over. */
  function SendAlone(s: X.State, t: PTPTimestamp, ok: bool, n: nat): X.State
    decreases n, s
  {
    if n == 0 || !s.tx.Sending? then s
    else SendAlone(X.SendNext(s, s.tx.kind, s.tx.c, s.tx.stage, t, ok), t, ok, n - 1)
  }

  /** One message built, framed, sent and counted; `t` is the clock read after the send. */
  function Transmitted(s: X.State, kind: X.Kind, c: X.Context, t: PTPTimestamp, ok: bool): X.State {
    var p := X.Build(kind, c, s.shared.cfg, s.shared.port);
    if p.Raise? then s.(tx := X.Dead)
    else
      var f := FrameFor(s.shared.cfg, X.KeyOf(kind), None, s.mac, p.value);
      if f.Raise? then s.(tx := X.Dead) else Went(s, kind, c, f.value, t, ok)
  }

  function Went(s: X.State, kind: X.Kind, c: X.Context, frame: seq<octet>, t: PTPTimestamp, ok: bool): X.State {
    var u := X.SentNext(s, kind, c, frame, ok);
    if ok then X.CountedNext(u, kind, c, t) else u
  }

  lemma OneSendStep(s: X.State, t: PTPTimestamp, ok: bool, n: nat)
    requires n > 0 && s.tx.Sending?
    ensures SendAlone(s, t, ok, n) == SendAlone(X.SendNext(s, s.tx.kind, s.tx.c, s.tx.stage, t, ok), t, ok, n - 1)
  {
  }

  lemma WentIsTheThreadAlone(s: X.State, kind: X.Kind, c: X.Context, frame: seq<octet>, t: PTPTimestamp, ok: bool)
    ensures SendAlone(s.(tx := X.Sending(kind, c, X.HaveFrame(frame))), t, ok, 2) == Went(s, kind, c, frame, t, ok)
  {
    var s0 := s.(tx := X.Sending(kind, c, X.HaveFrame(frame)));
    var u := X.SentNext(s, kind, c, frame, ok);
    OneSendStep(s0, t, ok, 2);
    assert X.SendNext(s0, kind, c, X.HaveFrame(frame), t, ok) == u;
    if ok {
      OneSendStep(u, t, ok, 1);
    }
  }

  /** With nothing between its steps, that is what the transmit thread does with a message. */
  lemma TransmittedIsTheThreadAlone(s: X.State, kind: X.Kind, c: X.Context, t: PTPTimestamp, ok: bool)
    ensures SendAlone(s.(tx := X.Sending(kind, c, X.NeedSource)), t, ok, 5) == Transmitted(s, kind, c, t, ok)
  {
    var cfg := s.shared.cfg;
    var p := X.Build(kind, c, cfg, s.shared.port);
    OneSendStep(s.(tx := X.Sending(kind, c, X.NeedSource)), t, ok, 5);
    OneSendStep(s.(tx := X.Sending(kind, c, X.NeedPort(cfg))), t, ok, 4);
    if p.Ok? {
      var f := FrameFor(cfg, X.KeyOf(kind), None, s.mac, p.value);
      OneSendStep(s.(tx := X.Sending(kind, c, X.HavePayload(p.value))), t, ok, 3);
      if f.Ok? {
        WentIsTheThreadAlone(s, kind, c, f.value, t, ok);
      }
    }
  }

  /** A Sync and, in two-step mode, its Follow_Up after the gap. */
  function SyncPair(s: X.State, now: real, t1: PTPTimestamp, precise: PTPTimestamp, ok: bool, followUpOk: bool): X.State {
    var c := X.Context(now, s.shared.cfg, s.seqSync, t1);
    var u := Transmitted(s.(seqSync := X.NextSeq(s.seqSync)), X.SyncMsg, c, precise, ok);
    if !u.tx.Gap? then u
    else if c.cfg.followUpGapMs > 0.0 && s.stopping then u.(tx := X.SyncDone(now))
    else if X.GapTooLong(c.cfg, s.waitLimit) then u.(tx := X.Dead)
    else Transmitted(u, X.FollowUpMsg, c.(t := precise), precise, followUpOk)
  }

  /** With a valid configuration a pair sends the Sync, and the Follow_Up exactly when the Sync went out in
      two-step mode, no stop cut the gap short and the gap can be waited for; both carry the same sequence
      id on the wire. A gap too long to wait for kills the thread after its Sync. */
  lemma SyncPairOnTheWire(s: X.State, now: real, t1: PTPTimestamp, precise: PTPTimestamp, ok: bool, followUpOk: bool)
    requires s.shared.cfg.Valid() && |s.mac| == 6 && 0 <= s.seqSync < 0x1_0000
    ensures var u, cfg := SyncPair(s, now, t1, precise, ok, followUpOk), s.shared.cfg;
            var cut, tooLong := cfg.followUpGapMs > 0.0 && s.stopping, X.GapTooLong(cfg, s.waitLimit);
            var follows := ok && cfg.twoStep && !cut && !tooLong;
            && |u.trace| == |s.trace| + (if follows then 2 else 1) && u.trace[..|s.trace|] == s.trace
            && u.seqSync == X.NextSeq(s.seqSync)
            && X.FrameReads(u.trace[|s.trace|].frame, X.SyncMsg, s.seqSync, cfg.twoStep)
            && (follows ==> X.FrameReads(u.trace[|s.trace| + 1].frame, X.FollowUpMsg, s.seqSync, true))
            && u.syncSent == s.syncSent + (if ok then 1 else 0)
            && u.followUpSent == s.followUpSent + (if follows && followUpOk then 1 else 0)
            && (u.tx.Faulted? <==> !ok || (follows && !followUpOk))
            && (u.tx.Dead? <==> ok && cfg.twoStep && !cut && tooLong)
  {
    var c := X.Context(now, s.shared.cfg, s.seqSync, t1);
    var s0 := s.(seqSync := X.NextSeq(s.seqSync));
    TransmittedOnTheWire(s0, X.SyncMsg, c, precise, ok);
    var u := Transmitted(s0, X.SyncMsg, c, precise, ok);
    if ok && c.cfg.twoStep {
      assert u.tx.Gap? && u.shared == s.shared && u.mac == s.mac;
      TransmittedOnTheWire(u, X.FollowUpMsg, c.(t := precise), precise, followUpOk);
    } else {
      assert SyncPair(s, now, t1, precise, ok, followUpOk) == u;
    }
  }

  lemma TransmittedOnTheWire(s: X.State, kind: X.Kind, c: X.Context, t: PTPTimestamp, ok: bool)
    requires s.shared.cfg.Valid() && |s.mac| == 6 && X.ContextFits(c) && (kind.AnnounceMsg? ==> AnnounceFieldsFit(c.cfg))
    ensures var u := Transmitted(s, kind, c, t, ok);
            && |u.trace| == |s.trace| + 1 && u.trace[..|s.trace|] == s.trace
            && u.trace[|s.trace|] == X.AttemptOf(s, kind, c, u.trace[|s.trace|].frame, ok)
            && X.FrameReads(u.trace[|s.trace|].frame, kind, c.seqId, c.cfg.twoStep)
            && u == (if ok then X.CountedNext(s.(trace := u.trace), kind, c, t) else s.(trace := u.trace, tx := X.Faulted))
  {
    X.BuildReads(kind, c, s.shared.cfg, s.shared.port);
    var p := X.Build(kind, c, s.shared.cfg, s.shared.port).value;
    X.FramingReads(s.shared.cfg, kind, s.mac, p, c.seqId, c.cfg.twoStep);
    WentOnTheWire(s, kind, c, FrameFor(s.shared.cfg, X.KeyOf(kind), None, s.mac, p).value, t, ok);
  }

  lemma WentOnTheWire(s: X.State, kind: X.Kind, c: X.Context, frame: seq<octet>, t: PTPTimestamp, ok: bool)
    ensures var u := Went(s, kind, c, frame, t, ok);
            && u.trace == s.trace + [X.AttemptOf(s, kind, c, frame, ok)]
            && u == (if ok then X.CountedNext(s.(trace := u.trace), kind, c, t) else s.(trace := u.trace, tx := X.Faulted))
  {
  }
}
