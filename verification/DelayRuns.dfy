/** What every run of the Delay_Req machinery keeps, however its threads interleave. */
module DelayRuns {
  import opened Outcomes
  import opened Octets
  import opened Timestamp
  import opened Header
  import opened Messages
  import opened Transport
  import opened Config
  import opened DelayMachine
  import S = Session

  ghost predicate Kept(s: State, start: MasterConfig) {
    Orderly(s) && Numbered(s) && Conserved(s) && Contents(s, start) && NeverOverflowed(s) && WellJudged(s)
  }

  lemma InitiallyKept(s: State)
    requires Initial(s)
    ensures Kept(s, s.shared.cfg)
  {
  }

  lemma StepKeeps(s: State, e: Step, start: MasterConfig)
    requires Kept(s, start)
    ensures Kept(Next(s, e), start)
  {
    StepKeepsOrder(s, e);
    StepConserves(s, e);
    StepKeepsContents(s, e, start);
    StepNeverOverflows(s, e);
    StepKeepsJudged(s, e);
  }

  lemma {:induction false} RunKeeps(ss: seq<State>, es: seq<Step>, n: nat)
    requires IsRun(ss, es) && n <= |es|
    ensures Kept(ss[n], ss[0].shared.cfg)
  {
    if n == 0 {
      InitiallyKept(ss[0]);
    } else {
      RunKeeps(ss, es, n - 1);
      assert Follows(ss, es, n - 1);
      StepKeeps(ss[n - 1], es[n - 1], ss[0].shared.cfg);
    }
  }

  /** A frame that answers a received Delay_Req: a Delay_Resp with its sequence id, the port identity
      it came from and the time it was received. */
  ghost predicate Answers(frame: seq<octet>, f: Received) {
    var req, p := ParseDelayReq(f.payload), ParseEthernetFrame(frame);
    && req.Ok? && p.Ok? && p.value.Some?
    && var payload := p.value.value.payload;
       var h := UnpackHeader(payload);
       && h.Ok? && h.value.messageType == DELAY_RESP && h.value.sequenceId == req.value.header.sequenceId
       && var body := ParseDelayRespBody(payload, h.value);
          && body.Ok? && body.value.requesting == req.value.header.source
          && FromNanoseconds(f.rxNs) == Ok(body.value.receive)
  }

  lemma WireAnswersFrame(x: OnWire, frames: seq<Received>)
    requires WireAnswers(x, frames)
    ensures x.no < |frames| && Answers(x.frame, frames[x.no])
  {
    var item :| Matches(item, frames) && item.no == x.no && FrameAnswers(x.frame, item);
  }

  /** At every moment each answer sent belongs to one accepted request and echoes it, and no two
      answers belong to the same request. */
  lemma AnswersBelongToRequests(ss: seq<State>, es: seq<Step>, n: nat)
    requires IsRun(ss, es) && n <= |es|
    ensures var s := ss[n];
            && (forall j | 0 <= j < |s.wire| ::
                  s.wire[j].no in s.accepted && s.wire[j].no < |s.frames| && Answers(s.wire[j].frame, s.frames[s.wire[j].no]))
            && (forall i, j | 0 <= i < j < |s.wire| :: s.wire[i].no != s.wire[j].no)
  {
    RunKeeps(ss, es, n);
    var s := ss[n];
    forall j | 0 <= j < |s.wire|
      ensures s.wire[j].no < |s.frames| && Answers(s.wire[j].frame, s.frames[s.wire[j].no])
    {
      WireAnswersFrame(s.wire[j], s.frames);
    }
  }

  /** Until stop() drains the queue, answers leave in the order in which the requests came. */
  lemma AnswersLeaveInOrder(ss: seq<State>, es: seq<Step>, n: nat)
    requires IsRun(ss, es) && n <= |es| && ss[n].drain.NotStarted?
    ensures forall i, j | 0 <= i < j < |ss[n].wire| :: ss[n].wire[i].no < ss[n].wire[j].no
  {
    RunKeeps(ss, es, n);
  }

  /** Counted requests are answered, dropped, queued, in hand or abandoned; none ever overflows the
      table; and the count of answers is the number of frames sent. */
  lemma RequestsAreConserved(ss: seq<State>, es: seq<Step>, n: nat)
    requires IsRun(ss, es) && n <= |es|
    ensures var s := ss[n];
            && s.stats.overflow == 0 && |s.queue| <= QUEUE_MAX
            && s.stats.reqRecv == s.stats.respSent + s.stats.respDropped + |s.queue|
                                  + RxWeight(s.rx) + WorkerWeight(s.resp) + WorkerWeight(s.drain) + s.abandoned
            && |s.wire| == s.stats.respSent + SentWeight(s.resp) + SentWeight(s.drain)
  {
    RunKeeps(ss, es, n);
  }

  // ---- Why requests are dropped ----

  /** How many requests the table refused in the first n steps. */
  function Refusals(ss: seq<State>, es: seq<Step>, n: nat): nat
    requires |ss| == |es| + 1 && n <= |es|
  {
    if n == 0 then 0 else Refusals(ss, es, n - 1) + (if Refuses(ss[n - 1], es[n - 1]) then 1 else 0)
  }

  predicate Refuses(s: State, e: Step) {
    e.RxStep? && s.frames != [] && s.rx.RxCounted? && s.rx.v.Refused?
  }

  /** How many found the queue full. */
  function Crowded(ss: seq<State>, es: seq<Step>, n: nat): nat
    requires |ss| == |es| + 1 && n <= |es|
  {
    if n == 0 then 0 else Crowded(ss, es, n - 1) + (if Crowds(ss[n - 1], es[n - 1]) then 1 else 0)
  }

  predicate Crowds(s: State, e: Step) {
    e.RxStep? && s.frames != [] && s.rx.RxCounted? && s.rx.v.Allowed? && |s.queue| >= QUEUE_MAX
  }

  /** How many answers failed to be sent. */
  function FailedSends(ss: seq<State>, es: seq<Step>, n: nat): nat
    requires |ss| == |es| + 1 && n <= |es|
  {
    if n == 0 then 0 else FailedSends(ss, es, n - 1) + (if FailsSend(ss[n - 1], es[n - 1]) then 1 else 0)
  }

  predicate FailsSend(s: State, e: Step) {
    (e.RespStep? && !e.ok && s.resp.Framed?) || (e.DrainStep? && !e.ok && s.drain.Framed?)
  }

  function CrowdedOut(rx: Rx): nat {
    if rx.RxQueueFull? then 1 else 0
  }

  function UnsentWeight(w: Worker): nat {
    if w.Unsent? then 1 else 0
  }

  function FailedWeight(w: Worker): nat {
    if w.Unsent? || w.Dropping? then 1 else 0
  }

  /** Drops by cause, but for those just about to be counted. */
  ghost predicate DropsAdd(s: State, refused: nat, crowded: nat, failed: nat) {
    && s.stats.queueFull == crowded
    && s.stats.txErrors + UnsentWeight(s.resp) + UnsentWeight(s.drain) == failed
    && s.stats.respDropped + CrowdedOut(s.rx) + FailedWeight(s.resp) + FailedWeight(s.drain) == refused + crowded + failed
  }

  lemma WorkerDrops(s: State, w: Worker, drain: bool, ok: bool)
    ensures var m, failed := WorkerNext(s, w, drain, ok), if w.Framed? && !ok then 1 else 0;
            && m.s.stats.queueFull == s.stats.queueFull && m.s.rx == s.rx
            && m.s.stats.txErrors + UnsentWeight(m.w) == s.stats.txErrors + UnsentWeight(w) + failed
            && m.s.stats.respDropped + FailedWeight(m.w) == s.stats.respDropped + FailedWeight(w) + failed
  {
    WorkerConserves(s, w, drain, ok);
  }

  /** What the receive thread's step adds to the drops. */
  ghost predicate DropsMore(s: State, r: State, refused: nat, crowded: nat) {
    && r.resp == s.resp && r.drain == s.drain && r.stats.txErrors == s.stats.txErrors
    && r.stats.queueFull == s.stats.queueFull + crowded
    && r.stats.respDropped + CrowdedOut(r.rx) == s.stats.respDropped + CrowdedOut(s.rx) + refused + crowded
  }

  lemma AnswerDrops(s: State, h: PTPHeader, v: S.Verdict, f: Received)
    requires s.frames != [] && s.rx.RxCounted? && !v.Overflow?
    ensures DropsMore(s, AnswerNext(s, h, v, f), if v.Refused? then 1 else 0,
                      if v.Allowed? && |s.queue| >= QUEUE_MAX then 1 else 0)
  {
  }

  lemma OtherRxDrops(s: State)
    requires !s.rx.RxCounted?
    ensures DropsMore(s, RxNext(s), 0, 0)
  {
  }

  lemma RxDrops(s: State)
    requires NeverOverflowed(s)
    ensures DropsMore(s, RxNext(s), if Refuses(s, RxStep) then 1 else 0, if Crowds(s, RxStep) then 1 else 0)
  {
    if s.rx.RxCounted? && s.frames != [] {
      AnswerDrops(s, s.rx.header, s.rx.v, s.frames[|s.frames| - 1]);
    } else if !s.rx.RxCounted? {
      OtherRxDrops(s);
    }
  }

  lemma StepDrops(s: State, e: Step, refused: nat, crowded: nat, failed: nat)
    requires NeverOverflowed(s) && DropsAdd(s, refused, crowded, failed)
    ensures DropsAdd(Next(s, e), refused + (if Refuses(s, e) then 1 else 0), crowded + (if Crowds(s, e) then 1 else 0),
                     failed + (if FailsSend(s, e) then 1 else 0))
  {
    match e
    case Recv(data, rxNs, rxMono) => RecvEffect(s, data, rxNs, rxMono);
    case RxStep => RxDrops(s);
    case RespStep(ok) =>
      WorkerDrops(s, s.resp, false, ok);
      WorkerConserves(s, s.resp, false, ok);
    case DrainStep(ok) =>
      WorkerDrops(s, s.drain, true, ok);
      WorkerConserves(s, s.drain, true, ok);
    case _ =>
  }

  /** Every request dropped was refused by the table, found the queue full, or had an answer that failed to
      be sent; resp_queue_full and tx_errors count the latter two. */
  lemma {:induction false} DropsHaveCauses(ss: seq<State>, es: seq<Step>, n: nat)
    requires IsRun(ss, es) && n <= |es|
    ensures DropsAdd(ss[n], Refusals(ss, es, n), Crowded(ss, es, n), FailedSends(ss, es, n))
  {
    if n > 0 {
      DropsHaveCauses(ss, es, n - 1);
      RunKeeps(ss, es, n - 1);
      assert Follows(ss, es, n - 1);
      StepDrops(ss[n - 1], es[n - 1], Refusals(ss, es, n - 1), Crowded(ss, es, n - 1), FailedSends(ss, es, n - 1));
    }
  }

  // ---- By what configuration a frame is judged ----

  /** At this step frame k was received, and the configuration read. */
  ghost predicate CfgReadAt(ss: seq<State>, i: nat, k: nat, cfg: MasterConfig)
    requires i + 1 < |ss|
  {
    |ss[i].frames| == k && |ss[i + 1].frames| == k + 1 && ss[i].shared.cfg == cfg
  }

  /** At this step frame k was judged, and the port identity read. */
  ghost predicate OwnReadAt(ss: seq<State>, j: nat, k: nat, own: PortIdentity)
    requires j + 1 < |ss|
  {
    |ss[j].judged| == k && |ss[j + 1].judged| == k + 1 && ss[j].shared.port == own
  }

  ghost predicate ReadInForce(ss: seq<State>, n: nat, k: nat, c: Judgement)
    requires n < |ss|
  {
    && (exists i: nat | i < n :: CfgReadAt(ss, i, k, c.cfg))
    && (exists j: nat | j < n :: OwnReadAt(ss, j, k, c.own))
  }

  lemma StepRecords(s: State, e: Step)
    requires Conserved(s)
    ensures var r := Next(s, e);
            && (|| (r.judged == s.judged && (s.rx.RxGot? ==> r.rx == s.rx && r.frames == s.frames))
                || (&& e.RxStep? && s.rx.RxGot? && s.frames != [] && !r.rx.RxGot?
                    && r.judged == s.judged + [Judge(s.rx.cfg, s.shared.port, s.frames[|s.frames| - 1].payload)]))
            && (r.rx.RxGot? && !s.rx.RxGot? ==> r.rx.cfg == s.shared.cfg && |r.frames| == |s.frames| + 1)
  {
    match e
    case Recv(data, rxNs, rxMono) => RecvEffect(s, data, rxNs, rxMono);
    case RxStep =>
      if !s.rx.RxGot? {
        RxKeepsRecord(s);
      }
    case RespStep(ok) => WorkerConserves(s, s.resp, false, ok);
    case DrainStep(ok) => WorkerConserves(s, s.drain, true, ok);
    case _ =>
  }

  lemma {:induction false} FrameInHandWasReceived(ss: seq<State>, es: seq<Step>, n: nat, k: nat)
    requires IsRun(ss, es) && n <= |es| && ss[n].rx.RxGot? && |ss[n].frames| == k + 1
    ensures exists i: nat | i < n :: CfgReadAt(ss, i, k, ss[n].rx.cfg)
    decreases n
  {
    if n > 0 {
      RunKeeps(ss, es, n - 1);
      assert Follows(ss, es, n - 1);
      StepRecords(ss[n - 1], es[n - 1]);
      if ss[n - 1].rx.RxGot? {
        FrameInHandWasReceived(ss, es, n - 1, k);
      } else {
        assert CfgReadAt(ss, n - 1, k, ss[n].rx.cfg);
      }
    }
  }

  /** A frame is judged by the configuration in force when it was received and the port identity in force
      when it was judged. */
  lemma {:induction false} JudgedByWhatWasInForce(ss: seq<State>, es: seq<Step>, n: nat, k: nat)
    requires IsRun(ss, es) && n <= |es| && k < |ss[n].judged|
    ensures ReadInForce(ss, n, k, ss[n].judged[k])
    decreases n
  {
    if n > 0 {
      RunKeeps(ss, es, n - 1);
      assert Follows(ss, es, n - 1);
      StepRecords(ss[n - 1], es[n - 1]);
      if k < |ss[n - 1].judged| {
        JudgedByWhatWasInForce(ss, es, n - 1, k);
      } else {
        FrameInHandWasReceived(ss, es, n - 1, k);
        assert OwnReadAt(ss, n - 1, k, ss[n - 1].shared.port);
      }
    }
  }

  /** Between frames, each one received has been judged, by what was in force then; each counter counts
      exactly the frames found to be of its class, failed receives counting as parse errors; and the
      classes, with those ignored as our own or a foreign Announce, are all the frames. */
  lemma FramesAreClassified(ss: seq<State>, es: seq<Step>, n: nat)
    requires IsRun(ss, es) && n <= |es| && ss[n].rx.Rests()
    ensures var s := ss[n];
            && |s.judged| == |s.frames|
            && (forall k | 0 <= k < |s.frames| :: JudgedAt(s.judged, s.frames, k) && ReadInForce(ss, n, k, s.judged[k]))
            && s.stats.parseErrors == s.recvErrors + CountOf(s.judged, ParseError)
            && s.stats.badVersion == CountOf(s.judged, BadVersion)
            && s.stats.otherDomain == CountOf(s.judged, OtherDomain)
            && s.stats.otherType == CountOf(s.judged, OtherType)
            && s.stats.reqRecv == Requests(s.judged)
            && |s.frames| + s.recvErrors == s.stats.parseErrors + s.stats.badVersion + s.stats.otherDomain
                                            + s.stats.otherType + s.stats.reqRecv + CountOf(s.judged, Ignored)
  {
    RunKeeps(ss, es, n);
    CountsAddUp(ss[n].judged);
    forall k | 0 <= k < |ss[n].judged|
      ensures ReadInForce(ss, n, k, ss[n].judged[k])
    {
      JudgedByWhatWasInForce(ss, es, n, k);
    }
  }

  /** The responding threads never fail to build or frame an answer, whatever updates come between
      their reads of the configuration, which stays valid. */
  lemma RespondersNeverCrash(ss: seq<State>, es: seq<Step>, n: nat)
    requires IsRun(ss, es) && n <= |es|
    ensures !ss[n].resp.Crashed? && !ss[n].drain.Crashed? && ss[n].shared.cfg.Valid()
  {
    RunKeeps(ss, es, n);
  }

  predicate ShortTagged(data: seq<octet>) {
    16 <= |data| < 18 && Word(data[12], data[13]) == ETHERTYPE_VLAN
  }

  lemma StepMovesReceiver(s: State, e: Step)
    requires !s.rx.RxDead?
    ensures Next(s, e).rx.RxDead? <==> s.rx.RxWaiting? && e.Recv? && ShortTagged(e.data)
    ensures Next(s, e).rx.RxWaiting? ==> s.rx.RxWaiting? || (s.rx.RxIdle? && !s.stopping)
    ensures |Next(s, e).frames| <= |s.frames| + (if s.rx.RxWaiting? && !Next(s, e).rx.RxWaiting? then 1 else 0)
    ensures s.stopping ==> Next(s, e).stopping
  {
    match e
    case Recv(data, rxNs, rxMono) => RecvEffect(s, data, rxNs, rxMono);
    case RxStep => ReceiverGoesOn(s);
    case RespStep(ok) => WorkerConserves(s, s.resp, false, ok);
    case DrainStep(ok) => WorkerConserves(s, s.drain, true, ok);
    case _ =>
  }

  lemma ReceiverGoesOn(s: State)
    ensures var r := RxNext(s);
            && (r.rx == s.rx || !(r.rx.RxDead? || r.rx.RxWaiting?)) && r.frames == s.frames && r.stopping == s.stopping
  {
  }

  /** In any run the receive thread, while it lives, dies of exactly one thing: a tagged frame, received
      cut off inside its second type field. */
  lemma ReceiverDiesOfShortTaggedFrame(ss: seq<State>, es: seq<Step>, n: nat)
    requires IsRun(ss, es) && n < |es| && !ss[n].rx.RxDead?
    ensures ss[n + 1].rx.RxDead? <==> ss[n].rx.RxWaiting? && es[n].Recv? && ShortTagged(es[n].data)
  {
    assert Follows(ss, es, n);
    StepMovesReceiver(ss[n], es[n]);
  }

  function Awaited(rx: Rx): nat {
    if rx.RxWaiting? then 1 else 0
  }

  lemma DeadStaysDead(s: State, e: Step)
    requires s.rx.RxDead?
    ensures Next(s, e).rx.RxDead? && Next(s, e).frames == s.frames && (s.stopping ==> Next(s, e).stopping)
  {
    match e
    case RxStep => ReceiverGoesOn(s);
    case RespStep(ok) => WorkerConserves(s, s.resp, false, ok);
    case DrainStep(ok) => WorkerConserves(s, s.drain, true, ok);
    case _ =>
  }

  lemma {:induction false} StopBoundsFrames(ss: seq<State>, es: seq<Step>, m: nat, n: nat)
    requires IsRun(ss, es) && m <= n <= |es| && ss[m].stopping
    ensures ss[n].stopping && |ss[n].frames| + Awaited(ss[n].rx) <= |ss[m].frames| + Awaited(ss[m].rx)
    decreases n
  {
    if m < n {
      StopBoundsFrames(ss, es, m, n - 1);
      assert Follows(ss, es, n - 1);
      if ss[n - 1].rx.RxDead? {
        DeadStaysDead(ss[n - 1], es[n - 1]);
      } else {
        StepMovesReceiver(ss[n - 1], es[n - 1]);
      }
    }
  }

  /** Once stop() is called at most one more frame is handled: the one a receive under way brings. */
  lemma StopEndsReceiving(ss: seq<State>, es: seq<Step>, m: nat, n: nat)
    requires IsRun(ss, es) && m <= n <= |es| && ss[m].stopping
    ensures |ss[n].frames| <= |ss[m].frames| + 1
  {
    StopBoundsFrames(ss, es, m, n);
  }

  /** Of the clients in the answer's domain, exactly the requester takes it. */
  lemma AnswerIsTakenByItsRequester(frame: seq<octet>, f: Received, sequenceId: int, client: PortIdentity)
    requires Answers(frame, f)
    ensures var req, payload := ParseDelayReq(f.payload).value, ParseEthernetFrame(frame).value.value.payload;
            var h := UnpackHeader(payload).value;
            AcceptsDelayResp(h.domainNumber, sequenceId, client, h, payload)
            <==> sequenceId == req.header.sequenceId && client == req.header.source
  {
  }
}
