/** A thread of the Delay_Req machinery that no other thread disturbs: its steps from first to last. */
module DelayAlone {
  import opened Outcomes
  import opened Octets
  import opened Header
  import opened Config
  import opened Session
  import D = DelayMachine

  ghost predicate AllFit(queue: seq<D.Item>) {
    forall i | 0 <= i < |queue| :: queue[i].Fits()
  }

  /** The receive thread's next n steps. */
  function RxAlone(s: D.State, n: nat): D.State
    decreases n, s
  {
    if n == 0 then s else RxAlone(D.RxNext(s), n - 1)
  }

  /** A responding thread's steps until it is back at the head of its loop. */
  function WorkerAlone(s: D.State, w: D.Worker, ok: bool, n: nat): D.Moved
    decreases n, s
  {
    if n == 0 || !w.Holds() then D.Moved(s, w)
    else
      var m := D.WorkerNext(s, w, false, ok);
      WorkerAlone(m.s, m.w, ok, n - 1)
  }

  lemma {:induction false} RestIsRest(s: D.State, n: nat)
    requires s.rx.RxIdle?
    ensures RxAlone(s, n) == s
  {
    if n > 0 {
      RestIsRest(s, n - 1);
    }
  }

  /** A request judged by the table: counted, and queued or dropped. */
  function Judged(s: D.State, h: PTPHeader, v: Verdict, f: D.Received): D.State
    requires s.frames != []
  {
    var u := D.AnswerNext(s.(stats := s.stats.(reqRecv := s.stats.reqRecv + 1)), h, v, f);
    if u.rx.RxQueueFull? then u.(stats := u.stats.(respDropped := u.stats.respDropped + 1), rx := D.RxIdle) else u
  }

  function Requested(s: D.State, h: PTPHeader, f: D.Received): D.State
    requires s.frames != []
  {
    Judged(s.(table := s.table.Registered(h.source, f.srcMac, f.rxMono)), h, s.table.Verdict(h.source, f.rxMono), f)
  }

  /** A frame handled from first to last. */
  function Handled(s: D.State, f: D.Received): D.State {
    var j := D.Judge(s.shared.cfg, s.shared.port, f.payload);
    var t := D.ClassNext(s.(frames := s.frames + [f]), j).(rx := D.RxIdle);
    if j.found.Request? then Requested(t, j.found.header, f) else t
  }

  lemma OneStepAlone(s: D.State, n: nat)
    requires n > 0
    ensures RxAlone(s, n) == RxAlone(D.RxNext(s), n - 1)
  {
  }

  lemma AnswerSetsRx(s: D.State, rx: D.Rx, h: PTPHeader, v: Verdict, f: D.Received)
    requires s.frames != []
    ensures D.AnswerNext(s.(rx := rx), h, v, f) == D.AnswerNext(s, h, v, f)
  {
  }

  lemma CountedAlone(s: D.State, h: PTPHeader, v: Verdict)
    requires s.frames != []
    ensures RxAlone(s.(rx := D.RxJudged(h, v)), 3) ==
            RxAlone(s.(stats := s.stats.(reqRecv := s.stats.reqRecv + 1), rx := D.RxCounted(h, v)), 2)
  {
    OneStepAlone(s.(rx := D.RxJudged(h, v)), 3);
  }

  lemma AnsweredAlone(t: D.State, h: PTPHeader, v: Verdict, f: D.Received)
    requires t.frames != [] && t.frames[|t.frames| - 1] == f
    ensures RxAlone(t.(rx := D.RxCounted(h, v)), 2) == RxAlone(D.AnswerNext(t, h, v, f), 1)
  {
    OneStepAlone(t.(rx := D.RxCounted(h, v)), 2);
    AnswerSetsRx(t, D.RxCounted(h, v), h, v, f);
  }

  lemma JudgedIsTheThreadAlone(s: D.State, h: PTPHeader, v: Verdict, f: D.Received)
    requires s.frames != [] && s.frames[|s.frames| - 1] == f
    ensures RxAlone(s.(rx := D.RxJudged(h, v)), 3) == Judged(s, h, v, f)
  {
    var t := s.(stats := s.stats.(reqRecv := s.stats.reqRecv + 1));
    CountedAlone(s, h, v);
    AnsweredAlone(t, h, v, f);
    D.AnswerEffect(t, h, v, f);
    OneStepAlone(D.AnswerNext(t, h, v, f), 1);
  }

  lemma RequestedIsTheThreadAlone(s: D.State, h: PTPHeader, f: D.Received)
    requires s.frames != [] && s.frames[|s.frames| - 1] == f
    ensures RxAlone(s.(rx := D.RxRequest(h)), 4) == Requested(s, h, f)
  {
    OneStepAlone(s.(rx := D.RxRequest(h)), 4);
    JudgedIsTheThreadAlone(s.(table := s.table.Registered(h.source, f.srcMac, f.rxMono)), h,
                           s.table.Verdict(h.source, f.rxMono), f);
  }

  /** With nothing between its steps, that is what the receive thread does with a frame. */
  lemma HandledIsTheThreadAlone(s: D.State, f: D.Received)
    requires s.rx.RxIdle?
    ensures RxAlone(s.(frames := s.frames + [f], rx := D.RxGot(s.shared.cfg)), 5) == Handled(s, f)
  {
    var got := s.(frames := s.frames + [f], rx := D.RxGot(s.shared.cfg));
    var j := D.Judge(s.shared.cfg, s.shared.port, f.payload);
    var t := D.ClassNext(s.(frames := s.frames + [f]), j).(rx := D.RxIdle);
    OneStepAlone(got, 5);
    if j.found.Request? {
      RequestedIsTheThreadAlone(t, j.found.header, f);
    } else {
      RestIsRest(D.ClassNext(got, j), 4);
    }
  }

  lemma OneMoveAlone(s: D.State, w: D.Worker, ok: bool, n: nat)
    requires n > 0 && w.Holds()
    ensures var m := D.WorkerNext(s, w, false, ok); WorkerAlone(s, w, ok, n) == WorkerAlone(m.s, m.w, ok, n - 1)
  {
  }

  /** A queued request answered from first to last; `ok` tells whether the send succeeds. */
  function Responded(s: D.State, item: D.Item, ok: bool): D.State {
    var p := D.Prepare(item, s.shared.cfg, s.shared.cfg, s.shared.port);
    if !s.transportOpen then s.(abandoned := s.abandoned + 1)
    else if p.Raise? then s
    else
      var frame := FrameFor(s.shared.cfg, DelayRespKey, Some(p.value.dst), s.mac, p.value.payload);
      if frame.Raise? then s else Finished(s, item, frame.value, ok)
  }

  function Finished(s: D.State, item: D.Item, frame: seq<octet>, ok: bool): D.State {
    if ok then
      s.(wire := s.wire + [D.OnWire(item.no, frame)], stats := s.stats.(respSent := s.stats.respSent + 1),
         table := s.table.Marked(item.header.source))
    else s.(stats := s.stats.(txErrors := s.stats.txErrors + 1, respDropped := s.stats.respDropped + 1))
  }

  lemma FinishedIsTheThreadAlone(s: D.State, item: D.Item, frame: seq<octet>, ok: bool)
    ensures WorkerAlone(s, D.Framed(item, frame), ok, 3) == D.Moved(Finished(s, item, frame, ok), D.Polling)
  {
    var m1 := D.WorkerNext(s, D.Framed(item, frame), false, ok);
    var m2 := D.WorkerNext(m1.s, m1.w, false, ok);
    OneMoveAlone(s, D.Framed(item, frame), ok, 3);
    OneMoveAlone(m1.s, m1.w, ok, 2);
    OneMoveAlone(m2.s, m2.w, ok, 1);
  }

  lemma SourcedAlone(s: D.State, item: D.Item, p: D.Prepared, ok: bool)
    requires D.Prepare(item, s.shared.cfg, s.shared.cfg, s.shared.port) == Ok(p)
    ensures WorkerAlone(s, D.Sourced(item, s.shared.cfg, s.shared.cfg), ok, 5) ==
            WorkerAlone(s, D.Built(item, p.payload, p.dst), ok, 4)
  {
    OneMoveAlone(s, D.Sourced(item, s.shared.cfg, s.shared.cfg), ok, 5);
  }

  lemma FramedAlone(s: D.State, item: D.Item, p: D.Prepared, frame: seq<octet>, ok: bool)
    requires FrameFor(s.shared.cfg, DelayRespKey, Some(p.dst), s.mac, p.payload) == Ok(frame)
    ensures WorkerAlone(s, D.Built(item, p.payload, p.dst), ok, 4) == WorkerAlone(s, D.Framed(item, frame), ok, 3)
  {
    OneMoveAlone(s, D.Built(item, p.payload, p.dst), ok, 4);
  }

  lemma TakenAlone(s: D.State, item: D.Item, ok: bool)
    requires s.transportOpen
    ensures WorkerAlone(s, D.Holding(item), ok, 8) ==
            WorkerAlone(s, D.Sourced(item, s.shared.cfg, s.shared.cfg), ok, 5)
  {
    OneMoveAlone(s, D.Holding(item), ok, 8);
    OneMoveAlone(s, D.Open(item), ok, 7);
    OneMoveAlone(s, D.Ready(item, s.shared.cfg), ok, 6);
  }

  /** With nothing between its steps, that is what a responding thread does with an item. */
  lemma RespondedIsTheThreadAlone(s: D.State, item: D.Item, ok: bool)
    requires item.Fits() && s.shared.cfg.Valid() && |s.mac| == 6 && s.transportOpen
    ensures WorkerAlone(s, D.Holding(item), ok, 8) == D.Moved(Responded(s, item, ok), D.Polling)
  {
    var cfg := s.shared.cfg;
    D.PrepareAnswers(item, cfg, cfg, s.shared.port);
    var p := D.Prepare(item, cfg, cfg, s.shared.port).value;
    D.FramingAnswers(item, cfg, p.dst, s.mac, p.payload);
    var frame := FrameFor(cfg, DelayRespKey, Some(p.dst), s.mac, p.payload).value;
    TakenAlone(s, item, ok);
    SourcedAlone(s, item, p, ok);
    FramedAlone(s, item, p, frame, ok);
    FinishedIsTheThreadAlone(s, item, frame, ok);
  }

  /** The item at the head of the queue answered, if there is one. */
  function DrainedOne(s: D.State, ok: bool): D.State {
    if s.queue == [] then s else Responded(s.(queue := s.queue[1..]), s.queue[0], ok)
  }

  /** The queue's first n items answered; ok(k) tells whether the k-th send succeeds. */
  function Drained(s: D.State, n: nat, ok: nat -> bool): D.State
    decreases n, s
  {
    if n == 0 then s else DrainedOne(Drained(s, n - 1, ok), ok(n - 1))
  }

  /** Answering one item: the answer goes out, addressed to its request, or is counted as dropped. */
  lemma RespondedAnswers(s: D.State, item: D.Item, ok: bool)
    requires item.Fits() && s.shared.cfg.Valid() && |s.mac| == 6 && s.transportOpen
    ensures var t := Responded(s, item, ok);
            && t.queue == s.queue && t.shared == s.shared && t.mac == s.mac && t.transportOpen
            && t.stats.respSent == s.stats.respSent + (if ok then 1 else 0)
            && t.stats.respDropped == s.stats.respDropped + (if ok then 0 else 1)
            && if ok
               then
                 && |t.wire| == |s.wire| + 1 && t.wire[..|s.wire|] == s.wire
                 && var x := t.wire[|s.wire|];
                    && x.no == item.no && D.FrameAnswers(x.frame, item) && |x.frame| >= 12 && x.frame[6..12] == s.mac
                    && Bytes(x.frame[0..6]) == (if s.shared.cfg.delayRespUnicast then Bytes(item.srcMac)
                                                else s.shared.cfg.Effective(DelayRespKey, DstMac))
               else t.wire == s.wire
  {
    var cfg := s.shared.cfg;
    D.PrepareAnswers(item, cfg, cfg, s.shared.port);
    var p := D.Prepare(item, cfg, cfg, s.shared.port).value;
    D.FramingAnswers(item, cfg, p.dst, s.mac, p.payload);
  }

  predicate AllOk(ok: nat -> bool, n: nat) {
    forall k | 0 <= k < n :: ok(k)
  }

  /** Of the frames sent since, the k-th answers the k-th item. */
  ghost predicate WireAnswersQueue(before: seq<D.OnWire>, after: seq<D.OnWire>, queue: seq<D.Item>, n: nat)
    requires n <= |queue|
  {
    |after| == |before| + n && forall k | 0 <= k < n :: D.FrameAnswers(after[|before| + k].frame, queue[k])
  }

  lemma WireAnswersOneMore(before: seq<D.OnWire>, after: seq<D.OnWire>, longer: seq<D.OnWire>, queue: seq<D.Item>, n: nat)
    requires n < |queue| && WireAnswersQueue(before, after, queue, n)
    requires |longer| == |after| + 1 && longer[..|after|] == after && D.FrameAnswers(longer[|after|].frame, queue[n])
    ensures WireAnswersQueue(before, longer, queue, n + 1)
  {
    forall k | 0 <= k < n + 1
      ensures D.FrameAnswers(longer[|before| + k].frame, queue[k])
    {
      assert k < n ==> longer[|before| + k] == after[|before| + k];
    }
  }

  /** Draining takes items from the head of the queue; while sends succeed, the k-th frame sent answers
      the k-th item. */
  lemma {:induction false} DrainAnswersInOrder(s: D.State, n: nat, ok: nat -> bool)
    requires s.shared.cfg.Valid() && |s.mac| == 6 && s.transportOpen && AllFit(s.queue) && n <= |s.queue|
    ensures var t := Drained(s, n, ok);
            && t.queue == s.queue[n..] && t.shared == s.shared && t.mac == s.mac && t.transportOpen
            && t.stats.respSent + t.stats.respDropped == s.stats.respSent + s.stats.respDropped + n
            && (AllOk(ok, n) ==> WireAnswersQueue(s.wire, t.wire, s.queue, n))
  {
    if n > 0 {
      DrainAnswersInOrder(s, n - 1, ok);
      var t := Drained(s, n - 1, ok);
      assert t.queue[0] == s.queue[n - 1] && t.queue[1..] == s.queue[n..];
      RespondedAnswers(t.(queue := t.queue[1..]), t.queue[0], ok(n - 1));
      if AllOk(ok, n) {
        WireAnswersOneMore(s.wire, t.wire, Drained(s, n, ok).wire, s.queue, n - 1);
      }
    }
  }
}
