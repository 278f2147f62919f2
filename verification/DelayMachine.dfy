/** From Delay_Req to Delay_Resp: the receive thread, the responding thread, the drain of stop() and
    runtime updates, one shared-memory step at a time. A step that is not enabled changes nothing. */
module DelayMachine {
  import opened Outcomes
  import opened Octets
  import opened Timestamp
  import opened Header
  import opened Messages
  import opened Transport
  import opened Config
  import U = RuntimeUpdate
  import S = Session

  const QUEUE_MAX := 1024

  /** A frame as the transport hands it over. */
  datatype Received = Received(srcMac: seq<octet>, payload: seq<octet>, rxNs: nat, rxMono: real) {
    /** The clock has not run out of its 48 bits of seconds. */
    predicate InRange() {
      |srcMac| == 6 && FromNanoseconds(rxNs).Ok?
    }
  }

  /** What is queued for one request; `no` is the number of the frame it came in, for the record. */
  datatype Item = Item(no: nat, header: PTPHeader, rxNs: nat, srcMac: seq<octet>) {
    predicate Fits() {
      0 <= header.sequenceId < 0x1_0000 && FromNanoseconds(rxNs).Ok? && |srcMac| == 6
    }
  }

  // ---- Classification of a received frame ----

  datatype Class = ParseError | BadVersion | OtherDomain | Ignored | OtherType | Request(header: PTPHeader)

  function EffectiveDomains(cfg: MasterConfig): set<Value> {
    {cfg.Effective(AnnounceKey, DomainNumber), cfg.Effective(SyncKey, DomainNumber),
     cfg.Effective(FollowUpKey, DomainNumber), cfg.Effective(DelayRespKey, DomainNumber)}
  }

  function OwnIds(cfg: MasterConfig, own: PortIdentity): set<Option<seq<octet>>> {
    {Some(own.clockIdentity)}
    + ({cfg.EffectiveClockIdentity(AnnounceKey), cfg.EffectiveClockIdentity(SyncKey),
        cfg.EffectiveClockIdentity(FollowUpKey), cfg.EffectiveClockIdentity(DelayRespKey)} - {None})
  }

  function Classify(cfg: MasterConfig, own: PortIdentity, payload: seq<octet>): (c: Class)
    ensures c.Request? ==> ParseDelayReq(payload).Ok? && UnpackHeader(payload) == Ok(c.header)
  {
    var h := UnpackHeader(payload);
    if h.Raise? then ParseError
    else if h.value.versionPtp != 2 then BadVersion
    else if Num(h.value.domainNumber) !in EffectiveDomains(cfg) then OtherDomain
    else if Some(h.value.source.clockIdentity) in OwnIds(cfg, own) then Ignored
    else if h.value.messageType == ANNOUNCE then Ignored
    else if h.value.messageType != DELAY_REQ then OtherType
    else if ParseDelayReq(payload).Raise? then ParseError
    else Request(h.value)
  }

  // ---- Counters ----

  datatype Stats = Stats(
    reqRecv: nat, respSent: nat, respDropped: nat,
    badVersion: nat, otherDomain: nat, otherType: nat, parseErrors: nat,
    overflow: nat, queueFull: nat, txErrors: nat)

  const NO_STATS := Stats(0, 0, 0, 0, 0, 0, 0, 0, 0, 0)

  // ---- Threads ----

  datatype Rx =
    | RxIdle                                    // at the head of the loop
    | RxWaiting                                 // in the transport's recv
    | RxGot(cfg: MasterConfig)                  // frame in hand, configuration read
    | RxRequest(header: PTPHeader)              // a Delay_Req: on to the session table
    | RxJudged(header: PTPHeader, v: S.Verdict) // the table has answered; on to counting the request
    | RxCounted(header: PTPHeader, v: S.Verdict)
    | RxQueueFull                               // resp_queue_full counted, delay_resp_dropped still to follow
    | RxExited
    | RxDead                                    // a tagged frame of 16 or 17 octets raised struct.error
  {
    /** No frame is in hand. */
    predicate Rests() {
      RxIdle? || RxWaiting? || RxExited? || RxDead?
    }
  }

  datatype Worker =
    | NotStarted
    | Polling                                   // at the head of the loop
    | Waiting                                   // in the queue's get
    | Holding(item: Item)                       // on to reading the transport
    | Open(item: Item)                          // transport read; on to reading the configuration
    | Ready(item: Item, cfg: MasterConfig)      // on to _source_for, which reads it again
    | Sourced(item: Item, cfg: MasterConfig, sourceCfg: MasterConfig) // on to reading source_port
    | Built(item: Item, payload: seq<octet>, dst: seq<octet>) // on to _send_frame, which reads it again
    | Framed(item: Item, frame: seq<octet>)     // on to the send
    | Sent(item: Item)                          // on to counting it
    | Marking(item: Item)                       // on to the session's own count
    | Unsent(item: Item)                        // the send raised; on to tx_errors
    | Dropping(item: Item)                      // on to delay_resp_dropped
    | Crashed(item: Item)                       // an exception nobody catches
    | Exited
  {
    predicate Holds() {
      Holding? || Open? || Ready? || Sourced? || Built? || Framed? || Sent? || Marking? || Unsent? || Dropping? || Crashed?
    }

    predicate AtSend() {
      Framed? || Sent? || Marking? || Unsent? || Dropping?
    }

    /** The answer is still to be sent. */
    predicate BeforeSend() {
      Holding? || Open? || Ready? || Sourced? || Built? || Framed?
    }
  }

  datatype OnWire = OnWire(no: nat, frame: seq<octet>)

  /** How a frame was classified, and by what configuration and port identity. */
  datatype Judgement = Judgement(cfg: MasterConfig, own: PortIdentity, found: Class)

  datatype State = State(
    shared: U.Shared,
    table: S.Table,
    stats: Stats,
    queue: seq<Item>,
    stopping: bool,
    mac: seq<octet>,                 // the transport's own address
    transportOpen: bool,
    rx: Rx,
    resp: Worker,                    // the RESP thread
    drain: Worker,                   // the drain of stop()
    // for the record
    frames: seq<Received>,
    accepted: set<nat>,
    wire: seq<OnWire>,
    abandoned: nat,
    judged: seq<Judgement>,
    recvErrors: nat)

  datatype Step =
    | Recv(data: seq<octet>, rxNs: nat, rxMono: real)
    | RecvFails
    | RxPoll                 // the receive loop looks at the stop event
    | RxStep
    | RespStep(ok: bool)     // ok: the get finds an item in time, the send succeeds
    | DrainStep(ok: bool)    // ok: and the drain's deadline has not passed
    | Stop
    | StartDrain
    | Close
    | Update(e: U.Step)

  // ---- The receive thread ----

  function RecvNext(s: State, data: seq<octet>, rxNs: nat, rxMono: real): State {
    var parsed := ParseEthernetFrame(data);
    if !s.rx.RxWaiting? then s
    else if parsed.Raise? then s.(rx := RxDead)
    else if parsed.value.None? then s.(rx := RxIdle)
    else
      var f := Received(parsed.value.value.src, parsed.value.value.payload, rxNs, rxMono);
      if !f.InRange() then s else s.(frames := s.frames + [f], rx := RxGot(s.shared.cfg))
  }

  function Counted(st: Stats, c: Class): Stats {
    match c
    case ParseError => st.(parseErrors := st.parseErrors + 1)
    case BadVersion => st.(badVersion := st.badVersion + 1)
    case OtherDomain => st.(otherDomain := st.otherDomain + 1)
    case OtherType => st.(otherType := st.otherType + 1)
    case Ignored => st
    case Request(_) => st
  }

  /** The frame in hand has been classified. */
  function ClassNext(s: State, j: Judgement): State {
    s.(stats := Counted(s.stats, j.found), judged := s.judged + [j],
       rx := if j.found.Request? then RxRequest(j.found.header) else RxIdle)
  }

  /** A counted request is dropped or queued. */
  function AnswerNext(s: State, h: PTPHeader, v: S.Verdict, f: Received): State
    requires s.frames != []
  {
    if v.Overflow? then s.(stats := s.stats.(overflow := s.stats.overflow + 1), rx := RxIdle)
    else if v.Refused? then s.(stats := s.stats.(respDropped := s.stats.respDropped + 1), rx := RxIdle)
    else if |s.queue| < QUEUE_MAX then
      var no := |s.frames| - 1;
      s.(queue := s.queue + [Item(no, h, f.rxNs, f.srcMac)], accepted := s.accepted + {no}, rx := RxIdle)
    else s.(stats := s.stats.(queueFull := s.stats.queueFull + 1), rx := RxQueueFull)
  }

  function Judge(cfg: MasterConfig, own: PortIdentity, payload: seq<octet>): Judgement {
    Judgement(cfg, own, Classify(cfg, own, payload))
  }

  function RxNext(s: State): State {
    if s.frames == [] then s
    else
      var f := s.frames[|s.frames| - 1];
      match s.rx
      case RxGot(cfg) => ClassNext(s, Judge(cfg, s.shared.port, f.payload))
      case RxRequest(h) =>
        s.(table := s.table.Registered(h.source, f.srcMac, f.rxMono),
           rx := RxJudged(h, s.table.Verdict(h.source, f.rxMono)))
      case RxJudged(h, v) => s.(stats := s.stats.(reqRecv := s.stats.reqRecv + 1), rx := RxCounted(h, v))
      case RxCounted(h, v) => AnswerNext(s, h, v, f)
      case RxQueueFull => s.(stats := s.stats.(respDropped := s.stats.respDropped + 1), rx := RxIdle)
      case _ => s
  }

  // ---- The responding threads ----

  /** What a step leaves: the state but for the thread that took it, and that thread. */
  datatype Moved = Moved(s: State, w: Worker)

  function PollNext(s: State, drain: bool, ok: bool): Moved {
    Moved(s, if (if drain then !ok else s.stopping) then Exited else Waiting)
  }

  function GetNext(s: State, drain: bool, ok: bool): Moved {
    if s.queue != [] && ok then Moved(s.(queue := s.queue[1..]), Holding(s.queue[0]))
    else if s.queue == [] then Moved(s, if drain then Exited else Polling)
    else Moved(s, Waiting)
  }

  datatype Prepared = Prepared(payload: seq<octet>, dst: seq<octet>)

  function Prepare(item: Item, cfg: MasterConfig, sourceCfg: MasterConfig, own: PortIdentity): Result<Prepared> {
    var t2 :- FromNanoseconds(item.rxNs);
    var source :- SourceFor(sourceCfg, own, DelayRespKey);
    var payload :- DelayRespPayload(cfg, source, t2, item.header.source, item.header.sequenceId);
    var dst :- if cfg.delayRespUnicast then Ok(item.srcMac) else AsBytes(cfg.Effective(DelayRespKey, DstMac));
    Ok(Prepared(payload, dst))
  }

  function PreparedNext(item: Item, p: Result<Prepared>): Worker {
    if p.Ok? then Built(item, p.value.payload, p.value.dst) else Crashed(item)
  }

  function FramedNext(item: Item, frame: Result<seq<octet>>): Worker {
    if frame.Ok? then Framed(item, frame.value) else Crashed(item)
  }

  /** Up to the send. */
  function TakeNext(s: State, w: Worker, drain: bool, ok: bool): Moved {
    match w
    case Polling => PollNext(s, drain, ok)
    case Waiting => GetNext(s, drain, ok)
    case Holding(item) => if s.transportOpen then Moved(s, Open(item)) else Moved(s.(abandoned := s.abandoned + 1), Polling)
    case Open(item) => Moved(s, Ready(item, s.shared.cfg))
    case Ready(item, cfg) => Moved(s, Sourced(item, cfg, s.shared.cfg))
    case Sourced(item, cfg, sourceCfg) => Moved(s, PreparedNext(item, Prepare(item, cfg, sourceCfg, s.shared.port)))
    case Built(item, payload, dst) =>
      Moved(s, FramedNext(item, FrameFor(s.shared.cfg, DelayRespKey, Some(dst), s.mac, payload)))
    case _ => Moved(s, w)
  }

  /** From the send on. */
  function SendNext(s: State, w: Worker, ok: bool): Moved {
    match w
    case Framed(item, frame) =>
      if ok then Moved(s.(wire := s.wire + [OnWire(item.no, frame)]), Sent(item)) else Moved(s, Unsent(item))
    case Sent(item) => Moved(s.(stats := s.stats.(respSent := s.stats.respSent + 1)), Marking(item))
    case Marking(item) => Moved(s.(table := s.table.Marked(item.header.source)), Polling)
    case Unsent(item) => Moved(s.(stats := s.stats.(txErrors := s.stats.txErrors + 1)), Dropping(item))
    case Dropping(item) => Moved(s.(stats := s.stats.(respDropped := s.stats.respDropped + 1)), Polling)
    case _ => Moved(s, w)
  }

  function WorkerNext(s: State, w: Worker, drain: bool, ok: bool): Moved {
    if w.AtSend() then SendNext(s, w, ok) else TakeNext(s, w, drain, ok)
  }

  function Next(s: State, e: Step): State {
    match e
    case Recv(data, rxNs, rxMono) => RecvNext(s, data, rxNs, rxMono)
    case RecvFails =>
      if !s.rx.RxWaiting? then s
      else s.(stats := s.stats.(parseErrors := s.stats.parseErrors + 1), recvErrors := s.recvErrors + 1, rx := RxIdle)
    case RxPoll => if s.rx.RxIdle? then s.(rx := if s.stopping then RxExited else RxWaiting) else s
    case RxStep => RxNext(s)
    case RespStep(ok) =>
      var m := WorkerNext(s, s.resp, false, ok);
      m.s.(resp := m.w)
    case DrainStep(ok) =>
      var m := WorkerNext(s, s.drain, true, ok);
      m.s.(drain := m.w)
    case Stop => s.(stopping := true)
    case StartDrain => if s.stopping && s.drain.NotStarted? then s.(drain := Polling) else s
    case Close => if s.drain.Exited? then s.(transportOpen := false) else s
    case Update(u) => s.(shared := U.Next(s.shared, u))
  }

  ghost predicate Initial(s: State) {
    && s.shared.cfg.Valid() && s.shared.callers == map[] && s.shared.lock == None
    && s.table.maxSlaves >= 1 && s.table.sessions == [] && s.table.overflow == 0
    && s.stats == NO_STATS && s.queue == [] && !s.stopping && |s.mac| == 6 && s.transportOpen
    && s.rx == RxIdle && s.resp == Polling && s.drain == NotStarted
    && s.frames == [] && s.accepted == {} && s.wire == [] && s.abandoned == 0 && s.judged == [] && s.recvErrors == 0
  }

  ghost predicate Follows(ss: seq<State>, es: seq<Step>, n: nat)
    requires |ss| == |es| + 1 && n < |es|
  {
    ss[n + 1] == Next(ss[n], es[n])
  }

  ghost predicate IsRun(ss: seq<State>, es: seq<Step>) {
    |ss| == |es| + 1 && Initial(ss[0]) && forall n | 0 <= n < |es| :: Follows(ss, es, n)
  }

  // ---- Conservation of requests and of frames ----

  function RxWeight(rx: Rx): nat {
    if rx.RxCounted? || rx.RxQueueFull? then 1 else 0
  }

  function WorkerWeight(w: Worker): nat {
    if w.BeforeSend() || w.Sent? || w.Unsent? || w.Dropping? || w.Crashed? then 1 else 0
  }

  /** Every request counted has been answered, dropped, overflowed, is queued, in hand, or was
      abandoned because the transport had gone. */
  ghost predicate RequestsConserved(s: State) {
    s.stats.reqRecv ==
    s.stats.respSent + s.stats.respDropped + s.stats.overflow + |s.queue| + s.abandoned
    + RxWeight(s.rx) + WorkerWeight(s.resp) + WorkerWeight(s.drain)
  }

  function SentWeight(w: Worker): nat {
    if w.Sent? then 1 else 0
  }

  /** The count of answers sent is the number of frames on the wire, but for those about to be counted. */
  ghost predicate WireCounted(s: State) {
    |s.wire| == s.stats.respSent + SentWeight(s.resp) + SentWeight(s.drain)
  }

  /** How many frames were found to be of a class other than requests. */
  function CountOf(judged: seq<Judgement>, c: Class): nat {
    if judged == [] then 0
    else CountOf(judged[..|judged| - 1], c) + (if judged[|judged| - 1].found == c then 1 else 0)
  }

  function Requests(judged: seq<Judgement>): nat {
    if judged == [] then 0
    else Requests(judged[..|judged| - 1]) + (if judged[|judged| - 1].found.Request? then 1 else 0)
  }

  lemma CountsGrow(judged: seq<Judgement>, j: Judgement, c: Class)
    ensures CountOf(judged + [j], c) == CountOf(judged, c) + (if j.found == c then 1 else 0)
    ensures Requests(judged + [j]) == Requests(judged) + (if j.found.Request? then 1 else 0)
  {
    assert (judged + [j])[..|judged|] == judged;
  }

  /** The classes are all there are. */
  lemma {:induction false} CountsAddUp(judged: seq<Judgement>)
    ensures |judged| == CountOf(judged, ParseError) + CountOf(judged, BadVersion) + CountOf(judged, OtherDomain)
                        + CountOf(judged, OtherType) + CountOf(judged, Ignored) + Requests(judged)
  {
    if judged != [] {
      CountsAddUp(judged[..|judged| - 1]);
    }
  }

  /** Each counter counts exactly the frames found to be of its class; failed receives count as parse errors. */
  ghost predicate FramesConserved(s: State) {
    && s.stats.parseErrors == s.recvErrors + CountOf(s.judged, ParseError)
    && s.stats.badVersion == CountOf(s.judged, BadVersion)
    && s.stats.otherDomain == CountOf(s.judged, OtherDomain)
    && s.stats.otherType == CountOf(s.judged, OtherType)
    && s.stats.reqRecv + (if s.rx.RxRequest? || s.rx.RxJudged? then 1 else 0) == Requests(s.judged)
  }

  ghost predicate Conserved(s: State) {
    RequestsConserved(s) && FramesConserved(s) && WireCounted(s) && (s.rx.Rests() || s.frames != [])
  }

  lemma ClassConserves(s: State, j: Judgement)
    requires Conserved(s) && s.rx.RxGot?
    ensures Conserved(ClassNext(s, j))
  {
    CountsGrow(s.judged, j, ParseError);
    CountsGrow(s.judged, j, BadVersion);
    CountsGrow(s.judged, j, OtherDomain);
    CountsGrow(s.judged, j, OtherType);
  }

  function Settled(s: State): nat {
    s.stats.respSent + s.stats.respDropped + s.stats.overflow + |s.queue| + s.abandoned
  }

  /** A counted request is settled, or on its way to be. */
  lemma AnswerEffect(s: State, h: PTPHeader, v: S.Verdict, f: Received)
    requires s.frames != []
    ensures var r := AnswerNext(s, h, v, f);
            && r == s.(stats := r.stats, queue := r.queue, accepted := r.accepted, rx := r.rx)
            && r.stats == s.stats.(overflow := r.stats.overflow, respDropped := r.stats.respDropped,
                                   queueFull := r.stats.queueFull)
            && Settled(r) + RxWeight(r.rx) == Settled(s) + 1 && (r.rx.RxIdle? || r.rx.RxQueueFull?)
  {
  }

  lemma AnswerConserves(s: State, h: PTPHeader, v: S.Verdict, f: Received)
    requires Conserved(s) && s.rx.RxCounted?
    ensures Conserved(AnswerNext(s, h, v, f))
  {
    AnswerEffect(s, h, v, f);
  }

  lemma RxConserves(s: State)
    requires Conserved(s)
    ensures Conserved(RxNext(s))
  {
    if s.frames != [] {
      var f := s.frames[|s.frames| - 1];
      match s.rx
      case RxGot(cfg) => ClassConserves(s, Judge(cfg, s.shared.port, f.payload));
      case RxCounted(h, v) => AnswerConserves(s, h, v, f);
      case _ =>
    }
  }

  /** What a thread's step may change of the state, and what it leaves in balance. */
  ghost predicate Balanced(s: State, w: Worker, m: Moved) {
    && Settled(m.s) + WorkerWeight(m.w) == Settled(s) + WorkerWeight(w)
    && |m.s.wire| - m.s.stats.respSent - SentWeight(m.w) == |s.wire| - s.stats.respSent - SentWeight(w)
    && m.s == s.(stats := m.s.stats, queue := m.s.queue, wire := m.s.wire, abandoned := m.s.abandoned, table := m.s.table)
    && m.s.stats == s.stats.(respSent := m.s.stats.respSent, respDropped := m.s.stats.respDropped,
                             txErrors := m.s.stats.txErrors)
  }

  lemma SendConserves(s: State, w: Worker, ok: bool)
    ensures Balanced(s, w, SendNext(s, w, ok))
  {
  }

  lemma TakeConserves(s: State, w: Worker, drain: bool, ok: bool)
    requires !w.AtSend()
    ensures Balanced(s, w, TakeNext(s, w, drain, ok))
  {
  }

  lemma WorkerConserves(s: State, w: Worker, drain: bool, ok: bool)
    ensures Balanced(s, w, WorkerNext(s, w, drain, ok))
  {
    if w.AtSend() {
      SendConserves(s, w, ok);
    } else {
      TakeConserves(s, w, drain, ok);
    }
  }

  lemma RespConserves(s: State, ok: bool)
    requires Conserved(s)
    ensures Conserved(Next(s, RespStep(ok)))
  {
    WorkerConserves(s, s.resp, false, ok);
  }

  lemma DrainConserves(s: State, ok: bool)
    requires Conserved(s)
    ensures Conserved(Next(s, DrainStep(ok)))
  {
    WorkerConserves(s, s.drain, true, ok);
  }

  /** Receiving adds at most one frame and changes nothing but the receive thread's place. */
  lemma RecvEffect(s: State, data: seq<octet>, rxNs: nat, rxMono: real)
    ensures var r := RecvNext(s, data, rxNs, rxMono);
            && r == s.(rx := r.rx, frames := r.frames)
            && (r == s || (s.rx.RxWaiting? && r.frames == s.frames && (r.rx.RxIdle? || r.rx.RxDead?))
                || (&& s.rx.RxWaiting? && r.rx == RxGot(s.shared.cfg)
                    && |r.frames| == |s.frames| + 1 && r.frames == s.frames + [r.frames[|s.frames|]]
                    && r.frames[|s.frames|].InRange()))
  {
  }

  lemma RecvConserves(s: State, data: seq<octet>, rxNs: nat, rxMono: real)
    requires Conserved(s)
    ensures Conserved(RecvNext(s, data, rxNs, rxMono))
  {
    RecvEffect(s, data, rxNs, rxMono);
  }

  lemma StepConserves(s: State, e: Step)
    requires Conserved(s)
    ensures Conserved(Next(s, e))
  {
    match e
    case Recv(data, rxNs, rxMono) => RecvConserves(s, data, rxNs, rxMono);
    case RxStep => RxConserves(s);
    case RespStep(ok) => RespConserves(s, ok);
    case DrainStep(ok) => DrainConserves(s, ok);
    case _ =>
  }

  // ---- Each request is answered at most once, and in order until stop() ----

  ghost predicate Ahead(no: nat, queue: seq<Item>) {
    forall i | 0 <= i < |queue| :: no < queue[i].no
  }

  ghost predicate Unanswered(no: nat, wire: seq<OnWire>) {
    forall j | 0 <= j < |wire| :: wire[j].no != no
  }

  /** The queue is in the order of arrival, and what is on the wire is apart and ahead of it. */
  ghost predicate Booked(queue: seq<Item>, accepted: set<nat>, wire: seq<OnWire>) {
    && (forall i | 0 <= i < |queue| :: queue[i].no in accepted)
    && (forall i, j | 0 <= i < j < |queue| :: queue[i].no < queue[j].no)
    && (forall j | 0 <= j < |wire| :: wire[j].no in accepted && Ahead(wire[j].no, queue))
    && (forall i, j | 0 <= i < j < |wire| :: wire[i].no != wire[j].no)
  }

  ghost predicate Placed(w: Worker, queue: seq<Item>, accepted: set<nat>, wire: seq<OnWire>) {
    w.Holds() ==>
      && w.item.no in accepted && Ahead(w.item.no, queue)
      && (w.BeforeSend() ==> Unanswered(w.item.no, wire))
  }

  predicate Apart(w: Worker, o: Worker) {
    w.Holds() && o.Holds() ==> w.item.no != o.item.no
  }

  /** While stop() has not begun to drain, answers leave in the order of the requests. */
  ghost predicate InOrder(wire: seq<OnWire>, resp: Worker) {
    && (forall i, j | 0 <= i < j < |wire| :: wire[i].no < wire[j].no)
    && (resp.BeforeSend() ==> forall j | 0 <= j < |wire| :: wire[j].no < resp.item.no)
  }

  ghost predicate Orderly(s: State) {
    && Booked(s.queue, s.accepted, s.wire)
    && Placed(s.resp, s.queue, s.accepted, s.wire) && Placed(s.drain, s.queue, s.accepted, s.wire)
    && Apart(s.resp, s.drain)
    && (s.drain.NotStarted? ==> InOrder(s.wire, s.resp))
    && |s.queue| <= QUEUE_MAX
  }

  /** Frames accepted so far came before the one in the receive thread's hand. */
  ghost predicate Numbered(s: State) {
    && (forall no | no in s.accepted :: no < |s.frames|)
    && (!s.rx.Rests() ==> s.frames != [] && |s.frames| - 1 !in s.accepted)
  }

  lemma TakeKeeps(queue: seq<Item>, accepted: set<nat>, wire: seq<OnWire>, o: Worker)
    requires queue != [] && Booked(queue, accepted, wire) && Placed(o, queue, accepted, wire)
    ensures Booked(queue[1..], accepted, wire)
    ensures Placed(Holding(queue[0]), queue[1..], accepted, wire) && Placed(o, queue[1..], accepted, wire)
    ensures Apart(Holding(queue[0]), o)
    ensures forall j | 0 <= j < |wire| :: wire[j].no < queue[0].no
  {
  }

  lemma SendKeeps(queue: seq<Item>, accepted: set<nat>, wire: seq<OnWire>, w: Worker, o: Worker)
    requires w.Framed? && Booked(queue, accepted, wire)
    requires Placed(w, queue, accepted, wire) && Placed(o, queue, accepted, wire) && Apart(w, o)
    ensures Booked(queue, accepted, wire + [OnWire(w.item.no, w.frame)])
    ensures Placed(Sent(w.item), queue, accepted, wire + [OnWire(w.item.no, w.frame)])
    ensures Placed(o, queue, accepted, wire + [OnWire(w.item.no, w.frame)])
  {
  }

  lemma PutKeeps(queue: seq<Item>, accepted: set<nat>, wire: seq<OnWire>, item: Item, w: Worker)
    requires Booked(queue, accepted, wire) && Placed(w, queue, accepted, wire)
    requires forall no | no in accepted :: no < item.no
    ensures Booked(queue + [item], accepted + {item.no}, wire) && Placed(w, queue + [item], accepted + {item.no}, wire)
  {
  }

  /** A worker's step takes the head of the queue, sends the answer in its hand, or does neither. */
  datatype Effect = Took | Answered | Neither

  function EffectOf(s: State, w: Worker, ok: bool): Effect {
    if w.Waiting? && s.queue != [] && ok then Took
    else if w.Framed? && ok then Answered
    else Neither
  }

  lemma WorkerEffect(s: State, w: Worker, drain: bool, ok: bool)
    ensures var m := WorkerNext(s, w, drain, ok);
            match EffectOf(s, w, ok)
            case Took => m.s.queue == s.queue[1..] && m.s.wire == s.wire && m.w == Holding(s.queue[0])
            case Answered =>
              m.s.queue == s.queue && m.s.wire == s.wire + [OnWire(w.item.no, w.frame)] && m.w == Sent(w.item)
            case Neither =>
              && m.s.queue == s.queue && m.s.wire == s.wire
              && (m.w.Holds() ==> w.Holds() && m.w.item == w.item && (m.w.BeforeSend() ==> w.BeforeSend()))
    ensures var m := WorkerNext(s, w, drain, ok); m.w.NotStarted? <==> w.NotStarted?
  {
  }

  lemma WorkerKeepsOrder(s: State, w: Worker, o: Worker, drain: bool, ok: bool)
    requires Booked(s.queue, s.accepted, s.wire) && Apart(w, o)
    requires Placed(w, s.queue, s.accepted, s.wire) && Placed(o, s.queue, s.accepted, s.wire)
    ensures var m := WorkerNext(s, w, drain, ok);
            && Booked(m.s.queue, s.accepted, m.s.wire) && Apart(m.w, o)
            && Placed(m.w, m.s.queue, s.accepted, m.s.wire) && Placed(o, m.s.queue, s.accepted, m.s.wire)
            && |m.s.queue| <= |s.queue|
            && (InOrder(s.wire, w) ==> InOrder(m.s.wire, m.w))
  {
    WorkerEffect(s, w, drain, ok);
    match EffectOf(s, w, ok)
    case Took => TakeKeeps(s.queue, s.accepted, s.wire, o);
    case Answered => SendKeeps(s.queue, s.accepted, s.wire, w, o);
    case Neither =>
  }

  lemma AnswerKeepsOrder(s: State, h: PTPHeader, v: S.Verdict, f: Received)
    requires Orderly(s) && Numbered(s) && s.rx.RxCounted?
    ensures Orderly(AnswerNext(s, h, v, f)) && Numbered(AnswerNext(s, h, v, f))
  {
    var item := Item(|s.frames| - 1, h, f.rxNs, f.srcMac);
    PutKeeps(s.queue, s.accepted, s.wire, item, s.resp);
    PutKeeps(s.queue, s.accepted, s.wire, item, s.drain);
  }

  lemma ClassKeepsOrder(s: State, j: Judgement)
    requires Orderly(s) && Numbered(s) && s.rx.RxGot?
    ensures Orderly(ClassNext(s, j)) && Numbered(ClassNext(s, j))
  {
  }

  lemma RxKeepsOrder(s: State)
    requires Orderly(s) && Numbered(s)
    ensures Orderly(RxNext(s)) && Numbered(RxNext(s))
  {
    if s.frames != [] {
      var f := s.frames[|s.frames| - 1];
      match s.rx
      case RxCounted(h, v) => AnswerKeepsOrder(s, h, v, f);
      case RxGot(cfg) => ClassKeepsOrder(s, Judge(cfg, s.shared.port, f.payload));
      case _ =>
    }
  }

  lemma RespKeepsOrder(s: State, ok: bool)
    requires Orderly(s) && Numbered(s)
    ensures Orderly(Next(s, RespStep(ok))) && Numbered(Next(s, RespStep(ok)))
  {
    WorkerKeepsOrder(s, s.resp, s.drain, false, ok);
    WorkerConserves(s, s.resp, false, ok);
  }

  lemma DrainKeepsOrder(s: State, ok: bool)
    requires Orderly(s) && Numbered(s)
    ensures Orderly(Next(s, DrainStep(ok))) && Numbered(Next(s, DrainStep(ok)))
  {
    WorkerKeepsOrder(s, s.drain, s.resp, true, ok);
    WorkerEffect(s, s.drain, true, ok);
    WorkerConserves(s, s.drain, true, ok);
  }

  lemma StepKeepsOrder(s: State, e: Step)
    requires Orderly(s) && Numbered(s)
    ensures Orderly(Next(s, e)) && Numbered(Next(s, e))
  {
    match e
    case Recv(data, rxNs, rxMono) => RecvEffect(s, data, rxNs, rxMono);
    case RxStep => RxKeepsOrder(s);
    case RespStep(ok) => RespKeepsOrder(s, ok);
    case DrainStep(ok) => DrainKeepsOrder(s, ok);
    case _ =>
  }

  // ---- What the answers say ----

  /** The queue's item for a frame. */
  ghost predicate Matches(item: Item, frames: seq<Received>) {
    && item.no < |frames|
    && var f := frames[item.no];
       && f.InRange() && ParseDelayReq(f.payload).Ok?
       && item == Item(item.no, ParseDelayReq(f.payload).value.header, f.rxNs, f.srcMac)
  }

  /** A Delay_Resp that echoes a request's sequence id and port identity and carries its receive time. */
  predicate PayloadAnswers(payload: seq<octet>, item: Item) {
    var h := UnpackHeader(payload);
    && h.Ok? && h.value.messageType == DELAY_RESP && h.value.sequenceId == item.header.sequenceId
    && var body := ParseDelayRespBody(payload, h.value);
       body.Ok? && body.value.requesting == item.header.source && FromNanoseconds(item.rxNs) == Ok(body.value.receive)
  }

  predicate FrameAnswers(frame: seq<octet>, item: Item) {
    var p := ParseEthernetFrame(frame);
    p.Ok? && p.value.Some? && PayloadAnswers(p.value.value.payload, item)
  }

  ghost predicate WorkerFits(w: Worker, frames: seq<Received>) {
    && !w.Crashed?
    && (w.Holds() ==> Matches(w.item, frames))
    && (w.Ready? || w.Sourced? ==> w.cfg.Valid())
    && (w.Sourced? ==> w.sourceCfg.Valid())
    && (w.Built? ==> PayloadAnswers(w.payload, w.item) && |w.dst| == 6)
    && (w.Framed? ==> FrameAnswers(w.frame, w.item))
  }

  ghost predicate WireAnswers(x: OnWire, frames: seq<Received>) {
    exists item | Matches(item, frames) && item.no == x.no :: FrameAnswers(x.frame, item)
  }

  ghost predicate InRange(frames: seq<Received>) {
    forall n | 0 <= n < |frames| :: frames[n].InRange()
  }

  ghost predicate QueueFits(queue: seq<Item>, frames: seq<Received>) {
    forall i | 0 <= i < |queue| :: Matches(queue[i], frames)
  }

  ghost predicate WireFits(wire: seq<OnWire>, frames: seq<Received>) {
    forall j | 0 <= j < |wire| :: WireAnswers(wire[j], frames)
  }

  ghost predicate RxFits(rx: Rx, frames: seq<Received>) {
    rx.RxRequest? || rx.RxJudged? || rx.RxCounted? ==>
      && frames != []
      && ParseDelayReq(frames[|frames| - 1].payload).Ok?
      && rx.header == ParseDelayReq(frames[|frames| - 1].payload).value.header
  }

  ghost predicate Contents(s: State, start: MasterConfig) {
    && U.Sound(s.shared, start) && |s.mac| == 6
    && InRange(s.frames)
    && RxFits(s.rx, s.frames)
    && QueueFits(s.queue, s.frames)
    && WorkerFits(s.resp, s.frames) && WorkerFits(s.drain, s.frames)
    && WireFits(s.wire, s.frames)
  }

  lemma MatchingItemFits(item: Item, frames: seq<Received>)
    requires Matches(item, frames)
    ensures item.Fits()
  {
    HeaderReadBack(frames[item.no].payload);
  }

  /** Building an answer never fails, whatever valid configurations the two reads find. */
  lemma PrepareAnswers(item: Item, cfg: MasterConfig, sourceCfg: MasterConfig, own: PortIdentity)
    requires item.Fits() && cfg.Valid() && sourceCfg.Valid()
    ensures var p := Prepare(item, cfg, sourceCfg, own);
            && p.Ok? && PayloadAnswers(p.value.payload, item) && |p.value.dst| == 6
            && Bytes(p.value.dst) == if cfg.delayRespUnicast then Bytes(item.srcMac) else cfg.Effective(DelayRespKey, DstMac)
  {
    var t2 := FromNanoseconds(item.rxNs).value;
    SourceAlwaysBuilds(sourceCfg, own, DelayRespKey);
    var source := SourceFor(sourceCfg, own, DelayRespKey).value;
    DelayRespAlwaysBuilds(cfg, source, t2, item.header.source, item.header.sequenceId, []);
    var payload := DelayRespPayload(cfg, source, t2, item.header.source, item.header.sequenceId).value;
    assert payload + [] == payload;
    EffectiveValuesFit(cfg, DelayRespKey, DstMac);
  }

  lemma FramingAnswers(item: Item, cfg: MasterConfig, dst: seq<octet>, mac: seq<octet>, payload: seq<octet>)
    requires cfg.Valid() && |dst| == 6 && |mac| == 6 && PayloadAnswers(payload, item)
    ensures var f := FrameFor(cfg, DelayRespKey, Some(dst), mac, payload);
            f.Ok? && |f.value| >= 12 && f.value[0..6] == dst && f.value[6..12] == mac && FrameAnswers(f.value, item)
  {
    FrameAlwaysBuilds(cfg, DelayRespKey, Some(dst), mac, payload, []);
    var f := FrameFor(cfg, DelayRespKey, Some(dst), mac, payload).value;
    assert f + [] == f && payload + [] == payload;
  }

  lemma TakeFits(s: State, start: MasterConfig, w: Worker, drain: bool, ok: bool)
    requires Contents(s, start) && WorkerFits(w, s.frames) && !w.AtSend()
    ensures WorkerFits(TakeNext(s, w, drain, ok).w, s.frames)
  {
    match w
    case Sourced(item, cfg, sourceCfg) =>
      MatchingItemFits(item, s.frames);
      PrepareAnswers(item, cfg, sourceCfg, s.shared.port);
    case Built(item, payload, dst) => FramingAnswers(item, s.shared.cfg, dst, s.mac, payload);
    case _ =>
  }

  lemma SendFits(s: State, w: Worker, ok: bool)
    requires WorkerFits(w, s.frames) && w.AtSend()
    ensures WorkerFits(SendNext(s, w, ok).w, s.frames)
  {
  }

  /** A worker's step leaves all but these fields alone. */
  lemma WorkerKeepsContents(s: State, start: MasterConfig, w: Worker, drain: bool, ok: bool)
    requires Contents(s, start) && WorkerFits(w, s.frames)
    ensures var m := WorkerNext(s, w, drain, ok); Contents(m.s, start) && WorkerFits(m.w, s.frames)
  {
    if w.AtSend() {
      SendFits(s, w, ok);
    } else {
      TakeFits(s, start, w, drain, ok);
    }
    WorkerEffect(s, w, drain, ok);
    WorkerConserves(s, w, drain, ok);
    BooksKeepContents(s, start, WorkerNext(s, w, drain, ok).s, w);
  }

  lemma WireGrows(wire: seq<OnWire>, frames: seq<Received>, item: Item, frame: seq<octet>)
    requires WireFits(wire, frames) && Matches(item, frames) && FrameAnswers(frame, item)
    ensures WireFits(wire + [OnWire(item.no, frame)], frames)
  {
    assert WireAnswers(OnWire(item.no, frame), frames);
  }

  lemma QueueGrows(queue: seq<Item>, frames: seq<Received>, header: PTPHeader)
    requires QueueFits(queue, frames) && InRange(frames) && frames != []
    requires var f := frames[|frames| - 1]; ParseDelayReq(f.payload).Ok? && header == ParseDelayReq(f.payload).value.header
    ensures var f := frames[|frames| - 1];
            QueueFits(queue + [Item(|frames| - 1, header, f.rxNs, f.srcMac)], frames)
  {
    var f := frames[|frames| - 1];
    assert Matches(Item(|frames| - 1, header, f.rxNs, f.srcMac), frames);
  }

  lemma QueueShrinks(queue: seq<Item>, frames: seq<Received>)
    requires QueueFits(queue, frames) && queue != []
    ensures QueueFits(queue[1..], frames)
  {
  }

  /** Contents survives when only the queue shrinks or a fitting answer is put on the wire. */
  lemma BooksKeepContents(s: State, start: MasterConfig, t: State, w: Worker)
    requires Contents(s, start) && WorkerFits(w, s.frames)
    requires t.shared == s.shared && t.mac == s.mac && t.frames == s.frames && t.rx == s.rx && t.resp == s.resp && t.drain == s.drain
    requires t.queue == s.queue || (s.queue != [] && t.queue == s.queue[1..])
    requires t.wire == s.wire || (w.Framed? && t.wire == s.wire + [OnWire(w.item.no, w.frame)])
    ensures Contents(t, start)
  {
    if w.Framed? {
      WireGrows(s.wire, s.frames, w.item, w.frame);
    }
    if s.queue != [] {
      QueueShrinks(s.queue, s.frames);
    }
  }

  lemma MatchesLater(item: Item, frames: seq<Received>, f: Received)
    requires Matches(item, frames)
    ensures Matches(item, frames + [f])
  {
  }

  lemma WorkerFitsLater(w: Worker, frames: seq<Received>, f: Received)
    requires WorkerFits(w, frames)
    ensures WorkerFits(w, frames + [f])
  {
    if w.Holds() {
      MatchesLater(w.item, frames, f);
    }
  }

  lemma WireAnswersLater(x: OnWire, frames: seq<Received>, f: Received)
    requires WireAnswers(x, frames)
    ensures WireAnswers(x, frames + [f])
  {
    var item :| Matches(item, frames) && item.no == x.no && FrameAnswers(x.frame, item);
    MatchesLater(item, frames, f);
  }

  lemma BooksFitLater(queue: seq<Item>, wire: seq<OnWire>, frames: seq<Received>, f: Received)
    requires QueueFits(queue, frames) && WireFits(wire, frames)
    ensures QueueFits(queue, frames + [f]) && WireFits(wire, frames + [f])
  {
    forall i | 0 <= i < |queue|
      ensures Matches(queue[i], frames + [f])
    {
      MatchesLater(queue[i], frames, f);
    }
    forall j | 0 <= j < |wire|
      ensures WireAnswers(wire[j], frames + [f])
    {
      WireAnswersLater(wire[j], frames, f);
    }
  }

  lemma RecvKeepsContents(s: State, start: MasterConfig, f: Received)
    requires Contents(s, start) && f.InRange()
    ensures Contents(s.(frames := s.frames + [f], rx := RxGot(s.shared.cfg)), start)
  {
    WorkerFitsLater(s.resp, s.frames, f);
    WorkerFitsLater(s.drain, s.frames, f);
    BooksFitLater(s.queue, s.wire, s.frames, f);
  }

  lemma AnswerKeepsContents(s: State, start: MasterConfig, h: PTPHeader, v: S.Verdict, f: Received)
    requires Contents(s, start) && s.rx.RxCounted? && s.frames != [] && f == s.frames[|s.frames| - 1] && h == s.rx.header
    ensures Contents(AnswerNext(s, h, v, f), start)
  {
    if !v.Overflow? && !v.Refused? && |s.queue| < QUEUE_MAX {
      QueueGrows(s.queue, s.frames, h);
      EnqueuingKeepsContents(s, start, AnswerNext(s, h, v, f));
    }
  }

  lemma EnqueuingKeepsContents(s: State, start: MasterConfig, t: State)
    requires Contents(s, start) && QueueFits(t.queue, s.frames)
    requires t == s.(queue := t.queue, accepted := t.accepted, rx := RxIdle)
    ensures Contents(t, start)
  {
  }

  lemma ClassKeepsContents(s: State, start: MasterConfig, j: Judgement)
    requires Contents(s, start) && (j.found.Request? ==> RxFits(RxRequest(j.found.header), s.frames))
    ensures Contents(ClassNext(s, j), start)
  {
  }

  lemma GotKeepsContents(s: State, start: MasterConfig)
    requires Contents(s, start) && s.rx.RxGot? && s.frames != []
    ensures Contents(RxNext(s), start)
  {
    var f := s.frames[|s.frames| - 1];
    ClassKeepsContents(s, start, Judge(s.rx.cfg, s.shared.port, f.payload));
  }

  /** On the way from a request's header to its count nothing but the table and the counters change. */
  lemma JudgingKeepsContents(s: State, start: MasterConfig)
    requires Contents(s, start) && !s.rx.RxGot? && !s.rx.RxCounted?
    ensures Contents(RxNext(s), start)
  {
    var r := RxNext(s);
    assert r == s.(table := r.table, stats := r.stats, rx := r.rx);
  }

  lemma RxKeepsContents(s: State, start: MasterConfig)
    requires Contents(s, start)
    ensures Contents(RxNext(s), start)
  {
    if s.frames != [] {
      var f := s.frames[|s.frames| - 1];
      match s.rx
      case RxGot(cfg) => GotKeepsContents(s, start);
      case RxCounted(h, v) => AnswerKeepsContents(s, start, h, v, f);
      case _ => JudgingKeepsContents(s, start);
    }
  }

  lemma ReceptionKeepsContents(s: State, start: MasterConfig, data: seq<octet>, rxNs: nat, rxMono: real)
    requires Contents(s, start)
    ensures Contents(RecvNext(s, data, rxNs, rxMono), start)
  {
    RecvEffect(s, data, rxNs, rxMono);
    var r := RecvNext(s, data, rxNs, rxMono);
    if r.rx.RxGot? && s.rx.RxWaiting? {
      RecvKeepsContents(s, start, r.frames[|s.frames|]);
    }
  }

  lemma RespKeepsContents(s: State, start: MasterConfig, ok: bool)
    requires Contents(s, start)
    ensures Contents(Next(s, RespStep(ok)), start)
  {
    WorkerKeepsContents(s, start, s.resp, false, ok);
    WorkerConserves(s, s.resp, false, ok);
  }

  lemma DrainKeepsContents(s: State, start: MasterConfig, ok: bool)
    requires Contents(s, start)
    ensures Contents(Next(s, DrainStep(ok)), start)
  {
    WorkerKeepsContents(s, start, s.drain, true, ok);
    WorkerConserves(s, s.drain, true, ok);
  }

  lemma StepKeepsContents(s: State, e: Step, start: MasterConfig)
    requires Contents(s, start)
    ensures Contents(Next(s, e), start)
  {
    match e
    case Recv(data, rxNs, rxMono) => ReceptionKeepsContents(s, start, data, rxNs, rxMono);
    case RxStep => RxKeepsContents(s, start);
    case RespStep(ok) => RespKeepsContents(s, start, ok);
    case DrainStep(ok) => DrainKeepsContents(s, start, ok);
    case Update(u) => U.StepKeepsSound(s.shared, u, start);
    case _ =>
  }

  // ---- The session table never overflows ----

  ghost predicate NeverOverflowed(s: State) {
    && s.table.Valid() && s.stats.overflow == 0
    && (s.rx.RxJudged? || s.rx.RxCounted? ==> !s.rx.v.Overflow?)
  }

  lemma RxNeverOverflows(s: State)
    requires NeverOverflowed(s)
    ensures NeverOverflowed(RxNext(s))
  {
    if s.rx.RxRequest? && s.frames != [] {
      var f := s.frames[|s.frames| - 1];
      S.RegisteredIsValid(s.table, s.rx.header.source, f.srcMac, f.rxMono);
    }
  }

  lemma StepNeverOverflows(s: State, e: Step)
    requires NeverOverflowed(s)
    ensures NeverOverflowed(Next(s, e))
  {
    match e
    case Recv(data, rxNs, rxMono) => RecvEffect(s, data, rxNs, rxMono);
    case RxStep => RxNeverOverflows(s);
    case RespStep(ok) => MarkingKeepsTable(s, s.resp, false, ok);
    case DrainStep(ok) => MarkingKeepsTable(s, s.drain, true, ok);
    case _ =>
  }

  lemma MarkingKeepsTable(s: State, w: Worker, drain: bool, ok: bool)
    requires s.table.Valid()
    ensures WorkerNext(s, w, drain, ok).s.table.Valid()
    ensures WorkerNext(s, w, drain, ok).s.rx == s.rx && WorkerNext(s, w, drain, ok).s.stats.overflow == s.stats.overflow
  {
    if w.Marking? {
      S.MarkedLookup(s.table, w.item.header.source, w.item.header.source);
    }
    WorkerConserves(s, w, drain, ok);
  }

  // ---- Frames are judged by valid configurations ----

  predicate JudgedAt(judged: seq<Judgement>, frames: seq<Received>, n: nat)
    requires n < |judged| && n < |frames|
  {
    judged[n].cfg.Valid() && judged[n] == Judge(judged[n].cfg, judged[n].own, frames[n].payload)
  }

  /** All frames but the one just received have been judged, each by a valid configuration. */
  ghost predicate WellJudged(s: State) {
    && |s.judged| + (if s.rx.RxGot? then 1 else 0) == |s.frames|
    && (s.rx.RxGot? ==> s.rx.cfg.Valid())
    && forall n | 0 <= n < |s.judged| :: JudgedAt(s.judged, s.frames, n)
  }

  lemma ReceivingKeepsJudged(s: State, data: seq<octet>, rxNs: nat, rxMono: real)
    requires WellJudged(s) && s.shared.cfg.Valid()
    ensures WellJudged(RecvNext(s, data, rxNs, rxMono))
  {
    RecvEffect(s, data, rxNs, rxMono);
    var r := RecvNext(s, data, rxNs, rxMono);
    forall n | 0 <= n < |s.judged|
      ensures JudgedAt(s.judged, r.frames, n)
    {
      assert JudgedAt(s.judged, s.frames, n);
    }
  }

  lemma JudgingKeepsJudged(s: State, j: Judgement)
    requires WellJudged(s) && s.rx.RxGot? && j == Judge(s.rx.cfg, j.own, s.frames[|s.frames| - 1].payload)
    ensures WellJudged(ClassNext(s, j))
  {
    forall n | 0 <= n < |s.judged + [j]|
      ensures JudgedAt(s.judged + [j], s.frames, n)
    {
      assert n < |s.judged| ==> JudgedAt(s.judged, s.frames, n);
    }
  }

  /** Past the judgement the receive thread touches neither the frames nor what was found of them. */
  lemma RxKeepsRecord(s: State)
    requires !s.rx.RxGot?
    ensures RxNext(s).frames == s.frames && RxNext(s).judged == s.judged && !RxNext(s).rx.RxGot?
    ensures RxNext(s).shared == s.shared
  {
  }

  lemma StepKeepsJudged(s: State, e: Step)
    requires WellJudged(s) && s.shared.cfg.Valid()
    ensures WellJudged(Next(s, e))
  {
    match e
    case Recv(data, rxNs, rxMono) => ReceivingKeepsJudged(s, data, rxNs, rxMono);
    case RxStep =>
      if s.rx.RxGot? {
        JudgingKeepsJudged(s, Judge(s.rx.cfg, s.shared.port, s.frames[|s.frames| - 1].payload));
      } else {
        RxKeepsRecord(s);
      }
    case RespStep(ok) => WorkerConserves(s, s.resp, false, ok);
    case DrainStep(ok) => WorkerConserves(s, s.drain, true, ok);
    case _ =>
  }
}
