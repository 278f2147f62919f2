/** The slave table inside the Delay_Req machinery: its part of a run is a run of the table alone. */
module DelaySessions {
  import opened Outcomes
  import opened Header
  import opened TokenBucket
  import opened Session
  import opened SessionRuns
  import D = DelayMachine
  import R = DelayRuns

  /** What a step does to the table, if anything. */
  function EventOf(s: D.State, e: D.Step): Option<Event> {
    match e
    case RxStep =>
      if s.frames != [] && s.rx.RxRequest? then
        var f := s.frames[|s.frames| - 1];
        Some(Register(s.rx.header.source, f.srcMac, f.rxMono))
      else None
    case RespStep(_) => if s.resp.Marking? then Some(MarkSent(s.resp.item.header.source)) else None
    case DrainStep(_) => if s.drain.Marking? then Some(MarkSent(s.drain.item.header.source)) else None
    case _ => None
  }

  function TableAfter(t: Table, e: Option<Event>): Table {
    if e.Some? then Next(t, e.value) else t
  }

  lemma WorkerOnTable(s: D.State, w: D.Worker, drain: bool, ok: bool)
    ensures D.WorkerNext(s, w, drain, ok).s.table ==
            if w.Marking? then s.table.Marked(w.item.header.source) else s.table
  {
  }

  lemma RxOnTable(s: D.State)
    ensures D.RxNext(s).table == TableAfter(s.table, EventOf(s, D.RxStep))
    ensures D.RxNext(s).frames == s.frames
  {
  }

  lemma StepOnTable(s: D.State, e: D.Step)
    ensures D.Next(s, e).table == TableAfter(s.table, EventOf(s, e))
    ensures s.frames <= D.Next(s, e).frames
  {
    match e
    case Recv(data, rxNs, rxMono) => D.RecvEffect(s, data, rxNs, rxMono);
    case RxStep => RxOnTable(s);
    case RespStep(ok) =>
      WorkerOnTable(s, s.resp, false, ok);
      D.WorkerConserves(s, s.resp, false, ok);
    case DrainStep(ok) =>
      WorkerOnTable(s, s.drain, true, ok);
      D.WorkerConserves(s, s.drain, true, ok);
    case _ =>
  }

  function Listed<T>(x: Option<T>): seq<T> {
    if x.Some? then [x.value] else []
  }

  /** The requests and answers of the first n steps, as the table sees them. */
  function EventsOf(ss: seq<D.State>, es: seq<D.Step>, n: nat): seq<Event>
    requires |ss| == |es| + 1 && n <= |es|
  {
    if n == 0 then [] else EventsOf(ss, es, n - 1) + Listed(EventOf(ss[n - 1], es[n - 1]))
  }

  /** The tables between them. */
  function TablesOf(ss: seq<D.State>, es: seq<D.Step>, n: nat): (ts: seq<Table>)
    requires |ss| == |es| + 1 && n <= |es|
    ensures |ts| == |EventsOf(ss, es, n)| + 1
  {
    if n == 0 then [ss[0].table]
    else TablesOf(ss, es, n - 1) + (if EventOf(ss[n - 1], es[n - 1]).Some? then [ss[n].table] else [])
  }

  lemma RunExtends(ts: seq<Table>, es: seq<Event>, e: Event)
    requires IsRun(ts, es)
    ensures IsRun(ts + [Next(ts[|es|], e)], es + [e])
  {
    var more, steps := ts + [Next(ts[|es|], e)], es + [e];
    forall n | 0 <= n < |steps|
      ensures Follows(more, steps, n)
    {
      assert n < |es| ==> Follows(ts, es, n);
    }
  }

  /** In any run of the machinery its table goes through a run of the table alone. */
  lemma {:induction false} TableRuns(ss: seq<D.State>, es: seq<D.Step>, n: nat)
    requires D.IsRun(ss, es) && n <= |es|
    ensures IsRun(TablesOf(ss, es, n), EventsOf(ss, es, n))
    ensures TablesOf(ss, es, n)[|EventsOf(ss, es, n)|] == ss[n].table
  {
    if n > 0 {
      TableRuns(ss, es, n - 1);
      assert D.Follows(ss, es, n - 1);
      StepOnTable(ss[n - 1], es[n - 1]);
      var e := EventOf(ss[n - 1], es[n - 1]);
      if e.Some? {
        RunExtends(TablesOf(ss, es, n - 1), EventsOf(ss, es, n - 1), e.value);
      } else {
        assert EventsOf(ss, es, n) == EventsOf(ss, es, n - 1);
        assert TablesOf(ss, es, n) == TablesOf(ss, es, n - 1);
      }
    }
  }

  predicate NoneAtZero(frames: seq<D.Received>) {
    forall k | 0 <= k < |frames| :: frames[k].rxMono != 0.0
  }

  lemma {:induction false} EventsAreStamped(ss: seq<D.State>, es: seq<D.Step>, n: nat)
    requires D.IsRun(ss, es) && n <= |es| && NoneAtZero(ss[n].frames)
    ensures Stamped(EventsOf(ss, es, n))
  {
    if n > 0 {
      assert D.Follows(ss, es, n - 1);
      StepOnTable(ss[n - 1], es[n - 1]);
      assert forall k | 0 <= k < |ss[n - 1].frames| :: ss[n - 1].frames[k] == ss[n].frames[k];
      EventsAreStamped(ss, es, n - 1);
    }
  }

  /** The log of an identity's requests since its session was created. */
  function LifeOf(ss: seq<D.State>, es: seq<D.Step>, n: nat, id: PortIdentity): seq<Request>
    requires |ss| == |es| + 1 && n <= |es|
  {
    Life(TablesOf(ss, es, n), EventsOf(ss, es, n), |EventsOf(ss, es, n)|, id)
  }

  /** So whether a request is queued or dropped is what the sliding windows say over the life of the
      requester's session, in any run and with any clock that never reads zero. */
  lemma RequestsAreJudgedByWindows(ss: seq<D.State>, es: seq<D.Step>, n: nat)
    requires D.IsRun(ss, es) && n < |es| && es[n].RxStep? && ss[n].rx.RxRequest? && NoneAtZero(ss[n].frames)
    ensures ss[n].frames != []
    ensures var h, f, rate := ss[n].rx.header, ss[n].frames[|ss[n].frames| - 1], ss[0].table.rate;
            ss[n + 1].rx == D.RxJudged(h, Answer(LifeOf(ss, es, n, h.source), rate, InTokens(f.rxMono, rate)))
  {
    R.RunKeeps(ss, es, n);
    assert D.Follows(ss, es, n);
    TableRuns(ss, es, n);
    EventsAreStamped(ss, es, n);
    var f := ss[n].frames[|ss[n].frames| - 1];
    TablesStartTogether(ss, es, n);
    VerdictIsTheWindows(TablesOf(ss, es, n), EventsOf(ss, es, n), |EventsOf(ss, es, n)|, ss[n].rx.header.source, f.rxMono);
  }

  lemma {:induction false} TablesStartTogether(ss: seq<D.State>, es: seq<D.Step>, n: nat)
    requires |ss| == |es| + 1 && n <= |es|
    ensures TablesOf(ss, es, n)[0] == ss[0].table
  {
    if n > 0 {
      TablesStartTogether(ss, es, n - 1);
    }
  }
}
