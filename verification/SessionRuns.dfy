/** What the session table guarantees over whole runs. */
module SessionRuns {
  import opened Outcomes
  import opened Octets
  import opened Header
  import opened TokenBucket
  import opened Session

  datatype Event =
    | Register(id: PortIdentity, mac: seq<octet>, now: real)
    | AgeOut(now: real)
    | MarkSent(id: PortIdentity)

  function Next(t: Table, e: Event): Table {
    match e
    case Register(id, mac, now) => t.Registered(id, mac, now)
    case AgeOut(now) => t.AgedOut(now)
    case MarkSent(id) => t.Marked(id)
  }

  /** Table n + 1 of a run is what event n makes of table n. */
  ghost predicate Follows(ts: seq<Table>, es: seq<Event>, n: nat)
    requires |ts| == |es| + 1 && n < |es|
  {
    ts[n + 1] == Next(ts[n], es[n])
  }

  /** The tables of a run that starts empty, one before each event and one at the end. */
  ghost predicate IsRun(ts: seq<Table>, es: seq<Event>) {
    && |ts| == |es| + 1
    && ts[0].maxSlaves >= 1 && ts[0].sessions == [] && ts[0].overflow == 0
    && forall n | 0 <= n < |es| :: Follows(ts, es, n)
  }

  lemma NextIsValid(t: Table, e: Event)
    requires t.Valid()
    ensures Next(t, e).Valid() && Next(t, e).overflow == t.overflow
    ensures Next(t, e).maxSlaves == t.maxSlaves && Next(t, e).timeout == t.timeout && Next(t, e).rate == t.rate
  {
    match e
    case Register(id, mac, now) => RegisteredIsValid(t, id, mac, now);
    case AgeOut(now) => AgedOutIsValid(t, now);
    case MarkSent(id) => MarkedLookup(t, id, id);
  }

  /** At every moment of a run the table is within its bound, and no request ever overflows it. */
  lemma {:induction false} RunIsValid(ts: seq<Table>, es: seq<Event>, n: nat)
    requires IsRun(ts, es) && n <= |es|
    ensures ts[n].Valid() && ts[n].overflow == 0
    ensures ts[n].maxSlaves == ts[0].maxSlaves && ts[n].timeout == ts[0].timeout && ts[n].rate == ts[0].rate
  {
    if n > 0 {
      RunIsValid(ts, es, n - 1);
      assert Follows(ts, es, n - 1);
      NextIsValid(ts[n - 1], es[n - 1]);
    }
  }

  /** What a step does to the session of one identity. */
  lemma NextLookup(t: Table, e: Event, id: PortIdentity)
    requires t.Valid()
    ensures Next(t, e).Lookup(id) == if e.Register? && e.id == id
                                     then Some(Met(t, id, e.mac, e.now).Touched(e.mac, e.now, t.rate))
                                     else Next(t, e).Lookup(id)
    ensures !(e.Register? && e.id == id) && Next(t, e).Lookup(id).Some? ==>
              && t.Lookup(id).Some?
              && Next(t, e).Lookup(id).value.(respSent := 0) == t.Lookup(id).value.(respSent := 0)
  {
    match e
    case Register(o, mac, now) =>
      RegisteredLookup(t, o, mac, now, id);
      if o != id && Get(t.Kept(o, now), id).Some? {
        GetFinds(t.sessions, Get(t.Kept(o, now), id).value);
      }
    case AgeOut(now) => AgedOutLookup(t, now, id);
    case MarkSent(o) => MarkedLookup(t, o, id);
  }

  // ---- The reference: the requests of one identity since its session was created ----

  function Life(ts: seq<Table>, es: seq<Event>, n: nat, id: PortIdentity): seq<Request>
    requires |ts| == |es| + 1 && n <= |es|
  {
    if n == 0 then [] else Lived(ts[n - 1], es[n - 1], Life(ts, es, n - 1, id), id)
  }

  /** What one event makes of an identity's log. */
  function Lived(t: Table, e: Event, log: seq<Request>, id: PortIdentity): seq<Request> {
    if e.Register? && e.id == id then log + [Request(InTokens(e.now, t.rate), t.Verdict(id, e.now) == Allowed)]
    else if Next(t, e).Lookup(id).Some? then log
    else []
  }

  /** The session, if there is one, answers for exactly the requests in the log. */
  ghost predicate Accounts(s: Option<SlaveSession>, log: seq<Request>, rate: real) {
    if s.None? then log == []
    else
      var x := s.value;
      && |log| == x.reqCount > 0
      && log[|log| - 1].at == InTokens(x.lastSeen, rate)
      && x.reqCount - x.respDropped == Admitted(log, 0, |log|)
      && Tracks(x.bucket, log, rate)
      && Lawful(log, rate)
  }

  /** What the sliding windows say of a request. */
  function Answer(log: seq<Request>, rate: real, at: real): Verdict {
    if Admits(log, |log|, rate, at) then Allowed else Refused
  }

  lemma RequestIsLogged(s: Option<SlaveSession>, x: SlaveSession, log: seq<Request>, mac: seq<octet>, now: real, rate: real)
    requires Accounts(s, log, rate) && x == (if s.Some? then s.value else NewSession(x.id, mac, now)) && now != 0.0
    ensures Answer(log, rate, InTokens(now, rate)) == if x.bucket.Allows(rate, now) then Allowed else Refused
    ensures Accounts(Some(x.Touched(mac, now, rate)), log + [Request(InTokens(now, rate), x.bucket.Allows(rate, now))], rate)
  {
    var r := Request(InTokens(now, rate), x.bucket.Allows(rate, now));
    BucketDecidesWindow(x.bucket, log, rate, now);
    LawfulExtends(log, rate, InTokens(now, rate));
    AdmittedSoFar(log, r, 0, |log|);
    assert Admitted(log + [r], 0, |log| + 1) == Admitted(log + [r], 0, |log|) + (if r.admitted then 1 else 0);
  }

  /** A request is answered exactly when it fits every window opened by an earlier one of its session. */
  lemma AnswerIsTheWindows(t: Table, id: PortIdentity, log: seq<Request>, mac: seq<octet>, now: real)
    requires t.Valid() && Accounts(t.Lookup(id), log, t.rate) && now != 0.0
    ensures t.Verdict(id, now) == Answer(log, t.rate, InTokens(now, t.rate))
    ensures Accounts(Some(Met(t, id, mac, now).Touched(mac, now, t.rate)),
                     log + [Request(InTokens(now, t.rate), t.Verdict(id, now) == Allowed)], t.rate)
  {
    var x := Met(t, id, mac, now);
    VerdictIsTheBuckets(t, id, mac, now);
    RequestIsLogged(t.Lookup(id), x, log, mac, now, t.rate);
    assert x.bucket.Allows(t.rate, now) == (t.Verdict(id, now) == Allowed);
  }

  predicate Stamped(es: seq<Event>) {
    forall k | 0 <= k < |es| && es[k].Register? :: es[k].now != 0.0
  }

  lemma StepAccounts(t: Table, e: Event, id: PortIdentity, log: seq<Request>)
    requires t.Valid() && Accounts(t.Lookup(id), log, t.rate) && (e.Register? ==> e.now != 0.0)
    ensures Accounts(Next(t, e).Lookup(id), Lived(t, e, log, id), t.rate)
  {
    NextLookup(t, e, id);
    if e.Register? && e.id == id {
      AnswerIsTheWindows(t, id, log, e.mac, e.now);
    }
  }

  /** Over any run, a session's counts, its bucket and every answer it was given are those of the
      sliding windows over its own requests. */
  lemma {:induction false} SessionAccountsForItsLife(ts: seq<Table>, es: seq<Event>, n: nat, id: PortIdentity)
    requires IsRun(ts, es) && Stamped(es) && n <= |es|
    ensures Accounts(ts[n].Lookup(id), Life(ts, es, n, id), ts[0].rate)
  {
    if n > 0 {
      SessionAccountsForItsLife(ts, es, n - 1, id);
      RunIsValid(ts, es, n - 1);
      assert Follows(ts, es, n - 1);
      StepAccounts(ts[n - 1], es[n - 1], id, Life(ts, es, n - 1, id));
    }
  }

  /** So every verdict of a run is the sliding windows' over the life of the requester's session. */
  lemma VerdictIsTheWindows(ts: seq<Table>, es: seq<Event>, n: nat, id: PortIdentity, now: real)
    requires IsRun(ts, es) && Stamped(es) && n <= |es| && now != 0.0
    ensures ts[n].Verdict(id, now) == Answer(Life(ts, es, n, id), ts[0].rate, InTokens(now, ts[0].rate))
  {
    RunIsValid(ts, es, n);
    SessionAccountsForItsLife(ts, es, n, id);
    AnswerIsTheWindows(ts[n], id, Life(ts, es, n, id), [], now);
  }

  // ---- Least recently seen, with ageing ----

  /** The identities that make requests among the events from a up to b. */
  function Requesters(es: seq<Event>, a: nat, b: nat): set<PortIdentity>
    requires a <= b <= |es|
    decreases b
  {
    if a == b then {}
    else Requesters(es, a, b - 1) + (if es[b - 1].Register? then {es[b - 1].id} else {})
  }

  predicate StrictClock(es: seq<Event>) {
    forall i, j | 0 <= i < j < |es| && es[i].Register? && es[j].Register? :: es[i].now < es[j].now
  }

  ghost predicate AllSeenBefore(t: Table, now: real) {
    forall x | x in t.sessions :: x.lastSeen < now
  }

  lemma StepStaysBefore(t: Table, e: Event, now: real)
    requires t.Valid() && AllSeenBefore(t, now) && (e.Register? ==> e.now < now)
    ensures AllSeenBefore(Next(t, e), now)
  {
    NextIsValid(t, e);
    forall x | x in Next(t, e).sessions
      ensures x.lastSeen < now
    {
      GetFinds(Next(t, e).sessions, x);
      NextLookup(t, e, x.id);
    }
  }

  lemma {:induction false} SeenInThePast(ts: seq<Table>, es: seq<Event>, n: nat, now: real)
    requires IsRun(ts, es) && n <= |es|
    requires forall k | 0 <= k < n && es[k].Register? :: es[k].now < now
    ensures AllSeenBefore(ts[n], now)
  {
    if n > 0 {
      SeenInThePast(ts, es, n - 1, now);
      RunIsValid(ts, es, n - 1);
      assert Follows(ts, es, n - 1);
      StepStaysBefore(ts[n - 1], es[n - 1], now);
    }
  }

  /** The session of id was last seen at the given time, and every other session before that,
      unless it is among the given identities. */
  ghost predicate Standing(t: Table, id: PortIdentity, seen: real, later: set<PortIdentity>) {
    && t.Lookup(id).Some? && t.Lookup(id).value.lastSeen == seen
    && forall y | y in t.sessions && y.id != id :: y.lastSeen < seen || y.id in later
  }

  lemma SwapOne(s: set<PortIdentity>, out: PortIdentity, back: PortIdentity)
    ensures |s - {out} + {back}| <= |s + {out}|
  {
    assert s + {out} == s - {out} + {out};
  }

  /** Making room for another identity spares one that has not aged, unless too many came after it. */
  lemma SparedByEviction(t: Table, id: PortIdentity, seen: real, later: set<PortIdentity>, comer: PortIdentity, now: real)
    requires t.Valid() && Standing(t, id, seen, later)
    requires comer != id && now - seen <= t.timeout && |later + {comer}| < t.maxSlaves
    ensures Get(t.Kept(comer, now), id) == t.Lookup(id)
  {
    var xs := t.sessions;
    if t.Lookup(comer).None? && |xs| >= t.maxSlaves {
      GetWithout(xs, Doomed(xs, now, t.timeout), id);
      forall y | y in xs && y.id == id
        ensures y.lastSeen == seen
      {
        GetFinds(xs, y);
      }
      SwapOne(later, comer, id);
      if Oldest(xs).id == id {
        NoMoreThan(xs, later - {comer} + {id});
        assert false;
      }
    }
  }

  lemma StepSpares(t: Table, e: Event, id: PortIdentity, seen: real, later: set<PortIdentity>)
    requires t.Valid() && Standing(t, id, seen, later)
    requires !e.MarkSent? ==> e.now - seen <= t.timeout
    requires e.Register? ==> e.id != id && |later + {e.id}| < t.maxSlaves
    ensures Standing(Next(t, e), id, seen, later + (if e.Register? then {e.id} else {}))
  {
    NextIsValid(t, e);
    match e
    case Register(o, mac, now) =>
      SparedByEviction(t, id, seen, later, o, now);
      RegisteredLookup(t, o, mac, now, id);
    case AgeOut(now) => AgedOutLookup(t, now, id);
    case MarkSent(o) => MarkedLookup(t, o, id);
    OthersAfterStep(t, e, id, seen, later);
  }

  lemma OthersAfterStep(t: Table, e: Event, id: PortIdentity, seen: real, later: set<PortIdentity>)
    requires t.Valid() && forall y | y in t.sessions && y.id != id :: y.lastSeen < seen || y.id in later
    ensures forall y | y in Next(t, e).sessions && y.id != id ::
              y.lastSeen < seen || y.id in later + (if e.Register? then {e.id} else {})
  {
    NextIsValid(t, e);
    forall y | y in Next(t, e).sessions && y.id != id
      ensures y.lastSeen < seen || y.id in later + (if e.Register? then {e.id} else {})
    {
      GetFinds(Next(t, e).sessions, y);
      NextLookup(t, e, y.id);
    }
  }

  lemma JustSeen(t: Table, e: Event)
    requires t.Valid() && e.Register? && AllSeenBefore(t, e.now)
    ensures Standing(Next(t, e), e.id, e.now, {})
  {
    NextLookup(t, e, e.id);
    NextIsValid(t, e);
    forall y | y in Next(t, e).sessions && y.id != e.id
      ensures y.lastSeen < e.now
    {
      GetFinds(Next(t, e).sessions, y);
      NextLookup(t, e, y.id);
    }
  }

  /** Event k is the last request of its identity among the first m events, nothing that happens
      after it lies beyond the timeout, and fewer than `room` other identities make requests after it. */
  predicate RecentlySeen(es: seq<Event>, k: nat, m: nat, timeout: real, room: nat) {
    && k < m <= |es| && es[k].Register?
    && es[k].id !in Requesters(es, k + 1, m)
    && (forall j | k < j < m && !es[j].MarkSent? :: es[j].now - es[k].now <= timeout)
    && |Requesters(es, k + 1, m)| < room
  }

  lemma RecentlySeenBefore(es: seq<Event>, k: nat, m: nat, timeout: real, room: nat)
    requires RecentlySeen(es, k, m, timeout, room) && m > k + 1
    ensures RecentlySeen(es, k, m - 1, timeout, room)
    ensures !es[m - 1].MarkSent? ==> es[m - 1].now - es[k].now <= timeout
    ensures es[m - 1].Register? ==>
              && es[m - 1].id != es[k].id
              && |Requesters(es, k + 1, m - 1) + {es[m - 1].id}| < room
  {
    var fewer, more := Requesters(es, k + 1, m - 1), Requesters(es, k + 1, m);
    assert more == fewer + (more - fewer);
  }

  lemma StandsAtFirst(ts: seq<Table>, es: seq<Event>, k: nat)
    requires IsRun(ts, es) && StrictClock(es) && k < |es| && es[k].Register?
    ensures Standing(ts[k + 1], es[k].id, es[k].now, {})
  {
    RunIsValid(ts, es, k);
    SeenInThePast(ts, es, k, es[k].now);
    assert Follows(ts, es, k);
    JustSeen(ts[k], es[k]);
  }

  lemma StandsOn(ts: seq<Table>, es: seq<Event>, n: nat, id: PortIdentity, seen: real, later: set<PortIdentity>)
    requires IsRun(ts, es) && n < |es| && Standing(ts[n], id, seen, later)
    requires !es[n].MarkSent? ==> es[n].now - seen <= ts[0].timeout
    requires es[n].Register? ==> es[n].id != id && |later + {es[n].id}| < ts[0].maxSlaves
    ensures Standing(ts[n + 1], id, seen, later + (if es[n].Register? then {es[n].id} else {}))
  {
    RunIsValid(ts, es, n);
    assert Follows(ts, es, n);
    StepSpares(ts[n], es[n], id, seen, later);
  }

  /** Under a strictly increasing clock, a recently seen identity is in the table, last seen at its
      last request: the table is a least-recently-seen cache with ageing. */
  lemma {:induction false} RecentlySeenIsPresent(ts: seq<Table>, es: seq<Event>, k: nat, m: nat)
    requires IsRun(ts, es) && StrictClock(es)
    requires RecentlySeen(es, k, m, ts[0].timeout, ts[0].maxSlaves)
    ensures Standing(ts[m], es[k].id, es[k].now, Requesters(es, k + 1, m))
    decreases m
  {
    if m == k + 1 {
      StandsAtFirst(ts, es, k);
    } else {
      RecentlySeenBefore(es, k, m, ts[0].timeout, ts[0].maxSlaves);
      RecentlySeenIsPresent(ts, es, k, m - 1);
      StandsOn(ts, es, m - 1, es[k].id, es[k].now, Requesters(es, k + 1, m - 1));
    }
  }
}
