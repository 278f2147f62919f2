/** The table of slave sessions: ageing, eviction of the least recently seen, rate limiting. */
module Session {
  import opened Outcomes
  import opened Octets
  import opened Header
  import opened TokenBucket

  datatype SlaveSession = SlaveSession(
    id: PortIdentity,
    srcMac: seq<octet>,
    lastSeen: real,
    reqCount: nat,
    respSent: nat,
    respDropped: nat,
    bucket: Bucket)
  {
    predicate Aged(now: real, timeout: real) {
      now - lastSeen > timeout
    }

    /** The session once it has made a request and been charged for it. */
    function Touched(mac: seq<octet>, now: real, rate: real): SlaveSession {
      SlaveSession(id, mac, now, reqCount + 1, respSent, respDropped + (if bucket.Allows(rate, now) then 0 else 1),
                   bucket.Charged(rate, now))
    }
  }

  function NewSession(id: PortIdentity, mac: seq<octet>, now: real): SlaveSession {
    SlaveSession(id, mac, now, 0, 0, 0, FRESH)
  }

  // ---- Sessions in the order of their insertion ----

  predicate Distinct(xs: seq<SlaveSession>) {
    forall i, j | 0 <= i < j < |xs| :: xs[i].id != xs[j].id
  }

  function IndexOf(xs: seq<SlaveSession>, id: PortIdentity): (i: nat)
    ensures i <= |xs|
    ensures i < |xs| ==> xs[i].id == id
    ensures forall k | 0 <= k < i :: xs[k].id != id
  {
    if xs == [] then 0
    else
      var i := IndexOf(xs[..|xs| - 1], id);
      if i < |xs| - 1 || xs[|xs| - 1].id == id then i else |xs|
  }

  function Get(xs: seq<SlaveSession>, id: PortIdentity): (s: Option<SlaveSession>)
    ensures s.Some? ==> s.value in xs && s.value.id == id
    ensures s.None? ==> forall x | x in xs :: x.id != id
  {
    if IndexOf(xs, id) < |xs| then Some(xs[IndexOf(xs, id)]) else None
  }

  lemma GetFinds(xs: seq<SlaveSession>, x: SlaveSession)
    requires Distinct(xs) && x in xs
    ensures Get(xs, x.id) == Some(x)
  {
    var k :| 0 <= k < |xs| && xs[k] == x;
    assert IndexOf(xs, x.id) == k;
  }

  /** The sessions left when some identities are deleted. */
  function Without(xs: seq<SlaveSession>, gone: set<PortIdentity>): (ys: seq<SlaveSession>)
    ensures |ys| <= |xs|
    ensures forall y | y in ys :: y in xs && y.id !in gone
  {
    if xs == [] then []
    else Without(xs[..|xs| - 1], gone) + (if xs[|xs| - 1].id in gone then [] else [xs[|xs| - 1]])
  }

  lemma {:induction false} WithoutKeeps(xs: seq<SlaveSession>, gone: set<PortIdentity>, x: SlaveSession)
    requires x in xs && x.id !in gone
    ensures x in Without(xs, gone)
  {
    var last := xs[|xs| - 1];
    if x != last {
      WithoutKeeps(xs[..|xs| - 1], gone, x);
    }
  }

  lemma {:induction false} WithoutShrinks(xs: seq<SlaveSession>, gone: set<PortIdentity>, x: SlaveSession)
    requires x in xs && x.id in gone
    ensures |Without(xs, gone)| < |xs|
  {
    if x != xs[|xs| - 1] {
      WithoutShrinks(xs[..|xs| - 1], gone, x);
    }
  }

  lemma {:induction false} WithoutStaysDistinct(xs: seq<SlaveSession>, gone: set<PortIdentity>)
    requires Distinct(xs)
    ensures Distinct(Without(xs, gone))
  {
    if xs != [] {
      WithoutStaysDistinct(xs[..|xs| - 1], gone);
    }
  }

  /** Deletion takes exactly the named identities away. */
  lemma GetWithout(xs: seq<SlaveSession>, gone: set<PortIdentity>, id: PortIdentity)
    requires Distinct(xs)
    ensures Get(Without(xs, gone), id) == if id in gone then None else Get(xs, id)
  {
    WithoutStaysDistinct(xs, gone);
    var before, later := Get(xs, id), Get(Without(xs, gone), id);
    if id !in gone && before.Some? {
      WithoutKeeps(xs, gone, before.value);
      GetFinds(Without(xs, gone), before.value);
    }
    if later.Some? {
      GetFinds(xs, later.value);
    }
  }

  lemma WithoutSnoc(xs: seq<SlaveSession>, x: SlaveSession, gone: set<PortIdentity>)
    ensures Without(xs + [x], gone) == Without(xs, gone) + (if x.id in gone then [] else [x])
  {
    assert (xs + [x])[..|xs|] == xs;
  }

  lemma {:induction false} WithoutTwice(xs: seq<SlaveSession>, gone: set<PortIdentity>, more: set<PortIdentity>)
    ensures Without(Without(xs, gone), more) == Without(xs, gone + more)
  {
    if xs != [] {
      var front, last := xs[..|xs| - 1], xs[|xs| - 1];
      var kept := Without(front, gone);
      WithoutTwice(front, gone, more);
      WithoutSnoc(kept, last, more);
      assert kept + [] == kept;
    }
  }

  lemma {:induction false} WithoutNothing(xs: seq<SlaveSession>)
    ensures Without(xs, {}) == xs
  {
    if xs != [] {
      WithoutNothing(xs[..|xs| - 1]);
      assert xs == xs[..|xs| - 1] + [xs[|xs| - 1]];
    }
  }

  /** Sessions with distinct identities, all in a set, are no more than the set has members. */
  lemma {:induction false} NoMoreThan(xs: seq<SlaveSession>, ids: set<PortIdentity>)
    requires Distinct(xs) && forall x | x in xs :: x.id in ids
    ensures |xs| <= |ids|
  {
    if xs != [] {
      var last := xs[|xs| - 1];
      NoMoreThan(xs[..|xs| - 1], ids - {last.id});
    }
  }

  // ---- Eviction ----

  function AgedIds(xs: seq<SlaveSession>, now: real, timeout: real): set<PortIdentity> {
    set x | x in xs && x.Aged(now, timeout) :: x.id
  }

  /** The first of the least recently seen sessions. */
  function Oldest(xs: seq<SlaveSession>): (x: SlaveSession)
    requires xs != []
    ensures x in xs && forall y | y in xs :: x.lastSeen <= y.lastSeen
  {
    if |xs| == 1 then xs[0]
    else
      var x, last := Oldest(xs[..|xs| - 1]), xs[|xs| - 1];
      assert forall y | y in xs :: y == last || y in xs[..|xs| - 1];
      if last.lastSeen < x.lastSeen then last else x
  }

  /** Whom eviction deletes: all who have aged, or else the one least recently seen. */
  function Doomed(xs: seq<SlaveSession>, now: real, timeout: real): set<PortIdentity>
    requires xs != []
  {
    var aged := AgedIds(xs, now, timeout);
    if aged != {} then aged else {Oldest(xs).id}
  }

  function Evicted(xs: seq<SlaveSession>, now: real, timeout: real): seq<SlaveSession>
    requires xs != []
  {
    Without(xs, Doomed(xs, now, timeout))
  }

  lemma EvictionMakesRoom(xs: seq<SlaveSession>, now: real, timeout: real)
    requires xs != []
    ensures |Evicted(xs, now, timeout)| < |xs|
  {
    var aged := AgedIds(xs, now, timeout);
    if aged != {} {
      var x :| x in xs && x.Aged(now, timeout);
      WithoutShrinks(xs, aged, x);
    } else {
      WithoutShrinks(xs, {Oldest(xs).id}, Oldest(xs));
    }
  }

  // ---- The table ----

  datatype Verdict = Overflow | Refused | Allowed

  datatype Table = Table(maxSlaves: nat, timeout: real, rate: real, sessions: seq<SlaveSession>, overflow: nat) {

    predicate Valid() {
      maxSlaves >= 1 && |sessions| <= maxSlaves && Distinct(sessions)
    }

    function Lookup(id: PortIdentity): Option<SlaveSession> {
      Get(sessions, id)
    }

    /** The sessions among which one for id is put or found. */
    function Kept(id: PortIdentity, now: real): seq<SlaveSession> {
      if Lookup(id).None? && |sessions| >= maxSlaves && sessions != [] then Evicted(sessions, now, timeout) else sessions
    }

    function Verdict(id: PortIdentity, now: real): Verdict {
      if Lookup(id).None? && |Kept(id, now)| >= maxSlaves then Overflow
      else
        var bucket := if Lookup(id).Some? then Lookup(id).value.bucket else FRESH;
        if bucket.Allows(rate, now) then Allowed else Refused
    }

    function Registered(id: PortIdentity, mac: seq<octet>, now: real): Table {
      var i, kept := IndexOf(sessions, id), Kept(id, now);
      if i < |sessions| then this.(sessions := sessions[i := sessions[i].Touched(mac, now, rate)])
      else if |kept| >= maxSlaves then this.(sessions := kept, overflow := overflow + 1)
      else this.(sessions := kept + [NewSession(id, mac, now).Touched(mac, now, rate)])
    }

    function AgedOut(now: real): Table {
      this.(sessions := Without(sessions, AgedIds(sessions, now, timeout)))
    }

    function Marked(id: PortIdentity): Table {
      var i := IndexOf(sessions, id);
      if i < |sessions| then this.(sessions := sessions[i := sessions[i].(respSent := sessions[i].respSent + 1)]) else this
    }
  }

  /** The session a request meets: its own, or a new one. */
  function Met(t: Table, id: PortIdentity, mac: seq<octet>, now: real): SlaveSession {
    if t.Lookup(id).Some? then t.Lookup(id).value else NewSession(id, mac, now)
  }

  lemma KeptIsValid(t: Table, id: PortIdentity, now: real)
    requires t.Valid()
    ensures Distinct(t.Kept(id, now)) && |t.Kept(id, now)| <= t.maxSlaves
    ensures t.Lookup(id).None? ==> |t.Kept(id, now)| < t.maxSlaves && forall x | x in t.Kept(id, now) :: x.id != id
  {
    if t.Lookup(id).None? && |t.sessions| >= t.maxSlaves {
      WithoutStaysDistinct(t.sessions, Doomed(t.sessions, now, t.timeout));
      EvictionMakesRoom(t.sessions, now, t.timeout);
    }
  }

  /** The table never overflows: eviction always makes room. */
  lemma RegisteredIsValid(t: Table, id: PortIdentity, mac: seq<octet>, now: real)
    requires t.Valid()
    ensures t.Registered(id, mac, now).Valid()
    ensures t.Registered(id, mac, now).overflow == t.overflow && t.Verdict(id, now) != Overflow
  {
    KeptIsValid(t, id, now);
  }

  /** Afterwards the requester is there, touched; any other identity is as before or was evicted. */
  lemma RegisteredLookup(t: Table, id: PortIdentity, mac: seq<octet>, now: real, other: PortIdentity)
    requires t.Valid()
    ensures t.Registered(id, mac, now).Lookup(other) ==
            if other == id then Some(Met(t, id, mac, now).Touched(mac, now, t.rate)) else Get(t.Kept(id, now), other)
  {
    RegisteredIsValid(t, id, mac, now);
    KeptIsValid(t, id, now);
    var xs, kept := t.Registered(id, mac, now).sessions, t.Kept(id, now);
    var touched := Met(t, id, mac, now).Touched(mac, now, t.rate);
    assert touched in xs by {
      var k := IndexOf(t.sessions, id);
      assert k < |t.sessions| ==> xs[k] == touched;
      assert k == |t.sessions| ==> xs[|kept|] == touched;
    }
    if other == id {
      GetFinds(xs, touched);
    } else if Get(kept, other).Some? {
      var x := Get(kept, other).value;
      var k :| 0 <= k < |kept| && kept[k] == x;
      assert xs[k] == x;
      GetFinds(xs, x);
    }
  }

  lemma VerdictIsTheBuckets(t: Table, id: PortIdentity, mac: seq<octet>, now: real)
    requires t.Valid()
    ensures t.Verdict(id, now) == if Met(t, id, mac, now).bucket.Allows(t.rate, now) then Allowed else Refused
  {
    KeptIsValid(t, id, now);
  }

  lemma AgedOutIsValid(t: Table, now: real)
    requires t.Valid()
    ensures t.AgedOut(now).Valid()
  {
    WithoutStaysDistinct(t.sessions, AgedIds(t.sessions, now, t.timeout));
  }

  lemma AgedOutLookup(t: Table, now: real, id: PortIdentity)
    requires t.Valid()
    ensures t.AgedOut(now).Lookup(id) ==
            if t.Lookup(id).Some? && t.Lookup(id).value.Aged(now, t.timeout) then None else t.Lookup(id)
  {
    var aged := AgedIds(t.sessions, now, t.timeout);
    GetWithout(t.sessions, aged, id);
    if id in aged {
      var x :| x in t.sessions && x.Aged(now, t.timeout) && x.id == id;
      GetFinds(t.sessions, x);
    }
  }

  lemma MarkedLookup(t: Table, id: PortIdentity, other: PortIdentity)
    requires t.Valid()
    ensures t.Marked(id).Valid()
    ensures t.Marked(id).Lookup(other) ==
            if other == id && t.Lookup(id).Some?
            then Some(t.Lookup(id).value.(respSent := t.Lookup(id).value.respSent + 1))
            else t.Lookup(other)
  {
    var i, xs := IndexOf(t.sessions, id), t.Marked(id).sessions;
    var k := IndexOf(t.sessions, other);
    if k < |xs| {
      assert xs[k] in xs;
      GetFinds(xs, xs[k]);
    }
  }

  // ---- The object ----

  lemma AgedIffListed(xs: seq<SlaveSession>, now: real, timeout: real, x: SlaveSession)
    requires Distinct(xs) && x in xs
    ensures x.id in AgedIds(xs, now, timeout) <==> x.Aged(now, timeout)
  {
    if x.id in AgedIds(xs, now, timeout) {
      var y :| y in xs && y.Aged(now, timeout) && y.id == x.id;
      GetFinds(xs, y);
      GetFinds(xs, x);
    }
  }

  function Members(ids: seq<PortIdentity>): set<PortIdentity> {
    set id | id in ids
  }

  lemma DeleteNext(xs: seq<SlaveSession>, keys: seq<PortIdentity>, k: nat)
    requires k < |keys|
    ensures Without(Without(xs, Members(keys[..k])), {keys[k]}) == Without(xs, Members(keys[..k + 1]))
  {
    WithoutTwice(xs, Members(keys[..k]), {keys[k]});
    assert keys[..k + 1] == keys[..k] + [keys[k]];
    assert Members(keys[..k]) + {keys[k]} == Members(keys[..k + 1]);
  }

  lemma CountNext(xs: seq<SlaveSession>, gone: set<PortIdentity>, k: nat)
    requires k < |xs|
    ensures |Without(xs[..k + 1], gone)| == |Without(xs[..k], gone)| + (if xs[k].id in gone then 0 else 1)
  {
    assert xs[..k + 1] == xs[..k] + [xs[k]];
    WithoutSnoc(xs[..k], xs[k], gone);
  }

  lemma AgedIdsNext(xs: seq<SlaveSession>, k: nat, now: real, timeout: real, ids: seq<PortIdentity>)
    requires k < |xs|
    ensures AgedIds(xs[..k + 1], now, timeout) ==
            AgedIds(xs[..k], now, timeout) + (if xs[k].Aged(now, timeout) then {xs[k].id} else {})
    ensures Members(ids + [xs[k].id]) == Members(ids) + {xs[k].id}
  {
    assert xs[..k + 1] == xs[..k] + [xs[k]];
  }

  /** The keys of the aged among the first k sessions, one for each. */
  ghost predicate Listed(xs: seq<SlaveSession>, k: nat, aged: seq<PortIdentity>, now: real, timeout: real)
    requires k <= |xs|
  {
    && Members(aged) == AgedIds(xs[..k], now, timeout)
    && |Without(xs[..k], AgedIds(xs, now, timeout))| == k - |aged|
  }

  lemma ListedNext(xs: seq<SlaveSession>, k: nat, aged: seq<PortIdentity>, now: real, timeout: real)
    requires Distinct(xs) && k < |xs| && Listed(xs, k, aged, now, timeout)
    ensures Listed(xs, k + 1, if xs[k].Aged(now, timeout) then aged + [xs[k].id] else aged, now, timeout)
  {
    CountNext(xs, AgedIds(xs, now, timeout), k);
    AgedIdsNext(xs, k, now, timeout, aged);
    AgedIffListed(xs, now, timeout, xs[k]);
  }

  class SessionTable {
    const maxSlaves: nat
    const timeout: real
    const rate: real
    var sessions: seq<SlaveSession>
    var overflowCount: nat

    function View(): Table
      reads this
    {
      Table(maxSlaves, timeout, rate, sessions, overflowCount)
    }

    ghost predicate Valid()
      reads this
    {
      View().Valid()
    }

    constructor (maxSlaves: int, rate: real, timeout: real)
      ensures Valid() && View() == Table(if maxSlaves > 1 then maxSlaves else 1, timeout, rate, [], 0)
    {
      this.maxSlaves := if maxSlaves > 1 then maxSlaves else 1;
      this.timeout := timeout;
      this.rate := rate;
      sessions := [];
      overflowCount := 0;
    }

    /** The keys of the aged sessions, in the order of the table. */
    method AgedKeys(now: real) returns (aged: seq<PortIdentity>)
      requires Valid()
      ensures Members(aged) == AgedIds(sessions, now, timeout)
      ensures |Without(sessions, AgedIds(sessions, now, timeout))| == |sessions| - |aged|
    {
      var xs := sessions;
      aged := [];
      for k := 0 to |xs|
        invariant Listed(xs, k, aged, now, timeout)
      {
        ListedNext(xs, k, aged, now, timeout);
        if now - xs[k].lastSeen > timeout {
          aged := aged + [xs[k].id];
        }
      }
      assert xs[..|xs|] == xs;
    }

    method DeleteAll(keys: seq<PortIdentity>)
      modifies this`sessions
      ensures sessions == Without(old(sessions), Members(keys))
    {
      WithoutNothing(sessions);
      assert Members(keys[..0]) == {};
      for k := 0 to |keys|
        invariant sessions == Without(old(sessions), Members(keys[..k]))
      {
        DeleteNext(old(sessions), keys, k);
        sessions := Without(sessions, {keys[k]});
      }
      assert keys[..|keys|] == keys;
    }

    /** The first session with the least time stamp. */
    method LeastRecentlySeen() returns (oldest: SlaveSession)
      requires sessions != []
      ensures oldest == Oldest(sessions)
    {
      oldest := sessions[0];
      for k := 1 to |sessions|
        invariant oldest == Oldest(sessions[..k])
      {
        assert sessions[..k + 1][..k] == sessions[..k];
        if sessions[k].lastSeen < oldest.lastSeen {
          oldest := sessions[k];
        }
      }
      assert sessions[..|sessions|] == sessions;
    }

    method EvictOldest(now: real)
      requires Valid() && sessions != []
      modifies this`sessions
      ensures sessions == Evicted(old(sessions), now, timeout)
    {
      var aged := AgedKeys(now);
      if aged != [] {
        assert aged[0] in Members(aged);
        DeleteAll(aged);
      } else {
        var oldest := LeastRecentlySeen();
        sessions := Without(sessions, {oldest.id});
      }
    }

    method RegisterOrTouch(id: PortIdentity, mac: seq<octet>, now: real) returns (verdict: Verdict)
      requires Valid()
      modifies this
      ensures Valid() && View() == old(View()).Registered(id, mac, now)
      ensures verdict == old(View()).Verdict(id, now) != Overflow
      ensures overflowCount == old(overflowCount)
    {
      RegisteredIsValid(View(), id, mac, now);
      KeptIsValid(View(), id, now);
      var i := IndexOf(sessions, id);
      var s: SlaveSession;
      if i == |sessions| {
        if |sessions| >= maxSlaves {
          EvictOldest(now);
          assert |sessions| < maxSlaves;
        }
        i := |sessions|;
        s := NewSession(id, mac, now);
        sessions := sessions + [s];
      } else {
        s := sessions[i].(lastSeen := now, srcMac := mac);
      }
      var allowed := s.bucket.Allows(rate, now);
      s := s.(reqCount := s.reqCount + 1, bucket := s.bucket.Charged(rate, now));
      if !allowed {
        s := s.(respDropped := s.respDropped + 1);
      }
      sessions := sessions[i := s];
      verdict := if allowed then Allowed else Refused;
    }

    method MarkRespSent(id: PortIdentity)
      requires Valid()
      modifies this`sessions
      ensures Valid() && View() == old(View()).Marked(id)
    {
      MarkedLookup(View(), id, id);
      var i := IndexOf(sessions, id);
      if i < |sessions| {
        sessions := sessions[i := sessions[i].(respSent := sessions[i].respSent + 1)];
      }
    }

    method AgeOut(now: real) returns (n: nat)
      requires Valid()
      modifies this`sessions
      ensures Valid() && View() == old(View()).AgedOut(now)
      ensures n == |old(sessions)| - |sessions|
    {
      AgedOutIsValid(View(), now);
      var aged := AgedKeys(now);
      DeleteAll(aged);
      n := |aged|;
    }
  }
}
