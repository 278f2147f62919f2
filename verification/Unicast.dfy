/** The request port's side of unicast negotiation (ITU-T G.8275.2, clause 6.6; IEEE 1588-2008,
    clause 16.1) over the client's buffer. */
module Unicast {
  import opened Outcomes
  import opened Octets
  import opened Header
  import opened Messages
  import opened Signaling
  import opened Buffer
  import opened Client
  import opened Renewal

  datatype NegotiationState = NegotiationState(
    grandmaster: PortIdentity,
    grants: map<int, int>,            // message type to granted seconds
    announceLogPeriod: int,
    syncLogPeriod: int,
    delayRespLogPeriod: Option<int>)

  const WILDCARD: PortIdentity := IdentityPair([0xFF, 0xFF, 0xFF, 0xFF, 0xFF, 0xFF, 0xFF, 0xFF], 0xFFFF)

  // ---- Where grants come from ----

  /** The grant was read from a Signalling message of the domain that was received. */
  ghost predicate Granted(g: ParsedGrant, b: Buf, domain: int) {
    exists n | 0 <= n < |b.ingested| :: GrantFrom(g, b.ingested[n], domain)
  }

  predicate GrantFrom(g: ParsedGrant, e: Entry, domain: int) {
    && e.header.domainNumber == domain && e.header.messageType == SIGNALING
    && ExtractGrants(e.data).Ok? && g in ExtractGrants(e.data).value
  }

  lemma GrantedLater(g: ParsedGrant, a: Buf, b: Buf, domain: int)
    requires Granted(g, a, domain) && Later(a, b)
    ensures Granted(g, b, domain)
  {
    var n :| 0 <= n < |a.ingested| && GrantFrom(g, a.ingested[n], domain);
    assert b.ingested[n] == a.ingested[n];
  }

  /** Positive grants of needed types, each filed under its own. */
  ghost predicate Collected(byType: map<int, ParsedGrant>, need: set<int>, b: Buf, domain: int) {
    forall t | t in byType ::
      t in need && byType[t].messageType == t && byType[t].durationSec > 0 && Granted(byType[t], b, domain)
  }

  lemma CollectedLater(byType: map<int, ParsedGrant>, need: set<int>, a: Buf, b: Buf, domain: int)
    requires Collected(byType, need, a, domain) && Later(a, b)
    ensures Collected(byType, need, b, domain)
  {
    forall t | t in byType
      ensures Granted(byType[t], b, domain)
    {
      GrantedLater(byType[t], a, b, domain);
    }
  }

  function Types(expected: seq<int>): set<int> {
    set t | t in expected
  }

  /** A successful collection: exactly the expected types, in order, each granted for some time. */
  ghost predicate Delivers(grants: seq<ParsedGrant>, expected: seq<int>, b: Buf, domain: int) {
    && |grants| == |expected|
    && forall i | 0 <= i < |expected| ::
         grants[i].messageType == expected[i] && grants[i].durationSec > 0 && Granted(grants[i], b, domain)
  }

  /** The filed grants in the order expected. */
  function Picked(byType: map<int, ParsedGrant>, expected: seq<int>): (grants: seq<ParsedGrant>)
    requires forall i | 0 <= i < |expected| :: expected[i] in byType
    ensures |grants| == |expected| && forall i | 0 <= i < |expected| :: grants[i] == byType[expected[i]]
  {
    if expected == [] then []
    else Picked(byType, expected[..|expected| - 1]) + [byType[expected[|expected| - 1]]]
  }

  lemma PickedDelivers(byType: map<int, ParsedGrant>, expected: seq<int>, b: Buf, domain: int)
    requires Collected(byType, Types(expected), b, domain) && Types(expected) <= byType.Keys
    ensures forall i | 0 <= i < |expected| :: expected[i] in byType
    ensures Delivers(Picked(byType, expected), expected, b, domain)
  {
    forall i | 0 <= i < |expected|
      ensures expected[i] in byType
    {
      assert expected[i] in Types(expected);
    }
  }

  function Bumped(counts: map<int, nat>, t: int): map<int, nat> {
    counts[t := (if t in counts then counts[t] else 0) + 1]
  }

  predicate Positive(grants: map<int, int>) {
    forall t | t in grants :: grants[t] > 0
  }

  /** The durations of the first n grants of a list, by type. */
  function DurationsTo(grants: seq<ParsedGrant>, n: nat): map<int, int>
    requires n <= |grants|
  {
    if n == 0 then map[]
    else
      var g, before := grants[n - 1], DurationsTo(grants, n - 1);
      if g.durationSec > 0 then before[g.messageType := g.durationSec] else before
  }

  function Durations(grants: seq<ParsedGrant>): map<int, int> {
    DurationsTo(grants, |grants|)
  }

  /** Each entry is what some received grant of that type gives. */
  ghost predicate Contracted(grants: map<int, int>, b: Buf, domain: int) {
    forall t | t in grants :: grants[t] > 0 && GrantedFor(t, grants[t], b, domain)
  }

  ghost predicate GrantedFor(t: int, seconds: int, b: Buf, domain: int) {
    exists g | Granted(g, b, domain) :: g.messageType == t && g.durationSec == seconds
  }

  lemma ContractedLater(grants: map<int, int>, a: Buf, b: Buf, domain: int)
    requires Contracted(grants, a, domain) && Later(a, b)
    ensures Contracted(grants, b, domain)
  {
    forall t | t in grants
      ensures GrantedFor(t, grants[t], b, domain)
    {
      var g :| Granted(g, a, domain) && g.messageType == t && g.durationSec == grants[t];
      GrantedLater(g, a, b, domain);
    }
  }

  lemma ContractGrows(grants: map<int, int>, g: ParsedGrant, b: Buf, domain: int)
    requires Contracted(grants, b, domain) && Granted(g, b, domain) && g.durationSec > 0
    ensures Contracted(grants[g.messageType := g.durationSec], b, domain)
  {
    assert GrantedFor(g.messageType, g.durationSec, b, domain);
  }

  lemma {:induction false} DeliveredSoFar(grants: seq<ParsedGrant>, expected: seq<int>, b: Buf, domain: int, n: nat)
    requires Delivers(grants, expected, b, domain) && n <= |grants|
    ensures Contracted(DurationsTo(grants, n), b, domain)
  {
    if n > 0 {
      DeliveredSoFar(grants, expected, b, domain, n - 1);
      ContractGrows(DurationsTo(grants, n - 1), grants[n - 1], b, domain);
    }
  }

  lemma {:induction false} DeliveredTypes(grants: seq<ParsedGrant>, expected: seq<int>, n: nat)
    requires |grants| == |expected| && n <= |grants|
    requires forall i | 0 <= i < n :: grants[i].messageType == expected[i] && grants[i].durationSec > 0
    ensures forall t :: t in DurationsTo(grants, n) <==> exists i :: 0 <= i < n && expected[i] == t
  {
    if n > 0 {
      DeliveredTypes(grants, expected, n - 1);
    }
  }

  /** The grants of a successful collection make a contract for exactly the types asked for. */
  lemma DeliveredIsContracted(grants: seq<ParsedGrant>, expected: seq<int>, b: Buf, domain: int)
    requires Delivers(grants, expected, b, domain)
    ensures Contracted(Durations(grants), b, domain)
    ensures Durations(grants).Keys == Types(expected)
  {
    DeliveredSoFar(grants, expected, b, domain, |grants|);
    DeliveredTypes(grants, expected, |grants|);
    assert forall t :: t in Types(expected) <==> exists i :: 0 <= i < |expected| && expected[i] == t;
  }

  /** What two phases together were granted. */
  lemma PhasesContract(first: seq<ParsedGrant>, second: seq<ParsedGrant>, expected: seq<int>, b: Buf, domain: int)
    requires Delivers(first, [ANNOUNCE], b, domain) && Delivers(second, expected, b, domain)
    ensures var grants := map[ANNOUNCE := first[0].durationSec] + Durations(second);
            Contracted(grants, b, domain) && grants.Keys == {ANNOUNCE} + Types(expected)
  {
    DeliveredIsContracted(second, expected, b, domain);
    assert Granted(first[0], b, domain) && GrantedFor(ANNOUNCE, first[0].durationSec, b, domain);
    ContractsJoin(map[ANNOUNCE := first[0].durationSec], Durations(second), b, domain);
  }

  lemma ContractsJoin(one: map<int, int>, other: map<int, int>, b: Buf, domain: int)
    requires Contracted(one, b, domain) && Contracted(other, b, domain)
    ensures Contracted(one + other, b, domain) && (one + other).Keys == one.Keys + other.Keys
  {
    forall t | t in one + other
      ensures (one + other)[t] > 0 && GrantedFor(t, (one + other)[t], b, domain)
    {
      assert (one + other)[t] == if t in other then other[t] else one[t];
    }
  }

  predicate AnnounceFrom(e: Entry, id: PortIdentity, domain: int) {
    e.header.domainNumber == domain && e.header.messageType == ANNOUNCE && e.header.source == id
  }

  /** The source of an Announce of the domain that was received. */
  ghost predicate Announced(id: PortIdentity, b: Buf, domain: int) {
    exists n | 0 <= n < |b.ingested| :: AnnounceFrom(b.ingested[n], id, domain)
  }

  lemma AnnouncedLater(id: PortIdentity, a: Buf, b: Buf, domain: int)
    requires Announced(id, a, domain) && Later(a, b)
    ensures Announced(id, b, domain)
  {
    var n :| 0 <= n < |a.ingested| && AnnounceFrom(a.ingested[n], id, domain);
    assert b.ingested[n] == a.ingested[n];
  }

  /** Signalling of the domain, cut off inside its header: no grants can be read from it. */
  predicate Unreadable(e: Entry, domain: int) {
    e.header.domainNumber == domain && e.header.messageType == SIGNALING && |e.data| < HEADER_LEN
  }

  ghost predicate Poisoned(b: Buf, domain: int) {
    exists e :: e in b.entries && Unreadable(e, domain)
  }

  datatype Scan = Scan(byType: map<int, ParsedGrant>, idxs: seq<nat>)

  class UnicastSession {
    const client: PtpClient
    const own: PortIdentity
    const domain: int
    const announceLogPeriod: int
    const syncLogPeriod: int
    const delayRespLogPeriod: int
    const durationSec: int
    const negotiateDelayResp: bool
    const requestTimeout: real
    const firstAnnounceTimeout: real
    const sends: nat -> bool             // whether a send at that moment succeeds
    const stopped: nat -> bool           // whether a stop has been requested by that moment
    var denialCounts: map<int, nat>
    var contractStartedAt: real
    var state: Option<NegotiationState>
    var sent: seq<seq<octet>>            // the datagrams sent, for the record
    ghost var log: Log                   // the contract's life, for the record

    ghost predicate Valid()
      reads this, client
    {
      client.Valid() && client.domain == domain && (state.Some? ==> Positive(state.value.grants))
    }

    /** The log tells the life of the contract in force. */
    ghost predicate Chronicled()
      reads this, client
    {
      state.Some? ==>
        && log.Kept(durationSec as real)
        && contractStartedAt == log.StartedAt(|log.checks|) && state.value.grants == log.Grants(|log.checks|)
        && log.Since(|log.checks|) <= client.clock(client.tick)
    }

    /** A stop was requested at one of these moments. */
    ghost predicate StopRequested(from: nat, to: nat) {
      exists n: nat :: from <= n <= to && stopped(n)
    }

    /** The client must be of the same domain; the source raises otherwise. */
    constructor (client: PtpClient, own: PortIdentity, domainNumber: int, announceLogPeriod: int, syncLogPeriod: int,
                 delayRespLogPeriod: int, durationSec: int, negotiateDelayResp: bool, requestTimeout: real,
                 firstAnnounceTimeout: real, sends: nat -> bool, stopped: nat -> bool)
      requires client.Valid() && client.domain == domainNumber % 0x100
      ensures Valid() && Chronicled() && this.client == client && state == None && sent == [] && contractStartedAt == 0.0
    {
      this.client, this.own, this.domain := client, own, domainNumber % 0x100;
      this.announceLogPeriod, this.syncLogPeriod, this.delayRespLogPeriod := announceLogPeriod, syncLogPeriod, delayRespLogPeriod;
      this.durationSec, this.negotiateDelayResp := durationSec, negotiateDelayResp;
      this.requestTimeout, this.firstAnnounceTimeout := requestTimeout, firstAnnounceTimeout;
      this.sends, this.stopped := sends, stopped;
      denialCounts, contractStartedAt, state, sent := map[], 0.0, None, [];
      log := Log(0.0, map[], []);
    }

    /** The relevant grants of one message, filed; a denial raises. */
    method FileGrants(grants: seq<ParsedGrant>, need: set<int>, byType: map<int, ParsedGrant>, ghost e: Entry)
      returns (r: Result<map<int, ParsedGrant>>, relevant: bool)
      requires Valid() && Collected(byType, need, client.buf, domain)
      requires client.buf.Known(e) && forall g | g in grants :: GrantFrom(g, e, domain)
      modifies this`denialCounts
      ensures r.Ok? ==> Collected(r.value, need, client.buf, domain)
      ensures r.Ok? ==> (relevant <==> exists g :: g in grants && g.messageType in need)
      ensures r.Ok? ==> denialCounts == old(denialCounts)
      ensures r.Raise? ==>
                && r.exn == Denied
                && exists g :: g in grants && g.messageType in need && g.durationSec == 0
                               && denialCounts == Bumped(old(denialCounts), g.messageType)
    {
      var filed := byType;
      relevant := false;
      for k := 0 to |grants|
        invariant Collected(filed, need, client.buf, domain)
        invariant relevant <==> exists i :: 0 <= i < k && grants[i].messageType in need
        invariant denialCounts == old(denialCounts)
      {
        var g := grants[k];
        if g.messageType in need {
          if g.durationSec == 0 {
            denialCounts := Bumped(denialCounts, g.messageType);
            return Raise(Denied), true;
          }
          assert GrantFrom(g, client.buf.ingested[e.no], domain);
          GrantIsNotNegative(e.data, g);
          filed := filed[g.messageType := g];
          relevant := true;
        }
      }
      return Ok(filed), relevant;
    }

    /** Looks through the buffer for Signalling of the domain with relevant grants. */
    method ScanBuffer(need: set<int>, byType: map<int, ParsedGrant>) returns (r: Result<Scan>)
      requires Valid() && Collected(byType, need, client.buf, domain)
      modifies this`denialCounts
      ensures r.Ok? ==>
                && Collected(r.value.byType, need, client.buf, domain)
                && Ascending(r.value.idxs) && Within(r.value.idxs, |client.buf.entries|)
      ensures r.Raise? ==> r.exn == Denied || r.exn == ValueError
      ensures r == Raise(ValueError) ==> Poisoned(client.buf, domain)
      ensures Poisoned(client.buf, domain) ==> r.Raise?
    {
      var scan := Scan(byType, []);
      for idx := 0 to |client.buf.entries|
        invariant Collected(scan.byType, need, client.buf, domain)
        invariant Ascending(scan.idxs) && Within(scan.idxs, idx)
        invariant forall k | 0 <= k < idx :: !Unreadable(client.buf.entries[k], domain)
      {
        var e := client.buf.entries[idx];
        if e.header.domainNumber == domain && e.header.messageType == SIGNALING {
          assert ExtractGrants(e.data).Raise? <==> Unreadable(e, domain);
          var grants :- ExtractGrants(e.data);
          var filed, relevant := FileGrants(grants, need, scan.byType, e);
          if filed.Raise? {
            return Raise(filed.exn);
          }
          if relevant {
            scan := Scan(filed.value, scan.idxs + [idx]);
          }
        }
      }
      return Ok(scan);
    }

    /** Collects grants of the expected types, possibly from several messages, until the deadline. */
    method CollectGrants(expected: seq<int>, deadline: real) returns (r: Result<seq<ParsedGrant>>)
      requires Valid()
      modifies this`denialCounts, client`buf, client`tick
      ensures Valid() && Later(old(client.buf), client.buf) && client.tick >= old(client.tick)
      ensures r.Ok? ==> Delivers(r.value, expected, client.buf, domain)
      ensures r.Raise? ==> r.exn == TimeoutError || r.exn == Denied || r.exn == ValueError
      ensures r == Raise(ValueError) ==> Poisoned(client.buf, domain)
    {
      var need := Types(expected);
      var byType: map<int, ParsedGrant> := map[];
      assert Reaches(client.clock, deadline);
      ghost var last: nat :| client.clock(last) >= deadline;
      var now := client.Monotonic();
      while now < deadline
        invariant Valid() && Later(old(client.buf), client.buf) && Collected(byType, need, client.buf, domain)
        invariant client.tick >= old(client.tick)
        invariant client.tick > 0 && now == client.clock(client.tick - 1)
        decreases last - client.tick
      {
        var more: bool;
        ghost var before := client.buf;
        r, byType, more := CollectOnce(expected, need, byType, deadline);
        LaterStill(old(client.buf), before, client.buf);
        if !more {
          return;
        }
        before := client.buf;
        now := client.Monotonic();
        LaterStill(old(client.buf), before, client.buf);
        CollectedLater(byType, need, before, client.buf, domain);
      }
      return Raise(TimeoutError);
    }

    /** One turn: what is in the buffer is filed and deleted; `more` tells whether to go on. */
    method CollectOnce(expected: seq<int>, need: set<int>, byType: map<int, ParsedGrant>, deadline: real)
      returns (r: Result<seq<ParsedGrant>>, filed: map<int, ParsedGrant>, more: bool)
      requires Valid() && Collected(byType, need, client.buf, domain) && need == Types(expected)
      modifies this`denialCounts, client`buf, client`tick
      ensures Valid() && Later(old(client.buf), client.buf) && client.tick > old(client.tick)
      ensures more ==> Collected(filed, need, client.buf, domain)
      ensures !more && r.Ok? ==> Delivers(r.value, expected, client.buf, domain)
      ensures !more && r.Raise? ==> r.exn == TimeoutError || r.exn == Denied || r.exn == ValueError
      ensures !more && r == Raise(ValueError) ==> Poisoned(client.buf, domain)
    {
      filed, more, r := byType, false, Raise(TimeoutError);
      client.Pause();
      CollectedLater(byType, need, old(client.buf), client.buf, domain);
      var scan := ScanBuffer(need, byType);
      if scan.Raise? {
        r := Raise(scan.exn);
        return;
      }
      ghost var before := client.buf;
      client.DeleteEntries(scan.value.idxs);
      LaterStill(old(client.buf), before, client.buf);
      filed := scan.value.byType;
      CollectedLater(filed, need, before, client.buf, domain);
      if need <= filed.Keys {
        PickedDelivers(filed, expected, client.buf, domain);
        r := Ok(Picked(filed, expected));
        return;
      }
      before := client.buf;
      var now := client.Monotonic();
      LaterStill(old(client.buf), before, client.buf);
      CollectedLater(filed, need, before, client.buf, domain);
      if deadline - now <= 0.0 {
        return;
      }
      if scan.value.idxs == [] {
        before := client.buf;
        client.Pause();
        LaterStill(old(client.buf), before, client.buf);
        CollectedLater(filed, need, before, client.buf, domain);
      }
      more := true;
    }

    /** Sends one Signalling message with these TLVs. */
    method SendSignaling(tlvs: seq<Tlv>, target: PortIdentity) returns (r: Result<()>)
      requires Valid() && AllValid(tlvs)
      modifies this`sent, client`seqId, client`buf, client`tick
      ensures Valid() && Later(old(client.buf), client.buf) && client.tick >= old(client.tick)
      ensures client.buf.consumed == old(client.buf.consumed)
      ensures client.seqId == (old(client.seqId) + 1) % 0x1_0000
      ensures r.Ok? ==>
                && SentMore(old(sent), sent, tlvs, 1) && |sent| == |old(sent)| + 1
                && Addressed(sent[|old(sent)|], domain, own, target, client.seqId)
      ensures r.Raise? ==> r.exn == OsError && sent == old(sent)
    {
      client.seqId := (client.seqId + 1) % 0x1_0000;
      BuiltGrantsAreExtracted(domain, own, target, tlvs, client.seqId);
      SignalingReadable(domain, own, target, EncodeAll(tlvs), client.seqId);
      var payload := BuildSignaling(domain, own, target, EncodeAll(tlvs), client.seqId).value;
      var ok := sends(client.tick);
      client.Pause();
      if !ok {
        return Raise(OsError);
      }
      sent := sent + [payload];
      return Ok(());
    }

    /** The check that follows a collection. */
    method ExpectGrantsOk(grants: seq<ParsedGrant>, expected: seq<int>) returns (r: Result<()>)
      modifies this`denialCounts
      ensures Delivers(grants, expected, client.buf, domain) ==> r.Ok? && denialCounts == old(denialCounts)
    {
      var byType: map<int, ParsedGrant> := map[];
      for k := 0 to |grants|
        invariant forall i | 0 <= i < k :: grants[i].messageType in byType
        invariant forall t | t in byType :: exists i :: 0 <= i < k && byType[t] == grants[i]
      {
        byType := byType[grants[k].messageType := grants[k]];
      }
      for k := 0 to |expected|
        invariant denialCounts == old(denialCounts)
      {
        var t := expected[k];
        if t !in byType {
          return Raise(NegotiationTimeout);
        }
        if byType[t].durationSec == 0 {
          denialCounts := Bumped(denialCounts, t);
          return Raise(Denied);
        }
      }
      return Ok(());
    }

    /** Asks for the expected types up to three times; a denial ends it at once. */
    method NegotiateWithRetries(tlvs: seq<Tlv>, target: PortIdentity, expected: seq<int>)
      returns (r: Result<seq<ParsedGrant>>)
      requires Valid() && AllValid(tlvs)
      modifies this`denialCounts, this`sent, client`seqId, client`buf, client`tick
      ensures Valid() && Later(old(client.buf), client.buf) && client.tick >= old(client.tick)
      ensures SentMore(old(sent), sent, tlvs, 3)
      ensures r.Ok? ==> Delivers(r.value, expected, client.buf, domain) && |sent| > |old(sent)|
      ensures r.Raise? ==> r.exn in {NegotiationTimeout, NegotiationStopped, Denied, ValueError, OsError}
      ensures r == Raise(ValueError) ==> Poisoned(client.buf, domain)
      ensures r == Raise(NegotiationTimeout) ==> |sent| == |old(sent)| + 3
      ensures r == Raise(Denied) ==> |sent| > |old(sent)|
      ensures r == Raise(NegotiationStopped) ==> StopRequested(old(client.tick), client.tick)
    {
      for attempt := 0 to 3
        invariant Valid() && Later(old(client.buf), client.buf) && client.tick >= old(client.tick)
        invariant SentMore(old(sent), sent, tlvs, attempt) && |sent| == |old(sent)| + attempt
      {
        if stopped(client.tick) {
          return Raise(NegotiationStopped);
        }
        ghost var before, sentBefore := client.buf, sent;
        var _ :- SendSignaling(tlvs, target);
        LaterStill(old(client.buf), before, client.buf);
        SentMoreStill(old(sent), sentBefore, sent, tlvs, attempt);
        before := client.buf;
        var now := client.Monotonic();
        LaterStill(old(client.buf), before, client.buf);
        before := client.buf;
        r := CollectGrants(expected, now + requestTimeout);
        LaterStill(old(client.buf), before, client.buf);
        if r.Ok? {
          var checked := ExpectGrantsOk(r.value, expected);
          assert checked.Ok?;
          return;
        }
        if r.exn != TimeoutError {
          return;
        }
        if attempt == 2 {
          return Raise(NegotiationTimeout);
        }
        before := client.buf;
        client.Pause();
        LaterStill(old(client.buf), before, client.buf);
      }
      return Raise(NegotiationTimeout);
    }

    /** Waits for an Announce of the domain, asking again after the first two timeouts. */
    method WaitFirstAnnounce(tlvs: seq<Tlv>) returns (r: Result<PortIdentity>)
      requires Valid() && AllValid(tlvs)
      modifies this`sent, client`seqId, client`buf, client`tick
      ensures Valid() && Later(old(client.buf), client.buf) && client.tick >= old(client.tick)
      ensures SentMore(old(sent), sent, tlvs, 2)
      ensures r.Ok? ==> Announced(r.value, client.buf, domain)
      ensures r.Raise? ==> r.exn == NegotiationTimeout || r.exn == OsError
    {
      for attempt := 0 to 3
        invariant Valid() && Later(old(client.buf), client.buf) && client.tick >= old(client.tick)
        invariant SentMore(old(sent), sent, tlvs, if attempt < 2 then attempt else 2)
      {
        ghost var before, sentBefore := client.buf, sent;
        var now := client.Monotonic();
        LaterStill(old(client.buf), before, client.buf);
        before := client.buf;
        var popped := client.PopMatching(
          (e: Entry) => e.header.domainNumber == domain && e.header.messageType == ANNOUNCE, now + firstAnnounceTimeout);
        LaterStill(old(client.buf), before, client.buf);
        if popped.Ok? {
          assert AnnounceFrom(client.buf.ingested[popped.value.no], popped.value.header.source, domain);
          return Ok(popped.value.header.source);
        }
        if attempt == 2 {
          return Raise(NegotiationTimeout);
        }
        before := client.buf;
        var _ :- SendSignaling(tlvs, WILDCARD);
        LaterStill(old(client.buf), before, client.buf);
        SentMoreStill(old(sent), sentBefore, sent, tlvs, attempt);
        before := client.buf;
        client.Pause();
        LaterStill(old(client.buf), before, client.buf);
      }
      return Raise(NegotiationTimeout);
    }

    function SyncRequests(): (r: Result<seq<Tlv>>)
      ensures r.Ok? ==> AllValid(r.value)
    {
      var sync :- RequestTlv(SYNC, syncLogPeriod, durationSec);
      if negotiateDelayResp then
        var resp :- RequestTlv(DELAY_RESP, delayRespLogPeriod, durationSec);
        Ok([sync, resp])
      else Ok([sync])
    }

    function SyncTypes(): seq<int> {
      if negotiateDelayResp then [SYNC, DELAY_RESP] else [SYNC]
    }

    function AnnounceRequests(): (r: Result<seq<Tlv>>)
      ensures r.Ok? ==> AllValid(r.value)
    {
      var announce :- RequestTlv(ANNOUNCE, announceLogPeriod, durationSec);
      Ok([announce])
    }

    /** A phase's requests, sent to the target and, should nobody answer, to everybody. */
    method NegotiateOrAskAll(tlvs: seq<Tlv>, target: PortIdentity, expected: seq<int>) returns (r: Result<seq<ParsedGrant>>)
      requires Valid() && AllValid(tlvs)
      modifies this`denialCounts, this`sent, client`seqId, client`buf, client`tick
      ensures Valid() && Later(old(client.buf), client.buf) && client.tick >= old(client.tick)
      ensures SentMore(old(sent), sent, tlvs, 6)
      ensures r.Ok? ==> Delivers(r.value, expected, client.buf, domain) && |sent| > |old(sent)|
      ensures r.Raise? ==> r.exn in {NegotiationTimeout, NegotiationStopped, Denied, ValueError, OsError}
      ensures r == Raise(ValueError) ==> Poisoned(client.buf, domain)
      ensures r == Raise(NegotiationTimeout) ==> |sent| == |old(sent)| + 6
      ensures r == Raise(Denied) ==> |sent| > |old(sent)|
      ensures r == Raise(NegotiationStopped) ==> StopRequested(old(client.tick), client.tick)
    {
      r := NegotiateWithRetries(tlvs, target, expected);
      if r == Raise(NegotiationTimeout) {
        ghost var before, sentBefore := client.buf, sent;
        r := NegotiateWithRetries(tlvs, WILDCARD, expected);
        LaterStill(old(client.buf), before, client.buf);
        SentMoreTogether(old(sent), sentBefore, sent, tlvs, 3, 3);
      }
    }

    /** The first phase: an Announce grant, then an Announce. */
    method NegotiateAnnounce(tlvs: seq<Tlv>) returns (r: Result<PortIdentity>, grants: seq<ParsedGrant>)
      requires Valid() && AllValid(tlvs)
      modifies this`denialCounts, this`sent, client`seqId, client`buf, client`tick
      ensures Valid() && Later(old(client.buf), client.buf) && client.tick >= old(client.tick)
      ensures SentMore(old(sent), sent, tlvs, 5)
      ensures r.Ok? ==>
                && Delivers(grants, [ANNOUNCE], client.buf, domain) && |sent| > |old(sent)|
                && Announced(r.value, client.buf, domain)
    {
      grants := [];
      grants :- NegotiateWithRetries(tlvs, WILDCARD, [ANNOUNCE]);
      ghost var before, sentBefore := client.buf, sent;
      r := WaitFirstAnnounce(tlvs);
      LaterStill(old(client.buf), before, client.buf);
      SentMoreTogether(old(sent), sentBefore, sent, tlvs, 3, 2);
      DeliversLater(grants, [ANNOUNCE], before, client.buf, domain);
    }

    /** Both phases: the grandmaster and what was granted for each service. */
    method NegotiatePhases(asked: seq<Tlv>, askedNext: Result<seq<Tlv>>)
      returns (r: Result<PortIdentity>, grants: map<int, int>, ghost announces: nat)
      requires Valid() && AllValid(asked) && (askedNext.Ok? ==> AllValid(askedNext.value))
      modifies this`denialCounts, this`sent, client`seqId, client`buf, client`tick
      ensures Valid() && Later(old(client.buf), client.buf) && client.tick >= old(client.tick)
      ensures AskedInOrder(old(sent), sent, announces, asked, if askedNext.Ok? then askedNext.value else [])
      ensures r.Ok? ==>
                && askedNext.Ok? && Contracted(grants, client.buf, domain)
                && grants.Keys == {ANNOUNCE} + Types(SyncTypes())
                && Announced(r.value, client.buf, domain)
                && announces >= 1 && |sent| > |old(sent)| + announces
    {
      grants := map[];
      var gm, first := NegotiateAnnounce(asked);
      announces := |sent| - |old(sent)|;
      if gm.Raise? {
        return gm, grants, announces;
      }
      if askedNext.Raise? {
        return Raise(askedNext.exn), grants, announces;
      }
      ghost var before, sentBefore := client.buf, sent;
      var second := NegotiateOrAskAll(askedNext.value, gm.value, SyncTypes());
      LaterStill(old(client.buf), before, client.buf);
      AskedBoth(old(sent), sentBefore, sent, asked, askedNext.value);
      if second.Raise? {
        return Raise(second.exn), grants, announces;
      }
      DeliversLater(first, [ANNOUNCE], before, client.buf, domain);
      AnnouncedLater(gm.value, before, client.buf, domain);
      PhasesContract(first, second.value, SyncTypes(), client.buf, domain);
      grants := map[ANNOUNCE := first[0].durationSec] + Durations(second.value);
      return gm, grants, announces;
    }

    /** The whole negotiation: Announce first, then Sync and, when it is to be negotiated, Delay_Resp. The
        state is set only on success, and then holds positive grants, each read from received Signalling,
        for exactly the services asked for, and the source of a received Announce as the grandmaster. The
        first `announces` datagrams ask for Announce, the others for the rest: eleven at most. */
    method Negotiate() returns (r: Result<NegotiationState>, ghost announces: nat)
      requires Valid()
      modifies this`denialCounts, this`sent, this`state, this`contractStartedAt, this`log,
               client`seqId, client`buf, client`tick
      ensures Valid() && Later(old(client.buf), client.buf) && client.tick >= old(client.tick)
      ensures AskedInOrder(old(sent), sent, announces, if AnnounceRequests().Ok? then AnnounceRequests().value else [],
                           if SyncRequests().Ok? then SyncRequests().value else [])
      ensures |sent| <= |old(sent)| + 11
      ensures r.Ok? ==>
                && state == Some(r.value)
                && Contracted(r.value.grants, client.buf, domain)
                && r.value.grants.Keys == {ANNOUNCE} + Types(SyncTypes())
                && Announced(r.value.grandmaster, client.buf, domain)
                && r.value.announceLogPeriod == announceLogPeriod && r.value.syncLogPeriod == syncLogPeriod
                && r.value.delayRespLogPeriod == (if negotiateDelayResp then Some(delayRespLogPeriod) else None)
                && announces >= 1 && |sent| > |old(sent)| + announces
                && client.tick > 0 && contractStartedAt == client.clock(client.tick - 1)
                && Chronicled() && log == Log(contractStartedAt, r.value.grants, [])
      ensures r.Raise? ==> state == old(state) && contractStartedAt == old(contractStartedAt) && log == old(log)
    {
      announces := 0;
      var asked :- AnnounceRequests();
      var gm: Result<PortIdentity>;
      var grants: map<int, int>;
      gm, grants, announces := NegotiatePhases(asked, SyncRequests());
      if gm.Raise? {
        return Raise(gm.exn), announces;
      }
      ghost var before := client.buf;
      r := StartContract(gm.value, grants);
      LaterStill(old(client.buf), before, client.buf);
      return r, announces;
    }

    /** The state of a successful negotiation, its contract started now. */
    method StartContract(gm: PortIdentity, grants: map<int, int>) returns (r: Result<NegotiationState>)
      requires Valid() && Contracted(grants, client.buf, domain) && Announced(gm, client.buf, domain)
      modifies this`state, this`contractStartedAt, this`log, client`buf, client`tick
      ensures Valid() && Later(old(client.buf), client.buf) && client.tick >= old(client.tick)
      ensures r == Ok(NegotiationState(gm, grants, announceLogPeriod, syncLogPeriod,
                                       if negotiateDelayResp then Some(delayRespLogPeriod) else None))
      ensures state == Some(r.value)
      ensures Contracted(grants, client.buf, domain) && Announced(gm, client.buf, domain)
      ensures client.tick > 0 && contractStartedAt == client.clock(client.tick - 1)
      ensures Chronicled() && log == Log(contractStartedAt, grants, [])
    {
      var now := client.Monotonic();
      ContractedLater(grants, old(client.buf), client.buf, domain);
      AnnouncedLater(gm, old(client.buf), client.buf, domain);
      state := Some(NegotiationState(gm, grants, announceLogPeriod, syncLogPeriod,
                                     if negotiateDelayResp then Some(delayRespLogPeriod) else None));
      contractStartedAt := now;
      log := Log(now, grants, []);
      r := Ok(state.value);
    }

    // ---- Renewal ----

    function RenewRequests(): (r: Result<seq<Tlv>>)
      ensures r.Ok? ==> AllValid(r.value)
    {
      var announce :- AnnounceRequests();
      var others :- SyncRequests();
      Ok(announce + others)
    }

    /** Asks for all services again. Whatever comes of it, no grant is lost and none becomes zero. */
    method DoRenewNow() returns (r: Result<seq<ParsedGrant>>)
      requires Valid()
      modifies this`denialCounts, this`sent, this`state, client`seqId, client`buf, client`tick
      ensures Valid() && Later(old(client.buf), client.buf) && client.tick >= old(client.tick)
      ensures r.Raise? ==> state == old(state)
      ensures r.Ok? ==>
                && old(state).Some? && Delivers(r.value, [ANNOUNCE] + SyncTypes(), client.buf, domain)
                && state == Some(old(state).value.(grants := old(state).value.grants + Durations(r.value)))
                && Durations(r.value).Keys == Types([ANNOUNCE] + SyncTypes())
      ensures r.Raise? && old(state).Some? ==>
                r.exn in {NegotiationTimeout, NegotiationStopped, Denied, ValueError, OsError, StructError}
      ensures r == Raise(ValueError) ==> Poisoned(client.buf, domain)
      ensures SentMore(old(sent), sent, if RenewRequests().Ok? then RenewRequests().value else [], 6)
      ensures old(state).Some? && (r.Ok? || r.exn == NegotiationTimeout || r.exn == Denied) ==> |sent| > |old(sent)|
      ensures r == Raise(NegotiationStopped) ==> StopRequested(old(client.tick), client.tick)
    {
      if state.None? {
        return Raise(RuntimeError);
      }
      var tlvs :- RenewRequests();
      r := NegotiateOrAskAll(tlvs, state.value.grandmaster, [ANNOUNCE] + SyncTypes());
      if r.Ok? {
        DeliveredIsContracted(r.value, [ANNOUNCE] + SyncTypes(), client.buf, domain);
        state := Some(state.value.(grants := state.value.grants + Durations(r.value)));
      }
    }

    /** What one attempt at a renewal comes to. */
    ghost predicate Attempted(r: Result<bool>, before: seq<seq<octet>>, from: nat)
      reads this, client
    {
      && SentMore(before, sent, if RenewRequests().Ok? then RenewRequests().value else [], 6)
      && (r == Ok(true) ==> |sent| > |before|)
      && (r == Ok(false) ==> |sent| > |before| || StopRequested(from, client.tick))
      && (r.Raise? ==> r.exn in {ValueError, OsError, StructError})
      && (r == Raise(ValueError) ==> Poisoned(client.buf, domain))
    }

    /** An attempt at a renewal, for a check begun at `at`. A failed one leaves the contract as it was. */
    method AttemptRenewal(at: real, force: bool) returns (r: Result<bool>)
      requires Valid() && Chronicled() && state.Some?
      requires log.Since(|log.checks|) <= at <= client.clock(client.tick)
      requires force || RenewalDue(contractStartedAt, at, durationSec as real)
      modifies this`denialCounts, this`sent, this`state, this`contractStartedAt, this`log,
               client`seqId, client`buf, client`tick
      ensures Valid() && Later(old(client.buf), client.buf) && client.tick >= old(client.tick) && Chronicled()
      ensures Attempted(r, old(sent), old(client.tick))
      ensures r != Ok(true) ==> contractStartedAt == old(contractStartedAt) && state == old(state)
      ensures r == Ok(true) ==>
                && state.Some? && old(state).value.grants.Keys <= state.value.grants.Keys
                && client.tick > 0 && contractStartedAt == client.clock(client.tick - 1)
      ensures r.Ok? ==>
                && |log.checks| == |old(log).checks| + 1 && log == old(log).With(log.checks[|old(log).checks|])
                && var c := log.checks[|old(log).checks|]; c.at == at && c.forced == force && c.renewed == r.value
      ensures r.Raise? ==> log == old(log)
    {
      ghost var before := client.buf;
      var renewed := DoRenewNow();
      if renewed.Ok? {
        before := client.buf;
        MarkRenewed(at, force);
        LaterStill(old(client.buf), before, client.buf);
        return Ok(true);
      }
      if renewed.exn in {Denied, NegotiationTimeout, NegotiationStopped} {
        RecordFailure(at, force);
        return Ok(false);
      }
      return Raise(renewed.exn);
    }

    /** The contract starts anew, by the grants the state holds now. */
    method MarkRenewed(at: real, force: bool)
      requires Valid() && state.Some? && log.Kept(durationSec as real)
      requires log.Since(|log.checks|) <= at <= client.clock(client.tick)
      requires force || RenewalDue(log.StartedAt(|log.checks|), at, durationSec as real)
      modifies this`contractStartedAt, this`log, client`buf, client`tick
      ensures Valid() && Later(old(client.buf), client.buf) && client.tick == old(client.tick) + 1 && Chronicled()
      ensures contractStartedAt == client.clock(client.tick - 1)
      ensures log == old(log).With(Check(at, contractStartedAt, force, true, state.value.grants))
    {
      contractStartedAt := client.Monotonic();
      ghost var c := Check(at, contractStartedAt, force, true, state.value.grants);
      LogGrows(log, c, durationSec as real);
      log := log.With(c);
    }

    ghost method RecordFailure(at: real, force: bool)
      requires Valid() && Chronicled() && state.Some?
      requires log.Since(|log.checks|) <= at <= client.clock(client.tick)
      requires force || RenewalDue(contractStartedAt, at, durationSec as real)
      modifies this`log
      ensures Valid() && Chronicled()
      ensures log == old(log).With(Check(at, client.clock(client.tick), force, false, state.value.grants))
    {
      var c := Check(at, client.clock(client.tick), force, false, state.value.grants);
      LogGrows(log, c, durationSec as real);
      log := log.With(c);
    }

    /** Renews when the contract is near its end or when forced, and says whether it did. */
    method RenewIfDue(force: bool) returns (r: Result<bool>)
      requires Valid() && Chronicled()
      modifies this`denialCounts, this`sent, this`state, this`contractStartedAt, this`log,
               client`seqId, client`buf, client`tick
      ensures Valid() && Later(old(client.buf), client.buf) && client.tick >= old(client.tick) && Chronicled()
      ensures old(state).None? ==> r == Ok(false) && state == None && sent == old(sent) && log == old(log)
      ensures old(state).Some? ==>
                if force || RenewalDue(old(contractStartedAt), client.clock(old(client.tick)), durationSec as real)
                then Attempted(r, old(sent), old(client.tick) + 1)
                else r == Ok(false) && sent == old(sent) && client.tick == old(client.tick) + 1
      ensures r != Ok(true) ==> contractStartedAt == old(contractStartedAt) && state == old(state)
      ensures r == Ok(true) ==>
                && state.Some? && old(state).value.grants.Keys <= state.value.grants.Keys
                && client.tick > 0 && contractStartedAt == client.clock(client.tick - 1)
      ensures old(state).Some? && r.Ok? ==>
                && |log.checks| == |old(log).checks| + 1 && log == old(log).With(log.checks[|old(log).checks|])
                && var c := log.checks[|old(log).checks|];
                   c.at == client.clock(old(client.tick)) && c.forced == force && c.renewed == r.value
      ensures r.Raise? ==> log == old(log)
    {
      if state.None? {
        return Ok(false);
      }
      ghost var start := client.buf;
      var now := client.Monotonic();
      if !force && !RenewalDue(contractStartedAt, now, durationSec as real) {
        ghost var c := Check(now, now, false, false, state.value.grants);
        LogGrows(log, c, durationSec as real);
        log := log.With(c);
        return Ok(false);
      }
      ghost var before := client.buf;
      r := AttemptRenewal(now, force);
      LaterStill(start, before, client.buf);
    }

    /** One turn of the sleep, of half a second at most; tells whether it is over. */
    method SleepOnce(nextAt: real, deadline: Option<real>, checkRenewal: bool) returns (r: Result<bool>)
      requires Valid() && Chronicled()
      modifies this`denialCounts, this`sent, this`state, this`contractStartedAt, this`log,
               client`seqId, client`buf, client`tick
      ensures Valid() && Later(old(client.buf), client.buf) && client.tick >= old(client.tick) && Chronicled()
      ensures old(log).checks <= log.checks && log == old(log).(checks := log.checks)
      ensures !checkRenewal ==> log == old(log) && state == old(state) && sent == old(sent)
      ensures r == Ok(true) ==>
                client.clock(client.tick) >= nextAt || (deadline.Some? && client.clock(client.tick) >= deadline.value)
    {
      if deadline.Some? {
        var now := client.Monotonic();
        if now >= deadline.value {
          return Ok(true);
        }
      }
      ghost var before := client.buf;
      if checkRenewal {
        var renewed := RenewIfDue(false);
        LaterStill(old(client.buf), before, client.buf);
        if renewed.Raise? {
          return renewed;
        }
      }
      before := client.buf;
      var now := client.Monotonic();
      LaterStill(old(client.buf), before, client.buf);
      if now >= nextAt || (deadline.Some? && now >= deadline.value) {
        return Ok(true);
      }
      before := client.buf;
      client.Pause();
      LaterStill(old(client.buf), before, client.buf);
      return Ok(false);
    }

    /** Sleeps until `nextAt`, or the deadline or a stop if that comes first, checking the contract at every
        turn. */
    method SleepUntilNextOrDeadline(nextAt: real, deadline: Option<real>, checkRenewal: bool) returns (r: Result<()>)
      requires Valid() && Chronicled()
      modifies this`denialCounts, this`sent, this`state, this`contractStartedAt, this`log,
               client`seqId, client`buf, client`tick
      ensures Valid() && Later(old(client.buf), client.buf) && client.tick >= old(client.tick) && Chronicled()
      ensures old(log).checks <= log.checks && log == old(log).(checks := log.checks)
      ensures !checkRenewal ==> log == old(log) && state == old(state) && sent == old(sent)
      ensures r.Ok? ==>
                || StopRequested(old(client.tick), client.tick)
                || client.clock(client.tick) >= nextAt
                || (deadline.Some? && client.clock(client.tick) >= deadline.value)
    {
      assert Reaches(client.clock, nextAt);
      ghost var last: nat :| client.clock(last) >= nextAt;
      while !stopped(client.tick)
        invariant Valid() && Later(old(client.buf), client.buf) && client.tick >= old(client.tick) && Chronicled()
        invariant old(log).checks <= log.checks && log == old(log).(checks := log.checks)
        invariant !checkRenewal ==> log == old(log) && state == old(state) && sent == old(sent)
        decreases last - client.tick
      {
        ghost var before := client.buf;
        var now := client.Monotonic();
        LaterStill(old(client.buf), before, client.buf);
        if now >= nextAt {
          return Ok(());
        }
        before := client.buf;
        var over :- SleepOnce(nextAt, deadline, checkRenewal);
        LaterStill(old(client.buf), before, client.buf);
        if over {
          return Ok(());
        }
      }
      return Ok(());
    }

    /** So whatever calls have been made, a session whose log is kept and whose next check is at hand has
        not lapsed: at no instant since its last check, and for no message type. */
    lemma NothingLapses(gap: real, work: real, lag: real, most: nat, t: real, service: int)
      requires Valid() && Chronicled() && state.Some? && log.start > 0.0 && gap >= 0.0 && work >= 0.0
      requires var d := durationSec as real;
               && log.Timely(gap, work) && log.Patient(d, most) && log.Generous(d)
               && Times(most + 1, gap + work) + lag < d
               && (Times(most + 1, gap + work) + lag < 10.0 || Times(most + 1, gap + work) + lag < d * 0.25)
      requires log.Since(|log.checks|) <= t <= log.Since(|log.checks|) + gap + work
      requires service in state.value.grants
      ensures contractStartedAt <= t < contractStartedAt - lag + state.value.grants[service] as real
    {
      NoContractLapses(log, durationSec as real, gap, work, lag, most, |log.checks|, t, service);
    }
  }

  // ---- What is sent ----

  predicate Carries(payload: seq<octet>, tlvs: seq<Tlv>) {
    && UnpackHeader(payload).Ok? && UnpackHeader(payload).value.messageType == SIGNALING
    && TlvsFrom(payload, BODY_START) == tlvs
  }

  /** Signalling from one port to another, in this domain and with this sequence id. */
  predicate Addressed(payload: seq<octet>, domain: int, source: PortIdentity, target: PortIdentity, sequenceId: int) {
    && UnpackHeader(payload) == Ok(PTPHeader(SIGNALING, 2, |payload| % 0x1_0000, domain % 0x100, 0, FLAG_UNICAST, 0, source,
                                             sequenceId % 0x1_0000, 0x05, 0x7F, 0))
    && UnpackIdentity(payload, HEADER_LEN) == Ok(target)
  }

  /** At most so many datagrams were sent in addition, all with these TLVs. */
  ghost predicate SentMore(before: seq<seq<octet>>, after: seq<seq<octet>>, tlvs: seq<Tlv>, most: nat) {
    && |before| <= |after| <= |before| + most
    && before <= after
    && forall i | |before| <= i < |after| :: Carries(after[i], tlvs)
  }

  /** First at most five datagrams with the one list of TLVs, then at most six with the other. */
  ghost predicate AskedInOrder(before: seq<seq<octet>>, after: seq<seq<octet>>, first: nat, one: seq<Tlv>, other: seq<Tlv>) {
    && first <= 5 && |before| + first <= |after| <= |before| + first + 6
    && before <= after
    && (forall i | |before| <= i < |before| + first :: Carries(after[i], one))
    && (forall i | |before| + first <= i < |after| :: Carries(after[i], other))
  }

  lemma AskedBoth(a: seq<seq<octet>>, b: seq<seq<octet>>, c: seq<seq<octet>>, one: seq<Tlv>, other: seq<Tlv>)
    requires SentMore(a, b, one, 5) && SentMore(b, c, other, 6)
    ensures AskedInOrder(a, c, |b| - |a|, one, other)
  {
    forall i | |a| <= i < |b|
      ensures Carries(c[i], one)
    {
      assert c[i] == b[i];
    }
  }

  lemma SentMoreStill(a: seq<seq<octet>>, b: seq<seq<octet>>, c: seq<seq<octet>>, tlvs: seq<Tlv>, most: nat)
    requires SentMore(a, b, tlvs, most) && SentMore(b, c, tlvs, 1)
    ensures SentMore(a, c, tlvs, most + 1)
  {
    forall i | |a| <= i < |c|
      ensures Carries(c[i], tlvs)
    {
      assert i < |b| ==> c[i] == b[i];
    }
  }

  lemma SentMoreTogether(a: seq<seq<octet>>, b: seq<seq<octet>>, c: seq<seq<octet>>, tlvs: seq<Tlv>, m: nat, n: nat)
    requires SentMore(a, b, tlvs, m) && SentMore(b, c, tlvs, n)
    ensures SentMore(a, c, tlvs, m + n)
  {
    forall i | |a| <= i < |c|
      ensures Carries(c[i], tlvs)
    {
      assert i < |b| ==> c[i] == b[i];
    }
  }

  lemma DeliversLater(grants: seq<ParsedGrant>, expected: seq<int>, a: Buf, b: Buf, domain: int)
    requires Delivers(grants, expected, a, domain) && Later(a, b)
    ensures Delivers(grants, expected, b, domain)
  {
    forall i | 0 <= i < |expected|
      ensures Granted(grants[i], b, domain)
    {
      GrantedLater(grants[i], a, b, domain);
    }
  }

  lemma GrantIsNotNegative(data: seq<octet>, g: ParsedGrant)
    requires ExtractGrants(data).Ok? && g in ExtractGrants(data).value
    ensures g.durationSec >= 0
  {
    GrantsOfNotNegative(TlvsFrom(data, BODY_START), g);
    ScanNotNegative(data, BODY_START, g);
  }

  lemma {:induction false} GrantsOfNotNegative(ts: seq<Tlv>, g: ParsedGrant)
    ensures g in GrantsOf(ts) ==> g.durationSec >= 0
  {
    if ts != [] {
      GrantsOfNotNegative(ts[1..], g);
    }
  }

  lemma {:induction false} ScanNotNegative(data: seq<octet>, off: nat, g: ParsedGrant)
    ensures g in ScanFrom(data, off) ==> g.durationSec >= 0
    decreases |data| - off
  {
    if off + 4 <= |data| {
      ScanNotNegative(data, off + 1, g);
    }
  }
}
