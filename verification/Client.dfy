/** The client's waits on the buffer while the receiver thread goes on filling it. */
module Client {
  import opened Outcomes
  import opened Octets
  import opened Timestamp
  import opened Header
  import opened Messages
  import opened Buffer

  datatype Datagram = Datagram(data: seq<octet>, wall: real)

  ghost predicate Reaches(clock: nat -> real, t: real) {
    exists n: nat :: clock(n) >= t
  }

  /** A clock that never goes back and passes every moment. */
  ghost predicate Runs(clock: nat -> real) {
    && (forall i: nat, j: nat | i <= j :: clock(i) <= clock(j))
    && (forall t: real :: Reaches(clock, t))
  }

  /** A Sync with the time it was sent, from itself or from a Follow_Up. */
  datatype SyncSample = SyncSample(sync: Entry, followUp: Option<Entry>, t1: PTPTimestamp, oneStep: bool)

  /** How the sample came about: a Sync first; a Follow_Up first, then its Sync; or a Follow_Up alone. */
  datatype Path = Direct | Led | Degraded

  predicate IsSync(e: Entry, domain: int) {
    e.header.domainNumber == domain && e.header.messageType == SYNC
  }

  predicate IsFollowUp(e: Entry, domain: int) {
    e.header.domainNumber == domain && e.header.messageType == FOLLOW_UP
  }

  predicate SameClock(a: Entry, b: Entry) {
    a.header.source.clockIdentity == b.header.source.clockIdentity
  }

  /** What a sample is worth, by path: on every path a two-step sample pairs a Sync and a Follow_Up of the
      domain with one sequence id, and takes its time from the Follow_Up; where the Sync came first, both
      are from one clock. */
  predicate Sound(s: SyncSample, path: Path, domain: int) {
    && IsSync(s.sync, domain)
    && (s.oneStep <==> s.followUp.None?)
    && (if s.oneStep then
          path.Direct? && !HasFlag(s.sync.header.flags, FLAG_TWO_STEP) && ParseSyncBody(s.sync.data, s.sync.header) == Ok(s.t1)
        else
          var fu := s.followUp.value;
          && IsFollowUp(fu, domain) && fu.header.sequenceId == s.sync.header.sequenceId
          && ParseFollowUpBody(fu.data, fu.header) == Ok(s.t1)
          && (path.Direct? ==> SameClock(s.sync, fu) && HasFlag(s.sync.header.flags, FLAG_TWO_STEP))
          && (path.Degraded? ==> s.sync == fu.(header := fu.header.(messageType := SYNC))))
  }

  /** Its parts were received: the Sync too, but where a Follow_Up stands in for it. */
  predicate Received(s: SyncSample, path: Path, b: Buf) {
    (!path.Degraded? ==> b.Known(s.sync)) && (s.followUp.Some? ==> b.Known(s.followUp.value))
  }

  /** The Follow_Up taken after the wait is the one it began with, exactly if that was not evicted. */
  lemma OwnFollowUpIsTaken(a: Buf, b: Buf, best: Entry, taken: Option<Entry>, domain: int, sync: nat)
    requires a.Valid() && b.Valid() && Later(a, b) && best in a.entries && IsFollowUp(best, domain)
    requires b.consumed == a.consumed + {sync} && sync != best.no
    requires forall e | e in a.entries && IsFollowUp(e, domain) && e.no < best.no ::
               e.header.sequenceId < best.header.sequenceId
    requires taken.Some? ==>
               && taken.value in b.entries && IsFollowUp(taken.value, domain)
               && taken.value.header.sequenceId == best.header.sequenceId
               && forall e | e in b.entries && IsFollowUp(e, domain) && e.header.sequenceId == best.header.sequenceId ::
                    taken.value.no <= e.no
    requires taken.None? ==>
               forall e | e in b.entries :: !(IsFollowUp(e, domain) && e.header.sequenceId == best.header.sequenceId)
    ensures taken == Some(best) <==> best.no !in b.evicted
  {
    InNos(a.entries, best);
    if best.no !in b.evicted {
      HeldStill(a, b, best);
      if taken.value.no < best.no {
        assert a.Known(best);
        HeldBefore(a, b, taken.value);
      } else {
        assert b.Known(taken.value) && b.Known(best);
      }
    } else if taken == Some(best) {
      InNos(b.entries, best);
      assert false;
    }
  }

  predicate Matches(e: Entry, domain: int, sequenceId: int) {
    IsFollowUp(e, domain) && e.header.sequenceId == sequenceId
  }

  /** The oldest Follow_Up of this sequence id, if there is one. */
  ghost predicate OldestMatch(r: Option<Entry>, entries: seq<Entry>, domain: int, sequenceId: int) {
    if r.None? then forall e | e in entries :: !Matches(e, domain, sequenceId)
    else
      && r.value in entries && Matches(r.value, domain, sequenceId)
      && forall e | e in entries && Matches(e, domain, sequenceId) :: r.value.no <= e.no
  }

  /** Between these moments a Follow_Up of the Sync's own clock and sequence id was evicted. */
  ghost predicate OwnEvicted(sync: Entry, a: Buf, b: Buf, domain: int) {
    exists n | 0 <= n < |b.ingested| && n in b.evicted && n !in a.evicted ::
      Matches(b.ingested[n], domain, sync.header.sequenceId) && SameClock(sync, b.ingested[n])
  }

  class PtpClient {
    const domain: int
    const clock: nat -> real              // what the monotonic clock reads, reading by reading
    const net: nat -> seq<Datagram>       // what arrives between two readings
    var buf: Buf
    var seqId: int
    var tick: nat

    ghost predicate Valid()
      reads this
    {
      buf.Valid() && Runs(clock) && 0 <= seqId < 0x1_0000
    }

    constructor (domain: int, maxLen: nat, clock: nat -> real, net: nat -> seq<Datagram>)
      requires Runs(clock)
      ensures Valid() && this.domain == domain % 0x100 && this.clock == clock && this.net == net
      ensures buf == Buf(maxLen, [], [], {}, {}) && seqId == 0 && tick == 0
    {
      this.domain := domain % 0x100;
      this.clock := clock;
      this.net := net;
      buf := Buf(maxLen, [], [], {}, {});
      seqId, tick := 0, 0;
    }

    method Ingest(data: seq<octet>, wall: real) returns (accepted: bool)
      requires Valid()
      modifies this`buf
      ensures Valid() && buf == Ingested(old(buf), data, wall)
      ensures accepted == Accepted(data).Some?
    {
      IngestedIsValid(buf, data, wall);
      var a := Accepted(data);
      accepted := a.Some?;
      if accepted {
        buf := Appended(buf, Entry(|buf.ingested|, a.value.header, a.value.data, wall));
      }
    }

    /** Reads the clock; the lock is free around it, so datagrams may arrive. */
    method Monotonic() returns (t: real)
      requires Valid()
      modifies this`buf, this`tick
      ensures Valid() && Later(old(buf), buf) && buf.consumed == old(buf.consumed)
      ensures t == clock(old(tick)) && tick == old(tick) + 1
    {
      t := clock(tick);
      var arrivals := net(tick);
      tick := tick + 1;
      for k := 0 to |arrivals|
        invariant Valid() && Later(old(buf), buf) && buf.consumed == old(buf.consumed) && tick == old(tick) + 1
      {
        IngestedIsValid(buf, arrivals[k].data, arrivals[k].wall);
        LaterStill(old(buf), buf, Ingested(buf, arrivals[k].data, arrivals[k].wall));
        var _ := Ingest(arrivals[k].data, arrivals[k].wall);
      }
    }

    /** Reads the clock for how long to wait, and waits that long, or until something arrives. */
    method Pause()
      requires Valid()
      modifies this`buf, this`tick
      ensures Valid() && Later(old(buf), buf) && buf.consumed == old(buf.consumed) && tick == old(tick) + 1
    {
      var _ := Monotonic();
    }

    /** The lock is let go and taken again; datagrams may arrive in between. */
    method Breathe(ghost start: Buf)
      requires Valid() && Later(start, buf)
      modifies this`buf, this`tick
      ensures Valid() && Later(old(buf), buf) && Later(start, buf) && buf.consumed == old(buf.consumed) && tick > old(tick)
    {
      ghost var before := buf;
      Pause();
      LaterStill(start, before, buf);
    }

    /** Takes the oldest entry that is accepted out of the buffer, if there is one. */
    method TakeFirst(accept: Entry -> bool) returns (r: Option<Entry>)
      requires Valid()
      modifies this`buf
      ensures Valid() && Later(old(buf), buf)
      ensures r.Some? ==>
                && accept(r.value) && buf.Known(r.value)
                && r.value.no !in old(buf.consumed) && buf.consumed == old(buf.consumed) + {r.value.no}
                && forall k | 0 <= k < |buf.entries| && buf.entries[k].no < r.value.no :: !accept(buf.entries[k])
      ensures r.None? ==> buf == old(buf)
    {
      for idx := 0 to |buf.entries|
        invariant buf == old(buf)
        invariant forall k | 0 <= k < idx :: !accept(buf.entries[k])
      {
        var e := buf.entries[idx];
        if accept(e) {
          TakenIsValid(buf, idx);
          buf := Taken(buf, idx);
          return Some(e);
        }
      }
      return None;
    }

    /** Removes and returns the oldest entry that is accepted, waiting for one until the deadline. */
    method PopMatching(accept: Entry -> bool, deadline: real) returns (r: Result<Entry>)
      requires Valid()
      modifies this`buf, this`tick
      ensures Valid() && Later(old(buf), buf) && tick > old(tick)
      ensures r.Ok? ==>
                && accept(r.value) && buf.Known(r.value)
                && r.value.no !in old(buf.consumed) && buf.consumed == old(buf.consumed) + {r.value.no}
                && forall k | 0 <= k < |buf.entries| && buf.entries[k].no < r.value.no :: !accept(buf.entries[k])
      ensures r.Raise? ==> r.exn == TimeoutError && buf.consumed == old(buf.consumed)
      ensures r.Raise? ==> clock(tick - 1) >= deadline
    {
      assert Reaches(clock, deadline);
      ghost var last: nat :| clock(last) >= deadline;
      var now := Monotonic();
      while now < deadline
        invariant Valid() && Later(old(buf), buf) && buf.consumed == old(buf.consumed)
        invariant tick > old(tick) && now == clock(tick - 1)
        decreases last - tick
      {
        ghost var before := buf;
        var first := TakeFirst(accept);
        LaterStill(old(buf), before, buf);
        if first.Some? {
          return Ok(first.value);
        }
        Pause();
        now := Monotonic();
      }
      return Raise(TimeoutError);
    }

    /** Deletes entries by index, the last one first. */
    method DeleteEntries(idxs: seq<nat>)
      requires Valid() && Ascending(idxs) && Within(idxs, |buf.entries|)
      modifies this`buf
      ensures Valid() && Later(old(buf), buf) && buf.evicted == old(buf.evicted)
      ensures buf.entries == Others(old(buf.entries), idxs, |old(buf.entries)|)
    {
      DescendingDeletionFilters(buf.entries, idxs);
      assert idxs[..|idxs|] == idxs;
      for k := |idxs| downto 0
        invariant Valid() && Later(old(buf), buf) && buf.evicted == old(buf.evicted)
        invariant Within(idxs[..k], |buf.entries|)
        invariant DeleteDescending(buf.entries, idxs[..k]) == DeleteDescending(old(buf.entries), idxs)
      {
        assert idxs[..k + 1][..k] == idxs[..k] && idxs[..k + 1][k] == idxs[k];
        TakenIsValid(buf, idxs[k]);
        buf := Taken(buf, idxs[k]);
      }
    }

    /** The first Follow_Up of the domain with the highest sequence id. */
    method HighestFollowUp() returns (best: Option<Entry>)
      requires Valid()
      ensures best.Some? ==> best.value in buf.entries && buf.Known(best.value) && IsFollowUp(best.value, domain)
      ensures forall e | e in buf.entries && IsFollowUp(e, domain) ::
                && best.Some? && e.header.sequenceId <= best.value.header.sequenceId
                && (e.no < best.value.no ==> e.header.sequenceId < best.value.header.sequenceId)
    {
      best := None;
      for k := 0 to |buf.entries|
        invariant best.Some? ==> best.value in buf.entries && buf.Known(best.value) && IsFollowUp(best.value, domain)
        invariant best.Some? ==> forall i | k <= i < |buf.entries| :: best.value.no < buf.entries[i].no
        invariant forall i | 0 <= i < k && IsFollowUp(buf.entries[i], domain) ::
                    && best.Some? && buf.entries[i].header.sequenceId <= best.value.header.sequenceId
                    && (buf.entries[i].no < best.value.no ==>
                          buf.entries[i].header.sequenceId < best.value.header.sequenceId)
      {
        var e := buf.entries[k];
        if IsFollowUp(e, domain) && (best.None? || e.header.sequenceId > best.value.header.sequenceId) {
          best := Some(e);
        }
      }
    }

    /** Takes the oldest Follow_Up of the domain with this sequence id out of the buffer, if there is one. */
    method TakeFollowUp(sequenceId: int) returns (r: Option<Entry>)
      requires Valid()
      modifies this`buf
      ensures Valid() && Later(old(buf), buf)
      ensures buf.evicted == old(buf.evicted)
      ensures r.Some? ==>
                && IsFollowUp(r.value, domain) && r.value.header.sequenceId == sequenceId && buf.Known(r.value)
                && r.value in old(buf.entries) && buf.consumed == old(buf.consumed) + {r.value.no}
                && forall e | e in old(buf.entries) && IsFollowUp(e, domain) && e.header.sequenceId == sequenceId ::
                     r.value.no <= e.no
      ensures r.None? ==>
                && buf == old(buf)
                && forall e | e in buf.entries :: !(IsFollowUp(e, domain) && e.header.sequenceId == sequenceId)
    {
      for idx := 0 to |buf.entries|
        invariant buf == old(buf)
        invariant forall k | 0 <= k < idx :: !(IsFollowUp(buf.entries[k], domain) && buf.entries[k].header.sequenceId == sequenceId)
      {
        var e := buf.entries[idx];
        if IsFollowUp(e, domain) && e.header.sequenceId == sequenceId {
          TakenIsValid(buf, idx);
          buf := Taken(buf, idx);
          return Some(e);
        }
      }
      return None;
    }

    /** After the wait for a Sync that began with this Follow_Up: the oldest one left with its sequence id,
        or itself when none is left. That is another one exactly if it was evicted and one is left. */
    method TakeOwnFollowUp(best: Entry, sync: Result<Entry>, ghost start: Buf)
      returns (fu: Entry, ghost waited: Buf, ghost own: Option<Entry>)
      requires Valid() && start.Valid() && Later(start, buf) && best in start.entries && IsFollowUp(best, domain)
      requires forall e | e in start.entries && IsFollowUp(e, domain) && e.no < best.no ::
                 e.header.sequenceId < best.header.sequenceId
      requires sync.Ok? ==> IsSync(sync.value, domain) && buf.Known(sync.value)
      requires sync.Ok? ==> buf.consumed == start.consumed + {sync.value.no}
      requires start.Known(best)
      modifies this`buf, this`tick
      ensures Valid() && Later(old(buf), buf) && Later(start, buf) && tick > old(tick)
      ensures IsFollowUp(fu, domain) && fu.header.sequenceId == best.header.sequenceId && buf.Known(fu)
      ensures Later(start, waited) && Later(waited, buf) && buf.evicted == waited.evicted
      ensures OldestMatch(own, waited.entries, domain, best.header.sequenceId) && fu == own.GetOr(best)
      ensures sync.Ok? ==> buf.Known(sync.value) && (fu != best <==> own.Some? && best.no in buf.evicted)
    {
      Breathe(start);
      waited := buf;
      KnownLater(start, waited, best);
      var taken := TakeFollowUp(best.header.sequenceId);
      own := taken;
      LaterStill(start, waited, buf);
      if sync.Ok? {
        OwnFollowUpIsTaken(start, waited, best, own, domain, sync.value.no);
      }
      KnownLater(start, buf, best);
      fu := taken.GetOr(best);
    }

    /** Starts from a Follow_Up when no Sync is at hand: waits up to two seconds for its Sync, and without
        one falls back, when allowed, on the Follow_Up alone. It ends up with the oldest Follow_Up of that
        sequence id, whatever clock that came from: another clock's only if the one it started from was
        evicted meanwhile. */
    method TrySyncSampleFollowUpLed(deadline: real, allowDegraded: bool) returns (r: Result<Option<SyncSample>>, path: Path)
      requires Valid()
      modifies this`buf, this`tick
      ensures Valid() && Later(old(buf), buf) && tick >= old(tick)
      ensures r.Ok? && r.value.Some? ==>
                && Sound(r.value.value, path, domain) && Received(r.value.value, path, buf)
                && !path.Direct? && (path.Degraded? ==> allowDegraded)
                && (|| SameClock(r.value.value.sync, r.value.value.followUp.value)
                    || OwnEvicted(r.value.value.sync, old(buf), buf, domain))
      ensures r.Raise? ==> r.exn == ValueError
    {
      path := Led;
      var best := HighestFollowUp();
      if best.None? {
        return Ok(None), path;
      }
      var fu := best.value;
      var seqId := fu.header.sequenceId;
      var start := buf;
      var now := Monotonic();
      var accept := (e: Entry) =>
        IsSync(e, domain) && e.header.sequenceId == seqId && SameClock(e, fu);
      var sync := PopMatching(accept, if deadline < now + 2.0 then deadline else now + 2.0);
      if sync.Raise? && !allowDegraded {
        return Ok(None), path;
      }
      ghost var waited: Buf;
      ghost var own: Option<Entry>;
      fu, waited, own := TakeOwnFollowUp(fu, sync, start);
      if sync.Ok? && fu != best.value {
        assert start.ingested[best.value.no] == best.value == buf.ingested[best.value.no];
        InNos(start.entries, best.value);
        assert OwnEvicted(sync.value, start, buf, domain);
      }
      var t1 :- ParseFollowUpBody(fu.data, fu.header);
      if sync.Ok? {
        return Ok(Some(SyncSample(sync.value, Some(fu), t1, false))), path;
      }
      path := Degraded;
      return Ok(Some(SyncSample(fu.(header := fu.header.(messageType := SYNC)), Some(fu), t1, false))), path;
    }

    method WaitSyncSample(timeout: real) returns (r: Result<SyncSample>, path: Path)
      requires Valid()
      modifies this`buf, this`tick
      ensures Valid() && Later(old(buf), buf)
      ensures r.Ok? ==> Sound(r.value, path, domain) && Received(r.value, path, buf)
      ensures r.Ok? && r.value.followUp.Some? ==>
                SameClock(r.value.sync, r.value.followUp.value) || OwnEvicted(r.value.sync, old(buf), buf, domain)
      ensures r.Raise? ==> r.exn == TimeoutError || r.exn == ValueError
    {
      path := Direct;
      var now := Monotonic();
      var deadline := now + timeout;
      assert Reaches(clock, deadline);
      ghost var last: nat :| clock(last) >= deadline;
      now := Monotonic();
      while now < deadline
        invariant Valid() && Later(old(buf), buf) && tick > 0 && now == clock(tick - 1)
        decreases last - tick
      {
        ghost var before := buf;
        var found: Option<Result<SyncSample>>;
        found, path := TryOnce(deadline);
        LaterStill(old(buf), before, buf);
        if found.Some? {
          return found.value, path;
        }
        before := buf;
        Pause();
        now := Monotonic();
        LaterStill(old(buf), before, buf);
      }
      r, path := LastResort();
    }

    /** One turn: a Sync if one comes within 50 ms, or else a Follow_Up's. */
    method TryOnce(deadline: real) returns (r: Option<Result<SyncSample>>, path: Path)
      requires Valid()
      modifies this`buf, this`tick
      ensures Valid() && Later(old(buf), buf) && tick > old(tick)
      ensures r.Some? && r.value.Ok? ==> Sound(r.value.value, path, domain) && Received(r.value.value, path, buf)
      ensures r.Some? && r.value.Ok? && r.value.value.followUp.Some? ==>
                || SameClock(r.value.value.sync, r.value.value.followUp.value)
                || OwnEvicted(r.value.value.sync, old(buf), buf, domain)
      ensures r.Some? && r.value.Raise? ==> r.value.exn == TimeoutError || r.value.exn == ValueError
    {
      var start := Monotonic();
      var popped := PopMatching((e: Entry) => IsSync(e, domain) && |e.data| >= e.header.messageLength, start + 0.05);
      ghost var before := buf;
      if popped.Ok? {
        var sample;
        sample, path := FinishSync(popped.value, deadline);
        LaterStill(old(buf), before, buf);
        return Some(sample), path;
      }
      var led;
      led, path := TrySyncSampleFollowUpLed(deadline, false);
      LaterStill(old(buf), before, buf);
      return if led.Raise? then Some(Raise(led.exn)) else if led.value.Some? then Some(Ok(led.value.value)) else None, path;
    }

    /** The deadline has passed: a Follow_Up in the buffer will do, even without its Sync. */
    method LastResort() returns (r: Result<SyncSample>, path: Path)
      requires Valid()
      modifies this`buf, this`tick
      ensures Valid() && Later(old(buf), buf)
      ensures r.Ok? ==> Sound(r.value, path, domain) && Received(r.value, path, buf)
      ensures r.Ok? && r.value.followUp.Some? ==>
                SameClock(r.value.sync, r.value.followUp.value) || OwnEvicted(r.value.sync, old(buf), buf, domain)
      ensures r.Raise? ==> r.exn == TimeoutError || r.exn == ValueError
    {
      var now := Monotonic();
      ghost var before := buf;
      var led;
      led, path := TrySyncSampleFollowUpLed(now, true);
      LaterStill(old(buf), before, buf);
      return if led.Raise? then Raise(led.exn) else if led.value.Some? then Ok(led.value.value) else Raise(TimeoutError), path;
    }

    /** A Sync in hand: its own time, or that of the Follow_Up of the same clock. */
    method FinishSync(sync: Entry, deadline: real) returns (r: Result<SyncSample>, path: Path)
      requires Valid() && buf.Known(sync) && IsSync(sync, domain)
      modifies this`buf, this`tick
      ensures Valid() && Later(old(buf), buf) && tick >= old(tick) && path == Direct
      ensures r.Ok? ==> Sound(r.value, path, domain) && Received(r.value, path, buf)
      ensures r.Raise? ==> r.exn == TimeoutError || r.exn == ValueError
    {
      path := Direct;
      var t1 :- ParseSyncBody(sync.data, sync.header);
      if !HasFlag(sync.header.flags, FLAG_TWO_STEP) {
        return Ok(SyncSample(sync, None, t1, true)), path;
      }
      ghost var start := buf;
      var a := Monotonic();
      var b := Monotonic();
      var accept := (e: Entry) =>
        IsFollowUp(e, domain) && e.header.sequenceId == sync.header.sequenceId && SameClock(sync, e);
      var fu := PopMatching(accept, a + (if deadline - b > 0.0 then deadline - b else 0.0));
      if fu.Raise? {
        return Raise(fu.exn), path;
      }
      KnownLater(start, buf, sync);
      t1 :- ParseFollowUpBody(fu.value.data, fu.value.header);
      return Ok(SyncSample(sync, Some(fu.value), t1, false)), path;
    }

    /** Sends a Delay_Req from `own` and waits for the answer; `sent` tells whether the send succeeds. */
    method ExchangeDelay(own: PortIdentity, timeout: real, sent: bool) returns (r: Result<Entry>)
      requires Valid()
      modifies this`buf, this`tick, this`seqId
      ensures Valid() && Later(old(buf), buf)
      ensures seqId == (old(seqId) + 1) % 0x1_0000
      ensures r.Ok? ==>
                && AcceptsDelayResp(domain, seqId, own, r.value.header, r.value.data)
                && buf.Known(r.value) && buf.consumed == old(buf.consumed) + {r.value.no}
                && forall k | 0 <= k < |buf.entries| && buf.entries[k].no < r.value.no ::
                     !AcceptsDelayResp(domain, seqId, own, buf.entries[k].header, buf.entries[k].data)
      ensures r.Raise? ==> buf.consumed == old(buf.consumed) && r.exn == if sent then TimeoutError else OsError
    {
      seqId := (seqId + 1) % 0x1_0000;
      var sentSeq := seqId;
      var now := Monotonic();
      if !sent {
        return Raise(OsError);
      }
      r := PopMatching((e: Entry) => AcceptsDelayResp(domain, sentSeq, own, e.header, e.data), now + timeout);
    }
  }
}
