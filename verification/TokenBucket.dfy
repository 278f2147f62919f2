/** The per-slave token bucket and the sliding-window limit it decides. Times are real numbers. */
module TokenBucket {

  function Capacity(rate: real): (c: real)
    ensures c >= 1.0
  {
    if rate > 1.0 then rate else 1.0
  }

  /** The bucket of one session; a time stamp of zero marks a session not yet charged. */
  datatype Bucket = Bucket(tokens: real, ts: real) {

    function Refilled(rate: real, now: real): real {
      var grown := tokens + (now - ts) * rate;
      if ts == 0.0 || grown > Capacity(rate) then Capacity(rate) else grown
    }

    predicate Allows(rate: real, now: real) {
      rate <= 0.0 || Refilled(rate, now) >= 1.0
    }

    function Charged(rate: real, now: real): Bucket {
      if rate <= 0.0 then this
      else
        var t := Refilled(rate, now);
        Bucket(if t >= 1.0 then t - 1.0 else t, now)
    }
  }

  const FRESH := Bucket(0.0, 0.0)

  // ---- The reference: a log of requests, and the windows that end at the next one ----

  /** A time counted in tokens: seconds times the rate. */
  function InTokens(time: real, rate: real): real {
    time * rate
  }

  /** The time of a request is counted in tokens. */
  datatype Request = Request(at: real, admitted: bool)

  /** How many of the requests from i up to n were admitted. */
  function Admitted(log: seq<Request>, i: nat, n: nat): nat
    requires i <= n <= |log|
    decreases n
  {
    if i == n then 0 else Admitted(log, i, n - 1) + (if log[n - 1].admitted then 1 else 0)
  }

  /** What the window that opened with request i has left after n requests: a window holds at most
      the capacity plus what its length is worth. */
  function Room(log: seq<Request>, n: nat, i: nat, capacity: real, now: real): real
    requires i < n <= |log|
  {
    capacity + (now - log[i].at) - Admitted(log, i, n) as real
  }

  /** One more answer fits every window opened by the first n requests. */
  predicate Fits(log: seq<Request>, n: nat, capacity: real, now: real)
    requires n <= |log|
  {
    forall i | 0 <= i < n :: Room(log, n, i, capacity, now) >= 1.0
  }

  /** `tokens` is what the tightest of the first n windows has left. */
  ghost predicate Tightest(log: seq<Request>, n: nat, capacity: real, now: real, tokens: real)
    requires n <= |log|
  {
    && (forall i | 0 <= i < n :: tokens <= Room(log, n, i, capacity, now))
    && (exists i | 0 <= i < n :: tokens == Room(log, n, i, capacity, now))
  }

  /** The bucket holds what the tightest window has left. */
  ghost predicate Tracks(b: Bucket, log: seq<Request>, rate: real) {
    if |log| == 0 then b == FRESH
    else rate > 0.0 ==>
           && b.ts != 0.0 && InTokens(b.ts, rate) == log[|log| - 1].at
           && Tightest(log, |log|, Capacity(rate), log[|log| - 1].at, b.tokens)
  }

  lemma {:induction false} AdmittedSoFar(log: seq<Request>, r: Request, i: nat, n: nat)
    requires i <= n <= |log|
    ensures Admitted(log + [r], i, n) == Admitted(log, i, n)
    decreases n
  {
    if i < n {
      AdmittedSoFar(log, r, i, n - 1);
    }
  }

  /** How the room of a window changes when request r is logged. */
  lemma RoomAfter(log: seq<Request>, r: Request, i: nat, capacity: real)
    requires i <= |log|
    ensures Room(log + [r], |log| + 1, i, capacity, r.at) ==
            (if i < |log| then Room(log, |log|, i, capacity, r.at) else capacity) - (if r.admitted then 1.0 else 0.0)
  {
    AdmittedSoFar(log, r, i, |log|);
  }

  /** As time passes every window gains alike. */
  lemma TightestLater(log: seq<Request>, n: nat, capacity: real, last: real, now: real, tokens: real)
    requires n <= |log| && Tightest(log, n, capacity, last, tokens)
    ensures Tightest(log, n, capacity, now, tokens + (now - last))
  {
    forall i | 0 <= i < n
      ensures Room(log, n, i, capacity, now) == Room(log, n, i, capacity, last) + (now - last)
    {
    }
    var k :| 0 <= k < n && tokens == Room(log, n, k, capacity, last);
    assert tokens + (now - last) == Room(log, n, k, capacity, now);
  }

  /** Capped at the capacity, the tightest window's room decides every window. */
  lemma TightestDecides(log: seq<Request>, n: nat, capacity: real, now: real, tokens: real)
    requires n <= |log| && capacity >= 1.0 && Tightest(log, n, capacity, now, tokens)
    ensures (if tokens > capacity then capacity else tokens) >= 1.0 <==> Fits(log, n, capacity, now)
  {
    var k :| 0 <= k < n && tokens == Room(log, n, k, capacity, now);
  }

  /** Logging a request opens a window of its own, whose room is the capacity. */
  lemma TightestExtends(log: seq<Request>, r: Request, capacity: real, refilled: real)
    requires if |log| == 0 then refilled == capacity
             else exists t | Tightest(log, |log|, capacity, r.at, t) :: refilled == if t > capacity then capacity else t
    ensures Tightest(log + [r], |log| + 1, capacity, r.at, refilled - (if r.admitted then 1.0 else 0.0))
  {
    var n, left := |log| + 1, refilled - (if r.admitted then 1.0 else 0.0);
    forall i | 0 <= i < n
      ensures left <= Room(log + [r], n, i, capacity, r.at)
    {
      RoomAfter(log, r, i, capacity);
    }
    var k := |log|;
    if |log| > 0 && refilled < capacity {
      k :| 0 <= k < |log| && refilled == Room(log, |log|, k, capacity, r.at);
    }
    RoomAfter(log, r, k, capacity);
    assert left == Room(log + [r], n, k, capacity, r.at);
  }

  lemma Distribute(rate: real, now: real, ts: real)
    ensures (now - ts) * rate == InTokens(now, rate) - InTokens(ts, rate)
  {
  }

  predicate Admits(log: seq<Request>, n: nat, rate: real, now: real)
    requires n <= |log|
  {
    rate <= 0.0 || Fits(log, n, Capacity(rate), now)
  }

  /** The bucket admits exactly what fits every window, and goes on tracking the tightest. */
  lemma BucketDecidesWindow(b: Bucket, log: seq<Request>, rate: real, now: real)
    requires Tracks(b, log, rate) && now != 0.0
    ensures b.Allows(rate, now) <==> Admits(log, |log|, rate, InTokens(now, rate))
    ensures Tracks(b.Charged(rate, now), log + [Request(InTokens(now, rate), b.Allows(rate, now))], rate)
  {
    if rate > 0.0 {
      var r, capacity := Request(InTokens(now, rate), b.Allows(rate, now)), Capacity(rate);
      if |log| > 0 {
        var last := log[|log| - 1].at;
        Distribute(rate, now, b.ts);
        TightestLater(log, |log|, capacity, last, r.at, b.tokens);
        TightestDecides(log, |log|, capacity, r.at, b.tokens + (r.at - last));
      }
      TightestExtends(log, r, capacity, b.Refilled(rate, now));
      assert (log + [r])[|log|] == r;
    }
  }

  /** The decision on request k is the window's. */
  predicate Decided(log: seq<Request>, k: nat, rate: real)
    requires k < |log|
  {
    log[k].admitted <==> Admits(log, k, rate, log[k].at)
  }

  /** A log in which every decision is the window's. */
  predicate Lawful(log: seq<Request>, rate: real) {
    forall k | 0 <= k < |log| :: Decided(log, k, rate)
  }

  lemma AdmitsSoFar(log: seq<Request>, r: Request, n: nat, rate: real, now: real)
    requires n <= |log|
    ensures Admits(log + [r], n, rate, now) <==> Admits(log, n, rate, now)
  {
    forall i | 0 <= i < n
      ensures Room(log + [r], n, i, Capacity(rate), now) == Room(log, n, i, Capacity(rate), now)
    {
      AdmittedSoFar(log, r, i, n);
    }
  }

  lemma LawfulExtends(log: seq<Request>, rate: real, now: real)
    requires Lawful(log, rate)
    ensures Lawful(log + [Request(now, Admits(log, |log|, rate, now))], rate)
  {
    var r := Request(now, Admits(log, |log|, rate, now));
    var whole := log + [r];
    forall k | 0 <= k < |whole|
      ensures Decided(whole, k, rate)
    {
      assert k < |log| ==> Decided(log, k, rate);
      AdmitsSoFar(log, r, k, rate, whole[k].at);
    }
  }

  lemma AdmittedLeftRoom(log: seq<Request>, rate: real, i: nat, j: nat)
    requires Lawful(log, rate) && rate > 0.0 && i < j < |log| && log[j].admitted
    ensures Admitted(log, i, j) as real + 1.0 <= Capacity(rate) + (log[j].at - log[i].at)
  {
    assert Decided(log, j, rate);
    assert Room(log, j, i, Capacity(rate), log[j].at) >= 1.0;
  }

  lemma AdmittedNext(log: seq<Request>, i: nat, n: nat)
    requires i <= n < |log|
    ensures Admitted(log, i, n + 1) as real == Admitted(log, i, n) as real + (if log[n].admitted then 1.0 else 0.0)
  {
  }

  predicate Ordered(log: seq<Request>) {
    forall i, j | 0 <= i <= j < |log| :: log[i].at <= log[j].at
  }

  /** Between any two requests no more are answered than the capacity and the time allow. */
  lemma {:induction false} RateIsBounded(log: seq<Request>, rate: real, i: nat, j: nat)
    requires Lawful(log, rate) && Ordered(log) && rate > 0.0 && i <= j < |log|
    ensures Admitted(log, i, j + 1) as real <= (if rate > 1.0 then rate else 1.0) + (log[j].at - log[i].at)
    decreases j
  {
    AdmittedNext(log, i, j);
    if i == j {
      assert Admitted(log, i, i) == 0;
    } else if log[j].admitted {
      AdmittedLeftRoom(log, rate, i, j);
    } else {
      RateIsBounded(log, rate, i, j - 1);
      assert log[j - 1].at <= log[j].at;
    }
  }

  lemma {:induction false} AdmittedAtMost(log: seq<Request>, i: nat, n: nat)
    requires i <= n <= |log|
    ensures Admitted(log, i, n) <= n - i
    decreases n
  {
    if i < n {
      AdmittedAtMost(log, i, n - 1);
    }
  }

  /** Successive requests at least 1/rate seconds, that is one token, apart. */
  predicate Spaced(log: seq<Request>) {
    forall k | 0 < k < |log| :: log[k].at - log[k - 1].at >= 1.0
  }

  lemma {:induction false} SpacingAddsUp(log: seq<Request>, i: nat, j: nat)
    requires i <= j < |log| && Spaced(log)
    ensures log[j].at - log[i].at >= (j - i) as real
    decreases j
  {
    if i < j {
      SpacingAddsUp(log, i, j - 1);
    }
  }

  /** A slave that spaces its requests by at least 1/rate is never refused. */
  lemma SpacedRequestsAreAdmitted(log: seq<Request>, rate: real, k: nat)
    requires Lawful(log, rate) && Spaced(log) && k < |log|
    ensures log[k].admitted
  {
    forall i | 0 <= i < k
      ensures Room(log, k, i, Capacity(rate), log[k].at) >= 1.0
    {
      SpacingAddsUp(log, i, k);
      AdmittedAtMost(log, i, k);
    }
    assert Decided(log, k, rate);
  }

  /** Time zero is the mark of a session not yet charged: whatever it was charged before, a request after
      one stamped zero finds the bucket full, and so is admitted. */
  lemma TimeZeroIsNeverLimited(b: Bucket, rate: real, now: real)
    ensures b.Charged(rate, 0.0).Allows(rate, now)
    ensures rate > 0.0 ==> b.Charged(rate, 0.0).Charged(rate, now) == FRESH.Charged(rate, now)
  {
  }
}
