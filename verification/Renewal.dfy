/** When a unicast contract is due for renewal, and why none lapses. */
module Renewal {

  /** Renewal begins this long before the contract ends. */
  function Margin(duration: real): real {
    if duration / 4.0 > 10.0 then duration / 4.0 else 10.0
  }

  predicate RenewalDue(startedAt: real, now: real, duration: real) {
    startedAt <= 0.0 || startedAt + duration - Margin(duration) - now <= 0.0
  }

  /** One check: begun at `at`, over at `done`, whether it was forced, whether it renewed the contract, and
      the seconds granted to each message type by then. */
  datatype Check = Check(at: real, done: real, forced: bool, renewed: bool, grants: map<int, int>)

  /** A contract from its first start on: what was granted then, and the checks since. */
  datatype Log = Log(start: real, first: map<int, int>, checks: seq<Check>) {
    /** When the contract in force after the first n checks was marked as started. */
    function StartedAt(n: nat): real
      requires n <= |checks|
    {
      if n == 0 then start
      else if checks[n - 1].renewed then checks[n - 1].done
      else StartedAt(n - 1)
    }

    /** When the n-th check begins to be waited for. */
    function Since(n: nat): real
      requires n <= |checks|
    {
      if n == 0 then start else checks[n - 1].done
    }

    function Grants(n: nat): map<int, int>
      requires n <= |checks|
    {
      if n == 0 then first else checks[n - 1].grants
    }

    predicate Due(duration: real, n: nat)
      requires n < |checks|
    {
      RenewalDue(StartedAt(n), checks[n].at, duration)
    }

    /** How long ago, in failed attempts, the contract became due. */
    function Failures(duration: real, n: nat): nat
      requires n <= |checks|
    {
      if n == 0 || checks[n - 1].renewed then 0
      else if Due(duration, n - 1) then Failures(duration, n - 1) + 1
      else if checks[n - 1].forced then 1
      else 0
    }

    /** What the checking itself sees to: checks follow each other; one neither due nor forced takes no time
        and renews nothing; and without a renewal the grants stay what they were. */
    predicate CheckKept(duration: real, n: nat)
      requires n < |checks|
    {
      var c := checks[n];
      && Since(n) <= c.at <= c.done
      && (!c.forced && !Due(duration, n) ==> c.done == c.at && !c.renewed)
      && (!c.renewed ==> c.grants == Grants(n))
    }

    ghost predicate Kept(duration: real) {
      forall n | 0 <= n < |checks| :: CheckKept(duration, n)
    }

    /** What it depends on: the next check comes within `gap`, and an attempt takes at most `work`. */
    predicate CheckTimely(gap: real, work: real, n: nat)
      requires n < |checks|
    {
      checks[n].at <= Since(n) + gap && checks[n].done <= checks[n].at + work
    }

    ghost predicate Timely(gap: real, work: real) {
      forall n | 0 <= n < |checks| :: CheckTimely(gap, work, n)
    }

    /** No more than so many attempts fail in a row once the contract is due. */
    ghost predicate Patient(duration: real, most: nat) {
      forall n | 0 <= n <= |checks| :: Failures(duration, n) <= most
    }

    /** Whatever is granted is granted for at least the duration asked for. */
    ghost predicate Generous(duration: real) {
      forall n | 0 <= n <= |checks| :: LongEnough(Grants(n), duration)
    }

    function With(c: Check): Log {
      this.(checks := checks + [c])
    }
  }

  predicate LongEnough(grants: map<int, int>, duration: real) {
    forall t | t in grants :: grants[t] as real >= duration
  }

  // ---- A log grows by one check ----

  lemma {:induction false} StartedSoFar(l: Log, c: Check, n: nat)
    requires n <= |l.checks|
    ensures l.With(c).StartedAt(n) == l.StartedAt(n)
  {
    if n > 0 {
      StartedSoFar(l, c, n - 1);
    }
  }

  lemma LogGrows(l: Log, c: Check, duration: real)
    requires l.Kept(duration) && l.Since(|l.checks|) <= c.at <= c.done
    requires !c.forced && !RenewalDue(l.StartedAt(|l.checks|), c.at, duration) ==> c.done == c.at && !c.renewed
    requires !c.renewed ==> c.grants == l.Grants(|l.checks|)
    ensures l.With(c).Kept(duration)
    ensures l.With(c).StartedAt(|l.checks| + 1) == if c.renewed then c.done else l.StartedAt(|l.checks|)
  {
    var m := l.With(c);
    StartedSoFar(l, c, |l.checks|);
    forall n | 0 <= n < |m.checks|
      ensures m.CheckKept(duration, n)
    {
      StartedSoFar(l, c, n);
      if n < |l.checks| {
        assert l.CheckKept(duration, n);
        assert m.checks[n] == l.checks[n] && m.Since(n) == l.Since(n) && m.Grants(n) == l.Grants(n);
      }
    }
  }

  // ---- No contract lapses ----

  function Times(n: nat, x: real): real {
    if n == 0 then 0.0 else Times(n - 1, x) + x
  }

  lemma {:induction false} TimesGrows(m: nat, n: nat, x: real)
    requires m <= n && x >= 0.0
    ensures Times(m, x) <= Times(n, x)
    decreases n
  {
    if m < n {
      TimesGrows(m, n - 1, x);
    }
  }

  /** The moment from which a contract is due for renewal. */
  function DueFrom(startedAt: real, duration: real): real {
    if duration > Margin(duration) then startedAt + duration - Margin(duration) else startedAt
  }

  /** Waiting for a renewal never takes longer than the failures so far account for. */
  lemma {:induction false} WaitingIsBounded(l: Log, duration: real, gap: real, work: real, n: nat)
    requires l.Kept(duration) && l.Timely(gap, work) && l.start > 0.0 && gap >= 0.0 && n <= |l.checks|
    ensures 0.0 < l.StartedAt(n) <= l.Since(n)
    ensures l.Since(n) <= DueFrom(l.StartedAt(n), duration) + Times(l.Failures(duration, n), gap + work)
    decreases n
  {
    if n > 0 {
      WaitingIsBounded(l, duration, gap, work, n - 1);
      assert l.CheckKept(duration, n - 1) && l.CheckTimely(gap, work, n - 1);
      assert Times(1, gap + work) == gap + work;
    }
  }

  /** Let at most `most` attempts fail in a row, and let that many and one more, each with the wait before
      it, and the time `lag` by which the granting side's contract may have begun before our mark, take less
      than the duration asked for and than its margin. Then, if no less is granted than was asked for, every
      instant up to the end of the next check lies inside the contract in force for every message type,
      counted from when it was granted. */
  lemma NoContractLapses(l: Log, duration: real, gap: real, work: real, lag: real, most: nat, n: nat, t: real, service: int)
    requires l.Kept(duration) && l.Timely(gap, work) && l.start > 0.0 && gap >= 0.0 && work >= 0.0
    requires l.Patient(duration, most) && l.Generous(duration)
    requires Times(most + 1, gap + work) + lag < duration
    requires Times(most + 1, gap + work) + lag < 10.0 || Times(most + 1, gap + work) + lag < duration * 0.25
    requires n <= |l.checks| && l.Since(n) <= t <= l.Since(n) + gap + work && service in l.Grants(n)
    ensures l.StartedAt(n) <= t < l.StartedAt(n) - lag + l.Grants(n)[service] as real
  {
    WaitingIsBounded(l, duration, gap, work, n);
    var failures := l.Failures(duration, n);
    assert failures <= most;
    TimesGrows(failures + 1, most + 1, gap + work);
    assert LongEnough(l.Grants(n), duration);
  }

  lemma {:induction false} NoFailures(l: Log, duration: real, n: nat)
    requires n <= |l.checks|
    requires forall k | 0 <= k < |l.checks| :: l.checks[k].forced || l.Due(duration, k) ==> l.checks[k].renewed
    ensures l.Failures(duration, n) == 0
  {
    if n > 0 {
      assert l.checks[n - 1].forced || l.Due(duration, n - 1) ==> l.checks[n - 1].renewed;
    }
  }

  /** In particular when every attempt succeeds. */
  lemma NoContractLapsesWithoutFailures(l: Log, duration: real, gap: real, work: real, n: nat, t: real, service: int)
    requires l.Kept(duration) && l.Timely(gap, work) && l.start > 0.0 && gap >= 0.0 && work >= 0.0
    requires forall k | 0 <= k < |l.checks| :: l.checks[k].forced || l.Due(duration, k) ==> l.checks[k].renewed
    requires l.Generous(duration) && gap + work < duration && (gap + work < 10.0 || gap + work < duration * 0.25)
    requires n <= |l.checks| && l.Since(n) <= t <= l.Since(n) + gap + work && service in l.Grants(n)
    ensures l.StartedAt(n) <= t < l.StartedAt(n) + l.Grants(n)[service] as real
  {
    forall k | 0 <= k <= |l.checks|
      ensures l.Failures(duration, k) == 0
    {
      NoFailures(l, duration, k);
    }
    assert Times(1, gap + work) == Times(0, gap + work) + (gap + work);
    NoContractLapses(l, duration, gap, work, 0.0, 0, n, t, service);
  }
}
