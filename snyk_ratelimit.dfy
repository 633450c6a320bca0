/** The rate limiter shared by every Snyk API request: a token bucket that
    throttles ahead of time, and a back-off deadline that a 429 answer can
    push out and that every waiting request honours.

    Time is a count of nanoseconds; the zero time.Time ("no back-off yet")
    is None. The token bucket (golang.org/x/time/rate) is not modelled: its
    answer is a parameter. The clock, the timer and the context are
    observations handed to Wait round by round, and so are the back-off
    calls that other goroutines make while a request sleeps (the mutex
    makes each such call, and each check, atomic). */
module SnykRateLimit {
  import opened Base
  import opened GoStrings

  /** Requests per second and burst of the token bucket. */
  const DefaultRateLimit: int := 150
  const DefaultBurst: int := 10

  /** The deadline after a back-off to t: the later of the two, where the
      zero time is earlier than any. */
  function Extend(until: Option<int>, t: int): (r: Option<int>)
    ensures r.Some? && r.value >= t
    ensures until.Some? ==> r.value >= until.value
    ensures r.value == t || r == until
  {
    if until.None? || t > until.value then Some(t) else until
  }

  /** backoff(d) called at clock reading now. */
  function AfterBackoff(until: Option<int>, now: int, d: int): Option<int> {
    if d <= 0 then until else Extend(until, now + d)
  }

  /** b is the same deadline as a or a later one. */
  predicate NotEarlier(a: Option<int>, b: Option<int>) {
    a.None? || (b.Some? && b.value >= a.value)
  }

  /** A back-off call made by another goroutine: its clock reading and its
      duration. */
  datatype BackoffCall = BackoffCall(now: int, d: int)

  /** The deadline after the calls bs, in order. */
  function AfterBackoffs(until: Option<int>, bs: seq<BackoffCall>): Option<int>
    decreases |bs|
  {
    if |bs| == 0 then until
    else
      var last := bs[|bs| - 1];
      AfterBackoff(AfterBackoffs(until, bs[..|bs| - 1]), last.now, last.d)
  }

  /** A back-off never brings the deadline forward, and a positive one
      holds requests at least d past its clock reading. */
  lemma BackoffMonotone(until: Option<int>, now: int, d: int)
    ensures NotEarlier(until, AfterBackoff(until, now, d))
    ensures d > 0 ==> AfterBackoff(until, now, d).Some? && AfterBackoff(until, now, d).value >= now + d
    ensures d <= 0 ==> AfterBackoff(until, now, d) == until
  {
  }

  /** Any sequence of back-off calls leaves the deadline where it was or
      later. */
  lemma {:induction false} BackoffsMonotone(until: Option<int>, bs: seq<BackoffCall>)
    ensures NotEarlier(until, AfterBackoffs(until, bs))
    decreases |bs|
  {
    if |bs| > 0 {
      var mid := AfterBackoffs(until, bs[..|bs| - 1]);
      BackoffsMonotone(until, bs[..|bs| - 1]);
      BackoffMonotone(mid, bs[|bs| - 1].now, bs[|bs| - 1].d);
    }
  }

  /** The order of two back-offs does not matter: the deadline is the later
      of their ends. */
  lemma BackoffsCommute(until: Option<int>, a: BackoffCall, b: BackoffCall)
    ensures AfterBackoffs(until, [a, b]) == AfterBackoffs(until, [b, a])
  {
    assert [a, b][..1] == [a];
    assert [b, a][..1] == [b];
    assert [a][..0] == [] && [b][..0] == [];
  }

  /** The check at the top of the wait loop: the deadline is the zero time,
      or now is not before it. */
  predicate Passed(until: Option<int>, now: int) {
    until.None? || now >= until.value
  }

  /** One pass of the wait loop as observed from outside: the back-off calls
      other goroutines made since the previous check, the clock at the
      check, and whether the context was done before the timer fired. */
  datatype Round = Round(backoffs: seq<BackoffCall>, now: int, cancelled: bool)

  /** How wait ends: the request may go, the context's (or the token
      bucket's) error, or still asleep when the observation ends. */
  datatype WaitOutcome = Proceed | Failed(err: string) | StillWaiting

  /** The back-off loop of wait over the observed rounds: its outcome and the
      deadline it leaves. ctxErr is ctx.Err(). */
  function WaitFrom(until: Option<int>, ctxErr: string, rounds: seq<Round>): (WaitOutcome, Option<int>)
    decreases |rounds|
  {
    if |rounds| == 0 then (StillWaiting, until)
    else
      var u := AfterBackoffs(until, rounds[0].backoffs);
      if Passed(u, rounds[0].now) then (Proceed, u)
      else if rounds[0].cancelled then (Failed(ctxErr), u)
      else WaitFrom(u, ctxErr, rounds[1..])
  }

  /** wait: the token bucket first (tokenErr is its error), then the
      back-off loop. */
  function WaitSpec(until: Option<int>, tokenErr: Option<string>, ctxErr: string, rounds: seq<Round>): (WaitOutcome, Option<int>) {
    match tokenErr
    case Some(e) => (Failed(e), until)
    case None => WaitFrom(until, ctxErr, rounds)
  }

  /** A token-bucket error is returned at once and touches nothing. */
  lemma WaitTokenError(until: Option<int>, e: string, ctxErr: string, rounds: seq<Round>)
    ensures WaitSpec(until, Some(e), ctxErr, rounds) == (Failed(e), until)
  {
  }

  /** With no back-off in force and none arriving, a request goes at once. */
  lemma WaitNoBackoff(ctxErr: string, rounds: seq<Round>)
    requires |rounds| > 0 && rounds[0].backoffs == []
    ensures WaitSpec(None, None, ctxErr, rounds) == (Proceed, None)
  {
  }

  /** The loop lets a request go only once the deadline then in force has
      passed: there is a check whose clock is not before the final
      deadline. */
  lemma {:induction false} WaitProceedsOnlyWhenPassed(until: Option<int>, ctxErr: string, rounds: seq<Round>)
    requires WaitFrom(until, ctxErr, rounds).0 == Proceed
    ensures exists i :: 0 <= i < |rounds| && Passed(WaitFrom(until, ctxErr, rounds).1, rounds[i].now)
    decreases |rounds|
  {
    var u := AfterBackoffs(until, rounds[0].backoffs);
    if Passed(u, rounds[0].now) {
      assert Passed(WaitFrom(until, ctxErr, rounds).1, rounds[0].now);
    } else {
      WaitProceedsOnlyWhenPassed(u, ctxErr, rounds[1..]);
      var i :| 0 <= i < |rounds[1..]| && Passed(WaitFrom(u, ctxErr, rounds[1..]).1, rounds[1..][i].now);
      assert Passed(WaitFrom(until, ctxErr, rounds).1, rounds[i + 1].now);
    }
  }

  /** The loop fails only with the context's error, and only in a round in
      which the context was done. */
  lemma {:induction false} WaitFailsOnlyWhenCancelled(until: Option<int>, ctxErr: string, rounds: seq<Round>)
    requires WaitFrom(until, ctxErr, rounds).0.Failed?
    ensures WaitFrom(until, ctxErr, rounds).0 == Failed(ctxErr)
    ensures exists i :: 0 <= i < |rounds| && rounds[i].cancelled
    decreases |rounds|
  {
    var u := AfterBackoffs(until, rounds[0].backoffs);
    if !Passed(u, rounds[0].now) && !rounds[0].cancelled {
      WaitFailsOnlyWhenCancelled(u, ctxErr, rounds[1..]);
      var i :| 0 <= i < |rounds[1..]| && rounds[1..][i].cancelled;
      assert rounds[i + 1].cancelled;
    }
  }

  /** wait itself never moves the deadline: it is where the back-off calls
      of others put it, never earlier than at the start and, when no one
      else backs off, exactly where it was (an expired deadline is not
      cleared). */
  lemma {:induction false} WaitKeepsDeadline(until: Option<int>, ctxErr: string, rounds: seq<Round>)
    ensures NotEarlier(until, WaitFrom(until, ctxErr, rounds).1)
    ensures (forall i :: 0 <= i < |rounds| ==> rounds[i].backoffs == []) ==> WaitFrom(until, ctxErr, rounds).1 == until
    decreases |rounds|
  {
    if |rounds| > 0 {
      var u := AfterBackoffs(until, rounds[0].backoffs);
      BackoffsMonotone(until, rounds[0].backoffs);
      WaitKeepsDeadline(u, ctxErr, rounds[1..]);
      if forall i :: 0 <= i < |rounds| ==> rounds[i].backoffs == [] {
        assert rounds[0].backoffs == [];
        assert forall i :: 0 <= i < |rounds[1..]| ==> rounds[1..][i].backoffs == rounds[i + 1].backoffs;
      }
    }
  }

  /** A request that had to sleep goes once the timer has run to the
      deadline, unless someone extended it meanwhile or the context ended
      first. */
  lemma WaitWakesAtDeadline(until: Option<int>, ctxErr: string, rounds: seq<Round>)
    requires |rounds| >= 2
    requires rounds[0].backoffs == [] && rounds[1].backoffs == []
    requires !rounds[0].cancelled
    requires Passed(until, rounds[1].now)
    ensures WaitSpec(until, None, ctxErr, rounds) == (Proceed, until)
  {
    assert AfterBackoffs(until, rounds[0].backoffs) == until;
    if !Passed(until, rounds[0].now) {
      assert rounds[1..][0] == rounds[1];
      assert WaitFrom(until, ctxErr, rounds) == WaitFrom(until, ctxErr, rounds[1..]);
    }
  }

  /** A deadline another goroutine extends during the sleep holds the
      request for another round. */
  lemma WaitHonoursExtension(until: Option<int>, ctxErr: string, rounds: seq<Round>)
    requires |rounds| >= 2 && rounds[0].backoffs == [] && !Passed(until, rounds[0].now) && !rounds[0].cancelled
    requires !Passed(AfterBackoffs(until, rounds[1].backoffs), rounds[1].now) && !rounds[1].cancelled
    ensures WaitSpec(until, None, ctxErr, rounds) == WaitFrom(AfterBackoffs(until, rounds[1].backoffs), ctxErr, rounds[2..])
  {
    assert AfterBackoffs(until, rounds[0].backoffs) == until;
    assert WaitFrom(until, ctxErr, rounds) == WaitFrom(until, ctxErr, rounds[1..]);
    assert rounds[1..][0] == rounds[1];
    assert rounds[1..][1..] == rounds[2..];
  }

  /** rateLimiter: the token bucket is not modelled; backoffUntil is the
      shared deadline. */
  class RateLimiter {
    var backoffUntil: Option<int>

    /** newRateLimiter: no back-off in force. */
    constructor ()
      ensures backoffUntil == None
    {
      backoffUntil := None;
    }

    /** backoff(d) at clock reading now: a non-positive d does nothing;
        otherwise the deadline becomes now + d unless it is already later. */
    method Backoff(now: int, d: int)
      modifies this
      ensures backoffUntil == AfterBackoff(old(backoffUntil), now, d)
      ensures NotEarlier(old(backoffUntil), backoffUntil)
    {
      if d <= 0 {
        return;
      }
      var until := now + d;
      if backoffUntil.None? || until > backoffUntil.value {
        backoffUntil := Some(until);
      }
    }

    /** wait. tokenErr is the token bucket's error; each round the other
        goroutines' back-off calls land, then the deadline is checked, then
        the request sleeps until the timer or the context ends it. */
    method Wait(tokenErr: Option<string>, ctxErr: string, rounds: seq<Round>) returns (out: WaitOutcome)
      modifies this
      ensures (out, backoffUntil) == WaitSpec(old(backoffUntil), tokenErr, ctxErr, rounds)
    {
      if tokenErr.Some? {
        return Failed(tokenErr.value);
      }
      var i := 0;
      while i < |rounds|
        invariant 0 <= i <= |rounds|
        invariant WaitFrom(backoffUntil, ctxErr, rounds[i..]) == WaitFrom(old(backoffUntil), ctxErr, rounds)
        decreases |rounds| - i
      {
        var bs := rounds[i].backoffs;
        ghost var start := backoffUntil;
        var j := 0;
        while j < |bs|
          invariant 0 <= j <= |bs|
          invariant backoffUntil == AfterBackoffs(start, bs[..j])
          decreases |bs| - j
        {
          Backoff(bs[j].now, bs[j].d);
          assert bs[..j + 1][..j] == bs[..j];
          j := j + 1;
        }
        assert bs[..|bs|] == bs;
        if Passed(backoffUntil, rounds[i].now) {
          return Proceed;
        }
        if rounds[i].cancelled {
          return Failed(ctxErr);
        }
        assert rounds[i..][1..] == rounds[i + 1..];
        i := i + 1;
      }
      return StillWaiting;
    }
  }

  /** rateLimitTransport.RoundTrip: with a limiter, the request waits and a
      wait error is returned without sending; base is what the underlying
      transport answers. The rounds must cover the whole wait. */
  method RoundTrip<T>(limiter: RateLimiter?, tokenErr: Option<string>, ctxErr: string, rounds: seq<Round>, base: Result<T>)
    returns (r: Result<T>, sent: bool)
    requires limiter != null ==> WaitSpec(limiter.backoffUntil, tokenErr, ctxErr, rounds).0 != StillWaiting
    modifies limiter
    ensures sent ==> r == base
    ensures limiter == null ==> sent
    ensures limiter != null ==> (sent <==> WaitSpec(old(limiter.backoffUntil), tokenErr, ctxErr, rounds).0 == Proceed)
    ensures limiter != null && !sent ==> r == Err(WaitSpec(old(limiter.backoffUntil), tokenErr, ctxErr, rounds).0.err)
  {
    if limiter != null {
      var out := limiter.Wait(tokenErr, ctxErr, rounds);
      if out != Proceed {
        return Err(out.err), false;
      }
    }
    return base, true;
  }

  // ----- X-RateLimit-Reset -----

  /** parseRateLimitResetHeader: a whole number of seconds, which must be
      positive; anything else is (0, false). */
  function ParseRateLimitResetHeader(v: string): (r: (int, bool))
    ensures !r.1 ==> r.0 == 0
    ensures r.1 ==> ParseInt64(v).Some? && ParseInt64(v).value > 0
  {
    if v == "" then (0, false)
    else
      match ParseInt64(v)
      case None => (0, false)
      case Some(sec) => if sec <= 0 then (0, false) else (Seconds(sec), true)
  }

  /** A reset of n seconds, 0 < n and small enough for a Duration, is a wait
      of exactly n seconds. */
  lemma ResetSeconds(n: int)
    requires 0 < n && n * Second <= MaxInt64
    ensures ParseRateLimitResetHeader(Itoa(n)) == (n * Second, true)
  {
    ParseItoa(n);
  }

  /** Zero, a negative count, an empty value or a value that is not an
      int64 in decimal is rejected. */
  lemma ResetRejects(n: int, v: string)
    requires InInt64(n) && n <= 0
    ensures ParseRateLimitResetHeader(Itoa(n)) == (0, false)
    ensures ParseInt64(v).None? ==> ParseRateLimitResetHeader(v) == (0, false)
  {
    ParseItoa(n);
  }

  /** From 9223372037 seconds on, the nanosecond count overflows: the
      header is reported as valid, but the wait is negative, so a back-off
      with it does nothing. */
  lemma ResetOverflow(n: int, until: Option<int>, now: int)
    requires 9223372037 <= n <= 18446744073
    ensures ParseRateLimitResetHeader(Itoa(n)) == (n * Second - TwoTo64, true)
    ensures AfterBackoff(until, now, ParseRateLimitResetHeader(Itoa(n)).0) == until
  {
    SecondsOverflow(n);
    ParseItoa(n);
  }
}
