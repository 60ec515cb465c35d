/** The in-memory token bucket limiter.  A bucket remembers one number; the theorems here say which
    property of the whole call history that number stands for. */
module RateLimiters {
  import opened Prelude

  /** One call on a key since its bucket was created: when, and whether it was let through. */
  datatype Call = Call(at: real, admitted: bool)

  /** What a bucket fixes at its creation: the most it can hold, and how fast it refills. */
  datatype Quota = Quota(limit: int, rate: real)

  datatype Bucket = Bucket(tokens: real, maxTokens: int, refillRate: real, lastRefill: real) {
    function Terms(): Quota { Quota(maxTokens, refillRate) }
  }

  datatype LimiterError = DivisionByZero

  /** Calls let through among h[i..j]. */
  function Admitted(h: seq<Call>, i: nat, j: nat): nat
    requires j <= |h|
  {
    if i >= j then 0 else Admitted(h, i, j - 1) + if h[j - 1].admitted then 1 else 0
  }

  function Min(a: real, b: real): real {
    if a <= b then a else b
  }

  /** Room for one more call at `now`, after the first n calls, in the window opened by call i: what the
      bucket may hand out over that stretch, minus what it has handed out since.  Window n opens now. */
  function Room(h: seq<Call>, n: nat, i: nat, now: real, q: Quota): real
    requires i <= n <= |h|
  {
    q.limit as real + (if i == n then 0.0 else q.rate * (now - h[i].at)) - Admitted(h, i, n) as real
  }

  /** Every window that ends now, from the empty one back to the bucket's first call, has room for one call. */
  ghost predicate FitsEveryWindow(h: seq<Call>, n: nat, now: real, q: Quota)
    requires n <= |h|
  {
    forall i :: 0 <= i <= n ==> Room(h, n, i, now, q) >= 1.0
  }

  /** Level the refill recurrence reaches at `now` after the first n calls, before a token is spent. */
  function LevelAt(h: seq<Call>, n: nat, now: real, q: Quota): real
    requires n <= |h|
    decreases n, 1
  {
    if n == 0 then q.limit as real
    else Min(q.limit as real, LevelAfter(h, n, q) + Refill(now - h[n - 1].at, q.rate))
  }

  function Refill(wait: real, rate: real): real { wait * rate }

  /** Level stored once call n - 1 has been decided. */
  function LevelAfter(h: seq<Call>, n: nat, q: Quota): real
    requires 0 < n <= |h|
    decreases n, 0
  {
    LevelAt(h, n - 1, h[n - 1].at, q) - if h[n - 1].admitted then 1.0 else 0.0
  }

  ghost predicate DecidedAt(h: seq<Call>, k: nat, q: Quota)
    requires k < |h|
  {
    h[k].admitted <==> LevelAt(h, k, h[k].at, q) >= 1.0
  }

  /** The history is one the limiter itself produced: each call was decided by the level it met. */
  ghost predicate Decided(h: seq<Call>, q: Quota) {
    forall k :: 0 <= k < |h| ==> DecidedAt(h, k, q)
  }

  ghost predicate RespectsWindowsAt(h: seq<Call>, k: nat, q: Quota)
    requires k < |h|
  {
    h[k].admitted ==> FitsEveryWindow(h, k, h[k].at, q)
  }

  /** A way of admitting calls that never exceeds the allowance of any window ending at an admitted call. */
  ghost predicate RespectsWindows(h: seq<Call>, q: Quota) {
    forall k :: 0 <= k < |h| ==> RespectsWindowsAt(h, k, q)
  }

  ghost predicate TimeOrdered(h: seq<Call>) {
    forall i, j :: 0 <= i <= j < |h| ==> h[i].at <= h[j].at
  }

  // ---------------------------------------------------------------- the min-plus characterisation

  lemma AdmittedSplit(h: seq<Call>, i: nat, j: nat, k: nat)
    requires i <= j <= k <= |h|
    ensures Admitted(h, i, k) == Admitted(h, i, j) + Admitted(h, j, k)
  {}

  /** Waiting and one more decision move every older window's room by the same amount. */
  lemma RoomStep(h: seq<Call>, n: nat, i: nat, now: real, q: Quota)
    requires i < n <= |h|
    ensures Room(h, n, i, now, q)
         == Room(h, n - 1, i, h[n - 1].at, q)
          + (now - h[n - 1].at) * q.rate - if h[n - 1].admitted then 1.0 else 0.0
  {
    assert q.rate * (now - h[i].at) == q.rate * (h[n - 1].at - h[i].at) + (now - h[n - 1].at) * q.rate;
  }

  lemma LevelRefills(h: seq<Call>, n: nat, now: real, q: Quota)
    requires 0 < n <= |h|
    ensures LevelAt(h, n, now, q) == Min(q.limit as real, LevelAfter(h, n, q) + (now - h[n - 1].at) * q.rate)
  {}

  lemma LevelStep(h: seq<Call>, n: nat, i: nat, now: real, q: Quota)
    requires i < n <= |h|
    ensures LevelAt(h, n - 1, h[n - 1].at, q) <= Room(h, n - 1, i, h[n - 1].at, q)
        ==> LevelAt(h, n, now, q) <= Room(h, n, i, now, q)
    ensures LevelAt(h, n - 1, h[n - 1].at, q) == Room(h, n - 1, i, h[n - 1].at, q)
        ==> LevelAt(h, n, now, q) == Min(q.limit as real, Room(h, n, i, now, q))
  {
    RoomStep(h, n, i, now, q);
    var spent := if h[n - 1].admitted then 1.0 else 0.0;
    var refill := (now - h[n - 1].at) * q.rate;
    var gain := refill - spent;
    assert LevelAfter(h, n, q) == LevelAt(h, n - 1, h[n - 1].at, q) - spent;
    LevelRefills(h, n, now, q);
    assert LevelAt(h, n, now, q) == Min(q.limit as real, LevelAt(h, n - 1, h[n - 1].at, q) + gain);
    assert Room(h, n, i, now, q) == Room(h, n - 1, i, h[n - 1].at, q) + gain;
  }

  /** The stored level is the least room over all windows: a lower bound that some window attains.  The
      history may be any calls at any times, even with the clock stepping back. */
  lemma {:induction false} LevelIsLeastRoom(h: seq<Call>, n: nat, now: real, q: Quota)
    requires n <= |h|
    ensures forall i :: 0 <= i <= n ==> LevelAt(h, n, now, q) <= Room(h, n, i, now, q)
    ensures exists i :: 0 <= i <= n && LevelAt(h, n, now, q) == Room(h, n, i, now, q)
  {
    assert Room(h, n, n, now, q) == q.limit as real;
    if n > 0 {
      var before := h[n - 1].at;
      LevelIsLeastRoom(h, n - 1, before, q);
      forall i | 0 <= i < n
        ensures LevelAt(h, n, now, q) <= Room(h, n, i, now, q)
      {
        LevelStep(h, n, i, now, q);
      }
      var j :| 0 <= j <= n - 1 && LevelAt(h, n - 1, before, q) == Room(h, n - 1, j, before, q);
      LevelStep(h, n, j, now, q);
      var tight := if LevelAt(h, n, now, q) == q.limit as real then n else j;
      assert LevelAt(h, n, now, q) == Room(h, n, tight, now, q);
    }
  }

  /** A call is let through exactly when every window ending at it has room. */
  lemma AdmitsIffEveryWindowFits(h: seq<Call>, n: nat, now: real, q: Quota)
    requires n <= |h|
    ensures LevelAt(h, n, now, q) >= 1.0 <==> FitsEveryWindow(h, n, now, q)
  {
    LevelIsLeastRoom(h, n, now, q);
  }

  // ---------------------------------------------------------------- safety and optimality

  lemma LimiterRespectsWindows(h: seq<Call>, q: Quota)
    requires Decided(h, q)
    ensures RespectsWindows(h, q)
  {
    forall k | 0 <= k < |h|
      ensures RespectsWindowsAt(h, k, q)
    {
      assert DecidedAt(h, k, q);
      AdmitsIffEveryWindowFits(h, k, h[k].at, q);
    }
  }

  lemma AllowanceGrows(admitted: nat, q: Quota, start: real, sooner: real, later: real)
    requires q.rate >= 0.0 && sooner <= later
    requires admitted as real <= q.limit as real + q.rate * (sooner - start)
    ensures admitted as real <= q.limit as real + q.rate * (later - start)
  {
    assert q.rate * (later - sooner) >= 0.0;
    assert q.rate * (later - start) == q.rate * (sooner - start) + q.rate * (later - sooner);
  }

  lemma RoomBounds(h: seq<Call>, j: nat, i: nat, q: Quota)
    requires i < j < |h| && Room(h, j, i, h[j].at, q) >= 1.0
    ensures Admitted(h, i, j) as real + 1.0 <= q.limit as real + q.rate * (h[j].at - h[i].at)
  {}

  /** Safety in the usual reading: the calls let through from call i to call j number at most
      limit + rate * elapsed, when time does not run backwards and limits are not negative. */
  lemma {:induction false} NoWindowExceedsItsAllowance(h: seq<Call>, i: nat, j: nat, q: Quota)
    requires Decided(h, q) && TimeOrdered(h) && i <= j < |h|
    requires q.limit >= 0 && q.rate >= 0.0
    ensures Admitted(h, i, j + 1) as real <= q.limit as real + q.rate * (h[j].at - h[i].at)
  {
    assert DecidedAt(h, j, q);
    if i == j {
      NoWaitNoRefill(q.rate, h[j].at - h[i].at);
      if h[j].admitted {
        AdmitsIffEveryWindowFits(h, j, h[j].at, q);
        assert Room(h, j, j, h[j].at, q) >= 1.0;
      }
    } else if h[j].admitted {
      AdmitsIffEveryWindowFits(h, j, h[j].at, q);
      RoomBounds(h, j, i, q);
    } else {
      NoWindowExceedsItsAllowance(h, i, j - 1, q);
      assert Admitted(h, i, j + 1) == Admitted(h, i, j) && h[j - 1].at <= h[j].at;
      AllowanceGrows(Admitted(h, i, j + 1), q, h[i].at, h[j - 1].at, h[j].at);
    }
  }

  lemma NoWaitNoRefill(rate: real, wait: real)
    requires wait == 0.0
    ensures rate * wait == 0.0
  {}

  ghost predicate SameInstants(g: seq<Call>, h: seq<Call>) {
    |g| == |h| && forall k :: 0 <= k < |g| ==> g[k].at == h[k].at
  }

  lemma RoomsDifferByAdmissions(g: seq<Call>, h: seq<Call>, n: nat, i: nat, now: real, q: Quota)
    requires SameInstants(g, h) && i <= n <= |g|
    ensures Room(h, n, i, now, q) - Room(g, n, i, now, q) == (Admitted(g, i, n) - Admitted(h, i, n)) as real
  {
    assert i < n ==> g[i].at == h[i].at;
  }

  /** If the bucket refuses while a policy that is level with it could accept, that policy must have been
      ahead of the bucket at the start of the window that forced the refusal. */
  lemma RefusalIsForced(bucket: seq<Call>, other: seq<Call>, n: nat, now: real, q: Quota)
    requires SameInstants(bucket, other) && n <= |bucket|
    requires forall m :: 0 <= m <= n ==> Admitted(other, 0, m) <= Admitted(bucket, 0, m)
    requires Admitted(other, 0, n) == Admitted(bucket, 0, n)
    requires !FitsEveryWindow(bucket, n, now, q)
    ensures !FitsEveryWindow(other, n, now, q)
  {
    var i :| 0 <= i <= n && Room(bucket, n, i, now, q) < 1.0;
    AdmittedSplit(bucket, 0, i, n);
    AdmittedSplit(other, 0, i, n);
    assert Admitted(other, 0, i) <= Admitted(bucket, 0, i);
    RoomsDifferByAdmissions(bucket, other, n, i, now, q);
  }

  /** Greedy optimality: over the same instants, no admission policy that respects every window has, at any
      point, let through more calls than the bucket has. */
  lemma {:induction false} NoRespectfulPolicyAdmitsMore(bucket: seq<Call>, other: seq<Call>, n: nat, q: Quota)
    requires SameInstants(bucket, other) && n <= |bucket|
    requires Decided(bucket, q) && RespectsWindows(other, q)
    ensures forall m :: 0 <= m <= n ==> Admitted(other, 0, m) <= Admitted(bucket, 0, m)
  {
    if n > 0 {
      NoRespectfulPolicyAdmitsMore(bucket, other, n - 1, q);
      assert DecidedAt(bucket, n - 1, q) && RespectsWindowsAt(other, n - 1, q);
      if Admitted(other, 0, n - 1) == Admitted(bucket, 0, n - 1) && other[n - 1].admitted && !bucket[n - 1].admitted {
        AdmitsIffEveryWindowFits(bucket, n - 1, bucket[n - 1].at, q);
        RefusalIsForced(bucket, other, n - 1, bucket[n - 1].at, q);
      }
    }
  }

  ghost predicate NeverAhead(other: seq<Call>, bucket: seq<Call>)
    requires |other| == |bucket|
  {
    forall m :: 0 <= m <= |bucket| ==> Admitted(other, 0, m) <= Admitted(bucket, 0, m)
  }

  /** The bucket is the most permissive limiter: it respects every window itself, and over the same instants no policy
      that does so is ever ahead of it. */
  lemma BucketIsTheMostPermissive(bucket: seq<Call>, q: Quota)
    requires Decided(bucket, q)
    ensures RespectsWindows(bucket, q)
    ensures forall other :: SameInstants(bucket, other) && RespectsWindows(other, q) ==> NeverAhead(other, bucket)
  {
    LimiterRespectsWindows(bucket, q);
    forall other | SameInstants(bucket, other) && RespectsWindows(other, q)
      ensures NeverAhead(other, bucket)
    {
      NoRespectfulPolicyAdmitsMore(bucket, other, |bucket|, q);
    }
  }

  // ---------------------------------------------------------------- the range of the stored level

  /** More was handed out in some window than it allows. */
  ghost predicate Overdrawn(h: seq<Call>, n: nat, now: real, q: Quota)
    requires n <= |h|
  {
    exists i :: 0 <= i <= n && Room(h, n, i, now, q) < 0.0
  }

  /** The stored level never exceeds the limit, and is negative exactly when some window has been overdrawn. */
  lemma StoredLevelIsNegativeIff(h: seq<Call>, n: nat, q: Quota)
    requires 0 < n <= |h| && q.limit >= 0
    ensures LevelAfter(h, n, q) <= q.limit as real
    ensures LevelAfter(h, n, q) < 0.0 <==> Overdrawn(h, n, h[n - 1].at, q)
  {
    var now := h[n - 1].at;
    assert (now - now) * q.rate == 0.0;
    assert LevelAt(h, n, now, q) == Min(q.limit as real, LevelAfter(h, n, q) + (now - now) * q.rate);
    LevelIsLeastRoom(h, n, now, q);
    var i :| 0 <= i <= n && LevelAt(h, n, now, q) == Room(h, n, i, now, q);
    assert Room(h, n, i, now, q) < 0.0 <==> LevelAfter(h, n, q) < 0.0;
  }

  /** Seen before the call: it will be negative exactly when the clock has stepped back over more than the time that
      refills the stored level. */
  lemma NextLevelIsNegativeIff(h: seq<Call>, n: nat, q: Quota)
    requires 1 < n <= |h| && Decided(h, q) && q.limit >= 0
    ensures LevelAfter(h, n, q) < 0.0 <==> Refill(h[n - 2].at - h[n - 1].at, q.rate) > LevelAfter(h, n - 1, q)
  {
    assert DecidedAt(h, n - 1, q);
    hide Refill;
    RefillBackwards(h[n - 1].at, h[n - 2].at, q.rate);
  }

  lemma RefillBackwards(x: real, y: real, rate: real)
    ensures Refill(x - y, rate) == -Refill(y - x, rate)
  {}

  /** With ordered times and no negative limit or rate it stays between 0 and the limit. */
  lemma {:induction false} StoredLevelStaysInRange(h: seq<Call>, n: nat, q: Quota)
    requires 0 < n <= |h| && Decided(h, q) && TimeOrdered(h) && q.limit >= 0 && q.rate >= 0.0
    ensures 0.0 <= LevelAfter(h, n, q) <= q.limit as real
  {
    if n > 1 {
      StoredLevelStaysInRange(h, n - 1, q);
      RefillStaysInRange(h, n - 1, h[n - 1].at, q);
    }
    assert DecidedAt(h, n - 1, q);
    assert 0.0 <= LevelAt(h, n - 1, h[n - 1].at, q) <= q.limit as real;
  }

  lemma RefillStaysInRange(h: seq<Call>, n: nat, now: real, q: Quota)
    requires 0 < n <= |h| && q.limit >= 0 && q.rate >= 0.0 && h[n - 1].at <= now
    requires 0.0 <= LevelAfter(h, n, q)
    ensures 0.0 <= LevelAt(h, n, now, q) <= q.limit as real
  {
    hide LevelAfter, Refill;
    RefillIsPositive(now - h[n - 1].at, q.rate);
  }

  lemma RefillIsPositive(wait: real, rate: real)
    requires wait >= 0.0 && rate >= 0.0
    ensures Refill(wait, rate) >= 0.0
  {}

  /** A clock that steps back makes it negative. */
  lemma ClockStepBackOverdraws() returns (h: seq<Call>, q: Quota)
    ensures Decided(h, q) && q.limit >= 0 && q.rate >= 0.0 && |h| == 2 && h[1].at < h[0].at && LevelAfter(h, 2, q) < 0.0
  {
    q := Quota(1, 1.0);
    h := [Call(10.0, true), Call(5.0, false)];
    assert LevelAfter(h, 1, q) == 0.0;
    assert LevelAt(h, 1, 5.0, q) == -5.0;
    assert DecidedAt(h, 0, q) && DecidedAt(h, 1, q);
  }

  // ---------------------------------------------------------------- what get_remaining promises

  /** Python's int(x): drop the fraction, towards zero. */
  function Truncate(x: real): int {
    if x >= 0.0 then x.Floor else -((-x).Floor)
  }

  /** Later calls do not change what earlier ones met. */
  lemma {:induction false} LevelOfPrefix(h: seq<Call>, tail: seq<Call>, n: nat, now: real, q: Quota)
    requires n <= |h|
    ensures LevelAt(h + tail, n, now, q) == LevelAt(h, n, now, q)
    ensures n > 0 ==> LevelAfter(h + tail, n, q) == LevelAfter(h, n, q)
  {
    if n > 0 {
      LevelOfPrefix(h, tail, n - 1, h[n - 1].at, q);
      assert (h + tail)[n - 1] == h[n - 1];
      assert LevelAfter(h + tail, n, q) == LevelAfter(h, n, q);
      hide Refill;
    }
  }

  lemma DecidedExtends(h: seq<Call>, c: Call, q: Quota)
    requires Decided(h, q) && (c.admitted <==> LevelAt(h, |h|, c.at, q) >= 1.0)
    ensures Decided(h + [c], q)
  {
    forall k | 0 <= k < |h + [c]|
      ensures DecidedAt(h + [c], k, q)
    {
      assert k < |h| ==> DecidedAt(h, k, q);
      LevelOfPrefix(h, [c], k, (h + [c])[k].at, q);
    }
  }

  /** Calls at the given instants, each decided by the bucket. */
  function Continue(h: seq<Call>, times: seq<real>, q: Quota): (g: seq<Call>)
    ensures |g| == |h| + |times|
    decreases |times|
  {
    if times == [] then h
    else Continue(h + [Call(times[0], LevelAt(h, |h|, times[0], q) >= 1.0)], times[1..], q)
  }

  lemma WaitingNeverLowers(h: seq<Call>, now: real, q: Quota)
    requires h != [] && q.rate >= 0.0 && h[|h| - 1].at <= now
    ensures LevelAt(h, |h|, now, q) >= LevelAfter(h, |h|, q)
  {
    hide Refill;
    RefillIsPositive(now - h[|h| - 1].at, q.rate);
    assert LevelAt(h, |h| - 1, h[|h| - 1].at, q) <= q.limit as real;
  }

  /** The reported number is a promise: that many later calls are all admitted, whenever they come. */
  lemma {:induction false} RemainingIsAPromise(h: seq<Call>, times: seq<real>, q: Quota)
    requires h != [] && Decided(h, q) && q.rate >= 0.0
    requires |times| as real <= LevelAfter(h, |h|, q)
    requires times != [] ==> h[|h| - 1].at <= times[0]
    requires forall i, j :: 0 <= i <= j < |times| ==> times[i] <= times[j]
    ensures Continue(h, times, q) == h + seq(|times|, k requires 0 <= k < |times| => Call(times[k], true))
    decreases |times|
  {
    if times == [] {
      assert Continue(h, times, q) == h;
    } else {
      var level := LevelAfter(h, |h|, q);
      WaitingNeverLowers(h, times[0], q);
      var h' := h + [Call(times[0], true)];
      DecidedExtends(h, Call(times[0], true), q);
      LevelOfPrefix(h, [Call(times[0], true)], |h|, times[0], q);
      assert LevelAfter(h', |h'|, q) >= level - 1.0;
      RemainingIsAPromise(h', times[1..], q);
      assert Continue(h, times, q) == Continue(h', times[1..], q);
    }
  }

  /** Nor does one call more pass at the same instant. */
  lemma {:induction false} NoMoreThanRemainingAtOnce(h: seq<Call>, n: nat, q: Quota)
    requires h != [] && Decided(h, q) && q.rate >= 0.0
    requires n as real <= LevelAfter(h, |h|, q) < n as real + 1.0
    ensures var now := h[|h| - 1].at;
      Continue(h, seq(n + 1, k => now), q) == h + seq(n, k => Call(now, true)) + [Call(now, false)]
    decreases n
  {
    var now := h[|h| - 1].at;
    var times := seq(n + 1, k => now);
    SameInstantLevel(h, q);
    if n == 0 {
      assert times == [now];
      assert Continue(h, times, q) == Continue(h + [Call(now, false)], [], q);
      assert seq(n, k => Call(now, true)) == [];
    } else {
      var h' := h + [Call(now, true)];
      DecidedExtends(h, Call(now, true), q);
      LevelOfPrefix(h, [Call(now, true)], |h|, now, q);
      NoMoreThanRemainingAtOnce(h', n - 1, q);
      assert times[1..] == seq(n, k => now);
      assert h' + seq(n - 1, k => Call(now, true)) == h + seq(n, k => Call(now, true));
    }
  }

  /** Nothing is refilled between two calls at one instant. */
  lemma SameInstantLevel(h: seq<Call>, q: Quota)
    requires h != []
    ensures LevelAt(h, |h|, h[|h| - 1].at, q) == LevelAfter(h, |h|, q)
  {
    var now := h[|h| - 1].at;
    assert Refill(now - now, q.rate) == 0.0;
    hide Refill;
    assert LevelAt(h, |h| - 1, now, q) <= q.limit as real;
  }

  // ---------------------------------------------------------------- what limit and window mean

  /** Full at the limit, and refilled by the limit in one window. */
  predicate SpreadOver(q: Quota, limit: int, windowSeconds: int) {
    q.limit == limit && q.rate * windowSeconds as real == limit as real
  }

  lemma FullRefill(limit: int, windowSeconds: int)
    requires windowSeconds != 0
    ensures (limit as real / windowSeconds as real) * windowSeconds as real == limit as real
  {}

  lemma RateIsPositive(q: Quota, limit: int, windowSeconds: int)
    requires SpreadOver(q, limit, windowSeconds) && limit >= 0 && windowSeconds > 0
    ensures q.rate >= 0.0
  {
    if q.rate < 0.0 { NegativeTimes(q.rate, windowSeconds as real); }
  }

  lemma NegativeTimes(rate: real, wait: real)
    requires rate < 0.0 && wait > 0.0
    ensures rate * wait < 0.0
  {}

  lemma LongerRefillsMore(rate: real, sooner: real, later: real)
    requires rate >= 0.0 && sooner <= later
    ensures rate * sooner <= rate * later
  {
    assert rate * (later - sooner) >= 0.0;
  }

  /** No stretch of one window admits more than twice the limit. */
  lemma OneWindowAdmitsAtMostTwice(h: seq<Call>, i: nat, j: nat, q: Quota, limit: int, windowSeconds: int)
    requires Decided(h, q) && TimeOrdered(h) && i <= j < |h|
    requires SpreadOver(q, limit, windowSeconds) && limit >= 0 && windowSeconds > 0
    requires h[j].at - h[i].at <= windowSeconds as real
    ensures Admitted(h, i, j + 1) <= 2 * limit
  {
    RateIsPositive(q, limit, windowSeconds);
    TermsLimit(q, limit, windowSeconds);
    hide Refill, SpreadOver, Admitted, Decided;
    WindowAllowance(h, i, j, q);
    RefillsAtMostTheLimit(q, limit, windowSeconds, h[j].at - h[i].at);
  }

  lemma TermsLimit(q: Quota, limit: int, windowSeconds: int)
    requires SpreadOver(q, limit, windowSeconds)
    ensures q.limit == limit
  {}

  lemma WindowAllowance(h: seq<Call>, i: nat, j: nat, q: Quota)
    requires Decided(h, q) && TimeOrdered(h) && i <= j < |h|
    requires q.limit >= 0 && q.rate >= 0.0
    ensures Admitted(h, i, j + 1) as real <= q.limit as real + Refill(h[j].at - h[i].at, q.rate)
  {
    hide Admitted, Decided, TimeOrdered;
    NoWindowExceedsItsAllowance(h, i, j, q);
    InRefills(Admitted(h, i, j + 1) as real - q.limit as real, h[j].at - h[i].at, q.rate);
    hide Refill;
  }

  lemma InRefills(surplus: real, wait: real, rate: real)
    requires surplus <= rate * wait
    ensures surplus <= Refill(wait, rate)
  {}

  lemma RefillsAtMostTheLimit(q: Quota, limit: int, windowSeconds: int, wait: real)
    requires SpreadOver(q, limit, windowSeconds) && q.rate >= 0.0 && wait <= windowSeconds as real
    ensures Refill(wait, q.rate) <= limit as real
  {
    LongerRefillsMore(q.rate, wait, windowSeconds as real);
    Commutes(wait, q.rate);
  }

  /** A bucket left alone for one window is full again. */
  lemma FullAgainAfterOneWindow(h: seq<Call>, now: real, q: Quota, limit: int, windowSeconds: int)
    requires h != [] && LevelAfter(h, |h|, q) >= 0.0
    requires SpreadOver(q, limit, windowSeconds) && limit >= 0 && windowSeconds > 0
    requires now - h[|h| - 1].at >= windowSeconds as real
    ensures LevelAt(h, |h|, now, q) == limit as real
  {
    RateIsPositive(q, limit, windowSeconds);
    RefillsTheLimit(q, limit, windowSeconds, now - h[|h| - 1].at);
    hide Refill, LevelAfter;
  }

  lemma RefillsTheLimit(q: Quota, limit: int, windowSeconds: int, wait: real)
    requires SpreadOver(q, limit, windowSeconds) && q.rate >= 0.0 && wait >= windowSeconds as real
    ensures Refill(wait, q.rate) >= limit as real
  {
    LongerRefillsMore(q.rate, windowSeconds as real, wait);
    Commutes(wait, q.rate);
  }

  lemma Commutes(wait: real, rate: real)
    ensures Refill(wait, rate) == rate * wait
  {}

  // ---------------------------------------------------------------- the limiter object

  class RateLimiter {
    var buckets: map<string, Bucket>
    /** Calls on each live bucket since it was created. */
    ghost var history: map<string, seq<Call>>

    ghost predicate Valid()
      reads this
    {
      history.Keys == buckets.Keys && forall key :: key in buckets ==> Represents(buckets[key], history[key])
    }

    static ghost predicate Represents(b: Bucket, h: seq<Call>) {
      && h != [] && Decided(h, b.Terms())
      && b.lastRefill == h[|h| - 1].at
      && b.tokens == LevelAfter(h, |h|, b.Terms())
    }

    ghost function Past(key: string): seq<Call>
      requires Valid()
      reads this
    {
      if key in history then history[key] else []
    }

    constructor ()
      ensures Valid() && buckets == map[]
    {
      buckets, history := map[], map[];
    }

    /** The call that creates a bucket fixes its terms: full at the limit, and refilled by the limit in one window;
        later calls keep them.  Admits exactly when every window of the bucket's history has room, and records the
        decision; calls on other keys are not affected.  A zero window fails before anything is touched. */
    method IsAllowed(key: string, limit: int, windowSeconds: int, now: real) returns (r: Result<bool, LimiterError>)
      requires Valid()
      modifies this
      ensures Valid()
      ensures windowSeconds == 0 ==> r == Err(DivisionByZero) && buckets == old(buckets) && history == old(history)
      ensures windowSeconds != 0 && key !in old(buckets) ==>
        && key in buckets && buckets[key].maxTokens == limit
        && buckets[key].refillRate * windowSeconds as real == limit as real
      ensures windowSeconds != 0 && key in old(buckets) ==>
        key in buckets && buckets[key].Terms() == old(buckets[key].Terms())
      ensures windowSeconds != 0 ==>
        var past := old(Past(key));
        && r.Ok? && (r.value <==> FitsEveryWindow(past, |past|, now, buckets[key].Terms()))
        && history == old(history)[key := past + [Call(now, r.value)]]
        && buckets - {key} == old(buckets) - {key}
    {
      if windowSeconds == 0 {
        return Err(DivisionByZero);
      }
      var refillRate := limit as real / windowSeconds as real;
      FullRefill(limit, windowSeconds);
      ghost var past := Past(key);
      var bucket: Bucket;
      if key in buckets {
        bucket := buckets[key];
      } else {
        bucket := Bucket(limit as real, limit, refillRate, now);
      }
      var admitted, updated := Decide(bucket, past, now);
      hide FitsEveryWindow, Represents;
      buckets := buckets[key := updated];
      history := history[key := past + [Call(now, admitted)]];
      return Ok(admitted);
    }

    /** Refills the bucket, spends a token if there is one, and stores the level. */
    static method Decide(bucket: Bucket, ghost past: seq<Call>, now: real) returns (admitted: bool, updated: Bucket)
      requires if past == [] then bucket.tokens == bucket.maxTokens as real && bucket.lastRefill == now
               else Represents(bucket, past)
      ensures updated.Terms() == bucket.Terms() && Represents(updated, past + [Call(now, admitted)])
      ensures admitted <==> FitsEveryWindow(past, |past|, now, bucket.Terms())
    {
      ghost var q := bucket.Terms();
      var elapsed := now - bucket.lastRefill;
      var tokens := Min(bucket.maxTokens as real, bucket.tokens + elapsed * bucket.refillRate);
      assert tokens == LevelAt(past, |past|, now, q);
      AdmitsIffEveryWindowFits(past, |past|, now, q);
      hide FitsEveryWindow, Refill;
      admitted := tokens >= 1.0;
      if admitted {
        tokens := tokens - 1.0;
      }
      ghost var call := Call(now, admitted);
      DecidedExtends(past, call, q);
      LevelOfPrefix(past, [call], |past|, now, q);
      updated := bucket.(tokens := tokens, lastRefill := now);
    }

    /** The level stored by the last call, its fraction dropped towards zero; nothing is refilled here.  With
        `RemainingIsAPromise` and `NoMoreThanRemainingAtOnce` it is the number of further calls that pass at once. */
    method GetRemaining(key: string) returns (n: int)
      requires Valid()
      ensures key !in buckets ==> n == 0
      ensures key in buckets ==>
        var level := LevelAfter(history[key], |history[key]|, buckets[key].Terms());
        if level >= 0.0 then n as real <= level < n as real + 1.0 else n as real - 1.0 < level <= n as real
    {
      if key !in buckets {
        return 0;
      }
      n := Truncate(buckets[key].tokens);
    }

    method Reset(key: string)
      requires Valid()
      modifies this
      ensures Valid() && buckets == old(buckets) - {key} && history == old(history) - {key}
    {
      buckets, history := buckets - {key}, history - {key};
    }

    method ResetAll()
      modifies this
      ensures Valid() && buckets == map[] && history == map[]
    {
      buckets, history := map[], map[];
    }
  }
}
