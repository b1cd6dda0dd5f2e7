/** The pacing of replayed deliveries and the limit it really enforces. Times are in
    nanoseconds. */
module RateLimit {
  import opened Text

  const MINUTE := 60 * SECOND
  const MAX_RATE := 60_000

  /** `time.Minute / time.Duration(rate)`. */
  function Interval(rate: int): (i: int)
    requires rate > 0
    ensures 0 <= i <= MINUTE
  {
    MINUTE / rate
  }

  /** `replayScheduleDelay`. */
  function Delay(index: int, rate: int): int {
    if index <= 0 || rate <= 0 || Interval(rate) <= 0 then 0
    else Wrap64(index * Interval(rate))
  }

  /** The last delay of a fan-out fits a `time.Duration`. At one attempt a minute that is so up
      to 153,722,868 attempts. */
  predicate Representable(count: nat, rate: int) {
    rate <= 0 || count == 0 || (count - 1) * Interval(rate) <= MAX_INT64
  }

  /** `times[i]` is what `scheduledDeliveryAt(i, rate)` gives when the clock shows `clock[i]`,
      and the clock does not run backwards. */
  ghost predicate Paced(times: seq<int>, clock: seq<int>, rate: int) {
    && |times| == |clock|
    && (forall i | 0 <= i < |times| :: times[i] == clock[i] + Delay(i, rate))
    && (forall i, j | 0 <= i < j < |clock| :: clock[i] <= clock[j])
  }

  lemma Ordered(a: int, b: int, k: int)
    requires a <= b && k >= 0
    ensures a * k <= b * k
  {
  }

  lemma IntervalPositive(rate: int)
    requires 1 <= rate <= MAX_RATE
    ensures Interval(rate) >= 1_000_000
  {
  }

  lemma DelayExact(index: nat, count: nat, rate: int)
    requires index < count && 1 <= rate <= MAX_RATE && Representable(count, rate)
    ensures Delay(index, rate) == index * Interval(rate)
  {
    Ordered(index, count - 1, Interval(rate));
    Ordered(0, index, Interval(rate));
    IntervalPositive(rate);
  }

  /** Successive attempts are at least one interval apart. */
  lemma Spacing(times: seq<int>, clock: seq<int>, rate: int, i: nat, j: nat)
    requires Paced(times, clock, rate) && 1 <= rate <= MAX_RATE && Representable(|times|, rate)
    requires i <= j < |times|
    ensures times[j] - times[i] >= (j - i) * Interval(rate)
  {
    DelayExact(i, |times|, rate);
    DelayExact(j, |times|, rate);
    assert j * Interval(rate) - i * Interval(rate) == (j - i) * Interval(rate);
  }

  // ----- counting attempts in a minute -----

  /** The attempts in the half-open minute from `start`. */
  ghost function InMinute(times: seq<int>, start: int): set<nat> {
    set i: nat | i < |times| && start <= times[i] < start + MINUTE
  }

  lemma {:induction false} SizeWithin(s: set<nat>, low: nat, size: nat)
    requires forall i | i in s :: low <= i < low + size
    ensures |s| <= size
    decreases size
  {
    if size == 0 {
      assert s == {};
    } else {
      SizeWithin(s - {low + size - 1}, low, size - 1);
    }
  }

  lemma {:induction false} Least(s: set<nat>, bound: nat) returns (low: nat)
    requires s != {} && forall i | i in s :: i < bound
    ensures low in s && forall i | i in s :: low <= i
    decreases bound
  {
    var rest := s - {bound - 1};
    assert forall i | i in s :: i == bound - 1 || i in rest;
    if rest == {} {
      low := bound - 1;
    } else {
      low := Least(rest, bound - 1);
    }
  }

  /** If attempts further than `span` apart are a minute apart, a minute holds at most
      `span + 1` of them. */
  lemma CountBySpan(times: seq<int>, start: int, span: nat)
    requires forall i, j | 0 <= i <= j < |times| && j - i > span :: times[j] - times[i] >= MINUTE
    ensures |InMinute(times, start)| <= span + 1
  {
    var s := InMinute(times, start);
    if s != {} {
      var low := Least(s, |times|);
      SizeWithin(s, low, span + 1);
    }
  }

  /** `r + 1` whole intervals always fill a minute, for rates the system accepts. */
  lemma MinuteFilled(rate: int)
    requires 1 <= rate <= MAX_RATE
    ensures (rate + 1) * Interval(rate) >= MINUTE
    ensures MINUTE % rate == 0 ==> rate * Interval(rate) == MINUTE
    ensures MINUTE % rate != 0 ==> rate * Interval(rate) < MINUTE
  {
    var q, m := MINUTE / rate, MINUTE % rate;
    assert MINUTE == rate * q + m && 0 <= m < rate;
    IntervalPositive(rate);
    assert (rate + 1) * q == rate * q + q;
  }

  lemma FarApart(times: seq<int>, clock: seq<int>, rate: int, span: nat, i: nat, j: nat)
    requires Paced(times, clock, rate) && 1 <= rate <= MAX_RATE && Representable(|times|, rate)
    requires (span + 1) * Interval(rate) >= MINUTE
    requires i <= j < |times| && j - i > span
    ensures times[j] - times[i] >= MINUTE
  {
    Spacing(times, clock, rate, i, j);
    Ordered(span + 1, j - i, Interval(rate));
  }

  /** Any minute holds at most `rate + 1` attempts, and at most `rate` when `rate` divides
      a minute evenly. */
  lemma RateBound(times: seq<int>, clock: seq<int>, rate: int, start: int)
    requires Paced(times, clock, rate) && 1 <= rate <= MAX_RATE && Representable(|times|, rate)
    ensures |InMinute(times, start)| <= rate + 1
    ensures MINUTE % rate == 0 ==> |InMinute(times, start)| <= rate
  {
    MinuteFilled(rate);
    var span := if MINUTE % rate == 0 then rate - 1 else rate;
    forall i, j | 0 <= i <= j < |times| && j - i > span ensures times[j] - times[i] >= MINUTE {
      FarApart(times, clock, rate, span, i, j);
    }
    CountBySpan(times, start, span);
  }

  /** How many attempts a minute holds at most. */
  function Limit(rate: int): int
    requires rate > 0
  {
    if MINUTE % rate == 0 then rate else rate + 1
  }

  // ----- where the limits end -----

  /** A clock that stands still and jumps once. */
  function Jump(n: nat, k: nat, to: int): (clock: seq<int>)
    ensures |clock| == n && forall i | 0 <= i < n :: clock[i] == if i < k then 0 else to
  {
    seq(n, i requires 0 <= i < n => if i < k then 0 else to)
  }

  function TimesAt(clock: seq<int>, rate: int): (times: seq<int>)
    ensures |times| == |clock| && forall i | 0 <= i < |clock| :: times[i] == clock[i] + Delay(i, rate)
  {
    seq(|clock|, i requires 0 <= i < |clock| => clock[i] + Delay(i, rate))
  }

  lemma {:induction false} FullRange(s: set<nat>, n: nat)
    requires forall i: nat | i < n :: i in s
    ensures |s| >= n
    decreases n
  {
    if n > 0 {
      FullRange(s - {n - 1}, n - 1);
    }
  }

  /** The first attempts of a fan-out share a minute while the clock stands still. */
  lemma FirstMinute(n: nat, k: nat, to: int, rate: int, i: nat)
    requires 1 <= rate <= MAX_RATE && i < k <= n && i < Limit(rate)
    ensures i in InMinute(TimesAt(Jump(n, k, to), rate), 0)
  {
    MinuteFilled(rate);
    Ordered(Limit(rate), MAX_RATE + 1, Interval(rate));
    DelayExact(i, Limit(rate), rate);
    Ordered(i, Limit(rate) - 1, Interval(rate));
    Ordered(0, i, Interval(rate));
    assert (rate - 1) * Interval(rate) == rate * Interval(rate) - Interval(rate);
    IntervalPositive(rate);
  }

  /** The first attempt whose delay does not fit. */
  lemma {:induction false} FirstOverflow(n: nat, rate: int) returns (k: nat)
    requires 1 <= rate <= MAX_RATE && !Representable(n, rate)
    ensures Limit(rate) <= k < n && MAX_INT64 < k * Interval(rate) <= MAX_INT64 + Interval(rate)
    decreases n
  {
    k := n - 1;
    if Representable(n - 1, rate) {
      assert (n - 2) * Interval(rate) + Interval(rate) == (n - 1) * Interval(rate);
      if k < Limit(rate) {
        Ordered(k, MAX_RATE + 1, Interval(rate));
      }
    } else {
      k := FirstOverflow(n - 1, rate);
    }
  }

  /** With the clock set forward by as much as the overflow lost, an attempt whose delay does
      not fit falls into the minute of the first ones. */
  lemma OverflowOvershoots(n: nat, rate: int) returns (clock: seq<int>)
    requires 1 <= rate <= MAX_RATE && !Representable(n, rate)
    ensures |clock| == n && Paced(TimesAt(clock, rate), clock, rate)
    ensures |InMinute(TimesAt(clock, rate), 0)| > Limit(rate)
    ensures exists k :: 0 < k < n && TimesAt(clock, rate)[k] == TimesAt(clock, rate)[0]
  {
    var k := FirstOverflow(n, rate);
    var to := 0x1_0000_0000_0000_0000 - k * Interval(rate);
    clock := Jump(n, k, to);
    var times := TimesAt(clock, rate);
    IntervalPositive(rate);
    assert Delay(k, rate) == k * Interval(rate) - 0x1_0000_0000_0000_0000;
    assert times[k] == 0 == times[0];
    var early := InMinute(times, 0) - {k};
    forall i: nat | i < Limit(rate)
      ensures i in early
    {
      FirstMinute(n, k, to, rate, i);
    }
    FullRange(early, Limit(rate));
    assert k in InMinute(times, 0) && InMinute(times, 0) == early + {k};
  }

  ghost predicate KeptFor(n: nat, rate: int, limit: int) {
    forall times: seq<int>, clock: seq<int>, start: int {:trigger Paced(times, clock, rate), InMinute(times, start)} ::
      |times| == n && Paced(times, clock, rate) ==> |InMinute(times, start)| <= limit
  }

  lemma KeptWhileRepresentable(n: nat, rate: int)
    requires 1 <= rate <= MAX_RATE && Representable(n, rate)
    ensures KeptFor(n, rate, Limit(rate))
  {
    forall times: seq<int>, clock: seq<int>, start: int | |times| == n && Paced(times, clock, rate)
      ensures |InMinute(times, start)| <= Limit(rate)
    {
      RateBound(times, clock, rate, start);
    }
  }

  /** The bound on a minute is kept by every fan-out of n attempts if and only if the last delay
      fits. */
  lemma BoundKeptExactly(n: nat, rate: int)
    requires 1 <= rate <= MAX_RATE
    ensures KeptFor(n, rate, Limit(rate)) <==> Representable(n, rate)
  {
    if Representable(n, rate) {
      KeptWhileRepresentable(n, rate);
    } else {
      var clock := OverflowOvershoots(n, rate);
    }
  }

  /** "At most `rate` per minute" is kept by every fan-out of n attempts if and only if the last
      delay fits and `rate` divides a minute, in nanoseconds, evenly, or there are no more than
      `rate` attempts anyway. */
  lemma LimitKeptExactly(n: nat, rate: int)
    requires 1 <= rate <= MAX_RATE
    ensures KeptFor(n, rate, rate) <==> Representable(n, rate) && (MINUTE % rate == 0 || n <= rate)
  {
    if !Representable(n, rate) {
      var clock := OverflowOvershoots(n, rate);
    } else if MINUTE % rate == 0 {
      KeptWhileRepresentable(n, rate);
    } else if n <= rate {
      FewAttempts(n, rate);
    } else {
      BurstOvershoots(n, rate);
    }
  }

  lemma FewAttempts(n: nat, rate: int)
    requires n <= rate
    ensures KeptFor(n, rate, rate)
  {
    forall times: seq<int>, clock: seq<int>, start: int | |times| == n && Paced(times, clock, rate)
      ensures |InMinute(times, start)| <= rate
    {
      SizeWithin(InMinute(times, start), 0, n);
    }
  }

  /** When `rate` does not divide a minute, a fan-out while the clock stands still puts one
      attempt too many into a minute. */
  lemma BurstOvershoots(n: nat, rate: int)
    requires 1 <= rate <= MAX_RATE && MINUTE % rate != 0 && n > rate
    ensures Paced(TimesAt(Jump(n, n, 0), rate), Jump(n, n, 0), rate)
    ensures |InMinute(TimesAt(Jump(n, n, 0), rate), 0)| > rate
  {
    forall i: nat | i < rate + 1
      ensures i in InMinute(TimesAt(Jump(n, n, 0), rate), 0)
    {
      FirstMinute(n, n, 0, rate, i);
    }
    FullRange(InMinute(TimesAt(Jump(n, n, 0), rate), 0), rate + 1);
  }

  ghost predicate SpacedFor(n: nat, rate: int)
    requires rate > 0
  {
    forall times: seq<int>, clock: seq<int> | |times| == n && Paced(times, clock, rate) ::
      forall i, j | 0 <= i <= j < n :: times[j] - times[i] >= (j - i) * Interval(rate)
  }

  /** Attempts are an interval apart in every fan-out of n attempts if and only if the last delay
      fits. */
  lemma SpacingExactly(n: nat, rate: int)
    requires 1 <= rate <= MAX_RATE
    ensures SpacedFor(n, rate) <==> Representable(n, rate)
  {
    if Representable(n, rate) {
      forall times: seq<int>, clock: seq<int>, i, j | |times| == n && Paced(times, clock, rate) && 0 <= i <= j < n
        ensures times[j] - times[i] >= (j - i) * Interval(rate)
      {
        Spacing(times, clock, rate, i, j);
      }
    } else {
      var clock := OverflowOvershoots(n, rate);
      var times := TimesAt(clock, rate);
      var k :| 0 < k < n && times[k] == times[0];
      IntervalPositive(rate);
      Ordered(1, k, Interval(rate));
      assert times[k] - times[0] < (k - 0) * Interval(rate);
    }
  }
}
