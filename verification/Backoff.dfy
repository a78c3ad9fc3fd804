/** Powers of two. */
module Powers {
  function Power2(k: nat): (p: nat)
    ensures p >= 1
  {
    if k == 0 then 1 else 2 * Power2(k - 1)
  }
}

/** The courier's claim loop and the delays of its exponential backoff, in 64-bit nanoseconds. */
module ClaimLoop {
  import opened Powers

  const TWO_63 := 0x8000_0000_0000_0000
  const TWO_64 := 0x1_0000_0000_0000_0000
  const SECOND := 1_000_000_000
  const MAX_BACKOFF := 60 * SECOND
  const DEFAULT_INTERVAL := 5

  type Duration = d: int | -TWO_63 <= d < TWO_63

  /** Two's-complement wrap-around of a 64-bit integer. */
  function Wrap(x: int): Duration {
    (x + TWO_63) % TWO_64 - TWO_63
  }

  function MinDuration(a: Duration, b: Duration): Duration {
    if a < b then a else b
  }

  /** One answer of the central instance. */
  datatype Poll = PollFailed | NoJob | Claimed

  /** Doubling, which wraps around at most once. */
  function Twice(d: Duration): Duration {
    if 2 * d >= TWO_63 then 2 * d - TWO_64 else if 2 * d < -TWO_63 then 2 * d + TWO_64 else 2 * d
  }

  function Next(backoff: Duration): Duration {
    MinDuration(Twice(backoff), MAX_BACKOFF)
  }

  /** The backoff after `k` doublings. */
  function Backoff(base: Duration, k: nat): Duration {
    if k == 0 then base else Next(Backoff(base, k - 1))
  }

  /** How many polls up to the i-th have come back without a job since the last claim. */
  function Streak(polls: seq<Poll>, i: nat): nat
    requires i <= |polls|
  {
    if i == 0 || polls[i - 1].Claimed? then 0 else 1 + Streak(polls, i - 1)
  }

  /** How long each poll is followed by sleep; none after a claim. */
  datatype Pause = NoPause | Sleeps(d: Duration)

  /** After a poll without a job, the backoff of the streak it prolongs. */
  function PauseAfter(base: Duration, polls: seq<Poll>, i: nat): Pause
    requires i < |polls|
  {
    if polls[i].Claimed? then NoPause else Sleeps(Backoff(base, Streak(polls, i)))
  }

  /** The loop until it is cancelled after the last of `polls`. */
  method RunClaim(base: Duration, polls: seq<Poll>) returns (pauses: seq<Pause>)
    ensures |pauses| == |polls|
    ensures forall i :: 0 <= i < |polls| ==> pauses[i] == PauseAfter(base, polls, i)
  {
    var backoff := base;
    pauses := [];
    for n := 0 to |polls|
      invariant |pauses| == n && backoff == Backoff(base, Streak(polls, n))
      invariant forall i :: 0 <= i < n ==> pauses[i] == PauseAfter(base, polls, i)
    {
      ghost var streak := Streak(polls, n);
      assert Backoff(base, streak + 1) == Next(backoff);
      match polls[n] {
        case PollFailed =>
          pauses := pauses + [Sleeps(backoff)];
          backoff := Next(backoff);
        case NoJob =>
          pauses := pauses + [Sleeps(backoff)];
          backoff := Next(backoff);
        case Claimed =>
          backoff := base;
          pauses := pauses + [NoPause];
      }
    }
  }

  function Capped(x: int): int {
    if x < MAX_BACKOFF then x else MAX_BACKOFF
  }

  function Doubled(base: int, k: nat): int {
    if k == 0 then base else 2 * Doubled(base, k - 1)
  }

  lemma {:induction false} DoubledIsPower(base: int, k: nat)
    ensures Doubled(base, k) == base * Power2(k)
    ensures base > 0 ==> Doubled(base, k) > 0
  {
    if k > 0 {
      DoubledIsPower(base, k - 1);
      var p := Power2(k - 1);
      assert base * (2 * p) == 2 * (base * p);
    }
  }

  lemma NextUnwrapped(backoff: Duration)
    requires 0 < backoff < TWO_63 / 2
    ensures Next(backoff) == Capped(2 * backoff)
  {
  }

  lemma {:induction false} ClosedForm(base: Duration, k: nat)
    requires 0 < base < TWO_63 / 2 && k > 0
    ensures Backoff(base, k) == Capped(Doubled(base, k)) > 0
  {
    if k > 1 {
      ClosedForm(base, k - 1);
    } else {
      assert Backoff(base, 0) == base == Doubled(base, 0);
    }
    NextUnwrapped(Backoff(base, k - 1));
  }

  /** The doublings follow the closed form exactly when the base is below 2^62 ns; above, the first doubling wraps
      around to a negative duration. */
  lemma ClosedFormIff(base: Duration)
    requires base > 0
    ensures (forall k :: k > 0 ==> Backoff(base, k) == Capped(Doubled(base, k))) <==> base < TWO_63 / 2
    ensures base >= TWO_63 / 2 ==> Backoff(base, 1) < 0
  {
    if base < TWO_63 / 2 {
      forall k | k > 0
        ensures Backoff(base, k) == Capped(Doubled(base, k))
      {
        ClosedForm(base, k);
      }
    } else {
      assert Backoff(base, 0) == base == Doubled(base, 0);
      assert Twice(base) == 2 * base - TWO_64;
      assert Backoff(base, 1) < 0 < Capped(Doubled(base, 1));
    }
  }

  predicate NotShorter(base: Duration, k: nat) {
    k > 0 ==> Backoff(base, k - 1) <= Backoff(base, k)
  }

  lemma NotShorterWithinCap(base: Duration, k: nat)
    requires 0 < base <= MAX_BACKOFF
    ensures NotShorter(base, k)
  {
    if k > 0 {
      if k > 1 {
        ClosedForm(base, k - 1);
      }
      NextUnwrapped(Backoff(base, k - 1));
    }
  }

  /** A streak of failures never shortens the pause exactly when the base is within the cap: a longer base is slept once
      and then undercut by the cap. */
  lemma NeverShorterIff(base: Duration)
    requires 0 < base < TWO_63 / 2
    ensures (forall k :: NotShorter(base, k)) <==> base <= MAX_BACKOFF
  {
    if base > MAX_BACKOFF {
      ClosedForm(base, 1);
      assert Backoff(base, 0) == base;
      assert !NotShorter(base, 1);
    } else {
      forall k
        ensures NotShorter(base, k)
      {
        NotShorterWithinCap(base, k);
      }
    }
  }

  lemma {:induction false} StreakIs(polls: seq<Poll>, i: nat, n: nat)
    requires n <= i <= |polls| && (forall j :: i - n <= j < i ==> !polls[j].Claimed?)
    requires n < i ==> polls[i - n - 1].Claimed?
    ensures Streak(polls, i) == n
  {
    if n > 0 {
      StreakIs(polls, i - 1, n - 1);
    }
  }

  /** After `n` polls in a row without a job, counted from the last claim or from the start, one more is followed by the
      interval doubled `n` times, or by a minute if that is less; a claim is followed by no pause. */
  lemma PausesAre(intervalSeconds: int, polls: seq<Poll>, i: nat, n: nat)
    requires intervalSeconds <= 60 && n <= i < |polls|
    requires (forall j :: i - n <= j < i ==> !polls[j].Claimed?) && (n < i ==> polls[i - n - 1].Claimed?)
    ensures var seconds := if intervalSeconds <= 0 then 5 else intervalSeconds;
      var doubled := seconds * 1_000_000_000 * Power2(n);
      var pause := PauseAfter(BaseOf(intervalSeconds), polls, i);
      if polls[i] == Claimed then pause == NoPause
      else pause == Sleeps(if doubled <= 60_000_000_000 then doubled else 60_000_000_000)
  {
    StreakIs(polls, i, n);
    PausesOfInterval(intervalSeconds, n);
    DoubledIsPower((if intervalSeconds <= 0 then 5 else intervalSeconds) * SECOND, n);
  }

  /** The base for a configured number of seconds. */
  function BaseOf(intervalSeconds: int): Duration {
    var seconds := if intervalSeconds <= 0 then DEFAULT_INTERVAL else intervalSeconds;
    Wrap(seconds * SECOND)
  }

  /** For every interval of up to a minute each pause is the interval doubled once per poll of the streak, capped. */
  lemma PausesOfInterval(intervalSeconds: int, k: nat)
    requires intervalSeconds <= 60
    ensures var seconds := if intervalSeconds <= 0 then 5 else intervalSeconds;
      Backoff(BaseOf(intervalSeconds), k) == Capped(Doubled(seconds * SECOND, k))
  {
    var seconds := if intervalSeconds <= 0 then 5 else intervalSeconds;
    assert BaseOf(intervalSeconds) == seconds * SECOND;
    if k > 0 {
      ClosedForm(seconds * SECOND, k);
    } else {
      assert Backoff(seconds * SECOND, 0) == seconds * SECOND == Doubled(seconds * SECOND, 0);
    }
  }
}

/** Delays between the attempts of a rate-limited download. */
module RateLimit {
  import opened Wrappers
  import opened Powers

  datatype Config = Config(baseMs: real, maxMs: real, maxAttempts: int, jitter: real)

  const DEFAULT_CONFIG := Config(1000.0, 60000.0, 6, 0.3)

  datatype Decision = Retry(delayMs: real, attempt: int) | GiveUp

  datatype Misuse = NotAPositiveAttempt

  function MinReal(a: real, b: real): real {
    if a < b then a else b
  }

  /** The random factor, `random` being drawn from [0, 1). */
  function Spread(jitter: real, random: real): real {
    1.0 - jitter + random * jitter * 2.0
  }

  /** The exponential delay, capped before the jitter is applied. */
  function Raw(attempt: int, c: Config): real
    requires attempt >= 1
  {
    MinReal(c.baseMs * Power2(attempt - 1) as real, c.maxMs)
  }

  function Times(x: real, y: real): real {
    x * y
  }

  function Delay(attempt: int, c: Config, retryAfterMs: Option<real>, random: real): real
    requires attempt >= 1
  {
    if retryAfterMs.Some? then MinReal(Times(retryAfterMs.value, Spread(c.jitter, random)), c.maxMs)
    else Times(Raw(attempt, c), Spread(c.jitter, random))
  }

  function NextRetry(attempt: int, c: Config, retryAfterMs: Option<real>, random: real): Result<Decision, Misuse> {
    if attempt < 1 then Failure(NotAPositiveAttempt)
    else if attempt >= c.maxAttempts then Success(GiveUp)
    else Success(Retry(Delay(attempt, c, retryAfterMs, random), attempt))
  }

  predicate Sensible(c: Config) {
    c.baseMs >= 0.0 && c.maxMs >= 0.0 && 0.0 <= c.jitter <= 1.0
  }

  predicate Drawn(randoms: seq<real>) {
    forall i :: 0 <= i < |randoms| ==> 0.0 <= randoms[i] < 1.0
  }

  lemma Scaled(x: real, jitter: real, random: real)
    requires x >= 0.0 && 0.0 <= jitter <= 1.0 && 0.0 <= random < 1.0
    ensures 0.0 <= Times(x, 1.0 - jitter) <= Times(x, Spread(jitter, random)) <= Times(x, 1.0 + jitter)
  {
    SpreadBounds(jitter, random);
    TimesMonotone(x, 0.0, 1.0 - jitter);
    TimesMonotone(x, 1.0 - jitter, Spread(jitter, random));
    TimesMonotone(x, Spread(jitter, random), 1.0 + jitter);
  }

  lemma SpreadBounds(jitter: real, random: real)
    requires 0.0 <= jitter && 0.0 <= random < 1.0
    ensures 1.0 - jitter <= Spread(jitter, random) <= 1.0 + jitter
  {
    TimesMonotone(jitter, 0.0, random);
    TimesMonotone(jitter, random, 1.0);
    assert Spread(jitter, random) == 1.0 - jitter + 2.0 * Times(jitter, random);
  }

  lemma TimesMonotone(x: real, y: real, z: real)
    requires x >= 0.0 && y <= z
    ensures Times(x, y) <= Times(x, z)
  {
    assert x * z - x * y == x * (z - y);
  }

  lemma RawBounds(attempt: int, c: Config)
    requires Sensible(c) && attempt >= 1
    ensures 0.0 <= Raw(attempt, c) <= c.maxMs && Raw(attempt, c) <= Times(c.baseMs, Power2(attempt - 1) as real)
  {
    assert c.baseMs * Power2(attempt - 1) as real >= 0.0;
  }

  /** Every retried attempt waits between (1 - jitter) and (1 + jitter) times its capped exponential delay. */
  lemma DelayBounds(attempt: int, c: Config, random: real)
    requires Sensible(c) && attempt >= 1 && 0.0 <= random < 1.0
    ensures 0.0 <= Times(Raw(attempt, c), 1.0 - c.jitter) <= Delay(attempt, c, None, random) <=
      Times(Raw(attempt, c), 1.0 + c.jitter)
  {
    RawBounds(attempt, c);
    Scaled(Raw(attempt, c), c.jitter, random);
  }

  /** With a hint the ceiling is strict: the delay never exceeds the maximum, nor the hint by more than the jitter. */
  lemma HintedDelayBounds(attempt: int, c: Config, hint: real, random: real)
    requires Sensible(c) && attempt >= 1 && 0.0 <= random < 1.0 && hint >= 0.0
    ensures MinReal(Times(hint, 1.0 - c.jitter), c.maxMs) <= Delay(attempt, c, Some(hint), random) <=
      MinReal(Times(hint, 1.0 + c.jitter), c.maxMs)
  {
    Scaled(hint, c.jitter, random);
  }

  /** The middle of the random range gives the exponential delay itself, its start the least one. The first delay is the
      base, each further one twice the one before, up to the maximum. A hint takes the place of both. */
  lemma DelayIs(attempt: int, c: Config, hint: real)
    requires attempt >= 1
    ensures Delay(attempt, c, None, 0.5) == Raw(attempt, c)
    ensures Delay(attempt, c, None, 0.0) == Times(Raw(attempt, c), 1.0 - c.jitter)
    ensures Delay(attempt, c, Some(hint), 0.5) == (if hint < c.maxMs then hint else c.maxMs)
    ensures Raw(1, c) == (if c.baseMs < c.maxMs then c.baseMs else c.maxMs)
    ensures 0.0 <= c.baseMs && 0.0 <= c.maxMs ==>
      Raw(attempt + 1, c) == (if 2.0 * Raw(attempt, c) < c.maxMs then 2.0 * Raw(attempt, c) else c.maxMs)
  {
    assert Spread(c.jitter, 0.5) == 1.0 && Spread(c.jitter, 0.0) == 1.0 - c.jitter;
    assert Times(Raw(attempt, c), 1.0) == Raw(attempt, c) && Times(hint, 1.0) == hint;
    assert Power2(0) == 1;
    RawDoubles(attempt, c);
  }

  lemma RawDoubles(attempt: int, c: Config)
    requires attempt >= 1
    ensures 0.0 <= c.baseMs && 0.0 <= c.maxMs ==>
      Raw(attempt + 1, c) == (if 2.0 * Raw(attempt, c) < c.maxMs then 2.0 * Raw(attempt, c) else c.maxMs)
  {
    var p := Power2(attempt - 1) as real;
    assert Power2(attempt) as real == 2.0 * p;
    assert c.baseMs * (2.0 * p) == 2.0 * (c.baseMs * p);
  }

  /** The total wait of attempts 1, 2, … n failing in turn with no hint from the server; the k-th draws
      `randoms[k - 1]`. */
  function TotalWait(n: nat, c: Config, randoms: seq<real>): real
    requires n <= |randoms|
  {
    if n == 0 then 0.0
    else
      var d := NextRetry(n, c, None, randoms[n - 1]);
      TotalWait(n - 1, c, randoms) + if d.value.Retry? then d.value.delayMs else 0.0
  }

  function Doubled(share: real, k: nat): real {
    if k == 0 then share else 2.0 * Doubled(share, k - 1)
  }

  lemma {:induction false} DoubledIsPower(share: real, k: nat)
    ensures Doubled(share, k) == Times(share, Power2(k) as real)
  {
    if k > 0 {
      DoubledIsPower(share, k - 1);
      TimesRegroup(share, 2.0, Power2(k - 1) as real);
      TimesRegroup(2.0, share, Power2(k - 1) as real);
    }
  }

  lemma TimesRegroup(x: real, y: real, z: real)
    ensures Times(x, Times(y, z)) == Times(Times(x, y), z) && Times(x, y) == Times(y, x)
  {
  }

  function Repeated(share: real, n: nat): real {
    if n == 0 then 0.0 else Repeated(share, n - 1) + share
  }

  lemma {:induction false} RepeatedIsProduct(share: real, n: nat)
    ensures Repeated(share, n) == Times(share, n as real)
  {
    if n > 0 {
      RepeatedIsProduct(share, n - 1);
      assert Times(share, (n - 1) as real) + share == Times(share, n as real);
    }
  }

  lemma {:induction false} GeometricBound(n: nat, c: Config, randoms: seq<real>, share: real)
    requires n <= |randoms| && n < c.maxAttempts
    requires forall i :: 0 <= i < |randoms| ==> Delay(i + 1, c, None, randoms[i]) <= Doubled(share, i)
    ensures TotalWait(n, c, randoms) <= Doubled(share, n) - share
  {
    if n > 0 {
      GeometricBound(n - 1, c, randoms, share);
      assert Delay(n - 1 + 1, c, None, randoms[n - 1]) <= Doubled(share, n - 1);
    }
  }

  lemma {:induction false} FlatBound(n: nat, c: Config, randoms: seq<real>, share: real)
    requires n <= |randoms| && n < c.maxAttempts
    requires forall i :: 0 <= i < |randoms| ==> Delay(i + 1, c, None, randoms[i]) <= share
    ensures TotalWait(n, c, randoms) <= Repeated(share, n)
  {
    if n > 0 {
      FlatBound(n - 1, c, randoms, share);
      assert Delay(n - 1 + 1, c, None, randoms[n - 1]) <= share;
    }
  }

  lemma DelayGrowth(attempt: int, c: Config, random: real)
    requires Sensible(c) && attempt >= 1 && 0.0 <= random < 1.0
    ensures Delay(attempt, c, None, random) <= Doubled(Times(1.0 + c.jitter, c.baseMs), attempt - 1)
    ensures Delay(attempt, c, None, random) <= Times(1.0 + c.jitter, c.maxMs)
  {
    DelayBounds(attempt, c, random);
    RawBounds(attempt, c);
    TimesMonotone(1.0 + c.jitter, Raw(attempt, c), Times(c.baseMs, Power2(attempt - 1) as real));
    TimesMonotone(1.0 + c.jitter, Raw(attempt, c), c.maxMs);
    TimesRegroup(1.0 + c.jitter, c.baseMs, Power2(attempt - 1) as real);
    TimesRegroup(Raw(attempt, c), 1.0 + c.jitter, 1.0);
    DoubledIsPower(Times(1.0 + c.jitter, c.baseMs), attempt - 1);
  }

  lemma {:induction false} WaitsStop(n: nat, c: Config, randoms: seq<real>)
    requires c.maxAttempts > 0 && c.maxAttempts - 1 <= n <= |randoms|
    ensures TotalWait(n, c, randoms) == TotalWait(c.maxAttempts - 1, c, randoms)
  {
    if n >= c.maxAttempts {
      WaitsStop(n - 1, c, randoms);
    }
  }

  lemma TotalWaitSums(n: nat, c: Config, randoms: seq<real>)
    requires Sensible(c) && n <= |randoms| && Drawn(randoms) && n < c.maxAttempts
    ensures TotalWait(n, c, randoms) <= Doubled(Times(1.0 + c.jitter, c.baseMs), n) - Times(1.0 + c.jitter, c.baseMs)
    ensures TotalWait(n, c, randoms) <= Repeated(Times(1.0 + c.jitter, c.maxMs), n)
  {
    var steep, flat := Times(1.0 + c.jitter, c.baseMs), Times(1.0 + c.jitter, c.maxMs);
    forall i | 0 <= i < |randoms|
      ensures Delay(i + 1, c, None, randoms[i]) <= Doubled(steep, i) && Delay(i + 1, c, None, randoms[i]) <= flat
    {
      DelayGrowth(i + 1, c, randoms[i]);
    }
    GeometricBound(n, c, randoms, steep);
    FlatBound(n, c, randoms, flat);
  }

  lemma LessOne(share: real, n: nat)
    ensures Times(share, Power2(n) as real - 1.0) == Doubled(share, n) - share
  {
    DoubledIsPower(share, n);
  }

  /** However many attempts fail, the total wait before giving up stays below both the geometric and the capped sum of
      `maxAttempts - 1` waits, each with its jitter. */
  lemma TotalWaitBeforeGivingUp(n: nat, c: Config, randoms: seq<real>)
    requires Sensible(c) && c.maxAttempts > 0 && c.maxAttempts - 1 <= n <= |randoms| && Drawn(randoms)
    ensures TotalWait(n, c, randoms) <= Times(Times(1.0 + c.jitter, c.baseMs), Power2(c.maxAttempts - 1) as real - 1.0)
    ensures TotalWait(n, c, randoms) <= Times(Times(1.0 + c.jitter, c.maxMs), (c.maxAttempts - 1) as real)
  {
    var waits := c.maxAttempts - 1;
    WaitsStop(n, c, randoms);
    TotalWaitSums(waits, c, randoms);
    LessOne(Times(1.0 + c.jitter, c.baseMs), waits);
    RepeatedIsProduct(Times(1.0 + c.jitter, c.maxMs), waits);
  }

  /** With the default settings there are five waits, not six, and together they take at most 40.3 seconds. */
  lemma DefaultTotalWait(n: nat, randoms: seq<real>)
    requires 5 <= n <= |randoms| && Drawn(randoms)
    ensures TotalWait(n, DEFAULT_CONFIG, randoms) <= 40300.0
    ensures NextRetry(6, DEFAULT_CONFIG, None, 0.0) == Success(GiveUp)
  {
    TotalWaitBeforeGivingUp(n, DEFAULT_CONFIG, randoms);
    assert Power2(5) == 32;
  }

  /** The default delays: one second doubled four times, thirty per cent either way, and no hint above a minute. */
  lemma DefaultDelays(hint: real)
    ensures Delay(1, DEFAULT_CONFIG, None, 0.5) == 1000.0 && Delay(2, DEFAULT_CONFIG, None, 0.5) == 2000.0
    ensures Delay(5, DEFAULT_CONFIG, None, 0.5) == 16000.0 && Delay(1, DEFAULT_CONFIG, None, 0.0) == 700.0
    ensures hint >= 60000.0 ==> Delay(1, DEFAULT_CONFIG, Some(hint), 0.5) == 60000.0
    ensures NextRetry(5, DEFAULT_CONFIG, None, 0.5) == Success(Retry(16000.0, 5))
  {
    DelayIs(1, DEFAULT_CONFIG, hint);
    DelayIs(2, DEFAULT_CONFIG, hint);
    DelayIs(3, DEFAULT_CONFIG, hint);
    DelayIs(4, DEFAULT_CONFIG, hint);
    DelayIs(5, DEFAULT_CONFIG, hint);
  }

  /** Of attempts 1, 2, … exactly the first `maxAttempts - 1` are retried. */
  lemma RetriedIff(attempt: int, c: Config, hint: Option<real>, random: real)
    ensures NextRetry(attempt, c, hint, random).Failure? <==> attempt < 1
    ensures NextRetry(attempt, c, hint, random).Success? && NextRetry(attempt, c, hint, random).value.Retry? <==>
      1 <= attempt < c.maxAttempts
  {
  }
}
