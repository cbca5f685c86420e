/** The retry policies of cluster/failover/retry.go. Durations are nanoseconds in `int64`. */
module Retry {
  import opened Arithmetic
  import opened Types

  datatype Policy =
    | Simple(maxAttempts: int, interval: int)
    | Exponential(maxAttempts: int, initial: int, maxInterval: int, multiplier: real, errorTypes: seq<string>)
    | Jittered(maxAttempts: int, initial: int, maxInterval: int, multiplier: real, errorTypes: seq<string>,
               jitter: real)

  /** RetryableErrors of the default configuration. */
  const DEFAULT_RETRYABLE := ["timeout", "connection_refused", "service_unavailable"]

  predicate Contains(s: string, t: string) {
    exists i :: 0 <= i <= |s| && t <= s[i..]
  }

  /** An empty list of error types makes every error retryable; the simple policy ignores the list. */
  predicate Retryable(p: Policy, e: Error) {
    p.Simple? || p.errorTypes == [] || exists t :: t in p.errorTypes && Contains(e.Message(), t)
  }

  predicate ShouldRetry(p: Policy, attempt: int, err: Option<Error>) {
    err.Some? && attempt < p.maxAttempts && Retryable(p, err.value)
  }

  /** The exponential interval before jitter. */
  function Base(p: Policy, attempt: nat): int
    requires !p.Simple?
  {
    Min(Wrap64(p.initial * ToInt64(Pow(p.multiplier, attempt))), p.maxInterval)
  }

  function JitterFactor(random: real, j: real): real {
    1.0 + (random * 2.0 * j - j)
  }

  /** NextBackoff; `random` is the generator's number in [0, 1). */
  function NextBackoff(p: Policy, attempt: nat, random: real): int {
    match p
    case Simple(_, interval) => interval
    case Exponential(_, _, _, _, _) => Base(p, attempt)
    case Jittered(_, _, _, _, _, j) => ToInt64(Scale(Base(p, attempt), JitterFactor(random, j)))
  }

  /** The largest interval is not negative, and the jitter at most the whole interval. */
  predicate Capped(p: Policy) {
    match p
    case Simple(_, interval) => interval >= 0
    case Exponential(_, _, max, _, _) => max >= 0
    case Jittered(_, _, max, _, _, j) => max >= 0 && 0.0 <= j <= 1.0
  }

  /** A growing policy: the setters guarantee all of this but that the initial interval is within the
      maximal one. */
  predicate Sensible(p: Policy)
    requires !p.Simple?
  {
    Capped(p) && 0 <= p.initial <= p.maxInterval < TWO_63 && p.multiplier >= 1.0
  }

  /** The `int64` computation of the interval does not overflow. */
  predicate Fits(p: Policy, attempt: nat)
    requires !p.Simple?
  {
    var t := Trunc(Pow(p.multiplier, attempt));
    t < TWO_63 && p.initial * t < TWO_63
  }

  lemma ProductGrows(d: int, a: int, b: int)
    requires d >= 0 && 1 <= a <= b
    ensures d <= d * a <= d * b
  {
    assert d * a - d == d * (a - 1);
    assert d * b - d * a == d * (b - a);
  }

  /** While the computation fits, intervals stay between the initial and the maximal one and never
      shrink from one attempt to a later one, although the power is truncated to an integer. */
  lemma BackoffGrowsWithinBounds(p: Policy, a: nat, b: nat)
    requires !p.Simple? && Sensible(p) && a <= b && Fits(p, b)
    ensures Fits(p, a)
    ensures p.initial <= Base(p, a) <= Base(p, b) <= p.maxInterval
  {
    PowMono(p.multiplier, 0, a);
    PowMono(p.multiplier, a, b);
    TruncMono(Pow(p.multiplier, a), Pow(p.multiplier, b));
    ProductGrows(p.initial, Trunc(Pow(p.multiplier, a)), Trunc(Pow(p.multiplier, b)));
  }

  /** Past the integer range the conversion gives -2^63, and no multiple of that is positive in 64 bits. */
  lemma OverflowIsNotPositive(initial: int, x: real)
    requires 0 <= initial && x >= TWO_63 as real
    ensures Wrap64(initial * ToInt64(x)) <= 0
  {
    assert ToInt64(x) == -TWO_63;
    var k := initial / 2;
    if initial % 2 == 0 {
      assert initial * -TWO_63 + TWO_63 == (-k) * TWO_64 + TWO_63;
      Wrapped(-k, TWO_63);
    } else {
      assert initial * -TWO_63 + TWO_63 == (-k) * TWO_64 + 0;
      Wrapped(-k, 0);
    }
  }

  lemma Wrapped(q: int, r: int)
    requires 0 <= r < TWO_64
    ensures (q * TWO_64 + r) % TWO_64 == r
  {
  }

  /** All attempts' intervals stay within the initial and the maximal one exactly when the interval does
      not grow at all: it is zero, or the multiplier is one. Any other policy has an attempt whose
      interval overflows to zero or less. */
  lemma BoundsHoldForeverIff(p: Policy)
    requires !p.Simple? && Sensible(p)
    ensures (forall a: nat :: p.initial <= Base(p, a) <= p.maxInterval) <==> p.initial == 0 || p.multiplier == 1.0
  {
    hide Wrap64, ToInt64;
    if p.initial == 0 || p.multiplier == 1.0 {
      forall a: nat ensures p.initial <= Base(p, a) <= p.maxInterval {
        FlatInterval(p, a);
      }
    } else {
      var n := PowUnbounded(p.multiplier, TWO_63);
      OverflowIsNotPositive(p.initial, Pow(p.multiplier, n));
      assert Base(p, n) < p.initial;
    }
  }

  lemma FlatInterval(p: Policy, a: nat)
    requires !p.Simple? && Sensible(p) && (p.initial == 0 || p.multiplier == 1.0)
    ensures Base(p, a) == p.initial
  {
    if p.initial == 0 {
      assert p.initial * ToInt64(Pow(p.multiplier, a)) == 0;
    } else {
      PowOfOne(a);
      assert ToInt64(1.0) == 1;
    }
  }

  lemma {:induction false} PowOfOne(n: nat)
    ensures Pow(1.0, n) == 1.0
  {
    if n == 0 {
    } else {
      PowOfOne(n - 1);
    }
  }

  lemma PowersOfTwo()
    ensures Pow(2.0, 37) == 137438953472.0
  {
    assert Pow(2.0, 1) == 2.0;
    PowAdd(2.0, 1, 1);
    PowAdd(2.0, 2, 2);
    PowAdd(2.0, 4, 4);
    PowAdd(2.0, 8, 8);
    PowAdd(2.0, 16, 16);
    PowAdd(2.0, 32, 4);
    PowAdd(2.0, 36, 1);
  }

  /** Without that condition both bounds fail: from 100 ms and multiplier 2, attempt 37 overflows
      and the wait comes out negative. */
  lemma BackoffOverflows(types: seq<string>)
    ensures var p := Exponential(50, 100_000_000, 30_000_000_000, 2.0, types);
            Sensible(p) && !Fits(p, 37) && NextBackoff(p, 37, 0.0) < 0
  {
    PowersOfTwo();
    assert 137438953472.0.Floor == 137438953472;
  }

  /** Upper bound of one wait, overflow or not. */
  function SleepBound(p: Policy): real {
    match p
    case Simple(_, interval) => interval as real
    case Exponential(_, _, max, _, _) => max as real
    case Jittered(_, _, max, _, _, j) => Scale(max, 1.0 + j)
  }

  lemma JitterRange(random: real, j: real)
    requires 0.0 <= random < 1.0 && 0.0 <= j <= 1.0
    ensures 0.0 <= 1.0 - j <= JitterFactor(random, j) <= 1.0 + j
  {
    MulNonneg(random, j);
    MulNonneg(1.0 - random, j);
    assert (1.0 - random) * j == j - random * j;
  }

  lemma ScaleSign(d: int, f: real)
    requires f >= 0.0
    ensures d >= 0 ==> Scale(d, f) >= 0.0
    ensures d <= 0 ==> Scale(d, f) <= 0.0
  {
    if d >= 0 {
      MulNonneg(d as real, f);
    } else {
      MulNonneg(-d as real, f);
      assert (-d as real) * f == -(d as real * f);
    }
  }

  lemma ToInt64Below(x: real)
    ensures x >= 0.0 ==> ToInt64(x) as real <= x
    ensures x <= 0.0 ==> ToInt64(x) <= 0
  {
  }

  /** No single wait exceeds the bound, even where the interval overflows. */
  lemma SleepIsBounded(p: Policy, attempt: nat, random: real)
    requires Capped(p) && 0.0 <= random < 1.0
    ensures 0.0 <= SleepBound(p) && NextBackoff(p, attempt, random) as real <= SleepBound(p)
  {
    if p.Jittered? {
      var f := JitterFactor(random, p.jitter);
      var base := Base(p, attempt);
      JitterRange(random, p.jitter);
      ScaleSign(p.maxInterval, 1.0 + p.jitter);
      ScaleSign(base, f);
      ScaleMonoLeft(base, p.maxInterval, f);
      ScaleMono(p.maxInterval, f, 1.0 + p.jitter);
      ToInt64Below(Scale(base, f));
    }
  }

  /** Jitter keeps a wait within (1 - j) and (1 + j) times the interval, up to the truncation. */
  lemma JitterStaysNear(p: Policy, attempt: nat, random: real)
    requires p.Jittered? && Sensible(p) && Fits(p, attempt) && 0.0 <= random < 1.0
    requires Scale(p.maxInterval, 1.0 + p.jitter) < TWO_63 as real
    ensures var base := Base(p, attempt);
            Scale(base, 1.0 - p.jitter) - 1.0 < NextBackoff(p, attempt, random) as real <= Scale(base, 1.0 + p.jitter)
  {
    var f := JitterFactor(random, p.jitter);
    var base := Base(p, attempt);
    BackoffGrowsWithinBounds(p, attempt, attempt);
    JitterRange(random, p.jitter);
    ScaleSign(base, f);
    ScaleMono(base, 1.0 - p.jitter, f);
    ScaleMono(base, f, 1.0 + p.jitter);
    ScaleMonoLeft(base, p.maxInterval, 1.0 + p.jitter);
    ToInt64Exact(Scale(base, f));
  }

  /** The interval while it fits, written out; jitter leaves it alone in the middle of its range. */
  lemma PlainBackoff(p: Policy, attempt: nat, random: real)
    requires !p.Simple? && Sensible(p) && Fits(p, attempt)
    requires p.Jittered? ==> p.jitter == 0.0 || random == 0.5
    ensures NextBackoff(p, attempt, random) == Min(p.initial * Pow(p.multiplier, attempt).Floor, p.maxInterval)
  {
    PowMono(p.multiplier, 0, attempt);
    ProductGrows(p.initial, 1, Pow(p.multiplier, attempt).Floor);
    var base := Base(p, attempt);
    assert base == Min(p.initial * Pow(p.multiplier, attempt).Floor, p.maxInterval);
    if p.Jittered? {
      assert JitterFactor(random, p.jitter) == 1.0;
      ScaleInt(base, 1);
    }
  }

  /** The waits that jitter can choose: with positive jitter and interval, a whole number is the wait for
      some random number exactly when it is at least (1 - j) times the interval, truncated, and below
      (1 + j) times it. */
  lemma JitterReaches(p: Policy, attempt: nat, wait: int)
    requires p.Jittered? && 0.0 < p.jitter <= 1.0 && Base(p, attempt) > 0
    requires Scale(Base(p, attempt), 1.0 + p.jitter) < TWO_63 as real
    ensures (exists random :: 0.0 <= random < 1.0 && NextBackoff(p, attempt, random) == wait) <==>
            Scale(Base(p, attempt), 1.0 - p.jitter).Floor <= wait
            && wait as real < Scale(Base(p, attempt), 1.0 + p.jitter)
  {
    hide Base;
    var base, j := Base(p, attempt), p.jitter;
    var low, high := Scale(base, 1.0 - j), Scale(base, 1.0 + j);
    ScaleSign(base, 1.0 - j);
    forall random | 0.0 <= random < 1.0
      ensures low <= Scale(base, JitterFactor(random, j)) < high
      ensures NextBackoff(p, attempt, random) == Scale(base, JitterFactor(random, j)).Floor
    {
      JitterInside(base, j, random);
    }
    if low.Floor <= wait && wait as real < high {
      var x := if wait as real < low then low else wait as real;
      var random := JitterTo(base, j, x);
      assert NextBackoff(p, attempt, random) == x.Floor == wait;
    }
  }

  lemma ScaleStrict(d: int, f: real, g: real)
    requires d > 0 && f < g
    ensures Scale(d, f) < Scale(d, g)
  {
    MulPositive(d as real, g - f);
    assert d as real * (g - f) == d as real * g - d as real * f;
  }

  lemma JitterBelow(random: real, j: real)
    requires 0.0 < j <= 1.0 && 0.0 <= random < 1.0
    ensures 1.0 - j <= JitterFactor(random, j) < 1.0 + j
  {
    MulNonneg(random, j);
    MulPositive(1.0 - random, j);
    assert (1.0 - random) * j == j - random * j;
  }

  lemma JitterInside(base: int, j: real, random: real)
    requires base > 0 && 0.0 < j <= 1.0 && 0.0 <= random < 1.0
    ensures Scale(base, 1.0 - j) <= Scale(base, JitterFactor(random, j)) < Scale(base, 1.0 + j)
  {
    hide Scale, JitterFactor;
    JitterBelow(random, j);
    ScaleMono(base, 1.0 - j, JitterFactor(random, j));
    ScaleStrict(base, JitterFactor(random, j), 1.0 + j);
  }

  lemma JitterTo(base: int, j: real, x: real) returns (random: real)
    requires base > 0 && 0.0 < j <= 1.0 && Scale(base, 1.0 - j) <= x < Scale(base, 1.0 + j)
    ensures 0.0 <= random < 1.0 && Scale(base, JitterFactor(random, j)) == x
  {
    var width := base as real * (2.0 * j);
    MulPositive(base as real, 2.0 * j);
    random := (x - Scale(base, 1.0 - j)) / width;
    assert random * width == x - Scale(base, 1.0 - j);
    assert Scale(base, 1.0 + j) - Scale(base, 1.0 - j) == width;
    DivideThrough(x - Scale(base, 1.0 - j), width, 0.0);
    DivideThrough(x - Scale(base, 1.0 - j), width, 1.0);
    JitterSplits(base, j, random);
  }

  lemma JitterSplits(base: int, j: real, random: real)
    ensures Scale(base, JitterFactor(random, j)) == Scale(base, 1.0 - j) + random * (base as real * (2.0 * j))
  {
    assert JitterFactor(random, j) == (1.0 - j) + random * (2.0 * j);
    var d := base as real;
    assert d * ((1.0 - j) + random * (2.0 * j)) == d * (1.0 - j) + d * (random * (2.0 * j));
    assert d * (random * (2.0 * j)) == random * (d * (2.0 * j));
  }

  lemma ToInt64Exact(x: real)
    requires 0.0 <= x < TWO_63 as real
    ensures x - 1.0 < ToInt64(x) as real <= x
  {
  }

  /** An error is retryable exactly when the policy is the simple one, its list of types is empty, or the
      message has some type of the list anywhere in it. */
  lemma RetryableIff(p: Policy, e: Error)
    ensures Retryable(p, e) <==>
            p.Simple? || p.errorTypes == []
            || exists k: nat, before: string, after: string ::
                 k < |p.errorTypes| && e.Message() == before + p.errorTypes[k] + after
  {
    hide Error.Message;
    var text := e.Message();
    if !p.Simple? {
      forall k: nat | k < |p.errorTypes|
        ensures Contains(text, p.errorTypes[k]) <==>
                exists before: string, after: string :: text == before + p.errorTypes[k] + after
      {
        ContainsIff(text, p.errorTypes[k]);
      }
      if Retryable(p, e) && p.errorTypes != [] {
        var t :| t in p.errorTypes && Contains(text, t);
        var k: nat :| k < |p.errorTypes| && p.errorTypes[k] == t;
        var before: string, after: string :| text == before + p.errorTypes[k] + after;
      }
    }
  }

  lemma ContainsIff(s: string, t: string)
    ensures Contains(s, t) <==> exists before: string, after: string :: s == before + t + after
  {
    if Contains(s, t) {
      var i :| 0 <= i <= |s| && t <= s[i..];
      assert s == s[..i] + t + s[i + |t|..];
    }
    if before: string, after: string :| s == before + t + after {
      assert s[|before|..] == t + after;
      assert t <= s[|before|..];
    }
  }

  /** Of the package's own errors exactly the request timeout is retryable under the default list: it
      contains the entry "timeout", and the other messages contain no entry. */
  lemma OwnErrorRetryableIff(p: Policy, e: Error)
    requires !p.Simple? && e.Own()
    requires p.errorTypes == ["timeout", "connection_refused", "service_unavailable"]
    ensures Retryable(p, e) <==> e.ErrRequestTimeout?
  {
    if e.ErrRequestTimeout? {
      assert e.Message()[8..] == "timeout";
      assert p.errorTypes[0] == "timeout";
      assert Contains(e.Message(), "timeout");
    } else {
      NoEntryIn(e);
    }
  }

  lemma NoEntryIn(e: Error)
    requires e.Own() && !e.ErrRequestTimeout?
    ensures forall t :: t in DEFAULT_RETRYABLE ==> !Contains(e.Message(), t)
  {
    hide Error.Message;
    SpelledWithSpaces(e);
    if e.ErrMaxRetriesExceeded? {
      SpelledWithoutO();
      MissingChar(e.Message(), "timeout", 4);
    } else {
      SpelledWithoutM(e);
      MissingChar(e.Message(), "timeout", 2);
    }
    MissingChar(e.Message(), "connection_refused", 10);
    MissingChar(e.Message(), "service_unavailable", 7);
  }

  lemma SpelledWithSpaces(e: Error)
    requires e.Own()
    ensures '_' !in e.Message()
  {
  }

  lemma SpelledWithoutM(e: Error)
    requires e.ErrCircuitOpen? || e.ErrServiceUnavailable? || e.ErrNoAvailableInstances?
    ensures 'm' !in e.Message()
  {
  }

  lemma SpelledWithoutO()
    ensures 'o' !in ErrMaxRetriesExceeded.Message()
  {
  }

  lemma MissingChar(s: string, t: string, k: nat)
    requires k < |t| && t[k] !in s
    ensures !Contains(s, t)
  {
    forall i | 0 <= i <= |s| ensures !(t <= s[i..]) {
      assert i + k < |s| ==> s[i..][k] == s[i + k];
    }
  }
}
