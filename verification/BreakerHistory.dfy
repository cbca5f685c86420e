/** What the state of a breaker record says about the calls it has received. */
module BreakerHistory {
  import opened Arithmetic
  import opened Types
  import opened Breaker

  ghost predicate ClockRuns(h: seq<Input>) {
    forall i, j :: 0 <= i < j < |h| ==> h[i].now <= h[j].now
  }

  function Before(c: Config, h: seq<Input>): Option<Entry>
    requires h != []
  {
    Run(c, None, h[..|h| - 1])
  }

  predicate In(o: Option<Entry>, s: State) {
    o.Some? && o.value.state == s
  }

  predicate ClosedOrAbsent(o: Option<Entry>) {
    o.None? || o.value.state == Closed
  }

  /** Length of the failure run that ends the history, where a success, a reset or an eviction
      ends a run and the other calls do not matter. */
  function TrailingFailures(c: Config, h: seq<Input>): nat {
    if h == [] then 0
    else
      var front := h[..|h| - 1];
      match h[|h| - 1].op
      case MarkSuccess => 0
      case Reset => 0
      case MarkFailure => TrailingFailures(c, front) + 1
      case Clean => if Run(c, None, h).None? then 0 else TrailingFailures(c, front)
      case _ => TrailingFailures(c, front)
  }

  /** Half-open episodes that failed since the breaker last opened from Closed. */
  function FailedProbes(c: Config, h: seq<Input>): nat {
    if h == [] then 0
    else
      var front := h[..|h| - 1];
      if h[|h| - 1].op != MarkFailure then FailedProbes(c, front)
      else if In(Before(c, h), HalfOpen) then FailedProbes(c, front) + 1
      else if In(Before(c, h), Open) then FailedProbes(c, front)
      else 0
  }

  /** Calls admitted since the breaker last left Open, the one that left it included. */
  function EpisodeAdmits(c: Config, h: seq<Input>): nat {
    if h == [] then 0
    else
      var front, last := h[..|h| - 1], h[|h| - 1];
      if last.op == Allow && Step(c, Before(c, h), last).1 == Granted then
        if In(Before(c, h), Open) then 1 else EpisodeAdmits(c, front) + 1
      else EpisodeAdmits(c, front)
  }

  /** Factor that the next failed half-open episode will use after `k` failed ones. */
  function ProbeFactor(k: nat): real {
    2.0 * Pow(1.5, k)
  }

  predicate WellFormed(c: Config, e: Entry) {
    && 0 <= e.consecutiveError
    && (e.state == Closed ==>
          && (e.consecutiveError == 0 || e.consecutiveError < c.threshold)
          && e.backoffFactor == 1.0)
    && (e.state != HalfOpen ==> e.halfOpenCounter == e.halfOpenSuccess == e.halfOpenCalls == 0)
    && (e.state == HalfOpen ==>
          && 0 <= e.halfOpenSuccess
          && 0 <= e.halfOpenCounter == e.halfOpenCalls <= Max(0, c.halfOpenMaxCall))
  }

  lemma StepKeepsWellFormed(c: Config, o: Option<Entry>, i: Input)
    requires o.Some? ==> WellFormed(c, o.value)
    ensures var p := Step(c, o, i).0; p.Some? ==> WellFormed(c, p.value)
  {
  }

  lemma {:induction false} ReachableIsWellFormed(c: Config, h: seq<Input>)
    ensures var o := Run(c, None, h); o.Some? ==> WellFormed(c, o.value)
  {
    if h == [] {
    } else {
      ReachableIsWellFormed(c, h[..|h| - 1]);
      StepKeepsWellFormed(c, Before(c, h), h[|h| - 1]);
    }
  }

  lemma {:induction false} ErrorsAreTheTrailingRun(c: Config, h: seq<Input>)
    ensures var o := Run(c, None, h); TrailingFailures(c, h) == if o.Some? then o.value.consecutiveError else 0
  {
    if h == [] {
    } else {
      ErrorsAreTheTrailingRun(c, h[..|h| - 1]);
    }
  }

  lemma {:induction false} FactorCountsProbes(c: Config, h: seq<Input>)
    ensures var o := Run(c, None, h);
            o.Some? && o.value.state != Closed ==> o.value.backoffFactor == ProbeFactor(FailedProbes(c, h))
  {
    if h == [] {
    } else {
      ReachableIsWellFormed(c, h[..|h| - 1]);
      FactorCountsProbes(c, h[..|h| - 1]);
    }
  }

  lemma {:induction false} AdmitsAreCounted(c: Config, h: seq<Input>)
    ensures var o := Run(c, None, h); In(o, HalfOpen) ==> EpisodeAdmits(c, h) == o.value.halfOpenCalls + 1
  {
    if h == [] {
    } else {
      AdmitsAreCounted(c, h[..|h| - 1]);
    }
  }

  /** Every reachable record is determined by its history in the way the field names promise. */
  lemma StateFollowsHistory(c: Config, h: seq<Input>)
    ensures var o := Run(c, None, h);
            && (o.None? ==> TrailingFailures(c, h) == 0)
            && (o.Some? ==> WellFormed(c, o.value) && o.value.consecutiveError == TrailingFailures(c, h))
            && (In(o, Open) || In(o, HalfOpen) ==> o.value.backoffFactor == ProbeFactor(FailedProbes(c, h)))
            && (In(o, HalfOpen) ==> EpisodeAdmits(c, h) == o.value.halfOpenCalls + 1 <= Max(0, c.halfOpenMaxCall) + 1)
  {
    ReachableIsWellFormed(c, h);
    ErrorsAreTheTrailingRun(c, h);
    FactorCountsProbes(c, h);
    AdmitsAreCounted(c, h);
  }

  /** Closed opens exactly on the failure that completes a run of `threshold` of them
      (of one, for a threshold below one), and nothing else opens it. */
  lemma OpensOnThreshold(c: Config, h: seq<Input>)
    requires h != [] && ClosedOrAbsent(Before(c, h))
    ensures In(Run(c, None, h), Open) <==> h[|h| - 1].op == MarkFailure && TrailingFailures(c, h) == Max(1, c.threshold)
    ensures !In(Run(c, None, h), HalfOpen)
  {
    StateFollowsHistory(c, h);
    StateFollowsHistory(c, h[..|h| - 1]);
  }

  /** Ten timeouts do not overflow. */
  predicate TimeoutFits(timeout: int) {
    0 <= timeout && timeout * 10 < TWO_63
  }

  /** Length of the reopening after the k-th failed half-open episode since the opening from Closed. */
  function ReopeningTime(timeout: int, k: nat): int
    requires k >= 1
  {
    OpenTime(timeout, ProbeFactor(k - 1))
  }

  /** An opening from Closed lasts the timeout; the k-th failed half-open episode since then reopens for
      `ReopeningTime(k)`. */
  lemma OpeningLastsExactly(c: Config, h: seq<Input>)
    requires TimeoutFits(c.timeout)
    requires h != [] && !In(Before(c, h), Open) && In(Run(c, None, h), Open)
    ensures var lasts := Run(c, None, h).value.openUntil - h[|h| - 1].now;
            if In(Before(c, h), HalfOpen)
            then FailedProbes(c, h) >= 1 && lasts == ReopeningTime(c.timeout, FailedProbes(c, h))
            else lasts == c.timeout
  {
    hide OpenTime, ProbeFactor, Step;
    var front, i := h[..|h| - 1], h[|h| - 1];
    ReachableIsWellFormed(c, front);
    FactorCountsProbes(c, front);
    OpeningStep(c, Before(c, h), i);
  }

  lemma OpeningStep(c: Config, o: Option<Entry>, i: Input)
    requires TimeoutFits(c.timeout) && !In(o, Open) && In(Step(c, o, i).0, Open)
    requires o.Some? ==> WellFormed(c, o.value)
    ensures i.op == MarkFailure
    ensures Step(c, o, i).0.value.openUntil ==
            i.now + if In(o, HalfOpen) then OpenTime(c.timeout, o.value.backoffFactor) else c.timeout
  {
    OpenTimeOne(c.timeout);
    assert Step(c, o, i).0 == Some(FailureEntry(c, Find(o, i.now), i.now));
  }

  /** The scaled timeout of the k-th reopening is still in the 64-bit range. */
  predicate ReopeningFits(timeout: int, k: nat)
    requires k >= 1
  {
    Scale(timeout, ProbeFactor(k - 1)) < TWO_63 as real
  }

  /** The k-th reopening lasts 2 * 1.5^(k-1) timeouts, cut off at ten, exactly while that product is in
      range: the factor is never capped, and past the range the conversion gives the least integer. */
  lemma ReopeningLastsIff(timeout: int, k: nat)
    requires TimeoutFits(timeout) && k >= 1
    ensures ReopeningTime(timeout, k) == Min(10 * timeout, Trunc(Scale(timeout, ProbeFactor(k - 1))))
            <==> ReopeningFits(timeout, k)
    ensures !ReopeningFits(timeout, k) ==> ReopeningTime(timeout, k) == -TWO_63
  {
    hide ProbeFactor, Scale;
    PowMono(1.5, 0, k - 1);
    ProbeFactorAtLeastTwo(k - 1);
    ScaleMono(timeout, 0.0, ProbeFactor(k - 1));
    ScaleInt(timeout, 0);
  }

  lemma ProbeFactorAtLeastTwo(k: nat)
    ensures ProbeFactor(k) >= 2.0
  {
    PowMono(1.5, 0, k);
  }

  /** While they fit, reopening times never shrink, and are ten timeouts from the fifth failed episode on. */
  lemma ReopeningTimesGrow(timeout: int, j: nat, k: nat)
    requires TimeoutFits(timeout) && 1 <= j <= k && ReopeningFits(timeout, k)
    ensures ReopeningFits(timeout, j)
    ensures timeout <= ReopeningTime(timeout, j) <= ReopeningTime(timeout, k)
    ensures j >= 5 ==> ReopeningTime(timeout, j) == 10 * timeout
  {
    hide OpenTime, Scale;
    PowMono(1.5, 0, j - 1);
    PowMono(1.5, j - 1, k - 1);
    ScaleMono(timeout, ProbeFactor(j - 1), ProbeFactor(k - 1));
    if j >= 5 {
      PowMono(1.5, 4, j - 1);
      PowFour();
    }
    OpenTimeGrows(timeout, ProbeFactor(j - 1), ProbeFactor(k - 1));
  }

  /** For every positive timeout there is a first failed episode whose reopening overflows, and all
      later ones do too. */
  lemma ReopeningOverflows(timeout: int) returns (first: nat)
    requires timeout > 0
    ensures first >= 1 && forall k :: k >= 1 ==> (ReopeningFits(timeout, k) <==> k < first)
  {
    var n := PowUnbounded(1.5, TWO_63);
    hide Scale;
    PowMono(1.5, 0, n);
    ScaleMono(timeout, Pow(1.5, n), ProbeFactor(n));
    ScaleMonoLeft(1, timeout, Pow(1.5, n));
    ScaleOne(Pow(1.5, n));
    first := FirstOverflow(timeout, n + 1);
  }

  lemma ScaleOne(f: real)
    ensures Scale(1, f) == f
  {
  }

  lemma {:induction false} FirstOverflow(timeout: int, n: nat) returns (first: nat)
    requires timeout > 0 && n >= 1 && !ReopeningFits(timeout, n)
    ensures first >= 1 && forall k :: k >= 1 ==> (ReopeningFits(timeout, k) <==> k < first)
  {
    hide ReopeningFits;
    if n > 1 && !ReopeningFits(timeout, n - 1) {
      first := FirstOverflow(timeout, n - 1);
    } else {
      first := n;
      forall k | k >= 1 ensures ReopeningFits(timeout, k) <==> k < first {
        if k < n {
          FitsBelow(timeout, k, n - 1);
        } else if ReopeningFits(timeout, k) {
          FitsBelow(timeout, n, k);
        }
      }
    }
  }

  lemma FitsBelow(timeout: int, j: nat, k: nat)
    requires timeout >= 0 && 1 <= j <= k && ReopeningFits(timeout, k)
    ensures ReopeningFits(timeout, j)
  {
    hide Scale;
    PowMono(1.5, j - 1, k - 1);
    ScaleMono(timeout, ProbeFactor(j - 1), ProbeFactor(k - 1));
  }

  /** With the default timeout of thirty seconds, the reopening after the 48th failed episode overflows. */
  lemma DefaultOverflowsAt48(k: nat)
    requires k >= 1
    ensures ReopeningFits(30_000_000_000, k) <==> k < 48
  {
    hide ReopeningFits;
    FactorsNear48();
    if k < 48 {
      FitsBelow(30_000_000_000, k, 47);
    } else if ReopeningFits(30_000_000_000, k) {
      FitsBelow(30_000_000_000, 48, k);
    }
  }

  lemma FactorsNear48()
    ensures ReopeningFits(30_000_000_000, 47) && !ReopeningFits(30_000_000_000, 48)
  {
    PowFour();
    PowAdd(1.5, 4, 4);
    PowAdd(1.5, 8, 8);
    PowAdd(1.5, 16, 16);
    PowAdd(1.5, 32, 8);
    PowAdd(1.5, 40, 4);
    PowAdd(1.5, 44, 2);
    assert Pow(1.5, 1) == 1.5;
    assert Pow(1.5, 2) == 2.25;
  }

  /** A reopening that overflows does not keep the breaker open: its deadline is already past, and the next
      call is admitted at once. */
  lemma OverflowedReopeningAdmits(c: Config, h: seq<Input>, now: int)
    requires TimeoutFits(c.timeout) && h != [] && In(Before(c, h), HalfOpen) && In(Run(c, None, h), Open)
    requires FailedProbes(c, h) >= 1 && !ReopeningFits(c.timeout, FailedProbes(c, h))
    requires now >= h[|h| - 1].now
    ensures Step(c, Run(c, None, h), Input(Allow, now)).1 == Granted
  {
    hide ReopeningFits, ReopeningTime, Run;
    OpeningLastsExactly(c, h);
    ReopeningLastsIff(c.timeout, FailedProbes(c, h));
  }

  lemma OpenTimeOne(timeout: int)
    requires TimeoutFits(timeout)
    ensures OpenTime(timeout, 1.0) == timeout
  {
    ScaleInt(timeout, 1);
  }

  lemma OpenTimeGrows(timeout: int, f: real, g: real)
    requires TimeoutFits(timeout) && 1.0 <= f <= g && Scale(timeout, g) < TWO_63 as real
    ensures timeout <= OpenTime(timeout, f) <= OpenTime(timeout, g)
    ensures f >= 10.0 ==> OpenTime(timeout, f) == 10 * timeout
  {
    hide Scale, Capped;
    ScaleInt(timeout, 1);
    ScaleMono(timeout, 1.0, f);
    ScaleMono(timeout, f, g);
    if f >= 10.0 {
      ScaleInt(timeout, 10);
      ScaleMono(timeout, 10.0, f);
    }
    CappedGrows(timeout, Scale(timeout, f), Scale(timeout, g));
  }

  lemma CappedGrows(timeout: int, x: real, y: real)
    requires TimeoutFits(timeout) && timeout as real <= x <= y < TWO_63 as real
    ensures timeout <= Capped(timeout, x) <= Capped(timeout, y)
    ensures x >= (timeout * 10) as real ==> Capped(timeout, x) == 10 * timeout
  {
  }

  lemma PowFour()
    ensures Pow(1.5, 4) == 5.0625
  {
    assert Pow(1.5, 1) == 1.5;
    assert Pow(1.5, 2) == 2.25;
    assert Pow(1.5, 3) == 3.375;
  }

  /** While the clock has not passed `openUntil`, no sequence of calls without a reset makes an
      Open record admit a call or change its deadline. Past it the next call is admitted. */
  lemma {:induction false} OpenWindowIsSafe(c: Config, e: Entry, h: seq<Input>, now: int)
    requires e.state == Open
    requires ClockRuns(h + [Input(Allow, now)])
    requires forall i :: 0 <= i < |h| ==> h[i].op != Reset
    requires h != [] ==> h[|h| - 1].now <= e.openUntil
    ensures var o := Run(c, Some(e), h);
            && In(o, Open) && o.value.openUntil == e.openUntil
            && (Step(c, o, Input(Allow, now)).1 == Granted <==> now > e.openUntil)
  {
    if h == [] {
    } else {
      var front, last := h[..|h| - 1], h[|h| - 1];
      assert last == (h + [Input(Allow, now)])[|h| - 1];
      forall i, j | 0 <= i < j < |front| + 1
        ensures (front + [Input(Allow, last.now)])[i].now <= (front + [Input(Allow, last.now)])[j].now
      {
        assert (front + [Input(Allow, last.now)])[i].now == (h + [Input(Allow, now)])[i].now;
        assert (front + [Input(Allow, last.now)])[j].now == (h + [Input(Allow, now)])[j].now;
      }
      if front != [] {
        assert front[|front| - 1] == (h + [Input(Allow, now)])[|h| - 2];
      }
      OpenWindowIsSafe(c, e, front, last.now);
    }
  }

  // Histories on a running clock that lead to every opening.

  /** All calls come at the same time. */
  ghost predicate AllAt(h: seq<Input>, now: int) {
    forall i :: 0 <= i < |h| ==> h[i].now == now
  }

  function FailuresAt(n: nat, now: int): seq<Input> {
    if n == 0 then [] else FailuresAt(n - 1, now) + [Input(MarkFailure, now)]
  }

  lemma {:induction false} FailuresAreAt(n: nat, now: int)
    ensures |FailuresAt(n, now)| == n && AllAt(FailuresAt(n, now), now)
  {
    if n == 0 {
    } else {
      FailuresAreAt(n - 1, now);
    }
  }

  lemma FailureCounts(c: Config, o: Option<Entry>, now: int)
    requires ClosedOrAbsent(o)
    ensures var r, n := Step(c, o, Input(MarkFailure, now)).0, Find(o, now).consecutiveError + 1;
            if n < c.threshold then In(r, Closed) && r.value.consecutiveError == n else In(r, Open)
  {
    hide OpenTime;
  }

  /** Short of the threshold, failures are counted. */
  lemma {:induction false} FailuresCount(c: Config, o: Option<Entry>, n: nat, now: int)
    requires ClosedOrAbsent(o) && n >= 1 && Find(o, now).consecutiveError + n < c.threshold
    ensures var r := Run(c, o, FailuresAt(n, now));
            In(r, Closed) && r.value.consecutiveError == Find(o, now).consecutiveError + n
  {
    hide Step;
    if n == 1 {
      assert Run(c, o, FailuresAt(0, now)) == o;
    } else {
      FailuresCount(c, o, n - 1, now);
    }
    FailureCounts(c, Run(c, o, FailuresAt(n - 1, now)), now);
    RunSnoc(c, o, FailuresAt(n - 1, now), Input(MarkFailure, now));
  }

  /** The failure that meets the threshold opens the breaker. */
  lemma FailuresOpen(c: Config, o: Option<Entry>, n: nat, now: int)
    requires ClosedOrAbsent(o) && n == Max(1, c.threshold - Find(o, now).consecutiveError)
    ensures In(Run(c, o, FailuresAt(n, now)), Open) && ClosedOrAbsent(Run(c, o, FailuresAt(n - 1, now)))
  {
    hide Step;
    if n == 1 {
      assert Run(c, o, FailuresAt(0, now)) == o;
    } else {
      FailuresCount(c, o, n - 1, now);
    }
    FailureCounts(c, Run(c, o, FailuresAt(n - 1, now)), now);
    RunSnoc(c, o, FailuresAt(n - 1, now), Input(MarkFailure, now));
  }

  /** The history has just opened or reopened the breaker, after `k` failed half-open episodes. */
  ghost predicate OpensAfter(c: Config, h: seq<Input>, k: nat) {
    && h != [] && ClockRuns(h) && In(Run(c, None, h), Open) && FailedProbes(c, h) == k
    && (k > 0 ==> In(Before(c, h), HalfOpen))
  }

  lemma FirstOpening(c: Config, now: int) returns (h: seq<Input>)
    ensures OpensAfter(c, h, 0)
  {
    var n := Max(1, c.threshold);
    h := FailuresAt(n, now);
    FailuresOpen(c, None, n, now);
    FailuresAreAt(n, now);
    assert h[..n - 1] == FailuresAt(n - 1, now);
  }

  lemma NextOpening(c: Config, h: seq<Input>, k: nat) returns (more: seq<Input>)
    requires OpensAfter(c, h, k)
    ensures OpensAfter(c, more, k + 1)
  {
    var now := Max(h[|h| - 1].now, Run(c, None, h).value.openUntil + 1);
    var probe, failure := Input(Allow, now), Input(MarkFailure, now);
    RunSnoc(c, None, h, probe);
    RunSnoc(c, None, h + [probe], failure);
    more := h + [probe] + [failure];
    assert more[..|h| + 1] == h + [probe] && (h + [probe])[..|h|] == h;
    assert FailedProbes(c, h + [probe]) == k;
    assert forall i :: 0 <= i < |h| ==> h[i].now <= h[|h| - 1].now;
  }

  /** For every configuration, every number of failed episodes is reached on a clock that does not run back. */
  lemma {:induction false} EveryOpeningHappens(c: Config, k: nat) returns (h: seq<Input>)
    ensures OpensAfter(c, h, k)
  {
    if k == 0 {
      h := FirstOpening(c, 0);
    } else {
      h := EveryOpeningHappens(c, k - 1);
      h := NextOpening(c, h, k - 1);
    }
  }

  /** A failed half-open episode reopens the breaker, and a call at that very instant is admitted. */
  predicate ReadmitsAtOnce(c: Config, h: seq<Input>) {
    h != [] && In(Before(c, h), HalfOpen) && In(Run(c, None, h), Open) &&
    Step(c, Run(c, None, h), Input(Allow, h[|h| - 1].now)).1 == Granted
  }

  lemma ReadmitsWhenOverflowed(c: Config, h: seq<Input>, k: nat)
    requires TimeoutFits(c.timeout) && OpensAfter(c, h, k) && k > 0
    ensures ReadmitsAtOnce(c, h) <==> !ReopeningFits(c.timeout, k)
  {
    hide ReopeningFits, Run, ProbeFactor;
    OpeningLastsExactly(c, h);
    ReopeningLastsIff(c.timeout, k);
    if ReopeningFits(c.timeout, k) {
      ReopeningTimesGrow(c.timeout, k, k);
    } else {
      OverflowedReopeningAdmits(c, h, h[|h| - 1].now);
    }
  }

  lemma ReadmitsAfterEpisode(c: Config, h: seq<Input>)
    requires ClockRuns(h) && ReadmitsAtOnce(c, h)
    ensures OpensAfter(c, h, FailedProbes(c, h)) && FailedProbes(c, h) > 0
  {
    assert h[|h| - 1].op == MarkFailure;
  }

  /** On a clock that does not run back a reopened breaker can admit a call at the instant of its reopening
      exactly when the timeout is positive. With a zero timeout an opening lasts through its instant. */
  lemma ReadmissionHappensIff(c: Config)
    requires TimeoutFits(c.timeout)
    ensures (exists h :: ClockRuns(h) && ReadmitsAtOnce(c, h)) <==> c.timeout > 0
  {
    hide ReadmitsAtOnce;
    if c.timeout > 0 {
      var first := ReopeningOverflows(c.timeout);
      var h := EveryOpeningHappens(c, first);
      ReadmitsWhenOverflowed(c, h, first);
    } else {
      forall h | ClockRuns(h) ensures !ReadmitsAtOnce(c, h) {
        if ReadmitsAtOnce(c, h) {
          ReadmitsAfterEpisode(c, h);
          NothingOverflows(FailedProbes(c, h));
          ReadmitsWhenOverflowed(c, h, FailedProbes(c, h));
        }
      }
    }
  }

  lemma NothingOverflows(k: nat)
    requires k >= 1
    ensures ReopeningFits(0, k)
  {
    assert Scale(0, ProbeFactor(k - 1)) == 0.0;
  }

  /** Time of the last call other than a cleanup tick, since the record was last evicted. */
  function LastTouch(c: Config, h: seq<Input>): Option<int> {
    if h == [] then None
    else if h[|h| - 1].op != Clean then Some(h[|h| - 1].now)
    else if Run(c, None, h).None? then None
    else LastTouch(c, h[..|h| - 1])
  }

  lemma {:induction false} AccessTimeIsLastTouch(c: Config, h: seq<Input>)
    ensures var o := Run(c, None, h);
            LastTouch(c, h) == if o.Some? then Some(o.value.lastAccess) else None
  {
    if h == [] {
    } else {
      AccessTimeIsLastTouch(c, h[..|h| - 1]);
    }
  }

  /** A cleanup tick evicts exactly the Closed records not called for longer than the idle time. */
  lemma EvictsOnlyIdleClosed(c: Config, h: seq<Input>, now: int)
    ensures var o := Run(c, None, h);
            Step(c, o, Input(Clean, now)).0 ==
            if In(o, Closed) && LastTouch(c, h).Some? && now - LastTouch(c, h).value > c.maxIdleTime then None else o
  {
    AccessTimeIsLastTouch(c, h);
  }

  /** `GetState` reports the state that an `Allow` at the same instant would leave. */
  lemma ReportMatchesAllow(c: Config, o: Option<Entry>, now: int)
    ensures Step(c, o, Input(GetState, now)).1 == Reports(Step(c, o, Input(Allow, now)).0.value.state)
  {
  }
}
