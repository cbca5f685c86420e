/** The pacing of cluster/failover/recovery.go: growing delays between probes of a failed instance,
    and promotion after three good probes in a row. */
module Recovery {
  import opened Arithmetic
  import opened Types
  import HD = HealthDetector

  const BASE_DELAY := 1_000_000_000
  const MAX_DELAY := 300_000_000_000
  const BACKOFF_FACTOR := 1.5
  const PROBING_THRESHOLD := 3

  /** `n` uncapped growth steps of x to floor(3x/2). */
  function Grown(x: nat, n: nat): nat {
    if n == 0 then x else Grown(x, n - 1) * 3 / 2
  }

  lemma GrowthStep(x: nat)
    ensures Trunc(Scale(x, BACKOFF_FACTOR)) == x * 3 / 2
  {
    var k := x / 2;
    if x % 2 == 0 {
      ScaleInt(k, 3);
      assert Scale(x, 1.5) == Scale(k, 3.0);
    } else {
      assert Scale(x, 1.5) == (3 * k + 1) as real + 0.5;
    }
  }

  lemma {:induction false} GrownMono(x: nat, m: nat, n: nat)
    requires m <= n
    ensures Grown(x, m) <= Grown(x, n)
    decreases n - m
  {
    if m == n {
    } else {
      GrownMono(x, m, n - 1);
    }
  }

  /** Each step loses less than one to the truncation, so growth stays close to the powers of 1.5. */
  lemma {:induction false} GrowthIsGeometric(x: nat, n: nat)
    requires x >= 1
    ensures Scale(x - 1, Pow(1.5, n)) + 1.0 <= Grown(x, n) as real <= Scale(x, Pow(1.5, n))
  {
    if n == 0 {
    } else {
      GrowthIsGeometric(x, n - 1);
      ThreeHalves(x - 1, Pow(1.5, n - 1));
      ThreeHalves(x, Pow(1.5, n - 1));
      var y: int := Grown(x, n - 1);
      assert y * 3 - 1 <= 2 * (y * 3 / 2) <= y * 3;
    }
  }

  lemma ThreeHalves(d: int, f: real)
    ensures Scale(d, 1.5 * f) == 1.5 * Scale(d, f)
  {
  }

  /** Delay after `attempts` probes without recovery. */
  function Delay(attempts: nat): nat {
    Min(MAX_DELAY, Grown(BASE_DELAY, attempts))
  }

  /** In figures: below fifteen failed probes the delay is one second times 1.5 for each of them, up to the
      truncation, and from the fifteenth on it is five minutes. */
  lemma DelayInFigures(attempts: nat)
    ensures Delay(attempts) <= 300_000_000_000
    ensures Delay(attempts) == 300_000_000_000 <==> attempts >= 15
    ensures attempts < 15 ==>
              Scale(999_999_999, Pow(1.5, attempts)) < Delay(attempts) as real
              <= Scale(1_000_000_000, Pow(1.5, attempts))
  {
    hide Scale, Pow, Grown;
    PowersNear15();
    GrowthIsGeometric(BASE_DELAY, attempts);
    if attempts < 15 {
      GrownMono(BASE_DELAY, attempts, 14);
      GrowthIsGeometric(BASE_DELAY, 14);
    } else {
      GrownMono(BASE_DELAY, 15, attempts);
      GrowthIsGeometric(BASE_DELAY, 15);
    }
  }

  lemma PowersNear15()
    ensures Scale(1_000_000_000, Pow(1.5, 14)) < 300_000_000_000.0 < Scale(999_999_999, Pow(1.5, 15))
  {
    assert Pow(1.5, 1) == 1.5;
    assert Pow(1.5, 2) == 2.25;
    PowAdd(1.5, 2, 2);
    PowAdd(1.5, 4, 4);
    PowAdd(1.5, 8, 4);
    PowAdd(1.5, 12, 2);
    PowAdd(1.5, 14, 1);
  }

  function NextAttempts(attempts: nat, good: bool): nat {
    if good then 0 else attempts + 1
  }

  function AttemptsAfter(h: seq<bool>): nat {
    if h == [] then 0 else NextAttempts(AttemptsAfter(h[..|h| - 1]), h[|h| - 1])
  }

  /** The delay is a function of the run of bad probes that ends the history, and no probe but a good
      one ever shortens it. */
  lemma DelayFollowsBadRun(h: seq<bool>, good: bool)
    ensures Delay(AttemptsAfter(h)) == Min(MAX_DELAY, Grown(BASE_DELAY, HD.TrailingRun(h, false)))
    ensures if good then Delay(AttemptsAfter(h + [good])) == BASE_DELAY
            else Delay(AttemptsAfter(h + [good])) >= Delay(AttemptsAfter(h))
  {
    AttemptsAreBadRun(h);
    assert (h + [good])[..|h|] == h;
    GrownMono(BASE_DELAY, AttemptsAfter(h), AttemptsAfter(h) + 1);
  }

  lemma {:induction false} AttemptsAreBadRun(h: seq<bool>)
    ensures AttemptsAfter(h) == HD.TrailingRun(h, false)
  {
    if h == [] {
    } else {
      AttemptsAreBadRun(h[..|h| - 1]);
    }
  }

  class GradualRecoveryStrategy {
    const detector: HD.BaseDetector
    var attemptCounter: map<string, nat>

    constructor (detector: HD.BaseDetector)
      ensures this.detector == detector && attemptCounter == map[]
    {
      this.detector := detector;
      attemptCounter := map[];
    }

    /** Recover; `detect` is the detector's Detect, which may change its state. */
    method Recover(id: string, detect: HD.Detector -> HD.Detection) returns (r: Option<Error>)
      modifies this, detector
      ensures
        var x := detect(old(detector.Model()));
        && attemptCounter ==
           old(attemptCounter)[id := NextAttempts(HD.Tally(old(attemptCounter), id), HD.FoundHealthy(x))]
        && detector.Model() ==
           (if HD.FoundHealthy(x) then HD.AfterSuccess(detector.thresholds, x.detector, id) else x.detector)
        && r == if HD.FoundHealthy(x) then None else x.err
    {
      var x := detect(HD.Detector(detector.statusMap, detector.failureCount, detector.successCount));
      detector.Restore(x.detector);
      if x.err.None? && x.status == Healthy {
        attemptCounter := attemptCounter[id := 0];
        detector.MarkSucceeded(id);
        return None;
      }
      attemptCounter := attemptCounter[id := HD.Tally(attemptCounter, id) + 1];
      return x.err;
    }

    method RecoveryDelay(id: string) returns (delay: int)
      ensures delay == Delay(HD.Tally(attemptCounter, id))
    {
      var attempts := HD.Tally(attemptCounter, id);
      delay := BASE_DELAY;
      for i := 0 to attempts
        invariant delay == Grown(BASE_DELAY, i) <= MAX_DELAY
      {
        GrowthStep(delay);
        delay := Trunc(Scale(delay, BACKOFF_FACTOR));
        if delay > MAX_DELAY {
          GrownMono(BASE_DELAY, i + 1, attempts);
          delay := MAX_DELAY;
          break;
        }
      }
    }
  }

  predicate AllTrue(s: seq<bool>) {
    forall k :: 0 <= k < |s| ==> s[k]
  }

  /** Probe results kept after one more probe, and whether the instance is promoted. */
  function Probe(results: seq<bool>, good: bool): (seq<bool>, bool) {
    var all := results + [good];
    var kept := if |all| > PROBING_THRESHOLD then all[1..] else all;
    if |kept| == PROBING_THRESHOLD && AllTrue(kept) then ([], true) else (kept, false)
  }

  function ResultsAfter(h: seq<bool>): seq<bool> {
    if h == [] then [] else Probe(ResultsAfter(h[..|h| - 1]), h[|h| - 1]).0
  }

  predicate Promoted(h: seq<bool>) {
    h != [] && Probe(ResultsAfter(h[..|h| - 1]), h[|h| - 1]).1
  }

  lemma {:induction false} TrailingDrop(s: seq<bool>)
    requires s != []
    ensures HD.TrailingRun(s[1..], true) == Min(|s| - 1, HD.TrailingRun(s, true))
  {
    if |s| > 1 && s[|s| - 1] {
      TrailingDrop(s[..|s| - 1]);
      assert s[..|s| - 1][1..] == s[1..][..|s| - 2];
    }
  }

  lemma {:induction false} AllGood(s: seq<bool>)
    ensures HD.TrailingRun(s, true) == |s| <==> AllTrue(s)
  {
    if s == [] {
    } else {
      AllGood(s[..|s| - 1]);
      if s[|s| - 1] {
        assert forall k :: 0 <= k < |s| - 1 ==> s[..|s| - 1][k] == s[k];
      }
    }
  }

  lemma NoRun()
    ensures HD.TrailingRun([], true) == 0
  {
  }

  lemma ProbeStep(results: seq<bool>, good: bool)
    requires |results| <= PROBING_THRESHOLD && HD.TrailingRun(results, true) < PROBING_THRESHOLD
    ensures var t := if good then HD.TrailingRun(results, true) + 1 else 0;
            var (kept, promoted) := Probe(results, good);
            && (promoted <==> t == PROBING_THRESHOLD)
            && |kept| <= PROBING_THRESHOLD
            && HD.TrailingRun(kept, true) == if promoted then 0 else t
  {
    hide HD.TrailingRun, AllTrue;
    var all := results + [good];
    HD.RunsAfterOutcome(results, good);
    TrailingDrop(all);
    AllGood(all);
    AllGood(all[1..]);
    assert HD.TrailingRun([], true) == 0 by { NoRun(); }
  }

  function Residue(n: nat): nat {
    n % PROBING_THRESHOLD
  }

  lemma NextResidue(r: nat)
    ensures Residue(0) == 0 && Residue(r) < PROBING_THRESHOLD
    ensures Residue(r + 1) == if Residue(r) + 1 == PROBING_THRESHOLD then 0 else Residue(r) + 1
  {
  }

  lemma {:induction false} ResultsHoldTheResidue(h: seq<bool>)
    ensures Promoted(h) <==> HD.TrailingRun(h, true) > 0 && Residue(HD.TrailingRun(h, true)) == 0
    ensures |ResultsAfter(h)| <= PROBING_THRESHOLD
    ensures HD.TrailingRun(ResultsAfter(h), true) == Residue(HD.TrailingRun(h, true))
  {
    hide Probe, HD.TrailingRun, Residue;
    NextResidue(0);
    if h == [] {
      NoRun();
    } else {
      var front := h[..|h| - 1];
      ResultsHoldTheResidue(front);
      NextResidue(HD.TrailingRun(front, true));
      ProbeStep(ResultsAfter(front), h[|h| - 1]);
      assert h == front + [h[|h| - 1]];
      HD.RunsAfterOutcome(front, h[|h| - 1]);
    }
  }

  /** The probing strategy promotes exactly when the run of good probes that ends the history is a
      positive multiple of three long: three good probes in a row since the last promotion. */
  lemma PromotionIsEveryThirdGood(h: seq<bool>)
    ensures Promoted(h) <==> HD.TrailingRun(h, true) > 0 && HD.TrailingRun(h, true) % 3 == 0
  {
    ResultsHoldTheResidue(h);
  }

  class ProbingRecoveryStrategy {
    const detector: HD.BaseDetector
    var probingResults: map<string, seq<bool>>

    constructor (detector: HD.BaseDetector)
      ensures this.detector == detector && probingResults == map[]
    {
      this.detector := detector;
      probingResults := map[];
    }

    /** Recover; `detect` is the detector's Detect. An error-free answer that is not Healthy gives no error. */
    method Recover(id: string, detect: HD.Detector -> HD.Detection) returns (r: Option<Error>)
      modifies this, detector
      ensures
        var x := detect(old(detector.Model()));
        var before := if id in old(probingResults) then old(probingResults)[id] else [];
        var (kept, promoted) := Probe(before, HD.FoundHealthy(x));
        && probingResults == (if promoted then old(probingResults) - {id} else old(probingResults)[id := kept])
        && detector.Model() ==
           (if promoted then HD.AfterSuccess(detector.thresholds, x.detector, id) else x.detector)
        && (promoted ==> HD.FoundHealthy(x))
        && r == if HD.FoundHealthy(x) then None else x.err
    {
      var x := detect(HD.Detector(detector.statusMap, detector.failureCount, detector.successCount));
      detector.Restore(x.detector);
      var results := if id in probingResults then probingResults[id] else [];
      var success := x.err.None? && x.status == Healthy;
      var kept := results + [success];
      if |kept| > PROBING_THRESHOLD {
        kept := kept[1..];
      }
      probingResults := probingResults[id := kept];
      if |kept| == PROBING_THRESHOLD {
        var allSuccess := true;
        for k := 0 to |kept|
          invariant allSuccess
          invariant forall j :: 0 <= j < k ==> kept[j]
        {
          if !kept[k] {
            allSuccess := false;
            assert !AllTrue(kept);
            break;
          }
        }
        if allSuccess {
          probingResults := probingResults - {id};
          assert success by { assert kept[|kept| - 1]; }
          detector.MarkSucceeded(id);
          return None;
        }
      }
      if success {
        return None;
      }
      return x.err;
    }
  }

  // Recovery with the dialing detector.

  /** One call of a strategy's Recover: how the dial would end, and whether a good probe makes the
      strategy mark a success. */
  datatype Attempt = Attempt(id: string, dial: Option<Error>, marks: bool)

  function AfterAttempt(t: HD.Thresholds, d: HD.Detector, a: Attempt): HD.Detector {
    var x := HD.Dialed(t, d, a.id, a.dial);
    if HD.FoundHealthy(x) && a.marks then HD.AfterSuccess(t, x.detector, a.id) else x.detector
  }

  function AfterAttempts(t: HD.Thresholds, d: HD.Detector, h: seq<Attempt>): HD.Detector {
    if h == [] then d else AfterAttempt(t, AfterAttempts(t, d, h[..|h| - 1]), h[|h| - 1])
  }

  lemma AttemptIsLocal(t: HD.Thresholds, d: HD.Detector, a: Attempt, id: string)
    requires a.id != id
    ensures HD.SameRecord(AfterAttempt(t, d, a), d, id)
  {
    hide HD.AfterDial, HD.StatusOf, HD.Tally, HD.AfterSuccess;
    var x := HD.Dialed(t, d, a.id, a.dial);
    HD.MarksAreLocal(t, d, a.id, a.dial.None?, id);
    HD.MarksAreLocal(t, x.detector, a.id, true, id);
  }

  /** An unhealthy or isolated instance is never dialed, so no attempt changes what is recorded of it. */
  lemma {:induction false} UnhealthyStays(t: HD.Thresholds, d: HD.Detector, h: seq<Attempt>, id: string)
    requires HD.StatusOf(d, id) == Unhealthy || HD.StatusOf(d, id) == Isolated
    ensures HD.SameRecord(AfterAttempts(t, d, h), d, id)
  {
    if h == [] {
    } else {
      var before := AfterAttempts(t, d, h[..|h| - 1]);
      UnhealthyStays(t, d, h[..|h| - 1], id);
      if h[|h| - 1].id != id {
        AttemptIsLocal(t, before, h[|h| - 1], id);
      }
    }
  }

  function GoodAttempts(id: string, n: nat): seq<Attempt> {
    seq(n, i => Attempt(id, None, false))
  }

  lemma {:induction false} SuspectRecovers(t: HD.Thresholds, d: HD.Detector, id: string, n: nat)
    requires HD.StatusOf(d, id) == Suspect
    ensures var e := AfterAttempts(t, d, GoodAttempts(id, n));
            if n > 0 && HD.Tally(d.successCount, id) + n >= t.success then HD.StatusOf(e, id) == Healthy
            else HD.StatusOf(e, id) == Suspect
    ensures HD.Tally(AfterAttempts(t, d, GoodAttempts(id, n)).successCount, id) == HD.Tally(d.successCount, id) + n
  {
    if n == 0 {
    } else {
      SuspectRecovers(t, d, id, n - 1);
      assert GoodAttempts(id, n)[..n - 1] == GoodAttempts(id, n - 1);
    }
  }

  /** With the detector the handler creates, attempts at recovery can lead to a healthy instance exactly
      when it is not recorded as unhealthy or isolated: recovery never heals an instance that has reached
      the failure threshold. */
  lemma RecoversIff(t: HD.Thresholds, d: HD.Detector, id: string)
    ensures (exists h :: HD.StatusOf(AfterAttempts(t, d, h), id) == Healthy) <==>
            HD.StatusOf(d, id) == Healthy || HD.StatusOf(d, id) == Suspect
  {
    hide AfterAttempts, HD.StatusOf, HD.Tally;
    match HD.StatusOf(d, id) {
      case Healthy =>
        NoAttempts(t, d);
      case Suspect =>
        var n := Max(1, t.success - HD.Tally(d.successCount, id));
        SuspectRecovers(t, d, id, n);
      case _ =>
        forall h ensures HD.StatusOf(AfterAttempts(t, d, h), id) != Healthy {
          UnhealthyStays(t, d, h, id);
        }
    }
  }

  lemma NoAttempts(t: HD.Thresholds, d: HD.Detector)
    ensures AfterAttempts(t, d, []) == d
  {
  }
}
