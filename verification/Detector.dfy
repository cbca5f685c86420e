/** The health detectors of cluster/failover/detector.go. */
module HealthDetector {
  import opened Arithmetic
  import opened Types

  datatype Thresholds = Thresholds(failure: int, success: int)

  /** State of a BaseDetector: three maps keyed by instance ID. */
  datatype Detector = Detector(statusMap: map<string, Status>, failureCount: map<string, nat>,
                               successCount: map<string, nat>)

  const EMPTY := Detector(map[], map[], map[])

  /** Reading a missing key of a Go map of integers gives zero. */
  function Tally(m: map<string, nat>, id: string): nat {
    if id in m then m[id] else 0
  }

  function StatusOf(d: Detector, id: string): Status {
    if id in d.statusMap then d.statusMap[id] else Healthy
  }

  function AfterFailure(t: Thresholds, d: Detector, id: string): Detector {
    var n := Tally(d.failureCount, id) + 1;
    Detector(d.statusMap[id := if n >= t.failure then Unhealthy else Suspect],
             d.failureCount[id := n], d.successCount[id := 0])
  }

  function AfterSuccess(t: Thresholds, d: Detector, id: string): Detector {
    var n := Tally(d.successCount, id) + 1;
    Detector(if n >= t.success then d.statusMap[id := Healthy] else d.statusMap,
             d.failureCount[id := 0], d.successCount[id := n])
  }

  function AfterMark(t: Thresholds, d: Detector, id: string, ok: bool): Detector {
    if ok then AfterSuccess(t, d, id) else AfterFailure(t, d, id)
  }

  /** The state after TimeoutDetector.Detect, given whether the dial succeeds. */
  function AfterDial(t: Thresholds, d: Detector, id: string, dialOk: bool): Detector {
    if StatusOf(d, id) == Unhealthy || StatusOf(d, id) == Isolated then d else AfterMark(t, d, id, dialOk)
  }

  /** What a detector's Detect answers, and the state it leaves. */
  datatype Detection = Detection(detector: Detector, status: Status, err: Option<Error>)

  predicate FoundHealthy(x: Detection) {
    x.err.None? && x.status == Healthy
  }

  /** TimeoutDetector.Detect, given the outcome of the dial: an instance recorded as unhealthy or isolated
      is not dialed, any other is marked with the outcome. */
  function Dialed(t: Thresholds, d: Detector, id: string, dial: Option<Error>): Detection {
    var x := AfterDial(t, d, id, dial.None?);
    Detection(x, StatusOf(x, id), if StatusOf(d, id) == Unhealthy || StatusOf(d, id) == Isolated then None else dial)
  }

  /** The two states hold the same about `id`. */
  predicate SameRecord(d: Detector, e: Detector, id: string) {
    && StatusOf(d, id) == StatusOf(e, id)
    && Tally(d.failureCount, id) == Tally(e.failureCount, id)
    && Tally(d.successCount, id) == Tally(e.successCount, id)
  }

  lemma MarksAreLocal(t: Thresholds, d: Detector, id: string, ok: bool, other: string)
    requires other != id
    ensures SameRecord(AfterMark(t, d, id, ok), d, other)
    ensures SameRecord(AfterDial(t, d, id, ok), d, other)
  {
  }

  datatype Mark = Mark(id: string, ok: bool)

  function Run(t: Thresholds, h: seq<Mark>): Detector {
    if h == [] then EMPTY
    else var m := h[|h| - 1]; AfterMark(t, Run(t, h[..|h| - 1]), m.id, m.ok)
  }

  /** The outcomes recorded for one instance, oldest first. */
  function Outcomes(h: seq<Mark>, id: string): seq<bool> {
    if h == [] then []
    else
      var front, m := Outcomes(h[..|h| - 1], id), h[|h| - 1];
      if m.id == id then front + [m.ok] else front
  }

  /** Length of the run of `b` that ends `s`. */
  function TrailingRun(s: seq<bool>, b: bool): (n: nat)
    ensures n <= |s|
  {
    if s != [] && s[|s| - 1] == b then TrailingRun(s[..|s| - 1], b) + 1 else 0
  }

  /** Status as a function of the outcomes alone: it depends only on the success run at the end
      and on the failure run just before it. */
  function ClosedForm(t: Thresholds, s: seq<bool>): Status {
    var successes := TrailingRun(s, true);
    var failures := TrailingRun(s[..|s| - successes], false);
    if successes == |s| || successes >= Max(1, t.success) then Healthy
    else if failures >= t.failure then Unhealthy
    else Suspect
  }

  lemma RunsAfterOutcome(s: seq<bool>, b: bool)
    ensures TrailingRun(s + [b], b) == TrailingRun(s, b) + 1
    ensures TrailingRun(s + [b], !b) == 0
    ensures TrailingRun(s + [true], true) == TrailingRun(s, true) + 1
    ensures (s + [true])[..|s| - TrailingRun(s, true)] == s[..|s| - TrailingRun(s, true)]
  {
    assert (s + [b])[..|s|] == s;
    assert (s + [true])[..|s|] == s;
  }

  lemma ClosedFormAfterFailure(t: Thresholds, s: seq<bool>)
    ensures ClosedForm(t, s + [false]) == if TrailingRun(s, false) + 1 >= t.failure then Unhealthy else Suspect
  {
    hide TrailingRun;
    RunsAfterOutcome(s, false);
    assert (s + [false])[..|s| + 1] == s + [false];
  }

  lemma ClosedFormAfterSuccess(t: Thresholds, s: seq<bool>)
    ensures ClosedForm(t, s + [true]) == if TrailingRun(s, true) + 1 >= t.success then Healthy else ClosedForm(t, s)
  {
    hide TrailingRun;
    RunsAfterOutcome(s, true);
  }

  lemma {:induction false} CountersAreRuns(t: Thresholds, h: seq<Mark>, id: string)
    ensures var d, s := Run(t, h), Outcomes(h, id);
            && Tally(d.successCount, id) == TrailingRun(s, true)
            && Tally(d.failureCount, id) == TrailingRun(s, false)
  {
    if h == [] {
    } else {
      CountersAreRuns(t, h[..|h| - 1], id);
      RunsAfterOutcome(Outcomes(h[..|h| - 1], id), h[|h| - 1].ok);
    }
  }

  lemma MarkSetsStatus(t: Thresholds, d: Detector, m: Mark, id: string)
    ensures StatusOf(AfterMark(t, d, m.id, m.ok), id) ==
            if m.id != id then StatusOf(d, id)
            else if !m.ok then if Tally(d.failureCount, id) + 1 >= t.failure then Unhealthy else Suspect
            else if Tally(d.successCount, id) + 1 >= t.success then Healthy
            else StatusOf(d, id)
  {
  }

  /** For every history of marks and all thresholds the status is the closed form. */
  lemma {:induction false} StatusIsClosedForm(t: Thresholds, h: seq<Mark>, id: string)
    ensures StatusOf(Run(t, h), id) == ClosedForm(t, Outcomes(h, id))
  {
    if h == [] {
    } else {
      hide ClosedForm, TrailingRun, AfterMark, Tally, StatusOf;
      var front, m := h[..|h| - 1], h[|h| - 1];
      StatusIsClosedForm(t, front, id);
      CountersAreRuns(t, front, id);
      MarkSetsStatus(t, Run(t, front), m, id);
      ClosedFormAfterFailure(t, Outcomes(front, id));
      ClosedFormAfterSuccess(t, Outcomes(front, id));
    }
  }

  class BaseDetector {
    const thresholds: Thresholds
    var statusMap: map<string, Status>
    var failureCount: map<string, nat>
    var successCount: map<string, nat>

    ghost function Model(): Detector
      reads this
    {
      Detector(statusMap, failureCount, successCount)
    }

    constructor (thresholds: Thresholds)
      ensures this.thresholds == thresholds && Model() == EMPTY
    {
      this.thresholds := thresholds;
      statusMap, failureCount, successCount := map[], map[], map[];
    }

    method MarkFailed(id: string)
      modifies this
      ensures Model() == AfterFailure(thresholds, old(Model()), id)
    {
      var n := Tally(failureCount, id) + 1;
      failureCount := failureCount[id := n];
      successCount := successCount[id := 0];
      if failureCount[id] >= thresholds.failure {
        statusMap := statusMap[id := Unhealthy];
      } else {
        statusMap := statusMap[id := Suspect];
      }
    }

    method MarkSucceeded(id: string)
      modifies this
      ensures Model() == AfterSuccess(thresholds, old(Model()), id)
    {
      var n := Tally(successCount, id) + 1;
      successCount := successCount[id := n];
      failureCount := failureCount[id := 0];
      if successCount[id] >= thresholds.success {
        statusMap := statusMap[id := Healthy];
      }
    }

    /** Stands for whatever a detector's own Detect does to the shared state. */
    method Restore(d: Detector)
      modifies this
      ensures Model() == d
    {
      statusMap, failureCount, successCount := d.statusMap, d.failureCount, d.successCount;
    }

    method GetStatus(id: string) returns (s: Status)
      ensures s == StatusOf(Model(), id)
    {
      s := if id in statusMap then statusMap[id] else Healthy;
    }

    /** TimeoutDetector.Detect; `dial` is the outcome of the connection attempt, if one is made. */
    method DetectByDial(id: string, dial: Option<Error>) returns (s: Status, err: Option<Error>)
      modifies this
      ensures Detection(Model(), s, err) == Dialed(thresholds, old(Model()), id, dial)
    {
      s := GetStatus(id);
      if s == Unhealthy || s == Isolated {
        return s, None;
      }
      if dial.Some? {
        MarkFailed(id);
      } else {
        MarkSucceeded(id);
      }
      s := GetStatus(id);
      err := dial;
    }
  }
}
