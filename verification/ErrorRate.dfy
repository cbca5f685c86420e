/** ErrorRateDetector of cluster/failover/detector.go: counters kept incrementally beside a
    sliding window, which must agree with a recount of the window. */
module ErrorRate {
  import opened Arithmetic
  import opened Types
  import HD = HealthDetector

  datatype Rate = Rate(base: HD.Detector, requestCount: map<string, int>, errorCount: map<string, int>,
                       windows: map<string, seq<bool>>)

  const EMPTY := Rate(HD.EMPTY, map[], map[], map[])

  function Count(m: map<string, int>, id: string): int {
    if id in m then m[id] else 0
  }

  function WindowOf(r: Rate, id: string): seq<bool> {
    if id in r.windows then r.windows[id] else []
  }

  /** The error rate exceeds `limit`; with no requests counted there is no rate. */
  predicate RateAbove(errors: int, requests: int, limit: real) {
    requests != 0 && errors as real / requests as real > limit
  }

  function StatusAfter(m: map<string, Status>, id: string, errors: int, requests: int): map<string, Status> {
    if RateAbove(errors, requests, 0.5) && requests >= 10 then m[id := Unhealthy]
    else if RateAbove(errors, requests, 0.2) && requests >= 5 then m[id := Suspect]
    else if requests >= 5 then m[id := Healthy]
    else m
  }

  /** ReportRequest */
  function AfterReport(size: int, r: Rate, id: string, ok: bool): Rate
    requires size >= 1
  {
    var w := WindowOf(r, id);
    var full := |w| >= size;
    var kept := if full then w[1..] else w;
    var errors := Count(r.errorCount, id) - (if full && !w[0] then 1 else 0) + (if ok then 0 else 1);
    var requests := Count(r.requestCount, id) - (if full then 1 else 0) + 1;
    Rate(r.base.(statusMap := StatusAfter(r.base.statusMap, id, errors, requests)),
         r.requestCount[id := requests], r.errorCount[id := errors],
         r.windows[id := kept + [ok]])
  }

  /** A request report, or a mark on the embedded BaseDetector. */
  datatype Event = Report(id: string, ok: bool) | Mark(id: string, ok: bool)

  function Run(size: int, t: HD.Thresholds, h: seq<Event>): Rate
    requires size >= 1
  {
    if h == [] then EMPTY
    else
      var r := Run(size, t, h[..|h| - 1]);
      match h[|h| - 1]
      case Report(id, ok) => AfterReport(size, r, id, ok)
      case Mark(id, ok) => r.(base := HD.AfterMark(t, r.base, id, ok))
  }

  /** The outcomes reported for one instance, oldest first. */
  function Reports(h: seq<Event>, id: string): seq<bool> {
    if h == [] then []
    else
      var front, e := Reports(h[..|h| - 1], id), h[|h| - 1];
      if e.Report? && e.id == id then front + [e.ok] else front
  }

  function LastOf(s: seq<bool>, size: int): seq<bool>
    requires size >= 1
  {
    if |s| <= size then s else s[|s| - size..]
  }

  function Errors(s: seq<bool>): nat {
    if s == [] then 0 else Errors(s[..|s| - 1]) + if s[|s| - 1] then 0 else 1
  }

  /** Status of a window with at least five outcomes, by whole-number comparison. */
  function WindowStatus(w: seq<bool>): Status {
    if |w| >= 10 && 2 * Errors(w) > |w| then Unhealthy
    else if 5 * Errors(w) > |w| then Suspect
    else Healthy
  }

  lemma {:induction false} ErrorsOfTail(s: seq<bool>)
    requires s != []
    ensures Errors(s) == Errors(s[1..]) + if s[0] then 0 else 1
  {
    if |s| > 1 {
      ErrorsOfTail(s[..|s| - 1]);
      assert s[..|s| - 1][1..] == s[1..][..|s| - 2];
    } else {
      assert s[1..] == [] && s[..0] == [];
    }
  }

  lemma ErrorsOfSnoc(s: seq<bool>, b: bool)
    ensures Errors(s + [b]) == Errors(s) + if b then 0 else 1
  {
    assert (s + [b])[..|s|] == s;
  }

  /** The comparisons of the quotient are comparisons of whole numbers. */
  lemma RatesAreExact(errors: int, requests: int)
    requires requests > 0
    ensures RateAbove(errors, requests, 0.5) <==> 2 * errors > requests
    ensures RateAbove(errors, requests, 0.2) <==> 5 * errors > requests
  {
    QuotientAbove(errors as real, requests as real, 0.5);
    QuotientAbove(errors as real, requests as real, 0.2);
  }

  lemma QuotientAbove(e: real, n: real, q: real)
    requires n > 0.0
    ensures e / n > q <==> e > q * n
  {
    DivideThrough(-e, n, -q);
    assert (-e) / n == -(e / n) && (-q) * n == -(q * n);
  }

  /** Window and counters say what the reports say. */
  ghost predicate Exact(size: int, r: Rate, id: string, reports: seq<bool>)
    requires size >= 1
  {
    && WindowOf(r, id) == LastOf(reports, size)
    && Count(r.requestCount, id) == |LastOf(reports, size)|
    && Count(r.errorCount, id) == Errors(LastOf(reports, size))
  }

  lemma LastOfSnoc(s: seq<bool>, b: bool, size: int)
    requires size >= 1
    ensures var w := LastOf(s, size);
            LastOf(s + [b], size) == (if |w| >= size then w[1..] else w) + [b]
  {
  }

  lemma CountsStayExact(size: int, r: Rate, id: string, ok: bool, reports: seq<bool>)
    requires size >= 1 && Exact(size, r, id, reports)
    ensures Exact(size, AfterReport(size, r, id, ok), id, reports + [ok])
  {
    LastOfSnoc(reports, ok, size);
    var w := LastOf(reports, size);
    if |w| >= size {
      ErrorsOfTail(w);
      ErrorsOfSnoc(w[1..], ok);
    } else {
      ErrorsOfSnoc(w, ok);
    }
  }

  lemma ReportKeepsExact(size: int, r: Rate, id: string, ok: bool, reports: seq<bool>)
    requires size >= 1 && Exact(size, r, id, reports)
    ensures Exact(size, AfterReport(size, r, id, ok), id, reports + [ok])
    ensures var w := LastOf(reports + [ok], size);
            AfterReport(size, r, id, ok).base.statusMap ==
            if |w| >= 5 then r.base.statusMap[id := WindowStatus(w)] else r.base.statusMap
  {
    hide RateAbove;
    CountsStayExact(size, r, id, ok, reports);
    var w := LastOf(reports + [ok], size);
    RatesAreExact(Errors(w), |w|);
    assert WindowOf(AfterReport(size, r, id, ok), id) == LastOf(reports + [ok], size);
  }

  lemma ReportIsLocal(size: int, r: Rate, id: string, ok: bool, other: string)
    requires size >= 1 && other != id
    ensures HD.StatusOf(AfterReport(size, r, id, ok).base, other) == HD.StatusOf(r.base, other)
  {
  }

  /** After any history the window is the last `size` reported outcomes and both counters equal a
      recount of it, whatever marks and reports on other instances are mixed in. */
  lemma {:induction false} WindowIsRecount(size: int, t: HD.Thresholds, h: seq<Event>, id: string)
    requires size >= 1
    ensures Exact(size, Run(size, t, h), id, Reports(h, id))
  {
    if h == [] {
    } else {
      var front, e := h[..|h| - 1], h[|h| - 1];
      WindowIsRecount(size, t, front, id);
      if e.Report? && e.id == id {
        ReportKeepsExact(size, Run(size, t, front), id, e.ok, Reports(front, id));
      }
    }
  }

  /** A report that leaves five or more outcomes in the window makes the status a function of the
      window, whatever the status was before. */
  lemma ReportSetsStatus(size: int, t: HD.Thresholds, h: seq<Event>, id: string)
    requires size >= 1 && h != [] && h[|h| - 1].Report? && h[|h| - 1].id == id
    ensures var w := LastOf(Reports(h, id), size);
            |w| >= 5 ==> HD.StatusOf(Run(size, t, h).base, id) == WindowStatus(w)
  {
    var front := h[..|h| - 1];
    WindowIsRecount(size, t, front, id);
    ReportKeepsExact(size, Run(size, t, front), id, h[|h| - 1].ok, Reports(front, id));
  }

  /** With reports only, the status is a function of the last `size` outcomes at every moment. */
  lemma {:induction false} ReportedStatus(size: int, t: HD.Thresholds, h: seq<Event>, id: string)
    requires size >= 1 && forall i :: 0 <= i < |h| ==> h[i].Report?
    ensures var w := LastOf(Reports(h, id), size);
            HD.StatusOf(Run(size, t, h).base, id) == if |w| >= 5 then WindowStatus(w) else Healthy
  {
    if h == [] {
    } else {
      var front, e := h[..|h| - 1], h[|h| - 1];
      ReportedStatus(size, t, front, id);
      if e.id == id {
        WindowIsRecount(size, t, front, id);
        ReportKeepsExact(size, Run(size, t, front), id, e.ok, Reports(front, id));
        LastOfSnoc(Reports(front, id), e.ok, size);
      } else {
        ReportIsLocal(size, Run(size, t, front), e.id, e.ok, id);
      }
    }
  }

  class ErrorRateDetector {
    const windowSize: int
    var statusMap: map<string, Status>
    var failureCount: map<string, nat>
    var successCount: map<string, nat>
    var requestCount: map<string, int>
    var errorCount: map<string, int>
    var windows: map<string, seq<bool>>

    ghost function Model(): Rate
      reads this
    {
      Rate(HD.Detector(statusMap, failureCount, successCount), requestCount, errorCount, windows)
    }

    constructor (size: int)
      ensures windowSize == (if size <= 0 then 100 else size) && Model() == EMPTY
    {
      windowSize := if size <= 0 then 100 else size;
      statusMap, failureCount, successCount := map[], map[], map[];
      requestCount, errorCount, windows := map[], map[], map[];
    }

    method ReportRequest(id: string, ok: bool)
      requires windowSize >= 1
      modifies this
      ensures Model() == AfterReport(windowSize, old(Model()), id, ok)
    {
      hide StatusAfter;
      var window := if id in windows then windows[id] else [];
      var errors := Count(errorCount, id);
      var requests := Count(requestCount, id);
      if |window| >= windowSize {
        if !window[0] {
          errors := errors - 1;
        }
        window := window[1..];
        requests := requests - 1;
      }
      window := window + [ok];
      windows := windows[id := window];
      requests := requests + 1;
      requestCount := requestCount[id := requests];
      if !ok {
        errors := errors + 1;
      }
      errorCount := errorCount[id := errors];
      UpdateStatus(id, errors, requests);
    }

    /** The last part of ReportRequest. */
    method UpdateStatus(id: string, errors: int, requests: int)
      modifies this`statusMap
      ensures statusMap == StatusAfter(old(statusMap), id, errors, requests)
    {
      if RateAbove(errors, requests, 0.5) && requests >= 10 {
        statusMap := statusMap[id := Unhealthy];
      } else if RateAbove(errors, requests, 0.2) && requests >= 5 {
        statusMap := statusMap[id := Suspect];
      } else if requests >= 5 {
        statusMap := statusMap[id := Healthy];
      }
    }
  }
}
