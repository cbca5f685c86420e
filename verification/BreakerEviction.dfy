/** What callers can notice of the cleanup goroutine that drops idle Closed records. */
module BreakerEviction {
  import opened Types
  import opened Breaker
  import opened BreakerHistory

  /** The answers to a sequence of calls. */
  function Replies(c: Config, o: Option<Entry>, h: seq<Input>): seq<Reply> {
    if h == [] then []
    else Replies(c, o, h[..|h| - 1]) + [Step(c, Run(c, o, h[..|h| - 1]), h[|h| - 1]).1]
  }

  /** No record, or one that behaves like a new record. */
  predicate Blank(o: Option<Entry>) {
    o.Some? ==>
      var e := o.value;
      && e.state == Closed && e.consecutiveError == 0 && e.backoffFactor == 1.0
      && e.halfOpenCounter == e.halfOpenSuccess == e.halfOpenCalls == 0
  }

  /** The deadline of a record that is not Open is never read. */
  function Readable(e: Entry): Entry {
    if e.state == Open then e else e.(openUntil := 0)
  }

  predicate Similar(a: Option<Entry>, b: Option<Entry>) {
    || (Blank(a) && Blank(b))
    || (a.Some? && b.Some? && Readable(a.value) == Readable(b.value))
  }

  lemma SimilarStep(c: Config, a: Option<Entry>, b: Option<Entry>, i: Input)
    requires Similar(a, b)
    ensures Step(c, a, i).1 == Step(c, b, i).1
    ensures Similar(Step(c, a, i).0, Step(c, b, i).0)
  {
    if i.op != Clean && i.op != Reset {
      var x, y := Find(a, i.now), Find(b, i.now);
      assert Readable(x.(lastAccess := 0)) == Readable(y.(lastAccess := 0));
      SimilarEntries(c, x, y, i.now);
    }
  }

  lemma SimilarEntries(c: Config, x: Entry, y: Entry, now: int)
    requires Readable(x.(lastAccess := 0)) == Readable(y.(lastAccess := 0))
    ensures AllowEntry(c, x, now).1 == AllowEntry(c, y, now).1
    ensures Readable(AllowEntry(c, x, now).0) == Readable(AllowEntry(c, y, now).0)
    ensures Readable(SuccessEntry(c, x, now)) == Readable(SuccessEntry(c, y, now))
    ensures Readable(FailureEntry(c, x, now)) == Readable(FailureEntry(c, y, now))
    ensures ReportedState(x, now) == ReportedState(y, now)
  {
    assert x.(lastAccess := 0, openUntil := 0) == y.(lastAccess := 0, openUntil := 0);
    assert y == x.(lastAccess := y.lastAccess, openUntil := y.openUntil);
  }

  lemma {:induction false} SimilarRuns(c: Config, a: Option<Entry>, b: Option<Entry>, h: seq<Input>)
    requires Similar(a, b)
    ensures Replies(c, a, h) == Replies(c, b, h)
    ensures Similar(Run(c, a, h), Run(c, b, h))
  {
    if h == [] {
    } else {
      var front := h[..|h| - 1];
      SimilarRuns(c, a, b, front);
      SimilarStep(c, Run(c, a, front), Run(c, b, front), h[|h| - 1]);
    }
  }

  /** Evicting a Closed record answers every later sequence of calls as marking one success would. */
  lemma EvictionActsLikeSuccess(c: Config, e: Entry, now: int, h: seq<Input>)
    requires WellFormed(c, e) && Stale(c, e, now)
    ensures Replies(c, Step(c, Some(e), Input(Clean, now)).0, h) ==
            Replies(c, Step(c, Some(e), Input(MarkSuccess, now)).0, h)
  {
    SimilarRuns(c, None, Some(SuccessEntry(c, e, now)), h);
  }

  /** Evicting a Closed record goes unnoticed by every later caller exactly when the record holds
      no failures: a partly counted failure run is forgotten, and a later opening is lost. The calls that
      notice can come at any one time. */
  lemma EvictionUnnoticedIff(c: Config, e: Entry, now: int)
    requires WellFormed(c, e) && e.state == Closed
    ensures (forall h :: Replies(c, None, h) == Replies(c, Some(e), h)) <==> e.consecutiveError == 0
    ensures (forall h :: AllAt(h, now) ==> Replies(c, None, h) == Replies(c, Some(e), h)) <==> e.consecutiveError == 0
  {
    if e.consecutiveError == 0 {
      forall h ensures Replies(c, None, h) == Replies(c, Some(e), h) {
        SimilarRuns(c, None, Some(e), h);
      }
    } else {
      var n := c.threshold - e.consecutiveError;
      var h := FailuresAt(n, now);
      var q := Input(GetState, now);
      FailuresOpen(c, Some(e), n, now);
      FailuresCount(c, None, n, now);
      assert (h + [q])[..|h|] == h;
      var kept, gone := Replies(c, Some(e), h + [q]), Replies(c, None, h + [q]);
      assert kept[|kept| - 1] != Reports(Closed);
      assert gone[|gone| - 1] == Reports(Closed);
      assert Replies(c, None, h + [q]) != Replies(c, Some(e), h + [q]);
      FailuresAreAt(n, now);
      assert AllAt(h + [q], now);
    }
  }
}
