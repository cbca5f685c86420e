/** Which calls move a breaker record from one state to another, told from its history. */
module BreakerTransitions {
  import opened Arithmetic
  import opened Types
  import opened Breaker
  import opened BreakerHistory
  import opened BreakerEviction

  /** Successes marked since the breaker last left Open, while it was half-open. */
  function EpisodeSuccesses(c: Config, h: seq<Input>): nat {
    if h == [] then 0
    else
      var front, last := h[..|h| - 1], h[|h| - 1];
      if last.op == Allow && In(Before(c, h), Open) && In(Run(c, None, h), HalfOpen) then 0
      else if last.op == MarkSuccess && In(Before(c, h), HalfOpen) then EpisodeSuccesses(c, front) + 1
      else EpisodeSuccesses(c, front)
  }

  lemma {:induction false} SuccessesAreCounted(c: Config, h: seq<Input>)
    ensures In(Run(c, None, h), HalfOpen) ==> Run(c, None, h).value.halfOpenSuccess == EpisodeSuccesses(c, h)
  {
    hide OpenTime, RateMet;
    if h == [] {
    } else {
      SuccessesAreCounted(c, h[..|h| - 1]);
    }
  }

  /** One more success in the present episode reaches the configured rate: it is compared with the calls
      counted in the episode, which are its admitted calls but for the one that ended Open. */
  ghost predicate SuccessSuffices(c: Config, h: seq<Input>) {
    var n := EpisodeAdmits(c, h) - 1;
    n > 0 && (EpisodeSuccesses(c, h) + 1) as real / n as real >= c.halfOpenSuccess
  }

  /** A half-open record is closed by a success exactly when that reaches the rate among the calls counted so
      far, and otherwise stays half-open. */
  lemma HalfOpenClosesIff(c: Config, h: seq<Input>, now: int)
    requires In(Run(c, None, h), HalfOpen)
    ensures var o := Step(c, Run(c, None, h), Input(MarkSuccess, now)).0;
            if SuccessSuffices(c, h) then In(o, Closed) else In(o, HalfOpen)
  {
    AdmitsAreCounted(c, h);
    SuccessesAreCounted(c, h);
  }

  /** An Allow is granted exactly in three situations: by a closed record or none, by an open one past its
      deadline, and by a half-open one that has counted fewer calls than allowed. */
  lemma AdmissionIff(c: Config, h: seq<Input>, now: int)
    ensures var o := Run(c, None, h);
            Step(c, o, Input(Allow, now)).1 == Granted <==>
            || ClosedOrAbsent(o)
            || (In(o, Open) && now > o.value.openUntil)
            || (In(o, HalfOpen) && EpisodeAdmits(c, h) <= c.halfOpenMaxCall)
  {
    AdmitsAreCounted(c, h);
    ReachableIsWellFormed(c, h);
  }

  /** Every change of state, for every history: a record leaves Open and HalfOpen for Closed only by a reset or
      a success that suffices; becomes half-open only by an Allow past the deadline; and opens only by a
      failure, in half-open or completing the run of the threshold. */
  lemma Transitions(c: Config, h: seq<Input>)
    requires h != []
    ensures var b, o, i := Before(c, h), Run(c, None, h), h[|h| - 1];
            && (!ClosedOrAbsent(b) ==>
                  (ClosedOrAbsent(o) <==>
                   i.op == Reset || (i.op == MarkSuccess && In(b, HalfOpen) && SuccessSuffices(c, h[..|h| - 1]))))
            && (!In(b, HalfOpen) ==>
                  (In(o, HalfOpen) <==> i.op == Allow && In(b, Open) && i.now > b.value.openUntil))
            && (!In(b, Open) ==>
                  (In(o, Open) <==>
                   i.op == MarkFailure && (In(b, HalfOpen) || TrailingFailures(c, h) == Max(1, c.threshold))))
  {
    hide OpenTime, TrailingFailures, EpisodeAdmits, EpisodeSuccesses;
    var front, i := h[..|h| - 1], h[|h| - 1];
    if In(Before(c, h), HalfOpen) {
      HalfOpenClosesIff(c, front, i.now);
    } else if ClosedOrAbsent(Before(c, h)) {
      OpensOnThreshold(c, h);
    }
  }

  /** After a reset the record answers every later sequence of calls as a breaker that has seen nothing. */
  lemma ResetRenews(c: Config, h: seq<Input>, now: int, later: seq<Input>)
    ensures var o := Run(c, None, h + [Input(Reset, now)]);
            In(o, Closed) && Replies(c, o, later) == Replies(c, None, later)
  {
    hide Replies;
    RunSnoc(c, None, h, Input(Reset, now));
    SimilarRuns(c, Run(c, None, h + [Input(Reset, now)]), None, later);
  }
}
