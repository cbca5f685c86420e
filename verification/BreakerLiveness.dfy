/** When a half-open breaker can stop admitting calls for good.

    The callers are added to the model: an admitted call is outstanding until it is marked, once.
    `current` counts the outstanding calls admitted in the present half-open episode (the call that
    ended Open included), `earlier` all others. */
module BreakerLiveness {
  import opened Arithmetic
  import opened Types
  import opened Breaker
  import opened BreakerHistory

  datatype World = World(entry: Option<Entry>, current: nat, earlier: nat)

  datatype Action =
    | Call(now: int)
    | Finish(ofEpisode: bool, success: bool, now: int)
    | Query(now: int)
    | Tick(now: int)
    | Clear(now: int)

  predicate Enabled(w: World, a: Action) {
    a.Finish? ==> if a.ofEpisode then w.current > 0 else w.earlier > 0
  }

  function InputOf(a: Action): Input {
    match a
    case Call(t) => Input(Allow, t)
    case Finish(_, s, t) => Input(if s then MarkSuccess else MarkFailure, t)
    case Query(t) => Input(GetState, t)
    case Tick(t) => Input(Clean, t)
    case Clear(t) => Input(Reset, t)
  }

  /** Outside a half-open episode no outstanding call belongs to one. */
  function Settle(o: Option<Entry>, current: nat, earlier: nat): World {
    if In(o, HalfOpen) then World(o, current, earlier) else World(o, 0, earlier + current)
  }

  function Next(c: Config, w: World, a: Action): World
    requires Enabled(w, a)
  {
    var (o, reply) := Step(c, w.entry, InputOf(a));
    match a
    case Call(_) =>
      if reply != Granted then World(o, w.current, w.earlier)
      else if In(w.entry, Open) then World(o, 1, w.earlier + w.current)
      else Settle(o, w.current + 1, w.earlier)
    case Finish(ofEpisode, _, _) =>
      if ofEpisode then Settle(o, w.current - 1, w.earlier) else Settle(o, w.current, w.earlier - 1)
    case _ => Settle(o, w.current, w.earlier)
  }

  /** The world after `acts`, or `None` when some call was marked that was not outstanding. */
  function Reach(c: Config, w: World, acts: seq<Action>): Option<World> {
    if acts == [] then Some(w)
    else
      var p := Reach(c, w, acts[..|acts| - 1]);
      var a := acts[|acts| - 1];
      if p.Some? && Enabled(p.value, a) then Some(Next(c, p.value, a)) else None
  }

  const START := World(None, 0, 0)

  ghost predicate Reachable(c: Config, w: World) {
    exists acts :: Reach(c, START, acts) == Some(w)
  }

  /** Half-open, nobody left to end the episode, and the next call is refused. */
  predicate Wedged(c: Config, w: World) {
    In(w.entry, HalfOpen) && w.current == 0 && w.entry.value.halfOpenCounter >= c.halfOpenMaxCall
  }

  predicate Live(c: Config) {
    c.halfOpenMaxCall >= 1 && Scale(c.halfOpenMaxCall, c.halfOpenSuccess) <= (c.halfOpenMaxCall + 1) as real
  }

  lemma ReachNothing(c: Config, w: World)
    ensures Reach(c, w, []) == Some(w)
  {
  }

  lemma ReachSnoc(c: Config, w: World, acts: seq<Action>, a: Action)
    ensures Reach(c, w, acts + [a]) ==
            var p := Reach(c, w, acts);
            if p.Some? && Enabled(p.value, a) then Some(Next(c, p.value, a)) else None
  {
    assert (acts + [a])[..|acts|] == acts;
  }

  lemma {:induction false} ReachConcat(c: Config, w: World, first: seq<Action>, rest: seq<Action>)
    requires Reach(c, w, first).Some?
    ensures Reach(c, w, first + rest) == Reach(c, Reach(c, w, first).value, rest)
  {
    if rest == [] {
      assert first + rest == first;
    } else {
      var front, a := rest[..|rest| - 1], rest[|rest| - 1];
      assert first + rest == (first + front) + [a];
      ReachConcat(c, w, first, front);
      ReachSnoc(c, w, first + front, a);
    }
  }

  /** What every reachable world keeps: successes of the episode cover its marked calls, and an
      episode with all its calls marked still has room. */
  predicate Sound(c: Config, w: World) {
    && (w.entry.Some? ==> WellFormed(c, w.entry.value))
    && (In(w.entry, HalfOpen) ==>
          var e := w.entry.value;
          && e.halfOpenSuccess >= e.halfOpenCalls + 1 - w.current
          && (w.current == 0 ==> e.halfOpenCalls < c.halfOpenMaxCall))
    && (!In(w.entry, HalfOpen) ==> w.current == 0)
  }

  /** A full episode whose calls all succeeded meets a live threshold. */
  lemma FullEpisodeCloses(c: Config, e: Entry, now: int)
    requires Live(c) && WellFormed(c, e) && e.state == HalfOpen
    requires e.halfOpenCalls == c.halfOpenMaxCall && e.halfOpenSuccess >= e.halfOpenCalls
    ensures SuccessEntry(c, e, now).state == Closed
  {
    RateByProduct(e.halfOpenSuccess + 1, e.halfOpenCalls, c.halfOpenSuccess);
  }

  lemma RateByProduct(successes: int, calls: int, rate: real)
    requires calls > 0
    ensures RateMet(successes, calls, rate) <==> Scale(calls, rate) <= successes as real
  {
    DivideThrough(successes as real, calls as real, rate);
  }

  lemma SoundStep(c: Config, w: World, a: Action)
    requires Live(c) && Sound(c, w) && Enabled(w, a)
    ensures Sound(c, Next(c, w, a))
  {
    StepKeepsWellFormed(c, w.entry, InputOf(a));
    if In(w.entry, HalfOpen) && a.Finish? && a.success && w.entry.value.halfOpenCalls == c.halfOpenMaxCall
       && w.entry.value.halfOpenSuccess >= w.entry.value.halfOpenCalls {
      FullEpisodeCloses(c, w.entry.value, a.now);
    }
  }

  lemma {:induction false} SoundRun(c: Config, acts: seq<Action>)
    requires Live(c)
    ensures var w := Reach(c, START, acts); w.Some? ==> Sound(c, w.value)
  {
    if acts == [] {
    } else {
      SoundRun(c, acts[..|acts| - 1]);
      var p := Reach(c, START, acts[..|acts| - 1]);
      if p.Some? && Enabled(p.value, acts[|acts| - 1]) {
        SoundStep(c, p.value, acts[|acts| - 1]);
      }
    }
  }

  // The converse: with any other configuration a wedged world is reachable.

  function Repeat(a: Action, n: nat): seq<Action> {
    if n == 0 then [] else Repeat(a, n - 1) + [a]
  }

  function Failures(n: nat): seq<Action> {
    if n == 0 then [] else Failures(n - 1) + [Call(0), Finish(false, false, 0)]
  }

  lemma ReachTwo(c: Config, w: World, acts: seq<Action>, a: Action, b: Action)
    requires Reach(c, w, acts).Some? && Enabled(Reach(c, w, acts).value, a)
    requires Enabled(Next(c, Reach(c, w, acts).value, a), b)
    ensures Reach(c, w, acts + [a, b]) == Some(Next(c, Next(c, Reach(c, w, acts).value, a), b))
  {
    ReachSnoc(c, w, acts, a);
    ReachSnoc(c, w, acts + [a], b);
    assert acts + [a] + [b] == acts + [a, b];
  }

  function Failing(n: nat): World {
    if n == 0 then START else World(Some(Fresh(0).(consecutiveError := n)), 0, 0)
  }

  lemma OneMoreFailure(c: Config, n: nat)
    requires n < Max(1, c.threshold)
    ensures var w := Next(c, Failing(n), Call(0));
            && Enabled(w, Finish(false, false, 0))
            && var v := Next(c, w, Finish(false, false, 0));
            && v.current == v.earlier == 0
            && if n + 1 < Max(1, c.threshold) then v == Failing(n + 1) else In(v.entry, Open)
  {
    var w := Next(c, Failing(n), Call(0));
    assert w.entry == Some(Fresh(0).(consecutiveError := n)) && w.current == 0 && w.earlier == 1;
  }

  lemma {:induction false} FailuresAccumulate(c: Config, n: nat)
    requires n < Max(1, c.threshold)
    ensures Reach(c, START, Failures(n)) == Some(Failing(n))
  {
    if n == 0 {
    } else {
      FailuresAccumulate(c, n - 1);
      OneMoreFailure(c, n - 1);
      ReachTwo(c, START, Failures(n - 1), Call(0), Finish(false, false, 0));
    }
  }

  lemma FailuresOpen(c: Config) returns (w: World)
    ensures Reach(c, START, Failures(Max(1, c.threshold))) == Some(w)
    ensures In(w.entry, Open) && w.current == w.earlier == 0
  {
    var n := Max(1, c.threshold);
    FailuresAccumulate(c, n - 1);
    OneMoreFailure(c, n - 1);
    ReachTwo(c, START, Failures(n - 1), Call(0), Finish(false, false, 0));
    w := Next(c, Next(c, Failing(n - 1), Call(0)), Finish(false, false, 0));
  }

  predicate Probing(w: World, calls: nat, successes: nat) {
    && In(w.entry, HalfOpen)
    && w.entry.value.halfOpenCounter == w.entry.value.halfOpenCalls == calls
    && w.entry.value.halfOpenSuccess == successes
    && w.current == calls + 1 - successes && w.earlier == 0
  }

  lemma ProbeCall(c: Config, w: World, n: nat, now: int)
    requires Probing(w, n, 0) && n < c.halfOpenMaxCall
    ensures Probing(Next(c, w, Call(now)), n + 1, 0)
  {
  }

  lemma {:induction false} CallsFill(c: Config, w: World, n: nat, now: int)
    requires Probing(w, 0, 0) && n <= Max(0, c.halfOpenMaxCall)
    ensures var r := Reach(c, w, Repeat(Call(now), n)); r.Some? && Probing(r.value, n, 0)
  {
    hide Next, Probing, Reach;
    if n == 0 {
      ReachNothing(c, w);
    } else {
      CallsFill(c, w, n - 1, now);
      var acts := Repeat(Call(now), n - 1);
      ProbeCall(c, Reach(c, w, acts).value, n - 1, now);
      ReachSnoc(c, w, acts, Call(now));
    }
  }

  lemma ShortOfRate(c: Config, e: Entry, now: int)
    requires e.state == HalfOpen
    requires e.halfOpenCalls > 0 ==> Scale(e.halfOpenCalls, c.halfOpenSuccess) > (e.halfOpenSuccess + 1) as real
    ensures SuccessEntry(c, e, now) ==
            e.(lastAccess := now, consecutiveError := 0, halfOpenSuccess := e.halfOpenSuccess + 1)
  {
    if e.halfOpenCalls > 0 {
      RateByProduct(e.halfOpenSuccess + 1, e.halfOpenCalls, c.halfOpenSuccess);
    }
  }

  lemma ProbeSuccess(c: Config, w: World, calls: nat, n: nat, now: int)
    requires Probing(w, calls, n) && n <= calls
    requires calls > 0 ==> Scale(calls, c.halfOpenSuccess) > (calls + 1) as real
    ensures Enabled(w, Finish(true, true, now)) && Probing(Next(c, w, Finish(true, true, now)), calls, n + 1)
  {
    hide Scale, RateMet;
    ShortOfRate(c, w.entry.value, now);
  }

  lemma {:induction false} SuccessesFallShort(c: Config, w: World, calls: nat, n: nat, now: int)
    requires Probing(w, calls, 0) && n <= calls + 1
    requires calls > 0 ==> Scale(calls, c.halfOpenSuccess) > (calls + 1) as real
    ensures var r := Reach(c, w, Repeat(Finish(true, true, now), n)); r.Some? && Probing(r.value, calls, n)
  {
    hide Next, Probing, Scale, Reach;
    if n == 0 {
      ReachNothing(c, w);
    } else {
      SuccessesFallShort(c, w, calls, n - 1, now);
      var acts := Repeat(Finish(true, true, now), n - 1);
      ProbeSuccess(c, Reach(c, w, acts).value, calls, n - 1, now);
      ReachSnoc(c, w, acts, Finish(true, true, now));
    }
  }

  ghost predicate AllAtTime(acts: seq<Action>, now: int) {
    forall i :: 0 <= i < |acts| ==> InputOf(acts[i]).now == now
  }

  ghost predicate RunningClock(acts: seq<Action>) {
    forall i, j :: 0 <= i < j < |acts| ==> InputOf(acts[i]).now <= InputOf(acts[j]).now
  }

  lemma {:induction false} FailuresAtZero(n: nat)
    ensures AllAtTime(Failures(n), 0)
  {
    if n == 0 {
    } else {
      FailuresAtZero(n - 1);
    }
  }

  lemma {:induction false} RepeatedTime(a: Action, n: nat)
    ensures AllAtTime(Repeat(a, n), InputOf(a).now)
  {
    if n == 0 {
    } else {
      RepeatedTime(a, n - 1);
    }
  }

  /** The first probe comes at `now`, after the deadline. */
  lemma ProbeStarts(c: Config) returns (now: int, w: World)
    ensures now >= 0 && Reach(c, START, Failures(Max(1, c.threshold)) + [Call(now)]) == Some(w) && Probing(w, 0, 0)
  {
    var tripped := FailuresOpen(c);
    var first := Failures(Max(1, c.threshold));
    now := Max(0, tripped.entry.value.openUntil + 1);
    ReachSnoc(c, START, first, Call(now));
    w := Next(c, tripped, Call(now));
  }

  lemma ProbeFillsAndSucceeds(c: Config, w0: World, now: int) returns (acts: seq<Action>, w: World)
    requires !Live(c) && Probing(w0, 0, 0)
    ensures Reach(c, w0, acts) == Some(w) && AllAtTime(acts, now)
    ensures Probing(w, Max(0, c.halfOpenMaxCall), Max(0, c.halfOpenMaxCall) + 1)
  {
    var m := Max(0, c.halfOpenMaxCall);
    var calls, marks := Repeat(Call(now), m), Repeat(Finish(true, true, now), m + 1);
    CallsFill(c, w0, m, now);
    var w1 := Reach(c, w0, calls).value;
    SuccessesFallShort(c, w1, m, m + 1, now);
    ReachConcat(c, w0, calls, marks);
    RepeatedTime(Call(now), m);
    RepeatedTime(Finish(true, true, now), m + 1);
    acts, w := calls + marks, Reach(c, w1, marks).value;
  }

  lemma WedgeExists(c: Config) returns (acts: seq<Action>, w: World)
    requires !Live(c)
    ensures Reach(c, START, acts) == Some(w) && RunningClock(acts) && Wedged(c, w) && w.earlier == 0
  {
    var now, w0 := ProbeStarts(c);
    var first := Failures(Max(1, c.threshold));
    var more;
    more, w := ProbeFillsAndSucceeds(c, w0, now);
    ReachConcat(c, START, first + [Call(now)], more);
    FailuresAtZero(Max(1, c.threshold));
    acts := first + [Call(now)] + more;
  }

  /** A breaker whose admitted calls are each marked once can wedge in half-open exactly when it
      allows no counted probe, or asks for a success rate that a full episode cannot reach. So it is
      also on a clock that does not run back. */
  lemma NeverWedgesIffLive(c: Config)
    ensures (forall w :: Reachable(c, w) ==> !Wedged(c, w)) <==> Live(c)
    ensures (forall acts, w :: RunningClock(acts) && Reach(c, START, acts) == Some(w) ==> !Wedged(c, w)) <==> Live(c)
  {
    if Live(c) {
      forall acts, w | Reach(c, START, acts) == Some(w) ensures !Wedged(c, w) {
        SoundRun(c, acts);
      }
    } else {
      var acts, w := WedgeExists(c);
    }
  }

  /** A wedge with nothing outstanding is permanent: short of a reset no later call is admitted,
      and the record is never evicted. */
  lemma {:induction false} WedgeIsPermanent(c: Config, w: World, acts: seq<Action>)
    requires Wedged(c, w) && w.earlier == 0
    requires forall i :: 0 <= i < |acts| ==> !acts[i].Clear?
    ensures var r := Reach(c, w, acts); r.Some? ==> Wedged(c, r.value) && r.value.earlier == 0
    ensures var r := Reach(c, w, acts);
            r.Some? ==> forall now :: Step(c, r.value.entry, Input(Allow, now)).1 == Refused
  {
    if acts == [] {
    } else {
      WedgeIsPermanent(c, w, acts[..|acts| - 1]);
    }
  }
}
