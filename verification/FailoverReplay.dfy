/** An Execute seen through its picks: the picks alone, replayed one by one, give the statuses,
    the breaker records and the detector state that the loop leaves. What every run keeps is then
    proved pick by pick. */
module FailoverReplay {
  import opened Types
  import opened Retry
  import opened InstanceManagement
  import opened Failover
  import CB = Breaker
  import HD = HealthDetector

  /** The detector answers as TimeoutDetector does for some outcome of each dial. */
  ghost predicate Dials(t: HD.Thresholds, env: Env) {
    forall a, i: Instance, d :: DialAnswer(t, d, i.id, env.detect(a, i, d))
  }

  predicate DialAnswer(t: HD.Thresholds, d: HD.Detector, id: string, x: HD.Detection) {
    x == HD.Dialed(t, d, id, x.err)
  }

  function AllowEvent(env: Env, a: nat, k: Pick): CB.Event {
    Call(CB.Allow, k.instance.id, env.now(2 * a))
  }

  predicate Admitted(c: Config, env: Env, s: Sys, a: nat, k: Pick) {
    CB.Step(c.breaker, CB.Lookup(s.breakers, k.instance.id), AllowEvent(env, a, k).input).1 == CB.Granted
  }

  /** The state after the admission check and the detection of attempt `a`. */
  function Probed(c: Config, env: Env, s: Sys, a: nat, k: Pick): Sys {
    Sys(s.manager, CB.StepAll(c.breaker, s.breakers, AllowEvent(env, a, k)),
        env.detect(a, k.instance, s.detector).detector)
  }

  function ReplayPick(c: Config, env: Env, s: Sys, a: nat, k: Pick): Sys {
    match k.verdict
    case Repeat => s.(manager := SetStatus(s.manager, k.instance.id, Unhealthy))
    case Refused => s.(breakers := CB.StepAll(c.breaker, s.breakers, AllowEvent(env, a, k)))
    case Served => AfterSuccess(c, Probed(c, env, s, a, k), k.instance.id, env.now(2 * a + 1))
    case _ => AfterFailure(c, Probed(c, env, s, a, k), k.instance.id, env.now(2 * a + 1))
  }

  /** Pick `k` is what attempt `a` finds in state `s`. */
  predicate Legit(c: Config, env: Env, s: Sys, a: nat, k: Pick) {
    var d := env.detect(a, k.instance, s.detector);
    && k.instance in s.manager.instances
    && Usable(s.manager.statusMap, k.instance.id)
    && match k.verdict
       case Repeat => true
       case Refused => !Admitted(c, env, s, a, k)
       case Unwell(_) => Admitted(c, env, s, a, k) && !HD.FoundHealthy(d)
       case Failed(e) => Admitted(c, env, s, a, k) && HD.FoundHealthy(d) && env.operation(a, k.instance) == Some(e)
       case Served => Admitted(c, env, s, a, k) && HD.FoundHealthy(d) && env.operation(a, k.instance) == None
  }

  function Replay(c: Config, env: Env, s: Sys, picks: seq<Pick>): Sys {
    if picks == [] then s
    else ReplayPick(c, env, Replay(c, env, s, picks[..|picks| - 1]), |picks| - 1, picks[|picks| - 1])
  }

  predicate LegitRun(c: Config, env: Env, s: Sys, picks: seq<Pick>) {
    picks == [] ||
    (LegitRun(c, env, s, picks[..|picks| - 1]) &&
     Legit(c, env, Replay(c, env, s, picks[..|picks| - 1]), |picks| - 1, picks[|picks| - 1]))
  }

  /** Equal but for the round-robin position. */
  predicate Same(x: Sys, y: Sys) {
    && x.breakers == y.breakers && x.detector == y.detector
    && x.manager.instances == y.manager.instances && x.manager.statusMap == y.manager.statusMap
  }

  predicate Replays(c: Config, env: Env, s0: Sys, p: Progress) {
    Same(p.sys, Replay(c, env, s0, p.picks)) && LegitRun(c, env, s0, p.picks)
  }

  lemma ReplaySnoc(c: Config, env: Env, s0: Sys, picks: seq<Pick>, k: Pick)
    ensures Replay(c, env, s0, picks + [k]) == ReplayPick(c, env, Replay(c, env, s0, picks), |picks|, k)
    ensures LegitRun(c, env, s0, picks + [k]) <==>
            LegitRun(c, env, s0, picks) && Legit(c, env, Replay(c, env, s0, picks), |picks|, k)
  {
    assert (picks + [k])[..|picks|] == picks;
  }

  lemma TryIsAPick(c: Config, env: Env, a: nat, p: Progress, i: Instance) returns (k: Pick)
    requires i in p.sys.manager.instances && Usable(p.sys.manager.statusMap, i.id)
    ensures var q := Try(c, env, a, p, i).p;
            && k.instance == i && q.picks == p.picks + [k]
            && Legit(c, env, p.sys, a, k) && q.sys == ReplayPick(c, env, p.sys, a, k)
  {
    hide CB.Step, CB.StepAll, HD.AfterFailure, HD.AfterSuccess;
    var q := Try(c, env, a, p, i).p;
    k := q.picks[|p.picks|];
  }

  lemma SameReplay(c: Config, env: Env, x: Sys, y: Sys, a: nat, k: Pick)
    requires Same(x, y)
    ensures Legit(c, env, x, a, k) == Legit(c, env, y, a, k)
    ensures Same(ReplayPick(c, env, x, a, k), ReplayPick(c, env, y, a, k))
  {
    hide CB.Step, CB.StepAll, HD.AfterFailure, HD.AfterSuccess;
  }

  lemma ChooseReplays(c: Config, env: Env, n: nat, s0: Sys, p: Progress)
    requires Replays(c, env, s0, p)
    ensures var q := Choose(c, env, n, |p.picks|, p).p;
            Replays(c, env, s0, q)
    ensures var o := Choose(c, env, n, |p.picks|, p); o.Going? ==> |o.p.picks| == |p.picks| + 1
  {
    hide Try, Select, ReplayPick, Legit;
    var a := |p.picks|;
    SelectionIsUsable(p.sys.manager, c.strategy, env.choose(a));
    var s := Select(p.sys.manager, c.strategy, env.choose(a));
    if s.Selected? {
      var q := p.(sys := p.sys.(manager := s.manager));
      var k;
      if s.instance.id !in p.tried {
        k := TryIsAPick(c, env, a, q, s.instance);
      } else {
        k := Pick(s.instance, Repeat);
        RepeatIsAPick(c, env, q.sys, a, k);
      }
      SameReplay(c, env, q.sys, Replay(c, env, s0, p.picks), a, k);
      ReplaySnoc(c, env, s0, p.picks, k);
    }
  }

  lemma RepeatIsAPick(c: Config, env: Env, s: Sys, a: nat, k: Pick)
    requires k.verdict == Repeat && k.instance in s.manager.instances && Usable(s.manager.statusMap, k.instance.id)
    ensures Legit(c, env, s, a, k)
    ensures ReplayPick(c, env, s, a, k) == s.(manager := SetStatus(s.manager, k.instance.id, Unhealthy))
  {
  }

  lemma IterateReplays(c: Config, env: Env, n: nat, s0: Sys, p: Progress)
    requires Replays(c, env, s0, p)
    ensures var o := Iterate(c, env, n, |p.picks|, p);
            Replays(c, env, s0, o.p) && (o.Going? ==> |o.p.picks| == |p.picks| + 1)
  {
    hide Choose, NextBackoff, ShouldRetry, Replay, LegitRun, Same;
    var a := |p.picks|;
    var q := if a == 0 then p
             else p.(retryCount := p.retryCount + 1, sleeps := p.sleeps + [NextBackoff(c.policy, a, env.random(a))]);
    ChooseReplays(c, env, n, s0, q);
  }

  lemma {:induction false} LoopReplays(c: Config, env: Env, n: nat, s0: Sys, p: Progress)
    requires Replays(c, env, s0, p)
    ensures Replays(c, env, s0, Loop(c, env, n, |p.picks|, p).p)
    decreases c.policy.maxAttempts + 1 - |p.picks|
  {
    hide Iterate, Replays;
    if |p.picks| > c.policy.maxAttempts {
    } else {
      IterateReplays(c, env, n, s0, p);
      var o := Iterate(c, env, n, |p.picks|, p);
      if o.Going? {
        LoopReplays(c, env, n, s0, o.p);
      }
    }
  }

  /** The state in which the loop starts, or the untouched state when the context is cancelled. */
  function Start(env: Env, s: Sys, instances: seq<Instance>): Sys {
    if env.cancelled(0) then s else Begin(s, instances).sys
  }

  /** Every Execute is the replay of its picks, and every pick is what its attempt found. */
  lemma ExecuteReplays(c: Config, env: Env, s: Sys, instances: seq<Instance>)
    requires env.cancelled(0) ==> instances != []
    ensures var r := Executed(c, env, s, instances);
            && LegitRun(c, env, Start(env, s, instances), r.picks)
            && Same(r.sys, Replay(c, env, Start(env, s, instances), r.picks))
  {
    hide Loop;
    if !env.cancelled(0) && instances != [] {
      LoopReplays(c, env, |instances|, Start(env, s, instances), Begin(s, instances));
    }
  }

  // Runs of several Executes, with cleanup ticks of the breaker in between.

  datatype Task = Serve(env: Env, instances: seq<Instance>) | Tick(now: int)

  predicate Permitted(t: Task) {
    t.Serve? && t.env.cancelled(0) ==> t.instances != []
  }

  function Perform(c: Config, s: Sys, t: Task): Sys
    requires Permitted(t)
  {
    match t
    case Serve(env, instances) => Executed(c, env, s, instances).sys
    case Tick(now) => s.(breakers := CB.Sweep(c.breaker, s.breakers, now))
  }

  function PicksOf(c: Config, s: Sys, t: Task): seq<Pick>
    requires Permitted(t)
  {
    match t
    case Serve(env, instances) => Executed(c, env, s, instances).picks
    case Tick(_) => []
  }

  ghost predicate AllPermitted(tasks: seq<Task>) {
    forall k :: 0 <= k < |tasks| ==> Permitted(tasks[k])
  }

  function PerformAll(c: Config, s: Sys, tasks: seq<Task>): Sys
    requires AllPermitted(tasks)
  {
    if tasks == [] then s
    else Perform(c, PerformAll(c, s, tasks[..|tasks| - 1]), tasks[|tasks| - 1])
  }

  /** The picks of the last task. */
  function LastPicks(c: Config, s: Sys, tasks: seq<Task>): seq<Pick>
    requires AllPermitted(tasks) && tasks != []
  {
    PicksOf(c, PerformAll(c, s, tasks[..|tasks| - 1]), tasks[|tasks| - 1])
  }

  const FRESH := Sys(Manager([], map[], 0), map[], HD.EMPTY)
}
