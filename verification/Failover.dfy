/** DefaultFailoverHandler of cluster/failover/failover.go: the retry loop that drives the instance
    manager, the circuit breaker and the detector.

    Everything outside the package is an oracle in `Env`: the clock, cancellation, random numbers,
    what a detector finds and what the caller's operation returns, each for every attempt. */
module Failover {
  import opened Types
  import opened Retry
  import opened InstanceManagement
  import CB = Breaker
  import HD = HealthDetector

  datatype Config = Config(policy: Policy, strategy: string, breaker: CB.Config, thresholds: HD.Thresholds)

  /** `cancelled(0)`: the context is cancelled on entry; `cancelled(a)`: it is cancelled while
      attempt `a` waits. The breaker reads the clock at `now(2a)` and is marked at `now(2a + 1)`. */
  datatype Env = Env(
    cancelled: nat -> bool,
    cause: Error,
    now: nat -> int,
    choose: nat -> nat,
    random: nat -> real,
    detect: (nat, Instance, HD.Detector) -> HD.Detection,
    operation: (nat, Instance) -> Option<Error>)

  datatype Sys = Sys(manager: Manager, breakers: map<string, CB.Entry>, detector: HD.Detector)

  /** What became of one selected instance. */
  datatype Verdict = Repeat | Refused | Unwell(err: Error) | Failed(err: Error) | Served
  {
    /** The operation ran. */
    predicate Ran() { Failed? || Served? }

    /** The instance was marked failed. */
    predicate Lost() { Unwell? || Failed? }
  }

  datatype Pick = Pick(instance: Instance, verdict: Verdict)

  /** The loop's variables, with the selections and the waits made so far. */
  datatype Progress = Progress(sys: Sys, retryCount: nat, lastErr: Option<Error>, tripped: bool,
                               tried: set<string>, failedNodes: seq<string>, picks: seq<Pick>, sleeps: seq<int>)

  datatype Outcome = Going(p: Progress) | Stopped(p: Progress) | Cancelled(p: Progress)
                   | Won(p: Progress, instance: Instance)

  datatype Result = Result(success: bool, instance: Option<Instance>, retryCount: nat,
                           failedNodes: seq<string>, error: Option<Error>)

  datatype Report = Report(sys: Sys, result: Result, err: Option<Error>, picks: seq<Pick>, sleeps: seq<int>)

  function SetStatus(m: Manager, id: string, s: Status): Manager {
    m.(statusMap := m.statusMap[id := s])
  }

  function Call(op: CB.Op, id: string, now: int): CB.Event {
    CB.Event(id, CB.Input(op, now))
  }

  /** handleFailure */
  function AfterFailure(c: Config, s: Sys, id: string, now: int): Sys {
    Sys(SetStatus(s.manager, id, Unhealthy),
        CB.StepAll(c.breaker, s.breakers, Call(CB.MarkFailure, id, now)),
        HD.AfterFailure(c.thresholds, s.detector, id))
  }

  /** handleSuccess */
  function AfterSuccess(c: Config, s: Sys, id: string, now: int): Sys {
    Sys(SetStatus(s.manager, id, Healthy),
        CB.StepAll(c.breaker, s.breakers, Call(CB.MarkSuccess, id, now)),
        HD.AfterSuccess(c.thresholds, s.detector, id))
  }

  function Failing(p: Progress, s: Sys, i: Instance, v: Verdict, e: Error): Progress {
    p.(sys := s, lastErr := Some(e), failedNodes := p.failedNodes + [i.address], picks := p.picks + [Pick(i, v)])
  }

  /** One attempt on an instance that was not tried before. */
  function Try(c: Config, env: Env, a: nat, p0: Progress, i: Instance): Outcome {
    var p := p0.(tried := p0.tried + {i.id});
    var allow := Call(CB.Allow, i.id, env.now(2 * a));
    var reply := CB.Step(c.breaker, CB.Lookup(p.sys.breakers, i.id), allow.input).1;
    var s := p.sys.(breakers := CB.StepAll(c.breaker, p.sys.breakers, allow));
    if reply != CB.Granted then
      Going(Failing(p, s, i, Refused, ErrCircuitOpen).(tripped := true))
    else
      var d := env.detect(a, i, s.detector);
      var s1 := s.(detector := d.detector);
      var later := env.now(2 * a + 1);
      if d.err.Some? || d.status != Healthy then
        var e := if d.err.Some? then d.err.value else ErrServiceUnavailable;
        Going(Failing(p, AfterFailure(c, s1, i.id, later), i, Unwell(e), e))
      else
        match env.operation(a, i)
        case Some(e) => Going(Failing(p, AfterFailure(c, s1, i.id, later), i, Failed(e), e))
        case None =>
          Won(p.(sys := AfterSuccess(c, s1, i.id, later), picks := p.picks + [Pick(i, Served)]), i)
  }

  /** Selecting an instance and trying it, for a list of `n` instances. */
  function Choose(c: Config, env: Env, n: nat, a: nat, p: Progress): Outcome {
    match Select(p.sys.manager, c.strategy, env.choose(a))
    case NothingUsable => Stopped(p.(lastErr := Some(ErrNoAvailableInstances)))
    case Selected(m, i) =>
      var q := p.(sys := p.sys.(manager := m));
      if i.id !in p.tried then Try(c, env, a, q, i)
      else if |p.tried| >= n then Stopped(q)
      else Going(q.(sys := q.sys.(manager := SetStatus(m, i.id, Unhealthy)), picks := q.picks + [Pick(i, Repeat)]))
  }

  /** One iteration of the loop. */
  function Iterate(c: Config, env: Env, n: nat, a: nat, p: Progress): Outcome {
    if a == 0 then Choose(c, env, n, a, p)
    else
      var q := p.(retryCount := p.retryCount + 1);
      if !ShouldRetry(c.policy, a, p.lastErr) then Stopped(q)
      else
        var w := q.(sleeps := q.sleeps + [NextBackoff(c.policy, a, env.random(a))]);
        if env.cancelled(a) then Cancelled(w) else Choose(c, env, n, a, w)
  }

  function Loop(c: Config, env: Env, n: nat, a: nat, p: Progress): Outcome
    decreases c.policy.maxAttempts + 1 - a
  {
    if a > c.policy.maxAttempts then Stopped(p)
    else
      match Iterate(c, env, n, a, p)
      case Going(q) => Loop(c, env, n, a + 1, q)
      case o => o
  }

  function FirstUntried(instances: seq<Instance>, tried: set<string>): (r: Option<Instance>)
    ensures r.None? <==> forall i :: i in instances ==> i.id in tried
    ensures r.Some? ==> exists k :: 0 <= k < |instances| && r.value == instances[k] && instances[k].id !in tried
                                    && forall j :: 0 <= j < k ==> instances[j].id in tried
  {
    if instances == [] then None
    else if instances[0].id !in tried then Some(instances[0])
    else FirstUntried(instances[1..], tried)
  }

  function Begin(s: Sys, instances: seq<Instance>): Progress {
    var m := Manager(instances, Relisted(s.manager.statusMap, instances), s.manager.nextIndex);
    Progress(s.(manager := m), 0, None, false, {}, [], [], [])
  }

  function Conclude(c: Config, env: Env, instances: seq<Instance>, o: Outcome): Report
    requires instances != []
  {
    var p := o.p;
    if o.Won? then
      Report(p.sys, Result(true, Some(o.instance), p.retryCount, p.failedNodes, None), None, p.picks, p.sleeps)
    else if o.Cancelled? then
      Report(p.sys, Result(false, None, p.retryCount, p.failedNodes, None), Some(env.cause), p.picks, p.sleeps)
    else
      var untried := FirstUntried(instances, p.tried);
      var shown := if untried.Some? then untried else Some(instances[0]);
      var err :=
        if p.tripped then Some(ErrCircuitOpen)
        else if p.retryCount >= c.policy.maxAttempts then Some(ErrMaxRetriesExceeded)
        else p.lastErr;
      Report(p.sys, Result(false, shown, p.retryCount, p.failedNodes, p.lastErr), err, p.picks, p.sleeps)
  }

  /** Execute. On a cancelled context the source reads `instances[0]`, so a list is required there. */
  function Executed(c: Config, env: Env, s: Sys, instances: seq<Instance>): Report
    requires env.cancelled(0) ==> instances != []
  {
    if env.cancelled(0) then
      Report(s, Result(false, Some(instances[0]), 0, [], None), Some(env.cause), [], [])
    else if instances == [] then
      Report(Begin(s, instances).sys, Result(false, None, 0, [], None), Some(ErrNoAvailableInstances), [], [])
    else
      Conclude(c, env, instances, Loop(c, env, |instances|, 0, Begin(s, instances)))
  }

  /** How one pass through the loop body ends. */
  datatype Exit = Continue | Break | Return(winner: Instance)

  class FailoverHandler {
    const config: Config
    const manager: InstanceManager
    const breaker: CB.SimpleCircuitBreaker
    const detector: HD.BaseDetector

    ghost predicate Valid() {
      breaker.config == config.breaker && detector.thresholds == config.thresholds
    }

    ghost function Model(): Sys
      reads manager, breaker, detector
    {
      Sys(manager.Model(), breaker.instances, detector.Model())
    }

    constructor (config: Config)
      ensures Valid() && this.config == config
      ensures Model() == Sys(Manager([], map[], 0), map[], HD.EMPTY)
      ensures fresh(manager) && fresh(breaker) && fresh(detector)
    {
      this.config := config;
      manager := new InstanceManager([]);
      breaker := new CB.SimpleCircuitBreaker(config.breaker);
      detector := new HD.BaseDetector(config.thresholds);
    }

    method HandleFailure(id: string, now: int)
      requires Valid()
      modifies manager, breaker, detector
      ensures Model() == AfterFailure(config, old(Model()), id, now)
    {
      detector.MarkFailed(id);
      breaker.RecordFailure(id, now);
      manager.MarkInstanceStatus(id, Unhealthy);
    }

    method HandleSuccess(id: string, now: int)
      requires Valid()
      modifies manager, breaker, detector
      ensures Model() == AfterSuccess(config, old(Model()), id, now)
    {
      detector.MarkSucceeded(id);
      breaker.RecordSuccess(id, now);
      manager.MarkInstanceStatus(id, Healthy);
    }

    method Execute(env: Env, instances: seq<Instance>)
      returns (result: Result, err: Option<Error>, ghost picks: seq<Pick>, ghost sleeps: seq<int>)
      requires Valid()
      requires env.cancelled(0) ==> instances != []
      modifies manager, breaker, detector
      ensures Report(Model(), result, err, picks, sleeps) == Executed(config, env, old(Model()), instances)
    {
      hide Choose, NextBackoff, ShouldRetry, FirstUntried;
      picks, sleeps := [], [];
      if env.cancelled(0) {
        return Result(false, Some(instances[0]), 0, [], None), Some(env.cause), picks, sleeps;
      }
      manager.UpdateInstances(instances);
      if instances == [] {
        return Result(false, None, 0, [], None), Some(ErrNoAvailableInstances), picks, sleeps;
      }

      var retryCount, failedNodes, lastErr, tripped := 0, [], None, false;
      var tried: set<string> := {};
      var n, attempt := |instances|, 0;
      ghost var start := Begin(old(Model()), instances);
      ghost var final := Loop(config, env, n, 0, start);
      assert start == Progress(Model(), retryCount, lastErr, tripped, tried, failedNodes, picks, sleeps);
      while attempt <= config.policy.maxAttempts
        invariant final == Loop(config, env, n, attempt,
                                Progress(Model(), retryCount, lastErr, tripped, tried, failedNodes, picks, sleeps))
        decreases config.policy.maxAttempts - attempt
      {
        if attempt > 0 {
          retryCount := retryCount + 1;
          if !ShouldRetry(config.policy, attempt, lastErr) {
            break;
          }
          var backoff := NextBackoff(config.policy, attempt, env.random(attempt));
          sleeps := sleeps + [backoff];
          if env.cancelled(attempt) {
            return Result(false, None, retryCount, failedNodes, None), Some(env.cause), picks, sleeps;
          }
        }
        var exit;
        exit, lastErr, tripped, tried, failedNodes, picks :=
          SelectAndTry(env, n, attempt, lastErr, tripped, tried, failedNodes, retryCount, picks, sleeps);
        if exit.Return? {
          return Result(true, Some(exit.winner), retryCount, failedNodes, None), None, picks, sleeps;
        } else if exit.Break? {
          break;
        }
        attempt := attempt + 1;
      }
      assert final == Stopped(Progress(Model(), retryCount, lastErr, tripped, tried, failedNodes, picks, sleeps));

      result, err := Conclusion(instances, retryCount, failedNodes, lastErr, tripped, tried);
    }

    /** The part of Execute that follows the loop. */
    method Conclusion(instances: seq<Instance>, retryCount: nat, failedNodes: seq<string>, lastErr: Option<Error>,
                      tripped: bool, tried: set<string>)
      returns (result: Result, err: Option<Error>)
      requires instances != []
      ensures forall env, sys, picks, sleeps ::
        Conclude(config, env, instances,
                 Stopped(Progress(sys, retryCount, lastErr, tripped, tried, failedNodes, picks, sleeps)))
        == Report(sys, result, err, picks, sleeps)
    {
      var shown := None;
      for k := 0 to |instances|
        invariant shown == None
        invariant FirstUntried(instances, tried) == FirstUntried(instances[k..], tried)
      {
        if instances[k].id !in tried {
          shown := Some(instances[k]);
          break;
        }
      }
      if shown == None {
        shown := Some(instances[0]);
      }
      result := Result(false, shown, retryCount, failedNodes, lastErr);
      if tripped {
        err := Some(ErrCircuitOpen);
      } else if retryCount >= config.policy.maxAttempts {
        err := Some(ErrMaxRetriesExceeded);
      } else {
        err := lastErr;
      }
    }

    /** The part of the loop body that follows the wait. */
    method SelectAndTry(env: Env, n: nat, a: nat, lastErr0: Option<Error>, tripped0: bool, tried0: set<string>,
                        failed0: seq<string>, ghost retryCount: nat, ghost picks0: seq<Pick>, ghost sleeps: seq<int>)
      returns (exit: Exit, lastErr: Option<Error>, tripped: bool, tried: set<string>, failedNodes: seq<string>,
               ghost picks: seq<Pick>)
      requires Valid()
      modifies manager, breaker, detector
      ensures
        var before := Progress(old(Model()), retryCount, lastErr0, tripped0, tried0, failed0, picks0, sleeps);
        var after := Progress(Model(), retryCount, lastErr, tripped, tried, failedNodes, picks, sleeps);
        Choose(config, env, n, a, before) ==
        match exit case Continue => Going(after) case Break => Stopped(after) case Return(i) => Won(after, i)
    {
      lastErr, tripped, tried, failedNodes, picks, exit := lastErr0, tripped0, tried0, failed0, picks0, Continue;
      var pick := manager.GetInstance(config.strategy, env.choose(a));
      if pick.None? {
        lastErr, exit := Some(ErrNoAvailableInstances), Break;
        return;
      }
      var i := pick.value;
      if i.id in tried {
        if |tried| >= n {
          exit := Break;
          return;
        }
        manager.MarkInstanceStatus(i.id, Unhealthy);
        picks := picks + [Pick(i, Repeat)];
        return;
      }
      var won;
      won, lastErr, tripped, failedNodes, picks :=
        Attempt(env, a, i, lastErr, tripped, failedNodes, retryCount, tried, picks, sleeps);
      tried := tried + {i.id};
      if won {
        exit := Return(i);
      }
    }

    /** The part of the loop body that tries one instance. */
    method Attempt(env: Env, a: nat, i: Instance, lastErr0: Option<Error>, tripped0: bool, failed0: seq<string>,
                   ghost retryCount: nat, ghost tried: set<string>, ghost picks0: seq<Pick>, ghost sleeps: seq<int>)
      returns (won: bool, lastErr: Option<Error>, tripped: bool, failedNodes: seq<string>, ghost picks: seq<Pick>)
      requires Valid()
      modifies manager, breaker, detector
      ensures
        var before := Progress(old(Model()), retryCount, lastErr0, tripped0, tried, failed0, picks0, sleeps);
        var after := Progress(Model(), retryCount, lastErr, tripped, tried + {i.id}, failedNodes, picks, sleeps);
        Try(config, env, a, before, i) == if won then Won(after, i) else Going(after)
    {
      lastErr, tripped, failedNodes, picks, won := lastErr0, tripped0, failed0, picks0, false;
      var allowed := breaker.AllowCall(i.id, env.now(2 * a));
      if !allowed {
        failedNodes, tripped, lastErr := failedNodes + [i.address], true, Some(ErrCircuitOpen);
        picks := picks + [Pick(i, Refused)];
        return;
      }
      var d := env.detect(a, i, HD.Detector(detector.statusMap, detector.failureCount, detector.successCount));
      detector.Restore(d.detector);
      if d.err.Some? || d.status != Healthy {
        HandleFailure(i.id, env.now(2 * a + 1));
        failedNodes := failedNodes + [i.address];
        var e := if d.err.Some? then d.err.value else ErrServiceUnavailable;
        lastErr, picks := Some(e), picks + [Pick(i, Unwell(e))];
        return;
      }
      var e := env.operation(a, i);
      if e.Some? {
        HandleFailure(i.id, env.now(2 * a + 1));
        failedNodes, lastErr, picks := failedNodes + [i.address], e, picks + [Pick(i, Failed(e.value))];
        return;
      }
      HandleSuccess(i.id, env.now(2 * a + 1));
      won, picks := true, picks + [Pick(i, Served)];
    }
  }
}
