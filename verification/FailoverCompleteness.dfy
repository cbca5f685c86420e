/** When failover must find a working instance. */
module FailoverCompleteness {
  import opened Arithmetic
  import opened Types
  import opened Retry
  import opened InstanceManagement
  import opened Failover
  import opened FailoverAccounting
  import opened FailoverReplay
  import CB = Breaker
  import HD = HealthDetector

  ghost predicate DistinctIds(instances: seq<Instance>) {
    forall i, j :: 0 <= i < j < |instances| ==> instances[i].id != instances[j].id
  }

  predicate RoundRobin(strategy: string) {
    strategy != "random" && strategy != "best"
  }

  /** What an attempt on `i` runs into, given the breaker records and the detector state it meets. */
  function Finds(c: Config, env: Env, breakers: map<string, CB.Entry>, d: HD.Detector, a: nat, i: Instance)
    : Option<Error>
  {
    var x := env.detect(a, i, d);
    if CB.Step(c.breaker, CB.Lookup(breakers, i.id), CB.Input(CB.Allow, env.now(2 * a))).1 != CB.Granted then
      Some(ErrCircuitOpen)
    else if x.err.Some? then x.err
    else if x.status != Healthy then Some(ErrServiceUnavailable)
    else env.operation(a, i)
  }

  /** With the records of `i` as in `s`, any attempt on `i` succeeds: the breaker admits it, the
      detector finds it healthy and the operation returns no error. */
  ghost predicate Working(c: Config, env: Env, s: Sys, i: Instance) {
    forall a: nat, d :: HD.SameRecord(d, s.detector, i.id) ==> Finds(c, env, s.breakers, d, a, i) == None
  }

  /** Whatever an attempt on a listed instance runs into, with its records as in `s`, is retried. */
  ghost predicate FailuresAreRetried(c: Config, env: Env, s: Sys, instances: seq<Instance>) {
    forall i, a: nat, d :: i in instances && HD.SameRecord(d, s.detector, i.id) ==>
      var e := Finds(c, env, s.breakers, d, a, i);
      e.Some? ==> Retryable(c.policy, e.value)
  }

  /** Detecting one instance leaves what the detector holds about the others. */
  ghost predicate Local(env: Env) {
    forall a, i: Instance, d, id :: i.id != id ==> HD.SameRecord(env.detect(a, i, d).detector, d, id)
  }

  /** What completeness asks of the environment, but for the length of the list. */
  ghost predicate Promising(c: Config, env: Env, s: Sys, instances: seq<Instance>, g: nat) {
    && (forall b :: !env.cancelled(b))
    && Local(env) && FailuresAreRetried(c, env, s, instances)
    && g < |instances| && Usable(s.manager.statusMap, instances[g].id) && Working(c, env, s, instances[g])
  }

  /** The loop has not touched anything about `id`. */
  predicate Ahead(s0: Sys, p: Progress, id: string) {
    && id !in p.tried
    && CB.Lookup(p.sys.breakers, id) == CB.Lookup(s0.breakers, id)
    && HD.SameRecord(p.sys.detector, s0.detector, id)
  }

  /** Iteration `a` starts with offsets below `off` visited and the rest of the turn, up to the
      working instance at offset `goal`, still ahead. */
  ghost predicate OnCourse(c: Config, s0: Sys, goal: nat, a: nat, off: nat, p: Progress) {
    var m0 := s0.manager;
    && m0.instances != [] && goal < |m0.instances|
    && a <= off <= goal
    && p.sys.manager.instances == m0.instances
    && p.sys.manager.nextIndex % |m0.instances| == At(m0, off)
    && (forall d :: off <= d < |m0.instances| ==> Ahead(s0, p, m0.instances[At(m0, d)].id))
    && Usable(p.sys.manager.statusMap, m0.instances[At(m0, goal)].id)
    && (a > 0 ==> p.lastErr.Some? && Retryable(c.policy, p.lastErr.value))
  }

  /** The next selection is ahead of the visited part and not beyond the working instance. */
  lemma NextIsAhead(m0: Manager, goal: nat, off: nat, w: Manager) returns (d: nat)
    requires off <= goal < |m0.instances| && w.instances == m0.instances
    requires w.nextIndex % |m0.instances| == At(m0, off)
    requires Usable(w.statusMap, m0.instances[At(m0, goal)].id)
    ensures off <= d <= goal && NextPosition(w) == At(m0, d)
    ensures Advanced(w).nextIndex % |m0.instances| == At(m0, d + 1)
  {
    var j := FirstUsable(w, 0);
    AtShift(m0, w, off, goal - off);
    assert j <= goal - off;
    AtShift(m0, w, off, j);
    d := off + j;
    AtNext(m0, d);
  }

  lemma RoundRobinSelects(w: Manager, strategy: string, choice: nat, p: nat)
    requires RoundRobin(strategy) && p < |w.instances| && UsableAt(w, p)
    ensures Select(w, strategy, choice) == Selected(Advanced(w), w.instances[NextPosition(w)])
  {
    SelectionIsUsable(w, strategy, choice);
  }

  lemma TryFinds(c: Config, env: Env, s0: Sys, a: nat, p: Progress, i: Instance)
    requires Ahead(s0, p, i.id)
    ensures var o, e := Try(c, env, a, p, i), Finds(c, env, s0.breakers, p.sys.detector, a, i);
            if e == None then o.Won? else o.Going? && o.p.lastErr == e
  {
    hide CB.Step, CB.StepAll, HD.AfterFailure, HD.AfterSuccess;
  }

  lemma TryKeepsOtherBreakers(c: Config, env: Env, a: nat, p: Progress, i: Instance, id: string)
    requires i.id != id
    ensures CB.Lookup(Try(c, env, a, p, i).p.sys.breakers, id) == CB.Lookup(p.sys.breakers, id)
  {
    hide CB.Step, CB.StepAll, CB.Lookup, HD.AfterFailure, HD.AfterSuccess;
    var allow := Call(CB.Allow, i.id, env.now(2 * a));
    var m := CB.StepAll(c.breaker, p.sys.breakers, allow);
    CB.StepAllIsLocal(c.breaker, p.sys.breakers, allow, id);
    CB.StepAllIsLocal(c.breaker, m, Call(CB.MarkFailure, i.id, env.now(2 * a + 1)), id);
    CB.StepAllIsLocal(c.breaker, m, Call(CB.MarkSuccess, i.id, env.now(2 * a + 1)), id);
  }

  lemma TryKeepsOtherRecords(c: Config, env: Env, a: nat, p: Progress, i: Instance, id: string)
    requires i.id != id && Local(env)
    ensures HD.SameRecord(Try(c, env, a, p, i).p.sys.detector, p.sys.detector, id)
  {
    hide CB.Step, CB.StepAll, CB.Lookup, HD.AfterFailure, HD.AfterSuccess;
    var d := env.detect(a, i, p.sys.detector).detector;
    assert HD.SameRecord(d, p.sys.detector, id);
    HD.MarksAreLocal(c.thresholds, d, i.id, false, id);
    HD.MarksAreLocal(c.thresholds, d, i.id, true, id);
  }

  lemma TryKeepsOthersUsable(c: Config, env: Env, a: nat, p: Progress, i: Instance, id: string)
    requires i.id != id && Usable(p.sys.manager.statusMap, id)
    ensures Usable(Try(c, env, a, p, i).p.sys.manager.statusMap, id)
  {
    hide CB.Step, CB.StepAll, CB.Lookup, HD.AfterFailure, HD.AfterSuccess;
  }

  /** Trying one instance touches no other instance's records. */
  lemma TryIsLocal(c: Config, env: Env, s0: Sys, a: nat, p: Progress, i: Instance, id: string)
    requires i.id != id && Local(env) && Ahead(s0, p, id)
    ensures Ahead(s0, Try(c, env, a, p, i).p, id)
  {
    hide Try, CB.Lookup, Local;
    var k := TryRecords(c, env, a, p, i);
    TryKeepsOtherBreakers(c, env, a, p, i, id);
    TryKeepsOtherRecords(c, env, a, p, i, id);
  }

  lemma StaysOnCourse(c: Config, env: Env, s0: Sys, goal: nat, a: nat, off: nat, p: Progress) returns (next: nat)
    requires OnCourse(c, s0, goal, a, off, p) && DistinctIds(s0.manager.instances) && RoundRobin(c.strategy)
    requires Local(env) && FailuresAreRetried(c, env, s0, s0.manager.instances)
    requires Working(c, env, s0, s0.manager.instances[At(s0.manager, goal)])
    ensures var o := Choose(c, env, |s0.manager.instances|, a, p);
            o.Won? || (o.Going? && OnCourse(c, s0, goal, a + 1, next, o.p))
  {
    hide Try, Select, Finds, FirstUsable, Retryable, CB.Lookup, HD.SameRecord;
    var m0, w := s0.manager, p.sys.manager;
    var d := NextIsAhead(m0, goal, off, w);
    next := d + 1;
    RoundRobinSelects(w, c.strategy, env.choose(a), At(m0, goal));
    var i := m0.instances[At(m0, d)];
    var q := p.(sys := p.sys.(manager := Advanced(w)));
    assert Ahead(s0, p, i.id);
    var k := TryRecords(c, env, a, q, i);
    TryFinds(c, env, s0, a, q, i);
    var o := Try(c, env, a, q, i);
    assert Choose(c, env, |m0.instances|, a, p) == o;
    if o.Going? {
      assert d != goal;
      AtInjective(m0, d, goal);
      TryKeepsOthersUsable(c, env, a, q, i, m0.instances[At(m0, goal)].id);
      forall e | d < e < |m0.instances| ensures Ahead(s0, o.p, m0.instances[At(m0, e)].id) {
        AtInjective(m0, d, e);
        assert Ahead(s0, p, m0.instances[At(m0, e)].id);
        TryIsLocal(c, env, s0, a, q, i, m0.instances[At(m0, e)].id);
      }
    }
  }

  lemma {:induction false} LoopArrives(c: Config, env: Env, s0: Sys, goal: nat, a: nat, off: nat, p: Progress)
    requires OnCourse(c, s0, goal, a, off, p) && DistinctIds(s0.manager.instances) && RoundRobin(c.strategy)
    requires Local(env) && FailuresAreRetried(c, env, s0, s0.manager.instances)
    requires Working(c, env, s0, s0.manager.instances[At(s0.manager, goal)])
    requires c.policy.maxAttempts >= 0 && forall b :: !env.cancelled(b)
    requires |s0.manager.instances| <= Max(1, c.policy.maxAttempts)
    ensures Loop(c, env, |s0.manager.instances|, a, p).Won?
    decreases |s0.manager.instances| - a
  {
    hide Choose, NextBackoff, Working, FailuresAreRetried, Local, Ahead, Retryable;
    var n := |s0.manager.instances|;
    var q := if a == 0 then p
             else p.(retryCount := p.retryCount + 1, sleeps := p.sleeps + [NextBackoff(c.policy, a, env.random(a))]);
    SameCourse(c, s0, goal, a, off, p, q);
    var next := StaysOnCourse(c, env, s0, goal, a, off, q);
    assert !env.cancelled(a);
    var o := Choose(c, env, n, a, q);
    assert Iterate(c, env, n, a, p) == o;
    if o.Going? {
      LoopArrives(c, env, s0, goal, a + 1, next, o.p);
    }
  }

  lemma SameCourse(c: Config, s0: Sys, goal: nat, a: nat, off: nat, p: Progress, q: Progress)
    requires OnCourse(c, s0, goal, a, off, p) && q.sys == p.sys && q.tried == p.tried && q.lastErr == p.lastErr
    ensures OnCourse(c, s0, goal, a, off, q)
  {
    hide Retryable, At;
    assert forall id :: Ahead(s0, p, id) ==> Ahead(s0, q, id);
  }

  /** Failover completeness: with round robin, a live context, distinct IDs and at most
      max(1, MaxRetries) instances, one usable working instance in the list is enough for success, wherever
      the rotation starts and whatever the other instances do, as long as what they run into is retried. */
  lemma FailoverFindsWorking(c: Config, env: Env, s: Sys, instances: seq<Instance>, g: nat)
    requires RoundRobin(c.strategy) && c.policy.maxAttempts >= 0 && DistinctIds(instances)
    requires Promising(c, env, s, instances, g) && |instances| <= Max(1, c.policy.maxAttempts)
    ensures Executed(c, env, s, instances).result.success
  {
    hide Loop, Finds;
    assert !env.cancelled(0);
    var p := Begin(s, instances);
    var goal := OffsetOf(p.sys.manager, g);
    assert instances[g] in instances;
    LoopArrives(c, env, p.sys, goal, 0, 0, p);
  }

  /** Healthy, or suspect and at most one success short of the threshold. */
  predicate OneDialAway(t: HD.Thresholds, d: HD.Detector, id: string) {
    HD.StatusOf(d, id) == Healthy
    || (HD.StatusOf(d, id) == Suspect && HD.Tally(d.successCount, id) + 1 >= t.success)
  }

  /** The dialing detector asks for no more than a good record: when every dial of `i` succeeds, it finds
      `i` healthy in all states with the record of `d0` exactly when that record is one dial away from
      healthy. */
  lemma GoodDialSuffices(t: HD.Thresholds, env: Env, i: Instance, d0: HD.Detector)
    requires Dials(t, env) && forall a, d :: env.detect(a, i, d).err.None?
    ensures Local(env)
    ensures (forall a, d :: HD.SameRecord(d, d0, i.id) ==> HD.FoundHealthy(env.detect(a, i, d))) <==>
            OneDialAway(t, d0, i.id)
  {
    forall a, j: Instance, d, id | j.id != id ensures HD.SameRecord(env.detect(a, j, d).detector, d, id) {
      assert DialAnswer(t, d, j.id, env.detect(a, j, d));
      HD.MarksAreLocal(t, d, j.id, env.detect(a, j, d).err.None?, id);
    }
    forall a, d | HD.SameRecord(d, d0, i.id)
      ensures HD.FoundHealthy(env.detect(a, i, d)) <==> OneDialAway(t, d0, i.id)
    {
      assert DialAnswer(t, d, i.id, env.detect(a, i, d));
    }
    assert HD.SameRecord(d0, d0, i.id) ==> (HD.FoundHealthy(env.detect(0, i, d0)) <==> OneDialAway(t, d0, i.id));
  }

  /** Completeness with the detector the handler creates: enough is an instance that its breaker
      admits, that answers every dial, that the operation succeeds on and that is recorded as healthy or nearly so. */
  lemma DialingFailoverFindsWorking(c: Config, env: Env, s: Sys, instances: seq<Instance>, g: nat)
    requires RoundRobin(c.strategy) && c.policy.maxAttempts >= 0 && DistinctIds(instances)
    requires (forall b :: !env.cancelled(b)) && Dials(c.thresholds, env) && FailuresAreRetried(c, env, s, instances)
    requires g < |instances| <= Max(1, c.policy.maxAttempts) && Usable(s.manager.statusMap, instances[g].id)
    requires forall a: nat ::
      CB.Step(c.breaker, CB.Lookup(s.breakers, instances[g].id), CB.Input(CB.Allow, env.now(2 * a))).1 == CB.Granted
    requires forall a, d :: env.detect(a, instances[g], d).err.None?
    requires forall a :: env.operation(a, instances[g]) == None
    requires OneDialAway(c.thresholds, s.detector, instances[g].id)
    ensures Executed(c, env, s, instances).result.success
  {
    hide CB.Step, Executed, FailuresAreRetried;
    GoodDialSuffices(c.thresholds, env, instances[g], s.detector);
    assert Working(c, env, s, instances[g]);
    FailoverFindsWorking(c, env, s, instances, g);
  }

  // The bound on the list length cannot be relaxed.

  /** An error that the policy retries. */
  function Down(p: Policy): Error {
    OtherError(if p.Simple? || p.errorTypes == [] then "down" else p.errorTypes[0])
  }

  lemma DownIsRetried(p: Policy)
    ensures Retryable(p, Down(p))
  {
    if !p.Simple? && p.errorTypes != [] {
      var t := p.errorTypes[0];
      assert t[0..] == t && t in p.errorTypes;
      assert Contains(t, t);
    }
  }

  /** Every dial succeeds, and the operation succeeds on one instance only. */
  function OnlyWorks(c: Config, good: Instance): Env {
    Env(a => false, Down(c.policy), a => 0, a => 0, a => 0.0,
        (a, i: Instance, d) => HD.Dialed(c.thresholds, d, i.id, None),
        (a, i) => if i == good then None else Some(Down(c.policy)))
  }

  ghost predicate Marching(instances: seq<Instance>, a: nat, p: Progress) {
    && p.sys.manager.instances == instances && p.sys.manager.nextIndex == a < |instances|
    && (forall k :: a <= k < |instances| ==>
          && instances[k].id !in p.tried && Usable(p.sys.manager.statusMap, instances[k].id)
          && instances[k].id !in p.sys.breakers)
  }

  lemma MarchOn(c: Config, instances: seq<Instance>, a: nat, p: Progress)
    requires DistinctIds(instances) && RoundRobin(c.strategy) && Marching(instances, a, p) && a + 1 < |instances|
    ensures var o := Choose(c, OnlyWorks(c, instances[|instances| - 1]), |instances|, a, p);
            o.Going? && Marching(instances, a + 1, o.p)
  {
    hide Select, Try;
    var env := OnlyWorks(c, instances[|instances| - 1]);
    var w := p.sys.manager;
    ModUnique(a, |instances|, 0, a);
    ModUnique(a + 1, |instances|, 0, a + 1);
    assert At(w, 0) == a && UsableAt(w, At(w, 0));
    assert NextPosition(w) == a;
    RoundRobinSelects(w, c.strategy, 0, a);
    FirstCallIsFree(c, p.(sys := p.sys.(manager := Advanced(w))), a, instances, a);
  }

  lemma FirstCallIsFree(c: Config, p: Progress, a: nat, instances: seq<Instance>, at: nat)
    requires DistinctIds(instances) && at + 1 < |instances| && instances[at].id !in p.sys.breakers
    ensures var o := Try(c, OnlyWorks(c, instances[|instances| - 1]), a, p, instances[at]);
            && o.Going? && o.p.tried == p.tried + {instances[at].id}
            && o.p.sys.manager == SetStatus(p.sys.manager, instances[at].id, Unhealthy)
            && o.p.sys.breakers.Keys == p.sys.breakers.Keys + {instances[at].id}
  {
    hide HD.AfterDial, HD.AfterFailure, CB.OpenTime;
    assert instances[at] != instances[|instances| - 1];
  }

  lemma {:induction false} MarchEnds(c: Config, instances: seq<Instance>, a: nat, p: Progress)
    requires DistinctIds(instances) && RoundRobin(c.strategy) && Marching(instances, a, p)
    requires a <= Max(1, c.policy.maxAttempts) < |instances|
    ensures !Loop(c, OnlyWorks(c, instances[|instances| - 1]), |instances|, a, p).Won?
    decreases |instances| - a
  {
    hide Choose, NextBackoff, Retryable, Marching;
    var env := OnlyWorks(c, instances[|instances| - 1]);
    if a <= c.policy.maxAttempts && (a > 0 ==> ShouldRetry(c.policy, a, p.lastErr)) {
      var q := if a == 0 then p
               else p.(retryCount := p.retryCount + 1, sleeps := p.sleeps + [NextBackoff(c.policy, a, env.random(a))]);
      SameMarch(instances, a, p, q);
      MarchOn(c, instances, a, q);
      var o := Choose(c, env, |instances|, a, q);
      assert Iterate(c, env, |instances|, a, p) == o;
      MarchEnds(c, instances, a + 1, o.p);
    }
  }

  lemma SameMarch(instances: seq<Instance>, a: nat, p: Progress, q: Progress)
    requires Marching(instances, a, p) && q.sys == p.sys && q.tried == p.tried
    ensures Marching(instances, a, q)
  {
  }

  lemma OnlyWorksIsPromising(c: Config, instances: seq<Instance>)
    requires instances != []
    ensures var env := OnlyWorks(c, instances[|instances| - 1]);
            Dials(c.thresholds, env) && Promising(c, env, FRESH, instances, |instances| - 1)
  {
    hide Retryable, HD.AfterDial, HD.SameRecord;
    var env, good := OnlyWorks(c, instances[|instances| - 1]), instances[|instances| - 1];
    DownIsRetried(c.policy);
    GoodDialSuffices(c.thresholds, env, good, FRESH.detector);
    forall i: Instance, a: nat, d | HD.SameRecord(d, FRESH.detector, i.id)
      ensures Finds(c, env, FRESH.breakers, d, a, i) == if i == good then None else Some(Down(c.policy))
    {
      GoodDialSuffices(c.thresholds, env, i, FRESH.detector);
      assert HD.FoundHealthy(env.detect(a, i, d));
    }
  }

  /** For every longer list of distinct IDs there is an environment, with the detector that the handler
      creates, in which the last instance works and is usable, all failures are retried, and a new
      handler still fails. */
  lemma LongerListsCanFail(c: Config, instances: seq<Instance>)
    requires RoundRobin(c.strategy) && DistinctIds(instances) && instances != []
    requires c.policy.maxAttempts < 0 || |instances| > Max(1, c.policy.maxAttempts)
    ensures var env := OnlyWorks(c, instances[|instances| - 1]);
            && Dials(c.thresholds, env) && Promising(c, env, FRESH, instances, |instances| - 1)
            && !Executed(c, env, FRESH, instances).result.success
  {
    hide Loop, Promising, Dials;
    OnlyWorksIsPromising(c, instances);
    if c.policy.maxAttempts < 0 {
      NoAttempts(c, OnlyWorks(c, instances[|instances| - 1]), |instances|, Begin(FRESH, instances));
    } else {
      MarchEnds(c, instances, 0, Begin(FRESH, instances));
    }
  }

  lemma NoAttempts(c: Config, env: Env, n: nat, p: Progress)
    requires c.policy.maxAttempts < 0
    ensures Loop(c, env, n, 0, p) == Stopped(p)
  {
  }

  /** A list of distinct IDs is served in every promising situation exactly when it has at most
      max(1, MaxRetries) instances, whatever the detector, and also with the one the handler creates. */
  lemma CompleteIff(c: Config, instances: seq<Instance>)
    requires RoundRobin(c.strategy) && DistinctIds(instances) && instances != []
    ensures (forall env, s, g :: Promising(c, env, s, instances, g) ==> Executed(c, env, s, instances).result.success)
            <==> c.policy.maxAttempts >= 0 && |instances| <= Max(1, c.policy.maxAttempts)
    ensures (forall env, s, g :: Dials(c.thresholds, env) && Promising(c, env, s, instances, g) ==>
               Executed(c, env, s, instances).result.success)
            <==> c.policy.maxAttempts >= 0 && |instances| <= Max(1, c.policy.maxAttempts)
  {
    hide Executed, Promising, Dials;
    if c.policy.maxAttempts >= 0 && |instances| <= Max(1, c.policy.maxAttempts) {
      forall env, s, g | Promising(c, env, s, instances, g) ensures Executed(c, env, s, instances).result.success {
        FailoverFindsWorking(c, env, s, instances, g);
      }
    } else {
      LongerListsCanFail(c, instances);
    }
  }

  // When a first failure ends the call.

  lemma IterateExtendsSleeps(c: Config, env: Env, n: nat, a: nat, p: Progress)
    ensures |p.sleeps| <= |Iterate(c, env, n, a, p).p.sleeps|
  {
    hide Choose, NextBackoff, ShouldRetry;
    var q := p.(retryCount := p.retryCount + 1, sleeps := p.sleeps + [NextBackoff(c.policy, a, env.random(a))]);
    ChooseDoesNotSleep(c, env, n, a, p);
    ChooseDoesNotSleep(c, env, n, a, q);
  }

  lemma {:induction false} LoopExtendsSleeps(c: Config, env: Env, n: nat, a: nat, p: Progress)
    ensures |p.sleeps| <= |Loop(c, env, n, a, p).p.sleeps|
    decreases c.policy.maxAttempts + 1 - a
  {
    hide Iterate;
    if a > c.policy.maxAttempts {
    } else {
      IterateExtendsSleeps(c, env, n, a, p);
      var o := Iterate(c, env, n, a, p);
      if o.Going? {
        LoopExtendsSleeps(c, env, n, a + 1, o.p);
      }
    }
  }

  /** The second iteration, after one failed pick. */
  lemma AfterFirstFailure(c: Config, env: Env, n: nat, p: Progress)
    requires c.policy.maxAttempts >= 0 && p.sleeps == [] && p.lastErr.Some?
    ensures var o := Loop(c, env, n, 1, p);
            if c.policy.maxAttempts <= 1 || !Retryable(c.policy, p.lastErr.value)
            then o.Stopped? && o.p.picks == p.picks && o.p.sleeps == [] else o.p.sleeps != []
  {
    hide Choose, NextBackoff, Retryable;
    if c.policy.maxAttempts > 1 && Retryable(c.policy, p.lastErr.value) {
      var q := p.(retryCount := p.retryCount + 1, sleeps := p.sleeps + [NextBackoff(c.policy, 1, env.random(1))]);
      ChooseDoesNotSleep(c, env, n, 1, q);
      var o := Iterate(c, env, n, 1, p);
      if o.Going? {
        LoopExtendsSleeps(c, env, n, 2, o.p);
      }
    }
  }

  /** When the first selected instance fails with error `e`, the call ends there, without a wait or a
      second pick, exactly when MaxRetries is at most one or the policy does not retry `e`. */
  lemma FirstFailureEndsIff(c: Config, env: Env, s: Sys, instances: seq<Instance>, m: Manager, i: Instance)
    requires !env.cancelled(0) && instances != [] && c.policy.maxAttempts >= 0
    requires Select(Begin(s, instances).sys.manager, c.strategy, env.choose(0)) == Selected(m, i)
    requires Finds(c, env, s.breakers, s.detector, 0, i).Some?
    ensures var r, e := Executed(c, env, s, instances), Finds(c, env, s.breakers, s.detector, 0, i).value;
            && (r.sleeps == [] <==> c.policy.maxAttempts <= 1 || !Retryable(c.policy, e))
            && (r.sleeps == [] ==> |r.picks| == 1 && r.picks[0].instance == i && !r.result.success)
  {
    hide Select, Try, Finds, Retryable, Loop;
    var p := Begin(s, instances);
    var q := p.(sys := p.sys.(manager := m));
    var k := TryRecords(c, env, 0, q, i);
    TryFinds(c, env, q.sys, 0, q, i);
    var o := Try(c, env, 0, q, i);
    assert Choose(c, env, |instances|, 0, p) == o;
    LoopUnfolds(c, env, |instances|, p, o.p);
    AfterFirstFailure(c, env, |instances|, o.p);
  }

  lemma LoopUnfolds(c: Config, env: Env, n: nat, p: Progress, q: Progress)
    requires c.policy.maxAttempts >= 0 && Choose(c, env, n, 0, p) == Going(q)
    ensures Loop(c, env, n, 0, p) == Loop(c, env, n, 1, q)
  {
    hide Choose;
  }

  /** So under the default list of retryable errors a policy other than the simple one does not fail
      over at all when the first selected instance is refused by its breaker or is found not healthy
      without an error. */
  lemma DefaultListStopsFailover(c: Config, env: Env, s: Sys, instances: seq<Instance>, m: Manager, i: Instance)
    requires !c.policy.Simple? && c.policy.errorTypes == DEFAULT_RETRYABLE && c.policy.maxAttempts >= 0
    requires !env.cancelled(0) && instances != []
    requires Select(Begin(s, instances).sys.manager, c.strategy, env.choose(0)) == Selected(m, i)
    requires Finds(c, env, s.breakers, s.detector, 0, i) in {Some(ErrCircuitOpen), Some(ErrServiceUnavailable)}
    ensures var r := Executed(c, env, s, instances);
            |r.picks| == 1 && r.picks[0].instance == i && !r.result.success && r.sleeps == []
  {
    hide Executed, Select, Finds, Retryable;
    OwnErrorRetryableIff(c.policy, ErrCircuitOpen);
    OwnErrorRetryableIff(c.policy, ErrServiceUnavailable);
    FirstFailureEndsIff(c, env, s, instances, m, i);
  }
}
