/** Completeness of failover when selection follows no order. A selected instance that was tried already costs
    an attempt and is then out of use, so no instance costs more than two. */
module FailoverAnyOrder {
  import opened Arithmetic
  import opened Types
  import opened Retry
  import opened InstanceManagement
  import opened Failover
  import opened FailoverAccounting
  import opened FailoverReplay
  import opened FailoverEnding
  import opened FailoverCompleteness
  import CB = Breaker
  import HD = HealthDetector

  /** Attempts that instance `i` can still cost. */
  function Life(p: Progress, i: Instance): nat {
    if i.id !in p.tried then 2 else if Usable(p.sys.manager.statusMap, i.id) then 1 else 0
  }

  /** The same for the first `n` listed instances but the one at position `g`. */
  function Lives(p: Progress, instances: seq<Instance>, g: nat, n: nat): nat
    requires n <= |instances|
  {
    if n == 0 then 0
    else Lives(p, instances, g, n - 1) + if n - 1 == g then 0 else Life(p, instances[n - 1])
  }

  lemma {:induction false} LivesAtFirst(p: Progress, instances: seq<Instance>, g: nat, n: nat)
    requires n <= |instances| && g < |instances|
    ensures Lives(p, instances, g, n) <= 2 * (if g < n then n - 1 else n)
  {
    if n == 0 {
    } else {
      LivesAtFirst(p, instances, g, n - 1);
    }
  }

  /** Selecting position `k` costs a life there and none elsewhere. */
  lemma {:induction false} LivesDrop(p: Progress, q: Progress, instances: seq<Instance>, g: nat, k: nat, n: nat)
    requires n <= |instances| && k < |instances| && k != g
    requires forall j :: 0 <= j < |instances| && j != k && j != g ==> Life(q, instances[j]) <= Life(p, instances[j])
    requires Life(q, instances[k]) < Life(p, instances[k])
    ensures Lives(q, instances, g, n) + (if k < n then 1 else 0) <= Lives(p, instances, g, n)
  {
    hide Life;
    if n == 0 {
    } else {
      LivesDrop(p, q, instances, g, k, n - 1);
    }
  }

  /** Iteration `a` starts with enough attempts left for what the others can still cost. */
  ghost predicate InTime(c: Config, s0: Sys, instances: seq<Instance>, g: nat, a: nat, p: Progress) {
    && g < |instances| && p.sys.manager.instances == instances
    && (forall i :: i in instances && i.id !in p.tried ==> Ahead(s0, p, i.id))
    && (forall id :: id in p.tried ==> exists i :: i in instances && i.id == id)
    && instances[g].id !in p.tried && Usable(p.sys.manager.statusMap, instances[g].id)
    && (p.tried != {} ==> p.lastErr.Some? && Retryable(c.policy, p.lastErr.value))
    && (a > 0 ==> p.tried != {})
    && a + Lives(p, instances, g, |instances|) <= 2 * (|instances| - 1)
  }

  /** The other ID's part of the state is as before. */
  predicate Alike(p: Progress, q: Progress, id: string) {
    && (id in p.tried <==> id in q.tried)
    && (Usable(p.sys.manager.statusMap, id) <==> Usable(q.sys.manager.statusMap, id))
  }

  lemma TryKeepsUse(c: Config, env: Env, a: nat, p: Progress, i: Instance, id: string)
    requires i.id != id
    ensures Alike(p, Try(c, env, a, p, i).p, id)
  {
    hide CB.Step, CB.StepAll, HD.AfterFailure, HD.AfterSuccess;
  }

  lemma TryCostsALife(c: Config, env: Env, a: nat, p: Progress, i: Instance)
    requires i.id !in p.tried
    ensures Life(Try(c, env, a, p, i).p, i) < Life(p, i)
  {
    hide CB.Step, CB.StepAll, HD.AfterFailure, HD.AfterSuccess;
  }

  lemma FewerTried(instances: seq<Instance>, g: nat, tried: set<string>)
    requires g < |instances| && instances[g].id !in tried
    requires forall id :: id in tried ==> exists i :: i in instances && i.id == id
    ensures |tried| < |instances|
  {
    IdsFit(instances, tried + {instances[g].id});
  }

  lemma {:induction false} IdsFit(instances: seq<Instance>, ids: set<string>)
    requires forall id :: id in ids ==> exists i :: i in instances && i.id == id
    ensures |ids| <= |instances|
  {
    if instances == [] {
      assert ids == {};
    } else {
      var rest := ids - {instances[0].id};
      forall id | id in rest ensures exists i :: i in instances[1..] && i.id == id {
        var i :| i in instances && i.id == id;
        assert i in instances[1..];
      }
      IdsFit(instances[1..], rest);
      assert ids <= rest + {instances[0].id};
    }
  }

  lemma TriedStaysInTime(c: Config, env: Env, s0: Sys, instances: seq<Instance>, g: nat, a: nat, p: Progress, k: nat)
    requires InTime(c, s0, instances, g, a, p) && DistinctIds(instances) && k < |instances| && k != g
    requires Local(env) && FailuresAreRetried(c, env, s0, instances) && instances[k].id !in p.tried
    requires Try(c, env, a, p, instances[k]).Going?
    ensures InTime(c, s0, instances, g, a + 1, Try(c, env, a, p, instances[k]).p)
  {
    hide Try, Finds, Retryable, Ahead, Local, Usable;
    var i := instances[k];
    var o := Try(c, env, a, p, i);
    var v := TryRecords(c, env, a, p, i);
    assert i in instances;
    SameRecordOfAhead(s0, p, i.id);
    TryFinds(c, env, s0, a, p, i);
    TryKeepsUse(c, env, a, p, i, instances[g].id);
    forall j | 0 <= j < |instances| && j != k
      ensures Alike(p, o.p, instances[j].id)
      ensures instances[j].id !in o.p.tried ==> Ahead(s0, o.p, instances[j].id)
    {
      TryKeepsUse(c, env, a, p, i, instances[j].id);
      if instances[j].id !in p.tried {
        TryIsLocal(c, env, s0, a, p, i, instances[j].id);
      }
    }
    TryCostsALife(c, env, a, p, i);
    LivesDrop(p, o.p, instances, g, k, |instances|);
  }

  lemma SameRecordOfAhead(s0: Sys, p: Progress, id: string)
    requires Ahead(s0, p, id)
    ensures HD.SameRecord(p.sys.detector, s0.detector, id)
  {
  }

  lemma RepeatStaysInTime(c: Config, s0: Sys, instances: seq<Instance>, g: nat, a: nat, p: Progress, k: nat)
    requires InTime(c, s0, instances, g, a, p) && DistinctIds(instances) && k < |instances| && k != g
    requires instances[k].id in p.tried && Usable(p.sys.manager.statusMap, instances[k].id)
    ensures InTime(c, s0, instances, g, a + 1,
                   p.(sys := p.sys.(manager := SetStatus(p.sys.manager, instances[k].id, Unhealthy)),
                      picks := p.picks + [Pick(instances[k], Repeat)]))
  {
    hide Retryable, HD.SameRecord, CB.Lookup;
    var q := p.(sys := p.sys.(manager := SetStatus(p.sys.manager, instances[k].id, Unhealthy)),
                picks := p.picks + [Pick(instances[k], Repeat)]);
    assert forall id :: Ahead(s0, p, id) ==> Ahead(s0, q, id);
    LivesDrop(p, q, instances, g, k, |instances|);
  }

  lemma SelectionInTime(c: Config, s0: Sys, instances: seq<Instance>, g: nat, a: nat, p: Progress, m: Manager)
    requires InTime(c, s0, instances, g, a, p)
    requires m.instances == p.sys.manager.instances && m.statusMap == p.sys.manager.statusMap
    ensures InTime(c, s0, instances, g, a, p.(sys := p.sys.(manager := m)))
  {
    hide Retryable, Lives, Usable;
    var q := p.(sys := p.sys.(manager := m));
    assert forall id :: Ahead(s0, p, id) ==> Ahead(s0, q, id);
    SameLives(p, q, instances, g, |instances|);
  }

  lemma {:induction false} SameLives(p: Progress, q: Progress, instances: seq<Instance>, g: nat, n: nat)
    requires n <= |instances| && q.tried == p.tried && q.sys.manager.statusMap == p.sys.manager.statusMap
    ensures Lives(q, instances, g, n) == Lives(p, instances, g, n)
  {
    if n == 0 {
    } else {
      SameLives(p, q, instances, g, n - 1);
    }
  }

  lemma ChooseStaysInTime(c: Config, env: Env, s0: Sys, instances: seq<Instance>, g: nat, a: nat, p: Progress)
    requires InTime(c, s0, instances, g, a, p) && DistinctIds(instances)
    requires Local(env) && FailuresAreRetried(c, env, s0, instances) && Working(c, env, s0, instances[g])
    ensures var o := Choose(c, env, |instances|, a, p);
            o.Won? || (o.Going? && InTime(c, s0, instances, g, a + 1, o.p))
  {
    hide Try, Select, Finds, FailuresAreRetried, Local, Lives;
    SelectionIsUsable(p.sys.manager, c.strategy, env.choose(a));
    SelectsUsable(p.sys.manager, c.strategy, env.choose(a));
    assert instances[g] in instances;
    assert SomethingUsable(p.sys.manager.statusMap, instances);
    var sel := Select(p.sys.manager, c.strategy, env.choose(a));
    SelectionInTime(c, s0, instances, g, a, p, sel.manager);
    var q := p.(sys := p.sys.(manager := sel.manager));
    var k :| 0 <= k < |instances| && instances[k] == sel.instance;
    if sel.instance.id in p.tried {
      FewerTried(instances, g, p.tried);
      RepeatStaysInTime(c, s0, instances, g, a, q, k);
    } else if k == g {
      TryFinds(c, env, s0, a, q, instances[g]);
    } else {
      var v := TryRecords(c, env, a, q, instances[k]);
      if Try(c, env, a, q, instances[k]).Going? {
        TriedStaysInTime(c, env, s0, instances, g, a, q, k);
      }
    }
  }

  lemma WaitInTime(c: Config, s0: Sys, instances: seq<Instance>, g: nat, a: nat, p: Progress, q: Progress)
    requires InTime(c, s0, instances, g, a, p) && q.sys == p.sys && q.tried == p.tried && q.lastErr == p.lastErr
    ensures InTime(c, s0, instances, g, a, q)
  {
    hide Retryable, Usable, Lives;
    assert forall id :: Ahead(s0, p, id) ==> Ahead(s0, q, id);
    SameLives(p, q, instances, g, |instances|);
  }

  lemma {:induction false} LoopIsInTime(c: Config, env: Env, s0: Sys, instances: seq<Instance>, g: nat,
                                       a: nat, p: Progress)
    requires InTime(c, s0, instances, g, a, p) && DistinctIds(instances) && forall b :: !env.cancelled(b)
    requires Local(env) && FailuresAreRetried(c, env, s0, instances) && Working(c, env, s0, instances[g])
    requires c.policy.maxAttempts >= 0 && 2 * |instances| - 1 <= Max(1, c.policy.maxAttempts)
    ensures Loop(c, env, |instances|, a, p).Won?
    decreases c.policy.maxAttempts + 1 - a
  {
    hide Choose, NextBackoff, Working, FailuresAreRetried, Local, Retryable, Usable, Lives;
    var q := if a == 0 then p
             else p.(retryCount := p.retryCount + 1, sleeps := p.sleeps + [NextBackoff(c.policy, a, env.random(a))]);
    WaitInTime(c, s0, instances, g, a, p, q);
    ChooseStaysInTime(c, env, s0, instances, g, a, q);
    assert !env.cancelled(a);
    var o := Choose(c, env, |instances|, a, q);
    assert Iterate(c, env, |instances|, a, p) == o;
    if o.Going? {
      LoopIsInTime(c, env, s0, instances, g, a + 1, o.p);
    }
  }

  /** Completeness for every strategy and all random numbers: with distinct IDs and 2n - 1 attempts for n
      instances (one attempt for one instance), a promising situation ends in success. */
  lemma AnyOrderFindsWorking(c: Config, env: Env, s: Sys, instances: seq<Instance>, g: nat)
    requires c.policy.maxAttempts >= 0 && DistinctIds(instances)
    requires Promising(c, env, s, instances, g) && 2 * |instances| - 1 <= Max(1, c.policy.maxAttempts)
    ensures Executed(c, env, s, instances).result.success
  {
    hide Loop, Finds, Local;
    assert !env.cancelled(0);
    assert instances[g] in instances;
    var p := Begin(s, instances);
    LivesAtFirst(p, instances, g, |instances|);
    LoopIsInTime(c, env, p.sys, instances, g, 0, p);
  }

  // The number of attempts cannot be reduced for the strategy "best".

  /** The breakers of all instances but the last are open. */
  function BlockedAll(instances: seq<Instance>): map<string, CB.Entry>
    requires instances != []
  {
    map i | i in instances[..|instances| - 1] :: i.id := CB.Entry(CB.Open, 0, 0, 0, 0, 0, 0, 1.0)
  }

  function BlockedState(instances: seq<Instance>): Sys
    requires instances != []
  {
    Sys(Manager([], map[], 0), BlockedAll(instances), HD.EMPTY)
  }

  predicate Blocked(m: map<string, CB.Entry>, id: string) {
    id in m && m[id].state == CB.Open && m[id].openUntil == 0
  }

  /** Before attempt `a`, half as many instances are out of use, and the next one may have been tried. */
  ghost predicate Halting(instances: seq<Instance>, a: nat, p: Progress) {
    && p.sys.manager.instances == instances && a / 2 < |instances|
    && (forall j :: 0 <= j < |instances| ==> (Usable(p.sys.manager.statusMap, instances[j].id) <==> a / 2 <= j))
    && (forall j :: 0 <= j < |instances| ==> (instances[j].id in p.tried <==> j < (a + 1) / 2))
    && (forall id :: id in p.tried ==> exists i :: i in instances && i.id == id)
    && (forall j :: (a + 1) / 2 <= j < |instances| - 1 ==> Blocked(p.sys.breakers, instances[j].id))
  }

  lemma BestSelects(m: Manager, choice: nat, at: nat)
    requires at < |m.instances| && UsableAt(m, at) && forall j :: 0 <= j < at ==> !UsableAt(m, j)
    ensures Select(m, "best", choice) == Selected(m, m.instances[at])
  {
    hide UsableOnes;
    SelectionIsUsable(m, "best", choice);
    var s := Select(m, "best", choice);
    var p :| 0 <= p < |m.instances| && s.instance == m.instances[p] && forall q :: 0 <= q < p ==> !UsableAt(m, q);
    assert UsableAt(m, p);
    assert p == at;
  }

  lemma BlockedTry(c: Config, env: Env, a: nat, p: Progress, i: Instance)
    requires Blocked(p.sys.breakers, i.id) && env.now(2 * a) == 0
    ensures var o := Try(c, env, a, p, i);
            && o.Going? && o.p.tried == p.tried + {i.id} && o.p.sys.manager == p.sys.manager
            && forall id :: id != i.id && Blocked(p.sys.breakers, id) ==> Blocked(o.p.sys.breakers, id)
  {
  }

  lemma HaltOn(c: Config, env: Env, instances: seq<Instance>, a: nat, p: Progress)
    requires DistinctIds(instances) && c.strategy == "best" && env.now(2 * a) == 0
    requires Halting(instances, a, p) && a / 2 < |instances| - 1
    ensures var o := Choose(c, env, |instances|, a, p); o.Going? && Halting(instances, a + 1, o.p)
  {
    hide Select, Try, Usable;
    var k := a / 2;
    assert forall j :: 0 <= j < |instances| ==> (UsableAt(p.sys.manager, j) <==> k <= j);
    BestSelects(p.sys.manager, env.choose(a), k);
    if a % 2 == 0 {
      assert (a + 1) / 2 == k && (a + 2) / 2 == k + 1 == (a + 1 + 1) / 2;
      BlockedTry(c, env, a, p, instances[k]);
      var o := Try(c, env, a, p, instances[k]);
      forall j | 0 <= j < |instances|
        ensures instances[j].id in o.p.tried <==> j < k + 1
      {
      }
      assert instances[k] in instances;
    } else {
      assert (a + 1) / 2 == k + 1 && (a + 1 + 1) / 2 == k + 1;
      FewerTried(instances, |instances| - 1, p.tried);
      OutAfterRepeat(instances, p.sys.manager, k);
    }
  }

  lemma OutAfterRepeat(instances: seq<Instance>, m: Manager, k: nat)
    requires DistinctIds(instances) && k < |instances|
    ensures var w := SetStatus(m, instances[k].id, Unhealthy).statusMap;
            forall j :: 0 <= j < |instances| ==>
              (Usable(w, instances[j].id) <==> j != k && Usable(m.statusMap, instances[j].id))
  {
  }

  lemma {:induction false} HaltingEnds(c: Config, env: Env, instances: seq<Instance>, a: nat, p: Progress)
    requires DistinctIds(instances) && c.strategy == "best" && (forall b :: env.now(b) == 0)
    requires Halting(instances, a, p) && a <= Max(1, c.policy.maxAttempts) < 2 * |instances| - 1
    ensures !Loop(c, env, |instances|, a, p).Won?
    decreases 2 * |instances| - a
  {
    hide Choose, NextBackoff, Retryable, Halting;
    if a > c.policy.maxAttempts || (a > 0 && !ShouldRetry(c.policy, a, p.lastErr)) {
    } else {
      var q := if a == 0 then p
               else p.(retryCount := p.retryCount + 1, sleeps := p.sleeps + [NextBackoff(c.policy, a, env.random(a))]);
      SameHalt(instances, a, p, q);
      HaltOn(c, env, instances, a, q);
      var o := Choose(c, env, |instances|, a, q);
      if a > 0 && env.cancelled(a) {
      } else {
        assert Iterate(c, env, |instances|, a, p) == o;
        HaltingEnds(c, env, instances, a + 1, o.p);
      }
    }
  }

  lemma SameHalt(instances: seq<Instance>, a: nat, p: Progress, q: Progress)
    requires Halting(instances, a, p) && q.sys == p.sys && q.tried == p.tried
    ensures Halting(instances, a, q)
  {
  }

  lemma BlockedLookup(instances: seq<Instance>, i: Instance)
    requires DistinctIds(instances) && instances != [] && i in instances
    ensures if i == instances[|instances| - 1] then i.id !in BlockedAll(instances)
            else Blocked(BlockedAll(instances), i.id)
  {
    var front := instances[..|instances| - 1];
    var j: nat :| j < |instances| && instances[j] == i;
    if j < |front| {
      assert front[j] == i && i in front;
      assert i.id != instances[|instances| - 1].id;
    } else {
      forall x | x in front ensures x.id != i.id {
        var k: nat :| k < |front| && front[k] == x;
        assert instances[k] == x;
      }
    }
  }

  lemma BlockedIsPromising(c: Config, instances: seq<Instance>)
    requires DistinctIds(instances) && instances != [] && Retryable(c.policy, ErrCircuitOpen)
    ensures var env := OnlyWorks(c, instances[|instances| - 1]);
            Dials(c.thresholds, env) && Promising(c, env, BlockedState(instances), instances, |instances| - 1)
  {
    hide Retryable, HD.AfterDial, HD.SameRecord, BlockedAll;
    var env, good, s := OnlyWorks(c, instances[|instances| - 1]), instances[|instances| - 1], BlockedState(instances);
    GoodDialSuffices(c.thresholds, env, good, s.detector);
    forall i, a: nat, d | i in instances && HD.SameRecord(d, s.detector, i.id)
      ensures Finds(c, env, s.breakers, d, a, i) == if i == good then None else Some(ErrCircuitOpen)
    {
      BlockedLookup(instances, i);
      GoodDialSuffices(c.thresholds, env, i, s.detector);
      assert HD.FoundHealthy(env.detect(a, i, d));
    }
  }

  /** With the strategy "best" and a policy that retries refusals, a list of distinct IDs is served in every
      promising situation exactly when the policy allows 2n - 1 attempts (one for a single instance). */
  lemma BestCompleteIff(c: Config, instances: seq<Instance>)
    requires c.strategy == "best" && Retryable(c.policy, ErrCircuitOpen) && c.policy.maxAttempts >= 0
    requires DistinctIds(instances) && instances != []
    ensures (forall env, s, g :: Promising(c, env, s, instances, g) ==> Executed(c, env, s, instances).result.success)
            <==> 2 * |instances| - 1 <= Max(1, c.policy.maxAttempts)
    ensures (forall env, s, g :: Dials(c.thresholds, env) && Promising(c, env, s, instances, g) ==>
               Executed(c, env, s, instances).result.success)
            <==> 2 * |instances| - 1 <= Max(1, c.policy.maxAttempts)
  {
    hide Loop, Promising, Dials, Retryable, BlockedAll;
    if 2 * |instances| - 1 <= Max(1, c.policy.maxAttempts) {
      forall env, s, g | Promising(c, env, s, instances, g) ensures Executed(c, env, s, instances).result.success {
        AnyOrderFindsWorking(c, env, s, instances, g);
      }
    } else {
      var env, s := OnlyWorks(c, instances[|instances| - 1]), BlockedState(instances);
      BlockedIsPromising(c, instances);
      HaltingBegins(instances, Begin(s, instances));
      HaltingEnds(c, env, instances, 0, Begin(s, instances));
      assert !Executed(c, env, s, instances).result.success;
    }
  }

  lemma HaltingBegins(instances: seq<Instance>, p: Progress)
    requires DistinctIds(instances) && instances != []
    requires p == Begin(BlockedState(instances), instances)
    ensures Halting(instances, 0, p)
  {
    hide BlockedAll;
    forall j | 0 <= j < |instances| - 1 ensures Blocked(p.sys.breakers, instances[j].id) {
      assert instances[j] in instances;
      BlockedLookup(instances, instances[j]);
    }
  }
}
