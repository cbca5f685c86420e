/** How an Execute ends: what each pick rests on, when the loop stops, and what is reported then. */
module FailoverEnding {
  import opened Arithmetic
  import opened Types
  import opened Retry
  import opened InstanceManagement
  import opened Failover
  import opened FailoverAccounting
  import CB = Breaker
  import HD = HealthDetector

  predicate SomethingUsable(statusMap: map<string, Status>, instances: seq<Instance>) {
    exists i :: i in instances && Usable(statusMap, i.id)
  }

  /** Wait `j` is the one of attempt `j + 1`, was asked for by the policy after the picks so far, and was not
      cancelled if another pick followed. */
  predicate WaitAt(c: Config, env: Env, picks: seq<Pick>, sleeps: seq<int>, j: nat)
    requires j < |sleeps| <= |picks|
  {
    && sleeps[j] == NextBackoff(c.policy, j + 1, env.random(j + 1))
    && ShouldRetry(c.policy, j + 1, LastError(picks[..j + 1]))
    && (j + 1 < |picks| ==> !env.cancelled(j + 1))
  }

  ghost predicate Waited(c: Config, env: Env, picks: seq<Pick>, sleeps: seq<int>) {
    |sleeps| <= |picks| && forall j: nat :: j < |sleeps| ==> WaitAt(c, env, picks, sleeps, j)
  }

  /** A pick is a repeat exactly when its ID was tried before, and then some ID is still untried. */
  ghost predicate RepeatsAreRepeats(n: nat, picks: seq<Pick>) {
    forall k :: 0 <= k < |picks| ==>
      && (picks[k].verdict == Repeat <==> picks[k].instance.id in Tried(picks[..k]))
      && (picks[k].verdict == Repeat ==> |Tried(picks[..k])| < n)
  }

  /** The state in which iteration `a` starts, beside the books. */
  ghost predicate Begun(c: Config, env: Env, instances: seq<Instance>, a: nat, p: Progress) {
    && Ready(c, instances, a, p)
    && |p.sleeps| == Max(0, a - 1)
    && Waited(c, env, p.picks, p.sleeps)
    && RepeatsAreRepeats(|instances|, p.picks)
  }

  /** The loop stopped because the policy refused another attempt (or allows none). */
  ghost predicate RetryRefused(c: Config, picks: seq<Pick>, sleeps: seq<int>) {
    var e := LastError(picks);
    |sleeps| == |picks| - 1 && e.Some? && (|picks| >= c.policy.maxAttempts || !Retryable(c.policy, e.value))
  }

  /** How the loop has ended. */
  ghost predicate Ended(c: Config, env: Env, instances: seq<Instance>, o: Outcome)
    requires !o.Going?
  {
    var p := o.p;
    && Settled(c, instances, o)
    && Waited(c, env, p.picks, p.sleeps) && RepeatsAreRepeats(|instances|, p.picks)
    && match o
       case Won(_, _) => |p.sleeps| == |p.picks| - 1
       case Cancelled(_) =>
         |p.sleeps| == |p.picks| == p.retryCount && p.picks != [] && env.cancelled(|p.picks|)
       case Stopped(_) =>
         if |p.sleeps| < |p.picks| then
           && p.lastErr == LastError(p.picks) && p.lastErr.Some? && RetryRefused(c, p.picks, p.sleeps)
           && p.retryCount == (if c.policy.maxAttempts >= 1 then |p.picks| else 0)
         else
           && |p.sleeps| == |p.picks| == p.retryCount && (p.picks != [] ==> !env.cancelled(|p.picks|))
           && p.lastErr == (if SomethingUsable(p.sys.manager.statusMap, instances) then LastError(p.picks)
                           else Some(ErrNoAvailableInstances))
           && (SomethingUsable(p.sys.manager.statusMap, instances) ==> |Tried(p.picks)| >= |instances|)
  }

  lemma {:induction false} TriedCount(picks: seq<Pick>, tried: set<string>)
    requires Distinct(Tried(picks)) && forall id :: id in tried <==> id in Tried(picks)
    ensures |tried| == |Tried(picks)|
  {
    DistinctCount(Tried(picks), tried);
  }

  lemma SelectsUsable(m: Manager, strategy: string, choice: nat)
    ensures Select(m, strategy, choice).NothingUsable? <==> !SomethingUsable(m.statusMap, m.instances)
  {
    SelectionIsUsable(m, strategy, choice);
    if SomethingUsable(m.statusMap, m.instances) {
      var i :| i in m.instances && Usable(m.statusMap, i.id);
      var k :| 0 <= k < |m.instances| && m.instances[k] == i;
      assert UsableAt(m, k);
    } else {
      forall k | 0 <= k < |m.instances| ensures !UsableAt(m, k) {
        assert m.instances[k] in m.instances;
      }
    }
  }

  /** What selecting and trying does to the loop's variables. */
  ghost predicate Chosen(instances: seq<Instance>, p: Progress, o: Outcome) {
    && o.p.sleeps == p.sleeps && o.p.retryCount == p.retryCount
    && match o
       case Stopped(q) =>
         && q.picks == p.picks && q.tried == p.tried && q.sys.manager.statusMap == p.sys.manager.statusMap
         && q.lastErr == (if SomethingUsable(p.sys.manager.statusMap, instances) then p.lastErr
                         else Some(ErrNoAvailableInstances))
         && (SomethingUsable(p.sys.manager.statusMap, instances) ==> |p.tried| >= |instances|)
       case Going(q) =>
         && q.picks != [] && q.picks == p.picks + [q.picks[|q.picks| - 1]]
         && var k := q.picks[|q.picks| - 1];
            && (k.verdict == Repeat <==> k.instance.id in p.tried)
            && (k.verdict == Repeat ==> |p.tried| < |instances|)
       case Won(q, i) => q.picks == p.picks + [Pick(i, Served)] && i.id !in p.tried
       case Cancelled(_) => false
  }

  lemma ChooseDoes(c: Config, env: Env, instances: seq<Instance>, a: nat, p: Progress)
    requires p.sys.manager.instances == instances
    ensures Chosen(instances, p, Choose(c, env, |instances|, a, p))
  {
    hide Try, Select, SomethingUsable;
    SelectionIsUsable(p.sys.manager, c.strategy, env.choose(a));
    SelectsUsable(p.sys.manager, c.strategy, env.choose(a));
    var s := Select(p.sys.manager, c.strategy, env.choose(a));
    if s.Selected? && s.instance.id !in p.tried {
      var k := TryRecords(c, env, a, p.(sys := p.sys.(manager := s.manager)), s.instance);
    }
  }

  lemma RepeatsGrow(n: nat, picks: seq<Pick>, k: Pick)
    requires RepeatsAreRepeats(n, picks)
    requires k.verdict == Repeat <==> k.instance.id in Tried(picks)
    requires k.verdict == Repeat ==> |Tried(picks)| < n
    ensures RepeatsAreRepeats(n, picks + [k])
  {
    hide Tried;
    var all := picks + [k];
    forall j | 0 <= j < |all|
      ensures all[j].verdict == Repeat <==> all[j].instance.id in Tried(all[..j])
      ensures all[j].verdict == Repeat ==> |Tried(all[..j])| < n
    {
      assert all[..j] == picks[..j];
      if j == |picks| {
        assert picks[..j] == picks;
      }
    }
  }

  lemma WaitedMore(c: Config, env: Env, picks: seq<Pick>, sleeps: seq<int>, k: Pick)
    requires Waited(c, env, picks, sleeps)
    requires |sleeps| == |picks| ==> picks == [] || !env.cancelled(|picks|)
    ensures Waited(c, env, picks + [k], sleeps)
  {
    hide NextBackoff, ShouldRetry, LastError;
    forall j: nat | j < |sleeps| ensures WaitAt(c, env, picks + [k], sleeps, j) {
      assert WaitAt(c, env, picks, sleeps, j);
      assert (picks + [k])[..j + 1] == picks[..j + 1];
    }
  }

  lemma OneMoreWait(c: Config, env: Env, picks: seq<Pick>, sleeps: seq<int>)
    requires Waited(c, env, picks, sleeps) && |sleeps| == |picks| - 1
    requires ShouldRetry(c.policy, |picks|, LastError(picks))
    ensures Waited(c, env, picks, sleeps + [NextBackoff(c.policy, |picks|, env.random(|picks|))])
  {
    hide NextBackoff, ShouldRetry, LastError;
    var more := sleeps + [NextBackoff(c.policy, |picks|, env.random(|picks|))];
    forall j: nat | j < |more| ensures WaitAt(c, env, picks, more, j) {
      if j < |sleeps| {
        assert WaitAt(c, env, picks, sleeps, j);
      } else {
        assert picks[..|picks|] == picks;
      }
    }
  }

  lemma ChosenGoesOn(c: Config, env: Env, instances: seq<Instance>, a: nat, p: Progress, q: Progress, o: Outcome)
    requires Begun(c, env, instances, a, p) && a <= c.policy.maxAttempts && (a > 0 ==> a < c.policy.maxAttempts)
    requires q.picks == p.picks && q.tried == p.tried && q.lastErr == p.lastErr && q.retryCount == a && |q.sleeps| == a
    requires Waited(c, env, q.picks, q.sleeps) && (a > 0 ==> !env.cancelled(a))
    requires Kept(instances, q, o) && Chosen(instances, q, o)
    ensures o.Going? ==> Begun(c, env, instances, a + 1, o.p)
    ensures !o.Going? ==> Ended(c, env, instances, o)
  {
    hide Waited, RepeatsAreRepeats, Tried, LastError, Books, SomethingUsable, NoneServed;
    KeptStaysReady(c, instances, a, p, q, o);
    TriedMatches(instances, p);
    if o.Going? || o.Won? {
      var k := o.p.picks[|o.p.picks| - 1];
      WaitedMore(c, env, q.picks, q.sleeps, k);
      RepeatsGrow(|instances|, q.picks, k);
    }
  }

  lemma TriedMatches(instances: seq<Instance>, p: Progress)
    requires Books(instances, p)
    ensures |p.tried| == |Tried(p.picks)| && forall id :: id in p.tried <==> id in Tried(p.picks)
  {
    TriedCount(p.picks, p.tried);
  }

  lemma LoopRefused(c: Config, env: Env, instances: seq<Instance>, a: nat, p: Progress)
    requires Begun(c, env, instances, a, p) && c.policy.maxAttempts >= 0
    requires a > c.policy.maxAttempts || (a > 0 && !ShouldRetry(c.policy, a, p.lastErr))
    ensures Ended(c, env, instances, Loop(c, env, |instances|, a, p))
  {
    hide Choose, NextBackoff, Retryable, LastError, Books, Waited, RepeatsAreRepeats;
    LoopAccounts(c, env, instances, a, p);
  }

  lemma {:induction false} LoopEnds(c: Config, env: Env, instances: seq<Instance>, a: nat, p: Progress)
    requires Begun(c, env, instances, a, p) && c.policy.maxAttempts >= 0
    ensures !Loop(c, env, |instances|, a, p).Going?
    ensures Ended(c, env, instances, Loop(c, env, |instances|, a, p))
    decreases c.policy.maxAttempts + 1 - a
  {
    hide Choose, NextBackoff, ShouldRetry, Begun, Ended, Ready;
    LoopIsDone(c, env, |instances|, a, p);
    if a > c.policy.maxAttempts || (a > 0 && !ShouldRetry(c.policy, a, p.lastErr)) {
      LoopRefused(c, env, instances, a, p);
    } else {
      var q := if a == 0 then p
               else p.(retryCount := p.retryCount + 1, sleeps := p.sleeps + [NextBackoff(c.policy, a, env.random(a))]);
      AfterWait(c, env, instances, a, p, q);
      if a > 0 && env.cancelled(a) {
        CancelledEnds(c, env, instances, a, p, q);
      } else {
        var o := Choose(c, env, |instances|, a, q);
        assert Iterate(c, env, |instances|, a, p) == o;
        ChooseKeepsBooks(c, env, instances, a, q);
        ChooseDoes(c, env, instances, a, q);
        ChosenGoesOn(c, env, instances, a, p, q, o);
        if o.Going? {
          LoopEnds(c, env, instances, a + 1, o.p);
        }
      }
    }
  }

  /** The loop's variables after the wait of iteration `a`. */
  lemma AfterWait(c: Config, env: Env, instances: seq<Instance>, a: nat, p: Progress, q: Progress)
    requires Begun(c, env, instances, a, p) && a <= c.policy.maxAttempts
    requires a > 0 ==> ShouldRetry(c.policy, a, p.lastErr)
    requires q == if a == 0 then p
                  else p.(retryCount := p.retryCount + 1,
                          sleeps := p.sleeps + [NextBackoff(c.policy, a, env.random(a))])
    ensures Books(instances, q) && NoneServed(q.picks) && q.sys.manager.instances == instances
    ensures q.retryCount == |q.sleeps| == a == |q.picks| && Waited(c, env, q.picks, q.sleeps)
    ensures a > 0 ==> a < c.policy.maxAttempts && q.lastErr.Some? && q.lastErr == LastError(q.picks)
  {
    hide NextBackoff, Retryable, LastError, Tried, Called, Losers, Waited;
    if a > 0 {
      OneMoreWait(c, env, p.picks, p.sleeps);
    }
  }

  lemma CancelledEnds(c: Config, env: Env, instances: seq<Instance>, a: nat, p: Progress, q: Progress)
    requires Begun(c, env, instances, a, p) && 0 < a < c.policy.maxAttempts && ShouldRetry(c.policy, a, p.lastErr)
    requires q == p.(retryCount := p.retryCount + 1, sleeps := p.sleeps + [NextBackoff(c.policy, a, env.random(a))])
    requires q.retryCount == |q.sleeps| == a && Waited(c, env, q.picks, q.sleeps) && env.cancelled(a)
    ensures Loop(c, env, |instances|, a, p) == Cancelled(q) && Ended(c, env, instances, Cancelled(q))
  {
    hide NextBackoff, ShouldRetry, Waited, Books, Choose, LastError, RepeatsAreRepeats;
    LoopAccounts(c, env, instances, a, p);
  }

  /** The instance shown after a failure: the first one listed that was not tried, or else the first. */
  ghost predicate ShownAfter(instances: seq<Instance>, picks: seq<Pick>, shown: Option<Instance>) {
    exists k :: 0 <= k < |instances| && shown == Some(instances[k])
                && (forall j :: 0 <= j < k ==> instances[j].id in Tried(picks))
                && (instances[k].id !in Tried(picks) || (k == 0 && forall i :: i in instances ==> i.id in Tried(picks)))
  }

  /** The whole story of an Execute, read off its report. A served call has waited before each pick but the
      first. Any other ends in one of four ways: the policy refuses to go on after the last pick; the
      context is cancelled during the wait after it; nothing is usable; or every ID was tried and only
      tried ones are usable. */
  ghost predicate Story(c: Config, env: Env, instances: seq<Instance>, r: Report) {
    && Waited(c, env, r.picks, r.sleeps) && RepeatsAreRepeats(|instances|, r.picks)
    && if r.result.success then
         |r.sleeps| == |r.picks| - 1 && r.result.retryCount == |r.sleeps|
       else if |r.sleeps| < |r.picks| then
         && RetryRefused(c, r.picks, r.sleeps) && r.result.error == LastError(r.picks) && r.result.error.Some?
         && r.result.retryCount == (if c.policy.maxAttempts >= 1 then |r.picks| else 0)
         && ShownAfter(instances, r.picks, r.result.instance)
       else if r.picks != [] && env.cancelled(|r.picks|) then
         r.err == Some(env.cause) && r.result == Result(false, None, |r.picks|, Losers(r.picks), None)
       else
         && r.result.retryCount == |r.picks| && ShownAfter(instances, r.picks, r.result.instance)
         && if !SomethingUsable(r.sys.manager.statusMap, instances) then
              r.result.error == Some(ErrNoAvailableInstances)
            else
              |Tried(r.picks)| >= |instances| && r.result.error == LastError(r.picks)
  }

  lemma ConcludeShows(c: Config, env: Env, instances: seq<Instance>, o: Outcome)
    requires instances != [] && Books(instances, o.p) && o.Stopped?
    ensures ShownAfter(instances, o.p.picks, Conclude(c, env, instances, o).result.instance)
  {
    hide Tried, Called, Losers;
    var shown := FirstUntried(instances, o.p.tried);
    if shown.Some? {
      var k :| 0 <= k < |instances| && shown.value == instances[k] && instances[k].id !in o.p.tried
               && forall j :: 0 <= j < k ==> instances[j].id in o.p.tried;
      assert Conclude(c, env, instances, o).result.instance == Some(instances[k]);
    } else {
      assert Conclude(c, env, instances, o).result.instance == Some(instances[0]);
    }
  }

  lemma EndedStory(c: Config, env: Env, instances: seq<Instance>, o: Outcome)
    requires instances != [] && !o.Going? && Ended(c, env, instances, o)
    ensures Story(c, env, instances, Conclude(c, env, instances, o))
  {
    hide Tried, Called, Losers, LastError, Waited, RepeatsAreRepeats, ShownAfter, FirstUntried;
    hide SomethingUsable, Retryable;
    if o.Stopped? {
      ConcludeShows(c, env, instances, o);
    }
  }

  lemma BeginsBegun(c: Config, env: Env, s: Sys, instances: seq<Instance>)
    ensures Begun(c, env, instances, 0, Begin(s, instances))
  {
    BeginsReady(c, s, instances);
  }

  /** Every Execute that is allowed at least one attempt has such a story. */
  lemma ExecuteEnds(c: Config, env: Env, s: Sys, instances: seq<Instance>)
    requires !env.cancelled(0) && instances != [] && c.policy.maxAttempts >= 0
    ensures Story(c, env, instances, Executed(c, env, s, instances))
  {
    hide Loop, Begun, Ended, Story, Begin, Conclude;
    var p := Begin(s, instances);
    BeginsBegun(c, env, s, instances);
    LoopEnds(c, env, instances, 0, p);
    EndedStory(c, env, instances, Loop(c, env, |instances|, 0, p));
  }

  /** The calls that attempt nothing: a cancelled context leaves everything alone and is reported as such,
      an empty list drops all statuses, and without an allowed attempt only the list is taken over. */
  lemma NothingAttempted(c: Config, env: Env, s: Sys, instances: seq<Instance>)
    requires env.cancelled(0) ==> instances != []
    requires env.cancelled(0) || instances == [] || c.policy.maxAttempts < 0
    ensures var r := Executed(c, env, s, instances);
            && r.picks == [] && r.sleeps == [] && !r.result.success && r.result.retryCount == 0
            && r.result.failedNodes == [] && r.result.error == None
            && r.sys.breakers == s.breakers && r.sys.detector == s.detector
            && (env.cancelled(0) ==>
                  r.sys == s && r.err == Some(env.cause) && r.result.instance == Some(instances[0]))
            && (!env.cancelled(0) && instances == [] ==>
                  r.err == Some(ErrNoAvailableInstances) && r.result.instance == None
                  && r.sys.manager.statusMap == map[] && r.sys.manager.nextIndex == s.manager.nextIndex)
            && (!env.cancelled(0) && instances != [] ==>
                  r.err == Some(ErrMaxRetriesExceeded) && r.result.instance == Some(instances[0])
                  && r.sys.manager.nextIndex == s.manager.nextIndex)
  {
  }

  // What the waits are.

  lemma WaitsAreThePolicys(c: Config, env: Env, s: Sys, instances: seq<Instance>, j: nat)
    requires env.cancelled(0) ==> instances != []
    requires j < |Executed(c, env, s, instances).sleeps|
    ensures Executed(c, env, s, instances).sleeps[j] == NextBackoff(c.policy, j + 1, env.random(j + 1))
  {
    hide Executed, NextBackoff, ShouldRetry, RepeatsAreRepeats, RetryRefused, ShownAfter, SomethingUsable;
    if env.cancelled(0) || instances == [] || c.policy.maxAttempts < 0 {
      NothingAttempted(c, env, s, instances);
    } else {
      ExecuteEnds(c, env, s, instances);
      var r := Executed(c, env, s, instances);
      assert WaitAt(c, env, r.picks, r.sleeps, j);
    }
  }

  /** Under the simple policy every wait is the configured interval. */
  lemma SimpleWaits(c: Config, env: Env, s: Sys, instances: seq<Instance>)
    requires env.cancelled(0) ==> instances != []
    requires c.policy.Simple?
    ensures forall w :: w in Executed(c, env, s, instances).sleeps ==> w == c.policy.interval
  {
    hide Executed;
    var sleeps := Executed(c, env, s, instances).sleeps;
    forall j: nat | j < |sleeps| ensures sleeps[j] == c.policy.interval {
      WaitsAreThePolicys(c, env, s, instances, j);
    }
  }

  /** Under the other two, the wait before attempt `j` is, while it fits, the initial interval times the
      integer part of multiplier^j, at most the maximal interval; with jitter this is so when the jitter is
      zero or the random number is one half. */
  lemma BackoffWaits(c: Config, env: Env, s: Sys, instances: seq<Instance>, j: nat)
    requires env.cancelled(0) ==> instances != []
    requires !c.policy.Simple? && Sensible(c.policy) && Fits(c.policy, j + 1)
    requires c.policy.Jittered? ==> c.policy.jitter == 0.0 || env.random(j + 1) == 0.5
    requires j < |Executed(c, env, s, instances).sleeps|
    ensures Executed(c, env, s, instances).sleeps[j] ==
            Min(c.policy.initial * Pow(c.policy.multiplier, j + 1).Floor, c.policy.maxInterval)
  {
    hide Executed, NextBackoff, Fits, Sensible;
    WaitsAreThePolicys(c, env, s, instances, j);
    PlainBackoff(c.policy, j + 1, env.random(j + 1));
  }
}
