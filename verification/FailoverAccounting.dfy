/** What one Execute reports, compared with what it did. */
module FailoverAccounting {
  import opened Arithmetic
  import opened Types
  import opened Retry
  import opened InstanceManagement
  import opened Failover
  import CB = Breaker
  import HD = HealthDetector

  /** IDs of the instances that were really tried (repeat selections are skipped), in order. */
  function Tried(picks: seq<Pick>): seq<string> {
    if picks == [] then []
    else
      var front, k := Tried(picks[..|picks| - 1]), picks[|picks| - 1];
      if k.verdict == Repeat then front else front + [k.instance.id]
  }

  /** IDs of the instances on which the operation ran. */
  function Called(picks: seq<Pick>): seq<string> {
    if picks == [] then []
    else
      var front, k := Called(picks[..|picks| - 1]), picks[|picks| - 1];
      if k.verdict.Ran() then front + [k.instance.id] else front
  }

  /** Addresses of the tried instances that did not serve the call. */
  function Losers(picks: seq<Pick>): seq<string> {
    if picks == [] then []
    else
      var front, k := Losers(picks[..|picks| - 1]), picks[|picks| - 1];
      if k.verdict == Repeat || k.verdict == Served then front else front + [k.instance.address]
  }

  function Repeats(picks: seq<Pick>): nat {
    if picks == [] then 0
    else Repeats(picks[..|picks| - 1]) + if picks[|picks| - 1].verdict == Repeat then 1 else 0
  }

  /** The error of the last instance that was tried. */
  function LastError(picks: seq<Pick>): Option<Error> {
    if picks == [] then None
    else
      match picks[|picks| - 1].verdict
      case Repeat => LastError(picks[..|picks| - 1])
      case Refused => Some(ErrCircuitOpen)
      case Unwell(e) => Some(e)
      case Failed(e) => Some(e)
      case Served => None
  }

  ghost predicate SomeRefused(picks: seq<Pick>) {
    exists k :: 0 <= k < |picks| && picks[k].verdict == Refused
  }

  ghost predicate NoneServed(picks: seq<Pick>) {
    forall k :: 0 <= k < |picks| ==> picks[k].verdict != Served
  }

  ghost predicate Listed(instances: seq<Instance>, picks: seq<Pick>) {
    forall k :: 0 <= k < |picks| ==> picks[k].instance in instances
  }

  lemma Extend(picks: seq<Pick>, k: Pick)
    ensures var all := picks + [k];
            && Tried(all) == (if k.verdict == Repeat then Tried(picks) else Tried(picks) + [k.instance.id])
            && Called(all) == (if k.verdict.Ran() then Called(picks) + [k.instance.id] else Called(picks))
            && Losers(all) == (if k.verdict == Repeat || k.verdict == Served then Losers(picks)
                               else Losers(picks) + [k.instance.address])
            && Repeats(all) == Repeats(picks) + if k.verdict == Repeat then 1 else 0
  {
    assert (picks + [k])[..|picks|] == picks;
  }

  lemma ExtendErrors(picks: seq<Pick>, k: Pick)
    ensures SomeRefused(picks + [k]) <==> SomeRefused(picks) || k.verdict == Refused
    ensures k.verdict == Repeat ==> LastError(picks + [k]) == LastError(picks)
    ensures k.verdict == Refused ==> LastError(picks + [k]) == Some(ErrCircuitOpen)
    ensures k.verdict.Lost() ==> LastError(picks + [k]) == Some(k.verdict.err)
  {
    var all := picks + [k];
    assert all[..|picks|] == picks;
    if SomeRefused(picks) {
      var j :| 0 <= j < |picks| && picks[j].verdict == Refused;
      assert all[j].verdict == Refused;
    }
    if k.verdict == Refused {
      assert all[|picks|].verdict == Refused;
    }
  }

  /** Facts that hold of the loop's variables throughout. */
  ghost predicate Books(instances: seq<Instance>, p: Progress) {
    && p.sys.manager.instances == instances
    && p.failedNodes == Losers(p.picks)
    && (forall id :: id in p.tried <==> id in Tried(p.picks))
    && Distinct(Tried(p.picks))
    && Distinct(Called(p.picks))
    && (forall id :: id in Called(p.picks) ==> id in Tried(p.picks))
    && Listed(instances, p.picks)
    && (p.tripped <==> SomeRefused(p.picks))
  }

  /** The state in which iteration `a` starts. */
  ghost predicate Ready(c: Config, instances: seq<Instance>, a: nat, p: Progress) {
    && Books(instances, p)
    && NoneServed(p.picks)
    && |p.picks| == a <= Max(1, c.policy.maxAttempts)
    && p.retryCount == Max(0, a - 1)
    && (a > 0 ==> p.lastErr.Some?)
    && p.lastErr == LastError(p.picks)
  }

  ghost predicate Settled(c: Config, instances: seq<Instance>, o: Outcome) {
    var p := o.p;
    && Books(instances, p)
    && |p.picks| <= Max(1, c.policy.maxAttempts)
    && match o
       case Won(_, i) =>
         && p.picks != [] && p.picks[|p.picks| - 1] == Pick(i, Served)
         && NoneServed(p.picks[..|p.picks| - 1])
         && p.retryCount == |p.picks| - 1
       case _ =>
         && NoneServed(p.picks)
         && (c.policy.maxAttempts >= 0 ==> p.lastErr.Some?)
         && (p.lastErr == LastError(p.picks) || p.lastErr == Some(ErrNoAvailableInstances))
  }

  /** `q` is `p` after trying the instance of pick `k`. */
  ghost predicate Recorded(p: Progress, q: Progress, k: Pick) {
    && k.verdict != Repeat
    && q.picks == p.picks + [k]
    && q.tried == p.tried + {k.instance.id}
    && q.failedNodes == (if k.verdict == Served then p.failedNodes else p.failedNodes + [k.instance.address])
    && q.retryCount == p.retryCount && q.sleeps == p.sleeps
    && q.sys.manager.instances == p.sys.manager.instances
    && q.sys.manager.nextIndex == p.sys.manager.nextIndex
    && (k.verdict != Served ==> q.lastErr.Some?)
    && (k.verdict == Refused ==> q.lastErr == Some(ErrCircuitOpen))
    && (k.verdict.Lost() ==> q.lastErr == Some(k.verdict.err))
    && (q.tripped <==> p.tripped || k.verdict == Refused)
  }

  lemma TryRecords(c: Config, env: Env, a: nat, p: Progress, i: Instance) returns (k: Pick)
    ensures var o := Try(c, env, a, p, i);
            && k.instance == i && Recorded(p, o.p, k)
            && if k.verdict == Served then o == Won(o.p, i) else o == Going(o.p)
  {
    hide CB.StepAll, CB.Step, HD.AfterFailure, HD.AfterSuccess;
    var o := Try(c, env, a, p, i);
    k := o.p.picks[|p.picks|];
  }

  lemma RecordedBooks(instances: seq<Instance>, p: Progress, q: Progress, k: Pick)
    requires Books(instances, p) && k.instance in instances && k.instance.id !in p.tried && Recorded(p, q, k)
    ensures Books(instances, q) && q.picks[..|p.picks|] == p.picks
    ensures NoneServed(p.picks) && k.verdict != Served ==> NoneServed(q.picks)
    ensures k.verdict != Served ==> q.lastErr == LastError(q.picks)
  {
    hide Tried, Called, Losers, Repeats, LastError, SomeRefused;
    Extend(p.picks, k);
    ExtendErrors(p.picks, k);
  }

  lemma SelectedBooks(instances: seq<Instance>, p: Progress, m: Manager)
    requires Books(instances, p)
    ensures p.sys.manager.instances == instances
    ensures m.instances == instances ==> Books(instances, p.(sys := p.sys.(manager := m)))
    ensures Books(instances, p.(lastErr := Some(ErrNoAvailableInstances)))
  {
  }

  lemma RepeatBooks(instances: seq<Instance>, p: Progress, i: Instance, m: Manager)
    requires Books(instances, p) && i in instances && m.instances == instances
    ensures var q := p.(sys := p.sys.(manager := m), picks := p.picks + [Pick(i, Repeat)]);
            && Books(instances, q) && (NoneServed(p.picks) ==> NoneServed(q.picks))
            && LastError(q.picks) == LastError(p.picks)
  {
    hide Tried, Called, Losers, Repeats, LastError, SomeRefused;
    Extend(p.picks, Pick(i, Repeat));
    ExtendErrors(p.picks, Pick(i, Repeat));
  }

  /** How an iteration leaves the books: one more pick, unless it stops. */
  ghost predicate Kept(instances: seq<Instance>, p: Progress, o: Outcome) {
    && Books(instances, o.p) && o.p.retryCount == p.retryCount
    && match o
       case Going(q) =>
         && |q.picks| == |p.picks| + 1 && NoneServed(q.picks)
         && (p.lastErr.Some? || p.tried == {} ==> q.lastErr.Some?)
         && (p.lastErr == LastError(p.picks) ==> q.lastErr == LastError(q.picks))
       case Won(q, i) => q.picks == p.picks + [Pick(i, Served)]
       case Stopped(q) =>
         && q.picks == p.picks && (p.lastErr.Some? || p.tried == {} ==> q.lastErr.Some?)
         && (q.lastErr == p.lastErr || q.lastErr == Some(ErrNoAvailableInstances))
       case Cancelled(_) => false
  }

  lemma ChooseKeepsBooks(c: Config, env: Env, instances: seq<Instance>, a: nat, p: Progress)
    requires Books(instances, p) && NoneServed(p.picks)
    ensures Kept(instances, p, Choose(c, env, |instances|, a, p))
  {
    hide Try, Select, Books, NoneServed;
    SelectionIsUsable(p.sys.manager, c.strategy, env.choose(a));
    var s := Select(p.sys.manager, c.strategy, env.choose(a));
    if s.Selected? {
      SelectedBooks(instances, p, s.manager);
      var q := p.(sys := p.sys.(manager := s.manager));
      if s.instance.id !in p.tried {
        var k := TryRecords(c, env, a, q, s.instance);
        RecordedBooks(instances, q, Try(c, env, a, q, s.instance).p, k);
      } else {
        RepeatBooks(instances, q, s.instance, SetStatus(s.manager, s.instance.id, Unhealthy));
      }
    } else {
      SelectedBooks(instances, p, p.sys.manager);
    }
  }

  lemma KeptStaysReady(c: Config, instances: seq<Instance>, a: nat, p: Progress, q: Progress, o: Outcome)
    requires Ready(c, instances, a, p) && a <= c.policy.maxAttempts
    requires a > 0 ==> a < c.policy.maxAttempts
    requires q.picks == p.picks && q.tried == p.tried && q.lastErr == p.lastErr && q.retryCount == a
    requires Kept(instances, q, o)
    ensures o.Going? ==> Ready(c, instances, a + 1, o.p)
    ensures !o.Going? ==> Settled(c, instances, o)
  {
    assert p.picks == [] ==> p.tried == {};
    if o.Won? {
      assert o.p.picks[..|o.p.picks| - 1] == p.picks;
    }
  }

  lemma {:induction false} LoopAccounts(c: Config, env: Env, instances: seq<Instance>, a: nat, p: Progress)
    requires Ready(c, instances, a, p)
    ensures Settled(c, instances, Loop(c, env, |instances|, a, p))
    decreases c.policy.maxAttempts + 1 - a
  {
    hide Choose, NextBackoff;
    if a <= c.policy.maxAttempts && (a > 0 ==> ShouldRetry(c.policy, a, p.lastErr) && !env.cancelled(a)) {
      var q := if a == 0 then p
               else p.(retryCount := a, sleeps := p.sleeps + [NextBackoff(c.policy, a, env.random(a))]);
      ChooseKeepsBooks(c, env, instances, a, q);
      var o := Choose(c, env, |instances|, a, q);
      assert Iterate(c, env, |instances|, a, p) == o;
      KeptStaysReady(c, instances, a, p, q, o);
      if o.Going? {
        LoopAccounts(c, env, instances, a + 1, o.p);
      }
    }
  }

  lemma {:induction false} PicksAddUp(picks: seq<Pick>)
    requires NoneServed(picks)
    ensures |picks| == |Losers(picks)| + Repeats(picks)
  {
    if picks == [] {
    } else {
      PicksAddUp(picks[..|picks| - 1]);
    }
  }

  lemma {:induction false} CalledFewer(picks: seq<Pick>)
    ensures |Called(picks)| <= |picks|
  {
    if picks == [] {
    } else {
      CalledFewer(picks[..|picks| - 1]);
    }
  }

  function Ids(instances: seq<Instance>): set<string> {
    set i | i in instances :: i.id
  }

  lemma {:induction false} TriedAreListed(instances: seq<Instance>, picks: seq<Pick>)
    requires Listed(instances, picks)
    ensures forall id :: id in Tried(picks) ==> id in Ids(instances)
  {
    if picks == [] {
    } else {
      TriedAreListed(instances, picks[..|picks| - 1]);
      assert picks[|picks| - 1].instance in instances;
    }
  }

  lemma {:induction false} DistinctFits(s: seq<string>, ids: set<string>)
    requires Distinct(s) && forall x :: x in s ==> x in ids
    ensures |s| <= |ids|
  {
    if s == [] {
    } else {
      var x := s[0];
      assert x in ids;
      assert forall y :: y in s[1..] ==> y in ids - {x};
      DistinctFits(s[1..], ids - {x});
    }
  }

  /** There is no error exactly on success; each ID is tried, and the operation run on it, at most
      once, and the operation runs at most max(1, MaxRetries) times; FailedNodes lists exactly the tried
      instances that did not serve, in order; the winner is the last pick, and then RetryCount
      counts the losers and the repeat picks. A final error is that of the last tried instance, or
      that none was usable; a refusal anywhere in the run takes precedence in what is returned, and
      the instance shown is one that was not tried, if there is one. */
  ghost predicate Account(c: Config, instances: seq<Instance>, r: Report) {
    && (r.err.None? <==> r.result.success)
    && Distinct(Tried(r.picks)) && Distinct(Called(r.picks))
    && |Called(r.picks)| <= Min(|Ids(instances)|, Max(1, c.policy.maxAttempts))
    && r.result.failedNodes == Losers(r.picks)
    && (r.result.success ==>
          && r.picks != [] && NoneServed(r.picks[..|r.picks| - 1])
          && r.result.instance.Some? && r.picks[|r.picks| - 1] == Pick(r.result.instance.value, Served)
          && r.result.retryCount == |r.result.failedNodes| + Repeats(r.picks))
    && (!r.result.success ==> NoneServed(r.picks))
    && (r.result.error.Some? ==>
          && (r.result.error == LastError(r.picks) || r.result.error == Some(ErrNoAvailableInstances))
          && r.err == (if SomeRefused(r.picks) then Some(ErrCircuitOpen)
                      else if r.result.retryCount >= c.policy.maxAttempts then Some(ErrMaxRetriesExceeded)
                      else r.result.error)
          && r.result.instance.Some? && r.result.instance.value in instances
          && ((exists i :: i in instances && i.id !in Tried(r.picks)) ==>
                r.result.instance.value.id !in Tried(r.picks)))
  }

  lemma SettledAccount(c: Config, env: Env, instances: seq<Instance>, o: Outcome)
    requires instances != [] && !o.Going? && Settled(c, instances, o)
    ensures Account(c, instances, Conclude(c, env, instances, o))
  {
    hide Losers, Tried, Called, Repeats;
    var picks := o.p.picks;
    CallsFit(c, instances, picks);
    if o.Won? {
      LastWins(picks, o.instance);
    }
  }

  lemma CallsFit(c: Config, instances: seq<Instance>, picks: seq<Pick>)
    requires Listed(instances, picks) && Distinct(Called(picks)) && |picks| <= Max(1, c.policy.maxAttempts)
    requires forall id :: id in Called(picks) ==> id in Tried(picks)
    ensures |Called(picks)| <= Min(|Ids(instances)|, Max(1, c.policy.maxAttempts))
  {
    CalledFewer(picks);
    TriedAreListed(instances, picks);
    DistinctFits(Called(picks), Ids(instances));
  }

  lemma LastWins(picks: seq<Pick>, i: Instance)
    requires picks != [] && picks[|picks| - 1] == Pick(i, Served) && NoneServed(picks[..|picks| - 1])
    ensures |picks| - 1 == |Losers(picks)| + Repeats(picks)
  {
    PicksAddUp(picks[..|picks| - 1]);
  }

  lemma {:induction false} LoopIsDone(c: Config, env: Env, n: nat, a: nat, p: Progress)
    ensures !Loop(c, env, n, a, p).Going?
    decreases c.policy.maxAttempts + 1 - a
  {
    hide Iterate;
    if a > c.policy.maxAttempts {
    } else {
      var o := Iterate(c, env, n, a, p);
      if o.Going? {
        LoopIsDone(c, env, n, a + 1, o.p);
      }
    }
  }

  lemma BeginsReady(c: Config, s: Sys, instances: seq<Instance>)
    ensures Ready(c, instances, 0, Begin(s, instances))
  {
  }

  lemma NothingToAccount(c: Config, instances: seq<Instance>, r: Report)
    requires r.picks == [] && r.err.Some? && !r.result.success && r.result.failedNodes == [] && r.result.error.None?
    ensures Account(c, instances, r)
  {
  }

  /** The account holds of every Execute, whatever the environment does. */
  lemma ExecuteAccounts(c: Config, env: Env, s: Sys, instances: seq<Instance>)
    requires env.cancelled(0) ==> instances != []
    ensures Account(c, instances, Executed(c, env, s, instances))
  {
    hide Loop, Account, Settled, Ready, Conclude;
    if !env.cancelled(0) && instances != [] {
      var p := Begin(s, instances);
      BeginsReady(c, s, instances);
      LoopAccounts(c, env, instances, 0, p);
      LoopIsDone(c, env, |instances|, 0, p);
      SettledAccount(c, env, instances, Loop(c, env, |instances|, 0, p));
    } else {
      NothingToAccount(c, instances, Executed(c, env, s, instances));
    }
  }

  // Waiting.

  function Slept(sleeps: seq<int>): int {
    if sleeps == [] then 0 else Slept(sleeps[..|sleeps| - 1]) + Max(0, sleeps[|sleeps| - 1])
  }

  ghost predicate RandomInRange(env: Env) {
    forall a :: 0.0 <= env.random(a) < 1.0
  }

  lemma ChooseDoesNotSleep(c: Config, env: Env, n: nat, a: nat, p: Progress)
    ensures Choose(c, env, n, a, p).p.sleeps == p.sleeps
  {
    hide Try, Select;
    var s := Select(p.sys.manager, c.strategy, env.choose(a));
    if s.Selected? && s.instance.id !in p.tried {
      var k := TryRecords(c, env, a, p.(sys := p.sys.(manager := s.manager)), s.instance);
    }
  }

  ghost predicate SleptLittle(c: Config, sleeps: seq<int>) {
    && |sleeps| <= Max(0, c.policy.maxAttempts - 1)
    && Slept(sleeps) as real <= Scale(|sleeps|, SleepBound(c.policy))
  }

  lemma OneMoreSleep(c: Config, env: Env, a: nat, sleeps: seq<int>)
    requires Capped(c.policy) && RandomInRange(env) && SleptLittle(c, sleeps)
    requires |sleeps| < a < c.policy.maxAttempts
    ensures SleptLittle(c, sleeps + [NextBackoff(c.policy, a, env.random(a))])
  {
    var w := NextBackoff(c.policy, a, env.random(a));
    SleepIsBounded(c.policy, a, env.random(a));
    assert (sleeps + [w])[..|sleeps|] == sleeps;
    OneMore(|sleeps|, SleepBound(c.policy));
  }

  lemma IterateSleeps(c: Config, env: Env, n: nat, a: nat, p: Progress)
    requires Capped(c.policy) && RandomInRange(env)
    requires SleptLittle(c, p.sleeps) && |p.sleeps| <= Max(0, a - 1)
    ensures var sleeps := Iterate(c, env, n, a, p).p.sleeps; SleptLittle(c, sleeps) && |sleeps| <= a
  {
    hide Choose, NextBackoff, SleptLittle;
    if a == 0 {
      ChooseDoesNotSleep(c, env, n, a, p);
    } else if ShouldRetry(c.policy, a, p.lastErr) {
      OneMoreSleep(c, env, a, p.sleeps);
      var sleeps := p.sleeps + [NextBackoff(c.policy, a, env.random(a))];
      ChooseDoesNotSleep(c, env, n, a, p.(retryCount := p.retryCount + 1, sleeps := sleeps));
    }
  }

  lemma {:induction false} LoopSleeps(c: Config, env: Env, n: nat, a: nat, p: Progress)
    requires Capped(c.policy) && RandomInRange(env)
    requires SleptLittle(c, p.sleeps) && |p.sleeps| <= Max(0, a - 1)
    ensures SleptLittle(c, Loop(c, env, n, a, p).p.sleeps)
    decreases c.policy.maxAttempts + 1 - a
  {
    hide Iterate, SleptLittle;
    if a > c.policy.maxAttempts {
    } else {
      IterateSleeps(c, env, n, a, p);
      var o := Iterate(c, env, n, a, p);
      if o.Going? {
        LoopSleeps(c, env, n, a + 1, o.p);
      }
    }
  }

  lemma OneMore(n: nat, b: real)
    ensures Scale(n + 1, b) == Scale(n, b) + b
  {
  }

  /** One Execute waits at most MaxRetries - 1 times, and in total at most that many longest waits,
      even when an interval overflows. */
  lemma WaitingIsBounded(c: Config, env: Env, s: Sys, instances: seq<Instance>)
    requires env.cancelled(0) ==> instances != []
    requires Capped(c.policy) && RandomInRange(env)
    ensures var sleeps := Executed(c, env, s, instances).sleeps;
            && |sleeps| <= Max(0, c.policy.maxAttempts - 1)
            && Slept(sleeps) as real <= Scale(Max(0, c.policy.maxAttempts - 1), SleepBound(c.policy))
  {
    ScaleInt(0, 0);
    ZeroTimes(SleepBound(c.policy));
    SleepIsBounded(c.policy, 0, 0.0);
    if !env.cancelled(0) && instances != [] {
      LoopSleeps(c, env, |instances|, 0, Begin(s, instances));
    }
    ScaleMonoLeft(|Executed(c, env, s, instances).sleeps|, Max(0, c.policy.maxAttempts - 1), SleepBound(c.policy));
  }

  lemma ZeroTimes(b: real)
    ensures Scale(0, b) == 0.0
  {
  }
}
