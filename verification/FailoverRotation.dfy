/** The rotation of the instance manager over whole Executes, and from one Execute to the next. */
module FailoverRotation {
  import opened Arithmetic
  import opened Types
  import opened Retry
  import opened InstanceManagement
  import opened Failover
  import opened FailoverAccounting
  import opened FailoverReplay
  import opened FailoverEnding
  import opened FailoverCompleteness
  import CB = Breaker
  import HD = HealthDetector

  /** Position `q` is the first usable one of the list, cyclically from `start` on. */
  ghost predicate FirstFrom(statusMap: map<string, Status>, instances: seq<Instance>, start: nat, q: nat) {
    q < |instances| && Usable(statusMap, instances[q].id) &&
    exists d :: 0 <= d < |instances| && q == Position(start, d, |instances|)
                && forall e :: 0 <= e < d ==> !Usable(statusMap, instances[Position(start, e, |instances|)].id)
  }

  function Position(start: nat, d: nat, n: nat): (p: nat)
    requires n > 0
    ensures p < n
  {
    (start + d) % n
  }

  /** The position after `p`, cyclically. */
  function Next(p: nat, n: nat): nat
    requires n > 0
  {
    (p + 1) % n
  }

  /** The position after the latest of `positions`, or `start`. */
  function After(start: nat, positions: seq<nat>, n: nat): nat
    requires n > 0
  {
    if positions == [] then start else Next(positions[|positions| - 1], n)
  }

  /** Each pick of a run is the first usable position after the one before, in the statuses it meets. */
  ghost predicate Walk(c: Config, env: Env, s0: Sys, instances: seq<Instance>, picks: seq<Pick>, positions: seq<nat>) {
    instances != [] && |positions| == |picks| && forall k: nat :: k < |picks| ==>
      StepsTo(c, env, s0, instances, picks, positions, k)
  }

  ghost predicate StepsTo(c: Config, env: Env, s0: Sys, instances: seq<Instance>, picks: seq<Pick>,
                          positions: seq<nat>, k: nat)
    requires instances != [] && k < |picks| == |positions|
  {
    && FirstFrom(Replay(c, env, s0, picks[..k]).manager.statusMap, instances,
                 After(s0.manager.nextIndex, positions[..k], |instances|), positions[k])
    && instances[positions[k]] == picks[k].instance
  }

  lemma NextIsFirstFrom(m: Manager)
    requires m.instances != [] && SomethingUsable(m.statusMap, m.instances)
    ensures FirstFrom(m.statusMap, m.instances, m.nextIndex, NextPosition(m))
  {
    var i :| i in m.instances && Usable(m.statusMap, i.id);
    var p :| 0 <= p < |m.instances| && m.instances[p] == i;
    var d := OffsetOf(m, p);
    assert UsableAt(m, At(m, d));
    var e := FirstUsable(m, 0);
    assert e <= d;
    assert NextPosition(m) == At(m, e) == Position(m.nextIndex, e, |m.instances|);
    forall j | 0 <= j < e ensures !Usable(m.statusMap, m.instances[Position(m.nextIndex, j, |m.instances|)].id) {
      assert At(m, j) == Position(m.nextIndex, j, |m.instances|);
      assert !UsableAt(m, At(m, j));
    }
  }

  lemma WalkOn(c: Config, env: Env, s0: Sys, instances: seq<Instance>, picks: seq<Pick>, positions: seq<nat>,
               k: Pick, q: nat)
    requires Walk(c, env, s0, instances, picks, positions) && q < |instances| && instances[q] == k.instance
    requires FirstFrom(Replay(c, env, s0, picks).manager.statusMap, instances,
                       After(s0.manager.nextIndex, positions, |instances|), q)
    ensures Walk(c, env, s0, instances, picks + [k], positions + [q])
  {
    hide Replay, FirstFrom, After;
    forall j: nat | j < |picks| + 1
      ensures StepsTo(c, env, s0, instances, picks + [k], positions + [q], j)
    {
      assert (picks + [k])[..j] == picks[..j] && (positions + [q])[..j] == positions[..j];
      if j < |picks| {
        assert StepsTo(c, env, s0, instances, picks, positions, j);
      } else {
        assert picks[..j] == picks && positions[..j] == positions;
      }
    }
  }

  /** A selection advances the rotation past the position it returns; trying changes nothing about it. */
  ghost predicate Turns(instances: seq<Instance>, p: Progress, o: Outcome)
    requires p.sys.manager.instances == instances != []
  {
    var m := p.sys.manager;
    && o.p.sys.manager.instances == instances
    && if !SomethingUsable(m.statusMap, instances) then o.Stopped? && o.p.picks == p.picks && o.p.sys == p.sys
       else
         && o.p.sys.manager.nextIndex == Next(NextPosition(m), |instances|)
         && (o.Stopped? ==> o.p.picks == p.picks && o.p.sys.manager.statusMap == m.statusMap)
         && (o.Going? || o.Won? ==> o.p.picks != [] && o.p.picks[..|o.p.picks| - 1] == p.picks
                                    && o.p.picks[|o.p.picks| - 1].instance == instances[NextPosition(m)])
  }

  lemma ChooseTurns(c: Config, env: Env, instances: seq<Instance>, a: nat, p: Progress)
    requires RoundRobin(c.strategy) && p.sys.manager.instances == instances != []
    ensures Turns(instances, p, Choose(c, env, |instances|, a, p)) && !Choose(c, env, |instances|, a, p).Cancelled?
  {
    hide Try, SomethingUsable, NextPosition;
    SelectsUsable(p.sys.manager, c.strategy, env.choose(a));
    SelectionIsUsable(p.sys.manager, c.strategy, env.choose(a));
    var s := Select(p.sys.manager, c.strategy, env.choose(a));
    if s.Selected? && s.instance.id !in p.tried {
      var k := TryRecords(c, env, a, p.(sys := p.sys.(manager := s.manager)), s.instance);
    }
  }

  /** The rotation stands after the last position, or, when the loop stopped on a selection of a tried
      instance, after that one. */
  ghost predicate Rests(s0: Sys, instances: seq<Instance>, o: Outcome, positions: seq<nat>)
    requires instances != []
  {
    var m, start := o.p.sys.manager, After(s0.manager.nextIndex, positions, |instances|);
    if o.Stopped? && |o.p.sleeps| == |o.p.picks| && SomethingUsable(m.statusMap, instances) then
      exists q: nat :: FirstFrom(m.statusMap, instances, start, q) && m.nextIndex == Next(q, |instances|)
    else m.nextIndex == start
  }

  /** The loop's variables at the start of an iteration. */
  ghost predicate Walking(c: Config, env: Env, s0: Sys, instances: seq<Instance>, p: Progress, positions: seq<nat>) {
    && Replays(c, env, s0, p) && p.sys.manager.instances == instances
    && Walk(c, env, s0, instances, p.picks, positions)
    && p.sys.manager.nextIndex == After(s0.manager.nextIndex, positions, |instances|)
    && |p.sleeps| == Max(0, |p.picks| - 1)
  }

  lemma ChooseWalks(c: Config, env: Env, s0: Sys, instances: seq<Instance>, p: Progress, q: Progress,
                    positions: seq<nat>) returns (more: seq<nat>)
    requires RoundRobin(c.strategy) && Walking(c, env, s0, instances, p, positions)
    requires q.sys == p.sys && q.picks == p.picks && |q.sleeps| == |p.picks|
    ensures var o := Choose(c, env, |instances|, |p.picks|, q);
            && (o.Going? ==> Walking(c, env, s0, instances, o.p, more) && |o.p.picks| == |p.picks| + 1)
            && (!o.Going? ==> Walk(c, env, s0, instances, o.p.picks, more) && Rests(s0, instances, o, more))
  {
    hide Replay, LegitRun, NextPosition, FirstFrom, After, SomethingUsable, Choose;
    var o := Choose(c, env, |instances|, |p.picks|, q);
    ChooseTurns(c, env, instances, |p.picks|, q);
    ChooseReplays(c, env, |instances|, s0, q);
    ChooseDoesNotSleep(c, env, |instances|, |p.picks|, q);
    more := positions;
    if SomethingUsable(q.sys.manager.statusMap, instances) {
      var at := NextPosition(q.sys.manager);
      NextIsFirstFrom(q.sys.manager);
      if o.Going? || o.Won? {
        var k := o.p.picks[|o.p.picks| - 1];
        assert o.p.picks == p.picks + [k];
        WalkOn(c, env, s0, instances, p.picks, positions, k, at);
        more := positions + [at];
        AfterSnoc(s0.manager.nextIndex, positions, at, |instances|);
      }
    }
  }

  lemma AfterSnoc(start: nat, positions: seq<nat>, q: nat, n: nat)
    requires n > 0
    ensures After(start, positions + [q], n) == Next(q, n)
  {
  }

  lemma {:induction false} LoopWalks(c: Config, env: Env, s0: Sys, instances: seq<Instance>, p: Progress,
                                     positions: seq<nat>) returns (all: seq<nat>)
    requires RoundRobin(c.strategy) && c.policy.maxAttempts >= 0 && Walking(c, env, s0, instances, p, positions)
    requires |p.picks| <= c.policy.maxAttempts || p.picks != []
    ensures var o := Loop(c, env, |instances|, |p.picks|, p);
            Walk(c, env, s0, instances, o.p.picks, all) && Rests(s0, instances, o, all)
    decreases c.policy.maxAttempts + 1 - |p.picks|
  {
    hide Choose, NextBackoff, ShouldRetry, Replays, Walk, After, SomethingUsable, FirstFrom;
    var a := |p.picks|;
    all := positions;
    if a > c.policy.maxAttempts || (a > 0 && !ShouldRetry(c.policy, a, p.lastErr)) {
    } else {
      var q := if a == 0 then p
               else p.(retryCount := p.retryCount + 1, sleeps := p.sleeps + [NextBackoff(c.policy, a, env.random(a))]);
      if a > 0 && env.cancelled(a) {
      } else {
        var o := Choose(c, env, |instances|, a, q);
        assert Iterate(c, env, |instances|, a, p) == o;
        all := ChooseWalks(c, env, s0, instances, p, q, positions);
        if o.Going? {
          all := LoopWalks(c, env, s0, instances, o.p, all);
        }
      }
    }
  }

  /** The call ended on the selection of an instance that was tried before, with every ID tried. */
  predicate EndsOnRepeat(env: Env, instances: seq<Instance>, r: Report) {
    && !r.result.success && |r.sleeps| == |r.picks| && (r.picks != [] ==> !env.cancelled(|r.picks|))
    && SomethingUsable(r.sys.manager.statusMap, instances)
  }

  /** Where the rotation stands after an Execute whose picks went through `positions`. */
  ghost predicate Rested(env: Env, s: Sys, instances: seq<Instance>, r: Report, positions: seq<nat>)
    requires instances != []
  {
    var start := After(s.manager.nextIndex, positions, |instances|);
    if EndsOnRepeat(env, instances, r) then
      exists q: nat :: FirstFrom(r.sys.manager.statusMap, instances, start, q)
                  && r.sys.manager.nextIndex == Next(q, |instances|)
    else r.sys.manager.nextIndex == start
  }

  /** The rotation of an Execute goes on from where the handler's state has it, each pick taking the first
      usable position after the pick before; it is left after the last pick, or after the selection that the
      call ended on. */
  lemma ExecuteRotates(c: Config, env: Env, s: Sys, instances: seq<Instance>) returns (positions: seq<nat>)
    requires RoundRobin(c.strategy) && c.policy.maxAttempts >= 0 && !env.cancelled(0) && instances != []
    ensures var r := Executed(c, env, s, instances);
            && Start(env, s, instances).manager.nextIndex == s.manager.nextIndex
            && Walk(c, env, Start(env, s, instances), instances, r.picks, positions)
            && Rested(env, s, instances, r, positions)
  {
    hide Loop, SomethingUsable, FirstFrom, RetryRefused, RepeatsAreRepeats, Waited;
    var p := Begin(s, instances);
    BeginsBegun(c, env, s, instances);
    LoopEnds(c, env, instances, 0, p);
    positions := LoopWalks(c, env, p.sys, instances, p, []);
  }

  // From one Execute to the next.

  lemma RelistingKeepsUse(statusMap: map<string, Status>, instances: seq<Instance>)
    ensures forall i :: i in instances ==>
              (Usable(Relisted(statusMap, instances), i.id) <==> Usable(statusMap, i.id))
  {
  }

  lemma SameUseSameFirst(x: map<string, Status>, y: map<string, Status>, instances: seq<Instance>, start: nat, q: nat)
    requires forall i :: i in instances ==> (Usable(x, i.id) <==> Usable(y, i.id))
    ensures FirstFrom(x, instances, start, q) <==> FirstFrom(y, instances, start, q)
  {
  }

  /** The first pick of an Execute is the first usable position from where the handler's state has the
      rotation. */
  lemma FirstPickIsNext(c: Config, env: Env, s: Sys, instances: seq<Instance>) returns (q: nat)
    requires RoundRobin(c.strategy) && c.policy.maxAttempts >= 0 && !env.cancelled(0) && instances != []
    requires Executed(c, env, s, instances).picks != []
    ensures FirstFrom(s.manager.statusMap, instances, s.manager.nextIndex, q)
    ensures Executed(c, env, s, instances).picks[0].instance == instances[q]
  {
    hide Executed, FirstFrom, Usable, Rested;
    var positions := ExecuteRotates(c, env, s, instances);
    var r, s0 := Executed(c, env, s, instances), Start(env, s, instances);
    q := positions[0];
    assert StepsTo(c, env, s0, instances, r.picks, positions, 0);
    assert r.picks[..0] == [] && positions[..0] == [];
    RelistingKeepsUse(s.manager.statusMap, instances);
    SameUseSameFirst(s.manager.statusMap, s0.manager.statusMap, instances, s.manager.nextIndex, q);
  }

  /** `next` is the position after `last`, or else after the first usable one that follows it. */
  ghost predicate GoesOn(statusMap: map<string, Status>, instances: seq<Instance>, onRepeat: bool, last: nat, next: nat)
    requires instances != []
  {
    if onRepeat then
      exists x: nat :: FirstFrom(statusMap, instances, Next(last, |instances|), x) && next == Next(x, |instances|)
    else next == Next(last, |instances|)
  }

  /** An Execute leaves the rotation after its last pick; if it ended on the selection of a tried instance,
      after that selection, the first usable position that follows the last pick. */
  lemma RotationIsLeft(c: Config, env: Env, s: Sys, instances: seq<Instance>) returns (last: nat)
    requires RoundRobin(c.strategy) && c.policy.maxAttempts >= 0 && !env.cancelled(0) && instances != []
    requires Executed(c, env, s, instances).picks != []
    ensures var r := Executed(c, env, s, instances);
            && last < |instances| && instances[last] == r.picks[|r.picks| - 1].instance
            && GoesOn(r.sys.manager.statusMap, instances, EndsOnRepeat(env, instances, r), last,
                      r.sys.manager.nextIndex)
  {
    hide Executed, EndsOnRepeat, Replay;
    var r := Executed(c, env, s, instances);
    var positions := ExecuteRotates(c, env, s, instances);
    last := positions[|positions| - 1];
    assert StepsTo(c, env, Start(env, s, instances), instances, r.picks, positions, |positions| - 1);
    hide FirstFrom, Walk, StepsTo;
    assert After(s.manager.nextIndex, positions, |instances|) == Next(last, |instances|);
  }

  /** The first pick of an Execute is the first usable position, cyclically, after the place where the
      Execute before it with the same list left the rotation. */
  lemma NextExecuteFollows(c: Config, env: Env, next: Env, s: Sys, instances: seq<Instance>)
    returns (last: nat, place: nat, q: nat)
    requires RoundRobin(c.strategy) && c.policy.maxAttempts >= 0 && instances != []
    requires !env.cancelled(0) && !next.cancelled(0) && Executed(c, env, s, instances).picks != []
    requires Executed(c, next, Executed(c, env, s, instances).sys, instances).picks != []
    ensures var first := Executed(c, env, s, instances);
            var statusMap := first.sys.manager.statusMap;
            && last < |instances| && instances[last] == first.picks[|first.picks| - 1].instance
            && q < |instances| && instances[q] == Executed(c, next, first.sys, instances).picks[0].instance
            && GoesOn(statusMap, instances, EndsOnRepeat(env, instances, first), last, place)
            && FirstFrom(statusMap, instances, place, q)
  {
    hide Executed, FirstFrom, EndsOnRepeat, GoesOn;
    var first := Executed(c, env, s, instances);
    last := RotationIsLeft(c, env, s, instances);
    place := first.sys.manager.nextIndex;
    q := FirstPickIsNext(c, next, first.sys, instances);
    FirstIsListed(first.sys.manager.statusMap, instances, place, q);
  }

  lemma FirstIsListed(statusMap: map<string, Status>, instances: seq<Instance>, start: nat, q: nat)
    requires FirstFrom(statusMap, instances, start, q)
    ensures q < |instances| && Usable(statusMap, instances[q].id)
  {
  }

  // Fairness over Executes.

  function UsableNow(s: Sys, instances: seq<Instance>): set<nat> {
    set p: nat | p < |instances| && Usable(s.manager.statusMap, instances[p].id)
  }

  function Calls(envs: seq<Env>, instances: seq<Instance>): seq<Task> {
    seq(|envs|, j requires 0 <= j < |envs| => Serve(envs[j], instances))
  }

  function Turned(m: Manager, j: nat): Manager
    requires m.instances != []
    ensures Turned(m, j).instances == m.instances && Turned(m, j).statusMap == m.statusMap
  {
    if j == 0 then m else Advanced(Turned(m, j - 1))
  }

  lemma {:induction false} TurnedShift(m: Manager, j: nat)
    requires m.instances != []
    ensures Turned(Advanced(m), j) == Turned(m, j + 1)
  {
    if j == 0 {
    } else {
      TurnedShift(m, j - 1);
    }
  }

  lemma {:induction false} PicksAt(m: Manager, k: nat, j: nat)
    requires m.instances != [] && j < k
    ensures |Picks(m, k)| == k && Picks(m, k)[j] == NextPosition(Turned(m, j))
    decreases k
  {
    hide NextPosition;
    if j == 0 {
      PicksLength(m, k);
    } else {
      PicksAt(Advanced(m), k - 1, j - 1);
      TurnedShift(m, j - 1);
    }
  }

  lemma {:induction false} PicksLength(m: Manager, k: nat)
    requires m.instances != []
    ensures |Picks(m, k)| == k
    decreases k
  {
    if k == 0 {
    } else {
      PicksLength(Advanced(m), k - 1);
    }
  }

  /** The state stands in the rotation as manager `w`, with the same instances usable. */
  ghost predicate StandsAs(s: Sys, w: Manager) {
    && s.manager.nextIndex == w.nextIndex
    && forall i :: i in w.instances ==> (Usable(s.manager.statusMap, i.id) <==> Usable(w.statusMap, i.id))
  }

  lemma FirstIsUnique(statusMap: map<string, Status>, instances: seq<Instance>, start: nat, p: nat, q: nat)
    requires FirstFrom(statusMap, instances, start, p) && FirstFrom(statusMap, instances, start, q)
    ensures p == q
  {
    var d :| 0 <= d < |instances| && p == Position(start, d, |instances|)
             && forall e :: 0 <= e < d ==> !Usable(statusMap, instances[Position(start, e, |instances|)].id);
    var f :| 0 <= f < |instances| && q == Position(start, f, |instances|)
             && forall e :: 0 <= e < f ==> !Usable(statusMap, instances[Position(start, e, |instances|)].id);
    assert d == f;
  }

  /** An Execute whose first try is served. */
  ghost predicate ServedAtOnce(c: Config, env: Env, s: Sys, instances: seq<Instance>)
    requires instances != []
  {
    var r := Executed(c, env, s, instances);
    !env.cancelled(0) && r.result.success && |r.picks| == 1
  }

  lemma OneTurn(c: Config, env: Env, s: Sys, w: Manager)
    requires RoundRobin(c.strategy) && c.policy.maxAttempts >= 0 && w.instances != []
    requires StandsAs(s, w) && ServedAtOnce(c, env, s, w.instances)
    ensures var r := Executed(c, env, s, w.instances);
            r.result.instance == Some(w.instances[NextPosition(w)]) && StandsAs(r.sys, Advanced(w))
  {
    hide Executed, FirstFrom, Usable, NextPosition, LegitRun, Replay;
    var r, s0 := Executed(c, env, s, w.instances), Start(env, s, w.instances);
    var positions := ExecuteRotates(c, env, s, w.instances);
    var q := positions[0];
    assert StepsTo(c, env, s0, w.instances, r.picks, positions, 0);
    assert r.picks[..0] == [] && positions[..0] == [] && positions == [q];
    ServedState(c, env, s, w.instances);
    RelistingKeepsUse(s.manager.statusMap, w.instances);
    NothingReplays(c, env, s0);
    SameUseSameFirst(w.statusMap, s0.manager.statusMap, w.instances, w.nextIndex, q);
    FirstIsListed(w.statusMap, w.instances, w.nextIndex, q);
    assert SomethingUsable(w.statusMap, w.instances);
    NextIsFirstFrom(w);
    FirstIsUnique(w.statusMap, w.instances, w.nextIndex, NextPosition(w), q);
  }

  lemma NothingReplays(c: Config, env: Env, s: Sys)
    ensures Replay(c, env, s, []) == s
  {
  }

  lemma ServedState(c: Config, env: Env, s: Sys, instances: seq<Instance>)
    requires instances != [] && ServedAtOnce(c, env, s, instances)
    ensures var r := Executed(c, env, s, instances);
            && r.picks[0].verdict == Served && r.result.instance == Some(r.picks[0].instance)
            && forall i :: i in instances ==>
                 (Usable(r.sys.manager.statusMap, i.id) <==> Usable(s.manager.statusMap, i.id))
  {
    hide Executed;
    var r, s0 := Executed(c, env, s, instances), Start(env, s, instances);
    ExecuteAccounts(c, env, s, instances);
    ExecuteReplays(c, env, s, instances);
    var k := r.picks[0];
    assert r.picks == [] + [k];
    ReplaySnoc(c, env, s0, [], k);
    ServedPick(c, env, s0, k);
    RelistingKeepsUse(s.manager.statusMap, instances);
  }

  lemma ServedPick(c: Config, env: Env, s: Sys, k: Pick)
    requires Legit(c, env, s, 0, k) && k.verdict == Served
    ensures forall id :: Usable(ReplayPick(c, env, s, 0, k).manager.statusMap, id) <==> Usable(s.manager.statusMap, id)
  {
    hide CB.Step, CB.StepAll, HD.AfterSuccess;
  }

  /** Each of the calls is served at the first try. */
  ghost predicate AllServedAtOnce(c: Config, s: Sys, envs: seq<Env>, instances: seq<Instance>)
    requires instances != []
  {
    forall j: nat :: j < |envs| ==> ServedAtOnce(c, envs[j], Before(c, s, envs, instances, j), instances)
  }

  /** The state before call `j`. */
  function Before(c: Config, s: Sys, envs: seq<Env>, instances: seq<Instance>, j: nat): Sys
    requires instances != [] && j <= |envs|
  {
    PerformAll(c, s, Calls(envs[..j], instances))
  }

  lemma BeforeNext(c: Config, s: Sys, envs: seq<Env>, instances: seq<Instance>, j: nat)
    requires instances != [] && j < |envs|
    ensures Before(c, s, envs, instances, j + 1) ==
            Executed(c, envs[j], Before(c, s, envs, instances, j), instances).sys
  {
    hide Executed;
    var tasks := Calls(envs[..j + 1], instances);
    assert tasks[..j] == Calls(envs[..j], instances);
  }

  lemma {:induction false} TurnsFollow(c: Config, s: Sys, envs: seq<Env>, instances: seq<Instance>, j: nat)
    requires RoundRobin(c.strategy) && c.policy.maxAttempts >= 0 && instances != [] && j <= |envs|
    requires AllServedAtOnce(c, s, envs, instances)
    ensures StandsAs(Before(c, s, envs, instances, j),
                     Turned(Manager(instances, s.manager.statusMap, s.manager.nextIndex), j))
  {
    hide Executed, Advanced, Usable;
    if j == 0 {
      assert Calls(envs[..0], instances) == [];
    } else {
      TurnsFollow(c, s, envs, instances, j - 1);
      var w := Turned(Manager(instances, s.manager.statusMap, s.manager.nextIndex), j - 1);
      assert ServedAtOnce(c, envs[j - 1], Before(c, s, envs, instances, j - 1), instances);
      OneTurn(c, envs[j - 1], Before(c, s, envs, instances, j - 1), w);
      BeforeNext(c, s, envs, instances, j - 1);
    }
  }

  /** From any state, with round robin, one list and every first try served: the winners of as many calls in
      a row as there are usable positions are those positions, each exactly once. */
  lemma WinnersRotate(c: Config, s: Sys, envs: seq<Env>, instances: seq<Instance>) returns (positions: seq<nat>)
    requires RoundRobin(c.strategy) && c.policy.maxAttempts >= 0 && instances != []
    requires |envs| == |UsableNow(s, instances)| && AllServedAtOnce(c, s, envs, instances)
    ensures |positions| == |envs| && Distinct(positions)
    ensures forall p :: p in positions <==> p in UsableNow(s, instances)
    ensures forall j: nat :: j < |envs| ==>
              positions[j] < |instances| &&
              Executed(c, envs[j], Before(c, s, envs, instances, j), instances).result.instance
              == Some(instances[positions[j]])
  {
    hide Executed, NextPosition, Before, Picks, Turned;
    var m := Manager(instances, s.manager.statusMap, s.manager.nextIndex);
    assert UsablePositions(m) == UsableNow(s, instances);
    RotationIsFair(m);
    positions := Picks(m, |envs|);
    forall j: nat | j < |envs|
      ensures positions[j] < |instances|
      ensures Executed(c, envs[j], Before(c, s, envs, instances, j), instances).result.instance
              == Some(instances[positions[j]])
    {
      assert ServedAtOnce(c, envs[j], Before(c, s, envs, instances, j), instances);
      TurnsFollow(c, s, envs, instances, j);
      OneTurn(c, envs[j], Before(c, s, envs, instances, j), Turned(m, j));
      PicksAt(m, |envs|, j);
    }
  }
}
