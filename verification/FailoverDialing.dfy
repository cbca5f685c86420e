/** Execute with the detector that dials its instances (TimeoutDetector of cluster/failover/detector.go):
    when a failed instance can be called again, and how one call counts. */
module FailoverDialing {
  import opened Arithmetic
  import opened Types
  import opened InstanceManagement
  import opened Failover
  import opened FailoverAccounting
  import opened FailoverReplay
  import opened FailoverSafety
  import CB = Breaker
  import BH = BreakerHistory
  import HD = HealthDetector

  /** The operation did not run on `id`. */
  ghost predicate NotCalled(picks: seq<Pick>, id: string) {
    forall k :: 0 <= k < |picks| && picks[k].instance.id == id ==> !picks[k].verdict.Ran()
  }

  /** One good dial cannot restore the instance. */
  predicate Unforgiving(t: HD.Thresholds) {
    t.success >= 2 || t.failure <= 1
  }

  predicate Condemned(t: HD.Thresholds, d: HD.Detector, id: string) {
    && HD.StatusOf(d, id) != Healthy
    && HD.Tally(d.successCount, id) == 0
    && (t.success <= 1 ==> HD.StatusOf(d, id) == Unhealthy || HD.StatusOf(d, id) == Isolated)
  }

  lemma CondemnedDial(t: HD.Thresholds, d: HD.Detector, id: string, ok: bool)
    requires Unforgiving(t) && Condemned(t, d, id)
    ensures HD.StatusOf(HD.AfterDial(t, d, id, ok), id) != Healthy
  {
  }

  lemma FailureCondemns(t: HD.Thresholds, d: HD.Detector, id: string)
    requires Unforgiving(t)
    ensures Condemned(t, HD.AfterFailure(t, d, id), id)
  {
  }

  lemma OthersKeepCondemned(t: HD.Thresholds, d: HD.Detector, id: string, other: string, ok: bool)
    requires other != id && Condemned(t, d, id)
    ensures Condemned(t, HD.AfterMark(t, d, other, ok), id)
    ensures Condemned(t, HD.AfterDial(t, d, other, ok), id)
  {
    hide HD.AfterMark, HD.AfterDial;
    HD.MarksAreLocal(t, d, other, ok, id);
  }

  lemma CondemnedPick(c: Config, env: Env, s: Sys, a: nat, k: Pick, id: string)
    requires Unforgiving(c.thresholds) && Dials(c.thresholds, env) && Legit(c, env, s, a, k)
    requires Condemned(c.thresholds, s.detector, id)
    ensures Condemned(c.thresholds, ReplayPick(c, env, s, a, k).detector, id)
    ensures k.instance.id == id ==> !k.verdict.Ran()
  {
    hide CB.Step, CB.StepAll, Condemned, HD.AfterDial, HD.AfterFailure, HD.AfterSuccess;
    var t, d, other := c.thresholds, s.detector, k.instance.id;
    var x := env.detect(a, k.instance, d);
    assert DialAnswer(t, d, other, x);
    if other == id {
      CondemnedDial(t, d, id, true);
      CondemnedDial(t, d, id, false);
      FailureCondemns(t, x.detector, id);
    } else {
      OthersKeepCondemned(t, d, id, other, true);
      OthersKeepCondemned(t, d, id, other, false);
      OthersKeepCondemned(t, x.detector, id, other, true);
      OthersKeepCondemned(t, x.detector, id, other, false);
    }
  }

  lemma FailedPickCondemns(c: Config, env: Env, s: Sys, a: nat, k: Pick)
    requires Unforgiving(c.thresholds) && k.verdict.Lost()
    ensures Condemned(c.thresholds, ReplayPick(c, env, s, a, k).detector, k.instance.id)
  {
    hide CB.Step, CB.StepAll, Condemned, HD.AfterFailure;
    FailureCondemns(c.thresholds, env.detect(a, k.instance, s.detector).detector, k.instance.id);
  }

  /** Some pick of `id` failed. */
  ghost predicate HasFailed(picks: seq<Pick>, id: string) {
    exists k :: 0 <= k < |picks| && picks[k].instance.id == id && picks[k].verdict.Lost()
  }

  lemma {:induction false} CondemnedReplay(c: Config, env: Env, s: Sys, picks: seq<Pick>, id: string)
    requires Unforgiving(c.thresholds) && Dials(c.thresholds, env) && LegitRun(c, env, s, picks)
    ensures Condemned(c.thresholds, s.detector, id) || HasFailed(picks, id) ==>
              Condemned(c.thresholds, Replay(c, env, s, picks).detector, id)
    ensures Condemned(c.thresholds, s.detector, id) ==> NotCalled(picks, id)
  {
    hide Legit, ReplayPick, Condemned, Dials;
    if picks == [] {
    } else {
      hide HasFailed, NotCalled;
      var front, k := picks[..|picks| - 1], picks[|picks| - 1];
      CondemnedReplay(c, env, s, front, id);
      var before := Replay(c, env, s, front);
      assert picks[|front|] == k;
      if Condemned(c.thresholds, before.detector, id) {
        CondemnedPick(c, env, before, |front|, k, id);
      }
      if k.instance.id == id && k.verdict.Lost() {
        FailedPickCondemns(c, env, before, |front|, k);
      }
      NewestPick(picks, id);
    }
  }

  lemma NewestPick(picks: seq<Pick>, id: string)
    requires picks != []
    ensures var front, k := picks[..|picks| - 1], picks[|picks| - 1];
            && (HasFailed(picks, id) ==> HasFailed(front, id) || (k.instance.id == id && k.verdict.Lost()))
            && (NotCalled(front, id) && (k.instance.id == id ==> !k.verdict.Ran()) ==> NotCalled(picks, id))
  {
    var front := picks[..|picks| - 1];
    if HasFailed(picks, id) {
      var j :| 0 <= j < |picks| && picks[j].instance.id == id && picks[j].verdict.Lost();
      assert j < |front| ==> front[j] == picks[j];
    }
    assert forall j :: 0 <= j < |front| ==> front[j] == picks[j];
  }

  ghost predicate DialsIn(t: HD.Thresholds, task: Task) {
    task.Serve? ==> Dials(t, task.env)
  }

  lemma CondemnedTask(c: Config, s: Sys, t: Task, id: string)
    requires Permitted(t) && Unforgiving(c.thresholds) && DialsIn(c.thresholds, t)
    ensures Condemned(c.thresholds, s.detector, id) || HasFailed(PicksOf(c, s, t), id) ==>
              Condemned(c.thresholds, Perform(c, s, t).detector, id)
    ensures Condemned(c.thresholds, s.detector, id) ==> NotCalled(PicksOf(c, s, t), id)
  {
    hide Executed, LegitRun, Replay, Condemned, Dials;
    if t.Serve? {
      ExecuteReplays(c, t.env, s, t.instances);
      CondemnedReplay(c, t.env, Start(t.env, s, t.instances), PicksOf(c, s, t), id);
    }
  }

  /** With the dialing detector and a success threshold of two or more (the default), or a failure
      threshold of one, an instance that failed once in some Execute is never called again by any
      later Execute, whatever the lists and however well it answers dials. This is about Execute calls alone:
      recovery probes and load-balancer feedback mark the same detector. */
  lemma {:induction false} FailedOnceNeverCalled(c: Config, s: Sys, first: Task, tasks: seq<Task>, id: string)
    requires Permitted(first) && AllPermitted(tasks) && Unforgiving(c.thresholds)
    requires DialsIn(c.thresholds, first) && forall k :: 0 <= k < |tasks| ==> DialsIn(c.thresholds, tasks[k])
    requires HasFailed(PicksOf(c, s, first), id)
    ensures Condemned(c.thresholds, PerformAll(c, Perform(c, s, first), tasks).detector, id)
    ensures tasks != [] ==> NotCalled(LastPicks(c, Perform(c, s, first), tasks), id)
  {
    hide Perform, PicksOf, Condemned;
    if tasks == [] {
      CondemnedTask(c, s, first, id);
    } else {
      FailedOnceNeverCalled(c, s, first, tasks[..|tasks| - 1], id);
      CondemnedTask(c, PerformAll(c, Perform(c, s, first), tasks[..|tasks| - 1]), tasks[|tasks| - 1], id);
    }
  }

  // Any other thresholds let a failed instance be called again.

  lemma OtherwiseOneDialRestores(t: HD.Thresholds, d: HD.Detector, id: string)
    requires !Unforgiving(t) && (HD.StatusOf(d, id) == Healthy || HD.StatusOf(d, id) == Suspect)
    ensures HD.StatusOf(HD.AfterDial(t, d, id, true), id) == Healthy
    ensures var failed := HD.AfterFailure(t, HD.AfterDial(t, d, id, true), id);
            HD.StatusOf(failed, id) == Suspect && HD.StatusOf(HD.AfterDial(t, failed, id, true), id) == Healthy
  {
  }

  lemma FailsFirst(c: Config, i: Instance)
    requires c.policy.maxAttempts >= 0 && !Unforgiving(c.thresholds)
    ensures HasFailed(PicksOf(c, FRESH, FailingCall(c, i)), i.id)
    ensures var s, t := Perform(c, FRESH, FailingCall(c, i)), c.thresholds;
            && s.detector == HD.AfterFailure(t, HD.AfterDial(t, HD.EMPTY, i.id, true), i.id)
            && !BH.In(CB.Lookup(s.breakers, i.id), CB.HalfOpen)
  {
    hide Executed, HD.AfterDial, HD.AfterFailure, CB.OpenTime;
    var env := DialEnv(c.thresholds, 0, Some(DOWN));
    OtherwiseOneDialRestores(c.thresholds, HD.EMPTY, i.id);
    var p := OneInstance(c, env, FRESH, i);
    assert PicksOf(c, FRESH, FailingCall(c, i))[0] == Pick(i, Verdict.Failed(DOWN));
  }

  /** The ID is dropped from the list and listed again, and the call comes after any opening of its breaker. */
  function Returning(c: Config, s: Sys, i: Instance): seq<Task> {
    var o := CB.Lookup(s.breakers, i.id);
    var env := DialEnv(c.thresholds, if o.Some? then o.value.openUntil + 1 else 0, None);
    [Serve(env, []), Serve(env, [i])]
  }

  lemma ServesLater(c: Config, s: Sys, i: Instance)
    requires c.policy.maxAttempts >= 0 && !BH.In(CB.Lookup(s.breakers, i.id), CB.HalfOpen)
    requires HD.StatusOf(HD.AfterDial(c.thresholds, s.detector, i.id, true), i.id) == Healthy
    ensures !NotCalled(LastPicks(c, s, Returning(c, s, i)), i.id)
  {
    hide Executed, HD.AfterDial, CB.StepAll;
    var tasks := Returning(c, s, i);
    var env := tasks[1].env;
    var dropped := PerformAll(c, s, tasks[..1]);
    AfterDropping(c, s, env);
    assert tasks[..1] == [tasks[0]];
    OneTask(c, s, tasks[0]);
    var p := OneInstance(c, env, dropped, i);
    assert PicksOf(c, dropped, tasks[1])[0] == Pick(i, Served);
  }

  lemma AfterDropping(c: Config, s: Sys, env: Env)
    requires !env.cancelled(0)
    ensures Executed(c, env, s, []).sys == Sys(Manager([], map[], s.manager.nextIndex), s.breakers, s.detector)
  {
  }

  /** A run from a new handler in which `id` failed in `first`, and which goes on with `tasks`. */
  ghost predicate Scenario(c: Config, first: Task, tasks: seq<Task>, id: string) {
    && Permitted(first) && AllPermitted(tasks) && tasks != []
    && DialsIn(c.thresholds, first) && (forall k :: 0 <= k < |tasks| ==> DialsIn(c.thresholds, tasks[k]))
    && HasFailed(PicksOf(c, FRESH, first), id)
  }

  /** A failed instance is never called again, in any run of Execute calls with the dialing detector,
      exactly when the thresholds are unforgiving (or no call is ever attempted). */
  lemma NeverCalledIff(c: Config)
    ensures (forall first, tasks, id :: Scenario(c, first, tasks, id) ==>
               NotCalled(LastPicks(c, Perform(c, FRESH, first), tasks), id))
            <==> Unforgiving(c.thresholds) || c.policy.maxAttempts < 0
  {
    hide Perform, PicksOf, LastPicks, NotCalled, HasFailed;
    if Unforgiving(c.thresholds) {
      forall first, tasks, id | Scenario(c, first, tasks, id)
        ensures NotCalled(LastPicks(c, Perform(c, FRESH, first), tasks), id)
      {
        FailedOnceNeverCalled(c, FRESH, first, tasks, id);
      }
    } else if c.policy.maxAttempts < 0 {
      forall first, tasks, id | Scenario(c, first, tasks, id) ensures false {
        NothingFailsWithoutAttempts(c, FRESH, first, id);
      }
    } else {
      var i := Instance("a", "a");
      var first := FailingCall(c, i);
      var s := Perform(c, FRESH, first);
      FailsFirst(c, i);
      OtherwiseOneDialRestores(c.thresholds, HD.EMPTY, i.id);
      ServesLater(c, s, i);
      assert Scenario(c, first, Returning(c, s, i), i.id);
    }
  }

  lemma NothingFailsWithoutAttempts(c: Config, s: Sys, t: Task, id: string)
    requires Permitted(t) && c.policy.maxAttempts < 0
    ensures !HasFailed(PicksOf(c, s, t), id)
  {
  }

  // How one Execute counts with the dialing detector.

  /** The pick marked its instance. */
  predicate Marking(k: Pick) {
    k.verdict != Repeat && k.verdict != Refused
  }

  lemma PickKeepsOtherRecords(c: Config, env: Env, s: Sys, a: nat, k: Pick, id: string)
    requires Dials(c.thresholds, env) && (Marking(k) ==> k.instance.id != id)
    ensures HD.SameRecord(ReplayPick(c, env, s, a, k).detector, s.detector, id)
  {
    hide CB.Step, CB.StepAll, HD.StatusOf, HD.Tally, HD.AfterDial, HD.AfterSuccess, HD.AfterFailure;
    if Marking(k) {
      var x := env.detect(a, k.instance, s.detector);
      assert DialAnswer(c.thresholds, s.detector, k.instance.id, x);
      HD.MarksAreLocal(c.thresholds, s.detector, k.instance.id, x.err.None?, id);
      HD.MarksAreLocal(c.thresholds, x.detector, k.instance.id, k.verdict == Served, id);
    }
  }

  lemma {:induction false} OtherPicksKeepRecord(c: Config, env: Env, s: Sys, picks: seq<Pick>, from: nat, id: string)
    requires Dials(c.thresholds, env) && from <= |picks|
    requires forall j :: from <= j < |picks| && Marking(picks[j]) ==> picks[j].instance.id != id
    ensures HD.SameRecord(Replay(c, env, s, picks).detector, Replay(c, env, s, picks[..from]).detector, id)
    decreases |picks|
  {
    hide ReplayPick, Marking, Dials;
    if from == |picks| {
      assert picks[..from] == picks;
    } else {
      var front := picks[..|picks| - 1];
      OtherPicksKeepRecord(c, env, s, front, from, id);
      PickKeepsOtherRecords(c, env, Replay(c, env, s, front), |front|, picks[|front|], id);
      assert front[..from] == picks[..from];
    }
  }

  lemma {:induction false} EachIdOnce(picks: seq<Pick>, j: nat, k: nat)
    requires Distinct(Tried(picks)) && j < k < |picks| && Marking(picks[j]) && Marking(picks[k])
    ensures picks[j].instance.id != picks[k].instance.id
  {
    var front := picks[..|picks| - 1];
    assert forall i :: 0 <= i < |Tried(front)| ==> Tried(front)[i] == Tried(picks)[i];
    TriedHas(front, j);
    if k < |front| {
      EachIdOnce(front, j, k);
    } else {
      var ids := Tried(front);
      var at :| 0 <= at < |ids| && ids[at] == picks[j].instance.id;
      assert Tried(picks)[at] == ids[at] && Tried(picks)[|ids|] == picks[k].instance.id;
    }
  }

  lemma {:induction false} TriedHas(picks: seq<Pick>, j: nat)
    requires j < |picks| && picks[j].verdict != Repeat
    ensures picks[j].instance.id in Tried(picks)
  {
    if j == |picks| - 1 {
    } else {
      TriedHas(picks[..|picks| - 1], j);
    }
  }

  /** What a pick of an instance does to its two counters: `x` holds them before and `y` after. */
  predicate Counted(v: Verdict, dialFailed: bool, id: string, x: HD.Detector, y: HD.Detector) {
    var failures, successes := HD.Tally(x.failureCount, id), HD.Tally(x.successCount, id);
    var dialed := HD.StatusOf(x, id) == Healthy || HD.StatusOf(x, id) == Suspect;
    if v == Served then HD.Tally(y.failureCount, id) == 0 && HD.Tally(y.successCount, id) == successes + 2
    else
      && HD.Tally(y.successCount, id) == 0
      && HD.Tally(y.failureCount, id) == (if dialFailed then failures + 2 else if dialed then 1 else failures + 1)
      && (dialFailed || v.Failed? ==> dialed)
  }

  lemma PickCounts(c: Config, env: Env, s: Sys, a: nat, k: Pick)
    requires Dials(c.thresholds, env) && Legit(c, env, s, a, k) && Marking(k)
    ensures Counted(k.verdict, env.detect(a, k.instance, s.detector).err.Some?, k.instance.id,
                    s.detector, ReplayPick(c, env, s, a, k).detector)
  {
    hide CB.Step, CB.StepAll;
    assert DialAnswer(c.thresholds, s.detector, k.instance.id, env.detect(a, k.instance, s.detector));
  }

  lemma SameCounted(v: Verdict, f: bool, id: string, x0: HD.Detector, x: HD.Detector, y: HD.Detector, y1: HD.Detector)
    requires Counted(v, f, id, x, y) && HD.SameRecord(x, x0, id) && HD.SameRecord(y1, y, id)
    ensures Counted(v, f, id, x0, y1)
  {
  }

  /** With the dialing detector, what one Execute counts for an instance it tried: a dial counts besides
      the outcome, so a failed dial adds two failures, and a served call two successes; after a good dial
      a failed call leaves exactly one failure. Nothing else in the call touches the two counters. */
  lemma ExecuteCountsDials(c: Config, env: Env, s: Sys, instances: seq<Instance>, k: nat)
    requires (env.cancelled(0) ==> instances != []) && Dials(c.thresholds, env)
    requires k < |Executed(c, env, s, instances).picks| && Marking(Executed(c, env, s, instances).picks[k])
    ensures var r := Executed(c, env, s, instances);
            var met := Replay(c, env, Start(env, s, instances), r.picks[..k]).detector;
            Counted(r.picks[k].verdict, env.detect(k, r.picks[k].instance, met).err.Some?, r.picks[k].instance.id,
                    s.detector, r.sys.detector)
  {
    hide Executed, Dials, LegitRun, Replay, ReplayPick, Legit, Marking, Tried, Counted, HD.SameRecord;
    var r, s0 := Executed(c, env, s, instances), Start(env, s, instances);
    ExecuteReplays(c, env, s, instances);
    EachTriedOnce(c, env, s, instances);
    var id := r.picks[k].instance.id;
    forall j | 0 <= j < |r.picks| && j != k && Marking(r.picks[j]) ensures r.picks[j].instance.id != id {
      EachIdOnce(r.picks, Min(j, k), Max(j, k));
    }
    var before, after := Replay(c, env, s0, r.picks[..k]), Replay(c, env, s0, r.picks[..k + 1]);
    OtherPicksKeepRecord(c, env, s0, r.picks[..k], 0, id);
    OtherPicksKeepRecord(c, env, s0, r.picks, k + 1, id);
    assert r.picks[..k][..0] == [] && r.picks[..k + 1] == r.picks[..k] + [r.picks[k]];
    ReplaySnoc(c, env, s0, r.picks[..k], r.picks[k]);
    LegitAt(c, env, s0, r.picks, k);
    PickCounts(c, env, before, k, r.picks[k]);
    NothingReplayed(c, env, s0);
    SameCounted(r.picks[k].verdict, env.detect(k, r.picks[k].instance, before.detector).err.Some?, id,
                s.detector, before.detector, after.detector, r.sys.detector);
  }

  lemma NothingReplayed(c: Config, env: Env, s: Sys)
    ensures Replay(c, env, s, []) == s
  {
  }

  lemma EachTriedOnce(c: Config, env: Env, s: Sys, instances: seq<Instance>)
    requires env.cancelled(0) ==> instances != []
    ensures Distinct(Tried(Executed(c, env, s, instances).picks))
  {
    hide Executed;
    ExecuteAccounts(c, env, s, instances);
  }
}
