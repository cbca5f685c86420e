/** What any sequence of Execute calls on one handler keeps. */
module FailoverSafety {
  import opened Types
  import Retry
  import opened InstanceManagement
  import opened Failover
  import opened FailoverReplay
  import CB = Breaker
  import BH = BreakerHistory
  import BL = BreakerLiveness
  import HD = HealthDetector

  ghost predicate Untouched(picks: seq<Pick>, id: string) {
    forall k :: 0 <= k < |picks| ==> picks[k].instance.id != id
  }

  ghost predicate ListedIn(t: Task, id: string) {
    t.Serve? ==> exists i :: i in t.instances && i.id == id
  }

  // An unusable status is absorbing.

  lemma UnusablePick(c: Config, env: Env, s: Sys, a: nat, k: Pick, id: string)
    requires Legit(c, env, s, a, k) && !Usable(s.manager.statusMap, id)
    ensures k.instance.id != id && !Usable(ReplayPick(c, env, s, a, k).manager.statusMap, id)
  {
    hide CB.Step, CB.StepAll, HD.AfterFailure, HD.AfterSuccess;
  }

  lemma {:induction false} UnusableReplay(c: Config, env: Env, s: Sys, picks: seq<Pick>, id: string)
    requires LegitRun(c, env, s, picks) && !Usable(s.manager.statusMap, id)
    ensures !Usable(Replay(c, env, s, picks).manager.statusMap, id) && Untouched(picks, id)
  {
    hide Legit, ReplayPick;
    if picks == [] {
    } else {
      var front := picks[..|picks| - 1];
      UnusableReplay(c, env, s, front, id);
      UnusablePick(c, env, Replay(c, env, s, front), |front|, picks[|front|], id);
    }
  }

  lemma UnusableTask(c: Config, s: Sys, t: Task, id: string)
    requires Permitted(t) && ListedIn(t, id) && !Usable(s.manager.statusMap, id)
    ensures !Usable(Perform(c, s, t).manager.statusMap, id) && Untouched(PicksOf(c, s, t), id)
  {
    hide Executed, LegitRun, Replay, CB.Sweep;
    if t.Serve? {
      ExecuteReplays(c, t.env, s, t.instances);
      UnusableReplay(c, t.env, Start(t.env, s, t.instances), PicksOf(c, s, t), id);
    }
  }

  /** Once an ID is marked unusable, no later Execute selects it, as long as every list contains it:
      nothing in the handler ever marks it healthy again. */
  lemma {:induction false} UnusableIsAbsorbing(c: Config, s: Sys, tasks: seq<Task>, id: string)
    requires AllPermitted(tasks) && forall k :: 0 <= k < |tasks| ==> ListedIn(tasks[k], id)
    requires !Usable(s.manager.statusMap, id)
    ensures !Usable(PerformAll(c, s, tasks).manager.statusMap, id)
    ensures tasks != [] ==> Untouched(LastPicks(c, s, tasks), id)
  {
    hide Perform, PicksOf;
    if tasks == [] {
    } else {
      UnusableIsAbsorbing(c, s, tasks[..|tasks| - 1], id);
      UnusableTask(c, PerformAll(c, s, tasks[..|tasks| - 1]), tasks[|tasks| - 1], id);
    }
  }

  // Execute drives each breaker record in a disciplined way.

  /** The breaker calls that a pick stands for: one admission check, then one mark if admitted. */
  function PickEvents(env: Env, a: nat, k: Pick): seq<CB.Event> {
    match k.verdict
    case Repeat => []
    case Refused => [AllowEvent(env, a, k)]
    case Served => [AllowEvent(env, a, k), Call(CB.MarkSuccess, k.instance.id, env.now(2 * a + 1))]
    case _ => [AllowEvent(env, a, k), Call(CB.MarkFailure, k.instance.id, env.now(2 * a + 1))]
  }

  function Events(env: Env, picks: seq<Pick>): seq<CB.Event> {
    if picks == [] then []
    else Events(env, picks[..|picks| - 1]) + PickEvents(env, |picks| - 1, picks[|picks| - 1])
  }

  lemma RunAllTwo(c: CB.Config, m: map<string, CB.Entry>, evs: seq<CB.Event>, x: CB.Event, y: CB.Event)
    ensures CB.RunAll(c, m, evs + [x]) == CB.StepAll(c, CB.RunAll(c, m, evs), x)
    ensures CB.RunAll(c, m, evs + [x, y]) == CB.StepAll(c, CB.StepAll(c, CB.RunAll(c, m, evs), x), y)
  {
    hide CB.StepAll, CB.RunAll;
    RunAllSnoc(c, m, evs, x);
    RunAllSnoc(c, m, evs + [x], y);
    assert evs + [x, y] == evs + [x] + [y];
  }

  lemma RunAllSnoc(c: CB.Config, m: map<string, CB.Entry>, evs: seq<CB.Event>, x: CB.Event)
    ensures CB.RunAll(c, m, evs + [x]) == CB.StepAll(c, CB.RunAll(c, m, evs), x)
  {
    hide CB.StepAll;
    assert (evs + [x])[..|evs|] == evs;
  }

  lemma {:induction false} ReplayDrivesBreaker(c: Config, env: Env, s: Sys, picks: seq<Pick>)
    ensures Replay(c, env, s, picks).breakers == CB.RunAll(c.breaker, s.breakers, Events(env, picks))
  {
    hide CB.Step, CB.StepAll, HD.AfterFailure, HD.AfterSuccess;
    if picks == [] {
    } else {
      var front, k := picks[..|picks| - 1], picks[|picks| - 1];
      ReplayDrivesBreaker(c, env, s, front);
      var evs := PickEvents(env, |front|, k);
      if k.verdict == Repeat {
        assert Events(env, front) + [] == Events(env, front);
      } else if k.verdict == Refused {
        RunAllTwo(c.breaker, s.breakers, Events(env, front), evs[0], evs[0]);
      } else {
        RunAllTwo(c.breaker, s.breakers, Events(env, front), evs[0], evs[1]);
      }
    }
  }

  /** Execute changes the breaker only by the calls of its picks, in order: each admitted attempt is
      marked exactly once, with its outcome, a refused one never, and a pick is recorded as refused
      exactly when the breaker refused it. */
  lemma ExecuteMarksOnce(c: Config, env: Env, s: Sys, instances: seq<Instance>)
    requires env.cancelled(0) ==> instances != []
    ensures var r := Executed(c, env, s, instances);
            && r.sys.breakers == CB.RunAll(c.breaker, s.breakers, Events(env, r.picks))
            && forall k :: 0 <= k < |r.picks| && r.picks[k].verdict != Repeat ==>
                 (r.picks[k].verdict == Refused <==>
                  CB.Step(c.breaker,
                          CB.Lookup(CB.RunAll(c.breaker, s.breakers, Events(env, r.picks[..k])),
                                    r.picks[k].instance.id),
                          AllowEvent(env, k, r.picks[k]).input).1 != CB.Granted)
  {
    hide Executed, CB.Step, CB.StepAll, CB.RunAll, Replay, LegitRun, Events;
    ExecuteReplays(c, env, s, instances);
    var r := Executed(c, env, s, instances);
    var s0 := Start(env, s, instances);
    ReplayDrivesBreaker(c, env, s0, r.picks);
    forall k | 0 <= k < |r.picks|
      ensures Legit(c, env, Replay(c, env, s0, r.picks[..k]), k, r.picks[k])
      ensures Replay(c, env, s0, r.picks[..k]).breakers == CB.RunAll(c.breaker, s.breakers, Events(env, r.picks[..k]))
    {
      LegitAt(c, env, s0, r.picks, k);
      ReplayDrivesBreaker(c, env, s0, r.picks[..k]);
    }
  }

  lemma {:induction false} LegitAt(c: Config, env: Env, s: Sys, picks: seq<Pick>, k: nat)
    requires LegitRun(c, env, s, picks) && k < |picks|
    ensures Legit(c, env, Replay(c, env, s, picks[..k]), k, picks[k])
  {
    hide Legit, ReplayPick;
    if k == |picks| - 1 {
    } else {
      var front := picks[..|picks| - 1];
      LegitAt(c, env, s, front, k);
      assert front[..k] == picks[..k];
    }
  }

  /** The marks that a pick puts on the detector. */
  function PickMarks(k: Pick): seq<HD.Mark> {
    match k.verdict
    case Repeat => []
    case Refused => []
    case Served => [HD.Mark(k.instance.id, true)]
    case _ => [HD.Mark(k.instance.id, false)]
  }

  function Marks(picks: seq<Pick>): seq<HD.Mark> {
    if picks == [] then [] else Marks(picks[..|picks| - 1]) + PickMarks(picks[|picks| - 1])
  }

  function Marked(t: HD.Thresholds, d: HD.Detector, h: seq<HD.Mark>): HD.Detector {
    if h == [] then d else HD.AfterMark(t, Marked(t, d, h[..|h| - 1]), h[|h| - 1].id, h[|h| - 1].ok)
  }

  /** The detector after the picks: what detection leaves in each admitted try, and one mark on top. */
  function DetectorAfter(t: HD.Thresholds, env: Env, d: HD.Detector, picks: seq<Pick>): HD.Detector {
    if picks == [] then d
    else
      var a, k := |picks| - 1, picks[|picks| - 1];
      var front := DetectorAfter(t, env, d, picks[..a]);
      if k.verdict == Repeat || k.verdict == Refused then front
      else HD.AfterMark(t, env.detect(a, k.instance, front).detector, k.instance.id, k.verdict == Served)
  }

  lemma {:induction false} ReplayMarksDetector(c: Config, env: Env, s: Sys, picks: seq<Pick>)
    ensures Replay(c, env, s, picks).detector == DetectorAfter(c.thresholds, env, s.detector, picks)
  {
    hide CB.Step, CB.StepAll, HD.AfterFailure, HD.AfterSuccess;
    if picks == [] {
    } else {
      ReplayMarksDetector(c, env, s, picks[..|picks| - 1]);
    }
  }

  /** Beside what detection itself does, the detector is marked exactly once per admitted try, with its
      outcome, and not at all for a refused or repeated pick. */
  lemma ExecuteMarksDetectorOnce(c: Config, env: Env, s: Sys, instances: seq<Instance>)
    requires env.cancelled(0) ==> instances != []
    ensures var r := Executed(c, env, s, instances);
            r.sys.detector == DetectorAfter(c.thresholds, env, s.detector, r.picks)
  {
    hide Executed, Replay, LegitRun, DetectorAfter;
    ExecuteReplays(c, env, s, instances);
    ReplayMarksDetector(c, env, Start(env, s, instances), Executed(c, env, s, instances).picks);
  }

  ghost predicate OnlyReads(env: Env) {
    forall a, i, d :: env.detect(a, i, d).detector == d
  }

  lemma MarkedSnoc(t: HD.Thresholds, d: HD.Detector, h: seq<HD.Mark>, m: HD.Mark)
    ensures Marked(t, d, h + [m]) == HD.AfterMark(t, Marked(t, d, h), m.id, m.ok)
  {
    hide HD.AfterMark;
    assert (h + [m])[..|h|] == h;
  }

  lemma ReadOnlyStep(t: HD.Thresholds, env: Env, d: HD.Detector, picks: seq<Pick>)
    requires OnlyReads(env) && picks != []
    ensures var k, front := picks[|picks| - 1], DetectorAfter(t, env, d, picks[..|picks| - 1]);
            DetectorAfter(t, env, d, picks) ==
            if k.verdict == Repeat || k.verdict == Refused then front
            else HD.AfterMark(t, front, k.instance.id, k.verdict == Served)
  {
    hide HD.AfterMark;
  }

  /** When detection only reads, the detector is the run of those marks. */
  lemma {:induction false} ReadOnlyDetector(t: HD.Thresholds, env: Env, d: HD.Detector, picks: seq<Pick>)
    requires OnlyReads(env)
    ensures DetectorAfter(t, env, d, picks) == Marked(t, d, Marks(picks))
  {
    if picks == [] {
      assert Marks(picks) == [];
    } else {
      hide HD.AfterMark, OnlyReads, DetectorAfter, Marked;
      var front, k := picks[..|picks| - 1], picks[|picks| - 1];
      ReadOnlyDetector(t, env, d, front);
      ReadOnlyStep(t, env, d, picks);
      assert Marks(front) + [] == Marks(front);
      MarkedSnoc(t, d, Marks(front), HD.Mark(k.instance.id, k.verdict == Served));
    }
  }

  /** The status that the picks leave: that of the last pick of `id` other than a refused one. */
  function StatusAfter(start: map<string, Status>, picks: seq<Pick>, id: string): Option<Status> {
    if picks == [] then if id in start then Some(start[id]) else None
    else
      var k := picks[|picks| - 1];
      if k.instance.id != id || k.verdict == Refused then StatusAfter(start, picks[..|picks| - 1], id)
      else Some(if k.verdict == Served then Healthy else Unhealthy)
  }

  lemma {:induction false} ReplaySetsStatuses(c: Config, env: Env, s: Sys, picks: seq<Pick>, id: string)
    ensures var m := Replay(c, env, s, picks).manager.statusMap;
            StatusAfter(s.manager.statusMap, picks, id) == if id in m then Some(m[id]) else None
  {
    hide CB.Step, CB.StepAll, HD.AfterFailure, HD.AfterSuccess;
    if picks == [] {
    } else {
      ReplaySetsStatuses(c, env, s, picks[..|picks| - 1], id);
    }
  }

  /** After an Execute the manager has Healthy for the winner, Unhealthy for every instance that failed or
      was picked again, and the status from before for all others, a refused instance included. */
  lemma ExecuteSetsStatuses(c: Config, env: Env, s: Sys, instances: seq<Instance>, id: string)
    requires env.cancelled(0) ==> instances != []
    ensures var r := Executed(c, env, s, instances);
            var m := r.sys.manager.statusMap;
            StatusAfter(Start(env, s, instances).manager.statusMap, r.picks, id) ==
            if id in m then Some(m[id]) else None
  {
    hide Executed, Replay, LegitRun, StatusAfter;
    ExecuteReplays(c, env, s, instances);
    ReplaySetsStatuses(c, env, Start(env, s, instances), Executed(c, env, s, instances).picks, id);
  }

  // No half-open record is left without room.

  /** Reachable by disciplined callers, with no call outstanding. */
  ghost predicate Quiet(c: CB.Config, o: Option<CB.Entry>) {
    BL.Reachable(c, BL.World(o, 0, 0))
  }

  lemma QuietStep(c: CB.Config, w: BL.World, a: BL.Action)
    requires BL.Reachable(c, w) && BL.Enabled(w, a)
    ensures BL.Reachable(c, BL.Next(c, w, a))
  {
    hide BL.Next;
    var acts :| BL.Reach(c, BL.START, acts) == Some(w);
    BL.ReachSnoc(c, BL.START, acts, a);
    assert BL.Reach(c, BL.START, acts + [a]) == Some(BL.Next(c, w, a));
  }

  /** A call that is refused, or admitted and then marked, leaves nothing outstanding. */
  lemma QuietCall(c: CB.Config, o: Option<CB.Entry>, now: int, later: int, success: bool)
    requires Quiet(c, o)
    ensures var (e, reply) := CB.Step(c, o, CB.Input(CB.Allow, now));
            && (reply != CB.Granted ==> Quiet(c, e))
            && (reply == CB.Granted ==>
                  Quiet(c, CB.Step(c, e, CB.Input(if success then CB.MarkSuccess else CB.MarkFailure, later)).0))
  {
    hide CB.Step;
    var w := BL.World(o, 0, 0);
    QuietStep(c, w, BL.Call(now));
    var w1 := BL.Next(c, w, BL.Call(now));
    if CB.Step(c, o, CB.Input(CB.Allow, now)).1 == CB.Granted {
      var done := BL.Finish(BH.In(w1.entry, CB.HalfOpen) , success, later);
      AllowLeavesOne(c, o, now);
      QuietStep(c, w1, done);
    }
  }

  lemma AllowLeavesOne(c: CB.Config, o: Option<CB.Entry>, now: int)
    requires CB.Step(c, o, CB.Input(CB.Allow, now)).1 == CB.Granted
    ensures var e := CB.Step(c, o, CB.Input(CB.Allow, now)).0;
            BL.Next(c, BL.World(o, 0, 0), BL.Call(now)) ==
            if BH.In(e, CB.HalfOpen) then BL.World(e, 1, 0) else BL.World(e, 0, 1)
  {
  }

  ghost predicate AllQuiet(c: CB.Config, m: map<string, CB.Entry>) {
    forall id :: Quiet(c, CB.Lookup(m, id))
  }

  lemma QuietPick(c: Config, env: Env, s: Sys, a: nat, k: Pick)
    requires Legit(c, env, s, a, k) && AllQuiet(c.breaker, s.breakers)
    ensures AllQuiet(c.breaker, ReplayPick(c, env, s, a, k).breakers)
  {
    hide CB.Step, CB.StepAll, Quiet, HD.AfterFailure, HD.AfterSuccess;
    var id := k.instance.id;
    var allow := AllowEvent(env, a, k);
    var m1 := CB.StepAll(c.breaker, s.breakers, allow);
    var later := env.now(2 * a + 1);
    var mark := Call(if k.verdict == Served then CB.MarkSuccess else CB.MarkFailure, id, later);
    QuietCall(c.breaker, CB.Lookup(s.breakers, id), env.now(2 * a), later, k.verdict == Served);
    forall x
      ensures Quiet(c.breaker, CB.Lookup(ReplayPick(c, env, s, a, k).breakers, x))
    {
      CB.StepAllIsLocal(c.breaker, s.breakers, allow, x);
      CB.StepAllIsLocal(c.breaker, m1, mark, x);
    }
  }

  lemma {:induction false} QuietReplay(c: Config, env: Env, s: Sys, picks: seq<Pick>)
    requires LegitRun(c, env, s, picks) && AllQuiet(c.breaker, s.breakers)
    ensures AllQuiet(c.breaker, Replay(c, env, s, picks).breakers)
  {
    hide Legit, ReplayPick, AllQuiet;
    if picks == [] {
    } else {
      var front := picks[..|picks| - 1];
      QuietReplay(c, env, s, front);
      QuietPick(c, env, Replay(c, env, s, front), |front|, picks[|front|]);
    }
  }

  lemma QuietTick(c: CB.Config, m: map<string, CB.Entry>, now: int)
    requires AllQuiet(c, m)
    ensures AllQuiet(c, CB.Sweep(c, m, now))
  {
    forall id ensures Quiet(c, CB.Lookup(CB.Sweep(c, m, now), id)) {
      QuietStep(c, BL.World(CB.Lookup(m, id), 0, 0), BL.Tick(now));
    }
  }

  lemma {:induction false} QuietTasks(c: Config, s: Sys, tasks: seq<Task>)
    requires AllPermitted(tasks) && AllQuiet(c.breaker, s.breakers)
    ensures AllQuiet(c.breaker, PerformAll(c, s, tasks).breakers)
  {
    hide Executed, AllQuiet, LegitRun, Replay;
    if tasks == [] {
    } else {
      var t, before := tasks[|tasks| - 1], PerformAll(c, s, tasks[..|tasks| - 1]);
      QuietTasks(c, s, tasks[..|tasks| - 1]);
      match t {
        case Serve(env, instances) =>
          ExecuteReplays(c, env, before, instances);
          QuietReplay(c, env, Start(env, before, instances), PicksOf(c, before, t));
        case Tick(now) =>
          QuietTick(c.breaker, before.breakers, now);
      }
    }
  }

  /** With a live configuration no sequence of Execute calls and cleanup ticks leaves a half-open
      record that refuses the next call. */
  lemma ExecuteNeverWedges(c: Config, tasks: seq<Task>, id: string, now: int)
    requires AllPermitted(tasks) && BL.Live(c.breaker)
    ensures var o := CB.Lookup(PerformAll(c, FRESH, tasks).breakers, id);
            BH.In(o, CB.HalfOpen) ==> CB.Step(c.breaker, o, CB.Input(CB.Allow, now)).1 == CB.Granted
  {
    hide PerformAll;
    forall x ensures Quiet(c.breaker, CB.Lookup(FRESH.breakers, x)) {
      assert BL.Reach(c.breaker, BL.START, []) == Some(BL.START);
    }
    QuietTasks(c, FRESH, tasks);
    var o := CB.Lookup(PerformAll(c, FRESH, tasks).breakers, id);
    assert Quiet(c.breaker, o);
    BL.NeverWedgesIffLive(c.breaker);
    assert !BL.Wedged(c.breaker, BL.World(o, 0, 0));
  }

  // With manager statuses absorbing, Execute alone cannot open a breaker.

  /** At most one failure is on record for `id`, and then its status is unusable. */
  predicate Sheltered(s: Sys, id: string) {
    var o := CB.Lookup(s.breakers, id);
    && BH.ClosedOrAbsent(o)
    && (o.Some? ==> 0 <= o.value.consecutiveError <= 1)
    && (o.Some? && o.value.consecutiveError == 1 ==> !Usable(s.manager.statusMap, id))
  }

  lemma ClosedAllow(c: CB.Config, o: Option<CB.Entry>, now: int)
    requires BH.ClosedOrAbsent(o)
    ensures var (e, reply) := CB.Step(c, o, CB.Input(CB.Allow, now));
            reply == CB.Granted && e == Some(CB.Find(o, now).(lastAccess := now)) && BH.In(e, CB.Closed)
  {
  }

  lemma ClosedMark(c: CB.Config, o: Option<CB.Entry>, now: int)
    requires BH.In(o, CB.Closed) && o.value.consecutiveError + 1 < c.threshold
    ensures var e := CB.Step(c, o, CB.Input(CB.MarkFailure, now)).0;
            BH.In(e, CB.Closed) && e.value.consecutiveError == o.value.consecutiveError + 1
    ensures var e := CB.Step(c, o, CB.Input(CB.MarkSuccess, now)).0;
            BH.In(e, CB.Closed) && e.value.consecutiveError == 0
  {
  }

  lemma ShelteredPick(c: Config, env: Env, s: Sys, a: nat, k: Pick, id: string)
    requires c.breaker.threshold >= 2 && Legit(c, env, s, a, k) && Sheltered(s, id)
    ensures Sheltered(ReplayPick(c, env, s, a, k), id)
    ensures k.instance.id == id ==> k.verdict != Refused
  {
    hide CB.Step, CB.StepAll, HD.AfterFailure, HD.AfterSuccess;
    var o := CB.Lookup(s.breakers, id);
    var allow := AllowEvent(env, a, k);
    var m1 := CB.StepAll(c.breaker, s.breakers, allow);
    var later := env.now(2 * a + 1);
    var mark := Call(if k.verdict == Served then CB.MarkSuccess else CB.MarkFailure, k.instance.id, later);
    CB.StepAllIsLocal(c.breaker, s.breakers, allow, id);
    CB.StepAllIsLocal(c.breaker, m1, mark, id);
    if k.instance.id == id {
      ClosedAllow(c.breaker, o, env.now(2 * a));
      ClosedMark(c.breaker, CB.Lookup(m1, id), later);
    }
  }

  lemma {:induction false} ShelteredReplay(c: Config, env: Env, s: Sys, picks: seq<Pick>, id: string)
    requires c.breaker.threshold >= 2 && LegitRun(c, env, s, picks) && Sheltered(s, id)
    ensures Sheltered(Replay(c, env, s, picks), id)
    ensures forall k :: 0 <= k < |picks| && picks[k].instance.id == id ==> picks[k].verdict != Refused
  {
    hide Legit, ReplayPick, Sheltered;
    if picks == [] {
    } else {
      var front := picks[..|picks| - 1];
      ShelteredReplay(c, env, s, front, id);
      ShelteredPick(c, env, Replay(c, env, s, front), |front|, picks[|front|], id);
    }
  }

  lemma ShelteredTask(c: Config, s: Sys, t: Task, id: string)
    requires c.breaker.threshold >= 2 && Permitted(t) && ListedIn(t, id) && Sheltered(s, id)
    ensures Sheltered(Perform(c, s, t), id)
    ensures forall k :: 0 <= k < |PicksOf(c, s, t)| && PicksOf(c, s, t)[k].instance.id == id ==>
                          PicksOf(c, s, t)[k].verdict != Refused
  {
    hide Executed, LegitRun, Replay;
    if t.Serve? {
      ExecuteReplays(c, t.env, s, t.instances);
      var s0 := Start(t.env, s, t.instances);
      assert Sheltered(s0, id);
      ShelteredReplay(c, t.env, s0, PicksOf(c, s, t), id);
    }
  }

  /** With a threshold of at least two and the ID in every list, no sequence of Execute calls and
      cleanup ticks opens the ID's breaker or has a call on it refused: it fails once, is marked
      unhealthy, and is not selected again. */
  lemma {:induction false} ExecuteNeverOpens(c: Config, tasks: seq<Task>, id: string)
    requires AllPermitted(tasks) && forall k :: 0 <= k < |tasks| ==> ListedIn(tasks[k], id)
    requires c.breaker.threshold >= 2
    ensures Sheltered(PerformAll(c, FRESH, tasks), id)
    ensures tasks != [] ==>
              var picks := LastPicks(c, FRESH, tasks);
              forall k :: 0 <= k < |picks| && picks[k].instance.id == id ==> picks[k].verdict != Refused
  {
    hide Perform, PicksOf;
    if tasks == [] {
    } else {
      ExecuteNeverOpens(c, tasks[..|tasks| - 1], id);
      ShelteredTask(c, PerformAll(c, FRESH, tasks[..|tasks| - 1]), tasks[|tasks| - 1], id);
    }
  }

  // Any smaller threshold lets one failed call open a breaker.

  /** Every dial succeeds, and the operation always ends the same way. */
  function DialEnv(t: HD.Thresholds, now: int, e: Option<Error>): Env {
    Env(a => false, OtherError("cancelled"), a => now, a => 0, a => 0.0,
        (a, i: Instance, d) => HD.Dialed(t, d, i.id, None),
        (a, i) => e)
  }

  lemma UnusableStopsLoop(c: Config, env: Env, i: Instance, p: Progress)
    requires p.sys.manager.instances == [i] && !Usable(p.sys.manager.statusMap, i.id) && !env.cancelled(1)
    ensures var q := Loop(c, env, 1, 1, p); q.Stopped? && q.p.sys == p.sys && q.p.picks == p.picks
  {
    hide Retry.NextBackoff, Retry.ShouldRetry, Select;
    SelectionIsUsable(p.sys.manager, c.strategy, env.choose(1));
  }

  /** Execute with one usable instance that the breaker admits: one pick, and the state it leaves. */
  lemma OneInstance(c: Config, env: Env, s: Sys, i: Instance) returns (p: Progress)
    requires c.policy.maxAttempts >= 0 && !env.cancelled(0) && !env.cancelled(1)
    requires Usable(s.manager.statusMap, i.id)
    requires CB.Step(c.breaker, CB.Lookup(s.breakers, i.id), CB.Input(CB.Allow, env.now(0))).1 == CB.Granted
    ensures p.sys.breakers == s.breakers && p.sys.detector == s.detector && p.picks == []
    ensures p.sys.manager.instances == [i]
    ensures var r, q := Executed(c, env, s, [i]), Try(c, env, 0, p, i).p; r.picks == q.picks && r.sys == q.sys
  {
    hide Select, CB.Step, CB.StepAll, HD.AfterFailure, HD.AfterSuccess, Loop;
    var b := Begin(s, [i]);
    SelectionIsUsable(b.sys.manager, c.strategy, env.choose(0));
    assert b.sys.manager.instances[0] == i && UsableAt(b.sys.manager, 0);
    var sel := Select(b.sys.manager, c.strategy, env.choose(0));
    p := b.(sys := b.sys.(manager := sel.manager));
    var o := Try(c, env, 0, p, i);
    assert Choose(c, env, 1, 0, b) == o;
    LoopFrom(c, env, b, o);
    if o.Going? {
      UnusableStopsLoop(c, env, i, o.p);
    }
  }

  lemma LoopFrom(c: Config, env: Env, p: Progress, o: Outcome)
    requires c.policy.maxAttempts >= 0 && Choose(c, env, 1, 0, p) == o
    ensures Loop(c, env, 1, 0, p) == if o.Going? then Loop(c, env, 1, 1, o.p) else o
  {
    hide Choose;
  }

  const DOWN := OtherError("down")

  function FailingCall(c: Config, i: Instance): Task {
    Serve(DialEnv(c.thresholds, 0, Some(DOWN)), [i])
  }

  ghost predicate NamedThroughout(tasks: seq<Task>, id: string) {
    AllPermitted(tasks) && forall k :: 0 <= k < |tasks| ==> ListedIn(tasks[k], id)
  }

  lemma OneFailureOpens(c: Config, i: Instance)
    requires c.policy.maxAttempts >= 0 && c.breaker.threshold <= 1
    ensures BH.In(CB.Lookup(Perform(c, FRESH, FailingCall(c, i)).breakers, i.id), CB.Open)
  {
    hide Executed, HD.AfterDial, HD.AfterFailure, CB.OpenTime;
    var p := OneInstance(c, DialEnv(c.thresholds, 0, Some(DOWN)), FRESH, i);
  }

  lemma OneTask(c: Config, s: Sys, t: Task)
    requires Permitted(t)
    ensures PerformAll(c, s, [t]) == Perform(c, s, t)
  {
    hide Perform;
    assert [t][..0] == [];
  }

  lemma {:induction false} NoAttemptNoRecord(c: Config, tasks: seq<Task>)
    requires AllPermitted(tasks) && c.policy.maxAttempts < 0
    ensures PerformAll(c, FRESH, tasks).breakers == map[]
  {
    hide CB.Step, HD.AfterFailure, HD.AfterSuccess;
    if tasks == [] {
    } else {
      NoAttemptNoRecord(c, tasks[..|tasks| - 1]);
    }
  }

  /** Execute calls and cleanup ticks never open the breaker of an ID that every list names, exactly when the
      threshold is at least two (or no call is ever attempted). */
  lemma NeverOpensIff(c: Config)
    ensures (forall tasks, id :: NamedThroughout(tasks, id) ==>
               BH.ClosedOrAbsent(CB.Lookup(PerformAll(c, FRESH, tasks).breakers, id)))
            <==> c.breaker.threshold >= 2 || c.policy.maxAttempts < 0
  {
    hide PerformAll, Perform;
    if c.breaker.threshold >= 2 || c.policy.maxAttempts < 0 {
      forall tasks, id | NamedThroughout(tasks, id)
        ensures BH.ClosedOrAbsent(CB.Lookup(PerformAll(c, FRESH, tasks).breakers, id))
      {
        if c.breaker.threshold >= 2 {
          ExecuteNeverOpens(c, tasks, id);
        } else {
          NoAttemptNoRecord(c, tasks);
        }
      }
    } else {
      var i := Instance("a", "a");
      OneFailureOpens(c, i);
      OneTask(c, FRESH, FailingCall(c, i));
      assert NamedThroughout([FailingCall(c, i)], i.id) by {
        assert i in FailingCall(c, i).instances;
      }
    }
  }
}
