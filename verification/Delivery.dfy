/** The life of a watching goroutine of registry/etcd/registry.go and of an Unsubscribe call: what keeps
    them going, and what ends them. */
module Delivery {
  import opened Types
  import opened Registry

  /** The goroutine of `ch` is in the given phase. */
  predicate Is(r: Reg, ch: nat, phase: Phase) {
    ch in r.routines && r.routines[ch] == phase
  }

  lemma ArmedStep(r: Reg, a: Action, ch: nat)
    requires Inv(r) && Enabled(r, a) && Is(r, ch, Armed) && a != Send(ch)
    ensures Step(r, a).Some? && Is(Step(r, a).value, ch, Armed)
  {
    hide With, Without, Channels, LeaseKey;
    StepKeepsInv(r, a);
  }

  lemma {:induction false} ArmedRun(r: Reg, acts: seq<Action>, ch: nat)
    requires Inv(r) && AllEnabled(r, acts) && Is(r, ch, Armed) && Send(ch) !in acts
    ensures Run(r, acts).Some? && Inv(Run(r, acts).value) && Is(Run(r, acts).value, ch, Armed)
  {
    hide Step, Inv, Is;
    if acts == [] {
    } else {
      var front, a := acts[..|acts| - 1], acts[|acts| - 1];
      ArmedRun(r, front, ch);
      StepKeepsInv(Run(r, front).value, a);
      ArmedStep(Run(r, front).value, a, ch);
    }
  }

  /** The goroutine of a channel in the map never misses an event: when one arrives it goes on to send,
      whatever others do in between, and while its channel is in the map then, the send succeeds, leaves
      the channel mapped and open, and the goroutine waits for the next event. */
  lemma EventIsDelivered(r: Reg, ch: nat, between: seq<Action>)
    requires Inv(r) && InMap(r, ch) && Is(r, ch, Watching)
    requires AllEnabled(Step(r, Event(ch)).value, between) && Send(ch) !in between
    ensures Run(Step(r, Event(ch)).value, between).Some?
    ensures var p := Run(Step(r, Event(ch)).value, between).value;
            && Enabled(p, Send(ch)) && Step(p, Send(ch)).Some?
            && var q := Step(p, Send(ch)).value;
               InMap(p, ch) ==> Is(q, ch, Watching) && InMap(q, ch) && ch !in q.closed
  {
    hide AllEnabled, Run;
    StepKeepsInv(r, Event(ch));
    ArmedRun(Step(r, Event(ch)).value, between, ch);
    StepKeepsInv(Run(Step(r, Event(ch)).value, between).value, Send(ch));
  }

  /** The step gives the goroutine of `ch` a reason to leave: its watch ends, an event finds its slot
      free, or it sends on its closed channel. */
  predicate Dismisses(r: Reg, a: Action, ch: nat) {
    || a == Stop(ch)
    || (a == Event(ch) && ch < |r.slots| && !Mapped(r.watchers, r.slots[ch]))
    || (a == Send(ch) && ch in r.closed)
  }

  ghost predicate Dismissed(acts: seq<Action>, ch: nat) {
    exists k :: 0 <= k < |acts| && Run(EMPTY, acts[..k]).Some? && Dismisses(Run(EMPTY, acts[..k]).value, acts[k], ch)
  }

  lemma DismissedSnoc(acts: seq<Action>, ch: nat)
    requires acts != [] && Run(EMPTY, acts[..|acts| - 1]).Some?
    ensures var front := acts[..|acts| - 1];
            Dismissed(acts, ch) <==> Dismissed(front, ch) || Dismisses(Run(EMPTY, front).value, acts[|acts| - 1], ch)
  {
    hide Run, Dismisses;
    var front := acts[..|acts| - 1];
    forall k | 0 <= k < |front| ensures acts[..k] == front[..k] && acts[k] == front[k] {}
    if Dismissed(acts, ch) {
      var k :| 0 <= k < |acts| && Run(EMPTY, acts[..k]).Some? && Dismisses(Run(EMPTY, acts[..k]).value, acts[k], ch);
      assert k < |front| ==> acts[..k] == front[..k];
    }
    if Dismissed(front, ch) {
      var k :| 0 <= k < |front| && Run(EMPTY, front[..k]).Some?
               && Dismisses(Run(EMPTY, front[..k]).value, front[k], ch);
      assert acts[..k] == front[..k];
    }
  }

  lemma SubscribeLeavesRoutines(r: Reg, s: Slot, listed: bool)
    ensures var q := Step(r, Subscribe(s, listed)).value;
            q.routines == r.routines || q.routines == r.routines[|r.slots| := Watching]
  {
    hide With, Without, LeaseKey, Mapped;
  }

  lemma CleanupLeavesRoutines(r: Reg, s: Slot)
    requires Enabled(r, Cleanup(s)) && Step(r, Cleanup(s)).Some?
    ensures Step(r, Cleanup(s)).value.routines == r.routines
  {
    hide Without, Mapped, ChannelAt;
  }

  lemma UnsubscribeLeavesRoutines(r: Reg, a: Action)
    requires Enabled(r, a) && (a.Cancel? || a.Forget? || a.Look?)
    ensures Step(r, a).Some? && Step(r, a).value.routines == r.routines
  {
    hide LeaseKey, Mapped, Moved;
  }

  lemma CloseLeavesRoutines(r: Reg)
    requires Step(r, Close).Some?
    ensures Step(r, Close).value.routines == r.routines
  {
    hide Channels;
  }

  lemma OthersLeaveRoutines(r: Reg, a: Action)
    requires Enabled(r, a) && Step(r, a).Some? && !a.Event? && !a.Send? && !a.Stop? && !a.Exit?
    ensures var q := Step(r, a).value;
            q.routines == r.routines || q.routines == r.routines[|r.slots| := Watching]
  {
    hide Step, Enabled;
    match a {
      case Subscribe(s, listed) => SubscribeLeavesRoutines(r, s, listed);
      case Cleanup(s) => CleanupLeavesRoutines(r, s);
      case Close => CloseLeavesRoutines(r);
      case _ => UnsubscribeLeavesRoutines(r, a);
    }
  }

  lemma RoutineStep(r: Reg, a: Action, ch: nat)
    requires Enabled(r, a) && Step(r, a).Some? && (a.Event? || a.Send? || a.Stop? || a.Exit?)
    ensures var q := Step(r, a).value;
            && (ch in q.routines ==> ch in r.routines)
            && (ch in q.routines ==> (Is(q, ch, Leaving) <==> Is(r, ch, Leaving) || Dismisses(r, a, ch)))
  {
    hide With, Without, Channels, LeaseKey, ChannelAt, Mapped;
  }

  lemma LeavingStep(r: Reg, a: Action, ch: nat)
    requires Enabled(r, a) && Step(r, a).Some? && forall x :: x in r.routines ==> x < |r.slots|
    ensures ch < |r.slots| && ch in Step(r, a).value.routines ==>
              ch in r.routines && (Is(Step(r, a).value, ch, Leaving) <==> Is(r, ch, Leaving) || Dismisses(r, a, ch))
    ensures ch >= |r.slots| ==> !Is(Step(r, a).value, ch, Leaving) && !Dismisses(r, a, ch)
  {
    hide Step;
    if a.Event? || a.Send? || a.Stop? || a.Exit? {
      RoutineStep(r, a, ch);
    } else {
      OthersLeaveRoutines(r, a);
    }
  }

  /** In every run a goroutine is on its way out exactly when the run gave it a reason: nothing else stops the
      watch of a subscriber. */
  lemma {:induction false} LeavesOnlyIfDismissed(acts: seq<Action>, ch: nat)
    requires AllEnabled(EMPTY, acts)
    ensures Run(EMPTY, acts).Some?
    ensures var r := Run(EMPTY, acts).value;
            && (ch in r.routines ==> (Is(r, ch, Leaving) <==> Dismissed(acts, ch)))
            && (ch >= |r.slots| ==> !Dismissed(acts, ch))
  {
    hide Step, Inv, Is, Dismissed, Dismisses;
    EveryInterleavingIsSafe(acts);
    if acts == [] {
      NothingDismissed(ch);
    } else {
      var front, a := acts[..|acts| - 1], acts[|acts| - 1];
      LeavesOnlyIfDismissed(front, ch);
      EveryInterleavingIsSafe(front);
      DismissedSnoc(acts, ch);
      RoutinesHaveSlots(Run(EMPTY, front).value);
      LeavingStep(Run(EMPTY, front).value, a, ch);
      SlotsGrow(Run(EMPTY, front).value, a);
    }
  }

  lemma RoutinesHaveSlots(r: Reg)
    requires Inv(r)
    ensures forall x :: x in r.routines ==> x < |r.slots|
  {
  }

  lemma NothingDismissed(ch: nat)
    ensures !Dismissed([], ch)
  {
  }

  lemma SlotsGrow(r: Reg, a: Action)
    requires Enabled(r, a) && Step(r, a).Some?
    ensures |r.slots| <= |Step(r, a).value.slots|
  {
  }

  lemma ExitStep(r: Reg, a: Action, ch: nat)
    requires Inv(r) && Enabled(r, a)
    ensures Step(r, a).Some?
    ensures a == Exit(ch) ==> ch < |r.slots| && ch in Step(r, a).value.cancelled && ch !in Step(r, a).value.routines
    ensures ch < |r.slots| && ch !in r.routines ==> ch !in Step(r, a).value.routines
    ensures r.cancelled <= Step(r, a).value.cancelled && |r.slots| <= |Step(r, a).value.slots|
  {
    hide With, Without, Channels, LeaseKey, ChannelAt, Moved;
    StepKeepsInv(r, a);
  }

  /** A goroutine that has exited is cancelled and does not come back. */
  lemma {:induction false} ExitIsFinal(acts: seq<Action>, ch: nat)
    requires AllEnabled(EMPTY, acts) && Exit(ch) in acts
    ensures Run(EMPTY, acts).Some?
    ensures var r := Run(EMPTY, acts).value; ch < |r.slots| && ch in r.cancelled && ch !in r.routines
  {
    hide Step, Inv;
    EveryInterleavingIsSafe(acts);
    var front, a := acts[..|acts| - 1], acts[|acts| - 1];
    EveryInterleavingIsSafe(front);
    ExitStep(Run(EMPTY, front).value, a, ch);
    if a == Exit(ch) {
    } else {
      assert Exit(ch) in front;
      ExitIsFinal(front, ch);
    }
  }

  // Unsubscribe calls are neither lost nor invented.

  /** Unsubscribe calls for `s` under way. */
  function UnderWay(r: Reg, s: Slot): nat {
    r.callers[Caller(s, Forgetting)] + r.callers[Caller(s, Looking)] + r.callers[Caller(s, Sleeping)]
  }

  function Begun(acts: seq<Action>, s: Slot): nat {
    if acts == [] then 0
    else Begun(acts[..|acts| - 1], s) + if acts[|acts| - 1] == Cancel(s) then 1 else 0
  }

  /** Calls that have returned: after freeing the slot, or on finding it free. */
  function Returned(acts: seq<Action>, s: Slot): nat {
    if acts == [] then 0
    else
      var front, a := acts[..|acts| - 1], acts[|acts| - 1];
      var p := Run(EMPTY, front);
      var back := a == Cleanup(s) || (a == Look(s) && p.Some? && !Mapped(p.value.watchers, s));
      Returned(front, s) + if back then 1 else 0
  }

  lemma OthersLeaveCallers(r: Reg, a: Action)
    requires Enabled(r, a) && Step(r, a).Some? && !a.Cancel? && !a.Forget? && !a.Look? && !a.Cleanup?
    ensures Step(r, a).value.callers == r.callers
  {
    hide With, Without, Channels, LeaseKey, ChannelAt, Mapped;
  }

  lemma MovedCounts(callers: multiset<Caller>, t: Slot, from: Stage, to: Stage, x: Caller)
    requires Caller(t, from) in callers && from != to
    ensures Moved(callers, t, from, to)[x] ==
            callers[x] + (if x == Caller(t, to) then 1 else 0) - (if x == Caller(t, from) then 1 else 0)
  {
  }

  lemma CallStep(r: Reg, a: Action, x: Caller)
    requires Enabled(r, a) && Step(r, a).Some? && (a.Cancel? || a.Forget? || a.Look? || a.Cleanup?)
    ensures Step(r, a).value.callers[x] == r.callers[x] + Arrives(r, a, x) - Leaves(a, x)
  {
    hide Step, LeaseKey, Mapped, Moved;
    CallersAfter(r, a);
    match a {
      case Forget(t) => MovedCounts(r.callers, t, Forgetting, Looking, x);
      case Look(t) => MovedCounts(r.callers, t, Looking, Sleeping, x);
      case _ =>
    }
  }

  lemma CallersAfter(r: Reg, a: Action)
    requires Enabled(r, a) && Step(r, a).Some?
    ensures match a
            case Cancel(t) =>
              Step(r, a).value.callers ==
              r.callers + multiset{Caller(t, if LeaseKey(t) in r.leases then Forgetting else Looking)}
            case Forget(t) => Step(r, a).value.callers == Moved(r.callers, t, Forgetting, Looking)
            case Look(t) =>
              Step(r, a).value.callers == (if Mapped(r.watchers, t) then Moved(r.callers, t, Looking, Sleeping)
                                           else r.callers - multiset{Caller(t, Looking)})
            case Cleanup(t) => Step(r, a).value.callers == r.callers - multiset{Caller(t, Sleeping)}
            case _ => true
  {
    hide With, Without, Channels, LeaseKey, ChannelAt, Mapped, Moved;
  }

  /** Calls at the stage of `x` that a step of an Unsubscribe call brings there, and takes away. */
  function Arrives(r: Reg, a: Action, x: Caller): nat {
    match a
    case Cancel(t) =>
      if x == Caller(t, if LeaseKey(t) in r.leases then Forgetting else Looking) then 1 else 0
    case Forget(t) => if x == Caller(t, Looking) then 1 else 0
    case Look(t) => if x == Caller(t, Sleeping) && Mapped(r.watchers, t) then 1 else 0
    case _ => 0
  }

  function Leaves(a: Action, x: Caller): nat {
    match a
    case Forget(t) => if x == Caller(t, Forgetting) then 1 else 0
    case Look(t) => if x == Caller(t, Looking) then 1 else 0
    case Cleanup(t) => if x == Caller(t, Sleeping) then 1 else 0
    case _ => 0
  }

  lemma UnderWayStep(r: Reg, a: Action, s: Slot)
    requires Enabled(r, a) && Step(r, a).Some?
    ensures UnderWay(Step(r, a).value, s) ==
            UnderWay(r, s) + (if a == Cancel(s) then 1 else 0)
            - (if a == Cleanup(s) || (a == Look(s) && !Mapped(r.watchers, s)) then 1 else 0)
  {
    hide Step, LeaseKey, Mapped;
    if a.Cancel? || a.Forget? || a.Look? || a.Cleanup? {
      CallStep(r, a, Caller(s, Forgetting));
      CallStep(r, a, Caller(s, Looking));
      CallStep(r, a, Caller(s, Sleeping));
    } else {
      OthersLeaveCallers(r, a);
    }
  }

  /** In every interleaving the Unsubscribe calls that began are those that returned and those under way. */
  lemma {:induction false} CallsBalance(acts: seq<Action>, s: Slot)
    requires AllEnabled(EMPTY, acts)
    ensures Run(EMPTY, acts).Some? && Begun(acts, s) == Returned(acts, s) + UnderWay(Run(EMPTY, acts).value, s)
  {
    hide Step, UnderWay;
    EveryInterleavingIsSafe(acts);
    if acts == [] {
      NobodyUnderWay(s);
    } else {
      CallsBalance(acts[..|acts| - 1], s);
      UnderWayStep(Run(EMPTY, acts[..|acts| - 1]).value, acts[|acts| - 1], s);
    }
  }

  lemma NobodyUnderWay(s: Slot)
    ensures UnderWay(EMPTY, s) == 0
  {
  }
}
