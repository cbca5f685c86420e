/** What an Unsubscribe call of registry/etcd/registry.go reaches, over every interleaving with other
    callers and with the watching goroutines. */
module Unsubscribe {
  import opened Types
  import opened Registry
  import Joining
  import Naming

  /** Without a new subscription to the slot, the slot holds its first channel or none. */
  predicate Unrenewed(r: Reg, q: Reg, s: Slot) {
    Mapped(q.watchers, s) ==> Mapped(r.watchers, s) && ChannelAt(q.watchers, s) == ChannelAt(r.watchers, s)
  }

  lemma UnrenewedStep(r: Reg, a: Action, s: Slot)
    requires Inv(r) && Enabled(r, a) && !(a.Subscribe? && a.slot == s)
    ensures Step(r, a).Some? && Unrenewed(r, Step(r, a).value, s)
  {
    StepKeepsInv(r, a);
    match a {
      case Subscribe(t, listed) =>
        if !Mapped(r.watchers, t) {
          MappedWith(r.watchers, t, |r.slots|, s);
          FailedSubscribeRestores(r.watchers, t, |r.slots|);
        }
      case Exit(ch) =>
        if Mapped(r.watchers, r.slots[ch]) {
          MappedWithout(r.watchers, r.slots[ch], s);
        }
      case Cleanup(t) =>
        if Mapped(r.watchers, t) {
          MappedWithout(r.watchers, t, s);
        }
      case _ =>
    }
  }

  /** What Unsubscribe closes in the end is the channel that was subscribed when it began, unless somebody
      subscribed to the same slot in between. */
  lemma {:induction false} CleanupClosesItsOwn(r: Reg, acts: seq<Action>, s: Slot)
    requires Inv(r) && AllEnabled(r, acts)
    requires forall k :: 0 <= k < |acts| ==> !(acts[k].Subscribe? && acts[k].slot == s)
    ensures Run(r, acts).Some? && Inv(Run(r, acts).value) && Unrenewed(r, Run(r, acts).value, s)
  {
    if acts == [] {
    } else {
      hide Step, Inv;
      CleanupClosesItsOwn(r, acts[..|acts| - 1], s);
      var p := Run(r, acts[..|acts| - 1]).value;
      UnrenewedStep(p, acts[|acts| - 1], s);
      StepKeepsInv(p, acts[|acts| - 1]);
    }
  }

  function Single(s: Slot, ch: nat): map<string, map<string, nat>> {
    map[s.service := map[s.version := ch]]
  }

  lemma SingleSteps(s: Slot, ch: nat)
    ensures With(map[], s, ch) == Single(s, ch) && Mapped(Single(s, ch), s) && ChannelAt(Single(s, ch), s) == ch
    ensures Without(Single(s, ch), s) == map[]
  {
    assert map[s.version := ch] - {s.version} == map[];
    assert Single(s, ch) - {s.service} == map[];
  }

  lemma NothingMapped(s: Slot)
    ensures !Mapped(map[], s)
  {
  }

  lemma RunSnoc(r0: Reg, acts: seq<Action>, r: Reg, a: Action) returns (more: seq<Action>)
    requires AllEnabled(r0, acts) && Run(r0, acts) == Some(r) && Enabled(r, a)
    ensures more == acts + [a] && AllEnabled(r0, more) && Run(r0, more) == Step(r, a)
  {
    hide Step;
    more := acts + [a];
    assert more[..|acts|] == acts;
  }

  /** A watch that ends empties the slot, whatever an Unsubscribe call has done so far. */
  function AfterLeaving(s: Slot, leases: map<string, nat>, callers: multiset<Caller>): Reg {
    Reg(map[], {0}, [s], map[], {0}, leases, callers)
  }

  lemma Leaves(acts: seq<Action>, r: Reg, s: Slot) returns (more: seq<Action>)
    requires AllEnabled(EMPTY, acts) && Run(EMPTY, acts) == Some(r)
    requires r == Reg(Single(s, 0), {}, [s], map[0 := Watching], {0}, r.leases, r.callers)
    ensures AllEnabled(EMPTY, more) && more == acts + [Stop(0), Exit(0)]
    ensures Run(EMPTY, more) == Some(AfterLeaving(s, r.leases, r.callers))
  {
    hide Mapped, ChannelAt, Without, Run;
    SingleSteps(s, 0);
    more := RunSnoc(EMPTY, acts, r, Stop(0));
    more := RunSnoc(EMPTY, more, Step(r, Stop(0)).value, Exit(0));
    assert map[0 := Watching][0 := Leaving] - {0} == map[];
    assert {} + {0} == {0} && {0} + {0} == {0};
    assert more == acts + [Stop(0), Exit(0)];
  }

  lemma Subscribes(acts: seq<Action>, r: Reg, s: Slot) returns (more: seq<Action>)
    requires AllEnabled(EMPTY, acts) && Run(EMPTY, acts) == Some(r) && r.watchers == map[]
    ensures var ch := |r.slots|;
            AllEnabled(EMPTY, more) && more == acts + [Subscribe(s, true)] &&
            Run(EMPTY, more) == Some(r.(watchers := Single(s, ch), slots := r.slots + [s],
                                        routines := r.routines[ch := Watching], leases := r.leases[LeaseKey(s) := ch]))
  {
    hide Mapped, ChannelAt, With, LeaseKey, Run;
    NothingMapped(s);
    SingleSteps(s, |r.slots|);
    more := RunSnoc(EMPTY, acts, r, Subscribe(s, true));
  }

  lemma SubscribesAndCancels(s: Slot) returns (acts: seq<Action>)
    ensures AllEnabled(EMPTY, acts) && acts == [Subscribe(s, true), Cancel(s)]
    ensures Run(EMPTY, acts) == Some(Reg(Single(s, 0), {}, [s], map[0 := Watching], {0}, map[LeaseKey(s) := 0],
                                         multiset{Caller(s, Forgetting)}))
  {
    hide LeaseKey, Run;
    NothingRun();
    acts := Subscribes([], EMPTY, s);
    var empty: set<nat> := {};
    assert empty + {0} == {0};
    assert EMPTY.slots + [s] == [s];
    assert EMPTY.leases[LeaseKey(s) := 0] == map[LeaseKey(s) := 0];
    assert EMPTY.routines[0 := Watching] == map[0 := Watching];
    assert EMPTY.callers + multiset{Caller(s, Forgetting)} == multiset{Caller(s, Forgetting)};
    acts := RunSnoc(EMPTY, acts, Run(EMPTY, acts).value, Cancel(s));
    assert acts == [Subscribe(s, true), Cancel(s)];
  }

  lemma NothingRun()
    ensures AllEnabled(EMPTY, []) && Run(EMPTY, []) == Some(EMPTY)
  {
  }

  lemma GoesToSleep(s: Slot) returns (acts: seq<Action>)
    ensures AllEnabled(EMPTY, acts) && acts == [Subscribe(s, true), Cancel(s), Forget(s), Look(s)]
    ensures Run(EMPTY, acts) ==
            Some(Reg(Single(s, 0), {}, [s], map[0 := Watching], {0}, map[], multiset{Caller(s, Sleeping)}))
  {
    hide Mapped, ChannelAt, With, Without, Channels, LeaseKey, Run, AllEnabled;
    SingleSteps(s, 0);
    acts := SubscribesAndCancels(s);
    assert map[LeaseKey(s) := 0] - {LeaseKey(s)} == map[];
    assert Moved(multiset{Caller(s, Forgetting)}, s, Forgetting, Looking) == multiset{Caller(s, Looking)};
    assert Moved(multiset{Caller(s, Looking)}, s, Looking, Sleeping) == multiset{Caller(s, Sleeping)};
    acts := RunSnoc(EMPTY, acts, Run(EMPTY, acts).value, Forget(s));
    acts := RunSnoc(EMPTY, acts, Run(EMPTY, acts).value, Look(s));
  }

  /** With such a subscription it can close the new subscriber's channel. */
  lemma CleanupCanCloseSuccessor(s: Slot)
    ensures var acts := [Subscribe(s, true), Cancel(s), Forget(s), Look(s), Stop(0), Exit(0), Subscribe(s, true)];
            var r := Run(EMPTY, acts);
            && r.Some? && Mapped(r.value.watchers, s) && ChannelAt(r.value.watchers, s) == 1
            && Enabled(r.value, Cleanup(s))
            && Step(r.value, Cleanup(s)).Some? && 1 in Step(r.value, Cleanup(s)).value.closed
  {
    hide Mapped, ChannelAt, With, Without, Channels, LeaseKey, Run, AllEnabled;
    SingleSteps(s, 1);
    var acts := GoesToSleep(s);
    acts := Leaves(acts, Run(EMPTY, acts).value, s);
    acts := Subscribes(acts, Run(EMPTY, acts).value, s);
    assert acts == [Subscribe(s, true), Cancel(s), Forget(s), Look(s), Stop(0), Exit(0), Subscribe(s, true)];
  }

  // The cancel function of a subscription.

  /** The cancel function stored for `s` is that of channel `ch`. */
  predicate Cancellable(r: Reg, s: Slot, ch: nat) {
    LeaseKey(s) in r.leases && r.leases[LeaseKey(s)] == ch
  }

  /** Deletes or replaces the cancel function stored for `s`. */
  predicate Displaces(a: Action, s: Slot) {
    (a.Forget? || a.Subscribe?) && LeaseKey(a.slot) == LeaseKey(s)
  }

  /** A stored cancel function stays until an Unsubscribe call for its key deletes it or a new
      subscription under the key replaces it. */
  lemma {:induction false} CancelFunctionStays(r: Reg, acts: seq<Action>, s: Slot, ch: nat)
    requires Inv(r) && AllEnabled(r, acts) && Cancellable(r, s, ch)
    requires forall k :: 0 <= k < |acts| ==> !Displaces(acts[k], s)
    ensures Run(r, acts).Some? && Inv(Run(r, acts).value) && Cancellable(Run(r, acts).value, s, ch)
  {
    hide Inv, Step, Cancellable;
    if acts == [] {
    } else {
      CancelFunctionStays(r, acts[..|acts| - 1], s, ch);
      var p := Run(r, acts[..|acts| - 1]).value;
      StepKeepsInv(p, acts[|acts| - 1]);
      CancelFunctionStep(p, acts[|acts| - 1], s, ch);
    }
  }

  lemma CancelFunctionStep(r: Reg, a: Action, s: Slot, ch: nat)
    requires Enabled(r, a) && Step(r, a).Some? && Cancellable(r, s, ch) && !Displaces(a, s)
    ensures Cancellable(Step(r, a).value, s, ch)
  {
    hide With, Without, Channels, ChannelAt, Mapped, LeaseKey;
  }

  /** An Unsubscribe call that is slow to delete what it cancelled deletes the cancel function of the
      next subscription: neither Unsubscribe nor Close cancels that one's goroutine. */
  lemma ForgetCanLoseSuccessor(s: Slot)
    ensures var acts := [Subscribe(s, true), Cancel(s), Stop(0), Exit(0), Subscribe(s, true), Forget(s)];
            var r := Run(EMPTY, acts);
            && r.Some? && Mapped(r.value.watchers, s) && ChannelAt(r.value.watchers, s) == 1
            && 1 in r.value.routines && !Cancellable(r.value, s, 1)
            && 1 !in Step(r.value, Cancel(s)).value.cancelled
            && Step(r.value, Close).Some? && 1 !in Step(r.value, Close).value.cancelled
  {
    hide Mapped, ChannelAt, With, Without, Channels, LeaseKey, Run, AllEnabled;
    SingleSteps(s, 1);
    var acts := SubscribesAndCancels(s);
    acts := Leaves(acts, Run(EMPTY, acts).value, s);
    acts := Subscribes(acts, Run(EMPTY, acts).value, s);
    assert map[LeaseKey(s) := 0][LeaseKey(s) := 1] - {LeaseKey(s)} == map[];
    acts := RunSnoc(EMPTY, acts, Run(EMPTY, acts).value, Forget(s));
    assert acts == [Subscribe(s, true), Cancel(s), Stop(0), Exit(0), Subscribe(s, true), Forget(s)];
    SingleChannel(s, 1);
  }

  lemma SingleChannel(s: Slot, ch: nat)
    ensures Channels(Single(s, ch)) == {ch}
  {
    assert s.service in Single(s, ch) && s.version in Single(s, ch)[s.service];
  }

  /** Unsubscribe cancels the goroutine of the subscription just made, and Close
      cancels every registered one and closes every mapped channel. */
  lemma NewSubscriptionCanBeCancelled(r: Reg, s: Slot)
    requires Inv(r) && !Mapped(r.watchers, s)
    ensures var q := Step(r, Subscribe(s, true)).value;
            && Mapped(q.watchers, s)
            && ChannelAt(q.watchers, s) in Step(q, Cancel(s)).value.cancelled
            && Step(q, Close).Some?
            && ChannelAt(q.watchers, s) in Step(q, Close).value.cancelled
            && (forall t :: Mapped(q.watchers, t) ==> ChannelAt(q.watchers, t) in Step(q, Close).value.closed)
  {
    var q := Step(r, Subscribe(s, true)).value;
    MappedWith(r.watchers, s, |r.slots|, s);
    SubscribeKeepsInv(r, s);
    CloseKeepsInv(q);
    assert LeaseKey(s) in q.leases && q.leases[LeaseKey(s)] == |r.slots|;
    forall t | Mapped(q.watchers, t) ensures ChannelAt(q.watchers, t) in Channels(q.watchers) {}
  }

  /** For slash-free service names, whatever the versions, it cancels only goroutines of its own slot. */
  lemma CancelReachesItsOwn(r: Reg, s: Slot)
    requires Inv(r) && LeaseKey(s) in r.leases
    requires Naming.SlashFree(s.service) && Naming.SlashFree(r.slots[r.leases[LeaseKey(s)]].service)
    ensures r.slots[r.leases[LeaseKey(s)]] == s
  {
    var t := r.slots[r.leases[LeaseKey(s)]];
    assert LeaseKey(t) == LeaseKey(s);
    Joining.FirstPartsAgree(s.service, '/', s.version, t.service, t.version);
  }

  /** The cancel function stored under the key of `s` was stored for another slot. */
  predicate CancelsAnother(r: Reg, s: Slot) {
    LeaseKey(s) in r.leases && r.leases[LeaseKey(s)] < |r.slots| && r.slots[r.leases[LeaseKey(s)]] != s
  }

  lemma LeaseKeyIsShared(s: Slot)
    ensures (exists t :: t != s && LeaseKey(t) == LeaseKey(s)) <==>
            !(Naming.SlashFree(s.service) && Naming.SlashFree(s.version))
  {
    Joining.JoinedOtherwiseIff(s.service, '/', s.version);
    assert forall t :: LeaseKey(t) == Joining.Join(t.service, '/', t.version);
    if Joining.JoinedOtherwise(s.service, '/', s.version) {
      var x, y :| Joining.Join(x, '/', y) == Joining.Join(s.service, '/', s.version)
                  && (x != s.service || y != s.version);
      assert LeaseKey(Slot(x, y)) == LeaseKey(s);
    }
  }

  /** Some interleaving leads Unsubscribe for `s` to cancel a goroutine of another slot exactly when the
      service or the version of `s` contains a slash. */
  lemma CancelsAnotherIff(s: Slot)
    ensures (exists acts :: AllEnabled(EMPTY, acts) && Run(EMPTY, acts).Some?
                            && CancelsAnother(Run(EMPTY, acts).value, s))
            <==> !(Naming.SlashFree(s.service) && Naming.SlashFree(s.version))
  {
    hide Run, AllEnabled, LeaseKey, Naming.SlashFree;
    LeaseKeyIsShared(s);
    if t: Slot :| t != s && LeaseKey(t) == LeaseKey(s) {
      NothingRun();
      var acts := Subscribes([], EMPTY, t);
      assert CancelsAnother(Run(EMPTY, acts).value, s);
    }
    forall acts | AllEnabled(EMPTY, acts) && Run(EMPTY, acts).Some? && CancelsAnother(Run(EMPTY, acts).value, s)
      ensures exists t :: t != s && LeaseKey(t) == LeaseKey(s)
    {
      EveryInterleavingIsSafe(acts);
      var r := Run(EMPTY, acts).value;
      assert LeaseKey(r.slots[r.leases[LeaseKey(s)]]) == LeaseKey(s);
    }
  }

  // When a subscription survives its own Unsubscribe calls.

  /** The step with which an Unsubscribe call for `s` returns. */
  predicate Returns(p: Reg, a: Action, s: Slot) {
    a == Cleanup(s) || (a == Look(s) && !Mapped(p.watchers, s))
  }

  /** Whatever happens in between, a channel that is subscribed at some moment is closed by the time any
      Unsubscribe call for its slot returns, and the slot is then free. */
  lemma UnsubscribeCloses(r: Reg, acts: seq<Action>, last: Action, s: Slot)
    requires Inv(r) && Mapped(r.watchers, s) && AllEnabled(r, acts) && Run(r, acts).Some?
    requires Enabled(Run(r, acts).value, last) && Returns(Run(r, acts).value, last, s)
    ensures var q := Step(Run(r, acts).value, last);
            q.Some? && !Mapped(q.value.watchers, s) && ChannelAt(r.watchers, s) in q.value.closed
  {
    hide AllEnabled, Run;
    var ch, p := ChannelAt(r.watchers, s), Run(r, acts).value;
    ChannelsFollow(r, acts, ch);
    StepFollows(p, last, ch);
    if last == Cleanup(s) && Mapped(p.watchers, s) {
      MappedWithout(p.watchers, s, s);
    }
  }

  ghost predicate NobodyForgets(r: Reg, s: Slot) {
    forall u :: LeaseKey(u) == LeaseKey(s) ==> Caller(u, Forgetting) !in r.callers
  }

  /** Channel `ch` is subscribed, its goroutine is not cancelled, and no call of Unsubscribe, for whatever
      slot, nor Close will cancel it. */
  ghost predicate BeyondReach(r: Reg, ch: nat) {
    && InMap(r, ch) && ch !in r.cancelled
    && (forall t :: ch !in Step(r, Cancel(t)).value.cancelled)
    && (Step(r, Close).Some? ==> ch !in Step(r, Close).value.cancelled)
  }

  lemma BeyondReachIff(r: Reg, ch: nat)
    requires Inv(r) && InMap(r, ch)
    ensures BeyondReach(r, ch) <==> ch !in r.cancelled && !Cancellable(r, r.slots[ch], ch)
  {
    hide LeaseKey, Mapped, ChannelAt;
    StepKeepsInv(r, Close);
    if Cancellable(r, r.slots[ch], ch) {
      assert ch in Step(r, Cancel(r.slots[ch])).value.cancelled;
    }
  }

  /** While it is subscribed and not cancelled, `ch` can be cancelled and nobody is about to delete that. */
  ghost predicate Secure(r: Reg, s: Slot, ch: nat) {
    && ch < |r.slots| && r.slots[ch] == s
    && (InMap(r, ch) && ch !in r.cancelled ==> Cancellable(r, s, ch) && NobodyForgets(r, s))
  }

  lemma SecureStep(r: Reg, a: Action, s: Slot, ch: nat)
    requires Inv(r) && Enabled(r, a) && Secure(r, s, ch)
    requires forall t :: LeaseKey(t) == LeaseKey(s) ==> t == s
    ensures Step(r, a).Some? && Secure(Step(r, a).value, s, ch)
  {
    hide Step, Inv, InMap;
    StepFollows(r, a, ch);
    if InMap(r, ch) && ch !in r.cancelled {
      MappedInMap(r, ch);
      KeepsCancelFunction(r, a, s, ch);
    }
  }

  lemma MappedInMap(r: Reg, ch: nat)
    requires InMap(r, ch)
    ensures Mapped(r.watchers, r.slots[ch])
  {
  }

  lemma KeepsCancelFunction(r: Reg, a: Action, s: Slot, ch: nat)
    requires Enabled(r, a) && Step(r, a).Some? && Cancellable(r, s, ch) && NobodyForgets(r, s)
    requires Mapped(r.watchers, s) && forall t :: LeaseKey(t) == LeaseKey(s) ==> t == s
    ensures var q := Step(r, a).value; ch !in q.cancelled ==> Cancellable(q, s, ch) && NobodyForgets(q, s)
  {
    hide LeaseKey, Mapped, Step, Cancellable, NobodyForgets;
    if a == Cancel(s) {
      CancelReaches(r, s, ch);
    } else {
      NobodyStartsForgetting(r, a, s);
      if Displaces(a, s) {
        NobodyDisplaces(r, a, s);
      } else {
        CancelFunctionStep(r, a, s, ch);
      }
    }
  }

  lemma CancelReaches(r: Reg, s: Slot, ch: nat)
    requires Cancellable(r, s, ch)
    ensures ch in Step(r, Cancel(s)).value.cancelled
  {
    hide LeaseKey;
  }

  lemma NobodyStartsForgetting(r: Reg, a: Action, s: Slot)
    requires Enabled(r, a) && Step(r, a).Some? && NobodyForgets(r, s) && a != Cancel(s)
    requires forall t :: LeaseKey(t) == LeaseKey(s) ==> t == s
    ensures NobodyForgets(Step(r, a).value, s)
  {
    hide With, Without, Channels, ChannelAt, Mapped, LeaseKey;
  }

  lemma NobodyDisplaces(r: Reg, a: Action, s: Slot)
    requires Enabled(r, a) && NobodyForgets(r, s) && Displaces(a, s) && Mapped(r.watchers, s)
    requires forall t :: LeaseKey(t) == LeaseKey(s) ==> t == s
    ensures Step(r, a) == Some(r)
  {
    hide With, Without, Channels, ChannelAt, Mapped, LeaseKey;
  }

  lemma {:induction false} SecureRun(r: Reg, acts: seq<Action>, s: Slot, ch: nat)
    requires Inv(r) && AllEnabled(r, acts) && Secure(r, s, ch)
    requires forall t :: LeaseKey(t) == LeaseKey(s) ==> t == s
    ensures Run(r, acts).Some? && Inv(Run(r, acts).value) && Secure(Run(r, acts).value, s, ch)
  {
    hide Step, Inv, Secure, LeaseKey;
    if acts == [] {
    } else {
      SecureRun(r, acts[..|acts| - 1], s, ch);
      var p := Run(r, acts[..|acts| - 1]).value;
      SecureStep(p, acts[|acts| - 1], s, ch);
      StepKeepsInv(p, acts[|acts| - 1]);
    }
  }

  /** What a run from `r` leads to, with `ch` still subscribed and not cancelled. */
  ghost predicate Reaches(r: Reg, acts: seq<Action>, q: Reg, ch: nat) {
    AllEnabled(r, acts) && Run(r, acts) == Some(q) && Inv(q) && InMap(q, ch) && ch !in q.cancelled
  }

  lemma ReachesOn(r: Reg, acts: seq<Action>, q: Reg, ch: nat, a: Action) returns (more: seq<Action>, p: Reg)
    requires Reaches(r, acts, q, ch) && Enabled(q, a) && Step(q, a).Some?
    requires InMap(Step(q, a).value, ch) && ch !in Step(q, a).value.cancelled
    ensures p == Step(q, a).value && more == acts + [a] && Reaches(r, more, p, ch)
  {
    hide Step, Inv, InMap, Run, AllEnabled;
    StepKeepsInv(q, a);
    p := Step(q, a).value;
    more := RunSnoc(r, acts, q, a);
  }

  /** The watch of another slot can end at any moment, which frees that slot. */
  lemma OtherSlotEmpties(r: Reg, q0: Reg, acts0: seq<Action>, ch: nat, t: Slot) returns (acts: seq<Action>, q: Reg)
    requires Reaches(r, acts0, q0, ch) && t != q0.slots[ch]
    ensures Reaches(r, acts, q, ch) && !Mapped(q.watchers, t) && q.slots == q0.slots
  {
    hide With, Without, Channels, AllEnabled, Run, LeaseKey;
    acts, q := acts0, q0;
    if Mapped(q.watchers, t) {
      var x := ChannelAt(q.watchers, t);
      assert x in q.routines && q.slots[x] == t;
      if q.routines[x] == Armed {
        acts, q := ReachesOn(r, acts, q, ch, Send(x));
      }
      if q.routines[x] == Watching {
        acts, q := ReachesOn(r, acts, q, ch, Stop(x));
      }
      WithoutFollows(q, Step(q, Exit(x)).value, t, ch);
      MappedWithout(q.watchers, t, t);
      acts, q := ReachesOn(r, acts, q, ch, Exit(x));
    }
  }

  /** The state after a successful subscription to a free slot. */
  function Subscribed(r: Reg, s: Slot): Reg
    requires !Mapped(r.watchers, s)
  {
    Step(r, Subscribe(s, true)).value
  }

  lemma NewSubscription(r: Reg, s: Slot)
    requires Inv(r) && !Mapped(r.watchers, s)
    ensures var q, ch := Subscribed(r, s), |r.slots|;
            Reaches(q, [], q, ch) && q.slots == r.slots + [s] && Cancellable(q, s, ch) && q.callers == r.callers
  {
    SubscribeKeepsInv(r, s);
    MappedWith(r.watchers, s, |r.slots|, s);
  }

  lemma LateDeletionLoses(q: Reg, s: Slot, ch: nat, u: Slot) returns (acts: seq<Action>, p: Reg)
    requires Reaches(q, [], q, ch) && q.slots[ch] == s
    requires Caller(u, Forgetting) in q.callers && LeaseKey(u) == LeaseKey(s)
    ensures Reaches(q, acts, p, ch) && BeyondReach(p, ch)
  {
    hide LeaseKey, Mapped, ChannelAt, Run, AllEnabled, Inv;
    acts, p := ReachesOn(q, [], q, ch, Forget(u));
    BeyondReachIff(p, ch);
  }

  lemma SharedKeyLoses(q: Reg, s: Slot, ch: nat, t: Slot) returns (acts: seq<Action>, p: Reg)
    requires Reaches(q, [], q, ch) && q.slots[ch] == s
    requires t != s && LeaseKey(t) == LeaseKey(s)
    ensures Reaches(q, acts, p, ch) && BeyondReach(p, ch)
  {
    hide LeaseKey, Mapped, ChannelAt, Run, AllEnabled, Inv;
    acts, p := OtherSlotEmpties(q, q, [], ch, t);
    SubscribeFollows(p, t, true, ch);
    acts, p := ReachesOn(q, acts, p, ch, Subscribe(t, true));
    BeyondReachIff(p, ch);
  }

  /** A new subscription can end up beyond the reach of Unsubscribe and Close exactly when an Unsubscribe
      call that began before it has yet to delete what is stored under its key, or when its service or
      version contains a slash, so that another slot shares the key. */
  lemma BeyondReachPossibleIff(r: Reg, s: Slot)
    requires Inv(r) && !Mapped(r.watchers, s)
    ensures var q, ch := Subscribed(r, s), |r.slots|;
            (exists acts, p :: Reaches(q, acts, p, ch) && BeyondReach(p, ch)) <==>
            !NobodyForgets(r, s) || !(Naming.SlashFree(s.service) && Naming.SlashFree(s.version))
  {
    hide LeaseKey, Naming.SlashFree, Subscribed, Inv, BeyondReach, Cancellable;
    var q, ch := Subscribed(r, s), |r.slots|;
    NewSubscription(r, s);
    LeaseKeyIsShared(s);
    if !NobodyForgets(r, s) {
      var u :| LeaseKey(u) == LeaseKey(s) && Caller(u, Forgetting) in r.callers;
      var acts, p := LateDeletionLoses(q, s, ch, u);
    } else if t: Slot :| t != s && LeaseKey(t) == LeaseKey(s) {
      var acts, p := SharedKeyLoses(q, s, ch, t);
    } else {
      forall acts, p | Reaches(q, acts, p, ch) ensures !BeyondReach(p, ch) {
        SecureRun(q, acts, s, ch);
        BeyondReachIff(p, ch);
      }
    }
  }

  // When an Unsubscribe call closes a later subscription.

  /** No further Unsubscribe call for `s` begins. */
  ghost predicate NoneBegins(acts: seq<Action>, s: Slot) {
    forall k :: 0 <= k < |acts| ==> acts[k] != Cancel(s)
  }

  ghost predicate NobodyUnsubscribes(r: Reg, s: Slot) {
    forall stage :: Caller(s, stage) !in r.callers
  }

  /** An Unsubscribe call for the slot of `ch` is about to close it. */
  predicate AboutToClose(r: Reg, ch: nat) {
    InMap(r, ch) && Enabled(r, Cleanup(r.slots[ch])) &&
    Step(r, Cleanup(r.slots[ch])).Some? && ch in Step(r, Cleanup(r.slots[ch])).value.closed
  }

  lemma {:induction false} NobodyComes(r: Reg, acts: seq<Action>, s: Slot)
    requires Inv(r) && AllEnabled(r, acts) && NoneBegins(acts, s) && NobodyUnsubscribes(r, s)
    ensures Run(r, acts).Some? && Inv(Run(r, acts).value) && NobodyUnsubscribes(Run(r, acts).value, s)
  {
    hide Inv, Step, NobodyUnsubscribes;
    if acts == [] {
    } else {
      NobodyComes(r, acts[..|acts| - 1], s);
      var p := Run(r, acts[..|acts| - 1]).value;
      StepKeepsInv(p, acts[|acts| - 1]);
      NobodyBegins(p, acts[|acts| - 1], s);
    }
  }

  lemma NobodyBegins(r: Reg, a: Action, s: Slot)
    requires Enabled(r, a) && Step(r, a).Some? && a != Cancel(s) && NobodyUnsubscribes(r, s)
    ensures NobodyUnsubscribes(Step(r, a).value, s)
  {
    hide With, Without, Channels, ChannelAt, Mapped, LeaseKey;
  }

  lemma CallerGoesOn(q: Reg, s: Slot, ch: nat, stage: Stage) returns (acts: seq<Action>, p: Reg)
    requires Reaches(q, [], q, ch) && q.slots[ch] == s && Caller(s, stage) in q.callers
    ensures Reaches(q, acts, p, ch) && p.slots == q.slots && Caller(s, Sleeping) in p.callers && NoneBegins(acts, s)
  {
    hide LeaseKey, Run, AllEnabled, Inv, With, Without, Channels;
    acts, p := [], q;
    if stage == Forgetting {
      acts, p := ReachesOn(q, acts, p, ch, Forget(s));
    }
    if stage != Sleeping {
      acts, p := ReachesOn(q, acts, p, ch, Look(s));
    }
  }

  /** A new subscription can be closed by an Unsubscribe call that began before it exactly when such a call
      for its slot, wherever it stands, is under way. */
  lemma OldCallClosesIff(r: Reg, s: Slot)
    requires Inv(r) && !Mapped(r.watchers, s)
    ensures var q, ch := Subscribed(r, s), |r.slots|;
            (exists acts, p :: AllEnabled(q, acts) && NoneBegins(acts, s) && Run(q, acts) == Some(p)
                               && AboutToClose(p, ch)) <==> !NobodyUnsubscribes(r, s)
  {
    hide Subscribed, Inv, InMap, AboutToClose, Run, AllEnabled, NoneBegins;
    var q, ch := Subscribed(r, s), |r.slots|;
    NewSubscription(r, s);
    if !NobodyUnsubscribes(r, s) {
      var stage :| Caller(s, stage) in r.callers;
      var acts, p := CallerGoesOn(q, s, ch, stage);
      SleeperCloses(p, ch);
    } else {
      forall acts, p | AllEnabled(q, acts) && NoneBegins(acts, s) && Run(q, acts) == Some(p)
        ensures !AboutToClose(p, ch)
      {
        NobodyComes(q, acts, s);
        ChannelsFollow(q, acts, ch);
        SleeperCloses(p, ch);
      }
    }
  }

  lemma SleeperCloses(p: Reg, ch: nat)
    requires Inv(p) && ch < |p.slots|
    ensures AboutToClose(p, ch) <==> InMap(p, ch) && Caller(p.slots[ch], Sleeping) in p.callers
  {
    hide Without;
  }
}
