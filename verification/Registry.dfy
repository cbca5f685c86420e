/** Subscription channels of registry/etcd/registry.go, as a step system: each action is what one
    goroutine does while it holds the registry's lock, or between two waits. */
module Registry {
  import opened Types

  /** Where a watching goroutine stands: waiting for an event, having found its slot occupied and about
      to send, or on its way out. */
  datatype Phase = Watching | Armed | Leaving

  datatype Slot = Slot(service: string, version: string)

  /** Where an Unsubscribe call stands: about to delete the cancel function it has called, about to look
      whether the slot is still occupied, or asleep before it cleans the slot up. */
  datatype Stage = Forgetting | Looking | Sleeping

  datatype Caller = Caller(slot: Slot, stage: Stage)

  /** Channels are numbered in order of creation; `slots[ch]` is the slot channel `ch` was made for, and
      `routines[ch]` its goroutine while that runs. `leases` holds the cancel functions, and `callers`
      the Unsubscribe calls under way. */
  datatype Reg = Reg(watchers: map<string, map<string, nat>>, closed: set<nat>, slots: seq<Slot>,
                     routines: map<nat, Phase>, cancelled: set<nat>, leases: map<string, nat>,
                     callers: multiset<Caller>)

  const EMPTY := Reg(map[], {}, [], map[], {}, map[], multiset{})

  datatype Action =
    | Subscribe(slot: Slot, listed: bool)  // `listed`: ListServices succeeds
    | Event(ch: nat)                       // an event arrives and the slot is looked up
    | Send(ch: nat)                        // the send that follows
    | Stop(ch: nat)                        // the watch ends
    | Exit(ch: nat)                        // the deferred cleanup
    | Cancel(slot: Slot)                   // Unsubscribe calls the cancel function, if there is one,
    | Forget(slot: Slot)                   // deletes it,
    | Look(slot: Slot)                     // returns if the slot is free, else goes to sleep
    | Cleanup(slot: Slot)                  // and then frees the slot
    | Close

  function LeaseKey(s: Slot): string {
    s.service + "/" + s.version
  }

  predicate Mapped(w: map<string, map<string, nat>>, s: Slot) {
    s.service in w && s.version in w[s.service]
  }

  function ChannelAt(w: map<string, map<string, nat>>, s: Slot): nat
    requires Mapped(w, s)
  {
    w[s.service][s.version]
  }

  /** Deleting a slot deletes the service with its last version. */
  function Without(w: map<string, map<string, nat>>, s: Slot): map<string, map<string, nat>>
    requires Mapped(w, s)
  {
    var inner := w[s.service] - {s.version};
    if inner == map[] then w - {s.service} else w[s.service := inner]
  }

  function With(w: map<string, map<string, nat>>, s: Slot, ch: nat): map<string, map<string, nat>> {
    var inner := if s.service in w then w[s.service] else map[];
    w[s.service := inner[s.version := ch]]
  }

  function Channels(w: map<string, map<string, nat>>): set<nat> {
    set s, v | s in w && v in w[s] :: w[s][v]
  }

  predicate Enabled(r: Reg, a: Action) {
    match a
    case Event(ch) => ch in r.routines && r.routines[ch] == Watching && ch < |r.slots|
    case Send(ch) => ch in r.routines && r.routines[ch] == Armed
    case Stop(ch) => ch in r.routines && r.routines[ch] == Watching
    case Exit(ch) => ch in r.routines && r.routines[ch] == Leaving && ch < |r.slots|
    case Forget(slot) => Caller(slot, Forgetting) in r.callers
    case Look(slot) => Caller(slot, Looking) in r.callers
    case Cleanup(slot) => Caller(slot, Sleeping) in r.callers
    case _ => true
  }

  function Moved(callers: multiset<Caller>, slot: Slot, from: Stage, to: Stage): multiset<Caller> {
    callers - multiset{Caller(slot, from)} + multiset{Caller(slot, to)}
  }

  /** Closing a channel; closing it twice would panic. */
  function CloseChannel(r: Reg, ch: nat): Option<Reg> {
    if ch in r.closed then None else Some(r.(closed := r.closed + {ch}))
  }

  function Step(r: Reg, a: Action): Option<Reg>
    requires Enabled(r, a)
  {
    match a
    case Subscribe(slot, listed) =>
      if Mapped(r.watchers, slot) then Some(r)
      else
        var ch := |r.slots|;
        var made := r.(slots := r.slots + [slot]);
        if !listed then
          Some(made.(watchers := Without(With(r.watchers, slot, ch), slot)))
        else
          Some(made.(watchers := With(r.watchers, slot, ch), routines := r.routines[ch := Watching],
                     leases := r.leases[LeaseKey(slot) := ch]))
    case Event(ch) =>
      Some(r.(routines := r.routines[ch := if Mapped(r.watchers, r.slots[ch]) then Armed else Leaving]))
    case Send(ch) =>
      // a send on a closed channel panics and is recovered by the deferred cleanup
      Some(r.(routines := r.routines[ch := if ch in r.closed then Leaving else Watching]))
    case Stop(ch) => Some(r.(routines := r.routines[ch := Leaving]))
    case Exit(ch) =>
      var slot := r.slots[ch];
      var gone := r.(routines := r.routines - {ch}, cancelled := r.cancelled + {ch});
      if Mapped(r.watchers, slot) && ChannelAt(r.watchers, slot) == ch then
        CloseChannel(gone.(watchers := Without(r.watchers, slot)), ch)
      else Some(gone)
    case Cancel(slot) =>
      var key := LeaseKey(slot);
      if key in r.leases then
        Some(r.(cancelled := r.cancelled + {r.leases[key]}, callers := r.callers + multiset{Caller(slot, Forgetting)}))
      else Some(r.(callers := r.callers + multiset{Caller(slot, Looking)}))
    case Forget(slot) =>
      Some(r.(leases := r.leases - {LeaseKey(slot)}, callers := Moved(r.callers, slot, Forgetting, Looking)))
    case Look(slot) =>
      if Mapped(r.watchers, slot) then Some(r.(callers := Moved(r.callers, slot, Looking, Sleeping)))
      else Some(r.(callers := r.callers - multiset{Caller(slot, Looking)}))
    case Cleanup(slot) =>
      var q := r.(callers := r.callers - multiset{Caller(slot, Sleeping)});
      if Mapped(r.watchers, slot) then
        CloseChannel(q.(watchers := Without(r.watchers, slot)), ChannelAt(r.watchers, slot))
      else Some(q)
    case Close =>
      if Channels(r.watchers) * r.closed != {} then None
      else Some(r.(watchers := map[], closed := r.closed + Channels(r.watchers),
                   cancelled := r.cancelled + r.leases.Values))
  }

  /** The state after `acts`; `None` if some action was not enabled or panicked. */
  function Run(r: Reg, acts: seq<Action>): Option<Reg> {
    if acts == [] then Some(r)
    else
      var p := Run(r, acts[..|acts| - 1]);
      if p.Some? && Enabled(p.value, acts[|acts| - 1]) then Step(p.value, acts[|acts| - 1]) else None
  }

  /** Every mapped channel is open, was made for its slot and still has its goroutine; no service is
      left without versions; every lease belongs to a channel of its key; only channels that were made are
      cancelled. */
  ghost predicate Inv(r: Reg) {
    && (forall s :: Mapped(r.watchers, s) ==>
          var ch := ChannelAt(r.watchers, s);
          ch < |r.slots| && r.slots[ch] == s && ch !in r.closed && ch in r.routines)
    && (forall s :: s in r.watchers ==> r.watchers[s] != map[])
    && (forall ch :: ch in r.closed ==> ch < |r.slots|)
    && (forall ch :: ch in r.routines ==> ch < |r.slots|)
    && (forall k :: k in r.leases ==> r.leases[k] < |r.slots| && LeaseKey(r.slots[r.leases[k]]) == k)
    && (forall ch :: ch in r.cancelled ==> ch < |r.slots|)
  }

  lemma MappedWithout(w: map<string, map<string, nat>>, s: Slot, t: Slot)
    requires Mapped(w, s)
    ensures Mapped(Without(w, s), t) <==> Mapped(w, t) && t != s
    ensures Mapped(Without(w, s), t) ==> ChannelAt(Without(w, s), t) == ChannelAt(w, t)
  {
    var inner := w[s.service] - {s.version};
    assert inner == map[] ==> forall v :: v in w[s.service] ==> v !in inner;
  }

  lemma WithoutKeepsInv(r: Reg, s: Slot)
    requires Inv(r) && Mapped(r.watchers, s)
    ensures var ch := ChannelAt(r.watchers, s);
            && ch !in r.closed
            && Inv(r.(watchers := Without(r.watchers, s), closed := r.closed + {ch}))
  {
    var w := Without(r.watchers, s);
    var ch := ChannelAt(r.watchers, s);
    forall t | Mapped(w, t)
      ensures var c := ChannelAt(w, t); c < |r.slots| && r.slots[c] == t && c !in r.closed + {ch} && c in r.routines
    {
      MappedWithout(r.watchers, s, t);
    }
  }

  lemma MappedWith(w: map<string, map<string, nat>>, s: Slot, ch: nat, t: Slot)
    ensures Mapped(With(w, s, ch), t) <==> Mapped(w, t) || t == s
    ensures Mapped(With(w, s, ch), t) ==> ChannelAt(With(w, s, ch), t) == if t == s then ch else ChannelAt(w, t)
  {
  }

  /** A subscription that fails to list leaves the map as it was. */
  lemma FailedSubscribeRestores(w: map<string, map<string, nat>>, s: Slot, ch: nat)
    requires !Mapped(w, s) && forall t :: t in w ==> w[t] != map[]
    ensures Without(With(w, s, ch), s) == w
  {
    var x := With(w, s, ch);
    if s.service in w {
      assert x[s.service] - {s.version} == w[s.service] != map[];
      assert x[s.service := w[s.service]] == w;
      assert Without(x, s) == x[s.service := w[s.service]];
    } else {
      assert x[s.service] - {s.version} == map[];
      assert x - {s.service} == w;
      assert Without(x, s) == x - {s.service};
    }
  }

  lemma SubscribeKeepsInv(r: Reg, s: Slot)
    requires Inv(r) && !Mapped(r.watchers, s)
    ensures Inv(Step(r, Subscribe(s, true)).value)
  {
    var ch := |r.slots|;
    var q := Step(r, Subscribe(s, true)).value;
    forall t | Mapped(q.watchers, t)
      ensures var c := ChannelAt(q.watchers, t); c < |q.slots| && q.slots[c] == t && c !in q.closed && c in q.routines
    {
      MappedWith(r.watchers, s, ch, t);
    }
    assert s.version in q.watchers[s.service];
  }

  lemma StepKeepsInv(r: Reg, a: Action)
    requires Inv(r) && Enabled(r, a)
    ensures Step(r, a).Some? && Inv(Step(r, a).value)
  {
    hide Step, Inv, Enabled;
    match a {
      case Subscribe(s, listed) => SubscribeStepKeepsInv(r, s, listed);
      case Exit(ch) => ExitKeepsInv(r, ch);
      case Cleanup(s) => CleanupKeepsInv(r, s);
      case Close => CloseKeepsInv(r);
      case _ => LightStepKeepsInv(r, a);
    }
  }

  /** The steps that leave the map and the channels alone. */
  lemma LightStepKeepsInv(r: Reg, a: Action)
    requires Inv(r) && Enabled(r, a) && !a.Subscribe? && !a.Exit? && !a.Cleanup? && !a.Close?
    ensures Step(r, a).Some? && Inv(Step(r, a).value)
  {
    hide With, Without, Channels, LeaseKey;
  }

  lemma SubscribeStepKeepsInv(r: Reg, s: Slot, listed: bool)
    requires Inv(r)
    ensures Step(r, Subscribe(s, listed)).Some? && Inv(Step(r, Subscribe(s, listed)).value)
  {
    if !Mapped(r.watchers, s) {
      if listed {
        SubscribeKeepsInv(r, s);
      } else {
        FailedSubscribeRestores(r.watchers, s, |r.slots|);
      }
    }
  }

  lemma CleanupKeepsInv(r: Reg, s: Slot)
    requires Inv(r) && Enabled(r, Cleanup(s))
    ensures Step(r, Cleanup(s)).Some? && Inv(Step(r, Cleanup(s)).value)
  {
    hide With, Without, Channels, LeaseKey;
    if Mapped(r.watchers, s) {
      WithoutKeepsInv(r, s);
    }
  }

  lemma ExitKeepsInv(r: Reg, ch: nat)
    requires Inv(r) && Enabled(r, Exit(ch))
    ensures Step(r, Exit(ch)).Some? && Inv(Step(r, Exit(ch)).value)
  {
    var s := r.slots[ch];
    if Mapped(r.watchers, s) && ChannelAt(r.watchers, s) == ch {
      WithoutKeepsInv(r, s);
      var w := Without(r.watchers, s);
      forall t | Mapped(w, t) ensures ChannelAt(w, t) != ch {
        MappedWithout(r.watchers, s, t);
      }
    }
  }

  lemma CloseKeepsInv(r: Reg)
    requires Inv(r)
    ensures Step(r, Close).Some? && Inv(Step(r, Close).value)
  {
    forall ch | ch in Channels(r.watchers) ensures ch !in r.closed && ch < |r.slots| {
      var s, v :| s in r.watchers && v in r.watchers[s] && r.watchers[s][v] == ch;
      assert Mapped(r.watchers, Slot(s, v));
    }
  }

  predicate AllEnabled(r: Reg, acts: seq<Action>) {
    acts == [] ||
    (AllEnabled(r, acts[..|acts| - 1]) &&
     var p := Run(r, acts[..|acts| - 1]);
     p.Some? ==> Enabled(p.value, acts[|acts| - 1]))
  }

  /** Over every interleaving no channel is closed twice and the invariant holds: every channel in the
      map is open, sits in the one slot it was made for and has a running goroutine, and no inner map
      is empty. */
  lemma {:induction false} EveryInterleavingIsSafe(acts: seq<Action>)
    requires AllEnabled(EMPTY, acts)
    ensures Run(EMPTY, acts).Some? && Inv(Run(EMPTY, acts).value)
  {
    hide Step, Inv;
    if acts == [] {
      EmptyIsSafe();
    } else {
      EveryInterleavingIsSafe(acts[..|acts| - 1]);
      StepKeepsInv(Run(EMPTY, acts[..|acts| - 1]).value, acts[|acts| - 1]);
    }
  }

  lemma EmptyIsSafe()
    ensures Inv(EMPTY)
  {
  }

  // Channels over runs.

  /** Channel `ch` is the one in the map for its slot. */
  predicate InMap(r: Reg, ch: nat) {
    ch < |r.slots| && Mapped(r.watchers, r.slots[ch]) && ChannelAt(r.watchers, r.slots[ch]) == ch
  }

  /** A channel in the map stays there or is closed; one that is not in the map never comes back. */
  predicate Follows(r: Reg, q: Reg, ch: nat) {
    && ch < |r.slots| <= |q.slots| && q.slots[ch] == r.slots[ch]
    && (InMap(q, ch) ==> InMap(r, ch))
    && (InMap(r, ch) ==> InMap(q, ch) || ch in q.closed)
    && (ch in r.closed ==> ch in q.closed)
    && (ch in r.cancelled ==> ch in q.cancelled)
  }

  lemma WithoutFollows(r: Reg, q: Reg, t: Slot, ch: nat)
    requires Inv(r) && Mapped(r.watchers, t) && ch < |r.slots| && q.slots == r.slots
    requires q.watchers == Without(r.watchers, t)
    ensures InMap(q, ch) <==> InMap(r, ch) && ch != ChannelAt(r.watchers, t)
  {
    MappedWithout(r.watchers, t, r.slots[ch]);
  }

  lemma SubscribeFollows(r: Reg, t: Slot, listed: bool, ch: nat)
    requires Inv(r) && ch < |r.slots|
    ensures Follows(r, Step(r, Subscribe(t, listed)).value, ch)
    ensures InMap(r, ch) ==> InMap(Step(r, Subscribe(t, listed)).value, ch)
  {
    if !Mapped(r.watchers, t) {
      FailedSubscribeRestores(r.watchers, t, |r.slots|);
      MappedWith(r.watchers, t, |r.slots|, r.slots[ch]);
    }
  }

  lemma CloseFollows(r: Reg, ch: nat)
    requires Inv(r) && ch < |r.slots|
    ensures Step(r, Close).Some? && Follows(r, Step(r, Close).value, ch)
  {
    CloseKeepsInv(r);
    if InMap(r, ch) {
      assert r.slots[ch].service in r.watchers && r.slots[ch].version in r.watchers[r.slots[ch].service];
    }
  }

  lemma StepFollows(r: Reg, a: Action, ch: nat)
    requires Inv(r) && Enabled(r, a) && ch < |r.slots|
    ensures Step(r, a).Some? && Follows(r, Step(r, a).value, ch)
  {
    StepKeepsInv(r, a);
    var q := Step(r, a).value;
    match a {
      case Subscribe(t, listed) =>
        SubscribeFollows(r, t, listed, ch);
      case Exit(x) =>
        if Mapped(r.watchers, r.slots[x]) && ChannelAt(r.watchers, r.slots[x]) == x {
          WithoutFollows(r, q, r.slots[x], ch);
        }
      case Cleanup(t) =>
        if Mapped(r.watchers, t) {
          WithoutFollows(r, q, t, ch);
        }
      case Close =>
        CloseFollows(r, ch);
      case _ =>
    }
  }

  /** Over any run a channel in the map stays there or is closed, and one that has left never returns. */
  lemma {:induction false} ChannelsFollow(r: Reg, acts: seq<Action>, ch: nat)
    requires Inv(r) && AllEnabled(r, acts) && ch < |r.slots|
    ensures Run(r, acts).Some? && Inv(Run(r, acts).value) && Follows(r, Run(r, acts).value, ch)
  {
    hide Step, Inv, InMap;
    if acts == [] {
    } else {
      ChannelsFollow(r, acts[..|acts| - 1], ch);
      var p := Run(r, acts[..|acts| - 1]).value;
      StepFollows(p, acts[|acts| - 1], ch);
      StepKeepsInv(p, acts[|acts| - 1]);
    }
  }

  /** A closed channel stays closed and never returns to the map. */
  lemma ClosedForGood(r: Reg, acts: seq<Action>, ch: nat)
    requires Inv(r) && ch in r.closed && AllEnabled(r, acts)
    ensures Run(r, acts).Some? && Inv(Run(r, acts).value) && ch in Run(r, acts).value.closed
    ensures ch !in Channels(Run(r, acts).value.watchers)
  {
    ChannelsFollow(r, acts, ch);
    ClosedIsUnmapped(Run(r, acts).value, ch);
  }

  /** In every run a channel sits in at most one slot. */
  lemma OneSlotPerChannel(acts: seq<Action>, s: Slot, t: Slot)
    requires AllEnabled(EMPTY, acts)
    ensures Run(EMPTY, acts).Some?
    ensures var w := Run(EMPTY, acts).value.watchers;
            Mapped(w, s) && Mapped(w, t) && ChannelAt(w, s) == ChannelAt(w, t) ==> s == t
  {
    EveryInterleavingIsSafe(acts);
  }

  /** Once its channel has left the map, a goroutine that sends or exits, however late, changes neither
      the map nor the set of closed channels. */
  lemma LateGoroutineIsHarmless(r: Reg, acts: seq<Action>, ch: nat)
    requires Inv(r) && ch < |r.slots| && !InMap(r, ch) && AllEnabled(r, acts)
    ensures Run(r, acts).Some?
    ensures var p := Run(r, acts).value;
            forall a :: (a == Exit(ch) || a == Send(ch)) && Enabled(p, a) ==>
              var q := Step(p, a); q.Some? && q.value.watchers == p.watchers && q.value.closed == p.closed
  {
    ChannelsFollow(r, acts, ch);
  }

  lemma ClosedIsUnmapped(r: Reg, ch: nat)
    requires Inv(r) && ch in r.closed
    ensures ch !in Channels(r.watchers)
  {
    forall s, v | s in r.watchers && v in r.watchers[s] ensures r.watchers[s][v] != ch {
      assert Mapped(r.watchers, Slot(s, v));
    }
  }

  lemma DropVersion(w: map<string, map<string, nat>>, s: Slot)
    requires Mapped(w, s)
    ensures var x := w[s.service := w[s.service] - {s.version}];
            && (forall t :: Mapped(x, t) <==> Mapped(w, t) && t != s)
            && (forall t :: Mapped(x, t) ==> ChannelAt(x, t) == ChannelAt(w, t))
            && Channels(w) == Channels(x) + {ChannelAt(w, s)}
  {
    var x := w[s.service := w[s.service] - {s.version}];
    forall ch ensures ch in Channels(w) <==> ch in Channels(x) + {ChannelAt(w, s)} {
      if ch in Channels(w) {
        var u, v :| u in w && v in w[u] && w[u][v] == ch;
        assert Slot(u, v) != s ==> u in x && v in x[u] && x[u][v] == ch;
      }
    }
  }

  class EtcdRegistry {
    var watchers: map<string, map<string, nat>>
    var closed: set<nat>
    var slots: seq<Slot>
    var routines: map<nat, Phase>
    var cancelled: set<nat>
    var leases: map<string, nat>
    ghost var callers: multiset<Caller>

    ghost function Model(): Reg
      reads this
    {
      Reg(watchers, closed, slots, routines, cancelled, leases, callers)
    }

    constructor ()
      ensures Model() == EMPTY && Inv(Model())
    {
      watchers, closed, slots, routines, cancelled, leases := map[], {}, [], map[], {}, map[];
      callers := multiset{};
    }

    /** Go's `close`, which panics on a closed channel. */
    method CloseChan(ch: nat)
      requires ch !in closed
      modifies this`closed
      ensures closed == old(closed) + {ch}
    {
      closed := closed + {ch};
    }

    /** Deleting a version, and the service with its last one. */
    method DeleteSlot(s: Slot)
      requires Mapped(watchers, s)
      modifies this`watchers
      ensures watchers == Without(old(watchers), s)
    {
      var inner := watchers[s.service] - {s.version};
      watchers := watchers[s.service := inner];
      if inner == map[] {
        watchers := watchers - {s.service};
        assert watchers == old(watchers) - {s.service};
      }
    }

    method SubscribeTo(s: Slot, listed: bool) returns (ch: Option<nat>)
      requires Inv(Model())
      modifies this
      ensures Step(old(Model()), Subscribe(s, listed)) == Some(Model()) && Inv(Model())
      ensures ch.Some? <==> old(Mapped(watchers, s)) || listed
      ensures ch.Some? ==> Mapped(watchers, s) && ch.value == ChannelAt(watchers, s)
    {
      StepKeepsInv(Model(), Subscribe(s, listed));
      if s.service in watchers && s.version in watchers[s.service] {
        return Some(watchers[s.service][s.version]);
      }
      MappedWith(watchers, s, |slots|, s);
      var made := |slots|;
      slots := slots + [s];
      watchers := With(watchers, s, made);
      if !listed {
        DeleteSlot(s);
        return None;
      }
      leases := leases[LeaseKey(s) := made];
      routines := routines[made := Watching];
      ch := Some(made);
    }

    method OnEvent(ch: nat)
      requires Inv(Model()) && Enabled(Model(), Event(ch))
      modifies this
      ensures Step(old(Model()), Event(ch)) == Some(Model()) && Inv(Model())
    {
      StepKeepsInv(Model(), Event(ch));
      var s := slots[ch];
      var occupied := s.service in watchers && s.version in watchers[s.service];
      routines := routines[ch := if occupied then Armed else Leaving];
    }

    method SendUpdate(ch: nat)
      requires Inv(Model()) && Enabled(Model(), Send(ch))
      modifies this
      ensures Step(old(Model()), Send(ch)) == Some(Model()) && Inv(Model())
    {
      StepKeepsInv(Model(), Send(ch));
      routines := routines[ch := if ch in closed then Leaving else Watching];
    }

    method OnExit(ch: nat)
      requires Inv(Model()) && Enabled(Model(), Exit(ch))
      modifies this
      ensures Step(old(Model()), Exit(ch)) == Some(Model()) && Inv(Model())
    {
      StepKeepsInv(Model(), Exit(ch));
      cancelled := cancelled + {ch};
      routines := routines - {ch};
      var s := slots[ch];
      if s.service in watchers && s.version in watchers[s.service] && watchers[s.service][s.version] == ch {
        assert Mapped(old(watchers), s);
        DeleteSlot(s);
        CloseChan(ch);
      }
    }

    // Unsubscribe, in four parts; `callers` records which calls stand between two of them.

    method CancelWatch(s: Slot)
      requires Inv(Model())
      modifies this
      ensures Step(old(Model()), Cancel(s)) == Some(Model()) && Inv(Model())
    {
      StepKeepsInv(Model(), Cancel(s));
      var key := LeaseKey(s);
      if key in leases {
        cancelled := cancelled + {leases[key]};
        callers := callers + multiset{Caller(s, Forgetting)};
      } else {
        callers := callers + multiset{Caller(s, Looking)};
      }
    }

    method ForgetWatch(s: Slot)
      requires Inv(Model()) && Enabled(Model(), Forget(s))
      modifies this
      ensures Step(old(Model()), Forget(s)) == Some(Model()) && Inv(Model())
    {
      StepKeepsInv(Model(), Forget(s));
      leases := leases - {LeaseKey(s)};
      callers := Moved(callers, s, Forgetting, Looking);
    }

    method LookForSlot(s: Slot) returns (hasService: bool)
      requires Inv(Model()) && Enabled(Model(), Look(s))
      modifies this`callers
      ensures Step(old(Model()), Look(s)) == Some(Model()) && Inv(Model())
      ensures hasService <==> Mapped(watchers, s)
    {
      StepKeepsInv(Model(), Look(s));
      hasService := false;
      if s.service in watchers {
        hasService := s.version in watchers[s.service];
      }
      if hasService {
        callers := Moved(callers, s, Looking, Sleeping);
      } else {
        callers := callers - multiset{Caller(s, Looking)};
      }
    }

    method CleanupSlot(s: Slot)
      requires Inv(Model()) && Enabled(Model(), Cleanup(s))
      modifies this
      ensures Step(old(Model()), Cleanup(s)) == Some(Model()) && Inv(Model())
    {
      StepKeepsInv(Model(), Cleanup(s));
      callers := callers - multiset{Caller(s, Sleeping)};
      if s.service in watchers && s.version in watchers[s.service] {
        var ch := watchers[s.service][s.version];
        assert Mapped(old(watchers), s);
        DeleteSlot(s);
        CloseChan(ch);
      }
    }

    /** The channels still mapped are open and each was made for its slot. */
    ghost predicate Closing(all: set<nat>)
      reads this
    {
      && closed + Channels(watchers) == all
      && forall s :: Mapped(watchers, s) ==>
           var ch := ChannelAt(watchers, s); ch < |slots| && slots[ch] == s && ch !in closed
    }

    /** The inner loop of Close: every version of one service. */
    method CloseService(service: string, ghost all: set<nat>)
      requires service in watchers && Closing(all)
      modifies this`watchers, this`closed
      ensures watchers.Keys == old(watchers).Keys - {service} && Closing(all)
    {
      while watchers[service] != map[]
        invariant service in watchers && watchers.Keys == old(watchers).Keys
        invariant Closing(all)
        decreases watchers[service].Keys
      {
        var version :| version in watchers[service];
        var s := Slot(service, version);
        assert Mapped(watchers, s);
        DropVersion(watchers, s);
        CloseChan(watchers[service][version]);
        watchers := watchers[service := watchers[service] - {version}];
      }
      EmptyService(watchers, service);
      watchers := watchers - {service};
    }

    method CloseAll()
      requires Inv(Model())
      modifies this
      ensures Step(old(Model()), Close) == Some(Model()) && Inv(Model())
    {
      hide Inv;
      StepKeepsInv(Model(), Close);
      ghost var all := closed + Channels(watchers);
      assert Closing(all) by { BeginsClosing(Model()); }
      cancelled := cancelled + leases.Values;
      while watchers != map[]
        modifies this`watchers, this`closed
        invariant Closing(all)
        decreases watchers.Keys
      {
        var service :| service in watchers;
        CloseService(service, all);
      }
      assert Channels(watchers) == {};
      assert closed == all;
    }
  }

  lemma BeginsClosing(r: Reg)
    requires Inv(r)
    ensures forall s :: Mapped(r.watchers, s) ==>
              var ch := ChannelAt(r.watchers, s); ch < |r.slots| && r.slots[ch] == s && ch !in r.closed
  {
  }

  lemma EmptyService(w: map<string, map<string, nat>>, service: string)
    requires service in w && w[service] == map[]
    ensures Channels(w - {service}) == Channels(w)
    ensures forall t :: Mapped(w - {service}, t) ==> Mapped(w, t) && ChannelAt(w - {service}, t) == ChannelAt(w, t)
  {
    var x := w - {service};
    forall ch ensures ch in Channels(w) <==> ch in Channels(x) {
      if ch in Channels(w) {
        var u, v :| u in w && v in w[u] && w[u][v] == ch;
        assert u in x && v in x[u] && x[u][v] == ch;
      }
    }
  }
}
