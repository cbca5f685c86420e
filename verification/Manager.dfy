/** InstanceManager of cluster/failover/failover.go: the list of instances, their statuses and the
    round-robin position. The source keeps that position in a map under one fixed key. */
module InstanceManagement {
  import opened Types

  datatype Manager = Manager(instances: seq<Instance>, statusMap: map<string, Status>, nextIndex: nat)

  predicate Usable(statusMap: map<string, Status>, id: string) {
    id !in statusMap || statusMap[id] == Healthy || statusMap[id] == Suspect
  }

  predicate UsableAt(m: Manager, p: nat)
    requires p < |m.instances|
  {
    Usable(m.statusMap, m.instances[p].id)
  }

  /** Statuses after a list update: kept for IDs of the new list, Healthy for new IDs, the rest forgotten. */
  function Relisted(statusMap: map<string, Status>, instances: seq<Instance>): map<string, Status> {
    map i | i in instances :: i.id := if i.id in statusMap then statusMap[i.id] else Healthy
  }

  predicate Lists(instances: seq<Instance>, id: string) {
    exists i :: i in instances && i.id == id
  }

  /** Statuses after a sequence of list updates. */
  function RelistedAll(statusMap: map<string, Status>, lists: seq<seq<Instance>>): map<string, Status> {
    if lists == [] then statusMap
    else Relisted(RelistedAll(statusMap, lists[..|lists| - 1]), lists[|lists| - 1])
  }

  /** Over any sequence of list updates a status lasts exactly as long as its ID stays listed: an ID that was
      missing from any list on the way is Healthy when it is listed again, whatever it was before. */
  lemma {:induction false} StatusLastsWhileListed(statusMap: map<string, Status>, lists: seq<seq<Instance>>, id: string)
    requires lists != []
    ensures var after := RelistedAll(statusMap, lists);
            && (id in after <==> Lists(lists[|lists| - 1], id))
            && (id in after ==>
                  after[id] == if id in statusMap && forall k :: 0 <= k < |lists| ==> Lists(lists[k], id)
                               then statusMap[id] else Healthy)
  {
    var front, last := lists[..|lists| - 1], lists[|lists| - 1];
    assert id in RelistedAll(statusMap, lists) <==> Lists(last, id);
    if front == [] {
    } else {
      StatusLastsWhileListed(statusMap, front, id);
      assert front[|front| - 1] == lists[|front| - 1];
      assert forall k :: 0 <= k < |front| ==> front[k] == lists[k];
    }
  }

  function UsableOnes(m: Manager, n: nat): seq<Instance>
    requires n <= |m.instances|
  {
    if n == 0 then []
    else
      var front := UsableOnes(m, n - 1);
      if UsableAt(m, n - 1) then front + [m.instances[n - 1]] else front
  }

  /** The list position `d` places after the round-robin position, cyclically. */
  function At(m: Manager, d: nat): (p: nat)
    requires m.instances != []
    ensures p < |m.instances|
  {
    (m.nextIndex + d) % |m.instances|
  }

  /** Offset of the first usable instance from offset `d` on, or the list length. */
  function FirstUsable(m: Manager, d: nat): (r: nat)
    requires m.instances != [] && d <= |m.instances|
    ensures d <= r <= |m.instances|
    ensures r < |m.instances| ==> UsableAt(m, At(m, r))
    ensures forall j :: d <= j < r ==> !UsableAt(m, At(m, j))
    decreases |m.instances| - d
  {
    if d == |m.instances| || UsableAt(m, At(m, d)) then d else FirstUsable(m, d + 1)
  }

  /** Position that nextInstance returns: the first usable one, else the present one. */
  function NextPosition(m: Manager): (p: nat)
    requires m.instances != []
    ensures p < |m.instances|
  {
    var d := FirstUsable(m, 0);
    if d < |m.instances| then At(m, d) else At(m, 0)
  }

  function Advanced(m: Manager): Manager
    requires m.instances != []
  {
    m.(nextIndex := (NextPosition(m) + 1) % |m.instances|)
  }

  datatype Selection = NothingUsable | Selected(manager: Manager, instance: Instance)

  /** GetInstance; `choice` stands for the random number. */
  function Select(m: Manager, strategy: string, choice: nat): Selection {
    var usable := UsableOnes(m, |m.instances|);
    if usable == [] then NothingUsable
    else if strategy == "random" then Selected(m, usable[choice % |usable|])
    else if strategy == "best" then Selected(m, usable[0])
    else Selected(Advanced(m), m.instances[NextPosition(m)])
  }

  lemma {:induction false} UsableOnesAreUsable(m: Manager, n: nat)
    requires n <= |m.instances|
    ensures forall i :: i in UsableOnes(m, n) <==> exists p :: 0 <= p < n && m.instances[p] == i && UsableAt(m, p)
  {
    if n == 0 {
    } else {
      UsableOnesAreUsable(m, n - 1);
    }
  }

  lemma {:induction false} FirstOfUsable(m: Manager, n: nat)
    requires n <= |m.instances|
    ensures var u := UsableOnes(m, n);
            u != [] ==> exists p :: 0 <= p < n && u[0] == m.instances[p] && forall q :: 0 <= q < p ==> !UsableAt(m, q)
    ensures UsableOnes(m, n) == [] ==> forall q :: 0 <= q < n ==> !UsableAt(m, q)
  {
    if n == 0 {
    } else {
      FirstOfUsable(m, n - 1);
    }
  }

  /** A selection fails exactly when no listed instance is usable, and what it returns is listed
      and usable: the fallback to an unusable instance is never taken. Strategy "best" takes the first
      usable instance of the list. */
  lemma SelectionIsUsable(m: Manager, strategy: string, choice: nat)
    ensures Select(m, strategy, choice).NothingUsable? <==> forall p :: 0 <= p < |m.instances| ==> !UsableAt(m, p)
    ensures var s := Select(m, strategy, choice);
            s.Selected? ==> s.instance in m.instances && Usable(m.statusMap, s.instance.id)
                            && s.manager.instances == m.instances && s.manager.statusMap == m.statusMap
    ensures var s := Select(m, strategy, choice);
            s.Selected? && strategy == "best" ==>
              exists p :: 0 <= p < |m.instances| && s.instance == m.instances[p]
                          && forall q :: 0 <= q < p ==> !UsableAt(m, q)
  {
    var usable := UsableOnes(m, |m.instances|);
    UsableOnesAreUsable(m, |m.instances|);
    FirstOfUsable(m, |m.instances|);
    if usable != [] {
      assert usable[0] in usable;
      assert usable[choice % |usable|] in usable;
      var p :| 0 <= p < |m.instances| && m.instances[p] == usable[0] && UsableAt(m, p);
      var d := OffsetOf(m, p);
    }
  }

  /** An instance is passed over exactly when its recorded status is Unhealthy or Isolated. */
  predicate OutOfUse(statusMap: map<string, Status>, id: string) {
    id in statusMap && statusMap[id] in {Unhealthy, Isolated}
  }

  /** What the strategies can return, in terms of the recorded statuses: nothing exactly when every listed
      instance is out of use; with "random", any listed instance that is not, and no other, for some random
      number. */
  lemma SelectableIff(m: Manager, strategy: string, i: Instance)
    ensures forall choice :: Select(m, strategy, choice).NothingUsable? <==>
                             forall j :: j in m.instances ==> OutOfUse(m.statusMap, j.id)
    ensures (exists choice :: Select(m, "random", choice) == Selected(m, i)) <==>
            i in m.instances && !OutOfUse(m.statusMap, i.id)
  {
    hide Select;
    forall choice
      ensures Select(m, strategy, choice).NothingUsable? <==>
              forall j :: j in m.instances ==> OutOfUse(m.statusMap, j.id)
    {
      SelectionIsUsable(m, strategy, choice);
      assert forall p :: 0 <= p < |m.instances| ==> (UsableAt(m, p) <==> !OutOfUse(m.statusMap, m.instances[p].id));
    }
    if i in m.instances && !OutOfUse(m.statusMap, i.id) {
      RandomReaches(m, i);
    }
    forall choice | Select(m, "random", choice) == Selected(m, i)
      ensures i in m.instances && !OutOfUse(m.statusMap, i.id)
    {
      SelectionIsUsable(m, "random", choice);
    }
  }

  lemma RandomReaches(m: Manager, i: Instance)
    requires i in m.instances && Usable(m.statusMap, i.id)
    ensures exists choice :: Select(m, "random", choice) == Selected(m, i)
  {
    hide UsableOnes, Usable;
    var usable := UsableOnes(m, |m.instances|);
    UsableOnesAreUsable(m, |m.instances|);
    var p :| 0 <= p < |m.instances| && m.instances[p] == i;
    assert UsableAt(m, p);
    assert i in usable;
    var choice: nat :| choice < |usable| && usable[choice] == i;
    RandomSelects(m, choice);
  }

  lemma RandomSelects(m: Manager, choice: nat)
    requires choice < |UsableOnes(m, |m.instances|)|
    ensures Select(m, "random", choice) == Selected(m, UsableOnes(m, |m.instances|)[choice])
  {
    hide UsableOnes;
    ModUnique(choice, |UsableOnes(m, |m.instances|)|, 0, choice);
  }

  // Cyclic positions, without division.

  lemma ModUnique(a: int, n: int, q: int, r: int)
    requires n > 0 && 0 <= r < n && a == q * n + r
    ensures a % n == r
  {
    var k := a / n - q;
    assert k * n == r - a % n by {
      assert a == (a / n) * n + a % n;
      assert k * n == (a / n) * n - q * n;
    }
    assert k >= 1 ==> k * n >= n;
    assert k <= -1 ==> k * n <= -n;
  }

  /** Offsets up to one full turn wrap at most once. */
  lemma AtOffset(m: Manager, d: nat)
    requires m.instances != [] && d <= |m.instances|
    ensures var n := |m.instances|; var s := m.nextIndex % n;
            At(m, d) == if s + d < n then s + d else s + d - n
  {
    var n := |m.instances|;
    var s, q := m.nextIndex % n, m.nextIndex / n;
    assert m.nextIndex == q * n + s;
    if s + d < n {
      ModUnique(m.nextIndex + d, n, q, s + d);
    } else {
      assert (q + 1) * n == q * n + n;
      ModUnique(m.nextIndex + d, n, q + 1, s + d - n);
    }
  }

  lemma AtNext(m: Manager, d: nat)
    requires d < |m.instances|
    ensures var n := |m.instances|; (At(m, d) + 1) % n == At(m, d + 1) && At(m, d + 1) % n == At(m, d + 1)
  {
    var n := |m.instances|;
    AtOffset(m, d);
    AtOffset(m, d + 1);
    if At(m, d) + 1 < n {
      ModUnique(At(m, d) + 1, n, 0, At(m, d) + 1);
    } else {
      ModUnique(n, n, 1, 0);
    }
    ModUnique(At(m, d + 1), n, 0, At(m, d + 1));
  }

  lemma OffsetOf(m: Manager, p: nat) returns (d: nat)
    requires p < |m.instances|
    ensures d < |m.instances| && At(m, d) == p
  {
    var s := m.nextIndex % |m.instances|;
    d := if p >= s then p - s else p - s + |m.instances|;
    AtOffset(m, d);
  }

  lemma AtInjective(m: Manager, d: nat, e: nat)
    requires d < e < |m.instances|
    ensures At(m, d) != At(m, e)
  {
    AtOffset(m, d);
    AtOffset(m, e);
  }

  /** Moving the round-robin position moves the offsets. */
  lemma AtShift(m: Manager, w: Manager, i: nat, j: nat)
    requires m.instances != [] && w.instances == m.instances
    requires i + j <= |m.instances| && w.nextIndex % |m.instances| == At(m, i)
    ensures At(w, j) == At(m, i + j)
  {
    AtOffset(m, i);
    AtOffset(w, j);
    AtOffset(m, i + j);
  }

  // Fairness of the rotation.

  function UsablePositions(m: Manager): set<nat> {
    set p: nat | p < |m.instances| && UsableAt(m, p)
  }

  /** Positions returned by `k` selections in a row with list and statuses unchanged. */
  function Picks(m: Manager, k: nat): seq<nat>
    requires m.instances != []
    decreases k
  {
    if k == 0 then [] else [NextPosition(m)] + Picks(Advanced(m), k - 1)
  }

  /** Usable positions from offset `d` to the end of one turn, in order. */
  function Turn(m: Manager, d: nat): seq<nat>
    requires m.instances != [] && d <= |m.instances|
    decreases |m.instances| - d
  {
    if d == |m.instances| then []
    else if UsableAt(m, At(m, d)) then [At(m, d)] + Turn(m, d + 1)
    else Turn(m, d + 1)
  }

  lemma {:induction false} TurnSkips(m: Manager, d: nat, e: nat)
    requires m.instances != [] && d <= e <= |m.instances|
    requires forall j :: d <= j < e ==> !UsableAt(m, At(m, j))
    ensures Turn(m, d) == Turn(m, e)
    decreases e - d
  {
    if d == e {
    } else {
      TurnSkips(m, d + 1, e);
    }
  }

  /** Successive picks walk through the turn. */
  lemma {:induction false} PicksFollowTurn(m: Manager, w: Manager, d: nat)
    requires m.instances != [] && d <= |m.instances|
    requires w.instances == m.instances && w.statusMap == m.statusMap
    requires w.nextIndex % |m.instances| == At(m, d)
    ensures Picks(w, |Turn(m, d)|) == Turn(m, d)
    decreases |m.instances| - d
  {
    var n := |m.instances|;
    var e := FirstUsable(m, d);
    TurnSkips(m, d, e);
    if e < n {
      FirstUsableShift(m, w, d);
      assert NextPosition(w) == At(m, e);
      AtNext(m, e);
      PicksFollowTurn(m, Advanced(w), e + 1);
      assert Turn(m, e) == [At(m, e)] + Turn(m, e + 1);
    } else {
      assert Turn(m, n) == [];
    }
  }

  lemma FirstUsableShift(m: Manager, w: Manager, d: nat)
    requires m.instances != [] && d <= |m.instances|
    requires w.instances == m.instances && w.statusMap == m.statusMap
    requires w.nextIndex % |m.instances| == At(m, d) && FirstUsable(m, d) < |m.instances|
    ensures FirstUsable(w, 0) == FirstUsable(m, d) - d
    ensures At(w, FirstUsable(w, 0)) == At(m, FirstUsable(m, d))
  {
    var e := FirstUsable(m, d);
    forall j | 0 <= j <= e - d
      ensures At(w, j) == At(m, d + j)
    {
      AtShift(m, w, d, j);
    }
    assert UsableAt(w, At(w, e - d));
  }

  ghost predicate Distinct<T>(s: seq<T>) {
    forall i, j :: 0 <= i < j < |s| ==> s[i] != s[j]
  }

  lemma {:induction false} TurnIsDistinct(m: Manager, d: nat)
    requires m.instances != [] && d <= |m.instances|
    ensures Distinct(Turn(m, d))
    ensures forall p :: p in Turn(m, d) <==> exists e :: d <= e < |m.instances| && p == At(m, e) && UsableAt(m, p)
    decreases |m.instances| - d
  {
    if d == |m.instances| {
    } else {
      TurnIsDistinct(m, d + 1);
      forall e | d < e < |m.instances| ensures At(m, e) != At(m, d) {
        AtInjective(m, d, e);
      }
    }
  }

  lemma {:induction false} DistinctCount<T>(s: seq<T>, elements: set<T>)
    requires Distinct(s) && forall x :: x in s <==> x in elements
    ensures |s| == |elements|
  {
    if s == [] {
      assert elements == {};
    } else {
      var x := s[0];
      assert forall y :: y in s[1..] <==> y in elements - {x};
      DistinctCount(s[1..], elements - {x});
    }
  }

  /** With list and statuses fixed, as many selections in a row as there are usable positions visit
      each of them exactly once, wherever the rotation starts (even past the end of the list). */
  lemma RotationIsFair(m: Manager)
    requires m.instances != []
    ensures var picks := Picks(m, |UsablePositions(m)|);
            && Distinct(picks)
            && |picks| == |UsablePositions(m)|
            && forall p :: p in picks <==> p in UsablePositions(m)
  {
    TurnIsDistinct(m, 0);
    var turn := Turn(m, 0);
    forall p: nat | p in UsablePositions(m)
      ensures p in turn
    {
      var d := OffsetOf(m, p);
    }
    forall p: nat ensures p in turn <==> p in UsablePositions(m) {}
    DistinctCount(turn, UsablePositions(m));
    assert At(m, 0) == m.nextIndex % |m.instances|;
    PicksFollowTurn(m, m, 0);
  }

  class InstanceManager {
    var instances: seq<Instance>
    var statusMap: map<string, Status>
    var nextIndex: nat

    ghost function Model(): Manager
      reads this
    {
      Manager(instances, statusMap, nextIndex)
    }

    constructor (instances: seq<Instance>)
      ensures Model() == Manager(instances, Relisted(map[], instances), 0)
    {
      var m: map<string, Status> := map[];
      for k := 0 to |instances|
        invariant m == Relisted(map[], instances[..k])
      {
        assert instances[..k + 1] == instances[..k] + [instances[k]];
        m := m[instances[k].id := Healthy];
      }
      assert instances[..|instances|] == instances;
      this.instances := instances;
      statusMap := m;
      nextIndex := 0;
    }

    method UpdateInstances(list: seq<Instance>)
      modifies this
      ensures Model() == Manager(list, Relisted(old(statusMap), list), old(nextIndex))
    {
      var m: map<string, Status> := map[];
      for k := 0 to |list|
        invariant m == Relisted(statusMap, list[..k])
      {
        assert list[..k + 1] == list[..k] + [list[k]];
        var id := list[k].id;
        m := m[id := if id in statusMap then statusMap[id] else Healthy];
      }
      assert list[..|list|] == list;
      instances := list;
      statusMap := m;
    }

    method MarkInstanceStatus(id: string, s: Status)
      modifies this`statusMap
      ensures statusMap == old(statusMap)[id := s]
    {
      statusMap := statusMap[id := s];
    }

    method GetInstance(strategy: string, choice: nat) returns (r: Option<Instance>)
      modifies this`nextIndex
      ensures match Select(old(Model()), strategy, choice)
              case NothingUsable => r == None && Model() == old(Model())
              case Selected(m, i) => r == Some(i) && Model() == m
    {
      var usable: seq<Instance> := [];
      for k := 0 to |instances|
        invariant usable == UsableOnes(Model(), k)
      {
        if Usable(statusMap, instances[k].id) {
          usable := usable + [instances[k]];
        }
      }
      if usable == [] {
        return None;
      }
      if strategy == "random" {
        return Some(usable[choice % |usable|]);
      }
      if strategy == "best" {
        return Some(usable[0]);
      }
      var i := NextInstance();
      r := Some(i);
    }

    method NextInstance() returns (i: Instance)
      requires instances != []
      modifies this`nextIndex
      ensures i == instances[NextPosition(old(Model()))]
      ensures Model() == Advanced(old(Model()))
    {
      for k := 0 to |instances|
        invariant nextIndex == old(nextIndex)
        invariant FirstUsable(Model(), 0) == FirstUsable(Model(), k)
      {
        var p := (nextIndex + k) % |instances|;
        assert p == At(Model(), k);
        if Usable(statusMap, instances[p].id) {
          nextIndex := (p + 1) % |instances|;
          return instances[p];
        }
      }
      var p := nextIndex % |instances|;
      nextIndex := (p + 1) % |instances|;
      i := instances[p];
    }
  }
}
