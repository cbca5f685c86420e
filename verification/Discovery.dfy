/** The TTL cache of discovery/discovery.go. GetService holds its lock three times: for the check
    that it is open, around the cache lookup and around the store that follows a miss. These are separate
    steps, so that watcher updates, the cleaner, Close and other callers can come in between. */
module Discovery {
  import opened Types
  import Joining

  datatype Item = Item(instances: seq<Instance>, timestamp: int)

  datatype Cache = Cache(items: map<string, Item>, closed: bool)

  const EMPTY := Cache(map[], false)

  datatype Op =
    | Check
    | Lookup(name: string, version: string)
    | Store(name: string, version: string, instances: seq<Instance>)   // after a miss
    | Update(name: string, version: string, instances: seq<Instance>)  // from a watcher
    | Clean
    | Shut

  datatype Input = Input(op: Op, now: int)

  datatype Reply = Hit(instances: seq<Instance>) | Miss | Done | ClosedError | Panic

  function Key(name: string, version: string): string {
    name + ":" + version
  }

  function Cached(ttl: int, c: Cache, key: string, now: int): Reply {
    if key in c.items && now - c.items[key].timestamp < ttl then Hit(c.items[key].instances) else Miss
  }

  function Swept(ttl: int, items: map<string, Item>, now: int): map<string, Item> {
    map k | k in items && now - items[k].timestamp <= ttl :: items[k]
  }

  /** After Close the map is nil: the check and a store answer with an error, a lookup finds nothing and
      an update panics. */
  function Step(ttl: int, c: Cache, i: Input): (Cache, Reply) {
    match i.op
    case Check => (c, if c.closed then ClosedError else Done)
    case Lookup(n, v) => (c, Cached(ttl, c, Key(n, v), i.now))
    case Store(n, v, list) =>
      if c.closed then (c, ClosedError) else (c.(items := c.items[Key(n, v) := Item(list, i.now)]), Done)
    case Update(n, v, list) =>
      if c.closed then (c, Panic) else (c.(items := c.items[Key(n, v) := Item(list, i.now)]), Done)
    case Clean => (c.(items := Swept(ttl, c.items, i.now)), Done)
    case Shut => (Cache(map[], true), Done)
  }

  function Run(ttl: int, c: Cache, h: seq<Input>): Cache {
    if h == [] then c else Step(ttl, Run(ttl, c, h[..|h| - 1]), h[|h| - 1]).0
  }

  ghost predicate NotShut(h: seq<Input>) {
    forall i :: 0 <= i < |h| ==> h[i].op != Shut
  }

  predicate Writes(i: Input, key: string) {
    (i.op.Store? || i.op.Update?) && Key(i.op.name, i.op.version) == key
  }

  /** The latest write under a key. */
  function LastWrite(h: seq<Input>, key: string): (w: Option<Input>)
    ensures w.Some? ==> w.value in h && Writes(w.value, key)
  {
    if h == [] then None
    else if Writes(h[|h| - 1], key) then Some(h[|h| - 1])
    else LastWrite(h[..|h| - 1], key)
  }

  /** The latest instance list written under a key. */
  function Latest(h: seq<Input>, key: string): Option<Item> {
    var w := LastWrite(h, key);
    if w.None? then None else Some(Item(w.value.op.instances, w.value.now))
  }

  /** The cache holds the latest list, unless the cleaner dropped it when it was too old. */
  ghost predicate Faithful(ttl: int, c: Cache, h: seq<Input>, key: string) {
    if key in c.items then Latest(h, key) == Some(c.items[key])
    else Latest(h, key).Some? ==> exists i :: 0 <= i < |h| && h[i].now - Latest(h, key).value.timestamp > ttl
  }

  lemma {:induction false} CacheHoldsLatest(ttl: int, h: seq<Input>, key: string)
    requires NotShut(h)
    ensures !Run(ttl, EMPTY, h).closed && Faithful(ttl, Run(ttl, EMPTY, h), h, key)
  {
    if h == [] {
    } else {
      var front, i := h[..|h| - 1], h[|h| - 1];
      CacheHoldsLatest(ttl, front, key);
      var was := Run(ttl, EMPTY, front);
      if Latest(h, key) == Latest(front, key) && Latest(h, key).Some? && key !in Run(ttl, EMPTY, h).items {
        if key in was.items {
          assert h[|h| - 1].now - Latest(h, key).value.timestamp > ttl;
        } else {
          var k :| 0 <= k < |front| && front[k].now - Latest(front, key).value.timestamp > ttl;
          assert h[k].now - Latest(h, key).value.timestamp > ttl;
        }
      }
    }
  }

  /** Before Close, on a clock that does not run back, a lookup answers with the latest list written
      under its key if that is younger than the TTL, and misses otherwise: the moments at which the
      cleaner ran make no difference. */
  lemma LookupIsLatestFresh(ttl: int, h: seq<Input>, name: string, version: string, now: int)
    requires NotShut(h) && forall i :: 0 <= i < |h| ==> h[i].now <= now
    ensures Step(ttl, Run(ttl, EMPTY, h), Input(Lookup(name, version), now)).1 ==
            var item := Latest(h, Key(name, version));
            if item.Some? && now - item.value.timestamp < ttl then Hit(item.value.instances) else Miss
  {
    CacheHoldsLatest(ttl, h, Key(name, version));
  }

  /** After a tick before Close, on a clock that does not run back, a key is in the cache exactly when
      something was written under it and the latest write is not older than the TTL. */
  lemma TickKeepsTheFresh(ttl: int, h: seq<Input>, key: string, now: int)
    requires NotShut(h) && forall i :: 0 <= i < |h| ==> h[i].now <= now
    ensures var items := Step(ttl, Run(ttl, EMPTY, h), Input(Clean, now)).0.items;
            key in items <==> Latest(h, key).Some? && now - Latest(h, key).value.timestamp <= ttl
  {
    CacheHoldsLatest(ttl, h, key);
  }

  function WithoutCleaning(h: seq<Input>): seq<Input> {
    if h == [] then []
    else
      var front, i := WithoutCleaning(h[..|h| - 1]), h[|h| - 1];
      if i.op == Clean then front else front + [i]
  }

  lemma {:induction false} LatestIgnoresCleaning(h: seq<Input>, key: string)
    ensures Latest(WithoutCleaning(h), key) == Latest(h, key)
  {
    if h == [] {
    } else {
      hide Latest, Key;
      var front, i := h[..|h| - 1], h[|h| - 1];
      LatestIgnoresCleaning(front, key);
      assert h == front + [i];
      LatestSnoc(front, i, key);
      LatestSnoc(WithoutCleaning(front), i, key);
    }
  }

  lemma {:induction false} CleaningRemovesOnly(h: seq<Input>)
    ensures forall i :: i in WithoutCleaning(h) ==> i in h
  {
    if h == [] {
    } else {
      CleaningRemovesOnly(h[..|h| - 1]);
    }
  }

  lemma StillEarlier(h: seq<Input>, now: int)
    requires NotShut(h) && forall i :: 0 <= i < |h| ==> h[i].now <= now
    ensures var w := WithoutCleaning(h);
            NotShut(w) && forall i :: 0 <= i < |w| ==> w[i].now <= now
  {
    CleaningRemovesOnly(h);
    var w := WithoutCleaning(h);
    forall i | 0 <= i < |w| ensures w[i].op != Shut && w[i].now <= now {
      assert w[i] in h;
    }
  }

  lemma LatestSnoc(h: seq<Input>, i: Input, key: string)
    ensures Latest(h + [i], key) ==
            if Writes(i, key) then Some(Item(i.op.instances, i.now)) else Latest(h, key)
  {
    assert (h + [i])[..|h|] == h;
  }

  lemma LookupIgnoresCleaning(ttl: int, h: seq<Input>, name: string, version: string, now: int)
    requires NotShut(h) && forall i :: 0 <= i < |h| ==> h[i].now <= now
    ensures Step(ttl, Run(ttl, EMPTY, h), Input(Lookup(name, version), now)).1 ==
            Step(ttl, Run(ttl, EMPTY, WithoutCleaning(h)), Input(Lookup(name, version), now)).1
  {
    hide Step, Run;
    LatestIgnoresCleaning(h, Key(name, version));
    StillEarlier(h, now);
    LookupIsLatestFresh(ttl, h, name, version, now);
    LookupIsLatestFresh(ttl, WithoutCleaning(h), name, version, now);
  }

  ghost predicate ClockRuns(h: seq<Input>) {
    forall i, j :: 0 <= i < j < |h| ==> h[i].now <= h[j].now
  }

  /** The answers of a run, without those of the cleaner. */
  function Answers(ttl: int, h: seq<Input>): seq<Reply> {
    if h == [] then []
    else
      var front := Answers(ttl, h[..|h| - 1]);
      if h[|h| - 1].op == Clean then front else front + [Step(ttl, Run(ttl, EMPTY, h[..|h| - 1]), h[|h| - 1]).1]
  }

  lemma WritesAreDone(ttl: int, h: seq<Input>, i: Input)
    requires NotShut(h) && (i.op.Store? || i.op.Update? || i.op.Check?)
    ensures Step(ttl, Run(ttl, EMPTY, h), i).1 == Done
  {
    CacheHoldsLatest(ttl, h, "");
  }

  /** In every run before Close, on a clock that does not run back, all answers are those of the same
      run without the cleaner. */
  lemma {:induction false} CleaningIsInvisible(ttl: int, h: seq<Input>)
    requires ClockRuns(h) && NotShut(h)
    ensures Answers(ttl, h) == Answers(ttl, WithoutCleaning(h))
  {
    if h == [] {
    } else {
      hide Step, Run;
      var front, i := h[..|h| - 1], h[|h| - 1];
      CleaningIsInvisible(ttl, front);
      var w := WithoutCleaning(front);
      assert (w + [i])[..|w|] == w;
      StillEarlier(front, i.now);
      match i.op {
        case Lookup(n, v) => LookupIgnoresCleaning(ttl, front, n, v, i.now);
        case Clean =>
        case _ =>
          WritesAreDone(ttl, front, i);
          WritesAreDone(ttl, w, i);
      }
    }
  }

  // After Close.

  lemma {:induction false} ClosedIsShut(ttl: int, h: seq<Input>)
    ensures Run(ttl, EMPTY, h).closed <==> !NotShut(h)
    ensures Run(ttl, EMPTY, h).closed ==> Run(ttl, EMPTY, h).items == map[]
  {
    if h == [] {
    } else {
      var front := h[..|h| - 1];
      ClosedIsShut(ttl, front);
      assert !NotShut(h) <==> !NotShut(front) || h[|h| - 1].op == Shut by {
        assert forall i :: 0 <= i < |front| ==> front[i] == h[i];
      }
    }
  }

  /** A watcher's update panics exactly when Close came before it in the run, however long ago; by then
      GetService fails its check or finds nothing and stores nothing. */
  lemma PanicsIffShut(ttl: int, h: seq<Input>, name: string, version: string, list: seq<Instance>, now: int)
    ensures var c, shut := Run(ttl, EMPTY, h), exists i :: 0 <= i < |h| && h[i].op == Shut;
            && (Step(ttl, c, Input(Update(name, version, list), now)).1 == Panic <==> shut)
            && (Step(ttl, c, Input(Check, now)).1 == ClosedError <==> shut)
            && (Step(ttl, c, Input(Store(name, version, list), now)) == (c, ClosedError) <==> shut)
            && (shut ==> Step(ttl, c, Input(Lookup(name, version), now)).1 == Miss)
  {
    ClosedIsShut(ttl, h);
  }

  // Names with colons.

  predicate ColonFree(s: string) { ':' !in s }

  /** For names without colons, whatever the versions, a key stands for one name and version. */
  lemma KeysAreDistinct(n: string, v: string, m: string, w: string)
    requires ColonFree(n) && ColonFree(m)
    ensures Key(n, v) == Key(m, w) <==> n == m && v == w
  {
    Joining.FirstPartsAgree(n, ':', v, m, w);
  }

  ghost predicate Until(h: seq<Input>, now: int) {
    ClockRuns(h) && forall i :: 0 <= i < |h| ==> h[i].now <= now
  }

  /** After the run a lookup of (n, v) is answered with a list that was written for another name or version. */
  ghost predicate Confused(ttl: int, h: seq<Input>, n: string, v: string, now: int) {
    && Step(ttl, Run(ttl, EMPTY, h), Input(Lookup(n, v), now)).1.Hit?
    && var w := LastWrite(h, Key(n, v)); w.Some? && (w.value.op.name != n || w.value.op.version != v)
  }

  lemma StoredThenConfused(ttl: int, n: string, v: string, m: string, w: string, now: int) returns (h: seq<Input>)
    requires ttl > 0 && Key(m, w) == Key(n, v) && (m != n || w != v)
    ensures NotShut(h) && Until(h, now) && Confused(ttl, h, n, v, now)
  {
    h := [Input(Store(m, w, []), now)];
    LookupIsLatestFresh(ttl, h, n, v, now);
  }

  /** In some run before Close, on a clock that does not run back, a lookup is answered with a list that was
      written for another service or version, exactly when its own name or version contains a colon. */
  lemma ConfusedIffColon(ttl: int, n: string, v: string, now: int)
    requires ttl > 0
    ensures (exists h :: NotShut(h) && Until(h, now) && Confused(ttl, h, n, v, now)) <==>
            !(ColonFree(n) && ColonFree(v))
  {
    hide Step, Run, Key;
    KeyJoins(n, v);
    Joining.JoinedOtherwiseIff(n, ':', v);
    if Joining.JoinedOtherwise(n, ':', v) {
      var m, w :| Joining.Join(m, ':', w) == Joining.Join(n, ':', v) && (m != n || w != v);
      KeyJoins(m, w);
      var h := StoredThenConfused(ttl, n, v, m, w, now);
    } else {
      forall h ensures !Confused(ttl, h, n, v, now) {
        var w := LastWrite(h, Key(n, v));
        if w.Some? {
          KeyJoins(w.value.op.name, w.value.op.version);
        }
      }
    }
  }

  lemma KeyJoins(n: string, v: string)
    ensures Key(n, v) == Joining.Join(n, ':', v)
  {
  }

  lemma RunSnoc(ttl: int, c: Cache, h: seq<Input>, i: Input)
    ensures Run(ttl, c, h + [i]) == Step(ttl, Run(ttl, c, h), i).0
  {
    hide Step;
    assert (h + [i])[..|h|] == h;
  }

  class DefaultDiscovery {
    const ttl: int
    var items: map<string, Item>
    var closed: bool

    ghost function Model(): Cache
      reads this
    {
      Cache(items, closed)
    }

    constructor (ttl: int)
      ensures this.ttl == ttl && Model() == EMPTY
    {
      this.ttl := ttl;
      items, closed := map[], false;
    }

    /** Whatever else happens while GetService does not hold the lock. */
    method Others(h: seq<Input>)
      modifies this
      ensures Model() == Run(ttl, old(Model()), h)
    {
      hide Step;
      for k := 0 to |h|
        invariant Model() == Run(ttl, old(Model()), h[..k])
      {
        RunSnoc(ttl, old(Model()), h[..k], h[k]);
        assert h[..k + 1] == h[..k] + [h[k]];
        var (c, _) := Step(ttl, Cache(items, closed), h[k]);
        items, closed := c.items, c.closed;
      }
      assert h[..|h|] == h;
    }

    method CachedList(name: string, version: string, now: int) returns (r: Option<seq<Instance>>)
      ensures Step(ttl, Model(), Input(Lookup(name, version), now)) ==
              (Model(), if r.Some? then Hit(r.value) else Miss)
    {
      var key := Key(name, version);
      if key in items && now - items[key].timestamp < ttl {
        return Some(items[key].instances);
      }
      return None;
    }

    method StoreList(name: string, version: string, list: seq<Instance>, now: int) returns (ok: bool)
      modifies this
      ensures Step(ttl, old(Model()), Input(Store(name, version, list), now)) ==
              (Model(), if ok then Done else ClosedError)
    {
      if closed {
        return false;
      }
      items := items[Key(name, version) := Item(list, now)];
      ok := true;
    }

    /** GetService; `listed` is the registry's answer after a miss. Others run as in `g` between the check and
        the lookup, and as in `h` between the lookup and the store. */
    method GetService(name: string, version: string, g: seq<Input>, now: int, listed: Option<seq<Instance>>,
                      h: seq<Input>, later: int)
      returns (r: Option<seq<Instance>>)
      modifies this
      ensures
        var c0 := old(Model());
        var c1 := Run(ttl, c0, g);
        var c2 := Run(ttl, c1, h);
        if Step(ttl, c0, Input(Check, now)).1 == ClosedError then r == None && Model() == c0
        else match Step(ttl, c1, Input(Lookup(name, version), now)).1
             case Hit(list) => r == Some(list) && Model() == c1
             case _ =>
               if listed == None then r == None && Model() == c2
               else
                 var (c3, reply) := Step(ttl, c2, Input(Store(name, version, listed.value), later));
                 Model() == c3 && r == if reply == Done then listed else None
    {
      if closed {
        return None;
      }
      Others(g);
      r := CachedList(name, version, now);
      if r.Some? {
        return;
      }
      Others(h);
      if listed.None? {
        return None;
      }
      var ok := StoreList(name, version, listed.value, later);
      r := if ok then listed else None;
    }

    /** Writing to the nil map of a closed cache panics. */
    method UpdateCache(name: string, version: string, list: seq<Instance>, now: int) returns (r: Reply)
      modifies this
      ensures Step(ttl, old(Model()), Input(Update(name, version, list), now)) == (Model(), r)
    {
      if closed {
        return Panic;
      }
      items := items[Key(name, version) := Item(list, now)];
      r := Done;
    }

    /** One tick of the cleaner. */
    method CleanCache(now: int)
      modifies this
      ensures Step(ttl, old(Model()), Input(Clean, now)) == (Model(), Done)
    {
      var pending := items.Keys;
      while pending != {}
        invariant pending <= old(items).Keys && closed == old(closed)
        invariant items ==
                  map k | k in old(items) && (k in pending || now - old(items)[k].timestamp <= ttl) :: old(items)[k]
        decreases pending
      {
        var key :| key in pending;
        pending := pending - {key};
        if now - items[key].timestamp > ttl {
          items := items - {key};
        }
      }
      assert items == Swept(ttl, old(items), now);
    }

    method CloseDiscovery()
      modifies this
      ensures closed && (!old(closed) ==> items == map[]) && (old(closed) ==> Model() == old(Model()))
    {
      if closed {
        return;
      }
      closed := true;
      items := map[];
    }
  }
}
