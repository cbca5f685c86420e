/** The circuit breaker of cluster/failover/breaker.go.

    One instance's record is an `Entry`; `Step` is what one method call does to it.
    The class below keeps a map of entries and each of its methods is proved to be `Step`.
    Time is an integer argument and each call is one atomic step. */
module Breaker {
  import opened Arithmetic
  import opened Types

  datatype State = Closed | Open | HalfOpen

  datatype Config = Config(threshold: int, timeout: int, halfOpenMaxCall: int,
                           halfOpenSuccess: real, maxIdleTime: int)

  datatype Entry = Entry(state: State, consecutiveError: int, openUntil: int,
                         halfOpenCounter: int, halfOpenSuccess: int, halfOpenCalls: int,
                         lastAccess: int, backoffFactor: real)

  /** The calls a breaker can receive; `Clean` is one tick of the cleanup goroutine. */
  datatype Op = Allow | MarkSuccess | MarkFailure | GetState | Reset | Clean

  datatype Input = Input(op: Op, now: int)

  datatype Reply = Granted | Refused | Done | Reports(state: State)

  function Fresh(now: int): Entry {
    Entry(Closed, 0, 0, 0, 0, 0, now, 1.0)
  }

  /** getOrCreateState */
  function Find(o: Option<Entry>, now: int): Entry {
    if o.Some? then o.value else Fresh(now)
  }

  /** How long an opening lasts: the timeout times the back-off factor, at most ten timeouts, both
      computed in 64 bits. */
  function OpenTime(timeout: int, factor: real): int {
    Capped(timeout, Scale(timeout, factor))
  }

  function Capped(timeout: int, wanted: real): int {
    var t, max := ToInt64(wanted), Wrap64(timeout * 10);
    if t > max then max else t
  }

  function AllowEntry(c: Config, e0: Entry, now: int): (Entry, bool) {
    var e := e0.(lastAccess := now);
    match e.state
    case Closed => (e, true)
    case Open =>
      if now > e.openUntil then
        (e.(state := HalfOpen, halfOpenCounter := 0, halfOpenSuccess := 0, halfOpenCalls := 0), true)
      else (e, false)
    case HalfOpen =>
      if e.halfOpenCounter < c.halfOpenMaxCall then
        (e.(halfOpenCounter := e.halfOpenCounter + 1, halfOpenCalls := e.halfOpenCalls + 1), true)
      else (e, false)
  }

  predicate RateMet(successes: int, calls: int, rate: real)
    requires calls > 0
  {
    successes as real / calls as real >= rate
  }

  function SuccessEntry(c: Config, e0: Entry, now: int): Entry {
    var e := e0.(lastAccess := now, consecutiveError := 0);
    if e.state == HalfOpen then
      var s := e.halfOpenSuccess + 1;
      if e.halfOpenCalls > 0 && RateMet(s, e.halfOpenCalls, c.halfOpenSuccess) then
        e.(state := Closed, halfOpenCounter := 0, halfOpenSuccess := 0, halfOpenCalls := 0,
           backoffFactor := 1.0)
      else e.(halfOpenSuccess := s)
    else e
  }

  function FailureEntry(c: Config, e0: Entry, now: int): Entry {
    var e := e0.(lastAccess := now, consecutiveError := e0.consecutiveError + 1);
    match e.state
    case Closed =>
      if e.consecutiveError >= c.threshold then
        var f := if e.backoffFactor < 1.0 then 1.0 else e.backoffFactor;
        e.(state := Open, openUntil := now + OpenTime(c.timeout, f), backoffFactor := f * 2.0)
      else e
    case Open => e
    case HalfOpen =>
      e.(state := Open, openUntil := now + OpenTime(c.timeout, e.backoffFactor),
         backoffFactor := e.backoffFactor * 1.5,
         halfOpenCounter := 0, halfOpenSuccess := 0, halfOpenCalls := 0)
  }

  function ReportedState(e: Entry, now: int): State {
    if e.state == Open && now > e.openUntil then HalfOpen else e.state
  }

  predicate Stale(c: Config, e: Entry, now: int) {
    now - e.lastAccess > c.maxIdleTime && e.state == Closed
  }

  /** One call on one instance's record, `None` being "not in the map". */
  function Step(c: Config, o: Option<Entry>, i: Input): (Option<Entry>, Reply) {
    match i.op
    case Allow =>
      var (e, ok) := AllowEntry(c, Find(o, i.now), i.now);
      (Some(e), if ok then Granted else Refused)
    case MarkSuccess => (Some(SuccessEntry(c, Find(o, i.now), i.now)), Done)
    case MarkFailure => (Some(FailureEntry(c, Find(o, i.now), i.now)), Done)
    case GetState =>
      var e := Find(o, i.now);
      (Some(e.(lastAccess := i.now)), Reports(ReportedState(e, i.now)))
    case Reset => (Some(Fresh(i.now)), Done)
    case Clean => (if o.Some? && Stale(c, o.value, i.now) then None else o, Done)
  }

  /** The record after the calls of `h`, oldest first. */
  function Run(c: Config, o: Option<Entry>, h: seq<Input>): Option<Entry> {
    if h == [] then o else Step(c, Run(c, o, h[..|h| - 1]), h[|h| - 1]).0
  }

  function Lookup(m: map<string, Entry>, id: string): Option<Entry> {
    if id in m then Some(m[id]) else None
  }

  function Sweep(c: Config, m: map<string, Entry>, now: int): map<string, Entry> {
    map id | id in m && !Stale(c, m[id], now) :: m[id]
  }

  /** A call on the whole breaker; `Clean` concerns every instance, the others only `id`. */
  datatype Event = Event(id: string, input: Input)

  function StepAll(c: Config, m: map<string, Entry>, ev: Event): map<string, Entry> {
    if ev.input.op == Clean then Sweep(c, m, ev.input.now)
    else
      var e := Step(c, Lookup(m, ev.id), ev.input).0;
      if e.Some? then m[ev.id := e.value] else m
  }

  function RunAll(c: Config, m: map<string, Entry>, evs: seq<Event>): map<string, Entry> {
    if evs == [] then m else StepAll(c, RunAll(c, m, evs[..|evs| - 1]), evs[|evs| - 1])
  }

  /** The calls of a run that concern one instance. */
  function Project(evs: seq<Event>, id: string): seq<Input> {
    if evs == [] then []
    else
      var last := evs[|evs| - 1];
      var front := Project(evs[..|evs| - 1], id);
      if Concerns(last, id) then front + [last.input] else front
  }

  predicate Concerns(ev: Event, id: string) {
    ev.input.op == Clean || ev.id == id
  }

  lemma StepAllIsLocal(c: Config, m: map<string, Entry>, ev: Event, id: string)
    ensures Lookup(StepAll(c, m, ev), id) ==
            if Concerns(ev, id) then Step(c, Lookup(m, id), ev.input).0 else Lookup(m, id)
  {
  }

  /** Instances do not influence each other: in any run of the whole breaker, an instance's record
      is what its own calls and the cleanup ticks make of it. */
  lemma {:induction false} InstancesAreIndependent(c: Config, m: map<string, Entry>, evs: seq<Event>, id: string)
    ensures Lookup(RunAll(c, m, evs), id) == Run(c, Lookup(m, id), Project(evs, id))
  {
    if evs == [] {
    } else {
      var front, last := evs[..|evs| - 1], evs[|evs| - 1];
      InstancesAreIndependent(c, m, front, id);
      StepAllIsLocal(c, RunAll(c, m, front), last, id);
      if Concerns(last, id) {
        RunSnoc(c, Lookup(m, id), Project(front, id), last.input);
      }
    }
  }

  lemma RunSnoc(c: Config, o: Option<Entry>, h: seq<Input>, i: Input)
    ensures Run(c, o, h + [i]) == Step(c, Run(c, o, h), i).0
  {
    assert (h + [i])[..|h|] == h;
  }

  class SimpleCircuitBreaker {
    const config: Config
    var instances: map<string, Entry>

    constructor (config: Config)
      ensures this.config == config && instances == map[]
    {
      this.config := config;
      instances := map[];
    }

    method GetOrCreateState(id: string, now: int) returns (e: Entry)
      modifies this
      ensures e == Find(old(Lookup(instances, id)), now)
      ensures instances == old(instances)[id := e]
    {
      if id !in instances {
        instances := instances[id := Fresh(now)];
      }
      e := instances[id];
    }

    method AllowCall(id: string, now: int) returns (ok: bool)
      modifies this
      ensures instances == StepAll(config, old(instances), Event(id, Input(Allow, now)))
      ensures Step(config, old(Lookup(instances, id)), Input(Allow, now)).1 == if ok then Granted else Refused
    {
      var e := GetOrCreateState(id, now);
      e := e.(lastAccess := now);
      match e.state {
        case Closed =>
          ok := true;
        case Open =>
          ok := now > e.openUntil;
          if ok {
            e := e.(state := HalfOpen, halfOpenCounter := 0, halfOpenSuccess := 0, halfOpenCalls := 0);
          }
        case HalfOpen =>
          ok := e.halfOpenCounter < config.halfOpenMaxCall;
          if ok {
            e := e.(halfOpenCounter := e.halfOpenCounter + 1);
            e := e.(halfOpenCalls := e.halfOpenCalls + 1);
          }
      }
      instances := instances[id := e];
    }

    method RecordSuccess(id: string, now: int)
      modifies this
      ensures instances == StepAll(config, old(instances), Event(id, Input(MarkSuccess, now)))
    {
      var e := GetOrCreateState(id, now);
      e := e.(lastAccess := now, consecutiveError := 0);
      if e.state == HalfOpen {
        e := e.(halfOpenSuccess := e.halfOpenSuccess + 1);
        if e.halfOpenCalls > 0 && RateMet(e.halfOpenSuccess, e.halfOpenCalls, config.halfOpenSuccess) {
          e := e.(state := Closed, halfOpenCounter := 0, halfOpenSuccess := 0, halfOpenCalls := 0);
          e := e.(backoffFactor := 1.0);
        }
      }
      instances := instances[id := e];
    }

    method RecordFailure(id: string, now: int)
      modifies this
      ensures instances == StepAll(config, old(instances), Event(id, Input(MarkFailure, now)))
    {
      var e := GetOrCreateState(id, now);
      e := e.(lastAccess := now);
      e := e.(consecutiveError := e.consecutiveError + 1);
      match e.state {
        case Closed =>
          if e.consecutiveError >= config.threshold {
            e := e.(state := Open);
            if e.backoffFactor < 1.0 {
              e := e.(backoffFactor := 1.0);
            }
            e := e.(openUntil := now + OpenTime(config.timeout, e.backoffFactor));
            e := e.(backoffFactor := e.backoffFactor * 2.0);
          }
        case Open =>
        case HalfOpen =>
          e := e.(state := Open);
          e := e.(openUntil := now + OpenTime(config.timeout, e.backoffFactor));
          e := e.(backoffFactor := e.backoffFactor * 1.5);
          e := e.(halfOpenCounter := 0, halfOpenSuccess := 0, halfOpenCalls := 0);
      }
      instances := instances[id := e];
    }

    method QueryState(id: string, now: int) returns (s: State)
      modifies this
      ensures instances == StepAll(config, old(instances), Event(id, Input(GetState, now)))
      ensures Step(config, old(Lookup(instances, id)), Input(GetState, now)).1 == Reports(s)
    {
      var e := GetOrCreateState(id, now);
      instances := instances[id := e.(lastAccess := now)];
      if e.state == Open && now > e.openUntil {
        return HalfOpen;
      }
      return e.state;
    }

    method ResetInstance(id: string, now: int)
      modifies this
      ensures instances == StepAll(config, old(instances), Event(id, Input(Reset, now)))
    {
      instances := instances[id := Fresh(now)];
    }

    method RemoveStaleInstances(now: int)
      modifies this
      ensures instances == Sweep(config, old(instances), now)
    {
      var pending := instances.Keys;
      while pending != {}
        invariant pending <= old(instances).Keys
        invariant instances ==
                  map id | id in old(instances) && (id in pending || !Stale(config, old(instances)[id], now)) ::
                    old(instances)[id]
        decreases pending
      {
        var id :| id in pending;
        pending := pending - {id};
        if Stale(config, instances[id], now) {
          instances := instances - {id};
        }
      }
    }
  }
}
