/** Ordered shutdown of the managed services, and the host loop that retries it. */
module ServiceLifecycle {
  import opened Runtime
  import opened Ordering
  import opened DependencyGraph
  import opened ServiceRegistry
  import opened RetainedServices
  import opened ShutdownHistory

  /** A monotonic clock; how far it moves between two readings is up to the environment. */
  class Clock {
    var now: int

    constructor ()
    {
    }

    /** A timer wait: on success at least the requested time has passed. */
    method Wait(duration: nat) returns (ok: bool)
      modifies this
      ensures now >= old(now) + (if ok then duration else 0)
    {
      ok := *;
      var later :| later >= now + (if ok then duration else 0);
      now := later;
    }

    method Elapse()
      modifies this
      ensures now >= old(now)
    {
      var later :| later >= now;
      now := later;
    }
  }

  datatype LifecyclePolicy = LifecyclePolicy(serviceStopTimeout: nat, totalStopTimeout: nat)

  datatype Failure = Failure(service: ServiceKey, error: ErrorCode)

  /** What a pass has established once it has looked at the keys in `seen`. */
  ghost predicate PassKeeps(g: Graph, layers: Layers, before: set<ServiceKey>, started: set<ServiceKey>,
                            stuck: set<ServiceKey>, seen: set<ServiceKey>)
  {
    && stuck <= started <= before && before - started <= seen && stuck <= seen
    && (forall c, k :: c in started && k in before && DependsOn(g, c, k) ==> k in started)
    && (forall k :: k in started && k in seen && k !in stuck ==> HeldFromAbove(g, layers, started * seen, k))
  }

  /** Every service that depends on `key` sits in a layer above `n` that has been looked at. */
  ghost predicate DependentsSeen(g: Graph, layers: Layers, seen: set<ServiceKey>, n: nat, key: ServiceKey) {
    forall c :: DependsOn(g, c, key) ==> c in seen && exists j :: n < j < |layers| && c in layers[j]
  }

  lemma {:induction false} PassHolds(g: Graph, layers: Layers, before: set<ServiceKey>, started: set<ServiceKey>,
                                     stuck: set<ServiceKey>, seen: set<ServiceKey>, n: nat, k: ServiceKey, c: ServiceKey)
    requires PassKeeps(g, layers, before, started, stuck, seen)
    requires n < |layers| && k in layers[n] && c in started && DependsOn(g, c, k)
    requires DependentsSeen(g, layers, seen, n, k)
    ensures PassKeeps(g, layers, before, started, stuck, seen + {k})
  {
  }

  lemma {:induction false} PassReleases(g: Graph, layers: Layers, before: set<ServiceKey>, started: set<ServiceKey>,
                                        stuck: set<ServiceKey>, seen: set<ServiceKey>, k: ServiceKey)
    requires PassKeeps(g, layers, before, started, stuck, seen) && k !in seen
    requires NobodyNeeds(g, started, k)
    ensures PassKeeps(g, layers, before, started - {k}, stuck, seen + {k})
  {
  }

  lemma {:induction false} PassSticks(g: Graph, layers: Layers, before: set<ServiceKey>, started: set<ServiceKey>,
                                      stuck: set<ServiceKey>, seen: set<ServiceKey>, ks: set<ServiceKey>)
    requires PassKeeps(g, layers, before, started, stuck, seen)
    ensures PassKeeps(g, layers, before, started, stuck + ks * started, seen + ks)
  {
  }

  /** The events of one stop operation: refused, or begun within the pass and then settled. */
  ghost predicate IsAttempt(events: seq<Event>, key: ServiceKey, total: Deadline, released: bool) {
    || (|events| == 1 && events[0].Refused? && events[0].key == key && events[0].limit.NoLaterThan(total) && !released)
    || (|events| == 2 && events[0].StopBegan? && events[0].key == key && events[0].limit.NoLaterThan(total)
        && events[1] == if released then Released(key) else StopFailed(key))
  }

  lemma {:induction false} AttemptIsSafe(g: Graph, log: seq<Event>, key: ServiceKey, at: int, limit: Deadline, released: bool)
    requires Safe(g, log) && key in ActiveAfter(log) && NobodyNeeds(g, ActiveAfter(log), key) && !limit.Expired(at)
    ensures
      var more := log + [StopBegan(key, at, limit), if released then Released(key) else StopFailed(key)];
      Safe(g, more) && ActiveAfter(more) == if released then ActiveAfter(log) - {key} else ActiveAfter(log)
  {
    var outcome := if released then Released(key) else StopFailed(key);
    var began := log + [StopBegan(key, at, limit)];
    SafeExtends(g, log, StopBegan(key, at, limit));
    SafeExtends(g, began, outcome);
    assert log + [StopBegan(key, at, limit), outcome] == began + [outcome];
  }

  /** The keys of layer `n` and of every layer above it. */
  ghost function Above(layers: Layers, n: nat): set<ServiceKey>
    requires n <= |layers|
    decreases |layers| - n
  {
    if n == |layers| then {} else Elements(layers[n]) + Above(layers, n + 1)
  }

  /** A stop of `k` failed or was refused. */
  ghost predicate FailedIn(events: seq<Event>, k: ServiceKey) {
    exists e :: e in events && (e.StopFailed? || e.Refused?) && e.key == k
  }

  /** The events of a pass account for its stuck services. */
  ghost predicate PassLog(events: seq<Event>, stuck: set<ServiceKey>, total: Deadline, now: int) {
    && (forall e :: e in events ==>
          && !e.Marked? && (e.StopBegan? || e.Refused? ==> e.limit.NoLaterThan(total))
          && (e.StopFailed? || e.Refused? ==> e.key in stuck))
    && (forall k :: k in stuck ==> FailedIn(events, k) || total.Expired(now))
  }

  ghost predicate WithinBudget(events: seq<Event>, budget: Deadline) {
    forall e :: e in events ==> !e.Marked? && (e.StopBegan? || e.Refused? ==> e.limit.NoLaterThan(budget))
  }

  lemma {:induction false} AttemptLogged(events: seq<Event>, stuck: set<ServiceKey>, total: Deadline, now: int,
                                         key: ServiceKey, attempt: seq<Event>, released: bool)
    requires PassLog(events, stuck, total, now) && IsAttempt(attempt, key, total, released)
    ensures PassLog(events + attempt, if released then stuck else stuck + {key}, total, now)
  {
  }

  /** Ghost view of a pass under way. */
  datatype PassView = PassView(layers: Layers, before: set<ServiceKey>, started: set<ServiceKey>,
                               stuck: set<ServiceKey>, seen: set<ServiceKey>,
                               base: seq<Event>, events: seq<Event>)

  ghost predicate PassOk(g: Graph, v: PassView, total: Deadline, now: int, error: Option<ErrorCode>) {
    && PassKeeps(g, v.layers, v.before, v.started, v.stuck, v.seen)
    && PassLog(v.events, v.stuck, total, now)
    && (error.None? ==> v.stuck == {})
  }

  ghost function Attempted(v: PassView, key: ServiceKey, attempt: seq<Event>, released: bool): PassView {
    if released then v.(started := v.started - {key}, seen := v.seen + {key}, events := v.events + attempt)
    else v.(stuck := v.stuck + {key}, seen := v.seen + {key}, events := v.events + attempt)
  }

  lemma {:induction false} AppendAssociates<T>(a: seq<T>, b: seq<T>, c: seq<T>)
    ensures (a + b) + c == a + (b + c)
  {
  }

  lemma {:induction false} PassAttempts(g: Graph, v: PassView, total: Deadline, now: int, error: Option<ErrorCode>,
                                        after: Option<ErrorCode>, key: ServiceKey, attempt: seq<Event>, released: bool)
    requires PassOk(g, v, total, now, error) && key in v.started && key !in v.seen
    requires IsAttempt(attempt, key, total, released) && NobodyNeeds(g, v.started, key)
    requires after.None? ==> error.None? && released
    ensures PassOk(g, Attempted(v, key, attempt, released), total, now, after)
  {
    AttemptLogged(v.events, v.stuck, total, now, key, attempt, released);
    if released {
      PassReleases(g, v.layers, v.before, v.started, v.stuck, v.seen, key);
    } else {
      assert {key} * v.started == {key};
      PassSticks(g, v.layers, v.before, v.started, v.stuck, v.seen, {key});
    }
  }

  lemma {:induction false} PassExpires(g: Graph, v: PassView, total: Deadline, now: int, error: Option<ErrorCode>, ks: set<ServiceKey>)
    requires PassOk(g, v, total, now, error) && total.Expired(now) && error.Some?
    ensures PassOk(g, v.(stuck := v.stuck + ks * v.started, seen := v.seen + ks), total, now, error)
  {
  }

  lemma {:induction false} AboveHolds(layers: Layers, n: nat, j: nat)
    requires n <= j < |layers|
    ensures Elements(layers[j]) <= Above(layers, n)
    decreases j - n
  {
    if n < j {
      AboveHolds(layers, n + 1, j);
    }
  }

  lemma {:induction false} AboveIsPlaced(layers: Layers, n: nat, k: ServiceKey)
    requires n <= |layers| && k in Above(layers, n)
    ensures exists j :: n <= j < |layers| && k in layers[j]
    decreases |layers| - n
  {
    if k !in layers[n] {
      AboveIsPlaced(layers, n + 1, k);
    }
  }

  /** The next key of a layer has not been looked at. */
  lemma {:induction false} KeyIsNext(g: Graph, layers: Layers, n: nat, m: nat, above: set<ServiceKey>)
    requires IsLayering(g, layers) && n < |layers| && m < |layers[n]| && above == Above(layers, n + 1)
    ensures layers[n][m] in g && layers[n][m] !in above + Elements(layers[n][m + 1..])
    ensures DependentsSeen(g, layers, above + Elements(layers[n][m + 1..]), n, layers[n][m])
    ensures Elements(layers[n][m..]) == {layers[n][m]} + Elements(layers[n][m + 1..])
  {
    var k := layers[n][m];
    assert LayerOk(g, layers, n) && k in layers[n];
    forall c | DependsOn(g, c, k)
      ensures c in above && exists j :: n < j < |layers| && c in layers[j]
    {
      DependencyIsLower(g, layers, c, k);
      LevelIsUnique(g, layers, n, Level(layers, k, |layers|), k);
      var j := Level(layers, c, |layers|);
      AboveHolds(layers, n + 1, j);
      assert c in Elements(layers[j]);
    }
    if k in above {
      AboveIsPlaced(layers, n + 1, k);
      var j :| n + 1 <= j < |layers| && k in layers[j];
      LevelIsUnique(g, layers, n, j, k);
    }
  }

  /** The graphs a layering exists for. */
  ghost predicate Orderable(g: Graph) {
    Closed(g) && !HasCycle(g)
  }

  lemma {:induction false} LayeringIsOrderable(g: Graph, layers: Layers)
    requires IsLayering(g, layers)
    ensures Orderable(g)
  {
    LayeringExcludesCycles(g, layers);
    forall k, d | k in g && d in g[k] ensures d in g {
      DependencyIsLower(g, layers, k, d);
    }
  }

  lemma {:induction false} AboveAll(layers: Layers, n: nat)
    requires n <= |layers|
    ensures Above(layers, n) + Below(layers, n) == Below(layers, |layers|)
    decreases |layers| - n
  {
    if n < |layers| {
      AboveAll(layers, n + 1);
    }
  }

  /** Without layers a pass gets nowhere. */
  ghost function StuckIn(v: PassView): set<ServiceKey> {
    if v.layers == [] then v.before else v.stuck
  }

  /** A finished pass leaves exactly the retained services. */
  lemma {:induction false} PassEnds(g: Graph, v: PassView)
    requires PassKeeps(g, v.layers, v.before, v.started, v.stuck, v.seen) && v.seen == Above(v.layers, 0)
    requires v.before <= g.Keys && (v.layers == [] || IsLayering(g, v.layers))
    ensures v.started == Retained(g, v.before, StuckIn(v)) && StuckIn(v) <= v.started
  {
    AboveAll(v.layers, 0);
    if v.layers == [] {
      assert v.before == v.started + (v.before - v.started);
      assert Settled(g, [], v.before, v.started, v.before);
      SettledIsRetained(g, [], v.before, v.started, v.before);
    } else {
      assert v.started * v.seen == v.started;
      SettledIsRetained(g, v.layers, v.before, v.started, v.stuck);
    }
  }

  /** And its log accounts for them. */
  lemma {:induction false} PassAccounts(g: Graph, v: PassView, total: Deadline, now: int, error: Option<ErrorCode>)
    requires PassOk(g, v, total, now, error) && v.started == Retained(g, v.before, StuckIn(v)) && v.before <= g.Keys
    requires Orderable(g) ==> IsLayering(g, v.layers)
    ensures Orderable(g) ==> PassLog(v.events, StuckIn(v), total, now)
    ensures Orderable(g) && !total.Expired(now) ==> forall k :: k in StuckIn(v) <==> FailedIn(v.events, k)
    ensures Orderable(g) && error.None? ==> v.started == {}
  {
    if Orderable(g) {
      assert v.layers == [] ==> v.before == {};
      NothingStuckNothingRetained(g, v.before);
    }
  }

  /** The host's cleanup deadline: the shutdown deadline less a fixed reserve for final cancellation. The clock
      is read twice, for what remains and for the new deadline. */
  function CleanupDeadline(shutdown: Deadline, reserve: nat, first: int, second: int): (r: Deadline)
    requires first <= second
    ensures r.NoLaterThan(shutdown)
    ensures shutdown.At? ==> r.Expired(second) || r.time + reserve <= shutdown.time + (second - first)
  {
    if shutdown.Unlimited? then Unlimited
    else
      var left := shutdown.Remaining(first).value;
      shutdown.Constrain(At(second + (if left > reserve then left - reserve else 0)))
  }

  /** Asking again never renews the allowance: whatever is asked, and when, ends with the reserve still ahead,
      but for the time between its own two readings; once the reserve is reached it has already passed. */
  lemma {:induction false} CleanupIsNotRenewed(shutdown: Deadline, reserve: nat, first: int, second: int)
    requires shutdown.At? && first <= second
    ensures var r := CleanupDeadline(shutdown, reserve, first, second);
      if first < shutdown.time - reserve then
        r == At(if second - first <= reserve then shutdown.time - reserve + (second - first) else shutdown.time)
      else r.Expired(second)
  {
  }

  class Lifecycle {
    const registry: Registry
    const clock: Clock
    const policy: LifecyclePolicy
    var serviceStarted: map<ServiceKey, bool>
    var startedLayers: Layers
    var lastFailure: Option<Failure>
    ghost var log: seq<Event>

    function Active(): set<ServiceKey>
      reads this`serviceStarted
    {
      set k | k in serviceStarted && serviceStarted[k]
    }

    /** The registry is frozen, the active map covers managed services only, and it says exactly what
        a safe history of starts and stops says. */
    ghost predicate Ledger()
      reads this`serviceStarted, this`log, registry
    {
      && registry.Valid() && registry.frozen
      && serviceStarted.Keys <= registry.managed.Keys
      && Safe(registry.dependencies, log)
      && ActiveAfter(log) == Active()
    }

    /** Remembered layers, if any, are a layering of the frozen graph. */
    ghost predicate LayersKept()
      reads this`startedLayers, registry
    {
      startedLayers == [] || IsLayering(registry.dependencies, startedLayers)
    }

    ghost predicate Valid()
      reads this, registry
    {
      Ledger() && LayersKept()
    }

    constructor (registry: Registry, clock: Clock, policy: LifecyclePolicy)
      requires registry.Valid() && registry.frozen
      ensures Valid() && Active() == {} && log == []
      ensures this.registry == registry && this.clock == clock && this.policy == policy
    {
      this.registry, this.clock, this.policy := registry, clock, policy;
      serviceStarted, startedLayers, lastFailure, log := map[], [], None, [];
    }

    /** Records ownership of a service that the active map already lists. */
    method MarkStarted(key: ServiceKey)
      requires Valid() && key in serviceStarted
      modifies this`serviceStarted, this`log
      ensures Valid() && Active() == old(Active()) + {key} && log == old(log) + [Marked(key)]
      ensures serviceStarted.Keys == old(serviceStarted.Keys)
    {
      SafeExtends(registry.dependencies, log, Marked(key));
      serviceStarted := serviceStarted[key := true];
      log := log + [Marked(key)];
    }

    /** One stop operation under the pass deadline. A release counts even when it came too late. */
    method StopOne(key: ServiceKey, total: Deadline) returns (released: bool, error: Option<ErrorCode>, ghost events: seq<Event>)
      requires Ledger() && key in Active() && NobodyNeeds(registry.dependencies, Active(), key)
      modifies this`serviceStarted, this`log, clock
      ensures Ledger() && clock.now >= old(clock.now) && serviceStarted.Keys == old(serviceStarted.Keys)
      ensures Active() == if released then old(Active()) - {key} else old(Active())
      ensures !released ==> error.Some?
      ensures log == old(log) + events && IsAttempt(events, key, total, released)
      ensures events[0].limit == total.Constrain(At(old(clock.now) + policy.serviceStopTimeout))
    {
      var limit := total.Constrain(At(clock.now + policy.serviceStopTimeout));
      clock.Elapse();
      if limit.Expired(clock.now) {
        SafeExtends(registry.dependencies, log, Refused(key, clock.now, limit));
        events := [Refused(key, clock.now, limit)];
        log := log + events;
        return false, Some(TimedOut), events;
      }
      ghost var at := clock.now;
      clock.Elapse();
      released := *;
      events := [StopBegan(key, at, limit), if released then Released(key) else StopFailed(key)];
      AttemptIsSafe(registry.dependencies, log, key, at, limit, released);
      log := log + events;
      if released {
        serviceStarted := serviceStarted[key := false];
        var late: bool := *;
        error := if late then Some(TimedOut) else None;
      } else {
        error := Some(IoError);
      }
    }

    /** A pass under way agrees with the active map and has logged exactly its events. */
    ghost predicate OnView(v: PassView, started: set<ServiceKey>)
      reads this`serviceStarted, this`log
    {
      Active() == started == v.started && log == v.base + v.events
    }

    /** One key of a pass: skipped when inactive or still needed, otherwise stopped unless time is up. */
    method StopKey(key: ServiceKey, total: Deadline, active: set<ServiceKey>, error: Option<ErrorCode>, ghost v: PassView, ghost n: nat)
      returns (expired: bool, started: set<ServiceKey>, firstError: Option<ErrorCode>, ghost w: PassView)
      requires Ledger() && OnView(v, active) && PassOk(registry.dependencies, v, total, clock.now, error)
      requires n < |v.layers| && key in v.layers[n] && key !in v.seen
      requires DependentsSeen(registry.dependencies, v.layers, v.seen, n, key)
      modifies this`serviceStarted, this`log, this`lastFailure, clock
      ensures Ledger() && OnView(w, started) && clock.now >= old(clock.now)
      ensures PassOk(registry.dependencies, w, total, clock.now, firstError)
      ensures w.layers == v.layers && w.before == v.before && w.base == v.base
      ensures w.seen == if expired then v.seen else v.seen + {key}
      ensures expired ==> total.Expired(clock.now) && firstError.Some?
    {
      expired, started, firstError, w := false, active, error, v;
      ghost var g := registry.dependencies;
      if key !in started {
        PassSticks(g, v.layers, v.before, started, v.stuck, v.seen, {key});
        w := v.(seen := v.seen + {key});
        return;
      }
      if exists c :: c in started && key in registry.dependencies[c] {
        ghost var c :| c in started && key in g[c];
        PassHolds(g, v.layers, v.before, started, v.stuck, v.seen, n, key, c);
        w := v.(seen := v.seen + {key});
        return;
      }
      clock.Elapse();
      if total.Expired(clock.now) {
        expired := true;
        firstError := if firstError.None? then Some(TimedOut) else firstError;
        return;
      }
      started, firstError, w := AttemptStop(key, total, started, firstError, v);
    }

    /** Runs one stop of a pass and records its outcome. */
    method AttemptStop(key: ServiceKey, total: Deadline, active: set<ServiceKey>, error: Option<ErrorCode>, ghost v: PassView)
      returns (started: set<ServiceKey>, firstError: Option<ErrorCode>, ghost w: PassView)
      requires Ledger() && OnView(v, active) && PassOk(registry.dependencies, v, total, clock.now, error)
      requires key in active && key !in v.seen && NobodyNeeds(registry.dependencies, active, key)
      modifies this`serviceStarted, this`log, this`lastFailure, clock
      ensures Ledger() && OnView(w, started) && clock.now >= old(clock.now)
      ensures PassOk(registry.dependencies, w, total, clock.now, firstError)
      ensures w.layers == v.layers && w.before == v.before && w.base == v.base && w.seen == v.seen + {key}
    {
      started, firstError := active, error;
      var released, stopError;
      ghost var attempt;
      released, stopError, attempt := StopOne(key, total);
      if stopError.Some? && firstError.None? {
        firstError := stopError;
        lastFailure := Some(Failure(key, stopError.value));
      }
      AppendAssociates(v.base, v.events, attempt);
      PassAttempts(registry.dependencies, v, total, clock.now, error, firstError, key, attempt, released);
      w := Attempted(v, key, attempt, released);
      if released {
        started := started - {key};
      }
    }

    /** Stops one layer, last key first; leaves it as soon as the pass deadline has passed. */
    method StopLayer(n: nat, layers: Layers, total: Deadline, active: set<ServiceKey>, error: Option<ErrorCode>, ghost v: PassView)
      returns (started: set<ServiceKey>, firstError: Option<ErrorCode>, ghost w: PassView)
      requires Ledger() && OnView(v, active) && PassOk(registry.dependencies, v, total, clock.now, error)
      requires v.layers == layers && n < |layers| && IsLayering(registry.dependencies, layers)
      requires v.seen == Above(layers, n + 1)
      modifies this`serviceStarted, this`log, this`lastFailure, clock
      ensures Ledger() && OnView(w, started) && clock.now >= old(clock.now)
      ensures PassOk(registry.dependencies, w, total, clock.now, firstError)
      ensures w.layers == v.layers && w.before == v.before && w.base == v.base && w.seen == Above(layers, n)
    {
      started, firstError, w := active, error, v;
      var m, expired := |layers[n]|, false;
      while m > 0 && !expired
        invariant 0 <= m <= |layers[n]|
        invariant Ledger() && OnView(w, started) && clock.now >= old(clock.now)
        invariant PassOk(registry.dependencies, w, total, clock.now, firstError)
        invariant w.layers == layers && w.before == v.before && w.base == v.base
        invariant !expired ==> w.seen == v.seen + Elements(layers[n][m..])
        invariant expired ==> w.seen == Above(layers, n)
      {
        m := m - 1;
        KeyIsNext(registry.dependencies, layers, n, m, v.seen);
        ghost var u := w;
        expired, started, firstError, w := StopKey(layers[n][m], total, started, firstError, w, n);
        if expired {
          PassExpires(registry.dependencies, w, total, clock.now, firstError, Elements(layers[n]));
          w := w.(stuck := w.stuck + Elements(layers[n]) * w.started, seen := w.seen + Elements(layers[n]));
        }
      }
    }

    /** The preparation of a start: validates the graph, remembers its layers and lists every service. */
    method PrepareStart() returns (r: Result<Layers>)
      requires Valid()
      modifies this`serviceStarted, this`startedLayers
      ensures Valid() && Active() == old(Active())
      ensures r.Ok? <==> Orderable(registry.dependencies)
      ensures r.Ok? ==> startedLayers == r.value && IsLayering(registry.dependencies, r.value)
      ensures r.Ok? ==> serviceStarted.Keys == registry.managed.Keys
      ensures r.Err? ==> serviceStarted == old(serviceStarted) && startedLayers == old(startedLayers)
    {
      assert registry.ManagedGraph() == registry.dependencies;
      r := registry.ValidateDependencies();
      if r.Ok? {
        LayeringIsOrderable(registry.dependencies, r.value);
        startedLayers := r.value;
        serviceStarted := map k | k in registry.managed :: k in serviceStarted && serviceStarted[k];
      }
    }

    /** The layers a shutdown follows: those of the current graph, else the remembered ones. */
    method SelectLayers() returns (layers: Layers)
      requires Valid()
      ensures Orderable(registry.dependencies) ==> IsLayering(registry.dependencies, layers)
      ensures !Orderable(registry.dependencies) ==> layers == []
    {
      assert registry.ManagedGraph() == registry.dependencies;
      var graph := registry.ValidateDependencies();
      if graph.Ok? {
        LayeringIsOrderable(registry.dependencies, graph.value);
        return graph.value;
      }
      if startedLayers != [] {
        LayeringIsOrderable(registry.dependencies, startedLayers);
      }
      return startedLayers;
    }

    /** One shutdown pass within the caller's budget. */
    method Stop(budget: Deadline, joined: Option<ErrorCode>)
      returns (r: Result<()>, ghost total: Deadline, ghost stuck: set<ServiceKey>, ghost events: seq<Event>)
      requires Valid()
      modifies this`serviceStarted, this`log, this`lastFailure, this`startedLayers, clock
      ensures Valid() && clock.now >= old(clock.now)
      ensures log == old(log) + events && total == budget.Constrain(At(old(clock.now) + policy.totalStopTimeout))
      ensures Active() == Retained(registry.dependencies, old(Active()), stuck) && stuck <= Active()
      ensures Orderable(registry.dependencies) ==> PassLog(events, stuck, total, clock.now)
      ensures Orderable(registry.dependencies) && !total.Expired(clock.now) ==>
        forall k :: k in stuck <==> FailedIn(events, k)
      ensures Orderable(registry.dependencies) && r.Ok? ==> Active() == {}
      ensures !Orderable(registry.dependencies) ==> stuck == old(Active()) && events == []
      ensures r.Ok? ==> joined.None?
    {
      var limit := budget.Constrain(At(clock.now + policy.totalStopTimeout));
      var layers := SelectLayers();
      var firstError;
      ghost var w;
      firstError, w := RunPass(layers, limit);
      total, events, stuck := limit, w.events, StuckIn(w);
      PassEnds(registry.dependencies, w);
      PassAccounts(registry.dependencies, w, limit, clock.now, firstError);
      if firstError.None? && joined.Some? {
        firstError := joined;
      }
      if Active() == {} {
        startedLayers := [];
      }
      r := if firstError.Some? then Err(firstError.value) else Ok(());
    }

    /** Walks the layers from the last to the first. */
    method RunPass(layers: Layers, total: Deadline) returns (firstError: Option<ErrorCode>, ghost w: PassView)
      requires Ledger() && (layers == [] || IsLayering(registry.dependencies, layers))
      modifies this`serviceStarted, this`log, this`lastFailure, clock
      ensures Ledger() && clock.now >= old(clock.now) && OnView(w, Active())
      ensures PassOk(registry.dependencies, w, total, clock.now, firstError)
      ensures w.layers == layers && w.before == old(Active()) && w.base == old(log) && w.seen == Above(layers, 0)
      ensures layers == [] ==> w.events == []
    {
      var started := Active();
      firstError := None;
      w := PassView(layers, started, started, {}, {}, log, []);
      var n := |layers|;
      while n > 0
        invariant 0 <= n <= |layers| && clock.now >= old(clock.now)
        invariant Ledger() && OnView(w, started) && PassOk(registry.dependencies, w, total, clock.now, firstError)
        invariant w.layers == layers && w.before == old(Active()) && w.base == old(log) && w.seen == Above(layers, n)
        invariant layers == [] ==> w.events == []
      {
        n := n - 1;
        started, firstError, w := StopLayer(n, layers, total, started, firstError, w);
      }
    }

    /** The host's cleanup loop: shutdown passes with growing pauses until nothing is active, the
        cleanup deadline has passed, or requests are still in flight or the timer fails. What remains is what
        the services stuck in the last pass retain of everything that was active. */
    method Finish(shutdown: Deadline, reserve: nat)
      returns (interrupted: bool, retained: bool, ghost run: CleanupRun)
      requires Valid() && shutdown.At?
      modifies this`serviceStarted, this`log, this`lastFailure, this`startedLayers, clock
      ensures Valid() && old(clock.now) <= run.started <= clock.now
      ensures run.cleanup == CleanupDeadline(shutdown, reserve, old(clock.now), run.started)
      ensures log == old(log) + run.events && WithinBudget(run.events, run.cleanup)
      ensures Active() == Retained(registry.dependencies, old(Active()), run.stuck)
      ensures run.Accounts(registry.dependencies, old(Active()))
      ensures retained <==> Active() != {}
      ensures retained && !interrupted ==> run.cleanup.Expired(clock.now)
    {
      var before := clock.now;
      clock.Elapse();
      var limit := CleanupDeadline(shutdown, reserve, before, clock.now);
      interrupted := false;
      run := CleanupRun(limit, clock.now, [], Active(), None);
      CleaningStarts(run);
      var pause := 1;
      clock.Elapse();
      while Active() != {} && !limit.Expired(clock.now) && !interrupted
        invariant run.cleanup == limit && old(clock.now) <= run.started <= clock.now && 1 <= pause <= 20
        invariant limit == CleanupDeadline(shutdown, reserve, old(clock.now), run.started)
        invariant Cleaning(run, old(Active()), old(log))
        decreases limit.time - clock.now, !interrupted
      {
        var inFlight: bool := *;
        if inFlight {
          interrupted := true;
          break;
        }
        run := CleanupPass(run, limit, old(Active()), old(log));
        if Active() == {} {
          break;
        }
        interrupted := Pause(limit, pause);
        pause := if pause * 2 < 20 then pause * 2 else 20;
      }
      retained := Active() != {};
      CleaningMeans(run, old(Active()), old(log));
    }

    /** The cleanup so far. */
    ghost predicate CleanedUp(run: CleanupRun, initial: set<ServiceKey>, base: seq<Event>)
      reads this, registry
    {
      && Valid() && log == base + run.events && WithinBudget(run.events, run.cleanup)
      && Active() == Retained(registry.dependencies, initial, run.stuck) && run.stuck <= Active()
      && run.Accounts(registry.dependencies, initial)
    }

    /** The same, unfolded only where `CleanedUp` is named. */
    ghost predicate Cleaning(run: CleanupRun, initial: set<ServiceKey>, base: seq<Event>)
      reads this, registry
    {
      forall r :: r == run ==> CleanedUp(r, initial, base)
    }

    lemma {:induction false} CleaningStarts(run: CleanupRun)
      requires Valid() && run.events == [] && run.stuck == Active() && run.last.None?
      ensures Cleaning(run, Active(), log)
    {
      AllStuckAllRetained(registry.dependencies, Active());
      assert log + [] == log;
      assert CleanedUp(run, Active(), log);
    }

    lemma {:induction false} CleaningMeans(run: CleanupRun, initial: set<ServiceKey>, base: seq<Event>)
      requires Cleaning(run, initial, base)
      ensures CleanedUp(run, initial, base)
    {
    }

    /** One pass of the cleanup loop. */
    method CleanupPass(ghost run: CleanupRun, limit: Deadline, ghost initial: set<ServiceKey>, ghost base: seq<Event>)
      returns (ghost next: CleanupRun)
      requires Cleaning(run, initial, base) && run.cleanup == limit
      modifies this`serviceStarted, this`log, this`lastFailure, this`startedLayers, clock
      ensures clock.now >= old(clock.now)
      ensures next.cleanup == run.cleanup && next.started == run.started && Cleaning(next, initial, base)
    {
      CleaningMeans(run, initial, base);
      ghost var held := Active();
      var joined: Option<ErrorCode> := *;
      var stopped;
      ghost var total, stuck, pass;
      stopped, total, stuck, pass := Stop(limit, joined);
      SecondPass(registry.dependencies, initial, run.stuck, held, stuck, Active());
      AppendAssociates(base, run.events, pass);
      next := run.After(pass, total, stuck, clock.now);
      AccountsAfter(registry.dependencies, run, initial, pass, total, stuck, clock.now);
      assert CleanedUp(next, initial, base);
    }

    /** Waits before the next pass, no longer than to the deadline. */
    method Pause(limit: Deadline, pause: nat) returns (failed: bool)
      requires limit.At? && pause > 0
      modifies clock
      ensures clock.now >= old(clock.now)
      ensures !failed && !limit.Expired(old(clock.now)) ==> clock.now > old(clock.now)
    {
      var remaining := limit.Remaining(clock.now).value;
      var waited := clock.Wait(if remaining < pause then remaining else pause);
      failed := !waited;
    }
  }

  /** The events of a pass, its deadline and when it ended. */
  datatype LastPass = LastPass(events: seq<Event>, total: Deadline, ended: int)

  /** A cleanup under way: its deadline, when it was set, all events, and the last pass with what was stuck in it. */
  datatype CleanupRun = CleanupRun(cleanup: Deadline, started: int, events: seq<Event>, stuck: set<ServiceKey>, last: Option<LastPass>)
  {
    /** Without a pass everything is stuck; otherwise the events of the last pass account for what is. */
    ghost predicate Accounts(g: Graph, initial: set<ServiceKey>) {
      if last.None? then events == [] && stuck == initial
      else
        && |last.value.events| <= |events| && events[|events| - |last.value.events|..] == last.value.events
        && last.value.total.NoLaterThan(cleanup)
        && (Orderable(g) ==> PassLog(last.value.events, stuck, last.value.total, last.value.ended))
        && (!Orderable(g) ==> stuck == initial)
    }

    ghost function After(pass: seq<Event>, total: Deadline, stuck: set<ServiceKey>, now: int): CleanupRun {
      this.(events := events + pass, stuck := stuck, last := Some(LastPass(pass, total, now)))
    }
  }

  lemma {:induction false} AccountsAfter(g: Graph, run: CleanupRun, initial: set<ServiceKey>, pass: seq<Event>, total: Deadline,
                                         stuck: set<ServiceKey>, now: int)
    requires run.Accounts(g, initial) && WithinBudget(run.events, run.cleanup) && total.NoLaterThan(run.cleanup)
    requires Orderable(g) ==> PassLog(pass, stuck, total, now)
    requires !Orderable(g) ==> stuck == Retained(g, initial, run.stuck) && pass == []
    ensures run.After(pass, total, stuck, now).Accounts(g, initial)
    ensures WithinBudget(run.events + pass, run.cleanup)
  {
    AllStuckAllRetained(g, initial);
    assert (run.events + pass)[|run.events|..] == pass;
  }
}
