/** The component container: caches, resolution stack and creation order, updated in place. */
module Components {
  import opened Runtime
  import opened Ordering
  import opened Resolution

  // The functions of `Resolution` give these results. Stated so that they unfold only where they are named.

  ghost predicate Resolves(c: Catalog, log: Log, stack: seq<ComponentKey>, q: Request, loop: Option<Loop>, r: Resolved) {
    forall x :: x == q ==> Resolution.Resolve(c, log, stack, x, loop) == r
  }

  ghost predicate Constructs(c: Catalog, log: Log, stack: seq<ComponentKey>, key: ComponentKey, loop: Option<Loop>, r: Resolved) {
    forall k :: k == key ==> Resolution.Construct(c, log, stack, k, loop) == r
  }

  /** Gathering from `now` with the requests from `i` on comes to the same as gathering all of them from `before`. */
  ghost predicate Continues(c: Catalog, before: Log, now: Log, stack: seq<ComponentKey>, requests: seq<Request>, i: nat,
                            loop: Option<Loop>, received: seq<Option<Instance>>)
    requires i <= |requests|
  {
    forall rs :: rs == requests ==>
      Gather(c, before, stack, rs, loop, []) == Gather(c, now, stack, requests[i..], loop, received)
  }

  lemma {:induction false} ContinuesFromStart(c: Catalog, log: Log, stack: seq<ComponentKey>, requests: seq<Request>, loop: Option<Loop>)
    ensures Continues(c, log, log, stack, requests, 0, loop, [])
  {
    assert requests[0..] == requests;
  }

  lemma {:induction false} ContinuesWith(c: Catalog, before: Log, now: Log, stack: seq<ComponentKey>, requests: seq<Request>, i: nat,
                                         loop: Option<Loop>, received: seq<Option<Instance>>, r: Resolved)
    requires i < |requests| && Continues(c, before, now, stack, requests, i, loop, received)
    requires Resolves(c, now, stack, requests[i], loop, r)
    ensures r.Answer? ==> Continues(c, before, r.log, stack, requests, i + 1, loop, received + [r.instance])
    ensures r.Failed? ==> Gather(c, before, stack, requests, loop, []) == Stopped(r.error)
  {
    assert requests[i..][0] == requests[i] && requests[i..][1..] == requests[i + 1..];
    assert Resolution.Resolve(c, now, stack, requests[i], loop) == r;
  }

  lemma {:induction false} GatherEnds(c: Catalog, before: Log, now: Log, stack: seq<ComponentKey>, requests: seq<Request>,
                                      loop: Option<Loop>, received: seq<Option<Instance>>)
    requires Continues(c, before, now, stack, requests, |requests|, loop, received)
    ensures Gather(c, before, stack, requests, loop, []) == Gathered(now, received)
  {
    assert requests[|requests|..] == [];
  }

  /** The end of a construction whose requests were gathered. */
  lemma {:induction false} ConstructEnds(c: Catalog, log: Log, stack: seq<ComponentKey>, key: ComponentKey, loop: Option<Loop>, g: Gathering)
    requires Gather(c, log, stack, c.Requests(key), loop, []) == g
    ensures g.Stopped? ==> Constructs(c, log, stack, key, loop, Failed(g.error))
    ensures g.Gathered? && c.ProductOf(key).Throws? ==> Constructs(c, log, stack, key, loop, Failed(FactoryFailed(key)))
    ensures g.Gathered? && c.ProductOf(key).ReturnsNull? ==> Constructs(c, log, stack, key, loop, Failed(FactoryNull(key)))
    ensures g.Gathered? && c.ProductOf(key).Creates? ==>
      Constructs(c, log, stack, key, loop, Answer(g.log + [Creation(c.Slot(key, loop), loop, g.received)], Some(c.Slot(key, loop))))
  {
  }

  lemma {:induction false} ResolveConstructs(c: Catalog, log: Log, stack: seq<ComponentKey>, q: Request, loop: Option<Loop>, r: Resolved)
    requires !Has(log, Made(q.key, None)) && q.key !in stack && c.Fits(q.key, loop) && !Has(log, c.Slot(q.key, loop))
    requires Constructs(c, log, stack + [q.key], q.key, loop, r)
    ensures Resolves(c, log, stack, q, loop, r)
  {
    assert Resolution.Construct(c, log, stack + [q.key], q.key, loop) == r;
  }

  function InstancesOf(log: Log): seq<Instance> {
    seq(|log|, i requires 0 <= i < |log| => log[i].instance)
  }

  type Singletons = map<ComponentKey, Instance>

  type LoopLocals = map<(ComponentKey, Loop), Instance>

  /** The caches hold exactly what the log created. */
  ghost predicate Caches(singletons: Singletons, loopLocals: LoopLocals, log: Log) {
    && (forall k :: (k in singletons <==> Has(log, Made(k, None))) && (k in singletons ==> singletons[k] == Made(k, None)))
    && (forall k, l :: ((k, l) in loopLocals <==> Has(log, Made(k, Some(l)))) && ((k, l) in loopLocals ==> loopLocals[(k, l)] == Made(k, Some(l))))
  }

  lemma {:induction false} CachedOnLoop(singletons: Singletons, loopLocals: LoopLocals, log: Log, k: ComponentKey, l: Loop)
    requires Caches(singletons, loopLocals, log)
    ensures (k, l) in loopLocals <==> Has(log, Made(k, Some(l)))
    ensures (k, l) in loopLocals ==> loopLocals[(k, l)] == Made(k, Some(l))
  {
  }

  lemma {:induction false} HasOneMore(log: Log, e: Creation, x: Instance)
    ensures Has(log + [e], x) <==> Has(log, x) || x == e.instance
  {
    assert (log + [e])[|log|] == e;
    assert forall i :: 0 <= i < |log| ==> (log + [e])[i] == log[i];
  }

  lemma {:induction false} CacheSingleton(singletons: Singletons, loopLocals: LoopLocals, log: Log, e: Creation, k: ComponentKey)
    requires Caches(singletons, loopLocals, log) && e.instance == Made(k, None)
    ensures Caches(singletons[k := e.instance], loopLocals, log + [e])
  {
    forall x ensures Has(log + [e], x) <==> Has(log, x) || x == e.instance {
      HasOneMore(log, e, x);
    }
  }

  lemma {:induction false} CacheLoopLocal(singletons: Singletons, loopLocals: LoopLocals, log: Log, e: Creation, k: ComponentKey, l: Loop)
    requires Caches(singletons, loopLocals, log) && e.instance == Made(k, Some(l))
    ensures Caches(singletons, loopLocals[(k, l) := e.instance], log + [e])
  {
    forall x ensures Has(log + [e], x) <==> Has(log, x) || x == e.instance {
      HasOneMore(log, e, x);
    }
  }

  class Container {
    const catalog: Catalog
    var instances: Singletons
    var loopInstances: LoopLocals
    var creationOrder: seq<Instance>
    var resolving: seq<ComponentKey>
    ghost var log: Log

    /** Caches and creation order say what the log says. */
    ghost predicate Valid()
      reads this`instances, this`loopInstances, this`creationOrder, this`log
    {
      creationOrder == InstancesOf(log) && Caches(instances, loopInstances, log)
    }

    constructor (catalog: Catalog)
      ensures Valid() && this.catalog == catalog && log == [] && resolving == []
    {
      this.catalog := catalog;
      instances, loopInstances, creationOrder, resolving, log := map[], map[], [], [], [];
    }

    /** Resolves one binding, constructing it and everything it asks for when needed. */
    method Resolve(q: Request, loop: Option<Loop>) returns (failure: Option<BuildError>, instance: Option<Instance>)
      requires Valid()
      modifies this
      ensures failure.None? ==> Valid() && resolving == old(resolving)
      ensures failure.None? ==> Resolves(catalog, old(log), old(resolving), q, loop, Answer(log, instance))
      ensures failure.Some? ==> Resolves(catalog, old(log), old(resolving), q, loop, Failed(failure.value))
      decreases catalog.index.Keys - Elements(resolving), 0
    {
      failure, instance := None, None;
      if q.key in instances {
        return None, Some(instances[q.key]);
      }
      if q.key !in catalog.index {
        if q.key in catalog.provided {
          return None, Some(External(q.key));
        }
        return if q.required then Some(NotRegistered(q.key)) else None, None;
      }
      if q.key in resolving {
        return Some(Cycle(resolving + [q.key])), None;
      }
      if catalog.LoopLocal(q.key) {
        if !catalog.OnLoop(loop) {
          return if q.required then Some(OutsideLoop(q.key)) else None, None;
        }
        CachedOnLoop(instances, loopInstances, log, q.key, loop.value);
        assert catalog.Slot(q.key, loop) == Made(q.key, Some(loop.value));
        if (q.key, loop.value) in loopInstances {
          return None, Some(loopInstances[(q.key, loop.value)]);
        }
      }
      assert !Has(log, catalog.Slot(q.key, loop));
      ghost var outer := resolving;
      assert q.key in catalog.index.Keys - Elements(outer);
      assert q.key in Elements(outer + [q.key]) && Elements(outer) <= Elements(outer + [q.key]);
      resolving := resolving + [q.key];
      failure, instance := Construct(q.key, loop);
      ResolveConstructs(catalog, old(log), outer, q, loop, if failure.Some? then Failed(failure.value) else Answer(log, instance));
      if failure.None? {
        assert resolving[..|resolving| - 1] == outer;
        resolving := resolving[..|resolving| - 1];
      }
    }

    /** Runs a factory: its requests in order, then its product. */
    method Construct(key: ComponentKey, loop: Option<Loop>) returns (failure: Option<BuildError>, instance: Option<Instance>)
      requires Valid() && catalog.Fits(key, loop)
      modifies this
      ensures failure.None? ==> Valid() && resolving == old(resolving)
      ensures failure.None? ==> Constructs(catalog, old(log), old(resolving), key, loop, Answer(log, instance))
      ensures failure.Some? ==> Constructs(catalog, old(log), old(resolving), key, loop, Failed(failure.value))
      decreases catalog.index.Keys - Elements(resolving), 1
    {
      var requests := catalog.Requests(key);
      ghost var stack := resolving;
      ghost var received := [];
      ContinuesFromStart(catalog, log, stack, requests, loop);
      for i := 0 to |requests|
        invariant Valid() && resolving == stack
        invariant Continues(catalog, old(log), log, stack, requests, i, loop, received)
      {
        ghost var before := log;
        var error, answer := Resolve(requests[i], loop);
        ContinuesWith(catalog, old(log), before, stack, requests, i, loop, received, if error.Some? then Failed(error.value) else Answer(log, answer));
        if error.Some? {
          ConstructEnds(catalog, old(log), stack, key, loop, Stopped(error.value));
          return error, None;
        }
        received := received + [answer];
      }
      GatherEnds(catalog, old(log), log, stack, requests, loop, received);
      ConstructEnds(catalog, old(log), stack, key, loop, Gathered(log, received));
      match catalog.ProductOf(key)
      case Throws => return Some(FactoryFailed(key)), None;
      case ReturnsNull => return Some(FactoryNull(key)), None;
      case Creates =>
        Store(key, loop, received);
        return None, Some(catalog.Slot(key, loop));
    }

    /** Caches a finished component and puts it last in the creation order. */
    method Store(key: ComponentKey, loop: Option<Loop>, ghost received: seq<Option<Instance>>)
      requires Valid() && catalog.Fits(key, loop)
      modifies this`instances, this`loopInstances, this`creationOrder, this`log
      ensures Valid() && log == old(log) + [Creation(catalog.Slot(key, loop), loop, received)]
    {
      var created := catalog.Slot(key, loop);
      ghost var entry := Creation(created, loop, received);
      if catalog.LoopLocal(key) {
        assert created == Made(key, Some(loop.value));
        CacheLoopLocal(instances, loopInstances, log, entry, key, loop.value);
        loopInstances := loopInstances[(key, loop.value) := created];
      } else {
        CacheSingleton(instances, loopInstances, log, entry, key);
        instances := instances[key := created];
      }
      creationOrder := creationOrder + [created];
      log := log + [entry];
    }

    /** Builds a loop-local component for every loop. */
    method PopulateLoops(key: ComponentKey) returns (failure: Option<BuildError>)
      requires Valid() && resolving == []
      modifies this
      ensures failure.None? ==> Valid() && resolving == [] && BuildOnLoops(catalog, old(log), key, catalog.loops) == Complete(log)
      ensures failure.Some? ==> BuildOnLoops(catalog, old(log), key, catalog.loops) == Rejected(failure.value)
    {
      var loops := catalog.loops;
      assert loops[0..] == loops;
      for i := 0 to |loops|
        invariant Valid() && resolving == []
        invariant BuildOnLoops(catalog, old(log), key, loops) == BuildOnLoops(catalog, log, key, loops[i..])
      {
        assert loops[i..][0] == loops[i] && loops[i..][1..] == loops[i + 1..];
        ghost var before := log;
        var instance;
        failure, instance := Resolve(Request(key, true), Some(loops[i]));
        ResolvedAs(catalog, before, Request(key, true), Some(loops[i]), if failure.Some? then Failed(failure.value) else Answer(log, instance));
        if failure.Some? {
          return;
        }
      }
      assert loops[|loops|..] == [];
      failure := None;
    }

    method PopulateOne(item: Registration) returns (failure: Option<BuildError>)
      requires Valid() && resolving == []
      modifies this
      ensures failure.None? ==> Valid() && resolving == [] && BuildOne(catalog, old(log), item) == Complete(log)
      ensures failure.Some? ==> BuildOne(catalog, old(log), item) == Rejected(failure.value)
    {
      if item.scope == Singleton {
        var instance;
        failure, instance := Resolve(Request(item.key, true), None);
        ResolvedAs(catalog, old(log), Request(item.key, true), None, if failure.Some? then Failed(failure.value) else Answer(log, instance));
      } else if catalog.loops == [] {
        return Some(NeedsEventLoops(item.key));
      } else {
        failure := PopulateLoops(item.key);
      }
    }

    /** Constructs every registration eagerly. */
    method Populate(registrations: seq<Registration>) returns (failure: Option<BuildError>)
      requires Valid() && resolving == []
      modifies this
      ensures failure.None? ==> Valid() && resolving == [] && BuildAll(catalog, old(log), registrations) == Complete(log)
      ensures failure.Some? ==> BuildAll(catalog, old(log), registrations) == Rejected(failure.value)
    {
      assert registrations[0..] == registrations;
      for i := 0 to |registrations|
        invariant Valid() && resolving == []
        invariant BuildAll(catalog, old(log), registrations) == BuildAll(catalog, log, registrations[i..])
      {
        assert registrations[i..][0] == registrations[i] && registrations[i..][1..] == registrations[i + 1..];
        failure := PopulateOne(registrations[i]);
        if failure.Some? {
          return;
        }
      }
      assert registrations[|registrations|..] == [];
      failure := None;
    }

    /** Releases components newest first. */
    method Destroy() returns (destroyed: seq<Instance>)
      requires Valid()
      modifies this
      ensures Valid() && creationOrder == [] && instances == map[] && loopInstances == map[]
      ensures |destroyed| == |old(log)|
      ensures forall m :: 0 <= m < |destroyed| ==> destroyed[|destroyed| - 1 - m] == old(log)[m].instance
    {
      ghost var order := creationOrder;
      instances, loopInstances, log, destroyed := map[], map[], [], [];
      while creationOrder != []
        invariant |creationOrder| + |destroyed| == |order| && creationOrder == order[..|creationOrder|]
        invariant forall i :: 0 <= i < |destroyed| ==> destroyed[i] == order[|order| - 1 - i]
        invariant instances == map[] && loopInstances == map[] && log == []
        decreases |creationOrder|
      {
        destroyed := destroyed + [creationOrder[|creationOrder| - 1]];
        creationOrder := creationOrder[..|creationOrder| - 1];
      }
    }
  }

  lemma {:induction false} ResolvedAs(c: Catalog, log: Log, q: Request, loop: Option<Loop>, r: Resolved)
    requires Resolves(c, log, [], q, loop, r)
    ensures Resolution.Resolve(c, log, [], q, loop) == r
  {
  }

  /** Indexes the registrations, rejecting a missing factory and a repeated binding. */
  method IndexAll(registrations: seq<Registration>) returns (failure: Option<BuildError>, index: map<ComponentKey, Registration>)
    ensures failure == IndexFault(registrations)
    ensures failure.None? ==> index == IndexOf(registrations)
  {
    index := map[];
    for i := 0 to |registrations|
      invariant IndexFault(registrations[..i]).None? && index == IndexOf(registrations[..i])
    {
      var item := registrations[i];
      IndexStep(registrations, i);
      if item.factory.None? {
        FaultStays(registrations, i + 1);
        return Some(NoFactory(item.key)), index;
      }
      if item.key in index {
        FaultStays(registrations, i + 1);
        return Some(Duplicate(item.key)), index;
      }
      index := index[item.key := item];
    }
    TakeAll(registrations);
    return None, index;
  }

  lemma {:induction false} IndexStep(registrations: seq<Registration>, i: nat)
    requires i < |registrations| && IndexFault(registrations[..i]).None?
    ensures var item := registrations[i];
      && IndexOf(registrations[..i + 1]) == IndexOf(registrations[..i])[item.key := item]
      && IndexFault(registrations[..i + 1]) ==
           if item.factory.None? then Some(NoFactory(item.key))
           else if item.key in IndexOf(registrations[..i]) then Some(Duplicate(item.key)) else None
  {
    var before, more := registrations[..i], registrations[..i + 1];
    assert more[..i] == before && more[i] == registrations[i];
    KeyIsIndexed(before, registrations[i].key);
    assert forall j :: 0 <= j < i ==> more[j] == before[j];
  }

  lemma {:induction false} KeyIsIndexed(registrations: seq<Registration>, key: ComponentKey)
    requires IndexFault(registrations).None?
    ensures key in IndexOf(registrations) <==> exists j :: 0 <= j < |registrations| && registrations[j].key == key
  {
    IndexIsExact(registrations);
    forall j | 0 <= j < |registrations| ensures registrations[j].key in IndexOf(registrations) {
      assert registrations[j] in registrations;
    }
  }

  lemma {:induction false} FaultStays(registrations: seq<Registration>, n: nat)
    requires n <= |registrations| && IndexFault(registrations[..n]).Some?
    ensures IndexFault(registrations) == IndexFault(registrations[..n])
    decreases |registrations|
  {
    if n == |registrations| {
      TakeAll(registrations);
    } else {
      var before := registrations[..|registrations| - 1];
      assert before[..n] == registrations[..n];
      FaultStays(before, n);
    }
  }

  /** Builds a container from a collection: it computes `BuildOf`, and so it succeeds or fails for the reasons
      proved of that. */
  method Build(registrations: seq<Registration>, loops: seq<Loop>, provided: set<ComponentKey>)
    returns (failure: Option<BuildError>, container: Container?)
    ensures failure.None? <==> container != null
    ensures container != null ==> fresh(container) && container.Valid() && container.resolving == []
    ensures container != null ==> container.catalog == CatalogOf(registrations, loops, provided)
    ensures container != null ==> BuildOf(registrations, loops, provided) == Complete(container.log)
    ensures container != null ==>
      WellBuilt(container.catalog, container.log) && AllBuilt(container.catalog, container.log, registrations)
    ensures failure.Some? ==> BuildOf(registrations, loops, provided) == Rejected(failure.value)
    ensures failure.Some? ==>
      FaultOf(registrations, failure.value) || Explains(CatalogOf(registrations, loops, provided), failure.value)
    ensures Buildable(registrations, loops, provided) ==> failure.None?
    ensures AllSingletons(registrations) ==> (failure.None? <==> Buildable(registrations, loops, provided))
  {
    BuildIsSound(registrations, loops, provided);
    if Buildable(registrations, loops, provided) {
      BuildableBuilds(registrations, loops, provided);
    }
    if AllSingletons(registrations) {
      SingletonsBuild(registrations, loops, provided);
    }
    var index;
    failure, index := IndexAll(registrations);
    if failure.Some? {
      return failure, null;
    }
    container := new Container(Catalog(index, loops, provided));
    failure := container.Populate(registrations);
    if failure.Some? {
      container := null;
    }
  }
}
