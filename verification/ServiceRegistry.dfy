/** The registry of managed services and its layering of their dependency graph. */
module ServiceRegistry {
  import opened Runtime
  import opened Ordering
  import opened DependencyGraph

  datatype ManagedService = ManagedService(
    key: ServiceKey, dependencies: seq<ServiceKey>, requirement: Requirement, recovery: RecoveryPolicy)
  {
    predicate WellFormed() { key.name != [] && key.instance != [] && recovery.Valid() }
  }

  /** The entries a hash map of lists holds for a key, none when it is absent. */
  function Listed(m: Graph, k: ServiceKey): seq<ServiceKey> {
    if k in m then m[k] else []
  }

  /** How many entries of `deps` are not in `done`. */
  ghost function Remaining(deps: seq<ServiceKey>, done: set<ServiceKey>): nat {
    if deps == [] then 0
    else Remaining(deps[..|deps| - 1], done) + (if deps[|deps| - 1] in done then 0 else 1)
  }

  lemma {:induction false} RemainingAfter(deps: seq<ServiceKey>, done: set<ServiceKey>, k: ServiceKey)
    requires k !in done
    ensures Remaining(deps, done) == Remaining(deps, done + {k}) + Count(deps, k)
  {
    if deps != [] {
      RemainingAfter(deps[..|deps| - 1], done, k);
    }
  }

  lemma {:induction false} RemainingNone(deps: seq<ServiceKey>, done: set<ServiceKey>)
    ensures Remaining(deps, done) == 0 <==> forall d :: d in deps ==> d in done
  {
    if deps != [] {
      var n := |deps| - 1;
      RemainingNone(deps[..n], done);
      assert deps == deps[..n] + [deps[n]];
    }
  }

  lemma {:induction false} RemainingAll(deps: seq<ServiceKey>)
    ensures Remaining(deps, {}) == |deps|
  {
    if deps != [] {
      RemainingAll(deps[..|deps| - 1]);
    }
  }

  /** How often `k` names `d`, for the keys already read. */
  ghost function EdgeCount(g: Graph, seen: set<ServiceKey>, d: ServiceKey, k: ServiceKey): nat {
    if k in seen && k in g then Count(g[k], d) else 0
  }

  /** `dependents` lists `k` under `d` once for every time `k` names `d`. */
  ghost predicate ReversesEdges(g: Graph, dependents: Graph, seen: set<ServiceKey>) {
    forall d, k :: Count(Listed(dependents, d), k) == EdgeCount(g, seen, d, k)
  }

  /** As `ReversesEdges`, with the edges in `handled` recorded as well for the key being read. */
  ghost predicate PartlyReversed(g: Graph, dependents: Graph, seen: set<ServiceKey>,
                                 key: ServiceKey, handled: seq<ServiceKey>) {
    forall d, k :: Count(Listed(dependents, d), k) ==
      EdgeCount(g, seen, d, k) + (if k == key then Count(handled, d) else 0)
  }

  lemma {:induction false} EdgeRecorded(g: Graph, dependents: Graph, seen: set<ServiceKey>,
                                        key: ServiceKey, handled: seq<ServiceKey>, dep: ServiceKey)
    requires PartlyReversed(g, dependents, seen, key, handled)
    ensures PartlyReversed(g, dependents[dep := Listed(dependents, dep) + [key]], seen, key, handled + [dep])
  {
  }

  /** In-degrees count what is left to place. */
  ghost predicate CountsRemaining(g: Graph, indegree: map<ServiceKey, nat>, done: set<ServiceKey>) {
    indegree.Keys == g.Keys && forall k :: k in g ==> indegree[k] == Remaining(g[k], done)
  }

  /** `ready` is exactly the unplaced keys with nothing left to wait for, and nothing placed waits. */
  ghost predicate IsFrontier(g: Graph, ready: seq<ServiceKey>, done: set<ServiceKey>) {
    && Distinct(ready) && done <= g.Keys
    && (forall k :: k in ready <==> k in g && k !in done && Remaining(g[k], done) == 0)
    && (forall k :: k in done ==> Remaining(g[k], done) == 0)
  }

  /** One pass over a finished layer: every dependent loses one degree per edge, and those that
      reach zero form the next layer. The map keeps natural numbers, so no degree underflows. */
  method ReleaseDependents(ghost g: Graph, ready: seq<ServiceKey>, dependents: Graph,
                           indegree: map<ServiceKey, nat>, ghost done: set<ServiceKey>)
    returns (degrees: map<ServiceKey, nat>, next: seq<ServiceKey>)
    requires Closed(g) && ReversesEdges(g, dependents, g.Keys)
    requires CountsRemaining(g, indegree, done) && IsFrontier(g, ready, done)
    ensures CountsRemaining(g, degrees, done + Elements(ready))
    ensures IsFrontier(g, next, done + Elements(ready))
    ensures forall k :: k in next ==> DependsOnSome(g, k, ready)
  {
    degrees, next := indegree, [];
    ghost var before := done;
    for i := 0 to |ready|
      invariant forall k :: k in before <==> k in done || k in ready[..i]
      invariant CountsRemaining(g, degrees, before) && Reached(g, degrees, done, next)
    {
      assert ready[i] !in done && ready[i] !in ready[..i];
      TakeOne(ready, i);
      degrees, next := ReleaseOne(g, ready[i], dependents, degrees, next, done, before);
      before := before + {ready[i]};
    }
    TakeAll(ready);
    assert before == done + Elements(ready);
    FrontierAdvances(g, ready, next, degrees, done);
  }

  /** Walks the dependents of one placed key. */
  method ReleaseOne(ghost g: Graph, key: ServiceKey, dependents: Graph, indegree: map<ServiceKey, nat>,
                    reached: seq<ServiceKey>, ghost done: set<ServiceKey>, ghost before: set<ServiceKey>)
    returns (degrees: map<ServiceKey, nat>, next: seq<ServiceKey>)
    requires ReversesEdges(g, dependents, g.Keys) && done <= before && key !in before
    requires CountsRemaining(g, indegree, before) && Reached(g, indegree, done, reached)
    ensures CountsRemaining(g, degrees, before + {key}) && Reached(g, degrees, done, next)
  {
    degrees, next := indegree, reached;
    var edges := Listed(dependents, key);
    for j := 0 to |edges|
      invariant PartlyReleased(g, degrees, edges[..j], before) && Reached(g, degrees, done, next)
    {
      var dependent := edges[j];
      DegreePositive(g, dependents, key, before, j);
      RemainingShrinks(g[dependent], done, before);
      TakeOne(edges, j);
      ReleasedEdge(g, degrees, edges[..j], dependent, before);
      degrees := degrees[dependent := degrees[dependent] - 1];
      if degrees[dependent] == 0 {
        next := next + [dependent];
      }
    }
    TakeAll(edges);
    forall k | k in g ensures degrees[k] == Remaining(g[k], before + {key}) {
      assert Count(edges, k) == EdgeCount(g, g.Keys, key, k);
      RemainingAfter(g[k], before, key);
    }
  }

  /** The edges in `handled` have been taken off the degrees that `before` leaves. */
  ghost predicate PartlyReleased(g: Graph, degrees: map<ServiceKey, nat>, handled: seq<ServiceKey>, before: set<ServiceKey>) {
    && degrees.Keys == g.Keys
    && forall k :: k in g ==> degrees[k] + Count(handled, k) == Remaining(g[k], before)
  }

  lemma {:induction false} ReleasedEdge(g: Graph, degrees: map<ServiceKey, nat>, handled: seq<ServiceKey>,
                                        k: ServiceKey, before: set<ServiceKey>)
    requires PartlyReleased(g, degrees, handled, before) && k in g && degrees[k] > 0
    ensures PartlyReleased(g, degrees[k := degrees[k] - 1], handled + [k], before)
  {
  }

  lemma {:induction false} RemainingShrinks(deps: seq<ServiceKey>, less: set<ServiceKey>, more: set<ServiceKey>)
    requires less <= more
    ensures Remaining(deps, more) <= Remaining(deps, less)
  {
    if deps != [] {
      RemainingShrinks(deps[..|deps| - 1], less, more);
    }
  }

  /** The keys released so far in this round. */
  ghost predicate Reached(g: Graph, degrees: map<ServiceKey, nat>, done: set<ServiceKey>, next: seq<ServiceKey>)
    requires degrees.Keys == g.Keys
  {
    && Distinct(next)
    && forall k :: k in next <==> k in g && degrees[k] == 0 && Remaining(g[k], done) > 0
  }

  lemma {:induction false} DegreePositive(g: Graph, dependents: Graph, key: ServiceKey, before: set<ServiceKey>, j: nat)
    requires ReversesEdges(g, dependents, g.Keys) && key !in before && j < |Listed(dependents, key)|
    ensures Listed(dependents, key)[j] in g
    ensures Count(Listed(dependents, key)[..j], Listed(dependents, key)[j])
            < Remaining(g[Listed(dependents, key)[j]], before)
  {
    var edges := Listed(dependents, key);
    var k := edges[j];
    TakeOne(edges, j);
    CountAppend(edges[..j], k, k);
    CountPrefix(edges, j + 1, |edges|, k);
    TakeAll(edges);
    assert EdgeCount(g, g.Keys, key, k) > 0;
    RemainingAfter(g[k], before, key);
  }

  lemma {:induction false} FrontierAdvances(g: Graph, ready: seq<ServiceKey>, next: seq<ServiceKey>,
                                            degrees: map<ServiceKey, nat>, done: set<ServiceKey>)
    requires IsFrontier(g, ready, done)
    requires CountsRemaining(g, degrees, done + Elements(ready)) && Reached(g, degrees, done, next)
    ensures IsFrontier(g, next, done + Elements(ready))
    ensures forall k :: k in next ==> DependsOnSome(g, k, ready)
  {
    var after := done + Elements(ready);
    forall k | k in g ensures Remaining(g[k], done) == 0 ==> Remaining(g[k], after) == 0 {
      RemainingNone(g[k], done);
      RemainingNone(g[k], after);
    }
    forall k | k in next ensures DependsOnSome(g, k, ready) {
      RemainingNone(g[k], done);
      RemainingNone(g[k], after);
      var d :| d in g[k] && d !in done;
      assert d in ready;
    }
  }

  lemma {:induction false} SortedFrontier(g: Graph, ready: seq<ServiceKey>, done: set<ServiceKey>)
    requires IsFrontier(g, ready, done)
    ensures IsFrontier(g, Sort(NameLeq, ready), done) && Sorted(NameLeq, Sort(NameLeq, ready))
    ensures forall k :: k in Sort(NameLeq, ready) <==> k in ready
    ensures ready != [] ==> Sort(NameLeq, ready) != []
  {
    NameLeqIsTotal();
    SortSorts(NameLeq, ready);
    SortKeepsDistinct(NameLeq, ready);
    SameElements(ready, Sort(NameLeq, ready));
  }

  /** What the layering loop keeps: finished layers are final and rest on each other. */
  ghost predicate Layered(g: Graph, layers: Layers, ready: seq<ServiceKey>) {
    && (forall n :: 0 <= n < |layers| ==> LayerOk(g, layers, n))
    && IsFrontier(g, ready, Below(layers, |layers|))
    && (layers != [] ==> forall k :: k in ready ==> DependsOnSome(g, k, layers[|layers| - 1]))
  }

  /** The keys placed so far and the ready ones make up the keys placed next. */
  lemma {:induction false} BelowPlaced(layers: Layers, ready: seq<ServiceKey>)
    ensures Below(layers + [ready], |layers + [ready]|) == Below(layers, |layers|) + Elements(ready)
  {
    BelowOfPrefix(layers, [ready], |layers|);
    assert (layers + [ready])[|layers|] == ready;
  }

  lemma {:induction false} FrontierCounts(g: Graph, ready: seq<ServiceKey>, done: set<ServiceKey>)
    requires IsFrontier(g, ready, done) && ready != []
    ensures |done + Elements(ready)| == |done| + |ready|
    ensures done < done + Elements(ready) && Elements(ready) <= g.Keys
  {
    DistinctSize(ready);
    assert Elements(ready) !! done && ready[0] in Elements(ready);
  }

  /** Finished layers stay as they are. */
  lemma {:induction false} OldLayerOk(g: Graph, layers: Layers, ready: seq<ServiceKey>, n: nat)
    requires n < |layers| && LayerOk(g, layers, n)
    ensures LayerOk(g, layers + [ready], n)
  {
    BelowOfPrefix(layers, [ready], n);
    assert (layers + [ready])[n] == layers[n];
    assert n > 0 ==> (layers + [ready])[n - 1] == layers[n - 1];
  }

  /** The ready keys make the next layer. */
  lemma {:induction false} NewLayerOk(g: Graph, layers: Layers, ready: seq<ServiceKey>)
    requires Layered(g, layers, ready) && ready != [] && Sorted(NameLeq, ready)
    ensures LayerOk(g, layers + [ready], |layers|)
  {
    var done := Below(layers, |layers|);
    BelowOfPrefix(layers, [ready], |layers|);
    forall k | k in ready ensures DependsOnlyOn(g, k, done) {
      RemainingNone(g[k], done);
    }
  }

  lemma {:induction false} LayerPlaced(g: Graph, layers: Layers, ready: seq<ServiceKey>, next: seq<ServiceKey>)
    requires Layered(g, layers, ready) && ready != [] && Sorted(NameLeq, ready)
    requires IsFrontier(g, next, Below(layers, |layers|) + Elements(ready))
    requires forall k :: k in next ==> DependsOnSome(g, k, ready)
    ensures Layered(g, layers + [ready], next)
  {
    var more := layers + [ready];
    BelowPlaced(layers, ready);
    NewLayerOk(g, layers, ready);
    forall n | 0 <= n < |layers| ensures LayerOk(g, more, n) {
      OldLayerOk(g, layers, ready, n);
    }
  }

  /** When nothing more is ready, either everything is placed or the rest holds a cycle. */
  lemma {:induction false} LayeringOrCycle(g: Graph, layers: Layers)
    requires Closed(g) && Layered(g, layers, [])
    ensures |Below(layers, |layers|)| == |g| ==> IsLayering(g, layers) && !HasCycle(g)
    ensures |Below(layers, |layers|)| != |g| ==> HasCycle(g)
  {
    var done := Below(layers, |layers|);
    if done == g.Keys {
      LayeringExcludesCycles(g, layers);
    } else {
      var rest := g.Keys - done;
      assert g.Keys == done + rest;
      forall k | k in rest ensures !DependsOnlyOn(g, k, g.Keys - rest) {
        assert k !in [];
        assert g.Keys - rest == done;
        RemainingNone(g[k], done);
      }
      StuckSetHasCycle(g, rest);
    }
  }

  /** Sorts the ready keys, appends them as a layer and releases their dependents. */
  method PlaceLayer(ghost g: Graph, ready: seq<ServiceKey>, dependents: Graph, indegree: map<ServiceKey, nat>, layers: Layers)
    returns (degrees: map<ServiceKey, nat>, more: Layers, next: seq<ServiceKey>)
    requires Closed(g) && ReversesEdges(g, dependents, g.Keys) && ready != []
    requires CountsRemaining(g, indegree, Below(layers, |layers|)) && Layered(g, layers, ready)
    ensures CountsRemaining(g, degrees, Below(more, |more|)) && Layered(g, more, next)
    ensures Below(layers, |layers|) < Below(more, |more|) <= g.Keys
    ensures |Below(more, |more|)| == |Below(layers, |layers|)| + |ready|
  {
    SortedFrontier(g, ready, Below(layers, |layers|));
    SameElements(ready, Sort(NameLeq, ready));
    var layer := Sort(NameLeq, ready);
    degrees, next := ReleaseDependents(g, layer, dependents, indegree, Below(layers, |layers|));
    LayerPlaced(g, layers, layer, next);
    BelowPlaced(layers, layer);
    FrontierCounts(g, layer, Below(layers, |layers|));
    more := layers + [layer];
  }

  /** The layering loop: places layer after layer until nothing more is ready. */
  method LayOut(ghost g: Graph, degrees: map<ServiceKey, nat>, dependents: Graph)
    returns (layers: Layers, visited: nat)
    requires Closed(g) && CountsRemaining(g, degrees, {}) && ReversesEdges(g, dependents, g.Keys)
    ensures visited == |g| ==> IsLayering(g, layers) && !HasCycle(g)
    ensures visited != |g| ==> HasCycle(g)
  {
    var indegree := degrees;
    var ready := Enumerate(set k | k in indegree && indegree[k] == 0);
    assert forall k :: k in ready <==> k in Elements(ready);
    layers, visited := [], 0;
    ghost var done := {};
    while ready != []
      invariant done == Below(layers, |layers|) && visited == |done|
      invariant CountsRemaining(g, indegree, done) && Layered(g, layers, ready)
      decreases g.Keys - done
    {
      visited := visited + |ready|;
      indegree, layers, ready := PlaceLayer(g, ready, dependents, indegree, layers);
      done := Below(layers, |layers|);
    }
    LayeringOrCycle(g, layers);
  }

  class Registry {
    var managed: map<ServiceKey, ManagedService>
    var dependencies: Graph
    var frozen: bool

    /** Dependency metadata is kept for exactly the managed keys. */
    ghost predicate Valid()
      reads this
    {
      && managed.Keys == dependencies.Keys
      && forall k :: k in managed ==> managed[k].key == k && managed[k].dependencies == dependencies[k]
    }

    constructor ()
      ensures Valid() && managed == map[] && !frozen
    {
      managed, dependencies, frozen := map[], map[], false;
    }

    method Manage(service: Option<ManagedService>) returns (r: Result<()>)
      requires Valid()
      modifies this
      ensures Valid() && frozen == old(frozen)
      ensures r.Ok? <==>
        !old(frozen) && service.Some? && service.value.WellFormed() && service.value.key !in old(managed)
      ensures r.Ok? ==> managed == old(managed)[service.value.key := service.value]
      ensures r.Err? ==> managed == old(managed) && dependencies == old(dependencies)
      ensures r == Err(NotPermitted) <==> old(frozen)
      ensures r == Err(FileExists) <==>
        !old(frozen) && service.Some? && service.value.WellFormed() && service.value.key in old(managed)
      ensures r.Err? ==> r.error in {NotPermitted, FileExists, InvalidArgument}
    {
      if frozen {
        return Err(NotPermitted);
      }
      if service.None? {
        return Err(InvalidArgument);
      }
      var s := service.value;
      if !s.WellFormed() {
        return Err(InvalidArgument);
      }
      if s.key in managed {
        return Err(FileExists);
      }
      dependencies := dependencies[s.key := s.dependencies];
      managed := managed[s.key := s];
      return Ok(());
    }

    method Freeze()
      modifies this`frozen
      ensures frozen
    {
      frozen := true;
    }

    /** The graph the layering works on. */
    ghost function ManagedGraph(): Graph
      reads this
    {
      map k | k in managed && k in dependencies :: dependencies[k]
    }

    ghost predicate MetadataComplete()
      reads this
    {
      managed.Keys <= dependencies.Keys
    }

    /** Lists `key` under each of its dependencies; stops at one that is not managed. */
    method RecordEdges(ghost g: Graph, ghost seen: set<ServiceKey>, key: ServiceKey, deps: seq<ServiceKey>, known: Graph)
      returns (ok: bool, dependents: Graph)
      requires key in g && g[key] == deps && key !in seen && ReversesEdges(g, known, seen)
      ensures ok ==> ReversesEdges(g, dependents, seen + {key})
      ensures ok <==> forall d :: d in deps ==> d in managed
    {
      ok, dependents := true, known;
      for j := 0 to |deps|
        invariant forall i :: 0 <= i < j ==> deps[i] in managed
        invariant PartlyReversed(g, dependents, seen, key, deps[..j])
      {
        if deps[j] !in managed {
          ok := false;
          return;
        }
        TakeOne(deps, j);
        EdgeRecorded(g, dependents, seen, key, deps[..j], deps[j]);
        dependents := dependents[deps[j] := Listed(dependents, deps[j]) + [key]];
      }
      TakeAll(deps);
    }

    /** Reads in-degrees and reversed edges, failing on missing metadata or an unmanaged dependency. */
    method CountEdges() returns (r: Result<(map<ServiceKey, nat>, Graph)>)
      ensures r.Ok? ==> MetadataComplete() && Closed(ManagedGraph())
      ensures r.Ok? ==> CountsRemaining(ManagedGraph(), r.value.0, {})
      ensures r.Ok? ==> ReversesEdges(ManagedGraph(), r.value.1, ManagedGraph().Keys)
      ensures r.Err? ==> r.error == StateNotRecoverable || r.error == NoSuchFile
      ensures r == Err(StateNotRecoverable) ==> !MetadataComplete()
      ensures r == Err(NoSuchFile) ==> !Closed(ManagedGraph())
    {
      ghost var g := ManagedGraph();
      var indegree: map<ServiceKey, nat>, dependents: Graph := map[], map[];
      var todo := managed.Keys;
      while todo != {}
        invariant todo <= managed.Keys && managed.Keys - todo <= g.Keys
        invariant indegree.Keys == managed.Keys - todo
        invariant forall k :: k in indegree ==> indegree[k] == |g[k]|
        invariant forall k, d :: k in indegree && d in g[k] ==> d in managed
        invariant ReversesEdges(g, dependents, managed.Keys - todo)
        decreases todo
      {
        var key :| key in todo;
        if key !in dependencies {
          return Err(StateNotRecoverable);
        }
        var deps := dependencies[key];
        indegree := indegree[key := |deps|];
        assert g[key] == deps;
        var recorded;
        recorded, dependents := RecordEdges(g, managed.Keys - todo, key, deps, dependents);
        if !recorded {
          ghost var d :| d in deps && d !in managed;
          assert d in g[key] && d !in g;
          return Err(NoSuchFile);
        }
        assert managed.Keys - (todo - {key}) == managed.Keys - todo + {key};
        todo := todo - {key};
      }
      assert indegree.Keys == managed.Keys == g.Keys;
      forall k | k in g ensures indegree[k] == Remaining(g[k], {}) {
        RemainingAll(g[k]);
      }
      return Ok((indegree, dependents));
    }

    /** Kahn's layering: succeeds with the layering of the graph, or reports why there is none. */
    method ValidateDependencies() returns (r: Result<Layers>)
      ensures r.Ok? ==> MetadataComplete() && Closed(ManagedGraph()) && IsLayering(ManagedGraph(), r.value)
      ensures r == Err(DependencyCycle) <==>
        MetadataComplete() && Closed(ManagedGraph()) && HasCycle(ManagedGraph())
      ensures r == Err(StateNotRecoverable) ==> !MetadataComplete()
      ensures r == Err(NoSuchFile) ==> !Closed(ManagedGraph())
      ensures r.Err? ==> r.error in {DependencyCycle, StateNotRecoverable, NoSuchFile}
    {
      ghost var g := ManagedGraph();
      var counted := CountEdges();
      if counted.Err? {
        return Err(counted.error);
      }
      assert g.Keys == managed.Keys;
      var layers, visited := LayOut(g, counted.value.0, counted.value.1);
      if visited != |managed| {
        return Err(DependencyCycle);
      }
      return Ok(layers);
    }
  }
}
