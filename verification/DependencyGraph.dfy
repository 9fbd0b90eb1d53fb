/** Dependency graphs: cycles, layerings, and why a layering exists exactly without a cycle. */
module DependencyGraph {
  import opened Runtime
  import opened Ordering

  type Graph = map<ServiceKey, seq<ServiceKey>>

  type Layers = seq<seq<ServiceKey>>

  ghost predicate Closed(g: Graph) {
    forall k, d :: k in g && d in g[k] ==> d in g
  }

  predicate DependsOn(g: Graph, k: ServiceKey, d: ServiceKey) {
    k in g && d in g[k]
  }

  /** Every node of `p` lists the next one as a dependency. */
  ghost predicate Chain(g: Graph, p: seq<ServiceKey>) {
    forall i, j :: 0 <= i < j < |p| && j == i + 1 ==> DependsOn(g, p[i], p[j])
  }

  ghost predicate IsCycle(g: Graph, p: seq<ServiceKey>) {
    |p| >= 2 && p[0] == p[|p| - 1] && Chain(g, p)
  }

  ghost predicate HasCycle(g: Graph) {
    exists p :: IsCycle(g, p)
  }

  predicate NameLeq(x: ServiceKey, y: ServiceKey) {
    LexLeq(x.CanonicalName(), y.CanonicalName())
  }

  lemma {:induction false} NameLeqIsTotal()
    ensures TotalPreorder(NameLeq)
  {
    forall x, y ensures NameLeq(x, y) || NameLeq(y, x) {
      LexTotal(x.CanonicalName(), y.CanonicalName());
    }
    forall x, y, z | NameLeq(x, y) && NameLeq(y, z) ensures NameLeq(x, z) {
      LexTransitive(x.CanonicalName(), y.CanonicalName(), z.CanonicalName());
    }
  }

  /** All keys of the first `n` layers. */
  ghost function Below(layers: Layers, n: nat): set<ServiceKey>
    requires n <= |layers|
  {
    if n == 0 then {} else Below(layers, n - 1) + Elements(layers[n - 1])
  }

  ghost predicate DependsOnlyOn(g: Graph, k: ServiceKey, s: set<ServiceKey>)
    requires k in g
  {
    forall d :: d in g[k] ==> d in s
  }

  ghost predicate DependsOnSome(g: Graph, k: ServiceKey, s: seq<ServiceKey>)
    requires k in g
  {
    exists d :: d in g[k] && d in s
  }

  /** Layer `n` holds new keys only, each resting on earlier layers and, past the first layer, on the
      one just before; it is listed by canonical name. */
  ghost predicate LayerOk(g: Graph, layers: Layers, n: nat)
    requires n < |layers|
  {
    && layers[n] != [] && Distinct(layers[n]) && Sorted(NameLeq, layers[n])
    && Elements(layers[n]) !! Below(layers, n)
    && (forall k :: k in layers[n] ==>
          k in g && DependsOnlyOn(g, k, Below(layers, n)) &&
          (n > 0 ==> DependsOnSome(g, k, layers[n - 1])))
  }

  /** A partition of all keys into dependency layers. */
  ghost predicate IsLayering(g: Graph, layers: Layers) {
    && (forall n :: 0 <= n < |layers| ==> LayerOk(g, layers, n))
    && Below(layers, |layers|) == g.Keys
  }

  lemma {:induction false} BelowMonotone(layers: Layers, m: nat, n: nat)
    requires m <= n <= |layers|
    ensures Below(layers, m) <= Below(layers, n)
    decreases n
  {
    if m < n {
      BelowMonotone(layers, m, n - 1);
    }
  }

  lemma {:induction false} BelowOfPrefix(layers: Layers, more: Layers, n: nat)
    requires n <= |layers|
    ensures Below(layers + more, n) == Below(layers, n)
  {
    if n > 0 {
      BelowOfPrefix(layers, more, n - 1);
    }
  }

  /** The layer a placed key sits in. */
  ghost function Level(layers: Layers, k: ServiceKey, n: nat): (i: nat)
    requires n <= |layers| && k in Below(layers, n)
    ensures i < n && k in layers[i]
  {
    if k in layers[n - 1] then n - 1 else Level(layers, k, n - 1)
  }

  lemma {:induction false} LevelIsUnique(g: Graph, layers: Layers, i: nat, j: nat, k: ServiceKey)
    requires IsLayering(g, layers) && i < |layers| && j < |layers|
    requires k in layers[i] && k in layers[j]
    ensures i == j
  {
    assert LayerOk(g, layers, i) && LayerOk(g, layers, j);
    assert k in Elements(layers[i]) && k in Elements(layers[j]);
    if i < j {
      BelowMonotone(layers, i + 1, j);
    } else if j < i {
      BelowMonotone(layers, j + 1, i);
    }
  }

  /** A dependency sits in a strictly earlier layer. */
  lemma {:induction false} DependencyIsLower(g: Graph, layers: Layers, k: ServiceKey, d: ServiceKey)
    requires IsLayering(g, layers) && k in g && d in g[k]
    ensures d in g && Level(layers, d, |layers|) < Level(layers, k, |layers|)
  {
    var i := Level(layers, k, |layers|);
    assert LayerOk(g, layers, i);
    assert d in Below(layers, i);
    BelowMonotone(layers, i, |layers|);
    var j := Level(layers, d, i);
    LevelIsUnique(g, layers, j, Level(layers, d, |layers|), d);
  }

  lemma {:induction false} ChainDescends(g: Graph, layers: Layers, p: seq<ServiceKey>)
    requires IsLayering(g, layers) && Chain(g, p) && |p| >= 2
    ensures p[0] in g && p[|p| - 1] in g
    ensures Level(layers, p[|p| - 1], |layers|) < Level(layers, p[0], |layers|)
  {
    var n := |p| - 1;
    DependencyIsLower(g, layers, p[n - 1], p[n]);
    if n > 1 {
      assert Chain(g, p[..n]);
      ChainDescends(g, layers, p[..n]);
    }
  }

  lemma {:induction false} LayeringExcludesCycles(g: Graph, layers: Layers)
    requires IsLayering(g, layers)
    ensures !HasCycle(g)
  {
    if HasCycle(g) {
      var p :| IsCycle(g, p);
      ChainDescends(g, layers, p);
    }
  }

  lemma {:induction false} SubsetSize<T>(s: set<T>, t: set<T>)
    requires s <= t
    ensures |s| <= |t|
  {
    assert t == s + (t - s);
  }

  /** Nodes that all keep a dependency among themselves contain a cycle. */
  lemma {:induction false} StuckSetHasCycle(g: Graph, u: set<ServiceKey>)
    requires u != {} && u <= g.Keys
    requires forall k :: k in u ==> !DependsOnlyOn(g, k, g.Keys - u)
    requires Closed(g)
    ensures HasCycle(g)
  {
    var k :| k in u;
    WalkUntilRepeat(g, u, [k]);
  }

  lemma {:induction false} ChainGrows(g: Graph, p: seq<ServiceKey>, d: ServiceKey)
    requires p != [] && Chain(g, p) && DependsOn(g, p[|p| - 1], d)
    ensures Chain(g, p + [d])
  {
  }

  lemma {:induction false} RepeatIsCycle(g: Graph, q: seq<ServiceKey>, i: nat)
    requires Chain(g, q) && i < |q| - 1 && q[i] == q[|q| - 1]
    ensures HasCycle(g)
  {
    assert IsCycle(g, q[i..]);
  }

  lemma {:induction false} WalkUntilRepeat(g: Graph, u: set<ServiceKey>, p: seq<ServiceKey>)
    requires u <= g.Keys && p != [] && Elements(p) <= u && Distinct(p) && Chain(g, p)
    requires forall k :: k in u ==> !DependsOnlyOn(g, k, g.Keys - u)
    requires Closed(g)
    ensures HasCycle(g)
    decreases |u| - |p|
  {
    var last := p[|p| - 1];
    assert last in Elements(p);
    var d :| d in g[last] && d !in g.Keys - u;
    var q := p + [d];
    ChainGrows(g, p, d);
    if d in p {
      var i :| 0 <= i < |p| && p[i] == d;
      RepeatIsCycle(g, q, i);
    } else {
      WalkFits(u, p, d);
      WalkUntilRepeat(g, u, q);
    }
  }

  lemma {:induction false} WalkFits(u: set<ServiceKey>, p: seq<ServiceKey>, d: ServiceKey)
    requires Elements(p) <= u && Distinct(p) && d in u && d !in p
    ensures Elements(p + [d]) <= u && Distinct(p + [d]) && |p| < |u|
  {
    var q := p + [d];
    assert Elements(q) == Elements(p) + {d};
    DistinctSize(q);
    SubsetSize(Elements(q), u);
  }

  /** Two layerings of one graph agree on the keys of every layer, whatever order the containers
      were walked in. */
  lemma {:induction false} LayeringIsUnique(g: Graph, a: Layers, b: Layers)
    requires IsLayering(g, a) && IsLayering(g, b)
    ensures |a| == |b|
    ensures forall n :: 0 <= n < |a| ==> Elements(a[n]) == Elements(b[n])
  {
    if |a| <= |b| {
      LayersAgree(g, a, b, |a|);
      FullMeansLast(g, b, |a|);
    } else {
      LayersAgree(g, a, b, |b|);
      FullMeansLast(g, a, |b|);
    }
  }

  lemma {:induction false} FullMeansLast(g: Graph, layers: Layers, n: nat)
    requires IsLayering(g, layers) && n <= |layers| && Below(layers, n) == g.Keys
    ensures n == |layers|
  {
    if n < |layers| {
      var _ := NewInLayer(g, layers, n);
    }
  }

  lemma {:induction false} NewInLayer(g: Graph, layers: Layers, n: nat) returns (k: ServiceKey)
    requires IsLayering(g, layers) && n < |layers|
    ensures k in g && k !in Below(layers, n)
  {
    assert LayerOk(g, layers, n);
    k := layers[n][0];
    assert k in Elements(layers[n]);
  }

  lemma {:induction false} LayersAgree(g: Graph, a: Layers, b: Layers, n: nat)
    requires IsLayering(g, a) && IsLayering(g, b) && n <= |a| && n <= |b|
    ensures Below(a, n) == Below(b, n)
    ensures forall i :: 0 <= i < n ==> Elements(a[i]) == Elements(b[i])
  {
    if n > 0 {
      LayersAgree(g, a, b, n - 1);
      LayerIncluded(g, a, b, n - 1);
      LayerIncluded(g, b, a, n - 1);
    }
  }

  lemma {:induction false} LayerIncluded(g: Graph, a: Layers, b: Layers, n: nat)
    requires IsLayering(g, a) && IsLayering(g, b) && n < |a| && n < |b|
    requires Below(a, n) == Below(b, n)
    ensures Elements(a[n]) <= Elements(b[n])
  {
    forall k | k in a[n] ensures k in b[n] {
      assert LayerOk(g, a, n) && k in Elements(a[n]);
      RestingBelowPlaces(g, b, n, k);
    }
  }

  /** A key outside the first `n` layers whose dependencies all lie in them sits in layer `n`. */
  lemma {:induction false} RestingBelowPlaces(g: Graph, layers: Layers, n: nat, k: ServiceKey)
    requires IsLayering(g, layers) && n < |layers| && k in g
    requires k !in Below(layers, n) && DependsOnlyOn(g, k, Below(layers, n))
    ensures k in layers[n]
  {
    var j := Level(layers, k, |layers|);
    if j < n {
      assert k in Elements(layers[j]) && k in Below(layers, j + 1);
      BelowMonotone(layers, j + 1, n);
    } else if j > n {
      var d := RestsOnPreviousLayer(g, layers, j, k);
      assert d in Below(layers, n);
      BelowMonotone(layers, n, j - 1);
    }
  }

  lemma {:induction false} RestsOnPreviousLayer(g: Graph, layers: Layers, j: nat, k: ServiceKey) returns (d: ServiceKey)
    requires IsLayering(g, layers) && 0 < j < |layers| && k in layers[j]
    ensures k in g && d in g[k] && d !in Below(layers, j - 1)
  {
    assert LayerOk(g, layers, j) && LayerOk(g, layers, j - 1);
    d :| d in g[k] && d in layers[j - 1];
    assert d in Elements(layers[j - 1]);
  }
}
