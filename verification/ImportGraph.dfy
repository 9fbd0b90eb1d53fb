/** The module layering guard: one forbidden import chain per lower-layer module. */
module ImportGraph {
  import opened Runtime
  import opened Ordering

  type Graph = map<string, set<string>>

  const LOWER_LAYERS: seq<string> := [
    "cnetmod.protocol", "cnetmod.database", "cnetmod.core",
    "cnetmod.coro", "cnetmod.io", "cnetmod.executor", "cnetmod.instrumentation"]

  const UPPER_LAYERS: seq<string> := ["cnetmod.observability", "cnetmod.application"]

  /** A module is one of the roots, or below it by a dot or a partition colon. */
  predicate BelongsTo(name: string, roots: seq<string>) {
    exists root {:trigger Under(name, root)} :: root in roots && Under(name, root)
  }

  predicate Under(name: string, root: string) {
    name == root || root + "." <= name || root + ":" <= name
  }

  predicate Lower(name: string) {
    BelongsTo(name, LOWER_LAYERS)
  }

  predicate Upper(name: string) {
    BelongsTo(name, UPPER_LAYERS)
  }

  function Imports(g: Graph, name: string): set<string> {
    if name in g then g[name] else {}
  }

  function Front<T>(s: seq<T>): seq<T>
    requires s != []
  {
    s[..|s| - 1]
  }

  function Last<T>(s: seq<T>): T
    requires s != []
  {
    s[|s| - 1]
  }

  // ---------------------------------------------------------------- forbidden chains

  /** A chain of imports that starts at `origin`. */
  ghost predicate Path(g: Graph, origin: string, p: seq<string>) {
    && p != [] && p[0] == origin
    && forall i, j :: 0 <= i < j < |p| && j == i + 1 ==> p[j] in Imports(g, p[i])
  }

  ghost predicate Forbidden(g: Graph, origin: string, p: seq<string>) {
    Path(g, origin, p) && Upper(Last(p))
  }

  /** Shorter chains first, chains of one length in the order of their names. */
  predicate ChainLeq(a: seq<string>, b: seq<string>)
    decreases |a|
  {
    if |a| != |b| then |a| < |b|
    else a == [] || (if Front(a) == Front(b) then LexLeq(Last(a), Last(b)) else ChainLeq(Front(a), Front(b)))
  }

  /** The first of all forbidden chains from `origin`. */
  ghost predicate LeastForbidden(g: Graph, origin: string, p: seq<string>) {
    Forbidden(g, origin, p) && forall q :: Forbidden(g, origin, q) ==> ChainLeq(p, q)
  }

  lemma {:induction false} ChainReflexive(a: seq<string>)
    ensures ChainLeq(a, a)
  {
    if a != [] {
      LexTotal(Last(a), Last(a));
    }
  }

  lemma {:induction false} ChainTransitive(a: seq<string>, b: seq<string>, c: seq<string>)
    requires ChainLeq(a, b) && ChainLeq(b, c)
    ensures ChainLeq(a, c)
    decreases |a|
  {
    if |a| == |b| == |c| && a != [] {
      if Front(a) == Front(b) && Front(b) == Front(c) {
        LexTransitive(Last(a), Last(b), Last(c));
      } else if Front(a) != Front(b) && Front(b) != Front(c) {
        ChainTransitive(Front(a), Front(b), Front(c));
        if Front(a) == Front(c) {
          ChainAntisymmetric(Front(a), Front(b));
        }
      }
    }
  }

  lemma {:induction false} ChainAntisymmetric(a: seq<string>, b: seq<string>)
    requires ChainLeq(a, b) && ChainLeq(b, a)
    ensures a == b
    decreases |a|
  {
    if a != [] {
      if Front(a) == Front(b) {
        LexAntisymmetric(Last(a), Last(b));
      } else {
        ChainAntisymmetric(Front(a), Front(b));
      }
      assert a == Front(a) + [Last(a)] && b == Front(b) + [Last(b)];
    }
  }

  lemma {:induction false} ChainAppend(a: seq<string>, b: seq<string>, x: string, y: string)
    requires ChainLeq(a, b) && (a == b ==> LexLeq(x, y))
    ensures ChainLeq(a + [x], b + [y])
  {
  }

  lemma {:induction false} ChainExtend(a: seq<string>, b: seq<string>, t: string)
    requires ChainLeq(a, b)
    ensures ChainLeq(a, b + [t])
  {
  }

  lemma {:induction false} PathFront(g: Graph, origin: string, p: seq<string>)
    requires Path(g, origin, p) && |p| > 1
    ensures Path(g, origin, Front(p)) && Last(p) in Imports(g, Last(Front(p))) && Front(p) + [Last(p)] == p
  {
  }

  lemma {:induction false} PathAppend(g: Graph, origin: string, p: seq<string>, t: string)
    requires Path(g, origin, p) && t in Imports(g, Last(p))
    ensures Path(g, origin, p + [t])
  {
  }

  /** At most one chain is the first. */
  lemma {:induction false} LeastIsUnique(g: Graph, origin: string, p: seq<string>, q: seq<string>)
    requires LeastForbidden(g, origin, p) && LeastForbidden(g, origin, q)
    ensures p == q
  {
    ChainAntisymmetric(p, q);
  }

  /** The first chain passes no upper module before its end. */
  lemma {:induction false} LeastStopsAtUpper(g: Graph, origin: string, p: seq<string>, i: nat)
    requires LeastForbidden(g, origin, p) && i < |p| - 1
    ensures !Upper(p[i])
  {
    var prefix := p[..i + 1];
    assert Path(g, origin, prefix) && Last(prefix) == p[i];
    assert Upper(p[i]) ==> Forbidden(g, origin, prefix);
  }

  /** Leaving out a loop leaves a path. */
  lemma {:induction false} PathWithoutLoop(g: Graph, origin: string, p: seq<string>, i: nat, j: nat)
    requires Path(g, origin, p) && i < j < |p| && p[i] == p[j]
    ensures Path(g, origin, p[..i] + p[j..]) && Last(p[..i] + p[j..]) == Last(p)
  {
  }

  /** The first chain visits no module twice. */
  lemma {:induction false} LeastNeverRepeats(g: Graph, origin: string, p: seq<string>)
    requires LeastForbidden(g, origin, p)
    ensures Distinct(p)
  {
    forall i, j | 0 <= i < j < |p| ensures p[i] != p[j] {
      if p[i] == p[j] {
        PathWithoutLoop(g, origin, p, i, j);
        assert Forbidden(g, origin, p[..i] + p[j..]);
      }
    }
  }

  // ---------------------------------------------------------------- breadth-first search

  /** A search in progress: which modules were expanded and the chain kept for each visited one. */
  datatype View = View(queue: seq<seq<string>>, visited: set<string>, expanded: set<string>, kept: map<string, seq<string>>)

  /** A waiting chain is the one kept for its last module, and was reached from an expanded module. */
  ghost predicate Waiting(g: Graph, origin: string, v: View, c: seq<string>) {
    && Path(g, origin, c) && Last(c) in v.visited && Last(c) !in v.expanded
    && v.kept.Keys == v.visited && v.kept[Last(c)] == c
    && (|c| > 1 ==> Last(Front(c)) in v.expanded && Last(Front(c)) in v.kept && v.kept[Last(Front(c))] == Front(c))
  }

  /** The chain kept for an import of `x` comes no later than going through `x`. */
  ghost predicate Relaxed(v: View, x: string, t: string) {
    x in v.kept && t in v.kept && ChainLeq(v.kept[t], v.kept[x] + [t])
  }

  ghost predicate Finished(g: Graph, v: View, x: string) {
    forall t :: t in Imports(g, x) ==> Relaxed(v, x, t)
  }

  ghost predicate Reached(v: View, x: string) {
    x in v.kept && v.kept[x] != [] && Last(v.kept[x]) == x && (x in v.expanded || v.kept[x] in v.queue)
  }

  ghost predicate Before(v: View, x: string, c: seq<string>) {
    x in v.kept && ChainLeq(v.kept[x], c)
  }

  ghost predicate InOrder(queue: seq<seq<string>>) {
    forall i, j :: 0 <= i < j < |queue| ==> ChainLeq(queue[i], queue[j]) && queue[i] != queue[j]
  }

  /** The modules in `busy` are expanded but not all of their imports were looked at. */
  ghost predicate Searching(g: Graph, origin: string, v: View, busy: set<string>) {
    && v.kept.Keys == v.visited && v.expanded <= v.visited && origin in v.visited
    && v.kept[origin] == [origin]
    && (forall c :: c in v.queue ==> Waiting(g, origin, v, c))
    && InOrder(v.queue)
    && (forall x :: x in v.visited ==> Reached(v, x))
    && (forall x, c :: x in v.expanded && c in v.queue ==> Before(v, x, c))
    && (forall x :: x in v.expanded ==> !Upper(x))
    && (forall x :: x in v.expanded && x !in busy ==> Finished(g, v, x))
  }

  lemma {:induction false} SearchStarts(g: Graph, origin: string)
    ensures Resting(g, origin, View([[origin]], {origin}, {}, map[origin := [origin]]))
  {
  }

  /** Every path ends in an expanded module whose kept chain is no later, or some waiting chain is no later. */
  lemma {:induction false} PathsAreCovered(g: Graph, origin: string, v: View, p: seq<string>) returns (c: seq<string>)
    requires Searching(g, origin, v, {}) && Path(g, origin, p)
    ensures ChainLeq(c, p)
    ensures (Last(p) in v.expanded && v.kept[Last(p)] == c) || c in v.queue
    decreases |p|
  {
    if |p| == 1 {
      c := [origin];
      assert p == c;
      ChainReflexive(p);
      assert Reached(v, origin);
    } else {
      PathFront(g, origin, p);
      var b := PathsAreCovered(g, origin, v, Front(p));
      if b in v.queue {
        c := b;
      } else {
        var t := Last(p);
        assert Finished(g, v, Last(Front(p)));
        assert Relaxed(v, Last(Front(p)), t);
        c := v.kept[t];
        LexTotal(t, t);
        ChainAppend(b, Front(p), t, t);
        ChainTransitive(c, b + [t], p);
        assert Reached(v, t);
      }
    }
  }

  lemma {:induction false} FirstIsLeast(g: Graph, origin: string, v: View)
    requires Resting(g, origin, v) && v.queue != [] && v.queue[0] != [] && Upper(Last(v.queue[0]))
    ensures LeastForbidden(g, origin, v.queue[0])
  {
    assert Searching(g, origin, v, {});
    var first := v.queue[0];
    assert Waiting(g, origin, v, first);
    forall q | Forbidden(g, origin, q) ensures ChainLeq(first, q) {
      var c := PathsAreCovered(g, origin, v, q);
      var i :| 0 <= i < |v.queue| && v.queue[i] == c;
      ChainReflexive(first);
      ChainTransitive(first, c, q);
    }
  }

  lemma {:induction false} ExhaustedMeansNone(g: Graph, origin: string, v: View)
    requires Resting(g, origin, v) && v.queue == []
    ensures forall q :: !Forbidden(g, origin, q)
  {
    assert Searching(g, origin, v, {});
    forall q ensures !Forbidden(g, origin, q) {
      if Path(g, origin, q) {
        var c := PathsAreCovered(g, origin, v, q);
      }
    }
  }

  /** Lists a set in name order. */
  method SortedNames(s: set<string>) returns (r: seq<string>)
    ensures Distinct(r) && Elements(r) == s && Sorted(LexLeq, r)
  {
    var listed := Enumerate(s);
    r := Sort(LexLeq, listed);
    assert TotalPreorder(LexLeq) by {
      forall x, y ensures LexLeq(x, y) || LexLeq(y, x) {
        LexTotal(x, y);
      }
      forall x, y, z | LexLeq(x, y) && LexLeq(y, z) ensures LexLeq(x, z) {
        LexTransitive(x, y, z);
      }
    }
    SortSorts(LexLeq, listed);
    SortKeepsDistinct(LexLeq, listed);
    SameElements(listed, r);
  }

  /** A search between two expansions. Stated so that its parts come into play only where they are named. */
  ghost predicate Resting(g: Graph, origin: string, v: View) {
    forall busy :: busy == {} ==> Searching(g, origin, v, busy)
  }

  lemma {:induction false} RestingFirst(g: Graph, origin: string, v: View)
    requires Resting(g, origin, v) && v.queue != []
    ensures v.queue[0] != []
  {
    assert Searching(g, origin, v, {});
    assert Waiting(g, origin, v, v.queue[0]);
  }

  // ---------------------------------------------------------------- one expansion

  /** While the last module of `chain` is being expanded: everything expanded comes no later than
      `chain`, and what it pushed is among the imports looked at. */
  ghost predicate Expanding(g: Graph, origin: string, v: View, chain: seq<string>, targets: seq<string>, i: nat)
    requires i <= |targets|
  {
    && Path(g, origin, chain) && Last(chain) in v.expanded && Last(chain) in v.kept && v.kept[Last(chain)] == chain
    && Searching(g, origin, v, {Last(chain)})
    && (forall x :: x in v.expanded ==> Before(v, x, chain))
    && (forall c :: c in v.queue && |c| > 1 && Front(c) == chain ==> Last(c) in targets[..i])
    && (forall t :: t in targets[..i] ==> Relaxed(v, Last(chain), t))
  }

  function Pop(v: View, x: string): View
    requires v.queue != []
  {
    v.(queue := v.queue[1..], expanded := v.expanded + {x})
  }

  lemma {:induction false} PopKeepsChains(g: Graph, origin: string, v: View)
    requires Searching(g, origin, v, {}) && v.queue != [] && v.queue[0] != []
    ensures var w := Pop(v, Last(v.queue[0]));
      && (forall c :: c in w.queue ==> Waiting(g, origin, w, c) && (|c| > 1 ==> Front(c) != v.queue[0]))
      && (forall x :: x in w.visited ==> Reached(w, x))
  {
    var chain := v.queue[0];
    var w := Pop(v, Last(chain));
    assert Waiting(g, origin, v, chain);
    assert forall c :: c in w.queue ==> c in v.queue && c != chain;
    forall c | c in w.queue ensures Waiting(g, origin, w, c) && (|c| > 1 ==> Front(c) != chain) {
      assert Waiting(g, origin, v, c);
    }
    forall y | y in w.visited ensures Reached(w, y) {
      assert Reached(v, y);
      assert v.queue == [chain] + w.queue;
    }
  }

  lemma {:induction false} PopKeepsOrder(g: Graph, origin: string, v: View)
    requires Searching(g, origin, v, {}) && v.queue != [] && v.queue[0] != []
    ensures var w := Pop(v, Last(v.queue[0]));
      && (forall x :: x in w.expanded ==> Before(w, x, v.queue[0]))
      && (forall x, c :: x in w.expanded && c in w.queue ==> Before(w, x, c))
  {
    var chain := v.queue[0];
    var w := Pop(v, Last(chain));
    assert Waiting(g, origin, v, chain);
    assert forall c :: c in w.queue ==> c in v.queue;
    ChainReflexive(chain);
    forall y | y in w.expanded ensures Before(w, y, chain) {
      assert y in v.expanded ==> Before(v, y, chain);
    }
    forall y, c | y in w.expanded && c in w.queue ensures Before(w, y, c) {
      assert y in v.expanded ==> Before(v, y, c);
    }
  }

  lemma {:induction false} ExpansionStarts(g: Graph, origin: string, v: View)
    requires Resting(g, origin, v) && v.queue != [] && v.queue[0] != [] && !Upper(Last(v.queue[0]))
    ensures Expanding(g, origin, Pop(v, Last(v.queue[0])), v.queue[0], [], 0)
  {
    assert Searching(g, origin, v, {});
    var w := Pop(v, Last(v.queue[0]));
    assert Waiting(g, origin, v, v.queue[0]);
    PopKeepsChains(g, origin, v);
    PopKeepsOrder(g, origin, v);
    forall y | y in v.expanded ensures Finished(g, w, y) {
      assert Finished(g, v, y);
      forall t | t in Imports(g, y) ensures Relaxed(w, y, t) {
        assert Relaxed(v, y, t);
      }
    }
  }

  /** An import that was visited before already has a chain that is no later. */
  lemma {:induction false} SeenIsRelaxed(g: Graph, origin: string, v: View, chain: seq<string>, targets: seq<string>, i: nat, t: string)
    requires i <= |targets| && Expanding(g, origin, v, chain, targets, i) && t in v.visited
    ensures Relaxed(v, Last(chain), t)
  {
  }

  /** A waiting chain comes no later than `chain + [t]` when `t` is its last module or sorts after what
      `chain` pushed before. */
  lemma {:induction false} NotAfterPush(g: Graph, origin: string, v: View, chain: seq<string>, targets: seq<string>, i: nat,
                                        c: seq<string>, t: string)
    requires i <= |targets| && Expanding(g, origin, v, chain, targets, i) && c in v.queue
    requires c != [] && (Last(c) == t || (forall u :: u in targets[..i] ==> LexLeq(u, t)))
    ensures ChainLeq(c, chain + [t])
  {
    assert Waiting(g, origin, v, c);
    if |c| > 1 {
      assert Before(v, Last(Front(c)), chain);
      LexTotal(t, t);
      ChainAppend(Front(c), chain, Last(c), t);
      assert Front(c) + [Last(c)] == c;
    }
  }

  function Push(v: View, chain: seq<string>, t: string): View {
    View(v.queue + [chain + [t]], v.visited + {t}, v.expanded, v.kept[t := chain + [t]])
  }

  lemma {:induction false} PushKeepsOrder(g: Graph, origin: string, v: View, chain: seq<string>, targets: seq<string>, i: nat)
    requires i < |targets| && Expanding(g, origin, v, chain, targets, i)
    requires Sorted(LexLeq, targets) && targets[i] !in v.visited
    ensures InOrder(Push(v, chain, targets[i]).queue)
  {
    var t := targets[i];
    forall k | 0 <= k < |v.queue| ensures ChainLeq(v.queue[k], chain + [t]) && v.queue[k] != chain + [t] {
      assert Waiting(g, origin, v, v.queue[k]);
      NotAfterPush(g, origin, v, chain, targets, i, v.queue[k], t);
    }
  }

  lemma {:induction false} PushKeepsWaiting(g: Graph, origin: string, v: View, chain: seq<string>, targets: seq<string>, i: nat)
    requires i < |targets| && Expanding(g, origin, v, chain, targets, i)
    requires Elements(targets) <= Imports(g, Last(chain)) && targets[i] !in v.visited
    ensures var w := Push(v, chain, targets[i]);
      forall c :: c in w.queue ==> Waiting(g, origin, w, c)
  {
    var t := targets[i];
    var w := Push(v, chain, t);
    assert t in Elements(targets);
    PathAppend(g, origin, chain, t);
    assert Front(chain + [t]) == chain;
    forall c | c in w.queue ensures Waiting(g, origin, w, c) {
      assert c in v.queue ==> Waiting(g, origin, v, c);
    }
  }

  lemma {:induction false} PushKeepsReached(g: Graph, origin: string, v: View, chain: seq<string>, targets: seq<string>, i: nat)
    requires i < |targets| && Expanding(g, origin, v, chain, targets, i) && targets[i] !in v.visited
    ensures var w := Push(v, chain, targets[i]);
      forall x :: x in w.visited ==> Reached(w, x)
  {
    var w := Push(v, chain, targets[i]);
    forall x | x in w.visited ensures Reached(w, x) {
      assert x in v.visited ==> Reached(v, x);
      assert w.queue[|v.queue|] == chain + [targets[i]];
    }
  }

  lemma {:induction false} PushKeepsBefore(g: Graph, origin: string, v: View, chain: seq<string>, targets: seq<string>, i: nat)
    requires i < |targets| && Expanding(g, origin, v, chain, targets, i) && targets[i] !in v.visited
    ensures var w := Push(v, chain, targets[i]);
      && (forall x, c :: x in w.expanded && c in w.queue ==> Before(w, x, c))
      && (forall x :: x in w.expanded ==> Before(w, x, chain))
  {
    var t := targets[i];
    var w := Push(v, chain, t);
    forall x | x in w.expanded ensures Before(w, x, chain) && Before(w, x, chain + [t]) {
      assert Before(v, x, chain);
      ChainExtend(v.kept[x], chain, t);
    }
    forall x, c | x in w.expanded && c in w.queue ensures Before(w, x, c) {
      assert c in v.queue ==> Before(v, x, c);
    }
  }

  lemma {:induction false} PushKeepsFinished(g: Graph, origin: string, v: View, chain: seq<string>, targets: seq<string>, i: nat)
    requires i < |targets| && Expanding(g, origin, v, chain, targets, i) && targets[i] !in v.visited
    ensures var w := Push(v, chain, targets[i]);
      && (forall x :: x in w.expanded && x != Last(chain) ==> Finished(g, w, x))
      && (forall u :: u in targets[..i + 1] ==> Relaxed(w, Last(chain), u))
  {
    var t := targets[i];
    var w := Push(v, chain, t);
    TakeOne(targets, i);
    forall x | x in w.expanded && x != Last(chain) ensures Finished(g, w, x) {
      assert Finished(g, v, x);
      forall u | u in Imports(g, x) ensures Relaxed(w, x, u) {
        assert Relaxed(v, x, u);
      }
    }
    ChainReflexive(chain + [t]);
    forall u | u in targets[..i + 1] ensures Relaxed(w, Last(chain), u) {
      assert u in targets[..i] ==> Relaxed(v, Last(chain), u);
    }
  }

  lemma {:induction false} PushKeepsExpanding(g: Graph, origin: string, v: View, chain: seq<string>, targets: seq<string>, i: nat)
    requires i < |targets| && Expanding(g, origin, v, chain, targets, i)
    requires Sorted(LexLeq, targets) && Elements(targets) <= Imports(g, Last(chain)) && targets[i] !in v.visited
    ensures Expanding(g, origin, Push(v, chain, targets[i]), chain, targets, i + 1)
  {
    var w := Push(v, chain, targets[i]);
    PushKeepsOrder(g, origin, v, chain, targets, i);
    PushKeepsWaiting(g, origin, v, chain, targets, i);
    PushKeepsReached(g, origin, v, chain, targets, i);
    PushKeepsBefore(g, origin, v, chain, targets, i);
    PushKeepsFinished(g, origin, v, chain, targets, i);
    assert Searching(g, origin, w, {Last(chain)});
    TakeOne(targets, i);
    forall c | c in w.queue && |c| > 1 && Front(c) == chain ensures Last(c) in targets[..i + 1] {
      assert c in v.queue || c == chain + [targets[i]];
    }
  }

  lemma {:induction false} ExpansionEnds(g: Graph, origin: string, v: View, chain: seq<string>, targets: seq<string>)
    requires Expanding(g, origin, v, chain, targets, |targets|) && Elements(targets) == Imports(g, Last(chain))
    ensures Resting(g, origin, v)
  {
  }

  /** Looks at the sorted imports of the module that was just taken from the queue. */
  method Expand(g: Graph, ghost origin: string, chain: seq<string>, queue: seq<seq<string>>, visited: set<string>,
                ghost v: View) returns (queue': seq<seq<string>>, visited': set<string>, ghost w: View)
    requires queue == v.queue && visited == v.visited && Expanding(g, origin, v, chain, [], 0)
    ensures w.queue == queue' && w.visited == visited' && Resting(g, origin, w)
    ensures visited <= visited' <= visited + Imports(g, Last(chain)) && (visited' == visited ==> queue' == queue)
  {
    var targets := SortedNames(Imports(g, Last(chain)));
    queue', visited', w := queue, visited, v;
    for i := 0 to |targets|
      invariant w.queue == queue' && w.visited == visited' && Expanding(g, origin, w, chain, targets, i)
      invariant visited <= visited' <= visited + Imports(g, Last(chain)) && (visited' == visited ==> queue' == queue)
    {
      var t := targets[i];
      assert t in Elements(targets);
      TakeOne(targets, i);
      if t !in visited' {
        PushKeepsExpanding(g, origin, w, chain, targets, i);
        queue', visited', w := queue' + [chain + [t]], visited' + {t}, Push(w, chain, t);
      } else {
        SeenIsRelaxed(g, origin, w, chain, targets, i, t);
      }
    }
    ExpansionEnds(g, origin, w, chain, targets);
  }

  // ---------------------------------------------------------------- the guard

  ghost function Universe(g: Graph): set<string> {
    set m, t | m in g && t in g[m] :: t
  }

  lemma {:induction false} MoreVisited(all: set<string>, before: set<string>, after: set<string>)
    requires before <= after <= all
    ensures before == after || all - after < all - before
  {
  }

  /** Breadth-first search from one module. */
  method Search(g: Graph, origin: string) returns (r: Option<seq<string>>)
    ensures r.Some? ==> LeastForbidden(g, origin, r.value)
    ensures r.None? ==> !Violates(g, origin)
  {
    var queue, visited := [[origin]], {origin};
    ghost var v := View(queue, visited, {}, map[origin := [origin]]);
    SearchStarts(g, origin);
    while queue != []
      invariant queue == v.queue && visited == v.visited && Resting(g, origin, v)
      invariant visited <= Universe(g) + {origin}
      decreases Universe(g) + {origin} - visited, |queue|
    {
      var chain := queue[0];
      RestingFirst(g, origin, v);
      if Upper(Last(chain)) {
        FirstIsLeast(g, origin, v);
        return Some(chain);
      }
      ExpansionStarts(g, origin, v);
      ghost var before := visited;
      queue, visited, v := Expand(g, origin, chain, queue[1..], visited, Pop(v, Last(chain)));
      assert Imports(g, Last(chain)) <= Universe(g);
      MoreVisited(Universe(g) + {origin}, before, visited);
    }
    ExhaustedMeansNone(g, origin, v);
    return None;
  }

  /** Some import chain leads from `o` to an upper layer. */
  ghost predicate Violates(g: Graph, o: string) {
    exists p :: Forbidden(g, o, p)
  }

  ghost predicate Finding(g: Graph, names: set<string>, c: seq<string>) {
    c != [] && c[0] in names && Lower(c[0]) && LeastForbidden(g, c[0], c)
  }

  ghost predicate ByName(a: seq<string>, b: seq<string>) {
    a != [] && b != [] && a[0] != b[0] && LexLeq(a[0], b[0])
  }

  /** The guard's report on the modules in `names`. */
  ghost predicate Report(g: Graph, names: set<string>, failures: seq<seq<string>>) {
    && (forall i :: 0 <= i < |failures| ==> Finding(g, names, failures[i]))
    && (forall i, j :: 0 <= i < j < |failures| ==> ByName(failures[i], failures[j]))
    && (forall o :: o in names && Lower(o) && Violates(g, o) ==> Reports(failures, o))
  }

  ghost predicate Reports(failures: seq<seq<string>>, o: string) {
    exists c :: c in failures && c != [] && c[0] == o
  }

  /** One first forbidden chain for each lower-layer module that has one, in the order of their names. */
  method Violations(g: Graph) returns (failures: seq<seq<string>>)
    ensures Report(g, g.Keys, failures)
    ensures failures == [] <==> forall o :: o in g && Lower(o) ==> !Violates(g, o)
  {
    failures := [];
    var origins := SortedNames(g.Keys);
    for i := 0 to |origins|
      invariant Report(g, Elements(origins[..i]), failures)
    {
      TakeOne(origins, i);
      var origin := origins[i];
      assert Elements(origins[..i + 1]) == Elements(origins[..i]) + {origin};
      if !Lower(origin) {
        ReportSkips(g, Elements(origins[..i]), origin, failures);
        continue;
      }
      var r := Search(g, origin);
      if r.Some? {
        ReportAdds(g, Elements(origins[..i]), origin, failures, r.value);
        failures := failures + [r.value];
      } else {
        ReportSkips(g, Elements(origins[..i]), origin, failures);
      }
    }
    TakeAll(origins);
    EmptyReport(g, failures);
  }

  lemma {:induction false} EmptyReport(g: Graph, failures: seq<seq<string>>)
    requires Report(g, g.Keys, failures)
    ensures failures == [] <==> forall o :: o in g && Lower(o) ==> !Violates(g, o)
  {
    if failures != [] {
      assert Finding(g, g.Keys, failures[0]);
      assert Forbidden(g, failures[0][0], failures[0]);
    }
    forall o | o in g && Lower(o) && Violates(g, o) ensures failures != [] {
      assert Reports(failures, o);
    }
  }

  lemma {:induction false} ReportSkips(g: Graph, names: set<string>, o: string, failures: seq<seq<string>>)
    requires Report(g, names, failures) && (Lower(o) ==> !Violates(g, o))
    ensures Report(g, names + {o}, failures)
  {
  }

  lemma {:induction false} FindingsAdd(g: Graph, names: set<string>, o: string, failures: seq<seq<string>>, c: seq<string>)
    requires Report(g, names, failures) && Lower(o) && LeastForbidden(g, o, c)
    ensures forall i :: 0 <= i < |failures + [c]| ==> Finding(g, names + {o}, (failures + [c])[i])
  {
    assert Finding(g, names + {o}, c);
    forall i | 0 <= i < |failures| ensures Finding(g, names + {o}, failures[i]) {
      assert Finding(g, names, failures[i]);
    }
  }

  lemma {:induction false} NamesAdd(g: Graph, names: set<string>, o: string, failures: seq<seq<string>>, c: seq<string>)
    requires Report(g, names, failures) && c != [] && c[0] == o && o !in names && forall n :: n in names ==> LexLeq(n, o)
    ensures forall i, j :: 0 <= i < j < |failures + [c]| ==> ByName((failures + [c])[i], (failures + [c])[j])
  {
    forall i | 0 <= i < |failures| ensures ByName(failures[i], c) {
      assert Finding(g, names, failures[i]);
    }
  }

  lemma {:induction false} ReportStays(failures: seq<seq<string>>, c: seq<string>, n: string)
    requires Reports(failures, n) || (c != [] && c[0] == n)
    ensures Reports(failures + [c], n)
  {
    assert (failures + [c])[|failures|] == c;
  }

  lemma {:induction false} ReportAdds(g: Graph, names: set<string>, o: string, failures: seq<seq<string>>, c: seq<string>)
    requires Report(g, names, failures) && Lower(o) && LeastForbidden(g, o, c)
    requires o !in names && forall n :: n in names ==> LexLeq(n, o)
    ensures Report(g, names + {o}, failures + [c])
  {
    FindingsAdd(g, names, o, failures, c);
    NamesAdd(g, names, o, failures, c);
    forall n | n in names + {o} && Lower(n) && Violates(g, n) ensures Reports(failures + [c], n) {
      ReportStays(failures, c, n);
    }
  }
}
