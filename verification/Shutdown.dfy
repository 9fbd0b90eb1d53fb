/** What a partly failing shutdown leaves active, independently of how it was computed. */
module RetainedServices {
  import opened Runtime
  import opened Ordering
  import opened DependencyGraph

  /** A dependency chain through active services that starts at a stuck one. */
  ghost predicate HoldingChain(g: Graph, active: set<ServiceKey>, stuck: set<ServiceKey>, p: seq<ServiceKey>) {
    p != [] && p[0] in stuck && Elements(p) <= active && Chain(g, p)
  }

  ghost predicate IsRetained(g: Graph, active: set<ServiceKey>, stuck: set<ServiceKey>, k: ServiceKey) {
    exists p :: HoldingChain(g, active, stuck, p) && p[|p| - 1] == k
  }

  /** The stuck services and every active service they transitively depend on through active ones. */
  ghost function Retained(g: Graph, active: set<ServiceKey>, stuck: set<ServiceKey>): set<ServiceKey> {
    set k | k in active && IsRetained(g, active, stuck, k)
  }

  /** What one pass leaves behind: nothing kept depends on something released, and whatever is kept
      without being stuck has a kept dependent in a higher layer. */
  ghost predicate Settled(g: Graph, layers: Layers, before: set<ServiceKey>, after: set<ServiceKey>, stuck: set<ServiceKey>) {
    && stuck <= after <= before
    && (forall c, k :: c in after && k in before && DependsOn(g, c, k) ==> k in after)
    && (forall k :: k in after && k !in stuck ==> HeldFromAbove(g, layers, after, k))
  }

  ghost predicate HeldFromAbove(g: Graph, layers: Layers, kept: set<ServiceKey>, k: ServiceKey) {
    exists c, i, j :: 0 <= i < j < |layers| && k in layers[i] && c in layers[j] && c in kept && DependsOn(g, c, k)
  }

  lemma {:induction false} SettledIsRetained(g: Graph, layers: Layers, before: set<ServiceKey>, after: set<ServiceKey>, stuck: set<ServiceKey>)
    requires Settled(g, layers, before, after, stuck)
    requires layers == [] || IsLayering(g, layers)
    ensures after == Retained(g, before, stuck)
  {
    forall k | k in Retained(g, before, stuck) ensures k in after {
      var p :| HoldingChain(g, before, stuck, p) && p[|p| - 1] == k;
      ChainStays(g, layers, before, after, stuck, p);
    }
    forall k | k in after ensures k in Retained(g, before, stuck) {
      if k in stuck {
        assert HoldingChain(g, before, stuck, [k]);
      } else {
        var c, i, j :| 0 <= i < j < |layers| && k in layers[i] && c in layers[j] && c in after && DependsOn(g, c, k);
        ChainReaches(g, layers, before, after, stuck, k, i);
      }
    }
  }

  lemma {:induction false} ChainStays(g: Graph, layers: Layers, before: set<ServiceKey>, after: set<ServiceKey>,
                                      stuck: set<ServiceKey>, p: seq<ServiceKey>)
    requires Settled(g, layers, before, after, stuck) && HoldingChain(g, before, stuck, p)
    ensures p[|p| - 1] in after
  {
    var n := |p| - 1;
    if n > 0 {
      var q := p[..n];
      assert q[0] == p[0] && Elements(q) <= Elements(p) && Chain(g, q);
      ChainStays(g, layers, before, after, stuck, q);
      assert p[n] in Elements(p) && DependsOn(g, p[n - 1], p[n]);
    }
  }

  lemma {:induction false} ChainReaches(g: Graph, layers: Layers, before: set<ServiceKey>, after: set<ServiceKey>,
                                        stuck: set<ServiceKey>, k: ServiceKey, i: nat)
    requires Settled(g, layers, before, after, stuck) && IsLayering(g, layers)
    requires k in after && i < |layers| && k in layers[i]
    ensures IsRetained(g, before, stuck, k)
    decreases |layers| - i
  {
    if k in stuck {
      assert HoldingChain(g, before, stuck, [k]);
    } else {
      var c, i', j :| 0 <= i' < j < |layers| && k in layers[i'] && c in layers[j] && c in after && DependsOn(g, c, k);
      LevelIsUnique(g, layers, i, i', k);
      ChainReaches(g, layers, before, after, stuck, c, j);
      var p :| HoldingChain(g, before, stuck, p) && p[|p| - 1] == c;
      ChainGrows(g, p, k);
      assert Elements(p + [k]) == Elements(p) + {k};
      assert HoldingChain(g, before, stuck, p + [k]);
    }
  }

  /** What a retained service depends on is retained, if it is active. */
  lemma {:induction false} RetainedCloses(g: Graph, active: set<ServiceKey>, stuck: set<ServiceKey>, k: ServiceKey, d: ServiceKey)
    requires k in Retained(g, active, stuck) && d in active && DependsOn(g, k, d)
    ensures d in Retained(g, active, stuck)
  {
    var p :| HoldingChain(g, active, stuck, p) && p[|p| - 1] == k;
    ChainGrows(g, p, d);
    assert Elements(p + [d]) == Elements(p) + {d};
    assert HoldingChain(g, active, stuck, p + [d]);
  }

  lemma {:induction false} ChainIsRetained(g: Graph, active: set<ServiceKey>, stuck: set<ServiceKey>, again: set<ServiceKey>, p: seq<ServiceKey>)
    requires again <= Retained(g, active, stuck) && HoldingChain(g, active, again, p)
    ensures Elements(p) <= Retained(g, active, stuck)
  {
    var n := |p| - 1;
    if n == 0 {
      assert p == [p[0]];
    } else {
      var q := p[..n];
      assert p == q + [p[n]] && Elements(p) == Elements(q) + {p[n]};
      assert q[0] == p[0] && Chain(g, q);
      ChainIsRetained(g, active, stuck, again, q);
      assert DependsOn(g, p[n - 1], p[n]) && p[n - 1] in Elements(q);
      RetainedCloses(g, active, stuck, p[n - 1], p[n]);
    }
  }

  /** A second pass over what a first one retained leaves what its own stuck services retain of the whole. */
  lemma {:induction false} RetainedTwice(g: Graph, active: set<ServiceKey>, stuck: set<ServiceKey>, again: set<ServiceKey>)
    requires again <= Retained(g, active, stuck)
    ensures Retained(g, Retained(g, active, stuck), again) == Retained(g, active, again)
  {
    var kept := Retained(g, active, stuck);
    forall k | k in Retained(g, kept, again) ensures k in Retained(g, active, again) {
      var p :| HoldingChain(g, kept, again, p) && p[|p| - 1] == k;
      assert HoldingChain(g, active, again, p);
    }
    forall k | k in Retained(g, active, again) ensures k in Retained(g, kept, again) {
      var p :| HoldingChain(g, active, again, p) && p[|p| - 1] == k;
      ChainIsRetained(g, active, stuck, again, p);
      assert HoldingChain(g, kept, again, p);
      assert k in Elements(p);
    }
  }

  lemma {:induction false} SecondPass(g: Graph, initial: set<ServiceKey>, stuck: set<ServiceKey>, held: set<ServiceKey>,
                                      again: set<ServiceKey>, left: set<ServiceKey>)
    requires held == Retained(g, initial, stuck) && left == Retained(g, held, again) && again <= left
    ensures left == Retained(g, initial, again)
  {
    RetainedTwice(g, initial, stuck, again);
  }

  lemma {:induction false} AllStuckAllRetained(g: Graph, active: set<ServiceKey>)
    ensures Retained(g, active, active) == active
  {
    forall k | k in active ensures k in Retained(g, active, active) {
      assert HoldingChain(g, active, active, [k]);
    }
  }

  lemma {:induction false} NothingStuckNothingRetained(g: Graph, active: set<ServiceKey>)
    ensures Retained(g, active, {}) == {}
  {
  }
}

/** Shutdown histories and what makes one safe. */
module ShutdownHistory {
  import opened Runtime
  import opened DependencyGraph

  datatype Event =
    | Marked(key: ServiceKey)
    | StopBegan(key: ServiceKey, at: int, limit: Deadline)
    | Released(key: ServiceKey)
    | StopFailed(key: ServiceKey)
    | Refused(key: ServiceKey, at: int, limit: Deadline)

  /** The services a history leaves active. */
  ghost function ActiveAfter(log: seq<Event>): set<ServiceKey> {
    if log == [] then {}
    else
      var before := ActiveAfter(log[..|log| - 1]);
      match log[|log| - 1]
      case Marked(k) => before + {k}
      case Released(k) => before - {k}
      case _ => before
  }

  ghost predicate NobodyNeeds(g: Graph, active: set<ServiceKey>, k: ServiceKey) {
    forall c :: c in active ==> !DependsOn(g, c, k)
  }

  /** A stop begins within its limit, on an active service that no active service depends on; it is refused
      only past its limit; and only a stop that began can release or fail. */
  ghost predicate SafeNext(g: Graph, log: seq<Event>, e: Event) {
    match e
    case Marked(_) => true
    case Refused(_, at, limit) => limit.Expired(at)
    case StopBegan(k, at, limit) => !limit.Expired(at) && k in ActiveAfter(log) && NobodyNeeds(g, ActiveAfter(log), k)
    case Released(k) => log != [] && log[|log| - 1].StopBegan? && log[|log| - 1].key == k
    case StopFailed(k) => log != [] && log[|log| - 1].StopBegan? && log[|log| - 1].key == k
  }

  ghost predicate Safe(g: Graph, log: seq<Event>) {
    forall i :: 0 <= i < |log| ==> SafeNext(g, log[..i], log[i])
  }

  lemma {:induction false} SafeExtends(g: Graph, log: seq<Event>, e: Event)
    requires Safe(g, log) && SafeNext(g, log, e)
    ensures Safe(g, log + [e])
    ensures ActiveAfter(log + [e]) == match e
      case Marked(k) => ActiveAfter(log) + {k}
      case Released(k) => ActiveAfter(log) - {k}
      case _ => ActiveAfter(log)
  {
    var more := log + [e];
    assert more[..|log|] == log;
    forall i | 0 <= i < |more| ensures SafeNext(g, more[..i], more[i]) {
      if i < |log| {
        assert more[..i] == log[..i];
      }
    }
  }

  /** Between two releases of a service there is a successful start. */
  lemma {:induction false} ReleasesAreMatched(g: Graph, log: seq<Event>, i: nat, j: nat, k: ServiceKey)
    requires Safe(g, log) && i < j < |log| && log[i] == Released(k) && log[j] == Released(k)
    ensures exists m :: i < m < j && log[m] == Marked(k)
  {
    assert SafeNext(g, log[..j], log[j]);
    var b := j - 1;
    assert log[..j][|log[..j]| - 1] == log[b];
    assert SafeNext(g, log[..b], log[b]);
    assert log[..i + 1][..i] == log[..i];
    assert k !in ActiveAfter(log[..i + 1]);
    MarkedSince(log, i + 1, b, k);
  }

  lemma {:induction false} MarkedSince(log: seq<Event>, i: nat, j: nat, k: ServiceKey)
    requires i <= j <= |log| && k !in ActiveAfter(log[..i]) && k in ActiveAfter(log[..j])
    ensures exists m :: i <= m < j && log[m] == Marked(k)
    decreases j
  {
    assert log[..j][..j - 1] == log[..j - 1];
    if log[j - 1] != Marked(k) {
      MarkedSince(log, i, j - 1, k);
    }
  }

  ghost function CountOf(log: seq<Event>, e: Event): nat {
    if log == [] then 0 else CountOf(log[..|log| - 1], e) + (if log[|log| - 1] == e then 1 else 0)
  }

  /** Each successful start pays for at most one successful stop, and a service that is still active
      has a start to spare. */
  lemma {:induction false} ReleasesNeverExceedStarts(g: Graph, log: seq<Event>, k: ServiceKey)
    requires Safe(g, log)
    ensures CountOf(log, Released(k)) + (if k in ActiveAfter(log) then 1 else 0) <= CountOf(log, Marked(k))
  {
    if log != [] {
      var n := |log| - 1;
      var prior := log[..n];
      SafePrefix(g, log, n);
      assert SafeNext(g, prior, log[n]);
      if log[n] == Released(k) {
        StopTargetIsActive(g, prior);
      }
      ReleasesNeverExceedStarts(g, prior, k);
    }
  }

  lemma {:induction false} SafePrefix(g: Graph, log: seq<Event>, n: nat)
    requires Safe(g, log) && n <= |log|
    ensures Safe(g, log[..n])
  {
    forall i | 0 <= i < n ensures SafeNext(g, log[..n][..i], log[..n][i]) {
      assert log[..n][..i] == log[..i];
    }
  }

  lemma {:induction false} StopTargetIsActive(g: Graph, log: seq<Event>)
    requires Safe(g, log) && log != [] && log[|log| - 1].StopBegan?
    ensures log[|log| - 1].key in ActiveAfter(log)
  {
  }
}
