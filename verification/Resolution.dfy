/** What building a component collection computes: memoising depth-first construction, step by step. */
module Resolution {
  import opened Runtime
  import opened Ordering

  type Loop = int

  datatype ComponentKey = ComponentKey(type_: string, name: string)

  datatype Scope = Singleton | EventLoop

  datatype Request = Request(key: ComponentKey, required: bool)

  datatype Product = Creates | ReturnsNull | Throws

  /** A factory makes its requests in order and then produces its component, nothing, or an exception. */
  datatype Factory = Factory(requests: seq<Request>, product: Product)

  datatype Registration = Registration(key: ComponentKey, scope: Scope, factory: Option<Factory>)

  /** A component: made by the container, for one loop when it is loop-local, or owned elsewhere. */
  datatype Instance = Made(key: ComponentKey, loop: Option<Loop>) | External(key: ComponentKey)

  /** One construction: the component, the loop it was built under, and what its requests were given. */
  datatype Creation = Creation(instance: Instance, loop: Option<Loop>, received: seq<Option<Instance>>)

  type Log = seq<Creation>

  datatype BuildError =
    | NoFactory(key: ComponentKey)
    | Duplicate(key: ComponentKey)
    | NeedsEventLoops(key: ComponentKey)
    | NotRegistered(key: ComponentKey)
    | Cycle(chain: seq<ComponentKey>)
    | OutsideLoop(key: ComponentKey)
    | FactoryFailed(key: ComponentKey)
    | FactoryNull(key: ComponentKey)

  /** What resolution works with: the indexed registrations, the application's loops and the keys the
      fallback provides. */
  datatype Catalog = Catalog(index: map<ComponentKey, Registration>, loops: seq<Loop>, provided: set<ComponentKey>)
  {
    ghost predicate Valid() {
      forall k :: k in index ==> index[k].key == k && index[k].factory.Some?
    }

    predicate LoopLocal(k: ComponentKey) {
      k in index && index[k].scope.EventLoop?
    }

    predicate OnLoop(loop: Option<Loop>) {
      loop.Some? && loop.value in loops
    }

    /** `k` can be built under `loop`. */
    predicate Fits(k: ComponentKey, loop: Option<Loop>) {
      k in index && (LoopLocal(k) ==> OnLoop(loop))
    }

    /** The component that `k` stands for under `loop`. */
    function Slot(k: ComponentKey, loop: Option<Loop>): Instance {
      Made(k, if LoopLocal(k) then loop else None)
    }

    function Requests(k: ComponentKey): seq<Request> {
      if k in index && index[k].factory.Some? then index[k].factory.value.requests else []
    }

    function ProductOf(k: ComponentKey): Product {
      if k in index && index[k].factory.Some? then index[k].factory.value.product else ReturnsNull
    }

    /** `k` asks for `d`. */
    ghost predicate Asks(k: ComponentKey, d: ComponentKey) {
      exists q :: q in Requests(k) && q.key == d
    }

    ghost predicate Chain(p: seq<ComponentKey>) {
      forall i, j :: 0 <= i < j < |p| && j == i + 1 ==> Asks(p[i], p[j])
    }

    /** A cycle of requests between registered components. */
    ghost predicate IsCycle(p: seq<ComponentKey>) {
      |p| >= 2 && p[0] == p[|p| - 1] && Chain(p) && Elements(p) <= index.Keys
    }

    ghost predicate Acyclic() {
      forall p :: !IsCycle(p)
    }

    /** Components under construction, each asked for by the one before. */
    ghost predicate IsStack(stack: seq<ComponentKey>) {
      Distinct(stack) && Elements(stack) <= index.Keys && Chain(stack)
    }
  }

  ghost predicate Has(log: Log, e: Instance) {
    exists i :: 0 <= i < |log| && log[i].instance == e
  }

  // ---------------------------------------------------------------- resolution

  datatype Resolved = Answer(log: Log, instance: Option<Instance>) | Failed(error: BuildError)

  datatype Gathering = Gathered(log: Log, received: seq<Option<Instance>>) | Stopped(error: BuildError)

  /** Resolves one request while the components on `stack` are under construction. */
  ghost function Resolve(c: Catalog, log: Log, stack: seq<ComponentKey>, q: Request, loop: Option<Loop>): Resolved
    decreases c.index.Keys - Elements(stack), 0
  {
    if Has(log, Made(q.key, None)) then Answer(log, Some(Made(q.key, None)))
    else if q.key !in c.index then
      if q.key in c.provided then Answer(log, Some(External(q.key)))
      else if q.required then Failed(NotRegistered(q.key)) else Answer(log, None)
    else if q.key in stack then Failed(Cycle(stack + [q.key]))
    else if !c.Fits(q.key, loop) then
      if q.required then Failed(OutsideLoop(q.key)) else Answer(log, None)
    else if Has(log, c.Slot(q.key, loop)) then Answer(log, Some(c.Slot(q.key, loop)))
    else
      assert q.key in c.index.Keys - Elements(stack) && q.key in Elements(stack + [q.key]);
      assert Elements(stack) <= Elements(stack + [q.key]);
      Construct(c, log, stack + [q.key], q.key, loop)
  }

  /** Runs the factory of `key`, which is on top of the stack. */
  ghost function Construct(c: Catalog, log: Log, stack: seq<ComponentKey>, key: ComponentKey, loop: Option<Loop>): Resolved
    decreases c.index.Keys - Elements(stack), |c.Requests(key)| + 2
  {
    var g := Gather(c, log, stack, c.Requests(key), loop, []);
    if g.Stopped? then Failed(g.error)
    else
      match c.ProductOf(key)
      case Throws => Failed(FactoryFailed(key))
      case ReturnsNull => Failed(FactoryNull(key))
      case Creates => Answer(g.log + [Creation(c.Slot(key, loop), loop, g.received)], Some(c.Slot(key, loop)))
  }

  /** Resolves a factory's remaining requests. */
  ghost function Gather(c: Catalog, log: Log, stack: seq<ComponentKey>, requests: seq<Request>, loop: Option<Loop>,
                        received: seq<Option<Instance>>): Gathering
    decreases c.index.Keys - Elements(stack), |requests| + 1
  {
    if requests == [] then Gathered(log, received)
    else
      var one := Resolve(c, log, stack, requests[0], loop);
      if one.Failed? then Stopped(one.error)
      else Gather(c, one.log, stack, requests[1..], loop, received + [one.instance])
  }

  // ---------------------------------------------------------------- what a log promises

  /** What a request is given, by what was built before or by the fallback. */
  ghost predicate Granted(c: Catalog, before: Log, loop: Option<Loop>, q: Request, r: Option<Instance>) {
    if q.key !in c.index then r == (if q.key in c.provided then Some(External(q.key)) else None) && (r.None? ==> !q.required)
    else if c.Fits(q.key, loop) then r == Some(c.Slot(q.key, loop)) && Has(before, c.Slot(q.key, loop))
    else r == None && !q.required
  }

  /** A construction by a working factory, for the first time, with every request granted. */
  ghost predicate WellMade(c: Catalog, before: Log, e: Creation) {
    && e.instance.Made? && c.Fits(e.instance.key, e.loop) && e.instance == c.Slot(e.instance.key, e.loop)
    && c.ProductOf(e.instance.key).Creates?
    && !Has(before, e.instance)
    && |e.received| == |c.Requests(e.instance.key)|
    && forall j :: 0 <= j < |e.received| ==> Granted(c, before, e.loop, c.Requests(e.instance.key)[j], e.received[j])
  }

  ghost predicate WellMadeAt(c: Catalog, log: Log, i: nat)
    requires i < |log|
  {
    WellMade(c, log[..i], log[i])
  }

  ghost predicate WellBuilt(c: Catalog, log: Log) {
    forall i :: 0 <= i < |log| ==> WellMadeAt(c, log, i)
  }

  lemma {:induction false} WellBuiltExtends(c: Catalog, log: Log, e: Creation)
    requires WellBuilt(c, log) && WellMade(c, log, e)
    ensures WellBuilt(c, log + [e])
  {
    var more := log + [e];
    forall i | 0 <= i < |more| ensures WellMadeAt(c, more, i) {
      if i < |log| {
        assert WellMadeAt(c, log, i);
        assert more[..i] == log[..i];
      } else {
        assert more[..i] == log;
      }
    }
  }

  lemma {:induction false} HasStays(before: Log, after: Log, e: Instance)
    requires before <= after && Has(before, e)
    ensures Has(after, e)
  {
    var i :| 0 <= i < |before| && before[i].instance == e;
    assert after[i].instance == e;
  }

  lemma {:induction false} GrantStays(c: Catalog, before: Log, after: Log, loop: Option<Loop>, q: Request, r: Option<Instance>)
    requires before <= after && Granted(c, before, loop, q, r)
    ensures Granted(c, after, loop, q, r)
  {
    if q.key in c.index && c.Fits(q.key, loop) {
      HasStays(before, after, c.Slot(q.key, loop));
    }
  }

  /** Singleton slots hold singletons only. */
  lemma {:induction false} SlotKind(c: Catalog, log: Log, k: ComponentKey)
    requires WellBuilt(c, log) && Has(log, Made(k, None))
    ensures k in c.index && !c.LoopLocal(k)
  {
    var i :| 0 <= i < |log| && log[i].instance == Made(k, None);
    assert WellMadeAt(c, log, i);
  }

  /** `after` extends `before` by components built under `loop` that are not on the stack. */
  ghost predicate Grows(before: Log, after: Log, stack: seq<ComponentKey>, loop: Option<Loop>) {
    before <= after && forall i :: |before| <= i < |after| ==> after[i].loop == loop && after[i].instance.key !in stack
  }

  lemma {:induction false} GrowsTogether(a: Log, b: Log, c: Log, stack: seq<ComponentKey>, loop: Option<Loop>)
    requires Grows(a, b, stack, loop) && Grows(b, c, stack, loop)
    ensures Grows(a, c, stack, loop)
  {
  }

  // ---------------------------------------------------------------- what an error says

  /** A registered component requires `k`. */
  ghost predicate RequiredBy(c: Catalog, x: ComponentKey, k: ComponentKey) {
    x in c.index && Request(k, true) in c.Requests(x)
  }

  /** What an error says about the catalog. */
  ghost predicate Explains(c: Catalog, e: BuildError) {
    match e
    case NotRegistered(k) => k !in c.index && k !in c.provided && exists x :: RequiredBy(c, x, k)
    case Cycle(chain) => exists n :: CycleFrom(c, chain, n)
    case OutsideLoop(k) => c.LoopLocal(k) && exists x :: RequiredBy(c, x, k) && !c.LoopLocal(x)
    case FactoryFailed(k) => k in c.index && c.ProductOf(k).Throws?
    case FactoryNull(k) => k in c.index && c.ProductOf(k).ReturnsNull?
    case NeedsEventLoops(k) => c.LoopLocal(k) && c.loops == []
    case _ => false
  }

  /** The reported chain ends in a cycle. */
  ghost predicate CycleFrom(c: Catalog, chain: seq<ComponentKey>, n: nat) {
    n <= |chain| && c.IsCycle(chain[n..])
  }

  lemma {:induction false} RepeatIsCycle(c: Catalog, stack: seq<ComponentKey>, key: ComponentKey)
    requires c.IsStack(stack) && key in stack && c.Asks(stack[|stack| - 1], key)
    ensures Explains(c, Cycle(stack + [key]))
  {
    var chain := stack + [key];
    var n :| 0 <= n < |stack| && stack[n] == key;
    var p := chain[n..];
    assert p == stack[n..] + [key];
    assert Elements(p) <= c.index.Keys;
    assert CycleFrom(c, chain, n);
  }

  lemma {:induction false} StackGrows(c: Catalog, stack: seq<ComponentKey>, key: ComponentKey)
    requires c.IsStack(stack) && key in c.index && key !in stack && (stack != [] ==> c.Asks(stack[|stack| - 1], key))
    ensures c.IsStack(stack + [key]) && key in c.index.Keys - Elements(stack)
    ensures c.index.Keys - Elements(stack + [key]) == c.index.Keys - Elements(stack) - {key}
  {
  }

  /** The request is the next one of the component on top of the stack, or one of the build itself. */
  ghost predicate Asked(c: Catalog, stack: seq<ComponentKey>, q: Request, loop: Option<Loop>) {
    if stack == [] then c.Fits(q.key, loop)
    else q in c.Requests(stack[|stack| - 1]) && c.Fits(stack[|stack| - 1], loop)
  }

  /** A resolution keeps the log well built, adds only under its loop, and grants the request; or it explains
      its failure. */
  ghost predicate Sound(c: Catalog, log: Log, stack: seq<ComponentKey>, q: Request, loop: Option<Loop>, r: Resolved) {
    match r
    case Answer(after, instance) => WellBuilt(c, after) && Grows(log, after, stack, loop) && Granted(c, after, loop, q, instance)
    case Failed(error) => Explains(c, error)
  }

  ghost predicate GatherSound(c: Catalog, log: Log, stack: seq<ComponentKey>, key: ComponentKey, loop: Option<Loop>, g: Gathering) {
    match g
    case Gathered(after, received) =>
      && WellBuilt(c, after) && Grows(log, after, stack, loop) && AllGranted(c, after, loop, key, received)
      && |received| == |c.Requests(key)|
    case Stopped(error) => Explains(c, error)
  }

  /** The first requests of `key` have been granted. */
  ghost predicate AllGranted(c: Catalog, log: Log, loop: Option<Loop>, key: ComponentKey, received: seq<Option<Instance>>) {
    |received| <= |c.Requests(key)| &&
    forall j :: 0 <= j < |received| ==> Granted(c, log, loop, c.Requests(key)[j], received[j])
  }

  lemma {:induction false} AllGrantedStays(c: Catalog, before: Log, after: Log, loop: Option<Loop>, key: ComponentKey,
                                           received: seq<Option<Instance>>, q: Request, r: Option<Instance>)
    requires AllGranted(c, before, loop, key, received) && before <= after && Granted(c, after, loop, q, r)
    requires |received| < |c.Requests(key)| && q == c.Requests(key)[|received|]
    ensures AllGranted(c, after, loop, key, received + [r])
  {
    forall j | 0 <= j < |received| ensures Granted(c, after, loop, c.Requests(key)[j], received[j]) {
      GrantStays(c, before, after, loop, c.Requests(key)[j], received[j]);
    }
  }

  lemma {:induction false} ResolveIsSound(c: Catalog, log: Log, stack: seq<ComponentKey>, q: Request, loop: Option<Loop>)
    requires c.Valid() && WellBuilt(c, log) && c.IsStack(stack) && Asked(c, stack, q, loop)
    ensures Sound(c, log, stack, q, loop, Resolve(c, log, stack, q, loop))
    decreases c.index.Keys - Elements(stack), 0
  {
    if Has(log, Made(q.key, None)) {
      SlotKind(c, log, q.key);
    } else if q.key !in c.index {
      assert q.required ==> stack != [] ==> RequiredBy(c, stack[|stack| - 1], q.key);
    } else if q.key in stack {
      RepeatIsCycle(c, stack, q.key);
    } else if !c.Fits(q.key, loop) {
      assert q.required ==> RequiredBy(c, stack[|stack| - 1], q.key);
    } else if !Has(log, c.Slot(q.key, loop)) {
      StackGrows(c, stack, q.key);
      ConstructIsSound(c, log, stack, q, loop);
    }
  }

  lemma {:induction false} ConstructIsSound(c: Catalog, log: Log, below: seq<ComponentKey>, q: Request, loop: Option<Loop>)
    requires c.Valid() && WellBuilt(c, log) && c.IsStack(below + [q.key]) && c.Fits(q.key, loop)
    requires !Has(log, c.Slot(q.key, loop))
    ensures Sound(c, log, below, q, loop, Construct(c, log, below + [q.key], q.key, loop))
    decreases c.index.Keys - Elements(below + [q.key]), |c.Requests(q.key)| + 2
  {
    var stack := below + [q.key];
    var g := Gather(c, log, stack, c.Requests(q.key), loop, []);
    GatherIsSound(c, log, stack, q.key, loop, []);
    assert c.Requests(q.key)[0..] == c.Requests(q.key);
    assert stack[|below|] == q.key && forall i :: 0 <= i < |below| ==> stack[i] == below[i];
    if g.Gathered? && c.ProductOf(q.key).Creates? {
      CreationIsSound(c, log, g.log, below, q, loop, g.received);
    }
  }

  lemma {:induction false} CreationIsSound(c: Catalog, log: Log, gathered: Log, below: seq<ComponentKey>, q: Request,
                                           loop: Option<Loop>, received: seq<Option<Instance>>)
    requires WellBuilt(c, gathered) && Grows(log, gathered, below + [q.key], loop) && c.Fits(q.key, loop)
    requires AllGranted(c, gathered, loop, q.key, received) && |received| == |c.Requests(q.key)|
    requires !Has(log, c.Slot(q.key, loop)) && c.ProductOf(q.key).Creates? && q.key !in below
    ensures var e := Creation(c.Slot(q.key, loop), loop, received);
      Sound(c, log, below, q, loop, Answer(gathered + [e], Some(e.instance)))
  {
    var e := Creation(c.Slot(q.key, loop), loop, received);
    forall i | 0 <= i < |gathered| ensures gathered[i].instance != e.instance {
      assert i < |log| ==> log[i] == gathered[i];
      assert (below + [q.key])[|below|] == q.key;
    }
    WellBuiltExtends(c, gathered, e);
    var after := gathered + [e];
    assert after[|gathered|].instance == e.instance;
    forall i | |log| <= i < |after| ensures after[i].loop == loop && after[i].instance.key !in below {
      if i == |gathered| {
        assert after[i] == e;
      } else {
        assert gathered[i].instance.key !in below + [q.key];
      }
    }
  }

  lemma {:induction false} GatherIsSound(c: Catalog, log: Log, stack: seq<ComponentKey>, key: ComponentKey, loop: Option<Loop>,
                                         received: seq<Option<Instance>>)
    requires c.Valid() && WellBuilt(c, log) && c.IsStack(stack) && stack != [] && stack[|stack| - 1] == key && c.Fits(key, loop)
    requires AllGranted(c, log, loop, key, received)
    ensures GatherSound(c, log, stack, key, loop, Gather(c, log, stack, c.Requests(key)[|received|..], loop, received))
    decreases c.index.Keys - Elements(stack), |c.Requests(key)| - |received| + 1
  {
    var requests := c.Requests(key)[|received|..];
    if requests != [] {
      assert requests[0] == c.Requests(key)[|received|] && requests[1..] == c.Requests(key)[|received| + 1..];
      ResolveIsSound(c, log, stack, requests[0], loop);
      var one := Resolve(c, log, stack, requests[0], loop);
      if one.Answer? {
        AllGrantedStays(c, log, one.log, loop, key, received, requests[0], one.instance);
        GatherIsSound(c, one.log, stack, key, loop, received + [one.instance]);
        var g := Gather(c, one.log, stack, requests[1..], loop, received + [one.instance]);
        if g.Gathered? {
          GrowsTogether(log, one.log, g.log, stack, loop);
        }
      }
    }
  }

  // ---------------------------------------------------------------- building a collection

  datatype Built = Complete(log: Log) | Rejected(error: BuildError)

  /** Builds a loop-local component for each of `loops`. */
  ghost function BuildOnLoops(c: Catalog, log: Log, key: ComponentKey, loops: seq<Loop>): Built
    decreases |loops|
  {
    if loops == [] then Complete(log)
    else
      var one := Resolve(c, log, [], Request(key, true), Some(loops[0]));
      if one.Failed? then Rejected(one.error) else BuildOnLoops(c, one.log, key, loops[1..])
  }

  /** Builds one registration: a singleton once, a loop-local component on every loop. */
  ghost function BuildOne(c: Catalog, log: Log, item: Registration): Built {
    if item.scope.Singleton? then
      var one := Resolve(c, log, [], Request(item.key, true), None);
      if one.Failed? then Rejected(one.error) else Complete(one.log)
    else if c.loops == [] then Rejected(NeedsEventLoops(item.key))
    else BuildOnLoops(c, log, item.key, c.loops)
  }

  ghost function BuildAll(c: Catalog, log: Log, registrations: seq<Registration>): Built
    decreases |registrations|
  {
    if registrations == [] then Complete(log)
    else
      var one := BuildOne(c, log, registrations[0]);
      if one.Rejected? then one else BuildAll(c, one.log, registrations[1..])
  }

  /** The first registration that cannot be indexed: without a factory, or with a key used before. */
  function IndexFault(registrations: seq<Registration>): Option<BuildError> {
    if registrations == [] then None
    else
      var n := |registrations| - 1;
      var before := IndexFault(registrations[..n]);
      if before.Some? then before
      else if registrations[n].factory.None? then Some(NoFactory(registrations[n].key))
      else if exists i :: 0 <= i < n && registrations[i].key == registrations[n].key then Some(Duplicate(registrations[n].key))
      else None
  }

  function IndexOf(registrations: seq<Registration>): map<ComponentKey, Registration> {
    if registrations == [] then map[]
    else
      var n := |registrations| - 1;
      IndexOf(registrations[..n])[registrations[n].key := registrations[n]]
  }

  /** What building a collection comes to. */
  ghost function BuildOf(registrations: seq<Registration>, loops: seq<Loop>, provided: set<ComponentKey>): Built {
    var fault := IndexFault(registrations);
    if fault.Some? then Rejected(fault.value)
    else BuildAll(Catalog(IndexOf(registrations), loops, provided), [], registrations)
  }

  ghost predicate DistinctKeys(registrations: seq<Registration>) {
    forall i, j :: 0 <= i < j < |registrations| ==> registrations[i].key != registrations[j].key
  }

  ghost predicate AllHaveFactories(registrations: seq<Registration>) {
    forall reg :: reg in registrations ==> reg.factory.Some?
  }

  /** The index holds exactly the registrations, under their keys. */
  ghost predicate Indexes(index: map<ComponentKey, Registration>, registrations: seq<Registration>) {
    && (forall reg :: reg in registrations ==> reg.key in index && index[reg.key] == reg)
    && (forall k :: k in index ==> index[k] in registrations && index[k].key == k)
  }

  /** What an indexing error says about the registrations. */
  ghost predicate FaultOf(registrations: seq<Registration>, e: BuildError) {
    || (e.NoFactory? && exists i :: 0 <= i < |registrations| && registrations[i].key == e.key && registrations[i].factory.None?)
    || (e.Duplicate? && exists i, j :: 0 <= i < j < |registrations| && registrations[i].key == registrations[j].key == e.key)
  }

  /** Indexing fails exactly on a missing factory or a repeated key. */
  lemma {:induction false} IndexFaultIff(registrations: seq<Registration>)
    ensures IndexFault(registrations).None? <==> DistinctKeys(registrations) && AllHaveFactories(registrations)
  {
    if registrations != [] {
      var n := |registrations| - 1;
      var before := registrations[..n];
      IndexFaultIff(before);
      assert registrations == before + [registrations[n]];
    }
  }

  /** And says which. */
  lemma {:induction false} IndexFaultNames(registrations: seq<Registration>)
    requires IndexFault(registrations).Some?
    ensures FaultOf(registrations, IndexFault(registrations).value)
  {
    var n := |registrations| - 1;
    var before := registrations[..n];
    if IndexFault(before).Some? {
      IndexFaultNames(before);
    }
  }

  lemma {:induction false} IndexIsExact(registrations: seq<Registration>)
    requires IndexFault(registrations).None?
    ensures Indexes(IndexOf(registrations), registrations)
  {
    if registrations != [] {
      var n := |registrations| - 1;
      var before := registrations[..n];
      IndexIsExact(before);
      IndexGrows(IndexOf(before), before, registrations[n]);
      assert registrations == before + [registrations[n]];
    }
  }

  lemma {:induction false} IndexFaultMeans(registrations: seq<Registration>)
    ensures IndexFault(registrations).None? <==> DistinctKeys(registrations) && AllHaveFactories(registrations)
    ensures IndexFault(registrations).Some? ==> FaultOf(registrations, IndexFault(registrations).value)
    ensures IndexFault(registrations).None? ==> Indexes(IndexOf(registrations), registrations)
  {
    IndexFaultIff(registrations);
    if IndexFault(registrations).Some? {
      IndexFaultNames(registrations);
    } else {
      IndexIsExact(registrations);
    }
  }

  lemma {:induction false} IndexGrows(index: map<ComponentKey, Registration>, registrations: seq<Registration>, item: Registration)
    requires Indexes(index, registrations) && forall i :: 0 <= i < |registrations| ==> registrations[i].key != item.key
    ensures Indexes(index[item.key := item], registrations + [item])
  {
  }

  lemma {:induction false} IndexIsUnique(registrations: seq<Registration>, a: map<ComponentKey, Registration>, b: map<ComponentKey, Registration>)
    requires Indexes(a, registrations) && Indexes(b, registrations)
    ensures a == b
  {
  }

  /** The registration is built: once, or on every loop. */
  ghost predicate IsBuilt(c: Catalog, log: Log, reg: Registration) {
    if reg.scope.Singleton? then Has(log, Made(reg.key, None))
    else c.loops != [] && forall l :: l in c.loops ==> Has(log, Made(reg.key, Some(l)))
  }

  ghost predicate AllBuilt(c: Catalog, log: Log, registrations: seq<Registration>) {
    forall reg :: reg in registrations ==> IsBuilt(c, log, reg)
  }

  lemma {:induction false} BuiltOnLoop(c: Catalog, log: Log, reg: Registration, l: Loop)
    requires IsBuilt(c, log, reg) && reg.scope.EventLoop? && l in c.loops
    ensures Has(log, Made(reg.key, Some(l)))
  {
  }

  lemma {:induction false} BuiltStays(c: Catalog, before: Log, after: Log, reg: Registration)
    requires before <= after && IsBuilt(c, before, reg)
    ensures IsBuilt(c, after, reg)
  {
    if reg.scope.Singleton? {
      HasStays(before, after, Made(reg.key, None));
    } else {
      forall l | l in c.loops ensures Has(after, Made(reg.key, Some(l))) {
        HasStays(before, after, Made(reg.key, Some(l)));
      }
    }
  }

  lemma {:induction false} OnLoopsIsSound(c: Catalog, log: Log, key: ComponentKey, done: seq<Loop>, loops: seq<Loop>)
    requires c.Valid() && WellBuilt(c, log) && c.LoopLocal(key) && c.loops == done + loops
    requires forall l :: l in done ==> Has(log, Made(key, Some(l)))
    ensures match BuildOnLoops(c, log, key, loops)
      case Complete(after) => log <= after && WellBuilt(c, after) && forall l :: l in c.loops ==> Has(after, Made(key, Some(l)))
      case Rejected(error) => Explains(c, error)
    decreases |loops|
  {
    if loops != [] {
      var l := loops[0];
      assert l in done + loops;
      ResolveIsSound(c, log, [], Request(key, true), Some(l));
      var one := Resolve(c, log, [], Request(key, true), Some(l));
      if one.Answer? {
        forall x | x in done + [l] ensures Has(one.log, Made(key, Some(x))) {
          if x in done {
            HasStays(log, one.log, Made(key, Some(x)));
          }
        }
        assert c.loops == done + [l] + loops[1..];
        OnLoopsIsSound(c, one.log, key, done + [l], loops[1..]);
      }
    }
  }

  lemma {:induction false} OneIsSound(c: Catalog, log: Log, item: Registration)
    requires c.Valid() && WellBuilt(c, log) && item.key in c.index && c.index[item.key] == item
    ensures match BuildOne(c, log, item)
      case Complete(after) => log <= after && WellBuilt(c, after) && IsBuilt(c, after, item)
      case Rejected(error) => Explains(c, error)
  {
    if item.scope.Singleton? {
      ResolveIsSound(c, log, [], Request(item.key, true), None);
    } else if c.loops != [] {
      OnLoopsIsSound(c, log, item.key, [], c.loops);
    }
  }

  ghost predicate InIndex(c: Catalog, registrations: seq<Registration>) {
    forall reg :: reg in registrations ==> reg.key in c.index && c.index[reg.key] == reg
  }

  /** A build either builds everything in a well-built order or explains its error. */
  lemma {:induction false} AllIsSound(c: Catalog, log: Log, registrations: seq<Registration>)
    requires c.Valid() && WellBuilt(c, log) && InIndex(c, registrations)
    ensures match BuildAll(c, log, registrations)
      case Complete(after) => log <= after && WellBuilt(c, after) && AllBuilt(c, after, registrations)
      case Rejected(error) => Explains(c, error)
    decreases |registrations|
  {
    if registrations != [] {
      var item := registrations[0];
      OneIsSound(c, log, item);
      var one := BuildOne(c, log, item);
      if one.Complete? {
        AllIsSound(c, one.log, registrations[1..]);
        var all := BuildAll(c, one.log, registrations[1..]);
        if all.Complete? {
          BuiltStays(c, one.log, all.log, item);
        }
      }
    }
  }

  // ---------------------------------------------------------------- which collections build

  function CatalogOf(registrations: seq<Registration>, loops: seq<Loop>, provided: set<ComponentKey>): Catalog {
    Catalog(IndexOf(registrations), loops, provided)
  }

  /** Every required request is registered or provided. */
  ghost predicate Satisfied(c: Catalog) {
    forall k, q :: k in c.index && q in c.Requests(k) && q.required ==> q.key in c.index || q.key in c.provided
  }

  ghost predicate AllCreate(c: Catalog) {
    forall k :: k in c.index ==> c.ProductOf(k).Creates?
  }

  ghost predicate LoopsAvailable(c: Catalog) {
    forall k :: c.LoopLocal(k) ==> c.loops != []
  }

  /** No singleton requires a loop-local component. */
  ghost predicate SingletonsStandAlone(c: Catalog) {
    forall k, d :: RequiredBy(c, k, d) && !c.LoopLocal(k) ==> !c.LoopLocal(d)
  }

  /** What a caller can check: the collection is well formed, complete, acyclic, and asks for loops only where
      there are some. */
  ghost predicate Buildable(registrations: seq<Registration>, loops: seq<Loop>, provided: set<ComponentKey>) {
    var c := CatalogOf(registrations, loops, provided);
    && DistinctKeys(registrations) && AllHaveFactories(registrations)
    && AllCreate(c) && Satisfied(c) && LoopsAvailable(c) && SingletonsStandAlone(c) && c.Acyclic()
  }

  lemma {:induction false} ErrorRefutes(c: Catalog, e: BuildError)
    requires Explains(c, e)
    ensures !(AllCreate(c) && Satisfied(c) && LoopsAvailable(c) && SingletonsStandAlone(c) && c.Acyclic())
  {
    match e
    case NotRegistered(k) =>
      var x :| RequiredBy(c, x, k);
      assert Request(k, true).required;
    case Cycle(chain) =>
      var n :| CycleFrom(c, chain, n);
    case OutsideLoop(k) =>
      var x :| RequiredBy(c, x, k) && !c.LoopLocal(x);
    case _ =>
  }

  lemma {:induction false} CatalogIsValid(registrations: seq<Registration>, loops: seq<Loop>, provided: set<ComponentKey>)
    requires IndexFault(registrations).None?
    ensures var c := CatalogOf(registrations, loops, provided);
      c.Valid() && InIndex(c, registrations) && Indexes(c.index, registrations)
  {
    IndexFaultMeans(registrations);
  }

  /** Every outcome of a build, explained. */
  lemma {:induction false} BuildIsSound(registrations: seq<Registration>, loops: seq<Loop>, provided: set<ComponentKey>)
    ensures var c := CatalogOf(registrations, loops, provided);
      match BuildOf(registrations, loops, provided)
      case Complete(log) => WellBuilt(c, log) && AllBuilt(c, log, registrations)
      case Rejected(e) => FaultOf(registrations, e) || Explains(c, e)
  {
    IndexFaultMeans(registrations);
    if IndexFault(registrations).None? {
      CatalogIsValid(registrations, loops, provided);
      AllIsSound(CatalogOf(registrations, loops, provided), [], registrations);
    }
  }

  lemma {:induction false} BuildableBuilds(registrations: seq<Registration>, loops: seq<Loop>, provided: set<ComponentKey>)
    requires Buildable(registrations, loops, provided)
    ensures BuildOf(registrations, loops, provided).Complete?
  {
    var c := CatalogOf(registrations, loops, provided);
    IndexFaultMeans(registrations);
    CatalogIsValid(registrations, loops, provided);
    AllIsSound(c, [], registrations);
    var built := BuildAll(c, [], registrations);
    if built.Rejected? {
      ErrorRefutes(c, built.error);
    }
  }

  // ---------------------------------------------------------------- descending chains

  ghost function Position(log: Log, e: Instance): (i: nat)
    requires Has(log, e)
    ensures i < |log| && log[i].instance == e
  {
    var i :| 0 <= i < |log| && log[i].instance == e;
    i
  }

  /** Nothing is created twice. */
  lemma {:induction false} BuiltOnce(c: Catalog, log: Log, i: nat, j: nat)
    requires WellBuilt(c, log) && i < j < |log|
    ensures log[i].instance != log[j].instance
  {
    assert WellMadeAt(c, log, j);
    assert log[..j][i] == log[i];
  }

  lemma {:induction false} PositionBefore(c: Catalog, log: Log, i: nat, e: Instance)
    requires WellBuilt(c, log) && i <= |log| && Has(log[..i], e)
    ensures Has(log, e) && Position(log, e) < i
  {
    var j :| 0 <= j < i && log[..i][j].instance == e;
    assert log[j].instance == e;
    if j < Position(log, e) {
      BuiltOnce(c, log, j, Position(log, e));
    }
  }

  /** Under `loop` every request between these keys is granted: they are singletons, or everything in the log
      was built under that one loop. */
  ghost predicate Uniform(c: Catalog, log: Log, keys: set<ComponentKey>, loop: Option<Loop>) {
    || (forall k :: k in keys ==> !c.LoopLocal(k))
    || (c.OnLoop(loop) && forall i :: 0 <= i < |log| ==> log[i].loop == loop)
  }

  lemma {:induction false} AskedEarlier(c: Catalog, log: Log, keys: set<ComponentKey>, loop: Option<Loop>, k: ComponentKey, d: ComponentKey)
    requires WellBuilt(c, log) && keys <= c.index.Keys && Uniform(c, log, keys, loop) && k in keys && d in keys
    requires c.Asks(k, d) && Has(log, c.Slot(k, loop))
    ensures Has(log, c.Slot(d, loop)) && Position(log, c.Slot(d, loop)) < Position(log, c.Slot(k, loop))
  {
    var i := Position(log, c.Slot(k, loop));
    assert WellMadeAt(c, log, i);
    var j :| 0 <= j < |c.Requests(k)| && c.Requests(k)[j].key == d;
    assert Granted(c, log[..i], log[i].loop, c.Requests(k)[j], log[i].received[j]);
    PositionBefore(c, log, i, c.Slot(d, loop));
  }

  lemma {:induction false} ChainDescends(c: Catalog, log: Log, keys: set<ComponentKey>, loop: Option<Loop>, p: seq<ComponentKey>)
    requires WellBuilt(c, log) && keys <= c.index.Keys && Uniform(c, log, keys, loop)
    requires |p| >= 2 && Elements(p) <= keys && c.Chain(p) && Has(log, c.Slot(p[0], loop))
    ensures Has(log, c.Slot(p[|p| - 1], loop)) && Position(log, c.Slot(p[|p| - 1], loop)) < Position(log, c.Slot(p[0], loop))
    decreases |p|
  {
    assert p[0] in Elements(p) && p[1] in Elements(p);
    AskedEarlier(c, log, keys, loop, p[0], p[1]);
    if |p| > 2 {
      assert Elements(p[1..]) <= Elements(p) && c.Chain(p[1..]);
      ChainDescends(c, log, keys, loop, p[1..]);
    }
  }

  /** So such keys are on no cycle. */
  lemma {:induction false} UniformExcludesCycle(c: Catalog, log: Log, loop: Option<Loop>, p: seq<ComponentKey>)
    requires WellBuilt(c, log) && c.IsCycle(p) && Has(log, c.Slot(p[0], loop))
    ensures !Uniform(c, log, Elements(p), loop)
  {
    if Uniform(c, log, Elements(p), loop) {
      ChainDescends(c, log, Elements(p), loop, p);
    }
  }

  /** A cycle can be entered at any of its members. */
  lemma {:induction false} Rotate(c: Catalog, p: seq<ComponentKey>, m: nat) returns (q: seq<ComponentKey>)
    requires c.IsCycle(p) && m < |p|
    ensures c.IsCycle(q) && q[0] == p[m]
  {
    if m == |p| - 1 {
      q := p;
    } else {
      q := p[m..] + p[1..m + 1];
      assert Elements(q) <= Elements(p);
      forall i, j | 0 <= i < j < |q| && j == i + 1 ensures c.Asks(q[i], q[j]) {
        if j < |p| - m {
          assert q[i] == p[m + i] && q[j] == p[m + j];
        } else if j == |p| - m {
          assert q[i] == p[|p| - 1] && q[j] == p[1];
        } else {
          assert q[i] == p[i - (|p| - m) + 1] && q[j] == p[j - (|p| - m) + 1];
        }
      }
    }
  }

  // ---------------------------------------------------------------- building in every order

  /** What the first registration leads to is all built under one loop. */
  lemma {:induction false} FirstBatch(c: Catalog, registrations: seq<Registration>) returns (log: Log, loop: Option<Loop>)
    requires c.Valid() && InIndex(c, registrations) && registrations != [] && BuildAll(c, [], registrations).Complete?
    ensures WellBuilt(c, log) && c.Fits(registrations[0].key, loop) && Has(log, c.Slot(registrations[0].key, loop))
    ensures forall i :: 0 <= i < |log| ==> log[i].loop == loop
    ensures !c.LoopLocal(registrations[0].key) ==> loop == None
  {
    var item := registrations[0];
    assert item in registrations;
    loop := if item.scope.Singleton? then None else Some(c.loops[0]);
    ResolveIsSound(c, [], [], Request(item.key, true), loop);
    log := Resolve(c, [], [], Request(item.key, true), loop).log;
  }

  lemma {:induction false} BuiltOutsideLoops(c: Catalog, log: Log, k: ComponentKey, d: ComponentKey)
    requires WellBuilt(c, log) && Has(log, Made(k, None)) && RequiredBy(c, k, d)
    requires forall i :: 0 <= i < |log| ==> log[i].loop == None
    ensures !c.LoopLocal(d)
  {
    var i := Position(log, Made(k, None));
    assert WellMadeAt(c, log, i);
    var j :| 0 <= j < |c.Requests(k)| && c.Requests(k)[j] == Request(d, true);
    assert Granted(c, log[..i], log[i].loop, c.Requests(k)[j], log[i].received[j]);
  }

  /** A singleton that requires a loop-local component cannot come first. */
  lemma {:induction false} LonelyFirst(c: Catalog, registrations: seq<Registration>, d: ComponentKey)
    requires c.Valid() && InIndex(c, registrations) && registrations != []
    requires RequiredBy(c, registrations[0].key, d) && !c.LoopLocal(registrations[0].key) && c.LoopLocal(d)
    ensures BuildAll(c, [], registrations).Rejected?
  {
    if BuildAll(c, [], registrations).Complete? {
      var log, loop := FirstBatch(c, registrations);
      BuiltOutsideLoops(c, log, registrations[0].key, d);
    }
  }

  /** Nor can a loop-local component on a cycle. */
  lemma {:induction false} CyclicFirst(c: Catalog, registrations: seq<Registration>, p: seq<ComponentKey>)
    requires c.Valid() && InIndex(c, registrations) && registrations != []
    requires c.IsCycle(p) && p[0] == registrations[0].key && c.LoopLocal(p[0])
    ensures BuildAll(c, [], registrations).Rejected?
  {
    if BuildAll(c, [], registrations).Complete? {
      var log, loop := FirstBatch(c, registrations);
      UniformExcludesCycle(c, log, loop, p);
    }
  }

  /** In any order, a complete build of singletons on a cycle is impossible. */
  lemma {:induction false} SingletonCycle(c: Catalog, log: Log, registrations: seq<Registration>, p: seq<ComponentKey>)
    requires WellBuilt(c, log) && AllBuilt(c, log, registrations) && Indexes(c.index, registrations) && c.IsCycle(p)
    ensures exists k :: k in p && c.LoopLocal(k)
  {
    if forall k :: k in p ==> !c.LoopLocal(k) {
      assert p[0] in Elements(p);
      assert IsBuilt(c, log, c.index[p[0]]);
      UniformExcludesCycle(c, log, None, p);
    }
  }

  function Fronted(registrations: seq<Registration>, i: nat): seq<Registration>
    requires i < |registrations|
  {
    [registrations[i]] + registrations[..i] + registrations[i + 1..]
  }

  lemma {:induction false} FrontedIsPermutation(registrations: seq<Registration>, i: nat)
    requires i < |registrations|
    ensures multiset(Fronted(registrations, i)) == multiset(registrations)
  {
    assert registrations == registrations[..i] + [registrations[i]] + registrations[i + 1..];
  }

  function KeysOf(registrations: seq<Registration>): set<ComponentKey> {
    set reg | reg in registrations :: reg.key
  }

  lemma {:induction false} DistinctKeysSize(registrations: seq<Registration>)
    ensures |KeysOf(registrations)| <= |registrations|
    ensures DistinctKeys(registrations) <==> |KeysOf(registrations)| == |registrations|
  {
    if registrations != [] {
      var n := |registrations| - 1;
      var before, last := registrations[..n], registrations[n];
      DistinctKeysSize(before);
      assert registrations == before + [last];
      assert KeysOf(registrations) == KeysOf(before) + {last.key};
      if last.key in KeysOf(before) {
        assert KeysOf(registrations) == KeysOf(before);
        var i :| 0 <= i < n && before[i].key == last.key;
        assert registrations[i].key == registrations[n].key;
      }
    }
  }

  /** The order of the registrations changes neither the index nor its faults. */
  lemma {:induction false} SameCatalog(a: seq<Registration>, b: seq<Registration>)
    requires multiset(a) == multiset(b) && IndexFault(a).None?
    ensures IndexFault(b).None? && IndexOf(b) == IndexOf(a)
  {
    SameElements(a, b);
    IndexFaultMeans(a);
    IndexFaultMeans(b);
    DistinctKeysSize(a);
    DistinctKeysSize(b);
    assert KeysOf(a) == KeysOf(b);
    assert Indexes(IndexOf(a), b);
    IndexIsUnique(b, IndexOf(a), IndexOf(b));
  }

  ghost predicate BuildsInEveryOrder(registrations: seq<Registration>, loops: seq<Loop>, provided: set<ComponentKey>) {
    forall p :: multiset(p) == multiset(registrations) ==> BuildOf(p, loops, provided).Complete?
  }

  lemma {:induction false} FrontedBuilds(registrations: seq<Registration>, loops: seq<Loop>, provided: set<ComponentKey>, k: ComponentKey)
    returns (p: seq<Registration>)
    requires BuildsInEveryOrder(registrations, loops, provided) && IndexFault(registrations).None?
    requires k in IndexOf(registrations)
    ensures var c := CatalogOf(registrations, loops, provided);
      c.Valid() && p != [] && p[0].key == k && InIndex(c, p) && BuildAll(c, [], p).Complete?
  {
    CatalogIsValid(registrations, loops, provided);
    var i :| 0 <= i < |registrations| && registrations[i] == IndexOf(registrations)[k];
    p := Fronted(registrations, i);
    FrontedIsPermutation(registrations, i);
    SameCatalog(registrations, p);
    SameElements(registrations, p);
    assert BuildOf(p, loops, provided).Complete?;
  }

  /** What a complete build in some order shows. */
  lemma {:induction false} CompleteShows(c: Catalog, log: Log, registrations: seq<Registration>)
    requires WellBuilt(c, log) && AllBuilt(c, log, registrations) && Indexes(c.index, registrations)
    ensures AllCreate(c) && Satisfied(c) && LoopsAvailable(c)
  {
    forall k | k in c.index
      ensures c.ProductOf(k).Creates? && (c.LoopLocal(k) ==> c.loops != [])
      ensures forall q :: q in c.Requests(k) && q.required ==> q.key in c.index || q.key in c.provided
    {
      assert IsBuilt(c, log, c.index[k]) && c.index[k].key == k;
      if c.LoopLocal(k) {
        BuiltOnLoop(c, log, c.index[k], c.loops[0]);
      }
      var loop := if c.LoopLocal(k) then Some(c.loops[0]) else None;
      var i := Position(log, c.Slot(k, loop));
      assert WellMadeAt(c, log, i);
      forall q | q in c.Requests(k) && q.required ensures q.key in c.index || q.key in c.provided {
        var j :| 0 <= j < |c.Requests(k)| && c.Requests(k)[j] == q;
        assert Granted(c, log[..i], log[i].loop, q, log[i].received[j]);
      }
    }
  }

  lemma {:induction false} EveryOrderIsAcyclic(registrations: seq<Registration>, loops: seq<Loop>, provided: set<ComponentKey>, log: Log,
                                               p: seq<ComponentKey>)
    requires BuildsInEveryOrder(registrations, loops, provided) && IndexFault(registrations).None?
    requires var c := CatalogOf(registrations, loops, provided);
      WellBuilt(c, log) && AllBuilt(c, log, registrations)
    ensures !CatalogOf(registrations, loops, provided).IsCycle(p)
  {
    var c := CatalogOf(registrations, loops, provided);
    CatalogIsValid(registrations, loops, provided);
    if c.IsCycle(p) {
      SingletonCycle(c, log, registrations, p);
      var m :| 0 <= m < |p| && c.LoopLocal(p[m]);
      var q := Rotate(c, p, m);
      var order := FrontedBuilds(registrations, loops, provided, q[0]);
      CyclicFirst(c, order, q);
    }
  }

  lemma {:induction false} EveryOrderStandsAlone(registrations: seq<Registration>, loops: seq<Loop>, provided: set<ComponentKey>,
                                                 k: ComponentKey, d: ComponentKey)
    requires BuildsInEveryOrder(registrations, loops, provided) && IndexFault(registrations).None?
    requires var c := CatalogOf(registrations, loops, provided);
      RequiredBy(c, k, d) && !c.LoopLocal(k)
    ensures !CatalogOf(registrations, loops, provided).LoopLocal(d)
  {
    var c := CatalogOf(registrations, loops, provided);
    var order := FrontedBuilds(registrations, loops, provided, k);
    if c.LoopLocal(d) {
      LonelyFirst(c, order, d);
    }
  }

  /** A collection builds in every order of its registrations exactly when it is buildable. */
  lemma {:induction false} EveryOrderBuilds(registrations: seq<Registration>, loops: seq<Loop>, provided: set<ComponentKey>)
    ensures BuildsInEveryOrder(registrations, loops, provided) <==> Buildable(registrations, loops, provided)
  {
    var c := CatalogOf(registrations, loops, provided);
    if Buildable(registrations, loops, provided) {
      IndexFaultMeans(registrations);
      forall p | multiset(p) == multiset(registrations) ensures BuildOf(p, loops, provided).Complete? {
        SameCatalog(registrations, p);
        IndexFaultMeans(p);
        BuildableBuilds(p, loops, provided);
      }
    }
    if BuildsInEveryOrder(registrations, loops, provided) {
      BuildIsSound(registrations, loops, provided);
      assert BuildOf(registrations, loops, provided).Complete?;
      IndexFaultMeans(registrations);
      var log := BuildOf(registrations, loops, provided).log;
      CompleteShows(c, log, registrations);
      forall p ensures !c.IsCycle(p) {
        EveryOrderIsAcyclic(registrations, loops, provided, log, p);
      }
      forall k, d | RequiredBy(c, k, d) && !c.LoopLocal(k) ensures !c.LoopLocal(d) {
        EveryOrderStandsAlone(registrations, loops, provided, k, d);
      }
    }
  }

  predicate AllSingletons(registrations: seq<Registration>) {
    forall reg :: reg in registrations ==> reg.scope.Singleton?
  }

  /** Singletons build in one order exactly when they build in every order. */
  lemma {:induction false} SingletonsBuild(registrations: seq<Registration>, loops: seq<Loop>, provided: set<ComponentKey>)
    requires AllSingletons(registrations)
    ensures BuildOf(registrations, loops, provided).Complete? <==> Buildable(registrations, loops, provided)
  {
    var c := CatalogOf(registrations, loops, provided);
    if Buildable(registrations, loops, provided) {
      BuildableBuilds(registrations, loops, provided);
    }
    if BuildOf(registrations, loops, provided).Complete? {
      var log := BuildOf(registrations, loops, provided).log;
      BuildIsSound(registrations, loops, provided);
      IndexFaultMeans(registrations);
      CompleteShows(c, log, registrations);
      assert forall k :: k in c.index ==> c.index[k] in registrations;
      forall p ensures !c.IsCycle(p) {
        if c.IsCycle(p) {
          SingletonCycle(c, log, registrations, p);
        }
      }
    }
  }

  // ---------------------------------------------------------------- when the order decides

  const A := ComponentKey("A", "")
  const B := ComponentKey("B", "")

  /** A singleton that asks optionally for a loop-local component, which requires the singleton. */
  const OPTIONAL_USER := Registration(A, Singleton, Some(Factory([Request(B, false)], Creates)))
  const LOOP_USER := Registration(B, EventLoop, Some(Factory([Request(A, true)], Creates)))

  lemma {:induction false} SmallIndex(first: Registration, second: Registration)
    requires first.key != second.key && first.factory.Some? && second.factory.Some?
    ensures IndexFault([first, second]).None? && IndexOf([first, second]) == map[first.key := first, second.key := second]
  {
    assert [first, second][..1] == [first] && [first][..0] == [];
    assert IndexOf([first]) == map[first.key := first];
    assert IndexFault([first]).None?;
  }

  lemma {:induction false} NothingHas(e: Instance)
    ensures !Has([], e)
  {
  }

  lemma {:induction false} SmallHas(entry: Creation, e: Instance)
    ensures Has([entry], e) <==> entry.instance == e
  {
    assert [entry][0] == entry;
  }

  lemma {:induction false} GatherOne(c: Catalog, log: Log, stack: seq<ComponentKey>, q: Request, loop: Option<Loop>)
    ensures var one := Resolve(c, log, stack, q, loop);
      Gather(c, log, stack, [q], loop, []) == if one.Failed? then Stopped(one.error) else Gathered(one.log, [one.instance])
  {
    assert [q][1..] == [] && [] + [Resolve(c, log, stack, q, loop)] == [Resolve(c, log, stack, q, loop)];
  }

  /** The singleton first: nothing is there for its optional request, and both are built. */
  lemma {:induction false} OptionalUserFirst()
    ensures BuildOf([OPTIONAL_USER, LOOP_USER], [1], {}).Complete?
  {
    var c := CatalogOf([OPTIONAL_USER, LOOP_USER], [1], {});
    SmallIndex(OPTIONAL_USER, LOOP_USER);
    NothingHas(Made(A, None));
    NothingHas(Made(B, None));
    GatherOne(c, [], [A], Request(B, false), None);
    assert Resolve(c, [], [A], Request(B, false), None) == Answer([], None);
    var a := Creation(Made(A, None), None, [None]);
    assert [] + [A] == [A] && [] + [a] == [a] && [] + [B] == [B];
    assert Resolve(c, [], [], Request(A, true), None) == Answer([a], Some(Made(A, None)));
    SmallHas(a, Made(A, None));
    SmallHas(a, Made(B, None));
    SmallHas(a, Made(B, Some(1)));
    GatherOne(c, [a], [B], Request(A, true), Some(1));
    assert Resolve(c, [a], [], Request(B, true), Some(1)).Answer?;
    assert [1][1..] == [];
    assert BuildOne(c, [], OPTIONAL_USER) == Complete([a]) && BuildOne(c, [a], LOOP_USER).Complete?;
    assert [OPTIONAL_USER, LOOP_USER][1..] == [LOOP_USER] && [LOOP_USER][1..] == [];
    assert BuildAll(c, [a], [LOOP_USER]).Complete?;
  }

  const USERS: Catalog := Catalog(map[B := LOOP_USER, A := OPTIONAL_USER], [1], {})

  lemma {:induction false} SingletonMeetsLoopUser()
    ensures Resolve(USERS, [], [B], Request(A, true), Some(1)) == Failed(Cycle([B, A, B]))
  {
    NothingHas(Made(A, None));
    NothingHas(Made(B, None));
    assert [B] + [A] == [B, A] && [B, A] + [B] == [B, A, B];
    GatherOne(USERS, [], [B, A], Request(B, false), Some(1));
    assert Resolve(USERS, [], [B, A], Request(B, false), Some(1)) == Failed(Cycle([B, A, B]));
  }

  /** The loop-local component first: its singleton meets it half built. */
  lemma {:induction false} LoopUserFirst()
    ensures BuildOf([LOOP_USER, OPTIONAL_USER], [1], {}) == Rejected(Cycle([B, A, B]))
  {
    SmallIndex(LOOP_USER, OPTIONAL_USER);
    assert CatalogOf([LOOP_USER, OPTIONAL_USER], [1], {}) == USERS;
    NothingHas(Made(B, None));
    NothingHas(Made(B, Some(1)));
    SingletonMeetsLoopUser();
    assert [] + [B] == [B];
    GatherOne(USERS, [], [B], Request(A, true), Some(1));
    assert Resolve(USERS, [], [], Request(B, true), Some(1)) == Failed(Cycle([B, A, B]));
  }

  // ---------------------------------------------------------------- destruction

  /** Whatever a component received from the container was created before it, and so is released after it. */
  lemma {:induction false} DependenciesOutliveUsers(c: Catalog, log: Log, destroyed: seq<Instance>, i: nat, j: nat)
    requires WellBuilt(c, log) && |destroyed| == |log|
    requires forall m :: 0 <= m < |log| ==> destroyed[|log| - 1 - m] == log[m].instance
    requires i < |log| && j < |log[i].received| && log[i].received[j].Some? && log[i].received[j].value.Made?
    ensures exists m :: 0 <= m < i && log[m].instance == log[i].received[j].value
    ensures exists n :: |log| - 1 - i < n < |log| && destroyed[n] == log[i].received[j].value
  {
    assert WellMadeAt(c, log, i);
    assert Granted(c, log[..i], log[i].loop, c.Requests(log[i].instance.key)[j], log[i].received[j]);
    var e := log[i].received[j].value;
    var m :| 0 <= m < i && log[..i][m].instance == e;
    assert log[m].instance == e && destroyed[|log| - 1 - m] == e;
  }
}
