/** Startup, rollback, shutdown passes and recovery as one interleaved machine. Every action is the
    stretch between two suspension points; which service succeeds, and when, is chosen by the run. */
module StartupRuns {
  import opened Runtime
  import opened Ordering
  import opened DependencyGraph

  datatype Config = Config(graph: Graph, layers: Layers, required: set<ServiceKey>)

  ghost predicate ValidConfig(c: Config) {
    IsLayering(c.graph, c.layers) && c.required <= c.graph.Keys
  }

  datatype Phase = Idle | Opening(layer: nat) | RollingBack | Succeeded | Rejected

  datatype Child = InStart | Acquired | NotAcquired

  datatype Recovery = Waiting | Cleaning | Restarting | Probing | Settling

  datatype Pass = Pass(started: set<ServiceKey>, stopping: Option<ServiceKey>)

  datatype State = State(
    phase: Phase,
    listed: set<ServiceKey>,
    active: set<ServiceKey>,
    dispatched: set<ServiceKey>,
    running: map<ServiceKey, Child>,
    settled: set<ServiceKey>,
    failed: bool,
    pass: Option<Pass>,
    recovering: map<ServiceKey, Recovery>)

  const INITIAL := State(Idle, {}, {}, {}, map[], {}, false, None, map[])

  datatype Action =
    | BeginStart
    | Dispatch(key: ServiceKey)
    | DispatchFails
    | ServiceStarted(key: ServiceKey, ok: bool)
    | ChildSettles(key: ServiceKey, ok: bool, shutdownRequired: bool, budgetCancelled: bool, scheduled: bool)
    | LayerDone
    | LayerFails
    | StartSucceeds
    | PassBegins
    | PassStopBegins(key: ServiceKey)
    | PassStopEnds(key: ServiceKey, released: bool)
    | PassEnds
    | RecoveryScheduled(key: ServiceKey)
    | RecoveryAttempt(key: ServiceKey, cleanupRequired: bool)
    | RecoveryCleaned(key: ServiceKey, ok: bool)
    | RecoveryStarted(key: ServiceKey, ok: bool)
    | RecoveryProbed(key: ServiceKey)
    | RecoverySettles(key: ServiceKey, shutdownRequired: bool, again: bool)

  predicate At(s: State, k: ServiceKey, r: Recovery) {
    k in s.recovering && s.recovering[k] == r
  }

  predicate Enabled(c: Config, s: State, a: Action) {
    match a
    case BeginStart => s.phase.Idle?
    case Dispatch(k) =>
      s.phase.Opening? && s.phase.layer < |c.layers| && !s.failed &&
      k in c.layers[s.phase.layer] && k !in s.dispatched
    case DispatchFails => s.phase.Opening? && s.phase.layer < |c.layers|
    case ServiceStarted(k, _) => s.phase.Opening? && k in s.running && s.running[k].InStart?
    case ChildSettles(k, ok, _, _, _) =>
      s.phase.Opening? && k in s.running && !s.running[k].InStart? && (ok ==> s.running[k].Acquired?)
    case LayerDone =>
      s.phase.Opening? && s.phase.layer < |c.layers| && !s.failed && s.running == map[] &&
      forall k :: k in c.layers[s.phase.layer] ==> k in s.dispatched
    case LayerFails => s.phase.Opening? && s.phase.layer < |c.layers| && s.running == map[]
    case StartSucceeds => s.phase.Opening? && s.phase.layer == |c.layers|
    case PassBegins => (s.phase.RollingBack? || s.phase.Succeeded? || s.phase.Rejected?) && s.pass.None?
    case PassStopBegins(k) =>
      s.pass.Some? && s.pass.value.stopping.None? && k in s.pass.value.started &&
      forall d :: d in s.pass.value.started ==> !DependsOn(c.graph, d, k)
    case PassStopEnds(k, _) => s.pass.Some? && s.pass.value.stopping == Some(k)
    case PassEnds => s.pass.Some? && s.pass.value.stopping.None?
    case RecoveryScheduled(k) => s.phase.Succeeded? && k in c.graph && k !in s.recovering
    case RecoveryAttempt(k, _) => At(s, k, Waiting)
    case RecoveryCleaned(k, _) => At(s, k, Cleaning)
    case RecoveryStarted(k, _) => At(s, k, Restarting)
    case RecoveryProbed(k) => At(s, k, Probing)
    case RecoverySettles(k, _, _) => At(s, k, Settling)
  }

  function Mark(s: State, k: ServiceKey, marked: bool): State {
    if marked then s.(active := s.active + {k}) else s
  }

  function Step(c: Config, s: State, a: Action): State
    requires Enabled(c, s, a)
  {
    match a
    case BeginStart => s.(phase := Opening(0), listed := s.listed + c.graph.Keys)
    case Dispatch(k) => s.(dispatched := s.dispatched + {k}, running := s.running[k := InStart])
    case DispatchFails => s.(failed := true)
    case ServiceStarted(k, ok) =>
      Mark(s, k, ok).(running := s.running[k := if ok then Acquired else NotAcquired])
    case ChildSettles(k, ok, shutdownRequired, budgetCancelled, scheduled) =>
      var degrades := !ok && k !in c.required && !budgetCancelled;
      Mark(s, k, shutdownRequired).(
        running := s.running - {k},
        settled := s.settled + {k},
        failed := s.failed || !(ok || degrades),
        recovering := if degrades && scheduled && k !in s.recovering then s.recovering[k := Waiting] else s.recovering)
    case LayerDone => s.(phase := Opening(s.phase.layer + 1))
    case LayerFails => s.(phase := RollingBack)
    case StartSucceeds => s.(phase := Succeeded)
    case PassBegins => s.(pass := Some(Pass(s.active, None)))
    case PassStopBegins(k) => s.(pass := Some(s.pass.value.(stopping := Some(k))))
    case PassStopEnds(k, released) =>
      if released then
        s.(active := s.active - {k}, pass := Some(Pass(s.pass.value.started - {k}, None)))
      else s.(pass := Some(s.pass.value.(stopping := None)))
    case PassEnds => s.(pass := None, phase := if s.phase.RollingBack? then Rejected else s.phase)
    case RecoveryScheduled(k) => s.(listed := s.listed + {k}, recovering := s.recovering[k := Waiting])
    case RecoveryAttempt(k, cleanup) => s.(recovering := s.recovering[k := if cleanup then Cleaning else Restarting])
    case RecoveryCleaned(k, ok) =>
      if ok then s.(active := s.active - {k}, recovering := s.recovering[k := Restarting])
      else s.(recovering := s.recovering[k := Settling])
    case RecoveryStarted(k, ok) => Mark(s, k, ok).(recovering := s.recovering[k := if ok then Probing else Settling])
    case RecoveryProbed(k) => s.(recovering := s.recovering[k := Settling])
    case RecoverySettles(k, shutdownRequired, again) =>
      Mark(s, k, shutdownRequired).(recovering := if again then s.recovering[k := Waiting] else s.recovering - {k})
  }

  /** The state a run leads to, if every action was possible when it was taken. */
  function Reach(c: Config, run: seq<Action>): Option<State> {
    if run == [] then Some(INITIAL)
    else
      var before := Reach(c, run[..|run| - 1]);
      if before.Some? && Enabled(c, before.value, run[|run| - 1])
      then Some(Step(c, before.value, run[|run| - 1])) else None
  }

  predicate IsRun(c: Config, run: seq<Action>) {
    Reach(c, run).Some?
  }

  function After(c: Config, run: seq<Action>): State
    requires IsRun(c, run)
  {
    Reach(c, run).value
  }

  /** The services whose last successful start was not followed by a successful stop. */
  function Held(run: seq<Action>): set<ServiceKey> {
    if run == [] then {} else HeldAfter(Held(run[..|run| - 1]), run[|run| - 1])
  }

  function HeldAfter(before: set<ServiceKey>, a: Action): set<ServiceKey> {
    match a
    case ServiceStarted(k, true) => before + {k}
    case RecoveryStarted(k, true) => before + {k}
    case RecoveryCleaned(k, true) => before - {k}
    case PassStopEnds(k, true) => before - {k}
    case _ => before
  }

  lemma {:induction false} HeldStaysActive(c: Config, s: State, a: Action, held: set<ServiceKey>)
    requires Enabled(c, s, a) && held <= s.active
    ensures HeldAfter(held, a) <= Step(c, s, a).active
  {
  }

  /** What every run keeps about the start under way. */
  ghost predicate Invariant(c: Config, s: State) {
    && s.active <= s.listed
    && (s.phase.Idle? ==> s.active == {} && s.settled == {} && s.dispatched == {} && s.recovering == map[])
    && (s.phase.Idle? || s.phase.Opening? ==> s.pass.None?)
    && (s.phase.Opening? ==> OpeningKeeps(c, s, s.phase.layer))
    && (!s.phase.Opening? ==> s.running == map[])
    && (forall k :: k in s.recovering ==> k in s.listed)
  }

  /** With `n` layers closed: they have settled and their required services are active; the children
      under way are dispatched members of layer `n`, and a child that acquired is active. */
  ghost predicate OpeningKeeps(c: Config, s: State, n: nat) {
    && n <= |c.layers| && c.graph.Keys <= s.listed
    && s.dispatched == s.settled + s.running.Keys && s.settled !! s.running.Keys
    && Below(c.layers, n) <= s.settled
    && (forall k :: k in s.dispatched && k !in Below(c.layers, n) ==> n < |c.layers| && k in c.layers[n])
    && (forall k :: k in s.running ==> k !in Below(c.layers, n))
    && (forall k :: k in s.recovering ==> k !in c.required && k in s.settled)
    && (forall k :: k in s.running && s.running[k].Acquired? ==> k in s.active)
    && (forall k :: k in c.required && k in Below(c.layers, n) ==> k in s.active)
    && (!s.failed ==> forall k :: k in c.required && k in s.settled ==> k in s.active)
  }

  lemma {:induction false} InvariantHolds(c: Config, run: seq<Action>)
    requires ValidConfig(c) && IsRun(c, run)
    ensures Invariant(c, After(c, run))
  {
    if run != [] {
      var prior := run[..|run| - 1];
      InvariantHolds(c, prior);
      StepKeepsInvariant(c, After(c, prior), run[|run| - 1]);
    }
  }

  lemma {:induction false} StepKeepsInvariant(c: Config, s: State, a: Action)
    requires ValidConfig(c) && Invariant(c, s) && Enabled(c, s, a)
    ensures Invariant(c, Step(c, s, a))
  {
    match a
    case Dispatch(k) => DispatchKeeps(c, s, k);
    case ServiceStarted(k, ok) => ServiceStartedKeeps(c, s, k, ok);
    case ChildSettles(_, _, _, _, _) => ChildSettlesKeeps(c, s, a);
    case LayerDone => LayerCloses(c, s);
    case BeginStart => PhaseKeepsInvariant(c, s, a);
    case DispatchFails => PhaseKeepsInvariant(c, s, a);
    case LayerFails => PhaseKeepsInvariant(c, s, a);
    case StartSucceeds => PhaseKeepsInvariant(c, s, a);
    case PassBegins => PassKeepsInvariant(c, s, a);
    case PassStopBegins(_) => PassKeepsInvariant(c, s, a);
    case PassStopEnds(_, _) => PassKeepsInvariant(c, s, a);
    case PassEnds => PassKeepsInvariant(c, s, a);
    case _ => RecoveryKeepsInvariant(c, s, a);
  }

  lemma {:induction false} PhaseKeepsInvariant(c: Config, s: State, a: Action)
    requires Invariant(c, s) && Enabled(c, s, a)
    requires a.BeginStart? || a.DispatchFails? || a.LayerFails? || a.StartSucceeds?
    ensures Invariant(c, Step(c, s, a))
  {
  }

  lemma {:induction false} PassKeepsInvariant(c: Config, s: State, a: Action)
    requires Invariant(c, s) && Enabled(c, s, a)
    requires a.PassBegins? || a.PassStopBegins? || a.PassStopEnds? || a.PassEnds?
    ensures Invariant(c, Step(c, s, a))
  {
  }

  lemma {:induction false} RecoveryKeepsInvariant(c: Config, s: State, a: Action)
    requires Invariant(c, s) && Enabled(c, s, a)
    requires a.RecoveryScheduled? || a.RecoveryAttempt? || a.RecoveryCleaned? || a.RecoveryStarted?
      || a.RecoveryProbed? || a.RecoverySettles?
    ensures Invariant(c, Step(c, s, a))
  {
    var t := Step(c, s, a);
    if a.RecoveryScheduled? {
      assert t == s.(listed := s.listed + {a.key}, recovering := t.recovering);
    } else {
      assert t == s.(active := t.active, recovering := t.recovering);
      RecoveryTouchesOne(c, s, a.key, t.active, t.recovering);
    }
  }

  /** A recovery attempt changes nothing but its own service's flag and progress. */
  lemma {:induction false} RecoveryTouchesOne(c: Config, s: State, k: ServiceKey, active: set<ServiceKey>, recovering: map<ServiceKey, Recovery>)
    requires Invariant(c, s) && k in s.recovering
    requires s.active - {k} <= active <= s.active + {k} && recovering.Keys <= s.recovering.Keys
    ensures Invariant(c, s.(active := active, recovering := recovering))
  {
  }

  lemma {:induction false} DispatchKeeps(c: Config, s: State, k: ServiceKey)
    requires ValidConfig(c) && Invariant(c, s) && Enabled(c, s, Dispatch(k))
    ensures Invariant(c, Step(c, s, Dispatch(k)))
  {
  }

  lemma {:induction false} ServiceStartedKeeps(c: Config, s: State, k: ServiceKey, ok: bool)
    requires ValidConfig(c) && Invariant(c, s) && Enabled(c, s, ServiceStarted(k, ok))
    ensures Invariant(c, Step(c, s, ServiceStarted(k, ok)))
  {
    var t := Step(c, s, ServiceStarted(k, ok));
    assert t.running.Keys == s.running.Keys;
    MemberIsListed(c, s, k);
  }

  lemma {:induction false} MemberIsListed(c: Config, s: State, k: ServiceKey)
    requires ValidConfig(c) && Invariant(c, s) && s.phase.Opening? && k in s.running
    ensures k in s.listed
  {
    assert k in s.dispatched;
    LayerIsFresh(c, s.phase.layer, k);
  }

  lemma {:induction false} ChildSettlesKeeps(c: Config, s: State, a: Action)
    requires ValidConfig(c) && Invariant(c, s) && a.ChildSettles? && Enabled(c, s, a)
    ensures Invariant(c, Step(c, s, a))
  {
    var t := Step(c, s, a);
    assert t.running.Keys == s.running.Keys - {a.key};
    assert t.settled + t.running.Keys == s.settled + s.running.Keys;
    MemberIsListed(c, s, a.key);
  }

  lemma {:induction false} LayerIsFresh(c: Config, n: nat, k: ServiceKey)
    requires ValidConfig(c) && n < |c.layers| && k in c.layers[n]
    ensures k in c.graph && k !in Below(c.layers, n) && DependsOnlyOn(c.graph, k, Below(c.layers, n))
  {
    assert LayerOk(c.graph, c.layers, n);
    assert k in Elements(c.layers[n]);
  }

  lemma {:induction false} LayerCloses(c: Config, s: State)
    requires ValidConfig(c) && Invariant(c, s) && Enabled(c, s, LayerDone)
    ensures Invariant(c, Step(c, s, LayerDone))
  {
  }

  /** No acquired resource is lost: whatever the interleaving, a service that still holds what its
      last successful start acquired is recorded active. */
  lemma {:induction false} NothingHeldIsLost(c: Config, run: seq<Action>)
    requires IsRun(c, run)
    ensures Held(run) <= After(c, run).active
  {
    if run != [] {
      var prior := run[..|run| - 1];
      NothingHeldIsLost(c, prior);
      HeldStaysActive(c, After(c, prior), run[|run| - 1], Held(prior));
    }
  }

  /** Startup reports success only when every required service is active. */
  lemma {:induction false} SuccessMeansRequiredActive(c: Config, run: seq<Action>, i: nat)
    requires ValidConfig(c) && IsRun(c, run) && i < |run| && run[i].StartSucceeds?
    ensures IsRun(c, run[..i]) && c.required <= After(c, run[..i]).active
  {
    PrefixIsRun(c, run, i + 1);
    assert run[..i + 1][..i] == run[..i];
    InvariantHolds(c, run[..i]);
  }

  lemma {:induction false} PrefixIsRun(c: Config, run: seq<Action>, n: nat)
    requires IsRun(c, run) && n <= |run|
    ensures IsRun(c, run[..n])
  {
    if n < |run| {
      var prior := run[..|run| - 1];
      PrefixIsRun(c, prior, n);
      assert prior[..n] == run[..n];
    } else {
      assert run[..n] == run;
    }
  }

  /** A service is started only after everything it depends on has settled, and with its required
      dependencies active. */
  lemma {:induction false} DependenciesComeFirst(c: Config, run: seq<Action>, i: nat, d: ServiceKey)
    requires ValidConfig(c) && IsRun(c, run) && i < |run| && run[i].Dispatch?
    requires DependsOn(c.graph, run[i].key, d)
    ensures IsRun(c, run[..i]) && d in After(c, run[..i]).settled
    ensures d in c.required ==> d in After(c, run[..i]).active
  {
    PrefixIsRun(c, run, i + 1);
    assert run[..i + 1][..i] == run[..i];
    InvariantHolds(c, run[..i]);
    LayerIsFresh(c, After(c, run[..i]).phase.layer, run[i].key);
  }

  /** A layer is opened only when every child of the earlier layers has settled. */
  lemma {:induction false} LayersAreBarriers(c: Config, run: seq<Action>, k: ServiceKey)
    requires ValidConfig(c) && IsRun(c, run) && After(c, run).phase.Opening? && k in After(c, run).running
    ensures After(c, run).phase.layer < |c.layers| && k in c.layers[After(c, run).phase.layer]
    ensures Below(c.layers, After(c, run).phase.layer) <= After(c, run).settled
  {
    InvariantHolds(c, run);
    assert k in After(c, run).dispatched;
  }

  /** The action records ownership of `k`. */
  predicate Marks(a: Action, k: ServiceKey) {
    match a
    case ServiceStarted(x, ok) => ok && x == k
    case RecoveryStarted(x, ok) => ok && x == k
    case ChildSettles(x, _, shutdownRequired, _, _) => shutdownRequired && x == k
    case RecoverySettles(x, shutdownRequired, _) => shutdownRequired && x == k
    case _ => false
  }

  /** Nothing is left of `k` for a shutdown pass to stop. */
  predicate Spent(s: State, k: ServiceKey) {
    k !in s.active && (s.pass.Some? ==> k !in s.pass.value.started && s.pass.value.stopping != Some(k))
  }

  lemma {:induction false} SpentUntilMarked(c: Config, run: seq<Action>, i: nat, j: nat, k: ServiceKey)
    requires IsRun(c, run) && i <= j <= |run| && IsRun(c, run[..i]) && Spent(After(c, run[..i]), k)
    requires forall m :: i <= m < j ==> !Marks(run[m], k)
    ensures IsRun(c, run[..j]) && Spent(After(c, run[..j]), k)
    decreases j
  {
    PrefixIsRun(c, run, j);
    if i < j {
      SpentUntilMarked(c, run, i, j - 1, k);
      assert run[..j][..j - 1] == run[..j - 1];
      SpentStays(c, After(c, run[..j - 1]), run[j - 1], k);
    }
  }

  lemma {:induction false} SpentStays(c: Config, s: State, a: Action, k: ServiceKey)
    requires Enabled(c, s, a) && Spent(s, k) && !Marks(a, k)
    ensures Spent(Step(c, s, a), k)
  {
  }

  /** Whatever recovery does meanwhile, between two successful stops of a service by shutdown passes
      its ownership was recorded again. */
  lemma {:induction false} PassStopsAreMatched(c: Config, run: seq<Action>, i: nat, j: nat, k: ServiceKey)
    requires IsRun(c, run) && i < j < |run|
    requires run[i] == PassStopEnds(k, true) && run[j] == PassStopEnds(k, true)
    ensures exists m :: i < m < j && Marks(run[m], k)
  {
    PrefixIsRun(c, run, i + 1);
    PrefixIsRun(c, run, j + 1);
    assert run[..i + 1][..i] == run[..i] && run[..j + 1][..j] == run[..j];
    if forall m :: i + 1 <= m < j ==> !Marks(run[m], k) {
      SpentUntilMarked(c, run, i + 1, j, k);
    }
  }
}
