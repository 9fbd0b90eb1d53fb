/** Recovery episodes: scheduling, the one budget of an episode, and what ends it. */
module RecoveryEpisodes {
  import opened Runtime
  import opened HealthRegistry

  /** A supervised recovery task as scheduling sees it, with the deadline it was given. */
  datatype Task = Live(limit: Deadline) | FailedTask | StoppedTask

  datatype Service = Service(requirement: Requirement, recovery: RecoveryPolicy)

  type Deadlines = map<ServiceKey, Deadline>

  /** The policy in force: an override if one was installed. */
  function PolicyOf(service: Service, overrides: map<ServiceKey, RecoveryPolicy>, key: ServiceKey): RecoveryPolicy {
    if key in overrides then overrides[key] else service.recovery
  }

  /** The task occupying the name, if any, is still working. */
  predicate Busy(current: Option<Task>) {
    current.Some? && current.value.Live?
  }

  /** A failed task of a required service closes its episode to further tasks. */
  predicate Closed(deadlines: Deadlines, key: ServiceKey, service: Service, current: Option<Task>) {
    key in deadlines && current == Some(FailedTask) && service.requirement.Required?
  }

  /** The episode deadlines after a scheduling request: an open episode keeps its deadline, except
      that a failed optional service gets a new one. */
  function Reschedule(deadlines: Deadlines, key: ServiceKey, service: Service, current: Option<Task>, renewed: Deadline): Deadlines {
    if Busy(current) || Closed(deadlines, key, service, current) then deadlines
    else if key !in deadlines || current == Some(FailedTask) then deadlines[key := renewed]
    else deadlines
  }

  /** The deadline of the task to supervise, if one is to be started. */
  function TaskLimit(deadlines: Deadlines, key: ServiceKey, service: Service, current: Option<Task>, renewed: Deadline): Option<Deadline> {
    if Busy(current) || Closed(deadlines, key, service, current) then None
    else Some(Reschedule(deadlines, key, service, current, renewed)[key])
  }

  /** Whether a reconciled snapshot asks for recovery. */
  predicate WantsRecovery(status: Status, expired: bool) {
    status.Down? || (expired && (status.Starting? || status.Degraded?))
  }

  predicate EpisodeExpired(deadlines: Deadlines, key: ServiceKey, now: int) {
    key in deadlines && deadlines[key].Expired(now)
  }

  /** The recovery bookkeeping of the service lifecycle. */
  class RecoveryBook {
    var deadlines: Deadlines
    var overrides: map<ServiceKey, RecoveryPolicy>
    var listed: set<ServiceKey>

    constructor ()
      ensures deadlines == map[] && overrides == map[] && listed == {}
    {
      deadlines, overrides, listed := map[], map[], {};
    }

    method ScheduleRecovery(key: ServiceKey, service: Option<Service>, current: Option<Task>, now: int)
      returns (r: Result<Option<Deadline>>)
      modifies this`deadlines, this`listed
      ensures service.None? ==> r == Err(NoSuchFile) && deadlines == old(deadlines) && listed == old(listed)
      ensures service.Some? ==>
        var renewed := At(now + PolicyOf(service.value, overrides, key).budget);
        && deadlines == Reschedule(old(deadlines), key, service.value, current, renewed)
        && r == Ok(TaskLimit(old(deadlines), key, service.value, current, renewed))
        && listed == old(listed) + (if Busy(current) then {} else {key})
    {
      if service.None? {
        return Err(NoSuchFile);
      }
      if current.Some? && current.value != FailedTask && current.value != StoppedTask {
        return Ok(None);
      }
      listed := listed + {key};
      var recovery := service.value.recovery;
      if key in overrides {
        recovery := overrides[key];
      }
      var inserted := key !in deadlines;
      if inserted {
        deadlines := deadlines[key := At(now + recovery.budget)];
      }
      if !inserted && current == Some(FailedTask) {
        if service.value.requirement == Required {
          return Ok(None);
        }
        deadlines := deadlines[key := At(now + recovery.budget)];
      }
      return Ok(Some(deadlines[key]));
    }

    /** Settles a health snapshot against the episode: a current, confirmed `up` ends it unless a task
        is still at work; otherwise recovery may be due. */
    method ReconcileHealth(key: ServiceKey, status: Status, isCurrent: bool, service: Option<Service>,
                           current: Option<Task>, now: int)
      returns (r: Result<Option<Deadline>>)
      modifies this`deadlines, this`listed
      ensures status.Up? ==>
        deadlines == (if isCurrent && !Busy(current) then old(deadlines) - {key} else old(deadlines)) && r == Ok(None)
      ensures !status.Up? && !(isCurrent && WantsRecovery(status, EpisodeExpired(old(deadlines), key, now))) ==>
        deadlines == old(deadlines) && r == Ok(None)
      ensures !status.Up? && isCurrent && WantsRecovery(status, EpisodeExpired(old(deadlines), key, now)) && service.Some? ==>
        var renewed := At(now + PolicyOf(service.value, overrides, key).budget);
        deadlines == Reschedule(old(deadlines), key, service.value, current, renewed) &&
        r == Ok(TaskLimit(old(deadlines), key, service.value, current, renewed))
      ensures !status.Up? && isCurrent && WantsRecovery(status, EpisodeExpired(old(deadlines), key, now)) && service.None? ==>
        deadlines == old(deadlines) && r == Err(NoSuchFile)
      ensures old(listed) <= listed <= old(listed) + {key}
    {
      if status == Up {
        if current.Some? && current.value != StoppedTask && current.value != FailedTask {
          return Ok(None);
        }
      }
      if !isCurrent {
        return Ok(None);
      }
      if status == Up {
        deadlines := deadlines - {key};
        return Ok(None);
      }
      var expired := key in deadlines && deadlines[key].Expired(now);
      if status == Down || (expired && (status == Starting || status == Degraded)) {
        r := ScheduleRecovery(key, service, current, now);
      } else {
        return Ok(None);
      }
    }

    /** Installs overrides all together, or none when one of them is invalid. */
    method UpdateRecoveryPolicies(updates: seq<(ServiceKey, RecoveryPolicy)>) returns (r: Result<()>)
      modifies this`overrides
      ensures r.Ok? <==> forall u :: u in updates ==> u.1.Valid() && u.1.budget > 0
      ensures r.Err? ==> r.error == InvalidArgument && overrides == old(overrides)
      ensures r.Ok? ==> overrides == Installed(old(overrides), updates)
    {
      for i := 0 to |updates|
        invariant forall j :: 0 <= j < i ==> updates[j].1.Valid() && updates[j].1.budget > 0
      {
        if !updates[i].1.Valid() || updates[i].1.budget <= 0 {
          assert updates[i] in updates;
          return Err(InvalidArgument);
        }
      }
      var staged := overrides;
      for i := 0 to |updates|
        invariant staged == Installed(old(overrides), updates[..i])
      {
        assert updates[..i + 1][..i] == updates[..i];
        staged := staged[updates[i].0 := updates[i].1];
      }
      assert updates[..|updates|] == updates;
      overrides := staged;
      return Ok(());
    }
  }

  /** Later updates of a key win. */
  ghost function Installed(overrides: map<ServiceKey, RecoveryPolicy>, updates: seq<(ServiceKey, RecoveryPolicy)>): map<ServiceKey, RecoveryPolicy> {
    if updates == [] then overrides
    else Installed(overrides, updates[..|updates| - 1])[updates[|updates| - 1].0 := updates[|updates| - 1].1]
  }

  /** Scheduling, reconciliation and the recovery tasks themselves, interleaved. */
  datatype State = State(now: int, deadlines: Deadlines, tasks: map<ServiceKey, Task>)

  datatype Action =
    | Tick(passed: nat)
    | Schedule(key: ServiceKey, budget: nat, accepted: bool)
    | Reconcile(key: ServiceKey, status: Status, isCurrent: bool, budget: nat, accepted: bool)
    | AttemptBegins(key: ServiceKey)
    | TaskEnds(key: ServiceKey, failed: bool)

  function CurrentTask(s: State, key: ServiceKey): Option<Task> {
    if key in s.tasks then Some(s.tasks[key]) else None
  }

  type Services = map<ServiceKey, Service>

  /** An attempt passes its entry check only before the deadline its task was given. */
  predicate Enabled(services: Services, s: State, a: Action) {
    match a
    case Tick(_) => true
    case Schedule(k, _, _) => k in services
    case Reconcile(k, _, _, _, _) => k in services
    case AttemptBegins(k) => Busy(CurrentTask(s, k)) && !s.tasks[k].limit.Expired(s.now)
    case TaskEnds(k, _) => Busy(CurrentTask(s, k))
  }

  function AfterSchedule(services: Services, s: State, k: ServiceKey, budget: nat, accepted: bool): State
    requires k in services
  {
    var current, renewed := CurrentTask(s, k), At(s.now + budget);
    var limit := TaskLimit(s.deadlines, k, services[k], current, renewed);
    s.(deadlines := Reschedule(s.deadlines, k, services[k], current, renewed),
       tasks := if limit.Some? && accepted then s.tasks[k := Live(limit.value)] else s.tasks)
  }

  /** The reconciliation that ends an episode. */
  predicate Confirms(s: State, a: Action, k: ServiceKey) {
    a.Reconcile? && a.key == k && a.status.Up? && a.isCurrent && !Busy(CurrentTask(s, k))
  }

  function Step(services: Services, s: State, a: Action): State
    requires Enabled(services, s, a)
  {
    match a
    case Tick(passed) => s.(now := s.now + passed)
    case Schedule(k, budget, accepted) => AfterSchedule(services, s, k, budget, accepted)
    case Reconcile(k, status, isCurrent, budget, accepted) =>
      if Confirms(s, a, k) then s.(deadlines := s.deadlines - {k})
      else if !status.Up? && isCurrent && WantsRecovery(status, EpisodeExpired(s.deadlines, k, s.now))
        then AfterSchedule(services, s, k, budget, accepted)
      else s
    case AttemptBegins(_) => s
    case TaskEnds(k, failed) => s.(tasks := s.tasks[k := if failed then FailedTask else StoppedTask])
  }

  /** The states a run passes through, from any starting point. */
  ghost predicate IsRun(services: Services, states: seq<State>, run: seq<Action>) {
    |states| == |run| + 1 && forall i :: 0 <= i < |run| ==> Moves(services, states[i], run[i], states[i + 1])
  }

  ghost predicate Moves(services: Services, s: State, a: Action, t: State) {
    Enabled(services, s, a) && t == Step(services, s, a)
  }

  /** A working task carries the deadline of its episode. */
  ghost predicate Consistent(s: State) {
    forall k :: k in s.tasks && s.tasks[k].Live? ==> k in s.deadlines && s.deadlines[k] == s.tasks[k].limit
  }

  lemma {:induction false} StepKeepsConsistent(services: Services, s: State, a: Action)
    requires Consistent(s) && Enabled(services, s, a)
    ensures Consistent(Step(services, s, a))
  {
  }

  /** In the stretch from `i` to `j` nothing confirms `k` healthy. */
  ghost predicate Unconfirmed(states: seq<State>, run: seq<Action>, k: ServiceKey, i: nat, j: nat)
    requires |states| == |run| + 1 && i <= j <= |run|
  {
    forall m :: i <= m < j ==> !Confirms(states[m], run[m], k)
  }

  /** One budget per episode: while a required service is not confirmed healthy, its episode keeps one
      deadline; a failed task stays the last one; and no attempt begins at or after that deadline. */
  lemma {:induction false} OneBudgetPerEpisode(services: Services, states: seq<State>, run: seq<Action>, k: ServiceKey, i: nat, j: nat)
    requires IsRun(services, states, run) && i <= j <= |run| && Consistent(states[i])
    requires k in services && services[k].requirement.Required? && k in states[i].deadlines
    requires Unconfirmed(states, run, k, i, j)
    ensures k in states[j].deadlines && states[j].deadlines[k] == states[i].deadlines[k]
    ensures CurrentTask(states[i], k) == Some(FailedTask) ==> CurrentTask(states[j], k) == Some(FailedTask)
    ensures forall m :: i <= m < j && run[m] == AttemptBegins(k) ==> !states[i].deadlines[k].Expired(states[m].now)
    ensures Consistent(states[j])
    decreases j
  {
    if i < j {
      OneBudgetPerEpisode(services, states, run, k, i, j - 1);
      assert Moves(services, states[j - 1], run[j - 1], states[j]);
      assert !Confirms(states[j - 1], run[j - 1], k);
      StepKeepsConsistent(services, states[j - 1], run[j - 1]);
    }
  }

  /** The action asks for recovery of `k`. */
  predicate AsksRecovery(s: State, a: Action, k: ServiceKey) {
    || (a.Schedule? && a.key == k)
    || (a.Reconcile? && a.key == k && !a.status.Up? && a.isCurrent && WantsRecovery(a.status, EpisodeExpired(s.deadlines, k, s.now)))
  }

  /** A failed task of an optional service is followed by a renewed episode. */
  predicate Renews(services: Services, s: State, a: Action, k: ServiceKey) {
    k in services && services[k].requirement.Optional? && CurrentTask(s, k) == Some(FailedTask) && AsksRecovery(s, a, k)
  }

  /** The deadline given by the last renewal between `i` and `j`, or the one before them all. */
  ghost function LastRenewal(services: Services, states: seq<State>, run: seq<Action>, k: ServiceKey, i: nat, j: nat): Deadline
    requires |states| == |run| + 1 && i <= j <= |run| && k in states[i].deadlines
    decreases j
  {
    if i == j then states[i].deadlines[k]
    else if Renews(services, states[j - 1], run[j - 1], k) then At(states[j - 1].now + run[j - 1].budget)
    else LastRenewal(services, states, run, k, i, j - 1)
  }

  /** While a service is not confirmed healthy its deadline follows the renewals, whatever reconnects or is
      rescheduled meanwhile. For a required service there are none, so its budget is single; for an optional
      one every request after a failed task grants a new budget. */
  lemma {:induction false} DeadlineFollowsRenewals(services: Services, states: seq<State>, run: seq<Action>, k: ServiceKey, i: nat, j: nat)
    requires IsRun(services, states, run) && i <= j <= |run| && k in services && k in states[i].deadlines
    requires Unconfirmed(states, run, k, i, j)
    ensures k in states[j].deadlines && states[j].deadlines[k] == LastRenewal(services, states, run, k, i, j)
    decreases j
  {
    if i < j {
      DeadlineFollowsRenewals(services, states, run, k, i, j - 1);
      assert Moves(services, states[j - 1], run[j - 1], states[j]);
      assert !Confirms(states[j - 1], run[j - 1], k);
      StepRenews(services, states[j - 1], run[j - 1], k);
    }
  }

  lemma {:induction false} StepRenews(services: Services, s: State, a: Action, k: ServiceKey)
    requires Enabled(services, s, a) && k in services && k in s.deadlines && !Confirms(s, a, k)
    ensures k in Step(services, s, a).deadlines
    ensures Step(services, s, a).deadlines[k] == if Renews(services, s, a, k) then At(s.now + a.budget) else s.deadlines[k]
  {
  }

  /** One episode of an optional service with two deadlines. */
  lemma {:induction false} OptionalBudgetIsNotSingle(k: ServiceKey, policy: RecoveryPolicy)
    ensures var services := map[k := Service(Optional, policy)];
      var run := [Schedule(k, 10, true), TaskEnds(k, true), Tick(20), Schedule(k, 10, true)];
      exists states: seq<State> :: IsRun(services, states, run) && states[1].deadlines == map[k := At(10)] && states[4].deadlines == map[k := At(30)]
  {
    var services := map[k := Service(Optional, policy)];
    var run := [Schedule(k, 10, true), TaskEnds(k, true), Tick(20), Schedule(k, 10, true)];
    var s0 := State(0, map[], map[]);
    var s1 := State(0, map[k := At(10)], map[k := Live(At(10))]);
    var s2 := State(0, map[k := At(10)], map[k := FailedTask]);
    var s3 := State(20, map[k := At(10)], map[k := FailedTask]);
    var s4 := State(20, map[k := At(30)], map[k := Live(At(30))]);
    var states := [s0, s1, s2, s3, s4];
    assert Step(services, s0, run[0]) == s1 && Step(services, s1, run[1]) == s2;
    assert Step(services, s2, run[2]) == s3 && Step(services, s3, run[3]) == s4;
    assert IsRun(services, states, run);
  }
}
