/** Backoff between supervised attempts. */
module Backoff {
  import opened Runtime

  function Power(base: real, n: nat): real {
    if n == 0 then 1.0 else base * Power(base, n - 1)
  }

  /** Deterministic jitter phase in thousandths, from 0 to 2000; the product wraps at 64 bits. */
  function PhaseStep(attempt: nat): nat {
    (attempt * 1103515245 + 12345) % 0x1_0000_0000_0000_0000 % 2001
  }

  function Phase(attempt: nat): real {
    PhaseStep(attempt) as real / 1000.0 - 1.0
  }

  function Min(x: real, y: real): real {
    if x < y then x else y
  }

  /** Delay before jitter: exponential, capped. */
  function Bounded(policy: RecoveryPolicy, attempt: nat): real {
    Min(policy.initialDelay as real * Power(policy.multiplier, attempt), policy.maximumDelay as real)
  }

  function Jittered(delay: real, jitter: real, phase: real): real {
    var moved := delay * (1.0 + phase * jitter);
    if moved < 0.0 then 0.0 else moved
  }

  function Adjusted(policy: RecoveryPolicy, attempt: nat): real {
    Jittered(Bounded(policy, attempt), policy.jitter, Phase(attempt))
  }

  /** Whole milliseconds, at most `top`. */
  function Clamp(x: real, top: int): int {
    if x >= top as real then top else x.Floor
  }

  function RetryDelay(policy: RecoveryPolicy, attempt: nat): int {
    Clamp(Adjusted(policy, attempt), policy.maximumDelay)
  }

  lemma {:induction false} PowerAtLeastOne(base: real, n: nat)
    requires base >= 1.0
    ensures Power(base, n) >= 1.0
  {
    if n > 0 {
      PowerAtLeastOne(base, n - 1);
      MonotoneProduct(1.0, base, Power(base, n - 1));
    }
  }

  lemma {:induction false} MonotoneProduct(x: real, y: real, z: real)
    requires x <= y && z >= 0.0
    ensures x * z <= y * z
  {
  }

  lemma {:induction false} PowerGrows(base: real, m: nat, n: nat)
    requires base >= 1.0 && m <= n
    ensures Power(base, m) <= Power(base, n)
    decreases n
  {
    if m < n {
      PowerGrows(base, m, n - 1);
      PowerAtLeastOne(base, n - 1);
      MonotoneProduct(1.0, base, Power(base, n - 1));
    }
  }

  lemma {:induction false} PhaseInRange(attempt: nat)
    ensures -1.0 <= Phase(attempt) <= 1.0
  {
  }

  /** Every backoff lies between nothing and the configured maximum, and jitter moves it by no more
      than its share of the capped exponential delay. */
  lemma {:induction false} DelayInRange(policy: RecoveryPolicy, attempt: nat)
    requires policy.Valid()
    ensures 0 <= RetryDelay(policy, attempt) <= policy.maximumDelay
    ensures RetryDelay(policy, attempt) as real <= Bounded(policy, attempt) * (1.0 + policy.jitter)
    ensures RetryDelay(policy, attempt) as real + 1.0 > Bounded(policy, attempt) * (1.0 - policy.jitter)
  {
    PhaseInRange(attempt);
    BoundedPositive(policy, attempt);
    ClampedJitter(Bounded(policy, attempt), policy.jitter, Phase(attempt), policy.maximumDelay);
  }

  lemma {:induction false} ClampedJitter(b: real, j: real, p: real, top: int)
    requires 0.0 < b <= top as real && 0.0 <= j <= 1.0 && -1.0 <= p <= 1.0
    ensures 0 <= Clamp(Jittered(b, j, p), top) <= top
    ensures Clamp(Jittered(b, j, p), top) as real <= b * (1.0 + j)
    ensures Clamp(Jittered(b, j, p), top) as real + 1.0 > b * (1.0 - j)
  {
    JitterShare(b, j, p);
    ClampedFloor(b * (1.0 - j), Jittered(b, j, p), b * (1.0 + j), top);
  }

  lemma {:induction false} JitterShare(b: real, j: real, p: real)
    requires b > 0.0 && 0.0 <= j <= 1.0 && -1.0 <= p <= 1.0
    ensures 0.0 <= b * (1.0 - j) <= Jittered(b, j, p) <= b * (1.0 + j)
    ensures b * (1.0 - j) <= b
  {
    ShareBounds(p, j);
    Scaled(b, j, p * j);
  }

  lemma {:induction false} ShareBounds(p: real, j: real)
    requires -1.0 <= p <= 1.0 && j >= 0.0
    ensures -j <= p * j <= j
  {
  }

  lemma {:induction false} Scaled(b: real, j: real, share: real)
    requires b > 0.0 && 0.0 <= j <= 1.0 && -j <= share <= j
    ensures 0.0 <= b * (1.0 - j) <= b * (1.0 + share) <= b * (1.0 + j)
    ensures b * (1.0 - j) <= b
  {
  }

  lemma {:induction false} ClampedFloor(low: real, x: real, high: real, top: int)
    requires 0.0 <= low <= x <= high && top > 0 && low <= top as real
    ensures 0 <= Clamp(x, top) <= top && Clamp(x, top) as real <= high && Clamp(x, top) as real + 1.0 > low
  {
  }

  lemma {:induction false} BoundedPositive(policy: RecoveryPolicy, attempt: nat)
    requires policy.Valid()
    ensures 0.0 < Bounded(policy, attempt) <= policy.maximumDelay as real
  {
    PowerAtLeastOne(policy.multiplier, attempt);
    MonotoneProduct(1.0, Power(policy.multiplier, attempt), policy.initialDelay as real);
  }

  lemma {:induction false} BoundedGrows(policy: RecoveryPolicy, m: nat, n: nat)
    requires policy.Valid() && m <= n
    ensures Bounded(policy, m) <= Bounded(policy, n)
  {
    PowerGrows(policy.multiplier, m, n);
    MonotoneProduct(Power(policy.multiplier, m), Power(policy.multiplier, n), policy.initialDelay as real);
  }

  /** Without jitter the backoff never shrinks from one attempt to a later one. */
  lemma {:induction false} DelayGrowsWithoutJitter(policy: RecoveryPolicy, m: nat, n: nat)
    requires policy.Valid() && policy.jitter == 0.0 && m <= n
    ensures RetryDelay(policy, m) <= RetryDelay(policy, n)
  {
    BoundedGrows(policy, m, n);
    BoundedPositive(policy, m);
    BoundedPositive(policy, n);
    NoJitter(policy, m);
    NoJitter(policy, n);
    FloorMonotone(Bounded(policy, m), Bounded(policy, n), policy.maximumDelay);
  }

  lemma {:induction false} FloorMonotone(x: real, y: real, top: int)
    requires 0.0 <= x <= y
    ensures Clamp(x, top) <= Clamp(y, top)
  {
  }

  lemma {:induction false} NoJitter(policy: RecoveryPolicy, attempt: nat)
    requires policy.Valid() && policy.jitter == 0.0
    ensures Adjusted(policy, attempt) == Bounded(policy, attempt)
  {
    BoundedPositive(policy, attempt);
    assert Phase(attempt) * 0.0 == 0.0;
  }
}

/** The task supervisor as a machine: registration, the retry loop of every task, stop and join.
    Actions are latch sections and the stretches between suspension points. */
module TaskSupervisor {
  import opened Runtime
  import opened Backoff

  datatype TaskState = Starting | Running | Recovering | Failed | Stopped

  /** Where a task's coroutine is. */
  datatype Place =
    | Spawning            // registered, not yet running
    | Top                 // at the head of the retry loop
    | InFlight            // its operation is running
    | Waiting(due: int)   // backing off
    | Ending              // left the loop, before the final latch
    | Exhausting          // out of budget, before the latch of the report
    | Reporting           // calling the exhaustion observer
    | Returning           // about to destroy the completion guard
    | Unwound             // an exception left the coroutine; its guard is gone
    | Handled             // the failure handler has marked the task failed
    | Gone

  datatype Item = Item(
    name: string, required: bool, policy: RecoveryPolicy,
    state: TaskState, place: Place, attempt: nat, limit: Deadline,
    cancelRequested: bool, cancelDispatched: bool, stopError: bool,
    settled: bool)

  datatype StopPhase = NotStopping | Requesting(remaining: set<nat>, adapter: Option<nat>) | Dispatching | Dispatched

  datatype State = State(
    now: int,
    items: seq<Item>,
    entries: map<string, nat>,
    pending: int,
    stop: StopPhase)

  const INITIAL := State(0, [], map[], 0, NotStopping)

  /** Steps of one task's coroutine, completion guard and failure handler. */
  datatype TaskAction =
    | SpawnFails
    | BeginRun
    | Attempt
    | LeaveLoop
    | TopExhausted
    | Complete(ok: bool)
    | Wake(woken: bool)
    | ReportExhausted
    | Reported
    | FinalLatch
    | GuardSettles
    | Escape
    | HandlerLatch
    | HandlerSettles
    | TicketDestroyed

  datatype Action =
    | Tick(passed: nat)
    | Supervise(name: string, required: bool, policy: RecoveryPolicy, limit: Deadline)
    | Task(id: nat, step: TaskAction)
    | RequestStop
    | RequestCancel(target: nat)
    | AdapterReturns(failed: bool)
    | PostCancellation
    | CancelOnContext
    | JoinPasses

  predicate Stopping(s: State) { !s.stop.NotStopping? }

  predicate Over(state: TaskState) { state.Failed? || state.Stopped? }

  /** What one task may do next, given the clock and whether the supervisor is stopping. */
  predicate TaskEnabled(item: Item, now: int, stopping: bool, a: TaskAction) {
    var interrupted := stopping || item.cancelRequested;
    match a
    case SpawnFails => item.place.Spawning?
    case BeginRun => item.place.Spawning?
    case Attempt => item.place.Top? && (item.attempt != 0 ==> !interrupted && !item.limit.Expired(now))
    case LeaveLoop => item.place.Top? && item.attempt != 0 && interrupted
    case TopExhausted => item.place.Top? && item.attempt != 0 && !interrupted && item.limit.Expired(now)
    case Complete(_) => item.place.InFlight?
    case Wake(woken) => item.place.Waiting? && (woken ==> now >= item.place.due)
    case ReportExhausted => item.place.Exhausting?
    case Reported => item.place.Reporting?
    case FinalLatch => item.place.Ending?
    case GuardSettles => item.place.Returning?
    case Escape => item.place.Top? || item.place.Waiting? || item.place.Ending?
    case HandlerLatch => item.place.Unwound?
    case HandlerSettles => item.place.Handled?
    case TicketDestroyed => item.place.Gone?
  }

  /** After an attempt: done, out of budget, or backing off for a delay that ends before the limit. */
  function AfterAttempt(item: Item, now: int, interrupted: bool, ok: bool, delay: int): Item {
    if interrupted || ok then item.(place := Ending)
    else
      var limit := if item.limit.Unlimited? then At(now + item.policy.budget) else item.limit;
      var remaining := limit.Remaining(now).value;
      if remaining <= 0 || delay >= remaining then item.(limit := limit, place := Exhausting)
      else item.(limit := limit, attempt := item.attempt + 1, place := Waiting(now + delay))
  }

  function TaskStep(item: Item, now: int, stopping: bool, a: TaskAction): Item
    requires TaskEnabled(item, now, stopping, a)
  {
    match a
    case SpawnFails => item.(place := Unwound)
    case BeginRun => item.(place := Top)
    case Attempt => item.(place := InFlight, state := if item.attempt == 0 then Running else Recovering)
    case LeaveLoop => item.(place := Ending)
    case TopExhausted => item.(place := Exhausting)
    case Complete(ok) => AfterAttempt(item, now, stopping || item.cancelRequested, ok, RetryDelay(item.policy, item.attempt))
    case Wake(woken) => item.(place := if woken then Top else Ending)
    case ReportExhausted => item.(place := Reporting, state := Failed)
    case Reported => item.(place := Returning)
    case FinalLatch => item.(place := Returning, state := if item.stopError then Failed else Stopped)
    case GuardSettles => item.(place := Gone, settled := true)
    case Escape => item.(place := Unwound, settled := true)
    case HandlerLatch => item.(place := Handled, state := Failed)
    case HandlerSettles => item.(place := Gone, settled := true)
    case TicketDestroyed => item.(settled := true)
  }

  predicate Enabled(s: State, a: Action) {
    match a
    case Tick(_) => true
    case Supervise(name, _, policy, _) =>
      name != [] && policy.Valid() && !Stopping(s) &&
      (name in s.entries ==> s.entries[name] < |s.items| && Over(s.items[s.entries[name]].state))
    case Task(id, step) => id < |s.items| && TaskEnabled(s.items[id], s.now, Stopping(s), step)
    case RequestStop => !Stopping(s)
    case RequestCancel(id) => s.stop.Requesting? && s.stop.adapter.None? && id in s.stop.remaining && id < |s.items|
    case AdapterReturns(_) => s.stop.Requesting? && s.stop.adapter.Some? && s.stop.adapter.value < |s.items|
    case PostCancellation => s.stop.Requesting? && s.stop.adapter.None? && s.stop.remaining == {}
    case CancelOnContext => s.stop.Dispatching?
    case JoinPasses => s.pending == 0
  }

  /** Replaces a task. The completion count goes down when its ticket settles for the first time,
      whichever of guard, handler and destructor asked for it. */
  function Put(s: State, id: nat, item: Item): State
    requires id < |s.items|
  {
    s.(items := s.items[id := item],
       pending := s.pending - (if item.settled && !s.items[id].settled then 1 else 0))
  }

  function NewItem(name: string, required: bool, policy: RecoveryPolicy, limit: Deadline): Item {
    Item(name, required, policy, Starting, Spawning, 0, limit, false, false, false, false)
  }

  function Step(s: State, a: Action): State
    requires Enabled(s, a)
  {
    match a
    case Tick(passed) => s.(now := s.now + passed)
    case Supervise(name, required, policy, limit) =>
      s.(items := s.items + [NewItem(name, required, policy, limit)],
         entries := s.entries[name := |s.items|],
         pending := s.pending + 1)
    case Task(id, step) => Put(s, id, TaskStep(s.items[id], s.now, Stopping(s), step))
    case RequestStop => s.(pending := s.pending + 1, stop := Requesting(s.entries.Values, None))
    case RequestCancel(id) =>
      Put(s, id, s.items[id].(cancelRequested := true)).(stop := Requesting(s.stop.remaining - {id}, Some(id)))
    case AdapterReturns(failed) =>
      var id := s.stop.adapter.value;
      var t := s.(stop := Requesting(s.stop.remaining, None));
      if failed then Put(t, id, t.items[id].(stopError := true, state := Failed)) else t
    case PostCancellation => s.(stop := Dispatching)
    case CancelOnContext => s.(items := DispatchAll(s), pending := s.pending - 1, stop := Dispatched)
    case JoinPasses => s
  }

  /** Dispatches the cancellation of every registered task. */
  function DispatchAll(s: State): seq<Item> {
    seq(|s.items|, i requires 0 <= i < |s.items| =>
      if i in s.entries.Values then s.items[i].(cancelDispatched := true) else s.items[i])
  }

  function Reach(run: seq<Action>): Option<State> {
    if run == [] then Some(INITIAL)
    else
      var before := Reach(run[..|run| - 1]);
      if before.Some? && Enabled(before.value, run[|run| - 1]) then Some(Step(before.value, run[|run| - 1])) else None
  }

  ghost predicate IsRun(run: seq<Action>) { Reach(run).Some? }

  /** Registered tickets that have not been settled. */
  function Unsettled(items: seq<Item>): nat {
    if items == [] then 0
    else Unsettled(items[..|items| - 1]) + (if items[|items| - 1].settled then 0 else 1)
  }

  /** Places no operation is started from any more. */
  predicate Closed(p: Place) {
    p.Reporting? || p.Returning? || p.Handled? || p.Gone?
  }

  /** What every task keeps, given whether the supervisor is stopping and the task is registered. */
  ghost predicate ItemKeeps(item: Item, stopping: bool, current: bool) {
    && item.policy.Valid()
    && (Over(item.state) && !stopping ==> Closed(item.place))
    && (item.settled ==> item.place.Unwound? || item.place.Handled? || item.place.Gone?)
    && (item.place.Gone? ==> item.settled)
    && (item.place.Waiting? ==> !item.limit.Expired(item.place.due))
    && (item.attempt != 0 ==> item.limit.At?)
    && (current || Closed(item.place))
  }

  ghost predicate Current(s: State, id: nat)
    requires id < |s.items|
  {
    s.items[id].name in s.entries && s.entries[s.items[id].name] == id
  }

  ghost predicate EntriesKeep(s: State) {
    forall name :: name in s.entries ==> s.entries[name] < |s.items| && s.items[s.entries[name]].name == name
  }

  ghost predicate StopKeeps(s: State) {
    && (s.stop.Requesting? ==>
          && s.stop.remaining <= s.entries.Values
          && forall id :: id in s.entries.Values && id !in s.stop.remaining ==> id < |s.items| && s.items[id].cancelRequested)
    && (s.stop.Dispatching? || s.stop.Dispatched? ==>
          forall id :: id in s.entries.Values ==> id < |s.items| && s.items[id].cancelRequested)
    && (s.stop.Dispatched? ==>
          forall id :: id in s.entries.Values ==> id < |s.items| && s.items[id].cancelDispatched)
  }

  ghost predicate Invariant(s: State) {
    && EntriesKeep(s) && StopKeeps(s)
    && (forall id :: 0 <= id < |s.items| ==> ItemKeeps(s.items[id], Stopping(s), Current(s, id)))
    && s.pending == Unsettled(s.items) + (if Stopping(s) && !s.stop.Dispatched? then 1 else 0)
  }

  lemma {:induction false} UnsettledPut(items: seq<Item>, id: nat, item: Item)
    requires id < |items|
    ensures Unsettled(items[id := item]) ==
            Unsettled(items) - (if items[id].settled then 0 else 1) + (if item.settled then 0 else 1)
  {
    var n := |items| - 1;
    if id < n {
      UnsettledPut(items[..n], id, item);
      assert items[id := item][..n] == items[..n][id := item];
    } else {
      assert items[id := item][..n] == items[..n];
    }
  }

  lemma {:induction false} UnsettledSame(a: seq<Item>, b: seq<Item>)
    requires |a| == |b| && forall i :: 0 <= i < |a| ==> a[i].settled == b[i].settled
    ensures Unsettled(a) == Unsettled(b)
  {
    if a != [] {
      UnsettledSame(a[..|a| - 1], b[..|b| - 1]);
    }
  }

  lemma {:induction false} NoneUnsettled(items: seq<Item>)
    ensures Unsettled(items) == 0 <==> forall i :: 0 <= i < |items| ==> items[i].settled
  {
    if items != [] {
      NoneUnsettled(items[..|items| - 1]);
    }
  }

  /** The next version of a task: same name and policy, cancellation and settlement never taken back. */
  ghost predicate Evolves(old_: Item, item: Item) {
    && item.name == old_.name && item.policy == old_.policy
    && (old_.cancelRequested ==> item.cancelRequested) && (old_.cancelDispatched ==> item.cancelDispatched)
    && (old_.settled ==> item.settled)
  }

  lemma {:induction false} PutKeeps(s: State, id: nat, item: Item)
    requires Invariant(s) && id < |s.items| && Evolves(s.items[id], item)
    requires ItemKeeps(item, Stopping(s), Current(s, id))
    ensures Invariant(Put(s, id, item))
  {
    var t := Put(s, id, item);
    UnsettledPut(s.items, id, item);
    forall i | 0 <= i < |t.items| ensures ItemKeeps(t.items[i], Stopping(t), Current(t, i)) {
      assert Current(t, i) == Current(s, i);
    }
  }

  lemma {:induction false} TaskStepKeeps(item: Item, now: int, stopping: bool, current: bool, a: TaskAction)
    requires ItemKeeps(item, stopping, current) && TaskEnabled(item, now, stopping, a)
    ensures ItemKeeps(TaskStep(item, now, stopping, a), stopping, current)
    ensures Evolves(item, TaskStep(item, now, stopping, a))
  {
  }

  lemma {:induction false} StepKeepsInvariant(s: State, a: Action)
    requires Invariant(s) && Enabled(s, a)
    ensures Invariant(Step(s, a))
  {
    match a
    case Task(id, step) =>
      TaskStepKeeps(s.items[id], s.now, Stopping(s), Current(s, id), step);
      PutKeeps(s, id, TaskStep(s.items[id], s.now, Stopping(s), step));
    case Supervise(_, _, _, _) => SuperviseKeeps(s, a);
    case RequestStop => RequestStopKeeps(s);
    case RequestCancel(id) => RequestCancelKeeps(s, id);
    case AdapterReturns(failed) => AdapterKeeps(s, failed);
    case CancelOnContext => CancelKeeps(s);
    case _ =>
  }

  lemma {:induction false} SuperviseKeeps(s: State, a: Action)
    requires Invariant(s) && Enabled(s, a) && a.Supervise?
    ensures Invariant(Step(s, a))
  {
  }

  lemma {:induction false} RequestStopKeeps(s: State)
    requires Invariant(s) && Enabled(s, RequestStop)
    ensures Invariant(Step(s, RequestStop))
  {
  }

  lemma {:induction false} RequestCancelKeeps(s: State, id: nat)
    requires Invariant(s) && Enabled(s, RequestCancel(id))
    ensures Invariant(Step(s, RequestCancel(id)))
  {
    var item := s.items[id].(cancelRequested := true);
    PutKeeps(s, id, item);
    var u, t := Put(s, id, item), Step(s, RequestCancel(id));
    forall i | 0 <= i < |t.items| ensures ItemKeeps(t.items[i], Stopping(t), Current(t, i)) {
      assert Current(t, i) == Current(u, i);
    }
  }

  lemma {:induction false} AdapterKeeps(s: State, failed: bool)
    requires Invariant(s) && Enabled(s, AdapterReturns(failed))
    ensures Invariant(Step(s, AdapterReturns(failed)))
  {
    var t := s.(stop := Requesting(s.stop.remaining, None));
    forall i | 0 <= i < |t.items| ensures ItemKeeps(t.items[i], Stopping(t), Current(t, i)) {
      assert Current(t, i) == Current(s, i);
    }
    if failed {
      var id := s.stop.adapter.value;
      PutKeeps(t, id, t.items[id].(stopError := true, state := Failed));
    }
  }

  lemma {:induction false} CancelKeeps(s: State)
    requires Invariant(s) && Enabled(s, CancelOnContext)
    ensures Invariant(Step(s, CancelOnContext))
  {
    var t := Step(s, CancelOnContext);
    UnsettledSame(s.items, t.items);
    forall i | 0 <= i < |t.items| ensures ItemKeeps(t.items[i], Stopping(t), Current(t, i)) {
      assert Current(t, i) == Current(s, i);
      assert ItemKeeps(s.items[i], Stopping(s), Current(s, i));
    }
  }

  lemma {:induction false} InvariantHolds(run: seq<Action>)
    requires IsRun(run)
    ensures Invariant(Reach(run).value)
  {
    if run != [] {
      var prior := run[..|run| - 1];
      InvariantHolds(prior);
      StepKeepsInvariant(Reach(prior).value, run[|run| - 1]);
    }
  }

  /** Completion is conserved: the wait group counts the unsettled tickets, plus one from the stop
      request until cancellation has been dispatched. */
  lemma {:induction false} CompletionIsConserved(run: seq<Action>)
    requires IsRun(run)
    ensures var s := Reach(run).value;
      s.pending == Unsettled(s.items) + (if Stopping(s) && !s.stop.Dispatched? then 1 else 0)
  {
    InvariantHolds(run);
  }

  /** At most one operation per name is ever in flight, despite replaced entries. */
  lemma {:induction false} SingleFlight(run: seq<Action>, i: nat, j: nat)
    requires IsRun(run) && i < |Reach(run).value.items| && j < |Reach(run).value.items|
    requires Reach(run).value.items[i].place.InFlight? && Reach(run).value.items[j].place.InFlight?
    requires Reach(run).value.items[i].name == Reach(run).value.items[j].name
    ensures i == j
  {
    InvariantHolds(run);
    var s := Reach(run).value;
    assert ItemKeeps(s.items[i], Stopping(s), Current(s, i)) && ItemKeeps(s.items[j], Stopping(s), Current(s, j));
  }

  /** A join after a stop request returns only when cancellation was dispatched to every member and
      every task has settled with no operation in flight. */
  lemma {:induction false} JoinMeansSettled(run: seq<Action>)
    requires IsRun(run + [JoinPasses]) && Stopping(Reach(run).value)
    ensures var s := Reach(run).value;
      && s.stop.Dispatched?
      && (forall i :: 0 <= i < |s.items| ==> s.items[i].settled && !s.items[i].place.InFlight? && !s.items[i].place.Waiting?)
      && (forall id :: id in s.entries.Values ==> id < |s.items| && s.items[id].cancelRequested && s.items[id].cancelDispatched)
  {
    assert (run + [JoinPasses])[..|run|] == run;
    InvariantHolds(run);
    var s := Reach(run).value;
    NoneUnsettled(s.items);
    forall i | 0 <= i < |s.items|
      ensures s.items[i].settled && !s.items[i].place.InFlight? && !s.items[i].place.Waiting?
    {
      assert ItemKeeps(s.items[i], Stopping(s), Current(s, i));
    }
  }

  /** Once stop was requested, membership never changes and nothing new is registered. */
  lemma {:induction false} MembershipIsFrozen(run: seq<Action>, more: seq<Action>)
    requires IsRun(run + more) && IsRun(run) && Stopping(Reach(run).value)
    ensures var s, t := Reach(run).value, Reach(run + more).value;
      Stopping(t) && t.entries == s.entries && |t.items| == |s.items|
  {
    if more == [] {
      assert run + more == run;
    } else {
      var n := |more| - 1;
      assert (run + more)[..|run + more| - 1] == run + more[..n];
      MembershipIsFrozen(run, more[..n]);
    }
  }

  /** Every backoff ends strictly before the limit it is bound by. */
  lemma {:induction false} BackoffEndsInBudget(run: seq<Action>, id: nat)
    requires IsRun(run) && id < |Reach(run).value.items| && Reach(run).value.items[id].place.Waiting?
    ensures !Reach(run).value.items[id].limit.Expired(Reach(run).value.items[id].place.due)
  {
    InvariantHolds(run);
    assert ItemKeeps(Reach(run).value.items[id], Stopping(Reach(run).value), Current(Reach(run).value, id));
  }

  /** The run leads to `s`; unfolded only where `Reach` is named. */
  ghost predicate LeadsTo(run: seq<Action>, s: State) {
    forall r :: r == run ==> Reach(r) == Some(s)
  }

  ghost predicate HasLimit(s: State, id: nat, limit: Deadline) {
    id < |s.items| && s.items[id].limit == limit
  }

  lemma {:induction false} StepKeepsLimit(s: State, a: Action, id: nat, limit: Deadline)
    requires Enabled(s, a) && HasLimit(s, id, limit) && limit.At?
    ensures HasLimit(Step(s, a), id, limit)
  {
    if a.Task? && a.id == id {
      TaskKeepsLimit(s.items[id], s.now, Stopping(s), a.step);
    }
  }

  lemma {:induction false} TaskKeepsLimit(item: Item, now: int, stopping: bool, a: TaskAction)
    requires TaskEnabled(item, now, stopping, a) && item.limit.At?
    ensures TaskStep(item, now, stopping, a).limit == item.limit
  {
    if a.Complete? {
      AttemptKeepsLimit(item, now, stopping || item.cancelRequested, a.ok, RetryDelay(item.policy, item.attempt));
    }
  }

  lemma {:induction false} AttemptKeepsLimit(item: Item, now: int, interrupted: bool, ok: bool, delay: int)
    requires item.limit.At?
    ensures AfterAttempt(item, now, interrupted, ok, delay).limit == item.limit
  {
  }

  lemma {:induction false} LastStep(run: seq<Action>, t: State) returns (s: State)
    requires LeadsTo(run, t) && run != []
    ensures LeadsTo(run[..|run| - 1], s) && Enabled(s, run[|run| - 1]) && t == Step(s, run[|run| - 1])
  {
    assert Reach(run) == Some(t);
    s := Reach(run[..|run| - 1]).value;
  }

  lemma {:induction false} OneState(run: seq<Action>, s: State, t: State)
    requires LeadsTo(run, s) && LeadsTo(run, t)
    ensures s == t
  {
    assert Reach(run) == Some(s) && Reach(run) == Some(t);
  }

  /** Once a task has a limit it keeps it. */
  lemma {:induction false} LimitNeverChanges(before: seq<Action>, after: seq<Action>, s: State, t: State, id: nat, limit: Deadline)
    requires LeadsTo(before, s) && LeadsTo(before + after, t) && HasLimit(s, id, limit) && limit.At?
    ensures HasLimit(t, id, limit)
  {
    if after == [] {
      assert before + after == before;
      OneState(before, s, t);
    } else {
      var u := LastStep(before + after, t);
      var n := |after| - 1;
      assert (before + after)[..|before + after| - 1] == before + after[..n];
      LimitNeverChanges(before, after[..n], s, u, id, limit);
      StepKeepsLimit(u, (before + after)[|before| + n], id, limit);
    }
  }

  /** A retry of task `id` can begin in `s`. */
  ghost predicate CanRetry(s: State, id: nat) {
    Enabled(s, Task(id, Attempt)) && s.items[id].attempt != 0
  }

  lemma {:induction false} RetryHasLimit(run: seq<Action>, s: State, id: nat)
    requires LeadsTo(run, s) && CanRetry(s, id)
    ensures s.items[id].limit.At? && !s.items[id].limit.Expired(s.now) && !Stopping(s) && !s.items[id].cancelRequested
  {
    assert Reach(run) == Some(s);
    InvariantHolds(run);
    assert ItemKeeps(s.items[id], Stopping(s), Current(s, id));
  }

  /** A task has one limit for all its retries: whenever two begin, they are bound by the same one, neither
      begins once it has passed, and neither after the task was told to stop. */
  lemma {:induction false} RetriesShareOneLimit(before: seq<Action>, between: seq<Action>, s: State, t: State, id: nat)
    requires LeadsTo(before, s) && LeadsTo(before + between, t) && CanRetry(s, id) && CanRetry(t, id)
    ensures s.items[id].limit.At? && t.items[id].limit == s.items[id].limit
    ensures !s.items[id].limit.Expired(s.now) && !s.items[id].limit.Expired(t.now)
    ensures !Stopping(t) && !s.items[id].cancelRequested && !t.items[id].cancelRequested
  {
    RetryHasLimit(before, s, id);
    RetryHasLimit(before + between, t, id);
    LimitNeverChanges(before, between, s, t, id, s.items[id].limit);
  }
}
