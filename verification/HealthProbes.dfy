/** Probe cycles interleaved with lifecycle updates: who may change a cached snapshot, and when. */
module HealthProbes {
  import opened Runtime
  import opened Ordering
  import opened HealthRegistry

  /** Where one probe of a cycle is. A missed probe was not accepted, or ended without a report. */
  datatype Probe = Undispatched | Running | Done | Missed

  datatype Phase = Dispatching(next: nat) | Joining | Sweeping(next: nat) | Ended

  /** One refresh: what it captured, the order it goes through it, and how far it is. */
  datatype Cycle = Cycle(captured: map<ServiceKey, Snapshot>, order: seq<ServiceKey>, probes: map<ServiceKey, Probe>, phase: Phase)

  datatype State = State(entries: map<ServiceKey, Snapshot>, policy: Policy, stopping: bool, cycles: seq<Cycle>)

  datatype Action =
    | Add(key: ServiceKey, requirement: Requirement)
    | Update(key: ServiceKey, report: Status)
    | SetStopping(stopping: bool)
    | SetPolicy(policy: Policy)
    | PreparationFails
    | BeginRefresh(order: seq<ServiceKey>)
    | Progress(cycle: nat, step: CycleAction)

  datatype CycleAction =
    | Dispatch(accepted: bool)
    | AllDispatched
    | ProbeReports(key: ServiceKey, report: Status)
    | ProbeLost(key: ServiceKey)
    | AllSettled
    | Sweep
    | EndRefresh

  function Initial(policy: Policy): State {
    State(map[], policy, false, [])
  }

  /** The snapshots a refresh probes. */
  function Capture(s: State): map<ServiceKey, Snapshot> {
    map k | k in s.entries && !s.entries[k].status.Shutting() :: s.entries[k]
  }

  predicate ProbeAt(c: Cycle, k: ServiceKey, p: Probe) {
    k in c.probes && k in c.captured && c.probes[k] == p
  }

  /** What a cycle may do next. A probe reports while it runs; the sweep starts when none runs any more. */
  predicate CycleEnabled(c: Cycle, a: CycleAction) {
    match a
    case Dispatch(_) => c.phase.Dispatching? && c.phase.next < |c.order|
    case AllDispatched => c.phase.Dispatching? && c.phase.next == |c.order|
    case ProbeReports(k, _) => ProbeAt(c, k, Running)
    case ProbeLost(k) => ProbeAt(c, k, Running)
    case AllSettled => c.phase.Joining? && forall k :: k in c.probes ==> !c.probes[k].Running?
    case Sweep => c.phase.Sweeping? && c.phase.next < |c.order| && c.order[c.phase.next] in c.probes && c.order[c.phase.next] in c.captured
    case EndRefresh => c.phase.Sweeping? && c.phase.next == |c.order|
  }

  predicate Enabled(s: State, a: Action) {
    match a
    case Add(k, _) => k !in s.entries
    case BeginRefresh(order) => !s.stopping && Distinct(order) && Elements(order) == Capture(s).Keys
    case Progress(c, step) => c < |s.cycles| && CycleEnabled(s.cycles[c], step)
    case _ => true
  }

  function CycleStep(c: Cycle, a: CycleAction): Cycle
    requires CycleEnabled(c, a)
  {
    match a
    case Dispatch(accepted) =>
      c.(probes := c.probes[c.order[c.phase.next] := if accepted then Running else Missed], phase := Dispatching(c.phase.next + 1))
    case AllDispatched => c.(phase := Joining)
    case ProbeReports(k, _) => c.(probes := c.probes[k := Done])
    case ProbeLost(k) => c.(probes := c.probes[k := Missed])
    case AllSettled => c.(phase := Sweeping(0))
    case Sweep => c.(phase := Sweeping(c.phase.next + 1))
    case EndRefresh => c.(phase := Ended)
  }

  /** The report a cycle offers to the registry: its probe's, or a failure for a probe that did not complete. */
  function Offer(c: Cycle, a: CycleAction): Option<(ServiceKey, Status)>
    requires CycleEnabled(c, a)
  {
    match a
    case ProbeReports(k, report) => Some((k, report))
    case Sweep => if c.probes[c.order[c.phase.next]].Done? then None else Some((c.order[c.phase.next], Down))
    case _ => None
  }

  function OfferTaken(s: State, c: Cycle, offer: Option<(ServiceKey, Status)>): map<ServiceKey, Snapshot>
    requires offer.Some? ==> offer.value.0 in c.captured
  {
    if offer.None? then s.entries
    else Published(s.policy, s.stopping, s.entries, offer.value.0, offer.value.1, Some(c.captured[offer.value.0].revision))
  }

  function Step(s: State, a: Action): State
    requires Enabled(s, a)
  {
    match a
    case Add(k, requirement) => s.(entries := s.entries[k := NewSnapshot(requirement)])
    case Update(k, report) => s.(entries := Published(s.policy, s.stopping, s.entries, k, report, None))
    case SetStopping(stopping) => s.(stopping := stopping)
    case SetPolicy(policy) => s.(policy := policy)
    case PreparationFails => s.(entries := Unprepared(s.policy, s.stopping, s.entries))
    case BeginRefresh(order) =>
      s.(cycles := s.cycles + [Cycle(Capture(s), order, map k | k in Capture(s) :: Undispatched, Dispatching(0))])
    case Progress(i, step) =>
      var c := s.cycles[i];
      s.(entries := OfferTaken(s, c, Offer(c, step)), cycles := s.cycles[i := CycleStep(c, step)])
  }

  function Reach(policy: Policy, run: seq<Action>): Option<State> {
    if run == [] then Some(Initial(policy))
    else
      var before := Reach(policy, run[..|run| - 1]);
      if before.Some? && Enabled(before.value, run[|run| - 1]) then Some(Step(before.value, run[|run| - 1])) else None
  }

  ghost predicate IsRun(policy: Policy, run: seq<Action>) { Reach(policy, run).Some? }

  // ---------------------------------------------------------------- what every run keeps

  /** The captured snapshot is not newer than the cached one, and equal revisions mean equal snapshots. */
  ghost predicate CapturedKeeps(entries: map<ServiceKey, Snapshot>, captured: map<ServiceKey, Snapshot>) {
    forall k :: k in captured ==>
      && k in entries && !captured[k].status.Shutting()
      && captured[k].revision <= entries[k].revision
      && (captured[k].revision == entries[k].revision ==> captured[k] == entries[k])
  }

  /** The order lists the captured services once each; while dispatching, exactly those from `next` on are
      undispatched; no probe runs once the sweep has begun. */
  ghost predicate CycleKeeps(c: Cycle) {
    && Distinct(c.order) && Elements(c.order) == c.captured.Keys == c.probes.Keys
    && (c.phase.Dispatching? ==> c.phase.next <= |c.order| && forall k :: k in c.order[c.phase.next..] ==> c.probes[k].Undispatched?)
    && (c.phase.Sweeping? ==> c.phase.next <= |c.order|)
    && (c.phase.Sweeping? || c.phase.Ended? ==> forall k :: k in c.probes ==> !c.probes[k].Running?)
  }

  ghost predicate Invariant(s: State) {
    forall c :: 0 <= c < |s.cycles| ==> CapturedKeeps(s.entries, s.cycles[c].captured) && CycleKeeps(s.cycles[c])
  }

  /** Every snapshot is kept, or replaced by one with a higher revision. */
  ghost predicate Advances(before: map<ServiceKey, Snapshot>, after: map<ServiceKey, Snapshot>) {
    forall k :: k in before ==>
      k in after && (after[k] == before[k] || after[k].revision > before[k].revision)
  }

  lemma {:induction false} StepAdvances(s: State, a: Action)
    requires Enabled(s, a)
    ensures Advances(s.entries, Step(s, a).entries)
  {
  }

  lemma {:induction false} CycleStepKeeps(c: Cycle, a: CycleAction)
    requires CycleKeeps(c) && CycleEnabled(c, a)
    ensures CycleKeeps(CycleStep(c, a)) && CycleStep(c, a).captured == c.captured && CycleStep(c, a).order == c.order
  {
    if a.Dispatch? {
      var k := c.order[c.phase.next];
      assert k in Elements(c.order);
      assert c.order[c.phase.next..] == [k] + c.order[c.phase.next + 1..];
    }
  }

  lemma {:induction false} CapturedStays(before: map<ServiceKey, Snapshot>, after: map<ServiceKey, Snapshot>, captured: map<ServiceKey, Snapshot>)
    requires CapturedKeeps(before, captured) && Advances(before, after)
    ensures CapturedKeeps(after, captured)
  {
  }

  lemma {:induction false} NewCycleKeeps(s: State, order: seq<ServiceKey>)
    requires Enabled(s, BeginRefresh(order))
    ensures var c := Cycle(Capture(s), order, map k | k in Capture(s) :: Undispatched, Dispatching(0));
      CapturedKeeps(s.entries, c.captured) && CycleKeeps(c)
  {
    assert order[0..] == order;
  }

  lemma {:induction false} StepKeepsInvariant(s: State, a: Action)
    requires Invariant(s) && Enabled(s, a)
    ensures Invariant(Step(s, a))
  {
    var t := Step(s, a);
    StepAdvances(s, a);
    if a.Progress? {
      CycleStepKeeps(s.cycles[a.cycle], a.step);
    } else if a.BeginRefresh? {
      NewCycleKeeps(s, a.order);
    }
    forall c | 0 <= c < |t.cycles| ensures CapturedKeeps(t.entries, t.cycles[c].captured) && CycleKeeps(t.cycles[c]) {
      if c < |s.cycles| {
        assert CapturedKeeps(s.entries, s.cycles[c].captured) && CycleKeeps(s.cycles[c]);
        CapturedStays(s.entries, t.entries, s.cycles[c].captured);
      }
    }
  }

  lemma {:induction false} InvariantHolds(policy: Policy, run: seq<Action>)
    requires IsRun(policy, run)
    ensures Invariant(Reach(policy, run).value)
  {
    if run != [] {
      InvariantHolds(policy, run[..|run| - 1]);
      StepKeepsInvariant(Reach(policy, run[..|run| - 1]).value, run[|run| - 1]);
    }
  }

  lemma {:induction false} PrefixIsRun(policy: Policy, run: seq<Action>, n: nat)
    requires IsRun(policy, run) && n <= |run|
    ensures IsRun(policy, run[..n])
  {
    if n < |run| {
      PrefixIsRun(policy, run[..|run| - 1], n);
      assert run[..|run| - 1][..n] == run[..n];
    } else {
      assert run[..n] == run;
    }
  }

  lemma {:induction false} StepOfRun(policy: Policy, run: seq<Action>, i: nat)
    requires IsRun(policy, run) && i < |run|
    ensures IsRun(policy, run[..i]) && IsRun(policy, run[..i + 1])
    ensures Enabled(Reach(policy, run[..i]).value, run[i])
    ensures Reach(policy, run[..i + 1]).value == Step(Reach(policy, run[..i]).value, run[i])
  {
    PrefixIsRun(policy, run, i + 1);
    assert run[..i + 1][..i] == run[..i];
  }

  // ---------------------------------------------------------------- stale probes

  /** Cycle `c` offers a report for `k` in this step. */
  predicate Offers(s: State, a: Action, c: nat, k: ServiceKey)
    requires Enabled(s, a)
  {
    a.Progress? && a.cycle == c && Offer(s.cycles[c], a.step).Some? && Offer(s.cycles[c], a.step).value.0 == k
  }

  /** Stale probes never win: when a cycle's report changes anything, the cached snapshot is still the very
      one the cycle captured, the service is not shutting down and neither is the registry; the change is the
      acceptance of that report, to that service alone. A report for the captured revision is accepted. */
  lemma {:induction false} StaleProbesNeverWin(policy: Policy, run: seq<Action>, i: nat, c: nat, k: ServiceKey)
    requires IsRun(policy, run) && i < |run|
    ensures IsRun(policy, run[..i]) && IsRun(policy, run[..i + 1]) && Enabled(Reach(policy, run[..i]).value, run[i])
    ensures var s, t := Reach(policy, run[..i]).value, Reach(policy, run[..i + 1]).value;
      Offers(s, run[i], c, k) ==>
        && k in s.cycles[c].captured && k in s.entries
        && (t.entries != s.entries ==>
              && s.entries[k] == s.cycles[c].captured[k] && !s.entries[k].status.Shutting() && !s.stopping
              && t.entries == s.entries[k := Accept(s.policy, s.entries[k], Offer(s.cycles[c], run[i].step).value.1)])
        && (!s.stopping && s.entries[k].revision == s.cycles[c].captured[k].revision ==> t.entries != s.entries)
  {
    StepOfRun(policy, run, i);
    InvariantHolds(policy, run[..i]);
    var s := Reach(policy, run[..i]).value;
    if Offers(s, run[i], c, k) {
      OfferWins(s, c, k, Offer(s.cycles[c], run[i].step).value.1);
    }
  }

  lemma {:induction false} OfferWins(s: State, c: nat, k: ServiceKey, report: Status)
    requires Invariant(s) && c < |s.cycles| && k in s.cycles[c].captured
    ensures k in s.entries
    ensures var after := OfferTaken(s, s.cycles[c], Some((k, report)));
      && (after != s.entries ==>
            && s.entries[k] == s.cycles[c].captured[k] && !s.entries[k].status.Shutting() && !s.stopping
            && after == s.entries[k := Accept(s.policy, s.entries[k], report)])
      && (!s.stopping && s.entries[k].revision == s.cycles[c].captured[k].revision ==> after != s.entries)
  {
    assert CapturedKeeps(s.entries, s.cycles[c].captured);
    assert Accept(s.policy, s.entries[k], report).revision == s.entries[k].revision + 1;
  }

  // ---------------------------------------------------------------- one publication each

  /** How often a run offered a report of cycle `c` for `k`. */
  ghost function Publications(policy: Policy, run: seq<Action>, c: nat, k: ServiceKey): nat
    requires IsRun(policy, run)
  {
    if run == [] then 0
    else
      var prior := run[..|run| - 1];
      Publications(policy, prior, c, k) + (if Offers(Reach(policy, prior).value, run[|run| - 1], c, k) then 1 else 0)
  }

  /** Published by its probe, or passed by the sweep. */
  predicate IsPublished(c: Cycle, k: ServiceKey) {
    k in c.captured && k in c.probes &&
    (c.probes[k].Done? || c.phase.Ended? || (c.phase.Sweeping? && k in c.order[..if c.phase.next <= |c.order| then c.phase.next else 0]))
  }

  /** Each captured service gets at most one publication per cycle, and exactly one by its end, whichever
      probes were refused, lost or slow. */
  lemma {:induction false} OnePublicationPerCycle(policy: Policy, run: seq<Action>, c: nat, k: ServiceKey)
    requires IsRun(policy, run)
    ensures var s := Reach(policy, run).value;
      && Publications(policy, run, c, k) <= 1
      && (c < |s.cycles| ==> (Publications(policy, run, c, k) == 1 <==> IsPublished(s.cycles[c], k)))
      && (c >= |s.cycles| ==> Publications(policy, run, c, k) == 0)
      && (c < |s.cycles| && s.cycles[c].phase.Ended? && k in s.cycles[c].captured ==> Publications(policy, run, c, k) == 1)
  {
    InvariantHolds(policy, run);
    if run != [] {
      var prior := run[..|run| - 1];
      InvariantHolds(policy, prior);
      OnePublicationPerCycle(policy, prior, c, k);
      PublishedOnce(Reach(policy, prior).value, run[|run| - 1], c, k);
    }
  }

  lemma {:induction false} PublishedOnce(s: State, a: Action, c: nat, k: ServiceKey)
    requires Invariant(s) && Enabled(s, a)
    ensures var t := Step(s, a);
      && |s.cycles| <= |t.cycles|
      && (c < |s.cycles| ==> (IsPublished(t.cycles[c], k) <==> IsPublished(s.cycles[c], k) || Offers(s, a, c, k)))
      && (Offers(s, a, c, k) ==> c < |s.cycles| && !IsPublished(s.cycles[c], k))
      && (|s.cycles| <= c < |t.cycles| ==> !IsPublished(t.cycles[c], k))
  {
    if a.Progress? && a.cycle == c {
      CyclePublishesOnce(s.cycles[c], a.step, k);
    }
  }

  lemma {:induction false} CyclePublishesOnce(c: Cycle, a: CycleAction, k: ServiceKey)
    requires CycleKeeps(c) && CycleEnabled(c, a)
    ensures var offered := Offer(c, a).Some? && Offer(c, a).value.0 == k;
      && (IsPublished(CycleStep(c, a), k) <==> IsPublished(c, k) || offered)
      && (offered ==> !IsPublished(c, k))
  {
    assert k in c.captured <==> k in Elements(c.order);
    if a.Sweep? {
      TakeOne(c.order, c.phase.next);
    } else if a.EndRefresh? {
      TakeAll(c.order);
    } else if a.Dispatch? {
      assert c.order[c.phase.next] in c.order[c.phase.next..];
    }
  }

  /** Of two cycles that captured the same revision, only one can have its report accepted. */
  lemma {:induction false} OneWinnerPerRevision(policy: Policy, run: seq<Action>, i: nat, j: nat, c: nat, d: nat, k: ServiceKey)
    requires IsRun(policy, run) && i < j < |run|
    requires IsRun(policy, run[..i]) && IsRun(policy, run[..i + 1]) && IsRun(policy, run[..j]) && IsRun(policy, run[..j + 1])
    requires Enabled(Reach(policy, run[..i]).value, run[i]) && Offers(Reach(policy, run[..i]).value, run[i], c, k)
    requires Enabled(Reach(policy, run[..j]).value, run[j]) && Offers(Reach(policy, run[..j]).value, run[j], d, k)
    requires Reach(policy, run[..i]).value.cycles[c].captured[k].revision == Reach(policy, run[..j]).value.cycles[d].captured[k].revision
    requires Reach(policy, run[..i + 1]).value.entries != Reach(policy, run[..i]).value.entries
    ensures Reach(policy, run[..j + 1]).value.entries == Reach(policy, run[..j]).value.entries
  {
    StaleProbesNeverWin(policy, run, i, c, k);
    StaleProbesNeverWin(policy, run, j, d, k);
    RevisionsGrow(policy, run, i + 1, j, k);
  }

  lemma {:induction false} RevisionsGrow(policy: Policy, run: seq<Action>, i: nat, j: nat, k: ServiceKey)
    requires IsRun(policy, run) && i <= j <= |run| && IsRun(policy, run[..i]) && k in Reach(policy, run[..i]).value.entries
    ensures IsRun(policy, run[..j]) && k in Reach(policy, run[..j]).value.entries
    ensures Reach(policy, run[..i]).value.entries[k].revision <= Reach(policy, run[..j]).value.entries[k].revision
    decreases j
  {
    if i < j {
      RevisionsGrow(policy, run, i, j - 1, k);
      StepOfRun(policy, run, j - 1);
      StepAdvances(Reach(policy, run[..j - 1]).value, run[j - 1]);
    }
  }

  // ---------------------------------------------------------------- health is the replay of what was accepted

  /** The report this step has accepted for `k`, if any. */
  function Taken(s: State, a: Action, k: ServiceKey): Option<Status>
    requires Enabled(s, a)
  {
    if k !in s.entries then None
    else
      match a
      case Update(x, report) => if x == k then Some(report) else None
      case PreparationFails => if s.stopping || s.entries[k].status.Shutting() then None else Some(Down)
      case Progress(i, step) =>
        var offer := Offer(s.cycles[i], step);
        if offer.Some? && offer.value.0 == k && !s.stopping && s.entries[k].revision == s.cycles[i].captured[k].revision
        then Some(offer.value.1) else None
      case _ => None
  }

  lemma {:induction false} StepAccepts(s: State, a: Action, k: ServiceKey)
    requires Enabled(s, a) && k in Step(s, a).entries
    ensures k in s.entries ==>
      Step(s, a).entries[k] == if Taken(s, a, k).Some? then Accept(s.policy, s.entries[k], Taken(s, a, k).value) else s.entries[k]
    ensures k !in s.entries ==> Step(s, a).entries[k] == NewSnapshot(Step(s, a).entries[k].requirement)
  {
  }

  /** The reports a run accepted for `k`, each with the policy in force. */
  ghost function History(policy: Policy, run: seq<Action>, k: ServiceKey): seq<Accepted>
    requires IsRun(policy, run)
  {
    if run == [] then []
    else
      var prior := run[..|run| - 1];
      var s := Reach(policy, prior).value;
      var taken := Taken(s, run[|run| - 1], k);
      History(policy, prior, k) + (if taken.Some? then [Accepted(s.policy, taken.value)] else [])
  }

  lemma {:induction false} NoHistoryBeforeAdding(policy: Policy, run: seq<Action>, k: ServiceKey)
    requires IsRun(policy, run) && k !in Reach(policy, run).value.entries
    ensures History(policy, run, k) == []
  {
    if run != [] {
      var prior := run[..|run| - 1];
      StepAdvances(Reach(policy, prior).value, run[|run| - 1]);
      NoHistoryBeforeAdding(policy, prior, k);
    }
  }

  lemma {:induction false} ReplayOneMore(requirement: Requirement, history: seq<Accepted>, e: Accepted)
    ensures ReplayMixed(requirement, history + [e]) == Accept(e.policy, ReplayMixed(requirement, history), e.report)
  {
    assert (history + [e])[..|history|] == history;
  }

  /** In every run a cached snapshot is the replay of exactly the reports accepted for its service: probes,
      lifecycle updates and failed preparations together. */
  lemma {:induction false} HealthIsReplay(policy: Policy, run: seq<Action>, k: ServiceKey)
    requires IsRun(policy, run) && k in Reach(policy, run).value.entries
    ensures var snapshot := Reach(policy, run).value.entries[k];
      snapshot == ReplayMixed(snapshot.requirement, History(policy, run, k))
  {
    var prior, a := run[..|run| - 1], run[|run| - 1];
    var s := Reach(policy, prior).value;
    StepAccepts(s, a, k);
    if k in s.entries {
      HealthIsReplay(policy, prior, k);
      CountersIgnorePolicy(s.entries[k].requirement, History(policy, prior, k));
      if Taken(s, a, k).Some? {
        ReplayOneMore(s.entries[k].requirement, History(policy, prior, k), Accepted(s.policy, Taken(s, a, k).value));
      } else {
        assert History(policy, run, k) == History(policy, prior, k);
      }
    } else {
      NoHistoryBeforeAdding(policy, prior, k);
    }
  }

  /** So in every run the counters are the trailing runs of the accepted reports, and as long as one policy was
      in force the status is the one the thresholds give. */
  lemma {:induction false} HealthFollowsReports(policy: Policy, run: seq<Action>, k: ServiceKey)
    requires IsRun(policy, run) && k in Reach(policy, run).value.entries
    ensures var snapshot, history := Reach(policy, run).value.entries[k], History(policy, run, k);
      && snapshot.successes == UpRun(ReportsOf(history)) && snapshot.failures == NonUpRun(ReportsOf(history))
      && snapshot.revision == |history|
      && ((forall i :: 0 <= i < |history| ==> history[i].policy == policy) ==> snapshot.status == StatusOf(policy, ReportsOf(history)))
  {
    var snapshot, history := Reach(policy, run).value.entries[k], History(policy, run, k);
    HealthIsReplay(policy, run, k);
    CountersIgnorePolicy(snapshot.requirement, history);
    if forall i :: 0 <= i < |history| ==> history[i].policy == policy {
      OnePolicy(policy, snapshot.requirement, history);
      HealthRefinesHistory(policy, snapshot.requirement, ReportsOf(history));
    }
  }
}
