/** Cached service health: hysteresis over accepted reports, and optimistic probe publication. */
module HealthRegistry {
  import opened Runtime

  datatype Status = Starting | Up | Degraded | Down | Stopping | Stopped {
    predicate Shutting() { Stopping? || Stopped? }
  }

  datatype Policy = Policy(failuresBeforeDown: nat, successesBeforeUp: nat)

  datatype Snapshot = Snapshot(requirement: Requirement, status: Status, failures: nat, successes: nat, revision: nat)

  function NewSnapshot(requirement: Requirement): Snapshot {
    Snapshot(requirement, Starting, 0, 0, 0)
  }

  /** The snapshot after an accepted report. */
  function Accept(policy: Policy, snapshot: Snapshot, report: Status): Snapshot {
    if report.Shutting() then
      snapshot.(revision := snapshot.revision + 1, successes := 0, failures := 0, status := report)
    else
      var successes := if report.Up? then snapshot.successes + 1 else 0;
      var failures := if report.Up? then 0 else snapshot.failures + 1;
      var status :=
        if report.Up? && successes < policy.successesBeforeUp && !snapshot.status.Up? then Starting
        else if !report.Up? && failures < policy.failuresBeforeDown then Degraded
        else report;
      snapshot.(revision := snapshot.revision + 1, successes := successes, failures := failures, status := status)
  }

  class Registry {
    var entries: map<ServiceKey, Snapshot>
    var policy: Policy
    var running: bool
    var stopping: bool

    constructor (policy: Policy)
      ensures entries == map[] && this.policy == policy && !running && !stopping
    {
      this.policy := policy;
      entries, running, stopping := map[], false, false;
    }

    method Add(service: Option<(ServiceKey, Requirement)>) returns (r: Result<()>)
      modifies this`entries
      ensures service.None? ==> r == Err(InvalidArgument)
      ensures service.Some? ==> (r.Ok? <==> service.value.0 !in old(entries)) && (r.Err? ==> r.error == FileExists)
      ensures r.Ok? ==> entries == old(entries)[service.value.0 := NewSnapshot(service.value.1)]
      ensures r.Err? ==> entries == old(entries)
    {
      if service.None? {
        return Err(InvalidArgument);
      }
      var (key, requirement) := service.value;
      if key in entries {
        return Err(FileExists);
      }
      entries := entries[key := NewSnapshot(requirement)];
      return Ok(());
    }

    method MarkStarting()
      modifies this`running, this`stopping
      ensures !running && !stopping
    {
      running, stopping := false, false;
    }

    method MarkRunning()
      modifies this`running, this`stopping
      ensures running && !stopping
    {
      running, stopping := true, false;
    }

    method MarkStopping()
      modifies this`running, this`stopping
      ensures !running && stopping
    {
      running, stopping := false, true;
    }

    /** Commits a report; one with a source revision only if that revision is unchanged and the
        registry is not stopping. */
    method UpdateReport(key: ServiceKey, report: Status, source: Option<nat>)
      modifies this`entries
      ensures entries == Published(policy, stopping, old(entries), key, report, source)
    {
      if key !in entries {
        return;
      }
      var snapshot := entries[key];
      if source.Some? && (snapshot.revision != source.value || stopping) {
        return;
      }
      snapshot := snapshot.(revision := snapshot.revision + 1);
      if report.Shutting() {
        entries := entries[key := snapshot.(successes := 0, failures := 0, status := report)];
        return;
      }
      var successful := report == Up;
      snapshot := snapshot.(successes := if successful then snapshot.successes + 1 else 0);
      snapshot := snapshot.(failures := if successful then 0 else snapshot.failures + 1);
      var status := report;
      if successful && snapshot.successes < policy.successesBeforeUp && snapshot.status != Up {
        status := Starting;
      }
      if !successful && snapshot.failures < policy.failuresBeforeDown {
        status := Degraded;
      }
      entries := entries[key := snapshot.(status := status)];
    }

    /** Counts a probe cycle that could not be prepared as a failed report of every service that is
        not shutting down. */
    method FailPreparation()
      modifies this`entries
      ensures entries == Unprepared(policy, stopping, old(entries))
    {
      if stopping {
        return;
      }
      var todo := entries.Keys;
      while todo != {}
        invariant entries.Keys == old(entries).Keys && todo <= entries.Keys
        invariant forall k :: k in entries ==>
          entries[k] == (if k in todo then old(entries)[k] else Unprobed(policy, old(entries)[k]))
        decreases todo
      {
        var key :| key in todo;
        todo := todo - {key};
        var snapshot := entries[key];
        if !snapshot.status.Shutting() {
          var failures := snapshot.failures + 1;
          entries := entries[key := snapshot.(
            revision := snapshot.revision + 1, successes := 0, failures := failures,
            status := if failures < policy.failuresBeforeDown then Degraded else Down)];
        }
      }
    }

    method Ready() returns (ready: bool)
      ensures ready <==> running && !stopping && forall k :: k in entries ==> entries[k].status.Up?
    {
      if !running || stopping {
        return false;
      }
      var todo := entries.Keys;
      while todo != {}
        invariant todo <= entries.Keys && forall k :: k in entries && k !in todo ==> entries[k].status.Up?
        decreases todo
      {
        var key :| key in todo;
        if entries[key].status != Up {
          return false;
        }
        todo := todo - {key};
      }
      return true;
    }
  }

  /** A snapshot whose probe could not be prepared. */
  function Unprobed(policy: Policy, snapshot: Snapshot): Snapshot {
    if snapshot.status.Shutting() then snapshot else Accept(policy, snapshot, Down)
  }

  function Unprepared(policy: Policy, stopping: bool, entries: map<ServiceKey, Snapshot>): map<ServiceKey, Snapshot> {
    if stopping then entries else map k | k in entries :: Unprobed(policy, entries[k])
  }

  /** The entries after a report was offered. */
  function Published(policy: Policy, stopping: bool, entries: map<ServiceKey, Snapshot>,
                     key: ServiceKey, report: Status, source: Option<nat>): map<ServiceKey, Snapshot>
  {
    if key !in entries || (source.Some? && (entries[key].revision != source.value || stopping)) then entries
    else entries[key := Accept(policy, entries[key], report)]
  }

  /** How many trailing reports are `up`, and how many are not, since the last shutdown report. */
  function UpRun(history: seq<Status>): nat {
    if history == [] || !history[|history| - 1].Up? then 0 else UpRun(history[..|history| - 1]) + 1
  }

  function NonUpRun(history: seq<Status>): nat {
    if history == [] || history[|history| - 1].Up? || history[|history| - 1].Shutting() then 0
    else NonUpRun(history[..|history| - 1]) + 1
  }

  function Replay(policy: Policy, requirement: Requirement, history: seq<Status>): Snapshot {
    if history == [] then NewSnapshot(requirement)
    else Accept(policy, Replay(policy, requirement, history[..|history| - 1]), history[|history| - 1])
  }

  /** The status a history amounts to, read off its last report and its trailing run. */
  function StatusOf(policy: Policy, history: seq<Status>): Status {
    if history == [] then Starting
    else
      var last := history[|history| - 1];
      if last.Shutting() then last
      else if last.Up? then (if UpRun(history) >= policy.successesBeforeUp then Up else Starting)
      else if NonUpRun(history) >= policy.failuresBeforeDown then last else Degraded
  }

  /** The stored health is a summary of the accepted reports. */
  lemma {:induction false} HealthRefinesHistory(policy: Policy, requirement: Requirement, history: seq<Status>)
    ensures var s := Replay(policy, requirement, history);
      && s.successes == UpRun(history) && s.failures == NonUpRun(history)
      && s.status == StatusOf(policy, history)
      && s.revision == |history| && s.requirement == requirement
  {
    if history != [] {
      HealthRefinesHistory(policy, requirement, history[..|history| - 1]);
    }
  }

  /** A service is up exactly when enough reports in a row said so, and down only after enough
      reports in a row did not. */
  lemma {:induction false} HysteresisThresholds(policy: Policy, requirement: Requirement, history: seq<Status>)
    ensures var s := Replay(policy, requirement, history);
      && (s.status.Up? <==> UpRun(history) > 0 && UpRun(history) >= policy.successesBeforeUp)
      && (s.status.Down? <==> history != [] && history[|history| - 1].Down? && NonUpRun(history) >= policy.failuresBeforeDown)
  {
    HealthRefinesHistory(policy, requirement, history);
    if history != [] && history[|history| - 1].Up? {
      assert UpRun(history) > 0;
    }
  }

  /** A report with the policy in force when it was accepted. */
  datatype Accepted = Accepted(policy: Policy, report: Status)

  function ReportsOf(history: seq<Accepted>): (r: seq<Status>)
    ensures |r| == |history|
  {
    seq(|history|, i requires 0 <= i < |history| => history[i].report)
  }

  function ReplayMixed(requirement: Requirement, history: seq<Accepted>): Snapshot {
    if history == [] then NewSnapshot(requirement)
    else
      var n := |history| - 1;
      Accept(history[n].policy, ReplayMixed(requirement, history[..n]), history[n].report)
  }

  /** Counters and revision follow the history whatever policies were in force along the way. */
  lemma {:induction false} CountersIgnorePolicy(requirement: Requirement, history: seq<Accepted>)
    ensures var s, reports := ReplayMixed(requirement, history), ReportsOf(history);
      s.successes == UpRun(reports) && s.failures == NonUpRun(reports) && s.revision == |history| && s.requirement == requirement
  {
    if history != [] {
      var n := |history| - 1;
      CountersIgnorePolicy(requirement, history[..n]);
      assert ReportsOf(history)[..n] == ReportsOf(history[..n]);
    }
  }

  /** Under one policy the mixed replay is the plain one. */
  lemma {:induction false} OnePolicy(policy: Policy, requirement: Requirement, history: seq<Accepted>)
    requires forall i :: 0 <= i < |history| ==> history[i].policy == policy
    ensures ReplayMixed(requirement, history) == Replay(policy, requirement, ReportsOf(history))
  {
    if history != [] {
      var n := |history| - 1;
      OnePolicy(policy, requirement, history[..n]);
      assert ReportsOf(history)[..n] == ReportsOf(history[..n]);
    }
  }

  /** Flapping faster than the thresholds never reaches `up`: if no run of `up` reports is long enough,
      no prefix of the history is `up`. */
  lemma {:induction false} FlappingNeverUp(policy: Policy, requirement: Requirement, history: seq<Status>, n: nat)
    requires n <= |history| && forall i :: 0 <= i <= |history| ==> UpRun(history[..i]) < policy.successesBeforeUp
    ensures !Replay(policy, requirement, history[..n]).status.Up?
  {
    HysteresisThresholds(policy, requirement, history[..n]);
  }
}
