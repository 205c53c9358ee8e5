/**
 * The experiment runner: fault actions run one after another in listed order; a successful
 * action is followed by a window of health checks of two endpoints and an availability
 * figure; every entry ends with a cool-down.
 *
 * The endpoints are functions of the virtual time of the request; the fault actions are
 * known only by their outcome, `action(i)` for the i-th experiment: whether the action
 * reported success, and how much virtual time it took (the network partition sleeps
 * through its outage before it returns).
 */
module ChaosExperiments {
  import opened Http
  import opened VirtualClock
  import opened Ratios

  /** Monitoring after each successful action: 60 seconds, one check every 5 seconds. */
  const MonitorDuration: nat := 60
  const MonitorInterval: nat := 5
  /** Pause after every experiment, whatever its outcome. */
  const CoolDown: nat := 10

  const Experiments: seq<string> := ["Container Kill", "Network Partition", "CPU Stress"]

  /** One health check of both endpoints at virtual time `timestamp`. */
  datatype HealthRecord = HealthRecord(timestamp: nat, apiHealth: bool, webHealth: bool)

  /** An endpoint is healthy iff its request answered with status 200. */
  predicate Healthy(r: Response) {
    r.Answered? && r.status == 200
  }

  /** The record taken at virtual time `t`; each flag depends on its own endpoint only. */
  function Snapshot(api: nat -> Response, web: nat -> Response, t: nat): HealthRecord {
    HealthRecord(t, Healthy(api(t)), Healthy(web(t)))
  }

  /** The records of a monitoring window started at virtual time `start`. */
  function HealthWindow(api: nat -> Response, web: nat -> Response, start: nat, duration: nat, interval: nat)
    : (h: seq<HealthRecord>)
    requires interval > 0
    ensures |h| == SampleCount(duration, interval)
    ensures forall k {:trigger h[k]} :: 0 <= k < |h| ==> h[k] == Snapshot(api, web, SampleTime(start, k, interval))
  {
    seq(SampleCount(duration, interval), k requires 0 <= k => Snapshot(api, web, SampleTime(start, k, interval)))
  }

  /** Checks both endpoints once per iteration while the virtual elapsed time is below
      `duration`; a failed request marks only its own endpoint unhealthy. */
  method MonitorSystemHealth(api: nat -> Response, web: nat -> Response, start: nat, duration: nat, interval: nat)
    returns (healthData: seq<HealthRecord>)
    requires interval > 0
    ensures |healthData| == SampleCount(duration, interval)
    ensures forall k {:trigger healthData[k]} :: 0 <= k < |healthData| ==>
      && healthData[k].timestamp == SampleTime(start, k, interval)
      && (healthData[k].apiHealth <==> api(SampleTime(start, k, interval)) == Answered(200))
      && (healthData[k].webHealth <==> web(SampleTime(start, k, interval)) == Answered(200))
    ensures healthData == HealthWindow(api, web, start, duration, interval)
  {
    healthData := [];
    var elapsed: nat := 0;
    while elapsed < duration
      invariant elapsed == Elapsed(|healthData|, interval)
      invariant |healthData| + SampleCount(Remaining(elapsed, duration), interval)
        == SampleCount(duration, interval)
      invariant forall k {:trigger healthData[k]} :: 0 <= k < |healthData| ==>
        healthData[k] == Snapshot(api, web, SampleTime(start, k, interval))
      decreases duration - elapsed
    {
      var now := start + elapsed;
      var apiHealth := match api(now) case Answered(code) => code == 200 case RequestFailed => false;
      var webHealth := match web(now) case Answered(code) => code == 200 case RequestFailed => false;
      assert Elapsed(|healthData| + 1, interval) == elapsed + interval;
      SampleCountStep(duration - elapsed, interval);
      healthData := healthData + [HealthRecord(now, apiHealth, webHealth)];
      elapsed := elapsed + interval;
    }
  }

  /** The records of a window are in strictly increasing time order, and every check
      happens before the window's duration has elapsed. */
  lemma HealthWindowInTimeOrder(api: nat -> Response, web: nat -> Response, start: nat, duration: nat, interval: nat)
    requires interval > 0
    ensures var h := HealthWindow(api, web, start, duration, interval);
      forall i, j :: 0 <= i < j < |h| ==> h[i].timestamp < h[j].timestamp
    ensures var h := HealthWindow(api, web, start, duration, interval);
      forall k :: 0 <= k < |h| ==> start <= h[k].timestamp < start + duration
  {
    var h := HealthWindow(api, web, start, duration, interval);
    forall i, j | 0 <= i < j < |h| ensures h[i].timestamp < h[j].timestamp {
      ElapsedMonotone(i, j, interval);
    }
    forall k | 0 <= k < |h| ensures start <= h[k].timestamp < start + duration {
      SampleTimesInWindow(duration, interval, k);
    }
  }

  // ---------------------------------------------------------------- availability

  /** The check the availability figure counts: the API endpoint was healthy. */
  predicate ApiHealthy(r: HealthRecord) {
    r.apiHealth
  }

  /** Share of checks with a healthy API endpoint, in percent; 0 when there are none. */
  function Availability(h: seq<HealthRecord>): (a: real)
    ensures 0.0 <= a <= 100.0
    ensures a == 100.0 <==> |h| > 0 && forall i :: 0 <= i < |h| ==> h[i].apiHealth
    ensures a == 0.0 <==> forall i :: 0 <= i < |h| ==> !h[i].apiHealth
  {
    var totalChecks := |h|;
    var healthyChecks := CountIf(h, ApiHealthy);
    if totalChecks > 0 then Percentage(healthyChecks, totalChecks) else 0.0
  }

  /** The availability of a non-empty window is `healthy / total * 100`: the number of
      checks with a healthy API endpoint, as a percentage of all checks. */
  lemma AvailabilityValue(h: seq<HealthRecord>)
    requires |h| > 0
    ensures Availability(h) == (CountIf(h, ApiHealthy) as real) / (|h| as real) * 100.0
  {
  }

  /** Half of the 12 checks of a monitoring window finding the API healthy give 50%. */
  lemma HalfHealthyWindow(h: seq<HealthRecord>)
    requires |h| == 12 && CountIf(h, ApiHealthy) == 6
    ensures Availability(h) == 50.0
  {
    AvailabilityValue(h);
  }

  /** Availability counts the API flag only: two windows whose API flags agree have the
      same availability, whatever their web flags. */
  lemma AvailabilityIgnoresWeb(h1: seq<HealthRecord>, h2: seq<HealthRecord>)
    requires |h1| == |h2|
    requires forall i :: 0 <= i < |h1| ==> h1[i].apiHealth == h2[i].apiHealth
    ensures Availability(h1) == Availability(h2)
  {
    CountIfAgree(h1, h2, ApiHealthy);
  }

  /** The availability of a monitoring window is 100 exactly when the window is not empty
      and the API endpoint answered 200 at every check, and 0 exactly when it never did. */
  lemma WindowAvailability(api: nat -> Response, web: nat -> Response, start: nat, duration: nat, interval: nat)
    requires interval > 0
    ensures Availability(HealthWindow(api, web, start, duration, interval)) == 100.0 <==>
      duration > 0 && forall k :: 0 <= k < SampleCount(duration, interval) ==> api(SampleTime(start, k, interval)) == Answered(200)
    ensures Availability(HealthWindow(api, web, start, duration, interval)) == 0.0 <==>
      forall k :: 0 <= k < SampleCount(duration, interval) ==> api(SampleTime(start, k, interval)) != Answered(200)
  {
    var h := HealthWindow(api, web, start, duration, interval);
    var n := SampleCount(duration, interval);
    assert duration > 0 <==> n > 0;
    forall k | 0 <= k < n
      ensures h[k].apiHealth <==> api(SampleTime(start, k, interval)) == Answered(200)
    {
      assert h[k] == Snapshot(api, web, SampleTime(start, k, interval));
    }
  }

  /** Replacing the web endpoint's behaviour leaves a window's availability unchanged. */
  lemma WebEndpointDoesNotAffectAvailability(
    api: nat -> Response, web1: nat -> Response, web2: nat -> Response, start: nat, duration: nat, interval: nat)
    requires interval > 0
    ensures Availability(HealthWindow(api, web1, start, duration, interval))
      == Availability(HealthWindow(api, web2, start, duration, interval))
  {
    AvailabilityIgnoresWeb(HealthWindow(api, web1, start, duration, interval),
                           HealthWindow(api, web2, start, duration, interval));
  }

  // ---------------------------------------------------------------- the runner

  /** What the runner reports for one experiment: a failed action has no health data and
      no availability figure. */
  datatype ExperimentReport =
    | Executed(name: string, startedAt: nat, healthData: seq<HealthRecord>, availability: real)
    | FailedToExecute(name: string, startedAt: nat)

  /** What running a fault action came back with, and the virtual time it took. */
  datatype ActionOutcome = ActionOutcome(succeeded: bool, took: nat)

  /** Virtual time one experiment occupies: the action, the monitoring window if the action
      succeeded, then the cool-down. */
  function ExperimentDuration(o: ActionOutcome): (d: nat)
    ensures d == o.took + (if o.succeeded then MonitorDuration else 0) + CoolDown
  {
    MonitorWindowSize();
    o.took + (if o.succeeded then WindowLength(MonitorDuration, MonitorInterval) else 0) + CoolDown
  }

  /** Virtual time at which the i-th experiment's action is invoked. */
  function ExperimentStart(start: nat, action: nat -> ActionOutcome, i: nat): nat {
    if i == 0 then start
    else ExperimentStart(start, action, i - 1) + ExperimentDuration(action(i - 1))
  }

  /** `r` is what the runner reports for an experiment called `name` whose action, invoked
      at `startedAt`, came back with `outcome`: a successful action is followed by a
      monitoring window that starts when the action has returned, and the availability of
      that window. */
  predicate IsReportOf(r: ExperimentReport, name: string, outcome: ActionOutcome, startedAt: nat,
                       api: nat -> Response, web: nat -> Response)
  {
    && r.name == name
    && r.startedAt == startedAt
    && (r.Executed? <==> outcome.succeeded)
    && (r.Executed? ==>
          && r.healthData == HealthWindow(api, web, startedAt + outcome.took, MonitorDuration, MonitorInterval)
          && r.availability == Availability(r.healthData))
  }

  /** One entry of the experiment list: the action has already come back with `outcome`;
      monitors if it succeeded, then cools down. `clock` is the virtual time at the end. */
  method RunExperiment(name: string, outcome: ActionOutcome, startedAt: nat, api: nat -> Response, web: nat -> Response)
    returns (report: ExperimentReport, clock: nat)
    ensures IsReportOf(report, name, outcome, startedAt, api, web)
    ensures clock == startedAt + ExperimentDuration(outcome)
  {
    if outcome.succeeded {
      var healthData := MonitorSystemHealth(api, web, startedAt + outcome.took, MonitorDuration, MonitorInterval);
      var availability := Availability(healthData);
      report := Executed(name, startedAt, healthData, availability);
      clock := startedAt + outcome.took + WindowLength(MonitorDuration, MonitorInterval);
    } else {
      report := FailedToExecute(name, startedAt);
      clock := startedAt + outcome.took;
    }
    clock := clock + CoolDown;
  }

  /** Runs every experiment once, in listed order; `clock` is the virtual time at the end. */
  method RunChaosExperiment(start: nat, action: nat -> ActionOutcome, api: nat -> Response, web: nat -> Response)
    returns (reports: seq<ExperimentReport>, clock: nat)
    ensures |reports| == |Experiments|
    ensures forall i :: 0 <= i < |reports| ==>
      IsReportOf(reports[i], Experiments[i], action(i), ExperimentStart(start, action, i), api, web)
    ensures clock == ExperimentStart(start, action, |Experiments|)
  {
    reports := [];
    clock := start;
    for i := 0 to |Experiments|
      invariant |reports| == i
      invariant clock == ExperimentStart(start, action, i)
      invariant forall j :: 0 <= j < i ==>
        IsReportOf(reports[j], Experiments[j], action(j), ExperimentStart(start, action, j), api, web)
    {
      var report;
      report, clock := RunExperiment(Experiments[i], action(i), clock, api, web);
      reports := reports + [report];
    }
  }

  // ---------------------------------------------------------------- properties of a run

  /** A monitoring window holds 12 checks and lasts 60 seconds. */
  lemma MonitorWindowSize()
    ensures SampleCount(MonitorDuration, MonitorInterval) == 12
    ensures WindowLength(MonitorDuration, MonitorInterval) == 60
  {
    SampleCountOfProduct(12, 5);
  }

  /** An executed experiment's report holds 12 checks (so the zero-check case of
      availability never arises), each stamped inside the minute after the action returned,
      and an availability in [0, 100] that is 100 exactly when every check found the API
      healthy. */
  lemma ReportShape(r: ExperimentReport, name: string, outcome: ActionOutcome, startedAt: nat,
                    api: nat -> Response, web: nat -> Response)
    requires IsReportOf(r, name, outcome, startedAt, api, web) && r.Executed?
    ensures |r.healthData| == 12
    ensures forall k :: 0 <= k < 12 ==>
      r.healthData[k].timestamp == SampleTime(startedAt + outcome.took, k, MonitorInterval)
    ensures 0.0 <= r.availability <= 100.0
    ensures r.availability == 100.0 <==>
      forall k :: 0 <= k < 12 ==> api(r.healthData[k].timestamp) == Answered(200)
  {
    MonitorWindowSize();
    WindowAvailability(api, web, startedAt + outcome.took, MonitorDuration, MonitorInterval);
  }

  /** Every check of an executed experiment is taken within the minute after its action
      returned. */
  lemma ChecksFollowAction(r: ExperimentReport, name: string, outcome: ActionOutcome, startedAt: nat,
                           api: nat -> Response, web: nat -> Response)
    requires IsReportOf(r, name, outcome, startedAt, api, web) && r.Executed?
    ensures forall c :: c in r.healthData ==>
      startedAt + outcome.took <= c.timestamp < startedAt + outcome.took + MonitorDuration
  {
    HealthWindowInTimeOrder(api, web, startedAt + outcome.took, MonitorDuration, MonitorInterval);
  }

  /** Each experiment, including its cool-down, is over before the next one's action is
      invoked, whatever the outcome of its own action. */
  lemma {:induction false} StartsAdvance(start: nat, action: nat -> ActionOutcome, i: nat, j: nat)
    requires i < j
    ensures ExperimentStart(start, action, j)
      >= ExperimentStart(start, action, i) + ExperimentDuration(action(i))
    decreases j
  {
    if j > i + 1 {
      StartsAdvance(start, action, i, j - 1);
    }
  }

  /** No two experiments of a run overlap: every health check of an experiment is taken
      after its action has returned, and is followed by at least the cool-down before a
      later experiment's action is invoked. */
  lemma ExperimentsDoNotOverlap(
    reports: seq<ExperimentReport>, start: nat, action: nat -> ActionOutcome, api: nat -> Response, web: nat -> Response,
    i: nat, j: nat)
    requires i < j < |reports| <= |Experiments|
    requires forall k :: 0 <= k < |reports| ==>
      IsReportOf(reports[k], Experiments[k], action(k), ExperimentStart(start, action, k), api, web)
    ensures reports[i].startedAt + action(i).took + CoolDown <= reports[j].startedAt
    ensures reports[i].Executed? ==> forall c :: c in reports[i].healthData ==>
      && reports[i].startedAt + action(i).took <= c.timestamp
      && c.timestamp + CoolDown < reports[j].startedAt
  {
    StartsAdvance(start, action, i, j);
    var ti := ExperimentStart(start, action, i);
    assert IsReportOf(reports[i], Experiments[i], action(i), ti, api, web);
    assert reports[j].startedAt == ExperimentStart(start, action, j);
    if action(i).succeeded {
      ChecksFollowAction(reports[i], Experiments[i], action(i), ti, api, web);
    }
  }
}
