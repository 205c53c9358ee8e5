# Chaos engineering lab: hypothesis evaluator, experiment runner and security suite

This project models, in Dafny, the three orchestration components of a chaos engineering lab:

- **Hypothesis evaluator** (`hypothesis_testing.py`). It samples a steady-state metric for 30
  seconds, invokes a chaos action, samples again for 60 seconds, and judges the relative drop
  of the averages against a tolerance. Each result is appended to the evaluator's result list.
- **Experiment runner** (`chaos_experiments.py`). It runs three fault actions in order. A
  successful action is followed by a minute of health checks of two endpoints, one every 5
  seconds, and an availability percentage. Every experiment ends with a 10-second cool-down.
- **Security chaos suite** (`security_chaos.py`). It sends four authentication-bypass requests
  and classifies each answer as secure or not. It sends a burst of 100 requests and counts the
  answers refused with 429 and those answered with 200. It adds a fixed data-exposure result,
  then combines the three into a percentage score.

Files:

- `outcomes.dfy`: `Option`/`Result`, and the `Response` of an HTTP request. A response is a
  status code, or a failure when the request raised.
- `virtual_clock.dfy`: the timed sampling loops on a virtual clock.
- `ratios.dfy`: counting and percentages.
- `hypothesis_testing.dfy`, `chaos_experiments.dfy` and `security_chaos.dfy`: one per
  source file.

Time is a virtual clock counted in whole seconds. A probe or HTTP call takes no virtual time,
and `sleep(interval)` advances the clock by exactly `interval`. A loop `while now - start <
duration: ...; sleep(interval)` therefore runs `SampleCount(duration, interval)` iterations.
Iteration `k` runs at `SampleTime(start, k, interval)`, that is `start + k * interval`.

The outside world enters as parameters:

- A probe or endpoint is a function from the virtual time of the call to its outcome.
- The server of the security suite is a function from the Authorization header, or from the
  request number within the burst, to the response.
- A fault action is known by what it came back with: success or failure, and the virtual
  time it took. The network partition sleeps through its outage before returning.
- A hypothesis's chaos action is known by what it did when invoked: it returned after some
  virtual time, or it raised.

Exceptions the source raises in a hypothesis run are `Err` results: `statistics.mean` of an
empty window, an exception out of the chaos action, and the division by a zero baseline
average. In those cases the result list is left unchanged.

Some consequences of following the code closely:

- A run whose window holds no value, whose chaos action raises, or whose baseline average is
  zero ends with an error, and nothing is appended; no failed result record is written.
- The chaos window starts when the chaos action returns, so an action that sleeps through
  its fault delays the window and the run's time stamp by that long.
- A failed fault action yields a report without health data and without any availability
  figure; the runner only reports that the action failed to execute.
- The chaos action's return value is ignored; only whether it raised, and when it returned,
  matter.
- The sampler sleeps the full interval after each call.
- The number of samples is exact on the virtual clock: the smallest `n` with
  `n * interval >= duration`. It is not `floor(duration / interval) ± 1`.

## Model

| member | source | states |
|---|---|---|
| VirtualClock.ElapsedIsProduct | hypothesis_testing.py:24-30 | after `k` sleeps of `interval` the clock has advanced by exactly `k * interval` |
| VirtualClock.ElapsedMonotone | hypothesis_testing.py:24-30 | a later iteration starts at least one interval after an earlier one |
| VirtualClock.SampleCount | hypothesis_testing.py:24 | a positive duration always yields at least one iteration |
| VirtualClock.SampleCountBounds | hypothesis_testing.py:24-30 | the iterations cover the whole duration, and one fewer would not (the loop exits at the first check that reaches `duration`) |
| VirtualClock.SampleTimesInWindow | chaos_experiments.py:66 | every iteration starts strictly before `duration` has elapsed |
| VirtualClock.WindowLength | hypothesis_testing.py:24-30 | a sampling loop lasts at least `duration` and less than `duration + interval` |
| VirtualClock.SampleCountStep | hypothesis_testing.py:24-30 | one iteration consumes one interval of the remaining duration and leaves one fewer iteration |
| VirtualClock.SampleCountOfShortWindow | hypothesis_testing.py:24-30 | an interval at least as long as a positive duration gives exactly one sample |
| VirtualClock.SampleCountUnique | hypothesis_testing.py:24-30 | the loop exit condition determines the iteration count uniquely |
| VirtualClock.SampleCountOfMultiple | hypothesis_testing.py:24-30 | a duration of exactly `k` intervals gives exactly `k` samples and takes exactly that long |
| VirtualClock.SampleCountOfProduct | chaos_experiments.py:107 | the same, for a duration given as `k * interval` seconds |
| Ratios.CountIf | chaos_experiments.py:110 | the count is at most the length; it equals the length iff every item passes, and is 0 iff none does |
| Ratios.CountIfDisjoint | security_chaos.py:65-66 | two checks no item passes together (429 and 200) count at most all items between them |
| Ratios.CountIfAgree | chaos_experiments.py:110 | the count depends only on the check's verdict at each position |
| Ratios.Percentage | chaos_experiments.py:111 | `part / whole * 100`: times `whole` it gives `part * 100`; it lies in [0, 100] when `part <= whole`; it is 100 iff `part == whole` and 0 iff `part == 0` |
| Ratios.PercentageMonotone | security_chaos.py:99 | more passed checks of the same total never give a lower percentage |
| HypothesisTesting.Present | hypothesis_testing.py:41 | dropping the absent entries leaves nothing iff every entry of the window is absent |
| HypothesisTesting.PresentMembership | hypothesis_testing.py:41 | the kept values are exactly the values of the present entries |
| HypothesisTesting.PresentConcat | hypothesis_testing.py:41 | the kept values of two joined stretches are those of the first followed by those of the second: order and multiplicity are preserved |
| HypothesisTesting.PresentCount | hypothesis_testing.py:41 | exactly one value is kept per present entry |
| HypothesisTesting.Mean | hypothesis_testing.py:41 | `statistics.mean`: the sum over the count, defined only on a non-empty list; `MeanBounds` and `MeanOfConstant` state its properties |
| HypothesisTesting.SumBounds | hypothesis_testing.py:41 | the sum of `n` values in [lo, hi] lies in [n·lo, n·hi] |
| HypothesisTesting.MeanBounds | hypothesis_testing.py:41 | the mean lies between the least and greatest value |
| HypothesisTesting.MeanOfConstant | hypothesis_testing.py:50 | a window of equal values averages to that value |
| HypothesisTesting.Degradation | hypothesis_testing.py:53 | the degradation times the baseline average equals `(baseline - chaos) * 100` |
| HypothesisTesting.DegradationInverse | hypothesis_testing.py:53 | the chaos average is recovered from the baseline and the degradation |
| HypothesisTesting.DegradationSign | hypothesis_testing.py:53 | with a positive baseline the degradation is positive iff the metric fell, negative iff it rose, 0 iff unchanged |
| HypothesisTesting.DegradationExamples | hypothesis_testing.py:53 | 100→80 is 20%, 100→120 is −20%, 50→40 is 20% |
| HypothesisTesting.WithinTolerance | hypothesis_testing.py:59 | `abs(degradation) <= tolerance`; `ToleranceIsClosedInterval` states which degradations it accepts |
| HypothesisTesting.ToleranceIsClosedInterval | hypothesis_testing.py:59 | `abs(d) <= tolerance` accepts exactly the closed interval [−tolerance, tolerance] |
| HypothesisTesting.ToleranceExamples | hypothesis_testing.py:59 | both ends of the interval are accepted, and a value just past one end is rejected |
| HypothesisTesting.Sampled | hypothesis_testing.py:20-31 | the window has one entry per iteration; entry `k` is what the probe gave at the `k`-th sample time, with a raised exception recorded as absent |
| HypothesisTesting.Evaluate | hypothesis_testing.py:41-61 | scores two windows: the error the run raises, in source order, or the result record it appends; `EvaluateErrors` and `EvaluateResult` state each outcome |
| HypothesisTesting.EvaluateErrors | hypothesis_testing.py:41-53 | the run raises for an all-absent baseline, then for an all-absent chaos window, then for a zero baseline average, each exactly in its case and in that order |
| HypothesisTesting.EvaluateResult | hypothesis_testing.py:53-61 | a result echoes the name, both averages and the time stamp; its degradation is the relative drop; its verdict holds iff the degradation is within ±tolerance |
| HypothesisTesting.HypothesisTest.constructor | hypothesis_testing.py:17-18 | a new evaluator has no results |
| HypothesisTesting.HypothesisTest.MeasureSteadyState | hypothesis_testing.py:20-31 | returns the sampled window: as many entries as iterations, entry `k` the probe's outcome at the `k`-th sample time or absent if it raised |
| HypothesisTesting.RunOutcome | hypothesis_testing.py:33-66 | what a whole run yields: baseline window, chaos action at its end, chaos window from the action's return; `RunOutcomeCases` states each case |
| HypothesisTesting.RunOutcomeCases | hypothesis_testing.py:40-53 | a run fails for lack of baseline data exactly when the baseline window holds no value; it fails because the chaos action raised exactly when the baseline has a value and the action raises; otherwise it is `Evaluate` of the baseline window and of the chaos window that starts when the action returned |
| HypothesisTesting.HypothesisTest.MeasureChaosAndScore | hypothesis_testing.py:49-61 | samples the 60-second chaos window from the given start and returns `Evaluate` of the baseline and that window, stamped when the window ends |
| HypothesisTesting.HypothesisTest.RunHypothesisTest | hypothesis_testing.py:33-66 | the outcome is `RunOutcome`: the baseline window, then the chaos action invoked when that window ends, then the chaos window started when the action returned; an action that raises ends the run with an error; exactly one result is appended on success and none on error; the action is invoked once, at the end of the baseline window, unless the baseline had no value |
| HypothesisTesting.WindowSizes | hypothesis_testing.py:40-49 | the windows hold 30 and 60 entries; the chaos action comes 30 s after the start, and a run whose action took `took` seconds ends `took + 90` s after the start |
| HypothesisTesting.AlwaysFailingProbe | hypothesis_testing.py:25-41 | a probe that always fails, by raising or by returning no value (as `api_response_time` does on error), yields insufficient baseline data, never a numeric degradation, whatever the chaos action does |
| HypothesisTesting.PresentOfConstant | hypothesis_testing.py:41 | a window whose entries all hold `c` keeps values that all equal `c` |
| HypothesisTesting.ConstantWindowMean | hypothesis_testing.py:20-41 | a probe that returns `c` throughout a window gives that window the average `c` |
| HypothesisTesting.AveragesFiftyFortyScenario | hypothesis_testing.py:53-61 | averages 50 and 40 at a 25% tolerance, with an action that took `took` seconds, give a result with 20% degradation, within tolerance, stamped `took + 90` s after the start |
| HypothesisTesting.FiftyFortyWindows | hypothesis_testing.py:40-50 | a probe that gives 50 before the chaos action and 40 from the action's return on yields window averages 50 and 40 |
| HypothesisTesting.ConstantProbeScenario | hypothesis_testing.py:33-66 | end to end: that probe at a 25% tolerance, with an action that took `took` seconds, gives a 20% degradation within tolerance, stamped `took + 90` s after the start |
| ChaosExperiments.Healthy | chaos_experiments.py:67-78 | an endpoint is healthy iff its request answered 200, a raised request counting as unhealthy; `MonitorSystemHealth` states each flag through it |
| ChaosExperiments.HealthWindow | chaos_experiments.py:62-87 | one record per iteration; record `k` is stamped with the `k`-th sample time and holds each endpoint's health at that time |
| ChaosExperiments.MonitorSystemHealth | chaos_experiments.py:62-87 | returns the health window: as many records as iterations; record `k` is stamped with the `k`-th check time, and each flag is true iff its own endpoint answered 200 at that time (a failed request marks only its own endpoint unhealthy) |
| ChaosExperiments.HealthWindowInTimeOrder | chaos_experiments.py:66-86 | the records are in strictly increasing time order, all within [start, start + duration) |
| ChaosExperiments.Availability | chaos_experiments.py:109-111 | the availability lies in [0, 100]; it is 100 iff there is a check and every check found the API healthy; it is 0 iff none did (including no checks) |
| ChaosExperiments.AvailabilityValue | chaos_experiments.py:109-111 | for a non-empty window the availability is `healthy / total * 100`, with `healthy` the checks whose API flag is set |
| ChaosExperiments.HalfHealthyWindow | chaos_experiments.py:109-111 | 6 healthy checks out of 12 give an availability of 50% |
| ChaosExperiments.AvailabilityIgnoresWeb | chaos_experiments.py:110 | only the API flag counts: windows with equal API flags have equal availability |
| ChaosExperiments.WindowAvailability | chaos_experiments.py:107-111 | a monitoring window's availability is 100 iff the duration is positive and the API answered 200 at every check time, and 0 iff it never did |
| ChaosExperiments.WebEndpointDoesNotAffectAvailability | chaos_experiments.py:73-78 | changing the web endpoint's behaviour does not change the availability |
| ChaosExperiments.ExperimentDuration | chaos_experiments.py:101-115 | an experiment lasts exactly its action plus the 10-second cool-down, plus the 60 seconds of monitoring when the action succeeded |
| ChaosExperiments.RunExperiment | chaos_experiments.py:103-115 | a successful action gets a report with the health window that starts when the action returned, plus that window's availability; a failed one gets a report without either; the clock then advances by the experiment's duration |
| ChaosExperiments.RunChaosExperiment | chaos_experiments.py:89-115 | three reports, one per experiment, in listed order; each experiment starts when the previous one, with its cool-down, has ended |
| ChaosExperiments.MonitorWindowSize | chaos_experiments.py:107 | a monitoring window holds 12 checks and lasts 60 s |
| ChaosExperiments.ReportShape | chaos_experiments.py:107-111 | an executed experiment has 12 checks, 5 s apart from the action's return; its availability lies in [0, 100] and is 100 iff the API answered 200 at every check |
| ChaosExperiments.ChecksFollowAction | chaos_experiments.py:103-107 | every check of an executed experiment falls within the minute after its action returned |
| ChaosExperiments.ExperimentStart | chaos_experiments.py:101-115 | the virtual time at which each experiment's action is invoked: the previous start plus that experiment's duration; `StartsAdvance` and `ExperimentsDoNotOverlap` state its properties |
| ChaosExperiments.StartsAdvance | chaos_experiments.py:101-115 | each experiment starts only after every earlier one, including its cool-down, has ended |
| ChaosExperiments.ExperimentsDoNotOverlap | chaos_experiments.py:101-115 | no two experiments overlap: each check of an experiment comes after its own action and more than a cool-down before any later experiment's action |
| SecurityChaos.AuthResults | security_chaos.py:22-41 | one record per test case, in order, each carrying that case's name and response |
| SecurityChaos.SecureOutcome | security_chaos.py:29-41 | an answer of 401 or 403 is secure, and so is a request that raised (failing closed); `TestAuthenticationBypass` states each record's verdict through it |
| SecurityChaos.TestAuthenticationBypass | security_chaos.py:12-42 | one record per case, in order; the status is absent iff the request raised; a case is secure iff the answer was 401 or 403 or the request failed |
| SecurityChaos.BurstRecords | security_chaos.py:49-63 | 100 records, record `i` carrying request number `i` and its status, absent if the request raised |
| SecurityChaos.Summarize | security_chaos.py:64-72 | total is the number of records; the rate-limited count is the number of records with status 429 and the successful count the number with status 200, together at most the total; each count is 0 iff no record has that status; rate limiting is effective iff some request got 429 |
| SecurityChaos.TestRateLimiting | security_chaos.py:44-72 | sends 100 requests, records each, and reports rate limiting effective iff at least one of them was answered 429 |
| SecurityChaos.SecurityScore | security_chaos.py:94-99 | the score lies in [0, 100]; it is 100 iff every check passed and 0 iff none did |
| SecurityChaos.SecurityScoreValue | security_chaos.py:94-99 | the score is `passed / total * 100` over the authentication, rate-limiting and exposure checks |
| SecurityChaos.TotalChecks | security_chaos.py:98 | one check per authentication result, one for rate limiting, one per exposure result; `PassedChecksBounds` relates it to the passed checks |
| SecurityChaos.PassedChecks | security_chaos.py:95-97 | the secure authentication results, plus one if rate limiting was effective, plus the exposure results without exposed data; `PassedChecksBounds` states its bounds |
| SecurityChaos.PassedChecksBounds | security_chaos.py:95-98 | passed checks never exceed the total; they equal it iff every check passed, and are 0 iff none did |
| SecurityChaos.MissingFlagsFail | security_chaos.py:95-97 | a record without its `secure` or `data_exposed` flag fails its check |
| SecurityChaos.RunSecurityChaosSuite | security_chaos.py:82-106 | the suite holds the given time stamp, the three test results and the score computed from them |
| SecurityChaos.FullScoreIff | security_chaos.py:95-99 | the suite scores 100 iff every authentication case came back secure and at least one burst request was refused with 429 |
| SecurityChaos.ScoreFloor | security_chaos.py:97-99 | the score is never below 100/6, because the fixed exposure result always passes |
| SecurityChaos.OpenServerScore | security_chaos.py:65-99 | a server that answers 200 to everything counts 100 successful requests and scores exactly 100/6 |

## Left out

- Docker, the container list and `random.choice` in `kill_random_container` are not modelled. Neither are the effects of the stop/sleep/start in `network_partition` or of `exec_run` in `cpu_stress`. Each action enters only as its outcome: success, and the virtual time it took.
- Logging and `print` output are not modelled. Their content is carried by the returned reports and results.
- Wall-clock time is replaced by the virtual clock: `time.time()`, `datetime.now().isoformat()` and the real duration of HTTP calls. Time stamps are virtual seconds; the suite's ISO time stamp is a parameter.
- The `response_time`, `timestamp` and `error` fields of the security records are left out, because they depend on real time and on exception text. So are the result list of the security test class, which is never used, and the base URL.
- In the authentication test, exceptions other than `requests.exceptions.RequestException` propagate out of the test in the source. `Response` does not distinguish exception kinds, so every failed request is treated as failing closed.
- Floating point is modelled as exact real arithmetic: averages, degradation, availability and the score. Rounding, NaN and infinities are not modelled.
- The `chaos_action` of a hypothesis is modelled only by whether it raised and, if not, how long it took; its effect on the target is outside the model. `description` and `expected_outcome` are only printed.
- An exception out of `docker.from_env()` (chaos_experiments.py:10) or out of `containers.list` in `kill_random_container` (chaos_experiments.py:22), which sit outside any `try`, ends `run_chaos_experiment` altogether. A fault action's outcome is only success or failure, so this abrupt end is not modelled.
- The `__main__` blocks are not part of this model. Neither are `api_response_time`, the JSON file written by `main` in `security_chaos.py`, `k8s_chaos_simulation.py`, or the service under `api/`.
