/**
 * The hypothesis evaluator: sample a steady-state metric, inject a fault, sample again,
 * and judge the relative degradation of the averages against a tolerance.
 *
 * The steady-state condition is a probe whose outcome depends on the virtual time at which
 * it is called; the chaos action's effect on the target is outside the model, and only the
 * virtual time at which it is invoked is observed.
 */
module HypothesisTesting {
  import opened Outcomes
  import opened VirtualClock
  import opened Ratios

  /** One entry of a sampling window: a value, or `None` when the probe failed. */
  type Measurement = Option<real>

  /** What one call of a probe does: it returns a value (possibly `None`) or raises. */
  datatype ProbeOutcome = Returned(value: Option<real>) | Raised

  /** The entry the sampling loop appends for one probe call: a raised exception is
      recorded as `None`, a returned value as itself. */
  function Recorded(o: ProbeOutcome): Measurement {
    match o
    case Returned(v) => v
    case Raised => None
  }

  /** Whether a window entry holds a value. */
  predicate IsSome(m: Measurement) {
    m.Some?
  }

  /** What one call of the chaos action does: it returns after taking `took` virtual seconds
      (an action may sleep through its fault), or it raises. */
  datatype ActionOutcome = Completed(took: nat) | ActionRaised

  /** A hypothesis; `steadyStateCondition(t)` is the probe's outcome at virtual time `t`,
      and `chaosAction(t)` what the chaos action does when invoked at virtual time `t`. */
  datatype Hypothesis = Hypothesis(
    name: string,
    description: string,
    steadyStateCondition: nat -> ProbeOutcome,
    chaosAction: nat -> ActionOutcome,
    expectedOutcome: string,
    toleranceThreshold: real)

  datatype HypothesisResult = HypothesisResult(
    hypothesis: string,
    steadyStateAvg: real,
    chaosStateAvg: real,
    degradationPercent: real,
    withinTolerance: bool,
    timestamp: nat)

  datatype Window = Baseline | Chaos

  /** The conditions under which a run raises instead of producing a result:
      `statistics.mean` of an empty list, an exception from the chaos action, and a
      division by a zero baseline average. */
  datatype HypothesisError = InsufficientData(window: Window) | ChaosActionRaised | ZeroBaseline

  /** Baseline window: 30 seconds sampled every second; chaos window: 60 seconds. */
  const BaselineDuration: nat := 30
  const ChaosDuration: nat := 60
  const SamplingInterval: nat := 1

  // ---------------------------------------------------------------- averaging

  /** The values of the window that are present, in order; absent entries are dropped. */
  function Present(ms: seq<Measurement>): (xs: seq<real>)
    ensures |xs| <= |ms|
    ensures xs == [] <==> forall i :: 0 <= i < |ms| ==> ms[i].None?
  {
    if ms == [] then []
    else
      var rest := Present(ms[1..]);
      assert forall i :: 1 <= i < |ms| ==> ms[i] == ms[1..][i - 1];
      match ms[0]
      case Some(v) => [v] + rest
      case None => rest
  }

  /** The present values are exactly the values of the `Some` entries of the window. */
  lemma {:induction false} PresentMembership(ms: seq<Measurement>)
    ensures forall i :: 0 <= i < |ms| && ms[i].Some? ==> ms[i].value in Present(ms)
    ensures forall x :: x in Present(ms) ==> Some(x) in ms
  {
    if ms != [] {
      PresentMembership(ms[1..]);
      assert forall i :: 1 <= i < |ms| ==> ms[i] == ms[1..][i - 1];
      assert forall m :: m in ms[1..] ==> m in ms;
    }
  }

  /** Dropping absent entries commutes with joining windows: the present values of two
      consecutive stretches are those of the first followed by those of the second, so
      order and multiplicity are kept. */
  lemma {:induction false} PresentConcat(ms1: seq<Measurement>, ms2: seq<Measurement>)
    ensures Present(ms1 + ms2) == Present(ms1) + Present(ms2)
  {
    if ms1 != [] {
      assert (ms1 + ms2)[1..] == ms1[1..] + ms2;
      PresentConcat(ms1[1..], ms2);
    } else {
      assert ms1 + ms2 == ms2;
    }
  }

  /** One present value per `Some` entry of the window: the number of values averaged is
      the number of probe calls that returned. */
  lemma {:induction false} PresentCount(ms: seq<Measurement>)
    ensures |Present(ms)| == CountIf(ms, IsSome)
  {
    if ms != [] {
      var init, last := ms[..|ms| - 1], ms[|ms| - 1];
      assert ms == init + [last];
      PresentConcat(init, [last]);
      PresentCount(init);
    }
  }

  function Sum(xs: seq<real>): real {
    if xs == [] then 0.0 else xs[0] + Sum(xs[1..])
  }

  /** `statistics.mean`, defined only on a non-empty list. */
  function Mean(xs: seq<real>): real
    requires xs != []
  {
    Sum(xs) / (|xs| as real)
  }

  lemma {:induction false} SumBounds(xs: seq<real>, lo: real, hi: real)
    requires forall x :: x in xs ==> lo <= x <= hi
    ensures (|xs| as real) * lo <= Sum(xs) <= (|xs| as real) * hi
  {
    if xs != [] {
      var rest := xs[1..];
      forall x | x in rest ensures lo <= x <= hi {
        assert x in xs;
      }
      SumBounds(rest, lo, hi);
      assert lo <= xs[0] <= hi by { assert xs[0] in xs; }
      assert Sum(xs) == xs[0] + Sum(rest);
      var m, n := |rest| as real, |xs| as real;
      assert n * lo == m * lo + lo && n * hi == m * hi + hi by {
        assert n == m + 1.0;
      }
      assert m * lo <= Sum(rest) <= m * hi;
      assert n * lo <= xs[0] + Sum(rest) <= n * hi;
    }
  }

  /** The average of a window lies between the least and the greatest value in it. */
  lemma MeanBounds(xs: seq<real>, lo: real, hi: real)
    requires xs != []
    requires forall x :: x in xs ==> lo <= x <= hi
    ensures lo <= Mean(xs) <= hi
  {
    SumBounds(xs, lo, hi);
    var n := |xs| as real;
    assert Mean(xs) * n == Sum(xs);
  }

  /** A window whose present values all equal `c` averages to `c`. */
  lemma MeanOfConstant(xs: seq<real>, c: real)
    requires xs != []
    requires forall x :: x in xs ==> x == c
    ensures Mean(xs) == c
  {
    MeanBounds(xs, c, c);
  }

  // ---------------------------------------------------------------- scoring

  /** Relative drop from the baseline average to the chaos average, in percent. */
  function Degradation(steady: real, chaos: real): (d: real)
    requires steady != 0.0
    ensures d * steady == (steady - chaos) * 100.0
  {
    (steady - chaos) / steady * 100.0
  }

  /** The degradation determines the chaos average back from the baseline. */
  lemma DegradationInverse(steady: real, chaos: real)
    requires steady != 0.0
    ensures chaos == steady - Degradation(steady, chaos) * steady / 100.0
  {
  }

  /** With a positive baseline, a positive degradation means the metric fell, a negative one
      that it rose (an improvement), and zero that it did not change. */
  lemma DegradationSign(steady: real, chaos: real)
    requires steady > 0.0
    ensures Degradation(steady, chaos) > 0.0 <==> chaos < steady
    ensures Degradation(steady, chaos) < 0.0 <==> chaos > steady
    ensures Degradation(steady, chaos) == 0.0 <==> chaos == steady
  {
    var d := Degradation(steady, chaos);
    if d > 0.0 { assert d * steady > 0.0; }
    if d < 0.0 { assert d * steady < 0.0; }
    if chaos < steady { assert d * steady > 0.0; }
    if chaos > steady { assert d * steady < 0.0; }
  }

  lemma DegradationExamples()
    ensures Degradation(100.0, 80.0) == 20.0
    ensures Degradation(100.0, 120.0) == -20.0
    ensures Degradation(50.0, 40.0) == 20.0
  {
  }

  function Abs(x: real): real {
    if x < 0.0 then -x else x
  }

  /** The tolerance verdict: `abs(degradation) <= tolerance`. */
  predicate WithinTolerance(degradation: real, tolerance: real) {
    Abs(degradation) <= tolerance
  }

  /** The verdict accepts exactly the closed interval [-tolerance, tolerance]; both ends
      are included. */
  lemma ToleranceIsClosedInterval(degradation: real, tolerance: real)
    ensures WithinTolerance(degradation, tolerance) <==> -tolerance <= degradation <= tolerance
  {
  }

  lemma ToleranceExamples()
    ensures WithinTolerance(20.0, 20.0)
    ensures WithinTolerance(-20.0, 20.0)
    ensures !WithinTolerance(20.1, 20.0)
  {
  }

  // ---------------------------------------------------------------- specification of a run

  /** The window recorded by sampling `condition` from virtual time `start` for `duration`
      seconds every `interval` seconds. */
  function Sampled(condition: nat -> ProbeOutcome, start: nat, duration: nat, interval: nat)
    : (ms: seq<Measurement>)
    requires interval > 0
    ensures |ms| == SampleCount(duration, interval)
    ensures forall k {:trigger ms[k]} :: 0 <= k < |ms| ==> ms[k] == Recorded(condition(SampleTime(start, k, interval)))
  {
    seq(SampleCount(duration, interval), k requires 0 <= k => Recorded(condition(SampleTime(start, k, interval))))
  }

  /** The windows of one run that starts at virtual time `start`. */
  function BaselineWindow(h: Hypothesis, start: nat): seq<Measurement> {
    Sampled(h.steadyStateCondition, start, BaselineDuration, SamplingInterval)
  }

  /** The virtual time at which the chaos action is invoked: when the baseline loop ends. */
  function ChaosStart(start: nat): nat {
    start + WindowLength(BaselineDuration, SamplingInterval)
  }

  /** The chaos window starts when the action has returned, `took` seconds after its call. */
  function ChaosWindow(h: Hypothesis, start: nat, took: nat): seq<Measurement> {
    Sampled(h.steadyStateCondition, ChaosStart(start) + took, ChaosDuration, SamplingInterval)
  }

  /** The virtual time at which the chaos window's loop ends, and the result is stamped. */
  function RunEnd(start: nat, took: nat): nat {
    ChaosStart(start) + took + WindowLength(ChaosDuration, SamplingInterval)
  }

  /** What a whole run started at `start` yields: a baseline without values ends it before
      the chaos action is invoked, an action that raises ends it, and otherwise the two
      windows are scored. `RunOutcomeCases` states what each outcome means. */
  function RunOutcome(h: Hypothesis, start: nat): Result<HypothesisResult, HypothesisError> {
    var baseline := BaselineWindow(h, start);
    if Present(baseline) == [] then Err(InsufficientData(Baseline))
    else
      match h.chaosAction(ChaosStart(start))
      case ActionRaised => Err(ChaosActionRaised)
      case Completed(took) => Evaluate(h, baseline, ChaosWindow(h, start, took), RunEnd(start, took))
  }

  /** What a run yields from its two windows: the error the source would raise (in the
      order it would raise them), or the result record it appends. EvaluateErrors and
      EvaluateResult state what each outcome means. */
  function Evaluate(h: Hypothesis, baseline: seq<Measurement>, chaos: seq<Measurement>, timestamp: nat)
    : Result<HypothesisResult, HypothesisError>
  {
    var before := Present(baseline);
    var after := Present(chaos);
    if before == [] then Err(InsufficientData(Baseline))
    else if after == [] then Err(InsufficientData(Chaos))
    else if Mean(before) == 0.0 then Err(ZeroBaseline)
    else
      var steady := Mean(before);
      var during := Mean(after);
      var d := Degradation(steady, during);
      Ok(HypothesisResult(h.name, steady, during, d, WithinTolerance(d, h.toleranceThreshold), timestamp))
  }

  /** Each error of a run happens exactly in its case: an all-absent baseline window, then
      an all-absent chaos window, then a zero baseline average. Otherwise the result echoes
      the name and both averages, its degradation is the relative drop of the chaos average
      from the baseline in percent, and the verdict holds iff the degradation lies in the
      closed interval [-tolerance, tolerance]. */
  lemma EvaluateErrors(h: Hypothesis, baseline: seq<Measurement>, chaos: seq<Measurement>, timestamp: nat)
    ensures Evaluate(h, baseline, chaos, timestamp) == Err(InsufficientData(Baseline)) <==>
      forall i :: 0 <= i < |baseline| ==> baseline[i].None?
    ensures Evaluate(h, baseline, chaos, timestamp) == Err(InsufficientData(Chaos)) <==>
      Present(baseline) != [] && forall i :: 0 <= i < |chaos| ==> chaos[i].None?
    ensures Evaluate(h, baseline, chaos, timestamp) == Err(ZeroBaseline) <==>
      Present(baseline) != [] && Present(chaos) != [] && Mean(Present(baseline)) == 0.0
  {
  }

  /** A numeric result echoes the name and both averages, its degradation is the relative
      drop of the chaos average from the baseline in percent, and its verdict holds iff the
      degradation lies in the closed interval [-tolerance, tolerance]. */
  lemma EvaluateResult(h: Hypothesis, baseline: seq<Measurement>, chaos: seq<Measurement>, timestamp: nat)
    requires Evaluate(h, baseline, chaos, timestamp).Ok?
    ensures Evaluate(h, baseline, chaos, timestamp).value.hypothesis == h.name
    ensures Evaluate(h, baseline, chaos, timestamp).value.steadyStateAvg == Mean(Present(baseline))
    ensures Evaluate(h, baseline, chaos, timestamp).value.chaosStateAvg == Mean(Present(chaos))
    ensures Evaluate(h, baseline, chaos, timestamp).value.timestamp == timestamp
    ensures var v := Evaluate(h, baseline, chaos, timestamp).value;
      v.degradationPercent == Degradation(v.steadyStateAvg, v.chaosStateAvg)
    ensures var v := Evaluate(h, baseline, chaos, timestamp).value;
      v.withinTolerance <==> -h.toleranceThreshold <= v.degradationPercent <= h.toleranceThreshold
  {
    var steady, during := Mean(Present(baseline)), Mean(Present(chaos));
    var d := Degradation(steady, during);
    assert Evaluate(h, baseline, chaos, timestamp).value
      == HypothesisResult(h.name, steady, during, d, WithinTolerance(d, h.toleranceThreshold), timestamp);
    ToleranceIsClosedInterval(d, h.toleranceThreshold);
  }

  /** A run ends with insufficient baseline data exactly when the baseline window has no
      value; with the action's exception exactly when the baseline has values and the action
      raises; and when the action returns, the run scores the chaos window that starts once
      the action has returned. */
  lemma RunOutcomeCases(h: Hypothesis, start: nat)
    ensures RunOutcome(h, start) == Err(InsufficientData(Baseline)) <==> Present(BaselineWindow(h, start)) == []
    ensures RunOutcome(h, start) == Err(ChaosActionRaised) <==>
      Present(BaselineWindow(h, start)) != [] && h.chaosAction(ChaosStart(start)).ActionRaised?
    ensures h.chaosAction(ChaosStart(start)).Completed? ==>
      var took := h.chaosAction(ChaosStart(start)).took;
      RunOutcome(h, start) == Evaluate(h, BaselineWindow(h, start), ChaosWindow(h, start, took), RunEnd(start, took))
  {
    var baseline := BaselineWindow(h, start);
    if Present(baseline) != [] && h.chaosAction(ChaosStart(start)).Completed? {
      var took := h.chaosAction(ChaosStart(start)).took;
      EvaluateErrors(h, baseline, ChaosWindow(h, start, took), RunEnd(start, took));
    }
  }

  // ---------------------------------------------------------------- the evaluator

  class HypothesisTest {
    var results: seq<HypothesisResult>

    constructor()
      ensures results == []
    {
      results := [];
    }

    /** Calls `condition` once per iteration while the virtual elapsed time is below
        `duration`, recording a raised exception as `None`, and sleeps `interval`. */
    method MeasureSteadyState(condition: nat -> ProbeOutcome, start: nat, duration: nat, interval: nat)
      returns (measurements: seq<Measurement>)
      requires interval > 0
      ensures |measurements| == SampleCount(duration, interval)
      ensures forall k {:trigger measurements[k]} :: 0 <= k < |measurements| ==>
        measurements[k] == Recorded(condition(SampleTime(start, k, interval)))
      ensures measurements == Sampled(condition, start, duration, interval)
    {
      measurements := [];
      var elapsed: nat := 0;
      while elapsed < duration
        invariant elapsed == Elapsed(|measurements|, interval)
        invariant |measurements| + SampleCount(Remaining(elapsed, duration), interval)
          == SampleCount(duration, interval)
        invariant forall k {:trigger measurements[k]} :: 0 <= k < |measurements| ==>
          measurements[k] == Recorded(condition(SampleTime(start, k, interval)))
        decreases duration - elapsed
      {
        var outcome := condition(start + elapsed);
        assert Elapsed(|measurements| + 1, interval) == elapsed + interval;
        SampleCountStep(duration - elapsed, interval);
        measurements := measurements + [Recorded(outcome)];
        elapsed := elapsed + interval;
      }
    }

    /** One full run: baseline window, chaos action, chaos window, scoring. A window with
        no present value, a chaos action that raises, or a zero baseline average ends the
        run with an error and no result is appended; otherwise exactly one result is
        appended and returned.
        `chaosInvokedAt` is the virtual time of the one chaos action call, if it happened. */
    method RunHypothesisTest(h: Hypothesis, start: nat)
      returns (outcome: Result<HypothesisResult, HypothesisError>, chaosInvokedAt: Option<nat>)
      modifies this
      ensures outcome == RunOutcome(h, start)
      ensures outcome.Ok? ==> results == old(results) + [outcome.value]
      ensures outcome.Err? ==> results == old(results)
      ensures chaosInvokedAt ==
        if Present(BaselineWindow(h, start)) == [] then None else Some(ChaosStart(start))
    {
      RunOutcomeCases(h, start);
      var steadyState := MeasureSteadyState(h.steadyStateCondition, start, BaselineDuration, SamplingInterval);
      assert steadyState == BaselineWindow(h, start);
      var steadyValues := Present(steadyState);
      if steadyValues == [] {
        return Err(InsufficientData(Baseline)), None;
      }
      var steadyStateAvg := Mean(steadyValues);

      var chaosStart := start + WindowLength(BaselineDuration, SamplingInterval);
      chaosInvokedAt := Some(chaosStart);
      var action := h.chaosAction(chaosStart);
      if action.ActionRaised? {
        return Err(ChaosActionRaised), chaosInvokedAt;
      }

      outcome := MeasureChaosAndScore(h, steadyState, steadyStateAvg, chaosStart + action.took);
      if outcome.Ok? {
        results := results + [outcome.value];
      }
    }

    /** The rest of a run once the chaos action has returned at `chaosWindowStart`: samples
        the chaos window and scores it against the baseline window `steadyState`, whose
        average is `steadyStateAvg`. */
    method MeasureChaosAndScore(h: Hypothesis, steadyState: seq<Measurement>, steadyStateAvg: real, chaosWindowStart: nat)
      returns (outcome: Result<HypothesisResult, HypothesisError>)
      requires Present(steadyState) != [] && steadyStateAvg == Mean(Present(steadyState))
      ensures outcome == Evaluate(h, steadyState,
        Sampled(h.steadyStateCondition, chaosWindowStart, ChaosDuration, SamplingInterval),
        chaosWindowStart + WindowLength(ChaosDuration, SamplingInterval))
    {
      var chaosState := MeasureSteadyState(h.steadyStateCondition, chaosWindowStart, ChaosDuration, SamplingInterval);
      var chaosValues := Present(chaosState);
      if chaosValues == [] {
        return Err(InsufficientData(Chaos));
      }
      var chaosStateAvg := Mean(chaosValues);

      if steadyStateAvg == 0.0 {
        return Err(ZeroBaseline);
      }
      var degradation := Degradation(steadyStateAvg, chaosStateAvg);
      outcome := Ok(HypothesisResult(
        h.name, steadyStateAvg, chaosStateAvg, degradation,
        WithinTolerance(degradation, h.toleranceThreshold),
        chaosWindowStart + WindowLength(ChaosDuration, SamplingInterval)));
    }
  }

  // ---------------------------------------------------------------- properties of runs

  /** The windows of a run hold 30 and 60 entries; the chaos action is invoked 30 virtual
      seconds after the start, and a run whose action took `took` seconds ends
      `took + 90` seconds after the start. */
  lemma WindowSizes(h: Hypothesis, start: nat, took: nat)
    ensures |BaselineWindow(h, start)| == 30
    ensures |ChaosWindow(h, start, took)| == 60
    ensures ChaosStart(start) == start + 30
    ensures RunEnd(start, took) == start + took + 90
  {
    SampleCountOfProduct(30, 1);
    SampleCountOfProduct(60, 1);
  }

  /** A probe that always fails, by raising or by returning no value, gives no numeric
      result: the run reports insufficient baseline data, so the chaos action is never
      invoked and nothing is appended. */
  lemma AlwaysFailingProbe(h: Hypothesis, start: nat)
    requires forall t :: Recorded(h.steadyStateCondition(t)) == None
    ensures RunOutcome(h, start) == Err(InsufficientData(Baseline))
  {
    var w := BaselineWindow(h, start);
    forall i | 0 <= i < |w| ensures w[i].None? {
      assert w[i] == Recorded(h.steadyStateCondition(SampleTime(start, i, SamplingInterval)));
    }
  }

  /** A window in which every entry is `Some(c)` has present values, all equal to `c`. */
  lemma PresentOfConstant(ms: seq<Measurement>, c: real)
    requires ms != []
    requires forall i :: 0 <= i < |ms| ==> ms[i] == Some(c)
    ensures Present(ms) != []
    ensures forall x :: x in Present(ms) ==> x == c
  {
    assert ms[0].Some?;
    PresentMembership(ms);
  }

  /** A probe that returns `c` throughout a window gives that window the average `c`. */
  lemma ConstantWindowMean(condition: nat -> ProbeOutcome, start: nat, duration: nat, interval: nat, c: real)
    requires interval > 0 && duration > 0
    requires forall t: nat :: start <= t < start + duration ==> condition(t) == Returned(Some(c))
    ensures Present(Sampled(condition, start, duration, interval)) != []
    ensures Mean(Present(Sampled(condition, start, duration, interval))) == c
  {
    var w := Sampled(condition, start, duration, interval);
    forall i | 0 <= i < |w| ensures w[i] == Some(c) {
      SampleTimesInWindow(duration, interval, i);
      assert w[i] == Recorded(condition(SampleTime(start, i, interval)));
    }
    PresentOfConstant(w, c);
    MeanOfConstant(Present(w), c);
  }

  /** With baseline average 50, an action that returns after `took` seconds and chaos
      average 40, a run judged at 25% tolerance reports a degradation of 20% within
      tolerance, stamped when the chaos window ends. */
  lemma AveragesFiftyFortyScenario(h: Hypothesis, start: nat, took: nat)
    requires h.toleranceThreshold == 25.0
    requires h.chaosAction(ChaosStart(start)) == Completed(took)
    requires Present(BaselineWindow(h, start)) != [] && Mean(Present(BaselineWindow(h, start))) == 50.0
    requires Present(ChaosWindow(h, start, took)) != [] && Mean(Present(ChaosWindow(h, start, took))) == 40.0
    ensures RunOutcome(h, start) == Ok(HypothesisResult(h.name, 50.0, 40.0, 20.0, true, start + took + 90))
  {
    WindowSizes(h, start, took);
    assert Degradation(50.0, 40.0) == 20.0;
  }

  /** A probe that returns 50 during the baseline window and 40 once the action has returned
      gives the two windows of a run those averages. */
  lemma FiftyFortyWindows(h: Hypothesis, start: nat, took: nat)
    requires forall t: nat :: start <= t < start + 30 ==> h.steadyStateCondition(t) == Returned(Some(50.0))
    requires forall t: nat :: start + 30 + took <= t ==> h.steadyStateCondition(t) == Returned(Some(40.0))
    ensures ChaosStart(start) == start + 30
    ensures RunEnd(start, took) == start + took + 90
    ensures Present(BaselineWindow(h, start)) != [] && Mean(Present(BaselineWindow(h, start))) == 50.0
    ensures Present(ChaosWindow(h, start, took)) != [] && Mean(Present(ChaosWindow(h, start, took))) == 40.0
  {
    WindowSizes(h, start, took);
    ConstantWindowMean(h.steadyStateCondition, start, BaselineDuration, SamplingInterval, 50.0);
    ConstantWindowMean(h.steadyStateCondition, ChaosStart(start) + took, ChaosDuration, SamplingInterval, 40.0);
  }

  /** End to end: a baseline of constant 50, a chaos action invoked at 30 s that returns after
      `took` seconds, a chaos window of constant 40 and a tolerance of 25% give a degradation
      of 20% within tolerance, stamped `took + 90` seconds after the start (a network
      partition that sleeps 30 s gives `start + 120`). */
  lemma ConstantProbeScenario(h: Hypothesis, start: nat, took: nat)
    requires h.toleranceThreshold == 25.0
    requires h.chaosAction(start + 30) == Completed(took)
    requires forall t: nat :: start <= t < start + 30 ==> h.steadyStateCondition(t) == Returned(Some(50.0))
    requires forall t: nat :: start + 30 + took <= t ==> h.steadyStateCondition(t) == Returned(Some(40.0))
    ensures RunOutcome(h, start) == Ok(HypothesisResult(h.name, 50.0, 40.0, 20.0, true, start + took + 90))
  {
    FiftyFortyWindows(h, start, took);
    AveragesFiftyFortyScenario(h, start, took);
  }
}
