/**
 * The slider callback `update_data` and the module-level defaults: slider
 * durations become rates, rho is pinned to 1, the integrator runs from the
 * fixed initial state and the summary is recomputed.
 */
module Controller {
  import opened Seiqr
  import opened Integrator
  import opened Summary

  /** Population size behind the initial state. */
  const N: nat := 10000

  /** Values read from the six sliders: three mean durations in days, the
      interaction factor, the mean days to recover after quarantine, and
      the quarantined fraction. */
  datatype Sliders = Sliders(
    incubationDays: real, beta: real, daysBeforeQuarantine: real,
    daysToRecover: real, daysToRecoverPostQuarantine: real, phi: real)

  /** The initial state: one exposed person in N, everyone else susceptible. */
  function InitVals(): (x: State)
    ensures NonNegative(x) && Total(x) == 1.0
    ensures x.e * (N as real) == 1.0
  {
    State(1.0 - 1.0 / (N as real), 1.0 / (N as real), 0.0, 0.0, 0.0)
  }

  /** The parameters of the first run, before any slider moves. */
  function DefaultParams(): Params {
    Params(1.0 / 3.0, 1.8, 1.0 / 2.0, 1.0 / 4.0, 1.0 / 2.0, 0.0, 1.0)
  }

  /** The sliders' initial values. */
  function DefaultSliders(): Sliders {
    Sliders(3.0, 1.8, 2.0, 4.0, 2.0, 0.0)
  }

  /** The sliders never leave their declared ranges. */
  predicate InSliderRange(v: Sliders) {
    && 1.0 <= v.incubationDays <= 10.0
    && 0.1 <= v.beta <= 10.0
    && 1.0 <= v.daysBeforeQuarantine <= 10.0
    && 1.0 <= v.daysToRecover <= 10.0
    && 1.0 <= v.daysToRecoverPostQuarantine <= 10.0
    && 0.0 <= v.phi <= 1.0
  }

  /** The durations the callback divides by are non-zero. */
  predicate Divisible(v: Sliders) {
    v.incubationDays != 0.0 && v.daysBeforeQuarantine != 0.0
    && v.daysToRecover != 0.0 && v.daysToRecoverPostQuarantine != 0.0
  }

  /** The callback's parameter assembly: every rate is the reciprocal of
      its mean duration, beta and phi are taken as they are, and rho is
      always 1. */
  function SliderParams(v: Sliders): (p: Params)
    requires Divisible(v)
    ensures p.alpha * v.incubationDays == 1.0
    ensures p.gamma * v.daysBeforeQuarantine == 1.0
    ensures p.lambdaI * v.daysToRecover == 1.0
    ensures p.lambdaQu * v.daysToRecoverPostQuarantine == 1.0
    ensures p.beta == v.beta && p.phi == v.phi && p.rho == 1.0
  {
    Params(
      1.0 / v.incubationDays, v.beta, 1.0 / v.daysBeforeQuarantine,
      1.0 / v.daysToRecover, 1.0 / v.daysToRecoverPostQuarantine, v.phi, 1.0)
  }

  /** The first run and the callback agree: the sliders' initial values
      give the default parameters. */
  lemma DefaultsAgree()
    ensures InSliderRange(DefaultSliders())
    ensures SliderParams(DefaultSliders()) == DefaultParams()
  {
  }

  /** A duration of at least one day gives a rate in (0, 1]. */
  lemma ReciprocalRate(d: real)
    requires 1.0 <= d
    ensures 0.0 < 1.0 / d <= 1.0
  {
  }

  /** A fraction `a` of a non-negative `b` is between 0 and `b`. */
  lemma FractionOf(a: real, b: real)
    requires 0.0 <= a <= 1.0 && 0.0 <= b
    ensures 0.0 <= a * b <= b && 0.0 <= b * a <= b
  {
    assert b - a * b == (1.0 - a) * b;
  }

  /** A fraction-weighted mix of two rates in [0, 1] is in [0, 1]. */
  lemma MixedRate(phi: real, a: real, b: real)
    requires 0.0 <= phi <= 1.0 && 0.0 <= a <= 1.0 && 0.0 <= b <= 1.0
    ensures 0.0 <= phi * a + b * (1.0 - phi) <= 1.0
  {
    assert 0.0 <= b * (1.0 - phi) <= 1.0 - phi by { FractionOf(b, 1.0 - phi); }
    assert 0.0 <= phi * a <= phi by { FractionOf(a, phi); }
  }

  /** A rate of at most one per day over at most a tenth of a day moves at
      most the whole compartment. */
  lemma RateStep(rate: real, dt: real)
    requires 0.0 <= rate <= 1.0 && 0.0 <= dt <= 0.1
    ensures rate * dt <= 1.0
  {
    assert rate * dt <= dt by { FractionOf(rate, dt); }
  }

  /** With rho = 1, beta at most 10 and a step of at most a tenth of a
      day, the infection pressure on a population of one is at most one. */
  lemma PressureStep(rho: real, beta: real, dt: real)
    requires rho == 1.0 && 0.0 <= beta <= 10.0 && 0.0 <= dt <= 0.1
    ensures rho * beta * dt * 1.0 <= 1.0
  {
    assert rho * beta * dt * 1.0 == (beta / 10.0) * (10.0 * dt);
    assert (beta / 10.0) * (10.0 * dt) <= 10.0 * dt by { FractionOf(beta / 10.0, 10.0 * dt); }
  }

  /** Every slider setting, with a grid step of at most a tenth of a day
      and a population of one, satisfies the step-size condition under
      which the explicit scheme stays non-negative. */
  lemma SlidersGiveStableStep(v: Sliders, dt: real)
    requires InSliderRange(v) && 0.0 <= dt <= 0.1
    ensures StableStep(SliderParams(v), dt, 1.0)
  {
    var p := SliderParams(v);
    ReciprocalRate(v.incubationDays);
    ReciprocalRate(v.daysBeforeQuarantine);
    ReciprocalRate(v.daysToRecover);
    ReciprocalRate(v.daysToRecoverPostQuarantine);
    assert NonNegativeParams(p);
    MixedRate(p.phi, p.gamma, p.lambdaI);
    RateStep(p.alpha, dt);
    RateStep(p.phi * p.gamma + p.lambdaI * (1.0 - p.phi), dt);
    RateStep(p.lambdaQu, dt);
    PressureStep(p.rho, p.beta, dt);
  }

  /** Every run the sliders can ask for stays in the simplex: all five
      compartments non-negative, adding up to one, and S never grows. */
  lemma SliderRunInSimplex(v: Sliders, dt: real, j: nat, k: nat)
    requires InSliderRange(v) && 0.0 <= dt <= 0.1 && j <= k
    ensures NonNegative(StateAt(InitVals(), SliderParams(v), dt, k))
    ensures Total(StateAt(InitVals(), SliderParams(v), dt, k)) == 1.0
    ensures StateAt(InitVals(), SliderParams(v), dt, k).s <= StateAt(InitVals(), SliderParams(v), dt, j).s
  {
    SlidersGiveStableStep(v, dt);
    TrajectoryNonNegative(InitVals(), SliderParams(v), dt, k);
    SNonIncreasing(InitVals(), SliderParams(v), dt, j, k);
  }

  /** The slider callback: assemble the parameters, rerun the integrator
      from the initial state over the grid `t`, and recompute the summary.
      For slider values in range on a grid with step at most 0.1, the
      reported peak is a fraction between 0 and 1 and S never grows. */
  method UpdateData(v: Sliders, t: seq<real>)
    returns (tt: seq<real>, S: seq<real>, E: seq<real>, I: seq<real>, Q: seq<real>, R: seq<real>,
             report: PeakReport)
    requires Divisible(v) && 2 <= |t|
    ensures tt == t && |S| == |t| && |I| == |t|
    ensures S == Column(Trajectory(InitVals(), SliderParams(v), t[1] - t[0], |t| - 1), Susceptible)
    ensures E == Column(Trajectory(InitVals(), SliderParams(v), t[1] - t[0], |t| - 1), Exposed)
    ensures I == Column(Trajectory(InitVals(), SliderParams(v), t[1] - t[0], |t| - 1), Infective)
    ensures Q == Column(Trajectory(InitVals(), SliderParams(v), t[1] - t[0], |t| - 1), Quarantined)
    ensures R == Column(Trajectory(InitVals(), SliderParams(v), t[1] - t[0], |t| - 1), Recovered)
    ensures report == Summarize(tt, I)
    ensures InSliderRange(v) && 0.0 <= t[1] - t[0] <= 0.1 ==>
      && 0.0 <= report.peak <= 1.0
      && forall j, k :: 0 <= j <= k < |t| ==> S[k] <= S[j]
  {
    var params := SliderParams(v);
    tt, S, E, I, Q, R := SeiqrModelWithSocDist(InitVals(), params, t);
    report := Summarize(tt, I);
    var dt := t[1] - t[0];
    if InSliderRange(v) && 0.0 <= dt <= 0.1 {
      var tr := Trajectory(InitVals(), params, dt, |t| - 1);
      var j := PeakIndex(I);
      SliderRunInSimplex(v, dt, j, j);
      assert report.peak == tr[j].i;
      forall j, k | 0 <= j <= k < |t|
        ensures S[k] <= S[j]
      {
        SliderRunInSimplex(v, dt, j, k);
      }
    }
  }
}
