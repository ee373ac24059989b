/**
 * The SEIQR epidemic system and its forward-Euler step.
 *
 * The five compartments are Susceptible, Exposed, Infective, Quarantined and
 * Recovered, each a fraction of the population. Arithmetic is exact (`real`),
 * so the identities below hold exactly rather than up to rounding.
 */
module Seiqr {

  /** One snapshot of the five compartments. */
  datatype State = State(s: real, e: real, i: real, q: real, r: real)

  /** The seven parameters, in the order of the program's parameter tuple:
      incubation rate, transmission factor, progression rate, recovery rate
      from infection, recovery rate from quarantine, quarantined fraction and
      the contact-reduction multiplier. */
  datatype Params = Params(
    alpha: real, beta: real, gamma: real,
    lambdaI: real, lambdaQu: real, phi: real, rho: real)

  /** The whole population held by a snapshot. */
  function Total(x: State): real {
    x.s + x.e + x.i + x.q + x.r
  }

  predicate NonNegative(x: State) {
    0.0 <= x.s && 0.0 <= x.e && 0.0 <= x.i && 0.0 <= x.q && 0.0 <= x.r
  }

  /** Right-hand side of the SEIQR differential equations at snapshot `x`:
      dS/dt = -rho beta S I, dE/dt = rho beta S I - alpha E,
      dI/dt = alpha E - phi gamma I - lambdaI (1 - phi) I,
      dQ/dt = phi gamma I - lambdaQu Q, dR/dt = lambdaQu Q + lambdaI (1 - phi) I.
      Every flow leaves one compartment and enters another, so the rates
      add up to zero. */
  function Rates(x: State, p: Params): (d: State)
    ensures Total(d) == 0.0
  {
    var infection := p.rho * p.beta * x.s * x.i;
    var incubation := p.alpha * x.e;
    var quarantine := p.phi * p.gamma * x.i;
    var recoveryI := p.lambdaI * (1.0 - p.phi) * x.i;
    var recoveryQ := p.lambdaQu * x.q;
    State(
      -infection,
      infection - incubation,
      incubation - quarantine - recoveryI,
      quarantine - recoveryQ,
      recoveryQ + recoveryI)
  }

  /** The five update lines of the integrator, in the program's own
      arithmetic, each computing a next value from the previous snapshot
      `x` only. */
  function NextS(x: State, p: Params, dt: real): real {
    x.s - (p.rho * p.beta * x.s * x.i) * dt
  }

  function NextE(x: State, p: Params, dt: real): real {
    x.e + (p.rho * p.beta * x.s * x.i - p.alpha * x.e) * dt
  }

  function NextI(x: State, p: Params, dt: real): real {
    x.i + (p.alpha * x.e - (p.phi * p.gamma * x.i + p.lambdaI * (1.0 - p.phi) * x.i)) * dt
  }

  function NextQ(x: State, p: Params, dt: real): real {
    x.q + (p.phi * p.gamma * x.i - p.lambdaQu * x.q) * dt
  }

  function NextR(x: State, p: Params, dt: real): real {
    x.r + (p.lambdaQu * x.q + p.lambdaI * (1.0 - p.phi) * x.i) * dt
  }

  /** One step of the integrator: all five next values come from the same
      snapshot, so the step is synchronous even though the program computes
      R and Q before S, E and I. */
  function Step(x: State, p: Params, dt: real): State {
    State(NextS(x, p, dt), NextE(x, p, dt), NextI(x, p, dt), NextQ(x, p, dt), NextR(x, p, dt))
  }

  /** Each update line is one explicit Euler step of its equation: the
      previous value plus dt times the right-hand side at the previous
      snapshot. */
  lemma EulerS(x: State, p: Params, dt: real)
    ensures NextS(x, p, dt) == x.s + Rates(x, p).s * dt
  {
  }

  lemma EulerE(x: State, p: Params, dt: real)
    ensures NextE(x, p, dt) == x.e + Rates(x, p).e * dt
  {
  }

  lemma EulerI(x: State, p: Params, dt: real)
    ensures NextI(x, p, dt) == x.i + Rates(x, p).i * dt
  {
  }

  lemma EulerQ(x: State, p: Params, dt: real)
    ensures NextQ(x, p, dt) == x.q + Rates(x, p).q * dt
  {
  }

  lemma EulerR(x: State, p: Params, dt: real)
    ensures NextR(x, p, dt) == x.r + Rates(x, p).r * dt
  {
  }

  /** The step is synchronous explicit Euler: the next snapshot is the move
      from `x` along the rates evaluated at `x`. */
  lemma StepIsEuler(x: State, p: Params, dt: real)
    ensures Step(x, p, dt).s == x.s + Rates(x, p).s * dt
    ensures Step(x, p, dt).e == x.e + Rates(x, p).e * dt
    ensures Step(x, p, dt).i == x.i + Rates(x, p).i * dt
    ensures Step(x, p, dt).q == x.q + Rates(x, p).q * dt
    ensures Step(x, p, dt).r == x.r + Rates(x, p).r * dt
  {
    EulerS(x, p, dt);
    EulerE(x, p, dt);
    EulerI(x, p, dt);
    EulerQ(x, p, dt);
    EulerR(x, p, dt);
  }

  lemma Distribute(a: real, b: real, c: real)
    ensures (a + b) * c == c * a + c * b
    ensures (a - b) * c == c * a - c * b
  {
  }

  /** Five updates that pass flows between compartments leave the sum
      unchanged: every flow times dt is subtracted once and added once. */
  lemma Balance(s: real, e: real, i: real, q: real, r: real,
                infection: real, incubation: real, quarantine: real,
                recoveryI: real, recoveryQ: real, dt: real)
    ensures (s - infection * dt) + (e + (infection - incubation) * dt)
          + (i + (incubation - (quarantine + recoveryI)) * dt)
          + (q + (quarantine - recoveryQ) * dt) + (r + (recoveryQ + recoveryI) * dt)
         == s + e + i + q + r
  {
    Distribute(recoveryQ, recoveryI, dt);
    Distribute(quarantine, recoveryQ, dt);
    Distribute(infection, incubation, dt);
    Distribute(incubation, quarantine + recoveryI, dt);
    Distribute(quarantine, recoveryI, dt);
  }

  /** The five update lines together keep the population. */
  lemma LinesConserveTotal(x: State, p: Params, dt: real)
    ensures NextS(x, p, dt) + NextE(x, p, dt) + NextI(x, p, dt) + NextQ(x, p, dt) + NextR(x, p, dt)
         == Total(x)
  {
    Balance(x.s, x.e, x.i, x.q, x.r,
      p.rho * p.beta * x.s * x.i, p.alpha * x.e, p.phi * p.gamma * x.i,
      p.lambdaI * (1.0 - p.phi) * x.i, p.lambdaQu * x.q, dt);
  }

  /** A step moves population between compartments and keeps the total. */
  lemma StepConservesTotal(x: State, p: Params, dt: real)
    ensures Total(Step(x, p, dt)) == Total(x)
  {
    LinesConserveTotal(x, p, dt);
  }

  /** The snapshot after `k` steps of size `dt` from `init`. */
  function StateAt(init: State, p: Params, dt: real, k: nat): State {
    if k == 0 then init else Step(StateAt(init, p, dt, k - 1), p, dt)
  }

  /** The trajectory over a grid of `steps + 1` points: the initial
      snapshot followed by one synchronous step per later grid point. */
  function Trajectory(init: State, p: Params, dt: real, steps: nat): (tr: seq<State>)
    ensures |tr| == steps + 1
    ensures forall k :: 0 <= k <= steps ==> tr[k] == StateAt(init, p, dt, k)
  {
    if steps == 0 then [init]
    else
      var prev := Trajectory(init, p, dt, steps - 1);
      prev + [Step(prev[steps - 1], p, dt)]
  }

  /** The population is conserved along the whole trajectory. */
  lemma {:induction false} TotalConserved(init: State, p: Params, dt: real, k: nat)
    ensures Total(StateAt(init, p, dt, k)) == Total(init)
  {
    if k > 0 {
      TotalConserved(init, p, dt, k - 1);
      StepConservesTotal(StateAt(init, p, dt, k - 1), p, dt);
    }
  }

  /** With everyone quarantined (phi = 1) the recovery term of I vanishes:
      I leaves only into Q, and R gains only from Q. */
  lemma FullQuarantine(x: State, p: Params, dt: real)
    requires p.phi == 1.0
    ensures NextI(x, p, dt) == x.i + (p.alpha * x.e - p.gamma * x.i) * dt
    ensures NextQ(x, p, dt) == x.q + (p.gamma * x.i - p.lambdaQu * x.q) * dt
    ensures NextR(x, p, dt) == x.r + p.lambdaQu * x.q * dt
  {
  }

  /** With nobody quarantined (phi = 0) Q only drains and I recovers
      directly into R. */
  lemma NoQuarantine(x: State, p: Params, dt: real)
    requires p.phi == 0.0
    ensures NextI(x, p, dt) == x.i + (p.alpha * x.e - p.lambdaI * x.i) * dt
    ensures NextQ(x, p, dt) == x.q - p.lambdaQu * x.q * dt
    ensures NextR(x, p, dt) == x.r + (p.lambdaQu * x.q + p.lambdaI * x.i) * dt
  {
  }

  /** With nobody quarantined and Q initially empty, Q stays empty. */
  lemma {:induction false} NoQuarantineStaysEmpty(init: State, p: Params, dt: real, k: nat)
    requires p.phi == 0.0 && init.q == 0.0
    ensures StateAt(init, p, dt, k).q == 0.0
  {
    if k > 0 {
      NoQuarantineStaysEmpty(init, p, dt, k - 1);
      NoQuarantine(StateAt(init, p, dt, k - 1), p, dt);
    }
  }

  /** Without transmission (rho beta = 0) the S line leaves S unchanged. */
  lemma NoTransmission(x: State, p: Params, dt: real)
    requires p.rho * p.beta == 0.0
    ensures NextS(x, p, dt) == x.s
  {
  }

  lemma ZeroFlow(a: real, s: real, i: real)
    requires a == 0.0
    ensures a * s * i == 0.0
  {
  }

  /** A compartment with no inflow that drains at a positive rate shrinks. */
  lemma Shrinks(v: real, inflow: real, c: real, dt: real)
    requires inflow == 0.0 && 0.0 < c && 0.0 < v && 0.0 < dt
    ensures v + (inflow - c * v) * dt < v
  {
    assert 0.0 < c * v;
    assert 0.0 < (c * v) * dt;
    assert (inflow - c * v) * dt == -((c * v) * dt);
  }

  /** Without transmission E is not frozen: it keeps draining into I, so
      it shrinks in every step while alpha, dt and E are positive. */
  lemma NoTransmissionExposedDrains(x: State, p: Params, dt: real)
    requires p.rho * p.beta == 0.0 && 0.0 < p.alpha && 0.0 < dt && 0.0 < x.e
    ensures NextE(x, p, dt) < x.e
  {
    assert p.rho * p.beta * x.s * x.i == 0.0 by { ZeroFlow(p.rho * p.beta, x.s, x.i); }
    assert x.e + (p.rho * p.beta * x.s * x.i - p.alpha * x.e) * dt < x.e by {
      Shrinks(x.e, p.rho * p.beta * x.s * x.i, p.alpha, dt);
    }
  }

  /** Without transmission (rho beta = 0) S keeps its initial value. */
  lemma {:induction false} NoTransmissionKeepsS(init: State, p: Params, dt: real, k: nat)
    requires p.rho * p.beta == 0.0
    ensures StateAt(init, p, dt, k).s == init.s
  {
    if k > 0 {
      NoTransmissionKeepsS(init, p, dt, k - 1);
      NoTransmission(StateAt(init, p, dt, k - 1), p, dt);
    }
  }

  /** A disease-free snapshot (E = I = Q = 0) is a fixed point of the step,
      whatever the parameters and the step size. */
  lemma DiseaseFreeStep(x: State, p: Params, dt: real)
    requires x.e == 0.0 && x.i == 0.0 && x.q == 0.0
    ensures Step(x, p, dt) == x
  {
    DiseaseFreeLines(x, p, dt);
  }

  /** The update lines on a disease-free snapshot: no flow is non-zero. */
  lemma DiseaseFreeLines(x: State, p: Params, dt: real)
    requires x.e == 0.0 && x.i == 0.0 && x.q == 0.0
    ensures NextS(x, p, dt) == x.s && NextE(x, p, dt) == 0.0 && NextI(x, p, dt) == 0.0
    ensures NextQ(x, p, dt) == 0.0 && NextR(x, p, dt) == x.r
  {
  }

  /** A disease-free start stays where it is for every step. */
  lemma {:induction false} DiseaseFreeTrajectory(init: State, p: Params, dt: real, k: nat)
    requires init.e == 0.0 && init.i == 0.0 && init.q == 0.0
    ensures StateAt(init, p, dt, k) == init
  {
    if k > 0 {
      DiseaseFreeTrajectory(init, p, dt, k - 1);
      DiseaseFreeStep(init, p, dt);
    }
  }

  /** Step-size condition under which the explicit scheme cannot leave the
      non-negative orthant for a population of size `total`: non-negative
      rates, phi a fraction, and no flow may drain more than its source in
      one step. */
  predicate StableStep(p: Params, dt: real, total: real) {
    && 0.0 <= dt
    && NonNegativeParams(p)
    && p.rho * p.beta * dt * total <= 1.0
    && p.alpha * dt <= 1.0
    && (p.phi * p.gamma + p.lambdaI * (1.0 - p.phi)) * dt <= 1.0
    && p.lambdaQu * dt <= 1.0
  }

  /** Non-negative rates and phi a fraction. */
  predicate NonNegativeParams(p: Params) {
    && 0.0 <= p.alpha && 0.0 <= p.beta && 0.0 <= p.gamma
    && 0.0 <= p.lambdaI && 0.0 <= p.lambdaQu && 0.0 <= p.rho
    && 0.0 <= p.phi <= 1.0
  }

  lemma MulNonNegative(a: real, b: real)
    requires 0.0 <= a && 0.0 <= b
    ensures 0.0 <= a * b
  {
  }

  /** A compartment `v` that loses `outflow = c * v` and gains `inflow` in a
      step stays non-negative when `c * dt <= 1`. */
  lemma DrainAndFill(v: real, inflow: real, outflow: real, c: real, dt: real)
    requires 0.0 <= v && 0.0 <= inflow && 0.0 <= dt && 0.0 <= c
    requires outflow == c * v && c * dt <= 1.0
    ensures 0.0 <= v + (inflow - outflow) * dt
  {
    assert v + (inflow - outflow) * dt == v * (1.0 - c * dt) + inflow * dt;
    MulNonNegative(v, 1.0 - c * dt);
    MulNonNegative(inflow, dt);
  }

  /** The S line drains `s` by the fraction `a i dt` of itself. */
  lemma InfectionDrain(a: real, s: real, i: real, dt: real)
    requires 0.0 <= s && 0.0 <= a * i * dt <= 1.0
    ensures 0.0 <= s - (a * s * i) * dt <= s
  {
    assert (a * s * i) * dt == s * (a * i * dt);
    MulNonNegative(s, 1.0 - a * i * dt);
    MulNonNegative(s, a * i * dt);
  }

  /** A bound on the infection pressure rho beta I dt from a bound on I. */
  lemma PressureBound(a: real, i: real, dt: real, total: real)
    requires 0.0 <= a && 0.0 <= dt && 0.0 <= i <= total
    ensures 0.0 <= a * i * dt <= a * dt * total
  {
    MulNonNegative(a, dt);
    assert a * i * dt == (a * dt) * i;
    assert a * dt * total == (a * dt) * total;
  }

  /** S stays non-negative and does not grow while the infection pressure
      rho beta I dt is at most one. */
  lemma SusceptibleStep(x: State, p: Params, dt: real)
    requires 0.0 <= x.s && 0.0 <= p.rho * p.beta * x.i * dt <= 1.0
    ensures 0.0 <= NextS(x, p, dt) <= x.s
  {
    assert 0.0 <= x.s - (p.rho * p.beta * x.s * x.i) * dt <= x.s by {
      InfectionDrain(p.rho * p.beta, x.s, x.i, dt);
    }
  }

  /** S does not grow in a step whose infection flow rho beta S I dt is
      non-negative, whatever its size: the S line only subtracts. */
  lemma SusceptibleNonIncreasing(x: State, p: Params, dt: real)
    requires 0.0 <= (p.rho * p.beta * x.s * x.i) * dt
    ensures NextS(x, p, dt) <= x.s
  {
  }

  /** E stays non-negative while incubation drains at most all of E. */
  lemma ExposedStep(x: State, p: Params, dt: real)
    requires 0.0 <= x.e && 0.0 <= p.rho * p.beta * x.s * x.i
    requires 0.0 <= p.alpha && 0.0 <= dt && p.alpha * dt <= 1.0
    ensures 0.0 <= NextE(x, p, dt)
  {
    assert 0.0 <= x.e + (p.rho * p.beta * x.s * x.i - p.alpha * x.e) * dt by {
      DrainAndFill(x.e, p.rho * p.beta * x.s * x.i, p.alpha * x.e, p.alpha, dt);
    }
  }

  /** I stays non-negative while quarantine and recovery drain at most all
      of I. */
  lemma InfectiveStep(x: State, p: Params, dt: real)
    requires 0.0 <= x.i && 0.0 <= p.alpha * x.e
    requires 0.0 <= p.phi * p.gamma && 0.0 <= p.lambdaI * (1.0 - p.phi) && 0.0 <= dt
    requires (p.phi * p.gamma + p.lambdaI * (1.0 - p.phi)) * dt <= 1.0
    ensures 0.0 <= NextI(x, p, dt)
  {
    var drain := p.phi * p.gamma * x.i + p.lambdaI * (1.0 - p.phi) * x.i;
    assert drain == (p.phi * p.gamma + p.lambdaI * (1.0 - p.phi)) * x.i by {
      Distribute(p.phi * p.gamma, p.lambdaI * (1.0 - p.phi), x.i);
    }
    assert 0.0 <= x.i + (p.alpha * x.e - drain) * dt by {
      DrainAndFill(x.i, p.alpha * x.e, drain, p.phi * p.gamma + p.lambdaI * (1.0 - p.phi), dt);
    }
  }

  /** Q stays non-negative while recovery drains at most all of Q. */
  lemma QuarantinedStep(x: State, p: Params, dt: real)
    requires 0.0 <= x.q && 0.0 <= p.phi * p.gamma * x.i
    requires 0.0 <= p.lambdaQu && 0.0 <= dt && p.lambdaQu * dt <= 1.0
    ensures 0.0 <= NextQ(x, p, dt)
  {
    assert 0.0 <= x.q + (p.phi * p.gamma * x.i - p.lambdaQu * x.q) * dt by {
      DrainAndFill(x.q, p.phi * p.gamma * x.i, p.lambdaQu * x.q, p.lambdaQu, dt);
    }
  }

  /** R stays non-negative: it only receives. */
  lemma RecoveredStep(x: State, p: Params, dt: real)
    requires 0.0 <= x.r && 0.0 <= p.lambdaQu * x.q && 0.0 <= p.lambdaI * (1.0 - p.phi) * x.i
    requires 0.0 <= dt
    ensures 0.0 <= NextR(x, p, dt)
  {
    assert 0.0 <= x.r + (p.lambdaQu * x.q + p.lambdaI * (1.0 - p.phi) * x.i) * dt by {
      DrainAndFill(x.r, p.lambdaQu * x.q + p.lambdaI * (1.0 - p.phi) * x.i, 0.0, 0.0, dt);
    }
  }

  /** Every flow out of a non-negative snapshot is non-negative. */
  lemma FlowsNonNegative(x: State, p: Params)
    requires NonNegative(x) && NonNegativeParams(p)
    ensures 0.0 <= p.rho * p.beta * x.s * x.i
    ensures 0.0 <= p.alpha * x.e
    ensures 0.0 <= p.phi * p.gamma && 0.0 <= p.phi * p.gamma * x.i
    ensures 0.0 <= p.lambdaI * (1.0 - p.phi) && 0.0 <= p.lambdaI * (1.0 - p.phi) * x.i
    ensures 0.0 <= p.lambdaQu * x.q
  {
    assert 0.0 <= p.rho * p.beta by { MulNonNegative(p.rho, p.beta); }
    assert 0.0 <= p.rho * p.beta * x.s by { MulNonNegative(p.rho * p.beta, x.s); }
    assert 0.0 <= p.rho * p.beta * x.s * x.i by { MulNonNegative(p.rho * p.beta * x.s, x.i); }
    assert 0.0 <= p.alpha * x.e by { MulNonNegative(p.alpha, x.e); }
    assert 0.0 <= p.phi * p.gamma by { MulNonNegative(p.phi, p.gamma); }
    assert 0.0 <= p.phi * p.gamma * x.i by { MulNonNegative(p.phi * p.gamma, x.i); }
    assert 0.0 <= p.lambdaI * (1.0 - p.phi) by { MulNonNegative(p.lambdaI, 1.0 - p.phi); }
    assert 0.0 <= p.lambdaI * (1.0 - p.phi) * x.i by { MulNonNegative(p.lambdaI * (1.0 - p.phi), x.i); }
    assert 0.0 <= p.lambdaQu * x.q by { MulNonNegative(p.lambdaQu, x.q); }
  }

  /** Under the step-size condition the infection pressure rho beta I dt
      on a non-negative snapshot is at most one. */
  lemma InfectionPressureBounded(x: State, p: Params, dt: real)
    requires NonNegative(x) && StableStep(p, dt, Total(x))
    ensures 0.0 <= p.rho * p.beta * x.i * dt <= 1.0
  {
    assert 0.0 <= p.rho * p.beta by { MulNonNegative(p.rho, p.beta); }
    assert 0.0 <= p.rho * p.beta * x.i * dt <= p.rho * p.beta * dt * Total(x) by {
      PressureBound(p.rho * p.beta, x.i, dt, Total(x));
    }
  }

  /** Under the step-size condition a step maps non-negative snapshots to
      non-negative snapshots, and S does not grow. */
  lemma StepStaysNonNegative(x: State, p: Params, dt: real)
    requires NonNegative(x) && StableStep(p, dt, Total(x))
    ensures NonNegative(Step(x, p, dt))
    ensures Step(x, p, dt).s <= x.s
  {
    FlowsNonNegative(x, p);
    InfectionPressureBounded(x, p, dt);
    SusceptibleStep(x, p, dt);
    ExposedStep(x, p, dt);
    InfectiveStep(x, p, dt);
    QuarantinedStep(x, p, dt);
    RecoveredStep(x, p, dt);
  }

  /** Under the step-size condition the whole trajectory stays non-negative,
      keeps its population and S never grows from one step to the next. */
  lemma {:induction false} TrajectoryNonNegative(init: State, p: Params, dt: real, k: nat)
    requires NonNegative(init) && StableStep(p, dt, Total(init))
    ensures NonNegative(StateAt(init, p, dt, k))
    ensures Total(StateAt(init, p, dt, k)) == Total(init)
    ensures StateAt(init, p, dt, k + 1).s <= StateAt(init, p, dt, k).s
  {
    if k > 0 {
      TrajectoryNonNegative(init, p, dt, k - 1);
      TotalConserved(init, p, dt, k - 1);
      StepStaysNonNegative(StateAt(init, p, dt, k - 1), p, dt);
    }
    TotalConserved(init, p, dt, k);
    StepStaysNonNegative(StateAt(init, p, dt, k), p, dt);
  }

  /** Under the step-size condition S is monotone over the whole trajectory. */
  lemma {:induction false} SNonIncreasing(init: State, p: Params, dt: real, j: nat, k: nat)
    requires NonNegative(init) && StableStep(p, dt, Total(init))
    requires j <= k
    ensures StateAt(init, p, dt, k).s <= StateAt(init, p, dt, j).s
    decreases k - j
  {
    if j < k {
      TrajectoryNonNegative(init, p, dt, j);
      SNonIncreasing(init, p, dt, j + 1, k);
    }
  }
}
