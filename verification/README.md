# SEIQR epidemic model with social distancing

`SEIQRplot.py` is an interactive Bokeh page. It integrates an SEIQR
compartmental epidemic model: Susceptible, Exposed, Infective, Quarantined and
Recovered, each a fraction of the population. The scheme is explicit (forward)
Euler over a time grid. The page plots the five curves and prints the peak
infective fraction and the day it is reached. Six sliders set the parameters;
moving one re-runs the integration.

This project models the computational core of that page in Dafny:

- `seiqr.dfy`, module `Seiqr`:
  - the state, the parameters and the right-hand side of the differential equations (`Rates`);
  - the five update lines of the integrator (`NextS` … `NextR`) and one synchronous step (`Step`);
  - the snapshot after `k` steps (`StateAt`) and the whole trajectory (`Trajectory`);
  - the properties of the scheme: it is explicit Euler for those equations, it conserves the
    population, it keeps every compartment non-negative under a step-size condition, S never
    grows, and the special cases phi = 0, phi = 1, rho·beta = 0 and the disease-free state.
- `integrator.dfy`, module `Integrator`: the function `seiqr_model_with_soc_dist` as an
  imperative method. It grows five lists, one append per grid point after the first. It is
  proved to return the five columns of `Trajectory`.
- `summary.dfy`, module `Summary`: the status line's `max(I)`, `I.index(max(I))` and
  `int(tt[...])`. That is Python's left-to-right maximum, the first index of a value, and
  truncation toward zero.
- `controller.dfy`, module `Controller`:
  - the module-level defaults and the initial state;
  - the slider callback `update_data`: durations become rates, and rho is fixed at 1;
  - the proof that every slider setting, on a grid of step at most 0.1 days, gives a run that
    stays in the simplex: all compartments non-negative, adding up to one, and S never
    increasing.

Arithmetic is exact (`real`). Every identity below therefore holds exactly. The program
itself computes in IEEE doubles.

## Model

| member | source | states |
|---|---|---|
| Seiqr.NextS | SEIQRplot.py:16 | the S update line, next S from the previous snapshot; its properties are EulerS, SusceptibleStep and SusceptibleNonIncreasing |
| Seiqr.NextE | SEIQRplot.py:17 | the E update line, next E from the previous snapshot; its properties are EulerE and ExposedStep |
| Seiqr.NextI | SEIQRplot.py:18 | the I update line, next I from the previous snapshot; its properties are EulerI and InfectiveStep |
| Seiqr.NextQ | SEIQRplot.py:15 | the Q update line, next Q from the previous snapshot; its properties are EulerQ and QuarantinedStep |
| Seiqr.NextR | SEIQRplot.py:14 | the R update line, next R from the previous snapshot; its properties are EulerR and RecoveredStep |
| Seiqr.Step | SEIQRplot.py:14-18 | one loop iteration: all five update lines applied to the same previous snapshot; its properties are StepIsEuler, StepConservesTotal and StepStaysNonNegative |
| Seiqr.StateAt | SEIQRplot.py:13-23 | the snapshot at grid point k: the initial state stepped k times; its properties are TotalConserved and TrajectoryNonNegative |
| Seiqr.Rates | SEIQRplot.py:14-18 | the right-hand sides of dS/dt … dR/dt add up to zero: every flow leaves one compartment and enters another |
| Seiqr.EulerS | SEIQRplot.py:16 | the S update line is S plus dt times dS/dt = -rho beta S I at the previous snapshot |
| Seiqr.EulerE | SEIQRplot.py:17 | the E update line is E plus dt times dE/dt at the previous snapshot |
| Seiqr.EulerI | SEIQRplot.py:18 | the I update line, with its grouped outflow, is I plus dt times dI/dt at the previous snapshot |
| Seiqr.EulerQ | SEIQRplot.py:15 | the Q update line is Q plus dt times dQ/dt at the previous snapshot |
| Seiqr.EulerR | SEIQRplot.py:14 | the R update line is R plus dt times dR/dt at the previous snapshot |
| Seiqr.StepIsEuler | SEIQRplot.py:13-18 | one loop iteration is a synchronous explicit Euler step: all five next values come from the same previous snapshot, although R and Q are computed first |
| Seiqr.LinesConserveTotal | SEIQRplot.py:14-18 | the five next values add up to the previous total |
| Seiqr.StepConservesTotal | SEIQRplot.py:14-23 | one step keeps S+E+I+Q+R |
| Seiqr.Trajectory | SEIQRplot.py:10-23 | the run over a grid of steps+1 points has steps+1 snapshots, and the k-th is the initial state stepped k times |
| Seiqr.TotalConserved | SEIQRplot.py:13-23 | every snapshot of a run has the population of the initial state |
| Seiqr.FullQuarantine | SEIQRplot.py:14-18 | with phi = 1, I leaves only into Q (rate gamma), and R gains only from Q |
| Seiqr.NoQuarantine | SEIQRplot.py:14-18 | with phi = 0, I recovers straight into R (rate lambdaI), and Q only drains |
| Seiqr.NoQuarantineStaysEmpty | SEIQRplot.py:13-23 | with phi = 0 and Q initially 0, Q is 0 at every grid point |
| Seiqr.NoTransmission | SEIQRplot.py:16 | with rho·beta = 0 the S update leaves S unchanged |
| Seiqr.NoTransmissionKeepsS | SEIQRplot.py:13-23 | with rho·beta = 0, S keeps its initial value at every grid point |
| Seiqr.NoTransmissionExposedDrains | SEIQRplot.py:17 | with rho·beta = 0, a positive E still shrinks in every step (alpha, dt > 0): E is not frozen |
| Seiqr.DiseaseFreeLines | SEIQRplot.py:14-18 | on a snapshot with E = I = Q = 0 every flow is zero: S and R keep their values, and E, I, Q stay 0 |
| Seiqr.DiseaseFreeStep | SEIQRplot.py:14-18 | a disease-free snapshot is a fixed point of the step, for any parameters and step size |
| Seiqr.DiseaseFreeTrajectory | SEIQRplot.py:13-23 | a disease-free start stays unchanged at every grid point |
| Seiqr.SusceptibleStep | SEIQRplot.py:16 | while the infection pressure rho·beta·I·dt is in [0, 1], the next S is between 0 and the previous S |
| Seiqr.SusceptibleNonIncreasing | SEIQRplot.py:16 | whenever the infection flow rho·beta·S·I·dt is non-negative, the next S is at most the previous S, with no bound on the step size |
| Seiqr.ExposedStep | SEIQRplot.py:17 | with a non-negative inflow and alpha·dt ≤ 1, the next E is non-negative |
| Seiqr.InfectiveStep | SEIQRplot.py:18 | with (phi·gamma + lambdaI·(1-phi))·dt ≤ 1, the next I is non-negative |
| Seiqr.QuarantinedStep | SEIQRplot.py:15 | with lambdaQu·dt ≤ 1, the next Q is non-negative |
| Seiqr.RecoveredStep | SEIQRplot.py:14 | R only receives, so the next R is non-negative |
| Seiqr.FlowsNonNegative | SEIQRplot.py:14-18 | every flow term out of a non-negative snapshot, under non-negative rates and phi in [0, 1], is non-negative |
| Seiqr.InfectionPressureBounded | SEIQRplot.py:16 | under the step-size condition, rho·beta·I·dt is in [0, 1] on a non-negative snapshot |
| Seiqr.StepStaysNonNegative | SEIQRplot.py:14-18 | under the step-size condition, a step maps a non-negative snapshot to a non-negative one and does not increase S |
| Seiqr.TrajectoryNonNegative | SEIQRplot.py:13-23 | under the step-size condition, every snapshot is non-negative, keeps the population, and S does not grow into the next one |
| Seiqr.SNonIncreasing | SEIQRplot.py:13-23 | under the step-size condition, S at a later grid point is at most S at an earlier one |
| Integrator.ColumnAppend | SEIQRplot.py:19-23 | appending one snapshot to the run appends exactly that snapshot's value to each compartment's list, leaving the earlier entries as they were |
| Integrator.ColumnsOfRun | SEIQRplot.py:10-23 | each of the five lists has one entry per grid point and starts at its initial value; at every grid point the five entries add up to the initial population |
| Integrator.SeiqrModelWithSocDist | SEIQRplot.py:8-28 | returns the grid unchanged and S, E, I, Q, R as exactly the columns of the trajectory of \|t\|-1 steps of size t[1]-t[0] |
| Summary.Max | SEIQRplot.py:50 | `max(I)` is an element of I and no element exceeds it |
| Summary.IndexOf | SEIQRplot.py:50 | `list.index(v)` is a position holding v, and no earlier position holds v |
| Summary.Truncate | SEIQRplot.py:50 | `int(x)` truncates toward zero: n ≤ x < n+1 for x ≥ 0, and n-1 < x ≤ n for x < 0 |
| Summary.PeakIndex | SEIQRplot.py:50 | `I.index(max(I))` is the leftmost position of a largest element of I |
| Summary.PeakIndexUnique | SEIQRplot.py:50 | any leftmost position of a largest element is the one reported |
| Summary.Summarize | SEIQRplot.py:92 | the reported peak bounds every element of I and is attained; the day is the truncated time of the first grid point attaining it |
| Summary.DayIsWholeDays | SEIQRplot.py:92 | on a grid of non-negative times, the day is a non-negative whole number of days, and the peak time is in [day, day+1) |
| Controller.InitVals | SEIQRplot.py:35-36 | the initial state is non-negative, adds up to 1, and holds one exposed person in N = 10000 |
| Controller.SliderParams | SEIQRplot.py:81-89 | each rate is the reciprocal of its slider's mean duration; beta and phi are taken as they are; rho is 1 |
| Controller.DefaultParams | SEIQRplot.py:37-44 | the module-level parameters of the first run; DefaultsAgree relates them to the sliders |
| Controller.DefaultSliders | SEIQRplot.py:70-75 | the sliders' initial values; DefaultsAgree shows they are in range |
| Controller.InSliderRange | SEIQRplot.py:70-75 | the start and end of each slider's range, as declared |
| Controller.DefaultsAgree | SEIQRplot.py:37-44 | the fixed first-run parameters are what the callback computes from the sliders' initial values (lines 70-75), and those values lie in the sliders' ranges |
| Controller.SlidersGiveStableStep | SEIQRplot.py:70-75 | every slider setting in range, with dt ≤ 0.1 and a population of 1, meets the step-size condition |
| Controller.SliderRunInSimplex | SEIQRplot.py:79-90 | every run the sliders can request (dt ≤ 0.1) is non-negative at every grid point, adds up to 1, and S never grows |
| Controller.UpdateData | SEIQRplot.py:79-92 | the callback's lists are the columns of the run from the initial state with the slider parameters, and its report is the summary of that I. For sliders in range and dt ≤ 0.1, the peak is a fraction in [0, 1] and the S list is non-increasing |

## Left out

- The Bokeh page is not modelled: `ColumnDataSource`, `figure`, the `Div`, plot styling, the
  `Slider` widgets and their `on_change` wiring, `curdoc` (lines 2-7, 47, 51-67, 91, 93 onward).
  These are I/O and UI. The slider values are a `Sliders` parameter instead.
- The grid `np.linspace(0, t_max, int(t_max/dt) + 1)` (lines 31-33) is not computed. The grid
  `t` is a parameter, and the step is t[1] - t[0], as in the program. The 0.1-day bound in the
  Controller lemmas is that grid's step.
- IEEE double arithmetic and rounding are not modelled; all arithmetic is exact `real`.
  Conservation holds exactly in the model, but only up to rounding in the program.
- The percent formatting `'{0:.0%}'` of the peak is not modelled. The report carries the
  number, not the text.
- Integrator.SeiqrModelWithSocDist requires at least two grid points. The program reads t[1]
  and raises an error on a shorter grid; that error path is not modelled.
- Controller.UpdateData requires non-zero slider durations (`Divisible`). The program would
  divide by zero; the widgets never produce such a value.
- Controller.InSliderRange: only each slider's start and end are modelled, not its step
  (1 day, or 0.1), so the range lemmas cover a superset of the values the widgets offer.
- The commented-out rho slider (lines 76 and 88) is not modelled; rho is 1, as in the code.
- Positivity is proved only under the step-size condition `Seiqr.StableStep`. Explicit Euler
  can go negative with larger steps, and the model does not claim otherwise.
- One might expect that with beta = 0, E, I, Q and R stay at their initial values. The code
  does not do this: only S is frozen (`Seiqr.NoTransmissionKeepsS`), and E
  keeps draining into I (`Seiqr.NoTransmissionExposedDrains`). The model follows the code.
  The state that stays fixed for every parameter set is the disease-free one
  (`Seiqr.DiseaseFreeTrajectory`).
- A regression baseline for the default run's printed peak depends on floating-point
  accumulation over 1500 steps. No literal value is modelled.
