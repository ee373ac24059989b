/**
 * The integrator `seiqr_model_with_soc_dist`: five growing lists, one
 * append to each per grid point after the first.
 */
module Integrator {
  import opened Seiqr

  datatype Compartment = Susceptible | Exposed | Infective | Quarantined | Recovered

  function Get(x: State, c: Compartment): real {
    match c
    case Susceptible => x.s
    case Exposed => x.e
    case Infective => x.i
    case Quarantined => x.q
    case Recovered => x.r
  }

  /** The list of one compartment's values along a trajectory. */
  function Column(tr: seq<State>, c: Compartment): (col: seq<real>)
    ensures |col| == |tr|
    ensures forall k :: 0 <= k < |tr| ==> col[k] == Get(tr[k], c)
  {
    seq(|tr|, k requires 0 <= k < |tr| => Get(tr[k], c))
  }

  /** Appending a snapshot appends its value to every column. */
  lemma ColumnAppend(tr: seq<State>, x: State, c: Compartment)
    ensures Column(tr + [x], c) == Column(tr, c) + [Get(x, c)]
  {
    assert forall k :: 0 <= k < |tr| ==> (tr + [x])[k] == tr[k];
  }

  /** The five columns of a run of `steps` steps: each holds one value per
      grid point, starts at the initial value, and at every grid point the
      five values add up to the initial population. */
  lemma ColumnsOfRun(init: State, p: Params, dt: real, steps: nat)
    ensures forall c :: |Column(Trajectory(init, p, dt, steps), c)| == steps + 1
    ensures forall c :: Column(Trajectory(init, p, dt, steps), c)[0] == Get(init, c)
    ensures forall k :: 0 <= k <= steps ==>
      var tr := Trajectory(init, p, dt, steps);
      Column(tr, Susceptible)[k] + Column(tr, Exposed)[k] + Column(tr, Infective)[k]
      + Column(tr, Quarantined)[k] + Column(tr, Recovered)[k] == Total(init)
  {
    var tr := Trajectory(init, p, dt, steps);
    forall k | 0 <= k <= steps
      ensures Column(tr, Susceptible)[k] + Column(tr, Exposed)[k] + Column(tr, Infective)[k]
        + Column(tr, Quarantined)[k] + Column(tr, Recovered)[k] == Total(init)
    {
      TotalConserved(init, p, dt, k);
    }
  }

  /** Runs the explicit Euler scheme over the grid `t`, with the one step
      size t[1] - t[0], and returns the grid with the five lists S, E, I,
      Q, R: the five columns of the trajectory of `|t| - 1` steps from
      `init`. The grid must hold two points at least: the program reads
      t[1]. */
  method SeiqrModelWithSocDist(init: State, p: Params, t: seq<real>)
    returns (tt: seq<real>, S: seq<real>, E: seq<real>, I: seq<real>, Q: seq<real>, R: seq<real>)
    requires 2 <= |t|
    ensures tt == t
    ensures S == Column(Trajectory(init, p, t[1] - t[0], |t| - 1), Susceptible)
    ensures E == Column(Trajectory(init, p, t[1] - t[0], |t| - 1), Exposed)
    ensures I == Column(Trajectory(init, p, t[1] - t[0], |t| - 1), Infective)
    ensures Q == Column(Trajectory(init, p, t[1] - t[0], |t| - 1), Quarantined)
    ensures R == Column(Trajectory(init, p, t[1] - t[0], |t| - 1), Recovered)
    ensures |S| == |t| && |E| == |t| && |I| == |t| && |Q| == |t| && |R| == |t|
  {
    S, E, I, Q, R := [init.s], [init.e], [init.i], [init.q], [init.r];
    var dt := t[1] - t[0];
    ghost var tr := Trajectory(init, p, dt, 0);
    assert S == Column(tr, Susceptible) && E == Column(tr, Exposed) && I == Column(tr, Infective);
    assert Q == Column(tr, Quarantined) && R == Column(tr, Recovered);
    for n := 1 to |t|
      invariant tr == Trajectory(init, p, dt, n - 1)
      invariant S == Column(tr, Susceptible) && E == Column(tr, Exposed) && I == Column(tr, Infective)
      invariant Q == Column(tr, Quarantined) && R == Column(tr, Recovered)
    {
      // All five next values come from the last snapshot (the program's
      // S[-1], E[-1], I[-1], Q[-1], R[-1]) through the five update lines.
      var last := State(S[|S| - 1], E[|E| - 1], I[|I| - 1], Q[|Q| - 1], R[|R| - 1]);
      assert last == tr[n - 1];
      var next := Step(last, p, dt);
      R := R + [next.r];
      Q := Q + [next.q];
      S := S + [next.s];
      E := E + [next.e];
      I := I + [next.i];
      ColumnAppend(tr, next, Susceptible);
      ColumnAppend(tr, next, Exposed);
      ColumnAppend(tr, next, Infective);
      ColumnAppend(tr, next, Quarantined);
      ColumnAppend(tr, next, Recovered);
      tr := tr + [next];
    }
    tt := t;
  }
}
