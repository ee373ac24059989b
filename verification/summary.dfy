/**
 * The status-line summary of a run: the largest I, and the day at the
 * first grid point where it is reached (`max(I)`, `I.index(max(I))` and
 * `int(tt[...])`).
 */
module Summary {

  /** The peak infective fraction and the (truncated) day it occurs on. */
  datatype PeakReport = PeakReport(peak: real, day: int)

  /** The largest element, scanning left to right and replacing the
      running maximum only on a strictly larger element, as Python's
      `max` does. */
  function Max(xs: seq<real>): (m: real)
    requires |xs| > 0
    ensures m in xs
    ensures forall k :: 0 <= k < |xs| ==> xs[k] <= m
  {
    if |xs| == 1 then xs[0]
    else
      var running := Max(xs[..|xs| - 1]);
      if xs[|xs| - 1] > running then xs[|xs| - 1] else running
  }

  /** The first position holding `v`, as Python's `list.index`; the program
      only asks for a value that is in the list. */
  function IndexOf(xs: seq<real>, v: real): (j: nat)
    requires v in xs
    ensures j < |xs| && xs[j] == v
    ensures forall k :: 0 <= k < j ==> xs[k] != v
  {
    if xs[0] == v then 0 else 1 + IndexOf(xs[1..], v)
  }

  /** Python's `int(x)` on a number: truncation toward zero. */
  function Truncate(x: real): (n: int)
    ensures 0.0 <= x ==> n as real <= x < n as real + 1.0
    ensures x < 0.0 ==> n as real - 1.0 < x <= n as real
  {
    if 0.0 <= x then x.Floor else -((-x).Floor)
  }

  /** `j` is the leftmost position of a largest element of `xs`. */
  predicate IsLeftmostArgMax(xs: seq<real>, j: nat) {
    && j < |xs|
    && (forall k :: 0 <= k < |xs| ==> xs[k] <= xs[j])
    && (forall k :: 0 <= k < j ==> xs[k] < xs[j])
  }

  /** `I.index(max(I))`: the first grid point where I peaks. */
  function PeakIndex(I: seq<real>): (j: nat)
    requires |I| > 0
    ensures IsLeftmostArgMax(I, j)
  {
    IndexOf(I, Max(I))
  }

  /** There is only one leftmost argmax, so any position with that
      property is the one the program reports. */
  lemma PeakIndexUnique(I: seq<real>, j: nat)
    requires IsLeftmostArgMax(I, j)
    ensures j == PeakIndex(I)
  {
  }

  /** The summary of a run over the grid `tt` with infective column `I`:
      the peak bounds every value of I and is attained, and the day is the
      truncated time of the first grid point attaining it. */
  function Summarize(tt: seq<real>, I: seq<real>): (r: PeakReport)
    requires 0 < |I| <= |tt|
    ensures forall k :: 0 <= k < |I| ==> I[k] <= r.peak
    ensures r.peak in I
    ensures r.day == Truncate(tt[PeakIndex(I)]) && r.peak == I[PeakIndex(I)]
  {
    var peak := Max(I);
    PeakReport(peak, Truncate(tt[IndexOf(I, peak)]))
  }

  /** On a grid of non-negative times the day is the whole number of days
      elapsed at the peak. */
  lemma DayIsWholeDays(tt: seq<real>, I: seq<real>)
    requires 0 < |I| <= |tt|
    requires forall k :: 0 <= k < |tt| ==> 0.0 <= tt[k]
    ensures 0 <= Summarize(tt, I).day
    ensures Summarize(tt, I).day as real <= tt[PeakIndex(I)] < Summarize(tt, I).day as real + 1.0
  {
  }
}
