/**
 * The population forecaster of ml-web-app/2-simple-population.js: the sliding-window training pairs built
 * from a monthly series, the last window that seeds a forecast, and the autoregressive rollout that feeds
 * each rounded prediction back into the window. The network is an uninterpreted function from a window to
 * a number.
 */
module SimplePopulation {

  /** One month of the series: `{ month, population }`. */
  datatype Point = Point(month: int, population: real)

  /** The trained network's `predict` on a one-row input tensor, reduced to its first output. */
  type Model = seq<real> -> real

  /** `.map(d => d.population)`. */
  function Populations(ps: seq<Point>): seq<real> {
    seq(|ps|, k requires 0 <= k < |ps| => ps[k].population)
  }

  /** How many pairs a series of `n` months yields with windows of length `L`. */
  function PairCount(n: nat, L: nat): nat {
    if n > L then n - L else 0
  }

  /** The window of pair `k`: `data.slice(k, k + L).map(d => d.population)`. */
  function TrainingWindow(data: seq<Point>, L: nat, k: nat): (w: seq<real>)
    requires k + L <= |data|
    ensures |w| == L
  {
    Populations(data[k..k + L])
  }

  /** The label of pair `k`: the population of the month right after its window. */
  function TrainingLabel(data: seq<Point>, L: nat, k: nat): real
    requires k + L < |data|
  {
    data[k + L].population
  }

  /**
   * `prepareTrainingData`: one pair per month from index `L` on, in order; pair `k` holds the `L` populations
   * before month `k + L` and, as its label, the population of month `k + L`.
   */
  method PrepareTrainingData(data: seq<Point>, sequenceLength: nat) returns (xs: seq<seq<real>>, ys: seq<real>)
    ensures |xs| == PairCount(|data|, sequenceLength) && |ys| == |xs|
    ensures forall k :: 0 <= k < |xs| ==>
      k + sequenceLength < |data|
      && xs[k] == TrainingWindow(data, sequenceLength, k)
      && ys[k] == TrainingLabel(data, sequenceLength, k)
  {
    xs := [];
    ys := [];
    var i := sequenceLength;
    while i < |data|
      invariant sequenceLength <= i
      invariant i <= |data| || i == sequenceLength
      invariant |xs| == i - sequenceLength && |ys| == |xs|
      invariant forall k :: 0 <= k < |xs| ==>
        k + sequenceLength < |data|
        && xs[k] == TrainingWindow(data, sequenceLength, k)
        && ys[k] == TrainingLabel(data, sequenceLength, k)
    {
      var sequence := Populations(data[i - sequenceLength..i]);
      var nextValue := data[i].population;
      xs := xs + [sequence];
      ys := ys + [nextValue];
      i := i + 1;
    }
  }

  /** Consecutive pairs overlap: the next window is this window shifted by one, ending in this pair's label. */
  lemma WindowsSlide(data: seq<Point>, L: nat, k: nat)
    requires L >= 1 && k + L + 1 <= |data|
    ensures TrainingWindow(data, L, k + 1) == TrainingWindow(data, L, k)[1..] + [TrainingLabel(data, L, k)]
  {
    var w := TrainingWindow(data, L, k);
    var v := TrainingWindow(data, L, k + 1);
    var u := w[1..] + [TrainingLabel(data, L, k)];
    assert |v| == |u|;
    forall j | 0 <= j < |v| ensures v[j] == u[j] {
      assert v[j] == data[k + 1 + j].population;
      if j < L - 1 {
        assert u[j] == w[j + 1] == data[k + j + 1].population;
      }
    }
  }

  /** `Math.round`: the integer nearest to `x`, halves rounded up. */
  function Round(x: real): (r: int)
    ensures r as real <= x + 0.5 < r as real + 1.0
  {
    (x + 0.5).Floor
  }

  /** `[...sequence.slice(1), nextValue]`. */
  function Shift(w: seq<real>, v: real): seq<real> {
    (if |w| == 0 then [] else w[1..]) + [v]
  }

  /** The value predicted for a window: the rounded model output. */
  function NextValue(model: Model, w: seq<real>): int {
    Round(model(w))
  }

  /** The window after `n` steps of the rollout. */
  function WindowAfter(model: Model, w: seq<real>, n: nat): seq<real> {
    if n == 0 then w
    else
      var prev := WindowAfter(model, w, n - 1);
      Shift(prev, NextValue(model, prev) as real)
  }

  /** The first `n` predictions of the rollout, in step order. */
  function Rollout(model: Model, w: seq<real>, n: nat): (ps: seq<int>)
    ensures |ps| == n
  {
    if n == 0 then [] else Rollout(model, w, n - 1) + [NextValue(model, WindowAfter(model, w, n - 1))]
  }

  /** The predictions as the numbers written into the window. */
  function AsReals(ps: seq<int>): seq<real> {
    seq(|ps|, k requires 0 <= k < |ps| => ps[k] as real)
  }

  /** Prediction `k` is the rounded model output on the window after `k` steps. */
  lemma {:induction false} RolloutSteps(model: Model, w: seq<real>, n: nat)
    ensures forall k :: 0 <= k < n ==> Rollout(model, w, n)[k] == Round(model(WindowAfter(model, w, k)))
  {
    if n > 0 {
      RolloutSteps(model, w, n - 1);
    }
  }

  /** A longer rollout starts with the shorter one: predictions never change as more months are asked for. */
  lemma {:induction false} RolloutPrefix(model: Model, w: seq<real>, m: nat, n: nat)
    requires m <= n
    ensures Rollout(model, w, n)[..m] == Rollout(model, w, m)
  {
    if m < n {
      RolloutPrefix(model, w, m, n - 1);
      assert Rollout(model, w, n)[..n - 1] == Rollout(model, w, n - 1);
    }
  }

  /** Every step keeps the window length of a non-empty window. */
  lemma {:induction false} WindowLengthKept(model: Model, w: seq<real>, n: nat)
    requires |w| >= 1
    ensures |WindowAfter(model, w, n)| == |w|
  {
    if n > 0 {
      WindowLengthKept(model, w, n - 1);
    }
  }

  /** After `n <= |w|` steps the window is the rest of the seed followed by the first `n` predictions in order. */
  lemma {:induction false} SlidingWindow(model: Model, w: seq<real>, n: nat)
    requires n <= |w|
    ensures WindowAfter(model, w, n) == w[n..] + AsReals(Rollout(model, w, n))
  {
    if n > 0 {
      SlidingWindow(model, w, n - 1);
      var prev := WindowAfter(model, w, n - 1);
      var v := NextValue(model, prev);
      assert prev == w[n - 1..] + AsReals(Rollout(model, w, n - 1));
      assert |prev| >= 1;
      assert prev[1..] == w[n..] + AsReals(Rollout(model, w, n - 1));
      assert AsReals(Rollout(model, w, n)) == AsReals(Rollout(model, w, n - 1)) + [v as real];
    }
  }

  /** `predictFuture`: `months` rounded predictions, each fed back into the window before the next one. */
  method PredictFuture(model: Model, initialSequence: seq<real>, months: int) returns (predictions: seq<int>)
    ensures predictions == Rollout(model, initialSequence, if months > 0 then months else 0)
  {
    var sequence := initialSequence;
    predictions := [];
    var i := 0;
    while i < months
      invariant 0 <= i && (i <= months || i == 0)
      invariant sequence == WindowAfter(model, initialSequence, i)
      invariant predictions == Rollout(model, initialSequence, i)
    {
      var nextValue := Round(model(sequence));
      predictions := predictions + [nextValue];
      sequence := (if |sequence| == 0 then [] else sequence[1..]) + [nextValue as real];
      i := i + 1;
    }
  }

  /** `data.slice(-L).map(d => d.population)`; `slice(-0)` is the whole series. */
  function LastWindow(data: seq<Point>, L: nat): seq<real> {
    if L == 0 || L >= |data| then Populations(data) else Populations(data[|data| - L..])
  }

  /** The seed is the last `L` populations of the series (all of them when the series is shorter or `L` is 0). */
  lemma LastWindowSpec(data: seq<Point>, L: nat)
    ensures var w := LastWindow(data, L);
      && |w| == (if L == 0 || L >= |data| then |data| else L)
      && forall j :: 0 <= j < |w| ==> w[j] == data[|data| - |w| + j].population
  {
  }

  /** The seed is the window that follows the last training pair: its window shifted by one, then its label. */
  lemma LastWindowFollowsPairs(data: seq<Point>, L: nat)
    requires 1 <= L < |data|
    ensures var k := |data| - L - 1;
      LastWindow(data, L) == TrainingWindow(data, L, k)[1..] + [TrainingLabel(data, L, k)]
  {
    var k := |data| - L - 1;
    assert LastWindow(data, L) == TrainingWindow(data, L, k + 1);
    WindowsSlide(data, L, k);
  }

  /**
   * `testPrediction`: the one-step guess on the last window and the six-month rollout from it; the guess is
   * the rollout's first prediction.
   */
  method TestPrediction(model: Model, data: seq<Point>, sequenceLength: nat) returns (guess: int, predictions: seq<int>)
    ensures predictions == Rollout(model, LastWindow(data, sequenceLength), 6)
    ensures guess == predictions[0] && guess == Round(model(LastWindow(data, sequenceLength)))
  {
    var lastSequence := if sequenceLength == 0 || sequenceLength >= |data| then Populations(data)
                        else Populations(data[|data| - sequenceLength..]);
    guess := Round(model(lastSequence));
    predictions := PredictFuture(model, lastSequence, 6);
    RolloutSteps(model, lastSequence, 6);
  }
}
