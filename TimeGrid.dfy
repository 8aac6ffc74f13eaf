/**
 The half-open time grid `arange(start=0, stop, step)` of the array library,
 over exact reals: it has max(0, ceil(stop / step)) samples and sample k is
 k * step.
 */
module TimeGrid {

  /** The least integer not below x. */
  function Ceil(x: real): (c: int)
    ensures (c - 1) as real < x <= c as real
  {
    -((-x).Floor)
  }

  /** The number of samples of `arange(0, stop, step)`. */
  function ArangeLength(stop: real, step: real): (n: nat)
    requires step != 0.0
    ensures n == 0 <==> stop / step <= 0.0
    ensures n > 0 ==> (n - 1) as real < stop / step <= n as real
  {
    var c := Ceil(stop / step);
    if c > 0 then c else 0
  }

  /** `arange(0, stop, step)`: the samples 0, step, 2 step, ... short of stop. */
  function Arange(stop: real, step: real): (t: seq<real>)
    requires step != 0.0
    ensures |t| == ArangeLength(stop, step)
    ensures forall k :: 0 <= k < |t| ==> t[k] == k as real * step
  {
    seq(ArangeLength(stop, step), k requires 0 <= k => k as real * step)
  }

  /** A grid whose samples strictly increase. */
  predicate Increasing(t: seq<real>) {
    forall j, k :: 0 <= j < k < |t| ==> t[j] < t[k]
  }

  /** Multiplying by a positive number keeps a strict order. */
  lemma MulStrict(x: real, y: real, c: real)
    requires x < y && c > 0.0
    ensures x * c < y * c
  {
    assert y * c - x * c == (y - x) * c;
  }

  /** Multiplying by a positive number keeps an order. */
  lemma MulMonotone(x: real, y: real, c: real)
    requires x <= y && c > 0.0
    ensures x * c <= y * c
  {
    assert y * c - x * c == (y - x) * c;
  }

  /** A sample k * step with k < n and n - 1 < stop / step lies in [0, stop). */
  lemma SampleBounds(k: nat, n: nat, q: real, step: real, stop: real, tk: real)
    requires k < n && (n - 1) as real < q && step > 0.0 && q * step == stop && tk == k as real * step
    ensures 0.0 <= tk < stop
  {
    assert k as real <= (n - 1) as real;
    MulStrict(k as real, q, step);
    MulMonotone(0.0, k as real, step);
  }

  /** (a / b) * b is a. */
  lemma DivMul(a: real, b: real)
    requires b != 0.0
    ensures (a / b) * b == a
  {
  }

  /**
   For a positive step every sample k * step lies in [0, stop) while
   |t| * step >= stop: the length is the least k with k * step >= stop.
   */
  lemma ArangeBounds(stop: real, step: real)
    requires step > 0.0
    ensures var t := Arange(stop, step);
      && (forall k :: 0 <= k < |t| ==> 0.0 <= t[k] < stop)
      && |t| as real * step >= stop
  {
    var t := Arange(stop, step);
    var n := |t|;
    var q := stop / step;
    DivMul(stop, step);
    if n > 0 {
      assert (n - 1) as real < q;
    }
    forall k | 0 <= k < n ensures 0.0 <= t[k] < stop {
      SampleBounds(k, n, q, step, stop, t[k]);
    }
    assert q <= n as real;
    LengthCovers(n, q, step, stop);
  }

  /** n samples of a positive step reach stop once stop / step is at most n. */
  lemma LengthCovers(n: nat, q: real, step: real, stop: real)
    requires q <= n as real && step > 0.0 && q * step == stop
    ensures n as real * step >= stop
  {
    MulMonotone(q, n as real, step);
  }

  /** A grid with a positive step increases. */
  lemma ArangeIncreasing(stop: real, step: real)
    requires step > 0.0
    ensures Increasing(Arange(stop, step))
  {
    var t := Arange(stop, step);
    forall j, k | 0 <= j < k < |t| ensures t[j] < t[k] {
      MulStrict(j as real, k as real, step);
    }
  }

  /**
   The grid of the modal solver, `arange(0, sim_time, sim_time / num_steps)`,
   has exactly num_steps samples, sample k being k * sim_time / num_steps, when
   num_steps is positive; and none when it is negative. With a positive
   simulation time every sample lies in [0, sim_time).
   */
  lemma ModalGridLength(simTime: real, numSteps: int)
    requires simTime != 0.0 && numSteps != 0
    ensures var t := Arange(simTime, simTime / numSteps as real);
      && |t| == (if numSteps > 0 then numSteps else 0)
      && (forall k :: 0 <= k < |t| ==> t[k] == k as real * simTime / numSteps as real)
      && (simTime > 0.0 && numSteps > 0 ==> forall k :: 0 <= k < |t| ==> 0.0 <= t[k] < simTime)
  {
    var N := numSteps as real;
    var step := simTime / N;
    StepQuotient(simTime, N);
    if simTime > 0.0 && numSteps > 0 {
      assert step > 0.0;
      ArangeBounds(simTime, step);
    }
    var t := Arange(simTime, step);
    forall k | 0 <= k < |t| ensures t[k] == k as real * simTime / N {
      assert t[k] == k as real * step;
      MulDiv(k as real, simTime, N);
    }
  }

  /** simTime / (simTime / N) is N. */
  lemma StepQuotient(simTime: real, N: real)
    requires simTime != 0.0 && N != 0.0
    ensures simTime / N != 0.0 && simTime / (simTime / N) == N
  {
    var step := simTime / N;
    assert step * N == simTime;
    assert N * step == simTime;
  }

  /** k (a / N) is k a / N. */
  lemma MulDiv(k: real, a: real, N: real)
    requires N != 0.0
    ensures k * (a / N) == k * a / N
  {
  }
}
