/**
 Load cases of the structural-dynamics toolbox: a harmonic, an impulsive
 (rectangular pulse) and a ramp load, each with the closed-form response of
 one principal (modal) coordinate and a modal-superposition solver that
 assembles the responses of all modes and transforms them back to the
 original coordinates.

 The transcendental functions and the generalised symmetric eigensolver are
 parameters: `Math` bundles cos, sin, exp and sqrt, of which only the values
 at 0 are known; `eigh` is the eigensolver, of which only the shapes of its
 results are assumed.
 */
module LoadCases {
  import opened LinAlg
  import opened TimeGrid
  import opened Array2D

  /** The elementary functions the closed forms are written with. */
  datatype Math = Math(cos: real -> real, sin: real -> real, exp: real -> real, sqrt: real -> real)
  {
    /** cos 0 = 1, sin 0 = 0 and exp 0 = 1: all the model knows of them. */
    ghost predicate ExactAtZero() {
      cos(0.0) == 1.0 && sin(0.0) == 0.0 && exp(0.0) == 1.0
    }
  }

  // ---------------------------------------------------------------------
  // Splitting a time grid at an instant (the masks `t[t <= s]`, `t[t > s]`)
  // ---------------------------------------------------------------------

  /** `t[t <= s]`: the samples not after s, in grid order. */
  function AtMost(t: seq<real>, s: real): (r: seq<real>)
    ensures |r| <= |t|
    ensures forall k :: 0 <= k < |r| ==> r[k] <= s
    decreases |t|
  {
    if |t| == 0 then [] else (if t[0] <= s then [t[0]] else []) + AtMost(t[1..], s)
  }

  /** `t[t > s]`: the samples after s, in grid order. */
  function Above(t: seq<real>, s: real): (r: seq<real>)
    ensures |r| <= |t|
    ensures forall k :: 0 <= k < |r| ==> r[k] > s
    decreases |t|
  {
    if |t| == 0 then [] else (if t[0] > s then [t[0]] else []) + Above(t[1..], s)
  }

  /** The two pieces together have as many samples as the grid. */
  lemma {:induction false} SplitLengths(t: seq<real>, s: real)
    ensures |AtMost(t, s)| + |Above(t, s)| == |t|
    decreases |t|
  {
    if |t| > 0 {
      SplitLengths(t[1..], s);
    }
  }

  /** The two pieces together hold exactly the samples of the grid, whatever their order. */
  lemma {:induction false} SplitMultiset(t: seq<real>, s: real)
    ensures multiset(AtMost(t, s)) + multiset(Above(t, s)) == multiset(t)
    decreases |t|
  {
    if |t| > 0 {
      SplitMultiset(t[1..], s);
      assert t == [t[0]] + t[1..];
    }
  }

  /** When every sample is after s, nothing is kept by `t <= s` and everything by `t > s`. */
  lemma {:induction false} AllAbove(t: seq<real>, s: real)
    requires forall k :: 0 <= k < |t| ==> t[k] > s
    ensures AtMost(t, s) == [] && Above(t, s) == t
    decreases |t|
  {
    if |t| > 0 {
      AllAbove(t[1..], s);
      assert t == [t[0]] + t[1..];
    }
  }

  /** On an increasing grid the two pieces, concatenated, give the grid back. */
  lemma {:induction false} SplitIncreasing(t: seq<real>, s: real)
    requires Increasing(t)
    ensures AtMost(t, s) + Above(t, s) == t
    decreases |t|
  {
    if |t| > 0 {
      assert t == [t[0]] + t[1..];
      if t[0] <= s {
        SplitIncreasing(t[1..], s);
      } else {
        assert forall k :: 0 <= k < |t[1..]| ==> t[1..][k] > s by {
          forall k | 0 <= k < |t[1..]| ensures t[1..][k] > s {
            assert t[0] < t[k + 1];
          }
        }
        AllAbove(t[1..], s);
      }
    }
  }

  /**
   `[*f(t[t <= s]), *g(t[t > s])]`: f applied to the samples up to s followed
   by g applied to the samples after s. On an increasing grid sample k of the
   result belongs to t[k], through f or g according to the side of s it is on.
   */
  function Piecewise(t: seq<real>, s: real, f: real -> real, g: real -> real): (r: seq<real>)
    ensures |r| == |t|
    ensures Increasing(t) ==>
      forall k :: 0 <= k < |t| ==> r[k] == (if t[k] <= s then f(t[k]) else g(t[k]))
  {
    var t1, t2 := AtMost(t, s), Above(t, s);
    SplitLengths(t, s);
    var r := seq(|t1|, k requires 0 <= k < |t1| => f(t1[k])) + seq(|t2|, k requires 0 <= k < |t2| => g(t2[k]));
    if Increasing(t) then
      SplitIncreasing(t, s);
      assert forall k :: 0 <= k < |t1| ==> t[k] == t1[k];
      assert forall k :: |t1| <= k < |t| ==> t[k] == t2[k - |t1|];
      r
    else
      r
  }

  // ---------------------------------------------------------------------
  // Modal coordinates
  // ---------------------------------------------------------------------

  /** The eigensolver returns n eigenvalues and an n x n matrix of mode shapes for (K, M). */
  ghost predicate IsEighFor(eigh: (Matrix, Matrix) -> (Vector, Matrix), K: Matrix, M: Matrix, n: nat) {
    |eigh(K, M).0| == n && IsMatrix(eigh(K, M).1, n, n)
  }

  /** Natural frequencies `sqrt(omega2)`, elementwise. */
  function Frequencies(m: Math, omega2: Vector): (w: Vector)
    ensures |w| == |omega2| && forall i :: 0 <= i < |w| ==> w[i] == m.sqrt(omega2[i])
  {
    seq(|omega2|, i requires 0 <= i < |omega2| => m.sqrt(omega2[i]))
  }

  /**
   `phi.T @ A @ phi`: an n x n matrix in modal coordinates, whose entry i, j
   is mode i against A applied to mode j (the modes are the columns of phi).
   */
  function Congruent(phi: Matrix, A: Matrix, n: nat): (R: Matrix)
    requires IsMatrix(phi, n, n) && IsMatrix(A, n, n)
    ensures IsMatrix(R, n, n)
    ensures forall i, j :: 0 <= i < n && 0 <= j < n ==>
      R[i][j] == Dot(Column(phi, i, n), MatVec(A, Column(phi, j, n)))
  {
    var B := MatMul(Transpose(phi, n), A, n);
    assert forall i, j :: 0 <= i < n && 0 <= j < n ==>
      Dot(B[i], Column(phi, j, n)) == Dot(Column(phi, i, n), MatVec(A, Column(phi, j, n))) by {
      forall i, j | 0 <= i < n && 0 <= j < n
        ensures Dot(B[i], Column(phi, j, n)) == Dot(Column(phi, i, n), MatVec(A, Column(phi, j, n)))
      {
        assert B[i] == RowTimes(Column(phi, i, n), A, n);
        DotRowTimes(Column(phi, i, n), A, Column(phi, j, n));
      }
    }
    MatMul(B, phi, n)
  }

  /** `phi.T @ A @ x`: a vector in modal coordinates whose entry i is mode i against A applied to x. */
  function ProjectThrough(phi: Matrix, A: Matrix, x: Vector, n: nat): (y: Vector)
    requires IsMatrix(phi, n, n) && IsMatrix(A, n, n) && |x| == n
    ensures |y| == n && forall i :: 0 <= i < n ==> y[i] == Dot(Column(phi, i, n), MatVec(A, x))
  {
    MatMulVec(Transpose(phi, n), A, x);
    MatVec(MatMul(Transpose(phi, n), A, n), x)
  }

  /**
   `Cp.diagonal() / (2 * Mp.diagonal())`: the modal damping coefficients
   ni_i = zeta_i omega_i, each of which makes 2 ni_i Mp_ii equal to Cp_ii.
   */
  function DampingCoefficients(Mp: Matrix, Cp: Matrix): (ni: Vector)
    requires IsMatrix(Mp, |Mp|, |Mp|) && IsMatrix(Cp, |Mp|, |Mp|)
    requires forall i :: 0 <= i < |Mp| ==> Mp[i][i] != 0.0
    ensures |ni| == |Mp| && forall i :: 0 <= i < |Mp| ==> 2.0 * Mp[i][i] * ni[i] == Cp[i][i]
  {
    var mp, cp := Diagonal(Mp), Diagonal(Cp);
    seq(|Mp|, i requires 0 <= i < |Mp| => cp[i] / (2.0 * mp[i]))
  }

  /** The inner product with a vector of zeros vanishes. */
  lemma {:induction false} DotZeros(x: Vector, z: Vector)
    requires |x| == |z| && forall k :: 0 <= k < |z| ==> z[k] == 0.0
    ensures Dot(x, z) == 0.0
    decreases |x|
  {
    if |x| > 0 {
      DotZeros(x[1..], z[1..]);
    }
  }

  /**
   Column k of phi @ step is phi applied to column k of step: if every mode's
   row of step holds y_i at column k, then column k of the product is phi @ y.
   */
  lemma BackTransformColumn(phi: Matrix, step: Matrix, cols: nat, k: nat, y: Vector)
    requires IsMatrix(phi, |step|, |step|) && IsMatrix(step, |step|, cols) && k < cols
    requires |y| == |step| && forall i :: 0 <= i < |step| ==> step[i][k] == y[i]
    ensures var u := MatMul(phi, step, cols);
      forall r :: 0 <= r < |phi| ==> u[r][k] == MatVec(phi, y)[r]
  {
    assert Column(step, k, cols) == y;
  }

  // ---------------------------------------------------------------------
  // Harmonic load fo cos(omega t)
  // ---------------------------------------------------------------------

  /** The constants of the damped harmonic response of one mode. */
  datatype HarmonicCoefficients = HarmonicCoefficients(omegad: real, Qi: real, Ri: real, C1: real, C2: real)

  /** Harmonic load of amplitude fo and angular frequency omega. */
  datatype Harmonic = Harmonic(fo: real, omega: real)
  {
    /** `fo cos(omega t)`. */
    function Load(m: Math, t: real): (r: real)
      ensures m.ExactAtZero() && t == 0.0 ==> r == fo
    {
      fo * m.cos(omega * t)
    }

    /** `(omega_i^2 - omega^2)^2 + 4 ni_i^2 omega^2`, the denominator of Qi and Ri. */
    function Denominator(omega_i: real, ni_i: real): real {
      (omega_i * omega_i - omega * omega) * (omega_i * omega_i - omega * omega) + 4.0 * (ni_i * ni_i) * (omega * omega)
    }

    /** The damped frequency `sqrt(omega_i^2 - ni_i^2)` and the denominator are both nonzero. */
    ghost predicate WellPosed(m: Math, omega_i: real, ni_i: real) {
      m.sqrt(omega_i * omega_i - ni_i * ni_i) != 0.0 && Denominator(omega_i, ni_i) != 0.0
    }

    /**
     The constants omegad, Qi, Ri, C1 and C2 of one mode.
     Qi cos(omega t) + Ri sin(omega t) is the steady-state solution of
     q'' + 2 ni_i q' + omega_i^2 q = Fpi cos(omega t): matching the cosine and
     the sine terms gives the first two equations. C1 and C2 fit the transient
     to the initial state: the closed form is up_i at instant 0, and its
     derivative there, -ni_i C1 + omegad C2 + omega Ri, is vp_i.
     */
    function Coefficients(m: Math, omega_i: real, ni_i: real, up_i: real, vp_i: real, Fpi: real): (h: HarmonicCoefficients)
      requires WellPosed(m, omega_i, ni_i)
      ensures (omega_i * omega_i - omega * omega) * h.Qi + (2.0 * ni_i * omega) * h.Ri == Fpi
      ensures (omega_i * omega_i - omega * omega) * h.Ri - (2.0 * ni_i * omega) * h.Qi == 0.0
      ensures h.C1 + h.Qi == up_i
      ensures -ni_i * h.C1 + h.omegad * h.C2 + omega * h.Ri == vp_i
    {
      var omegad := m.sqrt(omega_i * omega_i - ni_i * ni_i);
      var A, B := omega_i * omega_i - omega * omega, 2.0 * ni_i * omega;
      var d := Denominator(omega_i, ni_i);
      var Qi := A * Fpi / d;
      var Ri := B * Fpi / d;
      var C1 := up_i - Qi;
      var x := vp_i - Ri * omega + ni_i * C1;
      var C2 := x / omegad;
      assert d == A * A + B * B;
      SteadyStateAlgebra(A, B, d, Fpi, Qi, Ri);
      assert omegad * C2 == x;
      HarmonicCoefficients(omegad, Qi, Ri, C1, C2)
    }

    /**
     The displacement of one mode at instant s. It starts from the initial
     modal displacement up_i.
     */
    function ResponseAt(m: Math, omega_i: real, ni_i: real, up_i: real, vp_i: real, Fpi: real, s: real): (r: real)
      requires WellPosed(m, omega_i, ni_i)
      ensures m.ExactAtZero() && s == 0.0 ==> r == up_i
    {
      var h := Coefficients(m, omega_i, ni_i, up_i, vp_i, Fpi);
      var e, x, y := -ni_i * s, h.omegad * s, omega * s;
      var r := m.exp(e) * (h.C1 * m.cos(x) + h.C2 * m.sin(x)) + h.Qi * m.cos(y) + h.Ri * m.sin(y);
      assert m.ExactAtZero() && s == 0.0 ==> r == up_i by {
        if m.ExactAtZero() && s == 0.0 {
          assert e == 0.0 && x == 0.0 && y == 0.0;
          assert r == 1.0 * (h.C1 * 1.0 + h.C2 * 0.0) + h.Qi * 1.0 + h.Ri * 0.0;
        }
      }
      r
    }

    /** The response of one mode over the whole grid, sample by sample. */
    function Response(m: Math, omega_i: real, ni_i: real, up_i: real, vp_i: real, Fpi: real, t: seq<real>): (r: seq<real>)
      requires WellPosed(m, omega_i, ni_i)
      ensures |r| == |t| && forall k :: 0 <= k < |t| ==> r[k] == ResponseAt(m, omega_i, ni_i, up_i, vp_i, Fpi, t[k])
    {
      seq(|t|, k requires 0 <= k < |t| => ResponseAt(m, omega_i, ni_i, up_i, vp_i, Fpi, t[k]))
    }

    /** The rows of the modal matrix `step`: row i is the response of mode i. */
    function Modes(m: Math, w: Vector, ni: Vector, up: Vector, vp: Vector, Fp: Vector, t: seq<real>): (step: Matrix)
      requires |w| == |ni| == |up| == |vp| == |Fp|
      requires forall i :: 0 <= i < |w| ==> WellPosed(m, w[i], ni[i])
      ensures IsMatrix(step, |w|, |t|)
      ensures forall i :: 0 <= i < |w| ==> step[i] == Response(m, w[i], ni[i], up[i], vp[i], Fp[i], t)
    {
      seq(|w|, i requires 0 <= i < |w| => Response(m, w[i], ni[i], up[i], vp[i], Fp[i], t))
    }

    /**
     At the first sample (instant 0) the superposed displacement is phi @ up:
     every mode starts from its own initial modal displacement.
     */
    lemma ModalStart(m: Math, phi: Matrix, w: Vector, ni: Vector, up: Vector, vp: Vector, Fp: Vector, t: seq<real>)
      requires |w| == |ni| == |up| == |vp| == |Fp| && IsMatrix(phi, |w|, |w|)
      requires forall i :: 0 <= i < |w| ==> WellPosed(m, w[i], ni[i])
      requires m.ExactAtZero() && |t| > 0 && t[0] == 0.0
      ensures var u := MatMul(phi, Modes(m, w, ni, up, vp, Fp, t), |t|);
        forall r :: 0 <= r < |w| ==> u[r][0] == MatVec(phi, up)[r]
    {
      var step := Modes(m, w, ni, up, vp, Fp, t);
      forall i | 0 <= i < |w| ensures step[i][0] == up[i] {
        assert step[i][0] == ResponseAt(m, w[i], ni[i], up[i], vp[i], Fp[i], t[0]);
      }
      BackTransformColumn(phi, step, |t|, 0, up);
    }

    /**
     The modal problem is defined: the shapes agree, every modal mass is
     nonzero, and every mode has a nonzero damped frequency and denominator.
     */
    ghost predicate ModalWellPosed(m: Math, eigh: (Matrix, Matrix) -> (Vector, Matrix),
                                   M: Matrix, C: Matrix, K: Matrix, n: nat) {
      && IsMatrix(M, n, n) && IsMatrix(C, n, n) && IsMatrix(K, n, n)
      && IsEighFor(eigh, K, M, n)
      && (forall i :: 0 <= i < n ==> Congruent(eigh(K, M).1, M, n)[i][i] != 0.0)
      && var ni := DampingCoefficients(Congruent(eigh(K, M).1, M, n), Congruent(eigh(K, M).1, C, n));
         forall i :: 0 <= i < n ==> WellPosed(m, Frequencies(m, eigh(K, M).0)[i], ni[i])
    }

    /**
     The modal matrix `step` of the whole problem: row i is the response of
     mode i to its modal load phi.T @ fo, from its modal initial state
     phi.T @ M @ u0 and phi.T @ M @ v0, with its damping coefficient
     Cp_ii / (2 Mp_ii).
     */
    ghost function ModalSteps(m: Math, eigh: (Matrix, Matrix) -> (Vector, Matrix), M: Matrix, C: Matrix, K: Matrix,
                              u0: Vector, v0: Vector, fo: Vector, t: seq<real>): (step: Matrix)
      requires ModalWellPosed(m, eigh, M, C, K, |fo|) && |u0| == |fo| && |v0| == |fo|
      ensures IsMatrix(step, |fo|, |t|)
    {
      var n, phi := |fo|, eigh(K, M).1;
      var ni := DampingCoefficients(Congruent(phi, M, n), Congruent(phi, C, n));
      Modes(m, Frequencies(m, eigh(K, M).0), ni, ProjectThrough(phi, M, u0, n), ProjectThrough(phi, M, v0, n),
            MatVec(Transpose(phi, n), fo), t)
    }

    /**
     `modal_superposition`: solve the eigenproblem, move M, C, the load and the
     initial state to modal coordinates, fill `step` row by row with the
     response of each mode over `arange(0, sim_time, sim_time / num_steps)`,
     and return the grid with u = phi @ step.
     */
    method ModalSuperposition(m: Math, eigh: (Matrix, Matrix) -> (Vector, Matrix), M: Matrix, C: Matrix, K: Matrix,
                              u0: Vector, v0: Vector, fo: Vector, simTime: real, numSteps: int)
      returns (t: seq<real>, u: Matrix)
      requires ModalWellPosed(m, eigh, M, C, K, |fo|) && |u0| == |fo| && |v0| == |fo|
      requires simTime != 0.0 && numSteps != 0
      ensures t == Arange(simTime, simTime / numSteps as real)
      ensures |t| == (if numSteps > 0 then numSteps else 0)
      ensures u == MatMul(eigh(K, M).1, ModalSteps(m, eigh, M, C, K, u0, v0, fo, t), |t|)
    {
      var n := |fo|;
      var (omega2, phi) := eigh(K, M);
      var w := Frequencies(m, omega2);
      var Mp := Congruent(phi, M, n);
      var Cp := Congruent(phi, C, n);
      var Fp := MatVec(Transpose(phi, n), fo);
      var up := ProjectThrough(phi, M, u0, n);
      var vp := ProjectThrough(phi, M, v0, n);
      var ni := DampingCoefficients(Mp, Cp);
      t := Arange(simTime, simTime / numSteps as real);
      ModalGridLength(simTime, numSteps);
      var step := new real[n, |t|];
      for i := 0 to n
        invariant forall r :: 0 <= r < i ==> Row(step, r) == Response(m, w[r], ni[r], up[r], vp[r], Fp[r], t)
      {
        SetRow(step, i, Response(m, w[i], ni[i], up[i], vp[i], Fp[i], t));
      }
      assert ToMatrix(step) == Modes(m, w, ni, up, vp, Fp, t);
      u := MatMul(phi, ToMatrix(step), |t|);
    }
  }

  /** F (1 - a S) = F (1 + a (z - S)) when z = 0: how the two ramp branches meet. */
  lemma JoinAlgebra(F: real, a: real, S: real, z: real)
    requires z == 0.0
    ensures F * (1.0 - a * S) == F * (1.0 + a * (z - S))
  {
  }

  /** x -> fo x / d does not decrease when fo >= 0 and d > 0. */
  lemma ScaledMonotone(fo: real, d: real, x: real, y: real, lx: real, ly: real)
    requires fo >= 0.0 && d > 0.0 && x <= y && lx == fo * x / d && ly == fo * y / d
    ensures lx <= ly
  {
    assert fo * x <= fo * y;
    DivideMonotone(fo * x, fo * y, d);
  }

  /** l = fo t / d gives l d = fo t. */
  lemma RisingFraction(fo: real, t: real, d: real, l: real)
    requires d != 0.0 && l == fo * t / d
    ensures l * d == fo * t
  {
  }

  /** fo d / d is fo. */
  lemma ScaledWhole(fo: real, d: real)
    requires d != 0.0
    ensures fo * d / d == fo
  {
  }

  /** Dividing by a positive number keeps the order. */
  lemma DivideMonotone(x: real, y: real, d: real)
    requires x <= y && d > 0.0
    ensures x / d <= y / d
  {
    assert y / d - x / d == (y - x) / d;
  }

  /** The two linear equations that Qi = A F / d and Ri = B F / d solve when d = A^2 + B^2. */
  lemma SteadyStateAlgebra(A: real, B: real, d: real, F: real, Q: real, R: real)
    requires d == A * A + B * B && d != 0.0
    requires Q == A * F / d && R == B * F / d
    ensures A * Q + B * R == F
    ensures A * R - B * Q == 0.0
  {
    calc {
      A * Q + B * R;
      (A * A * F + B * B * F) / d;
      d * F / d;
      F;
    }
    calc {
      A * R - B * Q;
      (A * B * F - B * A * F) / d;
      0.0;
    }
  }

  // ---------------------------------------------------------------------
  // Impulsive load: fo up to td, nothing after
  // ---------------------------------------------------------------------

  /** Rectangular pulse of amplitude fo lasting until td. */
  datatype Impulsive = Impulsive(fo: real, td: real)
  {
    /** `fo if t <= td else 0 * fo`. */
    function Load(t: real): (r: real)
      ensures t <= td ==> r == fo
      ensures t > td ==> r == 0.0
    {
      if t <= td then fo else 0.0 * fo
    }

    /** A pulse of nonnegative amplitude never grows: it is switched off once and for all. */
    lemma LoadNonIncreasing(t1: real, t2: real)
      requires fo >= 0.0 && t1 <= t2
      ensures 0.0 <= Load(t2) <= Load(t1) <= fo
    {
    }

    /**
     Response while the pulse acts, `(Fp/Kp) (1 - cos(omega_i s))`. The mode
     starts at rest at instant 0.
     */
    function During(m: Math, Kp: real, Fp: real, omega_i: real, s: real): (r: real)
      requires Kp != 0.0
      ensures m.ExactAtZero() && s == 0.0 ==> r == 0.0
    {
      var y := omega_i * s;
      var r := (Fp / Kp) * (1.0 - m.cos(y));
      assert m.ExactAtZero() && s == 0.0 ==> r == 0.0 by {
        if m.ExactAtZero() && s == 0.0 {
          assert y == 0.0;
        }
      }
      r
    }

    /**
     Free vibration after the pulse, from the state reached at td. At td it
     takes the value of the forced branch: the displacement is continuous
     when the pulse ends.
     */
    function After(m: Math, Kp: real, Fp: real, omega_i: real, s: real): (r: real)
      requires Kp != 0.0
      ensures m.ExactAtZero() && s == td ==> r == During(m, Kp, Fp, omega_i, td)
    {
      var c, sn := m.cos(omega_i * td), m.sin(omega_i * td);
      var z := omega_i * (s - td);
      var r := (Fp / Kp) * ((1.0 - c) * m.cos(z) + sn * m.sin(z));
      assert m.ExactAtZero() && s == td ==> r == During(m, Kp, Fp, omega_i, td) by {
        if m.ExactAtZero() && s == td {
          assert z == 0.0;
          assert (1.0 - c) * 1.0 + sn * 0.0 == 1.0 - c;
          DuringAt(m, Kp, Fp, omega_i, td, omega_i * td);
        }
      }
      r
    }

    /** The forced branch, with its phase given as y = omega_i s. */
    lemma DuringAt(m: Math, Kp: real, Fp: real, omega_i: real, s: real, y: real)
      requires Kp != 0.0 && y == omega_i * s
      ensures During(m, Kp, Fp, omega_i, s) == (Fp / Kp) * (1.0 - m.cos(y))
    {
      assert During(m, Kp, Fp, omega_i, s) == (Fp / Kp) * (1.0 - m.cos(omega_i * s));
    }

    /**
     `response`: the samples up to td through the forced branch, those after
     it through the free branch, concatenated. On an increasing grid sample k
     is the branch for t[k] evaluated at t[k].
     */
    function Response(m: Math, Kp: real, Fp: real, omega_i: real, t: seq<real>): (r: seq<real>)
      requires Kp != 0.0
      ensures |r| == |t|
      ensures Increasing(t) ==> forall k :: 0 <= k < |t| ==>
        r[k] == (if t[k] <= td then During(m, Kp, Fp, omega_i, t[k]) else After(m, Kp, Fp, omega_i, t[k]))
    {
      Piecewise(t, td, s => During(m, Kp, Fp, omega_i, s), s => After(m, Kp, Fp, omega_i, s))
    }

    /** A pulse that has not ended by instant 0 leaves the mode at rest there. */
    lemma ResponseAtZero(m: Math, Kp: real, Fp: real, omega_i: real, t: seq<real>)
      requires Kp != 0.0 && m.ExactAtZero() && td >= 0.0
      requires Increasing(t) && |t| > 0 && t[0] == 0.0
      ensures Response(m, Kp, Fp, omega_i, t)[0] == 0.0
    {
      assert omega_i * 0.0 == 0.0;
    }

    /** The rows of the modal matrix `step`: row i is the response of mode i. */
    function Modes(m: Math, Kp: Matrix, w: Vector, Fp: Vector, t: seq<real>): (step: Matrix)
      requires IsMatrix(Kp, |w|, |w|) && |Fp| == |w|
      requires forall i :: 0 <= i < |w| ==> Kp[i][i] != 0.0
      ensures IsMatrix(step, |w|, |t|)
      ensures forall i :: 0 <= i < |w| ==> step[i] == Response(m, Kp[i][i], Fp[i], w[i], t)
    {
      seq(|w|, i requires 0 <= i < |w| => Response(m, Kp[i][i], Fp[i], w[i], t))
    }

    /**
     At instant 0 the superposed displacement is zero whatever the initial
     state: the initial displacement plays no part in the solution.
     */
    lemma ModalStart(m: Math, phi: Matrix, Kp: Matrix, w: Vector, Fp: Vector, t: seq<real>)
      requires IsMatrix(Kp, |w|, |w|) && |Fp| == |w| && IsMatrix(phi, |w|, |w|)
      requires forall i :: 0 <= i < |w| ==> Kp[i][i] != 0.0
      requires m.ExactAtZero() && td >= 0.0 && Increasing(t) && |t| > 0 && t[0] == 0.0
      ensures var u := MatMul(phi, Modes(m, Kp, w, Fp, t), |t|);
        forall r :: 0 <= r < |w| ==> u[r][0] == 0.0
    {
      var step := Modes(m, Kp, w, Fp, t);
      var z := seq(|w|, i requires 0 <= i < |w| => 0.0);
      forall i | 0 <= i < |w| ensures step[i][0] == z[i] {
        ResponseAtZero(m, Kp[i][i], Fp[i], w[i], t);
      }
      BackTransformColumn(phi, step, |t|, 0, z);
      forall r | 0 <= r < |w| ensures MatVec(phi, z)[r] == 0.0 {
        DotZeros(phi[r], z);
      }
    }

    /**
     `modal_superposition`: solve the eigenproblem, move K and the load to
     modal coordinates, fill `step` row by row with the response of each mode
     over `arange(0, sim_time, sim_time / num_steps)`, and return the grid with
     u = phi @ step. The initial displacement u0 is accepted and not used.
     */
    method ModalSuperposition(m: Math, eigh: (Matrix, Matrix) -> (Vector, Matrix), M: Matrix, K: Matrix,
                              u0: Vector, fo: Vector, simTime: real, numSteps: int)
      returns (t: seq<real>, u: Matrix)
      requires var n := |fo|; IsMatrix(M, n, n) && IsMatrix(K, n, n)
      requires IsEighFor(eigh, K, M, |fo|)
      requires simTime != 0.0 && numSteps != 0
      requires forall i :: 0 <= i < |fo| ==> Congruent(eigh(K, M).1, K, |fo|)[i][i] != 0.0
      ensures t == Arange(simTime, simTime / numSteps as real)
      ensures |t| == (if numSteps > 0 then numSteps else 0)
      ensures var n, phi := |fo|, eigh(K, M).1;
        var step := Modes(m, Congruent(phi, K, n), Frequencies(m, eigh(K, M).0), MatVec(Transpose(phi, n), fo), t);
        u == MatMul(phi, step, |t|)
    {
      var n := |fo|;
      var (omega2, phi) := eigh(K, M);
      var w := Frequencies(m, omega2);
      var Kp := Congruent(phi, K, n);
      var Fp := MatVec(Transpose(phi, n), fo);
      t := Arange(simTime, simTime / numSteps as real);
      ModalGridLength(simTime, numSteps);
      var step := new real[n, |t|];
      for i := 0 to n
        invariant forall r :: 0 <= r < i ==> Row(step, r) == Response(m, Kp[r][r], Fp[r], w[r], t)
      {
        SetRow(step, i, Response(m, Kp[i][i], Fp[i], w[i], t));
      }
      assert ToMatrix(step) == Modes(m, Kp, w, Fp, t);
      u := MatMul(phi, ToMatrix(step), |t|);
    }
  }

  // ---------------------------------------------------------------------
  // Ramp load: rising linearly to fo over tr, then constant
  // ---------------------------------------------------------------------

  /** Ramp rising linearly from 0 to fo over the rise time tr, constant afterwards. */
  datatype Ramp = Ramp(fo: real, tr: real)
  {
    /** `fo t / tr if t <= tr else fo`. */
    function Load(t: real): (r: real)
      requires t <= tr ==> tr != 0.0
      ensures t == 0.0 && tr > 0.0 ==> r == 0.0
      ensures t >= tr ==> r == fo
    {
      if t <= tr then fo * t / tr else fo
    }

    /** While the ramp rises the load is the fraction t / tr of fo. */
    lemma LoadRising(t: real)
      requires tr != 0.0 && t <= tr
      ensures Load(t) * tr == fo * t
    {
      RisingFraction(fo, t, tr, Load(t));
    }

    /** For a positive rise time and nonnegative amplitude the load stays in [0, fo] from instant 0 on. */
    lemma LoadBounds(t: real)
      requires tr > 0.0 && fo >= 0.0 && t >= 0.0
      ensures 0.0 <= Load(t) <= fo
    {
      if t <= tr {
        RisingMonotone(0.0, t);
        RisingBelowTop(t);
      }
    }

    /** While the ramp rises, a later instant carries at least as much load. */
    lemma RisingMonotone(t1: real, t2: real)
      requires tr > 0.0 && fo >= 0.0 && t1 <= t2 <= tr
      ensures Load(t1) <= Load(t2)
    {
      ScaledMonotone(fo, tr, t1, t2, Load(t1), Load(t2));
    }

    /** Any instant of the rise carries at most the final load fo. */
    lemma RisingBelowTop(t1: real)
      requires tr > 0.0 && fo >= 0.0 && t1 <= tr
      ensures Load(t1) <= fo
    {
      ScaledMonotone(fo, tr, t1, tr, Load(t1), fo * tr / tr);
      ScaledWhole(fo, tr);
    }

    /** An instant of the rise carries no more load than one after it. */
    lemma RisingBelowConstant(t1: real, t2: real)
      requires tr > 0.0 && fo >= 0.0 && t1 <= tr < t2
      ensures Load(t1) <= Load(t2)
    {
      RisingBelowTop(t1);
    }

    /** For a positive rise time and nonnegative amplitude the load never decreases. */
    lemma LoadMonotone(t1: real, t2: real)
      requires tr > 0.0 && fo >= 0.0 && t1 <= t2
      ensures Load(t1) <= Load(t2)
    {
      if t2 <= tr {
        RisingMonotone(t1, t2);
      } else if t1 <= tr {
        RisingBelowConstant(t1, t2);
      }
    }

    /** The rise time and the modal frequency are such that the closed forms are defined. */
    ghost predicate Defined(Kp: real, omega_i: real) {
      Kp != 0.0 && tr != 0.0 && omega_i * tr != 0.0
    }

    /**
     Response while the load rises, `(Fp/Kp) (s/tr - sin(omega_i s) / (omega_i tr))`.
     The mode starts at rest at instant 0.
     */
    function Rising(m: Math, Kp: real, Fp: real, omega_i: real, s: real): (r: real)
      requires Defined(Kp, omega_i)
      ensures m.ExactAtZero() && s == 0.0 ==> r == 0.0
    {
      var q, y := s / tr, omega_i * s;
      var r := (Fp / Kp) * (q - (1.0 / (omega_i * tr)) * m.sin(y));
      assert m.ExactAtZero() && s == 0.0 ==> r == 0.0 by {
        if m.ExactAtZero() && s == 0.0 {
          assert q == 0.0 && y == 0.0;
        }
      }
      r
    }

    /**
     Response once the load is constant. At tr it takes the value of the
     rising branch: the displacement is continuous when the load stops rising.
     */
    function Constant(m: Math, Kp: real, Fp: real, omega_i: real, s: real): (r: real)
      requires Defined(Kp, omega_i)
      ensures m.ExactAtZero() && s == tr ==> r == Rising(m, Kp, Fp, omega_i, tr)
    {
      var F, a, S := Fp / Kp, 1.0 / (omega_i * tr), m.sin(omega_i * s);
      var z := omega_i * (s - tr);
      var r := F * (1.0 + a * (m.sin(z) - S));
      assert m.ExactAtZero() && s == tr ==> r == Rising(m, Kp, Fp, omega_i, tr) by {
        if m.ExactAtZero() && s == tr {
          assert z == 0.0 && m.sin(z) == 0.0;
          assert tr / tr == 1.0;
          RisingAt(m, Kp, Fp, omega_i, tr, 1.0, omega_i * s);
          JoinAlgebra(F, a, S, m.sin(z));
          assert r == F * (1.0 + a * (m.sin(z) - S));
        }
      }
      r
    }

    /** The rising branch, with the elapsed fraction q = s / tr and the phase y = omega_i s given. */
    lemma RisingAt(m: Math, Kp: real, Fp: real, omega_i: real, s: real, q: real, y: real)
      requires Defined(Kp, omega_i) && q == s / tr && y == omega_i * s
      ensures Rising(m, Kp, Fp, omega_i, s) == (Fp / Kp) * (q - (1.0 / (omega_i * tr)) * m.sin(y))
    {
    }

    /**
     `response`: the samples up to tr through the rising branch, those after
     it through the constant branch, concatenated. On an increasing grid
     sample k is the branch for t[k] evaluated at t[k].
     */
    function Response(m: Math, Kp: real, Fp: real, omega_i: real, t: seq<real>): (r: seq<real>)
      requires Defined(Kp, omega_i)
      ensures |r| == |t|
      ensures Increasing(t) ==> forall k :: 0 <= k < |t| ==>
        r[k] == (if t[k] <= tr then Rising(m, Kp, Fp, omega_i, t[k]) else Constant(m, Kp, Fp, omega_i, t[k]))
    {
      Piecewise(t, tr, s => Rising(m, Kp, Fp, omega_i, s), s => Constant(m, Kp, Fp, omega_i, s))
    }

    /** A ramp that has not finished rising by instant 0 leaves the mode at rest there. */
    lemma ResponseAtZero(m: Math, Kp: real, Fp: real, omega_i: real, t: seq<real>)
      requires Defined(Kp, omega_i) && m.ExactAtZero() && tr > 0.0
      requires Increasing(t) && |t| > 0 && t[0] == 0.0
      ensures Response(m, Kp, Fp, omega_i, t)[0] == 0.0
    {
      assert omega_i * 0.0 == 0.0 && 0.0 / tr == 0.0;
    }

    /** The rows of the modal matrix `step`: row i is the response of mode i. */
    function Modes(m: Math, Kp: Matrix, w: Vector, Fp: Vector, t: seq<real>): (step: Matrix)
      requires IsMatrix(Kp, |w|, |w|) && |Fp| == |w|
      requires forall i :: 0 <= i < |w| ==> Defined(Kp[i][i], w[i])
      ensures IsMatrix(step, |w|, |t|)
      ensures forall i :: 0 <= i < |w| ==> step[i] == Response(m, Kp[i][i], Fp[i], w[i], t)
    {
      seq(|w|, i requires 0 <= i < |w| => Response(m, Kp[i][i], Fp[i], w[i], t))
    }

    /** At instant 0 the superposed displacement is zero: the structure starts at rest. */
    lemma ModalStart(m: Math, phi: Matrix, Kp: Matrix, w: Vector, Fp: Vector, t: seq<real>)
      requires IsMatrix(Kp, |w|, |w|) && |Fp| == |w| && IsMatrix(phi, |w|, |w|)
      requires forall i :: 0 <= i < |w| ==> Defined(Kp[i][i], w[i])
      requires m.ExactAtZero() && tr > 0.0 && Increasing(t) && |t| > 0 && t[0] == 0.0
      ensures var u := MatMul(phi, Modes(m, Kp, w, Fp, t), |t|);
        forall r :: 0 <= r < |w| ==> u[r][0] == 0.0
    {
      var step := Modes(m, Kp, w, Fp, t);
      var z := seq(|w|, i requires 0 <= i < |w| => 0.0);
      forall i | 0 <= i < |w| ensures step[i][0] == z[i] {
        ResponseAtZero(m, Kp[i][i], Fp[i], w[i], t);
      }
      BackTransformColumn(phi, step, |t|, 0, z);
      forall r | 0 <= r < |w| ensures MatVec(phi, z)[r] == 0.0 {
        DotZeros(phi[r], z);
      }
    }

    /**
     `modal_superposition`: solve the eigenproblem, move K and the load to
     modal coordinates, fill `step` row by row with the response of each mode
     over `arange(0, sim_time, sim_time / num_steps)`, and return the grid with
     u = phi @ step.
     */
    method ModalSuperposition(m: Math, eigh: (Matrix, Matrix) -> (Vector, Matrix), M: Matrix, K: Matrix,
                              fo: Vector, simTime: real, numSteps: int)
      returns (t: seq<real>, u: Matrix)
      requires var n := |fo|; IsMatrix(M, n, n) && IsMatrix(K, n, n)
      requires IsEighFor(eigh, K, M, |fo|)
      requires simTime != 0.0 && numSteps != 0
      requires forall i :: 0 <= i < |fo| ==>
        Defined(Congruent(eigh(K, M).1, K, |fo|)[i][i], Frequencies(m, eigh(K, M).0)[i])
      ensures t == Arange(simTime, simTime / numSteps as real)
      ensures |t| == (if numSteps > 0 then numSteps else 0)
      ensures var n, phi := |fo|, eigh(K, M).1;
        var step := Modes(m, Congruent(phi, K, n), Frequencies(m, eigh(K, M).0), MatVec(Transpose(phi, n), fo), t);
        u == MatMul(phi, step, |t|)
    {
      var n := |fo|;
      var (omega2, phi) := eigh(K, M);
      var w := Frequencies(m, omega2);
      var Kp := Congruent(phi, K, n);
      var Fp := MatVec(Transpose(phi, n), fo);
      t := Arange(simTime, simTime / numSteps as real);
      ModalGridLength(simTime, numSteps);
      var step := new real[n, |t|];
      for i := 0 to n
        invariant forall r :: 0 <= r < i ==> Row(step, r) == Response(m, Kp[r][r], Fp[r], w[r], t)
      {
        SetRow(step, i, Response(m, Kp[i][i], Fp[i], w[i], t));
      }
      assert ToMatrix(step) == Modes(m, Kp, w, Fp, t);
      u := MatMul(phi, ToMatrix(step), |t|);
    }
  }
}
