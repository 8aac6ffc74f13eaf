/**
 Direct time integration of M a + C v + K u = f(t): the implicit Newmark
 method in its displacement formulation and the explicit central-difference
 method. Both fill preallocated n x T arrays u, v, a column by column, one
 column per sample of the time grid.

 The linear-algebra backend is a parameter: `inv` stands for the matrix
 inverse and `solve` for the dense linear solver; each is required to do its
 job for the matrices it is applied to. The external load `fext` is a
 parameter as well.
 */
module NumericSolutions {
  import opened LinAlg
  import opened TimeGrid
  import opened Array2D

  /** The system's matrices and initial state agree on the number of degrees of freedom. */
  ghost predicate WellShaped(M: Matrix, C: Matrix, K: Matrix, fext: real -> Vector, uo: Vector, vo: Vector) {
    var n := |uo|;
    && |vo| == n
    && IsMatrix(M, n, n) && IsMatrix(C, n, n) && IsMatrix(K, n, n)
    && forall s {:trigger fext(s)} :: |fext(s)| == n
  }

  /** Equation of motion at one instant: M a + C v + K u == f. */
  ghost predicate Equilibrium(M: Matrix, C: Matrix, K: Matrix, a: Vector, v: Vector, u: Vector, f: Vector)
    requires IsMatrix(M, |f|, |f|) && IsMatrix(C, |f|, |f|) && IsMatrix(K, |f|, |f|)
    requires |a| == |v| == |u| == |f|
  {
    VecAdd(VecAdd(MatVec(M, a), MatVec(C, v)), MatVec(K, u)) == f
  }

  /**
   The initial acceleration `inv(M) @ (f - C @ vo - K @ uo)`: it is the
   acceleration that puts the initial state in equilibrium with the load f.
   */
  function InitialAcceleration(M: Matrix, C: Matrix, K: Matrix, inv: Matrix -> Matrix,
                               f: Vector, uo: Vector, vo: Vector): (ao: Vector)
    requires |vo| == |uo| == |f|
    requires IsMatrix(M, |f|, |f|) && IsMatrix(C, |f|, |f|) && IsMatrix(K, |f|, |f|)
    requires IsInverseOf(M, inv(M))
    ensures |ao| == |f|
    ensures Equilibrium(M, C, K, ao, vo, uo, f)
  {
    var rhs := VecSub(VecSub(f, MatVec(C, vo)), MatVec(K, uo));
    var ao := MatVec(inv(M), rhs);
    var m, c, k := MatVec(M, ao), MatVec(C, vo), MatVec(K, uo);
    assert m == rhs;
    assert VecAdd(VecAdd(m, c), k) == f by {
      forall i | 0 <= i < |f| ensures VecAdd(VecAdd(m, c), k)[i] == f[i] {
        assert m[i] == f[i] - c[i] - k[i];
      }
    }
    ao
  }

  // ---------------------------------------------------------------------
  // Newmark method
  // ---------------------------------------------------------------------

  /** The eight Newmark integration constants. */
  datatype NewmarkConstants = NewmarkConstants(a0: real, a1: real, a2: real, a3: real,
                                               a4: real, a5: real, a6: real, a7: real)

  /** The constants for step dt and Newmark parameters gama, beta. */
  function NewmarkConstantsOf(dt: real, gama: real, beta: real): (c: NewmarkConstants)
    requires dt != 0.0 && beta != 0.0
    ensures c.a6 + c.a7 == dt
  {
    NewmarkConstants(
      1.0 / (dt * dt * beta),
      gama / (dt * beta),
      1.0 / (dt * beta),
      1.0 / (2.0 * beta) - 1.0,
      gama / beta - 1.0,
      dt * (gama / (2.0 * beta) - 1.0),
      (1.0 - gama) * dt,
      gama * dt)
  }

  /** The identities between the Newmark constants that the recurrence rests on. */
  lemma NewmarkConstantIdentities(dt: real, gama: real, beta: real, c: NewmarkConstants)
    requires dt != 0.0 && beta != 0.0 && c == NewmarkConstantsOf(dt, gama, beta)
    ensures c.a6 == (1.0 - gama) * dt && c.a7 == gama * dt
    ensures beta * dt * dt * c.a0 == 1.0 && beta * dt * dt * c.a2 == dt
    ensures beta * dt * dt * c.a3 == dt * dt * (0.5 - beta)
    ensures c.a7 * c.a0 == c.a1 && c.a7 * c.a2 == c.a4 + 1.0 && c.a6 - c.a7 * c.a3 == -c.a5
  {
    assert beta * dt * c.a2 == 1.0;
    assert beta * dt * dt * c.a2 == (beta * dt * c.a2) * dt;
    assert c.a7 * c.a0 == c.a1 by {
      calc {
        c.a7 * c.a0;
        (gama * dt) * (1.0 / (dt * dt * beta));
        gama / (dt * beta);
      }
    }
    assert c.a7 * c.a2 == c.a4 + 1.0 by {
      calc {
        c.a7 * c.a2;
        (gama * dt) * (1.0 / (dt * beta));
        gama / beta;
      }
    }
    assert c.a7 * c.a3 == gama * dt / (2.0 * beta) - gama * dt;
    assert beta * dt * dt * c.a3 == dt * dt * (0.5 - beta) by {
      calc {
        beta * dt * dt * c.a3;
        (dt * dt) * (beta * (1.0 / (2.0 * beta)) - beta);
        dt * dt * (0.5 - beta);
      }
    }
  }

  /** Effective stiffness `K + a1 * C + a0 * M`. */
  function EffectiveStiffness(K: Matrix, C: Matrix, M: Matrix, c: NewmarkConstants): (Kb: Matrix)
    requires IsMatrix(K, |K|, |K|) && IsMatrix(C, |K|, |K|) && IsMatrix(M, |K|, |K|)
    ensures IsMatrix(Kb, |K|, |K|)
  {
    MatAdd(MatAdd(K, MatScale(c.a1, C)), MatScale(c.a0, M))
  }

  /** Applying the effective stiffness is applying K, C and M and combining. */
  lemma EffectiveStiffnessApply(K: Matrix, C: Matrix, M: Matrix, c: NewmarkConstants, x: Vector)
    requires IsMatrix(K, |x|, |x|) && IsMatrix(C, |x|, |x|) && IsMatrix(M, |x|, |x|)
    ensures MatVec(EffectiveStiffness(K, C, M, c), x)
         == VecAdd(VecAdd(MatVec(K, x), VecScale(c.a1, MatVec(C, x))), VecScale(c.a0, MatVec(M, x)))
  {
    MatAddVec(MatAdd(K, MatScale(c.a1, C)), MatScale(c.a0, M), x);
    MatAddVec(K, MatScale(c.a1, C), x);
    MatScaleVec(c.a1, C, x);
    MatScaleVec(c.a0, M, x);
  }

  /** The mass-side history term `a0 u + a2 v + a3 a` of the previous step. */
  function MassHistory(c: NewmarkConstants, up: Vector, vp: Vector, ap: Vector): (h: Vector)
    requires |up| == |vp| == |ap|
    ensures |h| == |up| && forall k :: 0 <= k < |h| ==> h[k] == c.a0 * up[k] + c.a2 * vp[k] + c.a3 * ap[k]
  {
    VecAdd(VecAdd(VecScale(c.a0, up), VecScale(c.a2, vp)), VecScale(c.a3, ap))
  }

  /** The damping-side history term `a1 u + a4 v + a5 a` of the previous step. */
  function DampingHistory(c: NewmarkConstants, up: Vector, vp: Vector, ap: Vector): (h: Vector)
    requires |up| == |vp| == |ap|
    ensures |h| == |up| && forall k :: 0 <= k < |h| ==> h[k] == c.a1 * up[k] + c.a4 * vp[k] + c.a5 * ap[k]
  {
    VecAdd(VecAdd(VecScale(c.a1, up), VecScale(c.a4, vp)), VecScale(c.a5, ap))
  }

  /** Effective force `f + M @ (mass history) + C @ (damping history)`. */
  function NewmarkForce(c: NewmarkConstants, M: Matrix, C: Matrix, f: Vector,
                        up: Vector, vp: Vector, ap: Vector): (fk1: Vector)
    requires |up| == |vp| == |ap| == |f|
    requires IsMatrix(M, |f|, |f|) && IsMatrix(C, |f|, |f|)
    ensures |fk1| == |f|
  {
    VecAdd(VecAdd(f, MatVec(M, MassHistory(c, up, vp, ap))), MatVec(C, DampingHistory(c, up, vp, ap)))
  }

  /** New acceleration `a0 (uk1 - u) - a2 v - a3 a`. */
  function NewmarkAcceleration(c: NewmarkConstants, uk1: Vector, up: Vector, vp: Vector, ap: Vector): (ai: Vector)
    requires |uk1| == |up| == |vp| == |ap|
    ensures |ai| == |uk1|
    ensures forall k :: 0 <= k < |ai| ==> ai[k] == c.a0 * (uk1[k] - up[k]) - c.a2 * vp[k] - c.a3 * ap[k]
  {
    VecSub(VecSub(VecScale(c.a0, VecSub(uk1, up)), VecScale(c.a2, vp)), VecScale(c.a3, ap))
  }

  /** New velocity `v + a6 a + a7 ai`. */
  function NewmarkVelocity(c: NewmarkConstants, vp: Vector, ap: Vector, ai: Vector): (vi: Vector)
    requires |vp| == |ap| == |ai|
    ensures |vi| == |vp|
    ensures forall k :: 0 <= k < |vi| ==> vi[k] == vp[k] + c.a6 * ap[k] + c.a7 * ai[k]
  {
    VecAdd(VecAdd(vp, VecScale(c.a6, ap)), VecScale(c.a7, ai))
  }

  /**
   The Newmark velocity relation: v_i = v_{i-1} + dt ((1 - gama) a_{i-1} + gama a_i).
   */
  lemma NewmarkVelocityRelation(dt: real, gama: real, beta: real, c: NewmarkConstants,
                                vp: Vector, ap: Vector, ai: Vector)
    requires dt != 0.0 && beta != 0.0 && c == NewmarkConstantsOf(dt, gama, beta)
    requires |vp| == |ap| == |ai|
    ensures NewmarkVelocity(c, vp, ap, ai)
         == VecAdd(vp, VecScale(dt, VecAdd(VecScale(1.0 - gama, ap), VecScale(gama, ai))))
  {
    NewmarkConstantIdentities(dt, gama, beta, c);
    var l := NewmarkVelocity(c, vp, ap, ai);
    var r := VecAdd(vp, VecScale(dt, VecAdd(VecScale(1.0 - gama, ap), VecScale(gama, ai))));
    forall k | 0 <= k < |vp| ensures l[k] == r[k] {
      calc {
        r[k];
        vp[k] + dt * ((1.0 - gama) * ap[k] + gama * ai[k]);
        vp[k] + ((1.0 - gama) * dt) * ap[k] + (gama * dt) * ai[k];
      }
    }
  }

  /**
   One entry of the displacement relation: it holds exactly when ai is the
   acceleration the method derives from uk.
   */
  lemma NewmarkDisplacementEntry(dt: real, gama: real, beta: real, c: NewmarkConstants,
                                  uk: real, up: real, vp: real, ap: real, ai: real, p: real, w: real)
    requires dt != 0.0 && beta != 0.0 && c == NewmarkConstantsOf(dt, gama, beta)
    requires p == up + dt * vp && w == (0.5 - beta) * ap + beta * ai
    ensures uk == p + (dt * dt) * w <==> ai == c.a0 * (uk - up) - c.a2 * vp - c.a3 * ap
  {
    NewmarkConstantIdentities(dt, gama, beta, c);
    var e, g := beta * dt * dt, c.a0 * (uk - up) - c.a2 * vp - c.a3 * ap;
    assert e != 0.0;
    assert e * g == (uk - up) - dt * vp - dt * dt * (0.5 - beta) * ap by {
      calc {
        e * g;
        (beta * dt * dt * c.a0) * (uk - up) - (beta * dt * dt * c.a2) * vp - (beta * dt * dt * c.a3) * ap;
        (uk - up) - dt * vp - dt * dt * (0.5 - beta) * ap;
      }
    }
    assert p + (dt * dt) * w - uk == e * ai - e * g by {
      calc {
        p + (dt * dt) * w - uk;
        up + dt * vp + dt * dt * (0.5 - beta) * ap + e * ai - uk;
      }
    }
    assert e * ai == e * g ==> ai == g by {
      if e * ai == e * g {
        assert e * (ai - g) == 0.0;
      }
    }
  }

  /**
   The Newmark displacement relation:
   u_i = u_{i-1} + dt v_{i-1} + dt^2 ((1/2 - beta) a_{i-1} + beta a_i)
   holds exactly when a_i is the acceleration the method derives from u_i.
   */
  lemma NewmarkDisplacementRelation(dt: real, gama: real, beta: real, c: NewmarkConstants,
                                    uk1: Vector, up: Vector, vp: Vector, ap: Vector, ai: Vector)
    requires dt != 0.0 && beta != 0.0 && c == NewmarkConstantsOf(dt, gama, beta)
    requires |uk1| == |up| == |vp| == |ap| == |ai|
    ensures uk1 == VecAdd(VecAdd(up, VecScale(dt, vp)),
                          VecScale(dt * dt, VecAdd(VecScale(0.5 - beta, ap), VecScale(beta, ai))))
        <==> ai == NewmarkAcceleration(c, uk1, up, vp, ap)
  {
    var g := NewmarkAcceleration(c, uk1, up, vp, ap);
    var r := VecAdd(VecAdd(up, VecScale(dt, vp)),
                    VecScale(dt * dt, VecAdd(VecScale(0.5 - beta, ap), VecScale(beta, ai))));
    var p := VecAdd(up, VecScale(dt, vp));
    var w := VecAdd(VecScale(0.5 - beta, ap), VecScale(beta, ai));
    forall k | 0 <= k < |uk1| ensures uk1[k] == r[k] <==> ai[k] == g[k] {
      NewmarkDisplacementEntry(dt, gama, beta, c, uk1[k], up[k], vp[k], ap[k], ai[k], p[k], w[k]);
    }
    if uk1 == r {
      assert ai == g;
    }
    if ai == g {
      assert uk1 == r;
    }
  }

  /** One entry of the velocity update, rewritten against the damping history. */
  lemma NewmarkVelocityEntry(c: NewmarkConstants, uk: real, up: real, vp: real, ap: real)
    requires c.a7 * c.a0 == c.a1 && c.a7 * c.a2 == c.a4 + 1.0 && c.a6 - c.a7 * c.a3 == -c.a5
    ensures vp + c.a6 * ap + c.a7 * (c.a0 * (uk - up) - c.a2 * vp - c.a3 * ap)
         == c.a1 * uk - (c.a1 * up + c.a4 * vp + c.a5 * ap)
  {
    calc {
      vp + c.a6 * ap + c.a7 * (c.a0 * (uk - up) - c.a2 * vp - c.a3 * ap);
      vp + c.a6 * ap + (c.a7 * c.a0) * (uk - up) - (c.a7 * c.a2) * vp - (c.a7 * c.a3) * ap;
      vp + c.a6 * ap + c.a1 * (uk - up) - (c.a4 + 1.0) * vp - (c.a6 + c.a5) * ap;
      c.a1 * uk - (c.a1 * up + c.a4 * vp + c.a5 * ap);
    }
  }

  /**
   The acceleration and velocity of a Newmark step are a0 u_i and a1 u_i less
   the mass and damping history terms.
   */
  lemma NewmarkUpdateForms(dt: real, gama: real, beta: real, c: NewmarkConstants,
                           uk1: Vector, up: Vector, vp: Vector, ap: Vector)
    requires dt != 0.0 && beta != 0.0 && c == NewmarkConstantsOf(dt, gama, beta)
    requires |uk1| == |up| == |vp| == |ap|
    ensures var ai := NewmarkAcceleration(c, uk1, up, vp, ap);
      && ai == VecSub(VecScale(c.a0, uk1), MassHistory(c, up, vp, ap))
      && NewmarkVelocity(c, vp, ap, ai) == VecSub(VecScale(c.a1, uk1), DampingHistory(c, up, vp, ap))
  {
    NewmarkConstantIdentities(dt, gama, beta, c);
    var ai := NewmarkAcceleration(c, uk1, up, vp, ap);
    var vi := NewmarkVelocity(c, vp, ap, ai);
    var hM, hC := MassHistory(c, up, vp, ap), DampingHistory(c, up, vp, ap);
    var am, vc := VecSub(VecScale(c.a0, uk1), hM), VecSub(VecScale(c.a1, uk1), hC);
    forall k | 0 <= k < |uk1| ensures ai[k] == am[k] && vi[k] == vc[k] {
      assert c.a0 * (uk1[k] - up[k]) == c.a0 * uk1[k] - c.a0 * up[k];
      NewmarkVelocityEntry(c, uk1[k], up[k], vp[k], ap[k]);
    }
  }

  /**
   Newmark equilibrium: once u_i solves Kb u_i = fk1, the acceleration and
   velocity the method derives from it satisfy M a_i + C v_i + K u_i = f(t_i)
   exactly.
   */
  lemma NewmarkEquilibrium(dt: real, gama: real, beta: real, c: NewmarkConstants, M: Matrix, C: Matrix, K: Matrix,
                           f: Vector, up: Vector, vp: Vector, ap: Vector, uk1: Vector)
    requires dt != 0.0 && beta != 0.0 && c == NewmarkConstantsOf(dt, gama, beta)
    requires |uk1| == |up| == |vp| == |ap| == |f|
    requires IsMatrix(M, |f|, |f|) && IsMatrix(C, |f|, |f|) && IsMatrix(K, |f|, |f|)
    requires MatVec(EffectiveStiffness(K, C, M, c), uk1) == NewmarkForce(c, M, C, f, up, vp, ap)
    ensures var ai := NewmarkAcceleration(c, uk1, up, vp, ap);
      Equilibrium(M, C, K, ai, NewmarkVelocity(c, vp, ap, ai), uk1, f)
  {
    var ai := NewmarkAcceleration(c, uk1, up, vp, ap);
    var vi := NewmarkVelocity(c, vp, ap, ai);
    var hM, hC := MassHistory(c, up, vp, ap), DampingHistory(c, up, vp, ap);
    NewmarkUpdateForms(dt, gama, beta, c, uk1, up, vp, ap);
    MatVecSub(M, VecScale(c.a0, uk1), hM);
    MatVecScale(M, c.a0, uk1);
    MatVecSub(C, VecScale(c.a1, uk1), hC);
    MatVecScale(C, c.a1, uk1);
    EffectiveStiffnessApply(K, C, M, c, uk1);
    var Mu, Cu, Ku := MatVec(M, uk1), MatVec(C, uk1), MatVec(K, uk1);
    var MhM, ChC := MatVec(M, hM), MatVec(C, hC);
    var Ma, Cv := MatVec(M, ai), MatVec(C, vi);
    var Kbu := MatVec(EffectiveStiffness(K, C, M, c), uk1);
    assert Ma == VecSub(VecScale(c.a0, Mu), MhM);
    assert Cv == VecSub(VecScale(c.a1, Cu), ChC);
    assert Kbu == VecAdd(VecAdd(Ku, VecScale(c.a1, Cu)), VecScale(c.a0, Mu));
    assert Kbu == VecAdd(VecAdd(f, MhM), ChC);
    NewmarkEquilibriumAlgebra(c, f, Ma, Cv, Mu, Cu, Ku, MhM, ChC);
  }

  /**
   The vector algebra behind Newmark equilibrium: M a_i and C v_i are a0 M u_i
   and a1 C u_i less the histories, and Kb u_i is fk1, so the sum is f.
   */
  lemma NewmarkEquilibriumAlgebra(c: NewmarkConstants, f: Vector, Ma: Vector, Cv: Vector,
                                  Mu: Vector, Cu: Vector, Ku: Vector, MhM: Vector, ChC: Vector)
    requires |Ma| == |Cv| == |Mu| == |Cu| == |Ku| == |MhM| == |ChC| == |f|
    requires Ma == VecSub(VecScale(c.a0, Mu), MhM) && Cv == VecSub(VecScale(c.a1, Cu), ChC)
    requires VecAdd(VecAdd(Ku, VecScale(c.a1, Cu)), VecScale(c.a0, Mu)) == VecAdd(VecAdd(f, MhM), ChC)
    ensures VecAdd(VecAdd(Ma, Cv), Ku) == f
  {
    var lhs := VecAdd(VecAdd(Ma, Cv), Ku);
    var l, r := VecAdd(VecAdd(Ku, VecScale(c.a1, Cu)), VecScale(c.a0, Mu)), VecAdd(VecAdd(f, MhM), ChC);
    forall k | 0 <= k < |f| ensures lhs[k] == f[k] {
      assert l[k] == r[k];
      assert l[k] == Ku[k] + c.a1 * Cu[k] + c.a0 * Mu[k];
      assert r[k] == f[k] + MhM[k] + ChC[k];
      assert Ma[k] == c.a0 * Mu[k] - MhM[k];
      assert Cv[k] == c.a1 * Cu[k] - ChC[k];
    }
  }

  /** Column i of (u, v, a) follows from column i - 1 by one Newmark step. */
  ghost predicate NewmarkStep(c: NewmarkConstants, M: Matrix, C: Matrix, KbInv: Matrix, f: Vector,
                              up: Vector, vp: Vector, ap: Vector, ui: Vector, vi: Vector, ai: Vector)
    requires |up| == |vp| == |ap| == |f| == |ui| == |vi| == |ai|
    requires IsMatrix(M, |f|, |f|) && IsMatrix(C, |f|, |f|) && IsMatrix(KbInv, |f|, |f|)
  {
    && ui == MatVec(KbInv, NewmarkForce(c, M, C, f, up, vp, ap))
    && ai == NewmarkAcceleration(c, ui, up, vp, ap)
    && vi == NewmarkVelocity(c, vp, ap, ai)
  }

  /**
   A Newmark step taken with an exact inverse of the effective stiffness
   satisfies the equation of motion and both Newmark relations.
   */
  lemma NewmarkStepFacts(dt: real, gama: real, beta: real, c: NewmarkConstants, M: Matrix, C: Matrix, K: Matrix,
                         KbInv: Matrix, f: Vector, up: Vector, vp: Vector, ap: Vector, ui: Vector, vi: Vector, ai: Vector)
    requires dt != 0.0 && beta != 0.0 && c == NewmarkConstantsOf(dt, gama, beta)
    requires |up| == |vp| == |ap| == |f| == |ui| == |vi| == |ai|
    requires IsMatrix(M, |f|, |f|) && IsMatrix(C, |f|, |f|) && IsMatrix(K, |f|, |f|)
    requires IsInverseOf(EffectiveStiffness(K, C, M, c), KbInv)
    requires NewmarkStep(c, M, C, KbInv, f, up, vp, ap, ui, vi, ai)
    ensures Equilibrium(M, C, K, ai, vi, ui, f)
    ensures vi == VecAdd(vp, VecScale(dt, VecAdd(VecScale(1.0 - gama, ap), VecScale(gama, ai))))
    ensures ui == VecAdd(VecAdd(up, VecScale(dt, vp)),
                         VecScale(dt * dt, VecAdd(VecScale(0.5 - beta, ap), VecScale(beta, ai))))
  {
    var fk1 := NewmarkForce(c, M, C, f, up, vp, ap);
    assert MatVec(EffectiveStiffness(K, C, M, c), MatVec(KbInv, fk1)) == fk1;
    NewmarkEquilibrium(dt, gama, beta, c, M, C, K, f, up, vp, ap, ui);
    NewmarkVelocityRelation(dt, gama, beta, c, vp, ap, ai);
    NewmarkDisplacementRelation(dt, gama, beta, c, ui, up, vp, ap, ai);
  }

  /**
   The column histories U, V, A (displacement, velocity, acceleration, one
   vector of length n per sample written so far) follow the Newmark recurrence:
   each column after the first is one Newmark step from the one before, under
   the load at its own sample.
   */
  ghost predicate NewmarkHistory(c: NewmarkConstants, M: Matrix, C: Matrix, KbInv: Matrix, fext: real -> Vector,
                                 t: seq<real>, n: nat, U: seq<Vector>, V: seq<Vector>, A: seq<Vector>)
    requires IsMatrix(M, n, n) && IsMatrix(C, n, n) && IsMatrix(KbInv, n, n)
  {
    && |U| == |V| == |A| <= |t|
    && (forall j :: 0 <= j < |U| ==> |U[j]| == n && |V[j]| == n && |A[j]| == n)
    && forall i {:trigger t[i]} :: 1 <= i < |U| ==>
         |fext(t[i])| == n && NewmarkStep(c, M, C, KbInv, fext(t[i]), U[i - 1], V[i - 1], A[i - 1], U[i], V[i], A[i])
  }

  /**
   Every column after the first satisfies the equation of motion at its
   sample and the two Newmark relations with the column before it.
   */
  ghost predicate NewmarkRelations(dt: real, gama: real, beta: real, M: Matrix, C: Matrix, K: Matrix,
                                   fext: real -> Vector, t: seq<real>, n: nat,
                                   U: seq<Vector>, V: seq<Vector>, A: seq<Vector>)
    requires IsMatrix(M, n, n) && IsMatrix(C, n, n) && IsMatrix(K, n, n)
  {
    && |U| == |V| == |A| <= |t|
    && (forall j :: 0 <= j < |U| ==> |U[j]| == n && |V[j]| == n && |A[j]| == n)
    && forall i :: 1 <= i < |U| ==>
         && |fext(t[i])| == n
         && Equilibrium(M, C, K, A[i], V[i], U[i], fext(t[i]))
         && V[i] == VecAdd(V[i - 1], VecScale(dt, VecAdd(VecScale(1.0 - gama, A[i - 1]), VecScale(gama, A[i]))))
         && U[i] == VecAdd(VecAdd(U[i - 1], VecScale(dt, V[i - 1])),
                           VecScale(dt * dt, VecAdd(VecScale(0.5 - beta, A[i - 1]), VecScale(beta, A[i]))))
  }

  /** A Newmark history computed with an exact inverse of Kb obeys the Newmark relations. */
  lemma NewmarkHistoryRelations(dt: real, gama: real, beta: real, c: NewmarkConstants, M: Matrix, C: Matrix, K: Matrix,
                                KbInv: Matrix, fext: real -> Vector, t: seq<real>, n: nat,
                                U: seq<Vector>, V: seq<Vector>, A: seq<Vector>)
    requires dt != 0.0 && beta != 0.0 && c == NewmarkConstantsOf(dt, gama, beta)
    requires IsMatrix(M, n, n) && IsMatrix(C, n, n) && IsMatrix(K, n, n) && IsMatrix(KbInv, n, n)
    requires IsInverseOf(EffectiveStiffness(K, C, M, c), KbInv)
    requires NewmarkHistory(c, M, C, KbInv, fext, t, n, U, V, A)
    ensures NewmarkRelations(dt, gama, beta, M, C, K, fext, t, n, U, V, A)
  {
    forall i | 1 <= i < |U|
      ensures Equilibrium(M, C, K, A[i], V[i], U[i], fext(t[i]))
      ensures V[i] == VecAdd(V[i - 1], VecScale(dt, VecAdd(VecScale(1.0 - gama, A[i - 1]), VecScale(gama, A[i]))))
      ensures U[i] == VecAdd(VecAdd(U[i - 1], VecScale(dt, V[i - 1])),
                             VecScale(dt * dt, VecAdd(VecScale(0.5 - beta, A[i - 1]), VecScale(beta, A[i]))))
    {
      NewmarkStepFacts(dt, gama, beta, c, M, C, K, KbInv, fext(t[i]), U[i - 1], V[i - 1], A[i - 1], U[i], V[i], A[i]);
    }
  }

  /** Appending one more Newmark step keeps a Newmark history. */
  lemma NewmarkHistoryExtend(c: NewmarkConstants, M: Matrix, C: Matrix, KbInv: Matrix, fext: real -> Vector,
                             t: seq<real>, n: nat, U: seq<Vector>, V: seq<Vector>, A: seq<Vector>,
                             f: Vector, up: Vector, vp: Vector, ap: Vector, ui: Vector, vi: Vector, ai: Vector)
    requires IsMatrix(M, n, n) && IsMatrix(C, n, n) && IsMatrix(KbInv, n, n)
    requires NewmarkHistory(c, M, C, KbInv, fext, t, n, U, V, A)
    requires 0 < |U| < |t| && f == fext(t[|U|]) && up == U[|U| - 1] && vp == V[|U| - 1] && ap == A[|U| - 1]
    requires |ui| == |vi| == |ai| == |f| == n
    requires NewmarkStep(c, M, C, KbInv, f, up, vp, ap, ui, vi, ai)
    ensures NewmarkHistory(c, M, C, KbInv, fext, t, n, U + [ui], V + [vi], A + [ai])
  {
    var U', V', A' := U + [ui], V + [vi], A + [ai];
    assert forall j :: 0 <= j < |U| ==> U'[j] == U[j] && V'[j] == V[j] && A'[j] == A[j];
    forall i | 1 <= i < |U'|
      ensures |fext(t[i])| == n
      ensures NewmarkStep(c, M, C, KbInv, fext(t[i]), U'[i - 1], V'[i - 1], A'[i - 1], U'[i], V'[i], A'[i])
    {
      if i < |U| {
        assert NewmarkStep(c, M, C, KbInv, fext(t[i]), U[i - 1], V[i - 1], A[i - 1], U[i], V[i], A[i]);
      } else {
        assert U'[i] == ui && V'[i] == vi && A'[i] == ai;
      }
    }
  }

  /**
   One pass of the Newmark time loop: column i of u, v and a becomes the
   Newmark step from column i - 1 under the load f, and no other column changes.
   */
  method NewmarkAdvance(c: NewmarkConstants, M: Matrix, C: Matrix, Kb: Matrix, inv: Matrix -> Matrix, f: Vector,
                        u: array2<real>, v: array2<real>, a: array2<real>, i: nat)
    requires u != v && v != a && u != a
    requires u.Length0 == v.Length0 == a.Length0 == |f|
    requires u.Length1 == v.Length1 == a.Length1 && 1 <= i < u.Length1
    requires IsMatrix(M, |f|, |f|) && IsMatrix(C, |f|, |f|) && IsMatrix(inv(Kb), |f|, |f|)
    modifies u, v, a
    ensures NewmarkStep(c, M, C, inv(Kb), f, old(Col(u, i - 1)), old(Col(v, i - 1)), old(Col(a, i - 1)),
                        Col(u, i), Col(v, i), Col(a, i))
    ensures forall j :: 0 <= j < u.Length1 && j != i ==>
      Col(u, j) == old(Col(u, j)) && Col(v, j) == old(Col(v, j)) && Col(a, j) == old(Col(a, j))
  {
    var up, vp, ap := Col(u, i - 1), Col(v, i - 1), Col(a, i - 1);
    var fk1 := NewmarkForce(c, M, C, f, up, vp, ap);
    var uk1 := MatVec(inv(Kb), fk1);
    SetCol(u, i, uk1);
    SetCol(a, i, NewmarkAcceleration(c, uk1, up, vp, ap));
    SetCol(v, i, NewmarkVelocity(c, vp, ap, Col(a, i)));
  }

  /**
   The time loop of the Newmark method: for i = 1, 2, ... every column i of
   u, v and a becomes the Newmark step from column i - 1, so that the columns
   form a Newmark history; column 0 is left as it was.
   */
  method NewmarkSweep(c: NewmarkConstants, M: Matrix, C: Matrix, Kb: Matrix, inv: Matrix -> Matrix,
                      fext: real -> Vector, t: seq<real>, u: array2<real>, v: array2<real>, a: array2<real>)
    requires u != v && v != a && u != a
    requires u.Length0 == v.Length0 == a.Length0
    requires u.Length1 == v.Length1 == a.Length1 == |t| > 0
    requires var n := u.Length0;
      IsMatrix(M, n, n) && IsMatrix(C, n, n) && IsMatrix(inv(Kb), n, n) && forall s {:trigger fext(s)} :: |fext(s)| == n
    modifies u, v, a
    ensures NewmarkHistory(c, M, C, inv(Kb), fext, t, u.Length0, Columns(u), Columns(v), Columns(a))
    ensures Col(u, 0) == old(Col(u, 0)) && Col(v, 0) == old(Col(v, 0)) && Col(a, 0) == old(Col(a, 0))
  {
    var n := u.Length0;
    ghost var KbInv := inv(Kb);
    // the columns written so far, as values
    ghost var us, vs, acs := [Col(u, 0)], [Col(v, 0)], [Col(a, 0)];
    for i := 1 to |t|
      invariant |us| == |vs| == |acs| == i
      invariant forall j :: 0 <= j < i ==> Col(u, j) == us[j] && Col(v, j) == vs[j] && Col(a, j) == acs[j]
      invariant us[0] == old(Col(u, 0)) && vs[0] == old(Col(v, 0)) && acs[0] == old(Col(a, 0))
      invariant NewmarkHistory(c, M, C, KbInv, fext, t, n, us, vs, acs)
      invariant forall s {:trigger fext(s)} :: |fext(s)| == n
    {
      var f := fext(t[i]);
      ghost var up, vp, ap := Col(u, i - 1), Col(v, i - 1), Col(a, i - 1);
      NewmarkAdvance(c, M, C, Kb, inv, f, u, v, a, i);
      ghost var ui, vi, ai := Col(u, i), Col(v, i), Col(a, i);
      NewmarkHistoryExtend(c, M, C, KbInv, fext, t, n, us, vs, acs, f, up, vp, ap, ui, vi, ai);
      us, vs, acs := us + [ui], vs + [vi], acs + [ai];
    }
    assert Columns(u) == us && Columns(v) == vs && Columns(a) == acs;
  }

  /**
   Newmark-beta integration over the grid `arange(0, tf, dt)`.
   Column 0 is set the way the program sets it: the acceleration column is
   written three times and ends up holding uo, while columns 0 of u and v are
   left as allocated. Every later column is one Newmark step from the one
   before, and each of them satisfies the equation of motion and the two
   Newmark relations.
   */
  method NewmarkLinear(M: Matrix, C: Matrix, K: Matrix, fext: real -> Vector, uo: Vector, vo: Vector,
                       tf: real, dt: real, gama: real, beta: real, inv: Matrix -> Matrix)
    returns (t: seq<real>, u: array2<real>, v: array2<real>, a: array2<real>)
    requires WellShaped(M, C, K, fext, uo, vo)
    requires dt != 0.0 && beta != 0.0 && tf / dt > 0.0
    requires IsInverseOf(M, inv(M))
    requires var Kb := EffectiveStiffness(K, C, M, NewmarkConstantsOf(dt, gama, beta));
      IsInverseOf(Kb, inv(Kb))
    ensures t == Arange(tf, dt) && |t| > 0
    ensures fresh(u) && fresh(v) && fresh(a) && u != v && v != a && u != a
    ensures u.Length0 == v.Length0 == a.Length0 == |uo|
    ensures u.Length1 == v.Length1 == a.Length1 == |t|
    ensures Col(a, 0) == uo
    ensures var c := NewmarkConstantsOf(dt, gama, beta);
      NewmarkHistory(c, M, C, inv(EffectiveStiffness(K, C, M, c)), fext, t, |uo|, Columns(u), Columns(v), Columns(a))
    ensures NewmarkRelations(dt, gama, beta, M, C, K, fext, t, |uo|, Columns(u), Columns(v), Columns(a))
  {
    var n := |uo|;
    t := Arange(tf, dt);
    var c := NewmarkConstantsOf(dt, gama, beta);
    var f := fext(0.0);
    var ao := InitialAcceleration(M, C, K, inv, f, uo, vo);
    a := new real[n, |t|];
    SetCol(a, 0, ao);
    v := new real[n, |t|];
    SetCol(a, 0, vo);
    u := new real[n, |t|];
    SetCol(a, 0, uo);
    var Kb := EffectiveStiffness(K, C, M, c);
    NewmarkSweep(c, M, C, Kb, inv, fext, t, u, v, a);
    NewmarkHistoryRelations(dt, gama, beta, c, M, C, K, inv(Kb), fext, t, n, Columns(u), Columns(v), Columns(a));
  }

  /**
   The acceleration column that `NewmarkLinear` starts from is not the initial
   acceleration: for one degree of freedom with M = K = 1, C = 0, uo = 1,
   vo = 0 and no load, the initial acceleration is -1 while column 0 of a
   holds uo = 1.
   */
  lemma NewmarkStartCounterexample(inv: Matrix -> Matrix)
    requires IsInverseOf([[1.0]], inv([[1.0]]))
    ensures InitialAcceleration([[1.0]], [[0.0]], [[1.0]], inv, [0.0], [1.0], [0.0]) == [-1.0]
  {
    var ao := InitialAcceleration([[1.0]], [[0.0]], [[1.0]], inv, [0.0], [1.0], [0.0]);
    var m, c, k := MatVec([[1.0]], ao), MatVec([[0.0]], [0.0]), MatVec([[1.0]], [1.0]);
    assert VecAdd(VecAdd(m, c), k) == [0.0];
    assert VecAdd(VecAdd(m, c), k)[0] == m[0] + c[0] + k[0];
    assert m[0] == ao[0] && c[0] == 0.0 && k[0] == 1.0;
    assert ao == [ao[0]];
  }

  /**
   Newmark-beta integration with column 0 set as intended: u, v and a start
   from uo, vo and the initial acceleration, so column 0 satisfies the
   equation of motion at instant 0, and every later column is one Newmark
   step from the one before.
   */
  method NewmarkLinearCorrected(M: Matrix, C: Matrix, K: Matrix, fext: real -> Vector, uo: Vector, vo: Vector,
                                tf: real, dt: real, gama: real, beta: real, inv: Matrix -> Matrix)
    returns (t: seq<real>, u: array2<real>, v: array2<real>, a: array2<real>)
    requires WellShaped(M, C, K, fext, uo, vo)
    requires dt != 0.0 && beta != 0.0 && tf / dt > 0.0
    requires IsInverseOf(M, inv(M))
    requires var Kb := EffectiveStiffness(K, C, M, NewmarkConstantsOf(dt, gama, beta));
      IsInverseOf(Kb, inv(Kb))
    ensures t == Arange(tf, dt) && |t| > 0
    ensures fresh(u) && fresh(v) && fresh(a) && u != v && v != a && u != a
    ensures u.Length0 == v.Length0 == a.Length0 == |uo|
    ensures u.Length1 == v.Length1 == a.Length1 == |t|
    ensures Col(u, 0) == uo && Col(v, 0) == vo
    ensures Col(a, 0) == InitialAcceleration(M, C, K, inv, fext(0.0), uo, vo)
    ensures Equilibrium(M, C, K, Col(a, 0), Col(v, 0), Col(u, 0), fext(0.0))
    ensures var c := NewmarkConstantsOf(dt, gama, beta);
      NewmarkHistory(c, M, C, inv(EffectiveStiffness(K, C, M, c)), fext, t, |uo|, Columns(u), Columns(v), Columns(a))
    ensures NewmarkRelations(dt, gama, beta, M, C, K, fext, t, |uo|, Columns(u), Columns(v), Columns(a))
  {
    var n := |uo|;
    t := Arange(tf, dt);
    var c := NewmarkConstantsOf(dt, gama, beta);
    var f := fext(0.0);
    var ao := InitialAcceleration(M, C, K, inv, f, uo, vo);
    a := new real[n, |t|];
    SetCol(a, 0, ao);
    v := new real[n, |t|];
    SetCol(v, 0, vo);
    u := new real[n, |t|];
    SetCol(u, 0, uo);
    var Kb := EffectiveStiffness(K, C, M, c);
    NewmarkSweep(c, M, C, Kb, inv, fext, t, u, v, a);
    NewmarkHistoryRelations(dt, gama, beta, c, M, C, K, inv(Kb), fext, t, n, Columns(u), Columns(v), Columns(a));
  }

  // ---------------------------------------------------------------------
  // Central-difference method
  // ---------------------------------------------------------------------

  /** The four central-difference constants. */
  datatype CentralConstants = CentralConstants(a0: real, a1: real, a2: real, a3: real)

  /** The constants for step dt, as powers of dt: 1/dt^2, 1/(2 dt), 2/dt^2 and dt^2/2. */
  function CentralConstantsOf(dt: real): (c: CentralConstants)
    requires dt != 0.0
    ensures c.a0 * (dt * dt) == 1.0 && c.a1 * (2.0 * dt) == 1.0
    ensures c.a2 * (dt * dt) == 2.0 && c.a3 == dt * dt / 2.0
  {
    var a0 := 1.0 / (dt * dt);
    var a2 := 2.0 * a0;
    assert a2 * (dt * dt) == 2.0 * (a0 * (dt * dt));
    CentralConstants(a0, 1.0 / (2.0 * dt), a2, 1.0 / a2)
  }

  /** The fictitious displacement one step before the start, `uo - dt vo + a3 ao`. */
  function CentralStarter(dt: real, c: CentralConstants, uo: Vector, vo: Vector, ao: Vector): (u1: Vector)
    requires dt != 0.0 && c == CentralConstantsOf(dt)
    requires |uo| == |vo| == |ao|
    ensures |u1| == |uo|
    ensures forall k :: 0 <= k < |uo| ==> u1[k] == uo[k] - dt * vo[k] + (dt * dt / 2.0) * ao[k]
  {
    VecAdd(VecSub(uo, VecScale(dt, vo)), VecScale(c.a3, ao))
  }

  /** The constant operator `a1 C + a0 M`. */
  function CentralOperator(M: Matrix, C: Matrix, c: CentralConstants): (Kb: Matrix)
    requires IsMatrix(M, |M|, |M|) && IsMatrix(C, |M|, |M|)
    ensures IsMatrix(Kb, |M|, |M|)
  {
    MatAdd(MatScale(c.a1, C), MatScale(c.a0, M))
  }

  /** Applying the central-difference operator is applying C and M and combining. */
  lemma CentralOperatorApply(M: Matrix, C: Matrix, c: CentralConstants, x: Vector)
    requires IsMatrix(M, |x|, |x|) && IsMatrix(C, |x|, |x|)
    ensures MatVec(CentralOperator(M, C, c), x) == VecAdd(VecScale(c.a1, MatVec(C, x)), VecScale(c.a0, MatVec(M, x)))
  {
    MatAddVec(MatScale(c.a1, C), MatScale(c.a0, M), x);
    MatScaleVec(c.a1, C, x);
    MatScaleVec(c.a0, M, x);
  }

  /** The three-point right-hand side `f - (a0 M - a1 C) u_{i-2} - (K - a2 M) u_{i-1}`. */
  function CentralForce(c: CentralConstants, M: Matrix, C: Matrix, K: Matrix, f: Vector,
                        u2: Vector, up: Vector): (fk1: Vector)
    requires |u2| == |up| == |f|
    requires IsMatrix(M, |f|, |f|) && IsMatrix(C, |f|, |f|) && IsMatrix(K, |f|, |f|)
    ensures |fk1| == |f|
  {
    VecSub(VecSub(f, MatVec(MatSub(MatScale(c.a0, M), MatScale(c.a1, C)), u2)),
           MatVec(MatSub(K, MatScale(c.a2, M)), up))
  }

  /** The three-point right-hand side in terms of the products M u, C u and K u. */
  lemma CentralForceForm(c: CentralConstants, M: Matrix, C: Matrix, K: Matrix, f: Vector, u2: Vector, up: Vector)
    requires |u2| == |up| == |f|
    requires IsMatrix(M, |f|, |f|) && IsMatrix(C, |f|, |f|) && IsMatrix(K, |f|, |f|)
    ensures CentralForce(c, M, C, K, f, u2, up)
         == VecSub(VecSub(f, VecSub(VecScale(c.a0, MatVec(M, u2)), VecScale(c.a1, MatVec(C, u2)))),
                   VecSub(MatVec(K, up), VecScale(c.a2, MatVec(M, up))))
  {
    MatSubVec(MatScale(c.a0, M), MatScale(c.a1, C), u2);
    MatScaleVec(c.a0, M, u2);
    MatScaleVec(c.a1, C, u2);
    MatSubVec(K, MatScale(c.a2, M), up);
    MatScaleVec(c.a2, M, up);
  }

  /** Central-difference velocity `a1 (u_i - u_{i-2})`. */
  function CentralVelocity(c: CentralConstants, ui: Vector, u2: Vector): (vi: Vector)
    requires |ui| == |u2|
    ensures |vi| == |ui|
  {
    VecScale(c.a1, VecSub(ui, u2))
  }

  /** Central-difference acceleration `a0 (u_i - 2 u_{i-1} + u_{i-2})`. */
  function CentralAcceleration(c: CentralConstants, ui: Vector, up: Vector, u2: Vector): (ai: Vector)
    requires |ui| == |up| == |u2|
    ensures |ai| == |ui|
  {
    VecScale(c.a0, VecAdd(VecSub(ui, VecScale(2.0, up)), u2))
  }

  /**
   The velocity and acceleration of the method are the centred difference
   quotients (u_i - u_{i-2}) / (2 dt) and (u_i - 2 u_{i-1} + u_{i-2}) / dt^2.
   */
  lemma CentralDifferenceQuotients(dt: real, c: CentralConstants, ui: Vector, up: Vector, u2: Vector)
    requires dt != 0.0 && c == CentralConstantsOf(dt)
    requires |ui| == |up| == |u2|
    ensures var vi := CentralVelocity(c, ui, u2);
      forall k :: 0 <= k < |ui| ==> vi[k] == (ui[k] - u2[k]) / (2.0 * dt)
    ensures var ai := CentralAcceleration(c, ui, up, u2);
      forall k :: 0 <= k < |ui| ==> ai[k] == (ui[k] - 2.0 * up[k] + u2[k]) / (dt * dt)
  {
    var vi, ai := CentralVelocity(c, ui, u2), CentralAcceleration(c, ui, up, u2);
    forall k | 0 <= k < |ui|
      ensures vi[k] == (ui[k] - u2[k]) / (2.0 * dt)
      ensures ai[k] == (ui[k] - 2.0 * up[k] + u2[k]) / (dt * dt)
    {
      assert vi[k] == c.a1 * (ui[k] - u2[k]);
      assert ai[k] == c.a0 * (ui[k] - 2.0 * up[k] + u2[k]);
    }
  }

  /** M applied to the centred second difference, and C to the centred first difference. */
  lemma CentralDifferenceForms(c: CentralConstants, M: Matrix, C: Matrix, u2: Vector, up: Vector, ui: Vector)
    requires |ui| == |up| == |u2|
    requires IsMatrix(M, |ui|, |ui|) && IsMatrix(C, |ui|, |ui|)
    ensures MatVec(M, CentralAcceleration(c, ui, up, u2))
         == VecScale(c.a0, VecAdd(VecSub(MatVec(M, ui), VecScale(2.0, MatVec(M, up))), MatVec(M, u2)))
    ensures MatVec(C, CentralVelocity(c, ui, u2)) == VecScale(c.a1, VecSub(MatVec(C, ui), MatVec(C, u2)))
  {
    var d2 := VecAdd(VecSub(ui, VecScale(2.0, up)), u2);
    MatVecScale(M, c.a0, d2);
    MatVecAdd(M, VecSub(ui, VecScale(2.0, up)), u2);
    MatVecSub(M, ui, VecScale(2.0, up));
    MatVecScale(M, 2.0, up);
    MatVecScale(C, c.a1, VecSub(ui, u2));
    MatVecSub(C, ui, u2);
  }

  /** One entry of the central-difference equilibrium. */
  lemma CentralEquilibriumEntry(c: CentralConstants, f: real, mui: real, mup: real, mu2: real,
                                cui: real, cu2: real, kup: real)
    requires c.a2 == 2.0 * c.a0
    requires c.a1 * cui + c.a0 * mui == f - (c.a0 * mu2 - c.a1 * cu2) - (kup - c.a2 * mup)
    ensures c.a0 * (mui - 2.0 * mup + mu2) + c.a1 * (cui - cu2) + kup == f
  {
    calc {
      c.a0 * (mui - 2.0 * mup + mu2) + c.a1 * (cui - cu2) + kup;
      (c.a1 * cui + c.a0 * mui) + c.a0 * mu2 - c.a1 * cu2 - c.a2 * mup + kup;
      f;
    }
  }

  /**
   The vector identity behind central-difference equilibrium: if
   a1 C u_i + a0 M u_i equals the three-point right-hand side, then
   a0 M (u_i - 2 u_{i-1} + u_{i-2}) + a1 C (u_i - u_{i-2}) + K u_{i-1} = f.
   */
  lemma CentralEquilibriumAlgebra(c: CentralConstants, f: Vector, Mui: Vector, Mup: Vector, Mu2: Vector,
                                  Cui: Vector, Cu2: Vector, Kup: Vector)
    requires c.a2 == 2.0 * c.a0
    requires |Mui| == |Mup| == |Mu2| == |Cui| == |Cu2| == |Kup| == |f|
    requires VecAdd(VecScale(c.a1, Cui), VecScale(c.a0, Mui))
          == VecSub(VecSub(f, VecSub(VecScale(c.a0, Mu2), VecScale(c.a1, Cu2))), VecSub(Kup, VecScale(c.a2, Mup)))
    ensures VecAdd(VecAdd(VecScale(c.a0, VecAdd(VecSub(Mui, VecScale(2.0, Mup)), Mu2)),
                          VecScale(c.a1, VecSub(Cui, Cu2))), Kup) == f
  {
    var lhs := VecAdd(VecAdd(VecScale(c.a0, VecAdd(VecSub(Mui, VecScale(2.0, Mup)), Mu2)),
                             VecScale(c.a1, VecSub(Cui, Cu2))), Kup);
    var l := VecAdd(VecScale(c.a1, Cui), VecScale(c.a0, Mui));
    var r := VecSub(VecSub(f, VecSub(VecScale(c.a0, Mu2), VecScale(c.a1, Cu2))), VecSub(Kup, VecScale(c.a2, Mup)));
    forall k | 0 <= k < |f| ensures lhs[k] == f[k] {
      assert l[k] == r[k];
      CentralEquilibriumEntry(c, f[k], Mui[k], Mup[k], Mu2[k], Cui[k], Cu2[k], Kup[k]);
    }
  }

  /**
   Central-difference equilibrium: once u_i solves (a1 C + a0 M) u_i = fk1,
   the velocity and acceleration derived from u_i and u_{i-2} satisfy
   M a_i + C v_i + K u_{i-1} = f(t_i), the equation taken at the middle point
   u_{i-1} with the load of sample i.
   */
  lemma CentralEquilibrium(dt: real, c: CentralConstants, M: Matrix, C: Matrix, K: Matrix,
                           f: Vector, u2: Vector, up: Vector, ui: Vector)
    requires dt != 0.0 && c == CentralConstantsOf(dt)
    requires |ui| == |up| == |u2| == |f|
    requires IsMatrix(M, |f|, |f|) && IsMatrix(C, |f|, |f|) && IsMatrix(K, |f|, |f|)
    requires MatVec(CentralOperator(M, C, c), ui) == CentralForce(c, M, C, K, f, u2, up)
    ensures Equilibrium(M, C, K, CentralAcceleration(c, ui, up, u2), CentralVelocity(c, ui, u2), up, f)
  {
    CentralOperatorApply(M, C, c, ui);
    CentralForceForm(c, M, C, K, f, u2, up);
    CentralDifferenceForms(c, M, C, u2, up, ui);
    CentralEquilibriumAlgebra(c, f, MatVec(M, ui), MatVec(M, up), MatVec(M, u2),
                              MatVec(C, ui), MatVec(C, u2), MatVec(K, up));
  }

  /**
   Column i of (u, v, a) follows by one central-difference step from the
   displacement u2 two samples back and up one sample back.
   */
  ghost predicate CentralStep(c: CentralConstants, M: Matrix, C: Matrix, K: Matrix, solve: (Matrix, Vector) -> Vector,
                              f: Vector, u2: Vector, up: Vector, ui: Vector, vi: Vector, ai: Vector)
    requires |u2| == |up| == |f| == |ui|
    requires IsMatrix(M, |f|, |f|) && IsMatrix(C, |f|, |f|) && IsMatrix(K, |f|, |f|)
  {
    && ui == solve(CentralOperator(M, C, c), CentralForce(c, M, C, K, f, u2, up))
    && vi == CentralVelocity(c, ui, u2)
    && ai == CentralAcceleration(c, ui, up, u2)
  }

  /** The displacement two samples before sample i of U: the starter for i = 1. */
  function Before(U: seq<Vector>, i: nat, starter: Vector): Vector
    requires 1 <= i <= |U| + 1
  {
    if i == 1 then starter else U[i - 2]
  }

  /**
   The column histories U, V, A follow the central-difference recurrence:
   each column after the first is one central-difference step from the two
   displacement columns before it, the starter standing in before column 0.
   */
  ghost predicate CentralHistory(c: CentralConstants, M: Matrix, C: Matrix, K: Matrix,
                                 solve: (Matrix, Vector) -> Vector, fext: real -> Vector, t: seq<real>, n: nat,
                                 starter: Vector, U: seq<Vector>, V: seq<Vector>, A: seq<Vector>)
    requires IsMatrix(M, n, n) && IsMatrix(C, n, n) && IsMatrix(K, n, n)
  {
    && |U| == |V| == |A| <= |t| && |starter| == n
    && (forall j :: 0 <= j < |U| ==> |U[j]| == n && |V[j]| == n && |A[j]| == n)
    && forall i {:trigger t[i]} :: 1 <= i < |U| ==>
         |fext(t[i])| == n && CentralStep(c, M, C, K, solve, fext(t[i]), Before(U, i, starter), U[i - 1], U[i], V[i], A[i])
  }

  /** Every column after the first satisfies the equation of motion at the displacement before it. */
  ghost predicate CentralRelations(M: Matrix, C: Matrix, K: Matrix, fext: real -> Vector, t: seq<real>, n: nat,
                                   U: seq<Vector>, V: seq<Vector>, A: seq<Vector>)
    requires IsMatrix(M, n, n) && IsMatrix(C, n, n) && IsMatrix(K, n, n)
  {
    && |U| == |V| == |A| <= |t|
    && (forall j :: 0 <= j < |U| ==> |U[j]| == n && |V[j]| == n && |A[j]| == n)
    && forall i :: 1 <= i < |U| ==>
         |fext(t[i])| == n && Equilibrium(M, C, K, A[i], V[i], U[i - 1], fext(t[i]))
  }

  /** A central-difference history computed with an exact solver obeys the equation of motion. */
  lemma CentralHistoryRelations(dt: real, c: CentralConstants, M: Matrix, C: Matrix, K: Matrix,
                                solve: (Matrix, Vector) -> Vector, fext: real -> Vector, t: seq<real>, n: nat,
                                starter: Vector, U: seq<Vector>, V: seq<Vector>, A: seq<Vector>)
    requires dt != 0.0 && c == CentralConstantsOf(dt)
    requires IsMatrix(M, n, n) && IsMatrix(C, n, n) && IsMatrix(K, n, n)
    requires IsSolverFor(solve, CentralOperator(M, C, c))
    requires CentralHistory(c, M, C, K, solve, fext, t, n, starter, U, V, A)
    ensures CentralRelations(M, C, K, fext, t, n, U, V, A)
  {
    forall i | 1 <= i < |U|
      ensures Equilibrium(M, C, K, A[i], V[i], U[i - 1], fext(t[i]))
    {
      var b := Before(U, i, starter);
      var fk1 := CentralForce(c, M, C, K, fext(t[i]), b, U[i - 1]);
      assert U[i] == solve(CentralOperator(M, C, c), fk1);
      CentralEquilibrium(dt, c, M, C, K, fext(t[i]), b, U[i - 1], U[i]);
    }
  }

  /** Appending one more central-difference step keeps a central-difference history. */
  lemma CentralHistoryExtend(c: CentralConstants, M: Matrix, C: Matrix, K: Matrix,
                             solve: (Matrix, Vector) -> Vector, fext: real -> Vector, t: seq<real>, n: nat,
                             starter: Vector, U: seq<Vector>, V: seq<Vector>, A: seq<Vector>,
                             f: Vector, u2: Vector, up: Vector, ui: Vector, vi: Vector, ai: Vector)
    requires IsMatrix(M, n, n) && IsMatrix(C, n, n) && IsMatrix(K, n, n)
    requires CentralHistory(c, M, C, K, solve, fext, t, n, starter, U, V, A)
    requires 0 < |U| < |t| && f == fext(t[|U|]) && u2 == Before(U, |U|, starter) && up == U[|U| - 1]
    requires |ui| == |vi| == |ai| == |f| == n
    requires CentralStep(c, M, C, K, solve, f, u2, up, ui, vi, ai)
    ensures CentralHistory(c, M, C, K, solve, fext, t, n, starter, U + [ui], V + [vi], A + [ai])
  {
    var U', V', A' := U + [ui], V + [vi], A + [ai];
    assert forall j :: 0 <= j < |U| ==> U'[j] == U[j] && V'[j] == V[j] && A'[j] == A[j];
    forall i | 1 <= i < |U'|
      ensures |fext(t[i])| == n
      ensures CentralStep(c, M, C, K, solve, fext(t[i]), Before(U', i, starter), U'[i - 1], U'[i], V'[i], A'[i])
    {
      assert Before(U', i, starter) == Before(U, i, starter);
      if i < |U| {
        assert CentralStep(c, M, C, K, solve, fext(t[i]), Before(U, i, starter), U[i - 1], U[i], V[i], A[i]);
      } else {
        assert U'[i] == ui && V'[i] == vi && A'[i] == ai;
      }
    }
  }

  /**
   One pass of the central-difference time loop: column i of u, v and a
   becomes the step from u1 (the displacement two samples back) and column
   i - 1 of u under the load f, and no other column changes.
   */
  method CentralAdvance(c: CentralConstants, M: Matrix, C: Matrix, K: Matrix, Kb: Matrix,
                        solve: (Matrix, Vector) -> Vector, f: Vector, u1: Vector,
                        u: array2<real>, v: array2<real>, a: array2<real>, i: nat)
    requires u != v && v != a && u != a
    requires u.Length0 == v.Length0 == a.Length0 == |f| == |u1|
    requires u.Length1 == v.Length1 == a.Length1 && 1 <= i < u.Length1
    requires IsMatrix(M, |f|, |f|) && IsMatrix(C, |f|, |f|) && IsMatrix(K, |f|, |f|)
    requires Kb == CentralOperator(M, C, c) && IsSolverFor(solve, Kb)
    modifies u, v, a
    ensures CentralStep(c, M, C, K, solve, f, u1, old(Col(u, i - 1)), Col(u, i), Col(v, i), Col(a, i))
    ensures forall j :: 0 <= j < u.Length1 && j != i ==>
      Col(u, j) == old(Col(u, j)) && Col(v, j) == old(Col(v, j)) && Col(a, j) == old(Col(a, j))
  {
    var up := Col(u, i - 1);
    var fk1 := CentralForce(c, M, C, K, f, u1, up);
    var uk1 := solve(Kb, fk1);
    SetCol(u, i, uk1);
    SetCol(v, i, CentralVelocity(c, Col(u, i), u1));
    SetCol(a, i, CentralAcceleration(c, Col(u, i), up, u1));
  }

  /**
   The time loop of the central-difference method: for i = 1, 2, ... every
   column i becomes the step from the two displacement columns before it,
   u_1 holding the one two samples back (the starter at first), so that the
   columns form a central-difference history; column 0 is left as it was.
   */
  method CentralSweep(c: CentralConstants, M: Matrix, C: Matrix, K: Matrix, Kb: Matrix,
                      solve: (Matrix, Vector) -> Vector, fext: real -> Vector, t: seq<real>, starter: Vector,
                      u: array2<real>, v: array2<real>, a: array2<real>)
    requires u != v && v != a && u != a
    requires u.Length0 == v.Length0 == a.Length0 == |starter|
    requires u.Length1 == v.Length1 == a.Length1 == |t| > 0
    requires var n := u.Length0;
      IsMatrix(M, n, n) && IsMatrix(C, n, n) && IsMatrix(K, n, n) && forall s {:trigger fext(s)} :: |fext(s)| == n
    requires Kb == CentralOperator(M, C, c) && IsSolverFor(solve, Kb)
    modifies u, v, a
    ensures CentralHistory(c, M, C, K, solve, fext, t, u.Length0, starter, Columns(u), Columns(v), Columns(a))
    ensures Col(u, 0) == old(Col(u, 0)) && Col(v, 0) == old(Col(v, 0)) && Col(a, 0) == old(Col(a, 0))
  {
    var n := u.Length0;
    var u1 := starter;
    // the columns written so far, as values
    ghost var us, vs, acs := [Col(u, 0)], [Col(v, 0)], [Col(a, 0)];
    for i := 1 to |t|
      invariant |us| == |vs| == |acs| == i
      invariant forall j :: 0 <= j < i ==> Col(u, j) == us[j] && Col(v, j) == vs[j] && Col(a, j) == acs[j]
      invariant us[0] == old(Col(u, 0)) && vs[0] == old(Col(v, 0)) && acs[0] == old(Col(a, 0))
      invariant i == 1 ==> u1 == starter
      invariant i > 1 ==> u1 == us[i - 2]
      invariant CentralHistory(c, M, C, K, solve, fext, t, n, starter, us, vs, acs)
      invariant forall s {:trigger fext(s)} :: |fext(s)| == n
    {
      var f := fext(t[i]);
      ghost var up := Col(u, i - 1);
      CentralAdvance(c, M, C, K, Kb, solve, f, u1, u, v, a, i);
      ghost var ui, vi, ai := Col(u, i), Col(v, i), Col(a, i);
      CentralHistoryExtend(c, M, C, K, solve, fext, t, n, starter, us, vs, acs, f, u1, up, ui, vi, ai);
      us, vs, acs := us + [ui], vs + [vi], acs + [ai];
      u1 := Col(u, i - 1);
    }
    assert Columns(u) == us && Columns(v) == vs && Columns(a) == acs;
  }

  /**
   Central-difference integration over the grid `arange(0, tf, dt)`.
   Column 0 holds the initial state and the initial acceleration; every later
   column is one central-difference step from the two displacement columns
   before it (the starter `uo - dt vo + dt^2/2 ao` standing in before column
   0) and satisfies the equation of motion at the middle point.
   */
  method CentralDifference(M: Matrix, C: Matrix, K: Matrix, fext: real -> Vector, uo: Vector, vo: Vector,
                           tf: real, dt: real, inv: Matrix -> Matrix, solve: (Matrix, Vector) -> Vector)
    returns (t: seq<real>, u: array2<real>, v: array2<real>, a: array2<real>)
    requires WellShaped(M, C, K, fext, uo, vo)
    requires dt != 0.0 && tf / dt > 0.0
    requires IsInverseOf(M, inv(M))
    requires IsSolverFor(solve, CentralOperator(M, C, CentralConstantsOf(dt)))
    ensures t == Arange(tf, dt) && |t| > 0
    ensures fresh(u) && fresh(v) && fresh(a) && u != v && v != a && u != a
    ensures u.Length0 == v.Length0 == a.Length0 == |uo|
    ensures u.Length1 == v.Length1 == a.Length1 == |t|
    ensures Col(u, 0) == uo && Col(v, 0) == vo
    ensures Col(a, 0) == InitialAcceleration(M, C, K, inv, fext(0.0), uo, vo)
    ensures Equilibrium(M, C, K, Col(a, 0), Col(v, 0), Col(u, 0), fext(0.0))
    ensures var c := CentralConstantsOf(dt);
      CentralHistory(c, M, C, K, solve, fext, t, |uo|, CentralStarter(dt, c, uo, vo, Col(a, 0)),
                     Columns(u), Columns(v), Columns(a))
    ensures CentralRelations(M, C, K, fext, t, |uo|, Columns(u), Columns(v), Columns(a))
  {
    var n := |uo|;
    t := Arange(tf, dt);
    var c := CentralConstantsOf(dt);
    var f := fext(0.0);
    var ao := InitialAcceleration(M, C, K, inv, f, uo, vo);
    a := new real[n, |t|];
    SetCol(a, 0, ao);
    v := new real[n, |t|];
    SetCol(v, 0, vo);
    u := new real[n, |t|];
    SetCol(u, 0, uo);
    var u1 := CentralStarter(dt, c, uo, vo, ao);
    var Kb := CentralOperator(M, C, c);
    CentralSweep(c, M, C, K, Kb, solve, fext, t, u1, u, v, a);
    CentralHistoryRelations(dt, c, M, C, K, solve, fext, t, n, u1, Columns(u), Columns(v), Columns(a));
  }
}
