# Structural dynamics: direct integration and modal superposition

This project models the numerical core of a small structural-dynamics
toolbox. The toolbox computes the response of a linear system
M a + C v + K u = f(t), with n degrees of freedom, in two ways.

- **Direct time integration** (`python/numeric_solutions.py`):
  - the implicit Newmark-beta method in displacement form (`newmark_linear`);
  - the explicit central-difference method (`diferencacentral`).

  Both fill preallocated n x T arrays u, v and a, one column per sample of the
  grid `arange(0, tf, dt)`.
- **Modal superposition** (`python/load_cases.py`), for three load models:
  - a harmonic load fo cos(omega t);
  - a rectangular pulse lasting until td (`Impulsive`);
  - a ramp rising to fo over tr (`Ramp`).

  Each load model has a `load(t)` function and a closed-form response of one
  principal coordinate. Its `modal_superposition` solves the generalised
  eigenproblem of (K, M), moves the problem to modal coordinates, fills a
  modal matrix `step` one row per mode, and returns u = phi @ step.

Modules:

- `LinAlg`: vectors and matrices over exact reals; products, sums and the
  transpose; the linearity lemmas.
- `TimeGrid`: the `arange` grid.
- `Array2D`: whole-column and whole-row reads and writes of `array2`.
- `NumericSolutions`: the two integrators, as imperative methods over `array2`.
  Each is proved against two recurrences:
  - a *history* predicate (each column is one step from the previous ones);
  - a *relations* predicate (the equation of motion and, for Newmark, the two
    Newmark relations). This is the physical meaning of the recurrence.
- `LoadCases`: the three load models as datatypes. Each has:
  - the load function, with its shape properties;
  - the closed-form modal response, with its value at instant 0 and the
    continuity of its branches;
  - the modal solver, as a method that fills `step` row by row.

Some parts of the program are foreign calls:

- `np.linalg.inv`, `np.linalg.solve`, `scipy.linalg.eigh` and the load
  callable `fext` become function-typed parameters.
- `inv` is required to invert the matrices it is applied to, and `solve` to
  solve the systems it is given.
- Of `eigh`, only the shapes of its results are assumed.
- cos, sin, exp and sqrt are bundled in the `LoadCases.Math` value. Its only
  assumed facts are cos 0 = 1, sin 0 = 0 and exp 0 = 1 (`Math.ExactAtZero`).

## Model

| member | source | states |
|---|---|---|
| TimeGrid.ArangeLength | python/numeric_solutions.py:45 | the grid length is 0 exactly when stop / step <= 0; otherwise it is the least integer not below stop / step |
| TimeGrid.Arange | python/numeric_solutions.py:45 | the grid has ArangeLength samples and sample k is k * step |
| TimeGrid.ArangeBounds | python/numeric_solutions.py:45 | for a positive step every sample lies in [0, stop), and the samples reach stop: \|t\| * step >= stop |
| TimeGrid.ArangeIncreasing | python/numeric_solutions.py:45 | for a positive step the samples strictly increase |
| TimeGrid.ModalGridLength | python/load_cases.py:87 | `arange(0, sim_time, sim_time / num_steps)` has exactly num_steps samples when num_steps > 0 and none when it is negative; sample k is k * sim_time / num_steps; for positive sim_time every sample lies in [0, sim_time) |
| Array2D.SetCol | python/numeric_solutions.py:85-87 | `a[:, j] = x` makes column j equal to x and leaves every other entry unchanged |
| Array2D.SetRow | python/load_cases.py:91 | `step[i, :] = x` makes row i equal to x and leaves every other row unchanged |
| NumericSolutions.InitialAcceleration | python/numeric_solutions.py:61-63 | `inv(M) @ (f - C vo - K uo)` is the acceleration that puts the initial state in equilibrium with f(0): M ao + C vo + K uo = f |
| NumericSolutions.NewmarkConstantsOf | python/numeric_solutions.py:51-58 | the two velocity-update weights add up to the step: a6 + a7 = dt |
| NumericSolutions.NewmarkConstantIdentities | python/numeric_solutions.py:51-58 | a6 = (1 - gama) dt and a7 = gama dt; beta dt^2 a0 = 1, beta dt^2 a2 = dt, beta dt^2 a3 = dt^2 (1/2 - beta); a7 a0 = a1, a7 a2 = a4 + 1 and a6 - a7 a3 = -a5 |
| NumericSolutions.EffectiveStiffness | python/numeric_solutions.py:72 | Kb = K + a1 C + a0 M is n x n; EffectiveStiffnessApply states what applying it means |
| NumericSolutions.EffectiveStiffnessApply | python/numeric_solutions.py:72 | applying Kb = K + a1 C + a0 M to x is K x + a1 C x + a0 M x |
| NumericSolutions.MassHistory | python/numeric_solutions.py:79 | entry k of the mass-side history is a0 u_k + a2 v_k + a3 a_k of the previous column; NewmarkUpdateForms shows the new acceleration is a0 u_i less it |
| NumericSolutions.DampingHistory | python/numeric_solutions.py:80 | entry k of the damping-side history is a1 u_k + a4 v_k + a5 a_k of the previous column; NewmarkUpdateForms shows the new velocity is a1 u_i less it |
| NumericSolutions.NewmarkForce | python/numeric_solutions.py:77-81 | the effective force has one entry per degree of freedom; NewmarkEquilibrium shows that Kb u_i = fk1 puts the step in equilibrium with f(t_i) |
| NumericSolutions.NewmarkAcceleration | python/numeric_solutions.py:86 | entry k of the new acceleration is a0 (u_i - u_{i-1}) - a2 v_{i-1} - a3 a_{i-1}; NewmarkDisplacementRelation shows it is the only a_i that satisfies the Newmark displacement relation |
| NumericSolutions.NewmarkVelocity | python/numeric_solutions.py:87 | entry k of the new velocity is v_{i-1} + a6 a_{i-1} + a7 a_i; NewmarkVelocityRelation shows it is the Newmark velocity relation |
| NumericSolutions.NewmarkVelocityRelation | python/numeric_solutions.py:87 | the velocity update is the Newmark velocity relation v_i = v_{i-1} + dt ((1 - gama) a_{i-1} + gama a_i) |
| NumericSolutions.NewmarkDisplacementEntry | python/numeric_solutions.py:86 | one entry of the displacement relation: u_i = u_{i-1} + dt v_{i-1} + dt^2 ((1/2 - beta) a_{i-1} + beta a_i) holds exactly when a_i is the entry the acceleration update derives from u_i |
| NumericSolutions.NewmarkDisplacementRelation | python/numeric_solutions.py:86 | for any a_i, the Newmark displacement relation u_i = u_{i-1} + dt v_{i-1} + dt^2 ((1/2 - beta) a_{i-1} + beta a_i) holds if and only if a_i is the acceleration update of u_i: the update is the one solution of the relation |
| NumericSolutions.NewmarkVelocityEntry | python/numeric_solutions.py:80-87 | one entry of the velocity update, written as a1 u_i minus the damping history a1 u + a4 v + a5 a |
| NumericSolutions.NewmarkUpdateForms | python/numeric_solutions.py:79-87 | the new acceleration is a0 u_i minus the mass history of line 79; the new velocity is a1 u_i minus the damping history of line 80 |
| NumericSolutions.NewmarkEquilibriumAlgebra | python/numeric_solutions.py:77-87 | the vector identity that turns Kb u_i = fk1 into M a_i + C v_i + K u_i = f |
| NumericSolutions.NewmarkEquilibrium | python/numeric_solutions.py:77-87 | if u_i solves Kb u_i = fk1, then the derived a_i and v_i satisfy M a_i + C v_i + K u_i = f(t_i) exactly |
| NumericSolutions.NewmarkStepFacts | python/numeric_solutions.py:76-87 | a step taken with an exact inverse of Kb satisfies the equation of motion and both Newmark relations |
| NumericSolutions.NewmarkHistoryExtend | python/numeric_solutions.py:74-87 | appending one Newmark step to a Newmark history gives a Newmark history |
| NumericSolutions.NewmarkHistoryRelations | python/numeric_solutions.py:74-87 | every column after the first of a Newmark history satisfies the equation of motion at its sample and both Newmark relations with the column before |
| NumericSolutions.NewmarkAdvance | python/numeric_solutions.py:76-87 | one loop pass: column i of u, v, a becomes the Newmark step from column i - 1 under f(t_i); every other column is unchanged |
| NumericSolutions.NewmarkSweep | python/numeric_solutions.py:74-87 | the loop makes the columns a Newmark history and leaves column 0 as it was |
| NumericSolutions.NewmarkLinear | python/numeric_solutions.py:8-88 | returns the grid `arange(0, tf, dt)` and fresh n x T arrays. Column 0 of a holds uo (the last of its three writes); every later column is one Newmark step from the one before and satisfies the equation of motion and the Newmark relations |
| NumericSolutions.NewmarkStartCounterexample | python/numeric_solutions.py:63-70 | for M = K = 1, C = 0, uo = 1, vo = 0 and no load, the initial acceleration is -1, not the uo = 1 that column 0 of a is left holding |
| NumericSolutions.NewmarkLinearCorrected | python/numeric_solutions.py:63-70 | Newmark integration with column 0 of u, v, a set to uo, vo, ao: column 0 is in equilibrium at instant 0, and every later column obeys the Newmark history and relations |
| NumericSolutions.CentralConstantsOf | python/numeric_solutions.py:121-124 | the constants as powers of dt: a0 dt^2 = 1, a1 (2 dt) = 1, a2 dt^2 = 2 and a3 = dt^2 / 2 |
| NumericSolutions.CentralStarter | python/numeric_solutions.py:137 | the fictitious displacement before the start is uo - dt vo + (dt^2 / 2) ao, entry by entry |
| NumericSolutions.CentralOperator | python/numeric_solutions.py:139 | a1 C + a0 M is n x n; CentralOperatorApply states what applying it means |
| NumericSolutions.CentralOperatorApply | python/numeric_solutions.py:139 | applying a1 C + a0 M to x is a1 C x + a0 M x |
| NumericSolutions.CentralForce | python/numeric_solutions.py:144 | the right-hand side has one entry per degree of freedom; CentralForceForm writes it out and CentralEquilibrium shows what solving against it gives |
| NumericSolutions.CentralVelocity | python/numeric_solutions.py:149 | the velocity has one entry per degree of freedom; CentralDifferenceQuotients shows it is (u_i - u_{i-2}) / (2 dt) |
| NumericSolutions.CentralAcceleration | python/numeric_solutions.py:150 | the acceleration has one entry per degree of freedom; CentralDifferenceQuotients shows it is (u_i - 2 u_{i-1} + u_{i-2}) / dt^2 |
| NumericSolutions.CentralForceForm | python/numeric_solutions.py:144 | the right-hand side is f - (a0 M u_{i-2} - a1 C u_{i-2}) - (K u_{i-1} - a2 M u_{i-1}) |
| NumericSolutions.CentralDifferenceQuotients | python/numeric_solutions.py:149-150 | v_i = (u_i - u_{i-2}) / (2 dt) and a_i = (u_i - 2 u_{i-1} + u_{i-2}) / dt^2, entry by entry |
| NumericSolutions.CentralDifferenceForms | python/numeric_solutions.py:149-150 | M a_i and C v_i are the same centred differences of M u and C u |
| NumericSolutions.CentralEquilibriumEntry | python/numeric_solutions.py:144-150 | one entry of the central-difference equilibrium identity |
| NumericSolutions.CentralEquilibriumAlgebra | python/numeric_solutions.py:144-150 | the vector identity that turns (a1 C + a0 M) u_i = fk1 into M a_i + C v_i + K u_{i-1} = f |
| NumericSolutions.CentralEquilibrium | python/numeric_solutions.py:143-150 | if u_i solves (a1 C + a0 M) u_i = fk1, the derived v_i and a_i satisfy M a_i + C v_i + K u_{i-1} = f(t_i) |
| NumericSolutions.CentralHistoryExtend | python/numeric_solutions.py:141-151 | appending one central-difference step to a central-difference history gives one |
| NumericSolutions.CentralHistoryRelations | python/numeric_solutions.py:141-151 | every column after the first of a history computed with an exact solver satisfies the equation of motion at the displacement before it |
| NumericSolutions.CentralAdvance | python/numeric_solutions.py:143-150 | one loop pass: column i becomes the step from u_1 and column i - 1 of u; every other column is unchanged |
| NumericSolutions.CentralSweep | python/numeric_solutions.py:141-151 | the loop makes the columns a central-difference history, with u_1 starting at the starter and then trailing one column behind; column 0 is unchanged |
| NumericSolutions.CentralDifference | python/numeric_solutions.py:91-152 | returns the grid and fresh arrays. Column 0 holds uo, vo and ao and is in equilibrium at instant 0. Every later column i is the central-difference step from the starter or the two columns before, and satisfies M a_i + C v_i + K u_{i-1} = f(t_i): the load of sample i meets the displacement of sample i - 1 |
| LoadCases.AtMost | python/load_cases.py:132 | `t[t <= s]` keeps at most \|t\| samples, all of them <= s |
| LoadCases.Above | python/load_cases.py:135 | `t[t > s]` keeps at most \|t\| samples, all of them > s |
| LoadCases.SplitLengths | python/load_cases.py:132-140 | the two masks together keep exactly \|t\| samples |
| LoadCases.SplitMultiset | python/load_cases.py:132-140 | the two masks together keep exactly the samples of the grid |
| LoadCases.AllAbove | python/load_cases.py:132-135 | when every sample is after s, the first mask is empty and the second keeps the whole grid |
| LoadCases.SplitIncreasing | python/load_cases.py:140 | on an increasing grid the two pieces, concatenated, give the grid back in order |
| LoadCases.Piecewise | python/load_cases.py:132-140 | `[*f(t1), *g(t2)]` has one value per sample; on an increasing grid value k is f(t[k]) when t[k] <= s and g(t[k]) otherwise |
| LoadCases.Frequencies | python/load_cases.py:70 | `np.sqrt(omega2)` is taken entry by entry: w_i = sqrt(omega2_i) |
| LoadCases.Congruent | python/load_cases.py:73-75 | `phi.T @ A @ phi` is n x n, and its entry i, j is mode i against A applied to mode j: phi_i . (A phi_j), the modes being the columns of phi |
| LoadCases.ProjectThrough | python/load_cases.py:79-83 | `phi.T @ A @ x` has n entries, entry i being mode i against A applied to x: phi_i . (A x) |
| LoadCases.DampingCoefficients | python/load_cases.py:85 | ni_i = Cp_ii / (2 Mp_ii), that is 2 Mp_ii ni_i = Cp_ii |
| LoadCases.BackTransformColumn | python/load_cases.py:94 | column k of phi @ step is phi applied to column k of step |
| LoadCases.SteadyStateAlgebra | python/load_cases.py:31-40 | Q = A F / d and R = B F / d with d = A^2 + B^2 solve A Q + B R = F and A R - B Q = 0 |
| LoadCases.Harmonic.Load | python/load_cases.py:24 | the harmonic load at instant 0 is fo |
| LoadCases.Harmonic.Coefficients | python/load_cases.py:30-42 | Qi and Ri are the steady-state amplitudes: (omega_i^2 - omega^2) Qi + 2 ni_i omega Ri = Fpi and (omega_i^2 - omega^2) Ri - 2 ni_i omega Qi = 0. C1 and C2 match the initial state: C1 + Qi = up_i and -ni_i C1 + omegad C2 + omega Ri = vp_i |
| LoadCases.Harmonic.ResponseAt | python/load_cases.py:43-47 | the closed form at instant 0 is the initial modal displacement up_i |
| LoadCases.Harmonic.Response | python/load_cases.py:26-48 | the response over a grid has one value per sample, the closed form at that sample |
| LoadCases.Harmonic.Modes | python/load_cases.py:89-91 | the modal matrix is n x T, and row i is the response of mode i |
| LoadCases.Harmonic.ModalStart | python/load_cases.py:81-94 | at the first sample (instant 0) the superposed displacement is phi @ up |
| LoadCases.Harmonic.ModalSteps | python/load_cases.py:68-91 | the modal matrix of the whole problem is n x T |
| LoadCases.Harmonic.ModalSuperposition | python/load_cases.py:50-95 | returns `arange(0, sim_time, sim_time / num_steps)`, of num_steps samples, and u = phi @ step, where row i of step is the harmonic response of mode i from its modal frequency, damping coefficient, initial state and load |
| LoadCases.Impulsive.Load | python/load_cases.py:117 | the pulse is fo up to td and 0 after it |
| LoadCases.Impulsive.LoadNonIncreasing | python/load_cases.py:117 | for fo >= 0 the pulse never grows: 0 <= load(t2) <= load(t1) <= fo whenever t1 <= t2 |
| LoadCases.Impulsive.During | python/load_cases.py:133 | the forced branch starts from rest: it is 0 at instant 0 |
| LoadCases.Impulsive.After | python/load_cases.py:136-139 | at td the free branch takes the value of the forced branch, so the displacement is continuous when the pulse ends |
| LoadCases.Impulsive.Response | python/load_cases.py:119-140 | on an increasing grid value k is the forced branch when t[k] <= td and the free branch otherwise; there is always one value per sample |
| LoadCases.Impulsive.ResponseAtZero | python/load_cases.py:132-133 | if td >= 0, the mode is at rest at instant 0 |
| LoadCases.Impulsive.Modes | python/load_cases.py:170-172 | the modal matrix is n x T, and row i is the response of mode i with Kp_ii, Fp_i and omega_i |
| LoadCases.Impulsive.ModalStart | python/load_cases.py:170-174 | if td >= 0, the superposed displacement at instant 0 is zero |
| LoadCases.Impulsive.ModalSuperposition | python/load_cases.py:142-175 | returns the grid of num_steps samples and u = phi @ step, where row i of step is the pulse response of mode i with Kp = phiᵀ K phi and Fp = phiᵀ fo |
| LoadCases.Ramp.Load | python/load_cases.py:197 | the ramp is fo from tr on, and 0 at instant 0 when tr > 0 |
| LoadCases.Ramp.LoadRising | python/load_cases.py:197 | while rising, the load is the fraction t / tr of fo: load(t) tr = fo t |
| LoadCases.Ramp.LoadBounds | python/load_cases.py:197 | for tr > 0 and fo >= 0 the load stays in [0, fo] from instant 0 on |
| LoadCases.Ramp.RisingMonotone | python/load_cases.py:197 | while rising, a later instant carries at least as much load |
| LoadCases.Ramp.RisingBelowTop | python/load_cases.py:197 | any instant of the rise carries at most fo |
| LoadCases.Ramp.RisingBelowConstant | python/load_cases.py:197 | an instant of the rise carries no more load than one after tr |
| LoadCases.Ramp.LoadMonotone | python/load_cases.py:197 | for tr > 0 and fo >= 0 the load never decreases |
| LoadCases.Ramp.Rising | python/load_cases.py:214-216 | the rising branch starts from rest: it is 0 at instant 0 |
| LoadCases.Ramp.Constant | python/load_cases.py:219-223 | at tr the constant branch takes the value of the rising branch, so the displacement is continuous when the load stops rising |
| LoadCases.Ramp.Response | python/load_cases.py:199-224 | on an increasing grid value k is the rising branch when t[k] <= tr and the constant branch otherwise; there is always one value per sample |
| LoadCases.Ramp.ResponseAtZero | python/load_cases.py:213-216 | if tr > 0, the mode is at rest at instant 0 |
| LoadCases.Ramp.Modes | python/load_cases.py:254-256 | the modal matrix is n x T, and row i is the response of mode i with Kp_ii, Fp_i and omega_i |
| LoadCases.Ramp.ModalStart | python/load_cases.py:254-258 | if tr > 0, the superposed displacement at instant 0 is zero |
| LoadCases.Ramp.ModalSuperposition | python/load_cases.py:226-259 | returns the grid of num_steps samples and u = phi @ step, where row i of step is the ramp response of mode i with Kp = phiᵀ K phi and Fp = phiᵀ fo |

## Left out

- Floating point: everything is over exact reals. `arange`'s float length
  quirks, rounding, overflow and NaN are not modelled.
- Division by zero: the model states as preconditions the cases where the
  program would divide by zero or produce NaN. These are:
  - dt = 0 and beta = 0 in the integrators;
  - sim_time = 0 and num_steps = 0 in the modal grid
    `arange(0, sim_time, sim_time / num_steps)` (TimeGrid.ModalGridLength
    and the three `ModalSuperposition` methods);
  - tr = 0 in `Ramp.load` when t <= tr, and omega_i tr = 0 in the ramp
    response;
  - a zero modal mass Mp_ii or stiffness Kp_ii;
  - a zero damped frequency or harmonic denominator.
- Empty grid: the integrators require tf / dt > 0, because on an empty grid
  the program's own `a[:, 0]` write raises IndexError. The model has no
  exception path for it.
- The linear-algebra backend, the eigensolver, the load callable and cos,
  sin, exp and sqrt are parameters, not definitions.
  - `inv` is trusted to invert M and Kb, and `solve` to solve with
    a1 C + a0 M.
  - `eigh` is trusted only for the shapes of its results. Its eigenvector
    property (phiᵀ M phi = I, phiᵀ K phi diagonal) is not assumed, so
    decoupling is not proved.
- The dead `np.zeros` allocations before the `np.empty` ones are not modelled;
  only the final arrays are. A Dafny `array2` starts with arbitrary values, as
  `np.empty` does.
- LoadCases.Harmonic.ResponseAt: the closed form is checked only at
  instant 0 and for its constants. That the full expression solves the modal
  equation of motion needs derivatives of cos, sin and exp, which are not
  modelled.
- LoadCases.Impulsive.ModalSuperposition: the unused `u0` argument is kept,
  as in the program, but does not influence the result.
- Accuracy and stability of the two integrators (conditional stability of the
  central-difference method, unconditional stability of average acceleration)
  are not stated.
- The Newmark velocity and acceleration relations are proved exactly. How
  well they approximate the continuous problem is not.
- Mesh assembly, plotting, I/O and the command-line drivers are not part of
  this model.

Two places where the code does something other than what its surroundings
suggest; the model follows the code.

- `newmark_linear` writes column 0 of `a` three times
  (python/numeric_solutions.py:65-70): ao, then vo, then uo. Columns 0 of u
  and v are left as allocated. `diferencacentral` at
  python/numeric_solutions.py:131-136 instead sets a, v and u to ao, vo and
  uo. See Findings.
- `diferencacentral` pairs the load of sample i with the displacement of
  sample i - 1 (python/numeric_solutions.py:143-150), so the three-point
  recurrence it follows is
  M (u_i - 2 u_{i-1} + u_{i-2}) / dt^2 + C (u_i - u_{i-2}) / (2 dt) + K u_{i-1} = f(t_i).
  Columns v[:, i] and a[:, i] hold the centred velocity and acceleration
  about instant t_{i-1}. The modelled relation is
  M a_i + C v_i + K u_{i-1} = f(t_i), exactly what the code computes.

## Findings

| source | as written | input that shows it | evidently intended | confidence | as-written member | corrected member |
|---|---|---|---|---|---|---|
| python/numeric_solutions.py:68-70 | `a[:, 0] = vo` and `a[:, 0] = uo` overwrite the initial acceleration; u[:, 0] and v[:, 0] stay uninitialised | M = K = [[1]], C = [[0]], uo = [1], vo = [0], fext = 0: ao = [-1] but a[:, 0] = [1] | `v[:, 0] = vo` and `u[:, 0] = uo`, as in `diferencacentral` | high, not executed | NumericSolutions.NewmarkLinear, NumericSolutions.NewmarkStartCounterexample | NumericSolutions.NewmarkLinearCorrected |
