# Mass–spring–damper stability model

A Dafny model of the computational core of a Streamlit tool that studies the
linear oscillator m·x'' + c·x' + k·x = 0. The model covers two parts.

- **The "System Characteristics" panel.** `log_system_properties` in
  `app/app.py` computes p = -c/m, q = k/m and the discriminant
  delta = (c/m)² - 4k/m. It labels the damping regime with an if/elif chain and
  shows the two characteristic roots (p ± delta^0.5)/2.
- **The phase-plane figure.** `generate_phase_plot` in `app/damper/plots.py`:
  - a 25×25 grid over [-5, 5]²;
  - nested loops that fill the derivative arrays DY1 and DY2;
  - normalisation of each vector to unit length, with zero lengths replaced by 1;
  - a fixed catalogue of 24 seed states, sliced by `n_lines`;
  - one integrated trajectory per seed, with an arrow from its second sample to
    its third.

Numbers are exact reals. Python's square root, numpy's `hypot` and scipy's
`odeint` are function-valued parameters. Ghost predicates constrain them:

- `IsSqrt`: a non-negative root with s·s = x;
- `IsHypot`: a non-negative length with h² = a² + b²;
- `IsOdeint`: one sample per time point, starting at the seed.

Files:

- `damper_input.dfy` (module `DamperInput`) holds the parameter records of
  `app/damper/input.py`. It also holds `Outcome`, which stands for a result or a
  raised `ZeroDivisionError`.
- `real_facts.dfy` (module `RealFacts`) holds the square `Sq` and two facts about
  products and squares of reals that both of the following modules use.
- `stability.dfy` (module `Stability`) holds the regime classifier and the roots.
- `phase_field.dfy` (module `PhaseField`) holds the grid, the derivative, the
  field-filling loops, and the in-place normalisation on `array2<real>`.
- `trajectories.dfy` (module `Trajectories`) holds the seed catalogue, Python's
  `[:n]` slice, `t_phase`, the arrow, and the trajectory loop.
- `phase_plot.dfy` (module `PhasePlot`) holds `generate_phase_plot` as a whole.

Two behaviours of the code shape the model:

- **Roots when delta < 0.** `delta**0.5` on a negative Python float is a
  complex number. So `Roots` returns the conjugate pair p/2 ± i·√(-delta)/2.
- **m == 0.** `-c_val / m_val` on Python floats raises `ZeroDivisionError`,
  and the mass slider (app/app.py:50-56) allows 0. Both `LogSystemProperties`
  and `GeneratePhasePlot` return `ZeroDivisionError` exactly when m == 0.

## Model

| member | source | states |
|---|---|---|
| Stability.P | app/app.py:17 | p·m = -c |
| Stability.Q | app/app.py:18 | q·m = k |
| Stability.IsClose | app/app.py:23 | np.isclose(c, 0) holds exactly when -1e-8 ≤ c ≤ 1e-8 |
| Stability.Delta | app/app.py:19 | delta is the discriminant p² - 4q of λ² - pλ + q, and delta·m² = c² - 4km |
| Stability.Classify | app/app.py:23-34 | c close to 0 gives "no damping"; otherwise underdamped, critical and overdamped hold exactly when delta is <0, =0 and >0; "Unstable" and "Other" are unreachable |
| Stability.LogSystemProperties | app/app.py:16-41 | it raises exactly when m == 0; otherwise p and q are P and Q (so p·m = -c, q·m = k), delta = p² - 4q, (λ1, λ2) are Roots in that order, λ1 + λ2 = p, λ1·λ2 = q, both roots solve m·λ² + c·λ + k = 0, λ1 ≥ λ2 when the roots are real, λ1 has positive imaginary part when delta < 0, and the regime follows the sign of delta |
| Stability.Roots | app/app.py:40-41 | for delta ≥ 0 both roots are real; for delta < 0 they are a conjugate pair with real part p/2 (sum, product and root facts are in RootsVieta, RootsSolveCharacteristicEquation and RealRootsOrdered) |
| Stability.RootsVieta | app/app.py:40-41 | the displayed roots, real or complex, have sum p and product q |
| Stability.RootOfMonicIsRoot | app/app.py:17-19 | a root of λ² - pλ + q is a root of m·λ² + c·λ + k |
| Stability.RootsSolveCharacteristicEquation | app/app.py:40-41 | both displayed roots are zeros of the characteristic polynomial |
| Stability.RootsOrder | app/app.py:40-41 | the `+` root is displayed first: λ1 ≥ λ2 when delta ≥ 0, and λ1 lies in the upper half-plane when delta < 0 |
| Stability.RealRootsOrdered | app/app.py:40-41 | for delta ≥ 0 both roots are real with λ1 ≥ λ2, equal exactly when delta = 0 |
| Stability.CriticalDoubleRoot | app/app.py:27-28 | in the critical case both roots are the real double root -c/(2m) |
| Stability.OverdampedRootsNegative | app/app.py:29-30 | for positive m, c, k the overdamped roots are real and negative, λ2 ≤ λ1 < 0, so the origin attracts |
| Stability.UnderdampedSpiralStable | app/app.py:25-26 | for positive m, c the underdamped roots are a conjugate pair with negative real part: a stable, attracting spiral |
| Stability.UndampedCentre | app/app.py:23-24 | with c = 0 the label is "no damping", and the roots are purely imaginary ±i·√(k/m), with λ1 in the upper half-plane and λ2 its conjugate: a centre |
| Stability.NoDampingWhateverDelta | app/app.py:23-24 | the np.isclose test takes precedence over delta: c = 1e-9, m = 1e-10, k = 0 has delta > 0 yet is labelled "no damping" |
| Stability.DefaultParametersUnderdamped | app/app.py:6-13 | the start-up parameters m = k = c = 1 give delta = -3 and the underdamped label |
| Stability.CriticalExample | app/app.py:27-28 | c = 2, m = k = 1 is critical with double root -1 |
| PhaseField.GridAxis | app/damper/plots.py:24-25 | the linspace values lie in [-5, 5], start at -5, end at 5 and are zero exactly at index 12 |
| PhaseField.GridPoint | app/damper/plots.py:26 | meshgrid cell (i, j) lies in the square and is the origin exactly at (12, 12) |
| PhaseField.Derivatives | app/damper/plots.py:28-32 | dy1/dt is the velocity, and m·dy2/dt + c·y2 + k·y1 = 0, the governing equation |
| PhaseField.DerivativesLinear | app/damper/plots.py:28-32 | the field is linear in the state |
| PhaseField.DerivativesHomogeneous | app/damper/plots.py:28-32 | the field is homogeneous and odd: f(a·y) = a·f(y), f(-y) = -f(y) |
| PhaseField.DerivativesZero | app/damper/plots.py:28-32 | the field vanishes exactly where the velocity is 0 and k·position = 0 |
| PhaseField.FieldZeroCells | app/damper/plots.py:35-45 | the raw grid field is zero exactly in row 12, and there only at column 12 unless k = 0 |
| PhaseField.EvaluateField | app/damper/plots.py:35-45 | the nested loops leave every cell (i, j) of DY1, DY2 equal to the derivative at grid point (i, j) |
| PhaseField.Magnitudes | app/damper/plots.py:48 | M is a new array whose every cell is hypot of the two components |
| PhaseField.ReplaceZeros | app/damper/plots.py:49 | zero entries of M become 1, all others are kept, and afterwards no entry is zero |
| PhaseField.DivideBy | app/damper/plots.py:50-51 | every entry becomes old entry / M, so new entry · M = old entry |
| PhaseField.NormalizedCell | app/damper/plots.py:49-51 | one cell after the guard and the division: unchanged when its length is 0, otherwise the cell times its length gives back the raw vector |
| PhaseField.NormalizeField | app/damper/plots.py:48-51 | every cell becomes its normalised value; with a true hypot, zero cells stay zero and all others have unit length |
| PhaseField.LengthZero | app/damper/plots.py:48-49 | a true length is zero exactly for the zero vector, so the M == 0 guard fires exactly there |
| PhaseField.QuotientUnit | app/damper/plots.py:50-51 | dividing both components by the length gives a unit vector |
| PhaseField.NormalizedCellUnit | app/damper/plots.py:48-51 | a normalised zero vector stays zero; any other vector becomes v divided by its length, a positive multiple of unit length |
| Trajectories.InitialConditionList | app/damper/plots.py:65-90 | the catalogue has 24 entries, the first is (x0, v0), and entry i scales x0 and v0 by the i-th multiplier pair |
| Trajectories.MultipliersMirrored | app/damper/plots.py:65-90 | the 24 multiplier pairs come as twelve pairs, each followed by its negation |
| Trajectories.CatalogueMirrored | app/damper/plots.py:65-90 | every odd catalogue entry is the point reflection of the entry before it |
| Trajectories.MirroredSeedsOppose | app/damper/plots.py:65-90 | mirrored seeds start out in exactly opposite field directions |
| Trajectories.PyPrefix | app/damper/plots.py:93 | the slice is a prefix of its length under Python's rules for positive, oversized and negative n |
| Trajectories.Seeds | app/damper/plots.py:93 | the seeds drawn are a prefix of the catalogue |
| Trajectories.SeedsCount | app/damper/plots.py:93 | for 0 ≤ n_lines ≤ 24 exactly the first n_lines catalogue entries are drawn, in order |
| Trajectories.SeedsDefault | app/damper/plots.py:93 | n_lines = 1 draws only (x0, v0) |
| Trajectories.SeedsOutOfRange | app/damper/plots.py:93 | n_lines ≥ 24 draws all 24 seeds; a negative n_lines drops seeds from the end |
| Trajectories.PhaseTimes | app/damper/plots.py:62 | t_phase has 200 strictly increasing samples from 0 to 50 |
| Trajectories.ArrowFor | app/damper/plots.py:100-109 | the arrow runs from the second solution sample to the third |
| Trajectories.DrawTrajectories | app/damper/plots.py:92-113 | one solution per seed, in seed order: it is odeint of that seed over t_phase, has 200 samples and starts at the seed, and its arrow runs from sample 1 to sample 2 |
| PhasePlot.GeneratePhasePlot | app/damper/plots.py:23-117 | m == 0 raises; otherwise the quiver field is the normalised derivative on the grid, unit length or zero, zero at the centre, and the trajectories and arrows are as above |

## Left out

- The Streamlit user interface is not modelled: sidebar, sliders, session state, tabs, `main` and `init_state`. The same goes for the Markdown text of the panel, including its `:.2f` rounding, and for all matplotlib drawing: figure, axes, limits, colours, labels and `axis("equal")`.
- `generate_time_evolution_plot` and `app/damper/solver.py` (symbolic `dsolve`) are outside the modelled core.
- IEEE-754 floating point is not modelled: the model computes over exact reals. Rounding, overflow and the tiny real part that floating point gives `delta**0.5` for delta < 0 are not captured.
- Python's `** 0.5`, `np.hypot` and `odeint` are parameters, not computed. Their only assumed properties are those stated by `IsSqrt`, `IsHypot` and `IsOdeint`. The numerical integration itself, and how close its samples come to the exact solution, are not modelled.
- PhaseField.NormalizeField: unit length is promised only for a `hypot` that satisfies `IsHypot`. For any other `hypot` only the cell-by-cell formula is stated.
- The 2-D arrays Y1 and Y2 built by `np.meshgrid` are not materialised. Each cell's coordinates are given by `GridPoint`.
- numpy evaluates `np.hypot`, `M[M == 0] = 1.0` and `D /= M` as whole-array operations. The model writes them as Dafny `forall` statements, not as loops.
