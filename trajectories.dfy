/**
 * The seeded trajectories of the phase plot in app/damper/plots.py: the fixed
 * catalogue of 24 initial states, its Python slice by n_lines, the integration of
 * each seed over t_phase, and the red arrow drawn from the second to the third
 * sample of each solution.
 */
module Trajectories {

  import opened DamperInput
  import opened PhaseField

  /** The 24 (position, velocity) multipliers of `initial_conditions`, in source order. */
  const Multipliers: seq<(real, real)> := [
    (1.0, 1.0), (-1.0, -1.0), (1.0, -1.0), (-1.0, 1.0),
    (0.5, 0.5), (-0.5, -0.5), (0.5, -0.5), (-0.5, 0.5),
    (2.0, 2.0), (-2.0, -2.0), (2.0, -2.0), (-2.0, 2.0),
    (0.0, 1.0), (0.0, -1.0), (1.0, 0.0), (-1.0, 0.0),
    (0.0, 2.0), (0.0, -2.0), (2.0, 0.0), (-2.0, 0.0),
    (0.0, 0.5), (0.0, -0.5), (0.5, 0.0), (-0.5, 0.0)
  ]

  const CatalogueSize: nat := 24

  /** `initial_conditions`: (x0·a, v0·b) for each multiplier pair (a, b). */
  function InitialConditionList(x0: real, v0: real): (r: seq<Vec>)
    ensures |r| == CatalogueSize
    ensures r[0] == Vec(x0, v0)
    ensures forall i :: 0 <= i < |r| ==>
              r[i].x == x0 * Multipliers[i].0 && r[i].y == v0 * Multipliers[i].1
  {
    seq(CatalogueSize, i requires 0 <= i < CatalogueSize => Vec(x0 * Multipliers[i].0, v0 * Multipliers[i].1))
  }

  /** The multipliers come in twelve pairs, each followed by its negation. */
  lemma MultipliersMirrored()
    ensures forall i :: 0 <= i < CatalogueSize && i % 2 == 1 ==>
              Multipliers[i] == (-Multipliers[i - 1].0, -Multipliers[i - 1].1)
  {
    forall i | 0 <= i < CatalogueSize && i % 2 == 1
      ensures Multipliers[i] == (-Multipliers[i - 1].0, -Multipliers[i - 1].1)
    {
      assert i in {1, 3, 5, 7, 9, 11, 13, 15, 17, 19, 21, 23};
    }
  }

  /**
   * The catalogue comes in twelve mirrored pairs: every odd entry is the
   * point reflection of the entry before it.
   */
  lemma CatalogueMirrored(x0: real, v0: real)
    ensures forall i :: 0 <= i < CatalogueSize && i % 2 == 1 ==>
              InitialConditionList(x0, v0)[i] == Scale(-1.0, InitialConditionList(x0, v0)[i - 1])
  {
    MultipliersMirrored();
  }

  /**
   * Since the field is odd, each mirrored pair of seeds starts out in opposite
   * directions.
   */
  lemma MirroredSeedsOppose(x0: real, v0: real, i: nat, m: real, c: real, k: real)
    requires 0 <= i < CatalogueSize && i % 2 == 1 && m != 0.0
    ensures Derivatives(InitialConditionList(x0, v0)[i], m, c, k)
            == Scale(-1.0, Derivatives(InitialConditionList(x0, v0)[i - 1], m, c, k))
  {
    var seeds := InitialConditionList(x0, v0);
    CatalogueMirrored(x0, v0);
    assert seeds[i] == Scale(-1.0, seeds[i - 1]);
    DerivativesHomogeneous(-1.0, seeds[i - 1], m, c, k);
  }

  /**
   * Python's `s[:n]` for an integer n: the first n elements, all of them when n
   * exceeds the length, and for negative n all but the last -n (none if -n is
   * at least the length).
   */
  function PyPrefix<T>(s: seq<T>, n: int): (r: seq<T>)
    ensures r <= s
    ensures 0 <= n ==> |r| == if n <= |s| then n else |s|
    ensures n < 0 ==> |r| == if -n <= |s| then |s| + n else 0
  {
    if 0 <= n then
      if n <= |s| then s[..n] else s
    else
      if -n <= |s| then s[..|s| + n] else []
  }

  /** The seeds actually integrated: `initial_conditions[: n_lines]`. */
  function Seeds(ics: InitialConditions): (r: seq<Vec>)
    ensures r <= InitialConditionList(ics.x0, ics.v0)
  {
    PyPrefix(InitialConditionList(ics.x0, ics.v0), ics.nLines)
  }

  /** For 0 <= n_lines <= 24 exactly the first n_lines catalogue entries are drawn. */
  lemma SeedsCount(ics: InitialConditions)
    requires 0 <= ics.nLines <= CatalogueSize
    ensures |Seeds(ics)| == ics.nLines
    ensures forall i :: 0 <= i < ics.nLines ==>
              Seeds(ics)[i] == InitialConditionList(ics.x0, ics.v0)[i]
  {
  }

  /** With the default n_lines = 1 only the user's own initial state is drawn. */
  lemma SeedsDefault(ics: InitialConditions)
    requires ics.nLines == 1
    ensures Seeds(ics) == [Vec(ics.x0, ics.v0)]
  {
  }

  /**
   * Outside the range 1..24 the slice still decides: beyond 24 all seeds are
   * drawn, and a negative n_lines drops seeds from the end instead of drawing none.
   */
  lemma SeedsOutOfRange(ics: InitialConditions)
    ensures CatalogueSize <= ics.nLines ==> Seeds(ics) == InitialConditionList(ics.x0, ics.v0)
    ensures 0 <= CatalogueSize + ics.nLines && ics.nLines < 0 ==>
              |Seeds(ics)| == CatalogueSize + ics.nLines
    ensures CatalogueSize + ics.nLines <= 0 ==> Seeds(ics) == []
  {
  }

  /** `t_phase = np.linspace(0, 50, 200)`. */
  const PhaseSamples: nat := 200

  function PhaseTimes(): (t: seq<real>)
    ensures |t| == PhaseSamples
    ensures t[0] == 0.0 && t[PhaseSamples - 1] == 50.0
    ensures forall i :: 0 < i < |t| ==> t[i - 1] < t[i]
  {
    seq(PhaseSamples, i requires 0 <= i < PhaseSamples => 50.0 * (i as real) / ((PhaseSamples - 1) as real))
  }

  /**
   * scipy's `odeint(derivatives, y0, t, args=(m, c, k))` as far as this model
   * relies on it: one sample per time point, starting at y0.
   */
  ghost predicate IsOdeint(odeint: (Vec, seq<real>, real, real, real) -> seq<Vec>) {
    forall y0, t, m, c, k ::
      |odeint(y0, t, m, c, k)| == |t| && (0 < |t| ==> odeint(y0, t, m, c, k)[0] == y0)
  }

  /** The `annotate` arrow: from xytext to xy. */
  datatype Arrow = Arrow(tail: Vec, head: Vec)

  const ArrowIndex: nat := 1

  /**
   * The arrow at `arrow_index = 1`: it starts at the second sample and is
   * extended by the step to the third, so it ends on the third sample.
   */
  function ArrowFor(sol: seq<Vec>): (a: Arrow)
    requires ArrowIndex + 1 < |sol|
    ensures a.tail == sol[1]
    ensures a.head == sol[2]
  {
    var tail := sol[ArrowIndex];
    var step := Vec(sol[ArrowIndex + 1].x - sol[ArrowIndex].x, sol[ArrowIndex + 1].y - sol[ArrowIndex].y);
    Arrow(tail, Add(tail, step))
  }

  /**
   * The loop over the sliced seeds: each seed is integrated over t_phase, its
   * arrow is annotated and its solution curve is drawn, in seed order.
   */
  method DrawTrajectories(cfg: DamperSystem, odeint: (Vec, seq<real>, real, real, real) -> seq<Vec>)
    returns (lines: seq<seq<Vec>>, arrows: seq<Arrow>)
    requires IsOdeint(odeint)
    ensures |lines| == |Seeds(cfg.ics)| && |arrows| == |Seeds(cfg.ics)|
    ensures forall i :: 0 <= i < |lines| ==>
              lines[i] == odeint(Seeds(cfg.ics)[i], PhaseTimes(), cfg.m, cfg.c, cfg.k)
    ensures forall i :: 0 <= i < |lines| ==>
              |lines[i]| == PhaseSamples && lines[i][0] == Seeds(cfg.ics)[i]
    ensures forall i :: 0 <= i < |arrows| ==>
              arrows[i] == Arrow(lines[i][1], lines[i][2])
  {
    var seeds := Seeds(cfg.ics);
    var tPhase := PhaseTimes();
    lines, arrows := [], [];
    var n := 0;
    while n < |seeds|
      invariant 0 <= n <= |seeds|
      invariant |lines| == n && |arrows| == n
      invariant forall i :: 0 <= i < n ==> lines[i] == odeint(seeds[i], tPhase, cfg.m, cfg.c, cfg.k)
      invariant forall i :: 0 <= i < n ==> |lines[i]| == PhaseSamples && lines[i][0] == seeds[i]
      invariant forall i :: 0 <= i < n ==> arrows[i] == Arrow(lines[i][1], lines[i][2])
    {
      var y0 := seeds[n];
      var sol := odeint(y0, tPhase, cfg.m, cfg.c, cfg.k);
      arrows := arrows + [ArrowFor(sol)];
      lines := lines + [sol];
      n := n + 1;
    }
  }
}
