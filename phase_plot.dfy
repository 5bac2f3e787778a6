/**
 * generate_phase_plot of app/damper/plots.py as a whole: the normalised direction
 * field over the 25×25 grid and the seeded trajectories with their arrows. The
 * figure itself (axes, colours, limits) is not modelled; what it shows is.
 */
module PhasePlot {

  import opened DamperInput
  import opened RealFacts
  import opened PhaseField
  import opened Trajectories

  /** What the figure draws: the quiver components and the trajectory curves and arrows. */
  datatype PhaseFigure = PhaseFigure(
    dy1: array2<real>, dy2: array2<real>, lines: seq<seq<Vec>>, arrows: seq<Arrow>)

  /**
   * generate_phase_plot(cfg). With m == 0 the first call of `derivatives` divides
   * by zero and Python raises ZeroDivisionError before anything is drawn.
   */
  method GeneratePhasePlot(
    cfg: DamperSystem,
    hypot: (real, real) -> real,
    odeint: (Vec, seq<real>, real, real, real) -> seq<Vec>)
    returns (r: Outcome<PhaseFigure>)
    requires IsOdeint(odeint)
    ensures r.ZeroDivisionError? <==> cfg.m == 0.0
    ensures r.Ok? ==> fresh(r.value.dy1) && fresh(r.value.dy2) && FieldShape(r.value.dy1, r.value.dy2)
    ensures r.Ok? ==>
              forall i, j :: 0 <= i < GridSize && 0 <= j < GridSize ==>
                var raw := Derivatives(GridPoint(i, j), cfg.m, cfg.c, cfg.k);
                Cell(r.value.dy1, r.value.dy2, i, j) == NormalizedCell(raw, hypot(raw.x, raw.y))
    ensures r.Ok? && IsHypot(hypot) ==>
              forall i, j :: 0 <= i < GridSize && 0 <= j < GridSize ==>
                var raw := Derivatives(GridPoint(i, j), cfg.m, cfg.c, cfg.k);
                (raw == Zero ==> Cell(r.value.dy1, r.value.dy2, i, j) == Zero)
                && (raw != Zero ==> Sq(r.value.dy1[i, j]) + Sq(r.value.dy2[i, j]) == 1.0)
    ensures r.Ok? ==> Cell(r.value.dy1, r.value.dy2, 12, 12) == Zero
    ensures r.Ok? ==> |r.value.lines| == |Seeds(cfg.ics)| && |r.value.arrows| == |Seeds(cfg.ics)|
    ensures r.Ok? ==>
              forall i :: 0 <= i < |r.value.lines| ==>
                r.value.lines[i] == odeint(Seeds(cfg.ics)[i], PhaseTimes(), cfg.m, cfg.c, cfg.k)
                && |r.value.lines[i]| == PhaseSamples && r.value.lines[i][0] == Seeds(cfg.ics)[i]
    ensures r.Ok? ==>
              forall i :: 0 <= i < |r.value.arrows| ==>
                r.value.arrows[i] == Arrow(r.value.lines[i][1], r.value.lines[i][2])
  {
    if cfg.m == 0.0 {
      return ZeroDivisionError;
    }
    var dy1, dy2 := EvaluateField(cfg.m, cfg.c, cfg.k);
    NormalizeField(dy1, dy2, hypot);
    assert GridPoint(12, 12) == Zero;
    var lines, arrows := DrawTrajectories(cfg, odeint);
    r := Ok(PhaseFigure(dy1, dy2, lines, arrows));
  }
}
