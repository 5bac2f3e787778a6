/**
 * The direction field of the phase plot in app/damper/plots.py: the state-space
 * derivative, the 25×25 grid over [-5, 5]², the nested loops that fill DY1 and DY2,
 * and their normalisation to unit length with the zero-magnitude guard.
 */
module PhaseField {

  import opened RealFacts

  /** A point or a direction in the (position, velocity) plane. */
  datatype Vec = Vec(x: real, y: real)

  const Zero: Vec := Vec(0.0, 0.0)

  /** np.linspace(-5, 5, 25) along each axis. */
  const GridSize: nat := 25
  const GridLo: real := -5.0
  const GridHi: real := 5.0

  /** Element n of np.linspace(-5, 5, 25). */
  function GridAxis(n: nat): (v: real)
    requires n < GridSize
    ensures GridLo <= v <= GridHi
    ensures n == 0 ==> v == GridLo
    ensures n == GridSize - 1 ==> v == GridHi
    ensures v == 0.0 <==> n == (GridSize - 1) / 2
  {
    GridLo + (GridHi - GridLo) * (n as real) / ((GridSize - 1) as real)
  }

  /**
   * The state at cell (i, j) of np.meshgrid(y1_vals, y2_vals): with the default
   * "xy" indexing, the column j gives the position and the row i the velocity.
   */
  function GridPoint(i: nat, j: nat): (v: Vec)
    requires i < GridSize && j < GridSize
    ensures GridLo <= v.x <= GridHi && GridLo <= v.y <= GridHi
    ensures v == Zero <==> i == j == (GridSize - 1) / 2
  {
    Vec(GridAxis(j), GridAxis(i))
  }

  /**
   * `derivatives`: the first-order form (y1' = y2, y2' = -(c/m)·y2 - (k/m)·y1)
   * of m·y'' + c·y' + k·y = 0.
   */
  function Derivatives(y: Vec, m: real, c: real, k: real): (d: Vec)
    requires m != 0.0
    ensures d.x == y.y
    ensures m * d.y + c * y.y + k * y.x == 0.0
  {
    Vec(y.y, -c / m * y.y - k / m * y.x)
  }

  function Scale(a: real, v: Vec): Vec {
    Vec(a * v.x, a * v.y)
  }

  function Add(u: Vec, v: Vec): Vec {
    Vec(u.x + v.x, u.y + v.y)
  }

  /** The derivative is linear in the state: f(a·u + v) = a·f(u) + f(v). */
  lemma DerivativesLinear(a: real, u: Vec, v: Vec, m: real, c: real, k: real)
    requires m != 0.0
    ensures Derivatives(Add(Scale(a, u), v), m, c, k)
         == Add(Scale(a, Derivatives(u, m, c, k)), Derivatives(v, m, c, k))
  {
  }

  /** Homogeneity f(a·y) = a·f(y), and so oddness f(-y) = -f(y). */
  lemma DerivativesHomogeneous(a: real, y: Vec, m: real, c: real, k: real)
    requires m != 0.0
    ensures Derivatives(Scale(a, y), m, c, k) == Scale(a, Derivatives(y, m, c, k))
    ensures Derivatives(Scale(-1.0, y), m, c, k) == Scale(-1.0, Derivatives(y, m, c, k))
  {
  }

  /**
   * The raw field vanishes exactly at the equilibria: the origin when k != 0,
   * the whole position axis when k == 0.
   */
  lemma DerivativesZero(y: Vec, m: real, c: real, k: real)
    requires m != 0.0
    ensures Derivatives(y, m, c, k) == Zero <==> y.y == 0.0 && k * y.x == 0.0
  {
  }

  /**
   * Where the plotted field has no direction: at row 12 (zero velocity), and
   * there only in the centre column unless k == 0.
   */
  lemma FieldZeroCells(i: nat, j: nat, m: real, c: real, k: real)
    requires i < GridSize && j < GridSize && m != 0.0
    ensures Derivatives(GridPoint(i, j), m, c, k) == Zero
            <==> i == (GridSize - 1) / 2 && (k == 0.0 || j == (GridSize - 1) / 2)
  {
  }

  /** A sum of two squares vanishes exactly when both terms do. */
  lemma SumOfSquaresZero(a: real, b: real)
    ensures Sq(a) + Sq(b) == 0.0 <==> a == 0.0 && b == 0.0
  {
    if Sq(a) + Sq(b) == 0.0 {
      assert Sq(a) == 0.0 && Sq(b) == 0.0;
      ZeroProduct(a, a);
      ZeroProduct(b, b);
    }
  }

  /** A non-negative h with h² = a² + b² is zero exactly at the origin. */
  lemma LengthZero(h: real, v: Vec)
    requires 0.0 <= h && Sq(h) == Sq(v.x) + Sq(v.y)
    ensures h == 0.0 <==> v == Zero
  {
    SumOfSquaresZero(v.x, v.y);
    if v == Zero {
      ZeroProduct(h, h);
    }
  }

  lemma DivMul(a: real, h: real)
    requires h != 0.0
    ensures (a / h) * h == a
  {
  }

  lemma SqOfProduct(r: real, h: real, a: real)
    requires r * h == a
    ensures Sq(a) == Sq(r) * Sq(h)
  {
  }

  lemma Factor(p: real, q: real, t: real, x: real, y: real)
    requires t == x + y && x == p * t && y == q * t
    ensures (p + q - 1.0) * t == 0.0
  {
  }

  /** Dividing both coordinates by the length gives a vector of unit length. */
  lemma QuotientUnit(h: real, a: real, b: real)
    requires 0.0 < h && Sq(h) == Sq(a) + Sq(b)
    ensures Sq(a / h) + Sq(b / h) == 1.0
  {
    DivMul(a, h);
    DivMul(b, h);
    SqOfProduct(a / h, h, a);
    SqOfProduct(b / h, h, b);
    Factor(Sq(a / h), Sq(b / h), Sq(h), Sq(a), Sq(b));
    SquareZero(h);
    ZeroProduct(Sq(a / h) + Sq(b / h) - 1.0, Sq(h));
  }

  /** `hypot` returns the Euclidean length: non-negative, with h² = a² + b². */
  ghost predicate IsHypot(hypot: (real, real) -> real) {
    forall a, b :: 0.0 <= hypot(a, b) && Sq(hypot(a, b)) == Sq(a) + Sq(b)
  }

  /** One cell after `M[M == 0] = 1.0` and the two divisions by M. */
  function NormalizedCell(v: Vec, h: real): (r: Vec)
    ensures h == 0.0 ==> r == v
    ensures h != 0.0 ==> r.x * h == v.x && r.y * h == v.y
  {
    var d := if h == 0.0 then 1.0 else h;
    Vec(v.x / d, v.y / d)
  }

  /**
   * With h the length of v: the zero vector stays zero, and any other vector
   * becomes the positive multiple v/h of unit length.
   */
  lemma NormalizedCellUnit(v: Vec, h: real)
    requires 0.0 <= h && Sq(h) == Sq(v.x) + Sq(v.y)
    ensures v == Zero ==> NormalizedCell(v, h) == Zero
    ensures v != Zero ==> 0.0 < h && NormalizedCell(v, h) == Scale(1.0 / h, v)
    ensures v != Zero ==> Sq(NormalizedCell(v, h).x) + Sq(NormalizedCell(v, h).y) == 1.0
  {
    LengthZero(h, v);
    if v != Zero {
      QuotientUnit(h, v.x, v.y);
    }
  }

  /** The cell (i, j) of the two component arrays, read as one vector. */
  ghost function Cell(dy1: array2<real>, dy2: array2<real>, i: nat, j: nat): Vec
    requires i < dy1.Length0 && j < dy1.Length1
    requires i < dy2.Length0 && j < dy2.Length1
    reads dy1, dy2
  {
    Vec(dy1[i, j], dy2[i, j])
  }

  /** Two GridSize × GridSize arrays, distinct from each other. */
  ghost predicate FieldShape(dy1: array2<real>, dy2: array2<real>)
  {
    dy1 != dy2
    && dy1.Length0 == GridSize && dy1.Length1 == GridSize
    && dy2.Length0 == GridSize && dy2.Length1 == GridSize
  }

  /**
   * The nested loops that fill DY1 and DY2 (initially np.zeros) with the
   * derivative at every grid point.
   */
  method EvaluateField(m: real, c: real, k: real) returns (dy1: array2<real>, dy2: array2<real>)
    requires m != 0.0
    ensures fresh(dy1) && fresh(dy2) && FieldShape(dy1, dy2)
    ensures forall i, j :: 0 <= i < GridSize && 0 <= j < GridSize ==>
              Cell(dy1, dy2, i, j) == Derivatives(GridPoint(i, j), m, c, k)
  {
    dy1 := new real[GridSize, GridSize]((_, _) => 0.0);
    dy2 := new real[GridSize, GridSize]((_, _) => 0.0);
    var i := 0;
    while i < dy1.Length0
      invariant 0 <= i <= GridSize
      invariant forall p, q :: 0 <= p < i && 0 <= q < GridSize ==>
                  Cell(dy1, dy2, p, q) == Derivatives(GridPoint(p, q), m, c, k)
    {
      var j := 0;
      while j < dy1.Length1
        invariant 0 <= j <= GridSize
        invariant forall p, q :: 0 <= p < i && 0 <= q < GridSize ==>
                    Cell(dy1, dy2, p, q) == Derivatives(GridPoint(p, q), m, c, k)
        invariant forall q :: 0 <= q < j ==>
                    Cell(dy1, dy2, i, q) == Derivatives(GridPoint(i, q), m, c, k)
      {
        var dy := Derivatives(GridPoint(i, j), m, c, k);
        dy1[i, j], dy2[i, j] := dy.x, dy.y;
        j := j + 1;
      }
      i := i + 1;
    }
  }

  /** `M = np.hypot(DY1, DY2)`: a new array of the cell lengths. */
  method Magnitudes(dy1: array2<real>, dy2: array2<real>, hypot: (real, real) -> real)
    returns (mag: array2<real>)
    requires FieldShape(dy1, dy2)
    ensures fresh(mag) && mag.Length0 == GridSize && mag.Length1 == GridSize
    ensures forall i, j :: 0 <= i < GridSize && 0 <= j < GridSize ==>
              mag[i, j] == hypot(dy1[i, j], dy2[i, j])
  {
    mag := new real[GridSize, GridSize];
    forall i, j | 0 <= i < GridSize && 0 <= j < GridSize {
      mag[i, j] := hypot(dy1[i, j], dy2[i, j]);
    }
  }

  /** `M[M == 0] = 1.0`: zero lengths become 1, every other entry is kept. */
  method ReplaceZeros(mag: array2<real>)
    modifies mag
    ensures forall i, j :: 0 <= i < mag.Length0 && 0 <= j < mag.Length1 ==>
              mag[i, j] == (if old(mag[i, j]) == 0.0 then 1.0 else old(mag[i, j]))
    ensures forall i, j :: 0 <= i < mag.Length0 && 0 <= j < mag.Length1 ==> mag[i, j] != 0.0
  {
    forall i, j | 0 <= i < mag.Length0 && 0 <= j < mag.Length1 && mag[i, j] == 0.0 {
      mag[i, j] := 1.0;
    }
  }

  /** `D /= M`, element by element. */
  method DivideBy(d: array2<real>, mag: array2<real>)
    requires d != mag
    requires d.Length0 == mag.Length0 && d.Length1 == mag.Length1
    requires forall i, j :: 0 <= i < mag.Length0 && 0 <= j < mag.Length1 ==> mag[i, j] != 0.0
    modifies d
    ensures forall i, j :: 0 <= i < d.Length0 && 0 <= j < d.Length1 ==>
              d[i, j] * mag[i, j] == old(d[i, j])
    ensures forall i, j :: 0 <= i < d.Length0 && 0 <= j < d.Length1 ==>
              d[i, j] == old(d[i, j]) / mag[i, j]
  {
    forall i, j | 0 <= i < d.Length0 && 0 <= j < d.Length1 {
      d[i, j] := d[i, j] / mag[i, j];
    }
    forall i, j | 0 <= i < d.Length0 && 0 <= j < d.Length1
      ensures d[i, j] * mag[i, j] == old(d[i, j])
    {
      DivMul(old(d[i, j]), mag[i, j]);
    }
  }

  /**
   * The normalisation for the quiver: every cell becomes NormalizedCell of its
   * old value and old length, so (with a true `hypot`) a unit vector, or the
   * zero vector where the field vanishes.
   */
  method NormalizeField(dy1: array2<real>, dy2: array2<real>, hypot: (real, real) -> real)
    requires FieldShape(dy1, dy2)
    modifies dy1, dy2
    ensures forall i, j :: 0 <= i < GridSize && 0 <= j < GridSize ==>
              Cell(dy1, dy2, i, j)
              == NormalizedCell(old(Cell(dy1, dy2, i, j)), hypot(old(dy1[i, j]), old(dy2[i, j])))
    ensures IsHypot(hypot) ==>
              forall i, j :: 0 <= i < GridSize && 0 <= j < GridSize ==>
                (old(Cell(dy1, dy2, i, j)) == Zero ==> Cell(dy1, dy2, i, j) == Zero)
                && (old(Cell(dy1, dy2, i, j)) != Zero ==>
                      Sq(dy1[i, j]) + Sq(dy2[i, j]) == 1.0)
  {
    var mag := Magnitudes(dy1, dy2, hypot);
    ReplaceZeros(mag);
    DivideBy(dy1, mag);
    DivideBy(dy2, mag);
    if IsHypot(hypot) {
      forall i, j | 0 <= i < GridSize && 0 <= j < GridSize
        ensures old(Cell(dy1, dy2, i, j)) == Zero ==> Cell(dy1, dy2, i, j) == Zero
        ensures old(Cell(dy1, dy2, i, j)) != Zero ==> Sq(dy1[i, j]) + Sq(dy2[i, j]) == 1.0
      {
        var v := old(Cell(dy1, dy2, i, j));
        NormalizedCellUnit(v, hypot(v.x, v.y));
      }
    }
  }
}
