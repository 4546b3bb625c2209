/** Exact integer geometry of the 3x3x3 cube: lattice vectors, the three world
    axes, quarter turns as integer matrices, and the 24-element rotation group
    of the cube.  Every orientation a cubie can have is one of these matrices,
    so the floating-point rounding the game performs after a turn is the
    identity here and needs no model. */
module Geometry {

  /** An integer vector; cubie positions and face normals. */
  datatype Vec = Vec(x: int, y: int, z: int)

  /** The three world axes a layer can be turned about. */
  datatype Axis = XAxis | YAxis | ZAxis

  /** A quarter turn of +90 or -90 degrees (right-handed, about the axis). */
  datatype Turn = Plus | Minus

  function Opposite(t: Turn): (r: Turn)
    ensures r != t
  {
    if t == Plus then Minus else Plus
  }

  function Coord(v: Vec, a: Axis): int
  {
    match a
    case XAxis => v.x
    case YAxis => v.y
    case ZAxis => v.z
  }

  predicate InUnitRange(n: int)
  {
    -1 <= n <= 1
  }

  /** A lattice point of the cube: every coordinate in {-1, 0, 1}. */
  predicate InCube(v: Vec)
  {
    InUnitRange(v.x) && InUnitRange(v.y) && InUnitRange(v.z)
  }

  function Neg(v: Vec): Vec
  {
    Vec(-v.x, -v.y, -v.z)
  }

  /** The positive unit vector along axis a. */
  function Unit(a: Axis): Vec
  {
    match a
    case XAxis => Vec(1, 0, 0)
    case YAxis => Vec(0, 1, 0)
    case ZAxis => Vec(0, 0, 1)
  }

  /** The cyclic successor x -> y -> z -> x, so (a, Next(a), Next(Next(a)))
      is a right-handed frame. */
  function Next(a: Axis): Axis
  {
    match a
    case XAxis => YAxis
    case YAxis => ZAxis
    case ZAxis => XAxis
  }

  function Dot(u: Vec, v: Vec): int
  {
    u.x * v.x + u.y * v.y + u.z * v.z
  }

  /** A 3x3 integer matrix, stored by rows. */
  datatype Mat = Mat(r0: Vec, r1: Vec, r2: Vec)

  const Identity := Mat(Vec(1, 0, 0), Vec(0, 1, 0), Vec(0, 0, 1))

  /** The matrix-vector product m * v. */
  function Apply(m: Mat, v: Vec): Vec
  {
    Vec(Dot(m.r0, v), Dot(m.r1, v), Dot(m.r2, v))
  }

  /** Column j of m: the image m * e_j of the j-th unit vector. */
  function Col(m: Mat, j: Axis): Vec
  {
    match j
    case XAxis => Vec(m.r0.x, m.r1.x, m.r2.x)
    case YAxis => Vec(m.r0.y, m.r1.y, m.r2.y)
    case ZAxis => Vec(m.r0.z, m.r1.z, m.r2.z)
  }

  /** The matrix whose columns are c0, c1, c2. */
  function FromCols(c0: Vec, c1: Vec, c2: Vec): Mat
  {
    Mat(Vec(c0.x, c1.x, c2.x), Vec(c0.y, c1.y, c2.y), Vec(c0.z, c1.z, c2.z))
  }

  /** The matrix product a * b, column by column. */
  function Mul(a: Mat, b: Mat): Mat
  {
    FromCols(Apply(a, Col(b, XAxis)), Apply(a, Col(b, YAxis)), Apply(a, Col(b, ZAxis)))
  }

  function Det(m: Mat): int
  {
    m.r0.x * (m.r1.y * m.r2.z - m.r1.z * m.r2.y)
    - m.r0.y * (m.r1.x * m.r2.z - m.r1.z * m.r2.x)
    + m.r0.z * (m.r1.x * m.r2.y - m.r1.y * m.r2.x)
  }

  /** One of the six signed unit axis vectors +x, -x, +y, -y, +z, -z. */
  predicate IsUnitAxis(v: Vec)
  {
    || v == Vec(1, 0, 0) || v == Vec(-1, 0, 0)
    || v == Vec(0, 1, 0) || v == Vec(0, -1, 0)
    || v == Vec(0, 0, 1) || v == Vec(0, 0, -1)
  }

  /** The world axis a signed unit axis vector lies on. */
  function AxisOf(v: Vec): Axis
  {
    if v.x != 0 then XAxis else if v.y != 0 then YAxis else ZAxis
  }

  /** A signed permutation matrix: every row a signed unit axis, no two rows
      on the same axis. */
  predicate IsSignedPermutation(m: Mat)
  {
    && IsUnitAxis(m.r0) && IsUnitAxis(m.r1) && IsUnitAxis(m.r2)
    && AxisOf(m.r0) != AxisOf(m.r1)
    && AxisOf(m.r0) != AxisOf(m.r2)
    && AxisOf(m.r1) != AxisOf(m.r2)
  }

  /** A signed permutation matrix with determinant +1: a proper rotation
      that maps the cube onto itself, not a reflection. */
  predicate IsProperSignedPermutation(m: Mat)
  {
    IsSignedPermutation(m) && Det(m) == 1
  }

  /** An element of the rotation group of the cube: one of the 24 matrices
      listed in Rotations (RotationsAreTheListed24 shows that these are
      exactly the proper signed permutation matrices). */
  predicate IsRotation(m: Mat)
  {
    m in Rotations
  }

  /** The quarter turn about world axis `a` in direction `t`, as the integer
      matrix of the right-handed rotation by +90 or -90 degrees. */
  function QuarterTurn(a: Axis, t: Turn): Mat
  {
    match a
    case XAxis =>
      if t == Plus then Mat(Vec(1, 0, 0), Vec(0, 0, -1), Vec(0, 1, 0))
      else Mat(Vec(1, 0, 0), Vec(0, 0, 1), Vec(0, -1, 0))
    case YAxis =>
      if t == Plus then Mat(Vec(0, 0, 1), Vec(0, 1, 0), Vec(-1, 0, 0))
      else Mat(Vec(0, 0, -1), Vec(0, 1, 0), Vec(1, 0, 0))
    case ZAxis =>
      if t == Plus then Mat(Vec(0, -1, 0), Vec(1, 0, 0), Vec(0, 0, 1))
      else Mat(Vec(0, 1, 0), Vec(-1, 0, 0), Vec(0, 0, 1))
  }

  /** The 24 rotations of the cube, listed explicitly. */
  const Rotations: seq<Mat> := [
    Mat(Vec(1, 0, 0), Vec(0, 1, 0), Vec(0, 0, 1)),
    Mat(Vec(1, 0, 0), Vec(0, -1, 0), Vec(0, 0, -1)),
    Mat(Vec(1, 0, 0), Vec(0, 0, 1), Vec(0, -1, 0)),
    Mat(Vec(1, 0, 0), Vec(0, 0, -1), Vec(0, 1, 0)),
    Mat(Vec(-1, 0, 0), Vec(0, 1, 0), Vec(0, 0, -1)),
    Mat(Vec(-1, 0, 0), Vec(0, -1, 0), Vec(0, 0, 1)),
    Mat(Vec(-1, 0, 0), Vec(0, 0, 1), Vec(0, 1, 0)),
    Mat(Vec(-1, 0, 0), Vec(0, 0, -1), Vec(0, -1, 0)),
    Mat(Vec(0, 1, 0), Vec(1, 0, 0), Vec(0, 0, -1)),
    Mat(Vec(0, 1, 0), Vec(-1, 0, 0), Vec(0, 0, 1)),
    Mat(Vec(0, 1, 0), Vec(0, 0, 1), Vec(1, 0, 0)),
    Mat(Vec(0, 1, 0), Vec(0, 0, -1), Vec(-1, 0, 0)),
    Mat(Vec(0, -1, 0), Vec(1, 0, 0), Vec(0, 0, 1)),
    Mat(Vec(0, -1, 0), Vec(-1, 0, 0), Vec(0, 0, -1)),
    Mat(Vec(0, -1, 0), Vec(0, 0, 1), Vec(-1, 0, 0)),
    Mat(Vec(0, -1, 0), Vec(0, 0, -1), Vec(1, 0, 0)),
    Mat(Vec(0, 0, 1), Vec(1, 0, 0), Vec(0, 1, 0)),
    Mat(Vec(0, 0, 1), Vec(-1, 0, 0), Vec(0, -1, 0)),
    Mat(Vec(0, 0, 1), Vec(0, 1, 0), Vec(-1, 0, 0)),
    Mat(Vec(0, 0, 1), Vec(0, -1, 0), Vec(1, 0, 0)),
    Mat(Vec(0, 0, -1), Vec(1, 0, 0), Vec(0, -1, 0)),
    Mat(Vec(0, 0, -1), Vec(-1, 0, 0), Vec(0, 1, 0)),
    Mat(Vec(0, 0, -1), Vec(0, 1, 0), Vec(1, 0, 0)),
    Mat(Vec(0, 0, -1), Vec(0, -1, 0), Vec(-1, 0, 0))
  ]

  /** The rotation group is exactly the 24 listed matrices, and they are
      pairwise distinct. */
  lemma RotationsAreTheListed24(m: Mat)
    ensures IsProperSignedPermutation(m) <==> m in Rotations
    ensures |Rotations| == 24
    ensures forall i, j :: 0 <= i < j < |Rotations| ==> Rotations[i] != Rotations[j]
  {
    if IsProperSignedPermutation(m) {
      ProperSignedPermutationIsListed(m);
    } else if m in Rotations {
      ListedIsProperSignedPermutation(m);
    }
  }

  lemma ListedIsProperSignedPermutation(m: Mat)
    requires m in Rotations
    ensures IsProperSignedPermutation(m)
  {
    var i :| 0 <= i < |Rotations| && Rotations[i] == m;
    if i < 4 { ListedBlock0(i); }
    else if i < 8 { ListedBlock1(i); }
    else if i < 12 { ListedBlock2(i); }
    else if i < 16 { ListedBlock3(i); }
    else if i < 20 { ListedBlock4(i); }
    else { ListedBlock5(i); }
  }

  lemma ListedBlock0(i: nat)
    requires 0 <= i < 4
    ensures IsProperSignedPermutation(Rotations[i])
  {
    if i == 0 {} else if i == 1 {} else if i == 2 {} else {}
  }

  lemma ListedBlock1(i: nat)
    requires 4 <= i < 8
    ensures IsProperSignedPermutation(Rotations[i])
  {
    if i == 4 {} else if i == 5 {} else if i == 6 {} else {}
  }

  lemma ListedBlock2(i: nat)
    requires 8 <= i < 12
    ensures IsProperSignedPermutation(Rotations[i])
  {
    if i == 8 {} else if i == 9 {} else if i == 10 {} else {}
  }

  lemma ListedBlock3(i: nat)
    requires 12 <= i < 16
    ensures IsProperSignedPermutation(Rotations[i])
  {
    if i == 12 {} else if i == 13 {} else if i == 14 {} else {}
  }

  lemma ListedBlock4(i: nat)
    requires 16 <= i < 20
    ensures IsProperSignedPermutation(Rotations[i])
  {
    if i == 16 {} else if i == 17 {} else if i == 18 {} else {}
  }

  lemma ListedBlock5(i: nat)
    requires 20 <= i < 24
    ensures IsProperSignedPermutation(Rotations[i])
  {
    if i == 20 {} else if i == 21 {} else if i == 22 {} else {}
  }


  lemma ProperSignedPermutationIsListed(m: Mat)
    requires IsProperSignedPermutation(m)
    ensures m in Rotations
  {
    var k := if m.r0 == Vec(1, 0, 0) then 0 else if m.r0 == Vec(-1, 0, 0) then 1
      else if m.r0 == Vec(0, 1, 0) then 2 else if m.r0 == Vec(0, -1, 0) then 3
      else if m.r0 == Vec(0, 0, 1) then 4 else 5;
    ProperIsInBlock(m, k);
  }

  /** A proper signed permutation matrix whose first row is the k-th signed
      unit axis is one of the four listed matrices of block k. */
  lemma ProperIsInBlock(m: Mat, k: nat)
    requires IsProperSignedPermutation(m) && k < 6
    requires m.r0 == [Vec(1, 0, 0), Vec(-1, 0, 0), Vec(0, 1, 0), Vec(0, -1, 0), Vec(0, 0, 1), Vec(0, 0, -1)][k]
    ensures m in Rotations
  {
    assert m == Rotations[4 * k] || m == Rotations[4 * k + 1] || m == Rotations[4 * k + 2] || m == Rotations[4 * k + 3];
  }

  /** A quarter turn keeps the coordinate along its own axis, keeps lattice
      points in the cube, and is undone by the opposite quarter turn. */
  lemma QuarterTurnOnVectors(a: Axis, t: Turn, v: Vec)
    ensures Coord(Apply(QuarterTurn(a, t), v), a) == Coord(v, a)
    ensures InCube(v) <==> InCube(Apply(QuarterTurn(a, t), v))
    ensures Apply(QuarterTurn(a, Opposite(t)), Apply(QuarterTurn(a, t), v)) == v
  {
    QuarterTurnApply(a, t, v);
    QuarterTurnApply(a, Opposite(t), TurnVec(a, t, v));
  }

  /** The rows of q * m for the quarter turn q: a quarter turn permutes the
      rows of m and negates one of them. */
  function TurnedRows(a: Axis, t: Turn, m: Mat): Mat
  {
    match a
    case XAxis => if t == Plus then Mat(m.r0, Neg(m.r2), m.r1) else Mat(m.r0, m.r2, Neg(m.r1))
    case YAxis => if t == Plus then Mat(m.r2, m.r1, Neg(m.r0)) else Mat(Neg(m.r2), m.r1, m.r0)
    case ZAxis => if t == Plus then Mat(Neg(m.r1), m.r0, m.r2) else Mat(m.r1, Neg(m.r0), m.r2)
  }

  /** A quarter turn on a vector, written without multiplication. */
  function TurnVec(a: Axis, t: Turn, v: Vec): Vec
  {
    match a
    case XAxis => if t == Plus then Vec(v.x, -v.z, v.y) else Vec(v.x, v.z, -v.y)
    case YAxis => if t == Plus then Vec(v.z, v.y, -v.x) else Vec(-v.z, v.y, v.x)
    case ZAxis => if t == Plus then Vec(-v.y, v.x, v.z) else Vec(v.y, -v.x, v.z)
  }

  lemma QuarterTurnApply(a: Axis, t: Turn, v: Vec)
    ensures Apply(QuarterTurn(a, t), v) == TurnVec(a, t, v)
  {
  }

  /** A quarter turn is a cube rotation other than the identity that fixes
      its own axis; Plus turns the next axis onto the one after it (the
      right-hand rule), Minus onto its negation. */
  lemma QuarterTurnFixesAxis(a: Axis, t: Turn)
    ensures IsRotation(QuarterTurn(a, t)) && QuarterTurn(a, t) != Identity
    ensures Apply(QuarterTurn(a, t), Unit(a)) == Unit(a)
    ensures t == Plus ==> Apply(QuarterTurn(a, t), Unit(Next(a))) == Unit(Next(Next(a)))
    ensures t == Minus ==> Apply(QuarterTurn(a, t), Unit(Next(a))) == Neg(Unit(Next(Next(a))))
  {
    QuarterTurnIsListed(a, t);
    QuarterTurnApply(a, t, Unit(a));
    QuarterTurnApply(a, t, Unit(Next(a)));
    TurnVecOnUnits(a, t);
  }

  lemma TurnVecOnUnits(a: Axis, t: Turn)
    ensures TurnVec(a, t, Unit(a)) == Unit(a)
    ensures t == Plus ==> TurnVec(a, t, Unit(Next(a))) == Unit(Next(Next(a)))
    ensures t == Minus ==> TurnVec(a, t, Unit(Next(a))) == Neg(Unit(Next(Next(a))))
  {
    if t == Plus {
      TurnVecPlusSense(a);
    } else {
      TurnVecMinusSense(a);
    }
  }

  lemma TurnVecPlusSense(a: Axis)
    ensures TurnVec(a, Plus, Unit(a)) == Unit(a)
    ensures TurnVec(a, Plus, Unit(Next(a))) == Unit(Next(Next(a)))
  {
  }

  lemma TurnVecMinusSense(a: Axis)
    ensures TurnVec(a, Minus, Unit(a)) == Unit(a)
    ensures TurnVec(a, Minus, Unit(Next(a))) == Neg(Unit(Next(Next(a))))
  {
  }

  lemma QuarterTurnIsListed(a: Axis, t: Turn)
    ensures IsRotation(QuarterTurn(a, t))
  {
    var k := match a
      case XAxis => if t == Plus then 3 else 2
      case YAxis => if t == Plus then 18 else 22
      case ZAxis => if t == Plus then 12 else 9;
    assert QuarterTurn(a, t) == Rotations[k];
  }

  lemma QuarterTurnMul(a: Axis, t: Turn, m: Mat)
    ensures Mul(QuarterTurn(a, t), m) == TurnedRows(a, t, m)
  {
    QuarterTurnApply(a, t, Col(m, XAxis));
    QuarterTurnApply(a, t, Col(m, YAxis));
    QuarterTurnApply(a, t, Col(m, ZAxis));
  }

  lemma TurnedRowsDet(a: Axis, t: Turn, m: Mat)
    ensures Det(TurnedRows(a, t, m)) == Det(m)
  {
    var (p, q, r) := (m.r0, m.r1, m.r2);
    match a
    case XAxis =>
      if t == Plus { assert Det(Mat(p, Neg(r), q)) == Det(m); }
      else { assert Det(Mat(p, r, Neg(q))) == Det(m); }
    case YAxis =>
      if t == Plus { assert Det(Mat(r, q, Neg(p))) == Det(m); }
      else { assert Det(Mat(Neg(r), q, p)) == Det(m); }
    case ZAxis =>
      if t == Plus { assert Det(Mat(Neg(q), p, r)) == Det(m); }
      else { assert Det(Mat(q, Neg(p), r)) == Det(m); }
  }

  lemma NegUnitAxis(v: Vec)
    requires IsUnitAxis(v)
    ensures IsUnitAxis(Neg(v)) && AxisOf(Neg(v)) == AxisOf(v)
  {
  }

  /** Turning a cube orientation by a quarter turn gives a cube orientation:
      the rotation group is closed under the quarter turns. */
  lemma QuarterTurnPreservesRotation(a: Axis, t: Turn, m: Mat)
    requires IsRotation(m)
    ensures IsRotation(Mul(QuarterTurn(a, t), m))
  {
    ListedIsProperSignedPermutation(m);
    QuarterTurnMul(a, t, m);
    TurnedRowsDet(a, t, m);
    TurnedRowsSignedPermutation(a, t, m);
    assert IsProperSignedPermutation(TurnedRows(a, t, m));
    ProperSignedPermutationIsListed(TurnedRows(a, t, m));
  }

  lemma TurnedRowsSignedPermutation(a: Axis, t: Turn, m: Mat)
    requires IsSignedPermutation(m)
    ensures IsSignedPermutation(TurnedRows(a, t, m))
  {
    var (p, q, r) := (m.r0, m.r1, m.r2);
    match a
    case XAxis => if t == Plus { NegSecond(p, r, q); } else { NegThird(p, r, q); }
    case YAxis => if t == Plus { NegThird(r, q, p); } else { NegFirst(r, q, p); }
    case ZAxis => if t == Plus { NegFirst(q, p, r); } else { NegSecond(q, p, r); }
  }

  /** Negating one row of a signed permutation matrix, whose rows are given
      in any order, gives a signed permutation matrix. */
  lemma NegFirst(p: Vec, q: Vec, r: Vec)
    requires IsUnitAxis(p) && IsUnitAxis(q) && IsUnitAxis(r)
    requires AxisOf(p) != AxisOf(q) && AxisOf(p) != AxisOf(r) && AxisOf(q) != AxisOf(r)
    ensures IsSignedPermutation(Mat(Neg(p), q, r))
  {
    NegUnitAxis(p);
  }

  lemma NegSecond(p: Vec, q: Vec, r: Vec)
    requires IsUnitAxis(p) && IsUnitAxis(q) && IsUnitAxis(r)
    requires AxisOf(p) != AxisOf(q) && AxisOf(p) != AxisOf(r) && AxisOf(q) != AxisOf(r)
    ensures IsSignedPermutation(Mat(p, Neg(q), r))
  {
    NegUnitAxis(q);
  }

  lemma NegThird(p: Vec, q: Vec, r: Vec)
    requires IsUnitAxis(p) && IsUnitAxis(q) && IsUnitAxis(r)
    requires AxisOf(p) != AxisOf(q) && AxisOf(p) != AxisOf(r) && AxisOf(q) != AxisOf(r)
    ensures IsSignedPermutation(Mat(p, q, Neg(r)))
  {
    NegUnitAxis(r);
  }

  /** The opposite quarter turn undoes a quarter turn of an orientation. */
  lemma QuarterTurnUndone(a: Axis, t: Turn, m: Mat)
    ensures Mul(QuarterTurn(a, Opposite(t)), Mul(QuarterTurn(a, t), m)) == m
  {
    QuarterTurnMul(a, t, m);
    QuarterTurnMul(a, Opposite(t), Mul(QuarterTurn(a, t), m));
  }

  /** Four quarter turns in the same direction are the identity, on vectors
      and on orientations. */
  lemma QuarterTurnOrderFour(a: Axis, t: Turn, v: Vec, m: Mat)
    ensures var q := QuarterTurn(a, t); Apply(q, Apply(q, Apply(q, Apply(q, v)))) == v
    ensures var q := QuarterTurn(a, t); Mul(q, Mul(q, Mul(q, Mul(q, m)))) == m
  {
    var q := QuarterTurn(a, t);
    QuarterTurnApply(a, t, v);
    QuarterTurnApply(a, t, Apply(q, v));
    QuarterTurnApply(a, t, Apply(q, Apply(q, v)));
    QuarterTurnApply(a, t, Apply(q, Apply(q, Apply(q, v))));
    QuarterTurnMul(a, t, m);
    QuarterTurnMul(a, t, Mul(q, m));
    QuarterTurnMul(a, t, Mul(q, Mul(q, m)));
    QuarterTurnMul(a, t, Mul(q, Mul(q, Mul(q, m))));
    match a
    case XAxis => if t == Plus {} else {}
    case YAxis => if t == Plus {} else {}
    case ZAxis => if t == Plus {} else {}
  }
}
