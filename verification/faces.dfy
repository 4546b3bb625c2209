/** The orientation resolver: which local face of a cubie currently points
    along the viewing direction +z. */
module Faces {
  import opened Geometry

  /** Number of local faces, and of mark slots per cubie. */
  const FaceCount := 6

  /** The outward normal of local face i in the cubie's own frame; faces are
      indexed +x, -x, +y, -y, +z, -z. */
  function LocalNormal(i: nat): (n: Vec)
    requires i < FaceCount
    ensures IsUnitAxis(n)
  {
    [Vec(1, 0, 0), Vec(-1, 0, 0), Vec(0, 1, 0), Vec(0, -1, 0), Vec(0, 0, 1), Vec(0, 0, -1)][i]
  }

  /** The world axis local face i lies on: faces 2k and 2k+1 share axis k. */
  function FaceAxis(i: nat): Axis
    requires i < FaceCount
  {
    if i < 2 then XAxis else if i < 4 then YAxis else ZAxis
  }

  /** The world direction local face i points along under orientation m: the
      column of m for the face's axis, negated for the odd (negative) faces. */
  function WorldNormal(m: Mat, i: nat): Vec
    requires i < FaceCount
  {
    var c := Col(m, FaceAxis(i));
    if i % 2 == 0 then c else Neg(c)
  }

  /** The world normal is the local normal rotated by the orientation, which
      is how the game computes it. */
  lemma WorldNormalIsRotatedNormal(m: Mat, i: nat)
    requires i < FaceCount
    ensures WorldNormal(m, i) == Apply(m, LocalNormal(i))
  {
  }

  /** Local face i points along +z (toward the viewer). */
  predicate FacesFront(m: Mat, i: nat)
    requires i < FaceCount
  {
    WorldNormal(m, i).z == 1
  }

  /** The first local face, from i on, that faces the front; -1 when there
      is none. */
  function FrontFaceFrom(m: Mat, i: nat): (r: int)
    requires i <= FaceCount
    decreases FaceCount - i
    ensures r == -1 || i <= r < FaceCount
    ensures r == -1 <==> forall j :: i <= j < FaceCount ==> !FacesFront(m, j)
    ensures 0 <= r ==> FacesFront(m, r) && forall j :: i <= j < r ==> !FacesFront(m, j)
  {
    if i == FaceCount then -1
    else if FacesFront(m, i) then i
    else FrontFaceFrom(m, i + 1)
  }

  /** The front-facing local face of a cubie with orientation m: the first
      index whose rotated normal has z = 1, or -1 when no face qualifies. */
  function FrontFace(m: Mat): (r: int)
    ensures r == -1 || 0 <= r < FaceCount
    ensures r == -1 <==> forall j :: 0 <= j < FaceCount ==> !FacesFront(m, j)
    ensures 0 <= r ==> FacesFront(m, r) && forall j :: 0 <= j < r ==> !FacesFront(m, j)
  {
    FrontFaceFrom(m, 0)
  }

  /** For every orientation in the rotation group exactly one local face
      points to the front, so the -1 answer never occurs. */
  lemma FrontFaceUnique(m: Mat)
    requires IsRotation(m)
    ensures 0 <= FrontFace(m) < FaceCount
    ensures forall j :: 0 <= j < FaceCount ==> (FacesFront(m, j) <==> j == FrontFace(m))
  {
    ListedIsProperSignedPermutation(m);
    BottomRowFixesFront(m);
  }

  /** Which faces point to the front depends only on the bottom row of the
      orientation matrix; when that row is a signed unit axis, exactly one
      face does. */
  lemma BottomRowFixesFront(m: Mat)
    requires IsUnitAxis(m.r2)
    ensures 0 <= FrontFace(m) < FaceCount
    ensures forall j :: 0 <= j < FaceCount ==> (FacesFront(m, j) <==> j == FrontFace(m))
  {
    var r := m.r2;
    var f := if r == Vec(1, 0, 0) then 0 else if r == Vec(-1, 0, 0) then 1
      else if r == Vec(0, 1, 0) then 2 else if r == Vec(0, -1, 0) then 3
      else if r == Vec(0, 0, 1) then 4 else 5;
    assert FacesFront(m, f);
    assert forall j :: 0 <= j < FaceCount && j != f ==> !FacesFront(m, j);
  }

  /** Marks are bound to local geometry: after a quarter turn, every local
      face points where the turn sends its previous world direction. */
  lemma QuarterTurnCarriesFaces(a: Axis, t: Turn, m: Mat, i: nat)
    requires i < FaceCount
    ensures WorldNormal(Mul(QuarterTurn(a, t), m), i) == Apply(QuarterTurn(a, t), WorldNormal(m, i))
  {
    var c := Col(m, FaceAxis(i));
    QuarterTurnApply(a, t, c);
    QuarterTurnApply(a, t, Neg(c));
  }

  lemma QuarterTurnCarriesAllFaces(a: Axis, t: Turn, m: Mat)
    ensures forall i :: 0 <= i < FaceCount ==>
      WorldNormal(Mul(QuarterTurn(a, t), m), i) == Apply(QuarterTurn(a, t), WorldNormal(m, i))
  {
    forall i | 0 <= i < FaceCount
      ensures WorldNormal(Mul(QuarterTurn(a, t), m), i) == Apply(QuarterTurn(a, t), WorldNormal(m, i))
    {
      QuarterTurnCarriesFaces(a, t, m, i);
    }
  }
}
