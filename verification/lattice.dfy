/** The cubie lattice: 27 cubies, each with an exact lattice position, an
    orientation from the rotation group and six mark slots indexed by local
    face; and the layer rotation that turns nine of them at once. */
module Lattice {
  import opened Geometry
  import opened Faces
  import opened Cardinality

  datatype Player = X | O

  /** The player who moves after p. */
  function Other(p: Player): (q: Player)
    ensures q != p
  {
    if p == X then O else X
  }

  /** A mark slot: empty, or holding a player's mark.  The winner of a game
      is recorded with the same type (Empty while there is none). */
  datatype Mark = Empty | Marked(player: Player)

  /** A cubie; `marks[i]` belongs to local face i (see Faces.LocalNormal). */
  datatype Cubie = Cubie(pos: Vec, orient: Mat, marks: seq<Mark>)

  const CubieCount := 27

  const NoMarks: seq<Mark> := seq(FaceCount, _ => Empty)

  /** Position of the i-th cubie the game creates: x varies slowest and z
      fastest, each over -1, 0, 1. */
  function LatticePoint(i: nat): Vec
    requires i < CubieCount
  {
    Vec(i / 9 - 1, i / 3 % 3 - 1, i % 3 - 1)
  }

  /** Inverse of LatticePoint on the cube. */
  function LatticeIndex(p: Vec): int
    requires InCube(p)
  {
    (p.x + 1) * 9 + (p.y + 1) * 3 + (p.z + 1)
  }

  /** LatticePoint and LatticeIndex are inverse bijections between 0..26 and
      the lattice points of the cube. */
  lemma LatticePointNumbering(i: nat)
    requires i < CubieCount
    ensures InCube(LatticePoint(i)) && LatticeIndex(LatticePoint(i)) == i
  {
  }

  lemma LatticeIndexNumbering(p: Vec)
    requires InCube(p)
    ensures 0 <= LatticeIndex(p) < CubieCount && LatticePoint(LatticeIndex(p)) == p
  {
  }

  predicate WellFormedCubie(c: Cubie)
  {
    InCube(c.pos) && IsRotation(c.orient) && |c.marks| == FaceCount
  }

  predicate DistinctPositions(cs: seq<Cubie>)
  {
    forall i, j :: 0 <= i < j < |cs| ==> cs[i].pos != cs[j].pos
  }

  /** The lattice invariant: 27 well-formed cubies at 27 different lattice
      points. */
  predicate WellFormed(cs: seq<Cubie>)
  {
    && |cs| == CubieCount
    && (forall i :: 0 <= i < |cs| ==> WellFormedCubie(cs[i]))
    && DistinctPositions(cs)
  }

  /** Some cubie sits at p. */
  predicate Occupied(cs: seq<Cubie>, p: Vec)
  {
    exists i :: 0 <= i < |cs| && cs[i].pos == p
  }

  /** The lattice a new game starts from: one cubie per lattice point, each
      unrotated and with all six slots empty. */
  function InitialLattice(): (cs: seq<Cubie>)
    ensures WellFormed(cs)
    ensures forall p :: InCube(p) <==> Occupied(cs, p)
    ensures forall i :: 0 <= i < |cs| ==> cs[i].orient == Identity
    ensures forall i, f :: 0 <= i < |cs| && 0 <= f < |cs[i].marks| ==> cs[i].marks[f] == Empty
  {
    var cs := seq(CubieCount, i requires 0 <= i < CubieCount => Cubie(LatticePoint(i), Identity, NoMarks));
    InitialLatticeFacts(cs);
    cs
  }

  lemma InitialLatticeFacts(cs: seq<Cubie>)
    requires |cs| == CubieCount
    requires forall i :: 0 <= i < CubieCount ==> cs[i] == Cubie(LatticePoint(i), Identity, NoMarks)
    ensures WellFormed(cs)
    ensures forall p :: InCube(p) <==> Occupied(cs, p)
  {
    assert IsRotation(Identity);
    forall i | 0 <= i < CubieCount
      ensures WellFormedCubie(cs[i]) && LatticeIndex(cs[i].pos) == i
    {
      LatticePointNumbering(i);
    }
    assert DistinctPositions(cs);
    forall p | InCube(p)
      ensures Occupied(cs, p)
    {
      InitialLatticeOccupied(cs, p);
    }
  }

  lemma InitialLatticeOccupied(cs: seq<Cubie>, p: Vec)
    requires |cs| == CubieCount
    requires forall i :: 0 <= i < CubieCount ==> cs[i].pos == LatticePoint(i)
    requires InCube(p)
    ensures Occupied(cs, p)
  {
    LatticeIndexNumbering(p);
    var k := LatticeIndex(p);
    assert cs[k].pos == LatticePoint(k);
  }

  /** A well-formed lattice is a permutation of the lattice points: every
      lattice point is occupied, and only lattice points are. */
  lemma LatticeFilled(cs: seq<Cubie>)
    requires WellFormed(cs)
    ensures forall p :: InCube(p) <==> Occupied(cs, p)
  {
    var f := (i: int) => if 0 <= i < |cs| && InCube(cs[i].pos) then LatticeIndex(cs[i].pos) else -1;
    var all := Range(CubieCount);
    RangeCard(CubieCount);
    LatticeIndexMap(cs, f);
    InjectiveImageCard(all, f);
    SubsetOfSameSize(Image(all, f), all);
    forall p | InCube(p)
      ensures Occupied(cs, p)
    {
      OccupiedByIndex(cs, f, p);
    }
    forall p | Occupied(cs, p)
      ensures InCube(p)
    {
      var i :| 0 <= i < |cs| && cs[i].pos == p;
      assert WellFormedCubie(cs[i]);
    }
  }

  lemma OccupiedByIndex(cs: seq<Cubie>, f: int -> int, p: Vec)
    requires WellFormed(cs)
    requires forall i :: 0 <= i < |cs| ==> f(i) == LatticeIndex(cs[i].pos)
    requires Image(Range(CubieCount), f) == Range(CubieCount)
    requires InCube(p)
    ensures Occupied(cs, p)
  {
    LatticeIndexNumbering(p);
    var k := LatticeIndex(p);
    assert k in Image(Range(CubieCount), f);
    var i :| i in Range(CubieCount) && f(i) == k;
    LatticeIndexNumbering(cs[i].pos);
  }

  /** Numbering the cubies by the lattice index of their position is a
      one-to-one map of 0..26 into 0..26. */
  lemma LatticeIndexMap(cs: seq<Cubie>, f: int -> int)
    requires WellFormed(cs)
    requires forall i :: 0 <= i < |cs| ==> f(i) == LatticeIndex(cs[i].pos)
    ensures InjectiveOn(Range(CubieCount), f)
    ensures Image(Range(CubieCount), f) <= Range(CubieCount)
  {
    var all := Range(CubieCount);
    forall i, j | i in all && j in all && f(i) == f(j)
      ensures i == j
    {
      LatticeIndexNumbering(cs[i].pos);
      LatticeIndexNumbering(cs[j].pos);
    }
    forall k | k in Image(all, f)
      ensures k in all
    {
      var i :| i in all && f(i) == k;
      LatticeIndexNumbering(cs[i].pos);
    }
  }

  /** The cubie is in the layer `position[axis] == v`. */
  predicate InLayer(c: Cubie, a: Axis, v: int)
  {
    Coord(c.pos, a) == v
  }

  /** Indices of the cubies a rotation of layer (a, v) selects. */
  function LayerIndices(cs: seq<Cubie>, a: Axis, v: int): set<int>
  {
    set i | 0 <= i < |cs| && InLayer(cs[i], a, v)
  }

  /** Where a point of a layer sits within the layer: the two coordinates
      other than the layer's axis, numbered 0..8. */
  function LayerSlot(p: Vec, a: Axis): int
  {
    match a
    case XAxis => 3 * (p.y + 1) + (p.z + 1)
    case YAxis => 3 * (p.x + 1) + (p.z + 1)
    case ZAxis => 3 * (p.x + 1) + (p.y + 1)
  }

  /** The point of layer (a, v) at slot s. */
  function SlotPoint(a: Axis, v: int, s: nat): Vec
    requires s < 9
  {
    var (u, w) := (s / 3 - 1, s % 3 - 1);
    match a
    case XAxis => Vec(v, u, w)
    case YAxis => Vec(u, v, w)
    case ZAxis => Vec(u, w, v)
  }

  lemma LayerSlotNumbering(a: Axis, v: int, p: Vec)
    requires InCube(p) && Coord(p, a) == v
    ensures 0 <= LayerSlot(p, a) < 9 && SlotPoint(a, v, LayerSlot(p, a)) == p
  {
  }

  lemma SlotPointNumbering(a: Axis, v: int, s: nat)
    requires InUnitRange(v) && s < 9
    ensures InCube(SlotPoint(a, v, s)) && Coord(SlotPoint(a, v, s), a) == v
    ensures LayerSlot(SlotPoint(a, v, s), a) == s
  {
  }

  /** Every layer of a well-formed lattice holds exactly nine cubies. */
  lemma LayerHasNine(cs: seq<Cubie>, a: Axis, v: int)
    requires WellFormed(cs)
    requires InUnitRange(v)
    ensures |LayerIndices(cs, a, v)| == 9
  {
    var layer := LayerIndices(cs, a, v);
    var g := (i: int) => if 0 <= i < |cs| then LayerSlot(cs[i].pos, a) else -1;
    LayerSlotMap(cs, a, v, g);
    InjectiveImageCard(layer, g);
    RangeCard(9);
    LatticeFilled(cs);
    forall s | s in Range(9)
      ensures s in Image(layer, g)
    {
      var p := SlotPoint(a, v, s);
      SlotPointNumbering(a, v, s);
      assert Occupied(cs, p);
      var i :| 0 <= i < |cs| && cs[i].pos == p;
      assert i in layer;
    }
    assert Image(layer, g) == Range(9);
  }

  /** Numbering the cubies of a layer by their slot within the layer is a
      one-to-one map into 0..8. */
  lemma LayerSlotMap(cs: seq<Cubie>, a: Axis, v: int, g: int -> int)
    requires WellFormed(cs)
    requires forall i :: 0 <= i < |cs| ==> g(i) == LayerSlot(cs[i].pos, a)
    ensures InjectiveOn(LayerIndices(cs, a, v), g)
    ensures Image(LayerIndices(cs, a, v), g) <= Range(9)
  {
    var layer := LayerIndices(cs, a, v);
    forall i, j | i in layer && j in layer && g(i) == g(j)
      ensures i == j
    {
      LayerSlotNumbering(a, v, cs[i].pos);
      LayerSlotNumbering(a, v, cs[j].pos);
    }
    forall s | s in Image(layer, g)
      ensures s in Range(9)
    {
      var i :| i in layer && g(i) == s;
      LayerSlotNumbering(a, v, cs[i].pos);
    }
  }

  /** One cubie after a quarter turn of its layer: position and orientation
      turn, the marks travel unchanged with it. */
  function TurnCubie(c: Cubie, a: Axis, t: Turn): (r: Cubie)
    ensures r.marks == c.marks
    ensures r.pos == Apply(QuarterTurn(a, t), c.pos)
    ensures forall f :: 0 <= f < FaceCount ==>
      WorldNormal(r.orient, f) == Apply(QuarterTurn(a, t), WorldNormal(c.orient, f))
  {
    var q := QuarterTurn(a, t);
    QuarterTurnCarriesAllFaces(a, t, c.orient);
    Cubie(Apply(q, c.pos), Mul(q, c.orient), c.marks)
  }

  /** The committed effect of turning layer (a, v) a quarter turn t: the
      cubies of that layer turn, every other cubie is left as it was, and no
      cubie's marks change. */
  function RotateLayer(cs: seq<Cubie>, a: Axis, v: int, t: Turn): (r: seq<Cubie>)
    ensures |r| == |cs|
    ensures forall i :: 0 <= i < |cs| ==> r[i].marks == cs[i].marks
    ensures forall i :: 0 <= i < |cs| ==> (InLayer(r[i], a, v) <==> InLayer(cs[i], a, v))
    ensures forall i :: 0 <= i < |cs| && !InLayer(cs[i], a, v) ==> r[i] == cs[i]
    ensures forall i :: 0 <= i < |cs| && InLayer(cs[i], a, v) ==>
      && r[i].pos == Apply(QuarterTurn(a, t), cs[i].pos)
      && forall f :: 0 <= f < FaceCount ==>
           WorldNormal(r[i].orient, f) == Apply(QuarterTurn(a, t), WorldNormal(cs[i].orient, f))
  {
    var r := seq(|cs|, i requires 0 <= i < |cs| => if InLayer(cs[i], a, v) then TurnCubie(cs[i], a, t) else cs[i]);
    forall i | 0 <= i < |cs|
      ensures InLayer(r[i], a, v) <==> InLayer(cs[i], a, v)
    {
      QuarterTurnOnVectors(a, t, cs[i].pos);
    }
    r
  }

  /** Closure: a layer rotation keeps every position in the cube, keeps the
      positions distinct, and keeps every orientation in the rotation group. */
  lemma RotateLayerPreservesWellFormed(cs: seq<Cubie>, a: Axis, v: int, t: Turn)
    requires WellFormed(cs)
    ensures WellFormed(RotateLayer(cs, a, v, t))
  {
    var r := RotateLayer(cs, a, v, t);
    forall i | 0 <= i < |r|
      ensures WellFormedCubie(r[i])
    {
      QuarterTurnOnVectors(a, t, cs[i].pos);
      QuarterTurnPreservesRotation(a, t, cs[i].orient);
    }
    forall i, j | 0 <= i < j < |r|
      ensures r[i].pos != r[j].pos
    {
      QuarterTurnOnVectors(a, t, cs[i].pos);
      QuarterTurnOnVectors(a, t, cs[j].pos);
    }
  }

  /** A quarter turn followed by the opposite quarter turn of the same layer
      restores every position and orientation. */
  lemma RotateLayerUndone(cs: seq<Cubie>, a: Axis, v: int, t: Turn)
    ensures RotateLayer(RotateLayer(cs, a, v, t), a, v, Opposite(t)) == cs
  {
    var r := RotateLayer(RotateLayer(cs, a, v, t), a, v, Opposite(t));
    forall i | 0 <= i < |cs|
      ensures r[i] == cs[i]
    {
      QuarterTurnOnVectors(a, t, cs[i].pos);
      QuarterTurnUndone(a, t, cs[i].orient);
    }
  }

  /** Four quarter turns of the same layer in the same direction restore
      every position and orientation. */
  lemma RotateLayerFourTimes(cs: seq<Cubie>, a: Axis, v: int, t: Turn)
    ensures RotateLayer(RotateLayer(RotateLayer(RotateLayer(cs, a, v, t), a, v, t), a, v, t), a, v, t) == cs
  {
    var r1 := RotateLayer(cs, a, v, t);
    var r2 := RotateLayer(r1, a, v, t);
    var r3 := RotateLayer(r2, a, v, t);
    var r4 := RotateLayer(r3, a, v, t);
    forall i | 0 <= i < |cs|
      ensures r4[i] == cs[i]
    {
      QuarterTurnOrderFour(a, t, cs[i].pos, cs[i].orient);
    }
  }
}
