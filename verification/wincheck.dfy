/** The win evaluator: the front layer (z = 1) projected onto a 3x3 grid of
    the marks facing the viewer, and the scan of its eight lines. */
module WinCheck {
  import opened Geometry
  import opened Faces
  import opened Lattice

  /** A 3x3 grid of marks, indexed grid[y + 1][x + 1]. */
  type Grid = seq<seq<Mark>>

  predicate IsGrid(g: Grid)
  {
    |g| == 3 && forall y :: 0 <= y < 3 ==> |g[y]| == 3
  }

  const EmptyRow: seq<Mark> := [Empty, Empty, Empty]
  const EmptyGrid: Grid := [EmptyRow, EmptyRow, EmptyRow]

  /** The cubie is in the front layer, the one facing the viewer. */
  predicate InFront(c: Cubie)
  {
    c.pos.z == 1
  }

  /** The mark in the slot of c's front-facing face.  When no face is found
      the game reads a slot that does not exist, which counts as empty. */
  function FrontMark(c: Cubie): (m: Mark)
    ensures 0 <= FrontFace(c.orient) < |c.marks| ==> m == c.marks[FrontFace(c.orient)]
    ensures m != Empty ==> 0 <= FrontFace(c.orient) < |c.marks|
  {
    var f := FrontFace(c.orient);
    if 0 <= f < |c.marks| then c.marks[f] else Empty
  }

  /** The grid cell of a front cubie, from its x and y coordinates. */
  predicate HasCell(c: Cubie)
  {
    InFront(c) && InUnitRange(c.pos.x) && InUnitRange(c.pos.y)
  }

  /** Writes a front cubie's front mark into its cell; other cubies leave the
      grid alone. */
  function Place(g: Grid, c: Cubie): (r: Grid)
    requires IsGrid(g)
    ensures IsGrid(r)
  {
    if HasCell(c) then g[c.pos.y + 1 := g[c.pos.y + 1][c.pos.x + 1 := FrontMark(c)]] else g
  }

  /** The projected front grid, built by visiting the cubies in order (a
      later cubie at the same cell would overwrite an earlier one).  When
      positions are distinct, each cell holds the front mark of the front
      cubie at that position, and a cell with no cubie stays empty. */
  function FrontGrid(cs: seq<Cubie>): (g: Grid)
    ensures IsGrid(g)
    ensures DistinctPositions(cs) ==> ShowsFrontMarks(g, cs)
    ensures LeavesUnoccupiedEmpty(g, cs)
  {
    if cs == [] then EmptyGrid
    else
      var g0 := FrontGrid(cs[..|cs| - 1]);
      PlaceLast(cs, g0);
      Place(g0, cs[|cs| - 1])
  }

  /** Each front cubie's cell holds its front mark. */
  predicate ShowsFrontMarks(g: Grid, cs: seq<Cubie>)
    requires IsGrid(g)
  {
    forall i :: 0 <= i < |cs| && HasCell(cs[i]) ==> g[cs[i].pos.y + 1][cs[i].pos.x + 1] == FrontMark(cs[i])
  }

  /** Every cell with no cubie at its front position is empty. */
  predicate LeavesUnoccupiedEmpty(g: Grid, cs: seq<Cubie>)
    requires IsGrid(g)
  {
    forall y, x :: 0 <= y < 3 && 0 <= x < 3 && !Occupied(cs, Vec(x - 1, y - 1, 1)) ==> g[y][x] == Empty
  }

  /** One step of the fold: placing the last cubie keeps the cell reading
      of the earlier ones. */
  lemma PlaceLast(cs: seq<Cubie>, g0: Grid)
    requires cs != [] && IsGrid(g0)
    requires DistinctPositions(cs[..|cs| - 1]) ==> ShowsFrontMarks(g0, cs[..|cs| - 1])
    requires LeavesUnoccupiedEmpty(g0, cs[..|cs| - 1])
    ensures DistinctPositions(cs) ==> ShowsFrontMarks(Place(g0, cs[|cs| - 1]), cs)
    ensures LeavesUnoccupiedEmpty(Place(g0, cs[|cs| - 1]), cs)
  {
    var init := cs[..|cs| - 1];
    var last := cs[|cs| - 1];
    var g := Place(g0, last);
    if DistinctPositions(cs) {
      assert DistinctPositions(init);
      forall i | 0 <= i < |cs| && HasCell(cs[i])
        ensures g[cs[i].pos.y + 1][cs[i].pos.x + 1] == FrontMark(cs[i])
      {
        if i < |cs| - 1 {
          assert cs[i] == init[i];
          assert cs[i].pos != last.pos;
        }
      }
    }
    forall y, x | 0 <= y < 3 && 0 <= x < 3 && !Occupied(cs, Vec(x - 1, y - 1, 1))
      ensures g[y][x] == Empty
    {
      assert last.pos != Vec(x - 1, y - 1, 1);
      forall j | 0 <= j < |init|
        ensures init[j].pos != Vec(x - 1, y - 1, 1)
      {
        assert init[j] == cs[j];
      }
    }
  }

  /** On a well-formed lattice every cell of the front grid holds the front
      mark of the one cubie at that front position. */
  lemma FrontGridOfLattice(cs: seq<Cubie>, x: int, y: int)
    requires WellFormed(cs)
    requires 0 <= x < 3 && 0 <= y < 3
    ensures exists i :: 0 <= i < |cs| && cs[i].pos == Vec(x - 1, y - 1, 1) && FrontGrid(cs)[y][x] == FrontMark(cs[i])
  {
    LatticeFilled(cs);
    assert Occupied(cs, Vec(x - 1, y - 1, 1));
    var i :| 0 <= i < |cs| && cs[i].pos == Vec(x - 1, y - 1, 1);
    assert HasCell(cs[i]);
  }

  /** Three cells of the grid. */
  datatype Line = Line(a: Mark, b: Mark, c: Mark)

  function Row(g: Grid, y: nat): Line
    requires IsGrid(g) && y < 3
  {
    Line(g[y][0], g[y][1], g[y][2])
  }

  function Column(g: Grid, x: nat): Line
    requires IsGrid(g) && x < 3
  {
    Line(g[0][x], g[1][x], g[2][x])
  }

  /** The eight lines in scan order: row 0, column 0, row 1, column 1, row 2,
      column 2, the main diagonal, the anti-diagonal. */
  function Lines(g: Grid): (ls: seq<Line>)
    requires IsGrid(g)
    ensures |ls| == 8
    ensures forall k :: 0 <= k < 3 ==> ls[2 * k] == Line(g[k][0], g[k][1], g[k][2])
    ensures forall k :: 0 <= k < 3 ==> ls[2 * k + 1] == Line(g[0][k], g[1][k], g[2][k])
    ensures ls[6] == Line(g[0][0], g[1][1], g[2][2]) && ls[7] == Line(g[0][2], g[1][1], g[2][0])
  {
    [Row(g, 0), Column(g, 0), Row(g, 1), Column(g, 1), Row(g, 2), Column(g, 2),
     Line(g[0][0], g[1][1], g[2][2]), Line(g[0][2], g[1][1], g[2][0])]
  }

  /** A line wins when its three cells hold the same mark. */
  predicate Completes(l: Line)
  {
    l.a != Empty && l.a == l.b && l.a == l.c
  }

  /** The mark of the first winning line, or Empty when no line wins. */
  function FirstCompleted(ls: seq<Line>): (w: Mark)
    ensures w == Empty <==> forall k :: 0 <= k < |ls| ==> !Completes(ls[k])
    ensures w != Empty ==>
      (exists k :: 0 <= k < |ls| && Completes(ls[k]) && ls[k].a == w && NoneCompleteBefore(ls, k))
  {
    if ls == [] then Empty
    else if Completes(ls[0]) then ls[0].a
    else FirstCompleted(ls[1..])
  }

  /** No line before index k wins. */
  predicate NoneCompleteBefore(ls: seq<Line>, k: int)
  {
    forall j :: 0 <= j < k && j < |ls| ==> !Completes(ls[j])
  }

  /** The winner the scan reports for grid g (Empty for none). */
  function Winner(g: Grid): (w: Mark)
    requires IsGrid(g)
    ensures w == Empty <==> forall p :: !HasLine(g, p)
    ensures w != Empty ==> HasLine(g, w.player)
    ensures w != Empty ==> exists k :: 0 <= k < 8 && Completes(Lines(g)[k]) && Lines(g)[k].a == w && NoneCompleteBefore(Lines(g), k)
  {
    ScanFindsOwnedLine(g);
    FirstCompleted(Lines(g))
  }

  /** Every cell of row y holds p's mark. */
  predicate OwnsRow(g: Grid, y: int, p: Player)
    requires IsGrid(g) && 0 <= y < 3
  {
    forall x :: 0 <= x < 3 ==> g[y][x] == Marked(p)
  }

  /** Every cell of column x holds p's mark. */
  predicate OwnsColumn(g: Grid, x: int, p: Player)
    requires IsGrid(g) && 0 <= x < 3
  {
    forall y :: 0 <= y < 3 ==> g[y][x] == Marked(p)
  }

  /** Player p owns a complete row, column or diagonal of g. */
  predicate HasLine(g: Grid, p: Player)
    requires IsGrid(g)
  {
    || (exists y :: 0 <= y < 3 && OwnsRow(g, y, p))
    || (exists x :: 0 <= x < 3 && OwnsColumn(g, x, p))
    || (g[0][0] == Marked(p) && g[1][1] == Marked(p) && g[2][2] == Marked(p))
    || (g[0][2] == Marked(p) && g[1][1] == Marked(p) && g[2][0] == Marked(p))
  }

  /** The scan of the eight lines finds a complete one exactly when some
      player owns a line, and the mark it finds owns one. */
  lemma ScanFindsOwnedLine(g: Grid)
    requires IsGrid(g)
    ensures FirstCompleted(Lines(g)) == Empty <==> forall p :: !HasLine(g, p)
    ensures FirstCompleted(Lines(g)) != Empty ==> HasLine(g, FirstCompleted(Lines(g)).player)
  {
    var ls := Lines(g);
    forall p | HasLine(g, p)
      ensures exists k :: 0 <= k < 8 && Completes(ls[k])
    {
      OwnedLineIsComplete(g, p);
    }
    var w := FirstCompleted(ls);
    if w != Empty {
      var k :| 0 <= k < 8 && Completes(ls[k]) && ls[k].a == w;
      CompleteLineIsOwned(g, k);
    }
  }

  lemma OwnedLineIsComplete(g: Grid, p: Player)
    requires IsGrid(g) && HasLine(g, p)
    ensures exists k :: 0 <= k < 8 && Completes(Lines(g)[k])
  {
    var ls := Lines(g);
    if exists y :: 0 <= y < 3 && OwnsRow(g, y, p) {
      var y :| 0 <= y < 3 && OwnsRow(g, y, p);
      assert Completes(ls[2 * y]);
    } else if exists x :: 0 <= x < 3 && OwnsColumn(g, x, p) {
      var x :| 0 <= x < 3 && OwnsColumn(g, x, p);
      assert Completes(ls[2 * x + 1]);
    } else if g[0][0] == Marked(p) && g[1][1] == Marked(p) && g[2][2] == Marked(p) {
      assert Completes(ls[6]);
    } else {
      assert Completes(ls[7]);
    }
  }

  lemma CompleteLineIsOwned(g: Grid, k: int)
    requires IsGrid(g) && 0 <= k < 8 && Completes(Lines(g)[k])
    ensures HasLine(g, Lines(g)[k].a.player)
  {
    var ls := Lines(g);
    var p := ls[k].a.player;
    if k % 2 == 0 && k < 6 {
      assert OwnsRow(g, k / 2, p);
    } else if k < 6 {
      assert OwnsColumn(g, k / 2, p);
    }
  }
}
