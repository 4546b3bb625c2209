/** The game session: turn bookkeeping, the two-phase rotation lock, mark
    placement, the key bindings, and the invariants every reachable session
    keeps. */
module Game {
  import opened Geometry
  import opened Faces
  import opened Lattice
  import opened WinCheck

  datatype Option<T> = None | Some(value: T)

  /** The rotation lock: a layer turn that has begun but not yet been
      committed holds the lock and blocks every other move. */
  datatype Lock = Idle | Rotating(axis: Axis, layer: int, turn: Turn)

  datatype Session = Session(
    cubies: seq<Cubie>,
    player: Player,
    moveCount: nat,
    winner: Mark,
    lock: Lock)

  /** The invariant of every reachable session: a well-formed lattice, and a
      rotation in flight only for a layer of the cube and only while nobody
      has won. */
  predicate Valid(s: Session)
  {
    && WellFormed(s.cubies)
    && (s.lock.Rotating? ==> s.winner == Empty && InUnitRange(s.lock.layer))
  }

  /** A fresh game: the initial lattice, X to move, no moves, no winner, no
      rotation in flight. */
  function Reset(): (s: Session)
    ensures Valid(s)
    ensures s.player == X && s.moveCount == 0 && s.winner == Empty && s.lock == Idle
    ensures forall p :: InCube(p) <==> Occupied(s.cubies, p)
    ensures forall i :: 0 <= i < |s.cubies| ==> s.cubies[i].orient == Identity
    ensures forall i, f :: 0 <= i < |s.cubies| && 0 <= f < |s.cubies[i].marks| ==> s.cubies[i].marks[f] == Empty
  {
    Session(InitialLattice(), X, 0, Empty, Idle)
  }

  /** No winner and no rotation in flight: the only state in which a move
      is accepted. */
  predicate Accepting(s: Session)
  {
    s.winner == Empty && s.lock == Idle
  }

  /** The win check run after each move: the first winning line of the front
      grid becomes the winner; when no line wins the winner is left as it
      was. */
  function Evaluate(s: Session): (r: Session)
    ensures r.(winner := s.winner) == s
    ensures s.winner != Empty ==> r.winner != Empty
    ensures r.winner != s.winner ==> r.winner != Empty && HasLine(FrontGrid(s.cubies), r.winner.player)
    ensures (forall p :: !HasLine(FrontGrid(s.cubies), p)) ==> r == s
    ensures Winner(FrontGrid(s.cubies)) != Empty ==> r.winner == Winner(FrontGrid(s.cubies))
    ensures s.winner == Empty ==> (r.winner != Empty <==> exists p :: HasLine(FrontGrid(s.cubies), p))
  {
    var g := FrontGrid(s.cubies);
    var w := Winner(g);
    if w != Empty then s.(winner := w) else s
  }

  /** First phase of a layer rotation: when a move is accepted, take the
      lock for (a, v, t); otherwise nothing happens. */
  function BeginRotation(s: Session, a: Axis, v: int, t: Turn): (r: Session)
    ensures !Accepting(s) ==> r == s
    ensures Accepting(s) ==> r.lock == Rotating(a, v, t) && r.(lock := Idle) == s
  {
    if Accepting(s) then s.(lock := Rotating(a, v, t)) else s
  }

  /** Second phase: the animation has finished.  The layer turns as one
      atomic step, the move is counted, the turn passes, the lock is
      released and the win check runs.  Without a rotation in flight there
      is nothing to commit. */
  function CommitRotation(s: Session): (r: Session)
    ensures s.lock == Idle ==> r == s
    ensures s.lock.Rotating? ==>
      && r.cubies == RotateLayer(s.cubies, s.lock.axis, s.lock.layer, s.lock.turn)
      && r.moveCount == s.moveCount + 1
      && r.player == Other(s.player)
      && r.lock == Idle
    ensures s.lock.Rotating? && s.winner == Empty ==>
      && r.winner == Winner(FrontGrid(r.cubies))
      && (r.winner != Empty <==> exists p :: HasLine(FrontGrid(r.cubies), p))
    ensures s.winner != Empty ==> r.winner != Empty
    ensures |r.cubies| == |s.cubies|
    ensures forall i :: 0 <= i < |s.cubies| ==> r.cubies[i].marks == s.cubies[i].marks
  {
    match s.lock
    case Idle => s
    case Rotating(a, v, t) =>
      Evaluate(Session(RotateLayer(s.cubies, a, v, t), Other(s.player), s.moveCount + 1, s.winner, Idle))
  }

  /** The slot of cubie i that faces the viewer, when it has one. */
  function FrontSlot(s: Session, i: nat): int
    requires i < |s.cubies|
  {
    FrontFace(s.cubies[i].orient)
  }

  /** Cubie i may be marked: a move is accepted, the cubie is in the front
      layer, and its front-facing slot is empty. */
  function CanMark(s: Session, i: nat): (ok: bool)
    requires i < |s.cubies|
    ensures ok ==> Accepting(s) && InFront(s.cubies[i]) && FrontMark(s.cubies[i]) == Empty
    ensures Accepting(s) && InFront(s.cubies[i]) && WellFormedCubie(s.cubies[i]) && FrontMark(s.cubies[i]) == Empty ==> ok
  {
    var f := FrontSlot(s, i);
    FrontFaceDefined(s.cubies[i]);
    && Accepting(s)
    && InFront(s.cubies[i])
    && 0 <= f < |s.cubies[i].marks|
    && s.cubies[i].marks[f] == Empty
  }

  lemma FrontFaceDefined(c: Cubie)
    ensures WellFormedCubie(c) ==> 0 <= FrontFace(c.orient) < |c.marks|
  {
    if WellFormedCubie(c) {
      FrontFaceUnique(c.orient);
    }
  }

  /** What a click hit: nothing, or the cubie with the given index. */
  datatype Hit = Miss | HitCubie(index: nat)

  predicate HitInRange(s: Session, hit: Hit)
  {
    hit.HitCubie? ==> hit.index < |s.cubies|
  }

  /** A click: when cubie i may be marked, its front-facing slot receives the
      current player's mark, the move is counted, the turn passes and the win
      check runs; every other click changes nothing. */
  function PlaceMark(s: Session, hit: Hit): (r: Session)
    requires HitInRange(s, hit)
    ensures r != s <==> hit.HitCubie? && CanMark(s, hit.index)
    ensures hit.HitCubie? && CanMark(s, hit.index) ==>
      var (i, f) := (hit.index, FrontSlot(s, hit.index));
      && |r.cubies| == |s.cubies|
      && r.cubies[i] == s.cubies[i].(marks := s.cubies[i].marks[f := Marked(s.player)])
      && (forall j :: 0 <= j < |s.cubies| && j != i ==> r.cubies[j] == s.cubies[j])
      && r.moveCount == s.moveCount + 1
      && r.player == Other(s.player)
      && r.lock == Idle
      && r.winner == Winner(FrontGrid(r.cubies))
      && (r.winner != Empty <==> exists p :: HasLine(FrontGrid(r.cubies), p))
  {
    if hit.HitCubie? && CanMark(s, hit.index) then
      var i := hit.index;
      var c := s.cubies[i];
      var marked := c.(marks := c.marks[FrontSlot(s, i) := Marked(s.player)]);
      assert marked != c by {
        assert marked.marks[FrontSlot(s, i)] != c.marks[FrontSlot(s, i)];
      }
      assert s.cubies[i := marked][i] != s.cubies[i];
      Evaluate(Session(s.cubies[i := marked], Other(s.player), s.moveCount + 1, s.winner, Idle))
    else
      s
  }

  /** A layer rotation request: turn layer `layer` of `axis` by `turn`. */
  datatype Command = Command(axis: Axis, layer: int, turn: Turn)

  function LowerChar(c: char): char
  {
    if 'A' <= c <= 'Z' then (c as int - 'A' as int + 'a' as int) as char else c
  }

  /** The key name with ASCII capitals folded to lower case. */
  function ToLower(key: string): (r: string)
    ensures |r| == |key|
    ensures forall i :: 0 <= i < |key| ==> r[i] == LowerChar(key[i])
  {
    if key == [] then [] else [LowerChar(key[0])] + ToLower(key[1..])
  }

  /** The key bindings: 1, 2, 3 turn the x layers -1, 0, 1 by -90 degrees;
      q, w, e turn the y layers 1, 0, -1 by +90 degrees; other keys do
      nothing. */
  function KeyCommand(key: string): (r: Option<Command>)
    ensures r.Some? ==> InUnitRange(r.value.layer)
    ensures r.Some? ==> (r.value.axis == XAxis && r.value.turn == Minus) || (r.value.axis == YAxis && r.value.turn == Plus)
    ensures r.Some? <==> ToLower(key) in {"1", "2", "3", "q", "w", "e"}
    ensures ToLower(key) == "1" ==> r == Some(Command(XAxis, -1, Minus))
    ensures ToLower(key) == "2" ==> r == Some(Command(XAxis, 0, Minus))
    ensures ToLower(key) == "3" ==> r == Some(Command(XAxis, 1, Minus))
    ensures ToLower(key) == "q" ==> r == Some(Command(YAxis, 1, Plus))
    ensures ToLower(key) == "w" ==> r == Some(Command(YAxis, 0, Plus))
    ensures ToLower(key) == "e" ==> r == Some(Command(YAxis, -1, Plus))
  {
    var k := ToLower(key);
    if k == "1" then Some(Command(XAxis, -1, Minus))
    else if k == "2" then Some(Command(XAxis, 0, Minus))
    else if k == "3" then Some(Command(XAxis, 1, Minus))
    else if k == "q" then Some(Command(YAxis, 1, Plus))
    else if k == "w" then Some(Command(YAxis, 0, Plus))
    else if k == "e" then Some(Command(YAxis, -1, Plus))
    else None
  }

  /** Every layer the bindings can turn has exactly one key: each x layer
      downwards and each y layer to the right, and nothing else. */
  lemma KeyBindingsCoverLayers(c: Command)
    ensures (exists key :: KeyCommand(key) == Some(c)) <==>
      (c.axis == XAxis && c.turn == Minus && InUnitRange(c.layer)) || (c.axis == YAxis && c.turn == Plus && InUnitRange(c.layer))
  {
    if (c.axis == XAxis && c.turn == Minus && InUnitRange(c.layer)) || (c.axis == YAxis && c.turn == Plus && InUnitRange(c.layer)) {
      var key :=
        if c.axis == XAxis then (if c.layer == -1 then "1" else if c.layer == 0 then "2" else "3")
        else (if c.layer == 1 then "q" else if c.layer == 0 then "w" else "e");
      assert ToLower(key) == key;
      assert KeyCommand(key) == Some(c);
    }
  }

  /** The binding table, read case-insensitively: Q, W and E act like q, w
      and e. */
  lemma KeyBindingTable()
    ensures KeyCommand("1") == Some(Command(XAxis, -1, Minus))
    ensures KeyCommand("2") == Some(Command(XAxis, 0, Minus))
    ensures KeyCommand("3") == Some(Command(XAxis, 1, Minus))
    ensures KeyCommand("q") == KeyCommand("Q") == Some(Command(YAxis, 1, Plus))
    ensures KeyCommand("w") == KeyCommand("W") == Some(Command(YAxis, 0, Plus))
    ensures KeyCommand("e") == KeyCommand("E") == Some(Command(YAxis, -1, Plus))
    ensures KeyCommand("4") == KeyCommand("r") == KeyCommand("") == None
  {
    assert ToLower("Q") == "q";
    assert ToLower("W") == "w";
    assert ToLower("E") == "e";
  }

  /** The user actions and the end of a rotation animation. */
  datatype Action = Click(hit: Hit) | KeyDown(key: string) | RotationDone | ResetGame

  predicate ActionFits(s: Session, act: Action)
  {
    act.Click? ==> HitInRange(s, act.hit)
  }

  /** One event of the game loop. */
  function Step(s: Session, act: Action): (r: Session)
    requires ActionFits(s, act)
    ensures !act.ResetGame? ==>
      || (r.moveCount == s.moveCount && r.player == s.player)
      || (r.moveCount == s.moveCount + 1 && r.player == Other(s.player))
    ensures !act.ResetGame? && !act.RotationDone? && !Accepting(s) ==> r == s
    ensures act.ResetGame? ==> r.moveCount == 0 && r.player == X && Accepting(r)
    ensures !act.ResetGame? ==>
      (r.moveCount == s.moveCount + 1 <==>
         || (act.Click? && act.hit.HitCubie? && CanMark(s, act.hit.index))
         || (act.RotationDone? && s.lock.Rotating?))
    ensures act.KeyDown? && Accepting(s) && KeyCommand(act.key).Some? ==>
      var c := KeyCommand(act.key).value;
      r.lock == Rotating(c.axis, c.layer, c.turn) && r.cubies == s.cubies
  {
    match act
    case Click(hit) => PlaceMark(s, hit)
    case KeyDown(key) =>
      (match KeyCommand(key)
       case None => s
       case Some(c) => BeginRotation(s, c.axis, c.layer, c.turn))
    case RotationDone => CommitRotation(s)
    case ResetGame => Reset()
  }

  /** Every event keeps a valid session valid. */
  lemma StepPreservesValid(s: Session, act: Action)
    requires Valid(s) && ActionFits(s, act)
    ensures Valid(Step(s, act))
  {
    match act
    case Click(hit) =>
      if hit.HitCubie? && CanMark(s, hit.index) {
        MarkKeepsLattice(s, hit.index);
      }
    case KeyDown(key) =>
    case RotationDone =>
      if s.lock.Rotating? {
        RotateLayerPreservesWellFormed(s.cubies, s.lock.axis, s.lock.layer, s.lock.turn);
      }
    case ResetGame =>
  }

  lemma MarkKeepsLattice(s: Session, i: nat)
    requires WellFormed(s.cubies) && i < |s.cubies| && CanMark(s, i)
    ensures WellFormed(PlaceMark(s, HitCubie(i)).cubies)
  {
    var r := PlaceMark(s, HitCubie(i));
    assert forall j :: 0 <= j < |s.cubies| ==> r.cubies[j].pos == s.cubies[j].pos && r.cubies[j].orient == s.cubies[j].orient;
    assert forall j :: 0 <= j < |s.cubies| ==> WellFormedCubie(r.cubies[j]);
  }

  /** In a valid session every cubie has exactly one front-facing face, so
      the resolver never answers -1. */
  lemma ValidFrontFaces(s: Session, i: nat)
    requires Valid(s) && i < |s.cubies|
    ensures 0 <= FrontSlot(s, i) < FaceCount
    ensures forall j :: 0 <= j < FaceCount ==> (FacesFront(s.cubies[i].orient, j) <==> j == FrontSlot(s, i))
  {
    FrontFaceUnique(s.cubies[i].orient);
  }

  /** While a rotation is in flight, clicks and key presses change nothing. */
  lemma LockedSessionIgnoresInput(s: Session, act: Action)
    requires s.lock.Rotating? && ActionFits(s, act)
    requires act.Click? || act.KeyDown?
    ensures Step(s, act) == s
  {
  }

  /** Once a valid session has a winner, only a reset changes it. */
  lemma WinnerIsFinal(s: Session, act: Action)
    requires Valid(s) && s.winner != Empty && ActionFits(s, act)
    requires !act.ResetGame?
    ensures Step(s, act) == s
  {
  }

  /** A mark, once set, is never overwritten or cleared except by a reset. */
  lemma MarksPersist(s: Session, act: Action, i: nat, f: nat)
    requires ActionFits(s, act) && !act.ResetGame?
    requires i < |s.cubies| && f < |s.cubies[i].marks| && s.cubies[i].marks[f] != Empty
    ensures i < |Step(s, act).cubies| && f < |Step(s, act).cubies[i].marks|
    ensures Step(s, act).cubies[i].marks[f] == s.cubies[i].marks[f]
  {
    match act
    case Click(hit) =>
      if hit.HitCubie? && CanMark(s, hit.index) && hit.index == i {
        assert f != FrontSlot(s, i);
      }
    case KeyDown(key) =>
    case RotationDone =>
    case ResetGame =>
  }

  /** A layer turn followed by the opposite turn of the same layer restores
      every cubie, when the first turn did not end the game. */
  lemma RotationRoundTrip(s: Session, a: Axis, v: int, t: Turn)
    requires Accepting(s)
    ensures var mid := CommitRotation(BeginRotation(s, a, v, t));
      mid.winner == Empty ==>
        var back := CommitRotation(BeginRotation(mid, a, v, Opposite(t)));
        back.cubies == s.cubies && back.player == s.player && back.moveCount == s.moveCount + 2
  {
    RotateLayerUndone(s.cubies, a, v, t);
  }

  /** A successful click shows up in the projected grid: the clicked cubie's
      cell holds the mover's mark. */
  lemma MarkShowsInGrid(s: Session, i: nat)
    requires Valid(s) && i < |s.cubies| && CanMark(s, i)
    ensures var c := s.cubies[i];
      FrontGrid(PlaceMark(s, HitCubie(i)).cubies)[c.pos.y + 1][c.pos.x + 1] == Marked(s.player)
  {
    assert WellFormedCubie(s.cubies[i]);
    MarkedCell(s, i);
  }

  lemma MarkedCell(s: Session, i: nat)
    requires DistinctPositions(s.cubies) && i < |s.cubies| && CanMark(s, i)
    requires InCube(s.cubies[i].pos)
    ensures var c := s.cubies[i];
      FrontGrid(PlaceMark(s, HitCubie(i)).cubies)[c.pos.y + 1][c.pos.x + 1] == Marked(s.player)
  {
    var cs := PlaceMark(s, HitCubie(i)).cubies;
    assert |cs| == |s.cubies|;
    assert forall j :: 0 <= j < |cs| ==> cs[j].pos == s.cubies[j].pos;
    assert DistinctPositions(cs);
    assert HasCell(cs[i]);
    assert FrontMark(cs[i]) == Marked(s.player);
    CellOfCubie(cs, i, Marked(s.player));
  }

  lemma CellOfCubie(cs: seq<Cubie>, i: nat, m: Mark)
    requires DistinctPositions(cs) && i < |cs| && HasCell(cs[i]) && FrontMark(cs[i]) == m
    ensures FrontGrid(cs)[cs[i].pos.y + 1][cs[i].pos.x + 1] == m
  {
  }

  /** On a fresh board every cubie shows its +z face (slot 4) to the viewer,
      so the first click on a front cubie puts an X in that slot, and a
      single mark wins nothing. */
  lemma FirstClick(i: nat)
    requires i < |Reset().cubies| && InFront(Reset().cubies[i])
    ensures var r := PlaceMark(Reset(), HitCubie(i));
      && r.cubies[i].marks[4] == Marked(X)
      && r.player == O && r.moveCount == 1
      && r.winner == Empty
  {
    var s := Reset();
    IdentityFacesFrontWith4();
    assert FrontSlot(s, i) == 4;
    assert CanMark(s, i);
    MarkOnBlankBoard(s, i);
  }

  lemma IdentityFacesFrontWith4()
    ensures FrontFace(Identity) == 4
  {
    BottomRowFixesFront(Identity);
    assert FacesFront(Identity, 4);
  }

  /** The first mark on a blank board never completes a line. */
  lemma MarkOnBlankBoard(s: Session, i: nat)
    requires WellFormed(s.cubies) && i < |s.cubies| && CanMark(s, i)
    requires forall j, f :: 0 <= j < |s.cubies| && 0 <= f < |s.cubies[j].marks| ==> s.cubies[j].marks[f] == Empty
    ensures PlaceMark(s, HitCubie(i)).winner == Empty
  {
    var r := PlaceMark(s, HitCubie(i));
    assert forall j :: 0 <= j < |s.cubies| ==> r.cubies[j].pos == s.cubies[j].pos;
    assert forall j :: 0 <= j < |s.cubies| && j != i ==> r.cubies[j] == s.cubies[j];
    assert WellFormedCubie(s.cubies[i]);
    OneMarkedCubieNoLine(r.cubies, i);
  }

  /** When only cubie i carries marks, at most one cell of the front grid
      is filled, so nobody owns a line. */
  lemma OneMarkedCubieNoLine(cs: seq<Cubie>, i: nat)
    requires DistinctPositions(cs) && i < |cs| && InCube(cs[i].pos)
    requires forall j, f :: 0 <= j < |cs| && j != i && 0 <= f < |cs[j].marks| ==> cs[j].marks[f] == Empty
    ensures forall p :: !HasLine(FrontGrid(cs), p)
  {
    var (cy, cx) := (cs[i].pos.y + 1, cs[i].pos.x + 1);
    forall y, x | 0 <= y < 3 && 0 <= x < 3 && (y != cy || x != cx)
      ensures FrontGrid(cs)[y][x] == Empty
    {
      UnmarkedCell(cs, i, y, x);
    }
    LoneCellNoLine(FrontGrid(cs), cy, cx);
  }

  lemma UnmarkedCell(cs: seq<Cubie>, i: nat, y: int, x: int)
    requires DistinctPositions(cs) && i < |cs|
    requires forall j, f :: 0 <= j < |cs| && j != i && 0 <= f < |cs[j].marks| ==> cs[j].marks[f] == Empty
    requires 0 <= y < 3 && 0 <= x < 3 && cs[i].pos != Vec(x - 1, y - 1, 1)
    ensures FrontGrid(cs)[y][x] == Empty
  {
    var q := Vec(x - 1, y - 1, 1);
    if Occupied(cs, q) {
      var j :| 0 <= j < |cs| && cs[j].pos == q;
      assert HasCell(cs[j]);
      assert FrontMark(cs[j]) == Empty;
    }
  }

  /** A grid with at most one filled cell has no owned line. */
  lemma LoneCellNoLine(g: Grid, cy: int, cx: int)
    requires IsGrid(g)
    requires forall y, x :: 0 <= y < 3 && 0 <= x < 3 && (y != cy || x != cx) ==> g[y][x] == Empty
    ensures forall p :: !HasLine(g, p)
  {
    forall p
      ensures !HasLine(g, p)
    {
      forall y | 0 <= y < 3
        ensures !OwnsRow(g, y, p)
      {
        if y == cy {
          assert g[y][(cx + 1) % 3] == Empty;
        } else {
          assert g[y][0] == Empty;
        }
      }
      forall x | 0 <= x < 3
        ensures !OwnsColumn(g, x, p)
      {
        if x == cx {
          assert g[(cy + 1) % 3][x] == Empty;
        } else {
          assert g[0][x] == Empty;
        }
      }
    }
  }

  /** A reset releases the lock, so the end of a rotation begun before the
      reset commits nothing to the new game. */
  lemma ResetDiscardsPendingRotation(s: Session)
    ensures Step(Step(s, ResetGame), RotationDone) == Reset()
    ensures Reset().player == X && Reset().moveCount == 0
  {
  }
}
