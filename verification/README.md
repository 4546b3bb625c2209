# Rubik's-cube tic-tac-toe: the cube state machine in Dafny

The game is tic-tac-toe played on the front face of a 3×3×3 cube. A player
marks the face of a front cubie that points at the viewer. Layers of the cube
can be turned by quarter turns, as on a Rubik's Cube, which moves marks out of
view and brings others into view. After every move the front 3×3 grid is
checked for a line.

This project models the logical core of the `RubiksTicTacToe` class in
`src/main.js`:

- the reset of the 27-cubie lattice and the session;
- the front-face resolver;
- the win check;
- the logical effect of a layer rotation (guard, layer selection, snapping
  and bookkeeping);
- the mark path of the click handler;
- the key bindings.

Modules, in dependency order:

- `Geometry`: integer vectors and 3×3 integer matrices. The quarter turns
  about the world axes are here. So is the rotation group of the cube, listed
  as 24 matrices and proved equal to the signed permutation matrices of
  determinant 1. The quarter-turn lemmas cover closure, inverse and order four.
- `Faces`: the six local face normals and their world normals under an
  orientation. Also the front-face resolver and its uniqueness on the rotation
  group.
- `Cardinality`: small set-cardinality lemmas (pigeonhole, injective images)
  used to count cubies.
- `Lattice`: players, marks and cubies. The initial lattice, the lattice
  invariant, and the layer rotation with its closure, inverse and order-four
  lemmas.
- `WinCheck`: the projected front grid, the eight lines in the game's scan
  order, the first-winner scan, and its relation to "some player owns a line".
- `Game`: the session (player to move, move count, winner, rotation lock). It
  covers reset, the win evaluation, the two phases of a rotation, mark
  placement, the key table and the event step. It also proves the invariants
  every event keeps.

The source's floating point is modelled as exact integers:

- A cubie orientation is the integer rotation matrix that its quaternion
  represents.
- A position is an integer vector.
- `Math.round` of an exact integer is the integer itself, so the snapping step
  is the identity on exact data.

A quarter turn of a layer is left-multiplied onto the orientation of each
cubie in the layer, because attaching a cubie to the turning group composes
the group's rotation in front of the cubie's own rotation. Its position is
turned the same way. `Plus` and `Minus` are turns of +90° and −90° about the
axis. Each cubie is identified by its index in the 27-element sequence, which
follows the creation order of the source: x outermost, z innermost. The
source never reorders that array.

A rotation is split into two events:

- `BeginRotation` is the key press, which takes the lock.
- `CommitRotation` is the final animation frame, which turns the layer,
  counts the move, passes the turn, releases the lock and runs the win check.

Between the two events the session is locked. Clicks and keys then change
nothing.

The win scan visits the eight lines in the order the code builds them: row
*i* and then column *i*, for *i* = 0, 1, 2, and after them the main diagonal
and the anti-diagonal. The winner is the mark of the first completed line in
that order. The order decides the outcome only when both players own a line
at once.

## Model

| member | source | states |
|---|---|---|
| Game.Reset | src/main.js:86-105 | A new session has a well-formed lattice with exactly one cubie on every lattice point of the cube and nowhere else. Every orientation is the identity and every slot is empty. X is to move, the move count is 0, there is no winner and no rotation in flight. |
| Lattice.InitialLattice | src/main.js:94-104 | The 27 created cubies occupy exactly the lattice points of {-1,0,1}³, pairwise distinct. Each has the identity orientation and six empty slots. |
| Lattice.LatticeFilled | src/main.js:94-104 | Any 27 well-formed cubies at distinct lattice points fill the whole cube (a pigeonhole count). So every front cell has a cubie in every reachable state. |
| Faces.WorldNormalIsRotatedNormal | src/main.js:110-118 | The world normal used by the resolver is the local face normal (+x, −x, +y, −y, +z, −z, in that order) rotated by the cubie's orientation. |
| Faces.FrontFace | src/main.js:117-121 | The resolver answers the first local face whose rotated normal has z = 1. It answers −1 exactly when no face does. |
| Faces.FrontFaceUnique | src/main.js:109-122 | For every orientation in the rotation group exactly one face points to the front. The resolver's answer is that face, so −1 is never returned. |
| Game.ValidFrontFaces | src/main.js:109-122 | In every valid session each cubie has exactly one front-facing slot, in 0..5. |
| Geometry.RotationsAreTheListed24 | src/main.js:185-189 | The orientations that snapping to quarter turns can produce are exactly the 24 listed matrices, which are pairwise distinct. Listing them is the same as asking for a signed permutation matrix of determinant 1. |
| Geometry.QuarterTurnPreservesRotation | src/main.js:183-189 | Turning a cube orientation by a quarter turn about a world axis gives a cube orientation again: the rotation group is closed under the turns. |
| Geometry.QuarterTurnFixesAxis | src/main.js:176-189 | The turn about a world axis is a cube rotation other than the identity. It fixes its own axis. A +90° turn sends the next axis (x→y, y→z, z→x) to the one after it, and a −90° turn sends it to the negation of that axis (the right-hand rule). |
| Geometry.QuarterTurnOnVectors | src/main.js:161-162 | A quarter turn about an axis keeps the coordinate on that axis. It keeps lattice points inside the cube, in both directions. The opposite turn undoes it. |
| Geometry.QuarterTurnUndone | src/main.js:155-202 | The opposite quarter turn undoes a quarter turn of an orientation. |
| Geometry.QuarterTurnOrderFour | src/main.js:155-202 | Four quarter turns in the same direction are the identity on positions and on orientations. |
| Faces.QuarterTurnCarriesFaces | src/main.js:182-189 | Marks belong to local faces: after a turn, every local face points where the turn sends its previous world direction. |
| Lattice.TurnCubie | src/main.js:182-189 | One turned cubie keeps its marks. Its position is the turned position, and each face's world normal is the turned previous normal. |
| Lattice.LayerHasNine | src/main.js:161 | In a well-formed lattice each layer selected by an axis and a value in {-1,0,1} has exactly nine cubies. |
| Lattice.RotateLayer | src/main.js:161-190 | Turning a layer keeps the number of cubies and every cubie's marks. Each cubie of the layer moves to the turned position, and every one of its faces points where the turn sends that face's previous world direction. Cubies stay in the layer or out of it, and cubies outside the layer are unchanged. |
| Lattice.RotateLayerPreservesWellFormed | src/main.js:182-190 | After a layer turn all positions are still lattice points of the cube and still pairwise distinct. All orientations are still cube rotations. |
| Lattice.RotateLayerUndone | src/main.js:155-202 | Turning a layer and then turning it back restores the whole lattice. |
| Lattice.RotateLayerFourTimes | src/main.js:155-202 | Four turns of the same layer in the same direction restore the whole lattice. |
| WinCheck.FrontMark | src/main.js:129-132 | The mark a front cubie contributes is the mark in its front-facing slot whenever that slot exists. A non-empty contribution implies that the slot exists. |
| WinCheck.FrontGrid | src/main.js:125-133 | The grid built by visiting the cubies in order is a 3×3 grid. When positions are distinct, cell [y+1][x+1] holds the front mark of the front cubie at (x, y, 1). A cell with no front cubie stays empty. |
| WinCheck.FrontGridOfLattice | src/main.js:125-133 | On a well-formed lattice every grid cell holds the front mark of the one cubie at that front position. |
| WinCheck.Lines | src/main.js:135-141 | The scan examines exactly eight lines: row *k* at position 2*k*, column *k* at 2*k*+1 for *k* = 0, 1, 2, then the main diagonal and the anti-diagonal. |
| WinCheck.FirstCompleted | src/main.js:143-149 | The scan reports no winner exactly when no line is complete. Otherwise it reports the mark of a complete line, and no earlier line in scan order is complete. |
| WinCheck.Winner | src/main.js:135-149 | The grid has no winner exactly when no player owns a whole row, column or diagonal. A reported winner owns such a line. It is the mark of a complete line with no complete line before it in scan order. |
| Game.Evaluate | src/main.js:143-149 | The win check changes only the winner and never clears an existing one. When the front grid has a scan winner, that mark becomes the winner. Starting without a winner, a winner is set exactly when some player owns a line. |
| Game.BeginRotation | src/main.js:155-157 | A rotation request is ignored while there is a winner or a rotation in flight. Otherwise it only takes the lock for that axis, layer and direction. |
| Game.CommitRotation | src/main.js:182-195 | A commit turns the locked layer and counts one move. It passes the turn to the other player, releases the lock and keeps every mark. The winner is then the scan winner of the new front grid, set exactly when a player owns a line. Without a rotation in flight it does nothing. |
| Game.PlaceMark | src/main.js:219-234 | A click changes the session exactly when there is no winner, no rotation in flight, the cubie is in the front layer and its front slot is empty. Then only that slot of that cubie changes, to the current player's mark. The move is counted, the turn passes, and the winner is the scan winner of the new front grid, set exactly when a player owns a line. |
| Game.CanMark | src/main.js:219-229 | A click may mark cubie i only when there is no winner, no rotation in flight, the cubie is at z = 1 and its front-facing slot is empty. For a well-formed cubie these conditions are also enough. |
| Game.MarkShowsInGrid | src/main.js:227-234 | After a successful click the clicked cubie's cell of the front grid holds the mover's mark. |
| Game.FirstClick | src/main.js:227-234 | On a fresh board the first click on a front cubie writes X into slot 4, the +z face. O is then to move, one move has been counted, and nobody has won. |
| Game.MarkOnBlankBoard | src/main.js:227-234 | The first mark on a well-formed board with no marks never completes a line, so no winner is set. |
| Game.ToLower | src/main.js:206 | The key name is lower-cased character by character. |
| Game.KeyCommand | src/main.js:206-215 | A key is bound exactly when its lower-cased name is one of 1, 2, 3, q, w, e. Keys 1, 2, 3 turn the x layers −1, 0, 1 by −90°; keys q, w, e turn the y layers 1, 0, −1 by +90°. |
| Game.KeyBindingsCoverLayers | src/main.js:205-215 | Some key is bound to a command exactly when the command turns an x layer by −90° or a y layer by +90°. So each of those six layer turns is reachable from the keyboard. |
| Game.KeyBindingTable | src/main.js:206-215 | 1, 2, 3 turn x layers −1, 0, 1 by −90°; q, w, e turn y layers 1, 0, −1 by +90°. Upper-case letters act like lower-case ones, and other keys do nothing. |
| Game.Step | src/main.js:204-239 | Every event except reset either leaves move count and player unchanged or counts one move and passes the turn. A move is counted exactly when the click may mark the hit cubie or a rotation in flight is committed. A bound key in an accepting session takes the lock for its command and moves no cubie. Clicks and keys change nothing once there is a winner or a rotation in flight. A reset starts at move 0 with X to move and input accepted. |
| Game.StepPreservesValid | src/main.js:86-239 | Every event (click, key, end of rotation, reset) keeps the session invariant: a well-formed lattice, and a rotation in flight only for a layer of the cube while nobody has won. |
| Game.LockedSessionIgnoresInput | src/main.js:156 | While a rotation is in flight, clicks and key presses leave the session unchanged. |
| Game.WinnerIsFinal | src/main.js:156 | Once there is a winner, every event except reset leaves the session unchanged. |
| Game.MarksPersist | src/main.js:229-230 | A mark that has been set is never overwritten or cleared except by a reset. |
| Game.RotationRoundTrip | src/main.js:155-202 | A layer turn followed by the opposite turn of the same layer restores every cubie, when the first turn did not end the game. Two moves are counted and the same player is to move again. |
| Game.ResetDiscardsPendingRotation | src/main.js:86-92 | In the sequential model, reset releases the lock, so an end-of-rotation event after a reset leaves the fresh game unchanged, with X to move and no moves counted. |

## Left out

- Rendering, the scene graph, materials and canvas textures, the camera and
  the status text. These are presentation and carry no game state.
- Raycasting of the click. The hit is a parameter: `Miss`, or the index of
  the first cubie hit.
- The click guard on the reset button (the `BUTTON` target test). This is a
  DOM detail; a click on the button is modelled as the `ResetGame` event.
- The animation itself (easing, frame timing, the 400 ms duration). A rotation
  is modelled by its begin and commit events, and the intermediate frames
  change no game state.
- Floating-point quaternions, Euler angles and `Math.round`. Orientations and
  positions are exact integers, and rounding them is the identity. Float drift
  from repeated snapping is not modelled.
- Game.ResetDiscardsPendingRotation: the model is sequential, so reset
  releases the lock and a later commit is a no-op. In the source, a
  `resetGame` that runs while an older rotation's closure is still pending
  lets that closure later run lines 193-195, counting a move and passing the
  turn in the new game.
- Game.ToLower: folds only ASCII capitals, whereas JavaScript's `toLowerCase`
  is full Unicode. No non-ASCII character lowers to one of the six bound keys,
  so the bindings are unaffected.
- Game.PlaceMark: a front face of −1 is treated as a rejected click. The
  source would instead write to `marks[-1]`. `Faces.FrontFaceUnique` shows
  this case cannot occur for any cube orientation.
- WinCheck.FrontMark: a −1 face reads as empty, as `marks[-1]` does in the
  source. The case is unreachable for the same reason.
- The turn direction of a key in screen terms ("downwards", "rightwards") is
  a presentation reading of the sign of the angle. The model keeps the sign.
