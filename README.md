# duplorail: a verified model of the track-building core

duplorail is a browser editor for marble-run tracks made of stacked
duplo-like blocks. A cursor walks a three-dimensional grid. Once started, it
lays a track of blocks behind it, one block per step. Each block is linked
to the one before it. Stepping back along the track undoes the last step.
Stopping closes the track. A final `complete` pass turns covered blocks into
their hole variants and fills empty cells under the build with support caps.
Each block gets a piece type and a rotation, chosen from its open sides,
its neighbours' sides and whether anything lies above it.

This project models that core of `js/duplo.js` in Dafny and proves what it
promises. The modules follow the classes of the source:

- `Geometry` holds the integer vectors, the six directions and the four
  rotations about the vertical axis.
- `Pieces` holds the closed set of piece types, their model file names, the
  solid-to-hole table and the hole test.
- `Blocks` holds the block record, `isOpenSides`, `convertToHole`,
  `removeNext` and the type/rotation decision of `getMesh`. That decision is
  a pure function `Appearance` of the block, its neighbours and the two
  ceiling flags.
- `Grids` models the class `Grid`. It keeps its cells in an `array3`. The
  block records live in a store (`blocks`), and a reference in the source is
  an index into it. The resolved look of block `k` (its type and rotation,
  present exactly when the source holds a mesh) is `looks[k]`.
- `Tracks` models the class `Track`, plus the link structure a track keeps
  in the store (`ChainOk`).
- `Cursors` models the class `Cursor`: start, stop, moves, undo, reset and
  the `complete` pass.

State the source updates in place is modelled with Dafny classes. Each
method states its whole new state. `complete` is specified against pure
snapshots of the grid: `Completed(m0, bs0, ls0, m, bs, ls)` gives the
outcome, and lemmas then prove idempotence and the hole property about it.

`verifyNextPosition` checks the cell below the target unless the step
climbs, and the cell above unless the step descends (`js/duplo.js:167-177`).
The model follows the code.

The cursor's invariant (`Cursor.Valid`) keeps every track, not only the
current one, chained in the store: consecutive blocks are neighbouring
cells joined by opposite unit sides, each block holds its own cell, the
tracks are distinct objects and no block belongs to two of them.

## Model

| member | source | states |
|---|---|---|
| Geometry.Rotate | js/duplo.js:776-777 | the mesh's turn is a rotation about the vertical axis: it keeps the height of a vector and carries horizontal directions to horizontal directions |
| Geometry.NegateDirection | js/duplo.js:933-936 | the entry side, the negated step, is again a unit direction, a different one, and horizontal exactly when the step is |
| Geometry.RotateFromBackUnique | js/duplo.js:659-749 | the four rotation values the decision picks are four different orientations: no two turns carry BACK to the same side |
| Pieces.ModelNameInjective | js/duplo.js:531-549 | distinct piece types carry distinct model file names, so comparing type names compares types |
| Pieces.UndoCleanupOnlyVerticalHole | js/duplo.js:198 | the undo clean-up list matches exactly the vertical shaft type; its other entry, "verticalCurveStart.stl", names no type |
| Pieces.ToHoleSolidToHole | js/duplo.js:550-560 | the table maps only solid types, and only to hole types; every solid type but the cap has an entry (the end piece maps to the straight hole) |
| Pieces.HoleByName | js/duplo.js:629-634 | a type is a hole exactly when its model name contains "Hole" or "_hole", the two patterns isHole matches |
| Pieces.SolidNameNoHole | js/duplo.js:629-634 | a name made of a stem without '_' or 'H' and the "_low.stl" suffix matches neither pattern |
| Pieces.LevelSolidNames | js/duplo.js:629-634 | the cap, end, straight and corner names match neither pattern |
| Pieces.SlopeSolidNames | js/duplo.js:629-634 | the ramp, ramp-corner and vertical-curve-start names match neither pattern |
| Pieces.LevelHoleNames | js/duplo.js:629-634 | the straight and corner hole names match "_hole" |
| Pieces.VerticalHoleNames | js/duplo.js:629-634 | the vertical shaft and vertical curve hole names match "Hole" or "_hole" |
| Pieces.RampHoleNames | js/duplo.js:629-634 | the ramp hole names match "_hole" |
| Blocks.NewBlock | js/duplo.js:618-627 | a new block has no open side and no links |
| Blocks.OpenSidesAsSet | js/duplo.js:637-639 | isOpenSides(s1, s2) holds exactly when the block's two open sides, as a set, are {s1, s2} |
| Blocks.ConvertToHole | js/duplo.js:787-797 | conversion never changes the rotation |
| Blocks.ConvertToHoleIdempotent | js/duplo.js:787-797 | converting twice is converting once |
| Blocks.ConvertToHoleKeepsHoles | js/duplo.js:787-797 | a look that is already a hole is left unchanged |
| Blocks.ConvertToHoleMakesHole | js/duplo.js:787-797 | after conversion a look is a hole exactly when its type is not the cap |
| Blocks.RemoveNext | js/duplo.js:813-823 | removeNext drops the forward link and the exit side and keeps the position, the entry side and the backward link |
| Blocks.AppearanceOriented | js/duplo.js:658-749 | every type the decision picks is the canonical piece turned onto the block's actual open sides (and the previous block's entry side, for ramps); for an end piece whose open side is vertical the orientation says nothing, since a vertical side is unchanged by every turn |
| Blocks.StraightOriented | js/duplo.js:670-685 | a straight piece turned by Quarter joins LEFT and RIGHT; unturned, it joins FRONT and BACK |
| Blocks.CornerOriented | js/duplo.js:686-696 | the corner's rotation table carries its canonical FRONT/LEFT opening onto the block's two horizontal sides |
| Blocks.CurveStartOriented | js/duplo.js:698-708 | the vertical curve start is turned towards its entry side and leaves downwards |
| Blocks.ShaftExitOriented | js/duplo.js:710-748 | the curve end, ramp and ramp corner looks chosen for a block leaving a shaft are oriented onto its exit side and the previous block's entry side |
| Blocks.ShaftExitMissing | js/duplo.js:710-748 | a block leaving a shaft sideways stays unresolved exactly when the previous block rose into the shaft or was entered from the side the block leaves by |
| Blocks.CeilingPicksHoleVariant | js/duplo.js:658-749 | the ceiling flags choose only between a piece and its hole variant; the hole is taken exactly when this block has a ceiling, or the previous block has one for ramps and ramp corners; the shaft and the curve end are always holes |
| Blocks.UnresolvedExactlyWhenUnmatched | js/duplo.js:658-750 | on track geometry the decision gives no type exactly in the configurations no rule covers; blocks with at most one open side always resolve |
| Grids.Grid.constructor | js/duplo.js:414-428 | buildCells: a grid of the world's dimensions with every cell empty and an empty store |
| Grids.Grid.Get | js/duplo.js:430-439 | get never fails and gives nothing for a position off the grid |
| Grids.Grid.Set | js/duplo.js:441-443 | set writes exactly one cell and leaves every other cell as it was |
| Grids.Grid.HasCeil | js/duplo.js:803-811 | hasCeil is true exactly when some cell strictly above the block in its column is occupied |
| Grids.Grid.NewBlock | js/duplo.js:618-627 | a new block is appended to the store, unresolved and unlinked |
| Grids.Grid.AddBlockAt | js/duplo.js:128-131 | a new unresolved block is stored and written into its cell, and no other cell changes |
| Grids.Grid.Resolve | js/duplo.js:650-749 | getMesh resolves an unresolved block to the decision for the current grid, and a resolved block keeps its look |
| Grids.Grid.ConvertToHoleAt | js/duplo.js:787-797 | convertToHole on a resolved block of the store replaces its look by the converted one |
| Grids.Grid.RemoveNextOf | js/duplo.js:813-823 | removeNext on a stored block detaches its forward link and drops its look; nothing else changes |
| Grids.Grid.Remove | js/duplo.js:459-462 | remove detaches the forward link of the previous block and clears the removed block's cell, and only that cell |
| Grids.Grid.Reset | js/duplo.js:464-476 | reset leaves a fresh array with every cell empty |
| Grids.Grid.UnderResolvedStep | js/duplo.js:113-124 | scanning a column from the top, "a resolved block lies above" holds one cell down exactly when it held here or this cell holds a resolved block |
| Grids.Grid.ForEach | js/duplo.js:445-457 | the handler sees every occupied cell (every cell with withNull), each once, in x, then y, then z order |
| Grids.Grid.GetSummary | js/duplo.js:513-526 | the summary has an entry exactly for the types present, and each count is the number of cells holding a resolved block of that type |
| Tracks.LinkJoins | js/duplo.js:928-939 | linking joins exactly the two blocks, each pointing at the other, with the exit side the step between them and the entry side its negation |
| Tracks.ReversedAppend | js/duplo.js:928-950 | after add, the new block is peek(0) and each earlier block moves one index further back |
| Tracks.ChainExtend | js/duplo.js:928-939 | appending a fresh block behind a chained track keeps it chained (a second block must stay on the first block's level) |
| Tracks.AppendedUndone | js/duplo.js:252-257 | linking a new block behind the tail and then detaching the tail restores every block the store held before |
| Tracks.ChainDetach | js/duplo.js:197-200 | detaching the forward link of any block of a chained track keeps it chained |
| Tracks.ChainTruncate | js/duplo.js:252-257 | popping the tail after detaching the block before it keeps the track chained |
| Tracks.ChainFrame | js/duplo.js:125-135 | a chain depends only on its own blocks: any store holding them unchanged holds the same chain, so the support blocks complete adds leave every track intact |
| Tracks.Track.constructor | js/duplo.js:924-926 | a new track is empty |
| Tracks.Track.Peek | js/duplo.js:945-950 | peek(i) is nothing exactly when the track holds i blocks or fewer; otherwise it is the i-th block counted back from the newest |
| Tracks.Track.Add | js/duplo.js:928-939 | add appends the block and, on a non-empty track, links it behind the tail |
| Tracks.Track.RemoveLast | js/duplo.js:941-943 | removeLast pops and returns the newest block, and gives nothing on an empty track |
| Cursors.ChainedResolvable | js/duplo.js:710-711 | every block of a chained track can be resolved: when it leaves a shaft, the block before it has an entry side; the block and its neighbours carry unit sides, two different ones, so the decision's orientation results apply to it |
| Cursors.ChainedOriented | js/duplo.js:658-750 | on every block the cursor builds, the look getMesh picks is oriented onto its sides, and it stays unresolved exactly in the configurations no rule covers |
| Cursors.Cursor.constructor | js/duplo.js:9-16 | a stopped cursor at x = 0, z = 0 on the top layer, with one empty track |
| Cursors.Cursor.InsideGridIndexable | js/duplo.js:154-158 | isInsideGrid accepts exactly the points that index the grid's cell array, and no point it rejects holds a block |
| Cursors.Cursor.VerifyNextPosition | js/duplo.js:160-180 | a forward step is legal exactly when the target is on the grid and empty, the step stays level while the track holds one block, the cell below is empty unless the step climbs, and the cell above is empty unless it descends |
| Cursors.Cursor.OccupiedRejected | js/duplo.js:164-165 | a step onto an occupied cell is never legal |
| Cursors.Cursor.ResolveEarlierBlocks | js/duplo.js:73-82 | every earlier block of the track without a look is resolved by the decision, newest first; every other look is kept |
| Cursors.Cursor.AppendAtCursor | js/duplo.js:59-63 | a new block is placed at the cursor and linked behind the tail; only the cursor cell changes and the track stays chained |
| Cursors.Cursor.SpawnBlock | js/duplo.js:59-85 | the new block is appended, linked and placed at the cursor, and every earlier unresolved block of the track is now resolved |
| Cursors.Cursor.Start | js/duplo.js:87-93 | a stopped cursor on an empty cell starts a track there; a started cursor or an occupied cell changes nothing |
| Cursors.Cursor.Stop | js/duplo.js:95-106 | stop does nothing before start, or when the newest block was entered from above; otherwise it resolves the newest block to an end piece facing back along the track, stops the cursor and puts a fresh empty track in front |
| Cursors.Cursor.MoveTo | js/duplo.js:182-190 | the cursor moves to the target; a started cursor places a block there, and a stopped one changes nothing else |
| Cursors.Cursor.CancelLastMove | js/duplo.js:252-257 | the newest block is popped and its cell cleared, the block before it loses its forward link and look, and the cursor moves onto it |
| Cursors.Cursor.UndoLastMove | js/duplo.js:196-201 | retracing undoes the last step; when the block two back is a vertical shaft block, it is detached as well; nothing else changes |
| Cursors.Cursor.DetachEarlier | js/duplo.js:197-199 | the clean-up detaches one earlier block of the current track and keeps the cursor consistent |
| Cursors.Cursor.MoveInDirection | js/duplo.js:192-215 | before start the cursor moves if the target is on the grid and nothing else changes; once started it undoes when retracing, places a block exactly when the step is legal, and otherwise changes nothing |
| Cursors.Cursor.MoveBottom | js/duplo.js:217-223 | a move one layer down |
| Cursors.Cursor.MoveTop | js/duplo.js:225-234 | before start it is moveInDirection(TOP); once started, a move up onto the block before the newest undoes, a move up onto any other block changes nothing (that step is never legal), and a move up onto an empty cell changes nothing |
| Cursors.Cursor.StepThenRetrace | js/duplo.js:192-215 | a legal step followed by the step straight back restores the cursor, the current track, every cell and every block the store held, except that the clean-up detaches the block two back when it is a vertical shaft; the looks the step resolved are not all restored, and the result says which ones are |
| Cursors.Cursor.StepAhead | js/duplo.js:202-204 | a legal step places a block at the target linked behind the tail, changes only the target cell, and makes the step back a retrace |
| Cursors.Cursor.StepBack | js/duplo.js:195-201 | a retracing step pops the newest block, clears only its cell, moves the cursor back, and leaves the store and looks as the undo defines them |
| Cursors.RetracedStore | js/duplo.js:252-257 | linking a block behind the tail and then retracing leaves every earlier block as it was, but for the clean-up of the block two back |
| Cursors.Cursor.Reset | js/duplo.js:146-152 | an empty grid, a single empty track, and a stopped cursor back at its starting cell |
| Cursors.Cursor.PlaceSupport | js/duplo.js:125-135 | a support block is stored in its cell and resolved as a cap with no turn; only that cell changes |
| Cursors.Cursor.CompleteCell | js/duplo.js:114-137 | one cell of the pass: a resolved block under a resolved one becomes its hole variant; an empty cell under one, with an empty cell beneath, gets a support cap; anything else is untouched; it reports whether the cell held a resolved block |
| Cursors.Cursor.CompleteAt | js/duplo.js:113-138 | one step of the column scan moves the pass's progress past its cell |
| Cursors.Cursor.CompleteColumn | js/duplo.js:112-138 | the scan of one column from the top down completes every cell of that column |
| Cursors.Cursor.CompleteRow | js/duplo.js:111-139 | the columns at one x are completed front to back |
| Cursors.Cursor.Complete | js/duplo.js:108-144 | complete converts exactly the resolved blocks lying under a resolved block, keeps every other look, and puts a support cap in exactly the empty cells under a resolved block whose cell beneath is empty or off the grid; no other cell changes |
| Cursors.Cursor.CompletedHoles | js/duplo.js:108-139 | after complete, every block under a resolved block is a hole, unless it is a cap |
| Cursors.Cursor.CompletedUnderResolved | js/duplo.js:108-139 | complete creates no new "under a resolved block" cell: support caps only appear where a resolved block already lay above |
| Cursors.Cursor.CompleteIdempotent | js/duplo.js:108-139 | a second complete on a completed grid changes no cell, no block and no look |

## Left out

- Rendering is left out: THREE meshes, materials, geometry disposal, colours and mesh positions. It is a side effect with no bearing on the track logic. A block's mesh is represented only by its look being present.
- The `Board` class, layer showing and highlighting (`showLayers`, `hilightLayers`, `showAllLayers`), and the board calls in moveBottom/moveTop are left out: they are display only.
- The mesh visibility toggles at the end of complete and of reset are left out: they are display only.
- Physics is left out: CANNON bodies, `setupBody`, `addBodyMesh` and `simulateBall`. It is a foreign library with floating-point simulation.
- Model loading (`loadModels`, `getModel`, `getGeometry`) and the ground plate model are left out: they are I/O; the plate is scenery, not a block type.
- Cursor screen positioning (`setPosition`, `updatePosition`, `getMesh`) is left out: it is display only. The model sets the position directly.
- moveLeft, moveRight, moveBack and moveFront are not modelled separately: each is a plain call of moveInDirection with a constant direction.
- Track.Length: the `length` getter has no contract of its own, because it is the track's size and nothing more.
- Grids.Grid.GetSummary: the summary is keyed by piece type rather than by model file name; the names are in one-to-one correspondence (ModelNameInjective).
- The TO_HOLE entry for "verticalCurveEnd_low.stl" is left out: it names no piece type. The entry for "verticalCurveStart_hole_low.stl" maps to nothing, which the table's None models.
- Cursors.Cursor.Stop: a started track with a single block makes the source throw when it reads the newest block's entry side. The model requires at least two blocks there instead of modelling the exception.
- Grids.Grid.Set: requires that a block written to a cell is a stored block sitting at that cell. This keeps the store consistent; every caller in the source satisfies it.
- Blocks stay in the store after an undo clears their cell; the source leaves them to the garbage collector. No operation reads them again, and reset empties the store.
- The getMesh call without a grid (returning the cached mesh) is left out: it is only used by rendering and physics.
- Grids.Grid.ConvertToHoleAt: requires a resolved block instead of modelling the `'invalid mesh'` exception the source throws for an unresolved one. The finishing pass only calls it on resolved blocks, so the throw is never reached in the model.
- Grids.Grid.Remove: requires the removed block to have a previous block instead of modelling the TypeError the source raises without one. Its only caller, cancelLastMove, is reached with at least two blocks on the track, so the removed block always has one.
- Cursors.Cursor.MoveInDirection: requires one of the six unit directions; the source only ever passes its six direction constants.
