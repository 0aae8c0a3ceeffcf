# Checkers rules engine, modelled in Dafny

This project models the rules engine of an Arduino checkers sketch and proves
properties of it. The sketch plays checkers on an 8x8 board on a small LCD
with a joystick. The model covers two revisions of that sketch.

- **The current revision, `projectnew.cpp`.** This is most of the model.
  - The board is a 64-entry `Tile` array. Each tile records `has_checker`
    (0 empty, 1 Red, -1 Blue) and `checker_num`.
  - Each side has a 12-entry `Checker` array. A checker has a position, king
    and in-play flags, `must_jump`, and four move and four jump slots. The
    value 64 means "no tile".
  - The rest of the model is built on this data:
    - the coordinate maps;
    - move and capture generation for one checker and for a whole side;
    - the selection queries;
    - move and capture execution on the arrays;
    - the cursor;
    - the SETUP_MODE and PLAY_MODE logic of `loop()`.
- **The earlier revision, `project.cpp`.** It has its own module,
  `FirstRevision`, covering:
  - its unchecked coordinate map;
  - its by-value jump check and the side loop over it;
  - its starting layout;
  - its x/y cursor;
  - its button-press checks.

The model keeps the sketch's sentinels:

- 64 for an empty slot.
- 13 for a tile that has lost its checker.
- `has_checker = 42` written into tile 0. The current coordinate map sends
  every off-board square to tile 0, so an off-board lookup is never "empty"
  and never "opponent".

Integer conversions are written out explicitly. `Board.U8` models the
conversion to `uint8_t`: for example, `x - 1` with `x == 0` becomes 255.
`Cursor.JoyStep` models C's division toward zero.

Modules:

- `Board` (board.dfy): the data layout, the coordinate maps and the
  starting layout.
- `Rules` (rules.dfy): move and jump generation as functions on values,
  and what one generator call and one turn start produce.
- `Execution` (execution.dfy):
  - `Snapshot`, the value of the three arrays;
  - the board/registry consistency invariant;
  - `move_checker` and `jump_checker` as functions on snapshots, with the
    proofs that they preserve consistency.
- `Engine` (engine.dfy): the generators, the side loop, the queries and the
  two executions as methods on the arrays. Each is proved against the
  functions of `Rules` and `Execution`.
- `Cursor` (cursor.dfy): the joystick step and `modify_tile_select`.
- `Globals` (globals.dfy): the other globals as a value (`Control`), the
  invariant `GameOK` that they keep with the board between passes of
  `loop()`, and one lemma per branch of `loop()` showing the invariant is
  kept.
- `Sketch` (sketch.dfy): the class `Game`. It holds the three arrays and
  the globals as fields, with one method per branch of `loop()`, plus the
  setup loops.
- `FirstRevision` (first_revision.dfy): the earlier revision.

Differences between the code and the system's design description. The model
follows the code in each case.

- **No multi-jump.** The design describes chained captures. The code does
  not continue a capture: after `jump_checker`, `loop()` sets
  `recompute_moves` and the turn passes (projectnew.cpp:1071-1082).
- **No win detection.** The code never leaves PLAY_MODE.
- **No kinging on a capture.** `jump_checker` never kings the capturing
  checker; only `move_checker` kings.
- **Blue moves first.** `player_turn` starts at Red (projectnew.cpp:173),
  and `change_turn` negates it before the first turn.
- **Wrapping capture counter.** The capture counter `*player_dead` is a
  `uint8_t` that `jump_checker` increments. `Globals.Credit` models the
  wrap-around. The invariant `GameOK` shows it never exceeds 12.

In the starting layout, the squares and tiles appear as the literal tables
`RED_START_SQUARES`/`RED_START_TILES` and the Blue equivalents.
`Board.StartSquaresListed` and `Board.StartTilesListed` prove that these
tables equal the sketch's formulas.

## Model

| member | source | states |
|---|---|---|
| Board.U8 | projectnew.cpp:182 | The value an `int` argument takes as a `uint8_t` parameter: unchanged in 0..255; for -256..-1, the value plus 256. |
| Board.CoordToTile | projectnew.cpp:182-195 | The result is always a tile index below 64, and every coordinate off the board gives tile 0. |
| Board.TileToCoord | projectnew.cpp:197-208 | For a tile below 64, the pair lies on the board and is the tile's column and row: 8*row + column equals the tile. |
| Board.CoordRoundTrip | projectnew.cpp:182-208 | The two maps are inverse to each other: coordinates to tile and back on the board, and tile to coordinates and back for every tile below 64. |
| Board.SteppedCoord | projectnew.cpp:182-195 | A generator's lookup at x+dx, y+dy, after the `uint8_t` conversion, gives 8*y+x on the board and tile 0 off it. This includes the steps to -1 and -2, which wrap to 255 and 254. |
| Board.StartTilesListed | projectnew.cpp:903-932 | The tile the setup formulas give piece i of each side is entry i of the listed starting tiles. |
| Board.StartSquaresListed | projectnew.cpp:903-932 | The square the setup formulas give piece i of each side is entry i of the listed starting squares. |
| Board.StartLayout | projectnew.cpp:903-932 | Every starting square is dark and on the board, Red in rows 0-2 and Blue in rows 5-7. No two pieces share a tile, and none is on tile 0. |
| Board.RedSquareFacts | projectnew.cpp:903-914 | Red piece i starts on the board, in rows 0-2, on a dark square, and on tile 2i or 2i+1. |
| Board.BlueSquareFacts | projectnew.cpp:921-932 | Blue piece i starts on the board, in rows 5-7, on a dark square, and on tile 40+2i or 41+2i. |
| Board.StartTilesSeparate | projectnew.cpp:903-932 | The two lists of starting tiles have no repeats and no common tile, and avoid tile 0. |
| Board.StartTables | projectnew.cpp:903-932 | Each listed starting square is on the board and is the square of the listed tile. |
| Board.StampedFacts | projectnew.cpp:903-914 | After the first i passes, tile ts[j] holds (side, j) for each j < i, and every other tile is unchanged. |
| Board.LoopTiles | projectnew.cpp:903-932 | After a whole piece loop, the side's 12 tiles record the side and the piece index, and every other tile is unchanged. |
| Board.StartTilesDistinct | projectnew.cpp:903-932 | Each list of starting tiles has 12 distinct entries. |
| Rules.SamePlaceSameRules | projectnew.cpp:371-456 | Two checkers with the same square and king status get the same targets, moves and captures. Generation reads nothing else of a checker. |
| Rules.AfterMoves | projectnew.cpp:430-456 | The checker after `compute_checker_moves`: slot k is the neighbour along direction k when that tile is empty, else unchanged; slots 2-3 only for a king. Its meaning is proved in `Rules.AfterMovesWrites` and `Rules.GeneratedMoveLegal`. |
| Rules.AfterJumps | projectnew.cpp:371-428 | The checker after `compute_checker_jumps`: slot k is the landing tile of a legal capture along direction k, else unchanged, and `must_jump` is or-ed with the existence of one. Proved in `Rules.AfterJumpsWrites` and `Rules.GeneratedJumpLegal`. |
| Rules.Computed | projectnew.cpp:463-466 | One entry of `compute_moves`' loop: an in-play checker gets both generators, the others are left alone. Proved in `Rules.TurnStartEntry`. |
| Rules.ComputeAll | projectnew.cpp:458-472 | The whole array after `compute_moves`' loop, entry by entry. `Engine.ComputeMoves` is proved equal to it. |
| Rules.Reset | projectnew.cpp:972-979 | The per-turn reset of one checker: `must_jump` cleared, all eight slots 64. |
| Rules.TurnStart | projectnew.cpp:972-983 | The reset loop followed by `compute_moves`. Its meaning is proved in `Rules.TurnStartFresh` and `Globals.TurnStartKeeps`. |
| Rules.AfterMovesWrites | projectnew.cpp:430-456 | `compute_checker_moves` changes only the move slots. A slot changes only to the neighbour along its diagonal, and only when that tile is empty. A man's slots 2 and 3 are never touched. |
| Rules.AfterJumpsWrites | projectnew.cpp:371-428 | `compute_checker_jumps` changes only the jump slots and `must_jump`. A slot changes only to the landing tile of a legal capture, and always does when the capture is legal. `must_jump` ends set iff it was set or some capture is legal, so it is never cleared. A man's slots 2 and 3 are never touched. |
| Rules.RegeneratedSlots | projectnew.cpp:969-984 | After the turn-start reset and the two generators, each slot holds exactly its legal target or 64. `must_jump` is set iff some capture is legal, and nothing else of the checker changes. |
| Rules.RegeneratedMoveSlot | projectnew.cpp:969-984 | After the reset and regeneration, move slot k is its legal target or 64. |
| Rules.RegeneratedJumpSlot | projectnew.cpp:969-984 | After the reset and regeneration, jump slot k is its legal landing tile or 64, and `must_jump` is set iff some capture is legal. |
| Rules.RegeneratedIdempotent | projectnew.cpp:969-984 | Resetting and regenerating a second time on the same board changes nothing. |
| Rules.GeneratedMoveLegal | projectnew.cpp:430-456 | A generated move goes to the on-board diagonal neighbour, which is empty. Slots 2 and 3 hold moves only for a king. Off-board steps never yield a move, because tile 0 holds 42. |
| Rules.GeneratedJumpLegal | projectnew.cpp:371-428 | A generated capture lands two diagonal steps away, on the board and on an empty tile. The tile halfway, (source+landing)/2, holds an opposing piece. |
| Rules.FreshMoveLegal | projectnew.cpp:430-456 | On a side whose slots are up to date, a non-64 move slot of an in-play checker names an empty tile in 1..63. |
| Rules.FreshJumpLegal | projectnew.cpp:371-428 | On a side whose slots are up to date, a non-64 jump slot names an empty tile in 1..63, and the midpoint holds an opposing piece. |
| Rules.ManMovesForward | projectnew.cpp:433-446 | A man's moves land one row and its captures two rows in the forward direction y - opp. Red moves to larger rows, Blue to smaller ones. |
| Rules.TurnStartFresh | projectnew.cpp:969-984 | After the turn start, every in-play checker's slots are exactly what the board gives, so no stale entry survives. The returned flag says that no in-play checker has a legal capture, and only slots and `must_jump` change. |
| Rules.TurnStartEntry | projectnew.cpp:458-472 | `compute_moves` leaves an out-of-play checker alone. An in-play one is regenerated, and its `must_jump` says whether it has a capture. |
| Rules.FreshJumpIffMustJump | projectnew.cpp:525-534 | On an up-to-date side, a checker has a non-64 jump slot iff its `must_jump` is set. |
| Execution.CaptureCounts | projectnew.cpp:600-617 | Taking a checker out of play raises the side's count of captured pieces by one. |
| Execution.MoveEffect | projectnew.cpp:557-581 | The arrays after `move_checker`: the tile record shifted from source to destination, and the mover relocated (crowned on row 0 or 7). Proved in `Execution.MovePreservesConsistency` and `Execution.MoveOutcome`. |
| Execution.VictimSide | projectnew.cpp:582-613 | `turn` arrives as a `uint8_t`: TURN_RED selects the blue array, and TURN_BLUE (-1, which is 255 as a `uint8_t`) selects the red array. The result is always one of the two sides. |
| Execution.JumpEffect | projectnew.cpp:582-628 | The arrays after `jump_checker`: the record shifted, the capturer relocated without crowning, and the midpoint tile and its checker cleared. Proved in `Execution.JumpPreservesConsistency` and `Execution.JumpOutcome`. |
| Execution.ActiveTile | projectnew.cpp:1025-1027 | On a consistent board, every in-play checker stands on a tile in 1..63 that records its side and index. |
| Execution.RelocateLands | projectnew.cpp:569-576 | The relocated checker stands on the destination. It is a king iff it was one, or it may be crowned and the destination is in row 0 or 7. Nothing else changes. |
| Execution.MovePreservesConsistency | projectnew.cpp:557-581 | A generated move keeps the board and registries consistent. It empties the source tile to (0, 13) and records the mover on the destination. The opponent's array is untouched. The mover is relocated, stays in play, and is kinged iff it was a king or reaches row 0 or 7. |
| Execution.MoveOutcome | projectnew.cpp:557-581 | The same for any move to an empty tile from the mover's own tile. |
| Execution.MoveSetup | projectnew.cpp:557-568 | A generated move leaves its own tile in 1..63, recorded for the mover, for a different empty tile in 1..63. |
| Execution.JumpPreservesConsistency | projectnew.cpp:582-628 | A generated capture keeps the board and registries consistent. Only the midpoint piece is removed: its tile is reset to (0, 13), and its checker goes out of play with all slots set to 64. The capturer is relocated and not kinged. The victim side's captured count rises by exactly one, and the capturer side's does not change. |
| Execution.JumpOutcome | projectnew.cpp:582-628 | The same for a capture whose midpoint holds an opposing in-play piece. |
| Execution.JumpSetup | projectnew.cpp:582-598 | A generated capture's source, landing and midpoint are three different tiles in 1..63. The midpoint holds an opposing in-play checker, and the landing tile is empty. |
| Execution.MoveKeepsKings | projectnew.cpp:574-576 | `move_checker` never unkings any checker. |
| Execution.JumpKeepsKings | projectnew.cpp:582-628 | `jump_checker` never unkings any checker. |
| Execution.FootprintConsistent | projectnew.cpp:969-984 | Consistency reads no slot, `must_jump` or king flag, so regenerating slots keeps it. |
| Execution.AllInPlay | projectnew.cpp:903-932 | An array with every checker in play has no captured piece. |
| Execution.UnmovedSideConsistent | projectnew.cpp:557-568 | The side that did not move still agrees with the board after a move. |
| Execution.MovedSideConsistent | projectnew.cpp:557-576 | The moving side agrees with the board after a move. |
| Execution.CapturedSideConsistent | projectnew.cpp:600-617 | The victim side agrees with the board after a capture. |
| Engine.ComputeCheckerMoves | projectnew.cpp:430-456 | The array afterwards is the old array with entry i replaced by `Rules.AfterMoves` of the old checker. |
| Engine.TryMove | projectnew.cpp:433-455 | One slot block of `compute_checker_moves`: the slot becomes the neighbour iff it is empty. |
| Engine.ComputeCheckerJumps | projectnew.cpp:371-428 | The array afterwards is the old array with entry i replaced by `Rules.AfterJumps` of the old checker. |
| Engine.TryJump | projectnew.cpp:382-426 | One slot block of `compute_checker_jumps`: the slot becomes the landing tile, and `must_jump` is set, iff the capture is legal. |
| Engine.ComputeMoves | projectnew.cpp:458-472 | The side's array becomes `Rules.ComputeAll` of the old array: in-play checkers regenerated, the others untouched. The result is 1 iff no in-play checker ends with `must_jump` set. |
| Engine.SelectionMatchesMove | projectnew.cpp:491-509 | True iff the selection equals one of the moves (when moves are checked) or one of the jumps (otherwise). |
| Engine.CheckCanMove | projectnew.cpp:511-523 | True iff some move slot is not 64. |
| Engine.CheckMustJump | projectnew.cpp:525-534 | True iff some jump slot is not 64. |
| Engine.PieceOnTileIsActive | projectnew.cpp:656-660 | On a consistent board, `player_piece_on_tile` holds iff the tile is not tile 0 and names an in-play checker of the side to move standing on it. |
| Engine.PlayerPieceOnTile | projectnew.cpp:656-660 | `player_piece_on_tile`: the tile's `has_checker` equals the side to move. `Engine.PieceOnTileIsActive` proves what that means on a consistent board. |
| Engine.ShiftRecord | projectnew.cpp:561-567 | The source record is copied to the destination, and the source is set to (0, 13). |
| Engine.Place | projectnew.cpp:569-576 | Only the active checker changes: it is relocated, and crowned on row 0 or 7 when asked. |
| Engine.MoveChecker | projectnew.cpp:557-581 | The three arrays afterwards are `Execution.MoveEffect` of the arrays before. |
| Engine.VoidSlots | projectnew.cpp:601-606 | The victim's eight slots become 64, and nothing else changes. |
| Engine.Remove | projectnew.cpp:599-614 | The victim goes out of play with all slots 64, and nothing else changes. |
| Engine.JumpChecker | projectnew.cpp:582-628 | The three arrays afterwards are `Execution.JumpEffect` of the arrays before, and the counter becomes its old value plus one, as a `uint8_t`. |
| Cursor.JoyStep | projectnew.cpp:990-991 | C's division by 400 gives a step left or up iff the reading is -400 or less, and right or down iff it is 400 or more. |
| Cursor.ModifyTileSelect | projectnew.cpp:639-654 | The column moves by the stick's direction unless at an edge. For a tile below 64, the row does the same and the result stays in 0..63. |
| Globals.StartConsistent | projectnew.cpp:898-960 | The starting position is consistent and has no captured piece on either side. |
| Globals.StartSideConsistent | projectnew.cpp:903-932 | Each side of the starting position agrees with the board. |
| Globals.StartTilesHeld | projectnew.cpp:903-932 | In the starting position, every tile marked with a side holds the in-play checker it names. |
| Globals.StartPiecesMarked | projectnew.cpp:903-932 | In the starting position, every piece is on the board, on a tile that records its side and index. |
| Globals.TurnStartSplit | projectnew.cpp:972-983 | The reset loop followed by `compute_moves` is the turn start `Rules.TurnStart`. |
| Globals.TurnStartKeeps | projectnew.cpp:969-984 | The turn start keeps consistency, the captured counts and every king. It leaves the side's slots up to date, with `no_fjumps` iff no in-play piece can capture. |
| Globals.SetupOK | projectnew.cpp:898-960 | SETUP_MODE establishes the play invariant, with a recompute due and Red as `player_turn`. |
| Globals.TurnOK | projectnew.cpp:969-985 | A recompute negates `player_turn` (so Blue moves first) and points `player_checkers` and `player_dead` at the new side. It keeps the invariant and refreshes the new side's slots. `no_fjumps` is set iff no in-play piece of that side can capture, and no king is lost. |
| Globals.PlayReady | projectnew.cpp:968-985 | Between recomputes, the board is consistent, a real side is to move, and its slots are up to date. |
| Globals.SelectOK | projectnew.cpp:1019-1049 | Accepting a piece of the side to move (or not) keeps the invariant. |
| Globals.DeselectOK | projectnew.cpp:1063-1069 | A rejected destination returns the cursor to TILE_MOVEMENT and keeps the invariant. |
| Globals.CursorOK | projectnew.cpp:993-1013 | Moving either highlight keeps the invariant. |
| Globals.MoveOK | projectnew.cpp:1052-1062 | Executing a generated move keeps the invariant, with a recompute due. It captures nothing and loses no king. |
| Globals.JumpAllowed | projectnew.cpp:1071-1079 | A generated capture names a valid victim, and the mover's counter rises by one. |
| Globals.JumpOK | projectnew.cpp:1071-1082 | Executing a generated capture keeps the invariant, with a recompute due. The opponent loses exactly one piece and the mover none. The mover's counter rises by one, and no king is lost. |
| Globals.CaptureCredited | projectnew.cpp:625 | Once one opposing piece is out, crediting the mover's counter restores the invariant. |
| Globals.Credit | projectnew.cpp:625 | `(*num_dead) + 1` on the counter `player_dead` names, as a `uint8_t`: that counter rises by exactly one below 255 and wraps to 0 only from 255. The other counter and every other global are kept. |
| Sketch.Game.constructor | projectnew.cpp:148-173 | The static initial globals: SETUP_MODE, Red as `player_turn`, `player_dead` at `red_dead`, recompute due, cursor at tile 36, and zeroed arrays. |
| Sketch.Game.Setup | projectnew.cpp:898-960 | SETUP_MODE yields the starting position. Tiles 1..63 are emptied, each piece is placed as a man in play on its square, and tile 0 is marked 42 with its `checker_num` kept. Every other tile keeps its `checker_num`. Of the globals, only `player_checkers` (now Blue) and `game_state` (now PLAY_MODE) change, so the cursor, `no_fjumps`, the active checker and both counters keep their values. |
| Sketch.Game.ChangeTurn | projectnew.cpp:336-368 | `player_turn` is negated, `player_checkers` and `player_dead` point at the new side's array and counter, and nothing else changes. |
| Sketch.Game.BeginTurn | projectnew.cpp:969-985 | The new side's array becomes `Rules.TurnStart` of the old one, and the other array and the board are untouched. `no_fjumps` is set iff no in-play piece of that side can capture, and no king is lost. |
| Sketch.Game.SelectPiece | projectnew.cpp:1019-1049 | The cursor enters SUBTILE_MOVEMENT iff the highlighted tile holds an in-play piece of the side to move that has a move (no forced jumps) or must jump (forced jumps). That piece becomes the active checker. |
| Sketch.Game.ChooseDestination | projectnew.cpp:1050-1091 | A recompute is due iff the destination is among the piece's moves (or jumps, under forced jumps). The state is then the move's or the capture's effect. Of the globals, only `recompute_moves` and `cursor_mode` (back to TILE_MOVEMENT) change, except that a capture adds one to the counter `player_dead` names. A failed destination changes no tile, checker or counter. |
| Sketch.Game.CommitMove | projectnew.cpp:1052-1062 | A matching move: the arrays become `Execution.MoveEffect`, and a recompute is due. |
| Sketch.Game.CommitJump | projectnew.cpp:1071-1082 | A matching capture: the arrays become `Execution.JumpEffect`. The side to move's counter rises by exactly 1 and the other's does not change. |
| Sketch.Game.MoveCursor | projectnew.cpp:987-1013 | The stick moves the primary highlight in TILE_MOVEMENT and the secondary one in SUBTILE_MOVEMENT, one square per axis, stopping at the edges. Nothing else changes. |
| Sketch.Game.Press | projectnew.cpp:1015-1092 | In TILE_MOVEMENT a press changes no tile, checker or counter. In SUBTILE_MOVEMENT the board becomes the effect of the matching move or capture, or stays as it was when nothing matches. A counter changes only on a capture, by one. The side to move, `no_fjumps` and the tile highlight are kept. |
| Sketch.Game.PlayStep | projectnew.cpp:968-1095 | One PLAY_MODE pass keeps the invariant and loses no king. The side to move changes iff a recompute was due. A pass with a recompute leaves the board as the turn start makes it, because the cursor is then in TILE_MOVEMENT. Without a recompute, a pass with no press, or a press in TILE_MOVEMENT, changes neither the board nor the counters. A press in SUBTILE_MOVEMENT leaves the board as the move's or capture's effect, or unchanged. |
| Sketch.Game.Loop | projectnew.cpp:889-1099 | One pass of `loop()`: SETUP_MODE ends in the starting position with zero counters, and PLAY_MODE keeps every king. In PLAY_MODE, a pass with a recompute leaves the board as the turn start makes it, and a pass with no press and no recompute changes nothing on the board. Without a press the counters are kept, and they never exceed 12. |
| Sketch.ResetSide | projectnew.cpp:972-980 | Every checker of the side gets `must_jump` 0 and all eight slots 64. |
| Sketch.StartTurn | projectnew.cpp:969-984 | The reset and `compute_moves`: the side becomes `Rules.TurnStart`, and the flag says that no in-play checker must jump. |
| Sketch.ClearTiles | projectnew.cpp:900-902 | Tiles 1..63 get `has_checker` 0, and tile 0 and every `checker_num` are unchanged. |
| Sketch.RedSquare | projectnew.cpp:904-905 | The formula square of Red piece i is listed square i, and its tile is listed tile i. |
| Sketch.PlaceRed | projectnew.cpp:903-914 | Red piece i is on its square as a man in play, its tile records (Red, i), and every other tile is unchanged. |
| Sketch.BlueSquare | projectnew.cpp:923-924 | The formula square of Blue piece i is listed square i, and its tile is listed tile i. |
| Sketch.PlaceBlue | projectnew.cpp:921-932 | Blue piece i is on its square as a man in play, its tile records (Blue, i), and every other tile is unchanged. |
| Sketch.SetupBoard | projectnew.cpp:900-960 | The three board loops and the write to tile 0 compose to the starting board: tile 0 holds 42, the 24 starting tiles record their pieces, and every other tile is empty. |
| FirstRevision.CoordToTileUnchecked | project.cpp:152-162 | The earlier map is 8*y+x with no bounds check. On the board it agrees with the current map, and tile_to_coord inverts it. |
| FirstRevision.UncheckedRoundTrip | project.cpp:152-175 | For every tile below 64, `tile_to_coord` gives an on-board square that the unchecked map sends back to the tile. |
| FirstRevision.UncheckedAliases | project.cpp:152-162 | Column 8 of row 0 aliases tile 8, the start of row 1. On rows 1-7, columns 0 - 1 and 0 - 2 (255 and 254 as a `uint8_t`) wrap to tiles 8y - 1 and 8y - 2, the end of the row before, inside the array. On row 0 a left-edge step, and on row 7 a right-edge step, passes the 64-entry array: (0 - 1, 0) and (8, 7). The current map sends these to tile 0. Steps off the top and bottom rows are in `FirstRevision.VerticalAliases`. |
| FirstRevision.VerticalAliases | project.cpp:152-162 | Steps off the bottom and top rows: (5, 8) passes the 64-entry array, (0 - 1, 8) and (0 - 2, 8) wrap to tiles 63 and 62, (8, 0 - 1) and (9, 0 - 1) wrap to tiles 0 and 1, and (7, 0 - 1) passes the array. The current map sends (8, 0 - 1) to tile 0. |
| FirstRevision.WrappedCapture | project.cpp:336-387 | A Red man on (0, 2) finds a capture across the left edge: its neighbour (0 - 1, 3) is tile 23, (7, 2), holding Blue, and its landing (0 - 2, 4) is the empty tile 30, (6, 3). The copy records landing 30 and `must_jump`, while the current rules find no capture there. |
| FirstRevision.Occupant | project.cpp:345-346 | A lookup is defined exactly for tiles below 64, and then is the tile's `has_checker`. |
| FirstRevision.CheckerJumpsCopy | project.cpp:336-389 | The by-value copy differs only in jumps and `must_jump`. A slot is overwritten with the landing tile exactly when an opposing piece is adjacent and the tile behind it is empty (kings only for slots 2 and 3). `must_jump` ends set iff it was set or some slot qualifies. |
| FirstRevision.CopySlotsMean | project.cpp:345-387 | The four slot blocks of the copy, slot by slot, and the flag as "some slot qualifies". |
| FirstRevision.InteriorTargets | project.cpp:345-387 | At least two squares from every edge, the earlier revision looks at the same two tiles per slot as the current one. |
| FirstRevision.InteriorAgrees | project.cpp:336-389 | Away from the edges, the copy ends exactly as the current `compute_checker_jumps` leaves the checker. |
| FirstRevision.ComputeJumps | project.cpp:391-402 | The arrays are not modified. The flag is 1 iff none of the 12 checkers already has `must_jump` set, with no `in_play` filter. |
| FirstRevision.NoneMarked | project.cpp:394-401 | The condition for `compute_jumps` to return 1: none of the 12 checkers has `must_jump` set. |
| FirstRevision.LostCapture | project.cpp:336-402 | A Red man on (2, 2) can capture the Blue piece on (3, 3), yet a side of such checkers with `must_jump` clear reports no forced jump. |
| FirstRevision.StartSquare | project.cpp:470-483 | The formula square of piece i of either side is listed square i, and its tile is listed tile i. |
| FirstRevision.PlaceSide | project.cpp:469-489 | Piece i gets only its listed column and row, its tile records (side, i), and every other tile is unchanged. |
| FirstRevision.SetupLayout | project.cpp:467-489 | Red piece i is on `RED_START_SQUARES[i]` and Blue piece i on `BLUE_START_SQUARES[i]`, and the 24 distinct tiles record their pieces. Every other tile, including tile 0, is unchanged. |
| FirstRevision.StepHighlight | project.cpp:531-553 | With a tile selected nothing moves. Otherwise each of `x_highlight`, `y_highlight` in 0..7 moves one square in the stick's direction and stops at 0 and 7. |
| FirstRevision.HighlightBounded | project.cpp:537-548 | A clamped step stays in 0..7 and moves by at most one square, only in the stick's direction. It stays put exactly when the stick is centred or the edge is reached. |
| FirstRevision.ButtonAccepts | project.cpp:555-582 | Without forced jumps and with no tile selected, a press is accepted iff the tile holds a piece of the side to move. With forced jumps, it is accepted iff the checker that the tile's `checker_num` names must jump. |
| FirstRevision.ForeignAccepted | project.cpp:570-579 | With forced jumps pending, a press on an empty tile is accepted when checker 0 must jump. |
| FirstRevision.NothingAccepted | project.cpp:521-582 | With `no_fjumps` at its initial 0 and no checker marked `must_jump`, no press is accepted on any tile. This is the only state the revision reaches, because `recompute_force_jumps` is never set, so `compute_jumps` never runs. |

## Findings

| source | as written | input that shows it | evidently intended | confidence | as-written member | corrected member |
|---|---|---|---|---|---|---|
| project.cpp:152-162 | `coord_to_tile` returns 8*y+x without a bounds check. The jump lookups at x-1, x-2, x+1, x+2 then read the wrong tile: a right-edge step reads the start of the next row, and a left-edge step on rows 1-7 wraps to the end of the row before, so a capture is found across the left edge. A lookup reads past the 64-entry array exactly when (8y + x) mod 256 is 64 or more: every step below row 7 except (0 - 1, 8) and (0 - 2, 8), every step above row 0 except (8, 0 - 1) and (9, 0 - 1), left-edge steps on row 0 and right-edge steps on row 7. Those four exceptions wrap to tiles 63, 62, 0 and 1, inside the array, so a lookup there can also find a capture across the board. | column 8 of row 0 gives tile 8; column 0 - 1 (255) of row 3 gives tile 23, so a Red man on (0, 2) takes a Blue piece on (7, 2) and lands on (6, 3) (FirstRevision.WrappedCapture); column 0 - 1 of row 0 gives 255. Latent: the only off-board lookups are in `compute_checker_jumps`, which runs only from `compute_jumps`, and that call (project.cpp:521-525) never runs because `recompute_force_jumps` starts at 0 (project.cpp:143) and nothing sets it | Every off-board square maps to a sentinel tile that is neither empty nor an opponent, as the later revision does. | high, not executed | FirstRevision.UncheckedAliases | Board.SteppedCoord |
| project.cpp:336-402 | `compute_checker_jumps` takes its `Checker` by value. Its writes to `jumps` and `must_jump` are lost, so `compute_jumps` reports only stale flags. | a Red man on (2, 2), a Blue piece on (3, 3), tile 36 empty, `must_jump` clear. Latent: `compute_jumps` is never called (project.cpp:143, 521-525), so the lost result is never observed as the code stands | The jumps are computed into the array entry, and the flag reflects the captures actually available. | high, not executed | FirstRevision.LostCapture | Engine.ComputeMoves |
| project.cpp:570-579 | Under forced jumps, a press is accepted when `player_checkers[checker_num]` must jump. Whoever holds the tile, even an empty tile, is not checked. | empty tile 36 (`checker_num` 0) while checker 0 must jump. Latent: no array entry's `must_jump` is ever set (its only writes, project.cpp:355-385, go to the by-value copy) and `no_fjumps` stays 0 (project.cpp:145), so that state never arises and no press is accepted at all (FirstRevision.NothingAccepted) | The highlighted tile holds a piece of the side to move and that piece must jump. | medium, not executed | FirstRevision.ForeignAccepted | Sketch.Game.SelectPiece |

## Left out

- LCD output is not modelled: `draw_tile`, `highlight_tile`, `highlight_moves`/`highlight_jumps`, `clear_draw`, `populate_graveyard`, `turn_indicator` and the border drawing in `change_turn`. These only draw through a display driver that is not part of this model.
- SD card setup, joystick reading and `map` calibration, the `Timer3` debounce (`bouncer_reset`, `bouncer`), `delay` calls and the debug button are I/O and timing. The stick readings enter as parameters (already remapped), and a press enters as a boolean.
- The serial dumps `print_all_data` and `print_board_data` are output only.
- `simpleimage.cpp` is a display demo. projectnew.h, checker.h and tile.h are not part of this model; the checker fields come from their use in the `.cpp` files.
- Multi-jump chains and win detection are not modelled, because the code does not implement them.
- Pointer aliasing is modelled by indices rather than addresses. `player_checkers`, `player_dead` and `active_checker` are the side and index fields of `Sketch.Game`.
- `tile_to_coord` returns a pointer to a local array in C, which is undefined behaviour. The model returns the pair the code evidently means.
- Engine.ComputeCheckerMoves and Engine.ComputeCheckerJumps write the slots into a copy of the checker that is stored back once; the C code writes through a pointer, and nothing in between can observe the difference.
- FirstRevision.Occupant: a read past the 64-entry array is undefined in C. This happens exactly when the wrapped index (8y + x) mod 256 is 64 or more (for example (5, 8) gives 69); a wrapped index below 64, such as (0 - 1, 3) giving 23 or (8, 0 - 1) giving 0, is read from the array and modelled exactly. The model reads a past-the-end tile as matching no side, which only affects the by-value copy that the caller discards.
- FirstRevision.ButtonAccepts: requires every tile's `checker_num` to be below 12, which holds in the earlier revision (tiles start at 0, and setup writes indices 0..11). Its `player_turn` is a parameter; the earlier sketch never changes it from 0, and its `player_checkers` always points at Blue. The function covers both branches, but only one state is reachable in that revision: `recompute_force_jumps` starts at 0 (project.cpp:143) and is only read and cleared (project.cpp:521-525), so `compute_jumps` never runs, `no_fjumps` stays 0 (project.cpp:145) and no array entry's `must_jump` is ever set. The `no_fjumps` branch (project.cpp:558) is therefore unreachable and no press is ever accepted (FirstRevision.NothingAccepted). The earlier revision's `loop()` itself is not modelled as a method.
- FirstRevision.StepHighlight: the `uint8_t` wrap of `x_highlight + 1` is modelled, but the highlight drawing and the delay are not.
- Sketch.Game.Loop: the counters are `uint8_t` and wrap at 256 in C. The bound of 12 is proved from the invariant rather than assumed.
