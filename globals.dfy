/** The sketch's globals other than the three arrays, and the invariant they
    keep with the board between two passes of loop(), stated on values. */
module Globals {
  import opened Board
  import opened Rules
  import opened Execution

  const SETUP_MODE: int := 0
  const PLAY_MODE: int := 1
  const TILE_MOVEMENT: int := 0
  const SUBTILE_MOVEMENT: int := 1
  const DEFAULT_TILE: byte := 36

  /** A zero-initialised global Checker. */
  const BLANK_CHECKER: Checker := Checker(0, 0, false, false, false, [0, 0, 0, 0], [0, 0, 0, 0])

  // ---------------------------------------------------------------------------
  // The starting position.

  predicate StartTile(t: int) {
    t in RED_START_TILES || t in BLUE_START_TILES
  }

  /** The checker SETUP_MODE places at (x, y): a man, in play. */
  predicate AtStart(c: Checker, xy: (byte, byte)) {
    c.xTile == xy.0 && c.yTile == xy.1 && !c.isKinged && c.inPlay
  }

  /** The board SETUP_MODE produces. */
  predicate StartPosition(s: Snapshot)
    requires Shaped(s)
  {
    s.tiles[0].hasChecker == OFF_BOARD &&
    (forall j :: 0 <= j < CHECKERS_PER_SIDE ==>
      s.tiles[RED_START_TILES[j]] == Tile(RED, j) && s.tiles[BLUE_START_TILES[j]] == Tile(BLUE, j)) &&
    (forall t :: 1 <= t < NUM_TILES && !StartTile(t) ==> s.tiles[t].hasChecker == EMPTY) &&
    (forall j :: 0 <= j < CHECKERS_PER_SIDE ==>
      AtStart(s.red[j], RED_START_SQUARES[j]) && AtStart(s.blue[j], BLUE_START_SQUARES[j]))
  }

  /** The starting position is consistent and nothing has been captured. */
  lemma {:induction false} StartConsistent(s: Snapshot)
    requires Shaped(s) && StartPosition(s)
    ensures Consistent(s)
    ensures OutCount(s.red) == 0 && OutCount(s.blue) == 0
  {
    assert Coded(s.tiles);
    StartSideConsistent(s, RED);
    StartSideConsistent(s, BLUE);
    AllInPlay(s.red);
    AllInPlay(s.blue);
    AssembleConsistent(s, RED);
  }

  /** Each side of the starting position agrees with the board. */
  lemma {:induction false} StartSideConsistent(s: Snapshot, side: int)
    requires Shaped(s) && StartPosition(s) && (side == RED || side == BLUE)
    ensures SideConsistent(s.tiles, Side(s, side), side)
  {
    StartTilesHeld(s, side);
    StartPiecesMarked(s, side);
  }

  /** In the starting position every tile marked with a side holds the piece
      of that side it names. */
  lemma {:induction false} StartTilesHeld(s: Snapshot, side: int)
    requires Shaped(s) && StartPosition(s) && (side == RED || side == BLUE)
    ensures forall t :: 1 <= t < NUM_TILES && s.tiles[t].hasChecker == side ==>
      Holds(Side(s, side), s.tiles[t].checkerNum, t)
  {
    StartTables();
    StartTilesSeparate();
    var cs := Side(s, side);
    forall t | 1 <= t < NUM_TILES && s.tiles[t].hasChecker == side
      ensures Holds(cs, s.tiles[t].checkerNum, t)
    {
      assert StartTile(t);
      if t in RED_START_TILES {
        var j :| 0 <= j < CHECKERS_PER_SIDE && RED_START_TILES[j] == t;
        assert s.tiles[t] == Tile(RED, j) && side == RED;
        assert AtStart(cs[j], RED_START_SQUARES[j]);
      } else {
        var j :| 0 <= j < CHECKERS_PER_SIDE && BLUE_START_TILES[j] == t;
        assert s.tiles[t] == Tile(BLUE, j) && side == BLUE;
        assert AtStart(cs[j], BLUE_START_SQUARES[j]);
      }
    }
  }

  /** In the starting position every piece stands on the board, on a tile
      marked with its side and index. */
  lemma {:induction false} StartPiecesMarked(s: Snapshot, side: int)
    requires Shaped(s) && StartPosition(s) && (side == RED || side == BLUE)
    ensures forall i :: 0 <= i < CHECKERS_PER_SIDE && Side(s, side)[i].inPlay ==>
      Placed(Side(s, side)[i]) && Marks(s.tiles[TileOf(Side(s, side)[i])], side, i)
  {
    StartTables();
    var cs := Side(s, side);
    var starts := if side == RED then RED_START_TILES else BLUE_START_TILES;
    forall i | 0 <= i < CHECKERS_PER_SIDE && cs[i].inPlay
      ensures Placed(cs[i]) && Marks(s.tiles[TileOf(cs[i])], side, i)
    {
      assert TileOf(cs[i]) == starts[i];
    }
  }

  /** The reset followed by compute_moves is the turn start of the rules. */
  lemma {:induction false} TurnStartSplit(tiles: seq<Tile>, cs: seq<Checker>, opp: int)
    requires |tiles| == NUM_TILES
    ensures ComputeAll(tiles, seq(|cs|, i requires 0 <= i < |cs| => Reset(cs[i])), opp) ==
      TurnStart(tiles, cs, opp)
  {
  }

  /** The turn start of a side on a consistent board keeps it consistent,
      changes no position, status or king, leaves every in-play piece with the
      slots the board gives it, and reports a forced jump exactly when some
      in-play piece can capture. */
  lemma {:induction false} TurnStartKeeps(s: Snapshot, side: int)
    requires Consistent(s) && (side == RED || side == BLUE)
    ensures var cs' := TurnStart(s.tiles, Side(s, side), -side);
      Consistent(WithSide(s, side, cs')) &&
      OutCount(cs') == OutCount(Side(s, side)) &&
      Fresh(s.tiles, cs', -side) &&
      (NoForcedJumps(cs') <==> forall i :: 0 <= i < |cs'| && Side(s, side)[i].inPlay ==>
        !AnyJump(s.tiles, Side(s, side)[i], -side)) &&
      KingsKept(Side(s, side), cs')
  {
    var cs := Side(s, side);
    var cs' := TurnStart(s.tiles, cs, -side);
    ConsistentSides(s, side);
    TurnStartFresh(s.tiles, cs, -side);
    assert SameFootprint(cs, cs') by {
      forall i | 0 <= i < |cs|
        ensures cs[i].inPlay == cs'[i].inPlay && cs[i].xTile == cs'[i].xTile && cs[i].yTile == cs'[i].yTile
      {
        assert cs'[i].(mustJump := cs[i].mustJump, moves := cs[i].moves, jumps := cs[i].jumps) == cs[i];
      }
    }
    assert KingsKept(cs, cs') by {
      forall j | 0 <= j < |cs| && cs[j].isKinged
        ensures cs'[j].isKinged
      {
        assert cs'[j].(mustJump := cs[j].mustJump, moves := cs[j].moves, jumps := cs[j].jumps) == cs[j];
      }
    }
    FootprintConsistent(s.tiles, cs, cs', side);
    FootprintCount(cs, cs');
    var s' := WithSide(s, side, cs');
    assert Side(s', side) == cs' && Side(s', -side) == Side(s, -side);
    AssembleConsistent(s', side);
  }

  // ---------------------------------------------------------------------------
  // The globals.

  /** The sketch's globals other than the three arrays. */
  datatype Control = Control(
    gameState: int,
    playerTurn: int,
    /** The side whose array player_checkers points at (0: not yet set). */
    playerCheckers: int,
    /** The side whose counter player_dead points at: red_dead for RED. */
    playerDead: int,
    /** The number of blue checkers Red has captured, and vice versa. */
    redDead: byte,
    blueDead: byte,
    /** active_checker: entry activeIndex of the activeSide array (0: unset). */
    activeSide: int,
    activeIndex: int,
    recomputeMoves: bool,
    cursorMode: int,
    noFJumps: bool,
    tileHighlighted: byte,
    subtileHighlighted: byte)

  /** The piece the player has selected stands on the highlighted tile. */
  predicate Selected(s: Snapshot, g: Control)
    requires Shaped(s)
  {
    g.activeSide == g.playerTurn && 0 <= g.activeIndex < CHECKERS_PER_SIDE &&
    Side(s, g.playerTurn)[g.activeIndex].inPlay &&
    TileOf(Side(s, g.playerTurn)[g.activeIndex]) == g.tileHighlighted
  }

  /** Between recomputes: the pointers follow the turn, the side to move has
      fresh slots, and no_fjumps says whether it must capture. */
  predicate Ready(s: Snapshot, g: Control)
    requires Shaped(s)
  {
    g.playerCheckers == g.playerTurn && g.playerDead == g.playerTurn &&
    Fresh(s.tiles, Side(s, g.playerTurn), -g.playerTurn) &&
    (g.noFJumps <==> NoForcedJumps(Side(s, g.playerTurn))) &&
    (g.cursorMode == SUBTILE_MOVEMENT ==> Selected(s, g))
  }

  /** PLAY_MODE: a consistent board, a side to move, counters that count the
      other side's captured pieces, and fresh slots unless a recompute is due. */
  ghost predicate Playing(s: Snapshot, g: Control) {
    Consistent(s) &&
    (g.playerTurn == RED || g.playerTurn == BLUE) &&
    g.redDead == OutCount(s.blue) && g.blueDead == OutCount(s.red) &&
    (g.cursorMode == TILE_MOVEMENT || g.cursorMode == SUBTILE_MOVEMENT) &&
    (g.recomputeMoves ==> g.cursorMode == TILE_MOVEMENT) &&
    (!g.recomputeMoves ==> Ready(s, g))
  }

  /** The invariant of the globals between two passes of loop(): highlights
      on the board, an active checker index within the array, a known mode,
      and what that mode asks of the rest. */
  ghost predicate GameOK(s: Snapshot, g: Control) {
    Shaped(s) && g.tileHighlighted < NUM_TILES && g.subtileHighlighted < NUM_TILES &&
    0 <= g.activeIndex < CHECKERS_PER_SIDE &&
    (g.gameState == SETUP_MODE || g.gameState == PLAY_MODE) &&
    forall mode {:trigger ModeOK(s, g, mode)} :: mode == g.gameState ==> ModeOK(s, g, mode)
  }

  /** What each mode asks of the globals: SETUP_MODE a fresh game with Red to
      move, PLAY_MODE the play invariant. GameOK quantifies over this
      predicate alone, so that a proof unfolds the play invariant only where
      it names the mode. */
  ghost predicate ModeOK(s: Snapshot, g: Control, mode: int)
    requires Shaped(s)
  {
    (mode == SETUP_MODE ==>
      g.playerTurn == RED && g.recomputeMoves && g.cursorMode == TILE_MOVEMENT &&
      g.redDead == 0 && g.blueDead == 0) &&
    (mode == PLAY_MODE ==> Playing(s, g))
  }

  /** SETUP_MODE leaves a game ready for its first recompute. */
  lemma {:induction false} SetupOK(s0: Snapshot, g: Control, s: Snapshot)
    requires GameOK(s0, g) && g.gameState == SETUP_MODE
    requires Shaped(s) && StartPosition(s)
    ensures GameOK(s, g.(playerCheckers := BLUE, gameState := PLAY_MODE))
  {
    assert ModeOK(s0, g, SETUP_MODE);
    StartConsistent(s);
    assert ModeOK(s, g.(playerCheckers := BLUE, gameState := PLAY_MODE), PLAY_MODE);
  }

  /** change_turn followed by the turn start keeps the invariant and leaves
      the game ready: the side that now moves has fresh slots, no_fjumps says
      whether one of its in-play pieces can capture, and no king is lost. */
  lemma {:induction false} TurnOK(s: Snapshot, g: Control)
    ensures GameOK(s, g) && g.gameState == PLAY_MODE && g.recomputeMoves ==>
      (g.playerTurn == RED || g.playerTurn == BLUE) &&
      var side := -g.playerTurn;
      var cs' := TurnStart(s.tiles, Side(s, side), -side);
      var s' := WithSide(s, side, cs');
      GameOK(s', g.(playerTurn := side, playerCheckers := side, playerDead := side,
                    recomputeMoves := false, noFJumps := NoForcedJumps(cs'))) &&
      (NoForcedJumps(cs') <==> forall i :: 0 <= i < CHECKERS_PER_SIDE && Side(s, side)[i].inPlay ==>
        !AnyJump(s.tiles, Side(s, side)[i], -side)) &&
      KingsKept(s.red, s'.red) && KingsKept(s.blue, s'.blue)
  {
    if GameOK(s, g) && g.gameState == PLAY_MODE && g.recomputeMoves {
      assert ModeOK(s, g, PLAY_MODE);
      var side := -g.playerTurn;
      TurnStartKeeps(s, side);
      var cs' := TurnStart(s.tiles, Side(s, side), -side);
      var s' := WithSide(s, side, cs');
      assert Side(s', side) == cs' && Side(s', -side) == Side(s, -side);
      assert ModeOK(s', g.(playerTurn := side, playerCheckers := side, playerDead := side,
                          recomputeMoves := false, noFJumps := NoForcedJumps(cs')), PLAY_MODE);
    }
  }

  /** Between recomputes of PLAY_MODE the board is consistent, a side is to
      move and the globals are ready for a press. */
  lemma {:induction false} PlayReady(s: Snapshot, g: Control)
    requires GameOK(s, g) && g.gameState == PLAY_MODE && !g.recomputeMoves
    ensures Consistent(s) && (g.playerTurn == RED || g.playerTurn == BLUE) && Ready(s, g)
  {
    assert ModeOK(s, g, PLAY_MODE);
  }

  /** A press in TILE_MOVEMENT keeps the invariant when the destination
      highlight is only switched on for the selected piece, on its tile. */
  lemma {:induction false} SelectOK(s: Snapshot, g: Control, g': Control)
    requires GameOK(s, g) && g.gameState == PLAY_MODE && !g.recomputeMoves
    requires g.cursorMode == TILE_MOVEMENT
    requires g' == g.(activeSide := g'.activeSide, activeIndex := g'.activeIndex,
                      cursorMode := g'.cursorMode, subtileHighlighted := g'.subtileHighlighted)
    requires 0 <= g'.activeIndex < CHECKERS_PER_SIDE
    requires g'.cursorMode == TILE_MOVEMENT ==> g'.subtileHighlighted == g.subtileHighlighted
    requires g'.cursorMode == TILE_MOVEMENT ||
      (g'.cursorMode == SUBTILE_MOVEMENT && Selected(s, g') && g'.subtileHighlighted == g.tileHighlighted)
    ensures GameOK(s, g')
  {
    assert ModeOK(s, g, PLAY_MODE);
    assert ModeOK(s, g', PLAY_MODE);
  }

  /** A press in SUBTILE_MOVEMENT on a tile that is none of the selected
      piece's destinations only sends the cursor back to the tile highlight. */
  lemma {:induction false} DeselectOK(s: Snapshot, g: Control)
    requires GameOK(s, g) && g.gameState == PLAY_MODE && !g.recomputeMoves
    ensures GameOK(s, g.(cursorMode := TILE_MOVEMENT))
  {
    assert ModeOK(s, g, PLAY_MODE);
    assert ModeOK(s, g.(cursorMode := TILE_MOVEMENT), PLAY_MODE);
  }

  /** Moving a highlight within the board keeps the invariant as long as the
      tile of a selected piece stays highlighted. */
  lemma {:induction false} CursorOK(s: Snapshot, g: Control, g': Control)
    requires GameOK(s, g) && g.gameState == PLAY_MODE
    requires g' == g.(tileHighlighted := g'.tileHighlighted, subtileHighlighted := g'.subtileHighlighted)
    requires g'.tileHighlighted < NUM_TILES && g'.subtileHighlighted < NUM_TILES
    requires g.cursorMode == SUBTILE_MOVEMENT ==> g'.tileHighlighted == g.tileHighlighted
    ensures GameOK(s, g')
  {
    assert ModeOK(s, g, PLAY_MODE);
    assert ModeOK(s, g', PLAY_MODE);
  }

  /** The counter player_dead points at, after jump_checker has added one
      to it as a `uint8_t`. */
  function Credit(g: Control): (r: Control)
    ensures r == g.(redDead := r.redDead, blueDead := r.blueDead)
    ensures g.playerDead == RED ==> r.blueDead == g.blueDead && (r.redDead == 0 <==> g.redDead == 255)
    ensures g.playerDead != RED ==> r.redDead == g.redDead && (r.blueDead == 0 <==> g.blueDead == 255)
    ensures g.playerDead == RED && g.redDead < 255 ==> r.redDead == g.redDead + 1
    ensures g.playerDead != RED && g.blueDead < 255 ==> r.blueDead == g.blueDead + 1
  {
    if g.playerDead == RED then g.(redDead := U8(g.redDead + 1))
    else g.(blueDead := U8(g.blueDead + 1))
  }

  /** A press on one of the selected piece's generated moves: move_checker
      keeps the invariant, with a recompute due, captures nothing and loses
      no king. */
  lemma {:induction false} MoveOK(s: Snapshot, g: Control)
    requires GameOK(s, g) && g.gameState == PLAY_MODE && !g.recomputeMoves
    requires g.cursorMode == SUBTILE_MOVEMENT && g.noFJumps
    requires exists k :: 0 <= k < 4 && Side(s, g.playerTurn)[g.activeIndex].moves[k] == g.subtileHighlighted
    ensures g.activeSide == g.playerTurn && 0 <= g.activeIndex < CHECKERS_PER_SIDE
    ensures var s' := MoveEffect(s, g.playerTurn, g.activeIndex, g.tileHighlighted, g.subtileHighlighted);
      GameOK(s', g.(recomputeMoves := true, cursorMode := TILE_MOVEMENT)) &&
      OutCount(s'.red) == OutCount(s.red) && OutCount(s'.blue) == OutCount(s.blue) &&
      KingsKept(s.red, s'.red) && KingsKept(s.blue, s'.blue)
  {
    var side := g.playerTurn;
    var i := g.activeIndex;
    assert ModeOK(s, g, PLAY_MODE);
    assert Selected(s, g) && Ready(s, g);
    var k :| 0 <= k < 4 && Side(s, side)[i].moves[k] == g.subtileHighlighted;
    MovePreservesConsistency(s, side, i, k);
    MoveKeepsKings(s, side, i, g.tileHighlighted, g.subtileHighlighted);
    var s' := MoveEffect(s, side, i, g.tileHighlighted, g.subtileHighlighted);
    RelocateKeepsCount(Side(s, side), i, Side(s', side)[i]);
    assert ModeOK(s', g.(recomputeMoves := true, cursorMode := TILE_MOVEMENT), PLAY_MODE);
  }

  /** A press on one of the selected piece's generated jumps: the active
      checker is that piece, and the tile it jumps over names a piece of the
      other side, so jump_checker's lookup stays inside the victim's array. */
  lemma {:induction false} JumpAllowed(s: Snapshot, g: Control)
    requires GameOK(s, g) && g.gameState == PLAY_MODE && !g.recomputeMoves
    requires g.cursorMode == SUBTILE_MOVEMENT && !g.noFJumps
    requires exists k :: 0 <= k < 4 && Side(s, g.playerTurn)[g.activeIndex].jumps[k] == g.subtileHighlighted
    ensures g.activeSide == g.playerTurn && g.playerDead == g.playerTurn
    ensures 0 <= g.activeIndex < CHECKERS_PER_SIDE
    ensures Capturable(s, g.tileHighlighted, g.subtileHighlighted)
    ensures g.playerTurn == RED ==> Credit(g).redDead == g.redDead + 1 && Credit(g).blueDead == g.blueDead
    ensures g.playerTurn == BLUE ==> Credit(g).blueDead == g.blueDead + 1 && Credit(g).redDead == g.redDead
  {
    assert ModeOK(s, g, PLAY_MODE);
    JumpOK(s, g);
  }

  /** The same press keeps the invariant, with a recompute due: the jumped
      piece goes out of play, the counter of the side to move goes up by one
      (it stays at most 12, so the `uint8_t` never wraps), and no king is
      lost. */
  lemma {:induction false} JumpOK(s: Snapshot, g: Control)
    requires GameOK(s, g) && g.gameState == PLAY_MODE && !g.recomputeMoves
    requires g.cursorMode == SUBTILE_MOVEMENT && !g.noFJumps
    requires exists k :: 0 <= k < 4 && Side(s, g.playerTurn)[g.activeIndex].jumps[k] == g.subtileHighlighted
    ensures g.activeSide == g.playerTurn && 0 <= g.activeIndex < CHECKERS_PER_SIDE
    ensures Capturable(s, g.tileHighlighted, g.subtileHighlighted)
    ensures g.playerTurn == RED ==> Credit(g).redDead == g.redDead + 1 && Credit(g).blueDead == g.blueDead
    ensures g.playerTurn == BLUE ==> Credit(g).blueDead == g.blueDead + 1 && Credit(g).redDead == g.redDead
    ensures var s' := JumpEffect(s, g.playerTurn, g.activeIndex, g.tileHighlighted, g.subtileHighlighted, g.playerTurn);
      GameOK(s', Credit(g).(recomputeMoves := true, cursorMode := TILE_MOVEMENT)) &&
      OutCount(Side(s', -g.playerTurn)) == OutCount(Side(s, -g.playerTurn)) + 1 &&
      OutCount(Side(s', g.playerTurn)) == OutCount(Side(s, g.playerTurn)) &&
      KingsKept(s.red, s'.red) && KingsKept(s.blue, s'.blue)
  {
    var side := g.playerTurn;
    var i := g.activeIndex;
    assert ModeOK(s, g, PLAY_MODE);
    assert Selected(s, g) && Ready(s, g);
    var k :| 0 <= k < 4 && Side(s, side)[i].jumps[k] == g.subtileHighlighted;
    JumpPreservesConsistency(s, side, i, k);
    JumpKeepsKings(s, side, i, g.tileHighlighted, g.subtileHighlighted, side);
    var s' := JumpEffect(s, side, i, g.tileHighlighted, g.subtileHighlighted, side);
    CaptureCredited(s, g, s');
  }

  /** After a capture by the side to move, the counter it is credited with
      still counts the other side's captured pieces. */
  lemma {:induction false} CaptureCredited(s: Snapshot, g: Control, s': Snapshot)
    requires Shaped(s) && Consistent(s')
    requires g.tileHighlighted < NUM_TILES && g.subtileHighlighted < NUM_TILES
    requires 0 <= g.activeIndex < CHECKERS_PER_SIDE && g.gameState == PLAY_MODE
    requires (g.playerTurn == RED || g.playerTurn == BLUE) && g.playerDead == g.playerTurn
    requires g.redDead == OutCount(s.blue) && g.blueDead == OutCount(s.red)
    requires OutCount(Side(s', -g.playerTurn)) == OutCount(Side(s, -g.playerTurn)) + 1
    requires OutCount(Side(s', g.playerTurn)) == OutCount(Side(s, g.playerTurn))
    ensures GameOK(s', Credit(g).(recomputeMoves := true, cursorMode := TILE_MOVEMENT))
  {
    assert ModeOK(s', Credit(g).(recomputeMoves := true, cursorMode := TILE_MOVEMENT), PLAY_MODE);
  }
}
