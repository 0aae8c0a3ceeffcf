/** The sketch's globals and the rules part of loop() in the current
    revision (projectnew.cpp): SETUP_MODE fills the board once, and every
    PLAY_MODE pass recomputes the side to move when asked, steps the cursor,
    and handles a button press as a piece selection or a destination. */
module Sketch {
  import opened Board
  import opened Rules
  import opened Execution
  import opened Engine
  import opened Globals
  import Cursor

  class Game {
    const tiles: array<Tile>
    const red: array<Checker>
    const blue: array<Checker>

    var gameState: int
    var playerTurn: int
    /** The side whose array player_checkers points at (0: not yet set). */
    var playerCheckers: int
    /** The side whose counter player_dead points at: red_dead for RED. */
    var playerDead: int
    /** The number of blue checkers Red has captured, and vice versa. */
    var redDead: byte
    var blueDead: byte
    /** active_checker: entry activeIndex of the activeSide array (0: unset). */
    var activeSide: int
    var activeIndex: int
    var recomputeMoves: bool
    var cursorMode: int
    var noFJumps: bool
    var tileHighlighted: byte
    var subtileHighlighted: byte

    function State(): Snapshot
      reads tiles, red, blue
    {
      Snap(tiles, red, blue)
    }

    predicate Shapes()
    {
      tiles.Length == NUM_TILES && red.Length == CHECKERS_PER_SIDE &&
      blue.Length == CHECKERS_PER_SIDE && red != blue
    }

    /** The globals other than the arrays, as a value. */
    function Ctl(): Control
      reads this
    {
      Control(gameState, playerTurn, playerCheckers, playerDead, redDead, blueDead,
              activeSide, activeIndex, recomputeMoves, cursorMode, noFJumps,
              tileHighlighted, subtileHighlighted)
    }

    ghost predicate Valid()
      reads this, tiles, red, blue
    {
      Shapes() && GameOK(State(), Ctl())
    }

    /** The globals as the sketch initialises them statically. */
    constructor ()
      ensures Valid() && gameState == SETUP_MODE && playerTurn == RED && playerDead == RED
      ensures playerCheckers == 0 && activeSide == 0 && tileHighlighted == DEFAULT_TILE
      ensures recomputeMoves && cursorMode == TILE_MOVEMENT && noFJumps
      ensures tiles[..] == seq(NUM_TILES, _ => Tile(0, 0))
      ensures red[..] == seq(CHECKERS_PER_SIDE, _ => BLANK_CHECKER)
      ensures blue[..] == seq(CHECKERS_PER_SIDE, _ => BLANK_CHECKER)
    {
      tiles := new Tile[NUM_TILES](_ => Tile(0, 0));
      red := new Checker[CHECKERS_PER_SIDE](_ => BLANK_CHECKER);
      blue := new Checker[CHECKERS_PER_SIDE](_ => BLANK_CHECKER);
      gameState := SETUP_MODE;
      playerTurn := RED;
      playerCheckers := 0;
      playerDead := RED;
      redDead := 0;
      blueDead := 0;
      activeSide := 0;
      activeIndex := 0;
      recomputeMoves := true;
      cursorMode := TILE_MOVEMENT;
      noFJumps := true;
      tileHighlighted := DEFAULT_TILE;
      subtileHighlighted := 0;
    }

    /** SETUP_MODE: tiles 1..63 emptied, the twelve pieces of each side put
        on their dark squares (each tile recording side and index), and tile 0
        marked 42. Slots and must_jump are left as they were. */
    method Setup()
      requires Valid() && gameState == SETUP_MODE
      modifies this, tiles, red, blue
      ensures Valid() && gameState == PLAY_MODE
      ensures StartPosition(State())
      ensures forall j :: 0 <= j < CHECKERS_PER_SIDE ==>
        red[j] == SetOut(old(red[j]), RED_START_SQUARES[j]) &&
        blue[j] == SetOut(old(blue[j]), BLUE_START_SQUARES[j])
      ensures tiles[0] == old(tiles[0]).(hasChecker := OFF_BOARD)
      ensures forall t :: 1 <= t < NUM_TILES && !StartTile(t) ==> tiles[t] == old(tiles[t]).(hasChecker := EMPTY)
      ensures Ctl() == old(Ctl()).(playerCheckers := BLUE, gameState := PLAY_MODE)
      ensures playerTurn == RED && recomputeMoves && redDead == 0 && blueDead == 0
    {
      ghost var s0 := State();
      ghost var g := Ctl();
      assert ModeOK(s0, g, SETUP_MODE);
      ghost var t0 := tiles[..];
      ClearTiles(tiles);
      ghost var t1 := tiles[..];
      PlaceRed(tiles, red);
      ghost var t2 := tiles[..];
      PlaceBlue(tiles, blue);
      ghost var t3 := tiles[..];
      playerCheckers := BLUE;
      gameState := PLAY_MODE;
      tiles[0] := tiles[0].(hasChecker := OFF_BOARD);
      SetupBoard(t0, t1, t2, t3, tiles[..]);
      assert StartPosition(State());
      SetupOK(s0, g, State());
      assert Ctl() == g.(playerCheckers := BLUE, gameState := PLAY_MODE);
    }

    /** change_turn: the turn passes to the other side, and player_checkers
        and player_dead follow it. */
    method ChangeTurn()
      modifies this
      ensures playerTurn == -old(playerTurn)
      ensures playerCheckers == (if playerTurn == RED then RED else BLUE) && playerDead == playerCheckers
      ensures Ctl() == old(Ctl()).(playerTurn := playerTurn, playerCheckers := playerCheckers,
                                   playerDead := playerDead)
    {
      playerTurn := -1 * playerTurn;
      if playerTurn == RED {
        playerCheckers := RED;
        playerDead := RED;
      } else {
        playerCheckers := BLUE;
        playerDead := BLUE;
      }
    }

    /** The recompute branch of PLAY_MODE: the turn changes, every checker of
        the new side has must_jump cleared and its slots voided, and
        compute_moves refills them against the other side; no_fjumps then
        says whether no in-play piece of the side can capture. */
    method BeginTurn()
      requires Valid() && gameState == PLAY_MODE && recomputeMoves
      modifies this, red, blue
      ensures Valid() && gameState == PLAY_MODE
      ensures Ctl() == old(Ctl()).(playerTurn := -old(playerTurn), playerCheckers := playerTurn,
                                   playerDead := playerTurn, recomputeMoves := false, noFJumps := noFJumps)
      ensures State() == WithSide(old(State()), -old(playerTurn),
                                  TurnStart(old(State()).tiles, Side(old(State()), -old(playerTurn)), old(playerTurn)))
      ensures noFJumps <==> forall i :: 0 <= i < CHECKERS_PER_SIDE && Side(old(State()), playerTurn)[i].inPlay ==>
        !AnyJump(old(State()).tiles, Side(old(State()), playerTurn)[i], -playerTurn)
      ensures KingsKept(old(State()).red, State().red) && KingsKept(old(State()).blue, State().blue)
    {
      ghost var s0 := State();
      ghost var g := Ctl();
      TurnOK(s0, g);
      ghost var cs' := TurnStart(s0.tiles, Side(s0, -g.playerTurn), g.playerTurn);
      ChangeTurn();
      noFJumps := StartTurn(tiles, red, blue, playerCheckers);
      recomputeMoves := false;
      assert State() == WithSide(s0, -g.playerTurn, cs');
      assert Ctl() == g.(playerTurn := -g.playerTurn, playerCheckers := -g.playerTurn, playerDead := -g.playerTurn,
                         recomputeMoves := false, noFJumps := NoForcedJumps(cs'));
    }

    /** A press in TILE_MOVEMENT: a piece of the side to move on the
        highlighted tile becomes the active checker; it is selected (the
        cursor switches to the destination highlight, starting on the same
        tile) when it has a move, or, in a turn with a forced jump, when it
        has a jump. Nothing on the board changes. */
    method SelectPiece()
      requires Valid() && gameState == PLAY_MODE && !recomputeMoves && cursorMode == TILE_MOVEMENT
      modifies this
      ensures Valid() && gameState == PLAY_MODE && !recomputeMoves
      ensures playerTurn == old(playerTurn) && noFJumps == old(noFJumps)
      ensures tileHighlighted == old(tileHighlighted)
      ensures redDead == old(redDead) && blueDead == old(blueDead)
      ensures cursorMode == SUBTILE_MOVEMENT <==>
        var n := tiles[tileHighlighted].checkerNum;
        var cs := Side(State(), playerTurn);
        tileHighlighted != 0 && Holds(cs, n, tileHighlighted) &&
        (if noFJumps then HasMove(cs[n]) else cs[n].mustJump)
      ensures cursorMode == SUBTILE_MOVEMENT ==>
        activeSide == playerTurn && activeIndex == tiles[tileHighlighted].checkerNum &&
        subtileHighlighted == tileHighlighted
    {
      ghost var s := State();
      ghost var g := Ctl();
      PlayReady(s, g);
      PieceOnTileIsActive(s, tileHighlighted, playerTurn);
      if PlayerPieceOnTile(tiles[..], tileHighlighted, playerTurn) {
        activeSide := playerCheckers;
        activeIndex := tiles[tileHighlighted].checkerNum;
        var c := SideArray(red, blue, activeSide)[activeIndex];
        assert c == Side(s, g.playerTurn)[activeIndex];
        FreshJumpIffMustJump(s.tiles, Side(s, g.playerTurn), -g.playerTurn, activeIndex);
        if noFJumps {
          var can := CheckCanMove(c);
          if can {
            cursorMode := SUBTILE_MOVEMENT;
            subtileHighlighted := tileHighlighted;
          }
        } else {
          var must := CheckMustJump(c);
          if must {
            cursorMode := SUBTILE_MOVEMENT;
            subtileHighlighted := tileHighlighted;
          }
        }
      }
      SelectOK(s, g, Ctl());
    }

    /** A press in SUBTILE_MOVEMENT: when the highlighted destination is one
        of the active checker's moves (or, in a turn with a forced jump, one
        of its jumps), move_checker (or jump_checker) carries it out and the
        next pass recomputes; otherwise nothing changes. Either way the cursor
        goes back to the tile highlight. */
    method ChooseDestination()
      requires Valid() && gameState == PLAY_MODE && !recomputeMoves && cursorMode == SUBTILE_MOVEMENT
      modifies this, tiles, red, blue
      ensures Valid() && gameState == PLAY_MODE && cursorMode == TILE_MOVEMENT
      ensures Ctl() == (if recomputeMoves && !noFJumps then Credit(old(Ctl())) else old(Ctl()))
                         .(recomputeMoves := recomputeMoves, cursorMode := TILE_MOVEMENT)
      ensures var c := Side(old(State()), playerTurn)[old(activeIndex)];
        recomputeMoves <==>
          if noFJumps then exists k :: 0 <= k < 4 && c.moves[k] == subtileHighlighted
          else exists k :: 0 <= k < 4 && c.jumps[k] == subtileHighlighted
      ensures recomputeMoves && noFJumps ==>
        State() == MoveEffect(old(State()), playerTurn, old(activeIndex), tileHighlighted, subtileHighlighted)
      ensures recomputeMoves && !noFJumps ==>
        Capturable(old(State()), tileHighlighted, subtileHighlighted) &&
        State() == JumpEffect(old(State()), playerTurn, old(activeIndex), tileHighlighted, subtileHighlighted, playerTurn)
      ensures !recomputeMoves ==> State() == old(State())
      ensures KingsKept(old(red[..]), red[..]) && KingsKept(old(blue[..]), blue[..])
    {
      PlayReady(State(), Ctl());
      var c := SideArray(red, blue, activeSide)[activeIndex];
      var matches := SelectionMatchesMove(subtileHighlighted, c, noFJumps);
      if noFJumps {
        if matches {
          CommitMove();
        }
        cursorMode := TILE_MOVEMENT;
      } else {
        if matches {
          CommitJump();
        }
        cursorMode := TILE_MOVEMENT;
      }
      if !matches {
        DeselectOK(old(State()), old(Ctl()));
      }
    }

    /** The move branch: move_checker on a generated move of the active
        checker keeps the game consistent, captures nothing and loses no
        king; the next pass recomputes. */
    method CommitMove()
      requires Valid() && gameState == PLAY_MODE && !recomputeMoves && cursorMode == SUBTILE_MOVEMENT
      requires noFJumps
      requires exists k :: 0 <= k < 4 && Side(State(), playerTurn)[activeIndex].moves[k] == subtileHighlighted
      modifies this, tiles, red, blue
      ensures Valid()
      ensures Ctl() == old(Ctl()).(recomputeMoves := true, cursorMode := TILE_MOVEMENT)
      ensures State() == MoveEffect(old(State()), playerTurn, activeIndex, tileHighlighted, subtileHighlighted)
      ensures KingsKept(old(State()).red, State().red) && KingsKept(old(State()).blue, State().blue)
    {
      ghost var s := State();
      ghost var g := Ctl();
      MoveOK(s, g);
      MoveChecker(tiles, red, blue, activeSide, activeIndex, tileHighlighted, subtileHighlighted);
      recomputeMoves := true;
      cursorMode := TILE_MOVEMENT;
    }

    /** The jump branch: jump_checker on a generated jump of the active
        checker keeps the game consistent, takes one piece of the other side
        out of play, adds one to the mover's counter and loses no king; the
        next pass recomputes. */
    method CommitJump()
      requires Valid() && gameState == PLAY_MODE && !recomputeMoves && cursorMode == SUBTILE_MOVEMENT
      requires !noFJumps
      requires exists k :: 0 <= k < 4 && Side(State(), playerTurn)[activeIndex].jumps[k] == subtileHighlighted
      modifies this, tiles, red, blue
      ensures Valid()
      ensures Ctl() == Credit(old(Ctl())).(recomputeMoves := true, cursorMode := TILE_MOVEMENT)
      ensures playerTurn == RED ==> redDead == old(redDead) + 1 && blueDead == old(blueDead)
      ensures playerTurn == BLUE ==> blueDead == old(blueDead) + 1 && redDead == old(redDead)
      ensures Capturable(old(State()), tileHighlighted, subtileHighlighted)
      ensures State() == JumpEffect(old(State()), playerTurn, activeIndex, tileHighlighted, subtileHighlighted, playerTurn)
      ensures KingsKept(old(State()).red, State().red) && KingsKept(old(State()).blue, State().blue)
    {
      ghost var s := State();
      ghost var g := Ctl();
      JumpAllowed(s, g);
      var numDead := if playerDead == RED then redDead else blueDead;
      var dead := JumpChecker(tiles, red, blue, activeSide, activeIndex, tileHighlighted,
                              subtileHighlighted, numDead, playerTurn);
      assert Ctl() == g;
      // *player_dead = dead
      if playerDead == RED {
        redDead := dead;
        assert Ctl() == Credit(g);
      } else {
        blueDead := dead;
        assert Ctl() == Credit(g);
      }
      recomputeMoves := true;
      cursorMode := TILE_MOVEMENT;
      assert Ctl() == Credit(g).(recomputeMoves := true, cursorMode := TILE_MOVEMENT);
      assert State() == JumpEffect(s, g.playerTurn, g.activeIndex, g.tileHighlighted, g.subtileHighlighted, g.playerTurn);
      JumpOK(s, g);
    }

    /** The cursor part of a PLAY_MODE pass: a stick reading of 400 or more
        in some direction moves the tile highlight, or the destination
        highlight when a piece is selected, by modify_tile_select. */
    method MoveCursor(joyX: int, joyY: int)
      requires Valid() && gameState == PLAY_MODE
      modifies this
      ensures Valid() && gameState == PLAY_MODE
      ensures Ctl() == old(Ctl()).(tileHighlighted := tileHighlighted, subtileHighlighted := subtileHighlighted)
      ensures var dx := Cursor.JoyStep(joyX); var dy := Cursor.JoyStep(joyY);
        if (dx != 0 || dy != 0) && cursorMode == TILE_MOVEMENT then
          tileHighlighted % 8 == Cursor.Clamp7(old(tileHighlighted) % 8 + Cursor.Dir(dx)) &&
          tileHighlighted / 8 == Cursor.Clamp7(old(tileHighlighted) / 8 + Cursor.Dir(dy)) &&
          subtileHighlighted == old(subtileHighlighted)
        else if dx != 0 || dy != 0 then
          subtileHighlighted % 8 == Cursor.Clamp7(old(subtileHighlighted) % 8 + Cursor.Dir(dx)) &&
          subtileHighlighted / 8 == Cursor.Clamp7(old(subtileHighlighted) / 8 + Cursor.Dir(dy)) &&
          tileHighlighted == old(tileHighlighted)
        else
          tileHighlighted == old(tileHighlighted) && subtileHighlighted == old(subtileHighlighted)
    {
      ghost var g := Ctl();
      assert ModeOK(State(), g, PLAY_MODE);
      var dx := Cursor.JoyStep(joyX);
      var dy := Cursor.JoyStep(joyY);
      if (dx != 0 || dy != 0) && cursorMode == TILE_MOVEMENT {
        tileHighlighted := Cursor.ModifyTileSelect(dx, dy, tileHighlighted);
      } else if (dx != 0 || dy != 0) && cursorMode == SUBTILE_MOVEMENT {
        subtileHighlighted := Cursor.ModifyTileSelect(dx, dy, subtileHighlighted);
      }
      CursorOK(State(), g, Ctl());
    }

    /** The button branch of a PLAY_MODE pass: in TILE_MOVEMENT a press
        selects a piece and changes no tile, checker or counter; in
        SUBTILE_MOVEMENT it carries out a matching move or capture, or
        changes nothing when the destination does not match, and the
        cursor returns to TILE_MOVEMENT. */
    method Press()
      requires Valid() && gameState == PLAY_MODE && !recomputeMoves
      modifies this, tiles, red, blue
      ensures Valid() && gameState == PLAY_MODE
      ensures playerTurn == old(playerTurn) && noFJumps == old(noFJumps) && tileHighlighted == old(tileHighlighted)
      ensures KingsKept(old(red[..]), red[..]) && KingsKept(old(blue[..]), blue[..])
      ensures old(cursorMode) == TILE_MOVEMENT ==>
        State() == old(State()) && !recomputeMoves && redDead == old(redDead) && blueDead == old(blueDead)
      ensures old(cursorMode) == SUBTILE_MOVEMENT ==>
        cursorMode == TILE_MOVEMENT && subtileHighlighted == old(subtileHighlighted) &&
        (recomputeMoves && noFJumps ==>
          State() == MoveEffect(old(State()), playerTurn, old(activeIndex), tileHighlighted, subtileHighlighted)) &&
        (recomputeMoves && !noFJumps ==>
          Capturable(old(State()), tileHighlighted, subtileHighlighted) &&
          State() == JumpEffect(old(State()), playerTurn, old(activeIndex), tileHighlighted, subtileHighlighted, playerTurn)) &&
        (!recomputeMoves ==> State() == old(State())) &&
        (redDead, blueDead) == if recomputeMoves && !noFJumps then (Credit(old(Ctl())).redDead, Credit(old(Ctl())).blueDead)
                               else (old(redDead), old(blueDead))
    {
      if cursorMode == TILE_MOVEMENT {
        SelectPiece();
      } else {
        ghost var g := Ctl();
        assert ModeOK(State(), g, PLAY_MODE);
        ChooseDestination();
      }
    }

    /** One PLAY_MODE pass of loop(): the recompute when the last pass moved
        a piece, the cursor step for the stick readings, and the press
        handling. The stick readings are already remapped to about
        -1000..1000; `pressed` stands for a debounced button press. A pass
        that starts with a recompute leaves the board as the turn start made
        it, since the cursor is then in TILE_MOVEMENT. */
    method PlayStep(joyX: int, joyY: int, pressed: bool)
      requires Valid() && gameState == PLAY_MODE
      modifies this, tiles, red, blue
      ensures Valid() && gameState == PLAY_MODE
      ensures KingsKept(old(red[..]), red[..]) && KingsKept(old(blue[..]), blue[..])
      ensures old(recomputeMoves) ==> playerTurn == -old(playerTurn)
      ensures !old(recomputeMoves) ==> playerTurn == old(playerTurn) && noFJumps == old(noFJumps)
      ensures old(recomputeMoves) ==>
        State() == WithSide(old(State()), -old(playerTurn),
                            TurnStart(old(State()).tiles, Side(old(State()), -old(playerTurn)), old(playerTurn))) &&
        redDead == old(redDead) && blueDead == old(blueDead)
      ensures !old(recomputeMoves) && (!pressed || old(cursorMode) == TILE_MOVEMENT) ==>
        State() == old(State()) && redDead == old(redDead) && blueDead == old(blueDead)
      ensures !old(recomputeMoves) && pressed && old(cursorMode) == SUBTILE_MOVEMENT ==>
        cursorMode == TILE_MOVEMENT && tileHighlighted == old(tileHighlighted) &&
        (recomputeMoves && noFJumps ==>
          State() == MoveEffect(old(State()), playerTurn, old(activeIndex), tileHighlighted, subtileHighlighted)) &&
        (recomputeMoves && !noFJumps ==>
          Capturable(old(State()), tileHighlighted, subtileHighlighted) &&
          State() == JumpEffect(old(State()), playerTurn, old(activeIndex), tileHighlighted, subtileHighlighted, playerTurn)) &&
        (!recomputeMoves ==> State() == old(State()) && redDead == old(redDead) && blueDead == old(blueDead))
    {
      ghost var s0 := State();
      assert ModeOK(s0, Ctl(), PLAY_MODE);
      if recomputeMoves {
        BeginTurn();
      }
      ghost var s1 := State();
      MoveCursor(joyX, joyY);
      if pressed {
        Press();
      }
      assert old(recomputeMoves) ==> State() == s1;
    }

    /** loop(): SETUP_MODE once, then PLAY_MODE passes. The game stays valid,
        each counter of captured pieces stays within 0..12, and in PLAY_MODE a
        king never becomes a man again. */
    method Loop(joyX: int, joyY: int, pressed: bool)
      requires Valid()
      modifies this, tiles, red, blue
      ensures Valid() && gameState == PLAY_MODE
      ensures old(gameState) == SETUP_MODE ==> StartPosition(State()) && redDead == 0 && blueDead == 0
      ensures old(gameState) == PLAY_MODE ==>
        KingsKept(old(red[..]), red[..]) && KingsKept(old(blue[..]), blue[..])
      ensures old(gameState) == PLAY_MODE && !old(recomputeMoves) && !pressed ==> State() == old(State())
      ensures old(gameState) == PLAY_MODE && old(recomputeMoves) ==>
        State() == WithSide(old(State()), playerTurn, TurnStart(old(State()).tiles, Side(old(State()), playerTurn), -playerTurn))
      ensures old(gameState) == PLAY_MODE && !pressed ==> redDead == old(redDead) && blueDead == old(blueDead)
      ensures redDead <= CHECKERS_PER_SIDE && blueDead <= CHECKERS_PER_SIDE
    {
      if gameState == SETUP_MODE {
        Setup();
      } else if gameState == PLAY_MODE {
        PlayStep(joyX, joyY, pressed);
      }
      assert ModeOK(State(), Ctl(), PLAY_MODE);
    }
  }

  /** loop()'s turn-start reset: every checker of the side loses its forced
      jump and has its eight slots voided, in play or not. */
  method ResetSide(checkers: array<Checker>)
    modifies checkers
    ensures checkers[..] == seq(checkers.Length, i requires 0 <= i < checkers.Length => Reset(old(checkers[i])))
  {
    ghost var cs0 := checkers[..];
    for i := 0 to checkers.Length
      invariant forall j :: 0 <= j < i ==> checkers[j] == Reset(cs0[j])
      invariant forall j :: i <= j < checkers.Length ==> checkers[j] == cs0[j]
    {
      checkers[i] := checkers[i].(mustJump := false);
      VoidSlots(checkers, i);
    }
  }

  /** The recompute branch on the arrays: every checker of `side` has
      must_jump cleared and its slots voided, then compute_moves refills them
      against the other side. */
  method StartTurn(tiles: array<Tile>, red: array<Checker>, blue: array<Checker>, side: int)
    returns (noFJumps: bool)
    requires tiles.Length == NUM_TILES && red.Length == CHECKERS_PER_SIDE
    requires blue.Length == CHECKERS_PER_SIDE && red != blue && (side == RED || side == BLUE)
    modifies red, blue
    ensures Snap(tiles, red, blue) ==
      WithSide(old(Snap(tiles, red, blue)), side, TurnStart(tiles[..], old(Side(Snap(tiles, red, blue), side)), -side))
    ensures noFJumps <==> NoForcedJumps(Side(Snap(tiles, red, blue), side))
  {
    ghost var s0 := Snap(tiles, red, blue);
    var cs := SideArray(red, blue, side);
    ResetSide(cs);
    noFJumps := ComputeMoves(tiles, cs, -1 * side);
    TurnStartSplit(s0.tiles, Side(s0, side), -side);
  }

  /** The first loop of SETUP_MODE: has_checker of tiles 1..63 set to 0. */
  method ClearTiles(tiles: array<Tile>)
    requires tiles.Length == NUM_TILES
    modifies tiles
    ensures tiles[0] == old(tiles[0])
    ensures forall t :: 1 <= t < NUM_TILES ==> tiles[t] == old(tiles[t]).(hasChecker := EMPTY)
  {
    for i := 1 to NUM_TILES
      invariant tiles[0] == old(tiles[0])
      invariant forall t :: 1 <= t < i ==> tiles[t] == old(tiles[t]).(hasChecker := EMPTY)
      invariant forall t :: i <= t < NUM_TILES ==> tiles[t] == old(tiles[t])
    {
      tiles[i] := tiles[i].(hasChecker := EMPTY);
    }
  }

  /** The square of Red checker i in SETUP_MODE and its tile. */
  method RedSquare(i: int) returns (x: byte, y: byte, t: byte)
    requires 0 <= i < CHECKERS_PER_SIDE
    ensures (x, y) == RED_START_SQUARES[i] && t == RED_START_TILES[i]
  {
    x := 2 * (i % 4) + ((i / 4) + 1) % 2;
    y := i / 4;
    t := CoordToTile(x, y);
    StartTilesListed(i);
    StartSquaresListed(i);
  }

  /** A checker placed on square xy as a man in play, its slots kept. */
  function SetOut(c: Checker, xy: (byte, byte)): Checker {
    c.(xTile := xy.0, yTile := xy.1, isKinged := false, inPlay := true)
  }

  /** The red loop of SETUP_MODE: checker i to (2*(i%4) + ((i/4)+1)%2, i/4),
      a man in play, its tile recording (RED, i). */
  method PlaceRed(tiles: array<Tile>, red: array<Checker>)
    requires tiles.Length == NUM_TILES && red.Length == CHECKERS_PER_SIDE
    modifies tiles, red
    ensures forall j :: 0 <= j < CHECKERS_PER_SIDE ==> red[j] == SetOut(old(red[j]), RED_START_SQUARES[j])
    ensures forall j :: 0 <= j < CHECKERS_PER_SIDE ==> tiles[RED_START_TILES[j]] == Tile(RED, j)
    ensures forall t :: 0 <= t < NUM_TILES && t !in RED_START_TILES ==> tiles[t] == old(tiles[t])
  {
    ghost var c0 := red[..];
    ghost var t0 := tiles[..];
    for i := 0 to CHECKERS_PER_SIDE
      invariant forall j :: 0 <= j < i ==> red[j] == SetOut(c0[j], RED_START_SQUARES[j])
      invariant forall j :: i <= j < CHECKERS_PER_SIDE ==> red[j] == c0[j]
      invariant tiles[..] == Stamped(RED_START_TILES, RED, t0, i)
    {
      var x, y, t := RedSquare(i);
      red[i] := SetOut(red[i], (x, y));
      // has_checker and checker_num, the two fields of a tile
      tiles[t] := Tile(RED, i);
    }
    StartTilesDistinct(RED_START_TILES);
    LoopTiles(RED_START_TILES, RED, t0);
  }


  /** The square of Blue checker i in SETUP_MODE and its tile. */
  method BlueSquare(i: int) returns (x: byte, y: byte, t: byte)
    requires 0 <= i < CHECKERS_PER_SIDE
    ensures (x, y) == BLUE_START_SQUARES[i] && t == BLUE_START_TILES[i]
  {
    x := 2 * (i % 4) + (i / 4) % 2;
    y := i / 4 + 5;
    t := CoordToTile(x, y);
    StartTilesListed(i);
    StartSquaresListed(i);
  }

  /** The blue loop of SETUP_MODE: checker i to (2*(i%4) + (i/4)%2, i/4 + 5),
      a man in play, its tile recording (BLUE, i). */
  method PlaceBlue(tiles: array<Tile>, blue: array<Checker>)
    requires tiles.Length == NUM_TILES && blue.Length == CHECKERS_PER_SIDE
    modifies tiles, blue
    ensures forall j :: 0 <= j < CHECKERS_PER_SIDE ==> blue[j] == SetOut(old(blue[j]), BLUE_START_SQUARES[j])
    ensures forall j :: 0 <= j < CHECKERS_PER_SIDE ==> tiles[BLUE_START_TILES[j]] == Tile(BLUE, j)
    ensures forall t :: 0 <= t < NUM_TILES && t !in BLUE_START_TILES ==> tiles[t] == old(tiles[t])
  {
    ghost var c0 := blue[..];
    ghost var t0 := tiles[..];
    for i := 0 to CHECKERS_PER_SIDE
      invariant forall j :: 0 <= j < i ==> blue[j] == SetOut(c0[j], BLUE_START_SQUARES[j])
      invariant forall j :: i <= j < CHECKERS_PER_SIDE ==> blue[j] == c0[j]
      invariant tiles[..] == Stamped(BLUE_START_TILES, BLUE, t0, i)
    {
      var x, y, t := BlueSquare(i);
      blue[i] := SetOut(blue[i], (x, y));
      // has_checker and checker_num, the two fields of a tile
      tiles[t] := Tile(BLUE, i);
    }
    StartTilesDistinct(BLUE_START_TILES);
    LoopTiles(BLUE_START_TILES, BLUE, t0);
  }


  /** The three board loops of SETUP_MODE and the final write to tile 0,
      composed: the board of the starting position. */
  lemma {:induction false} SetupBoard(t0: seq<Tile>, t1: seq<Tile>, t2: seq<Tile>, t3: seq<Tile>, t4: seq<Tile>)
    requires |t0| == NUM_TILES && |t1| == NUM_TILES && |t2| == NUM_TILES && |t3| == NUM_TILES
    requires t1[0] == t0[0] && forall t :: 1 <= t < NUM_TILES ==> t1[t] == t0[t].(hasChecker := EMPTY)
    requires forall j :: 0 <= j < CHECKERS_PER_SIDE ==> t2[RED_START_TILES[j]] == Tile(RED, j)
    requires forall t :: 0 <= t < NUM_TILES && t !in RED_START_TILES ==> t2[t] == t1[t]
    requires forall j :: 0 <= j < CHECKERS_PER_SIDE ==> t3[BLUE_START_TILES[j]] == Tile(BLUE, j)
    requires forall t :: 0 <= t < NUM_TILES && t !in BLUE_START_TILES ==> t3[t] == t2[t]
    requires t4 == t3[0 := t3[0].(hasChecker := OFF_BOARD)]
    ensures |t4| == NUM_TILES && t4[0].hasChecker == OFF_BOARD
    ensures forall j :: 0 <= j < CHECKERS_PER_SIDE ==>
      t4[RED_START_TILES[j]] == Tile(RED, j) && t4[BLUE_START_TILES[j]] == Tile(BLUE, j)
    ensures forall t :: 1 <= t < NUM_TILES && !StartTile(t) ==> t4[t] == t0[t].(hasChecker := EMPTY)
    ensures t4[0] == t0[0].(hasChecker := OFF_BOARD)
  {
    StartTilesSeparate();
    forall j | 0 <= j < CHECKERS_PER_SIDE
      ensures t4[RED_START_TILES[j]] == Tile(RED, j)
    {
      var t := RED_START_TILES[j];
      assert t in RED_START_TILES;
      assert t !in BLUE_START_TILES;
    }
  }

}
