/** The earlier revision of the rules engine (project.cpp): an unchecked
    coordinate map, a jump check that works on a copy of the checker, the
    side-level flag loop over it, the same starting layout as the current
    revision (without the tile-0 sentinel), an x/y cursor, and a button press
    that only checks whether the highlighted piece may be picked up. */
module FirstRevision {
  import opened Board
  import Rules
  import Cursor

  datatype Option<T> = None | Some(value: T)

  /** coord_to_tile of this revision: 8*y + x with no bounds check, truncated
      to the uint8_t it returns. On the board it is the current map. */
  function CoordToTileUnchecked(x: byte, y: byte): (t: byte)
    ensures OnBoard(x, y) ==> t == CoordToTile(x, y) && TileToCoord(t) == (x, y)
  {
    U8(8 * y + x)
  }

  /** tile_to_coord (unchanged in the later revision) undoes the unchecked map
      on every tile index. */
  lemma {:induction false} UncheckedRoundTrip(t: byte)
    requires t < NUM_TILES
    ensures OnBoard(TileToCoord(t).0, TileToCoord(t).1)
    ensures CoordToTileUnchecked(TileToCoord(t).0, TileToCoord(t).1) == t
  {
    var c := TileToCoord(t);
    assert 8 * c.1 + c.0 == t;
  }

  /** As written, the lookup of an off-board square (x, y) is the tile
      (8*y + x) mod 256, and it passes the 64-entry array exactly when that
      value is 64 or more. A step off the right edge (column 8) reads the
      first tile of the next row; a step off the left edge (column 0 - 1 or
      0 - 2, which the uint8_t parameter wraps to 255 or 254) reads the last
      tiles of the row before on rows 1-7; on row 0 it, and on row 7 a step
      off the right edge, index past the array. The current map sends all of
      these to tile 0. VerticalAliases covers steps off the top and bottom. */
  lemma UncheckedAliases()
    ensures CoordToTileUnchecked(8, 0) == CoordToTileUnchecked(0, 1) == 8
    ensures forall y: byte {:trigger CoordToTileUnchecked(255, y)} :: 1 <= y <= 7 ==>
      CoordToTileUnchecked(255, y) == 8 * y - 1 && CoordToTileUnchecked(254, y) == 8 * y - 2
    ensures CoordToTileUnchecked(U8(0 - 1), 3) == 23 && CoordToTileUnchecked(U8(0 - 2), 4) == 30
    ensures CoordToTileUnchecked(U8(0 - 1), 0) >= NUM_TILES && CoordToTileUnchecked(8, 7) >= NUM_TILES
    ensures CoordToTile(8, 0) == 0 && CoordToTile(U8(0 - 1), 0) == 0 && CoordToTile(U8(0 - 1), 3) == 0
  {
    assert U8(0 - 1) == 255 && U8(0 - 2) == 254;
    forall y: byte | 1 <= y <= 7
      ensures CoordToTileUnchecked(255, y) == 8 * y - 1 && CoordToTileUnchecked(254, y) == 8 * y - 2
    {
      assert 8 * y + 255 == (8 * y - 1) + 256 && 8 * y + 254 == (8 * y - 2) + 256;
    }
  }

  /** The same map on steps off the top and bottom rows: below row 7 the
      index passes the array except at (0 - 1, 8) and (0 - 2, 8), which wrap
      to tiles 63 and 62; above row 0 (0 - 1 wraps to 255, so 8*255 is 8 short
      of a multiple of 256) it passes the array except at (8, 0 - 1) and
      (9, 0 - 1), which wrap to tiles 0 and 1. */
  lemma VerticalAliases()
    ensures CoordToTileUnchecked(5, 8) >= NUM_TILES && CoordToTileUnchecked(U8(0 - 1), 8) == 63
    ensures CoordToTileUnchecked(U8(0 - 2), 8) == 62
    ensures CoordToTileUnchecked(8, U8(0 - 1)) == 0 && CoordToTileUnchecked(9, U8(0 - 1)) == 1
    ensures CoordToTileUnchecked(7, U8(0 - 1)) >= NUM_TILES && CoordToTile(8, U8(0 - 1)) == 0
  {
  }

  /** has_checker of tile t, or None for a read past the 64-entry array,
      whose value the C language leaves undefined. */
  function Occupant(tiles: seq<Tile>, t: byte): (r: Option<int>)
    requires |tiles| == NUM_TILES
    ensures r.Some? <==> t < NUM_TILES
    ensures r.Some? ==> r.value == tiles[t].hasChecker
  {
    if t < NUM_TILES then Some(tiles[t].hasChecker) else None
  }

  /** The diagonal neighbour slot k looks at, through the unchecked map. */
  function Neighbour(c: Checker, dir: int, k: int): byte {
    CoordToTileUnchecked(U8(c.xTile + Rules.DX(k)), U8(c.yTile + Rules.DY(k, dir)))
  }

  /** The tile two diagonal steps out along slot k, through the unchecked map. */
  function Landing(c: Checker, dir: int, k: int): byte {
    CoordToTileUnchecked(U8(c.xTile + 2 * Rules.DX(k)), U8(c.yTile + 2 * Rules.DY(k, dir)))
  }

  /** The two tests of one slot: an opposing piece next to the checker and an
      empty tile behind it; a read outside the array matches neither. */
  predicate Jumpable(tiles: seq<Tile>, c: Checker, opp: int, k: int)
    requires |tiles| == NUM_TILES
  {
    Rules.Considered(c, k) &&
    Occupant(tiles, Neighbour(c, opp, k)) == Some(opp) &&
    Occupant(tiles, Landing(c, opp, k)) == Some(EMPTY)
  }

  function CopySlot(tiles: seq<Tile>, c: Checker, opp: int, k: int): byte
    requires |tiles| == NUM_TILES && 0 <= k < 4
  {
    if Jumpable(tiles, c, opp, k) then Landing(c, opp, k) else c.jumps[k]
  }

  /** compute_checker_jumps of this revision takes its Checker by value: this
      is the copy it ends with, which the caller never sees. Only the jump
      slots and the must_jump flag of the copy change; a slot is overwritten
      exactly when its two tests hold, and must_jump is set exactly when some
      slot's tests hold (it is never cleared). */
  function CheckerJumpsCopy(tiles: seq<Tile>, c: Checker, opp: int): (copy: Checker)
    requires |tiles| == NUM_TILES
    ensures copy == c.(jumps := copy.jumps, mustJump := copy.mustJump)
    ensures forall k :: 0 <= k < 4 && Jumpable(tiles, c, opp, k) ==> copy.jumps[k] == Landing(c, opp, k)
    ensures forall k :: 0 <= k < 4 && !Jumpable(tiles, c, opp, k) ==> copy.jumps[k] == c.jumps[k]
    ensures copy.mustJump <==> c.mustJump || exists k :: 0 <= k < 4 && Jumpable(tiles, c, opp, k)
  {
    var js: Slots := [CopySlot(tiles, c, opp, 0), CopySlot(tiles, c, opp, 1),
                      CopySlot(tiles, c, opp, 2), CopySlot(tiles, c, opp, 3)];
    CopySlotsMean(tiles, c, opp, js);
    c.(jumps := js, mustJump := c.mustJump || AnyJumpable(tiles, c, opp))
  }

  /** The four slots of the copy and its flag, slot by slot. */
  lemma {:induction false} CopySlotsMean(tiles: seq<Tile>, c: Checker, opp: int, js: Slots)
    requires |tiles| == NUM_TILES
    requires forall k :: 0 <= k < 4 ==> js[k] == CopySlot(tiles, c, opp, k)
    ensures forall k :: 0 <= k < 4 && Jumpable(tiles, c, opp, k) ==> js[k] == Landing(c, opp, k)
    ensures forall k :: 0 <= k < 4 && !Jumpable(tiles, c, opp, k) ==> js[k] == c.jumps[k]
    ensures AnyJumpable(tiles, c, opp) <==> exists k :: 0 <= k < 4 && Jumpable(tiles, c, opp, k)
  {
    if AnyJumpable(tiles, c, opp) {
      if Jumpable(tiles, c, opp, 0) {
        assert Jumpable(tiles, c, opp, 0);
      } else if Jumpable(tiles, c, opp, 1) {
        assert Jumpable(tiles, c, opp, 1);
      } else if Jumpable(tiles, c, opp, 2) {
        assert Jumpable(tiles, c, opp, 2);
      }
    }
  }

  predicate AnyJumpable(tiles: seq<Tile>, c: Checker, opp: int)
    requires |tiles| == NUM_TILES
  {
    Jumpable(tiles, c, opp, 0) || Jumpable(tiles, c, opp, 1) ||
    Jumpable(tiles, c, opp, 2) || Jumpable(tiles, c, opp, 3)
  }

  /** Slot k of a checker at least two squares from every edge looks at the
      same two tiles in both revisions, and both lie on the board. */
  lemma {:induction false} InteriorTargets(c: Checker, opp: int, k: int)
    requires opp == RED || opp == BLUE
    requires 2 <= c.xTile <= 5 && 2 <= c.yTile <= 5 && 0 <= k < 4
    ensures Neighbour(c, opp, k) == Rules.MoveTarget(c, opp, k) < NUM_TILES
    ensures Landing(c, opp, k) == Rules.JumpTarget(c, opp, k) < NUM_TILES
  {
    var dx, dy := Rules.DX(k), Rules.DY(k, opp);
    assert -1 <= dx <= 1 && -1 <= dy <= 1;
    SteppedCoord(c.xTile + dx, c.yTile + dy);
    SteppedCoord(c.xTile + 2 * dx, c.yTile + 2 * dy);
  }

  /** Away from the edges the copy ends exactly as the current revision's
      compute_checker_jumps leaves the checker: the earlier revision differs
      in what it does at an edge and in dropping the result. */
  lemma {:induction false} InteriorAgrees(tiles: seq<Tile>, c: Checker, opp: int)
    requires |tiles| == NUM_TILES && (opp == RED || opp == BLUE)
    requires 2 <= c.xTile <= 5 && 2 <= c.yTile <= 5
    ensures CheckerJumpsCopy(tiles, c, opp) == Rules.AfterJumps(tiles, c, opp)
  {
    forall k | 0 <= k < 4
      ensures Jumpable(tiles, c, opp, k) == Rules.CanJump(tiles, c, opp, k)
      ensures CopySlot(tiles, c, opp, k) == Rules.JumpSlot(tiles, c, opp, k)
    {
      InteriorTargets(c, opp, k);
    }
  }

  /** No checker of the list carries must_jump. */
  predicate NoneMarked(cs: seq<Checker>) {
    forall j :: 0 <= j < |cs| ==> !cs[j].mustJump
  }

  /** compute_jumps of this revision: every call computes a copy and drops it,
      so the method changes nothing (it has no modifies clause) and the flag
      it returns reports only the must_jump flags the 12 checkers already
      carry, whether in play or not. */
  method ComputeJumps(tiles: array<Tile>, checkers: array<Checker>, opp: sbyte) returns (noFJumps: bool)
    requires tiles.Length == NUM_TILES && checkers.Length == CHECKERS_PER_SIDE
    ensures noFJumps <==> NoneMarked(checkers[..])
  {
    noFJumps := true;
    for i := 0 to CHECKERS_PER_SIDE
      invariant noFJumps <==> forall j :: 0 <= j < i ==> !checkers[j].mustJump
    {
      var dropped := CheckerJumpsCopy(tiles[..], checkers[i], opp);
      if checkers[i].mustJump {
        noFJumps := false;
      }
    }
  }

  /** A board with a single Blue piece on tile 27 and every other tile empty. */
  function LoneBlueBoard(): (tiles: seq<Tile>)
    ensures |tiles| == NUM_TILES && tiles[27] == Tile(BLUE, 0) && tiles[36] == Tile(EMPTY, 0)
  {
    seq(NUM_TILES, t => if t == 27 then Tile(BLUE, 0) else Tile(EMPTY, 0))
  }

  /** As written, a capture is lost: a Red man on (2, 2) can take the Blue
      piece on (3, 3), but a side whose every checker is that man with
      must_jump clear comes out of compute_jumps with no forced jump. */
  lemma {:induction false} LostCapture()
    ensures var c := Checker(2, 2, false, true, false, NONE_SLOTS, NONE_SLOTS);
      Jumpable(LoneBlueBoard(), c, BLUE, 1) && Rules.CanJump(LoneBlueBoard(), c, BLUE, 1) &&
      CheckerJumpsCopy(LoneBlueBoard(), c, BLUE).mustJump &&
      NoneMarked(seq(CHECKERS_PER_SIDE, _ => c))
  {
    var c := Checker(2, 2, false, true, false, NONE_SLOTS, NONE_SLOTS);
    InteriorTargets(c, BLUE, 1);
    assert Neighbour(c, BLUE, 1) == 27 && Landing(c, BLUE, 1) == 36;
  }

  /** A board with a single Blue piece on tile 23, (7, 2), the right end of
      row 2, and every other tile empty. */
  function EdgeBoard(): (tiles: seq<Tile>)
    ensures |tiles| == NUM_TILES && tiles[23] == Tile(BLUE, 0)
    ensures tiles[30] == Tile(EMPTY, 0) && tiles[0] == Tile(EMPTY, 0)
  {
    seq(NUM_TILES, t => if t == 23 then Tile(BLUE, 0) else Tile(EMPTY, 0))
  }

  /** As written, a capture is found across the left edge: for a Red man on
      (0, 2), slot 0's neighbour (0 - 1, 3) wraps to tile 23, (7, 2), and its
      landing (0 - 2, 4) to tile 30, (6, 3). With a Blue piece on tile 23 and
      tile 30 empty, the copy records the landing 30 and must_jump, while the
      current map sends the step to tile 0 and finds no capture. */
  lemma {:induction false} WrappedCapture()
    ensures var c := Checker(0, 2, false, true, false, NONE_SLOTS, NONE_SLOTS);
      Neighbour(c, BLUE, 0) == 23 && Landing(c, BLUE, 0) == 30 &&
      Jumpable(EdgeBoard(), c, BLUE, 0) &&
      CheckerJumpsCopy(EdgeBoard(), c, BLUE).jumps[0] == 30 &&
      CheckerJumpsCopy(EdgeBoard(), c, BLUE).mustJump &&
      !Rules.CanJump(EdgeBoard(), c, BLUE, 0)
  {
    var c := Checker(0, 2, false, true, false, NONE_SLOTS, NONE_SLOTS);
    assert Neighbour(c, BLUE, 0) == 23 && Landing(c, BLUE, 0) == 30;
    assert Rules.MoveTarget(c, BLUE, 0) == 0;
  }

  // ---------------------------------------------------------------------------
  // SETUP_MODE of loop()

  /** One piece loop of SETUP_MODE: checker i gets the column and row of the
      side's formula, and its tile records (side, i). Nothing else of the
      checker is written in this revision. */
  method PlaceSide(tiles: array<Tile>, cs: array<Checker>, side: sbyte)
    requires tiles.Length == NUM_TILES && cs.Length == CHECKERS_PER_SIDE
    requires side == RED || side == BLUE
    modifies tiles, cs
    ensures forall j :: 0 <= j < CHECKERS_PER_SIDE ==>
      cs[j] == old(cs[j]).(xTile := StartSquares(side)[j].0, yTile := StartSquares(side)[j].1)
    ensures forall j :: 0 <= j < CHECKERS_PER_SIDE ==> tiles[StartTiles(side)[j]] == Tile(side, j)
    ensures forall t :: 0 <= t < NUM_TILES && t !in StartTiles(side) ==> tiles[t] == old(tiles[t])
  {
    ghost var c0 := cs[..];
    ghost var t0 := tiles[..];
    for i := 0 to CHECKERS_PER_SIDE
      invariant forall j :: 0 <= j < i ==>
        cs[j] == c0[j].(xTile := StartSquares(side)[j].0, yTile := StartSquares(side)[j].1)
      invariant forall j :: i <= j < CHECKERS_PER_SIDE ==> cs[j] == c0[j]
      invariant tiles[..] == Stamped(StartTiles(side), side, t0, i)
    {
      var x, y, t := StartSquare(side, i);
      cs[i] := cs[i].(xTile := x, yTile := y);
      tiles[t] := Tile(side, i);
    }
    StartTilesDistinct(StartTiles(side));
    LoopTiles(StartTiles(side), side, t0);
  }

  /** The square of piece i of a side in SETUP_MODE (the formulas of the two
      loops) and its tile through the unchecked map. */
  method StartSquare(side: int, i: int) returns (x: byte, y: byte, t: byte)
    requires (side == RED || side == BLUE) && 0 <= i < CHECKERS_PER_SIDE
    ensures (x, y) == StartSquares(side)[i] && t == StartTiles(side)[i]
  {
    var xy := if side == RED then RedStart(i) else BlueStart(i);
    x, y := xy.0, xy.1;
    StartSquaresListed(i);
    StartTables();
    t := CoordToTileUnchecked(x, y);
  }

  function StartSquares(side: int): seq<(byte, byte)> {
    if side == RED then RED_START_SQUARES else BLUE_START_SQUARES
  }

  function StartTiles(side: int): seq<TileIndex> {
    if side == RED then RED_START_TILES else BLUE_START_TILES
  }

  /** SETUP_MODE of this revision: the red loop, then the blue loop. Red piece
      i lands on square RED_START_SQUARES[i] (the formula
      2*(i%4) + ((i/4)+1)%2, i/4), Blue piece i on BLUE_START_SQUARES[i]
      (2*(i%4) + (i/4)%2, i/4 + 5); the 24 tiles, all different, record their
      pieces, and every other tile keeps what it held. */
  method SetupLayout(tiles: array<Tile>, red: array<Checker>, blue: array<Checker>)
    requires tiles.Length == NUM_TILES
    requires red.Length == CHECKERS_PER_SIDE && blue.Length == CHECKERS_PER_SIDE && red != blue
    modifies tiles, red, blue
    ensures forall j :: 0 <= j < CHECKERS_PER_SIDE ==>
      red[j] == old(red[j]).(xTile := RED_START_SQUARES[j].0, yTile := RED_START_SQUARES[j].1) &&
      blue[j] == old(blue[j]).(xTile := BLUE_START_SQUARES[j].0, yTile := BLUE_START_SQUARES[j].1)
    ensures forall j :: 0 <= j < CHECKERS_PER_SIDE ==>
      tiles[RED_START_TILES[j]] == Tile(RED, j) && tiles[BLUE_START_TILES[j]] == Tile(BLUE, j)
    ensures forall t :: 0 <= t < NUM_TILES && t !in RED_START_TILES && t !in BLUE_START_TILES ==>
      tiles[t] == old(tiles[t])
  {
    PlaceSide(tiles, red, RED);
    PlaceSide(tiles, blue, BLUE);
    StartTilesSeparate();
  }

  // ---------------------------------------------------------------------------
  // PLAY_MODE of loop(): the cursor and the button

  /** The cursor step of this revision. The stick readings are divided by 400
      as C divides; with no tile selected and the stick off centre,
      x_highlight and y_highlight each move one square in the stick's
      direction and stop at the edges of the board. */
  method StepHighlight(joyX: int, joyY: int, selected: bool, x0: byte, y0: byte) returns (x: byte, y: byte)
    ensures selected ==> x == x0 && y == y0
    ensures !selected && x0 <= 7 ==> x == Cursor.Clamp7(x0 + Cursor.Dir(Cursor.JoyStep(joyX)))
    ensures !selected && y0 <= 7 ==> y == Cursor.Clamp7(y0 + Cursor.Dir(Cursor.JoyStep(joyY)))
  {
    var jx, jy := Cursor.JoyStep(joyX), Cursor.JoyStep(joyY);
    x, y := x0, y0;
    if (jx != 0 || jy != 0) && !selected {
      if jx <= -1 {
        if x != 0 { x := x - 1; }
      }
      if jx >= 1 {
        if x != 7 { x := U8(x + 1); }
      }
      if jy <= -1 {
        if y != 0 { y := y - 1; }
      }
      if jy >= 1 {
        if y != 7 { y := U8(y + 1); }
      }
    }
  }

  /** Both coordinates stay on the board, each moves by at most one square,
      and only in the stick's direction. */
  lemma {:induction false} HighlightBounded(v: int, d: int)
    requires 0 <= v <= 7 && -1 <= d <= 1
    ensures 0 <= Cursor.Clamp7(v + d) <= 7
    ensures Cursor.Clamp7(v + d) == v || Cursor.Clamp7(v + d) == v + d
    ensures Cursor.Clamp7(v + d) == v <==> d == 0 || v + d < 0 || v + d > 7
  {
  }

  /** The button press of this revision. The selection itself
      (tile_selected = 1) is commented out, so a press changes no tile, no
      checker and no global; this says whether the press is accepted. With no
      forced jumps and no tile selected, the highlighted tile must hold a piece
      of the side to move; with forced jumps, the checker of the side's array
      that the tile's checker_num names must have must_jump set. */
  function ButtonAccepts(tiles: seq<Tile>, cs: seq<Checker>, x: byte, y: byte, turn: int,
                         noFJumps: bool, selected: bool): (r: bool)
    requires |tiles| == NUM_TILES && |cs| == CHECKERS_PER_SIDE && OnBoard(x, y)
    requires tiles[8 * y + x].checkerNum < CHECKERS_PER_SIDE
    ensures r && noFJumps ==> !selected && tiles[8 * y + x].hasChecker == turn
    ensures r && !noFJumps ==> cs[tiles[8 * y + x].checkerNum].mustJump
    ensures !selected && noFJumps && tiles[8 * y + x].hasChecker == turn ==> r
    ensures !noFJumps && cs[tiles[8 * y + x].checkerNum].mustJump ==> r
  {
    var t := CoordToTileUnchecked(x, y);
    if !selected && noFJumps then tiles[t].hasChecker == turn
    else if !noFJumps then cs[tiles[t].checkerNum].mustJump
    else false
  }

  /** In this revision recompute_force_jumps starts at 0 and nothing sets
      it, so compute_jumps never runs: no_fjumps keeps its initial 0, and no
      checker of either array ever has must_jump set, since the only writes
      to must_jump go to the by-value copy. In that state no press is
      accepted, on any tile. */
  lemma {:induction false} NothingAccepted(tiles: seq<Tile>, cs: seq<Checker>, x: byte, y: byte, turn: int,
                                           selected: bool)
    requires |tiles| == NUM_TILES && |cs| == CHECKERS_PER_SIDE && OnBoard(x, y)
    requires tiles[8 * y + x].checkerNum < CHECKERS_PER_SIDE
    requires NoneMarked(cs)
    ensures !ButtonAccepts(tiles, cs, x, y, turn, false, selected)
  {
  }

  /** The board of LoneBlueBoard with the Red man of LostCapture on tile 18. */
  function CaptureBoard(): (tiles: seq<Tile>)
    ensures |tiles| == NUM_TILES && tiles[36] == Tile(EMPTY, 0)
    ensures forall t :: 0 <= t < NUM_TILES ==> tiles[t].checkerNum == 0
  {
    LoneBlueBoard()[18 := Tile(RED, 0)]
  }

  /** As written, with forced jumps pending the press is accepted on any tile
      whose checker_num names a checker that must jump, even an empty tile:
      every tile the setup loops never wrote keeps checker_num 0. */
  lemma {:induction false} ForeignAccepted()
    ensures var c := Checker(2, 2, false, true, true, NONE_SLOTS, NONE_SLOTS);
      ButtonAccepts(CaptureBoard(), seq(CHECKERS_PER_SIDE, _ => c), 4, 4, RED, false, false) &&
      CaptureBoard()[36].hasChecker != RED
  {
  }
}
