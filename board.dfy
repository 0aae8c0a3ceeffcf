/** The data layout of the checkers sketch and its coordinate maps
    (projectnew.cpp, the current revision).

    The sketch encodes everything as small integers; this model keeps that
    encoding, because the rules depend on it: a tile's `hasChecker` is 0 for an
    empty tile, 1 for Red and -1 for Blue, and setup writes 42 into tile 0 so
    that an off-board lookup (which the coordinate map sends to tile 0) is never
    mistaken for an empty or an opposing tile. */
module Board {

  /** `uint8_t` and `int8_t` (the sketch's `char`) values. */
  type byte = v: int | 0 <= v < 256
  type sbyte = v: int | -128 <= v < 128

  /** A checker's four move (or jump) destinations, one per diagonal slot. */
  type Slots = s: seq<byte> | |s| == 4 witness [64, 64, 64, 64]

  const RED: int := 1            // TURN_RED, also Red's has_checker value
  const BLUE: int := -1          // TURN_BLUE, also Blue's has_checker value
  const EMPTY: int := 0          // has_checker of an empty tile
  const OFF_BOARD: int := 42     // has_checker that setup writes into tile 0
  const NO_TILE: int := 64       // a move or jump slot that holds no destination
  const NO_CHECKER: int := 13    // checker_num of a tile a piece has left

  const CHECKERS_PER_SIDE: int := 12
  const NUM_TILES: int := 64

  /** A tile of the 64-entry board: which side occupies it and the index of
      the occupying checker in that side's 12-entry array. */
  datatype Tile = Tile(hasChecker: sbyte, checkerNum: byte)

  /** A piece, as the fields the sketch actually uses. */
  datatype Checker = Checker(
    xTile: byte,
    yTile: byte,
    isKinged: bool,
    inPlay: bool,
    mustJump: bool,
    moves: Slots,
    jumps: Slots)

  const NONE_SLOTS: Slots := [NO_TILE, NO_TILE, NO_TILE, NO_TILE]

  /** The sketch's implicit conversion of an `int` argument to a `uint8_t`
      parameter: arithmetic modulo 256, so that `x - 1` with `x == 0` is 255. */
  function U8(v: int): (r: byte)
    ensures 0 <= v < 256 ==> r == v
    ensures -256 <= v < 0 ==> r == v + 256
  {
    v % 256
  }

  predicate OnBoard(x: int, y: int) {
    0 <= x <= 7 && 0 <= y <= 7
  }

  /** coord_to_tile: the tile index of column x, row y; every coordinate
      outside the board maps to tile 0. */
  function CoordToTile(x: byte, y: byte): (t: byte)
    ensures 0 <= t < NUM_TILES
    ensures !OnBoard(x, y) ==> t == 0
  {
    if x < 0 || x > 7 || y < 0 || y > 7 then 0 else 8 * y + x
  }

  /** tile_to_coord: the (column, row) pair of a tile index. The sketch returns
      a pointer to a local two-byte array; here it is a pair. */
  function TileToCoord(t: byte): (c: (byte, byte))
    ensures t < NUM_TILES ==> OnBoard(c.0, c.1) && 8 * c.1 + c.0 == t
  {
    (t % 8, t / 8)
  }

  /** The two maps are inverse to each other on the board. */
  lemma CoordRoundTrip(x: byte, y: byte, t: byte)
    ensures OnBoard(x, y) ==> TileToCoord(CoordToTile(x, y)) == (x, y)
    ensures t < NUM_TILES ==> CoordToTile(TileToCoord(t).0, TileToCoord(t).1) == t
  {
  }

  /** The lookup a generator performs at column x + dx, row y + dy: once the
      arguments have been converted to `uint8_t`, a step off any edge of the
      board (including a step to -1 or -2, which wraps to 255 or 254) lands on
      tile 0, and a step onto the board lands on the expected tile. */
  lemma {:induction false} SteppedCoord(x: int, y: int)
    requires -248 <= x < 256 && -248 <= y < 256
    ensures OnBoard(x, y) ==> CoordToTile(U8(x), U8(y)) == 8 * y + x
    ensures !OnBoard(x, y) ==> CoordToTile(U8(x), U8(y)) == 0
  {
    if x < 0 { assert U8(x) == x + 256; }
    if y < 0 { assert U8(y) == y + 256; }
  }

  /** The tile of an on-board checker. */
  function TileOf(c: Checker): int {
    8 * c.yTile + c.xTile
  }

  predicate Placed(c: Checker) {
    OnBoard(c.xTile, c.yTile)
  }

  // ---------------------------------------------------------------------------
  // The starting layout (SETUP_MODE of loop(), the same in both revisions).

  /** Red checker i starts at column 2*(i%4) + ((i/4)+1)%2 of row i/4. */
  function RedStart(i: int): (byte, byte)
    requires 0 <= i < CHECKERS_PER_SIDE
  {
    (2 * (i % 4) + ((i / 4) + 1) % 2, i / 4)
  }

  /** Blue checker i starts at column 2*(i%4) + (i/4)%2 of row i/4 + 5. */
  function BlueStart(i: int): (byte, byte)
    requires 0 <= i < CHECKERS_PER_SIDE
  {
    (2 * (i % 4) + (i / 4) % 2, i / 4 + 5)
  }

  function RedStartTile(i: int): int
    requires 0 <= i < CHECKERS_PER_SIDE
  {
    8 * RedStart(i).1 + RedStart(i).0
  }

  function BlueStartTile(i: int): int
    requires 0 <= i < CHECKERS_PER_SIDE
  {
    8 * BlueStart(i).1 + BlueStart(i).0
  }

  /** An index into the 64-entry tile array. */
  type TileIndex = t: int | 0 <= t < NUM_TILES

  const RED_START_TILES: seq<TileIndex> := [1, 3, 5, 7, 8, 10, 12, 14, 17, 19, 21, 23]
  const BLUE_START_TILES: seq<TileIndex> := [40, 42, 44, 46, 49, 51, 53, 55, 56, 58, 60, 62]
  const RED_START_SQUARES: seq<(byte, byte)> :=
    [(1, 0), (3, 0), (5, 0), (7, 0), (0, 1), (2, 1), (4, 1), (6, 1), (1, 2), (3, 2), (5, 2), (7, 2)]
  const BLUE_START_SQUARES: seq<(byte, byte)> :=
    [(0, 5), (2, 5), (4, 5), (6, 5), (1, 6), (3, 6), (5, 6), (7, 6), (0, 7), (2, 7), (4, 7), (6, 7)]

  /** The starting tiles, listed. */
  lemma {:induction false} StartTilesListed(i: int)
    requires 0 <= i < CHECKERS_PER_SIDE
    ensures RedStartTile(i) == RED_START_TILES[i]
    ensures BlueStartTile(i) == BLUE_START_TILES[i]
  {
    StartSquaresListed(i);
    StartTables();
  }

  /** The starting squares, listed. */
  lemma {:induction false} StartSquaresListed(i: int)
    requires 0 <= i < CHECKERS_PER_SIDE
    ensures RedStart(i) == RED_START_SQUARES[i]
    ensures BlueStart(i) == BLUE_START_SQUARES[i]
  {
    // one case per piece keeps the arithmetic on i / 4 and i % 4 literal
    if i == 0 {} else if i == 1 {} else if i == 2 {} else if i == 3 {}
    else if i == 4 {} else if i == 5 {} else if i == 6 {} else if i == 7 {}
    else if i == 8 {} else if i == 9 {} else if i == 10 {} else {}
  }

  /** The starting layout: every piece on a dark square of the board, Red in
      rows 0-2 and Blue in rows 5-7, no two pieces on one tile, and none on
      tile 0. */
  lemma {:induction false} StartLayout()
    ensures forall i :: 0 <= i < CHECKERS_PER_SIDE ==>
      OnBoard(RedStart(i).0, RedStart(i).1) && RedStart(i).1 <= 2 &&
      (RedStart(i).0 + RedStart(i).1) % 2 == 1 && RedStartTile(i) != 0
    ensures forall i :: 0 <= i < CHECKERS_PER_SIDE ==>
      OnBoard(BlueStart(i).0, BlueStart(i).1) && 5 <= BlueStart(i).1 &&
      (BlueStart(i).0 + BlueStart(i).1) % 2 == 1 && BlueStartTile(i) != 0
    ensures forall i, j :: 0 <= i < j < CHECKERS_PER_SIDE ==>
      RedStartTile(i) != RedStartTile(j) && BlueStartTile(i) != BlueStartTile(j)
    ensures forall i, j :: 0 <= i < CHECKERS_PER_SIDE && 0 <= j < CHECKERS_PER_SIDE ==>
      RedStartTile(i) != BlueStartTile(j)
  {
    forall i | 0 <= i < CHECKERS_PER_SIDE
      ensures OnBoard(RedStart(i).0, RedStart(i).1) && RedStart(i).1 <= 2
      ensures (RedStart(i).0 + RedStart(i).1) % 2 == 1 && RedStartTile(i) != 0
      ensures OnBoard(BlueStart(i).0, BlueStart(i).1) && 5 <= BlueStart(i).1
      ensures (BlueStart(i).0 + BlueStart(i).1) % 2 == 1 && BlueStartTile(i) != 0
      ensures RedStartTile(i) / 2 == i && RedStartTile(i) < 24
      ensures (BlueStartTile(i) - 40) / 2 == i && 40 <= BlueStartTile(i)
    {
      RedSquareFacts(i);
      BlueSquareFacts(i);
    }
  }

  /** The starting square of Red piece i: on the board, dark, in rows 0-2;
      its tile, 2i or 2i + 1, determines the index. */
  lemma {:induction false} RedSquareFacts(i: int)
    requires 0 <= i < CHECKERS_PER_SIDE
    ensures OnBoard(RedStart(i).0, RedStart(i).1) && RedStart(i).1 <= 2
    ensures (RedStart(i).0 + RedStart(i).1) % 2 == 1
    ensures RedStartTile(i) / 2 == i && 1 <= RedStartTile(i) < 24
  {
    if i == 0 {} else if i == 1 {} else if i == 2 {} else if i == 3 {}
    else if i == 4 {} else if i == 5 {} else if i == 6 {} else if i == 7 {}
    else if i == 8 {} else if i == 9 {} else if i == 10 {} else {}
  }

  /** The starting square of Blue piece i: on the board, dark, in rows 5-7;
      its tile, 40 + 2i or 41 + 2i, determines the index. */
  lemma {:induction false} BlueSquareFacts(i: int)
    requires 0 <= i < CHECKERS_PER_SIDE
    ensures OnBoard(BlueStart(i).0, BlueStart(i).1) && 5 <= BlueStart(i).1
    ensures (BlueStart(i).0 + BlueStart(i).1) % 2 == 1
    ensures (BlueStartTile(i) - 40) / 2 == i && 40 <= BlueStartTile(i)
  {
    if i == 0 {} else if i == 1 {} else if i == 2 {} else if i == 3 {}
    else if i == 4 {} else if i == 5 {} else if i == 6 {} else if i == 7 {}
    else if i == 8 {} else if i == 9 {} else if i == 10 {} else {}
  }

  /** The two lists of starting tiles: no repeats, no overlap, no tile 0. */
  lemma {:induction false} StartTilesSeparate()
    ensures forall i, j :: 0 <= i < j < CHECKERS_PER_SIDE ==>
      RED_START_TILES[i] != RED_START_TILES[j] && BLUE_START_TILES[i] != BLUE_START_TILES[j]
    ensures forall i, j :: 0 <= i < CHECKERS_PER_SIDE && 0 <= j < CHECKERS_PER_SIDE ==>
      RED_START_TILES[i] != BLUE_START_TILES[j]
    ensures forall i :: 0 <= i < CHECKERS_PER_SIDE ==>
      1 <= RED_START_TILES[i] < NUM_TILES && 1 <= BLUE_START_TILES[i] < NUM_TILES
  {
    StartLayout();
    forall i | 0 <= i < CHECKERS_PER_SIDE
      ensures RedStartTile(i) == RED_START_TILES[i] && BlueStartTile(i) == BLUE_START_TILES[i]
    {
      StartTilesListed(i);
    }
  }

  /** The two lists of starting squares against the two lists of starting
      tiles: each square is on the board and is the square of its tile. */
  lemma {:induction false} StartTables()
    ensures forall i :: 0 <= i < CHECKERS_PER_SIDE ==>
      OnBoard(RED_START_SQUARES[i].0, RED_START_SQUARES[i].1) &&
      8 * RED_START_SQUARES[i].1 + RED_START_SQUARES[i].0 == RED_START_TILES[i]
    ensures forall i :: 0 <= i < CHECKERS_PER_SIDE ==>
      OnBoard(BLUE_START_SQUARES[i].0, BLUE_START_SQUARES[i].1) &&
      8 * BLUE_START_SQUARES[i].1 + BLUE_START_SQUARES[i].0 == BLUE_START_TILES[i]
  {
    forall i | 0 <= i < CHECKERS_PER_SIDE
      ensures OnBoard(RED_START_SQUARES[i].0, RED_START_SQUARES[i].1)
      ensures 8 * RED_START_SQUARES[i].1 + RED_START_SQUARES[i].0 == RED_START_TILES[i]
      ensures OnBoard(BLUE_START_SQUARES[i].0, BLUE_START_SQUARES[i].1)
      ensures 8 * BLUE_START_SQUARES[i].1 + BLUE_START_SQUARES[i].0 == BLUE_START_TILES[i]
    {
      if i == 0 {} else if i == 1 {} else if i == 2 {} else if i == 3 {}
      else if i == 4 {} else if i == 5 {} else if i == 6 {} else if i == 7 {}
      else if i == 8 {} else if i == 9 {} else if i == 10 {} else {}
    }
  }

  /** The board after the first i passes of a piece loop of SETUP_MODE, pass
      j writing (side, j) into tile ts[j]. */
  function Stamped(ts: seq<TileIndex>, side: sbyte, base: seq<Tile>, i: nat): (r: seq<Tile>)
    requires |base| == NUM_TILES && i <= |ts| <= 256
    ensures |r| == NUM_TILES
    decreases i
  {
    if i == 0 then base else Stamped(ts, side, base, i - 1)[ts[i - 1] := Tile(side, i - 1)]
  }

  /** With no tile listed twice, the first i passes leave tile ts[j] holding
      (side, j) for each j < i and every tile not among them as it was. */
  lemma {:induction false} StampedFacts(ts: seq<TileIndex>, side: sbyte, base: seq<Tile>, i: nat)
    requires |base| == NUM_TILES && i <= |ts| <= 256
    requires forall a, b :: 0 <= a < b < |ts| ==> ts[a] != ts[b]
    ensures forall j :: 0 <= j < i ==> Stamped(ts, side, base, i)[ts[j]] == Tile(side, j)
    ensures forall t :: 0 <= t < NUM_TILES && t !in ts[..i] ==> Stamped(ts, side, base, i)[t] == base[t]
  {
    if i > 0 {
      StampedFacts(ts, side, base, i - 1);
      assert ts[..i] == ts[..i - 1] + [ts[i - 1]];
    }
  }

  /** A whole piece loop of SETUP_MODE over a list of distinct tiles. */
  lemma {:induction false} LoopTiles(ts: seq<TileIndex>, side: sbyte, base: seq<Tile>)
    requires |base| == NUM_TILES && |ts| == CHECKERS_PER_SIDE
    requires forall a, b :: 0 <= a < b < |ts| ==> ts[a] != ts[b]
    ensures forall j :: 0 <= j < |ts| ==> Stamped(ts, side, base, |ts|)[ts[j]] == Tile(side, j)
    ensures forall t :: 0 <= t < NUM_TILES && t !in ts ==> Stamped(ts, side, base, |ts|)[t] == base[t]
  {
    StampedFacts(ts, side, base, |ts|);
    assert ts[..|ts|] == ts;
  }

  /** Neither list of starting tiles names a tile twice. */
  lemma {:induction false} StartTilesDistinct(ts: seq<TileIndex>)
    requires ts == RED_START_TILES || ts == BLUE_START_TILES
    ensures |ts| == CHECKERS_PER_SIDE
    ensures forall a, b :: 0 <= a < b < |ts| ==> ts[a] != ts[b]
  {
    StartTilesSeparate();
  }
}
