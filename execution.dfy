/** Move and capture execution of the current revision (projectnew.cpp,
    move_checker and jump_checker), stated as functions on a snapshot of the
    board and both checker arrays, and the board/registry consistency that
    they preserve. */
module Execution {
  import opened Board
  import opened Rules

  /** The 64 tiles and the two 12-entry checker arrays. */
  datatype Snapshot = Snapshot(tiles: seq<Tile>, red: seq<Checker>, blue: seq<Checker>)

  predicate Shaped(s: Snapshot) {
    |s.tiles| == NUM_TILES && |s.red| == CHECKERS_PER_SIDE && |s.blue| == CHECKERS_PER_SIDE
  }

  /** The array that holds a side's checkers (red_checkers for RED). */
  function Side(s: Snapshot, side: int): seq<Checker> {
    if side == RED then s.red else s.blue
  }

  function WithSide(s: Snapshot, side: int, cs: seq<Checker>): Snapshot {
    if side == RED then s.(red := cs) else s.(blue := cs)
  }

  /** Checker n of the array is in play and stands on tile t. */
  predicate Holds(cs: seq<Checker>, n: int, t: int) {
    0 <= n < |cs| && cs[n].inPlay && Placed(cs[n]) && TileOf(cs[n]) == t
  }

  /** Tiles and one side's checkers agree: each tile marked with the side
      names an in-play checker standing on that tile, and each in-play checker
      stands on the board, on a tile marked with the side and its index. */
  predicate SideConsistent(tiles: seq<Tile>, cs: seq<Checker>, side: int)
    requires |tiles| == NUM_TILES
  {
    (forall t :: 1 <= t < NUM_TILES && tiles[t].hasChecker == side ==>
      Holds(cs, tiles[t].checkerNum, t)) &&
    (forall i :: 0 <= i < |cs| && cs[i].inPlay ==>
      Placed(cs[i]) && Marks(tiles[TileOf(cs[i])], side, i))
  }

  predicate Marks(t: Tile, side: int, i: int) {
    t.hasChecker == side && t.checkerNum == i
  }

  /** Consistency assembled from its parts, for either side to move. */
  lemma {:induction false} AssembleConsistent(s: Snapshot, side: int)
    requires Shaped(s) && Coded(s.tiles) && (side == RED || side == BLUE)
    requires SideConsistent(s.tiles, Side(s, side), side)
    requires SideConsistent(s.tiles, Side(s, -side), -side)
    ensures Consistent(s)
  {
    forall t | t == RED || t == BLUE
      ensures Agrees(s, t)
    {
    }
  }

  predicate Coded(tiles: seq<Tile>)
    requires |tiles| == NUM_TILES
  {
    tiles[0].hasChecker == OFF_BOARD &&
    forall t :: 1 <= t < NUM_TILES ==>
      tiles[t].hasChecker == EMPTY || tiles[t].hasChecker == RED || tiles[t].hasChecker == BLUE
  }

  /** The board/registry invariant of a game in PLAY_MODE: the tile codes
      are those setup leaves, and each side's array agrees with the board. */
  ghost predicate Consistent(s: Snapshot) {
    Shaped(s) && Coded(s.tiles) &&
    forall side {:trigger Agrees(s, side)} :: side == RED || side == BLUE ==> Agrees(s, side)
  }

  /** The array of `side` agrees with the board. Consistent quantifies over
      this predicate alone, so that a proof unfolds the registry facts only
      for a side it names. */
  ghost predicate Agrees(s: Snapshot, side: int)
    requires Shaped(s)
  {
    SideConsistent(s.tiles, Side(s, side), side)
  }

  /** Both sides' registry facts of a consistent board. */
  lemma {:induction false} ConsistentSides(s: Snapshot, side: int)
    requires Consistent(s) && (side == RED || side == BLUE)
    ensures SideConsistent(s.tiles, Side(s, side), side)
    ensures SideConsistent(s.tiles, Side(s, -side), -side)
  {
    assert Agrees(s, side) && Agrees(s, -side);
  }

  /** The number of captured (not in play) checkers of an array. */
  function OutCount(cs: seq<Checker>): (n: nat)
    ensures n <= |cs|
  {
    if cs == [] then 0 else OutCount(cs[..|cs| - 1]) + (if cs[|cs| - 1].inPlay then 0 else 1)
  }

  // ---------------------------------------------------------------------------
  // move_checker and jump_checker on values.

  /** The checker's coordinates set to those of tile dst; with `king`, it is
      kinged when dst lies on row 0 or row 7, and a king stays a king. */
  function Relocate(c: Checker, dst: byte, king: bool): Checker {
    var xy := TileToCoord(dst);
    c.(xTile := xy.0, yTile := xy.1,
       isKinged := if king && (xy.1 == 0 || xy.1 == 7) then true else c.isKinged)
  }

  /** The source tile's record copied to the destination, then the source
      reset to (0, 13). */
  function ShiftTiles(tiles: seq<Tile>, src: int, dst: int): (r: seq<Tile>)
    requires |tiles| == NUM_TILES && 0 <= src < NUM_TILES && 0 <= dst < NUM_TILES
    ensures |r| == NUM_TILES
  {
    tiles[dst := tiles[src]][src := Tile(EMPTY, NO_CHECKER)]
  }

  /** move_checker: checker i of array `side` (the active checker) goes from
      tile src to tile dst. */
  function MoveEffect(s: Snapshot, side: int, i: int, src: int, dst: byte): Snapshot
    requires Shaped(s) && 0 <= i < CHECKERS_PER_SIDE
    requires 0 <= src < NUM_TILES && dst < NUM_TILES
  {
    var cs := Side(s, side);
    WithSide(s.(tiles := ShiftTiles(s.tiles, src, dst)), side, cs[i := Relocate(cs[i], dst, true)])
  }

  function Midpoint(src: int, dst: int): int {
    (src + dst) / 2
  }

  /** The side whose checker jump_checker removes: `turn` arrives as a
      `uint8_t`, and only the value TURN_RED selects the blue array. */
  function VictimSide(turn: int): (r: int)
    ensures turn == RED ==> r == BLUE
    ensures turn == BLUE ==> r == RED
    ensures r == RED || r == BLUE
  {
    if U8(turn) == RED then BLUE else RED
  }

  /** A captured checker: out of play, all eight slots void. */
  function Captured(c: Checker): Checker {
    c.(inPlay := false, moves := NONE_SLOTS, jumps := NONE_SLOTS)
  }

  /** The tile between src and dst, once the record has moved, names a valid
      entry of the victim's array. */
  predicate Capturable(s: Snapshot, src: int, dst: int) {
    Shaped(s) && 0 <= src < NUM_TILES && 0 <= dst < NUM_TILES &&
    ShiftTiles(s.tiles, src, dst)[Midpoint(src, dst)].checkerNum < CHECKERS_PER_SIDE
  }

  /** jump_checker: the active checker is relocated as by move_checker but not
      kinged; then the checker recorded on the tile halfway between src and dst
      is taken out of play and that tile reset to (0, 13). The sketch indexes
      the victim's array with that tile's checker_num, so the caller must leave
      a valid index there. */
  function JumpEffect(s: Snapshot, side: int, i: int, src: int, dst: byte, turn: int): Snapshot
    requires Shaped(s) && 0 <= i < CHECKERS_PER_SIDE
    requires 0 <= src < NUM_TILES && dst < NUM_TILES
    requires ShiftTiles(s.tiles, src, dst)[Midpoint(src, dst)].checkerNum < CHECKERS_PER_SIDE
  {
    var t1 := ShiftTiles(s.tiles, src, dst);
    var rm := Midpoint(src, dst);
    var cs := Side(s, side);
    var s1 := WithSide(s.(tiles := t1), side, cs[i := Relocate(cs[i], dst, false)]);
    var n := t1[rm].checkerNum;
    var vs := Side(s1, VictimSide(turn));
    WithSide(s1.(tiles := t1[rm := Tile(EMPTY, NO_CHECKER)]), VictimSide(turn),
             vs[n := Captured(vs[n])])
  }

  // ---------------------------------------------------------------------------
  // Properties.

  /** Capturing an in-play checker adds exactly one to the array's count of
      captured checkers. */
  lemma {:induction false} CaptureCounts(cs: seq<Checker>, n: int)
    requires 0 <= n < |cs| && cs[n].inPlay
    ensures OutCount(cs[n := Captured(cs[n])]) == OutCount(cs) + 1
  {
    var cs' := cs[n := Captured(cs[n])];
    if n == |cs| - 1 {
      assert cs'[..|cs'| - 1] == cs[..|cs| - 1];
    } else {
      assert cs'[..|cs'| - 1] == cs[..|cs| - 1][n := Captured(cs[n])];
      CaptureCounts(cs[..|cs| - 1], n);
    }
  }

  /** What a consistent board says about the active checker's own tile. */
  lemma {:induction false} ActiveTile(s: Snapshot, side: int, i: int)
    requires Consistent(s) && (side == RED || side == BLUE)
    requires 0 <= i < CHECKERS_PER_SIDE && Side(s, side)[i].inPlay
    ensures Placed(Side(s, side)[i])
    ensures 1 <= TileOf(Side(s, side)[i]) < NUM_TILES
    ensures s.tiles[TileOf(Side(s, side)[i])] == Tile(side, i)
  {
    ConsistentSides(s, side);
    assert Marks(s.tiles[TileOf(Side(s, side)[i])], side, i);
  }

  /** The row-0/row-7 promotion of move_checker, and nothing else, changes
      the king flag; the moved checker stands on its destination. */
  lemma {:induction false} RelocateLands(c: Checker, dst: byte, king: bool)
    requires dst < NUM_TILES
    ensures Placed(Relocate(c, dst, king)) && TileOf(Relocate(c, dst, king)) == dst
    ensures Relocate(c, dst, king).isKinged <==>
      c.isKinged || (king && (dst / 8 == 0 || dst / 8 == 7))
    ensures Relocate(c, dst, king).(xTile := c.xTile, yTile := c.yTile, isKinged := c.isKinged) == c
  {
  }

  /** A simple move out of fresh slots keeps the board and the registries
      consistent; it changes exactly the source tile (now (0, 13)), the
      destination tile (now the active checker's record) and the active
      checker (now on the destination, kinged iff it was a king or landed on
      row 0 or 7). */
  lemma {:induction false} MovePreservesConsistency(s: Snapshot, side: int, i: int, k: int)
    requires Consistent(s) && (side == RED || side == BLUE)
    requires 0 <= i < CHECKERS_PER_SIDE && Side(s, side)[i].inPlay
    requires Fresh(s.tiles, Side(s, side), -side)
    requires 0 <= k < 4 && Side(s, side)[i].moves[k] != NO_TILE
    ensures 1 <= TileOf(Side(s, side)[i]) < NUM_TILES && Side(s, side)[i].moves[k] < NUM_TILES
    ensures var c := Side(s, side)[i];
      var s' := MoveEffect(s, side, i, TileOf(c), c.moves[k]);
      Consistent(s') &&
      s'.tiles == s.tiles[TileOf(c) := Tile(EMPTY, NO_CHECKER)][c.moves[k] := Tile(side, i)] &&
      Side(s', -side) == Side(s, -side) &&
      Side(s', side) == Side(s, side)[i := Relocate(c, c.moves[k], true)] &&
      TileOf(Side(s', side)[i]) == c.moves[k] && Side(s', side)[i].inPlay &&
      (Side(s', side)[i].isKinged <==> c.isKinged || c.moves[k] / 8 == 0 || c.moves[k] / 8 == 7)
  {
    var c := Side(s, side)[i];
    MoveSetup(s, side, i, k);
    MoveOutcome(s, side, i, TileOf(c), c.moves[k]);
  }

  /** The tiles a simple move out of fresh slots involves: the source holds
      the active checker and the destination, another tile, is empty. */
  lemma {:induction false} MoveSetup(s: Snapshot, side: int, i: int, k: int)
    requires Consistent(s) && (side == RED || side == BLUE)
    requires 0 <= i < CHECKERS_PER_SIDE && Side(s, side)[i].inPlay
    requires Fresh(s.tiles, Side(s, side), -side)
    requires 0 <= k < 4 && Side(s, side)[i].moves[k] != NO_TILE
    ensures var c := Side(s, side)[i];
      1 <= TileOf(c) < NUM_TILES && 1 <= c.moves[k] < NUM_TILES && TileOf(c) != c.moves[k] &&
      s.tiles[TileOf(c)] == Tile(side, i) && s.tiles[c.moves[k]].hasChecker == EMPTY
  {
    ActiveTile(s, side, i);
    FreshMoveLegal(s.tiles, Side(s, side), -side, i, k);
  }

  /** The effect of move_checker from src to an empty tile dst. */
  lemma {:induction false} MoveOutcome(s: Snapshot, side: int, i: int, src: int, dst: byte)
    requires Consistent(s) && (side == RED || side == BLUE)
    requires 0 <= i < CHECKERS_PER_SIDE && Side(s, side)[i].inPlay && TileOf(Side(s, side)[i]) == src
    requires 1 <= src < NUM_TILES && 1 <= dst < NUM_TILES && src != dst
    requires s.tiles[src] == Tile(side, i) && s.tiles[dst].hasChecker == EMPTY
    ensures var c := Side(s, side)[i];
      var s' := MoveEffect(s, side, i, src, dst);
      Consistent(s') &&
      s'.tiles == s.tiles[src := Tile(EMPTY, NO_CHECKER)][dst := Tile(side, i)] &&
      Side(s', -side) == Side(s, -side) &&
      Side(s', side) == Side(s, side)[i := Relocate(c, dst, true)] &&
      TileOf(Side(s', side)[i]) == dst && Side(s', side)[i].inPlay &&
      (Side(s', side)[i].isKinged <==> c.isKinged || dst / 8 == 0 || dst / 8 == 7)
  {
    var c := Side(s, side)[i];
    ConsistentSides(s, side);
    ShiftFacts(s.tiles, src, dst, side, i);
    var s' := MoveEffect(s, side, i, src, dst);
    var c' := Relocate(c, dst, true);
    RelocateLands(c, dst, true);
    MoveEffectParts(s, side, i, src, dst);
    MovedSideConsistent(s.tiles, s'.tiles, Side(s, side), side, i, src, dst, c');
    UnmovedSideConsistent(s.tiles, s'.tiles, Side(s, -side), -side, src, dst, side);
    AssembleConsistent(s', side);
  }

  /** Moving the record of checker i of `side` from src to an empty tile. */
  lemma {:induction false} ShiftFacts(tiles: seq<Tile>, src: int, dst: int, side: int, i: int)
    requires |tiles| == NUM_TILES && Coded(tiles) && (side == RED || side == BLUE)
    requires 0 <= src < NUM_TILES && 0 <= dst < NUM_TILES
    requires 0 <= i < CHECKERS_PER_SIDE
    requires tiles[src] == Tile(side, i) && tiles[dst].hasChecker == EMPTY
    ensures src != dst && src != 0 && dst != 0
    ensures ShiftTiles(tiles, src, dst) == tiles[src := Tile(EMPTY, NO_CHECKER)][dst := Tile(side, i)]
    ensures Coded(ShiftTiles(tiles, src, dst))
  {
  }

  /** Where MoveEffect puts things. */
  lemma {:induction false} MoveEffectParts(s: Snapshot, side: int, i: int, src: int, dst: byte)
    requires Shaped(s) && (side == RED || side == BLUE) && 0 <= i < CHECKERS_PER_SIDE
    requires 0 <= src < NUM_TILES && dst < NUM_TILES
    ensures Shaped(MoveEffect(s, side, i, src, dst))
    ensures MoveEffect(s, side, i, src, dst).tiles == ShiftTiles(s.tiles, src, dst)
    ensures Side(MoveEffect(s, side, i, src, dst), side) ==
      Side(s, side)[i := Relocate(Side(s, side)[i], dst, true)]
    ensures Side(MoveEffect(s, side, i, src, dst), -side) == Side(s, -side)
  {
  }

  /** The moving side stays consistent when checker i goes from src to the
      empty tile dst. */
  lemma {:induction false} MovedSideConsistent(tiles: seq<Tile>, tiles': seq<Tile>,
                                               cs: seq<Checker>, side: int, i: int,
                                               src: int, dst: int, c': Checker)
    requires |tiles| == NUM_TILES && SideConsistent(tiles, cs, side)
    requires 0 <= i < |cs| && cs[i].inPlay && TileOf(cs[i]) == src
    requires 1 <= src < NUM_TILES && 1 <= dst < NUM_TILES && src != dst
    requires tiles[dst].hasChecker == EMPTY && (side == RED || side == BLUE)
    requires tiles' == tiles[src := Tile(EMPTY, NO_CHECKER)][dst := Tile(side, i)]
    requires c'.inPlay && Placed(c') && TileOf(c') == dst
    ensures SideConsistent(tiles', cs[i := c'], side)
  {
    var cs' := cs[i := c'];
    forall t | 1 <= t < NUM_TILES && tiles'[t].hasChecker == side
      ensures Holds(cs', tiles'[t].checkerNum, t)
    {
      if t != dst {
        assert t != src && tiles'[t] == tiles[t];
        assert Holds(cs, tiles[t].checkerNum, t);
      }
    }
    forall j | 0 <= j < |cs'| && cs'[j].inPlay
      ensures Placed(cs'[j]) && Marks(tiles'[TileOf(cs'[j])], side, j)
    {
      if j != i {
        assert Marks(tiles[TileOf(cs[j])], side, j);
        assert Marks(tiles[src], side, i);
      }
    }
  }

  /** The other side is unaffected when a piece of `mover` leaves src for the
      empty tile dst. */
  lemma {:induction false} UnmovedSideConsistent(tiles: seq<Tile>, tiles': seq<Tile>,
                                                 cs: seq<Checker>, side: int,
                                                 src: int, dst: int, mover: int)
    requires |tiles| == NUM_TILES && SideConsistent(tiles, cs, side)
    requires 0 <= src < NUM_TILES && 0 <= dst < NUM_TILES && mover != side
    requires tiles[src].hasChecker == mover && tiles[dst].hasChecker == EMPTY && side != EMPTY
    requires |tiles'| == NUM_TILES
    requires forall t :: 0 <= t < NUM_TILES && t != src && t != dst ==> tiles'[t] == tiles[t]
    requires tiles'[src].hasChecker == EMPTY && tiles'[dst].hasChecker == mover
    ensures SideConsistent(tiles', cs, side)
  {
  }

  /** A capture out of fresh slots, by the side to move (`turn`), keeps the
      board and the registries consistent. It changes exactly three tiles: the
      source and the jumped tile become (0, 13), the landing tile gets the
      active checker's record. The active checker only moves (no promotion);
      the opposing checker on the jumped tile, and only it, goes out of play
      with void slots, so the opponent's captured count grows by exactly one. */
  lemma {:induction false} JumpPreservesConsistency(s: Snapshot, side: int, i: int, k: int)
    requires Consistent(s) && (side == RED || side == BLUE)
    requires 0 <= i < CHECKERS_PER_SIDE && Side(s, side)[i].inPlay
    requires Fresh(s.tiles, Side(s, side), -side)
    requires 0 <= k < 4 && Side(s, side)[i].jumps[k] != NO_TILE
    ensures var c := Side(s, side)[i];
      var src := TileOf(c);
      var dst := c.jumps[k];
      var mid := Midpoint(src, dst);
      1 <= src < NUM_TILES && 1 <= dst < NUM_TILES && 1 <= mid < NUM_TILES &&
      mid == MoveTarget(c, -side, k) &&
      var n := s.tiles[mid].checkerNum;
      s.tiles[mid] == Tile(-side, n) && Holds(Side(s, -side), n, mid) &&
      ShiftTiles(s.tiles, src, dst)[mid].checkerNum < CHECKERS_PER_SIDE &&
      var s' := JumpEffect(s, side, i, src, dst, side);
      Consistent(s') &&
      s'.tiles == s.tiles[src := Tile(EMPTY, NO_CHECKER)][dst := Tile(side, i)]
                         [mid := Tile(EMPTY, NO_CHECKER)] &&
      Side(s', side) == Side(s, side)[i := Relocate(c, dst, false)] &&
      Side(s', -side) == Side(s, -side)[n := Captured(Side(s, -side)[n])] &&
      OutCount(Side(s', -side)) == OutCount(Side(s, -side)) + 1 &&
      OutCount(Side(s', side)) == OutCount(Side(s, side))
  {
    var c := Side(s, side)[i];
    var src := TileOf(c);
    var dst := c.jumps[k];
    JumpSetup(s, side, i, k);
    JumpOutcome(s, side, i, src, dst, Midpoint(src, dst), s.tiles[Midpoint(src, dst)].checkerNum);
  }

  /** The effect of jump_checker from src over mid to dst, given the tiles
      involved. */
  lemma {:induction false} JumpOutcome(s: Snapshot, side: int, i: int, src: int, dst: byte,
                                       mid: int, n: byte)
    requires Consistent(s) && (side == RED || side == BLUE)
    requires 0 <= i < CHECKERS_PER_SIDE && Side(s, side)[i].inPlay && TileOf(Side(s, side)[i]) == src
    requires 1 <= src < NUM_TILES && 1 <= dst < NUM_TILES && mid == Midpoint(src, dst)
    requires 1 <= mid < NUM_TILES && src != dst && mid != src && mid != dst
    requires s.tiles[src] == Tile(side, i) && s.tiles[dst].hasChecker == EMPTY
    requires s.tiles[mid] == Tile(-side, n) && Holds(Side(s, -side), n, mid)
    requires ShiftTiles(s.tiles, src, dst) == s.tiles[src := Tile(EMPTY, NO_CHECKER)][dst := Tile(side, i)]
    requires Coded(ShiftTiles(s.tiles, src, dst)) && ShiftTiles(s.tiles, src, dst)[mid] == s.tiles[mid]
    ensures var s' := JumpEffect(s, side, i, src, dst, side);
      Consistent(s') &&
      s'.tiles == s.tiles[src := Tile(EMPTY, NO_CHECKER)][dst := Tile(side, i)]
                         [mid := Tile(EMPTY, NO_CHECKER)] &&
      Side(s', side) == Side(s, side)[i := Relocate(Side(s, side)[i], dst, false)] &&
      Side(s', -side) == Side(s, -side)[n := Captured(Side(s, -side)[n])] &&
      OutCount(Side(s', -side)) == OutCount(Side(s, -side)) + 1 &&
      OutCount(Side(s', side)) == OutCount(Side(s, side))
  {
    var c := Side(s, side)[i];
    var opp := Side(s, -side);
    var s' := JumpEffect(s, side, i, src, dst, side);
    var c' := Relocate(c, dst, false);
    ConsistentSides(s, side);
    RelocateLands(c, dst, false);
    JumpEffectParts(s, side, i, src, dst);
    var tm := ShiftTiles(s.tiles, src, dst);
    MovedSideConsistent(s.tiles, tm, Side(s, side), side, i, src, dst, c');
    JumpedTileIrrelevant(tm, s'.tiles, Side(s', side), side, mid);
    CapturedSideConsistent(s.tiles, s'.tiles, opp, -side, src, dst, mid, n, side);
    AssembleConsistent(s', side);
    CaptureCounts(opp, n);
    RelocateKeepsCount(Side(s, side), i, c');
  }

  /** The tiles a capture out of fresh slots involves: the source holds the
      active checker, the landing tile is empty, and the jumped tile, distinct
      from both, holds an in-play opposing checker. */
  lemma {:induction false} JumpSetup(s: Snapshot, side: int, i: int, k: int)
    requires Consistent(s) && (side == RED || side == BLUE)
    requires 0 <= i < CHECKERS_PER_SIDE && Side(s, side)[i].inPlay
    requires Fresh(s.tiles, Side(s, side), -side)
    requires 0 <= k < 4 && Side(s, side)[i].jumps[k] != NO_TILE
    ensures var c := Side(s, side)[i];
      var src := TileOf(c);
      var dst := c.jumps[k];
      var mid := Midpoint(src, dst);
      1 <= src < NUM_TILES && 1 <= dst < NUM_TILES && 1 <= mid < NUM_TILES &&
      src != dst && mid != src && mid != dst && mid == MoveTarget(c, -side, k) &&
      var n := s.tiles[mid].checkerNum;
      s.tiles[src] == Tile(side, i) && s.tiles[dst].hasChecker == EMPTY &&
      s.tiles[mid] == Tile(-side, n) && Holds(Side(s, -side), n, mid) &&
      ShiftTiles(s.tiles, src, dst) == s.tiles[src := Tile(EMPTY, NO_CHECKER)][dst := Tile(side, i)] &&
      Coded(ShiftTiles(s.tiles, src, dst)) &&
      ShiftTiles(s.tiles, src, dst)[mid] == s.tiles[mid]
  {
    var c := Side(s, side)[i];
    var src := TileOf(c);
    var dst := c.jumps[k];
    var mid := Midpoint(src, dst);
    ConsistentSides(s, side);
    ActiveTile(s, side, i);
    FreshJumpLegal(s.tiles, Side(s, side), -side, i, k);
    ShiftFacts(s.tiles, src, dst, side, i);
    assert mid == MoveTarget(c, -side, k) && s.tiles[mid].hasChecker == -side;
    assert Holds(Side(s, -side), s.tiles[mid].checkerNum, mid);
  }

  /** Where JumpEffect puts things when the side to move captures. */
  lemma {:induction false} JumpEffectParts(s: Snapshot, side: int, i: int, src: int, dst: byte)
    requires Shaped(s) && (side == RED || side == BLUE) && 0 <= i < CHECKERS_PER_SIDE
    requires 0 <= src < NUM_TILES && dst < NUM_TILES
    requires ShiftTiles(s.tiles, src, dst)[Midpoint(src, dst)].checkerNum < CHECKERS_PER_SIDE
    ensures var s' := JumpEffect(s, side, i, src, dst, side);
      var n := ShiftTiles(s.tiles, src, dst)[Midpoint(src, dst)].checkerNum;
      Shaped(s') &&
      s'.tiles == ShiftTiles(s.tiles, src, dst)[Midpoint(src, dst) := Tile(EMPTY, NO_CHECKER)] &&
      Side(s', side) == Side(s, side)[i := Relocate(Side(s, side)[i], dst, false)] &&
      Side(s', -side) == Side(s, -side)[n := Captured(Side(s, -side)[n])]
  {
    assert VictimSide(side) == -side;
  }

  /** Emptying a tile that the side does not occupy keeps it consistent. */
  lemma {:induction false} JumpedTileIrrelevant(tiles: seq<Tile>, tiles': seq<Tile>,
                                                cs: seq<Checker>, side: int, mid: int)
    requires |tiles| == NUM_TILES && SideConsistent(tiles, cs, side) && (side == RED || side == BLUE)
    requires 0 <= mid < NUM_TILES && tiles[mid].hasChecker != side
    requires tiles' == tiles[mid := Tile(EMPTY, NO_CHECKER)]
    ensures SideConsistent(tiles', cs, side)
  {
    forall j | 0 <= j < |cs| && cs[j].inPlay
      ensures Placed(cs[j]) && Marks(tiles'[TileOf(cs[j])], side, j)
    {
      assert Marks(tiles[TileOf(cs[j])], side, j);
    }
  }

  /** The captured side stays consistent when its checker n on tile mid goes
      out of play and mid is emptied, while a piece of `mover` goes from src to
      the empty tile dst. */
  lemma {:induction false} CapturedSideConsistent(tiles: seq<Tile>, tiles': seq<Tile>,
                                                  cs: seq<Checker>, side: int,
                                                  src: int, dst: int, mid: int, n: int,
                                                  mover: int)
    requires |tiles| == NUM_TILES && SideConsistent(tiles, cs, side) && (side == RED || side == BLUE)
    requires 0 <= src < NUM_TILES && 0 <= dst < NUM_TILES && 0 <= mid < NUM_TILES
    requires mover == -side
    requires tiles[src].hasChecker == mover && tiles[dst].hasChecker == EMPTY
    requires Holds(cs, n, mid) && tiles[mid] == Tile(side, n)
    requires tiles' == tiles[src := Tile(EMPTY, NO_CHECKER)][dst := Tile(mover, tiles[src].checkerNum)]
                           [mid := Tile(EMPTY, NO_CHECKER)]
    ensures SideConsistent(tiles', cs[n := Captured(cs[n])], side)
  {
    var cs' := cs[n := Captured(cs[n])];
    forall t | 1 <= t < NUM_TILES && tiles'[t].hasChecker == side
      ensures Holds(cs', tiles'[t].checkerNum, t)
    {
      assert t != src && t != dst && t != mid && tiles'[t] == tiles[t];
      assert Holds(cs, tiles[t].checkerNum, t);
    }
    forall j | 0 <= j < |cs'| && cs'[j].inPlay
      ensures Placed(cs'[j]) && Marks(tiles'[TileOf(cs'[j])], side, j)
    {
      assert j != n;
      assert Marks(tiles[TileOf(cs[j])], side, j);
    }
  }

  /** Moving a checker that stays in play does not change the captured count. */
  lemma {:induction false} RelocateKeepsCount(cs: seq<Checker>, i: int, c': Checker)
    requires 0 <= i < |cs| && cs[i].inPlay && c'.inPlay
    ensures OutCount(cs[i := c']) == OutCount(cs)
  {
    if i == |cs| - 1 {
      assert cs[i := c'][..|cs| - 1] == cs[..|cs| - 1];
    } else {
      assert cs[i := c'][..|cs| - 1] == cs[..|cs| - 1][i := c'];
      RelocateKeepsCount(cs[..|cs| - 1], i, c');
    }
  }

  // ---------------------------------------------------------------------------
  // What the turn-start recompute does not disturb.

  /** No king of the array has become a man again. */
  predicate KingsKept(before: seq<Checker>, after: seq<Checker>) {
    |after| == |before| &&
    forall j :: 0 <= j < |before| && before[j].isKinged ==> after[j].isKinged
  }

  /** move_checker keeps every king (and may crown the mover). */
  lemma {:induction false} MoveKeepsKings(s: Snapshot, side: int, i: int, src: int, dst: byte)
    requires Shaped(s) && 0 <= i < CHECKERS_PER_SIDE
    requires 0 <= src < NUM_TILES && dst < NUM_TILES
    ensures var s' := MoveEffect(s, side, i, src, dst);
      KingsKept(s.red, s'.red) && KingsKept(s.blue, s'.blue)
  {
    var s' := MoveEffect(s, side, i, src, dst);
    forall j | 0 <= j < CHECKERS_PER_SIDE
      ensures (s.red[j].isKinged ==> s'.red[j].isKinged) && (s.blue[j].isKinged ==> s'.blue[j].isKinged)
    {
      if side == RED && j == i {
        assert s'.red[j] == Relocate(s.red[j], dst, true);
      } else if side != RED && j == i {
        assert s'.blue[j] == Relocate(s.blue[j], dst, true);
      }
    }
  }

  /** jump_checker keeps every king: the mover is relocated without
      promotion, and a captured piece keeps its status. */
  lemma {:induction false} JumpKeepsKings(s: Snapshot, side: int, i: int, src: int, dst: byte, turn: int)
    requires Shaped(s) && 0 <= i < CHECKERS_PER_SIDE
    requires 0 <= src < NUM_TILES && dst < NUM_TILES
    requires ShiftTiles(s.tiles, src, dst)[Midpoint(src, dst)].checkerNum < CHECKERS_PER_SIDE
    ensures var s' := JumpEffect(s, side, i, src, dst, turn);
      KingsKept(s.red, s'.red) && KingsKept(s.blue, s'.blue)
  {
    var t1 := ShiftTiles(s.tiles, src, dst);
    var cs := Side(s, side);
    var s1 := WithSide(s.(tiles := t1), side, cs[i := Relocate(cs[i], dst, false)]);
    assert KingsKept(s.red, s1.red) && KingsKept(s.blue, s1.blue);
    var n := t1[Midpoint(src, dst)].checkerNum;
    var vs := Side(s1, VictimSide(turn));
    assert KingsKept(vs, vs[n := Captured(vs[n])]);
  }

  /** Two arrays whose checkers agree on where they stand and whether they
      are in play; the slots and flags may differ. */
  predicate SameFootprint(cs: seq<Checker>, cs': seq<Checker>) {
    |cs| == |cs'| &&
    forall i :: 0 <= i < |cs| ==>
      cs[i].inPlay == cs'[i].inPlay && cs[i].xTile == cs'[i].xTile && cs[i].yTile == cs'[i].yTile
  }

  /** Consistency does not look at slots, must_jump or king status. */
  lemma {:induction false} FootprintConsistent(tiles: seq<Tile>, cs: seq<Checker>, cs': seq<Checker>, side: int)
    requires |tiles| == NUM_TILES && SameFootprint(cs, cs') && SideConsistent(tiles, cs, side)
    ensures SideConsistent(tiles, cs', side)
  {
    forall t | 1 <= t < NUM_TILES && tiles[t].hasChecker == side
      ensures Holds(cs', tiles[t].checkerNum, t)
    {
      assert Holds(cs, tiles[t].checkerNum, t);
    }
    forall i | 0 <= i < |cs'| && cs'[i].inPlay
      ensures Placed(cs'[i]) && Marks(tiles[TileOf(cs'[i])], side, i)
    {
      assert cs[i].inPlay && Marks(tiles[TileOf(cs[i])], side, i);
    }
  }

  /** Nor does the captured count. */
  lemma {:induction false} FootprintCount(cs: seq<Checker>, cs': seq<Checker>)
    requires SameFootprint(cs, cs')
    ensures OutCount(cs) == OutCount(cs')
  {
    if cs != [] {
      assert SameFootprint(cs[..|cs| - 1], cs'[..|cs'| - 1]);
      FootprintCount(cs[..|cs| - 1], cs'[..|cs'| - 1]);
    }
  }

  /** An array none of whose checkers has been captured counts no capture. */
  lemma {:induction false} AllInPlay(cs: seq<Checker>)
    requires forall i :: 0 <= i < |cs| ==> cs[i].inPlay
    ensures OutCount(cs) == 0
  {
    if cs != [] {
      AllInPlay(cs[..|cs| - 1]);
    }
  }
}
