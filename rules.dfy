/** Move and jump generation of the current revision (projectnew.cpp,
    compute_checker_moves, compute_checker_jumps and compute_moves), stated as
    functions on the value of a checker and of the 64-entry board.

    `opp` is the opposing side's colour, which the sketch also uses as the
    direction `dir`: slots 0 and 1 look at row y - dir (forward), slots 2 and 3
    at row y + dir (backward, kings only); even slots step one column to the
    left, odd slots one column to the right. */
module Rules {
  import opened Board

  function DX(k: int): int {
    if k % 2 == 0 then -1 else 1
  }

  function DY(k: int, dir: int): int {
    if k < 2 then -dir else dir
  }

  /** The diagonal neighbour that slot k looks at. */
  function MoveTarget(c: Checker, dir: int, k: int): byte {
    CoordToTile(U8(c.xTile + DX(k)), U8(c.yTile + DY(k, dir)))
  }

  /** The tile two diagonal steps out along slot k. */
  function JumpTarget(c: Checker, dir: int, k: int): byte {
    CoordToTile(U8(c.xTile + 2 * DX(k)), U8(c.yTile + 2 * DY(k, dir)))
  }

  /** Slots 2 and 3 are looked at only for a king. */
  predicate Considered(c: Checker, k: int) {
    k < 2 || c.isKinged
  }

  predicate CanMove(tiles: seq<Tile>, c: Checker, opp: int, k: int)
    requires |tiles| == NUM_TILES
  {
    Considered(c, k) && tiles[MoveTarget(c, opp, k)].hasChecker == EMPTY
  }

  predicate CanJump(tiles: seq<Tile>, c: Checker, opp: int, k: int)
    requires |tiles| == NUM_TILES
  {
    Considered(c, k) &&
    tiles[MoveTarget(c, opp, k)].hasChecker == opp &&
    tiles[JumpTarget(c, opp, k)].hasChecker == EMPTY
  }

  predicate AnyJump(tiles: seq<Tile>, c: Checker, opp: int)
    requires |tiles| == NUM_TILES
  {
    CanJump(tiles, c, opp, 0) || CanJump(tiles, c, opp, 1) ||
    CanJump(tiles, c, opp, 2) || CanJump(tiles, c, opp, 3)
  }

  /** Two checkers on the same tile with the same king status see the same
      moves and captures. */
  predicate SamePlace(c: Checker, d: Checker) {
    c.xTile == d.xTile && c.yTile == d.yTile && c.isKinged == d.isKinged
  }

  lemma {:induction false} SamePlaceSameRules(tiles: seq<Tile>, c: Checker, d: Checker, opp: int)
    requires |tiles| == NUM_TILES && SamePlace(c, d)
    ensures forall k :: CanMove(tiles, c, opp, k) <==> CanMove(tiles, d, opp, k)
    ensures forall k :: CanJump(tiles, c, opp, k) <==> CanJump(tiles, d, opp, k)
    ensures forall k :: MoveTarget(c, opp, k) == MoveTarget(d, opp, k)
    ensures forall k :: JumpTarget(c, opp, k) == JumpTarget(d, opp, k)
    ensures AnyJump(tiles, c, opp) <==> AnyJump(tiles, d, opp)
  {
    // the targets and the king test read only the position and the king flag
    forall k
      ensures MoveTarget(c, opp, k) == MoveTarget(d, opp, k) && JumpTarget(c, opp, k) == JumpTarget(d, opp, k)
      ensures Considered(c, k) == Considered(d, k)
    {
    }
  }

  function MoveSlot(tiles: seq<Tile>, c: Checker, opp: int, k: int): byte
    requires |tiles| == NUM_TILES && 0 <= k < 4
  {
    if CanMove(tiles, c, opp, k) then MoveTarget(c, opp, k) else c.moves[k]
  }

  function JumpSlot(tiles: seq<Tile>, c: Checker, opp: int, k: int): byte
    requires |tiles| == NUM_TILES && 0 <= k < 4
  {
    if CanJump(tiles, c, opp, k) then JumpTarget(c, opp, k) else c.jumps[k]
  }

  /** The checker after compute_checker_moves has run on it. */
  function AfterMoves(tiles: seq<Tile>, c: Checker, opp: int): Checker
    requires |tiles| == NUM_TILES
  {
    c.(moves := [MoveSlot(tiles, c, opp, 0), MoveSlot(tiles, c, opp, 1),
                 MoveSlot(tiles, c, opp, 2), MoveSlot(tiles, c, opp, 3)])
  }

  /** The checker after compute_checker_jumps has run on it. */
  function AfterJumps(tiles: seq<Tile>, c: Checker, opp: int): Checker
    requires |tiles| == NUM_TILES
  {
    c.(jumps := [JumpSlot(tiles, c, opp, 0), JumpSlot(tiles, c, opp, 1),
                 JumpSlot(tiles, c, opp, 2), JumpSlot(tiles, c, opp, 3)],
       mustJump := c.mustJump || AnyJump(tiles, c, opp))
  }

  /** What compute_moves does to one entry of the side's array: an in-play
      checker gets its moves and then its jumps computed, any other is left
      alone. */
  function Computed(tiles: seq<Tile>, c: Checker, opp: int): Checker
    requires |tiles| == NUM_TILES
  {
    if c.inPlay then AfterJumps(tiles, AfterMoves(tiles, c, opp), opp) else c
  }

  /** What compute_moves does to the whole array of the side. */
  function ComputeAll(tiles: seq<Tile>, cs: seq<Checker>, opp: int): seq<Checker>
    requires |tiles| == NUM_TILES
  {
    seq(|cs|, i requires 0 <= i < |cs| => Computed(tiles, cs[i], opp))
  }

  /** The per-turn reset loop of loop(): no forced jump, all eight slots void. */
  function Reset(c: Checker): Checker {
    c.(mustJump := false, moves := NONE_SLOTS, jumps := NONE_SLOTS)
  }

  /** A checker whose slots are rebuilt from scratch on the given board. */
  function Regenerated(tiles: seq<Tile>, c: Checker, opp: int): Checker
    requires |tiles| == NUM_TILES
  {
    AfterJumps(tiles, AfterMoves(tiles, Reset(c), opp), opp)
  }

  /** The side's array after the reset loop and compute_moves. */
  function TurnStart(tiles: seq<Tile>, cs: seq<Checker>, opp: int): seq<Checker>
    requires |tiles| == NUM_TILES
  {
    seq(|cs|, i requires 0 <= i < |cs| => Computed(tiles, Reset(cs[i]), opp))
  }

  /** compute_moves' result: no in-play checker is forced to jump. */
  predicate NoForcedJumps(cs: seq<Checker>) {
    forall i :: 0 <= i < |cs| && cs[i].inPlay ==> !cs[i].mustJump
  }

  /** Every in-play checker's slots are exactly what the board gives: nothing
      stale survives. */
  predicate Fresh(tiles: seq<Tile>, cs: seq<Checker>, opp: int)
    requires |tiles| == NUM_TILES
  {
    forall i {:trigger UpToDate(tiles, cs, opp, i)} :: 0 <= i < |cs| && cs[i].inPlay ==> UpToDate(tiles, cs, opp, i)
  }

  /** Checker i's slots are those the board gives it. Fresh quantifies over
      this predicate alone, so that the rebuilt checker is unfolded only for
      the entries a proof names. */
  predicate UpToDate(tiles: seq<Tile>, cs: seq<Checker>, opp: int, i: int)
    requires |tiles| == NUM_TILES && 0 <= i < |cs|
  {
    cs[i] == Regenerated(tiles, cs[i], opp)
  }

  /** check_can_move and check_must_jump, as predicates. */
  predicate HasMove(c: Checker) {
    exists k :: 0 <= k < 4 && c.moves[k] != NO_TILE
  }

  predicate HasJump(c: Checker) {
    exists k :: 0 <= k < 4 && c.jumps[k] != NO_TILE
  }

  // ---------------------------------------------------------------------------
  // Properties of one generator call.

  /** compute_checker_moves writes slot k only with the neighbour along that
      diagonal and only when that tile is empty; slots 2 and 3 of a man are
      never touched; nothing but the moves changes. */
  lemma {:induction false} AfterMovesWrites(tiles: seq<Tile>, c: Checker, opp: int, k: int)
    requires |tiles| == NUM_TILES && 0 <= k < 4
    ensures AfterMoves(tiles, c, opp).(moves := c.moves) == c
    ensures AfterMoves(tiles, c, opp).moves[k] != c.moves[k] ==>
      Considered(c, k) && AfterMoves(tiles, c, opp).moves[k] == MoveTarget(c, opp, k) &&
      tiles[MoveTarget(c, opp, k)].hasChecker == EMPTY
    ensures !c.isKinged && 2 <= k ==> AfterMoves(tiles, c, opp).moves[k] == c.moves[k]
  {
    var r := AfterMoves(tiles, c, opp);
    assert r.moves[k] == MoveSlot(tiles, c, opp, k);
  }

  /** compute_checker_jumps writes slot k only with the landing tile of a
      capture (an opposing piece next to the checker, an empty tile behind it),
      never clears a slot or must_jump, sets must_jump exactly when some
      capture exists or it was set already, and changes nothing else. */
  lemma {:induction false} AfterJumpsWrites(tiles: seq<Tile>, c: Checker, opp: int, k: int)
    requires |tiles| == NUM_TILES && 0 <= k < 4
    ensures AfterJumps(tiles, c, opp).(jumps := c.jumps, mustJump := c.mustJump) == c
    ensures AfterJumps(tiles, c, opp).jumps[k] != c.jumps[k] ==>
      CanJump(tiles, c, opp, k) && AfterJumps(tiles, c, opp).jumps[k] == JumpTarget(c, opp, k)
    ensures CanJump(tiles, c, opp, k) ==>
      AfterJumps(tiles, c, opp).jumps[k] == JumpTarget(c, opp, k) && AfterJumps(tiles, c, opp).mustJump
    ensures AfterJumps(tiles, c, opp).mustJump <==> c.mustJump || AnyJump(tiles, c, opp)
    ensures !c.isKinged && 2 <= k ==> AfterJumps(tiles, c, opp).jumps[k] == c.jumps[k]
  {
    var r := AfterJumps(tiles, c, opp);
    assert r.jumps[k] == JumpSlot(tiles, c, opp, k);
  }

  /** After the reset, every slot holds exactly the destination the board
      allows, or NO_TILE: no entry from an earlier turn survives. */
  lemma {:induction false} RegeneratedSlots(tiles: seq<Tile>, c: Checker, opp: int, k: int)
    requires |tiles| == NUM_TILES && 0 <= k < 4
    ensures Regenerated(tiles, c, opp).moves[k] ==
      (if CanMove(tiles, c, opp, k) then MoveTarget(c, opp, k) else NO_TILE)
    ensures Regenerated(tiles, c, opp).jumps[k] ==
      (if CanJump(tiles, c, opp, k) then JumpTarget(c, opp, k) else NO_TILE)
    ensures Regenerated(tiles, c, opp).mustJump <==> AnyJump(tiles, c, opp)
    ensures Reset(Regenerated(tiles, c, opp)) == Reset(c)
  {
    RegeneratedMoveSlot(tiles, c, opp, k);
    RegeneratedJumpSlot(tiles, c, opp, k);
  }

  /** The move half of RegeneratedSlots. */
  lemma {:induction false} RegeneratedMoveSlot(tiles: seq<Tile>, c: Checker, opp: int, k: int)
    requires |tiles| == NUM_TILES && 0 <= k < 4
    ensures Regenerated(tiles, c, opp).moves[k] ==
      (if CanMove(tiles, c, opp, k) then MoveTarget(c, opp, k) else NO_TILE)
  {
    var z := Reset(c);
    var m := AfterMoves(tiles, z, opp);
    assert AfterJumps(tiles, m, opp) == Regenerated(tiles, c, opp);
    SamePlaceSameRules(tiles, c, z, opp);
    assert m.moves[k] == MoveSlot(tiles, z, opp, k);
  }

  /** The jump half of RegeneratedSlots, with must_jump and the fields the
      reset keeps. */
  lemma {:induction false} RegeneratedJumpSlot(tiles: seq<Tile>, c: Checker, opp: int, k: int)
    requires |tiles| == NUM_TILES && 0 <= k < 4
    ensures Regenerated(tiles, c, opp).jumps[k] ==
      (if CanJump(tiles, c, opp, k) then JumpTarget(c, opp, k) else NO_TILE)
    ensures Regenerated(tiles, c, opp).mustJump <==> AnyJump(tiles, c, opp)
    ensures Reset(Regenerated(tiles, c, opp)) == Reset(c)
  {
    var z := Reset(c);
    var m := AfterMoves(tiles, z, opp);
    assert AfterJumps(tiles, m, opp) == Regenerated(tiles, c, opp);
    AfterMovesWrites(tiles, z, opp, k);
    AfterJumpsWrites(tiles, m, opp, k);
    SamePlaceSameRules(tiles, c, m, opp);
    assert m.jumps == NONE_SLOTS && !m.mustJump;
  }

  /** Regenerating twice on the same board is regenerating once. */
  lemma {:induction false} RegeneratedIdempotent(tiles: seq<Tile>, c: Checker, opp: int)
    requires |tiles| == NUM_TILES
    ensures Regenerated(tiles, Regenerated(tiles, c, opp), opp) == Regenerated(tiles, c, opp)
  {
    RegeneratedSlots(tiles, c, opp, 0);
  }

  /** A move slot that the generator filled is a legal simple move: the
      neighbour along a diagonal the checker may use, on the board, empty.
      Because tile 0 holds 42, a step off the board never yields a move. */
  lemma {:induction false} GeneratedMoveLegal(tiles: seq<Tile>, c: Checker, opp: int, k: int)
    requires |tiles| == NUM_TILES && tiles[0].hasChecker == OFF_BOARD
    requires Placed(c) && (opp == RED || opp == BLUE) && 0 <= k < 4
    requires Regenerated(tiles, c, opp).moves[k] != NO_TILE
    ensures Considered(c, k)
    ensures OnBoard(c.xTile + DX(k), c.yTile + DY(k, opp))
    ensures Regenerated(tiles, c, opp).moves[k] == 8 * (c.yTile + DY(k, opp)) + c.xTile + DX(k)
    ensures tiles[Regenerated(tiles, c, opp).moves[k]].hasChecker == EMPTY
  {
    RegeneratedSlots(tiles, c, opp, k);
    SteppedCoord(c.xTile + DX(k), c.yTile + DY(k, opp));
  }

  /** A jump slot that the generator filled is a legal capture: an opposing
      piece on the neighbouring tile, the landing tile two steps out on the
      board and empty, and the jumped tile halfway between the checker's tile
      and the landing tile. */
  lemma {:induction false} GeneratedJumpLegal(tiles: seq<Tile>, c: Checker, opp: int, k: int)
    requires |tiles| == NUM_TILES && tiles[0].hasChecker == OFF_BOARD
    requires Placed(c) && (opp == RED || opp == BLUE) && 0 <= k < 4
    requires Regenerated(tiles, c, opp).jumps[k] != NO_TILE
    ensures Considered(c, k)
    ensures OnBoard(c.xTile + DX(k), c.yTile + DY(k, opp))
    ensures OnBoard(c.xTile + 2 * DX(k), c.yTile + 2 * DY(k, opp))
    ensures Regenerated(tiles, c, opp).jumps[k] ==
      8 * (c.yTile + 2 * DY(k, opp)) + c.xTile + 2 * DX(k)
    ensures tiles[Regenerated(tiles, c, opp).jumps[k]].hasChecker == EMPTY
    ensures (TileOf(c) + Regenerated(tiles, c, opp).jumps[k]) / 2 == MoveTarget(c, opp, k)
    ensures tiles[MoveTarget(c, opp, k)].hasChecker == opp
    ensures MoveTarget(c, opp, k) == 8 * (c.yTile + DY(k, opp)) + c.xTile + DX(k)
  {
    RegeneratedSlots(tiles, c, opp, k);
    SteppedCoord(c.xTile + DX(k), c.yTile + DY(k, opp));
    SteppedCoord(c.xTile + 2 * DX(k), c.yTile + 2 * DY(k, opp));
  }

  /** A filled move slot of an up-to-date checker of an array names an empty
      tile other than tile 0. */
  lemma {:induction false} FreshMoveLegal(tiles: seq<Tile>, cs: seq<Checker>, opp: int, i: int, k: int)
    requires |tiles| == NUM_TILES && tiles[0].hasChecker == OFF_BOARD && (opp == RED || opp == BLUE)
    requires Fresh(tiles, cs, opp) && 0 <= i < |cs| && cs[i].inPlay && Placed(cs[i])
    requires 0 <= k < 4 && cs[i].moves[k] != NO_TILE
    ensures 1 <= cs[i].moves[k] < NUM_TILES && tiles[cs[i].moves[k]].hasChecker == EMPTY
  {
    assert UpToDate(tiles, cs, opp, i);
    GeneratedMoveLegal(tiles, cs[i], opp, k);
  }

  /** A filled jump slot of an up-to-date checker of an array names an empty
      tile other than tile 0, and halfway to it stands an opposing piece. */
  lemma {:induction false} FreshJumpLegal(tiles: seq<Tile>, cs: seq<Checker>, opp: int, i: int, k: int)
    requires |tiles| == NUM_TILES && tiles[0].hasChecker == OFF_BOARD && (opp == RED || opp == BLUE)
    requires Fresh(tiles, cs, opp) && 0 <= i < |cs| && cs[i].inPlay && Placed(cs[i])
    requires 0 <= k < 4 && cs[i].jumps[k] != NO_TILE
    ensures 1 <= cs[i].jumps[k] < NUM_TILES && tiles[cs[i].jumps[k]].hasChecker == EMPTY
    ensures MoveTarget(cs[i], opp, k) < NUM_TILES
    ensures (TileOf(cs[i]) + cs[i].jumps[k]) / 2 == MoveTarget(cs[i], opp, k)
    ensures tiles[MoveTarget(cs[i], opp, k)].hasChecker == opp
  {
    assert UpToDate(tiles, cs, opp, i);
    GeneratedJumpLegal(tiles, cs[i], opp, k);
  }

  /** A man only goes forward: Red (whose opponent, and so whose direction,
      is BLUE) lands on a larger row, Blue on a smaller row. */
  lemma {:induction false} ManMovesForward(tiles: seq<Tile>, c: Checker, opp: int, k: int)
    requires |tiles| == NUM_TILES && tiles[0].hasChecker == OFF_BOARD
    requires Placed(c) && !c.isKinged && (opp == RED || opp == BLUE) && 0 <= k < 4
    ensures Regenerated(tiles, c, opp).moves[k] != NO_TILE ==>
      Regenerated(tiles, c, opp).moves[k] / 8 == c.yTile - opp
    ensures Regenerated(tiles, c, opp).jumps[k] != NO_TILE ==>
      Regenerated(tiles, c, opp).jumps[k] / 8 == c.yTile - 2 * opp
    ensures opp == BLUE && Regenerated(tiles, c, opp).moves[k] != NO_TILE ==>
      Regenerated(tiles, c, opp).moves[k] / 8 > c.yTile
    ensures opp == RED && Regenerated(tiles, c, opp).jumps[k] != NO_TILE ==>
      Regenerated(tiles, c, opp).jumps[k] / 8 < c.yTile
  {
    var r := Regenerated(tiles, c, opp);
    if r.moves[k] != NO_TILE {
      GeneratedMoveLegal(tiles, c, opp, k);
    }
    if r.jumps[k] != NO_TILE {
      GeneratedJumpLegal(tiles, c, opp, k);
    }
  }

  // ---------------------------------------------------------------------------
  // Side-level properties.

  /** The reset loop followed by compute_moves leaves every in-play checker of
      the side with fresh slots, and compute_moves reports "no forced jumps"
      exactly when no in-play checker has a capture on this board. */
  lemma {:induction false} TurnStartFresh(tiles: seq<Tile>, cs: seq<Checker>, opp: int)
    requires |tiles| == NUM_TILES
    ensures |TurnStart(tiles, cs, opp)| == |cs|
    ensures Fresh(tiles, TurnStart(tiles, cs, opp), opp)
    ensures NoForcedJumps(TurnStart(tiles, cs, opp)) <==>
      forall i :: 0 <= i < |cs| && cs[i].inPlay ==> !AnyJump(tiles, cs[i], opp)
    ensures forall i :: 0 <= i < |cs| ==>
      TurnStart(tiles, cs, opp)[i].(mustJump := cs[i].mustJump, moves := cs[i].moves,
                                     jumps := cs[i].jumps) == cs[i]
  {
    var r := TurnStart(tiles, cs, opp);
    forall i | 0 <= i < |cs|
      ensures r[i].inPlay ==> r[i] == Regenerated(tiles, r[i], opp)
      ensures r[i].inPlay ==> (r[i].mustJump <==> AnyJump(tiles, cs[i], opp))
      ensures r[i].(mustJump := cs[i].mustJump, moves := cs[i].moves, jumps := cs[i].jumps) == cs[i]
      ensures r[i].inPlay == cs[i].inPlay
    {
      TurnStartEntry(tiles, cs[i], opp);
    }
  }

  lemma {:induction false} TurnStartEntry(tiles: seq<Tile>, c: Checker, opp: int)
    requires |tiles| == NUM_TILES
    ensures Computed(tiles, Reset(c), opp).inPlay == c.inPlay
    ensures c.inPlay ==> Computed(tiles, Reset(c), opp) == Regenerated(tiles, c, opp)
    ensures c.inPlay ==>
      Computed(tiles, Reset(c), opp) == Regenerated(tiles, Computed(tiles, Reset(c), opp), opp)
    ensures c.inPlay ==> (Computed(tiles, Reset(c), opp).mustJump <==> AnyJump(tiles, c, opp))
    ensures Computed(tiles, Reset(c), opp).(mustJump := c.mustJump, moves := c.moves,
                                            jumps := c.jumps) == c
  {
    if c.inPlay {
      RegeneratedIdempotent(tiles, c, opp);
      RegeneratedSlots(tiles, c, opp, 0);
    }
  }

  /** With fresh slots, a checker has a non-void jump slot exactly when its
      must_jump flag is set; so when the side must capture, a piece without a
      capture offers nothing to select, whatever its moves are. */
  lemma {:induction false} FreshJumpIffMustJump(tiles: seq<Tile>, cs: seq<Checker>, opp: int, i: int)
    requires |tiles| == NUM_TILES && Fresh(tiles, cs, opp)
    requires 0 <= i < |cs| && cs[i].inPlay
    ensures HasJump(cs[i]) <==> cs[i].mustJump
  {
    var c := cs[i];
    assert UpToDate(tiles, cs, opp, i);
    forall k | 0 <= k < 4
      ensures c.jumps[k] != NO_TILE <==> CanJump(tiles, c, opp, k)
    {
      RegeneratedSlots(tiles, c, opp, k);
    }
    RegeneratedSlots(tiles, c, opp, 0);
  }
}
