/** The procedures of the current revision (projectnew.cpp) that work on the
    sketch's arrays: the generators that fill a checker's slots through a
    pointer, compute_moves over one side, the read-only queries over the four
    slots, move_checker and jump_checker.

    A `Checker*` into one of the two 12-entry arrays is modelled as a side and
    an index: entry `i` of `red` when the side is RED, of `blue` otherwise. */
module Engine {
  import opened Board
  import opened Rules
  import opened Execution

  /** The three arrays as a value. */
  function Snap(tiles: array<Tile>, red: array<Checker>, blue: array<Checker>): Snapshot
    reads tiles, red, blue
  {
    Snapshot(tiles[..], red[..], blue[..])
  }

  /** The array a side's checkers live in. */
  function SideArray(red: array<Checker>, blue: array<Checker>, side: int): array<Checker> {
    if side == RED then red else blue
  }

  // ---------------------------------------------------------------------------
  // Generation.

  /** compute_checker_moves on checker i of `checkers`. The sketch writes
      the slots through the pointer; here they are written into a copy that is
      stored back once, which nothing in between can observe. Each of the
      sketch's four slot blocks is one call of TryMove. */
  method ComputeCheckerMoves(tiles: array<Tile>, checkers: array<Checker>, i: int, opp: sbyte)
    requires tiles.Length == NUM_TILES && 0 <= i < checkers.Length
    modifies checkers
    ensures checkers[..] == old(checkers[..])[i := AfterMoves(tiles[..], old(checkers[i]), opp)]
  {
    var c := checkers[i];
    var m := c.moves;
    m := TryMove(tiles, c, opp, 0, m);
    m := TryMove(tiles, c, opp, 1, m);
    if c.isKinged {
      m := TryMove(tiles, c, opp, 2, m);
      m := TryMove(tiles, c, opp, 3, m);
    }
    MovesAssembled(tiles[..], c, opp, m);
    checkers[i] := c.(moves := m);
  }

  /** The checker compute_checker_moves leaves, assembled from its slots. */
  lemma {:induction false} MovesAssembled(tiles: seq<Tile>, c: Checker, opp: int, m: Slots)
    requires |tiles| == NUM_TILES
    requires m[0] == MoveSlot(tiles, c, opp, 0) && m[1] == MoveSlot(tiles, c, opp, 1)
    requires m[2] == MoveSlot(tiles, c, opp, 2) && m[3] == MoveSlot(tiles, c, opp, 3)
    ensures c.(moves := m) == AfterMoves(tiles, c, opp)
  {
    assert m == AfterMoves(tiles, c, opp).moves;
  }

  /** One slot block of compute_checker_moves: when the neighbour along slot
      k is empty, the slot gets that tile. */
  method TryMove(tiles: array<Tile>, c: Checker, opp: sbyte, k: int, m: Slots) returns (m': Slots)
    requires tiles.Length == NUM_TILES && 0 <= k < 4 && Considered(c, k)
    ensures m' == m[k := if CanMove(tiles[..], c, opp, k) then MoveTarget(c, opp, k) else m[k]]
  {
    var dir: int := opp;
    m' := m;
    var t := MoveTarget(c, dir, k);
    if tiles[t].hasChecker == EMPTY {
      m' := m'[k := t];
    }
  }

  /** compute_checker_jumps on checker i of `checkers`, written the same way;
      each of the sketch's four slot blocks is one call of TryJump. */
  method ComputeCheckerJumps(tiles: array<Tile>, checkers: array<Checker>, i: int, opp: sbyte)
    requires tiles.Length == NUM_TILES && 0 <= i < checkers.Length
    modifies checkers
    ensures checkers[..] == old(checkers[..])[i := AfterJumps(tiles[..], old(checkers[i]), opp)]
  {
    var c := checkers[i];
    var jmp := c.jumps;
    var must := c.mustJump;
    jmp, must := TryJump(tiles, c, opp, 0, jmp, must);
    jmp, must := TryJump(tiles, c, opp, 1, jmp, must);
    if c.isKinged {
      jmp, must := TryJump(tiles, c, opp, 2, jmp, must);
      jmp, must := TryJump(tiles, c, opp, 3, jmp, must);
    }
    JumpsAssembled(tiles[..], c, opp, jmp, must);
    checkers[i] := c.(jumps := jmp, mustJump := must);
  }

  /** One slot block of compute_checker_jumps: when the neighbour along slot
      k holds a piece of `opp` and the tile beyond it is empty, the slot gets
      that tile and must_jump is set. */
  method TryJump(tiles: array<Tile>, c: Checker, opp: sbyte, k: int, jmp: Slots, must: bool)
    returns (jmp': Slots, must': bool)
    requires tiles.Length == NUM_TILES && 0 <= k < 4 && Considered(c, k)
    ensures jmp' == jmp[k := if CanJump(tiles[..], c, opp, k) then JumpTarget(c, opp, k) else jmp[k]]
    ensures must' <==> must || CanJump(tiles[..], c, opp, k)
  {
    var dir: int := opp;
    jmp', must' := jmp, must;
    if tiles[MoveTarget(c, dir, k)].hasChecker == opp {
      var t := JumpTarget(c, dir, k);
      if tiles[t].hasChecker == EMPTY {
        jmp' := jmp'[k := t];
        must' := true;
      }
    }
  }

  /** The checker compute_checker_jumps leaves, assembled from its slots. */
  lemma {:induction false} JumpsAssembled(tiles: seq<Tile>, c: Checker, opp: int, jmp: Slots, must: bool)
    requires |tiles| == NUM_TILES
    requires jmp[0] == JumpSlot(tiles, c, opp, 0) && jmp[1] == JumpSlot(tiles, c, opp, 1)
    requires jmp[2] == JumpSlot(tiles, c, opp, 2) && jmp[3] == JumpSlot(tiles, c, opp, 3)
    requires must <==> c.mustJump || AnyJump(tiles, c, opp)
    ensures c.(jumps := jmp, mustJump := must) == AfterJumps(tiles, c, opp)
  {
    assert jmp == AfterJumps(tiles, c, opp).jumps;
  }

  /** compute_moves: every in-play checker of the side gets its moves and then
      its jumps computed; the result is "no forced jumps", i.e. no in-play
      checker ends with must_jump set. */
  method ComputeMoves(tiles: array<Tile>, checkers: array<Checker>, opp: sbyte) returns (noFJumps: bool)
    requires tiles.Length == NUM_TILES && checkers.Length == CHECKERS_PER_SIDE
    modifies checkers
    ensures checkers[..] == ComputeAll(tiles[..], old(checkers[..]), opp)
    ensures noFJumps <==> NoForcedJumps(checkers[..])
  {
    ghost var tl := tiles[..];
    ghost var cs0 := checkers[..];
    noFJumps := true;
    for i := 0 to CHECKERS_PER_SIDE
      invariant |checkers[..]| == CHECKERS_PER_SIDE
      invariant forall j :: 0 <= j < i ==> checkers[j] == Computed(tl, cs0[j], opp)
      invariant forall j :: i <= j < CHECKERS_PER_SIDE ==> checkers[j] == cs0[j]
      invariant noFJumps <==> forall j :: 0 <= j < i && checkers[j].inPlay ==> !checkers[j].mustJump
    {
      ghost var before := checkers[..];
      if checkers[i].inPlay {
        ComputeCheckerMoves(tiles, checkers, i, opp);
        ComputeCheckerJumps(tiles, checkers, i, opp);
        assert checkers[..] == before[i := Computed(tl, before[i], opp)];
        if checkers[i].mustJump {
          noFJumps := false;
        }
      }
      assert checkers[..] == before[i := Computed(tl, cs0[i], opp)];
      assert forall j :: 0 <= j < CHECKERS_PER_SIDE && j != i ==> checkers[j] == before[j];
    }
    assert checkers[..] == ComputeAll(tl, cs0, opp);
  }

  // ---------------------------------------------------------------------------
  // Queries over the four slots.

  /** selection_matches_move: the selected tile is one of the checker's move
      slots (`checkMoves`) or one of its jump slots (otherwise). */
  method SelectionMatchesMove(selection: byte, c: Checker, checkMoves: bool) returns (matches: bool)
    ensures checkMoves ==> (matches <==> exists k :: 0 <= k < 4 && c.moves[k] == selection)
    ensures !checkMoves ==> (matches <==> exists k :: 0 <= k < 4 && c.jumps[k] == selection)
  {
    matches := false;
    for i := 0 to 4
      invariant checkMoves ==> (matches <==> exists k :: 0 <= k < i && c.moves[k] == selection)
      invariant !checkMoves ==> (matches <==> exists k :: 0 <= k < i && c.jumps[k] == selection)
    {
      if checkMoves {
        if selection == c.moves[i] {
          matches := true;
        }
      } else {
        if selection == c.jumps[i] {
          matches := true;
        }
      }
    }
  }

  /** check_can_move: some move slot is not void. */
  method CheckCanMove(c: Checker) returns (matches: bool)
    ensures matches <==> HasMove(c)
  {
    matches := false;
    for i := 0 to 4
      invariant matches <==> exists k :: 0 <= k < i && c.moves[k] != NO_TILE
    {
      if c.moves[i] != NO_TILE {
        matches := true;
      }
    }
  }

  /** check_must_jump: some jump slot is not void. */
  method CheckMustJump(c: Checker) returns (matches: bool)
    ensures matches <==> HasJump(c)
  {
    matches := false;
    for i := 0 to 4
      invariant matches <==> exists k :: 0 <= k < i && c.jumps[k] != NO_TILE
    {
      if c.jumps[i] != NO_TILE {
        matches := true;
      }
    }
  }

  /** player_piece_on_tile: on a consistent board, the tile holds a piece of
      the side to move exactly when it names an in-play checker of that side
      standing on it; tile 0 never does. */
  function PlayerPieceOnTile(tiles: seq<Tile>, t: byte, turn: int): (r: bool)
    requires |tiles| == NUM_TILES && t < NUM_TILES
  {
    tiles[t].hasChecker == turn
  }

  lemma {:induction false} PieceOnTileIsActive(s: Snapshot, t: byte, turn: int)
    requires Consistent(s) && (turn == RED || turn == BLUE) && t < NUM_TILES
    ensures PlayerPieceOnTile(s.tiles, t, turn) <==>
      t != 0 && Holds(Side(s, turn), s.tiles[t].checkerNum, t)
  {
    ConsistentSides(s, turn);
    if t != 0 && Holds(Side(s, turn), s.tiles[t].checkerNum, t) {
      var n := s.tiles[t].checkerNum;
      assert Marks(s.tiles[TileOf(Side(s, turn)[n])], turn, n);
    }
  }

  // ---------------------------------------------------------------------------
  // Execution on the arrays.

  /** The first half of move_checker and jump_checker: the source tile's
      record copied to the destination, the source reset to (0, 13). */
  method ShiftRecord(tiles: array<Tile>, src: byte, dst: byte)
    requires tiles.Length == NUM_TILES && src < NUM_TILES && dst < NUM_TILES
    modifies tiles
    ensures tiles[..] == ShiftTiles(old(tiles[..]), src, dst)
  {
    tiles[dst] := tiles[dst].(hasChecker := tiles[src].hasChecker);
    tiles[dst] := tiles[dst].(checkerNum := tiles[src].checkerNum);
    tiles[src] := tiles[src].(hasChecker := EMPTY);
    tiles[src] := tiles[src].(checkerNum := NO_CHECKER);
  }

  /** The active checker takes the coordinates of tile dst; move_checker
      (`king`) also kings it on row 0 or row 7. */
  method Place(cs: array<Checker>, i: int, dst: byte, king: bool)
    requires 0 <= i < cs.Length && dst < NUM_TILES
    modifies cs
    ensures cs[..] == old(cs[..])[i := Relocate(old(cs[i]), dst, king)]
  {
    var xy := TileToCoord(dst);
    cs[i] := cs[i].(xTile := xy.0);
    cs[i] := cs[i].(yTile := xy.1);
    if king && (xy.1 == 0 || xy.1 == 7) {
      cs[i] := cs[i].(isKinged := true);
    }
  }

  /** move_checker, with the active checker entry i of the `side` array. */
  method MoveChecker(tiles: array<Tile>, red: array<Checker>, blue: array<Checker>,
                     side: int, i: int, src: byte, dst: byte)
    requires tiles.Length == NUM_TILES && red.Length == CHECKERS_PER_SIDE
    requires blue.Length == CHECKERS_PER_SIDE && red != blue
    requires 0 <= i < CHECKERS_PER_SIDE && src < NUM_TILES && dst < NUM_TILES
    modifies tiles, red, blue
    ensures Snap(tiles, red, blue) == MoveEffect(old(Snap(tiles, red, blue)), side, i, src, dst)
  {
    ShiftRecord(tiles, src, dst);
    Place(SideArray(red, blue, side), i, dst, true);
  }

  /** The loop over j < 4 that sets moves[j] and jumps[j] of entry n to 64,
      as jump_checker does for the victim and loop() does for every checker
      at the start of a turn. */
  method VoidSlots(cs: array<Checker>, n: int)
    requires 0 <= n < cs.Length
    modifies cs
    ensures cs[..] == old(cs[..])[n := old(cs[n]).(moves := NONE_SLOTS, jumps := NONE_SLOTS)]
  {
    ghost var vs := cs[..];
    ghost var v0 := cs[n];
    for j := 0 to 4
      invariant forall q :: 0 <= q < cs.Length && q != n ==> cs[q] == vs[q]
      invariant cs[n].(moves := v0.moves, jumps := v0.jumps) == v0
      invariant forall m :: 0 <= m < j ==> cs[n].moves[m] == NO_TILE && cs[n].jumps[m] == NO_TILE
      invariant forall m :: j <= m < 4 ==> cs[n].moves[m] == v0.moves[m] && cs[n].jumps[m] == v0.jumps[m]
    {
      cs[n] := cs[n].(moves := cs[n].moves[j := NO_TILE]);
      cs[n] := cs[n].(jumps := cs[n].jumps[j := NO_TILE]);
    }
    assert cs[n].moves == NONE_SLOTS && cs[n].jumps == NONE_SLOTS;
    assert cs[..] == vs[n := v0.(moves := NONE_SLOTS, jumps := NONE_SLOTS)];
  }

  /** The victim's part of jump_checker: out of play, then its eight slots
      voided. */
  method Remove(victims: array<Checker>, n: int)
    requires 0 <= n < victims.Length
    modifies victims
    ensures victims[..] == old(victims[..])[n := Captured(old(victims[n]))]
  {
    victims[n] := victims[n].(inPlay := false);
    VoidSlots(victims, n);
  }

  /** jump_checker, with the active checker entry i of the `side` array;
      `numDead` is the counter that `num_dead` points at and `dead` its new
      value. The sketch indexes the victim's array with the checker_num of
      the jumped tile, so that index must be valid. */
  method JumpChecker(tiles: array<Tile>, red: array<Checker>, blue: array<Checker>,
                     side: int, i: int, src: byte, dst: byte, numDead: byte, turn: int)
    returns (dead: byte)
    requires tiles.Length == NUM_TILES && red.Length == CHECKERS_PER_SIDE
    requires blue.Length == CHECKERS_PER_SIDE && red != blue
    requires 0 <= i < CHECKERS_PER_SIDE && src < NUM_TILES && dst < NUM_TILES
    requires ShiftTiles(tiles[..], src, dst)[Midpoint(src, dst)].checkerNum < CHECKERS_PER_SIDE
    modifies tiles, red, blue
    ensures Snap(tiles, red, blue) == JumpEffect(old(Snap(tiles, red, blue)), side, i, src, dst, turn)
    ensures dead == U8(numDead + 1)
  {
    ShiftRecord(tiles, src, dst);
    var rm: byte := (src + dst) / 2;
    Place(SideArray(red, blue, side), i, dst, false);
    Remove(SideArray(red, blue, VictimSide(turn)), tiles[rm].checkerNum);
    tiles[rm] := tiles[rm].(hasChecker := EMPTY);
    tiles[rm] := tiles[rm].(checkerNum := NO_CHECKER);
    dead := U8(numDead + 1);
  }
}
