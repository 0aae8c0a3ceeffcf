/** The cursor of the current revision (projectnew.cpp): the joystick step
    and modify_tile_select. */
module Cursor {
  import opened Board

  /** The joystick reading, already remapped to about -1000..1000, divided by
      400 as C divides (toward zero): only a reading of 400 or more in either
      direction counts as a step. */
  function JoyStep(v: int): (s: int)
    ensures s <= -1 <==> v <= -400
    ensures s >= 1 <==> v >= 400
  {
    if v >= 0 then v / 400 else -((-v) / 400)
  }

  /** The direction of a stick value: -1, 0 or +1. */
  function Dir(v: int): int {
    if v <= -1 then -1 else if v >= 1 then 1 else 0
  }

  function Clamp7(v: int): int {
    if v < 0 then 0 else if v > 7 then 7 else v
  }

  /** t is the tile at column c, row r. */
  lemma {:induction false} TileParts(t: int, r: int, c: int)
    requires t == 8 * r + c && 0 <= c < 8
    ensures t % 8 == c && t / 8 == r
  {
  }

  /** modify_tile_select: the highlighted tile moves one column left or right
      and one row up or down in the stick's direction, and stays put at an
      edge; the guards make the uint8_t updates safe for every value. */
  method ModifyTileSelect(joyX: int, joyY: int, t0: byte) returns (t: byte)
    ensures t % 8 == Clamp7(t0 % 8 + Dir(joyX))
    ensures t0 < NUM_TILES ==> t < NUM_TILES && t / 8 == Clamp7(t0 / 8 + Dir(joyY))
  {
    ghost var col := t0 % 8;
    ghost var row := t0 / 8;
    t := t0;
    if joyX <= -1 {
      if t % 8 != 0 {
        t := t - 1;
        col := col - 1;
      }
    }
    TileParts(t, row, col);
    if joyX >= 1 {
      if (t + 1) % 8 != 0 {
        t := t + 1;
        col := col + 1;
      }
    }
    TileParts(t, row, col);
    assert col == Clamp7(t0 % 8 + Dir(joyX));
    if joyY <= -1 {
      if t / 8 != 0 {
        t := t - 8;
        row := row - 1;
      }
    }
    TileParts(t, row, col);
    if joyY >= 1 {
      if t / 8 < 7 {
        t := t + 8;
        row := row + 1;
      }
    }
    TileParts(t, row, col);
  }
}
