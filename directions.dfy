/**
 * The four compass directions of the Java board (Board.java): their indices,
 * the wall-mask bit of each, the (row, column) offset of each, and the
 * OPPOSITE and PERP tables the solver uses.
 */
module Directions {

  /** A direction index, as the Java code passes them around (0..3). */
  type Dir = d: int | 0 <= d < 4

  const RIGHT: Dir := 0
  const UP: Dir := 1
  const LEFT: Dir := 2
  const DOWN: Dir := 3

  /** DIRECTIONS, the order in which every loop over directions runs. */
  const DIRECTIONS: seq<Dir> := [RIGHT, UP, LEFT, DOWN]

  /** BITS_DIR: the bit of a cell's wall mask that says "open towards d". */
  function Bit(d: Dir): (r: bv8)
    ensures r != 0 && r & (r - 1) == 0
    ensures r <= 8
  {
    if d == RIGHT then 1 else if d == UP then 2 else if d == LEFT then 4 else 8
  }

  /** OFFSETS_DIR: the (row, column) step of d; rows grow downwards. */
  function Offset(d: Dir): (r: (int, int))
    ensures (r.0 == 0) != (r.1 == 0)
    ensures -1 <= r.0 <= 1 && -1 <= r.1 <= 1
  {
    if d == RIGHT then (0, 1) else if d == UP then (-1, 0) else if d == LEFT then (0, -1) else (1, 0)
  }

  /** OPPOSITE[d]: the reverse direction, whose offset undoes d's. */
  function Opposite(d: Dir): (r: Dir)
    ensures r != d
    ensures Offset(r) == (-Offset(d).0, -Offset(d).1)
    ensures Bit(r) != Bit(d)
  {
    (d + 2) % 4
  }

  /**
   * PERP[d]: the two directions at right angles to d, in the order of the
   * Python enum (RIGHT and LEFT give UP, DOWN; UP and DOWN give LEFT, RIGHT).
   */
  function Perp(d: Dir): (r: seq<Dir>)
    ensures |r| == 2 && r[0] != r[1] && r[1] == Opposite(r[0])
    ensures forall e | e in r :: e != d && e != Opposite(d)
    ensures forall e: Dir :: e != d && e != Opposite(d) ==> e in r
  {
    if d == RIGHT || d == LEFT then [UP, DOWN] else [LEFT, RIGHT]
  }

  lemma OppositeInvolution(d: Dir)
    ensures Opposite(Opposite(d)) == d
  {
  }
}
