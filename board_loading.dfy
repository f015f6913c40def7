/**
 * The grid-to-mask loop of the Board(File) constructor (Board.java). The
 * board file is a character grid of 2*dimX-1 lines: cell (x, y) sits at
 * [2x][2y] and is marked 'X' when it is a target, the character between two
 * cells of a row is '|' for a wall, and the character between two cells of a
 * column is '-' for a wall.
 */
module BoardLoading {
  import opened Directions
  import opened Points
  import opened Boards

  /**
   * The character array as the constructor allocates it: 2*dimX-1 rows of
   * 2*dimX-1 characters, read for dimY <= dimX columns (a wider board makes the
   * reading loop fail before this loop runs).
   */
  ghost predicate GridShaped(input: seq<seq<char>>, dimX: nat, dimY: nat)
  {
    && 1 <= dimX && dimY <= dimX
    && |input| == 2 * dimX - 1
    && forall r | 0 <= r < |input| :: |input[r]| == 2 * dimX - 1
  }

  /** The wall character next to cell (x, y) in direction d does not close it. */
  predicate OpenInGrid(input: seq<seq<char>>, dimX: nat, dimY: nat, x: nat, y: nat, d: Dir)
    requires GridShaped(input, dimX, dimY) && x < dimX && y < dimY
  {
    if d == LEFT then y > 0 && input[2 * x][2 * y - 1] != '|'
    else if d == RIGHT then y < dimY - 1 && input[2 * x][2 * y + 1] != '|'
    else if d == UP then x > 0 && input[2 * x - 1][2 * y] != '-'
    else x < dimX - 1 && input[2 * x + 1][2 * y] != '-'
  }

  /** The mask the constructor stores for cell (x, y). */
  function TileMask(input: seq<seq<char>>, dimX: nat, dimY: nat, x: nat, y: nat): bv8
    requires GridShaped(input, dimX, dimY) && x < dimX && y < dimY
  {
    (if OpenInGrid(input, dimX, dimY, x, y, LEFT) then Bit(LEFT) else 0)
    | (if OpenInGrid(input, dimX, dimY, x, y, RIGHT) then Bit(RIGHT) else 0)
    | (if OpenInGrid(input, dimX, dimY, x, y, UP) then Bit(UP) else 0)
    | (if OpenInGrid(input, dimX, dimY, x, y, DOWN) then Bit(DOWN) else 0)
  }

  /** The whole mask array the constructor fills. */
  function LoadedMasks(input: seq<seq<char>>, dimX: nat, dimY: nat): (m: seq<seq<bv8>>)
    requires GridShaped(input, dimX, dimY)
  {
    seq(dimX, x requires 0 <= x < dimX =>
      seq(dimY, y requires 0 <= y < dimY => TileMask(input, dimX, dimY, x, y)))
  }

  /** The cell is on the board and marked 'X'. */
  predicate IsTargetCell(input: seq<seq<char>>, dimX: nat, dimY: nat, p: Point)
    requires GridShaped(input, dimX, dimY)
  {
    0 <= p.x < dimX && 0 <= p.y < dimY && input[2 * p.x][2 * p.y] == 'X'
  }

  /** Each bit of a stored mask is set exactly when its wall character leaves it open. */
  lemma TileMaskBit(input: seq<seq<char>>, dimX: nat, dimY: nat, x: nat, y: nat, d: Dir)
    requires GridShaped(input, dimX, dimY) && x < dimX && y < dimY
    ensures (TileMask(input, dimX, dimY, x, y) & Bit(d)) == Bit(d) <==> OpenInGrid(input, dimX, dimY, x, y, d)
  {
  }

  /** In the loaded board a bit is set only when the neighbour it points to is on the board. */
  lemma {:induction false} LoadedWellFormed(input: seq<seq<char>>, dimX: nat, dimY: nat, targets: set<Point>)
    requires GridShaped(input, dimX, dimY)
    ensures WellFormed(Board(dimX, dimY, LoadedMasks(input, dimX, dimY), targets))
  {
    var b := Board(dimX, dimY, LoadedMasks(input, dimX, dimY), targets);
    forall p: Point, d: Dir | OpenTowards(b, p, d)
      ensures InBounds(b, Move(p, d))
    {
      TileMaskBit(input, dimX, dimY, p.x, p.y, d);
    }
  }

  /**
   * The loaded board is symmetric: a cell is open towards d exactly when the
   * neighbour there is open back towards it, since both bits come from the
   * same wall character.
   */
  lemma {:induction false} LoadedSymmetric(input: seq<seq<char>>, dimX: nat, dimY: nat, targets: set<Point>)
    requires GridShaped(input, dimX, dimY)
    ensures Symmetric(Board(dimX, dimY, LoadedMasks(input, dimX, dimY), targets))
  {
    var b := Board(dimX, dimY, LoadedMasks(input, dimX, dimY), targets);
    LoadedWellFormed(input, dimX, dimY, targets);
    forall p: Point, d: Dir | OpenTowards(b, p, d)
      ensures IsConnected(b, Move(p, d), Opposite(d))
    {
      LoadedOpenBack(input, dimX, dimY, targets, p, d);
    }
  }

  lemma LoadedOpenBack(input: seq<seq<char>>, dimX: nat, dimY: nat, targets: set<Point>, p: Point, d: Dir)
    requires GridShaped(input, dimX, dimY)
    requires 0 <= p.x < dimX && 0 <= p.y < dimY
    requires (LoadedMasks(input, dimX, dimY)[p.x][p.y] & Bit(d)) == Bit(d)
    ensures var q := Move(p, d);
      && 0 <= q.x < dimX && 0 <= q.y < dimY
      && (LoadedMasks(input, dimX, dimY)[q.x][q.y] & Bit(Opposite(d))) == Bit(Opposite(d))
  {
    var q := Move(p, d);
    TileMaskBit(input, dimX, dimY, p.x, p.y, d);
    GridOpenBack(input, dimX, dimY, p.x, p.y, d);
    TileMaskBit(input, dimX, dimY, q.x, q.y, Opposite(d));
  }

  /** Both sides of a wall read the same character of the grid. */
  lemma GridOpenBack(input: seq<seq<char>>, dimX: nat, dimY: nat, x: nat, y: nat, d: Dir)
    requires GridShaped(input, dimX, dimY) && x < dimX && y < dimY
    requires OpenInGrid(input, dimX, dimY, x, y, d)
    ensures var q := Move(Point(x, y), d);
      && 0 <= q.x < dimX && 0 <= q.y < dimY
      && OpenInGrid(input, dimX, dimY, q.x, q.y, Opposite(d))
  {
  }

  /** The constructor's nested loops: one mask per cell, and each 'X' cell a target. */
  method Load(input: seq<seq<char>>, dimX: nat, dimY: nat) returns (b: Board)
    requires GridShaped(input, dimX, dimY)
    ensures b.dimX == dimX && b.dimY == dimY
    ensures b.masks == LoadedMasks(input, dimX, dimY)
    ensures forall p :: p in b.targets <==> IsTargetCell(input, dimX, dimY, p)
  {
    var board: seq<seq<bv8>> := [];
    var targets: set<Point> := {};
    for x := 0 to dimX
      invariant |board| == x
      invariant forall i | 0 <= i < x :: board[i] == LoadedMasks(input, dimX, dimY)[i]
      invariant forall p :: p in targets <==> IsTargetCell(input, dimX, dimY, p) && p.x < x
    {
      var row: seq<bv8> := [];
      for y := 0 to dimY
        invariant |row| == y
        invariant forall j | 0 <= j < y :: row[j] == TileMask(input, dimX, dimY, x, j)
        invariant forall p :: p in targets <==> IsTargetCell(input, dimX, dimY, p) && (p.x < x || (p.x == x && p.y < y))
      {
        var tile: bv8 := 0;
        if y > 0 && input[2 * x][2 * y - 1] != '|' {
          tile := tile | Bit(LEFT);
        }
        if y < dimY - 1 && input[2 * x][2 * y + 1] != '|' {
          tile := tile | Bit(RIGHT);
        }
        if x > 0 && input[2 * x - 1][2 * y] != '-' {
          tile := tile | Bit(UP);
        }
        if x < dimX - 1 && input[2 * x + 1][2 * y] != '-' {
          tile := tile | Bit(DOWN);
        }
        assert tile == TileMask(input, dimX, dimY, x, y);
        row := row + [tile];
        if input[2 * x][2 * y] == 'X' {
          targets := targets + {Point(x, y)};
        }
      }
      board := board + [row];
    }
    b := Board(dimX, dimY, board, targets);
  }

  /** Board(dim): a dim by dim board whose every cell is walled in on all sides, with no targets. */
  function BlankBoard(dim: nat): (b: Board)
    ensures b.dimX == dim && b.dimY == dim && b.targets == {}
    ensures Symmetric(b)
    ensures forall p: Point, d: Dir | InBounds(b, p) :: Slide(b, p, d) == p
  {
    var masks := seq(dim, _ => seq(dim, _ => 0 as bv8));
    var b := Board(dim, dim, masks, {});
    assert forall p: Point, d: Dir | InBounds(b, p) :: !IsConnected(b, p, d);
    b
  }
}
