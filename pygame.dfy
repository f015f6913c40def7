/**
 * The Python port's board objects (ricochet_robots/game.py): robots, tiles and
 * the board that checks its tile grid and groups the target tiles by robot.
 * Robots and tiles define no equality of their own, so Python compares them by
 * identity; here they are classes, whose references compare the same way.
 */
module PyGame {
  import opened Wrappers
  import opened PyBoards

  /** A robot: its name and the tile it stands on, if any. */
  class Robot {
    const name: string
    var tile: Tile?

    constructor(name: string, tile: Tile?)
      ensures this.name == name && this.tile == tile
    {
      this.name := name;
      this.tile := tile;
    }
  }

  /**
   * The `connected` set a Tile keeps: empty for an inaccessible tile or when
   * no directions are passed, otherwise the directions passed.
   */
  function ConnectedSet(accessible: bool, connected: Option<seq<Direction>>): (r: set<Direction>)
    ensures !accessible ==> r == {}
    ensures connected.None? ==> r == {}
    ensures accessible && connected.Some? ==> forall d :: d in r <==> d in connected.value
  {
    if !accessible || connected.None? then {} else set d | d in connected.value
  }

  /** A tile of the board; none of its fields change after construction. */
  class Tile {
    const row: int
    const col: int
    const accessible: bool
    const connected: set<Direction>
    const target: Robot?

    constructor(row: int, col: int, accessible: bool, connected: Option<seq<Direction>>, target: Robot?)
      ensures this.row == row && this.col == col && this.accessible == accessible
      ensures this.connected == ConnectedSet(accessible, connected)
      ensures this.target == target
    {
      this.row := row;
      this.col := col;
      this.accessible := accessible;
      this.connected := ConnectedSet(accessible, connected);
      this.target := target;
    }
  }

  /** How `Board.__init__` fails: an empty grid has no row 0, anything else trips an assert. */
  datatype InitError = IndexError | AssertionError

  /** The tiles of the grid, row after row. */
  function Flatten(tiles: seq<seq<Tile>>): seq<Tile>
  {
    if tiles == [] then [] else Flatten(tiles[..|tiles| - 1]) + tiles[|tiles| - 1]
  }

  /** One step of the inner loop: the next tile of the row is appended to its robot's list. */
  lemma RowStep(front: seq<Tile>, row: seq<Tile>, c: nat)
    requires c < |row|
    ensures var g, t := Grouping(front + row[..c]), row[c];
      Grouping(front + row[..c + 1]) ==
        if t.target == null then g else g[t.target := (if t.target in g then g[t.target] else []) + [t]]
  {
    var done := front + row[..c + 1];
    assert done[..|done| - 1] == front + row[..c];
  }

  /** Flattening one more row appends it. */
  lemma FlattenStep(tiles: seq<seq<Tile>>, k: nat)
    requires k < |tiles|
    ensures Flatten(tiles[..k + 1]) == Flatten(tiles[..k]) + tiles[k]
  {
    assert tiles[..k + 1][..k] == tiles[..k];
  }

  /** The asserts of the loop over one tile, at row rowN and column colN. */
  predicate TileOk(robots: set<Robot>, tile: Tile, rowN: int, colN: int)
  {
    tile.row == rowN && tile.col == colN && (tile.target != null ==> tile.target in robots)
  }

  /** The asserts of the loop over one row: its width, then each of its tiles. */
  predicate RowOk(robots: set<Robot>, tiles: seq<seq<Tile>>, rowN: int)
    requires 0 <= rowN < |tiles| && |tiles| > 0
  {
    |tiles[rowN]| == |tiles[0]| &&
    forall colN | 0 <= colN < |tiles[rowN]| :: TileOk(robots, tiles[rowN][colN], rowN, colN)
  }

  /** The grid passes every assert of `Board.__init__`. */
  predicate GridOk(robots: set<Robot>, tiles: seq<seq<Tile>>)
  {
    |tiles| > 0 && forall rowN | 0 <= rowN < |tiles| :: RowOk(robots, tiles, rowN)
  }

  /** The tiles of ts that target robot, in the order of ts. */
  function TilesFor(ts: seq<Tile>, robot: Robot): (r: seq<Tile>)
    ensures forall t | t in r :: t in ts && t.target == robot
    ensures forall t | t in ts && t.target == robot :: t in r
    ensures |r| <= |ts|
  {
    if ts == [] then []
    else
      var last := ts[|ts| - 1];
      TilesFor(ts[..|ts| - 1], robot) + (if last.target == robot then [last] else [])
  }

  /** The robots that some tile of ts targets. */
  function Targeted(ts: seq<Tile>): (r: set<Robot>)
    ensures forall robot | robot in r :: exists t | t in ts :: t.target == robot
    ensures forall t | t in ts && t.target != null :: t.target in r
  {
    if ts == [] then {}
    else
      var last := ts[|ts| - 1];
      Targeted(ts[..|ts| - 1]) + (if last.target == null then {} else var robot: Robot := last.target; {robot})
  }

  /** The `targets` dict after the loop has appended each tile of ts to its robot's list. */
  function Grouping(ts: seq<Tile>): map<Robot, seq<Tile>>
  {
    if ts == [] then map[]
    else
      var g, last := Grouping(ts[..|ts| - 1]), ts[|ts| - 1];
      if last.target == null then g
      else
        var robot: Robot := last.target;
        g[robot := (if robot in g then g[robot] else []) + [last]]
  }

  /**
   * The dict's keys are exactly the targeted robots, and each robot's list
   * holds exactly the tiles targeting it, in their order in ts.
   */
  lemma {:induction false} GroupingIsFilter(ts: seq<Tile>)
    ensures Grouping(ts).Keys == Targeted(ts)
    ensures forall robot | robot in Grouping(ts) :: Grouping(ts)[robot] == TilesFor(ts, robot)
  {
    if ts != [] {
      var front, last := ts[..|ts| - 1], ts[|ts| - 1];
      GroupingIsFilter(front);
      var g, g' := Grouping(front), Grouping(ts);
      assert last.target == null ==> g' == g;
      assert last.target != null ==> g' == g[last.target := (if last.target in g then g[last.target] else []) + [last]];
      forall robot | robot in g'
        ensures g'[robot] == TilesFor(ts, robot)
      {
        if robot !in g {
          UntargetedHasNoTiles(front, robot);
        }
        if last.target == robot {
          assert g'[robot] == TilesFor(front, robot) + [last];
        } else {
          assert g'[robot] == g[robot];
        }
      }
    }
  }

  lemma UntargetedHasNoTiles(ts: seq<Tile>, robot: Robot)
    requires robot !in Targeted(ts)
    ensures TilesFor(ts, robot) == []
  {
  }

  /** A key's list is never empty, and a tile is on robot's list exactly when it targets robot. */
  lemma GroupingMembers(ts: seq<Tile>, robot: Robot, t: Tile)
    ensures robot in Grouping(ts) ==> Grouping(ts)[robot] != []
    ensures robot in Grouping(ts) ==> (t in Grouping(ts)[robot] <==> t in ts && t.target == robot)
    ensures robot !in Grouping(ts) ==> !(t in ts && t.target == robot)
  {
    GroupingIsFilter(ts);
    if robot in Grouping(ts) {
      var u :| u in ts && u.target == robot;
      assert u in TilesFor(ts, robot);
    }
  }

  /** The tiles come out row by row, left to right. */
  predicate Before(a: Tile, b: Tile)
  {
    a.row < b.row || (a.row == b.row && a.col < b.col)
  }

  predicate RowMajor(ts: seq<Tile>)
  {
    forall i, j | 0 <= i < j < |ts| :: Before(ts[i], ts[j])
  }

  /** A grid that passes the asserts flattens into row-major order. */
  lemma {:induction false} FlattenRowMajor(robots: set<Robot>, tiles: seq<seq<Tile>>, k: nat)
    requires GridOk(robots, tiles) && k <= |tiles|
    ensures RowMajor(Flatten(tiles[..k]))
    ensures forall t | t in Flatten(tiles[..k]) :: t.row < k
  {
    if k > 0 {
      var prefix := tiles[..k];
      assert prefix[..k - 1] == tiles[..k - 1];
      FlattenRowMajor(robots, tiles, k - 1);
      var front, row := Flatten(tiles[..k - 1]), tiles[k - 1];
      assert Flatten(prefix) == front + row;
      assert RowOk(robots, tiles, k - 1);
      forall t | t in row
        ensures t.row == k - 1
      {
        var c :| 0 <= c < |row| && row[c] == t;
        assert TileOk(robots, row[c], k - 1, c);
      }
      forall i, j | 0 <= i < j < |front + row|
        ensures Before((front + row)[i], (front + row)[j])
      {
        if j >= |front| {
          assert (front + row)[j] == row[j - |front|];
          if i >= |front| {
            assert TileOk(robots, row[i - |front|], k - 1, i - |front|);
            assert TileOk(robots, row[j - |front|], k - 1, j - |front|);
          } else {
            assert (front + row)[i] in front;
          }
        }
      }
    }
  }

  /** Dropping tiles keeps the order of the rest. */
  lemma {:induction false} TilesForRowMajor(ts: seq<Tile>, robot: Robot)
    requires RowMajor(ts)
    ensures RowMajor(TilesFor(ts, robot))
  {
    if ts != [] {
      var front, last := ts[..|ts| - 1], ts[|ts| - 1];
      TilesForRowMajor(front, robot);
      var r := TilesFor(front, robot);
      if last.target == robot {
        forall i | 0 <= i < |r|
          ensures Before(r[i], last)
        {
          assert r[i] in front;
          var k :| 0 <= k < |front| && front[k] == r[i];
        }
      }
    }
  }

  /**
   * For a grid that passes the asserts, every robot in `targets` has at least
   * one tile, and its tiles are in row-major order.
   */
  lemma GroupingRowMajor(robots: set<Robot>, tiles: seq<seq<Tile>>, robot: Robot)
    requires GridOk(robots, tiles)
    requires robot in Grouping(Flatten(tiles))
    ensures Grouping(Flatten(tiles))[robot] != []
    ensures robot in robots
    ensures RowMajor(Grouping(Flatten(tiles))[robot])
  {
    assert tiles[..|tiles|] == tiles;
    GroupingIsFilter(Flatten(tiles));
    FlattenRowMajor(robots, tiles, |tiles|);
    TilesForRowMajor(Flatten(tiles), robot);
    var t :| t in Flatten(tiles) && t.target == robot;
    assert t in TilesFor(Flatten(tiles), robot);
    FlattenedTileOk(robots, tiles, t);
  }

  /** Every tile of a grid that passes the asserts targets a known robot or none. */
  lemma {:induction false} FlattenedTileOk(robots: set<Robot>, tiles: seq<seq<Tile>>, t: Tile)
    requires GridOk(robots, tiles) && t in Flatten(tiles)
    ensures t.target != null ==> t.target in robots
    decreases |tiles|
  {
    var front, row := tiles[..|tiles| - 1], tiles[|tiles| - 1];
    assert RowOk(robots, tiles, |tiles| - 1);
    if t in row {
      var c :| 0 <= c < |row| && row[c] == t;
      assert TileOk(robots, row[c], |tiles| - 1, c);
    } else {
      assert GridOk(robots, front) by {
        forall rowN | 0 <= rowN < |front|
          ensures RowOk(robots, front, rowN)
        {
          assert RowOk(robots, tiles, rowN);
        }
      }
      FlattenedTileOk(robots, front, t);
    }
  }

  /**
   * The checks and the target grouping of `Board.__init__`: an IndexError for
   * an empty grid, an AssertionError for a row of the wrong width, a tile out
   * of place or a target robot not on the board, and otherwise the dict from
   * each targeted robot to its tiles.
   */
  method GroupTargets(robots: set<Robot>, tiles: seq<seq<Tile>>) returns (r: Result<map<Robot, seq<Tile>>, InitError>)
    ensures |tiles| == 0 ==> r == Failure(IndexError)
    ensures |tiles| > 0 ==> (r.Success? <==> GridOk(robots, tiles))
    ensures |tiles| > 0 && r.Failure? ==> r.error == AssertionError
    ensures r.Success? ==> r.value == Grouping(Flatten(tiles))
  {
    if |tiles| == 0 {
      return Failure(IndexError);
    }
    var numCols := |tiles[0]|;
    var targets: map<Robot, seq<Tile>> := map[];
    for rowN := 0 to |tiles|
      invariant forall i | 0 <= i < rowN :: RowOk(robots, tiles, i)
      invariant targets == Grouping(Flatten(tiles[..rowN]))
    {
      var row := tiles[rowN];
      if |row| != numCols {
        assert !RowOk(robots, tiles, rowN);
        return Failure(AssertionError);
      }
      FlattenStep(tiles, rowN);
      assert Flatten(tiles[..rowN]) + row[..0] == Flatten(tiles[..rowN]);
      for colN := 0 to |row|
        invariant forall j | 0 <= j < colN :: TileOk(robots, row[j], rowN, j)
        invariant targets == Grouping(Flatten(tiles[..rowN]) + row[..colN])
      {
        var tile := row[colN];
        RowStep(Flatten(tiles[..rowN]), row, colN);
        if !(tile.row == rowN && tile.col == colN) {
          assert !RowOk(robots, tiles, rowN);
          return Failure(AssertionError);
        }
        if tile.target != null {
          if tile.target !in robots {
            assert !RowOk(robots, tiles, rowN);
            return Failure(AssertionError);
          }
          var list := if tile.target in targets then targets[tile.target] else [];
          targets := targets[tile.target := list + [tile]];
        }
      }
      assert row[..|row|] == row;
    }
    assert tiles[..|tiles|] == tiles;
    return Success(targets);
  }

  /** The board: its robots, its tile grid, the grid's size and the target tiles of each robot. */
  class Board {
    const robots: set<Robot>
    const tiles: seq<seq<Tile>>
    const numRows: nat
    const numCols: nat
    const targets: map<Robot, seq<Tile>>

    constructor(robots: set<Robot>, tiles: seq<seq<Tile>>, targets: map<Robot, seq<Tile>>)
      requires |tiles| > 0
      ensures this.robots == robots && this.tiles == tiles && this.targets == targets
      ensures numRows == |tiles| && numCols == |tiles[0]|
    {
      this.robots := robots;
      this.tiles := tiles;
      this.numRows := |tiles|;
      this.numCols := |tiles[0]|;
      this.targets := targets;
    }

    /** `blocked`: an inaccessible tile, or one that some robot of the board stands on. */
    predicate Blocked(tile: Tile): (r: bool)
      reads robots
      ensures !tile.accessible ==> r
      ensures robots == {} ==> (r <==> !tile.accessible)
      ensures forall robot | robot in robots && robot.tile == tile :: r
    {
      !tile.accessible || exists robot | robot in robots :: robot.tile == tile
    }
  }

  /** An accessible tile is blocked exactly while one of the board's robots stands on it. */
  lemma BlockedByRobot(board: Board, tile: Tile, robot: Robot)
    requires robot in board.robots
    ensures !tile.accessible ==> board.Blocked(tile)
    ensures robot.tile == tile ==> board.Blocked(tile)
    ensures tile.accessible && (forall r | r in board.robots :: r.tile != tile) ==> !board.Blocked(tile)
  {
  }

  /**
   * `Board.__init__`: the robots become a set, the grid is checked and the
   * target tiles grouped; a failed check raises instead of building a board.
   */
  method NewBoard(robots: seq<Robot>, tiles: seq<seq<Tile>>) returns (r: Result<Board, InitError>)
    ensures r.Failure? <==> !GridOk((set robot | robot in robots), tiles)
    ensures r.Failure? ==> (r.error == IndexError <==> |tiles| == 0)
    ensures r.Success? ==> fresh(r.value)
    ensures r.Success? ==> r.value.robots == (set robot | robot in robots) && r.value.tiles == tiles
    ensures r.Success? ==> r.value.numRows == |tiles| && r.value.numCols == |tiles[0]|
    ensures r.Success? ==> r.value.targets == Grouping(Flatten(tiles))
  {
    var robotSet := set robot | robot in robots;
    var grouped := GroupTargets(robotSet, tiles);
    match grouped
    case Failure(e) =>
      return Failure(e);
    case Success(targets) =>
      var board := new Board(robotSet, tiles, targets);
      return Success(board);
  }
}
