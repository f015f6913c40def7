/**
 * Robot configurations and the single-move relation of Solver.java: the
 * `legalMove` check and the exhaustive expansion of a search node into the
 * configurations one slide away.
 */
module Configurations {
  import opened Wrappers
  import opened Directions
  import opened Points
  import opened Boards

  /** The positions of all robots, indexed by robot. */
  type Config = seq<Point>

  ghost predicate ValidConfig(b: Board, c: Config)
  {
    forall i | 0 <= i < |c| :: InBounds(b, c[i])
  }

  /** Number of robots whose position differs between two configurations. */
  function DiffCount(prev: Config, next: Config): nat
    requires |prev| == |next|
  {
    if |prev| == 0 then 0
    else
      var n := |prev| - 1;
      DiffCount(prev[..n], next[..n]) + (if prev[n] != next[n] then 1 else 0)
  }

  /** The reachable set of each robot, the others standing where they are. */
  function ReachSets(b: Board, config: Config): (r: seq<set<Point>>)
    requires WellFormed(b) && ValidConfig(b, config)
    ensures |r| == |config|
  {
    seq(|config|, i requires 0 <= i < |config| => ReachableSet(b, config[i], config))
  }

  /** The reachable set of each robot as the list `reachable` iterates. */
  function ReachLists(b: Board, config: Config): (r: seq<seq<Point>>)
    requires WellFormed(b) && ValidConfig(b, config)
    ensures |r| == |config|
  {
    seq(|config|, i requires 0 <= i < |config| => ReachableOrder(b, config[i], config))
  }

  /** `next` is `prev` with robot i, and no other, moved to a different cell. */
  ghost predicate MovesOnly(prev: Config, next: Config, i: int)
  {
    && 0 <= i < |prev| == |next|
    && next == prev[i := next[i]]
    && next[i] != prev[i]
  }

  /** `next` is `prev` with robot i moved to a different cell of its set `reach[i]`. */
  ghost predicate SingleMove(prev: Config, next: Config, reach: seq<set<Point>>, i: int)
  {
    MovesOnly(prev, next, i) && |reach| == |prev| && next[i] in reach[i]
  }

  /** What `legalMove` accepts, for given reachable sets: exactly one robot moved, and within its set. */
  ghost predicate LegalWithin(prev: Config, next: Config, reach: seq<set<Point>>)
  {
    && |prev| == |next| == |reach|
    && DiffCount(prev, next) == 1
    && forall i | 0 <= i < |prev| && prev[i] != next[i] :: next[i] in reach[i]
  }

  /** What `legalMove` accepts: exactly one robot moved, and to a cell it can slide to. */
  ghost predicate IsLegalMove(b: Board, prev: Config, next: Config)
    requires WellFormed(b) && ValidConfig(b, prev)
  {
    LegalWithin(prev, next, ReachSets(b, prev))
  }

  lemma {:induction false} DiffCountZero(prev: Config, next: Config)
    requires |prev| == |next|
    ensures DiffCount(prev, next) == 0 <==> prev == next
  {
    if |prev| > 0 {
      var n := |prev| - 1;
      DiffCountZero(prev[..n], next[..n]);
      assert prev == prev[..n] + [prev[n]];
      assert next == next[..n] + [next[n]];
    }
  }

  /** Changing a single index gives a difference count of one. */
  lemma {:induction false} DiffCountSingle(prev: Config, next: Config, i: int)
    requires 0 <= i < |prev| == |next| && next == prev[i := next[i]] && next[i] != prev[i]
    ensures DiffCount(prev, next) == 1
  {
    var n := |prev| - 1;
    if i == n {
      assert prev[..n] == next[..n];
      DiffCountZero(prev[..n], next[..n]);
    } else {
      DiffCountSingle(prev[..n], next[..n], i);
    }
  }

  /** Two differing indices give a difference count of at least two. */
  lemma {:induction false} DiffCountTwo(prev: Config, next: Config, i: int, j: int)
    requires 0 <= i < j < |prev| == |next| && prev[i] != next[i] && prev[j] != next[j]
    ensures DiffCount(prev, next) >= 2
  {
    var n := |prev| - 1;
    if j == n {
      DiffCountPositive(prev[..n], next[..n], i);
    } else {
      DiffCountTwo(prev[..n], next[..n], i, j);
    }
  }

  lemma {:induction false} DiffCountPositive(prev: Config, next: Config, i: int)
    requires 0 <= i < |prev| == |next| && prev[i] != next[i]
    ensures DiffCount(prev, next) >= 1
  {
    var n := |prev| - 1;
    if i < n {
      DiffCountPositive(prev[..n], next[..n], i);
    }
  }

  /** The difference count of a prefix never exceeds that of the whole. */
  lemma {:induction false} DiffCountPrefix(prev: Config, next: Config, k: nat)
    requires k <= |prev| == |next|
    ensures DiffCount(prev[..k], next[..k]) <= DiffCount(prev, next)
    decreases |prev|
  {
    if k < |prev| {
      var n := |prev| - 1;
      assert prev[..n][..k] == prev[..k] && next[..n][..k] == next[..k];
      DiffCountPrefix(prev[..n], next[..n], k);
    } else {
      assert prev[..k] == prev && next[..k] == next;
    }
  }

  /**
   * A legal move is exactly a configuration that moves one robot to a
   * different cell of its reachable set and leaves every other robot in place.
   */
  lemma LegalIsSingleMove(prev: Config, next: Config, reach: seq<set<Point>>)
    ensures LegalWithin(prev, next, reach) <==> exists i :: SingleMove(prev, next, reach, i)
  {
    if LegalWithin(prev, next, reach) {
      if prev == next {
        DiffCountZero(prev, next);
      }
      var i :| 0 <= i < |prev| && prev[i] != next[i];
      forall j | 0 <= j < |prev| && j != i
        ensures next[j] == prev[j]
      {
        if next[j] != prev[j] {
          if i < j { DiffCountTwo(prev, next, i, j); } else { DiffCountTwo(prev, next, j, i); }
        }
      }
      assert next == prev[i := next[i]];
      assert SingleMove(prev, next, reach, i);
    }
    if i :| SingleMove(prev, next, reach, i) {
      DiffCountSingle(prev, next, i);
      forall j | 0 <= j < |prev| && prev[j] != next[j]
        ensures next[j] in reach[j]
      {
        assert j == i;
      }
    }
  }

  /** `legalMove`: one pass with a counter of differing positions. */
  method LegalMove(b: Board, prev: Config, next: Config) returns (legal: bool)
    requires WellFormed(b) && ValidConfig(b, prev)
    ensures legal == IsLegalMove(b, prev, next)
  {
    ghost var reach := ReachSets(b, prev);
    if |prev| != |next| {
      return false;
    }
    var countDiff := 0;
    for i := 0 to |prev|
      invariant countDiff == DiffCount(prev[..i], next[..i])
      invariant countDiff <= 1
      invariant forall j | 0 <= j < i && prev[j] != next[j] :: next[j] in reach[j]
    {
      assert prev[..i + 1][..i] == prev[..i] && next[..i + 1][..i] == next[..i];
      if prev[i] == next[i] {
        continue;
      }
      countDiff := countDiff + 1;
      if countDiff > 1 {
        DiffCountPrefix(prev, next, i + 1);
        return false;
      }
      var reachable := ReachableContains(b, prev, i, next[i]);
      assert reach[i] == ReachableSet(b, prev[i], prev);
      if !reachable {
        return false;
      }
    }
    assert prev[..|prev|] == prev && next[..|next|] == next;
    if countDiff != 1 {
      return false;
    }
    return true;
  }

  /** reachable(prev[i], prev).contains(q) */
  method ReachableContains(b: Board, config: Config, i: nat, q: Point) returns (r: bool)
    requires WellFormed(b) && ValidConfig(b, config) && i < |config|
    ensures r <==> q in ReachableSet(b, config[i], config)
  {
    var dests := ReachableAvoiding(b, config[i], config);
    ReachableMembers(b, config[i], config, q);
    r := q in dests;
  }

  /** The configurations a slide of robot i to one of `dests` gives, in order. */
  function MovesOf(config: Config, i: nat, dests: seq<Point>, grand: Option<Config>): seq<Config>
    requires i < |config|
  {
    if |dests| == 0 then []
    else
      var dest := dests[|dests| - 1];
      var next := config[i := dest];
      MovesOf(config, i, dests[..|dests| - 1], grand)
        + (if dest != config[i] && (grand.None? || next != grand.value) then [next] else [])
  }

  /**
   * The exhaustive children of a node with configuration `config` whose parent
   * has configuration `grand` (None for the root), robots 0 .. n-1 in turn,
   * robot i sliding to each cell of `lists[i]`.
   */
  function Children(config: Config, grand: Option<Config>, lists: seq<seq<Point>>, n: nat): seq<Config>
    requires n <= |config| == |lists|
  {
    if n == 0 then []
    else Children(config, grand, lists, n - 1) + MovesOf(config, n - 1, lists[n - 1], grand)
  }

  lemma {:induction false} MovesOfMembers(config: Config, i: nat, dests: seq<Point>, grand: Option<Config>, c: Config)
    requires i < |config|
    ensures c in MovesOf(config, i, dests, grand) <==>
      && |c| == |config| && c == config[i := c[i]] && c[i] != config[i] && c[i] in dests
      && (grand.None? || c != grand.value)
  {
    if |dests| > 0 {
      var n := |dests| - 1;
      MovesOfMembers(config, i, dests[..n], grand, c);
      assert dests == dests[..n] + [dests[n]];
    }
  }

  /** A child of robot i is a move of robot i alone, into `lists[i]`, that does not return to `grand`. */
  ghost predicate ChildVia(config: Config, grand: Option<Config>, lists: seq<seq<Point>>, c: Config, i: int)
  {
    MovesOnly(config, c, i) && |lists| == |config| && c[i] in lists[i] && (grand.None? || c != grand.value)
  }

  lemma {:induction false} ChildrenSound(config: Config, grand: Option<Config>, lists: seq<seq<Point>>, n: nat, c: Config)
    requires n <= |config| == |lists|
    requires c in Children(config, grand, lists, n)
    ensures exists i | 0 <= i < n :: ChildVia(config, grand, lists, c, i)
  {
    var moves := MovesOf(config, n - 1, lists[n - 1], grand);
    if c in moves {
      MovesOfMembers(config, n - 1, lists[n - 1], grand, c);
      assert ChildVia(config, grand, lists, c, n - 1);
    } else {
      ChildrenSound(config, grand, lists, n - 1, c);
      var i :| 0 <= i < n - 1 && ChildVia(config, grand, lists, c, i);
      assert 0 <= i < n && ChildVia(config, grand, lists, c, i);
    }
  }

  lemma {:induction false} ChildrenComplete(config: Config, grand: Option<Config>, lists: seq<seq<Point>>, n: nat, c: Config, i: int)
    requires n <= |config| == |lists|
    requires 0 <= i < n && ChildVia(config, grand, lists, c, i)
    ensures c in Children(config, grand, lists, n)
  {
    if i == n - 1 {
      MovesOfMembers(config, n - 1, lists[n - 1], grand, c);
    } else {
      ChildrenComplete(config, grand, lists, n - 1, c, i);
    }
  }

  /** Each robot's list holds exactly the cells of its reachable set. */
  lemma ListsMatchSets(b: Board, config: Config, i: int, q: Point)
    requires WellFormed(b) && ValidConfig(b, config) && 0 <= i < |config|
    ensures q in ReachLists(b, config)[i] <==> q in ReachSets(b, config)[i]
  {
    ReachableMembers(b, config[i], config, q);
  }

  /**
   * The exhaustive children are exactly the legal moves that do not return to
   * the grandparent's configuration.
   */
  lemma ChildrenAreLegalMoves(b: Board, config: Config, grand: Option<Config>, c: Config)
    requires WellFormed(b) && ValidConfig(b, config)
    ensures c in Children(config, grand, ReachLists(b, config), |config|) <==>
      IsLegalMove(b, config, c) && (grand.None? || c != grand.value)
  {
    var lists := ReachLists(b, config);
    var reach := ReachSets(b, config);
    LegalIsSingleMove(config, c, reach);
    if c in Children(config, grand, lists, |config|) {
      ChildrenSound(config, grand, lists, |config|, c);
      var i :| 0 <= i < |config| && ChildVia(config, grand, lists, c, i);
      ListsMatchSets(b, config, i, c[i]);
      assert SingleMove(config, c, reach, i);
    }
    if LegalWithin(config, c, reach) && (grand.None? || c != grand.value) {
      var i :| SingleMove(config, c, reach, i);
      ListsMatchSets(b, config, i, c[i]);
      ChildrenComplete(config, grand, lists, |config|, c, i);
    }
  }

  /** A legal move keeps every robot on the board. */
  lemma LegalMoveStaysInBounds(b: Board, prev: Config, next: Config)
    requires WellFormed(b) && ValidConfig(b, prev) && IsLegalMove(b, prev, next)
    ensures ValidConfig(b, next)
  {
  }

  /** The exhaustive expansion loop: every robot, every reachable cell other than its own. */
  method Expand(b: Board, config: Config, grand: Option<Config>) returns (children: seq<Config>)
    requires WellFormed(b) && ValidConfig(b, config)
    ensures children == Children(config, grand, ReachLists(b, config), |config|)
  {
    ghost var reach := ReachLists(b, config);
    children := [];
    for i := 0 to |config|
      invariant children == Children(config, grand, reach, i)
    {
      var dests := ReachableAvoiding(b, config[i], config);
      assert dests == reach[i];
      var moves := RobotMoves(config, i, dests, grand);
      children := children + moves;
    }
  }

  /** The inner loop of the expansion: the moves of robot i to each of `dests`. */
  method RobotMoves(config: Config, i: nat, dests: seq<Point>, grand: Option<Config>) returns (moves: seq<Config>)
    requires i < |config|
    ensures moves == MovesOf(config, i, dests, grand)
  {
    var position := config[i];
    moves := [];
    for k := 0 to |dests|
      invariant moves == MovesOf(config, i, dests[..k], grand)
    {
      assert dests[..k + 1][..k] == dests[..k];
      var dest := dests[k];
      if dest != position {
        var newConfig := config[i := dest];
        if grand.None? || newConfig != grand.value {
          moves := moves + [newConfig];
        }
      }
    }
    assert dests[..|dests|] == dests;
  }

  /** `configWithoutTarget`: every position except the target robot's, in order. */
  method WithoutIndex(config: Config, ti: nat) returns (rest: Config)
    requires ti < |config|
    ensures |rest| == |config| - 1
    ensures forall j | 0 <= j < |rest| :: rest[j] == config[if j < ti then j else j + 1]
    ensures rest == config[..ti] + config[ti + 1..]
    ensures forall p :: p in rest <==> exists j | 0 <= j < |config| && j != ti :: config[j] == p
  {
    rest := [];
    for i := 0 to |config|
      invariant |rest| == if i <= ti then i else i - 1
      invariant forall j | 0 <= j < |rest| :: rest[j] == config[if j < ti then j else j + 1]
    {
      if i == ti {
        continue;
      }
      rest := rest + [config[i]];
    }
    forall p | exists j | 0 <= j < |config| && j != ti :: config[j] == p
      ensures p in rest
    {
      var j :| 0 <= j < |config| && j != ti && config[j] == p;
      assert rest[if j < ti then j else j - 1] == p;
    }
  }
}
