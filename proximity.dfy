/**
 * The target-proximity map of Solver.java (`endMoves`, `addToMap`): for one
 * fixed set of obstacles, the cells from which a lone robot can reach the
 * target, each with its number of moves and the next stop on the way.
 */
module Proximity {
  import opened Wrappers
  import opened Directions
  import opened Points
  import opened Boards

  /** Solver.MoveNode: a cell, its moves to the target, and the next stop on the way. */
  datatype MoveNode = MoveNode(point: Point, moves: nat, next: Option<MoveNode>)

  /** The node of the target itself. */
  function Root(target: Point): (r: MoveNode)
    ensures r.point == target && r.moves == 0 && r.next.None?
  {
    MoveNode(target, 0, None)
  }

  /**
   * The chain from n stays on the board, each link costs exactly one move,
   * and it ends at the target with no moves left.
   */
  ghost predicate ChainOk(b: Board, target: Point, n: MoveNode)
    decreases n
  {
    && InBounds(b, n.point)
    && match n.next
       case None => n.point == target && n.moves == 0
       case Some(m) => n.moves == m.moves + 1 && ChainOk(b, target, m)
  }

  /** The cells of the chain from n, n's own cell first. */
  function Chain(n: MoveNode): (r: seq<Point>)
    ensures |r| >= 1 && r[0] == n.point
    decreases n
  {
    match n.next
    case None => [n.point]
    case Some(m) => [n.point] + Chain(m)
  }

  /** A chain from a node with k moves visits k + 1 cells and ends at the target. */
  lemma {:induction false} ChainReachesTarget(b: Board, target: Point, n: MoveNode)
    requires ChainOk(b, target, n)
    ensures |Chain(n)| == n.moves + 1
    ensures Chain(n)[|Chain(n)| - 1] == target
    ensures forall i | 0 <= i < |Chain(n)| :: InBounds(b, Chain(n)[i])
    decreases n
  {
    match n.next
    case None =>
    case Some(m) =>
      ChainReachesTarget(b, target, m);
      assert Chain(n) == [n.point] + Chain(m);
  }

  /** Each link of the chain from n is one obstructed slide that moves the robot. */
  ghost predicate SlideChain(b: Board, obstacles: seq<Point>, n: MoveNode)
    requires WellFormed(b)
    decreases n
  {
    match n.next
    case None => true
    case Some(m) =>
      && InBounds(b, n.point)
      && m.point != n.point
      && (exists d: Dir :: SlideAvoiding(b, n.point, d, obstacles) == m.point)
      && SlideChain(b, obstacles, m)
  }

  /** The invariant of the map: the target's root, and a sound chain under every key. */
  ghost predicate ProximityOk(b: Board, target: Point, obstacles: seq<Point>, m: map<Point, MoveNode>)
  {
    && target in m && m[target] == Root(target)
    && forall k | k in m :: m[k].point == k && k !in obstacles && ChainOk(b, target, m[k])
  }

  /**
   * The next stop of every entry is itself in the map, at most as far from
   * the target as the link promised.
   */
  ghost predicate NextsRecorded(m: map<Point, MoveNode>)
  {
    forall k | k in m && m[k].next.Some? ::
      m[k].next.value.point in m && m[m[k].next.value.point].moves <= m[k].next.value.moves
  }

  /** k is recorded one move away from the target. */
  predicate OneMove(m: map<Point, MoveNode>, k: Point)
  {
    k in m && m[k].moves == 1
  }

  /** Every chain of the map is a sequence of real slides. */
  ghost predicate MapLinked(b: Board, obstacles: seq<Point>, m: map<Point, MoveNode>)
  {
    WellFormed(b) && forall k | k in m :: SlideChain(b, obstacles, m[k])
  }

  /**
   * The map only gets better: no key is dropped, no distance grows, and an
   * entry whose distance did not shrink is left as it was.
   */
  ghost predicate Improves(m1: map<Point, MoveNode>, m2: map<Point, MoveNode>)
  {
    forall k | k in m1 :: k in m2 && m2[k].moves <= m1[k].moves && (m2[k].moves == m1[k].moves ==> m2[k] == m1[k])
  }

  lemma ImprovesTransitive(m0: map<Point, MoveNode>, m1: map<Point, MoveNode>, m2: map<Point, MoveNode>)
    requires Improves(m0, m1) && Improves(m1, m2)
    ensures Improves(m0, m2)
  {
  }

  /** Row x of the board, columns 0 .. n-1. */
  function Row(x: int, n: nat): (r: seq<Point>)
    ensures |r| == n
  {
    seq(n, y requires 0 <= y < n => Point(x, y))
  }

  /** The cells of rows 0 .. rows-1. */
  function CellsUpTo(b: Board, rows: nat): seq<Point>
  {
    if rows == 0 then [] else CellsUpTo(b, rows - 1) + Row(rows - 1, b.dimY)
  }

  function Cells(b: Board): seq<Point>
  {
    CellsUpTo(b, b.dimX)
  }

  lemma {:induction false} CellsUpToCover(b: Board, rows: nat, p: Point)
    requires 0 <= p.x < rows && 0 <= p.y < b.dimY
    ensures p in CellsUpTo(b, rows)
  {
    if p.x == rows - 1 {
      assert Row(rows - 1, b.dimY)[p.y] == p;
    } else {
      CellsUpToCover(b, rows - 1, p);
    }
  }

  /** Every cell of the board is listed. */
  lemma CellsCover(b: Board, p: Point)
    requires InBounds(b, p)
    ensures p in Cells(b)
  {
    CellsUpToCover(b, b.dimX, p);
  }

  /** How many listed cells have no entry yet. */
  function Absent(m: map<Point, MoveNode>, cells: seq<Point>): nat
  {
    if cells == [] then 0
    else
      var n := |cells| - 1;
      Absent(m, cells[..n]) + (if cells[n] in m then 0 else 1)
  }

  /** The sum of the distances recorded for the listed cells. */
  function Potential(m: map<Point, MoveNode>, cells: seq<Point>): nat
  {
    if cells == [] then 0
    else
      var n := |cells| - 1;
      Potential(m, cells[..n]) + (if cells[n] in m then m[cells[n]].moves else 0)
  }

  /** An improvement never raises the measure (Absent, Potential) in the lexicographic order. */
  lemma {:induction false} MeasureMonotone(m1: map<Point, MoveNode>, m2: map<Point, MoveNode>, cells: seq<Point>)
    requires Improves(m1, m2)
    ensures Absent(m2, cells) <= Absent(m1, cells)
    ensures Absent(m2, cells) == Absent(m1, cells) ==> Potential(m2, cells) <= Potential(m1, cells)
  {
    if cells != [] {
      var n := |cells| - 1;
      MeasureMonotone(m1, m2, cells[..n]);
    }
  }

  /** A new key, or a strictly better entry, lowers the measure. */
  lemma {:induction false} PutDecreases(m: map<Point, MoveNode>, p: Point, node: MoveNode, cells: seq<Point>)
    requires p in cells
    requires p !in m || node.moves < m[p].moves
    ensures var m2 := m[p := node];
      || Absent(m2, cells) < Absent(m, cells)
      || (Absent(m2, cells) == Absent(m, cells) && Potential(m2, cells) < Potential(m, cells))
  {
    var m2 := m[p := node];
    var n := |cells| - 1;
    assert Improves(m, m2);
    MeasureMonotone(m, m2, cells[..n]);
    if p in cells[..n] {
      PutDecreases(m, p, node, cells[..n]);
    } else {
      assert cells[n] == p;
    }
  }

  /**
   * On a symmetric board, a robot one step beyond p in direction d slides back
   * through p and ends where a slide from p towards the opposite side ends.
   */
  lemma SlideBack(b: Board, obstacles: seq<Point>, p: Point, d: Dir)
    requires Symmetric(b) && InBounds(b, p) && p !in obstacles
    requires IsConnectedAvoiding(b, p, d, obstacles)
    ensures InBounds(b, Move(p, d))
    ensures IsConnectedAvoiding(b, Move(p, d), Opposite(d), obstacles)
    ensures SlideAvoiding(b, Move(p, d), Opposite(d), obstacles) == SlideAvoiding(b, p, Opposite(d), obstacles)
  {
    assert OpenTowards(b, p, d);
    MoveThenOpposite(p, d);
  }

  /**
   * A link from `point` to `next` is a real slide: the robot leaves `point`
   * towards d and stops at `next`'s cell, and the chain after it is made of
   * slides too.
   */
  ghost predicate LinkReady(b: Board, obstacles: seq<Point>, point: Point, d: Dir, next: MoveNode)
  {
    && WellFormed(b) && InBounds(b, point) && SlideChain(b, obstacles, next)
    && IsConnectedAvoiding(b, point, d, obstacles)
    && SlideAvoiding(b, point, d, obstacles) == next.point
  }

  /** Recording a new cell, or a strictly nearer entry, improves the map. */
  lemma PutImproves(m: map<Point, MoveNode>, node: MoveNode)
    requires node.point !in m || node.moves < m[node.point].moves
    ensures Improves(m, m[node.point := node])
  {
  }

  /** Recording a sound node for a cell other than the target keeps the invariant. */
  lemma PutKeepsOk(b: Board, target: Point, obstacles: seq<Point>, m: map<Point, MoveNode>, node: MoveNode)
    requires ProximityOk(b, target, obstacles, m)
    requires node.point != target && node.point !in obstacles && ChainOk(b, target, node)
    ensures ProximityOk(b, target, obstacles, m[node.point := node])
  {
  }

  /**
   * Recording a node whose next stop is recorded elsewhere, for a new cell or
   * nearer than before, keeps every next stop recorded.
   */
  lemma PutKeepsNexts(m: map<Point, MoveNode>, node: MoveNode)
    requires NextsRecorded(m)
    requires node.point !in m || node.moves < m[node.point].moves
    requires node.next.Some? ==> var n := node.next.value;
      n.point != node.point && n.point in m && m[n.point].moves <= n.moves
    ensures NextsRecorded(m[node.point := node])
  {
  }

  /** Recording a node whose chain is made of slides keeps every chain made of slides. */
  lemma PutKeepsLinked(b: Board, obstacles: seq<Point>, m: map<Point, MoveNode>, node: MoveNode)
    requires MapLinked(b, obstacles, m) && SlideChain(b, obstacles, node)
    ensures MapLinked(b, obstacles, m[node.point := node])
  {
  }

  /** A node whose first link is a slide that moves, in front of a chain of slides. */
  lemma LinkIsSlide(b: Board, obstacles: seq<Point>, point: Point, moves: nat, d: Dir, next: MoveNode)
    requires LinkReady(b, obstacles, point, d, next)
    ensures SlideChain(b, obstacles, MoveNode(point, moves, Some(next)))
  {
  }

  /**
   * A bounce: p is closed towards `perp` and open on the opposite side, so a
   * robot next to p on that side slides towards `perp` and stops at p.
   */
  lemma BounceStops(b: Board, obstacles: seq<Point>, p: Point, perp: Dir)
    requires Symmetric(b) && InBounds(b, p) && p !in obstacles
    requires !IsConnectedAvoiding(b, p, perp, obstacles) && IsConnectedAvoiding(b, p, Opposite(perp), obstacles)
    ensures InBounds(b, Move(p, Opposite(perp)))
    ensures IsConnectedAvoiding(b, Move(p, Opposite(perp)), Opposite(Opposite(perp)), obstacles)
    ensures SlideAvoiding(b, Move(p, Opposite(perp)), Opposite(Opposite(perp)), obstacles) == p
  {
  }

  /** k is in the map at most `moves` away from the target. */
  predicate Recorded(m: map<Point, MoveNode>, k: Point, moves: nat)
  {
    k in m && m[k].moves <= moves
  }

  /** An entry recorded at most `moves` away stays so while the map improves. */
  lemma RecordedKept(m1: map<Point, MoveNode>, m2: map<Point, MoveNode>, k: Point, moves: nat)
    requires Improves(m1, m2)
    ensures Recorded(m1, k, moves) ==> Recorded(m2, k, moves)
  {
  }

  /** addToMap's bounce condition at p: closed towards `perp`, open on the opposite side. */
  predicate BounceAt(b: Board, obstacles: seq<Point>, p: Point, perp: Dir)
    requires Shaped(b) && InBounds(b, p)
  {
    !IsConnectedAvoiding(b, p, perp, obstacles) && IsConnectedAvoiding(b, p, Opposite(perp), obstacles)
  }

  /** The bounces for the first i perpendiculars in `perps` are recorded. */
  predicate BouncedUpTo(b: Board, obstacles: seq<Point>, m: map<Point, MoveNode>, p: Point, perps: seq<Dir>, i: nat, moves: nat)
    requires Shaped(b) && InBounds(b, p) && i <= |perps|
  {
    forall k | 0 <= k < i && BounceAt(b, obstacles, p, perps[k]) :: Recorded(m, Move(p, Opposite(perps[k])), moves + 1)
  }

  /** One more perpendicular handled, with the earlier ones kept while the map improved. */
  lemma BouncesStep(b: Board, obstacles: seq<Point>, m1: map<Point, MoveNode>, m2: map<Point, MoveNode>,
                    p: Point, perps: seq<Dir>, i: nat, moves: nat)
    requires Shaped(b) && InBounds(b, p) && Improves(m1, m2) && i < |perps|
    requires BouncedUpTo(b, obstacles, m1, p, perps, i, moves)
    requires BounceAt(b, obstacles, p, perps[i]) ==> Recorded(m2, Move(p, Opposite(perps[i])), moves + 1)
    ensures BouncedUpTo(b, obstacles, m2, p, perps, i + 1, moves)
  {
    forall k | 0 <= k < i && BounceAt(b, obstacles, p, perps[k])
      ensures Recorded(m2, Move(p, Opposite(perps[k])), moves + 1)
    {
      RecordedKept(m1, m2, Move(p, Opposite(perps[k])), moves + 1);
    }
  }

  /** Once both perpendiculars have been handled, every bounce is recorded. */
  lemma BouncesDone(b: Board, obstacles: seq<Point>, m: map<Point, MoveNode>, p: Point, direction: Dir, moves: nat)
    requires Shaped(b) && InBounds(b, p)
    requires BouncedUpTo(b, obstacles, m, p, Perp(direction), 2, moves)
    ensures Bounced(b, obstacles, m, p, direction, moves)
  {
  }

  /** The collinear extension of addToMap: the next cell along `direction`, when open, is as near as p. */
  predicate Extended(b: Board, obstacles: seq<Point>, m: map<Point, MoveNode>, p: Point, direction: Dir, moves: nat)
    requires Shaped(b) && InBounds(b, p)
  {
    IsConnectedAvoiding(b, p, direction, obstacles) ==> Recorded(m, Move(p, direction), moves)
  }

  /** The bounces of addToMap: for each perpendicular with the bounce condition, the open neighbour is one move further. */
  predicate Bounced(b: Board, obstacles: seq<Point>, m: map<Point, MoveNode>, p: Point, direction: Dir, moves: nat)
    requires Shaped(b) && InBounds(b, p)
  {
    forall perp | perp in Perp(direction) && BounceAt(b, obstacles, p, perp) ::
      Recorded(m, Move(p, Opposite(perp)), moves + 1)
  }

  /** The HashMap that `endMoves` builds and `addToMap` fills, for one obstacle set. */
  class ProximityMap {
    const board: Board
    const obstacles: seq<Point>
    const target: Point
    var entries: map<Point, MoveNode>

    ghost predicate Valid()
      reads this
    {
      && WellFormed(board) && InBounds(board, target) && target !in obstacles
      && ProximityOk(board, target, obstacles, entries)
      && NextsRecorded(entries)
    }

    /** A fresh map holding only the target's root node. */
    constructor (board: Board, obstacles: seq<Point>, target: Point)
      requires WellFormed(board) && InBounds(board, target) && target !in obstacles
      ensures this.board == board && this.obstacles == obstacles && this.target == target
      ensures entries == map[target := Root(target)]
      ensures Valid() && MapLinked(board, obstacles, entries)
    {
      this.board := board;
      this.obstacles := obstacles;
      this.target := target;
      entries := map[target := Root(target)];
    }

    /**
     * addToMap: record `point` at distance `moves` with `next` as its next stop
     * unless an entry at most as far is there; then extend along `direction`
     * at the same distance, and bounce off each perpendicular wall or robot at
     * one more move. If the new link is a real slide on a symmetric board,
     * every chain of the map stays a chain of real slides.
     */
    method AddToMap(point: Point, moves: nat, direction: Dir, next: MoveNode, ghost linked: bool)
      requires Valid()
      requires InBounds(board, point) && point !in obstacles
      requires ChainOk(board, target, next) && moves == next.moves + 1
      requires next.point in entries && entries[next.point].moves <= next.moves
      requires linked ==> Symmetric(board) && MapLinked(board, obstacles, entries)
      requires linked ==> LinkReady(board, obstacles, point, Opposite(direction), next)
      modifies this
      ensures Valid()
      ensures Improves(old(entries), entries)
      ensures point in entries && entries[point].moves <= moves
      ensures old(point !in entries || entries[point].moves > moves) ==>
        Extended(board, obstacles, entries, point, direction, moves)
      ensures old(point !in entries || entries[point].moves > moves) ==>
        Bounced(board, obstacles, entries, point, direction, moves)
      ensures linked ==> MapLinked(board, obstacles, entries)
      decreases Absent(entries, Cells(board)), Potential(entries, Cells(board)), 0
    {
      if point in entries && entries[point].moves <= moves {
        return;
      }
      ghost var cells := Cells(board);
      var node := MoveNode(point, moves, Some(next));
      CellsCover(board, point);
      PutDecreases(entries, point, node, cells);
      PutKeepsOk(board, target, obstacles, entries, node);
      PutImproves(entries, node);
      PutKeepsNexts(entries, node);
      if linked {
        LinkIsSlide(board, obstacles, point, moves, Opposite(direction), next);
        PutKeepsLinked(board, obstacles, entries, node);
      }
      entries := entries[point := node];
      ghost var mid := entries;
      if IsConnectedAvoiding(board, point, direction, obstacles) {
        assert OpenTowards(board, point, direction);
        if linked {
          SlideBack(board, obstacles, point, direction);
        }
        AddToMap(Move(point, direction), moves, direction, next, linked);
        MeasureMonotone(mid, entries, cells);
      }
      ghost var afterLine := entries;
      Bounce(point, direction, node, linked);
      ImprovesTransitive(mid, afterLine, entries);
      ImprovesTransitive(old(entries), mid, entries);
      RecordedKept(afterLine, entries, Move(point, direction), moves);
    }

    /**
     * The loop over PERP[direction] in addToMap: for each perpendicular side
     * that is closed at `node`'s cell while the opposite side is open, the
     * cell on the open side reaches it in one more move.
     */
    method Bounce(point: Point, direction: Dir, node: MoveNode, ghost linked: bool)
      requires Valid()
      requires InBounds(board, point) && point !in obstacles
      requires node.point == point && ChainOk(board, target, node)
      requires point in entries && entries[point].moves <= node.moves
      requires linked ==> Symmetric(board) && MapLinked(board, obstacles, entries) && SlideChain(board, obstacles, node)
      modifies this
      ensures Valid()
      ensures Improves(old(entries), entries)
      ensures Bounced(board, obstacles, entries, point, direction, node.moves)
      ensures linked ==> MapLinked(board, obstacles, entries)
      decreases Absent(entries, Cells(board)), Potential(entries, Cells(board)), 2
    {
      ghost var cells := Cells(board);
      ghost var a0, p0 := Absent(entries, cells), Potential(entries, cells);
      var perps := Perp(direction);
      for i := 0 to 2
        invariant Valid()
        invariant Improves(old(entries), entries)
        invariant point in entries && entries[point].moves <= node.moves
        invariant Absent(entries, cells) < a0 || (Absent(entries, cells) == a0 && Potential(entries, cells) <= p0)
        invariant linked ==> MapLinked(board, obstacles, entries)
        invariant BouncedUpTo(board, obstacles, entries, point, perps, i, node.moves)
      {
        ghost var before := entries;
        BounceSide(point, perps[i], node, linked);
        ImprovesTransitive(old(entries), before, entries);
        BouncesStep(board, obstacles, before, entries, point, perps, i, node.moves);
      }
      BouncesDone(board, obstacles, entries, point, direction, node.moves);
    }

    /** One pass of that loop, for the perpendicular `perp`. */
    method BounceSide(point: Point, perp: Dir, node: MoveNode, ghost linked: bool)
      requires Valid()
      requires InBounds(board, point) && point !in obstacles
      requires node.point == point && ChainOk(board, target, node)
      requires point in entries && entries[point].moves <= node.moves
      requires linked ==> Symmetric(board) && MapLinked(board, obstacles, entries) && SlideChain(board, obstacles, node)
      modifies this
      ensures Valid()
      ensures Improves(old(entries), entries)
      ensures Absent(entries, Cells(board)) < old(Absent(entries, Cells(board)))
        || (Absent(entries, Cells(board)) == old(Absent(entries, Cells(board)))
            && Potential(entries, Cells(board)) <= old(Potential(entries, Cells(board))))
      ensures BounceAt(board, obstacles, point, perp) ==> Recorded(entries, Move(point, Opposite(perp)), node.moves + 1)
      ensures linked ==> MapLinked(board, obstacles, entries)
      decreases Absent(entries, Cells(board)), Potential(entries, Cells(board)), 1
    {
      if BounceAt(board, obstacles, point, perp) {
        assert OpenTowards(board, point, Opposite(perp));
        if linked {
          BounceStops(board, obstacles, point, perp);
        }
        ghost var before := entries;
        AddToMap(Move(point, Opposite(perp)), node.moves + 1, Opposite(perp), node, linked);
        MeasureMonotone(before, entries, Cells(board));
      }
    }

    /**
     * One step of endMoves's loop: the cell next to the target in `direction`
     * enters the map at one move, below the target's root, and every entry
     * already at one move keeps it.
     */
    method Seed(direction: Dir, ghost linked: bool)
      requires Valid() && IsConnectedAvoiding(board, target, direction, obstacles)
      requires linked ==> Symmetric(board) && MapLinked(board, obstacles, entries)
      requires linked ==> !IsConnectedAvoiding(board, target, Opposite(direction), obstacles)
      modifies this
      ensures Valid()
      ensures OneMove(entries, Move(target, direction))
      ensures forall k | OneMove(old(entries), k) :: OneMove(entries, k)
      ensures linked ==> MapLinked(board, obstacles, entries)
    {
      assert OpenTowards(board, target, direction);
      if linked {
        SeedLink(board, obstacles, target, direction);
      }
      ghost var before := entries;
      AddToMap(Move(target, direction), 1, direction, Root(target), linked);
      SeedsKept(board, target, obstacles, before, entries);
      AwayFromTarget(board, target, entries[Move(target, direction)]);
    }
  }

  /** A node with no moves left is the target's own. */
  lemma ZeroMovesIsTarget(b: Board, target: Point, n: MoveNode)
    requires ChainOk(b, target, n) && n.moves == 0
    ensures n.point == target && n.next.None?
  {
  }

  /** An entry away from the target has a next stop, one move nearer. */
  lemma AwayFromTarget(b: Board, target: Point, n: MoveNode)
    requires ChainOk(b, target, n) && n.point != target
    ensures n.next.Some? && n.moves == n.next.value.moves + 1
  {
  }

  /** A robot at p reaches q != p in one obstructed slide. */
  ghost predicate SlideStep(b: Board, obstacles: seq<Point>, p: Point, q: Point)
    requires WellFormed(b)
  {
    InBounds(b, p) && q != p && exists d: Dir :: SlideAvoiding(b, p, d, obstacles) == q
  }

  /** Every consecutive pair of cells is one obstructed slide that moves the robot. */
  ghost predicate IsRoute(b: Board, obstacles: seq<Point>, cells: seq<Point>)
    requires WellFormed(b)
  {
    forall i | 0 <= i < |cells| - 1 :: SlideStep(b, obstacles, cells[i], cells[i + 1])
  }

  /** The i-th link of a chain of slides is one slide that moves the robot. */
  lemma {:induction false} ChainLink(b: Board, obstacles: seq<Point>, n: MoveNode, i: nat)
    requires WellFormed(b) && SlideChain(b, obstacles, n) && i < |Chain(n)| - 1
    ensures SlideStep(b, obstacles, Chain(n)[i], Chain(n)[i + 1])
    decreases n
  {
    match n.next
    case None =>
    case Some(m) =>
      assert Chain(n) == [n.point] + Chain(m);
      if i > 0 {
        ChainLink(b, obstacles, m, i - 1);
      }
  }

  /** A chain of slides lists a route. */
  lemma SlideChainIsRoute(b: Board, obstacles: seq<Point>, n: MoveNode)
    requires WellFormed(b) && SlideChain(b, obstacles, n)
    ensures IsRoute(b, obstacles, Chain(n))
  {
  }

  /**
   * In a map whose chains are made of slides, the chain under a key with k
   * moves is a route of k slides from that key to the target.
   */
  lemma EntryIsRoute(b: Board, target: Point, obstacles: seq<Point>, m: map<Point, MoveNode>, k: Point)
    requires ProximityOk(b, target, obstacles, m) && MapLinked(b, obstacles, m) && k in m
    ensures var c := Chain(m[k]);
      && |c| == m[k].moves + 1 && c[0] == k && c[|c| - 1] == target
      && IsRoute(b, obstacles, c)
  {
    ChainReachesTarget(b, target, m[k]);
    SlideChainIsRoute(b, obstacles, m[k]);
  }

  /**
   * Along each axis the target is closed on at least one side, so a robot
   * that enters it from any side stops there.
   */
  ghost predicate StopsAtTarget(b: Board, target: Point, obstacles: seq<Point>)
    requires WellFormed(b) && InBounds(b, target)
  {
    && !(IsConnectedAvoiding(b, target, RIGHT, obstacles) && IsConnectedAvoiding(b, target, LEFT, obstacles))
    && !(IsConnectedAvoiding(b, target, UP, obstacles) && IsConnectedAvoiding(b, target, DOWN, obstacles))
  }

  /** The far side of the target is closed whenever the near side is open. */
  lemma StopsAtTargetFrom(b: Board, target: Point, obstacles: seq<Point>, d: Dir)
    requires WellFormed(b) && InBounds(b, target) && StopsAtTarget(b, target, obstacles)
    requires IsConnectedAvoiding(b, target, d, obstacles)
    ensures !IsConnectedAvoiding(b, target, Opposite(d), obstacles)
  {
  }

  /** target is not among the obstacles (the first loop of endMoves). */
  method TargetFree(target: Point, obstacles: seq<Point>) returns (free: bool)
    ensures free <==> target !in obstacles
  {
    for i := 0 to |obstacles|
      invariant target !in obstacles[..i]
    {
      if obstacles[i] == target {
        return false;
      }
    }
    assert obstacles[..|obstacles|] == obstacles;
    return true;
  }

  /**
   * endMoves(configuration) as written: no map when a robot stands on the
   * target; otherwise the target's root, and every cell next to the target on
   * an open side at one move, whether or not a robot coming from there would
   * stop on the target.
   */
  method EndMoves(b: Board, target: Point, obstacles: seq<Point>) returns (endMoves: map<Point, MoveNode>)
    requires WellFormed(b) && InBounds(b, target)
    ensures target in obstacles ==> endMoves == map[]
    ensures target !in obstacles ==> ProximityOk(b, target, obstacles, endMoves) && NextsRecorded(endMoves)
    ensures target !in obstacles ==>
      forall d: Dir | IsConnectedAvoiding(b, target, d, obstacles) ::
        Move(target, d) in endMoves && endMoves[Move(target, d)].moves == 1
    ensures target !in obstacles && Symmetric(b) && StopsAtTarget(b, target, obstacles) ==>
      MapLinked(b, obstacles, endMoves)
  {
    var free := TargetFree(target, obstacles);
    if !free {
      return map[];
    }
    var pm := new ProximityMap(b, obstacles, target);
    ghost var linked := Symmetric(b) && StopsAtTarget(b, target, obstacles);
    for i := 0 to |DIRECTIONS|
      invariant pm.Valid() && pm.board == b && pm.obstacles == obstacles && pm.target == target
      invariant forall d: Dir | d < i && IsConnectedAvoiding(b, target, d, obstacles) ::
        OneMove(pm.entries, Move(target, d))
      invariant linked ==> MapLinked(b, obstacles, pm.entries)
    {
      var dir := DIRECTIONS[i];
      assert dir == i;
      if IsConnectedAvoiding(b, target, dir, obstacles) {
        if linked {
          StopsAtTargetFrom(b, target, obstacles, dir);
        }
        pm.Seed(dir, linked);
      }
    }
    endMoves := pm.entries;
  }

  /**
   * endMoves as intended: a cell next to the target becomes a one-move entry
   * only when a robot sliding from it onto the target stops there, that is
   * when the target's far side is closed.
   */
  method EndMovesStopping(b: Board, target: Point, obstacles: seq<Point>) returns (endMoves: map<Point, MoveNode>)
    requires WellFormed(b) && InBounds(b, target)
    ensures target in obstacles ==> endMoves == map[]
    ensures target !in obstacles ==> ProximityOk(b, target, obstacles, endMoves) && NextsRecorded(endMoves)
    ensures target !in obstacles ==>
      forall d: Dir | IsConnectedAvoiding(b, target, d, obstacles) && !IsConnectedAvoiding(b, target, Opposite(d), obstacles) ::
        Move(target, d) in endMoves && endMoves[Move(target, d)].moves == 1
    ensures Symmetric(b) ==> MapLinked(b, obstacles, endMoves)
  {
    var free := TargetFree(target, obstacles);
    if !free {
      return map[];
    }
    var pm := new ProximityMap(b, obstacles, target);
    ghost var linked := Symmetric(b);
    for i := 0 to |DIRECTIONS|
      invariant pm.Valid() && pm.board == b && pm.obstacles == obstacles && pm.target == target
      invariant forall d: Dir | d < i && IsConnectedAvoiding(b, target, d, obstacles)
          && !IsConnectedAvoiding(b, target, Opposite(d), obstacles) ::
        OneMove(pm.entries, Move(target, d))
      invariant linked ==> MapLinked(b, obstacles, pm.entries)
    {
      var dir := DIRECTIONS[i];
      assert dir == i;
      if IsConnectedAvoiding(b, target, dir, obstacles) && !IsConnectedAvoiding(b, target, Opposite(dir), obstacles) {
        pm.Seed(dir, linked);
      }
    }
    endMoves := pm.entries;
  }

  /** A robot one cell off the target slides back onto it and stops when the far side is closed. */
  lemma SeedLink(b: Board, obstacles: seq<Point>, target: Point, d: Dir)
    requires Symmetric(b) && InBounds(b, target) && target !in obstacles
    requires IsConnectedAvoiding(b, target, d, obstacles) && !IsConnectedAvoiding(b, target, Opposite(d), obstacles)
    ensures LinkReady(b, obstacles, Move(target, d), Opposite(d), Root(target))
  {
  }

  /** Seeds recorded at one move stay at one move while the map improves. */
  lemma SeedsKept(b: Board, target: Point, obstacles: seq<Point>, m1: map<Point, MoveNode>, m2: map<Point, MoveNode>)
    requires ProximityOk(b, target, obstacles, m1) && ProximityOk(b, target, obstacles, m2) && Improves(m1, m2)
    ensures forall k | OneMove(m1, k) :: OneMove(m2, k)
  {
  }
}
