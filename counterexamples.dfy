/**
 * A board on which endMoves (Solver.java) seeds the proximity map with a cell
 * from which the target cannot be reached: a 3x3 board without walls whose
 * target is the centre cell. Every side of the centre is open, so no slide
 * ever ends there, yet the centre's four neighbours enter the map at one move.
 */
module Counterexamples {
  import opened Wrappers
  import opened Directions
  import opened Points
  import opened Boards
  import opened BoardLoading
  import opened Proximity
  import opened Configurations
  import opened Search

  const CENTRE := Point(1, 1)

  /** The board file: no wall character anywhere, an 'X' in the centre cell. */
  function OpenGrid(): (g: seq<seq<char>>)
    ensures GridShaped(g, 3, 3)
  {
    seq(5, r => seq(5, c => if r == 2 && c == 2 then 'X' else '.'))
  }

  /** The board the constructor loads from OpenGrid. */
  function OpenBoard(): (b: Board)
    ensures Symmetric(b) && b.dimX == 3 && b.dimY == 3
  {
    LoadedSymmetric(OpenGrid(), 3, 3, {CENTRE});
    Board(3, 3, LoadedMasks(OpenGrid(), 3, 3), {CENTRE})
  }

  /** The centre is open on all four sides. */
  lemma CentreOpen(d: Dir)
    ensures IsConnectedAvoiding(OpenBoard(), CENTRE, d, [])
  {
  }

  /** No slide on the open board, from any cell in any direction, stops in the centre. */
  lemma CentreIsNeverAStop(p: Point, d: Dir)
    requires InBounds(OpenBoard(), p)
    ensures SlideAvoiding(OpenBoard(), p, d, []) != CENTRE
  {
  }

  /**
   * Whatever map satisfies endMoves's contract on the open board holds the
   * cell right of the centre at one move, linked straight to the target, even
   * though no slide from that cell reaches the centre.
   */
  lemma SeedOvershoots(m: map<Point, MoveNode>)
    requires ProximityOk(OpenBoard(), CENTRE, [], m)
    requires forall d: Dir | IsConnectedAvoiding(OpenBoard(), CENTRE, d, []) ::
      Move(CENTRE, d) in m && m[Move(CENTRE, d)].moves == 1
    ensures Point(1, 2) in m && m[Point(1, 2)].moves == 1 && m[Point(1, 2)].next == Some(Root(CENTRE))
    ensures forall d: Dir :: SlideAvoiding(OpenBoard(), Point(1, 2), d, []) != CENTRE
    ensures !SlideChain(OpenBoard(), [], m[Point(1, 2)])
  {
    CentreOpen(RIGHT);
    assert Move(CENTRE, RIGHT) == Point(1, 2);
    var n := m[Point(1, 2)];
    assert ChainOk(OpenBoard(), CENTRE, n);
    ZeroMovesIsTarget(OpenBoard(), CENTRE, n.next.value);
    forall d: Dir
      ensures SlideAvoiding(OpenBoard(), Point(1, 2), d, []) != CENTRE
    {
      CentreIsNeverAStop(Point(1, 2), d);
    }
  }

  /**
   * endMoves as written, run on the open board with the target robot alone:
   * the map it returns promises the target one move away from a cell that
   * cannot reach it.
   */
  method EndMovesOvershoots() returns (m: map<Point, MoveNode>)
    ensures Point(1, 2) in m && m[Point(1, 2)].moves == 1 && m[Point(1, 2)].next == Some(Root(CENTRE))
    ensures forall d: Dir :: SlideAvoiding(OpenBoard(), Point(1, 2), d, []) != CENTRE
  {
    m := EndMoves(OpenBoard(), CENTRE, []);
    SeedOvershoots(m);
  }

  /**
   * endMoves as intended leaves the centre's neighbours out on the open board:
   * the map it returns holds only cells from which real slides reach the target.
   */
  method EndMovesStoppingOnOpenBoard() returns (m: map<Point, MoveNode>)
    ensures Point(1, 2) !in m
    ensures forall k | k in m :: IsRoute(OpenBoard(), [], Chain(m[k])) && Chain(m[k])[|Chain(m[k])| - 1] == CENTRE
  {
    m := EndMovesStopping(OpenBoard(), CENTRE, []);
    forall k | k in m
      ensures IsRoute(OpenBoard(), [], Chain(m[k])) && Chain(m[k])[|Chain(m[k])| - 1] == CENTRE
    {
      EntryIsRoute(OpenBoard(), CENTRE, [], m, k);
    }
    if Point(1, 2) in m {
      EntryIsRoute(OpenBoard(), CENTRE, [], m, Point(1, 2));
      NoRouteEndsInCentre(Chain(m[Point(1, 2)]));
    }
  }

  /** A route on the open board that ends in the centre is the centre alone. */
  lemma NoRouteEndsInCentre(cells: seq<Point>)
    requires |cells| >= 1 && cells[|cells| - 1] == CENTRE
    requires IsRoute(OpenBoard(), [], cells)
    ensures cells == [CENTRE]
  {
    if |cells| > 1 {
      var i := |cells| - 2;
      assert SlideStep(OpenBoard(), [], cells[i], cells[i + 1]);
      var d: Dir :| SlideAvoiding(OpenBoard(), cells[i], d, []) == CENTRE;
      CentreIsNeverAStop(cells[i], d);
    }
  }

  /** On any board, the legal moves of a lone robot are its free slides. */
  lemma LoneRobotSlides(b: Board, prev: Config, next: Config) returns (d: Dir)
    requires WellFormed(b) && |prev| == 1 && InBounds(b, prev[0])
    requires IsLegalMove(b, prev, next)
    ensures |next| == 1 && next[0] == SlideAvoiding(b, prev[0], d, [])
  {
    var reach := ReachSets(b, prev);
    LegalIsSingleMove(prev, next, reach);
    var i :| SingleMove(prev, next, reach, i);
    assert next[0] in ReachableSet(b, prev[0], prev);
    d :| next[0] == SlideAvoiding(b, prev[0], d, prev);
    OwnCellIgnored(b, prev, 0, [], d);
  }

  /** A lone robot on the open board never moves into the centre. */
  lemma LoneRobotAvoidsCentre(prev: Config, next: Config)
    requires |prev| == 1 && InBounds(OpenBoard(), prev[0])
    requires IsLegalMove(OpenBoard(), prev, next)
    ensures |next| == 1 && next[0] != CENTRE
  {
    var d := LoneRobotSlides(OpenBoard(), prev, next);
    CentreIsNeverAStop(prev[0], d);
  }

  /**
   * On any board, a lone robot whose every slide misses cell t never reaches
   * t along a legal path that starts elsewhere.
   */
  lemma {:induction false} LonePathAvoids(b: Board, t: Point, p: seq<Config>)
    requires WellFormed(b) && |p| >= 1 && |p[0]| == 1 && p[0][0] != t
    requires forall q: Point, d: Dir | InBounds(b, q) :: SlideAvoiding(b, q, d, []) != t
    requires LegalPath(b, p)
    ensures |p[|p| - 1]| == 1 && p[|p| - 1][0] != t
    decreases |p|
  {
    if |p| > 1 {
      var front := p[..|p| - 1];
      assert LegalPath(b, front);
      LonePathAvoids(b, t, front);
      assert front[|front| - 1] == p[|p| - 2];
      var d := LoneRobotSlides(b, p[|p| - 2], p[|p| - 1]);
    }
  }

  /** No legal path of a lone robot starting off the centre of the open board ends in the centre. */
  lemma NoLegalPathEndsInCentre(p: seq<Config>)
    requires |p| >= 1 && |p[0]| == 1 && p[0][0] != CENTRE
    requires LegalPath(OpenBoard(), p)
    ensures |p[|p| - 1]| == 1 && p[|p| - 1][0] != CENTRE
  {
    var b := OpenBoard();
    forall q: Point, d: Dir | InBounds(b, q)
      ensures SlideAvoiding(b, q, d, []) != CENTRE
    {
      CentreIsNeverAStop(q, d);
    }
    LonePathAvoids(b, CENTRE, p);
  }

  /** A path from the centre's left neighbour into the centre is not a sequence of legal moves. */
  lemma IntoCentreIsIllegal(p: seq<Config>)
    requires |p| >= 1 && p[0] == [Point(1, 0)] && p[|p| - 1] == [CENTRE]
    ensures !LegalPath(OpenBoard(), p)
  {
    if LegalPath(OpenBoard(), p) {
      NoLegalPathEndsInCentre(p);
    }
  }

  /** The map endMoves builds as written holds the centre's left neighbour. */
  lemma LeftNeighbourSeeded(m: map<Point, MoveNode>)
    requires ShortcutMap(OpenBoard(), CENTRE, [], m, true)
    ensures Point(1, 0) in m
  {
    CentreOpen(LEFT);
    assert Move(CENTRE, LEFT) == Point(1, 0);
  }

  /** A lone robot at the left border stops on its own cell when it slides left. */
  lemma LeftNeighbourStops()
    ensures Point(1, 0) in ReachableOrder(OpenBoard(), Point(1, 0), [Point(1, 0)])
  {
    var b := OpenBoard();
    assert !IsConnectedAvoiding(b, Point(1, 0), LEFT, [Point(1, 0)]) by {
      assert !InBounds(b, Move(Point(1, 0), LEFT));
    }
    ReachableHoldsStart(b, Point(1, 0), [Point(1, 0)]);
  }

  /** The left neighbour is among its own destinations and in the seeded map, so the shortcut fires. */
  lemma LeftNeighbourFires(m: map<Point, MoveNode>)
    requires ShortcutMap(OpenBoard(), CENTRE, [], m, true)
    ensures exists q | q in ReachableOrder(OpenBoard(), Point(1, 0), [Point(1, 0)]) :: q in m
  {
    LeftNeighbourSeeded(m);
    LeftNeighbourStops();
  }

  /**
   * Whatever the shortcut answers with a seeded map on this puzzle, it
   * answers with a node, and that node's path is not a legal one.
   */
  lemma ShortcutFiresIllegally(solved: Option<Node>, m: map<Point, MoveNode>)
    requires ShortcutMap(OpenBoard(), CENTRE, [], m, true)
    requires solved.None? <==> forall q | q in ReachableOrder(OpenBoard(), Point(1, 0), [Point(1, 0)]) :: q !in m
    requires solved.Some? ==> solved.value.configuration == [CENTRE] && Path(solved.value)[0] == [Point(1, 0)]
    ensures solved.Some? && !LegalPath(OpenBoard(), Path(solved.value))
  {
    LeftNeighbourFires(m);
    IntoCentreIsIllegal(Path(solved.value));
  }

  /**
   * The shortcut as written, for a lone robot left of the centre of the open
   * board: the cell it stands on is the centre's left neighbour, seeded at
   * one move, so the shortcut answers at once with a path into the centre
   * that no sequence of legal moves can take.
   */
  method ShortcutOvershoots() returns (solved: Option<Node>)
    ensures solved.Some?
    ensures Path(solved.value)[0] == [Point(1, 0)] && solved.value.configuration == [CENTRE]
    ensures !LegalPath(OpenBoard(), Path(solved.value))
  {
    var b := OpenBoard();
    var start := [Point(1, 0)];
    var root := Node(start, 0, None);
    assert NodeOk(b, start, root);
    ghost var endMoves;
    solved, endMoves := Shortcut(b, CENTRE, 0, start, root, true);
    assert start[..0] + start[1..] == [];
    assert start[0 := CENTRE] == [CENTRE];
    ShortcutFiresIllegally(solved, endMoves);
  }

  /**
   * solveBruteForce as written, on the same puzzle: whatever path it returns
   * is not a sequence of legal moves, though it starts at the robot's cell
   * and ends in the centre.
   */
  method SolveOnOpenBoard(maxMoves: int, maxSteps: nat) returns (solution: Option<seq<Config>>)
    ensures solution.Some? ==>
      && |solution.value| >= 1
      && solution.value[0] == [Point(1, 0)] && solution.value[|solution.value| - 1] == [CENTRE]
    ensures solution.Some? ==> !LegalPath(OpenBoard(), solution.value)
  {
    var b := OpenBoard();
    ghost var exhausted;
    solution, exhausted := SolveBruteForce(b, CENTRE, 0, [Point(1, 0)], maxMoves, maxSteps, true);
    if solution.Some? {
      var s := solution.value;
      assert s[|s| - 1] == [CENTRE] by {
        assert |s[|s| - 1]| == 1;
      }
      IntoCentreIsIllegal(s);
    }
  }
}
