/**
 * The board of Board.java: a rectangular grid of per-cell wall masks and a
 * set of target cells, with the straight-line slide queries the solver uses.
 * The mask array is final once built, so a board is a value here; the two
 * `dest` loops and the two `reachable` loops are methods proved equal to the
 * functions Slide, SlideAvoiding and ReachableOrder.
 */
module Boards {
  import opened Directions
  import opened Points
  import opened JavaHashSet

  /** dimX rows, dimY columns, masks[x][y] the wall mask of cell (x, y). */
  datatype Board = Board(dimX: nat, dimY: nat, masks: seq<seq<bv8>>, targets: set<Point>)

  /** The mask array has dimX rows of dimY cells. */
  ghost predicate Shaped(b: Board)
  {
    |b.masks| == b.dimX && forall x | 0 <= x < b.dimX :: |b.masks[x]| == b.dimY
  }

  predicate InBounds(b: Board, p: Point)
  {
    0 <= p.x < b.dimX && 0 <= p.y < b.dimY
  }

  /** isConnected(p, dir): the bit for dir is set in p's mask. */
  predicate IsConnected(b: Board, p: Point, d: Dir): (r: bool)
    requires Shaped(b) && InBounds(b, p)
    ensures r <==> (b.masks[p.x][p.y] | Bit(d)) == b.masks[p.x][p.y]
    ensures b.masks[p.x][p.y] == 0 ==> !r
    ensures b.masks[p.x][p.y] & 15 == 15 ==> r
  {
    (b.masks[p.x][p.y] & Bit(d)) == Bit(d)
  }

  /**
   * No mask bit points off the grid. The grid loader guarantees it, and it is
   * what makes every slide stop.
   */
  ghost predicate WellFormed(b: Board)
  {
    && Shaped(b)
    && forall p: Point, d: Dir | OpenTowards(b, p, d) :: InBounds(b, Move(p, d))
  }

  /**
   * Every wall is seen from both sides: a cell open towards d has a neighbour
   * open back towards it. Boards read from a grid file have this property.
   */
  ghost predicate Symmetric(b: Board)
  {
    && WellFormed(b)
    && forall p: Point, d: Dir | OpenTowards(b, p, d) :: IsConnected(b, Move(p, d), Opposite(d))
  }

  /** p is a cell of the board whose mask is open towards d. */
  ghost predicate OpenTowards(b: Board, p: Point, d: Dir)
    requires Shaped(b)
  {
    InBounds(b, p) && IsConnected(b, p, d)
  }

  /**
   * isConnected(p, dir, obstacles): open towards dir and the neighbour there
   * is not occupied by one of the obstacles.
   */
  predicate IsConnectedAvoiding(b: Board, p: Point, d: Dir, obstacles: seq<Point>)
    requires Shaped(b) && InBounds(b, p)
  {
    IsConnected(b, p, d) && Move(p, d) !in obstacles
  }

  /** The number of single steps from p to the border of the grid in direction d. */
  function DistanceToEdge(b: Board, p: Point, d: Dir): nat
    requires InBounds(b, p)
  {
    if d == RIGHT then b.dimY - 1 - p.y
    else if d == UP then p.x
    else if d == LEFT then p.y
    else b.dimX - 1 - p.x
  }

  /** The cell k single steps from p in direction d. */
  function Ray(p: Point, d: Dir, k: int): Point
  {
    if d == RIGHT then Point(p.x, p.y + k)
    else if d == UP then Point(p.x - k, p.y)
    else if d == LEFT then Point(p.x, p.y - k)
    else Point(p.x + k, p.y)
  }

  /** dest(p, dir): slide from p in direction dir until a wall stops it. */
  function Slide(b: Board, p: Point, d: Dir): (r: Point)
    requires WellFormed(b) && InBounds(b, p)
    ensures InBounds(b, r) && !IsConnected(b, r, d)
    decreases DistanceToEdge(b, p, d)
  {
    if IsConnected(b, p, d) then Slide(b, Move(p, d), d) else p
  }

  /** How many cells Slide travels. */
  function SlideLength(b: Board, p: Point, d: Dir): nat
    requires WellFormed(b) && InBounds(b, p)
    decreases DistanceToEdge(b, p, d)
  {
    if IsConnected(b, p, d) then 1 + SlideLength(b, Move(p, d), d) else 0
  }

  /**
   * dest(p, dir, blocked): as Slide, but the robot also stops in front of a
   * cell that holds one of the blocked points.
   */
  function SlideAvoiding(b: Board, p: Point, d: Dir, blocked: seq<Point>): (r: Point)
    requires WellFormed(b) && InBounds(b, p)
    ensures InBounds(b, r) && !IsConnectedAvoiding(b, r, d, blocked)
    decreases DistanceToEdge(b, p, d)
  {
    if IsConnectedAvoiding(b, p, d, blocked) then SlideAvoiding(b, Move(p, d), d, blocked) else p
  }

  /** How many cells SlideAvoiding travels. */
  function AvoidingLength(b: Board, p: Point, d: Dir, blocked: seq<Point>): nat
    requires WellFormed(b) && InBounds(b, p)
    decreases DistanceToEdge(b, p, d)
  {
    if IsConnectedAvoiding(b, p, d, blocked) then 1 + AvoidingLength(b, Move(p, d), d, blocked) else 0
  }

  /**
   * A slide ends k >= 0 steps along the ray from p, and every cell it leaves on
   * the way is open in d; it stays put exactly when p is closed in d.
   */
  lemma {:induction false} SlideOnRay(b: Board, p: Point, d: Dir)
    requires WellFormed(b) && InBounds(b, p)
    ensures Slide(b, p, d) == Ray(p, d, SlideLength(b, p, d))
    ensures forall j | 0 <= j < SlideLength(b, p, d) :: InBounds(b, Ray(p, d, j)) && IsConnected(b, Ray(p, d, j), d)
    ensures Slide(b, p, d) == p <==> !IsConnected(b, p, d)
    decreases DistanceToEdge(b, p, d)
  {
    if IsConnected(b, p, d) {
      var q := Move(p, d);
      SlideOnRay(b, q, d);
      forall j | 0 <= j < SlideLength(b, p, d)
        ensures InBounds(b, Ray(p, d, j)) && IsConnected(b, Ray(p, d, j), d)
      {
        if j > 0 {
          assert Ray(p, d, j) == Ray(q, d, j - 1);
        }
      }
      assert Ray(p, d, SlideLength(b, p, d)) == Ray(q, d, SlideLength(b, q, d));
    }
  }

  /** Sliding again in the same direction from where a slide stopped goes nowhere. */
  lemma SlideIdempotent(b: Board, p: Point, d: Dir)
    requires WellFormed(b) && InBounds(b, p)
    ensures Slide(b, Slide(b, p, d), d) == Slide(b, p, d)
  {
  }

  /**
   * An obstructed slide ends on the same ray, no farther than the free slide,
   * and none of the cells it enters is one of the blocked points; so it ends on
   * a blocked point only if it never left p.
   */
  lemma {:induction false} SlideAvoidingOnRay(b: Board, p: Point, d: Dir, blocked: seq<Point>)
    requires WellFormed(b) && InBounds(b, p)
    ensures AvoidingLength(b, p, d, blocked) <= SlideLength(b, p, d)
    ensures SlideAvoiding(b, p, d, blocked) == Ray(p, d, AvoidingLength(b, p, d, blocked))
    ensures forall j | 1 <= j <= AvoidingLength(b, p, d, blocked) :: Ray(p, d, j) !in blocked
    ensures SlideAvoiding(b, p, d, blocked) == p <==> !IsConnectedAvoiding(b, p, d, blocked)
    ensures SlideAvoiding(b, p, d, blocked) != p ==> SlideAvoiding(b, p, d, blocked) !in blocked
    decreases DistanceToEdge(b, p, d)
  {
    if IsConnectedAvoiding(b, p, d, blocked) {
      var q := Move(p, d);
      SlideAvoidingOnRay(b, q, d, blocked);
      forall j | 1 <= j <= AvoidingLength(b, p, d, blocked)
        ensures Ray(p, d, j) !in blocked
      {
        assert Ray(p, d, j) == Ray(q, d, j - 1);
      }
      assert Ray(p, d, AvoidingLength(b, p, d, blocked)) == Ray(q, d, AvoidingLength(b, q, d, blocked));
    }
  }

  /**
   * Only the blocked points ahead of p matter: two obstacle lists that agree
   * on every cell of the ray beyond p give the same slide.
   */
  lemma {:induction false} SlideAvoidingAhead(b: Board, p: Point, d: Dir, c1: seq<Point>, c2: seq<Point>)
    requires WellFormed(b) && InBounds(b, p)
    requires forall k: int | k >= 1 :: Ray(p, d, k) in c1 <==> Ray(p, d, k) in c2
    ensures SlideAvoiding(b, p, d, c1) == SlideAvoiding(b, p, d, c2)
    decreases DistanceToEdge(b, p, d)
  {
    var q := Move(p, d);
    assert q == Ray(p, d, 1);
    if IsConnectedAvoiding(b, p, d, c1) {
      forall k: int | k >= 1
        ensures Ray(q, d, k) in c1 <==> Ray(q, d, k) in c2
      {
        assert Ray(q, d, k) == Ray(p, d, k + 1);
      }
      SlideAvoidingAhead(b, q, d, c1, c2);
    }
  }

  /** With nothing in the way, the obstructed slide is the free slide. */
  lemma {:induction false} SlideAvoidingNothing(b: Board, p: Point, d: Dir)
    requires WellFormed(b) && InBounds(b, p)
    ensures SlideAvoiding(b, p, d, []) == Slide(b, p, d)
    decreases DistanceToEdge(b, p, d)
  {
    if IsConnected(b, p, d) {
      SlideAvoidingNothing(b, Move(p, d), d);
    }
  }

  /** Board.dest(p, dir): the do-while loop stepping a point until the wall. */
  method Dest(b: Board, p: Point, d: Dir) returns (result: Point)
    requires WellFormed(b) && InBounds(b, p)
    ensures result == Slide(b, p, d)
  {
    if !IsConnected(b, p, d) {
      return p;
    }
    result := Point(p.x, p.y);
    while true
      invariant InBounds(b, result) && IsConnected(b, result, d)
      invariant Slide(b, result, d) == Slide(b, p, d)
      decreases DistanceToEdge(b, result, d)
    {
      result := Point(result.x + Offset(d).0, result.y + Offset(d).1);
      if !IsConnected(b, result, d) {
        return;
      }
    }
  }

  /**
   * Board.dest(p, dir, blocked): the same loop, stepping back and stopping when
   * the new cell equals one of the blocked points.
   */
  method DestAvoiding(b: Board, p: Point, d: Dir, blocked: seq<Point>) returns (result: Point)
    requires WellFormed(b) && InBounds(b, p)
    ensures result == SlideAvoiding(b, p, d, blocked)
  {
    if !IsConnected(b, p, d) {
      return p;
    }
    result := Point(p.x, p.y);
    while true
      invariant InBounds(b, result) && IsConnected(b, result, d)
      invariant SlideAvoiding(b, result, d, blocked) == SlideAvoiding(b, p, d, blocked)
      decreases DistanceToEdge(b, result, d)
    {
      result := Point(result.x + Offset(d).0, result.y + Offset(d).1);
      for i := 0 to |blocked|
        invariant forall k | 0 <= k < i :: blocked[k] != result
      {
        if result == blocked[i] {
          result := Point(result.x - Offset(d).0, result.y - Offset(d).1);
          return;
        }
      }
      if !IsConnected(b, result, d) {
        return;
      }
    }
  }

  /** The four obstructed destinations, in DIRECTIONS order. */
  function Dests(b: Board, p: Point, blocked: seq<Point>): (r: seq<Point>)
    requires WellFormed(b) && InBounds(b, p)
    ensures |r| == 4
    ensures forall d: Dir :: r[d] == SlideAvoiding(b, p, d, blocked)
  {
    seq(4, d requires 0 <= d < 4 => SlideAvoiding(b, p, d, blocked))
  }

  /** reachable(p, blocked) as the HashSet it returns, listed in iteration order. */
  function ReachableOrder(b: Board, p: Point, blocked: seq<Point>): seq<Point>
    requires WellFormed(b) && InBounds(b, p)
  {
    AddAll(Dests(b, p, blocked))
  }

  /** The cells of reachable(p, blocked) as a set, without the HashSet order. */
  function ReachableSet(b: Board, p: Point, blocked: seq<Point>): set<Point>
    requires WellFormed(b) && InBounds(b, p)
  {
    set d | 0 <= d < 4 :: SlideAvoiding(b, p, d, blocked)
  }

  /** The cells of reachable(p, blocked) are the obstructed slides of the four directions. */
  lemma ReachableMembers(b: Board, p: Point, blocked: seq<Point>, q: Point)
    requires WellFormed(b) && InBounds(b, p)
    ensures q in ReachableOrder(b, p, blocked) <==> exists d: Dir :: q == SlideAvoiding(b, p, d, blocked)
    ensures q in ReachableOrder(b, p, blocked) <==> q in ReachableSet(b, p, blocked)
    ensures q in ReachableOrder(b, p, blocked) ==> InBounds(b, q)
  {
    var ds := Dests(b, p, blocked);
    assert q in ReachableOrder(b, p, blocked) <==> q in ds;
    if q in ds {
      var i :| 0 <= i < 4 && ds[i] == q;
      assert q == SlideAvoiding(b, p, i, blocked);
    } else {
      forall d: Dir ensures q != SlideAvoiding(b, p, d, blocked) {
        assert ds[d] == SlideAvoiding(b, p, d, blocked);
      }
    }
  }

  /** reachable(p, blocked) holds p exactly when some direction cannot move at all. */
  lemma ReachableHoldsStart(b: Board, p: Point, blocked: seq<Point>)
    requires WellFormed(b) && InBounds(b, p)
    ensures p in ReachableOrder(b, p, blocked) <==> exists d: Dir :: !IsConnectedAvoiding(b, p, d, blocked)
  {
    ReachableMembers(b, p, blocked, p);
    if exists d: Dir :: !IsConnectedAvoiding(b, p, d, blocked) {
      var d: Dir :| !IsConnectedAvoiding(b, p, d, blocked);
      assert p == SlideAvoiding(b, p, d, blocked);
    }
    if p in ReachableOrder(b, p, blocked) {
      var d: Dir :| p == SlideAvoiding(b, p, d, blocked);
      SlideAvoidingOnRay(b, p, d, blocked);
    }
  }

  /**
   * reachable(p, blocked) holds at most four distinct cells, all on the board.
   */
  lemma ReachableFacts(b: Board, p: Point, blocked: seq<Point>)
    requires WellFormed(b) && InBounds(b, p)
    ensures |ReachableOrder(b, p, blocked)| <= 4
    ensures NoDuplicates(ReachableOrder(b, p, blocked))
    ensures forall q | q in ReachableOrder(b, p, blocked) :: InBounds(b, q)
  {
    AddAllDistinct(Dests(b, p, blocked));
    var r := ReachableOrder(b, p, blocked);
    forall q | q in r
      ensures InBounds(b, q)
    {
      ReachableMembers(b, p, blocked, q);
    }
  }

  /** Board.reachable(p, blocked): add the four obstructed destinations to a fresh HashSet. */
  method ReachableAvoiding(b: Board, p: Point, blocked: seq<Point>) returns (result: seq<Point>)
    requires WellFormed(b) && InBounds(b, p)
    ensures result == ReachableOrder(b, p, blocked)
  {
    ghost var ds := Dests(b, p, blocked);
    result := [];
    for i := 0 to |DIRECTIONS|
      invariant result == AddAll(ds[..i])
    {
      var q := DestAvoiding(b, p, DIRECTIONS[i], blocked);
      assert q == ds[i];
      AddAllStep(ds, i);
      result := Add(result, q);
    }
    assert ds[..4] == ds;
  }

  /** Board.reachable(p): the same with the free slides of Dest. */
  method Reachable(b: Board, p: Point) returns (result: seq<Point>)
    requires WellFormed(b) && InBounds(b, p)
    ensures result == ReachableOrder(b, p, [])
  {
    ghost var ds := Dests(b, p, []);
    result := [];
    for i := 0 to |DIRECTIONS|
      invariant result == AddAll(ds[..i])
    {
      var q := Dest(b, p, DIRECTIONS[i]);
      SlideAvoidingNothing(b, p, DIRECTIONS[i]);
      assert q == ds[i];
      AddAllStep(ds, i);
      result := Add(result, q);
    }
    assert ds[..4] == ds;
  }
}
