/** The Java coordinate value (Point.java): row x, column y. */
module Points {
  import opened Directions

  datatype Point = Point(x: int, y: int)

  /** What `equals(Object)` may be handed: null, a Point, or any other object. */
  datatype JavaObject = Null | PointObject(point: Point) | OtherObject

  /** Point.equals: true exactly for a Point with the same two coordinates. */
  function EqualsObject(p: Point, obj: JavaObject): (r: bool)
    ensures r <==> obj == PointObject(p)
  {
    match obj
    case PointObject(that) => p.x == that.x && p.y == that.y
    case _ => false
  }

  lemma EqualsReflexive(p: Point)
    ensures EqualsObject(p, PointObject(p))
  {
  }

  lemma EqualsSymmetric(p: Point, q: Point)
    ensures EqualsObject(p, PointObject(q)) == EqualsObject(q, PointObject(p))
  {
  }

  /** The 32-bit two's-complement pattern of a Java int. */
  function Int32Bits(n: int): bv32
  {
    (n % 0x1_0000_0000) as bv32
  }

  /** Point.hashCode: x ^ y on 32-bit ints. */
  function HashCode(p: Point): (r: bv32)
    ensures p.x == p.y ==> r == 0
    ensures 0 <= p.x < 0x8000_0000 && p.y == 0 ==> r == p.x as bv32
  {
    Int32Bits(p.x) ^ Int32Bits(p.y)
  }

  /** -1 is the all-ones 32-bit pattern. */
  lemma MinusOneBits()
    ensures Int32Bits(-1) == 0xFFFF_FFFF
  {
    assert -1 % 0x1_0000_0000 == 0xFFFF_FFFF;
  }

  /** A negative coordinate wraps: Point(-1, 0) hashes to the all-ones pattern. */
  lemma HashCodeOfMinusOne()
    ensures HashCode(Point(-1, 0)) == 0xFFFF_FFFF
  {
    MinusOneBits();
  }

  lemma EqualPointsEqualHash(p: Point, q: Point)
    requires EqualsObject(p, PointObject(q))
    ensures HashCode(p) == HashCode(q)
  {
  }

  /** Point.move(dir): a new point one step in direction dir. */
  function Move(p: Point, dir: Dir): (r: Point)
    ensures (r.x - p.x, r.y - p.y) == Offset(dir)
    ensures r != p
  {
    Point(p.x + Offset(dir).0, p.y + Offset(dir).1)
  }

  /** Point.move(dirX, dirY): the row step of dirX and the column step of dirY. */
  function MoveXY(p: Point, dirX: Dir, dirY: Dir): (r: Point)
    ensures r.x == Move(p, dirX).x && r.y == Move(p, dirY).y
  {
    Point(p.x + Offset(dirX).0, p.y + Offset(dirY).1)
  }

  lemma MoveThenOpposite(p: Point, d: Dir)
    ensures Move(Move(p, d), Opposite(d)) == p
  {
  }

  lemma MoveXYDiagonal(p: Point, d: Dir)
    ensures MoveXY(p, d, d) == Move(p, d)
  {
  }
}
