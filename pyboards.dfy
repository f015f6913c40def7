/**
 * The Python port's direction enum and coordinate value (ricochet_robots/boards.py).
 * Each enum member's value stores the NAME of its opposite, the NAMES of its two
 * perpendicular directions and its offset; `opposite` and `perp` look those
 * names up in the enum. game.py declares the identical enum again, so both
 * files share this one.
 */
module PyBoards {
  import opened Wrappers
  import J = Directions

  datatype Direction = RIGHT | UP | LEFT | DOWN

  /** The member's name, as `Direction[name]` looks it up. */
  function Name(d: Direction): string
  {
    match d
    case RIGHT => "RIGHT"
    case UP => "UP"
    case LEFT => "LEFT"
    case DOWN => "DOWN"
  }

  /** `Direction[name]`: the member called name, or a KeyError for any other string. */
  function Lookup(name: string): (r: Option<Direction>)
    ensures r.Some? ==> Name(r.value) == name
    ensures r.None? ==> forall d: Direction :: Name(d) != name
  {
    if name == "RIGHT" then Some(RIGHT)
    else if name == "UP" then Some(UP)
    else if name == "LEFT" then Some(LEFT)
    else if name == "DOWN" then Some(DOWN)
    else None
  }

  /** The enum value of each member: (opposite name, perpendicular names, offset). */
  function Value(d: Direction): (string, (string, string), (int, int))
  {
    match d
    case RIGHT => ("LEFT", ("UP", "DOWN"), (1, 0))
    case UP => ("DOWN", ("LEFT", "RIGHT"), (0, -1))
    case LEFT => ("RIGHT", ("UP", "DOWN"), (-1, 0))
    case DOWN => ("UP", ("LEFT", "RIGHT"), (0, 1))
  }

  /** Every name stored in the enum's values names a member, so `opposite` and `perp` never raise. */
  lemma StoredNamesResolve(d: Direction)
    ensures Lookup(Value(d).0).Some?
    ensures Lookup(Value(d).1.0).Some? && Lookup(Value(d).1.1).Some?
  {
  }

  /** `offset`: a unit step along one axis. */
  function Offset(d: Direction): (r: (int, int))
    ensures (r.0 == 0) != (r.1 == 0)
    ensures -1 <= r.0 <= 1 && -1 <= r.1 <= 1
  {
    Value(d).2
  }

  /** The `opposite` property: the member named by the first field of the value. */
  function Opposite(d: Direction): (r: Direction)
    ensures r != d
    ensures Offset(r) == (-Offset(d).0, -Offset(d).1)
  {
    StoredNamesResolve(d);
    Lookup(Value(d).0).value
  }

  /** The `perp` property: the members named by the second field of the value. */
  function Perp(d: Direction): (r: (Direction, Direction))
    ensures r.0 != d && r.0 != Opposite(d) && r.1 != d && r.1 != Opposite(d)
    ensures r.1 == Opposite(r.0)
    ensures d == RIGHT || d == LEFT ==> r == (UP, DOWN)
    ensures d == UP || d == DOWN ==> r == (LEFT, RIGHT)
  {
    StoredNamesResolve(d);
    (Lookup(Value(d).1.0).value, Lookup(Value(d).1.1).value)
  }

  lemma OppositeInvolution(d: Direction)
    ensures Opposite(Opposite(d)) == d
  {
  }

  /** Opposite directions share their perpendicular pair. */
  lemma PerpOfOpposite(d: Direction)
    ensures Perp(Opposite(d)) == Perp(d)
  {
  }

  /** The Java index of the same compass direction. */
  function JavaIndex(d: Direction): (r: J.Dir)
  {
    match d
    case RIGHT => J.RIGHT
    case UP => J.UP
    case LEFT => J.LEFT
    case DOWN => J.DOWN
  }

  /**
   * The Python tables agree with the Java ones on opposites and perpendiculars,
   * but every Python offset is the Java (row, column) offset with its two
   * components swapped: `move(RIGHT)` adds one to a Python point's `row`.
   */
  lemma AgreesWithJava(d: Direction)
    ensures JavaIndex(Opposite(d)) == J.Opposite(JavaIndex(d))
    ensures [JavaIndex(Perp(d).0), JavaIndex(Perp(d).1)] == J.Perp(JavaIndex(d))
    ensures Offset(d) == (J.Offset(JavaIndex(d)).1, J.Offset(JavaIndex(d)).0)
  {
  }

  /** The Python coordinate value (boards.py `Point`). */
  datatype Point = Point(row: int, col: int)

  /** What `__eq__` may be handed: a Point or any other Python object. */
  datatype PyObject = PointObject(point: Point) | OtherObject

  /** `Point.__eq__`: an instance check, then both coordinates. */
  function Equals(p: Point, other: PyObject): (r: bool)
    ensures r <==> other == PointObject(p)
    ensures other.OtherObject? ==> !r
  {
    other.PointObject? && p.row == other.point.row && p.col == other.point.col
  }

  lemma EqualsIsEquivalence(p: Point, q: Point, s: Point)
    ensures Equals(p, PointObject(p))
    ensures Equals(p, PointObject(q)) == Equals(q, PointObject(p))
    ensures Equals(p, PointObject(q)) && Equals(q, PointObject(s)) ==> Equals(p, PointObject(s))
  {
  }

  /** The modulus of CPython's integer hash on 64-bit builds, 2^61 - 1. */
  const HASH_MODULUS: int := 0x1FFF_FFFF_FFFF_FFFF

  /**
   * `hash(n)` for a Python int: the absolute value reduced modulo HASH_MODULUS,
   * carrying the sign, with -1 (reserved for errors) replaced by -2.
   */
  function IntHash(n: int): (h: int)
    ensures h != -1
    ensures -HASH_MODULUS < h < HASH_MODULUS
    ensures 0 <= n < HASH_MODULUS ==> h == n
    ensures -HASH_MODULUS < n < 0 ==> h == (if n == -1 then -2 else n)
    ensures n < 0 ==> h <= 0
  {
    var m := if n >= 0 then n % HASH_MODULUS else -((-n) % HASH_MODULUS);
    if m == -1 then -2 else m
  }

  /** How far n is from the sign-extension fixpoints 0 and -1. */
  function Magnitude(n: int): nat
  {
    if n < 0 then -n - 1 else n
  }

  /** Python's `^` on ints: bitwise exclusive or of the two's-complement expansions. */
  function IntXor(a: int, b: int): int
    decreases Magnitude(a) + Magnitude(b)
  {
    if (a == 0 || a == -1) && (b == 0 || b == -1) then
      (if a == b then 0 else -1)
    else
      2 * IntXor(a / 2, b / 2) + (if a % 2 == b % 2 then 0 else 1)
  }

  lemma {:induction false} XorCommutative(a: int, b: int)
    ensures IntXor(a, b) == IntXor(b, a)
    decreases Magnitude(a) + Magnitude(b)
  {
    if !((a == 0 || a == -1) && (b == 0 || b == -1)) {
      XorCommutative(a / 2, b / 2);
    }
  }

  lemma {:induction false} XorSelf(a: int)
    ensures IntXor(a, a) == 0
    decreases Magnitude(a)
  {
    if !(a == 0 || a == -1) {
      XorSelf(a / 2);
    }
  }

  lemma {:induction false} XorZero(a: int)
    ensures IntXor(a, 0) == a
    decreases Magnitude(a)
  {
    if !(a == 0 || a == -1) {
      XorZero(a / 2);
    }
  }

  /** `Point.__hash__`: the exclusive or of the two coordinates' hashes. */
  function Hash(p: Point): (r: int)
    ensures p.row == p.col ==> r == 0
    ensures 0 <= p.row < HASH_MODULUS && p.col == 0 ==> r == p.row
  {
    XorSelf(IntHash(p.row));
    XorZero(IntHash(p.row));
    IntXor(IntHash(p.row), IntHash(p.col))
  }

  /** Points that `__eq__` calls equal hash alike, as a dict and a set require. */
  lemma EqualPointsEqualHash(p: Point, q: Point)
    requires Equals(p, PointObject(q))
    ensures Hash(p) == Hash(q)
  {
  }

  /** The hash ignores the order of the coordinates: a point and its mirror image collide. */
  lemma HashCollisions(p: Point)
    ensures Hash(Point(p.col, p.row)) == Hash(p)
  {
    XorCommutative(IntHash(p.row), IntHash(p.col));
  }

  /** `Point.move`: a new point displaced by the direction's offset. */
  function Move(p: Point, d: Direction): (r: Point)
    ensures (r.row - p.row, r.col - p.col) == Offset(d)
    ensures !Equals(r, PointObject(p))
  {
    Point(p.row + Offset(d).0, p.col + Offset(d).1)
  }

  lemma MoveThenOpposite(p: Point, d: Direction)
    ensures Equals(Move(Move(p, d), Opposite(d)), PointObject(p))
  {
  }
}
