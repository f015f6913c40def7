# Ricochet Robots: a verified model of the board and the solver

Ricochet Robots is a puzzle on a square grid of cells separated by walls.
Several robots stand on the grid. A robot moves by sliding in one of four
directions until a wall or another robot stops it. The goal is to bring one
chosen robot onto a target cell in as few moves as possible.

This project models the Java implementation (package
`info.riemannhypothesis.ricochetrobots`) and the direction and coordinate
helpers of its later Python port (`ricochet_robots`). The Java side has three
parts:

- **Point.java**: a coordinate value with structural equality and offset moves.
- **Board.java**: per-cell 4-bit wall masks read from a character grid, and
  two queries built on them. `dest` slides a robot in a straight line, and the
  overload also stops in front of blocked cells. `reachable` collects the four
  slide destinations in a `HashSet`.
- **Solver.java**: a breadth-first search over robot configurations. Before
  expanding a node, the search tries a shortcut. The shortcut looks the target
  robot's destinations up in a *proximity map*: for the other robots standing
  still, it records each cell from which a lone robot can reach the target,
  with the number of moves and the next stop. `endMoves` builds the map and
  `addToMap` fills it recursively. `legalMove` checks that two consecutive
  configurations are one slide apart.

The model's modules follow those files:

| module | file | models |
|---|---|---|
| `Directions` | directions.dfy | direction indices, mask bits, offsets, `OPPOSITE` and `PERP` |
| `Points` | points.dfy | `Point.equals`, `hashCode`, both `move`s |
| `JavaHashSet` | java_hashset.dfy | the iteration order of the `HashSet<Point>` that `reachable` returns |
| `Boards` | boards.dfy | `isConnected`, both `dest`s (loops proved equal to recursive slide functions), both `reachable`s |
| `BoardLoading` | board_loading.dfy | the grid-to-mask loops of `Board(File)`, and `Board(int)` |
| `Configurations` | configurations.dfy | `legalMove` and the exhaustive expansion of a node |
| `Proximity` | proximity.dfy | `MoveNode`, `endMoves`, and `addToMap` as a class whose map field is updated in place |
| `Search` | search.dfy | `Node`, the shortcut, `solveBruteForce` and the `Solver` object |
| `Counterexamples` | counterexamples.dfy | a concrete board on which `endMoves` as written goes wrong (see Findings) |
| `PyBoards` | pyboards.dfy | boards.py: `Direction` and `Point` |
| `PyGame` | pygame.dfy | game.py: `Robot`, `Tile`, and `Board.__init__` / `blocked` |

What is proved, in short:

- Every slide ends on the ray from its start, at a cell closed in that
  direction. A second slide does not move. A slide that avoids obstacles stops
  no later and passes over none of them.
- The parsed board is well formed: no wall bit points off the grid, which is
  what makes every slide terminate. Every opening is also seen from both
  sides.
- `legalMove` accepts exactly the pairs where one robot moved to one of its
  slide destinations.
- Every child that the exhaustive expansion produces is a legal move. The
  children are exactly those legal moves that do not return to the
  grandparent.
- `addToMap` only ever improves the map and terminates. Every chain in the map
  ends at the target and costs one move per link.
- With the corrected `endMoves` (see Findings), every link of every chain is a
  real slide. So every path the solver returns starts at the initial
  configuration, ends with the target robot on the target, and consists of
  legal moves only. This holds both for the exhaustive steps and for the
  shortcut steps.
- The search queue always holds nodes of one level, or of two adjacent
  levels.
- The search is complete: when it ends without spending its step budget and
  finds nothing, no sequence of at most `maxMoves` legal moves brings the
  target robot onto the target.

Solver.java uses `Board.OPPOSITE`, `Board.PERP`, `getWidth` and a
three-argument `isConnected(p, dir, obstacles)`. Board.java does not define
them. They are modelled as follows:

- `OPPOSITE[d]` is `(d + 2) % 4`.
- `PERP[d]` is the two perpendicular directions, in the Python enum's order.
- `isConnected(p, dir, obstacles)` means "open towards `dir`, and the
  neighbour there is not an obstacle". `dest(p, dir, blocked)` stops by the
  same rule.

Where the system's documentation and its code disagree, the model follows the
code:

- The shortcut runs before the `maxMoves` bound is checked. So with
  `maxMoves = 0` the start can still be solved through the proximity map.
- A slide that avoids obstacles is not in general one of the unobstructed
  destinations (or the start). A robot can stop in front of an obstacle
  midway. No such inclusion is claimed.

## Model

| member | source | states |
|---|---|---|
| Directions.Bit | src/info/riemannhypothesis/ricochetrobots/Board.java:26-31 | each direction's mask bit is a single set bit among the low four |
| Directions.Offset | src/info/riemannhypothesis/ricochetrobots/Board.java:32-33 | each offset is a unit step along exactly one axis |
| Directions.Opposite | src/info/riemannhypothesis/ricochetrobots/Solver.java:233-237 | the opposite direction differs from d, its offset is d's negated, and its mask bit differs |
| Directions.Perp | src/info/riemannhypothesis/ricochetrobots/Solver.java:232 | two directions that are each other's opposite; neither is d or d's opposite; every other direction is among them |
| Directions.OppositeInvolution | src/info/riemannhypothesis/ricochetrobots/Solver.java:234-236 | the opposite of the opposite is the direction itself |
| Points.EqualsObject | src/info/riemannhypothesis/ricochetrobots/Point.java:13-22 | equals holds exactly for a Point with the same coordinates; never for null or another class |
| Points.EqualsReflexive | src/info/riemannhypothesis/ricochetrobots/Point.java:14-16 | every point equals itself |
| Points.EqualsSymmetric | src/info/riemannhypothesis/ricochetrobots/Point.java:17-21 | p equals q exactly when q equals p |
| Points.HashCode | src/info/riemannhypothesis/ricochetrobots/Point.java:25-27 | x ^ y on 32-bit ints: a diagonal point hashes to 0, and Point(x, 0) with 0 <= x < 2^31 hashes to x |
| Points.MinusOneBits | src/info/riemannhypothesis/ricochetrobots/Point.java:25-27 | the int -1 is the all-ones 32-bit pattern |
| Points.HashCodeOfMinusOne | src/info/riemannhypothesis/ricochetrobots/Point.java:25-27 | a negative coordinate wraps: Point(-1, 0) hashes to the all-ones pattern |
| Points.EqualPointsEqualHash | src/info/riemannhypothesis/ricochetrobots/Point.java:25-27 | equal points have equal 32-bit hash codes |
| Points.Move | src/info/riemannhypothesis/ricochetrobots/Point.java:29-32 | the new point differs from the old by exactly OFFSETS_DIR[dir], so it is never the old point |
| Points.MoveXY | src/info/riemannhypothesis/ricochetrobots/Point.java:34-37 | the row comes from moving by dirX, the column from moving by dirY |
| Points.MoveThenOpposite | src/info/riemannhypothesis/ricochetrobots/Point.java:29-32 | moving in d and then in the opposite direction returns the original point |
| Points.MoveXYDiagonal | src/info/riemannhypothesis/ricochetrobots/Point.java:34-37 | move(d, d) equals move(d) |
| JavaHashSet.Bucket | src/info/riemannhypothesis/ricochetrobots/Board.java:154-156 | a point's bucket in the default 16-bucket table is below 16 |
| JavaHashSet.InsertInBucket | src/info/riemannhypothesis/ricochetrobots/Board.java:156 | linking a new element adds exactly that element, keeping the others |
| JavaHashSet.OrderedHead | src/info/riemannhypothesis/ricochetrobots/Board.java:156 | in a bucket-ordered listing nothing sits in a lower bucket than the first element |
| JavaHashSet.ConsOrdered | src/info/riemannhypothesis/ricochetrobots/Board.java:156 | an element no later in bucket order than all the others can head an ordered listing |
| JavaHashSet.InsertKeepsOrder | src/info/riemannhypothesis/ricochetrobots/Board.java:156 | inserting keeps the listing ordered by bucket |
| JavaHashSet.InsertKeepsDistinct | src/info/riemannhypothesis/ricochetrobots/Board.java:156 | inserting a new element keeps the listing free of duplicates |
| JavaHashSet.Add | src/info/riemannhypothesis/ricochetrobots/Board.java:156 | add leaves the set unchanged for a present element, and otherwise grows it by exactly that element |
| JavaHashSet.AddAll | src/info/riemannhypothesis/ricochetrobots/Board.java:154-158 | the set holds exactly the added elements, at most as many as were added |
| JavaHashSet.AddAllStep | src/info/riemannhypothesis/ricochetrobots/Board.java:155-157 | one more loop iteration is one more add |
| JavaHashSet.AddAllDistinct | src/info/riemannhypothesis/ricochetrobots/Board.java:154-158 | the iteration order lists no element twice |
| JavaHashSet.AddAllBucketOrdered | src/info/riemannhypothesis/ricochetrobots/Board.java:154-158 | the iteration order runs through the buckets in increasing order |
| Boards.IsConnected | src/info/riemannhypothesis/ricochetrobots/Board.java:106-108 | connected exactly when the direction's bit is already set in the cell's mask; a zero mask is connected nowhere, a mask with all four bits everywhere |
| Boards.Slide | src/info/riemannhypothesis/ricochetrobots/Board.java:110-120 | the slide ends on the board at a cell closed in its direction |
| Boards.SlideAvoiding | src/info/riemannhypothesis/ricochetrobots/Board.java:129-146 | the obstructed slide ends on the board at a cell that is closed in its direction or faces a blocked cell |
| Boards.SlideOnRay | src/info/riemannhypothesis/ricochetrobots/Board.java:114-118 | dest(p, d) is p plus k offsets, every cell left on the way is open in d, and the result is p exactly when p is closed |
| Boards.SlideIdempotent | src/info/riemannhypothesis/ricochetrobots/Board.java:115-119 | dest(dest(p, d), d) == dest(p, d) |
| Boards.SlideAvoidingOnRay | src/info/riemannhypothesis/ricochetrobots/Board.java:129-145 | the obstructed slide lies on the same ray no farther than the free one; no cell after p up to it is blocked; it stays put exactly when the first step is closed or blocked |
| Boards.SlideAvoidingAhead | src/info/riemannhypothesis/ricochetrobots/Board.java:137-143 | only the blocked cells ahead on the ray affect the obstructed slide |
| Boards.SlideAvoidingNothing | src/info/riemannhypothesis/ricochetrobots/Board.java:110-120 | with nothing blocked, the obstructed slide is the free slide |
| Boards.Dest | src/info/riemannhypothesis/ricochetrobots/Board.java:110-120 | the do-while loop returns the slide's end |
| Boards.DestAvoiding | src/info/riemannhypothesis/ricochetrobots/Board.java:129-146 | the do-while loop with the step back returns the obstructed slide's end |
| Boards.Dests | src/info/riemannhypothesis/ricochetrobots/Board.java:169-171 | four destinations, the one at index d being the obstructed slide in direction d |
| Boards.ReachableMembers | src/info/riemannhypothesis/ricochetrobots/Board.java:167-173 | q is reachable exactly when some direction's slide ends at q; all of these are on the board |
| Boards.ReachableHoldsStart | src/info/riemannhypothesis/ricochetrobots/Board.java:167-173 | the start is reachable exactly when some direction cannot move |
| Boards.ReachableFacts | src/info/riemannhypothesis/ricochetrobots/Board.java:167-173 | at most four cells, none listed twice, all on the board |
| Boards.ReachableAvoiding | src/info/riemannhypothesis/ricochetrobots/Board.java:167-173 | the loop returns the obstructed destinations in HashSet iteration order |
| Boards.Reachable | src/info/riemannhypothesis/ricochetrobots/Board.java:153-159 | the loop returns the free destinations in HashSet iteration order |
| BoardLoading.TileMaskBit | src/info/riemannhypothesis/ricochetrobots/Board.java:73-88 | a mask bit is set exactly when the neighbour is on the grid and the separator character is not a wall |
| BoardLoading.LoadedWellFormed | src/info/riemannhypothesis/ricochetrobots/Board.java:75-86 | no bit of a parsed mask points off the grid |
| BoardLoading.LoadedSymmetric | src/info/riemannhypothesis/ricochetrobots/Board.java:75-86 | every opening of a parsed board is open from the other side too |
| BoardLoading.LoadedOpenBack | src/info/riemannhypothesis/ricochetrobots/Board.java:75-86 | RIGHT at (x, y) goes with LEFT at (x, y+1), and DOWN at (x, y) with UP at (x+1, y) |
| BoardLoading.GridOpenBack | src/info/riemannhypothesis/ricochetrobots/Board.java:75-86 | both cells read the same separator character |
| BoardLoading.Load | src/info/riemannhypothesis/ricochetrobots/Board.java:71-94 | the nested loops store each cell's mask, and the targets are exactly the cells marked 'X' |
| BoardLoading.BlankBoard | src/info/riemannhypothesis/ricochetrobots/Board.java:40-45 | a blank board has no targets, is symmetric, and no slide on it moves |
| Configurations.DiffCountZero | src/info/riemannhypothesis/ricochetrobots/Solver.java:179-187 | no position differs exactly when the configurations are equal |
| Configurations.DiffCountSingle | src/info/riemannhypothesis/ricochetrobots/Solver.java:179-187 | changing one robot's position makes one difference |
| Configurations.DiffCountTwo | src/info/riemannhypothesis/ricochetrobots/Solver.java:184-187 | two changed robots make at least two differences |
| Configurations.DiffCountPositive | src/info/riemannhypothesis/ricochetrobots/Solver.java:184 | one changed robot makes at least one difference |
| Configurations.DiffCountPrefix | src/info/riemannhypothesis/ricochetrobots/Solver.java:180-187 | the count over a prefix never exceeds the whole count |
| Configurations.LegalIsSingleMove | src/info/riemannhypothesis/ricochetrobots/Solver.java:174-199 | legalMove's condition holds exactly when one robot, and no other, moved to a different cell of its reachable set |
| Configurations.LegalMove | src/info/riemannhypothesis/ricochetrobots/Solver.java:174-199 | the counting loop returns true exactly for a legal move, including false on a length mismatch |
| Configurations.ReachableContains | src/info/riemannhypothesis/ricochetrobots/Solver.java:188 | the contains test is membership in the obstructed reachable set |
| Configurations.MovesOfMembers | src/info/riemannhypothesis/ricochetrobots/Solver.java:139-153 | a child of robot i changes only robot i, to a different destination, and is not the grandparent |
| Configurations.ChildrenSound | src/info/riemannhypothesis/ricochetrobots/Solver.java:138-154 | every child comes from one robot's move |
| Configurations.ChildrenComplete | src/info/riemannhypothesis/ricochetrobots/Solver.java:138-154 | every such move of every robot is a child |
| Configurations.ListsMatchSets | src/info/riemannhypothesis/ricochetrobots/Solver.java:140-141 | the expansion's reachable lists and legalMove's reachable sets hold the same cells |
| Configurations.ChildrenAreLegalMoves | src/info/riemannhypothesis/ricochetrobots/Solver.java:138-154 | the children are exactly the legal moves other than the grandparent |
| Configurations.LegalMoveStaysInBounds | src/info/riemannhypothesis/ricochetrobots/Solver.java:174-199 | a legal move keeps every robot on the board |
| Configurations.Expand | src/info/riemannhypothesis/ricochetrobots/Solver.java:138-154 | the nested loops produce the children in the source's order |
| Configurations.RobotMoves | src/info/riemannhypothesis/ricochetrobots/Solver.java:140-153 | the inner loop produces robot i's children in reachable order |
| Configurations.WithoutIndex | src/info/riemannhypothesis/ricochetrobots/Solver.java:95-101 | the copy drops exactly the target robot's entry and keeps the others in order |
| Proximity.Root | src/info/riemannhypothesis/ricochetrobots/Solver.java:208-209 | the target's node has no moves and no next stop |
| Proximity.Chain | src/info/riemannhypothesis/ricochetrobots/Solver.java:262-277 | a chain starts at its node's own cell |
| Proximity.ChainReachesTarget | src/info/riemannhypothesis/ricochetrobots/Solver.java:118-125 | a chain from a node with k moves visits k + 1 cells on the board and ends at the target |
| Proximity.ImprovesTransitive | src/info/riemannhypothesis/ricochetrobots/Solver.java:221-225 | successive improvements compose |
| Proximity.CellsUpToCover | src/info/riemannhypothesis/ricochetrobots/Solver.java:219-240 | the first rows' cells list every cell of those rows |
| Proximity.CellsCover | src/info/riemannhypothesis/ricochetrobots/Solver.java:219-240 | the cell list covers the board |
| Proximity.MeasureMonotone | src/info/riemannhypothesis/ricochetrobots/Solver.java:221-227 | an improved map has no more absent cells, and with as many, no larger sum of moves |
| Proximity.PutDecreases | src/info/riemannhypothesis/ricochetrobots/Solver.java:221-227 | each put fills an absent cell or lowers a recorded distance, so the recursion terminates |
| Proximity.SlideBack | src/info/riemannhypothesis/ricochetrobots/Solver.java:228-231 | on a symmetric board, a cell one step further along slides back to where the current cell slides |
| Proximity.PutImproves | src/info/riemannhypothesis/ricochetrobots/Solver.java:221-227 | put only replaces an entry by a strictly shorter one |
| Proximity.PutKeepsOk | src/info/riemannhypothesis/ricochetrobots/Solver.java:226-227 | a new sound chain keeps the map sound |
| Proximity.PutKeepsNexts | src/info/riemannhypothesis/ricochetrobots/Solver.java:226-227 | the next stop of every entry stays recorded at no greater distance |
| Proximity.PutKeepsLinked | src/info/riemannhypothesis/ricochetrobots/Solver.java:226-227 | a chain of real slides keeps every chain of the map made of real slides |
| Proximity.LinkIsSlide | src/info/riemannhypothesis/ricochetrobots/Solver.java:228-231 | a cell whose slide reaches the next stop makes a real link |
| Proximity.BounceStops | src/info/riemannhypothesis/ricochetrobots/Solver.java:232-238 | at a cell closed towards perp and open the other way, the robot arriving from the other way stops exactly there |
| Proximity.RecordedKept | src/info/riemannhypothesis/ricochetrobots/Solver.java:221-225 | an improved map keeps every recorded cell at no greater distance |
| Proximity.BouncesStep | src/info/riemannhypothesis/ricochetrobots/Solver.java:232-238 | handling one more perpendicular keeps the bounces already recorded |
| Proximity.BouncesDone | src/info/riemannhypothesis/ricochetrobots/Solver.java:232-239 | after both perpendiculars every bounce is recorded |
| Proximity.ProximityMap.constructor | src/info/riemannhypothesis/ricochetrobots/Solver.java:202-209 | the map starts with the target's root node |
| Proximity.ProximityMap.AddToMap | src/info/riemannhypothesis/ricochetrobots/Solver.java:219-240 | the map stays sound and only improves; afterwards the cell is recorded at no more than the given moves; when the put happened, the next cell along the direction (if open) is recorded at no more moves, and each bounce cell at one move more |
| Proximity.ProximityMap.BounceSide | src/info/riemannhypothesis/ricochetrobots/Solver.java:233-238 | for one perpendicular: when the cell is closed that way and open the other way, the neighbour the other way is recorded at one move more; the map stays sound and only improves |
| Proximity.ProximityMap.Bounce | src/info/riemannhypothesis/ricochetrobots/Solver.java:232-239 | the perpendicular loop keeps the map sound, only improves it, and records the bounce cell of every perpendicular closed on one side and open on the other at one move more |
| Proximity.ProximityMap.Seed | src/info/riemannhypothesis/ricochetrobots/Solver.java:211-214 | the neighbour in direction d is recorded at one move, and earlier one-move entries are kept |
| Proximity.ZeroMovesIsTarget | src/info/riemannhypothesis/ricochetrobots/Solver.java:208 | only the target's node has zero moves |
| Proximity.AwayFromTarget | src/info/riemannhypothesis/ricochetrobots/Solver.java:226 | every other node has a next stop exactly one move nearer |
| Proximity.ChainLink | src/info/riemannhypothesis/ricochetrobots/Solver.java:118-125 | each consecutive pair of a linked chain is one slide that moves the robot |
| Proximity.SlideChainIsRoute | src/info/riemannhypothesis/ricochetrobots/Solver.java:118-125 | a linked chain is a route of slides |
| Proximity.EntryIsRoute | src/info/riemannhypothesis/ricochetrobots/Solver.java:201-217 | the chain under a key has moves + 1 cells, starts at the key, ends at the target, and is a route of slides |
| Proximity.StopsAtTargetFrom | src/info/riemannhypothesis/ricochetrobots/Solver.java:210-214 | when no axis is open on both sides of the target, the side opposite an open side is closed |
| Proximity.TargetFree | src/info/riemannhypothesis/ricochetrobots/Solver.java:203-207 | the loop reports true exactly when no other robot stands on the target |
| Proximity.EndMoves | src/info/riemannhypothesis/ricochetrobots/Solver.java:201-217 | the map is empty if a robot stands on the target; otherwise it is sound and each open neighbour is at one move; its links are real slides when no axis through the target is open on both sides |
| Proximity.EndMovesStopping | src/info/riemannhypothesis/ricochetrobots/Solver.java:201-217 | as EndMoves, but seeding only neighbours from which the slide back stops on the target; on every symmetric board (every board the constructors produce) each chain is then a route of real slides |
| Proximity.SeedLink | src/info/riemannhypothesis/ricochetrobots/Solver.java:210-214 | a robot on a seeded neighbour slides back onto the target |
| Proximity.SeedsKept | src/info/riemannhypothesis/ricochetrobots/Solver.java:210-214 | later puts never lose a one-move entry |
| Counterexamples.OpenGrid | src/info/riemannhypothesis/ricochetrobots/Board.java:59-66 | the board file is a well-shaped 5 by 5 character grid |
| Counterexamples.OpenBoard | src/info/riemannhypothesis/ricochetrobots/Board.java:71-94 | the loaded board is 3 by 3 and symmetric |
| Counterexamples.CentreOpen | src/info/riemannhypothesis/ricochetrobots/Board.java:75-86 | the centre is open on every side |
| Counterexamples.CentreIsNeverAStop | src/info/riemannhypothesis/ricochetrobots/Board.java:110-120 | no slide on the open board ends in the centre |
| Counterexamples.SeedOvershoots | src/info/riemannhypothesis/ricochetrobots/Solver.java:210-214 | any map meeting endMoves's contract records (1,2) one move from the centre, yet no slide from (1,2) reaches it |
| Counterexamples.EndMovesOvershoots | src/info/riemannhypothesis/ricochetrobots/Solver.java:201-217 | endMoves as written, on the open board, returns that map |
| Counterexamples.EndMovesStoppingOnOpenBoard | src/info/riemannhypothesis/ricochetrobots/Solver.java:201-217 | the corrected map leaves (1,2) out, and every chain in it is a route to the centre |
| Counterexamples.NoRouteEndsInCentre | src/info/riemannhypothesis/ricochetrobots/Solver.java:118-125 | on the open board, the only route ending in the centre is the centre alone |
| Counterexamples.LoneRobotSlides | src/info/riemannhypothesis/ricochetrobots/Solver.java:174-199 | on any board, a legal move of a lone robot is one of its free slides |
| Counterexamples.LoneRobotAvoidsCentre | src/info/riemannhypothesis/ricochetrobots/Solver.java:174-199 | on the open board, no legal move of a lone robot ends in the centre |
| Counterexamples.LonePathAvoids | src/info/riemannhypothesis/ricochetrobots/Solver.java:163-170 | a lone robot none of whose slides ends at a cell never reaches it along a legal path starting elsewhere |
| Counterexamples.NoLegalPathEndsInCentre | src/info/riemannhypothesis/ricochetrobots/Solver.java:163-170 | on the open board, a legal path of a lone robot that starts off the centre never ends there |
| Counterexamples.IntoCentreIsIllegal | src/info/riemannhypothesis/ricochetrobots/Solver.java:165-167 | no path from (1,0) to the centre passes legalMove at every step |
| Counterexamples.LeftNeighbourSeeded | src/info/riemannhypothesis/ricochetrobots/Solver.java:210-214 | the map as written holds the centre's left neighbour (1,0) |
| Counterexamples.LeftNeighbourStops | src/info/riemannhypothesis/ricochetrobots/Solver.java:107-109 | a robot at (1,0) has its own cell among its destinations |
| Counterexamples.LeftNeighbourFires | src/info/riemannhypothesis/ricochetrobots/Solver.java:107-117 | some destination of the robot at (1,0) is a key of the map as written |
| Counterexamples.ShortcutFiresIllegally | src/info/riemannhypothesis/ricochetrobots/Solver.java:107-128 | whatever the shortcut answers with that map is a node whose path is not legal |
| Counterexamples.ShortcutOvershoots | src/info/riemannhypothesis/ricochetrobots/Solver.java:95-128 | the shortcut as written, robot at (1,0), target the centre: it answers with a path from [(1,0)] to [centre] that is not a sequence of legal moves |
| Counterexamples.SolveOnOpenBoard | src/info/riemannhypothesis/ricochetrobots/Solver.java:76-172 | solveBruteForce as written on that puzzle returns, if anything, a path from [(1,0)] to [centre] that is not legal |
| Search.Path | src/info/riemannhypothesis/ricochetrobots/Solver.java:250-260 | a node's path ends with its own configuration, and a root's path is that configuration alone |
| Search.ExtendNode | src/info/riemannhypothesis/ricochetrobots/Solver.java:149-150 | a child built by a legal move from a sound node is sound |
| Search.NodeValid | src/info/riemannhypothesis/ricochetrobots/Solver.java:250-260 | a sound node's robots are all on the board |
| Search.OthersAfterMove | src/info/riemannhypothesis/ricochetrobots/Solver.java:119-121 | moving the target robot leaves the other robots as they were |
| Search.OwnCellIgnored | src/info/riemannhypothesis/ricochetrobots/Solver.java:107-109 | the target robot's own cell never blocks its slide, so the full configuration blocks it exactly as the others do |
| Search.MoveIsLegal | src/info/riemannhypothesis/ricochetrobots/Solver.java:119-122 | moving the target robot to a different reachable cell is a legal move |
| Search.SlideStepIsLegal | src/info/riemannhypothesis/ricochetrobots/Solver.java:118-125 | a slide among the other robots is reachable and a legal move |
| Search.StartHasNearerDest | src/info/riemannhypothesis/ricochetrobots/Solver.java:107-117 | when the robot's own cell is in the map, some destination is strictly nearer to the target |
| Search.ChooseShortcut | src/info/riemannhypothesis/ricochetrobots/Solver.java:107-115 | nothing is chosen exactly when no destination is a key; otherwise the entry of the first destination of minimal moves (earlier keys strictly farther) |
| Search.Steps | src/info/riemannhypothesis/ricochetrobots/Solver.java:119-121 | one configuration per cell, each with robot ti on that cell and the same number of robots |
| Search.FollowedStep | src/info/riemannhypothesis/ricochetrobots/Solver.java:118-124 | one more node extends the path by one more configuration |
| Search.FollowStep | src/info/riemannhypothesis/ricochetrobots/Solver.java:118-124 | from a sound node, a link of a chain of real slides gives a sound node, and the next link is again a legal move |
| Search.ChainFollowedStep | src/info/riemannhypothesis/ricochetrobots/Solver.java:118-124 | one pass of the inner loop keeps its bookkeeping: visited cells plus remaining chain make the whole chain, and moves add up |
| Search.FollowingStep | src/info/riemannhypothesis/ricochetrobots/Solver.java:118-124 | one pass of the inner loop keeps its whole invariant |
| Search.FollowChain | src/info/riemannhypothesis/ricochetrobots/Solver.java:117-125 | the node reached extends the start's path by one configuration per chain cell, has the target robot on the target, is first.moves + 1 moves further, and is sound when the chain is one of real slides |
| Search.NearestIsLegal | src/info/riemannhypothesis/ricochetrobots/Solver.java:107-125 | with a map of real slides, the first nearest destination is a legal move and its chain is one of real slides |
| Search.Shortcut | src/info/riemannhypothesis/ricochetrobots/Solver.java:95-128 | no answer exactly when no destination of the target robot is in the map; an answer extends the path along the chain of the first nearest destination, puts the target robot on the target, and is sound with the corrected map |
| Search.ChildNodes | src/info/riemannhypothesis/ricochetrobots/Solver.java:149-150 | one node per child configuration, one move below the parent |
| Search.ChildNodesOk | src/info/riemannhypothesis/ricochetrobots/Solver.java:138-154 | every child node of a sound node is sound, one move further, and not the grandparent |
| Search.ExpandNode | src/info/riemannhypothesis/ricochetrobots/Solver.java:138-154 | the enqueued nodes are exactly the children in the source's order, each sound, one move further, and not the grandparent |
| Search.EnqueueKeepsLevels | src/info/riemannhypothesis/ricochetrobots/Solver.java:88-150 | polling the head and appending its children keeps the queue ordered, with moves spread at most one |
| Search.Unwind | src/info/riemannhypothesis/ricochetrobots/Solver.java:163-171 | the addFirst loop builds the node's path |
| Search.CutBacktrack | src/info/riemannhypothesis/ricochetrobots/Solver.java:146-148 | removing a move and its undoing from a solution leaves a solution |
| Search.WithoutBacktracks | src/info/riemannhypothesis/ricochetrobots/Solver.java:146-148 | every solution within the bound has one that never undoes its previous move |
| Search.OnTheWayChild | src/info/riemannhypothesis/ricochetrobots/Solver.java:149-150 | the child at a solution's next configuration lies on its way too |
| Search.WitnessChild | src/info/riemannhypothesis/ricochetrobots/Solver.java:134-154 | a node on a backtrack-free solution's way, off the target, is below the move bound and the solution's next configuration is one of its children |
| Search.WitnessQueued | src/info/riemannhypothesis/ricochetrobots/Solver.java:138-154 | expanding such a node queues a node on the solution's way |
| Search.SearchSkip | src/info/riemannhypothesis/ricochetrobots/Solver.java:134-136 | dropping a node at the move bound keeps the queue sound and keeps a node on a solution's way queued |
| Search.QueueExpand | src/info/riemannhypothesis/ricochetrobots/Solver.java:138-154 | polling a node below the bound and queueing its children keeps the queue sound and levelled |
| Search.TrackExpand | src/info/riemannhypothesis/ricochetrobots/Solver.java:138-154 | polling a node and queueing its children keeps a node on a solution's way queued |
| Search.SolvedPath | src/info/riemannhypothesis/ricochetrobots/Solver.java:161-170 | a solved node's path starts at the initial configuration, ends on the target, and is legal with the corrected map |
| Search.SearchStart | src/info/riemannhypothesis/ricochetrobots/Solver.java:82-83 | the queue holding only the root meets the loop invariant |
| Search.Poll | src/info/riemannhypothesis/ricochetrobots/Solver.java:88-154 | one pass of the loop: a node on the target is the answer; otherwise it keeps the invariant and spends one step, gives up on a spent budget, or answers through the shortcut |
| Search.SolveBruteForce | src/info/riemannhypothesis/ricochetrobots/Solver.java:76-172 | a solution starts with the initial configuration, ends with the target robot on the target, and (with the corrected map) is a chain of legal moves; a robot starting on the target gives that configuration alone; when the search finds nothing before the budget runs out, no legal solution within maxMoves exists |
| Search.Solver.constructor | src/info/riemannhypothesis/ricochetrobots/Solver.java:48-64 | moves is -1 exactly when there is no solution, and otherwise the solution's length minus one; a solution is legal; no solution without an exhausted budget means none exists within maxMoves |
| PyBoards.Lookup | ricochet_robots/boards.py:27 | Direction[name] finds the member with that name, and fails only for a name no member has |
| PyBoards.StoredNamesResolve | ricochet_robots/boards.py:12-15 | every stored name names a member, so opposite and perp never raise |
| PyBoards.Offset | ricochet_robots/boards.py:12-15 | each offset is a unit step along exactly one axis |
| PyBoards.Opposite | ricochet_robots/boards.py:24-27 | the opposite is never the direction itself, and its offset is the negated offset |
| PyBoards.Perp | ricochet_robots/boards.py:29-32 | neither perpendicular is the direction or its opposite; RIGHT and LEFT give (UP, DOWN), UP and DOWN give (LEFT, RIGHT) (game.py:63-66 is the same code) |
| PyBoards.OppositeInvolution | ricochet_robots/boards.py:24-27 | opposite is an involution (game.py:58-61 is the same code) |
| PyBoards.PerpOfOpposite | ricochet_robots/boards.py:29-32 | a direction and its opposite have the same perpendiculars |
| PyBoards.AgreesWithJava | ricochet_robots/boards.py:12-15 | opposite and perp agree with the Java tables; each offset is the Java offset with its components swapped |
| PyBoards.Equals | ricochet_robots/boards.py:59-62 | equality is componentwise, and never holds for a non-Point |
| PyBoards.EqualsIsEquivalence | ricochet_robots/boards.py:59-62 | equality is reflexive, symmetric and transitive |
| PyBoards.IntHash | ricochet_robots/boards.py:65 | an int's hash is never -1, stays below the modulus, and is the int itself for small non-negative values |
| PyBoards.XorCommutative | ricochet_robots/boards.py:65 | a ^ b == b ^ a |
| PyBoards.XorSelf | ricochet_robots/boards.py:65 | a ^ a == 0 |
| PyBoards.XorZero | ricochet_robots/boards.py:65 | a ^ 0 == a |
| PyBoards.Hash | ricochet_robots/boards.py:64-65 | a point on the diagonal hashes to 0, and Point(r, 0) with 0 <= r below the modulus hashes to r |
| PyBoards.EqualPointsEqualHash | ricochet_robots/boards.py:64-65 | equal points have equal hashes |
| PyBoards.HashCollisions | ricochet_robots/boards.py:64-65 | a point and its mirror image hash alike |
| PyBoards.Move | ricochet_robots/boards.py:73-75 | move adds the offset componentwise, giving a point unequal to the original |
| PyBoards.MoveThenOpposite | ricochet_robots/boards.py:73-75 | move(d).move(d.opposite) equals the original point |
| PyGame.Robot.constructor | ricochet_robots/game.py:32-40 | a robot keeps its name and tile |
| PyGame.ConnectedSet | ricochet_robots/game.py:88-90 | an inaccessible tile, or one given no directions, is connected nowhere; otherwise it is connected exactly in the given directions |
| PyGame.Tile.constructor | ricochet_robots/game.py:78-91 | a tile keeps its position, accessibility and target, and the normalised connected set |
| PyGame.FlattenStep | ricochet_robots/game.py:119-121 | the outer loop visits one more row after the previous ones |
| PyGame.RowStep | ricochet_robots/game.py:121-126 | one inner iteration appends the tile to its robot's list |
| PyGame.TilesFor | ricochet_robots/game.py:124-126 | the list for a robot holds exactly the tiles targeting it |
| PyGame.Targeted | ricochet_robots/game.py:124-126 | the robots appended to are exactly those some tile targets |
| PyGame.GroupingIsFilter | ricochet_robots/game.py:117-130 | targets' keys are exactly the targeted robots, each mapped to all its tiles in order |
| PyGame.UntargetedHasNoTiles | ricochet_robots/game.py:128-130 | a robot nothing targets has no tiles |
| PyGame.GroupingMembers | ricochet_robots/game.py:117-130 | a key's list is never empty; a tile is on a robot's list exactly when it targets that robot; robots without targets are absent |
| PyGame.FlattenRowMajor | ricochet_robots/game.py:119-123 | a grid that passes the asserts is visited in row-major order |
| PyGame.TilesForRowMajor | ricochet_robots/game.py:124-126 | appending keeps each list in visiting order |
| PyGame.GroupingRowMajor | ricochet_robots/game.py:117-130 | each robot in targets has at least one tile, is one of the board's robots, and its tiles are in row-major order |
| PyGame.FlattenedTileOk | ricochet_robots/game.py:124-125 | a grid that passes the asserts targets only the board's robots |
| PyGame.GroupTargets | ricochet_robots/game.py:115-130 | an empty grid raises IndexError; otherwise the loops succeed exactly when every row has num_cols tiles, every tile sits at its (row, col), and every target robot is on the board, and then return the grouped targets |
| PyGame.Board.constructor | ricochet_robots/game.py:112-115 | the board keeps its robots, tiles, dimensions and targets |
| PyGame.Board.Blocked | ricochet_robots/game.py:132-135 | an inaccessible tile is always blocked, so is a tile a robot of the board stands on, and on a board without robots exactly the inaccessible tiles are blocked |
| PyGame.BlockedByRobot | ricochet_robots/game.py:132-135 | an inaccessible tile is blocked; an accessible tile is blocked exactly when a robot of the board stands on it |
| PyGame.NewBoard | ricochet_robots/game.py:109-130 | construction fails exactly when the grid fails the checks, with IndexError only for an empty grid; otherwise the board holds the robot set, the grid, its size and the grouped targets |

## Left out

- The wall-clock deadline of `solveBruteForce` (Solver.java:79-80, 130-132) becomes a budget of `maxSteps` checks, taken where the clock is read. `Solver.constructor` takes that budget in place of `maxTime`.
- The two forwarding `Solver` constructors (Solver.java:38-46) are left out: they only supply `DEFAULT_MAX_MOVES` and a default time, and time has no counterpart in the model. The `moves()` and `solution()` getters are the class's `moves` and `solution` fields.
- Search.SolveBruteForce: requires a symmetric board, which Java does not check. Both Board constructors produce symmetric boards (`BoardLoading.LoadedSymmetric`, `BoardLoading.BlankBoard`).
- Search.SolveBruteForce: with `asWritten` false the shortcut uses `Proximity.EndMovesStopping` in place of the `endMoves` as written (see Findings), and only then is the returned path claimed legal. `Search.Solver.constructor` runs that corrected search; `Counterexamples.SolveOnOpenBoard` runs the search as written.
- Search.SolveBruteForce: the shortcut's `queue.add` of each chain node (Solver.java:123) is not modelled, because the loop ends right after it and the queue is never read again.
- The `System.out` diagnostics in `legalMove` and both `main` drivers are left out. The assertions at Solver.java:161 and 165-167 are not executed as checks; they are stated as `Search.SolveBruteForce` postconditions. The one at 165-167 is proved only with `asWritten` false: the search as written breaks it on the Findings input.
- `Board.toString` renderers, file reading in `Board(File)` and the `getDimX`/`getDimY` getters are left out; `BoardLoading.Load` starts from the character grid. That grid is allocated `2*dimX-1` square (Board.java:59), so only `dimY <= dimX` is modelled.
- Board.java's `targets` set has no iteration-order consumer in the core, so it is a plain set.
- JavaHashSet: models only a table that never resizes (at most 12 elements); `reachable` never holds more than four.
- Java `int` overflow is not modelled: moves counts are naturals, and coordinates stay on the board.
- BoardPanel.java (Swing painting) and Robot.java (random placement with `Math.random`) are not part of this model.
- game.py `Board.connected` (game.py:137-144) is left out: line 140 adds two tuples into four values and unpacks them into two names, so it cannot run.
- game.py `Robot.color` (a pygame colour) is left out. The annotation `Optional[Tile]` at game.py:36 names `Tile` before it is defined. The module as written therefore fails when imported; the model treats the annotation as a forward reference.
- PyGame.GroupTargets: the `isinstance(tile, Tile)` assert (game.py:122) holds by typing, so its failure is not modelled.
- PyBoards.Hash models the value `__hash__` returns. Python's `hash()` then turns -1 into -2, which is left out.
- `__str__`/`__repr__` of the Python classes are display only and left out.
- `MoveNode.compareTo` (Solver.java:273-276) is never called by the search and is left out; `DEFAULT_FIELD_SIZE` and `DEFAULT_WAIT` serve only `main`.
- `Solver.constructor` takes the robots' positions; reading them with `Robot.getPosition` (Solver.java:54-59) is a plain copy.
- game.py repeats the boards.py `Direction` enum word for word (game.py:43-66); `PyBoards.Direction` models both copies.

## Findings

| source | as written | input that shows it | evidently intended | confidence | as-written member | corrected member |
|---|---|---|---|---|---|---|
| src/info/riemannhypothesis/ricochetrobots/Solver.java:210-214 | `endMoves` puts the target's neighbour in direction d at one move whenever the target is open towards d, without checking that a robot sliding back from there stops on the target | 3 by 3 board without inner walls, target (1,1), no other robot: (1,2) is recorded one move from the target, but no slide from (1,2) stops at the centre; the shortcut can then emit a step that is not a legal move | seed a neighbour only when the target's far side is closed, so the slide back ends on the target; then every chain in the map is a route of real slides | not executed | Counterexamples.ShortcutOvershoots | Proximity.EndMovesStopping |
