/**
 * The search of Solver.java: a first-in first-out queue of nodes over robot
 * configurations, expanded exhaustively up to a move bound and cut short as
 * soon as the target robot can reach a cell of the proximity map, and the
 * list of configurations the search returns.
 */
module Search {
  import opened Wrappers
  import opened Directions
  import opened Points
  import opened Boards
  import opened Configurations
  import opened Proximity

  /** DEFAULT_MAX_MOVES */
  const DEFAULT_MAX_MOVES: int := 20

  /** A search node: a configuration, the moves that led to it, and the node it came from. */
  datatype Node = Node(configuration: Config, moves: nat, previous: Option<Node>)

  /** The configurations from the root of the search down to n. */
  function Path(n: Node): (r: seq<Config>)
    ensures |r| >= 1 && r[|r| - 1] == n.configuration
    ensures n.previous.None? ==> r == [n.configuration]
    decreases n
  {
    match n.previous
    case None => [n.configuration]
    case Some(p) => Path(p) + [n.configuration]
  }

  /** Every configuration is on the board and each one is a legal move away from the one before. */
  ghost predicate LegalPath(b: Board, path: seq<Config>)
    requires WellFormed(b)
  {
    && (forall i | 0 <= i < |path| :: ValidConfig(b, path[i]))
    && forall i | 0 <= i < |path| - 1 :: IsLegalMove(b, path[i], path[i + 1])
  }

  /** n lies on a legal path from the initial configuration, `moves` links below it. */
  ghost predicate NodeOk(b: Board, initial: Config, n: Node)
    requires WellFormed(b)
  {
    var path := Path(n);
    && path[0] == initial
    && LegalPath(b, path)
    && n.moves == |path| - 1
    && |n.configuration| == |initial|
  }

  /** `rest` holds the positions of every robot but robot ti. */
  ghost predicate Others(c: Config, ti: nat, rest: seq<Point>)
  {
    && ti < |c|
    && forall p :: p in rest <==> exists j | 0 <= j < |c| && j != ti :: c[j] == p
  }

  /** A legal move from a node's configuration gives a node on a legal path one move longer. */
  lemma ExtendNode(b: Board, initial: Config, parent: Node, c: Config)
    requires WellFormed(b) && NodeOk(b, initial, parent)
    requires ValidConfig(b, parent.configuration) && IsLegalMove(b, parent.configuration, c)
    ensures NodeOk(b, initial, Node(c, parent.moves + 1, Some(parent)))
  {
  }

  /** The node's own configuration is on the board. */
  lemma NodeValid(b: Board, initial: Config, n: Node)
    requires WellFormed(b) && NodeOk(b, initial, n)
    ensures ValidConfig(b, n.configuration)
  {
  }

  /** Moving robot ti leaves the other robots where they are. */
  lemma OthersAfterMove(c: Config, ti: nat, rest: seq<Point>, q: Point)
    requires Others(c, ti, rest)
    ensures Others(c[ti := q], ti, rest)
  {
    var c' := c[ti := q];
    forall p
      ensures p in rest <==> exists j | 0 <= j < |c'| && j != ti :: c'[j] == p
    {
      if p in rest {
        var j :| 0 <= j < |c| && j != ti && c[j] == p;
        assert c'[j] == p;
      }
      if exists j | 0 <= j < |c'| && j != ti :: c'[j] == p {
        var j :| 0 <= j < |c'| && j != ti && c'[j] == p;
        assert c[j] == p;
      }
    }
  }

  /** A robot's own cell never stands in its way: its slides avoid the others alone. */
  lemma OwnCellIgnored(b: Board, c: Config, ti: nat, rest: seq<Point>, d: Dir)
    requires WellFormed(b) && ValidConfig(b, c) && Others(c, ti, rest)
    ensures SlideAvoiding(b, c[ti], d, c) == SlideAvoiding(b, c[ti], d, rest)
  {
    var a := c[ti];
    forall k: int | k >= 1
      ensures Ray(a, d, k) in c <==> Ray(a, d, k) in rest
    {
      var r := Ray(a, d, k);
      assert r != a;
      if r in c {
        var j :| 0 <= j < |c| && c[j] == r;
        assert j != ti;
      }
      if r in rest {
        var j :| 0 <= j < |c| && j != ti && c[j] == r;
        assert c[j] in c;
      }
    }
    SlideAvoidingAhead(b, a, d, c, rest);
  }

  /** Moving robot ti to another cell of its reachable set is a legal move. */
  lemma MoveIsLegal(b: Board, c: Config, ti: nat, q: Point)
    requires WellFormed(b) && ValidConfig(b, c) && ti < |c|
    requires q in ReachableSet(b, c[ti], c) && q != c[ti]
    ensures IsLegalMove(b, c, c[ti := q])
  {
    var reach := ReachSets(b, c);
    LegalIsSingleMove(c, c[ti := q], reach);
    assert SingleMove(c, c[ti := q], reach, ti);
  }

  /** One link of a chain of slides, taken by robot ti among the others, is a legal move. */
  lemma SlideStepIsLegal(b: Board, c: Config, ti: nat, rest: seq<Point>, q: Point)
    requires WellFormed(b) && ValidConfig(b, c) && Others(c, ti, rest)
    requires SlideStep(b, rest, c[ti], q)
    ensures q in ReachableSet(b, c[ti], c)
    ensures IsLegalMove(b, c, c[ti := q])
  {
    var d: Dir :| SlideAvoiding(b, c[ti], d, rest) == q;
    OwnCellIgnored(b, c, ti, rest, d);
    MoveIsLegal(b, c, ti, q);
  }

  /**
   * When the target robot's own cell is in a proximity map of slides, one of
   * its reachable cells is in the map at fewer moves: the next stop of its own
   * entry.
   */
  lemma StartHasNearerDest(b: Board, target: Point, c: Config, ti: nat, rest: seq<Point>, m: map<Point, MoveNode>)
    requires WellFormed(b) && ValidConfig(b, c) && Others(c, ti, rest)
    requires c[ti] != target && c[ti] in m
    requires ProximityOk(b, target, rest, m) && NextsRecorded(m) && MapLinked(b, rest, m)
    ensures exists x | x in ReachableOrder(b, c[ti], c) && x in m :: m[x].moves < m[c[ti]].moves
  {
    var n := m[c[ti]];
    AwayFromTarget(b, target, n);
    var nx := n.next.value;
    assert SlideStep(b, rest, c[ti], nx.point);
    SlideStepIsLegal(b, c, ti, rest, nx.point);
    ReachableMembers(b, c[ti], c, nx.point);
  }

  /**
   * dests[i] is in the map, strictly nearer the target than every earlier
   * destination in the map, and no destination in the map is nearer.
   */
  ghost predicate FirstNearest(dests: seq<Point>, m: map<Point, MoveNode>, i: int)
  {
    && 0 <= i < |dests| && dests[i] in m
    && (forall j | 0 <= j < i && dests[j] in m :: m[dests[j]].moves > m[dests[i]].moves)
    && (forall q | q in dests && q in m :: m[dests[i]].moves <= m[q].moves)
  }

  /**
   * The loop over `reachable` in the shortcut: the first destination, in
   * iteration order, whose map entry has the fewest moves.
   */
  method ChooseShortcut(dests: seq<Point>, endMoves: map<Point, MoveNode>) returns (chosen: Option<MoveNode>)
    ensures chosen.None? <==> forall q | q in dests :: q !in endMoves
    ensures chosen.Some? ==> exists i :: FirstNearest(dests, endMoves, i) && endMoves[dests[i]] == chosen.value
  {
    chosen := None;
    var moves := -1;
    for k := 0 to |dests|
      invariant chosen.None? <==> forall j | 0 <= j < k :: dests[j] !in endMoves
      invariant chosen.Some? ==> moves == chosen.value.moves
      invariant chosen.Some? ==>
        exists i | 0 <= i < k ::
          && dests[i] in endMoves && endMoves[dests[i]] == chosen.value
          && forall j | 0 <= j < i && dests[j] in endMoves :: endMoves[dests[j]].moves > moves
      invariant chosen.Some? ==> forall j | 0 <= j < k && dests[j] in endMoves :: moves <= endMoves[dests[j]].moves
    {
      var dest := dests[k];
      if dest in endMoves {
        var temp := endMoves[dest];
        if chosen.None? || temp.moves < moves {
          chosen := Some(temp);
          moves := temp.moves;
        }
      }
    }
    if chosen.Some? {
      var i :| 0 <= i < |dests| && dests[i] in endMoves && endMoves[dests[i]] == chosen.value
        && forall j | 0 <= j < i && dests[j] in endMoves :: endMoves[dests[j]].moves > moves;
      forall q | q in dests && q in endMoves
        ensures endMoves[dests[i]].moves <= endMoves[q].moves
      {
        var j :| 0 <= j < |dests| && dests[j] == q;
      }
      assert FirstNearest(dests, endMoves, i);
    }
  }

  /** The configurations robot ti passes through, the others staying where they are in c. */
  function Steps(c: Config, ti: nat, cells: seq<Point>): (r: seq<Config>)
    requires ti < |c|
    ensures |r| == |cells|
    ensures forall j | 0 <= j < |r| :: |r[j]| == |c| && r[j][ti] == cells[j]
  {
    seq(|cells|, j requires 0 <= j < |cells| => c[ti := cells[j]])
  }

  /** One more cell on the robot's way is one more configuration. */
  lemma StepsSnoc(c: Config, ti: nat, cells: seq<Point>, q: Point)
    requires ti < |c|
    ensures Steps(c, ti, cells + [q]) == Steps(c, ti, cells) + [c[ti := q]]
  {
  }

  /**
   * `last` ends the path from `start` along which robot ti visited the cells
   * `done`, the others staying where they are in c.
   */
  ghost predicate Followed(start: Node, c: Config, ti: nat, done: seq<Point>, last: Node)
    requires ti < |c|
  {
    && Path(last) == Path(start) + Steps(c, ti, done)
    && last.configuration == (if done == [] then c else c[ti := done[|done| - 1]])
  }

  /** One more cell visited is one more node on the path. */
  lemma FollowedStep(start: Node, c: Config, ti: nat, done: seq<Point>, last: Node, x: Point)
    requires ti < |c| && Followed(start, c, ti, done, last)
    ensures Followed(start, c, ti, done + [x], Node(last.configuration[ti := x], last.moves + 1, Some(last)))
    ensures last.configuration[ti := x] == c[ti := x]
  {
    StepsSnoc(c, ti, done, x);
    assert last.configuration[ti := x] == c[ti := x];
  }

  /**
   * One link of a chain of real slides taken from a node on a legal path: the
   * new node is on a legal path too, and the next link is again a legal move.
   */
  lemma FollowStep(b: Board, target: Point, ti: nat, initial: Config, rest: seq<Point>, last: Node, node: MoveNode)
    requires WellFormed(b) && NodeOk(b, initial, last) && Others(last.configuration, ti, rest)
    requires ValidConfig(b, last.configuration) && ChainOk(b, target, node) && SlideChain(b, rest, node)
    requires IsLegalMove(b, last.configuration, last.configuration[ti := node.point])
    ensures var next := Node(last.configuration[ti := node.point], last.moves + 1, Some(last));
      && NodeOk(b, initial, next) && Others(next.configuration, ti, rest) && ValidConfig(b, next.configuration)
      && (node.next.Some? ==>
            && SlideChain(b, rest, node.next.value)
            && IsLegalMove(b, next.configuration, next.configuration[ti := node.next.value.point]))
  {
    var newConfig := last.configuration[ti := node.point];
    ExtendNode(b, initial, last, newConfig);
    OthersAfterMove(last.configuration, ti, rest, node.point);
    LegalMoveStaysInBounds(b, last.configuration, newConfig);
    if node.next.Some? {
      SlideStepIsLegal(b, newConfig, ti, rest, node.next.value.point);
    }
  }

  /**
   * The bookkeeping half of the shortcut's inner loop invariant: `last` ends
   * the path along the cells `done` already visited, and `moveNode` starts
   * the rest of the chain from `first`.
   */
  ghost predicate ChainFollowed(b: Board, target: Point, ti: nat, start: Node, first: MoveNode,
                                done: seq<Point>, last: Node, moveNode: Option<MoveNode>)
    requires ti < |start.configuration|
  {
    var c := start.configuration;
    && Followed(start, c, ti, done, last)
    && (moveNode.Some? ==>
          && ChainOk(b, target, moveNode.value) && Chain(first) == done + Chain(moveNode.value)
          && last.moves + moveNode.value.moves == start.moves + first.moves)
    && (moveNode.None? ==>
          && done == Chain(first) && last.moves == start.moves + first.moves + 1
          && last.configuration == c[ti := target])
  }

  /** The legality half: when the chain is one of real slides, the path so far is legal. */
  ghost predicate FollowedLegally(b: Board, ti: nat, initial: Config, rest: seq<Point>,
                                  linked: bool, last: Node, moveNode: Option<MoveNode>)
  {
    && (linked ==>
          && WellFormed(b) && NodeOk(b, initial, last) && Others(last.configuration, ti, rest)
          && ValidConfig(b, last.configuration))
    && (linked && moveNode.Some? ==>
          && WellFormed(b) && SlideChain(b, rest, moveNode.value)
          && IsLegalMove(b, last.configuration, last.configuration[ti := moveNode.value.point]))
  }

  /** The invariant of the shortcut's inner loop. */
  ghost predicate Following(b: Board, target: Point, ti: nat, initial: Config, rest: seq<Point>,
                            start: Node, first: MoveNode, linked: bool,
                            done: seq<Point>, last: Node, moveNode: Option<MoveNode>)
    requires ti < |start.configuration|
  {
    && ChainFollowed(b, target, ti, start, first, done, last, moveNode)
    && FollowedLegally(b, ti, initial, rest, linked, last, moveNode)
  }

  /** One pass of the inner loop keeps its bookkeeping. */
  lemma ChainFollowedStep(b: Board, target: Point, ti: nat, start: Node, first: MoveNode,
                          done: seq<Point>, last: Node, node: MoveNode)
    requires ti < |start.configuration|
    requires ChainFollowed(b, target, ti, start, first, done, last, Some(node))
    ensures ChainFollowed(b, target, ti, start, first, done + [node.point],
                          Node(last.configuration[ti := node.point], last.moves + 1, Some(last)), node.next)
  {
    FollowedStep(start, start.configuration, ti, done, last, node.point);
    if node.next.Some? {
      var tail := Chain(node.next.value);
      assert ChainOk(b, target, node.next.value) && node.moves == node.next.value.moves + 1;
      assert Chain(node) == [node.point] + tail;
      assert Chain(first) == (done + [node.point]) + tail;
    } else {
      assert node.point == target && node.moves == 0;
      assert Chain(node) == [node.point];
    }
  }

  /** One pass of the inner loop keeps its invariant. */
  lemma FollowingStep(b: Board, target: Point, ti: nat, initial: Config, rest: seq<Point>,
                      start: Node, first: MoveNode, linked: bool, done: seq<Point>, last: Node, node: MoveNode)
    requires ti < |start.configuration|
    requires Following(b, target, ti, initial, rest, start, first, linked, done, last, Some(node))
    ensures Following(b, target, ti, initial, rest, start, first, linked, done + [node.point],
                      Node(last.configuration[ti := node.point], last.moves + 1, Some(last)), node.next)
  {
    ChainFollowedStep(b, target, ti, start, first, done, last, node);
    if linked {
      FollowStep(b, target, ti, initial, rest, last, node);
    }
  }

  /**
   * The inner loop of the shortcut: from `start`, move the target robot along
   * the chain from `first`, one node per link. The source also queues each of
   * these nodes, but the search stops right after the loop. When the chain is
   * one of real slides among the other robots (`linked`), every link is a
   * legal move.
   */
  method FollowChain(ghost b: Board, ghost target: Point, ti: nat, ghost initial: Config, ghost rest: seq<Point>,
                     start: Node, first: MoveNode, ghost linked: bool)
    returns (last: Node)
    requires ti < |start.configuration| && ChainOk(b, target, first)
    requires linked ==>
      && WellFormed(b) && NodeOk(b, initial, start) && Others(start.configuration, ti, rest)
      && SlideChain(b, rest, first) && ValidConfig(b, start.configuration)
      && IsLegalMove(b, start.configuration, start.configuration[ti := first.point])
    ensures Path(last) == Path(start) + Steps(start.configuration, ti, Chain(first))
    ensures last.configuration == start.configuration[ti := target]
    ensures last.moves == start.moves + first.moves + 1
    ensures linked ==> NodeOk(b, initial, last)
  {
    ghost var done: seq<Point> := [];
    last := start;
    var moveNode: Option<MoveNode> := Some(first);
    while moveNode.Some?
      invariant Following(b, target, ti, initial, rest, start, first, linked, done, last, moveNode)
      decreases moveNode
    {
      var node := moveNode.value;
      FollowingStep(b, target, ti, initial, rest, start, first, linked, done, last, node);
      last := Node(last.configuration[ti := node.point], last.moves + 1, Some(last));
      done := done + [node.point];
      moveNode := node.next;
    }
  }

  /**
   * The proximity map of the shortcut, for the obstacles `rest`: empty when a
   * robot stands on the target, otherwise sound chains to the target seeded
   * from the target's open sides (every open side as the source writes it,
   * only the sides whose opposite is closed otherwise), and chains of real
   * slides in the latter case.
   */
  ghost predicate ShortcutMap(b: Board, target: Point, rest: seq<Point>, m: map<Point, MoveNode>, asWritten: bool)
    requires WellFormed(b) && InBounds(b, target)
  {
    && (target in rest ==> m == map[])
    && (target !in rest ==> ProximityOk(b, target, rest, m) && NextsRecorded(m))
    && (target !in rest && asWritten ==>
          forall d: Dir | IsConnectedAvoiding(b, target, d, rest) :: OneMove(m, Move(target, d)))
    && (target !in rest && !asWritten ==>
          forall d: Dir | IsConnectedAvoiding(b, target, d, rest) && !IsConnectedAvoiding(b, target, Opposite(d), rest) ::
            OneMove(m, Move(target, d)))
    && (!asWritten && Symmetric(b) ==> MapLinked(b, rest, m))
  }

  /**
   * On a map of real slides, the nearest map cell the target robot can reach
   * is not its own cell, and moving there is a legal move.
   */
  lemma NearestIsLegal(b: Board, target: Point, c: Config, ti: nat, rest: seq<Point>, m: map<Point, MoveNode>, i: int)
    requires WellFormed(b) && ValidConfig(b, c) && Others(c, ti, rest) && c[ti] != target
    requires ProximityOk(b, target, rest, m) && NextsRecorded(m) && MapLinked(b, rest, m)
    requires FirstNearest(ReachableOrder(b, c[ti], c), m, i)
    ensures var q := ReachableOrder(b, c[ti], c)[i];
      IsLegalMove(b, c, c[ti := q]) && SlideChain(b, rest, m[q])
  {
    var q := ReachableOrder(b, c[ti], c)[i];
    if c[ti] in m {
      StartHasNearerDest(b, target, c, ti, rest, m);
    }
    ReachableMembers(b, c[ti], c, q);
    MoveIsLegal(b, c, ti, q);
  }

  /**
   * The shortcut step for one node: build the proximity map of the other
   * robots, pick the nearest map cell the target robot can slide to, and
   * follow its chain to the target. `asWritten` selects the map endMoves
   * builds as the source writes it; otherwise the map holds only real slides.
   */
  method Shortcut(b: Board, target: Point, ti: nat, ghost initial: Config, current: Node, asWritten: bool)
    returns (solved: Option<Node>, ghost endMoves: map<Point, MoveNode>)
    requires Symmetric(b) && InBounds(b, target)
    requires NodeOk(b, initial, current) && ti < |current.configuration|
    requires current.configuration[ti] != target
    ensures ValidConfig(b, current.configuration)
    ensures ShortcutMap(b, target, current.configuration[..ti] + current.configuration[ti + 1..], endMoves, asWritten)
    ensures var c := current.configuration;
      solved.None? <==> forall q | q in ReachableOrder(b, c[ti], c) :: q !in endMoves
    ensures var c := current.configuration; var dests := ReachableOrder(b, c[ti], c);
      solved.Some? ==>
        exists i :: FirstNearest(dests, endMoves, i) && Path(solved.value) == Path(current) + Steps(c, ti, Chain(endMoves[dests[i]]))
    ensures solved.Some? ==>
      && solved.value.configuration == current.configuration[ti := target]
      && solved.value.moves > current.moves
      && Path(solved.value)[0] == initial
    ensures solved.Some? && !asWritten ==> NodeOk(b, initial, solved.value)
  {
    NodeValid(b, initial, current);
    var c := current.configuration;
    var rest := WithoutIndex(c, ti);
    assert Others(c, ti, rest);
    var proximity;
    if asWritten {
      proximity := EndMoves(b, target, rest);
    } else {
      proximity := EndMovesStopping(b, target, rest);
    }
    endMoves := proximity;
    var dests := ReachableAvoiding(b, c[ti], c);
    var chosen := ChooseShortcut(dests, proximity);
    if chosen.None? {
      return None, endMoves;
    }
    ghost var i :| FirstNearest(dests, endMoves, i) && endMoves[dests[i]] == chosen.value;
    if !asWritten {
      NearestIsLegal(b, target, c, ti, rest, endMoves, i);
    }
    var last := FollowChain(b, target, ti, initial, rest, current, chosen.value, !asWritten);
    return Some(last), endMoves;
  }

  /** The configuration of n's parent, the one move the expansion must not undo. */
  function Grand(n: Node): Option<Config>
  {
    if n.previous.None? then None else Some(n.previous.value.configuration)
  }

  /** The nodes that wrap each child configuration, one move below parent. */
  function ChildNodes(children: seq<Config>, parent: Node): (r: seq<Node>)
    ensures |r| == |children|
    ensures forall j | 0 <= j < |r| :: r[j] == Node(children[j], parent.moves + 1, Some(parent))
  {
    seq(|children|, j requires 0 <= j < |children| => Node(children[j], parent.moves + 1, Some(parent)))
  }

  lemma ChildNodesSnoc(children: seq<Config>, parent: Node, j: nat)
    requires j < |children|
    ensures ChildNodes(children[..j + 1], parent) == ChildNodes(children[..j], parent) + [Node(children[j], parent.moves + 1, Some(parent))]
  {
  }

  /** Every child node of a sound node is sound, one move further and not the grandparent. */
  lemma ChildNodesOk(b: Board, initial: Config, current: Node)
    requires WellFormed(b) && NodeOk(b, initial, current) && ValidConfig(b, current.configuration)
    ensures var c := current.configuration;
      forall n | n in ChildNodes(Children(c, Grand(current), ReachLists(b, c), |c|), current) ::
        && NodeOk(b, initial, n) && n.moves == current.moves + 1 && n.previous == Some(current)
        && (current.previous.None? || n.configuration != current.previous.value.configuration)
  {
    var c := current.configuration;
    var children := Children(c, Grand(current), ReachLists(b, c), |c|);
    var nodes := ChildNodes(children, current);
    forall n | n in nodes
      ensures NodeOk(b, initial, n) && n.moves == current.moves + 1 && n.previous == Some(current)
      ensures current.previous.None? || n.configuration != current.previous.value.configuration
    {
      var j :| 0 <= j < |nodes| && nodes[j] == n;
      ChildrenAreLegalMoves(b, c, Grand(current), children[j]);
      ExtendNode(b, initial, current, children[j]);
    }
  }

  /** The exhaustive expansion of one node, as queued nodes one move deeper. */
  method ExpandNode(b: Board, ghost initial: Config, current: Node) returns (nodes: seq<Node>)
    requires WellFormed(b) && NodeOk(b, initial, current) && ValidConfig(b, current.configuration)
    ensures var c := current.configuration; var children := Children(c, Grand(current), ReachLists(b, c), |c|);
      && |nodes| == |children|
      && forall j | 0 <= j < |nodes| :: nodes[j] == Node(children[j], current.moves + 1, Some(current))
    ensures forall n | n in nodes :: NodeOk(b, initial, n) && n.moves == current.moves + 1
    ensures forall n | n in nodes ::
      n.previous == Some(current) && (current.previous.None? || n.configuration != current.previous.value.configuration)
  {
    var grand := if current.previous.None? then None else Some(current.previous.value.configuration);
    var children := Expand(b, current.configuration, grand);
    nodes := [];
    for j := 0 to |children|
      invariant nodes == ChildNodes(children[..j], current)
    {
      ChildNodesSnoc(children, current, j);
      nodes := nodes + [Node(children[j], current.moves + 1, Some(current))];
    }
    assert children[..|children|] == children;
    ChildNodesOk(b, initial, current);
  }

  /** Queued nodes are in non-decreasing order of moves, the last at most one more than the first. */
  ghost predicate Levelled(queue: seq<Node>)
  {
    && (forall i, j | 0 <= i <= j < |queue| :: queue[i].moves <= queue[j].moves)
    && (|queue| > 0 ==> queue[|queue| - 1].moves <= queue[0].moves + 1)
  }

  /**
   * Polling a node and queueing nodes one move deeper keeps the queue
   * levelled: the first-in first-out queue visits nodes level by level.
   */
  lemma EnqueueKeepsLevels(queue: seq<Node>, added: seq<Node>)
    requires |queue| > 0 && Levelled(queue)
    requires forall n | n in added :: n.moves == queue[0].moves + 1
    ensures Levelled(queue[1..] + added)
  {
  }

  /** The loop at the end of solveBruteForce: collect configurations from the root down. */
  method Unwind(n: Node) returns (result: seq<Config>)
    ensures result == Path(n)
  {
    result := [];
    var current: Option<Node> := Some(n);
    while current.Some?
      invariant Path(n) == (if current.Some? then Path(current.value) else []) + result
      decreases current
    {
      var node := current.value;
      result := [node.configuration] + result;
      current := node.previous;
    }
  }

  /**
   * p solves the puzzle within maxMoves: a legal path from `initial` whose last
   * configuration has robot ti on the target.
   */
  ghost predicate Witness(b: Board, initial: Config, ti: nat, target: Point, maxMoves: int, p: seq<Config>)
    requires WellFormed(b)
  {
    && |p| >= 1 && p[0] == initial && LegalPath(b, p)
    && |p| - 1 <= maxMoves
    && ti < |p[|p| - 1]| && p[|p| - 1][ti] == target
  }

  /** Move k of p, from p[k] to p[k + 1], undoes the move before it. */
  ghost predicate Backtracks(p: seq<Config>, k: nat)
    requires 0 < k < |p| - 1
  {
    p[k + 1] == p[k - 1]
  }

  /** No move of p undoes the move before it: the moves the expansion leaves out. */
  ghost predicate NoBacktrack(p: seq<Config>)
  {
    forall k | 0 < k < |p| - 1 :: !Backtracks(p, k)
  }

  /** Cutting a move and its undoing out of a solution leaves a shorter solution. */
  lemma CutBacktrack(b: Board, initial: Config, ti: nat, target: Point, maxMoves: int, p: seq<Config>, k: nat)
    requires WellFormed(b) && Witness(b, initial, ti, target, maxMoves, p)
    requires 0 < k < |p| - 1 && Backtracks(p, k)
    ensures Witness(b, initial, ti, target, maxMoves, p[..k] + p[k + 2..])
  {
    var q := p[..k] + p[k + 2..];
    assert |q| == |p| - 2;
    forall i | 0 <= i < |q|
      ensures q[i] == if i < k then p[i] else p[i + 2]
    {
    }
    forall i | 0 <= i < |q| - 1
      ensures IsLegalMove(b, q[i], q[i + 1])
    {
      if i == k - 1 {
        assert q[i] == p[k + 1];
      }
    }
    assert q[|q| - 1] == p[|p| - 1] by {
      if k + 2 == |p| {
        assert q[|q| - 1] == p[k - 1];
      }
    }
  }

  /** Every solution within maxMoves can be shortened into one without backtracking. */
  lemma {:induction false} WithoutBacktracks(b: Board, initial: Config, ti: nat, target: Point, maxMoves: int, p: seq<Config>)
    returns (w: seq<Config>)
    requires WellFormed(b) && Witness(b, initial, ti, target, maxMoves, p)
    ensures Witness(b, initial, ti, target, maxMoves, w) && NoBacktrack(w)
    decreases |p|
  {
    if NoBacktrack(p) {
      return p;
    }
    var k :| 0 < k < |p| - 1 && Backtracks(p, k);
    CutBacktrack(b, initial, ti, target, maxMoves, p, k);
    w := WithoutBacktracks(b, initial, ti, target, maxMoves, p[..k] + p[k + 2..]);
  }

  /** n's path is the start of the solution w. */
  ghost predicate OnTheWay(w: seq<Config>, n: Node)
  {
    |Path(n)| <= |w| && Path(n) == w[..|Path(n)|]
  }

  /** The child of a node on the way of w, at w's next configuration, is on its way too. */
  lemma OnTheWayChild(w: seq<Config>, n: Node, moves: nat)
    requires OnTheWay(w, n) && |Path(n)| < |w|
    ensures OnTheWay(w, Node(w[|Path(n)|], moves, Some(n)))
  {
    var p := Path(n);
    var k := |p|;
    var child := Node(w[k], moves, Some(n));
    assert Path(child) == p + [w[k]];
    PrefixSnoc(w, k);
  }

  lemma PrefixSnoc<T>(w: seq<T>, k: nat)
    requires k < |w|
    ensures w[..k + 1] == w[..k] + [w[k]]
  {
  }

  /**
   * A node on the way of a backtrack-free solution, not yet on the target, is
   * below the move bound, and the solution's next configuration is among the
   * configurations its expansion queues.
   */
  lemma WitnessChild(b: Board, initial: Config, ti: nat, target: Point, maxMoves: int, w: seq<Config>, n: Node)
    requires WellFormed(b) && Witness(b, initial, ti, target, maxMoves, w) && NoBacktrack(w)
    requires NodeOk(b, initial, n) && ti < |n.configuration| && n.configuration[ti] != target
    requires OnTheWay(w, n)
    ensures |Path(n)| < |w| && n.moves < maxMoves
    ensures ValidConfig(b, n.configuration)
    ensures w[|Path(n)|] in Children(n.configuration, Grand(n), ReachLists(b, n.configuration), |n.configuration|)
  {
    var k := |Path(n)| - 1;
    assert n.configuration == w[k];
    var x := w[k + 1];
    assert IsLegalMove(b, w[k], x);
    if n.previous.Some? {
      assert Path(n) == Path(n.previous.value) + [n.configuration];
      assert n.previous.value.configuration == Path(n)[k - 1] == w[k - 1];
      assert !Backtracks(w, k);
    }
    ChildrenAreLegalMoves(b, n.configuration, Grand(n), x);
  }

  /** Every queued node is on a legal path from `initial` within the move bound, and the queue is levelled. */
  ghost predicate QueueOk(b: Board, initial: Config, maxMoves: int, queue: seq<Node>)
    requires WellFormed(b)
  {
    && (forall n | n in queue :: NodeOk(b, initial, n) && (n.moves == 0 || n.moves <= maxMoves))
    && Levelled(queue)
  }

  /** When the puzzle has a solution w without backtracking, the wi-th queued node lies on its way. */
  ghost predicate Tracking(b: Board, initial: Config, ti: nat, target: Point, maxMoves: int,
                           queue: seq<Node>, w: Option<seq<Config>>, wi: nat)
    requires WellFormed(b)
  {
    w.Some? ==>
      && Witness(b, initial, ti, target, maxMoves, w.value) && NoBacktrack(w.value)
      && wi < |queue| && OnTheWay(w.value, queue[wi])
  }

  /**
   * The invariant of solveBruteForce's loop: the queue is sound, and when the
   * puzzle has a solution, a queued node lies on the way of one.
   */
  ghost predicate Searching(b: Board, initial: Config, ti: nat, target: Point, maxMoves: int,
                            queue: seq<Node>, w: Option<seq<Config>>, wi: nat)
    requires WellFormed(b)
  {
    QueueOk(b, initial, maxMoves, queue) && Tracking(b, initial, ti, target, maxMoves, queue, w, wi)
  }

  /** Dropping a polled node at the move bound keeps the invariant. */
  lemma SearchSkip(b: Board, initial: Config, ti: nat, target: Point, maxMoves: int,
                   queue: seq<Node>, w: Option<seq<Config>>, wi: nat)
    returns (wi': nat)
    requires WellFormed(b) && ti < |initial| && Searching(b, initial, ti, target, maxMoves, queue, w, wi)
    requires queue != [] && queue[0].configuration[ti] != target && queue[0].moves >= maxMoves
    ensures Searching(b, initial, ti, target, maxMoves, queue[1..], w, wi')
  {
    if w.Some? && wi == 0 {
      WitnessChild(b, initial, ti, target, maxMoves, w.value, queue[0]);
      assert false;
    }
    wi' := if wi == 0 then 0 else wi - 1;
    assert w.Some? ==> queue[1..][wi'] == queue[wi];
  }

  /** The expansion of a node on the way of a solution queues the solution's next node. */
  lemma WitnessQueued(b: Board, initial: Config, ti: nat, target: Point, maxMoves: int, w: seq<Config>, n: Node,
                      nodes: seq<Node>)
    returns (j: nat)
    requires WellFormed(b) && Witness(b, initial, ti, target, maxMoves, w) && NoBacktrack(w)
    requires NodeOk(b, initial, n) && ti < |n.configuration| && n.configuration[ti] != target
    requires OnTheWay(w, n) && ValidConfig(b, n.configuration)
    requires var c := n.configuration; var children := Children(c, Grand(n), ReachLists(b, c), |c|);
      && |nodes| == |children|
      && forall j | 0 <= j < |nodes| :: nodes[j] == Node(children[j], n.moves + 1, Some(n))
    ensures j < |nodes| && OnTheWay(w, nodes[j])
  {
    WitnessChild(b, initial, ti, target, maxMoves, w, n);
    var c := n.configuration;
    var children := Children(c, Grand(n), ReachLists(b, c), |c|);
    var k := |Path(n)|;
    var x := w[k];
    j :| 0 <= j < |children| && children[j] == x;
    OnTheWayChild(w, n, n.moves + 1);
  }

  /** Queueing nodes one move deeper than the polled node, below the bound, keeps the queue sound. */
  lemma QueueExpand(b: Board, initial: Config, maxMoves: int, queue: seq<Node>, nodes: seq<Node>)
    requires WellFormed(b) && QueueOk(b, initial, maxMoves, queue)
    requires queue != [] && queue[0].moves < maxMoves
    requires forall n | n in nodes :: NodeOk(b, initial, n) && n.moves == queue[0].moves + 1
    ensures QueueOk(b, initial, maxMoves, queue[1..] + nodes)
  {
    EnqueueKeepsLevels(queue, nodes);
    forall n | n in queue[1..] + nodes
      ensures NodeOk(b, initial, n) && (n.moves == 0 || n.moves <= maxMoves)
    {
      if n !in nodes {
        assert n in queue;
      }
    }
  }

  /** The solution's next configuration is among the queued nodes when its current node is polled. */
  lemma TrackExpand(b: Board, initial: Config, ti: nat, target: Point, maxMoves: int,
                    queue: seq<Node>, w: Option<seq<Config>>, wi: nat, nodes: seq<Node>)
    returns (wi': nat)
    requires WellFormed(b) && ti < |initial| && Tracking(b, initial, ti, target, maxMoves, queue, w, wi)
    requires queue != [] && NodeOk(b, initial, queue[0]) && queue[0].configuration[ti] != target
    requires |queue[0].configuration| == |initial|
    requires ValidConfig(b, queue[0].configuration)
    requires var n := queue[0]; var c := n.configuration; var children := Children(c, Grand(n), ReachLists(b, c), |c|);
      && |nodes| == |children|
      && forall j | 0 <= j < |nodes| :: nodes[j] == Node(children[j], n.moves + 1, Some(n))
    ensures Tracking(b, initial, ti, target, maxMoves, queue[1..] + nodes, w, wi')
  {
    var current := queue[0];
    var next := queue[1..] + nodes;
    wi' := if wi == 0 then 0 else wi - 1;
    if w.Some? {
      if wi == 0 {
        var j := WitnessQueued(b, initial, ti, target, maxMoves, w.value, current, nodes);
        wi' := |queue| - 1 + j;
        assert next[wi'] == nodes[j];
      } else {
        assert next[wi'] == queue[wi];
      }
    }
  }

  /** n ends a path from `initial` that puts robot ti on the target, a legal one unless `asWritten`. */
  ghost predicate Solved(b: Board, initial: Config, ti: nat, target: Point, asWritten: bool, n: Node)
    requires WellFormed(b)
  {
    && Path(n)[0] == initial
    && |n.configuration| == |initial| && ti < |initial| && n.configuration[ti] == target
    && (!asWritten ==> LegalPath(b, Path(n)))
  }

  /** The path to a solved node is what solveBruteForce returns. */
  lemma SolvedPath(b: Board, initial: Config, ti: nat, target: Point, asWritten: bool, n: Node)
    requires WellFormed(b) && Solved(b, initial, ti, target, asWritten, n)
    ensures var s := Path(n);
      && |s| >= 1 && s[0] == initial
      && |s[|s| - 1]| == |initial| && s[|s| - 1][ti] == target
      && (!asWritten ==> LegalPath(b, s))
  {
  }

  /**
   * The queue holding only the root meets the loop invariant: when the
   * puzzle has a solution, the root lies on the way of one without
   * backtracking, and otherwise there is nothing to track.
   */
  lemma SearchStart(b: Board, initial: Config, ti: nat, target: Point, maxMoves: int)
    returns (w: Option<seq<Config>>)
    requires WellFormed(b) && ValidConfig(b, initial) && ti < |initial|
    ensures Searching(b, initial, ti, target, maxMoves, [Node(initial, 0, None)], w, 0)
    ensures w.None? ==> forall p :: !Witness(b, initial, ti, target, maxMoves, p)
  {
    var root := Node(initial, 0, None);
    assert NodeOk(b, initial, root);
    w := None;
    if exists p :: Witness(b, initial, ti, target, maxMoves, p) {
      var p :| Witness(b, initial, ti, target, maxMoves, p);
      var shortest := WithoutBacktracks(b, initial, ti, target, maxMoves, p);
      w := Some(shortest);
      assert OnTheWay(shortest, root);
    }
  }

  /**
   * One pass of solveBruteForce's loop: poll the head of the queue, stop on a
   * node at the target or on a shortcut, give up once the budget is spent,
   * and otherwise drop the node at the move bound or queue its children.
   */
  method Poll(b: Board, target: Point, ti: nat, ghost initial: Config, maxMoves: int, asWritten: bool,
              queue: seq<Node>, budget: nat, ghost w: Option<seq<Config>>, ghost wi: nat)
    returns (queue': seq<Node>, budget': nat, solved: Option<Node>, outOfTime: bool, ghost wi': nat)
    requires Symmetric(b) && InBounds(b, target) && ti < |initial|
    requires queue != [] && Searching(b, initial, ti, target, maxMoves, queue, w, wi)
    ensures queue[0].configuration[ti] == target ==> solved == Some(queue[0]) && !outOfTime
    ensures solved.None? && !outOfTime ==> budget' < budget && Searching(b, initial, ti, target, maxMoves, queue', w, wi')
    ensures solved.Some? ==> Solved(b, initial, ti, target, asWritten, solved.value) && !outOfTime
    ensures budget' <= budget
  {
    var current := queue[0];
    assert NodeOk(b, initial, current) && |current.configuration| == |initial|;
    queue', budget', solved, outOfTime, wi' := queue[1..], budget, None, false, wi;
    if current.configuration[ti] == target {
      solved := Some(current);
    } else {
      var shortcut, _ := Shortcut(b, target, ti, initial, current, asWritten);
      if shortcut.Some? {
        solved := shortcut;
      } else if budget == 0 {
        outOfTime := true;
      } else {
        budget' := budget - 1;
        if current.moves >= maxMoves {
          wi' := SearchSkip(b, initial, ti, target, maxMoves, queue, w, wi);
        } else {
          var nodes := ExpandNode(b, initial, current);
          QueueExpand(b, initial, maxMoves, queue, nodes);
          wi' := TrackExpand(b, initial, ti, target, maxMoves, queue, w, wi, nodes);
          queue' := queue' + nodes;
        }
      }
    }
  }

  /**
   * solveBruteForce: the breadth-first search from `initial`. The wall-clock
   * deadline is a budget of `maxSteps` checks, spent where the source reads
   * the clock; `exhausted` tells that the search stopped there. `asWritten`
   * selects the shortcut over the map endMoves builds as the source writes it.
   */
  method SolveBruteForce(b: Board, target: Point, ti: nat, initial: Config, maxMoves: int, maxSteps: nat, asWritten: bool)
    returns (solution: Option<seq<Config>>, ghost exhausted: bool)
    requires Symmetric(b) && InBounds(b, target)
    requires ValidConfig(b, initial) && ti < |initial|
    ensures initial[ti] == target ==> solution == Some([initial]) && !exhausted
    ensures solution.Some? ==>
      var s := solution.value;
      && |s| >= 1 && s[0] == initial
      && |s[|s| - 1]| == |initial| && s[|s| - 1][ti] == target
    ensures solution.Some? && !asWritten ==> LegalPath(b, solution.value)
    ensures solution.None? && !exhausted ==> forall p :: !Witness(b, initial, ti, target, maxMoves, p)
  {
    var root := Node(initial, 0, None);
    var queue := [root];
    var budget := maxSteps;
    var solved: Option<Node> := None;
    var outOfTime := false;
    ghost var w := SearchStart(b, initial, ti, target, maxMoves);
    ghost var wi: nat := 0;
    while queue != [] && solved.None? && !outOfTime
      invariant solved.None? && !outOfTime ==> Searching(b, initial, ti, target, maxMoves, queue, w, wi)
      invariant solved.Some? ==> Solved(b, initial, ti, target, asWritten, solved.value) && !outOfTime
      invariant initial[ti] == target ==>
        (solved.None? && !outOfTime && queue == [root]) || (solved == Some(root) && !outOfTime)
      decreases budget, if solved.None? && !outOfTime then 1 else 0
    {
      queue, budget, solved, outOfTime, wi := Poll(b, target, ti, initial, maxMoves, asWritten, queue, budget, w, wi);
    }
    exhausted := outOfTime;
    if solved.None? {
      return None, exhausted;
    }
    SolvedPath(b, initial, ti, target, asWritten, solved.value);
    var path := Unwind(solved.value);
    return Some(path), exhausted;
  }

  /** The search for one puzzle and its outcome, as a Solver object holds them. */
  class Solver {
    const board: Board
    const target: Point
    const targetRobotIndex: nat
    const numberRobots: nat
    const moves: int
    const solution: Option<seq<Config>>
    /** The search stopped on its step budget rather than on an empty queue. */
    ghost const exhausted: bool

    /**
     * Solver(board, robots, target, targetRobot, maxMoves, maxTime) with the
     * robots given by their positions: search, then record the number of
     * moves, -1 when no solution was found.
     */
    constructor (board: Board, robots: seq<Point>, target: Point, targetRobot: nat, maxMoves: int, maxSteps: nat)
      requires Symmetric(board) && InBounds(board, target)
      requires ValidConfig(board, robots) && targetRobot < |robots|
      ensures this.board == board && this.target == target
      ensures targetRobotIndex == targetRobot && numberRobots == |robots|
      ensures solution.None? <==> moves == -1
      ensures solution.Some? ==> moves == |solution.value| - 1
      ensures solution.Some? ==>
        var s := solution.value;
        && |s| >= 1 && s[0] == robots
        && |s[|s| - 1]| == |robots| && s[|s| - 1][targetRobot] == target
        && LegalPath(board, s)
      ensures solution.None? && !exhausted ==> forall p :: !Witness(board, robots, targetRobot, target, maxMoves, p)
    {
      this.board := board;
      this.target := target;
      this.numberRobots := |robots|;
      this.targetRobotIndex := targetRobot;
      var found, stopped := SolveBruteForce(board, target, targetRobot, robots, maxMoves, maxSteps, false);
      this.solution := found;
      this.exhausted := stopped;
      this.moves := if found.None? then -1 else |found.value| - 1;
    }
  }
}
