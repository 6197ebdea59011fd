/**
 * Stitching the lane graphs of neighbouring road tiles into one graph
 * (`joinNodes`, `setRCN` and `joinNodesGrid` in sence.js).
 *
 * Every road tile carries, per side, a bundle of four nodes (or none) and a list of
 * root nodes.  Tiles are kept in an object keyed by the string `${x}${y}`; joining
 * walks that object and connects each tile to its four neighbours, guarded by
 * per-side join flags on both tiles.
 */
module TileStitching {
  import opened Wrappers
  import opened LaneGraph

  /** The grid position of a tile. */
  datatype Position = Position(x: int, y: int)

  /** The four sides of a tile. */
  datatype Side = LeftSide | RightSide | TopSide | BottomSide

  class Tile {
    const position: Position
    const left: Option<seq<Node>>
    const right: Option<seq<Node>>
    const top: Option<seq<Node>>
    const bottom: Option<seq<Node>>
    const roots: seq<Node>
    var isJoinLeft: bool
    var isJoinRight: bool
    var isJoinTop: bool
    var isJoinBottom: bool

    constructor (position: Position, left: Option<seq<Node>>, right: Option<seq<Node>>,
                 top: Option<seq<Node>>, bottom: Option<seq<Node>>, roots: seq<Node>)
      ensures this.position == position && this.roots == roots
      ensures this.left == left && this.right == right && this.top == top && this.bottom == bottom
      ensures !isJoinLeft && !isJoinRight && !isJoinTop && !isJoinBottom
    {
      this.position := position;
      this.left, this.right, this.top, this.bottom := left, right, top, bottom;
      this.roots := roots;
      isJoinLeft, isJoinRight, isJoinTop, isJoinBottom := false, false, false, false;
    }

    /** Every bundle that is present has the four nodes `joinNodes` indexes. */
    predicate Valid()
    {
      (left.Some? ==> |left.value| >= 4) && (right.Some? ==> |right.value| >= 4) &&
      (top.Some? ==> |top.value| >= 4) && (bottom.Some? ==> |bottom.value| >= 4)
    }

    /** The nodes of all bundles and roots. */
    function Nodes(): set<Node>
    {
      (set n | left.Some? && n in left.value) + (set n | right.Some? && n in right.value) +
      (set n | top.Some? && n in top.value) + (set n | bottom.Some? && n in bottom.value) +
      (set n | n in roots)
    }

    /** The join flag of side `s`. */
    function Flag(s: Side): bool
      reads this
    {
      match s
      case LeftSide => isJoinLeft
      case RightSide => isJoinRight
      case TopSide => isJoinTop
      case BottomSide => isJoinBottom
    }

    /** Sets the join flag of side `s`, leaving the other three alone. */
    method SetFlag(s: Side)
      modifies this
      ensures Flag(s)
      ensures forall t :: t != s ==> Flag(t) == old(Flag(t))
    {
      match s
      case LeftSide => isJoinLeft := true;
      case RightSide => isJoinRight := true;
      case TopSide => isJoinTop := true;
      case BottomSide => isJoinBottom := true;
    }
  }

  // ---------------------------------------------------------------------------
  // joinNodes
  // ---------------------------------------------------------------------------

  /** One connection `node.connectToRootNode(root)` or `node.connectToEndNode(end)`. */
  datatype Op = ToRoot(node: Node, root: Node) | ToEnd(node: Node, end: Node)

  /**
   * The four connections between a facing pair of bundles: the two root lanes of
   * `a` take over the children of `b`'s first two nodes, and `b`'s last two nodes
   * take `a`'s last two as children.
   */
  function Connect(a: seq<Node>, b: seq<Node>): (ops: seq<Op>)
    requires |a| >= 4 && |b| >= 4
    ensures |ops| == 4
  {
    [ToRoot(a[0], b[0]), ToRoot(a[1], b[1]), ToEnd(b[2], a[2]), ToEnd(b[3], a[3])]
  }

  /** The connections `joinNodes(n1, n2, direction)` makes, in order. */
  function JoinPlan(n1: Tile, n2: Tile, direction: string): seq<Op>
    requires n1.Valid() && n2.Valid()
  {
    if direction == "Right" && n2.left.Some? && n1.right.Some? then Connect(n2.left.value, n1.right.value)
    else if direction == "Left" && n1.left.Some? && n2.right.Some? then Connect(n1.left.value, n2.right.value)
    else if direction == "Bottom" && n1.bottom.Some? && n2.top.Some? then Connect(n1.bottom.value, n2.top.value)
    else if direction == "Top" && n2.bottom.Some? && n1.top.Some? then Connect(n2.bottom.value, n1.top.value)
    else []
  }

  /** Joining `a` to its right neighbour `b` makes the same connections as joining `b` to its left neighbour `a`. */
  lemma JoinRightIsJoinLeft(a: Tile, b: Tile)
    requires a.Valid() && b.Valid()
    ensures JoinPlan(a, b, "Right") == JoinPlan(b, a, "Left")
  {
  }

  /** Joining `a` to the tile `b` below it makes the same connections as joining `b` to the tile `a` above it. */
  lemma JoinBottomIsJoinTop(a: Tile, b: Tile)
    requires a.Valid() && b.Valid()
    ensures JoinPlan(a, b, "Bottom") == JoinPlan(b, a, "Top")
  {
  }

  /**
   * `joinNodes` connects something exactly when the direction is one of the four
   * names and both facing bundles are present; it then makes four connections.
   */
  lemma JoinPlanCases(n1: Tile, n2: Tile, direction: string)
    requires n1.Valid() && n2.Valid()
    ensures JoinPlan(n1, n2, direction) != [] <==>
              (direction == "Right" && n2.left.Some? && n1.right.Some?) ||
              (direction == "Left" && n1.left.Some? && n2.right.Some?) ||
              (direction == "Bottom" && n1.bottom.Some? && n2.top.Some?) ||
              (direction == "Top" && n2.bottom.Some? && n1.top.Some?)
    ensures JoinPlan(n1, n2, direction) != [] ==> |JoinPlan(n1, n2, direction)| == 4
  {
  }

  /** The nodes an operation touches. */
  function OpNodes(op: Op): set<Node>
  {
    match op
    case ToRoot(n, r) => {n, r}
    case ToEnd(n, e) => {n, e}
  }

  /** The connections between two bundles touch only their first four nodes. */
  lemma ConnectWithin(a: seq<Node>, b: seq<Node>, S: set<Node>)
    requires |a| >= 4 && |b| >= 4
    requires forall i :: 0 <= i < 4 ==> a[i] in S && b[i] in S
    ensures forall op :: op in Connect(a, b) ==> OpNodes(op) <= S
  {
    assert a[0] in S && a[1] in S && a[2] in S && a[3] in S;
    assert b[0] in S && b[1] in S && b[2] in S && b[3] in S;
  }

  /** Every node a plan touches belongs to one of the two tiles. */
  lemma JoinPlanNodes(n1: Tile, n2: Tile, direction: string)
    requires n1.Valid() && n2.Valid()
    ensures forall op :: op in JoinPlan(n1, n2, direction) ==> OpNodes(op) <= n1.Nodes() + n2.Nodes()
  {
    var S := n1.Nodes() + n2.Nodes();
    if direction == "Right" && n2.left.Some? && n1.right.Some? {
      ConnectWithin(n2.left.value, n1.right.value, S);
    } else if direction == "Left" && n1.left.Some? && n2.right.Some? {
      ConnectWithin(n1.left.value, n2.right.value, S);
    } else if direction == "Bottom" && n1.bottom.Some? && n2.top.Some? {
      ConnectWithin(n1.bottom.value, n2.top.value, S);
    } else if direction == "Top" && n2.bottom.Some? && n1.top.Some? {
      ConnectWithin(n2.bottom.value, n1.top.value, S);
    }
  }

  // ---------------------------------------------------------------------------
  // The effect of the connections on the nodes
  // ---------------------------------------------------------------------------

  /** The part of a node that joining can change. */
  datatype NodeState = NodeState(children: seq<Node>, isParent: bool)

  /** A snapshot of the nodes of `U`. */
  function Snap(U: set<Node>): (g: map<Node, NodeState>)
    reads U
    ensures g.Keys == U
    ensures forall n :: n in U ==> g[n] == NodeState(n.children, n.isParent)
  {
    map n | n in U :: NodeState(n.children, n.isParent)
  }

  /**
   * One connection on a snapshot.  `connectToEndNode(end)` is `addChild(end)`: `end`
   * is pushed unless present and then loses `isParent`.  `connectToRootNode(root)`
   * clears `root.isParent` and adds `root`'s children (as they were) one by one, each
   * newly added child losing `isParent`.
   */
  function StepOp(g: map<Node, NodeState>, op: Op): (r: map<Node, NodeState>)
    requires OpNodes(op) <= g.Keys
    ensures r.Keys == g.Keys
  {
    match op
    case ToEnd(n, e) =>
      var g1 := g[n := g[n].(children := WithChild(g[n].children, e))];
      g1[e := g1[e].(isParent := g[e].isParent && e in g[n].children)]
    case ToRoot(n, r) =>
      var rc := g[r].children;
      map m | m in g :: NodeState(
        if m == n then WithChildren(g[n].children, rc) else g[m].children,
        if m == r then false else if m in rc then g[m].isParent && m in g[n].children else g[m].isParent)
  }

  /** All nodes the connections touch lie in `K`. */
  predicate Within(ops: seq<Op>, K: set<Node>)
  {
    forall op :: op in ops ==> OpNodes(op) <= K
  }

  /** The connections performed in order on a snapshot. */
  function Apply(g: map<Node, NodeState>, ops: seq<Op>): (r: map<Node, NodeState>)
    requires Within(ops, g.Keys)
    ensures r.Keys == g.Keys
  {
    if ops == [] then g
    else
      assert Within(ops[..|ops| - 1], g.Keys) by {
        forall op | op in ops[..|ops| - 1] ensures OpNodes(op) <= g.Keys {
          assert op in ops;
        }
      }
      StepOp(Apply(g, ops[..|ops| - 1]), ops[|ops| - 1])
  }

  /**
   * What one connection does: no child is dropped and no `isParent` comes back; only
   * the connection's own node gains children; an end target becomes a child of the
   * node, and a root loses `isParent` and its children become children of the node.
   */
  lemma StepFacts(g: map<Node, NodeState>, op: Op)
    requires OpNodes(op) <= g.Keys
    ensures forall m :: m in g ==>
              (forall c :: c in g[m].children ==> c in StepOp(g, op)[m].children) &&
              (!g[m].isParent ==> !StepOp(g, op)[m].isParent)
    ensures forall m :: m in g && m != op.node ==> StepOp(g, op)[m].children == g[m].children
    ensures op.ToEnd? ==> op.end in StepOp(g, op)[op.node].children
    ensures op.ToRoot? ==> (!StepOp(g, op)[op.root].isParent &&
              forall c :: c in g[op.root].children ==> c in StepOp(g, op)[op.node].children)
  {
    match op
    case ToEnd(n, e) =>
      WithChildFacts(g[n].children, e);
    case ToRoot(n, r) =>
      WithChildrenFacts(g[n].children, g[r].children);
  }

  /** The connections of a prefix lie in `K` too. */
  lemma WithinFront(ops: seq<Op>, K: set<Node>)
    requires ops != [] && Within(ops, K)
    ensures Within(ops[..|ops| - 1], K) && OpNodes(ops[|ops| - 1]) <= K
    ensures forall op :: op in ops <==> op in ops[..|ops| - 1] || op == ops[|ops| - 1]
  {
    assert ops == ops[..|ops| - 1] + [ops[|ops| - 1]];
  }

  /** Performing connections drops no child and gives no node its `isParent` back. */
  lemma {:induction false} ApplyGrows(g: map<Node, NodeState>, ops: seq<Op>)
    requires Within(ops, g.Keys)
    ensures forall m :: m in g ==>
              (forall c :: c in g[m].children ==> c in Apply(g, ops)[m].children) &&
              (!g[m].isParent ==> !Apply(g, ops)[m].isParent)
  {
    if ops != [] {
      WithinFront(ops, g.Keys);
      ApplyGrows(g, ops[..|ops| - 1]);
      StepFacts(Apply(g, ops[..|ops| - 1]), ops[|ops| - 1]);
    }
  }

  /** A node that no connection starts from keeps its children. */
  lemma {:induction false} ApplyFrame(g: map<Node, NodeState>, ops: seq<Op>, m: Node)
    requires Within(ops, g.Keys) && m in g
    requires forall op :: op in ops ==> op.node != m
    ensures Apply(g, ops)[m].children == g[m].children
  {
    if ops != [] {
      WithinFront(ops, g.Keys);
      ApplyFrame(g, ops[..|ops| - 1], m);
      StepFacts(Apply(g, ops[..|ops| - 1]), ops[|ops| - 1]);
    }
  }

  /**
   * After the connections, every end target is a child of its node, and every root
   * has lost `isParent` and its original children are children of its node.
   */
  lemma {:induction false} ApplyReaches(g: map<Node, NodeState>, ops: seq<Op>)
    requires Within(ops, g.Keys)
    ensures forall op :: op in ops && op.ToEnd? ==> op.end in Apply(g, ops)[op.node].children
    ensures forall op :: op in ops && op.ToRoot? ==>
              !Apply(g, ops)[op.root].isParent &&
              forall c :: c in g[op.root].children ==> c in Apply(g, ops)[op.node].children
  {
    if ops != [] {
      var front := ops[..|ops| - 1];
      WithinFront(ops, g.Keys);
      ApplyReaches(g, front);
      ApplyGrows(g, front);
      StepFacts(Apply(g, front), ops[|ops| - 1]);
    }
  }

  /** Performs one connection between nodes of `U`, which is closed under children. */
  method ApplyOp(op: Op, ghost U: set<Node>)
    requires Closed(U) && OpNodes(op) <= U
    modifies U
    ensures Closed(U)
    ensures Snap(U) == StepOp(old(Snap(U)), op)
  {
    match op
    case ToRoot(n, r) => ApplyToRoot(n, r, U);
    case ToEnd(n, e) => ApplyToEnd(n, e, U);
  }

  /** `n.connectToRootNode(r)` on a snapshot. */
  method ApplyToRoot(n: Node, r: Node, ghost U: set<Node>)
    requires Closed(U) && n in U && r in U
    modifies U
    ensures Closed(U)
    ensures Snap(U) == StepOp(old(Snap(U)), ToRoot(n, r))
  {
    ghost var g := Snap(U);
    n.ConnectToRootNode(r);
    WithChildrenFacts(old(n.children), old(r.children));
    ghost var h := StepOp(g, ToRoot(n, r));
    forall m | m in U ensures Snap(U)[m] == h[m] {
      if m != n && m != r && m !in old(r.children) {
        assert h[m] == g[m];
      }
    }
  }

  /** `n.connectToEndNode(e)` on a snapshot. */
  method ApplyToEnd(n: Node, e: Node, ghost U: set<Node>)
    requires Closed(U) && n in U && e in U
    modifies U
    ensures Closed(U)
    ensures Snap(U) == StepOp(old(Snap(U)), ToEnd(n, e))
  {
    ghost var g := Snap(U);
    n.ConnectToEndNode(e);
    WithChildFacts(old(n.children), e);
    ghost var h := StepOp(g, ToEnd(n, e));
    forall m | m in U ensures Snap(U)[m] == h[m] {
      if m != n && m != e {
        assert h[m] == g[m];
      }
    }
  }

  /** Performs the connections in order; the nodes of `U` end as `Apply` says. */
  method ApplyOps(ops: seq<Op>, ghost U: set<Node>)
    requires Closed(U) && Within(ops, U)
    modifies U
    ensures Closed(U)
    ensures Snap(U) == Apply(old(Snap(U)), ops)
  {
    for i := 0 to |ops|
      invariant Closed(U)
      invariant Snap(U) == Apply(old(Snap(U)), ops[..i])
    {
      assert ops[..i + 1][..i] == ops[..i];
      assert OpNodes(ops[i]) <= U;
      ApplyOp(ops[i], U);
    }
    assert ops[..|ops|] == ops;
  }

  /**
   * `joinNodes(n1, n2, direction)`: the nodes end as the plan's connections leave
   * them, and when the plan is empty (a facing bundle missing, or a direction other
   * than the four names) no node changes.
   */
  method JoinNodes(n1: Tile, n2: Tile, direction: string, ghost U: set<Node>)
    requires n1.Valid() && n2.Valid() && Closed(U) && n1.Nodes() + n2.Nodes() <= U
    modifies U
    ensures Closed(U)
    ensures Within(JoinPlan(n1, n2, direction), U)
    ensures Snap(U) == Apply(old(Snap(U)), JoinPlan(n1, n2, direction))
    ensures JoinPlan(n1, n2, direction) == [] ==>
              forall n :: n in U ==> n.children == old(n.children) && n.isParent == old(n.isParent)
  {
    JoinPlanNodes(n1, n2, direction);
    ApplyOps(JoinPlan(n1, n2, direction), U);
    if JoinPlan(n1, n2, direction) == [] {
      forall n | n in U ensures n.children == old(n.children) && n.isParent == old(n.isParent) {
        assert Snap(U)[n] == old(Snap(U))[n];
      }
    }
  }

  // ---------------------------------------------------------------------------
  // Tile keys
  // ---------------------------------------------------------------------------

  function Digit(d: nat): char
    requires d < 10
  {
    "0123456789"[d]
  }

  /** The decimal digits of `n`, as a template literal prints them. */
  function NatToString(n: nat): string
  {
    if n < 10 then [Digit(n)] else NatToString(n / 10) + [Digit(n % 10)]
  }

  function IntToString(i: int): string
  {
    if i < 0 then "-" + NatToString(-i) else NatToString(i)
  }

  /** The key `${x}${y}` under which `setRCN` stores a tile. */
  function Key(p: Position): string
  {
    IntToString(p.x) + IntToString(p.y)
  }

  /**
   * The key is not injective: positions `(1, 12)` and `(11, 2)` share the key "112",
   * so the later `setRCN` replaces the earlier tile.
   */
  lemma KeyCollides()
    ensures Key(Position(1, 12)) == "112" == Key(Position(11, 2))
  {
    assert NatToString(12) == NatToString(1) + [Digit(2)];
    assert NatToString(11) == NatToString(1) + [Digit(1)];
  }

  /** `setRCN(tile)`: the tile is stored under its key, replacing any tile already there. */
  function SetRCN(tiles: map<string, Tile>, tile: Tile): (r: map<string, Tile>)
    ensures Key(tile.position) in r && r[Key(tile.position)] == tile
    ensures forall k :: k != Key(tile.position) ==> (k in r <==> k in tiles) && (k in tiles ==> r[k] == tiles[k])
  {
    tiles[Key(tile.position) := tile]
  }

  // ---------------------------------------------------------------------------
  // joinNodesGrid
  // ---------------------------------------------------------------------------

  /** The union of the root lists of the tiles under `order`, in insertion order, as a `Set` keeps it. */
  function AllRoots(tiles: map<string, Tile>, order: seq<string>): seq<Node>
    requires forall k :: k in order ==> k in tiles
  {
    if order == [] then []
    else WithChildren(AllRoots(tiles, order[..|order| - 1]), tiles[order[|order| - 1]].roots)
  }

  /**
   * The roots collected are exactly the roots of the visited tiles, each once: the
   * set does not depend on the order in which the tiles are visited.
   */
  lemma {:induction false} AllRootsFacts(tiles: map<string, Tile>, order: seq<string>)
    requires forall k :: k in order ==> k in tiles
    ensures NoDup(AllRoots(tiles, order))
    ensures forall n :: n in AllRoots(tiles, order) <==> exists k :: k in order && n in tiles[k].roots
  {
    if order != [] {
      var front, k := order[..|order| - 1], order[|order| - 1];
      AllRootsFacts(tiles, front);
      WithChildrenFacts(AllRoots(tiles, front), tiles[k].roots);
      assert forall j :: j in order <==> j in front || j == k by {
        assert order == front + [k];
      }
    }
  }

  /** `Array.from(roots).filter((n) => n.isParent)`. */
  function Parents(s: seq<Node>): seq<Node>
    reads set n | n in s
  {
    if s == [] then [] else Parents(s[..|s| - 1]) + (if s[|s| - 1].isParent then [s[|s| - 1]] else [])
  }

  /** The filter keeps exactly the nodes that still have `isParent`, without duplicates. */
  lemma {:induction false} ParentsFacts(s: seq<Node>)
    ensures forall n :: n in Parents(s) <==> n in s && n.isParent
    ensures NoDup(s) ==> NoDup(Parents(s))
  {
    if s != [] {
      var front := s[..|s| - 1];
      ParentsFacts(front);
      assert s == front + [s[|s| - 1]];
      assert forall n :: n in s <==> n in front || n == s[|s| - 1];
    }
  }

  /** The side facing `s` on the neighbouring tile. */
  function Opposite(s: Side): Side
  {
    match s
    case LeftSide => RightSide
    case RightSide => LeftSide
    case TopSide => BottomSide
    case BottomSide => TopSide
  }

  /** The `direction` argument `joinNodesGrid` passes for side `s`. */
  function Name(s: Side): string
  {
    match s
    case LeftSide => "Left"
    case RightSide => "Right"
    case TopSide => "Top"
    case BottomSide => "Bottom"
  }

  /** The position of the neighbour on side `s`: `y` grows downwards. */
  function Neighbour(p: Position, s: Side): Position
  {
    match s
    case LeftSide => Position(p.x - 1, p.y)
    case RightSide => Position(p.x + 1, p.y)
    case TopSide => Position(p.x, p.y - 1)
    case BottomSide => Position(p.x, p.y + 1)
  }

  /** The order of the four guarded blocks in `joinNodesGrid`'s loop body. */
  const Sides: seq<Side> := [LeftSide, RightSide, TopSide, BottomSide]

  /** One side flag, `isJoin<side>` of `tile`. */
  datatype Mark = Mark(tile: Tile, side: Side)

  /** The flags of the tiles in `T` are set exactly for the marks in `F`. */
  predicate FlagsAre(T: set<Tile>, F: set<Mark>)
    reads T
  {
    forall t, s :: t in T ==> (t.Flag(s) <==> Mark(t, s) in F)
  }

  /** A call `joinNodes(value, other, Name(side))` made by `joinNodesGrid`. */
  datatype Join = Join(value: Tile, other: Tile, side: Side)

  /** The two flags set before a join: the neighbour's facing side and `value`'s own. */
  function JoinMarks(j: Join): set<Mark>
  {
    {Mark(j.other, Opposite(j.side)), Mark(j.value, j.side)}
  }

  /** The flags set by a sequence of joins. */
  function MarkSet(js: seq<Join>): set<Mark>
  {
    if js == [] then {} else MarkSet(js[..|js| - 1]) + JoinMarks(js[|js| - 1])
  }

  lemma {:induction false} MarkSetConcat(a: seq<Join>, b: seq<Join>)
    ensures MarkSet(a + b) == MarkSet(a) + MarkSet(b)
  {
    if b != [] {
      var ab := a + b;
      assert ab[..|ab| - 1] == a + b[..|b| - 1];
      assert ab[|ab| - 1] == b[|b| - 1];
      MarkSetConcat(a, b[..|b| - 1]);
      assert MarkSet(ab) == MarkSet(a + b[..|b| - 1]) + JoinMarks(b[|b| - 1]);
      assert MarkSet(b) == MarkSet(b[..|b| - 1]) + JoinMarks(b[|b| - 1]);
    } else {
      assert a + b == a;
    }
  }

  lemma {:induction false} MarkSetHas(js: seq<Join>, i: nat)
    requires i < |js|
    ensures JoinMarks(js[i]) <= MarkSet(js)
  {
    if i < |js| - 1 {
      MarkSetHas(js[..|js| - 1], i);
    }
  }

  /**
   * One guarded block of `joinNodesGrid` for `value` and side `s`, with the flags
   * `F` set: the tile under the neighbour's key is joined when it exists and neither
   * its facing flag nor `value`'s own flag is set.  `key` maps a position to the key
   * its tile is stored under; `joinNodesGrid` uses `Key`, and the lemmas below hold
   * for any key function.
   */
  function SideJoin(tiles: map<string, Tile>, key: Position -> string, F: set<Mark>, value: Tile, s: Side): seq<Join>
  {
    var k := key(Neighbour(value.position, s));
    if k in tiles && Mark(tiles[k], Opposite(s)) !in F && Mark(value, s) !in F then [Join(value, tiles[k], s)] else []
  }

  /** The guarded blocks for `sides`, in order, each seeing the flags the earlier ones set. */
  function TileJoins(tiles: map<string, Tile>, key: Position -> string, F: set<Mark>, value: Tile, sides: seq<Side>): seq<Join>
    decreases |sides|
  {
    if sides == [] then []
    else
      var j := SideJoin(tiles, key, F, value, sides[0]);
      j + TileJoins(tiles, key, F + MarkSet(j), value, sides[1..])
  }

  /** The joins `joinNodesGrid` makes, visiting the tiles under `order` with the flags `F` set at the start. */
  function GridJoins(tiles: map<string, Tile>, key: Position -> string, order: seq<string>, F: set<Mark>): seq<Join>
    requires forall k :: k in order ==> k in tiles
  {
    if order == [] then []
    else
      var front := GridJoins(tiles, key, order[..|order| - 1], F);
      front + TileJoins(tiles, key, F + MarkSet(front), tiles[order[|order| - 1]], Sides)
  }

  /** Visiting one more tile appends its four guarded blocks. */
  lemma GridJoinsSnoc(tiles: map<string, Tile>, key: Position -> string, order: seq<string>, i: nat, F: set<Mark>)
    requires i < |order| && forall k :: k in order ==> k in tiles
    ensures forall k :: k in order[..i] ==> k in tiles
    ensures forall k :: k in order[..i + 1] ==> k in tiles
    ensures order[i] in tiles
    ensures var js := GridJoins(tiles, key, order[..i], F);
      GridJoins(tiles, key, order[..i + 1], F) == js + TileJoins(tiles, key, F + MarkSet(js), tiles[order[i]], Sides)
    ensures AllRoots(tiles, order[..i + 1]) == WithChildren(AllRoots(tiles, order[..i]), tiles[order[i]].roots)
  {
    assert order[..i + 1][..i] == order[..i];
    assert forall k :: k in order[..i] ==> k in order;
    assert forall k :: k in order[..i + 1] ==> k in order;
  }

  /** Each join sets two flags that were set neither in `F` nor by an earlier join. */
  predicate Fresh(js: seq<Join>, F: set<Mark>)
  {
    forall i :: 0 <= i < |js| ==> JoinMarks(js[i]) !! F + MarkSet(js[..i])
  }

  lemma FreshConcat(a: seq<Join>, b: seq<Join>, F: set<Mark>)
    requires Fresh(a, F) && Fresh(b, F + MarkSet(a))
    ensures Fresh(a + b, F)
  {
    forall i | 0 <= i < |a + b| ensures JoinMarks((a + b)[i]) !! F + MarkSet((a + b)[..i]) {
      if i < |a| {
        assert (a + b)[..i] == a[..i];
      } else {
        assert (a + b)[..i] == a + b[..i - |a|];
        MarkSetConcat(a, b[..i - |a|]);
      }
    }
  }

  lemma {:induction false} TileJoinsFresh(tiles: map<string, Tile>, key: Position -> string, F: set<Mark>, value: Tile, sides: seq<Side>)
    ensures Fresh(TileJoins(tiles, key, F, value, sides), F)
    decreases |sides|
  {
    if sides != [] {
      var j := SideJoin(tiles, key, F, value, sides[0]);
      TileJoinsFresh(tiles, key, F + MarkSet(j), value, sides[1..]);
      if j != [] {
        assert MarkSet(j[..0]) == {};
        assert Opposite(sides[0]) != sides[0];
      }
      FreshConcat(j, TileJoins(tiles, key, F + MarkSet(j), value, sides[1..]), F);
    }
  }

  lemma {:induction false} GridJoinsFresh(tiles: map<string, Tile>, key: Position -> string, order: seq<string>, F: set<Mark>)
    requires forall k :: k in order ==> k in tiles
    ensures Fresh(GridJoins(tiles, key, order, F), F)
  {
    if order != [] {
      var front := order[..|order| - 1];
      var js := GridJoins(tiles, key, front, F);
      GridJoinsFresh(tiles, key, front, F);
      TileJoinsFresh(tiles, key, F + MarkSet(js), tiles[order[|order| - 1]], Sides);
      FreshConcat(js, TileJoins(tiles, key, F + MarkSet(js), tiles[order[|order| - 1]], Sides), F);
    }
  }

  /**
   * `joinNodesGrid` joins each shared edge at most once: no two joins set a common
   * flag, so no join repeats a tile side, in either direction, and no join uses a side
   * flagged before the call.
   */
  lemma GridJoinsOnce(tiles: map<string, Tile>, key: Position -> string, order: seq<string>, F: set<Mark>)
    requires forall k :: k in order ==> k in tiles
    ensures var js := GridJoins(tiles, key, order, F);
      forall i, j :: 0 <= i < j < |js| ==> JoinMarks(js[i]) !! JoinMarks(js[j])
    ensures var js := GridJoins(tiles, key, order, F);
      forall i, j :: 0 <= i < j < |js| ==>
        !(js[i].value == js[j].value && js[i].side == js[j].side) &&
        !(js[i].value == js[j].other && js[i].side == Opposite(js[j].side))
    ensures var js := GridJoins(tiles, key, order, F);
      forall i :: 0 <= i < |js| ==> Mark(js[i].value, js[i].side) !in F && Mark(js[i].other, Opposite(js[i].side)) !in F
  {
    var js := GridJoins(tiles, key, order, F);
    GridJoinsFresh(tiles, key, order, F);
    forall i, j | 0 <= i < j < |js| ensures JoinMarks(js[i]) !! JoinMarks(js[j]) {
      MarkSetHas(js[..j], i);
    }
    forall i, j | 0 <= i < j < |js|
      ensures !(js[i].value == js[j].value && js[i].side == js[j].side) &&
              !(js[i].value == js[j].other && js[i].side == Opposite(js[j].side))
    {
      assert Mark(js[i].value, js[i].side) in JoinMarks(js[i]);
    }
  }

  /** The tiles a join connects: a visited tile and the tile under its neighbour's key. */
  predicate NeighbourJoins(tiles: map<string, Tile>, key: Position -> string, js: seq<Join>)
  {
    forall j :: j in js ==>
      j.value in tiles.Values && key(Neighbour(j.value.position, j.side)) in tiles &&
      tiles[key(Neighbour(j.value.position, j.side))] == j.other
  }

  lemma {:induction false} TileJoinsNeighbours(tiles: map<string, Tile>, key: Position -> string, F: set<Mark>, value: Tile, sides: seq<Side>)
    requires value in tiles.Values
    ensures NeighbourJoins(tiles, key, TileJoins(tiles, key, F, value, sides))
    decreases |sides|
  {
    if sides != [] {
      var j := SideJoin(tiles, key, F, value, sides[0]);
      TileJoinsNeighbours(tiles, key, F + MarkSet(j), value, sides[1..]);
    }
  }

  /**
   * Every join connects a visited tile, by the `joinNodes` direction of its side, to
   * the tile stored under that neighbour's key.
   */
  lemma {:induction false} GridJoinsNeighbours(tiles: map<string, Tile>, key: Position -> string, order: seq<string>, F: set<Mark>)
    requires forall k :: k in order ==> k in tiles
    ensures NeighbourJoins(tiles, key, GridJoins(tiles, key, order, F))
  {
    if order != [] {
      var front, last := order[..|order| - 1], order[|order| - 1];
      var js := GridJoins(tiles, key, front, F);
      var tj := TileJoins(tiles, key, F + MarkSet(js), tiles[last], Sides);
      assert GridJoins(tiles, key, order, F) == js + tj;
      GridJoinsNeighbours(tiles, key, front, F);
      assert last in tiles;
      TileJoinsNeighbours(tiles, key, F + MarkSet(js), tiles[last], Sides);
    }
  }

  lemma {:induction false} TileJoinsOf(tiles: map<string, Tile>, key: Position -> string, F: set<Mark>, value: Tile, sides: seq<Side>, j: Join)
    requires j in TileJoins(tiles, key, F, value, sides)
    ensures j.value == value
    decreases |sides|
  {
    var j0 := SideJoin(tiles, key, F, value, sides[0]);
    if j !in j0 {
      TileJoinsOf(tiles, key, F + MarkSet(j0), value, sides[1..], j);
    }
  }

  /** Side `s` of `t` has no neighbour, or its own flag or the neighbour's facing flag is in `G`. */
  predicate Covered(tiles: map<string, Tile>, key: Position -> string, G: set<Mark>, t: Tile, s: Side)
  {
    var k := key(Neighbour(t.position, s));
    k in tiles ==> Mark(t, s) in G || Mark(tiles[k], Opposite(s)) in G
  }

  lemma CoveredMono(tiles: map<string, Tile>, key: Position -> string, G1: set<Mark>, G2: set<Mark>, t: Tile, s: Side)
    requires Covered(tiles, key, G1, t, s) && G1 <= G2
    ensures Covered(tiles, key, G2, t, s)
  {
  }

  /**
   * Every side of a tile that has a neighbour ends with its own flag or the
   * neighbour's facing flag set: the block either found one of them set or set both.
   */
  lemma {:induction false} TileJoinsCover(tiles: map<string, Tile>, key: Position -> string, F: set<Mark>, value: Tile, sides: seq<Side>)
    ensures forall s :: s in sides ==> Covered(tiles, key, F + MarkSet(TileJoins(tiles, key, F, value, sides)), value, s)
    decreases |sides|
  {
    if sides != [] {
      var j := SideJoin(tiles, key, F, value, sides[0]);
      var rest := TileJoins(tiles, key, F + MarkSet(j), value, sides[1..]);
      TileJoinsCover(tiles, key, F + MarkSet(j), value, sides[1..]);
      MarkSetConcat(j, rest);
      assert MarkSet(j) == if j == [] then {} else JoinMarks(j[0]) by {
        if j != [] {
          assert j[..0] == [];
        }
      }
      assert forall s :: s in sides <==> s == sides[0] || s in sides[1..];
    }
  }

  /** The four blocks for one tile cover each of its sides. */
  lemma TileCovers(tiles: map<string, Tile>, key: Position -> string, F: set<Mark>, value: Tile, s: Side)
    ensures Covered(tiles, key, F + MarkSet(TileJoins(tiles, key, F, value, Sides)), value, s)
  {
    TileJoinsCover(tiles, key, F, value, Sides);
    assert s in Sides by {
      assert Sides[0] == LeftSide && Sides[1] == RightSide && Sides[2] == TopSide && Sides[3] == BottomSide;
    }
  }

  /**
   * After `joinNodesGrid`, every side of a visited tile that has a neighbour has its
   * own flag or the neighbour's facing flag set.  With all flags clear at the start,
   * every pair of neighbouring tiles has been joined in one direction or the other.
   */
  lemma {:induction false} GridJoinsCover(tiles: map<string, Tile>, key: Position -> string, order: seq<string>, F: set<Mark>)
    requires forall k :: k in order ==> k in tiles
    ensures forall k, s :: k in order ==> Covered(tiles, key, F + MarkSet(GridJoins(tiles, key, order, F)), tiles[k], s)
  {
    if order != [] {
      var front, last := order[..|order| - 1], order[|order| - 1];
      var js := GridJoins(tiles, key, front, F);
      assert order == front + [last];
      GridJoinsCover(tiles, key, front, F);
      CoverSnoc(tiles, key, front, last, F, js, TileJoins(tiles, key, F + MarkSet(js), tiles[last], Sides));
    }
  }

  /** Visiting one more tile keeps the visited tiles covered and covers the new one. */
  lemma CoverSnoc(tiles: map<string, Tile>, key: Position -> string, front: seq<string>, last: string,
                  F: set<Mark>, js: seq<Join>, tj: seq<Join>)
    requires last in tiles && forall k :: k in front ==> k in tiles
    requires forall k, s :: k in front ==> Covered(tiles, key, F + MarkSet(js), tiles[k], s)
    requires tj == TileJoins(tiles, key, F + MarkSet(js), tiles[last], Sides)
    ensures forall k, s :: k in front + [last] ==> Covered(tiles, key, F + MarkSet(js + tj), tiles[k], s)
  {
    MarkSetConcat(js, tj);
    UnionAssoc(F, MarkSet(js), MarkSet(tj));
    forall k, s | k in front + [last] ensures Covered(tiles, key, F + MarkSet(js + tj), tiles[k], s) {
      if k == last {
        TileCovers(tiles, key, F + MarkSet(js), tiles[last], s);
      } else {
        CoveredMono(tiles, key, F + MarkSet(js), F + MarkSet(js + tj), tiles[k], s);
      }
    }
  }

  lemma UnionAssoc(F: set<Mark>, A: set<Mark>, B: set<Mark>)
    ensures F + (A + B) == F + A + B && F + A <= F + A + B
  {
  }

  /** The tile under key `k`, if any (`roadCordinateNodes[k]`). */
  function Lookup(tiles: map<string, Tile>, k: string): Option<Tile>
  {
    if k in tiles then Some(tiles[k]) else None
  }

  /** Each join's tiles hold the bundles `joinNodes` reads, with their nodes in `K`. */
  predicate Fits(js: seq<Join>, K: set<Node>)
  {
    forall j :: j in js ==> j.value.Valid() && j.other.Valid() && j.value.Nodes() + j.other.Nodes() <= K
  }

  /** The joins performed in order on a snapshot of the nodes. */
  function ApplyJoins(g: map<Node, NodeState>, js: seq<Join>): (r: map<Node, NodeState>)
    requires Fits(js, g.Keys)
    ensures r.Keys == g.Keys
  {
    if js == [] then g
    else
      var last := js[|js| - 1];
      assert last in js;
      assert Fits(js[..|js| - 1], g.Keys) by {
        forall j | j in js[..|js| - 1] ensures j in js { }
      }
      JoinPlanNodes(last.value, last.other, Name(last.side));
      Apply(ApplyJoins(g, js[..|js| - 1]), JoinPlan(last.value, last.other, Name(last.side)))
  }

  lemma {:induction false} ApplyJoinsConcat(g: map<Node, NodeState>, a: seq<Join>, b: seq<Join>)
    requires Fits(a, g.Keys) && Fits(b, g.Keys)
    ensures Fits(a + b, g.Keys)
    ensures ApplyJoins(g, a + b) == ApplyJoins(ApplyJoins(g, a), b)
  {
    if b != [] {
      assert (a + b)[..|a + b| - 1] == a + b[..|b| - 1];
      assert (a + b)[|a + b| - 1] == b[|b| - 1];
      assert Fits(b[..|b| - 1], g.Keys) by {
        forall j | j in b[..|b| - 1] ensures j in b { }
      }
      ApplyJoinsConcat(g, a, b[..|b| - 1]);
    } else {
      assert a + b == a;
    }
  }

  /**
   * One guarded block of `joinNodesGrid`'s loop body: the neighbour on side `side` is
   * looked up by key; when it exists and neither facing flag is set, both flags are
   * set and `joinNodes` is called (whether or not it finds the bundles).
   */
  method JoinSide(tiles: map<string, Tile>, value: Tile, side: Side, ghost U: set<Node>, ghost F: set<Mark>)
    returns (joined: bool, ghost js: seq<Join>)
    requires value in tiles.Values
    requires forall t :: t in tiles.Values ==> t.Valid() && t.Nodes() <= U
    requires Closed(U) && FlagsAre(tiles.Values, F)
    modifies U, tiles.Values
    ensures var k := Key(Neighbour(value.position, side));
      joined <==> k in tiles && !old(tiles[k].Flag(Opposite(side))) && !old(value.Flag(side))
    ensures js == SideJoin(tiles, Key, F, value, side) && (joined <==> js != [])
    ensures Closed(U) && FlagsAre(tiles.Values, F + MarkSet(js)) && Fits(js, U)
    ensures Snap(U) == ApplyJoins(old(Snap(U)), js)
  {
    var neighbour := Lookup(tiles, Key(Neighbour(value.position, side)));
    joined := neighbour.Some? && !neighbour.value.Flag(Opposite(side)) && !value.Flag(side);
    js := [];
    if joined {
      var other := neighbour.value;
      assert other in tiles.Values;
      js := [Join(value, other, side)];
      assert js == SideJoin(tiles, Key, F, value, side);
      assert MarkSet(js) == JoinMarks(js[0]) by {
        assert js[..0] == [];
      }
      ghost var g := Snap(U);
      SetJoinFlags(Join(value, other, side), tiles.Values, F);
      assert Snap(U) == g;
      JoinNodes(value, other, Name(side), U);
      ApplyOneJoin(g, js[0]);
    } else {
      assert SideJoin(tiles, Key, F, value, side) == [];
    }
  }

  /** `other.isJoin<opposite> = true; value.isJoin<side> = true;` */
  method SetJoinFlags(j: Join, ghost T: set<Tile>, ghost F: set<Mark>)
    requires j.value in T && j.other in T && FlagsAre(T, F)
    modifies j.other, j.value
    ensures FlagsAre(T, F + JoinMarks(j))
  {
    j.other.SetFlag(Opposite(j.side));
    j.value.SetFlag(j.side);
    forall t, s | t in T ensures t.Flag(s) <==> Mark(t, s) in F + JoinMarks(j) {
      if t != j.other && t != j.value {
        assert t.Flag(s) == old(t.Flag(s));
      }
    }
  }

  /** A single join performs its plan. */
  lemma ApplyOneJoin(g: map<Node, NodeState>, j: Join)
    requires Fits([j], g.Keys)
    ensures Within(JoinPlan(j.value, j.other, Name(j.side)), g.Keys)
    ensures ApplyJoins(g, [j]) == Apply(g, JoinPlan(j.value, j.other, Name(j.side)))
  {
    assert [j][..0] == [];
    assert j in [j];
    JoinPlanNodes(j.value, j.other, Name(j.side));
  }

  /**
   * The body of `joinNodesGrid`'s loop for one tile: the guarded blocks for the
   * left, right, top and bottom neighbours, in that order.
   */
  method JoinNeighbours(tiles: map<string, Tile>, value: Tile, ghost U: set<Node>, ghost F: set<Mark>)
    returns (ghost js: seq<Join>)
    requires value in tiles.Values
    requires forall t :: t in tiles.Values ==> t.Valid() && t.Nodes() <= U
    requires Closed(U) && FlagsAre(tiles.Values, F)
    modifies U, tiles.Values
    ensures js == TileJoins(tiles, Key, F, value, Sides)
    ensures Closed(U) && FlagsAre(tiles.Values, F + MarkSet(js)) && Fits(js, U)
    ensures forall t, s :: t in tiles.Values && old(t.Flag(s)) ==> t.Flag(s)
    ensures Snap(U) == ApplyJoins(old(Snap(U)), js)
  {
    ghost var g := Snap(U);
    var joined;
    ghost var j1, j2, j3, j4;
    joined, j1 := JoinSide(tiles, value, LeftSide, U, F);
    ghost var h1, F1 := Snap(U), F + MarkSet(j1);
    joined, j2 := JoinSide(tiles, value, RightSide, U, F1);
    ghost var h2, F2 := Snap(U), F1 + MarkSet(j2);
    joined, j3 := JoinSide(tiles, value, TopSide, U, F2);
    ghost var h3, F3 := Snap(U), F2 + MarkSet(j3);
    joined, j4 := JoinSide(tiles, value, BottomSide, U, F3);
    js := j1 + (j2 + (j3 + j4));
    FourSides(tiles, Key, F, value, j1, j2, j3, j4);
    FourApply(g, h1, h2, h3, Snap(U), j1, j2, j3, j4);
  }

  /** The four guarded blocks, threading the flags, make the joins `TileJoins` names. */
  lemma FourSides(tiles: map<string, Tile>, key: Position -> string, F: set<Mark>, value: Tile, j1: seq<Join>, j2: seq<Join>, j3: seq<Join>, j4: seq<Join>)
    requires j1 == SideJoin(tiles, key, F, value, LeftSide)
    requires j2 == SideJoin(tiles, key, F + MarkSet(j1), value, RightSide)
    requires j3 == SideJoin(tiles, key, F + MarkSet(j1) + MarkSet(j2), value, TopSide)
    requires j4 == SideJoin(tiles, key, F + MarkSet(j1) + MarkSet(j2) + MarkSet(j3), value, BottomSide)
    ensures j1 + (j2 + (j3 + j4)) == TileJoins(tiles, key, F, value, Sides)
    ensures F + MarkSet(j1 + (j2 + (j3 + j4))) == F + MarkSet(j1) + MarkSet(j2) + MarkSet(j3) + MarkSet(j4)
  {
    assert Sides[1..] == [RightSide, TopSide, BottomSide];
    assert Sides[1..][1..] == [TopSide, BottomSide];
    assert Sides[1..][1..][1..] == [BottomSide];
    assert Sides[1..][1..][1..][1..] == [];
    assert F + MarkSet(j1) + MarkSet(j2) == F + MarkSet(j1) + MarkSet(j2);
    MarkSetConcat(j3, j4);
    MarkSetConcat(j2, j3 + j4);
    MarkSetConcat(j1, j2 + (j3 + j4));
  }

  /** Four successive batches of joins compose. */
  lemma FourApply(g: map<Node, NodeState>, h1: map<Node, NodeState>, h2: map<Node, NodeState>,
                  h3: map<Node, NodeState>, h4: map<Node, NodeState>,
                  j1: seq<Join>, j2: seq<Join>, j3: seq<Join>, j4: seq<Join>)
    requires Fits(j1, g.Keys) && Fits(j2, g.Keys) && Fits(j3, g.Keys) && Fits(j4, g.Keys)
    requires h1 == ApplyJoins(g, j1) && h2 == ApplyJoins(h1, j2) && h3 == ApplyJoins(h2, j3) && h4 == ApplyJoins(h3, j4)
    ensures Fits(j1 + (j2 + (j3 + j4)), g.Keys)
    ensures h4 == ApplyJoins(g, j1 + (j2 + (j3 + j4)))
  {
    ApplyJoinsConcat(h2, j3, j4);
    ApplyJoinsConcat(h1, j2, j3 + j4);
    ApplyJoinsConcat(g, j1, j2 + (j3 + j4));
  }

  /**
   * `joinNodesGrid()`: visits the tiles in `order` (the object's entry order, a
   * permutation of its keys), makes the guarded joins of each to its left, right, top
   * and bottom neighbours, and returns the collected roots that are still parents.
   * `F` names the flags set at the start (none, for freshly built tiles); `js`
   * records the joins made, in order.
   */
  method JoinNodesGrid(tiles: map<string, Tile>, order: seq<string>, ghost U: set<Node>, ghost F: set<Mark>)
    returns (result: seq<Node>, ghost js: seq<Join>)
    requires forall k :: k in order ==> k in tiles
    requires forall t :: t in tiles.Values ==> t.Valid() && t.Nodes() <= U
    requires Closed(U) && FlagsAre(tiles.Values, F)
    modifies U, tiles.Values
    ensures js == GridJoins(tiles, Key, order, F)
    ensures Closed(U) && FlagsAre(tiles.Values, F + MarkSet(js)) && Fits(js, U)
    ensures forall t, s :: t in tiles.Values && old(t.Flag(s)) ==> t.Flag(s)
    ensures Snap(U) == ApplyJoins(old(Snap(U)), js)
    ensures result == Parents(AllRoots(tiles, order))
  {
    var roots: seq<Node> := [];
    js := [];
    for i := 0 to |order|
      invariant roots == AllRoots(tiles, order[..i])
      invariant js == GridJoins(tiles, Key, order[..i], F)
      invariant Closed(U) && FlagsAre(tiles.Values, F + MarkSet(js)) && Fits(js, U)
      invariant Snap(U) == ApplyJoins(old(Snap(U)), js)
    {
      GridJoinsSnoc(tiles, Key, order, i, F);
      var value := tiles[order[i]];
      ghost var g := Snap(U);
      ghost var tj := JoinNeighbours(tiles, value, U, F + MarkSet(js));
      JoinsExtend(old(Snap(U)), g, Snap(U), js, tj, F);
      js := js + tj;
      roots := WithChildren(roots, value.roots);
    }
    assert order[..|order|] == order;
    result := Parents(roots);
  }

  /** Appending the joins of one more tile to those made so far. */
  lemma JoinsExtend(g0: map<Node, NodeState>, g1: map<Node, NodeState>, g2: map<Node, NodeState>,
                    js: seq<Join>, tj: seq<Join>, F: set<Mark>)
    requires Fits(js, g0.Keys) && Fits(tj, g0.Keys)
    requires g1 == ApplyJoins(g0, js) && g2 == ApplyJoins(g1, tj)
    ensures Fits(js + tj, g0.Keys) && g2 == ApplyJoins(g0, js + tj)
    ensures F + MarkSet(js + tj) == (F + MarkSet(js)) + MarkSet(tj)
  {
    ApplyJoinsConcat(g0, js, tj);
    MarkSetConcat(js, tj);
  }

  /** The returned roots are the visited tiles' roots that kept `isParent`, each once. */
  lemma JoinedRoots(tiles: map<string, Tile>, order: seq<string>)
    requires forall k :: k in order <==> k in tiles
    ensures NoDup(Parents(AllRoots(tiles, order)))
    ensures forall n :: n in Parents(AllRoots(tiles, order)) <==>
              n.isParent && exists k :: k in tiles && n in tiles[k].roots
  {
    AllRootsFacts(tiles, order);
    ParentsFacts(AllRoots(tiles, order));
  }
}
