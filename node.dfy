/**
 * The lane-node graph (node/node.js).
 *
 * A `Node` is a waypoint with a list of successor nodes (`children`), an optional
 * root it was connected to, an optional end node, and an `isParent` flag that stays
 * true while no other node has taken it as a child.  `children` is a JavaScript
 * array that is only ever searched and pushed onto; it is a `seq<Node>` here.
 */
module LaneGraph {

  /** The `{ x, y }` location of a node. */
  datatype Location = Location(x: real, y: real)

  /** No element occurs twice. */
  predicate NoDup<T(==)>(s: seq<T>)
  {
    forall i, j :: 0 <= i < j < |s| ==> s[i] != s[j]
  }

  /** `children` after `addChild(n)`: `n` is pushed unless it is already there. */
  function WithChild<T(==)>(cs: seq<T>, n: T): seq<T>
  {
    if n in cs then cs else cs + [n]
  }

  /** `children` after `addChilds(ns)`: `addChild` for each of `ns` in order. */
  function WithChildren<T(==)>(cs: seq<T>, ns: seq<T>): seq<T>
  {
    if ns == [] then cs else WithChild(WithChildren(cs, ns[..|ns| - 1]), ns[|ns| - 1])
  }

  /**
   * `addChild` never creates a duplicate, always leaves `n` among the children,
   * keeps every earlier child in place, and changes nothing when `n` is already a child.
   */
  lemma WithChildFacts<T>(cs: seq<T>, n: T)
    ensures NoDup(cs) ==> NoDup(WithChild(cs, n))
    ensures forall m :: m in WithChild(cs, n) <==> m in cs || m == n
    ensures |cs| <= |WithChild(cs, n)| && WithChild(cs, n)[..|cs|] == cs
    ensures n in cs <==> WithChild(cs, n) == cs
  {
    if n !in cs {
      assert (cs + [n])[..|cs|] == cs;
      assert (cs + [n])[|cs|] == n;
      assert |cs + [n]| != |cs|;
    }
  }

  /**
   * `addChilds(ns)` keeps the children duplicate-free, and its result holds exactly
   * the old children and the nodes of `ns`, the old children first and in place.
   */
  lemma {:induction false} WithChildrenFacts<T>(cs: seq<T>, ns: seq<T>)
    ensures NoDup(cs) ==> NoDup(WithChildren(cs, ns))
    ensures forall m :: m in WithChildren(cs, ns) <==> m in cs || m in ns
    ensures |cs| <= |WithChildren(cs, ns)| && WithChildren(cs, ns)[..|cs|] == cs
  {
    if ns != [] {
      var front := ns[..|ns| - 1];
      WithChildrenFacts(cs, front);
      WithChildFacts(WithChildren(cs, front), ns[|ns| - 1]);
      assert ns == front + [ns[|ns| - 1]];
      var w := WithChildren(cs, front);
      assert WithChildren(cs, ns)[..|w|] == w;
      assert WithChildren(cs, ns)[..|cs|] == w[..|cs|];
    }
  }

  /** Adding nodes that are all children already changes nothing. */
  lemma {:induction false} WithChildrenOfChildren<T>(cs: seq<T>, ns: seq<T>)
    requires forall m :: m in ns ==> m in cs
    ensures WithChildren(cs, ns) == cs
  {
    if ns != [] {
      WithChildrenOfChildren(cs, ns[..|ns| - 1]);
    }
  }

  /** No node of `U` has a child outside `U`. */
  predicate Closed(U: set<Node>)
    reads U
  {
    forall n, c :: n in U && c in n.children ==> c in U
  }

  /**
   * Between the two states the graph over `U` only grew: no child was dropped, and
   * no node that had lost `isParent` regained it.
   */
  twostate predicate Grew(U: set<Node>)
    reads U
  {
    forall n :: n in U ==>
      (forall c :: c in old(n.children) ==> c in n.children) && (!old(n.isParent) ==> !n.isParent)
  }

  class Node {
    const location: Location
    var children: seq<Node>
    var connectRootNode: Node?
    var endNode: Node?
    var isParent: bool

    /** `new Node({ location })`. */
    constructor (location: Location)
      ensures this.location == location
      ensures children == [] && connectRootNode == null && endNode == null && isParent
    {
      this.location := location;
      children := [];
      connectRootNode := null;
      endNode := null;
      isParent := true;
    }

    /** `resetNode()`: clears `children` and `endNode`; `isParent` and `connectRootNode` stay. */
    method ResetNode()
      modifies this`children, this`endNode
      ensures children == [] && endNode == null
    {
      children := [];
      endNode := null;
    }

    /** `isEndNode()`: a node without children. */
    predicate IsEndNode(): (b: bool)
      reads this
      ensures b <==> children == []
    {
      |children| == 0
    }

    /** `addChild(node)`. */
    method AddChild(node: Node)
      modifies this`children, node`isParent
      ensures children == WithChild(old(children), node)
      ensures node.isParent == (old(node.isParent) && node in old(children))
    {
      if node !in children {
        children := children + [node];
        node.isParent := false;
      }
    }

    /** `addChilds(nodes)`: `addChild` for each node in order. */
    method AddChilds(nodes: seq<Node>)
      modifies this`children, set n | n in nodes
      ensures children == WithChildren(old(children), nodes)
      ensures forall n :: n in nodes ==> n.isParent == (old(n.isParent) && n in old(children))
      ensures forall n :: n in nodes ==> n.connectRootNode == old(n.connectRootNode) && n.endNode == old(n.endNode)
      ensures forall n :: n in nodes && n != this ==> n.children == old(n.children)
    {
      for i := 0 to |nodes|
        invariant children == WithChildren(old(children), nodes[..i])
        invariant forall n :: n in nodes ==>
                    n.isParent == (old(n.isParent) && (n in old(children) || n !in nodes[..i]))
        invariant forall n :: n in nodes ==> n.connectRootNode == old(n.connectRootNode) && n.endNode == old(n.endNode)
        invariant forall n :: n in nodes && n != this ==> n.children == old(n.children)
      {
        assert nodes[..i + 1][..i] == nodes[..i];
        WithChildrenFacts(old(children), nodes[..i]);
        AddChild(nodes[i]);
        assert forall n :: n in nodes[..i + 1] <==> n in nodes[..i] || n == nodes[i];
      }
      assert nodes[..|nodes|] == nodes;
    }

    /**
     * `connectToRootNode(rootNode)`: `rootNode` loses `isParent`, becomes this node's
     * `connectRootNode`, and its children (not itself) are added as this node's children.
     */
    method ConnectToRootNode(rootNode: Node)
      modifies this`connectRootNode, this`children, rootNode`isParent, set n | n in rootNode.children
      ensures connectRootNode == rootNode && !rootNode.isParent
      ensures children == WithChildren(old(children), old(rootNode.children))
      ensures forall n :: n in old(rootNode.children) && n != rootNode ==>
                n.isParent == (old(n.isParent) && n in old(children))
      ensures forall n :: n in old(rootNode.children) && n != this ==>
                n.children == old(n.children) && n.connectRootNode == old(n.connectRootNode)
      ensures forall n :: n in old(rootNode.children) ==> n.endNode == old(n.endNode)
    {
      rootNode.isParent := false;
      connectRootNode := rootNode;
      var nodes := rootNode.children;
      AddChilds(nodes);
    }

    /** `connectToEndNode(endNode)`: exactly `addChild(endNode)`. */
    method ConnectToEndNode(endNode: Node)
      modifies this`children, endNode`isParent
      ensures children == WithChild(old(children), endNode)
      ensures endNode.isParent == (old(endNode.isParent) && endNode in old(children))
    {
      AddChild(endNode);
    }

    /** `setEndNode(node)`. */
    method SetEndNode(node: Node?)
      modifies this`endNode
      ensures endNode == node
    {
      endNode := node;
    }

    /**
     * `getRandomPath()`: walks from this node along randomly chosen children down to an
     * end node, building a fresh chain of nodes with the visited locations.  The choice
     * at step `i` is `Math.floor(random(i) * children.length)`; `rank` is a ghost witness
     * that the walk terminates (the source loops forever on a cycle).
     */
    method GetRandomPath(random: nat -> real, ghost rank: map<Node, nat>)
      returns (root: Node, ghost path: seq<Node>, ghost chain: seq<Node>)
      requires Ranked(rank) && this in rank && RandomOk(random)
      ensures path == Walk(this, random, 0, rank)
      ensures |chain| == |path| && chain[0] == root && root.endNode == chain[|chain| - 1]
      ensures forall j :: 0 <= j < |chain| ==> fresh(chain[j]) && chain[j].location == path[j].location
      ensures Linked(chain) && chain[|chain| - 1].children == []
      ensures root.isParent && Taken(chain)
    {
      path := Walk(this, random, 0, rank);
      WalkSteps(this, random, 0, rank);
      root := new Node(location);
      var rootCurrent := root;
      var current := this;
      var step: nat := 0;
      chain := [root];
      while !current.IsEndNode()
        invariant step < |path| && current == path[step]
        invariant |chain| == step + 1 && chain[0] == root && rootCurrent == chain[step]
        invariant forall j :: 0 <= j < |chain| ==> fresh(chain[j]) && chain[j].location == path[j].location
        invariant Linked(chain) && rootCurrent.children == []
        invariant root.isParent && Taken(chain)
        decreases |path| - step
      {
        var randomIndex := Pick(random(step), |current.children|);
        var child := current.children[randomIndex];
        assert child == path[step + 1];
        var newNode := Extend(rootCurrent, child.location, chain);
        rootCurrent := newNode;
        current := child;
        chain := chain + [newNode];
        step := step + 1;
      }
      SetChainEnd(root, rootCurrent, chain);
    }
  }

  /** `root.endNode = rootCurrent` at the end of `getRandomPath`. */
  method SetChainEnd(root: Node, last: Node, ghost chain: seq<Node>)
    requires Linked(chain) && Taken(chain)
    modifies root`endNode
    ensures root.endNode == last && Linked(chain) && Taken(chain)
  {
    root.endNode := last;
  }

  /** Every node of the chain but the first has lost `isParent`. */
  ghost predicate Taken(chain: seq<Node>)
    reads chain
  {
    forall j :: 0 < j < |chain| ==> !chain[j].isParent
  }

  /** Each node of the chain has the next one as its only child. */
  ghost predicate Linked(chain: seq<Node>)
    reads chain
  {
    forall j :: 0 <= j < |chain| - 1 ==> chain[j].children == [chain[j + 1]]
  }

  /**
   * One step of `getRandomPath`'s loop on the fresh chain: a new node at `location`
   * becomes the only child of the chain's last node.
   */
  method Extend(last: Node, location: Location, ghost chain: seq<Node>) returns (newNode: Node)
    requires chain != [] && last == chain[|chain| - 1] && last.children == [] && Linked(chain)
    modifies last`children
    ensures fresh(newNode) && newNode.location == location
    ensures newNode.children == [] && !newNode.isParent && newNode.endNode == null
    ensures Linked(chain + [newNode]) && last.children == [newNode]
    ensures Taken(chain) ==> Taken(chain + [newNode])
  {
    newNode := new Node(location);
    last.AddChild(newNode);
    var c := chain + [newNode];
    forall j | 0 <= j < |c| - 1 ensures c[j].children == [c[j + 1]] {
      if j < |chain| - 1 {
        assert c[j] == chain[j] && c[j + 1] == chain[j + 1];
        assert chain[j] != last by {
          assert chain[j].children != [];
        }
      }
    }
  }

  /** `rank` strictly decreases along every child edge of the nodes it ranks. */
  ghost predicate Ranked(rank: map<Node, nat>)
    reads rank.Keys
  {
    forall n, c :: n in rank && c in n.children ==> c in rank && rank[c] < rank[n]
  }

  /** Every value of the random source lies in `[0, 1)`, like `Math.random()`. */
  ghost predicate RandomOk(random: nat -> real)
  {
    forall i :: 0.0 <= random(i) < 1.0
  }

  /** `Math.floor(r * len)`, an index into a list of length `len`. */
  function Pick(r: real, len: nat): (index: nat)
    requires 0.0 <= r < 1.0 && len > 0
    ensures index < len
  {
    PickBounds(r, len);
    (r * len as real).Floor
  }

  lemma PickBounds(r: real, len: nat)
    requires 0.0 <= r < 1.0 && len > 0
    ensures 0 <= (r * len as real).Floor < len
  {
    assert r * len as real < len as real;
  }

  /** The original nodes `getRandomPath` visits, starting at `n` with choice number `i`. */
  ghost function Walk(n: Node, random: nat -> real, i: nat, rank: map<Node, nat>): (path: seq<Node>)
    requires Ranked(rank) && n in rank && RandomOk(random)
    reads rank.Keys
    ensures path != [] && path[0] == n
    decreases rank[n]
  {
    if n.children == [] then [n]
    else [n] + Walk(n.children[Pick(random(i), |n.children|)], random, i + 1, rank)
  }

  /**
   * The walk follows child edges and stops at the first end node: step `j` goes to
   * child number `Math.floor(random(i + j) * children.length)` of the node before,
   * and only the last node has no children.
   */
  lemma {:induction false} WalkSteps(n: Node, random: nat -> real, i: nat, rank: map<Node, nat>)
    requires Ranked(rank) && n in rank && RandomOk(random)
    ensures var path := Walk(n, random, i, rank);
      && (forall j :: 0 <= j < |path| ==> path[j] in rank)
      && (forall j :: 0 <= j < |path| - 1 ==>
            path[j].children != [] && path[j + 1] == path[j].children[Pick(random(i + j), |path[j].children|)])
      && path[|path| - 1].children == []
    decreases rank[n]
  {
    if n.children != [] {
      var child := n.children[Pick(random(i), |n.children|)];
      WalkSteps(child, random, i + 1, rank);
      var rest := Walk(child, random, i + 1, rank);
      assert Walk(n, random, i, rank) == [n] + rest;
    }
  }

  /** The walk is as long as the rank allows at most: one node per rank level. */
  lemma {:induction false} WalkLength(n: Node, random: nat -> real, i: nat, rank: map<Node, nat>)
    requires Ranked(rank) && n in rank && RandomOk(random)
    ensures |Walk(n, random, i, rank)| <= rank[n] + 1
    decreases rank[n]
  {
    if n.children != [] {
      WalkLength(n.children[Pick(random(i), |n.children|)], random, i + 1, rank);
    }
  }
}
