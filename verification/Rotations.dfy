/** r3_tree.h: the sequential helpers on a search tree, in particular the two rotations. */
module Rotations {
  import opened Tree

  const UINT16: nat := 0x1_0000

  class Node {
    const key: Key
    var value: nat
    var prev: Node?
    var next: Node?
    /** How many nodes are below on either side, modulo the width of uint16_t. */
    var prevDepth: nat
    var nextDepth: nat

    /** tree_init */
    constructor (key: Key, value: nat)
      ensures this.key == key && this.value == value
      ensures IsTree(this, Branch(Leaf, this, Leaf)) && Counted(Branch(Leaf, this, Leaf))
    {
      this.key := key;
      this.value := value;
      prev := null;
      next := null;
      prevDepth := 0;
      nextDepth := 0;
      new;
      OneNode(this);
    }

    /** _depth: the size of the subtree, modulo the width. */
    function Depth(): nat
      reads this
    {
      (nextDepth + prevDepth + 1) % UINT16
    }
  }

  /** The shape of a tree: which node is where. */
  datatype Shape = Leaf | Branch(left: Shape, node: Node, right: Shape)

  /** The nodes from left to right. */
  ghost function InOrder(t: Shape): seq<Node> {
    match t
    case Leaf => []
    case Branch(l, x, r) => InOrder(l) + [x] + InOrder(r)
  }

  ghost function Within(t: Shape): set<Node> {
    match t
    case Leaf => {}
    case Branch(l, x, r) => Within(l) + {x} + Within(r)
  }

  /** No node is in two places. */
  ghost predicate Apart(t: Shape) {
    match t
    case Leaf => true
    case Branch(l, x, r) => x !in Within(l) && x !in Within(r) && Within(l) !! Within(r) && Apart(l) && Apart(r)
  }

  ghost predicate Linked(root: Node?, t: Shape)
    reads Within(t)
    decreases t
  {
    match t
    case Leaf => root == null
    case Branch(l, x, r) =>
      root == x && Linked(x.prev, l) && Linked(x.next, r)
  }

  /** `root` is the root of a tree of shape `t`: no node is reached twice. */
  ghost predicate IsTree(root: Node?, t: Shape)
    reads Within(t)
  {
    Linked(root, t) && Apart(t)
  }

  /** Both counts of every node are right. */
  ghost predicate Counted(t: Shape)
    reads Within(t)
    decreases t
  {
    match t
    case Leaf => true
    case Branch(l, x, r) =>
      && x.prevDepth == |InOrder(l)| % UINT16 && x.nextDepth == |InOrder(r)| % UINT16
      && Counted(l) && Counted(r)
  }

  /** Every node sends the keys to its left left and those to its right right. */
  ghost predicate Searchable(t: Shape) {
    match t
    case Leaf => true
    case Branch(l, x, r) =>
      && (forall y :: y in Within(l) ==> Cmp(y.key, x.key) < 0)
      && (forall y :: y in Within(r) ==> Cmp(y.key, x.key) > 0)
      && Searchable(l) && Searchable(r)
  }

  lemma OneNode(x: Node)
    requires x.prev == null && x.next == null && x.prevDepth == 0 && x.nextDepth == 0
    ensures IsTree(x, Branch(Leaf, x, Leaf)) && Counted(Branch(Leaf, x, Leaf))
  {
    assert InOrder(Branch(Leaf, x, Leaf)) == [x];
  }

  // ----- rotations

  predicate CanTurnRight(t: Shape) { t.Branch? && t.left.Branch? }
  predicate CanTurnLeft(t: Shape) { t.Branch? && t.right.Branch? }

  ghost function TurnedRight(t: Shape): Shape
    requires CanTurnRight(t)
  {
    Branch(t.left.left, t.left.node, Branch(t.left.right, t.node, t.right))
  }

  ghost function TurnedLeft(t: Shape): Shape
    requires CanTurnLeft(t)
  {
    Branch(Branch(t.left, t.node, t.right.left), t.right.node, t.right.right)
  }

  /** A rotation moves no node past another. */
  lemma TurnKeepsOrder(t: Shape)
    ensures CanTurnRight(t) ==> InOrder(TurnedRight(t)) == InOrder(t)
    ensures CanTurnLeft(t) ==> InOrder(TurnedLeft(t)) == InOrder(t)
  {
    if CanTurnRight(t) {
      var a, p, b, n, c :=
        InOrder(t.left.left), [t.left.node], InOrder(t.left.right), [t.node], InOrder(t.right);
      assert ((a + p) + b) + n + c == (a + p) + ((b + n) + c);
    }
    if CanTurnLeft(t) {
      var a, n, b, p, c :=
        InOrder(t.left), [t.node], InOrder(t.right.left), [t.right.node], InOrder(t.right.right);
      assert (a + n) + ((b + p) + c) == (((a + n) + b) + p) + c;
    }
  }

  lemma TurnKeepsApart(t: Shape)
    requires Apart(t)
    ensures CanTurnRight(t) ==> Apart(TurnedRight(t)) && t.node != t.left.node
    ensures CanTurnLeft(t) ==> Apart(TurnedLeft(t)) && t.node != t.right.node
  {
    if CanTurnRight(t) {
      var down := Branch(t.left.right, t.node, t.right);
      assert Apart(t.left) && Within(t.left) == Within(t.left.left) + {t.left.node} + Within(t.left.right);
      assert Apart(down) && Within(down) == Within(t.left.right) + {t.node} + Within(t.right);
    }
    if CanTurnLeft(t) {
      var down := Branch(t.left, t.node, t.right.left);
      assert Apart(t.right) && Within(t.right) == Within(t.right.left) + {t.right.node} + Within(t.right.right);
      assert Apart(down) && Within(down) == Within(t.left) + {t.node} + Within(t.right.left);
    }
  }

  /** The three subtrees of a rotation do not contain the two nodes that turn. */
  ghost predicate Clear(x: Node, y: Node, a: Shape, b: Shape, c: Shape) {
    && x != y
    && x !in Within(a) && x !in Within(b) && x !in Within(c)
    && y !in Within(a) && y !in Within(b) && y !in Within(c)
  }

  lemma PiecesAreClear(t: Shape)
    requires Apart(t)
    ensures CanTurnRight(t) ==> Clear(t.node, t.left.node, t.left.left, t.left.right, t.right)
    ensures CanTurnLeft(t) ==> Clear(t.node, t.right.node, t.left, t.right.left, t.right.right)
  {
    if CanTurnRight(t) {
      assert Apart(t.left) && Within(t.left) == Within(t.left.left) + {t.left.node} + Within(t.left.right);
    }
    if CanTurnLeft(t) {
      assert Apart(t.right) && Within(t.right) == Within(t.right.left) + {t.right.node} + Within(t.right.right);
    }
  }

  /** The part of the two heap predicates that speaks of the root alone. */
  ghost predicate RootFits(t: Shape)
    reads Within(t)
  {
    && t.Branch?
    && t.node.prevDepth == |InOrder(t.left)| % UINT16
    && t.node.nextDepth == |InOrder(t.right)| % UINT16
    && Linked(t.node.prev, t.left) && Counted(t.left)
    && Linked(t.node.next, t.right) && Counted(t.right)
  }

  lemma Split(root: Node, t: Shape)
    requires Linked(root, t) && Counted(t)
    ensures t.Branch? && root == t.node && RootFits(t)
  {}

  lemma Join(t: Shape)
    requires RootFits(t)
    ensures Linked(t.node, t) && Counted(t)
  {}

  lemma CarriesCancel(a: nat, b: nat)
    ensures (b % UINT16 + a % UINT16 + 1) % UINT16 == (a + 1 + b) % UINT16
  {
    var q := a / UINT16 + b / UINT16;
    assert a + 1 + b == b % UINT16 + a % UINT16 + 1 + UINT16 * q;
  }

  /** What Depth answers: the size of the subtree. */
  lemma DepthIsSize(t: Shape)
    requires RootFits(t)
    ensures t.node.Depth() == |InOrder(t)| % UINT16
  {
    var a, b := |InOrder(t.left)|, |InOrder(t.right)|;
    assert t.node.prevDepth == a % UINT16 && t.node.nextDepth == b % UINT16 && |InOrder(t)| == a + 1 + b;
    hide RootFits, InOrder;
    CarriesCancel(a, b);
  }

  /** tree_rotate_right. The source dereferences the left child. */
  method RotateRight(node: Node, ghost t: Shape) returns (pivot: Node)
    requires IsTree(node, t) && Counted(t) && node.prev != null
    modifies node`prev, node`prevDepth, node.prev`next, node.prev`nextDepth
    ensures CanTurnRight(t) && IsTree(pivot, TurnedRight(t)) && Counted(TurnedRight(t))
    ensures InOrder(TurnedRight(t)) == InOrder(t)
  {
    Split(node, t);
    Split(node.prev, t.left);
    ghost var a, b, c := t.left.left, t.left.right, t.right;
    TurnKeepsOrder(t);
    TurnKeepsApart(t);
    PiecesAreClear(t);
    hide Apart, Linked, Counted, Within, InOrder;
    pivot := node.prev;
    node.prev := pivot.next;
    pivot.next := node;
    node.prevDepth := pivot.nextDepth;
    ghost var down := Branch(b, node, c);
    DepthIsSize(down);
    Join(down);
    pivot.nextDepth := node.Depth();
    Join(TurnedRight(t));
  }

  /** tree_rotate_left. The source dereferences the right child. */
  method RotateLeft(node: Node, ghost t: Shape) returns (pivot: Node)
    requires IsTree(node, t) && Counted(t) && node.next != null
    modifies node`next, node`nextDepth, node.next`prev, node.next`prevDepth
    ensures CanTurnLeft(t) && IsTree(pivot, TurnedLeft(t)) && Counted(TurnedLeft(t))
    ensures InOrder(TurnedLeft(t)) == InOrder(t)
  {
    hide Apart, Linked, Counted, Within, InOrder;
    Split(node, t);
    Split(node.next, t.right);
    ghost var a, b, c := t.left, t.right.left, t.right.right;
    TurnKeepsOrder(t);
    TurnKeepsApart(t);
    PiecesAreClear(t);
    pivot := node.next;
    node.next := pivot.prev;
    pivot.prev := node;
    node.nextDepth := pivot.prevDepth;
    ghost var down := Branch(a, node, b);
    DepthIsSize(down);
    Join(down);
    pivot.prevDepth := node.Depth();
    Join(TurnedLeft(t));
  }

  // ----- what a rotation does to searching

  /** Since keys are compared on a circle, turning right keeps the tree searchable exactly when the node that
      goes down, and everything on its right, compare greater than the pivot. */
  lemma TurnedRightSearchableIff(t: Shape)
    requires CanTurnRight(t) && Searchable(t)
    ensures Searchable(TurnedRight(t)) <==>
            && Cmp(t.node.key, t.left.node.key) > 0
            && forall y :: y in Within(t.right) ==> Cmp(y.key, t.left.node.key) > 0
  {
    hide Cmp;
    var down := Branch(t.left.right, t.node, t.right);
    assert Within(down) == Within(t.left.right) + {t.node} + Within(t.right);
    assert t.node in Within(down);
  }

  lemma TurnedLeftSearchableIff(t: Shape)
    requires CanTurnLeft(t) && Searchable(t)
    ensures Searchable(TurnedLeft(t)) <==>
            && Cmp(t.node.key, t.right.node.key) < 0
            && forall y :: y in Within(t.left) ==> Cmp(y.key, t.right.node.key) < 0
  {
    hide Cmp;
    var down := Branch(t.left, t.node, t.right.left);
    assert Within(down) == Within(t.left) + {t.node} + Within(t.right.left);
    assert t.node in Within(down);
  }

  /** Within half the circle the comparison is the order of the keys. */
  lemma HalfCircleIsOrder(a: Key, b: Key)
    requires -0x8000_0000 < a - b < 0x8000_0000
    ensures Cmp(a, b) == a - b
  {}

  /** While all keys lie within half the circle, every rotation keeps a tree searchable. */
  lemma HalfCircleTurns(t: Shape, low: Key)
    requires Searchable(t) && forall y :: y in Within(t) ==> low <= y.key < low + 0x8000_0000
    ensures CanTurnRight(t) ==> Searchable(TurnedRight(t))
    ensures CanTurnLeft(t) ==> Searchable(TurnedLeft(t))
  {
    hide Cmp;
    forall x, y | x in Within(t) && y in Within(t) ensures Cmp(x.key, y.key) == x.key - y.key {
      HalfCircleIsOrder(x.key, y.key);
    }
    if CanTurnRight(t) {
      assert t.left.node in Within(t);
      TurnedRightSearchableIff(t);
    }
    if CanTurnLeft(t) {
      assert t.right.node in Within(t);
      TurnedLeftSearchableIff(t);
    }
  }

  /** Outside half the circle a rotation can lose a key: a searchable tree of three keys that turning right
      breaks. */
  method TurnCanBreakSearch() returns (n: Node, ghost t: Shape)
    ensures IsTree(n, t) && CanTurnRight(t) && Searchable(t) && !Searchable(TurnedRight(t))
  {
    n := new Node(0x6000_0000, 0);
    var p := new Node(0, 0);
    var c := new Node(0xC000_0000, 0);
    n.prev := p;
    n.next := c;
    ghost var l, r := Branch(Leaf, p, Leaf), Branch(Leaf, c, Leaf);
    assert Linked(p, l) && Linked(c, r) && Within(l) == {p} && Within(r) == {c};
    t := Branch(l, n, r);
    assert c in Within(t.right) && Searchable(l) && Searchable(r);
    CmpIsNoOrder();
    TurnedRightSearchableIff(t);
  }

  // ----- hanging in a subtree

  /** No node on the way of key k has that key. */
  ghost predicate Misses(t: Shape, k: Key) {
    match t
    case Leaf => true
    case Branch(l, x, r) => Cmp(k, x.key) != 0 && Misses(if Cmp(k, x.key) < 0 then l else r, k)
  }

  /** The node that has it otherwise. */
  ghost function Holder(t: Shape, k: Key): (n: Node)
    requires !Misses(t, k)
    ensures n in Within(t) && n.key == k
  {
    if Cmp(k, t.node.key) == 0 then CmpZero(k, t.node.key); t.node
    else Holder(if Cmp(k, t.node.key) < 0 then t.left else t.right, k)
  }

  /** The subtree u takes the place of the leaf where the way of its root key ends. */
  ghost function Grafted(t: Shape, u: Shape): Shape
    requires u.Branch?
  {
    match t
    case Leaf => u
    case Branch(l, x, r) =>
      if Cmp(u.node.key, x.key) < 0 then Branch(Grafted(l, u), x, r) else Branch(l, x, Grafted(r, u))
  }

  /** Every node on that way sends all keys of u to the side it sends the root of u. */
  ghost predicate Follows(t: Shape, u: Shape)
    requires u.Branch?
  {
    match t
    case Leaf => true
    case Branch(l, x, r) =>
      if Cmp(u.node.key, x.key) < 0 then (forall y :: y in Within(u) ==> Cmp(y.key, x.key) < 0) && Follows(l, u)
      else (forall y :: y in Within(u) ==> Cmp(y.key, x.key) > 0) && Follows(r, u)
  }

  lemma {:induction false} GraftWithin(t: Shape, u: Shape)
    requires u.Branch?
    ensures Within(Grafted(t, u)) == Within(t) + Within(u)
  {
    if t.Branch? { GraftWithin(if Cmp(u.node.key, t.node.key) < 0 then t.left else t.right, u); }
  }

  /** Hanging in a whole subtree keeps the tree searchable exactly when the subtree is and follows its root. */
  lemma {:induction false} GraftSearchableIff(t: Shape, u: Shape)
    requires u.Branch? && Searchable(t) && Misses(t, u.node.key)
    ensures Searchable(Grafted(t, u)) <==> Searchable(u) && Follows(t, u)
  {
    match t {
      case Leaf =>
      case Branch(l, x, r) =>
        var side := if Cmp(u.node.key, x.key) < 0 then l else r;
        GraftSearchableIff(side, u);
        GraftWithin(side, u);
    }
  }

  /** A single new node always does. */
  lemma {:induction false} OneNodeFollows(t: Shape, x: Node)
    requires Misses(t, x.key)
    ensures Follows(t, Branch(Leaf, x, Leaf))
  {
    if t.Branch? { OneNodeFollows(if Cmp(x.key, t.node.key) < 0 then t.left else t.right, x); }
  }

  /** The last node on the way of key k: its link to the side of k is empty. */
  ghost function End(t: Shape, k: Key): (n: Node)
    requires t.Branch?
    ensures n in Within(t)
  {
    var side := if Cmp(k, t.node.key) < 0 then t.left else t.right;
    if side.Leaf? then t.node else End(side, k)
  }

  ghost function Prevs(s: set<Node>): map<Node, Node?> reads s { map y | y in s :: y.prev }
  ghost function Nexts(s: set<Node>): map<Node, Node?> reads s { map y | y in s :: y.next }
  ghost function Values(s: set<Node>): map<Node, nat> reads s { map y | y in s :: y.value }

  /** Linked, by links written down before. */
  ghost predicate LinkedBy(prev: map<Node, Node?>, next: map<Node, Node?>, root: Node?, t: Shape) {
    match t
    case Leaf => root == null
    case Branch(l, x, r) =>
      root == x && x in prev && x in next && LinkedBy(prev, next, prev[x], l) && LinkedBy(prev, next, next[x], r)
  }

  lemma {:induction false} LinkedIs(root: Node?, t: Shape, s: set<Node>)
    requires Within(t) <= s
    ensures Linked(root, t) <==> LinkedBy(Prevs(s), Nexts(s), root, t)
    decreases t
  {
    match t {
      case Leaf =>
      case Branch(l, x, r) =>
        LinkedIs(x.prev, l, s);
        LinkedIs(x.next, r, s);
    }
  }

  lemma {:induction false} LinkedFrame(prev: map<Node, Node?>, next: map<Node, Node?>, prev': map<Node, Node?>,
                                       next': map<Node, Node?>, root: Node?, t: Shape)
    requires LinkedBy(prev, next, root, t)
    requires forall y :: y in Within(t) && y in prev ==> y in prev' && prev'[y] == prev[y]
    requires forall y :: y in Within(t) && y in next ==> y in next' && next'[y] == next[y]
    ensures LinkedBy(prev', next', root, t)
  {
    match t {
      case Leaf =>
      case Branch(l, x, r) =>
        LinkedFrame(prev, next, prev', next', prev[x], l);
        LinkedFrame(prev, next, prev', next', next[x], r);
    }
  }

  /** Setting that one link hangs the subtree in. */
  lemma {:induction false} LinkGrafts(prev: map<Node, Node?>, next: map<Node, Node?>, prev': map<Node, Node?>,
                                      next': map<Node, Node?>, root: Node?, t: Shape, elem: Node, u: Shape, at: Node)
    requires t.Branch? && LinkedBy(prev, next, root, t) && Apart(t) && at == End(t, elem.key)
    requires u.Branch? && u.node == elem && LinkedBy(prev', next', elem, u)
    requires forall y :: y in Within(t) && y in prev ==>
      y in prev' && prev'[y] == if y == at && Cmp(elem.key, at.key) < 0 then elem else prev[y]
    requires forall y :: y in Within(t) && y in next ==>
      y in next' && next'[y] == if y == at && Cmp(elem.key, at.key) >= 0 then elem else next[y]
    ensures LinkedBy(prev', next', root, Grafted(t, u))
  {
    var l, x, r := t.left, t.node, t.right;
    var left := Cmp(elem.key, x.key) < 0;
    var side, other := if left then l else r, if left then r else l;
    if side.Branch? {
      LinkGrafts(prev, next, prev', next', if left then prev[x] else next[x], side, elem, u, at);
    }
    LinkedFrame(prev, next, prev', next', if left then next[x] else prev[x], other);
  }

  lemma {:induction false} GraftApart(t: Shape, u: Shape)
    requires u.Branch? && Apart(t) && Apart(u) && Within(t) !! Within(u)
    ensures Apart(Grafted(t, u))
  {
    if t.Branch? {
      var side := if Cmp(u.node.key, t.node.key) < 0 then t.left else t.right;
      GraftApart(side, u);
      GraftWithin(side, u);
    }
  }

  /** After the one store the heap holds the grafted shape. */
  lemma Hung(prev: map<Node, Node?>, next: map<Node, Node?>, root: Node?, t: Shape, elem: Node, u: Shape, at: Node)
    requires t.Branch? && LinkedBy(prev, next, root, t) && Apart(t) && at == End(t, elem.key)
    requires u.Branch? && LinkedBy(prev, next, elem, u) && Apart(u) && Within(t) !! Within(u)
    requires var all, left := Within(t) + Within(u), Cmp(elem.key, at.key) < 0;
      && at in prev && at in next
      && Prevs(all) == (if left then prev[at := elem] else prev)
      && Nexts(all) == (if left then next else next[at := elem])
    ensures IsTree(root, Grafted(t, u))
  {
    var prev', next' := Prevs(Within(t) + Within(u)), Nexts(Within(t) + Within(u));
    hide Prevs, Nexts;
    LinkedFrame(prev, next, prev', next', elem, u);
    LinkGrafts(prev, next, prev', next', root, t, elem, u, at);
    GraftWithin(t, u);
    LinkedIs(root, Grafted(t, u), Within(t) + Within(u));
    GraftApart(t, u);
  }

  /** The walk for key k in t has come to the subtree s. */
  ghost predicate OnWay(s: Shape, t: Shape, k: Key) {
    && t.Branch? && s.Branch? && Within(s) <= Within(t) && (Misses(s, k) <==> Misses(t, k))
    && (!Misses(t, k) ==> Holder(s, k) == Holder(t, k))
    && End(s, k) == End(t, k)
  }

  lemma WayStarts(t: Shape, k: Key)
    requires t.Branch?
    ensures OnWay(t, t, k)
  {}

  /** It has found the key, or goes on, or is at its end. */
  lemma WayFrom(s: Shape, t: Shape, k: Key)
    requires OnWay(s, t, k)
    ensures s.Branch? && s.node in Within(t)
    ensures var cmp := Cmp(k, s.node.key); var side := if cmp < 0 then s.left else s.right;
      if cmp == 0 then !Misses(t, k) && Holder(t, k) == s.node
      else if side.Branch? then OnWay(side, t, k)
      else Misses(t, k) && End(t, k) == s.node
  {}

  lemma NothingThere(t: Shape, u: Shape)
    requires t.Leaf? && u.Branch?
    ensures Grafted(t, u) == u && Misses(t, u.node.key) && Within(t) == {}
  {}

  /** The walk of tree_insert_tree: to the node with the key, or to the node whose empty link is its place. */
  method Seek(root: Node, key: Key, ghost t: Shape) returns (node: Node, cmp: int)
    requires Linked(root, t)
    ensures node in Within(t) && cmp == Cmp(key, node.key)
    ensures cmp == 0 ==> !Misses(t, key) && Holder(t, key) == node
    ensures cmp != 0 ==> Misses(t, key) && t.Branch? && End(t, key) == node
    ensures cmp != 0 ==> (if cmp < 0 then node.prev else node.next) == null
  {
    hide Misses, Holder, End, OnWay;
    node := root;
    cmp := Cmp(key, node.key);
    ghost var s := t;
    WayStarts(t, key);
    while cmp != 0 && (if cmp < 0 then node.prev else node.next) != null
      invariant OnWay(s, t, key) && Linked(node, s) && cmp == Cmp(key, node.key)
      decreases s
    {
      WayFrom(s, t, key);
      s := if cmp < 0 then s.left else s.right;
      node := if cmp < 0 then node.prev else node.next;
      cmp := Cmp(key, node.key);
    }
    WayFrom(s, t, key);
  }

  /** tree_insert_tree with nobody else at work: the subtree is hung in whole, or, when the key of its root is there,
      only the two values are exchanged and the rest of the subtree stays outside. */
  method InsertTree(root: Node?, elem: Node, ghost t: Shape, ghost u: Shape) returns (top: Node?, back: Node?)
    requires IsTree(root, t) && IsTree(elem, u) && Within(t) !! Within(u)
    modifies Within(t), elem`value
    ensures back == if Misses(t, elem.key) then null else elem
    ensures Misses(t, elem.key) ==>
      && IsTree(top, Grafted(t, u))
      && Values(Within(t)) == old(Values(Within(t))) && elem.value == old(elem.value)
    ensures !Misses(t, elem.key) ==>
      && top == root && IsTree(top, t)
      && var n := Holder(t, elem.key);
      && elem.value == old(n.value) && Values(Within(t)) == old(Values(Within(t)))[n := old(elem.value)]
  {
    hide Apart, LinkedBy, Grafted, Cmp, Misses, Holder, End;
    top, back := root, null;
    if root == null {
      NothingThere(t, u);
      top := elem;
      return;
    }
    ghost var all := Within(t) + Within(u);
    ghost var prev, next := Prevs(all), Nexts(all);
    LinkedIs(root, t, all);
    LinkedIs(elem, u, all);
    var node, cmp := Seek(root, elem.key, t);
    if cmp == 0 {
      elem.value, node.value := node.value, elem.value;
      assert Prevs(all) == prev && Nexts(all) == next;
      LinkedIs(root, t, all);
      back := elem;
    } else {
      if cmp < 0 { node.prev := elem; } else { node.next := elem; }
      assert Prevs(all) == if cmp < 0 then prev[node := elem] else prev;
      assert Nexts(all) == if cmp < 0 then next else next[node := elem];
      assert Values(Within(t)) == old(Values(Within(t)));
      Hung(prev, next, root, t, elem, u, node);
    }
  }

  lemma FiveIsLost(t: Shape, u: Shape)
    requires t.Branch? && t.left.Leaf? && t.right.Leaf? && t.node.key == 10
    requires u.Branch? && u.right.Leaf? && u.node.key == 20
    requires u.left.Branch? && u.left.left.Leaf? && u.left.right.Leaf? && u.left.node.key == 5
    ensures Misses(t, 20) && Searchable(t) && Searchable(u) && !Searchable(Grafted(t, u))
  {
    assert Cmp(20, 10) > 0 && Cmp(5, 10) < 0 && Cmp(5, 20) < 0;
    assert u.left.node in Within(u.left) && u.left.node in Within(u);
    GraftSearchableIff(t, u);
  }

  /** A subtree that is searchable itself can still be lost in part: 5 hangs below 20, to the right of 10. */
  method GraftCanBreakSearch() returns (root: Node, elem: Node, ghost t: Shape, ghost u: Shape)
    ensures IsTree(root, t) && IsTree(elem, u) && Within(t) !! Within(u) && u.Branch? && Misses(t, elem.key)
    ensures Searchable(t) && Searchable(u) && !Searchable(Grafted(t, u))
  {
    root := new Node(10, 0);
    elem := new Node(20, 0);
    var low := new Node(5, 0);
    elem.prev := low;
    t := Branch(Leaf, root, Leaf);
    ghost var l := Branch(Leaf, low, Leaf);
    u := Branch(l, elem, Leaf);
    assert Linked(low, l) && Within(l) == {low};
    FiveIsLost(t, u);
  }

  // ----- ends of the tree

  /** tree_min */
  method Min(root: Node, ghost t: Shape) returns (node: Node)
    requires IsTree(root, t)
    ensures InOrder(t) != [] && node == InOrder(t)[0]
  {
    node := root;
    ghost var s := t;
    while node.prev != null
      invariant Linked(node, s) && s.Branch?
      invariant InOrder(t) != [] && InOrder(s)[0] == InOrder(t)[0]
      decreases s
    {
      node := node.prev;
      s := s.left;
    }
  }

  /** tree_max */
  method Max(root: Node, ghost t: Shape) returns (node: Node)
    requires IsTree(root, t)
    ensures InOrder(t) != [] && node == InOrder(t)[|InOrder(t)| - 1]
  {
    node := root;
    ghost var s := t;
    while node.next != null
      invariant Linked(node, s) && s.Branch?
      invariant InOrder(t) != [] && InOrder(s)[|InOrder(s)| - 1] == InOrder(t)[|InOrder(t)| - 1]
      decreases s
    {
      node := node.next;
      s := s.right;
    }
  }
}
