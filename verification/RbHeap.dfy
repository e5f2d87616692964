/** Linked nodes of util/scraft_rbt.h and what it means for them to hold a tree. */
module RbHeap {
  import opened Lists
  import opened RbShape

  /** `struct scraft_rbtree_node`.  A key reference is an opaque number; it is what the
      comparator is given. */
  class Node {
    const key: int
    var left: Node?
    var right: Node?
    var parent: Node?
    var color: Color

    constructor (key: int)
      ensures this.key == key && color == Black
    {
      this.key := key;
      left, right, parent, color := null, null, null, Black;
    }
  }

  datatype Cell = Cell(left: Node?, right: Node?, parent: Node?, color: Color)

  type Cells = map<Node, Cell>

  ghost function CellOf(n: Node): Cell
    reads n
  {
    Cell(n.left, n.right, n.parent, n.color)
  }

  /** The mutable fields of a set of nodes, as a value. */
  ghost function Snap(S: set<Node>): Cells
    reads S
  {
    map n | n in S :: CellOf(n)
  }

  ghost function Nodes(t: Tree<Node>): set<Node> {
    if t.Leaf? then {} else Nodes(t.left) + {t.at} + Nodes(t.right)
  }

  ghost function PathNodes(p: Path<Node>): set<Node> {
    if p.Top? then {} else PathNodes(p.up) + {p.at} + Nodes(p.sib)
  }

  /** The pointer that stands for `t`: its root node, or the sentinel `nil` when it is empty. */
  ghost function Ref(t: Tree<Node>, nil: Node): Node {
    if t.Leaf? then nil else t.at
  }

  ghost function ChildOf(c: Cell, side: Side): Node? {
    if side.Left? then c.left else c.right
  }

  ghost function WithChild(c: Cell, side: Side, n: Node): Cell {
    if side.Left? then c.(left := n) else c.(right := n)
  }

  /** The nodes hold `t`.  Nothing is said about the parent of the root. */
  ghost predicate Holds(m: Cells, nil: Node, t: Tree<Node>) {
    t.Fork? ==>
      && t.at != nil && t.at in m
      && m[t.at].left == Ref(t.left, nil) && m[t.at].right == Ref(t.right, nil) && m[t.at].color == t.color
      && Holds(m, nil, t.left) && Holds(m, nil, t.right)
      && (t.left.Fork? ==> m[t.left.at].parent == t.at)
      && (t.right.Fork? ==> m[t.right.at].parent == t.at)
      && t.at !in Nodes(t.left) && t.at !in Nodes(t.right) && Nodes(t.left) !! Nodes(t.right)
  }

  /** The nodes hold `p`, with `hole` in its hole and `root` as the root pointer.  Nothing is
      said about the parent of the outermost node. */
  ghost predicate HoldsPath(m: Cells, nil: Node, root: Node, p: Path<Node>, hole: Node) {
    match p
    case Top => root == hole
    case Step(side, up, at, color, sib) =>
      && at != nil && at in m
      && ChildOf(m[at], side) == hole && ChildOf(m[at], Opposite(side)) == Ref(sib, nil) && m[at].color == color
      && Holds(m, nil, sib) && (sib.Fork? ==> m[sib.at].parent == at)
      && (up.Step? ==> m[at].parent == up.at)
      && HoldsPath(m, nil, root, up, at)
      && at !in PathNodes(up) && at !in Nodes(sib) && PathNodes(up) !! Nodes(sib)
  }

  /** The nodes hold `t` in the hole of `p`. */
  ghost predicate HoldsZip(m: Cells, nil: Node, root: Node, p: Path<Node>, t: Tree<Node>) {
    && Holds(m, nil, t) && HoldsPath(m, nil, root, p, Ref(t, nil))
    && Nodes(t) !! PathNodes(p)
    && (t.Fork? && p.Step? ==> m[t.at].parent == p.at)
  }

  lemma {:induction false} HoldsDomain(m: Cells, nil: Node, t: Tree<Node>)
    requires Holds(m, nil, t)
    ensures Nodes(t) <= m.Keys && nil !in Nodes(t)
  {
    if t.Leaf? {
    } else {
      HoldsDomain(m, nil, t.left);
      HoldsDomain(m, nil, t.right);
    }
  }

  lemma {:induction false} HoldsPathDomain(m: Cells, nil: Node, root: Node, p: Path<Node>, hole: Node)
    requires HoldsPath(m, nil, root, p, hole)
    ensures PathNodes(p) <= m.Keys && nil !in PathNodes(p)
    ensures p.Step? ==> root in PathNodes(p)
  {
    if p.Top? {
    } else {
      HoldsPathDomain(m, nil, root, p.up, p.at);
      HoldsDomain(m, nil, p.sib);
    }
  }

  lemma {:induction false} InorderNodes(t: Tree<Node>)
    ensures Elements(Inorder(t)) == Nodes(t)
  {
    if t.Leaf? {
    } else {
      InorderNodes(t.left);
      InorderNodes(t.right);
      assert Elements(Inorder(t)) == Elements(Inorder(t.left)) + {t.at} + Elements(Inorder(t.right));
    }
  }

  /** No node is listed twice. */
  lemma {:induction false} InorderDistinct(m: Cells, nil: Node, t: Tree<Node>)
    requires Holds(m, nil, t)
    ensures NoTwice(Inorder(t))
  {
    if t.Leaf? {
    } else {
      InorderDistinct(m, nil, t.left);
      InorderDistinct(m, nil, t.right);
      InorderNodes(t.left);
      InorderNodes(t.right);
      DistinctAround(Inorder(t.left), t.at, Inorder(t.right));
    }
  }

  lemma DistinctAround(a: seq<Node>, n: Node, b: seq<Node>)
    requires n !in Elements(a) && n !in Elements(b) && Elements(a) !! Elements(b)
    requires NoTwice(a) && NoTwice(b)
    ensures NoTwice(a + [n] + b)
  {
    var s := a + [n] + b;
    forall i, j | 0 <= i < j < |s| ensures s[i] != s[j] {
      assert i < |a| ==> s[i] in Elements(a);
      assert j < |a| ==> s[j] in Elements(a);
      assert i > |a| ==> s[i] in Elements(b);
      assert j > |a| ==> s[j] in Elements(b);
    }
  }

  lemma {:induction false} PathElements(p: Path<Node>)
    ensures Elements(Before(p)) <= PathNodes(p) && Elements(After(p)) <= PathNodes(p)
  {
    if p.Top? {
    } else {
      PathElements(p.up);
      InorderNodes(p.sib);
      var b, s := Before(p.up), Inorder(p.sib);
      assert Elements(b + s + [p.at]) == Elements(b) + Elements(s) + {p.at};
      assert Elements([p.at] + s + After(p.up)) == {p.at} + Elements(s) + Elements(After(p.up));
    }
  }

  /** The way to a node of a tree. */
  lemma {:induction false} Locate(t: Tree<Node>, n: Node) returns (p: Path<Node>, u: Tree<Node>)
    requires n in Nodes(t)
    ensures Plug(p, u) == t && u.Fork? && u.at == n
  {
    if t.at == n {
      p, u := Top, t;
    } else {
      var side := if n in Nodes(t.left) then Left else Right;
      var q;
      q, u := Locate(Near(side, t), n);
      p := Compose(q, Below(Top, t, side));
      PlugCompose(q, Below(Top, t, side), u);
    }
  }

  // ---- Frames -----------------------------------------------------------------

  /** Only nodes outside `t`, or the parent of its root, have changed. */
  lemma {:induction false} FrameTree(m: Cells, m': Cells, nil: Node, t: Tree<Node>)
    requires Holds(m, nil, t)
    requires forall k :: k in m && k in Nodes(t) ==>
                           k in m' && (m'[k] == m[k] || (k == Ref(t, nil) && m'[k] == m[k].(parent := m'[k].parent)))
    ensures Holds(m', nil, t)
  {
    if t.Leaf? {
    } else {
      HoldsDomain(m, nil, t.left);
      HoldsDomain(m, nil, t.right);
      FrameTree(m, m', nil, t.left);
      FrameTree(m, m', nil, t.right);
    }
  }

  ghost function Outermost(p: Path<Node>): Node
    requires p.Step?
  {
    if p.up.Top? then p.at else Outermost(p.up)
  }

  ghost function Refitted(c: Cell, k: Node, p: Path<Node>, hole: Node): Cell
    requires p.Step?
  {
    if k == p.at then WithChild(c, p.side, hole) else c
  }

  /** Only nodes outside `p`, the pointer to the hole, or the parent of the outermost node, have changed. */
  lemma {:induction false} FramePath(m: Cells, m': Cells, nil: Node, root: Node, root': Node,
                                     p: Path<Node>, hole: Node, hole': Node)
    requires HoldsPath(m, nil, root, p, hole)
    requires root' == if p.Top? then hole' else root
    requires forall k :: k in m && k in PathNodes(p) ==>
      && k in m'
      && m'[k] == Refitted(m[k], k, p, hole').(parent := if k == Outermost(p) then m'[k].parent else m[k].parent)
    ensures HoldsPath(m', nil, root', p, hole')
  {
    if p.Top? {
    } else {
      HoldsPathDomain(m, nil, root, p.up, p.at);
      HoldsDomain(m, nil, p.sib);
      assert p.at in PathNodes(p);
      if p.up.Step? {
        OutermostIn(p.up);
        assert p.at != Outermost(p);
        assert forall k :: k in PathNodes(p.up) ==> k in PathNodes(p);
      }
      assert Outermost(p) !in Nodes(p.sib);
      FrameTree(m, m', nil, p.sib);
      FramePath(m, m', nil, root, root, p.up, p.at, p.at);
    }
  }

  /** Nodes outside the tree do not matter. */
  lemma FrameZip(m: Cells, m': Cells, nil: Node, root: Node, p: Path<Node>, t: Tree<Node>)
    requires HoldsZip(m, nil, root, p, t)
    requires forall k :: k in m && k in Nodes(t) + PathNodes(p) ==> k in m' && m'[k] == m[k]
    ensures HoldsZip(m', nil, root, p, t)
  {
    HoldsDomain(m, nil, t);
    assert t.Fork? ==> t.at in Nodes(t);
    FrameTree(m, m', nil, t);
    FramePath(m, m', nil, root, root, p, Ref(t, nil), Ref(t, nil));
  }

  lemma {:induction false} OutermostIn(p: Path<Node>)
    requires p.Step?
    ensures Outermost(p) in PathNodes(p)
  {
    if p.up.Top? {
    } else {
      OutermostIn(p.up);
    }
  }

  // ---- Moving the focus ---------------------------------------------------------

  lemma ZipUp(m: Cells, nil: Node, root: Node, side: Side, up: Path<Node>, at: Node, color: Color, sib: Tree<Node>,
              t: Tree<Node>)
    ensures HoldsZip(m, nil, root, Step(side, up, at, color, sib), t) <==>
            HoldsZip(m, nil, root, up, Join(side, t, at, color, sib))
  {
    var p, u := Step(side, up, at, color, sib), Join(side, t, at, color, sib);
    assert Nodes(u) == Nodes(t) + {at} + Nodes(sib);
    if HoldsZip(m, nil, root, p, t) {
      assert Holds(m, nil, u);
    }
    if HoldsZip(m, nil, root, up, u) {
      assert HoldsPath(m, nil, root, p, Ref(t, nil));
    }
  }

  /** Moving the focus to a child: what a node's child pointer leads to. */
  lemma ZipDown(m: Cells, nil: Node, root: Node, p: Path<Node>, t: Tree<Node>, side: Side)
    requires HoldsZip(m, nil, root, p, t) && t.Fork?
    ensures t.at in m && m[t.at].color == t.color
    ensures m[t.at].left == Ref(t.left, nil) && m[t.at].right == Ref(t.right, nil)
    ensures t.at != nil
    ensures HoldsZip(m, nil, root, Below(p, t, side), Near(side, t))
    ensures Plug(Below(p, t, side), Near(side, t)) == Plug(p, t)
  {
    ZipUp(m, nil, root, side, p, t.at, t.color, Far(side, t), Near(side, t));
  }

  lemma {:induction false} ZipPlug(m: Cells, nil: Node, root: Node, p: Path<Node>, t: Tree<Node>)
    ensures HoldsZip(m, nil, root, p, t) <==> HoldsZip(m, nil, root, Top, Plug(p, t))
  {
    if p.Top? {
    } else {
      ZipUp(m, nil, root, p.side, p.up, p.at, p.color, p.sib, t);
      ZipPlug(m, nil, root, p.up, Join(p.side, t, p.at, p.color, p.sib));
    }
  }

  lemma {:induction false} PlugNodes(p: Path<Node>, t: Tree<Node>)
    ensures Nodes(Plug(p, t)) == PathNodes(p) + Nodes(t)
  {
    if p.Top? {
    } else {
      PlugNodes(p.up, Join(p.side, t, p.at, p.color, p.sib));
    }
  }

  /** A new red leaf in the hole. */
  lemma Hung(m: Cells, m': Cells, nil: Node, root: Node, p: Path<Node>, node: Node)
    requires HoldsZip(m, nil, root, p, Leaf) && p.Step? && node !in m && node != nil
    requires m'.Keys == m.Keys + {node} && p.at in m
    requires m'[node] == Cell(nil, nil, p.at, Red)
    requires m'[p.at] == WithChild(m[p.at], p.side, node)
    requires forall k :: k in m && k != p.at ==> m'[k] == m[k]
    ensures HoldsZip(m', nil, root, p, Fork(Leaf, node, Red, Leaf))
  {
    HoldsPathDomain(m, nil, root, p, nil);
    FramePath(m, m', nil, root, root, p, nil, node);
  }

  // ---- Rotations ------------------------------------------------------------------

  /** The pointers that a rotation about `x` follows, down on `side` and up, lead to nodes of `m`. */
  ghost predicate Rotatable(m: Cells, nil: Node, root: Node, x: Node, side: Side) {
    && x in m && ChildOf(m[x], side) in m
    && (var y: Node? := ChildOf(m[x], side);
        var b := ChildOf(m[y], Opposite(side));
        y != x && b != null && b != x && b != y && (b != nil ==> b in m && (x != root ==> b != m[x].parent)))
    && (x != root ==> m[x].parent in m && m[x].parent != x && m[x].parent != ChildOf(m[x], side))
  }

  /** What a rotation about `x` does: its child on `side` takes its place, and exactly the
      cells of `x`, of that child, of the inner grandchild and of the parent change. */
  ghost predicate Rotated(m: Cells, m': Cells, nil: Node, root: Node, root': Node, x: Node, side: Side)
    requires Rotatable(m, nil, root, x, side)
  {
    var y: Node := ChildOf(m[x], side);
    var b: Node := ChildOf(m[y], Opposite(side));
    && m'.Keys == m.Keys
    && m'[x] == WithChild(m[x], side, b).(parent := y)
    && m'[y] == WithChild(m[y], Opposite(side), x).(parent := m[x].parent)
    && (b != nil ==> m'[b] == m[b].(parent := x))
    && (x != root ==> m'[m[x].parent] == Redirected(m[m[x].parent], x, y, Opposite(side)))
    && (forall k :: k in m && k != x && k != y && (k != b || b == nil) && (k != m[x].parent || x == root) ==>
                      m'[k] == m[k])
    && root' == if x == root then y else root
  }

  /** A parent's cell once its pointer to `x`, sought first on `side`, leads to `y`. */
  ghost function Redirected(c: Cell, x: Node, y: Node, side: Side): Cell {
    WithChild(c, if ChildOf(c, side) == x then side else Opposite(side), y)
  }

  lemma ZipRotatable(m: Cells, nil: Node, root: Node, p: Path<Node>, t: Tree<Node>, side: Side)
    requires HoldsZip(m, nil, root, p, t) && t.Fork?
    requires (if side.Left? then t.left else t.right).Fork?
    ensures Rotatable(m, nil, root, t.at, side)
  {
    var u := if side.Left? then t.left else t.right;
    assert Holds(m, nil, u);
    HoldsDomain(m, nil, t);
    HoldsDomain(m, nil, u.left);
    HoldsDomain(m, nil, u.right);
    HoldsPathDomain(m, nil, root, p, t.at);
    assert p.Step? ==> p.at in PathNodes(p);
    assert Holds(m, nil, u.left) && Holds(m, nil, u.right);
  }

  /** A subtree that the writes at `x`, `y` and `z` reach at most at the parent of its root. */
  lemma PartKept(m: Cells, m': Cells, nil: Node, t: Tree<Node>, all: set<Node>, x: Node, y: Node, z: Node)
    requires Holds(m, nil, t) && Nodes(t) <= all && x !in Nodes(t) && y !in Nodes(t) && m'.Keys == m.Keys
    requires z in Nodes(t) ==> z == Ref(t, nil) && z in m && m'[z] == m[z].(parent := m'[z].parent)
    requires forall k :: k in m && k in all && k != x && k != y && k != z ==> m'[k] == m[k]
    ensures Holds(m', nil, t)
    ensures t.Fork? && z !in Nodes(t) ==> t.at in m && m'[t.at] == m[t.at]
  {
    HoldsDomain(m, nil, t);
    assert t.Fork? ==> t.at in Nodes(t);
    FrameTree(m, m', nil, t);
  }

  lemma LeftRotation(m: Cells, m': Cells, nil: Node, t: Tree<Node>)
    requires Holds(m, nil, t) && t.Fork? && t.right.Fork?
    requires m'.Keys == m.Keys
    requires t.right.at in m && (t.right.left.Fork? ==> t.right.left.at in m)
    requires m'[t.at] == Cell(m[t.at].left, m[t.right.at].left, t.right.at, t.color)
    requires m'[t.right.at] == Cell(t.at, m[t.right.at].right, m'[t.right.at].parent, t.right.color)
    requires t.right.left.Fork? ==> m'[t.right.left.at] == m[t.right.left.at].(parent := t.at)
    requires forall k :: k in m && k in Nodes(t) && k != t.at && k != t.right.at && k != Ref(t.right.left, nil) ==>
                           m'[k] == m[k]
    ensures Holds(m', nil, Fork(Fork(t.left, t.at, t.color, t.right.left), t.right.at, t.right.color, t.right.right))
  {
    var a, b, e := t.left, t.right.left, t.right.right;
    assert Holds(m, nil, t.right);
    var z := Ref(b, nil);
    assert z in Nodes(b) || z == nil;
    HoldsDomain(m, nil, t);
    PartKept(m, m', nil, a, Nodes(t), t.at, t.right.at, z);
    PartKept(m, m', nil, b, Nodes(t), t.at, t.right.at, z);
    PartKept(m, m', nil, e, Nodes(t), t.at, t.right.at, z);
    assert Holds(m', nil, Fork(a, t.at, t.color, b));
  }

  lemma RightRotation(m: Cells, m': Cells, nil: Node, t: Tree<Node>)
    requires Holds(m, nil, t) && t.Fork? && t.left.Fork?
    requires m'.Keys == m.Keys
    requires t.left.at in m && (t.left.right.Fork? ==> t.left.right.at in m)
    requires m'[t.at] == Cell(m[t.left.at].right, m[t.at].right, t.left.at, t.color)
    requires m'[t.left.at] == Cell(m[t.left.at].left, t.at, m'[t.left.at].parent, t.left.color)
    requires t.left.right.Fork? ==> m'[t.left.right.at] == m[t.left.right.at].(parent := t.at)
    requires forall k :: k in m && k in Nodes(t) && k != t.at && k != t.left.at && k != Ref(t.left.right, nil) ==>
                           m'[k] == m[k]
    ensures Holds(m', nil, Fork(t.left.left, t.left.at, t.left.color, Fork(t.left.right, t.at, t.color, t.right)))
  {
    var a, b, e := t.left.left, t.left.right, t.right;
    assert Holds(m, nil, t.left);
    var z := Ref(b, nil);
    assert z in Nodes(b) || z == nil;
    HoldsDomain(m, nil, t);
    PartKept(m, m', nil, a, Nodes(t), t.at, t.left.at, z);
    PartKept(m, m', nil, b, Nodes(t), t.at, t.left.at, z);
    PartKept(m, m', nil, e, Nodes(t), t.at, t.left.at, z);
    assert Holds(m', nil, Fork(b, t.at, t.color, e));
  }

  lemma RotatedLeft(m: Cells, m': Cells, nil: Node, root: Node, root': Node, p: Path<Node>, t: Tree<Node>)
    requires HoldsZip(m, nil, root, p, t) && t.Fork? && t.right.Fork?
    requires Rotatable(m, nil, root, t.at, Right) && Rotated(m, m', nil, root, root', t.at, Right)
    ensures HoldsZip(m', nil, root', p,
                     Fork(Fork(t.left, t.at, t.color, t.right.left), t.right.at, t.right.color, t.right.right))
    ensures nil in m ==> m'[nil] == m[nil]
  {
    RotationFacts(m, m', nil, root, root', p, t, Right);
    assert Holds(m, nil, t.right);
    LeftRotation(m, m', nil, t);
    FramePath(m, m', nil, root, root', p, t.at, t.right.at);
  }

  lemma RotatedRight(m: Cells, m': Cells, nil: Node, root: Node, root': Node, p: Path<Node>, t: Tree<Node>)
    requires HoldsZip(m, nil, root, p, t) && t.Fork? && t.left.Fork?
    requires Rotatable(m, nil, root, t.at, Left) && Rotated(m, m', nil, root, root', t.at, Left)
    ensures HoldsZip(m', nil, root', p,
                     Fork(t.left.left, t.left.at, t.left.color, Fork(t.left.right, t.at, t.color, t.right)))
    ensures nil in m ==> m'[nil] == m[nil]
  {
    RotationFacts(m, m', nil, root, root', p, t, Left);
    assert Holds(m, nil, t.left);
    RightRotation(m, m', nil, t);
    FramePath(m, m', nil, root, root', p, t.at, t.left.at);
  }

  /** Cell by cell, what a rotation of the focus changes. */
  lemma RotationFacts(m: Cells, m': Cells, nil: Node, root: Node, root': Node, p: Path<Node>, t: Tree<Node>, side: Side)
    requires HoldsZip(m, nil, root, p, t) && t.Fork?
    requires (if side.Left? then t.left else t.right).Fork?
    requires Rotatable(m, nil, root, t.at, side) && Rotated(m, m', nil, root, root', t.at, side)
    ensures
      var u := if side.Left? then t.left else t.right;
      var b := if side.Left? then u.right else u.left;
      && m'.Keys == m.Keys && u.at in m && (b.Fork? ==> b.at in m) && (p.Step? ==> p.at in m)
      && m'[t.at] == WithChild(m[t.at], side, Ref(b, nil)).(parent := u.at)
      && m'[u.at] == WithChild(m[u.at], Opposite(side), t.at).(parent := m[t.at].parent)
      && (b.Fork? ==> m'[b.at] == m[b.at].(parent := t.at))
      && (p.Step? ==> m'[p.at] == WithChild(m[p.at], p.side, u.at))
      && (forall k :: k in m && k != t.at && k != u.at && k != Ref(b, nil) && !(p.Step? && k == p.at) ==> m'[k] == m[k])
      && (nil in m ==> m'[nil] == m[nil])
      && root' == if p.Top? then u.at else root
  {
    var u := if side.Left? then t.left else t.right;
    var b := if side.Left? then u.right else u.left;
    assert Holds(m, nil, u);
    assert b.Fork? ==> Holds(m, nil, b);
    assert b.Fork? ==> b.at in Nodes(u) && b.at in Nodes(t);
    assert u.at in Nodes(t);
    HoldsDomain(m, nil, t);
    HoldsPathDomain(m, nil, root, p, t.at);
    if p.Step? {
      assert p.at in PathNodes(p);
      HoleIsOnItsSide(m, nil, root, p, t);
    }
  }

  /** The other child of the hole's parent is not what stands in the hole. */
  lemma HoleIsOnItsSide(m: Cells, nil: Node, root: Node, p: Path<Node>, t: Tree<Node>)
    requires HoldsZip(m, nil, root, p, t) && p.Step?
    requires t.Fork? || p.sib.Fork?
    ensures p.at in m && ChildOf(m[p.at], Opposite(p.side)) != Ref(t, nil)
  {
    HoldsDomain(m, nil, t);
    HoldsDomain(m, nil, p.sib);
  }

  // ---- Recolouring ----------------------------------------------------------------

  /** `t` with the colours that its nodes have in `m`. */
  ghost function Dyed(t: Tree<Node>, m: Cells): Tree<Node>
    requires Nodes(t) <= m.Keys
  {
    if t.Leaf? then t else Fork(Dyed(t.left, m), t.at, m[t.at].color, Dyed(t.right, m))
  }

  lemma {:induction false} DyedHolds(m: Cells, m': Cells, nil: Node, t: Tree<Node>)
    requires Holds(m, nil, t) && Nodes(t) <= m.Keys && Nodes(t) <= m'.Keys
    requires forall k :: k in m && k in Nodes(t) ==> m'[k] == m[k].(color := m'[k].color)
    ensures Holds(m', nil, Dyed(t, m')) && Nodes(Dyed(t, m')) == Nodes(t)
  {
    if t.Leaf? {
    } else {
      DyedHolds(m, m', nil, t.left);
      DyedHolds(m, m', nil, t.right);
    }
  }

  lemma {:induction false} DyedSame(m: Cells, m': Cells, nil: Node, t: Tree<Node>)
    requires Holds(m, nil, t) && Nodes(t) <= m.Keys && Nodes(t) <= m'.Keys
    requires forall k :: k in m && k in Nodes(t) ==> m'[k] == m[k]
    ensures Dyed(t, m') == t
  {
    if t.Leaf? {
    } else {
      DyedSame(m, m', nil, t.left);
      DyedSame(m, m', nil, t.right);
    }
  }

  lemma NodesJoin(side: Side, t: Tree<Node>, at: Node, c: Color, sib: Tree<Node>)
    ensures Nodes(Join(side, t, at, c, sib)) == Nodes(t) + {at} + Nodes(sib)
  {}

  lemma DyedJoin(side: Side, t: Tree<Node>, at: Node, c: Color, sib: Tree<Node>, m: Cells)
    requires Nodes(t) <= m.Keys && at in m && Nodes(sib) <= m.Keys
    ensures Nodes(Join(side, t, at, c, sib)) <= m.Keys
    ensures Dyed(Join(side, t, at, c, sib), m) == Join(side, Dyed(t, m), at, m[at].color, Dyed(sib, m))
  {
    NodesJoin(side, t, at, c, sib);
  }

  lemma {:induction false} DyedInorder(m: Cells, t: Tree<Node>)
    requires Nodes(t) <= m.Keys
    ensures Inorder(Dyed(t, m)) == Inorder(t)
  {
    if t.Leaf? {
    } else {
      DyedInorder(m, t.left);
      DyedInorder(m, t.right);
    }
  }

  /** Nothing but colours, and those only at `changed`, has been written. */
  ghost predicate Repainted(m: Cells, m': Cells, changed: set<Node>) {
    && m'.Keys == m.Keys
    && (forall k :: k in m ==> m'[k] == if k in changed then m[k].(color := m'[k].color) else m[k])
  }

  ghost function NewColor(n: Node, m: Cells): Color {
    if n in m then m[n].color else Black
  }

  ghost function NewRoot(t: Tree<Node>, m: Cells): Tree<Node> {
    if t.Leaf? then t else Painted(t, NewColor(t.at, m))
  }

  lemma RootDyed(m: Cells, m': Cells, nil: Node, t: Tree<Node>, changed: set<Node>)
    requires Holds(m, nil, t) && Nodes(t) <= m.Keys && Repainted(m, m', changed)
    requires forall k :: k in changed && k in Nodes(t) ==> k == Ref(t, nil)
    ensures Dyed(t, m') == NewRoot(t, m')
  {
    if t.Fork? {
      DyedSame(m, m', nil, t.left);
      DyedSame(m, m', nil, t.right);
    }
  }

  /** `Grand(p, t)` with the colours that its upper nodes have in `m`. */
  ghost function NewGrand(p: Path<Node>, t: Tree<Node>, m: Cells): Tree<Node>
    requires p.Step? && p.up.Step?
  {
    Join(p.up.side, Join(p.side, NewRoot(t, m), p.at, NewColor(p.at, m), NewRoot(p.sib, m)),
         p.up.at, NewColor(p.up.at, m), NewRoot(p.up.sib, m))
  }

  lemma FocusGrand(m: Cells, nil: Node, root: Node, p: Path<Node>, t: Tree<Node>)
    requires p.Step? && p.up.Step?
    ensures HoldsZip(m, nil, root, p, t) <==> HoldsZip(m, nil, root, p.up.up, Grand(p, t))
  {
    ZipUp(m, nil, root, p.side, p.up, p.at, p.color, p.sib, t);
    ZipUp(m, nil, root, p.up.side, p.up.up, p.up.at, p.up.color, p.up.sib, Join(p.side, t, p.at, p.color, p.sib));
  }

  /** The five parts of the subtree two levels above the focus share no node. */
  ghost predicate Apart(m: Cells, nil: Node, p: Path<Node>, t: Tree<Node>)
    requires p.Step? && p.up.Step?
  {
    && Holds(m, nil, t) && Holds(m, nil, p.sib) && Holds(m, nil, p.up.sib)
    && Nodes(t) <= m.Keys && Nodes(p.sib) <= m.Keys && Nodes(p.up.sib) <= m.Keys && p.at in m && p.up.at in m
    && m[p.at].color == p.color && m[p.up.at].color == p.up.color
    && p.at !in Nodes(t) && p.at !in Nodes(p.sib) && p.at !in Nodes(p.up.sib) && p.at != p.up.at
    && p.up.at !in Nodes(t) && p.up.at !in Nodes(p.sib) && p.up.at !in Nodes(p.up.sib)
    && Nodes(p.up.sib) !! Nodes(t) && Nodes(p.up.sib) !! Nodes(p.sib) && Nodes(t) !! Nodes(p.sib)
    && p.at != nil && p.up.at != nil && nil !in Nodes(t) && nil !in Nodes(p.sib) && nil !in Nodes(p.up.sib)
  }

  lemma GrandApart(m: Cells, nil: Node, root: Node, p: Path<Node>, t: Tree<Node>)
    requires p.Step? && p.up.Step? && HoldsZip(m, nil, root, p, t)
    ensures Apart(m, nil, p, t)
  {
    assert HoldsPath(m, nil, root, p.up, p.at);
    HoldsDomain(m, nil, t);
    HoldsDomain(m, nil, p.sib);
    HoldsDomain(m, nil, p.up.sib);
  }

  lemma GrandDyed(m: Cells, m': Cells, nil: Node, p: Path<Node>, t: Tree<Node>, changed: set<Node>)
    requires p.Step? && p.up.Step? && Apart(m, nil, p, t) && Repainted(m, m', changed)
    requires changed <= {p.at, p.up.at, Ref(t, p.at), Ref(p.sib, p.at), Ref(p.up.sib, p.at)}
    ensures Nodes(Grand(p, t)) == Nodes(t) + {p.at} + Nodes(p.sib) + {p.up.at} + Nodes(p.up.sib)
    ensures Nodes(Grand(p, t)) <= m.Keys && changed <= Nodes(Grand(p, t))
    ensures Dyed(Grand(p, t), m') == NewGrand(p, t, m')
  {
    RootDyed(m, m', nil, t, changed);
    RootDyed(m, m', nil, p.sib, changed);
    RootDyed(m, m', nil, p.up.sib, changed);
    var u := Join(p.side, t, p.at, p.color, p.sib);
    NodesJoin(p.side, t, p.at, p.color, p.sib);
    NodesJoin(p.up.side, u, p.up.at, p.up.color, p.up.sib);
    DyedJoin(p.side, t, p.at, p.color, p.sib, m');
    DyedJoin(p.up.side, u, p.up.at, p.up.color, p.up.sib, m');
  }

  /** Writing colours at the two nodes above the focus and at the roots of the three
      subtrees around them recolours that part of the tree and nothing else. */
  lemma GrandRecolored(m: Cells, m': Cells, nil: Node, root: Node, p: Path<Node>, t: Tree<Node>, changed: set<Node>)
    requires p.Step? && p.up.Step? && HoldsZip(m, nil, root, p, t) && Repainted(m, m', changed)
    requires changed <= {p.at, p.up.at, Ref(t, p.at), Ref(p.sib, p.at), Ref(p.up.sib, p.at)}
    ensures HoldsZip(m', nil, root, p.up.up, NewGrand(p, t, m'))
    ensures Inorder(Plug(p.up.up, NewGrand(p, t, m'))) == Inorder(Plug(p, t))
    ensures nil !in changed
  {
    var g := Grand(p, t);
    FocusGrand(m, nil, root, p, t);
    GrandApart(m, nil, root, p, t);
    GrandDyed(m, m', nil, p, t, changed);
    DyedInorder(m', g);
    RecoloredZip(m, m', nil, root, p.up.up, g, changed);
    PlugSameInorder(p.up.up, g, NewGrand(p, t, m'));
  }

  lemma RecoloredZip(m: Cells, m': Cells, nil: Node, root: Node, p: Path<Node>, t: Tree<Node>, changed: set<Node>)
    requires HoldsZip(m, nil, root, p, t) && Nodes(t) <= m.Keys && changed <= Nodes(t) && Repainted(m, m', changed)
    ensures HoldsZip(m', nil, root, p, Dyed(t, m'))
  {
    DyedHolds(m, m', nil, t);
    FramePath(m, m', nil, root, root, p, Ref(t, nil), Ref(t, nil));
  }

  // ---- Unlinking --------------------------------------------------------------------

  /** What stands in the hole of `p` gives way to one of its two subtrees, `t`. */
  ghost predicate Spliced(m: Cells, m': Cells, p: Path<Node>, tmp: Node)
    requires p.Step?
  {
    && m'.Keys == m.Keys && p.at in m && tmp in m
    && m'[p.at] == WithChild(m[p.at], p.side, tmp)
    && m'[tmp] == m[tmp].(parent := p.at)
    && (forall k :: k in m && k != p.at && k != tmp ==> m'[k] == m[k])
  }

  lemma SplicedZip(m: Cells, m': Cells, nil: Node, root: Node, p: Path<Node>, t0: Tree<Node>, t: Tree<Node>)
    requires HoldsZip(m, nil, root, p, t0) && p.Step? && t0.Fork? && (t == t0.left || t == t0.right)
    requires Spliced(m, m', p, Ref(t, nil))
    ensures HoldsZip(m', nil, root, p, t) && m'[Ref(t, nil)].parent == p.at
  {
    HoldsDomain(m, nil, t0);
    HoldsDomain(m, nil, t);
    assert t.Fork? ==> t.at in Nodes(t);
    HoldsPathDomain(m, nil, root, p, t0.at);
    FrameTree(m, m', nil, t);
    FramePath(m, m', nil, root, root, p, t0.at, Ref(t, nil));
  }

  /** The pointers that replacing `node` by its successor `subst` follows. */
  ghost predicate Substitutable(m: Cells, nil: Node, root: Node, node: Node, subst: Node, tmp: Node) {
    && node in m && subst in m && tmp in m
    && node != subst && tmp != node && tmp != subst && node != nil && subst != nil
    && m[node].left in m && m[node].right in m && m[subst].parent in m
    && (var a, b, u := m[node].left, m[node].right, m[subst].parent;
        && a != nil && b != nil && u != nil && a != node && a != subst && a != tmp && a != u && a != b && b != node
        && (u == node ==> b == subst)
        && (u != node ==> b != subst && b != tmp && u != subst && u != tmp && m[u].left == subst)
        && (node != root ==>
            var g := m[node].parent;
            g in m && g != nil && g != node && g != subst && g != tmp && g != a && g != b && g != u))
  }

  ghost predicate Substituted(m: Cells, m': Cells, nil: Node, root: Node, root': Node,
                              node: Node, subst: Node, tmp: Node)
    requires Substitutable(m, nil, root, node, subst, tmp)
  {
    var a, b, u, g := m[node].left, m[node].right, m[subst].parent, m[node].parent;
    && m'.Keys == m.Keys
    && m'[subst] == Cell(a, if u == node then tmp else b, g, m[node].color)
    && m'[tmp] == m[tmp].(parent := if u == node then subst else u)
    && m'[a] == m[a].(parent := subst)
    && (u != node ==> m'[u] == m[u].(left := tmp, parent := if u == b then subst else m[u].parent))
    && (u != node && u != b ==> m'[b] == m[b].(parent := subst))
    && (node != root ==> m'[g] == Redirected(m[g], node, subst, Left))
    && (forall k :: k in m && k != node && k != subst && k != tmp && k != a && k != b && k != u ==>
                      (k != g || node == root ==> m'[k] == m[k]))
    && root' == if node == root then subst else root
  }

  /** The successor `subst` of `node` has given way to `tmp`. */
  ghost predicate Detached(m: Cells, m': Cells, node: Node, subst: Node, tmp: Node) {
    && node in m && subst in m && tmp in m && m[subst].parent in m && m'.Keys == m.Keys
    && (var u := m[subst].parent;
        && m'[u] == (if u == node then m[u].(right := tmp) else m[u].(left := tmp))
        && m'[tmp] == m[tmp].(parent := if u == node then subst else u)
        && (forall k :: k in m && k != u && k != tmp ==> m'[k] == m[k]))
  }

  /** `subst` has taken over the pointers and the colour of `node`. */
  ghost predicate TookPlace(m: Cells, m': Cells, nil: Node, root: Node, root': Node, node: Node, subst: Node) {
    && node in m && subst in m && m'.Keys == m.Keys
    && (var a, b, g := m[node].left, m[node].right, m[node].parent;
        && m'[subst] == m[node]
        && (a != nil && a in m ==> m'[a] == m[a].(parent := subst))
        && (b != nil && b in m ==> m'[b] == m[b].(parent := subst))
        && (node != root && g in m ==> m'[g] == Redirected(m[g], node, subst, Left))
        && (forall k :: k in m && k != subst && (k != a || k == nil) && (k != b || k == nil) ==>
                          (k != g || node == root ==> m'[k] == m[k]))
        && root' == if node == root then subst else root)
  }

  lemma DetachedThenPlaced(m: Cells, m1: Cells, m': Cells, nil: Node, root: Node, root': Node,
                           node: Node, subst: Node, tmp: Node)
    requires Substitutable(m, nil, root, node, subst, tmp)
    requires Detached(m, m1, node, subst, tmp) && TookPlace(m1, m', nil, root, root', node, subst)
    ensures Substituted(m, m', nil, root, root', node, subst, tmp)
  {
  }

  /** The node through which the composite path enters `q`. */
  ghost function Entry(q: Path<Node>, hole: Node): Node {
    if q.Top? then hole else Outermost(q)
  }

  lemma {:induction false} ComposeNodes(q: Path<Node>, o: Path<Node>)
    ensures PathNodes(Compose(q, o)) == PathNodes(q) + PathNodes(o)
  {
    if q.Top? {
    } else {
      ComposeNodes(q.up, o);
    }
  }

  lemma {:induction false} SplitPath(m: Cells, nil: Node, root: Node, q: Path<Node>, o: Path<Node>, hole: Node)
    ensures HoldsPath(m, nil, root, Compose(q, o), hole) <==>
      && HoldsPath(m, nil, Entry(q, hole), q, hole)
      && HoldsPath(m, nil, root, o, Entry(q, hole))
      && PathNodes(q) !! PathNodes(o)
      && (q.Step? && o.Step? ==> Outermost(q) in m && m[Outermost(q)].parent == o.at)
  {
    if q.Top? {
    } else {
      SplitPath(m, nil, root, q.up, o, q.at);
      ComposeNodes(q.up, o);
      assert Compose(q, o) == Step(q.side, Compose(q.up, o), q.at, q.color, q.sib);
      assert q.up.Top? ==> Compose(q.up, o) == o;
      assert q.up.Step? ==> Compose(q.up, o).at == q.up.at;
    }
  }

  /** A path that goes down left pointers only. */
  predicate LeftSpine(q: Path<Node>) {
    q.Step? ==> q.side.Left? && LeftSpine(q.up)
  }

  /** Five parts of `all` that share no node. */
  ghost predicate FiveApart(all: set<Node>, u: set<Node>, l: set<Node>, node: Node, q: set<Node>, p: set<Node>) {
    && u <= all && l <= all && node in all && q <= all && p <= all
    && u !! l && u !! q && u !! p && l !! q && l !! p && q !! p
    && node !in u && node !in l && node !in q && node !in p
  }

  lemma PartsApart(all: set<Node>, u: set<Node>, q: set<Node>, o: set<Node>, p: set<Node>, node: Node, l: set<Node>)
    requires u <= all && q <= all && o <= all && u !! q + o && q !! o
    requires o == p + {node} + l && node !in p && node !in l && p !! l
    ensures FiveApart(all, u, l, node, q, p)
  {}

  lemma SuccessorSets(m: Cells, nil: Node, root: Node, q: Path<Node>, o: Path<Node>, u: Tree<Node>)
    requires HoldsZip(m, nil, root, Compose(q, o), u)
    ensures Nodes(u) <= m.Keys - {nil} && PathNodes(q) <= m.Keys - {nil} && PathNodes(o) <= m.Keys - {nil}
    ensures Nodes(u) !! PathNodes(q) + PathNodes(o) && PathNodes(q) !! PathNodes(o)
    ensures HoldsPath(m, nil, root, o, Entry(q, Ref(u, nil)))
  {
    SplitPath(m, nil, root, q, o, Ref(u, nil));
    ComposeNodes(q, o);
    HoldsDomain(m, nil, u);
    HoldsPathDomain(m, nil, root, Compose(q, o), Ref(u, nil));
  }

  /** Around a node with two children: the parts of the tree do not overlap. */
  lemma SuccessorApart(m: Cells, nil: Node, root: Node, p: Path<Node>, l: Tree<Node>, node: Node, c: Color,
                       q: Path<Node>, u: Tree<Node>)
    requires HoldsZip(m, nil, root, Compose(q, Step(Right, p, node, c, l)), u)
    ensures FiveApart(m.Keys - {nil}, Nodes(u), Nodes(l), node, PathNodes(q), PathNodes(p))
    ensures p.Step? ==> root in PathNodes(p)
  {
    var o := Step(Right, p, node, c, l);
    SuccessorSets(m, nil, root, q, o, u);
    PathParts(m, nil, root, p, l, node, c, Entry(q, Ref(u, nil)));
    PartsApart(m.Keys - {nil}, Nodes(u), PathNodes(q), PathNodes(o), PathNodes(p), node, Nodes(l));
  }

  lemma PathParts(m: Cells, nil: Node, root: Node, p: Path<Node>, l: Tree<Node>, node: Node, c: Color, hole: Node)
    requires HoldsPath(m, nil, root, Step(Right, p, node, c, l), hole)
    ensures PathNodes(Step(Right, p, node, c, l)) == PathNodes(p) + {node} + Nodes(l)
    ensures node !in PathNodes(p) && node !in Nodes(l) && PathNodes(p) !! Nodes(l)
    ensures p.Step? ==> root in PathNodes(p)
  {
    HoldsPathDomain(m, nil, root, p, node);
  }

  lemma UpperCells(m: Cells, nil: Node, root: Node, p: Path<Node>, l: Tree<Node>, node: Node, c: Color, hole: Node)
    requires HoldsPath(m, nil, root, Step(Right, p, node, c, l), hole) && l.Fork?
    ensures node in m && m[node].right == hole && m[node].left == l.at && l.at in Nodes(l)
    ensures p.Step? ==> m[node].parent == p.at && p.at in PathNodes(p)
    ensures p.Top? ==> node == root
  {}

  lemma LowerCells(m: Cells, nil: Node, root: Node, q: Path<Node>, u: Tree<Node>)
    requires u.Fork? && HoldsPath(m, nil, root, q, u.at) && Holds(m, nil, u) && LeftSpine(q)
    ensures u.at in m && (u.right.Fork? ==> u.right.at in Nodes(u) && u.right.at != u.at)
    ensures q.Step? ==> q.at in m && m[q.at].left == u.at && Outermost(q) in PathNodes(q) && q.at in PathNodes(q)
  {
    if q.Step? { OutermostIn(q); }
    assert u.right.Fork? ==> u.right.at in Nodes(u.right);
  }

  lemma SplitDown(m: Cells, nil: Node, root: Node, q: Path<Node>, o: Path<Node>, u: Tree<Node>)
    requires HoldsZip(m, nil, root, Compose(q, o), u) && u.Fork?
    ensures HoldsPath(m, nil, Entry(q, u.at), q, u.at) && HoldsPath(m, nil, root, o, Entry(q, u.at)) && Holds(m, nil, u)
  {
    SplitPath(m, nil, root, q, o, u.at);
  }

  lemma FocusParent(m: Cells, nil: Node, root: Node, p: Path<Node>, t: Tree<Node>)
    requires HoldsZip(m, nil, root, p, t) && t.Fork? && p.Step?
    ensures t.at in m && m[t.at].parent == p.at
  {}

  lemma ComposeAt(q: Path<Node>, o: Path<Node>)
    requires o.Step?
    ensures Compose(q, o).Step? && Compose(q, o).at == if q.Top? then o.at else q.at
  {}

  lemma LowerParent(m: Cells, nil: Node, root: Node, q: Path<Node>, o: Path<Node>, u: Tree<Node>)
    requires HoldsZip(m, nil, root, Compose(q, o), u) && u.Fork? && o.Step?
    ensures u.at in m && m[u.at].parent == if q.Top? then o.at else q.at
  {
    ComposeAt(q, o);
    FocusParent(m, nil, root, Compose(q, o), u);
  }

  /** The cells around a node with two children: its own, */
  lemma NodeCells(m: Cells, nil: Node, root: Node, p: Path<Node>, l: Tree<Node>, node: Node, c: Color,
                  q: Path<Node>, u: Tree<Node>)
    requires HoldsZip(m, nil, root, Compose(q, Step(Right, p, node, c, l)), u)
    requires u.Fork? && l.Fork?
    ensures node in m && m[node].right == Entry(q, u.at) && m[node].left == l.at && l.at in Nodes(l)
    ensures p.Step? ==> m[node].parent == p.at && p.at in PathNodes(p)
    ensures p.Top? ==> node == root
  {
    SplitDown(m, nil, root, q, Step(Right, p, node, c, l), u);
    UpperCells(m, nil, root, p, l, node, c, Entry(q, u.at));
  }

  /** and those of its successor. */
  lemma SuccessorCells(m: Cells, nil: Node, root: Node, q: Path<Node>, o: Path<Node>, u: Tree<Node>)
    requires HoldsZip(m, nil, root, Compose(q, o), u) && LeftSpine(q) && u.Fork?
    ensures u.at in m && (u.right.Fork? ==> u.right.at in Nodes(u) && u.right.at != u.at)
    ensures q.Step? ==> q.at in m && m[q.at].left == u.at && Outermost(q) in PathNodes(q) && q.at in PathNodes(q)
  {
    SplitDown(m, nil, root, q, o, u);
    LowerCells(m, nil, Entry(q, u.at), q, u);
  }

  /** The same facts without the tree: `e` stands for the entry of `q`, `v` for the parent of
      `u.at` and `g` for the parent of `node`, or for `node` when it is the root. */
  ghost predicate View(m: Cells, nil: Node, root: Node, ps: set<Node>, ls: set<Node>, us: set<Node>, qs: set<Node>,
                       node: Node, subst: Node, tmp: Node, a: Node, b: Node, v: Node, g: Node) {
    && FiveApart(m.Keys - {nil}, us, ls, node, qs, ps) && nil in m
    && subst in us && (tmp == nil || tmp in us) && tmp != subst && a in ls
    && ((v == node && b == subst) || (v in qs && b in qs && m[v].left == subst))
    && ((g == node && node == root) || (g in ps && root in ps && m[node].parent == g))
    && m[node].left == a && m[node].right == b && m[subst].parent == v
  }

  lemma SuccessorView(m: Cells, nil: Node, root: Node, p: Path<Node>, l: Tree<Node>, node: Node, c: Color,
                      q: Path<Node>, u: Tree<Node>)
    requires HoldsZip(m, nil, root, Compose(q, Step(Right, p, node, c, l)), u)
    requires LeftSpine(q) && u.Fork? && u.left.Leaf? && l.Fork? && nil in m
    ensures View(m, nil, root, PathNodes(p), Nodes(l), Nodes(u), PathNodes(q), node, u.at, Ref(u.right, nil), l.at,
                 Entry(q, u.at), Over(q, node), Over(p, node))
  {
    SuccessorApart(m, nil, root, p, l, node, c, q, u);
    var o := Step(Right, p, node, c, l);
    NodeCells(m, nil, root, p, l, node, c, q, u);
    SuccessorCells(m, nil, root, q, o, u);
    LowerParent(m, nil, root, q, o, u);
  }

  /** The node above a hole, or `top` if there is none. */
  ghost function Over(p: Path<Node>, top: Node): Node {
    if p.Top? then top else p.at
  }

  lemma SuccessorSubstitutable(m: Cells, nil: Node, root: Node,
                               ps: set<Node>, ls: set<Node>, us: set<Node>, qs: set<Node>,
                               node: Node, subst: Node, tmp: Node, a: Node, b: Node, v: Node, g: Node)
    requires View(m, nil, root, ps, ls, us, qs, node, subst, tmp, a, b, v, g)
    ensures Substitutable(m, nil, root, node, subst, tmp)
    ensures g == node <==> node == root
  {}

  lemma CanSubstitute(m: Cells, nil: Node, root: Node, p: Path<Node>, l: Tree<Node>, node: Node, c: Color,
                      q: Path<Node>, u: Tree<Node>)
    requires HoldsZip(m, nil, root, Compose(q, Step(Right, p, node, c, l)), u)
    requires LeftSpine(q) && u.Fork? && u.left.Leaf? && l.Fork? && nil in m
    ensures Substitutable(m, nil, root, node, u.at, Ref(u.right, nil))
  {
    SuccessorView(m, nil, root, p, l, node, c, q, u);
    SuccessorSubstitutable(m, nil, root, PathNodes(p), Nodes(l), Nodes(u), PathNodes(q), node, u.at, Ref(u.right, nil),
                           l.at, Entry(q, u.at), Over(q, node), Over(p, node));
  }

  /** Once the successor has taken the place of `node`, the other cells hold the tree. */
  lemma UnlinkedZip(m: Cells, m': Cells, rest: Cells, nil: Node, root: Node, root': Node,
                    p: Path<Node>, l: Tree<Node>, node: Node, c: Color, q: Path<Node>, u: Tree<Node>)
    requires HoldsZip(m, nil, root, Compose(q, Step(Right, p, node, c, l)), u)
    requires LeftSpine(q) && u.Fork? && u.left.Leaf? && l.Fork? && nil in m
    requires Substitutable(m, nil, root, node, u.at, Ref(u.right, nil))
    requires Substituted(m, m', nil, root, root', node, u.at, Ref(u.right, nil))
    requires rest.Keys == m'.Keys - {node} && forall k :: k in rest ==> rest[k] == m'[k]
    ensures
      var p', tmp := Compose(q, Step(Right, p, u.at, c, l)), Ref(u.right, nil);
      HoldsZip(rest, nil, root', p', u.right) && tmp in rest && rest[tmp].parent == p'.at
    ensures nil in rest && rest[nil].color == m[nil].color
  {
    var p' := Compose(q, Step(Right, p, u.at, c, l));
    SubstitutedZip(m, m', nil, root, root', p, l, node, c, q, u);
    NodeUnlinked(m, nil, root, p, l, node, c, q, u);
    FrameZip(m', rest, nil, root', p', u.right);
  }

  lemma NodeUnlinked(m: Cells, nil: Node, root: Node, p: Path<Node>, l: Tree<Node>, node: Node, c: Color,
                     q: Path<Node>, u: Tree<Node>)
    requires HoldsZip(m, nil, root, Compose(q, Step(Right, p, node, c, l)), u)
    requires LeftSpine(q) && u.Fork? && u.left.Leaf? && l.Fork? && nil in m
    ensures node !in Nodes(u.right) + PathNodes(Compose(q, Step(Right, p, u.at, c, l)))
    ensures node != nil && node != Ref(u.right, nil)
  {
    SuccessorApart(m, nil, root, p, l, node, c, q, u);
    ComposeNodes(q, Step(Right, p, u.at, c, l));
  }

  lemma SubstitutedZip(m: Cells, m': Cells, nil: Node, root: Node, root': Node,
                       p: Path<Node>, l: Tree<Node>, node: Node, c: Color, q: Path<Node>, u: Tree<Node>)
    requires HoldsZip(m, nil, root, Compose(q, Step(Right, p, node, c, l)), u)
    requires LeftSpine(q) && u.Fork? && u.left.Leaf? && l.Fork? && nil in m
    requires Substitutable(m, nil, root, node, u.at, Ref(u.right, nil))
    requires Substituted(m, m', nil, root, root', node, u.at, Ref(u.right, nil))
    ensures HoldsZip(m', nil, root', Compose(q, Step(Right, p, u.at, c, l)), u.right)
    ensures m'[Ref(u.right, nil)].parent == Compose(q, Step(Right, p, u.at, c, l)).at
    ensures m'[nil].color == m[nil].color
  {
    var o, o', tmp := Step(Right, p, node, c, l), Step(Right, p, u.at, c, l), Ref(u.right, nil);
    SuccessorView(m, nil, root, p, l, node, c, q, u);
    SplitPath(m, nil, root, q, o, u.at);
    SubstitutedOuter(m, m', nil, root, root', p, l, node, c, q, u);
    SubstitutedInner(m, m', nil, root, root', p, l, node, q, u);
    SplitPath(m', nil, root', q, o', tmp);
    ComposeNodes(q, o');
    assert PathNodes(o') == PathNodes(p) + {u.at} + Nodes(l);
  }

  /** What the substitution leaves of the cells above `node` and beside it. */
  lemma SubstitutedCells(m: Cells, m': Cells, nil: Node, root: Node, root': Node,
                         ps: set<Node>, ls: set<Node>, us: set<Node>, qs: set<Node>,
                         node: Node, subst: Node, tmp: Node, a: Node, b: Node, v: Node, g: Node)
    requires View(m, nil, root, ps, ls, us, qs, node, subst, tmp, a, b, v, g)
    requires Substitutable(m, nil, root, node, subst, tmp) && Substituted(m, m', nil, root, root', node, subst, tmp)
    ensures forall k :: k in ps ==> k in m' && m'[k] == if k == g then Redirected(m[k], node, subst, Left) else m[k]
    ensures forall k :: k in ls ==> k in m' && m'[k] == if k == a then m[k].(parent := subst) else m[k]
    ensures subst in m' && m'[subst].left == a && m'[subst].right == (if v == node then tmp else b)
    ensures m'[subst].color == m[node].color && m'[subst].parent == m[node].parent
    ensures subst !in ps && subst !in ls && root' == if node == root then subst else root
  {}

  lemma SubstitutedOuter(m: Cells, m': Cells, nil: Node, root: Node, root': Node,
                         p: Path<Node>, l: Tree<Node>, node: Node, c: Color, q: Path<Node>, u: Tree<Node>)
    requires u.Fork? && l.Fork?
    requires View(m, nil, root, PathNodes(p), Nodes(l), Nodes(u), PathNodes(q), node, u.at, Ref(u.right, nil), l.at,
                  Entry(q, u.at), Over(q, node), Over(p, node))
    requires m[node].color == c && Holds(m, nil, l) && HoldsPath(m, nil, root, p, node)
    requires Substitutable(m, nil, root, node, u.at, Ref(u.right, nil))
    requires Substituted(m, m', nil, root, root', node, u.at, Ref(u.right, nil))
    ensures HoldsPath(m', nil, root', Step(Right, p, u.at, c, l), Entry(q, Ref(u.right, nil)))
  {
    SubstitutedCells(m, m', nil, root, root', PathNodes(p), Nodes(l), Nodes(u), PathNodes(q),
                     node, u.at, Ref(u.right, nil),
                     l.at, Entry(q, u.at), Over(q, node), Over(p, node));
    SubstitutedAbove(m, m', nil, root, root', p, l, node, u.at);
  }

  lemma SubstitutedAbove(m: Cells, m': Cells, nil: Node, root: Node, root': Node, p: Path<Node>, l: Tree<Node>,
                         node: Node,
                         subst: Node)
    requires Holds(m, nil, l) && HoldsPath(m, nil, root, p, node) && l.Fork?
    requires forall k :: k in PathNodes(p) ==>
      k in m' && k in m && m'[k] == if k == Over(p, node) then Redirected(m[k], node, subst, Left) else m[k]
    requires forall k :: k in Nodes(l) ==>
                           k in m' && k in m && m'[k] == if k == l.at then m[k].(parent := subst) else m[k]
    requires p.Step? ==> ChildOf(m[p.at], Opposite(p.side)) != node
    requires root' == if p.Top? then subst else root
    ensures HoldsPath(m', nil, root', p, subst) && Holds(m', nil, l) && m'[l.at].parent == subst
  {
    assert l.at in Nodes(l);
    FrameTree(m, m', nil, l);
    if p.Step? { assert p.at in PathNodes(p); }
    FramePath(m, m', nil, root, root', p, node, subst);
  }

  /** What the substitution leaves of the cells between `node` and its successor, and below. */
  lemma SubstitutedLowerCells(m: Cells, m': Cells, nil: Node, root: Node, root': Node,
                              ps: set<Node>, ls: set<Node>, us: set<Node>, qs: set<Node>,
                              node: Node, subst: Node, tmp: Node, a: Node, b: Node, v: Node, g: Node)
    requires View(m, nil, root, ps, ls, us, qs, node, subst, tmp, a, b, v, g)
    requires Substitutable(m, nil, root, node, subst, tmp) && Substituted(m, m', nil, root, root', node, subst, tmp)
    ensures forall k :: k in qs ==> (k in m' && k in m
      && m'[k] == (if k == v then m[k].(left := tmp) else m[k]).(parent := if k == b then subst else m[k].parent))
    ensures forall k :: k in us && k != subst ==> (k in m' && k in m
      && m'[k] == m[k].(parent := if k == tmp then m'[k].parent else m[k].parent))
  {}

  lemma SubstitutedInner(m: Cells, m': Cells, nil: Node, root: Node, root': Node,
                         p: Path<Node>, l: Tree<Node>, node: Node, q: Path<Node>, u: Tree<Node>)
    requires u.Fork? && l.Fork? && LeftSpine(q)
    requires View(m, nil, root, PathNodes(p), Nodes(l), Nodes(u), PathNodes(q), node, u.at, Ref(u.right, nil), l.at,
                  Entry(q, u.at), Over(q, node), Over(p, node))
    requires Holds(m, nil, u) && HoldsPath(m, nil, Entry(q, u.at), q, u.at)
    requires Substitutable(m, nil, root, node, u.at, Ref(u.right, nil))
    requires Substituted(m, m', nil, root, root', node, u.at, Ref(u.right, nil))
    ensures HoldsPath(m', nil, Entry(q, Ref(u.right, nil)), q, Ref(u.right, nil)) && Holds(m', nil, u.right)
    ensures q.Step? ==> m'[Entry(q, u.at)].parent == u.at
  {
    SubstitutedLowerCells(m, m', nil, root, root', PathNodes(p), Nodes(l), Nodes(u), PathNodes(q),
                          node, u.at, Ref(u.right, nil),
                          l.at, Entry(q, u.at), Over(q, node), Over(p, node));
    SubstitutedBelow(m, m', nil, q, u);
  }

  lemma SubstitutedBelow(m: Cells, m': Cells, nil: Node, q: Path<Node>, u: Tree<Node>)
    requires u.Fork? && LeftSpine(q) && Holds(m, nil, u) && HoldsPath(m, nil, Entry(q, u.at), q, u.at)
    requires forall k :: k in PathNodes(q) ==> (k in m' && k in m
      && m'[k] == (if k == Over(q, u.at) then m[k].(left := Ref(u.right, nil)) else m[k])
                  .(parent := if k == Entry(q, u.at) then u.at else m[k].parent))
    requires forall k :: k in Nodes(u) && k != u.at ==> (k in m' && k in m
      && m'[k] == m[k].(parent := if k == Ref(u.right, nil) then m'[k].parent else m[k].parent))
    ensures HoldsPath(m', nil, Entry(q, Ref(u.right, nil)), q, Ref(u.right, nil)) && Holds(m', nil, u.right)
    ensures q.Step? ==> Outermost(q) in m' && m'[Outermost(q)].parent == u.at
  {
    if q.Step? { OutermostIn(q); }
    FrameTree(m, m', nil, u.right);
    FramePath(m, m', nil, Entry(q, u.at), Entry(q, Ref(u.right, nil)), q, u.at, Ref(u.right, nil));
  }
}
