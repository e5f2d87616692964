/** util/scraft_rbt.c: the intrusive red-black tree. */
module Rbt {
  import opened Comparators
  import opened Lists
  import opened RbShape
  import opened RbHeap

  ghost predicate Sorted(cmp: (int, int) -> int, s: seq<Node>) {
    forall i, j :: 0 <= i < j < |s| ==> cmp(s[i].key, s[j].key) <= 0
  }

  /** `s` with `node` spliced in immediately before the first node whose key is not smaller. */
  ghost function Inserted(cmp: (int, int) -> int, s: seq<Node>, node: Node): seq<Node> {
    if s == [] || cmp(node.key, s[0].key) <= 0 then [node] + s else [s[0]] + Inserted(cmp, s[1..], node)
  }

  lemma {:induction false} InsertedBetween(cmp: (int, int) -> int, before: seq<Node>, after: seq<Node>, node: Node)
    requires forall n :: n in before ==> cmp(node.key, n.key) > 0
    requires forall n :: n in after ==> cmp(node.key, n.key) <= 0
    ensures Inserted(cmp, before + after, node) == before + [node] + after
  {
    if before == [] {
      assert before + after == after;
    } else {
      InsertedBetween(cmp, before[1..], after, node);
      assert (before + after)[1..] == before[1..] + after;
      assert before + [node] + after == [before[0]] + (before[1..] + [node] + after);
    }
  }

  lemma {:induction false} InsertedElements(cmp: (int, int) -> int, s: seq<Node>, node: Node)
    ensures Elements(Inserted(cmp, s, node)) == Elements(s) + {node}
  {
    if s != [] && cmp(node.key, s[0].key) > 0 {
      InsertedElements(cmp, s[1..], node);
      assert Elements(s) == {s[0]} + Elements(s[1..]);
      assert Elements(Inserted(cmp, s, node)) == {s[0]} + Elements(Inserted(cmp, s[1..], node));
    }
  }

  lemma {:induction false} InsertedSorted(cmp: (int, int) -> int, s: seq<Node>, node: Node)
    requires ThreeWay(cmp) && Sorted(cmp, s)
    ensures Sorted(cmp, Inserted(cmp, s, node))
  {
    if s == [] {
    } else if cmp(node.key, s[0].key) <= 0 {
      InsertedFirst(cmp, s, node);
    } else {
      SortedTail(cmp, s);
      InsertedSorted(cmp, s[1..], node);
      InsertedLater(cmp, s, node);
    }
  }

  lemma InsertedFirst(cmp: (int, int) -> int, s: seq<Node>, node: Node)
    requires ThreeWay(cmp) && Sorted(cmp, s) && s != [] && cmp(node.key, s[0].key) <= 0
    ensures Sorted(cmp, [node] + s)
  {
    forall n | n in s ensures cmp(node.key, n.key) <= 0 {
      Laws(cmp, node.key, s[0].key, n.key);
    }
    SortedCons(cmp, node, s);
  }

  lemma InsertedLater(cmp: (int, int) -> int, s: seq<Node>, node: Node)
    requires ThreeWay(cmp) && s != [] && cmp(node.key, s[0].key) > 0
    requires Sorted(cmp, Inserted(cmp, s[1..], node)) && forall k :: k in s[1..] ==> cmp(s[0].key, k.key) <= 0
    ensures Sorted(cmp, [s[0]] + Inserted(cmp, s[1..], node))
  {
    var rest := Inserted(cmp, s[1..], node);
    InsertedElements(cmp, s[1..], node);
    Laws(cmp, s[0].key, node.key, node.key);
    forall k | k in rest ensures cmp(s[0].key, k.key) <= 0 {
      assert k in Elements(rest);
    }
    SortedCons(cmp, s[0], rest);
  }

  lemma SortedTail(cmp: (int, int) -> int, s: seq<Node>)
    requires Sorted(cmp, s) && s != []
    ensures Sorted(cmp, s[1..]) && forall k :: k in s[1..] ==> cmp(s[0].key, k.key) <= 0
  {}

  lemma SortedCons(cmp: (int, int) -> int, n: Node, s: seq<Node>)
    requires Sorted(cmp, s) && forall k :: k in s ==> cmp(n.key, k.key) <= 0
    ensures Sorted(cmp, [n] + s)
  {}

  lemma SortedMiddle(cmp: (int, int) -> int, a: seq<Node>, n: Node, c: seq<Node>)
    requires Sorted(cmp, a + [n] + c)
    ensures forall k :: k in a ==> cmp(k.key, n.key) <= 0
    ensures forall k :: k in c ==> cmp(n.key, k.key) <= 0
  {
    var s := a + [n] + c;
    assert s[|a|] == n;
    forall k | k in a ensures cmp(k.key, n.key) <= 0 {
      var i :| 0 <= i < |a| && a[i] == k;
      assert s[i] == k;
    }
    forall k | k in c ensures cmp(n.key, k.key) <= 0 {
      var i :| 0 <= i < |c| && c[i] == k;
      assert s[|a| + 1 + i] == k;
    }
  }

  /** Where the in-order sequence is sorted, it is sorted around every node. */
  lemma SortedAround(cmp: (int, int) -> int, p: Path<Node>, t: Tree<Node>)
    requires Sorted(cmp, Inorder(Plug(p, t))) && t.Fork?
    ensures forall n :: n in Inorder(t.left) ==> cmp(n.key, t.at.key) <= 0
    ensures forall n :: n in Inorder(t.right) ==> cmp(t.at.key, n.key) <= 0
  {
    PlugInorder(p, t);
    var l, r := Inorder(t.left), Inorder(t.right);
    Reassociate(Before(p), l, [t.at], r, After(p));
    assert Before(p) + l + [t.at] + r + After(p) == (Before(p) + l) + [t.at] + (r + After(p));
    SortedMiddle(cmp, Before(p) + l, t.at, r + After(p));
  }

  lemma DroppedSorted(cmp: (int, int) -> int, a: seq<Node>, node: Node, b: seq<Node>)
    requires Sorted(cmp, a + [node] + b)
    ensures Sorted(cmp, a + b)
  {
    var s := a + [node] + b;
    forall i, j | 0 <= i < j < |a + b| ensures cmp((a + b)[i].key, (a + b)[j].key) <= 0 {
      var i1, j1 := if i < |a| then i else i + 1, if j < |a| then j else j + 1;
      assert (a + b)[i] == s[i1] && (a + b)[j] == s[j1];
    }
  }

  /** The in-order sequence without the root of the focus. */
  lemma RemovedAround(cmp: (int, int) -> int, m: Cells, nil: Node, root: Node, p: Path<Node>, t0: Tree<Node>)
    requires HoldsZip(m, nil, root, p, t0) && t0.Fork? && Sorted(cmp, Inorder(Plug(p, t0)))
    ensures Dropped(Inorder(Plug(p, t0)), t0.at) == Before(p) + (Inorder(t0.left) + Inorder(t0.right)) + After(p)
    ensures Sorted(cmp, Dropped(Inorder(Plug(p, t0)), t0.at))
  {
    var b, l, r, e, n := Before(p), Inorder(t0.left), Inorder(t0.right), After(p), t0.at;
    PlugInorder(p, t0);
    PathElements(p);
    InorderNodes(t0.left);
    InorderNodes(t0.right);
    HoldsPathDomain(m, nil, root, p, n);
    assert n !in PathNodes(p) by { assert n in Nodes(t0); }
    RemovedFrom(cmp, b, l, n, r, e);
  }

  lemma AbsentFrom(a: seq<Node>, b: seq<Node>, n: Node)
    requires n !in Elements(a) && n !in Elements(b)
    ensures n !in a + b
  {}

  lemma RemovedFrom(cmp: (int, int) -> int, b: seq<Node>, l: seq<Node>, n: Node, r: seq<Node>, e: seq<Node>)
    requires n !in Elements(b) && n !in Elements(l) && n !in Elements(r) && n !in Elements(e)
    requires Sorted(cmp, b + (l + [n] + r) + e)
    ensures Dropped(b + (l + [n] + r) + e, n) == b + (l + r) + e
    ensures Sorted(cmp, b + (l + r) + e)
  {
    Regroup(b, l, [n], r, e);
    AbsentFrom(b, l, n);
    AbsentFrom(r, e, n);
    DroppedBetween(b + l, n, r + e);
    DroppedSorted(cmp, b + l, n, r + e);
  }

  /** The tree after the root of the focus has given way to `v`. */
  lemma RemovedTree(cmp: (int, int) -> int, m: Cells, nil: Node, root: Node, p: Path<Node>, t0: Tree<Node>,
                    v: Tree<Node>)
    requires HoldsZip(m, nil, root, p, t0) && t0.Fork? && Sorted(cmp, Inorder(Plug(p, t0)))
    requires Inorder(v) == Inorder(t0.left) + Inorder(t0.right)
    ensures Inorder(Plug(p, v)) == Dropped(Inorder(Plug(p, t0)), t0.at) && Sorted(cmp, Inorder(Plug(p, v)))
    ensures Nodes(Plug(p, v)) == Nodes(Plug(p, t0)) - {t0.at}
  {
    RemovedAround(cmp, m, nil, root, p, t0);
    PlugInorder(p, v);
    RemovedNodes(m, nil, root, p, t0, v);
  }

  lemma RemovedNodes(m: Cells, nil: Node, root: Node, p: Path<Node>, t0: Tree<Node>, v: Tree<Node>)
    requires HoldsZip(m, nil, root, p, t0) && t0.Fork? && Inorder(v) == Inorder(t0.left) + Inorder(t0.right)
    ensures Nodes(Plug(p, v)) == Nodes(Plug(p, t0)) - {t0.at}
  {
    PlugNodes(p, t0);
    PlugNodes(p, v);
    InorderNodes(v);
    InorderNodes(t0.left);
    InorderNodes(t0.right);
    assert Elements(Inorder(t0.left) + Inorder(t0.right)) == Nodes(t0.left) + Nodes(t0.right);
    assert t0.at !in PathNodes(p) by { assert t0.at in Nodes(t0); }
  }

  /** What a node with two children gives way to. */
  lemma SuccessorTree(p: Path<Node>, t0: Tree<Node>, q: Path<Node>, u: Tree<Node>) returns (v: Tree<Node>)
    requires t0.Fork? && u.Fork? && u.left.Leaf? && Plug(q, u) == t0.right && Before(q) == []
    ensures Inorder(v) == Inorder(t0.left) + Inorder(t0.right)
    ensures Plug(p, v) == Plug(Compose(q, Step(Right, p, u.at, t0.color, t0.left)), u.right)
  {
    var o := Step(Right, p, u.at, t0.color, t0.left);
    PlugCompose(q, o, u.right);
    v := Fork(t0.left, u.at, t0.color, Plug(q, u.right));
    SuccessorOrder(t0.right, q, u);
  }

  /** The leftmost node heads the in-order sequence; without it the rest is unchanged. */
  lemma SuccessorOrder(t: Tree<Node>, q: Path<Node>, u: Tree<Node>)
    requires u.Fork? && u.left.Leaf? && Plug(q, u) == t && Before(q) == []
    ensures Inorder(t) == [u.at] + Inorder(Plug(q, u.right))
  {
    PlugInorder(q, u);
    PlugInorder(q, u.right);
    NoLeft(u);
    FrontOut(u.at, Inorder(u.right), After(q));
  }

  lemma NoLeft(u: Tree<Node>)
    requires u.Fork? && u.left.Leaf?
    ensures Inorder(u) == [u.at] + Inorder(u.right)
  {}

  lemma FrontOut(x: Node, a: seq<Node>, b: seq<Node>)
    ensures [] + ([x] + a) + b == [x] + ([] + a + b)
  {}

  lemma InnerRemovedShape(p: Path<Node>, t0: Tree<Node>, q: Path<Node>, u: Tree<Node>)
    requires RedBlack(Plug(p, t0)) && t0.Fork? && u.Fork? && u.left.Leaf? && Plug(q, u) == t0.right
    ensures
      var p' := Compose(q, Step(Right, p, u.at, t0.color, t0.left));
      && (u.color.Red? ==> RedBlack(Plug(p', u.right)))
      && (u.color.Black? ==> ShortFocus(p', u.right))
  {
    var o, o' := Below(p, t0, Right), Step(Right, p, u.at, t0.color, t0.left);
    PlugCompose(q, o, u);
    PlugRedBlack(Compose(q, o), u);
    AdmitsRenamed(q, Right, p, t0.at, u.at, t0.color, t0.left, RootColor(u), BlackHeight(u));
    PlugRedBlack(Compose(q, o'), u);
    RemoveOne(Compose(q, o'), u, u.right);
  }

  /** The tree that deleting a node with two children leaves, before any rebalancing. */
  lemma InnerRemoved(cmp: (int, int) -> int, m: Cells, nil: Node, root: Node, p: Path<Node>, t0: Tree<Node>,
                     q: Path<Node>, u: Tree<Node>)
    requires HoldsZip(m, nil, root, p, t0) && t0.Fork? && Sorted(cmp, Inorder(Plug(p, t0))) && RedBlack(Plug(p, t0))
    requires u.Fork? && u.left.Leaf? && Plug(q, u) == t0.right && Before(q) == []
    requires m.Keys == Nodes(Plug(p, t0)) + {nil}
    ensures
      var p' := Compose(q, Step(Right, p, u.at, t0.color, t0.left));
      && (u.color.Red? ==> RedBlack(Plug(p', u.right)))
      && (u.color.Black? ==> ShortFocus(p', u.right))
      && Inorder(Plug(p', u.right)) == Dropped(Inorder(Plug(p, t0)), t0.at) && Sorted(cmp, Inorder(Plug(p', u.right)))
      && Nodes(Plug(p', u.right)) == Nodes(Plug(p, t0)) - {t0.at}
      && m.Keys - {t0.at} == Nodes(Plug(p', u.right)) + {nil}
  {
    var v := SuccessorTree(p, t0, q, u);
    InnerRemovedShape(p, t0, q, u);
    RemovedTree(cmp, m, nil, root, p, t0, v);
    HoldsDomain(m, nil, t0);
    assert t0.at in Nodes(t0);
  }

  lemma InsertedTree(cmp: (int, int) -> int, t: Tree<Node>, u: Tree<Node>, node: Node)
    requires ThreeWay(cmp) && Sorted(cmp, Inorder(t)) && Inorder(u) == Inserted(cmp, Inorder(t), node)
    ensures Sorted(cmp, Inorder(u)) && Nodes(u) == Nodes(t) + {node}
  {
    InsertedSorted(cmp, Inorder(t), node);
    InsertedElements(cmp, Inorder(t), node);
    InorderNodes(t);
    InorderNodes(u);
  }

  // ---- What the rotations of the fixup loops do to the focus ---------------------------

  /** Rotating left about the parent of the focus, a right child, makes that parent the focus. */
  lemma InnerRotatedLeft(m: Cells, m': Cells, nil: Node, root: Node, root': Node, p: Path<Node>, t: Tree<Node>)
    requires HoldsZip(m, nil, root, p, t) && t.Fork? && p.Step? && p.side.Right?
    requires Rotatable(m, nil, root, p.at, Right) && Rotated(m, m', nil, root, root', p.at, Right)
    ensures HoldsZip(m', nil, root', Step(Left, p.up, t.at, t.color, t.right), Fork(p.sib, p.at, p.color, t.left))
    ensures Inorder(Plug(Step(Left, p.up, t.at, t.color, t.right), Fork(p.sib, p.at, p.color, t.left)))
            == Inorder(Plug(p, t))
    ensures nil in m ==> m'[nil] == m[nil]
  {
    ZipUp(m, nil, root, Right, p.up, p.at, p.color, p.sib, t);
    RotatedLeft(m, m', nil, root, root', p.up, Fork(p.sib, p.at, p.color, t));
    ZipUp(m', nil, root', Left, p.up, t.at, t.color, t.right, Fork(p.sib, p.at, p.color, t.left));
    RotationKeepsInorder(p.sib, p.at, p.color, t.left, t.at, t.color, t.right, p.color, t.color);
    PlugSameInorder(p.up, Fork(p.sib, p.at, p.color, t),
                    Fork(Fork(p.sib, p.at, p.color, t.left), t.at, t.color, t.right));
  }

  lemma InnerRotatedRight(m: Cells, m': Cells, nil: Node, root: Node, root': Node, p: Path<Node>, t: Tree<Node>)
    requires HoldsZip(m, nil, root, p, t) && t.Fork? && p.Step? && p.side.Left?
    requires Rotatable(m, nil, root, p.at, Left) && Rotated(m, m', nil, root, root', p.at, Left)
    ensures HoldsZip(m', nil, root', Step(Right, p.up, t.at, t.color, t.left), Fork(t.right, p.at, p.color, p.sib))
    ensures Inorder(Plug(Step(Right, p.up, t.at, t.color, t.left), Fork(t.right, p.at, p.color, p.sib)))
            == Inorder(Plug(p, t))
    ensures nil in m ==> m'[nil] == m[nil]
  {
    ZipUp(m, nil, root, Left, p.up, p.at, p.color, p.sib, t);
    RotatedRight(m, m', nil, root, root', p.up, Fork(t, p.at, p.color, p.sib));
    ZipUp(m', nil, root', Right, p.up, t.at, t.color, t.left, Fork(t.right, p.at, p.color, p.sib));
    RotationKeepsInorder(t.left, t.at, t.color, t.right, p.at, p.color, p.sib, t.color, p.color);
    PlugSameInorder(p.up, Fork(t, p.at, p.color, p.sib),
                    Fork(t.left, t.at, t.color, Fork(t.right, p.at, p.color, p.sib)));
  }

  /** Rotating about the grandparent of the focus puts its parent in the grandparent's place. */
  lemma OuterRotatedRight(m: Cells, m': Cells, nil: Node, root: Node, root': Node, p: Path<Node>, t: Tree<Node>)
    requires HoldsZip(m, nil, root, p, t) && p.Step? && p.side.Left? && p.up.Step? && p.up.side.Left?
    requires Rotatable(m, nil, root, p.up.at, Left) && Rotated(m, m', nil, root, root', p.up.at, Left)
    ensures
      var q := Step(Left, p.up.up, p.at, p.color, Fork(p.sib, p.up.at, p.up.color, p.up.sib));
      HoldsZip(m', nil, root', q, t) && Inorder(Plug(q, t)) == Inorder(Plug(p, t))
    ensures nil in m ==> m'[nil] == m[nil]
  {
    var u := Fork(t, p.at, p.color, p.sib);
    ZipUp(m, nil, root, Left, p.up, p.at, p.color, p.sib, t);
    InnerRotatedRight(m, m', nil, root, root', p.up, u);
    var q := Step(Left, p.up.up, p.at, p.color, Fork(p.sib, p.up.at, p.up.color, p.up.sib));
    ZipUp(m', nil, root', Right, p.up.up, p.at, p.color, t, Fork(p.sib, p.up.at, p.up.color, p.up.sib));
    ZipUp(m', nil, root', Left, p.up.up, p.at, p.color, Fork(p.sib, p.up.at, p.up.color, p.up.sib), t);
  }

  lemma OuterRotatedLeft(m: Cells, m': Cells, nil: Node, root: Node, root': Node, p: Path<Node>, t: Tree<Node>)
    requires HoldsZip(m, nil, root, p, t) && p.Step? && p.side.Right? && p.up.Step? && p.up.side.Right?
    requires Rotatable(m, nil, root, p.up.at, Right) && Rotated(m, m', nil, root, root', p.up.at, Right)
    ensures
      var q := Step(Right, p.up.up, p.at, p.color, Fork(p.up.sib, p.up.at, p.up.color, p.sib));
      HoldsZip(m', nil, root', q, t) && Inorder(Plug(q, t)) == Inorder(Plug(p, t))
    ensures nil in m ==> m'[nil] == m[nil]
  {
    var u := Fork(p.sib, p.at, p.color, t);
    ZipUp(m, nil, root, Right, p.up, p.at, p.color, p.sib, t);
    InnerRotatedLeft(m, m', nil, root, root', p.up, u);
    ZipUp(m', nil, root', Left, p.up.up, p.at, p.color, t, Fork(p.up.sib, p.up.at, p.up.color, p.sib));
    ZipUp(m', nil, root', Right, p.up.up, p.at, p.color, Fork(p.up.sib, p.up.at, p.up.color, p.sib), t);
  }

  lemma UncleRecolored(m: Cells, m': Cells, nil: Node, root: Node, p: Path<Node>, t: Tree<Node>)
    requires HoldsZip(m, nil, root, p, t) && RedFocus(p, t) && p.Step? && p.color.Red? && p.up.Step?
    requires p.up.sib.Fork? && p.up.sib.color.Red?
    requires Repainted(m, m', {p.at, p.up.sib.at, p.up.at})
    requires NewColor(p.at, m').Black? && NewColor(p.up.sib.at, m').Black? && NewColor(p.up.at, m').Red?
    ensures HoldsZip(m', nil, root, p.up.up, NewGrand(p, t, m')) && RedFocus(p.up.up, NewGrand(p, t, m'))
    ensures NewGrand(p, t, m').at == p.up.at && (nil in m ==> m'[nil] == m[nil])
    ensures Inorder(Plug(p.up.up, NewGrand(p, t, m'))) == Inorder(Plug(p, t))
  {
    GrandRecolored(m, m', nil, root, p, t, {p.at, p.up.sib.at, p.up.at});
    GrandApart(m, nil, root, p, t);
    RedUncle(p, t);
    assert NewRoot(t, m') == t && NewRoot(p.sib, m') == p.sib by {
      assert t.at in Nodes(t);
      assert p.sib.Fork? ==> p.sib.at in Nodes(p.sib);
      assert p.up.sib.at in Nodes(p.up.sib);
    }
  }

  ghost function Tinted(p: Path<Node>, cp: Color, cg: Color): Path<Node>
    requires p.Step? && p.up.Step?
  {
    p.(color := cp, up := p.up.(color := cg))
  }

  /** Only the two nodes above the focus, and its root, have been recoloured. */
  lemma KinRecolored(m: Cells, m': Cells, nil: Node, root: Node, p: Path<Node>, t: Tree<Node>, changed: set<Node>)
    requires HoldsZip(m, nil, root, p, t) && p.Step? && p.up.Step? && Repainted(m, m', changed)
    requires changed <= {p.at, p.up.at, Ref(t, p.at)}
    ensures HoldsZip(m', nil, root, Tinted(p, NewColor(p.at, m'), NewColor(p.up.at, m')), NewRoot(t, m'))
    ensures Inorder(Plug(Tinted(p, NewColor(p.at, m'), NewColor(p.up.at, m')), NewRoot(t, m'))) == Inorder(Plug(p, t))
    ensures nil in m ==> m'[nil] == m[nil]
    ensures p.at !in changed ==> NewColor(p.at, m') == p.color
    ensures p.up.at !in changed ==> NewColor(p.up.at, m') == p.up.color
    ensures t.Leaf? || t.at !in changed ==> NewRoot(t, m') == t
  {
    GrandRecolored(m, m', nil, root, p, t, changed);
    GrandApart(m, nil, root, p, t);
    var p1, t1 := Tinted(p, NewColor(p.at, m'), NewColor(p.up.at, m')), NewRoot(t, m');
    assert NewGrand(p, t, m') == Grand(p1, t1) by {
      assert t.Fork? ==> t.at in Nodes(t);
      assert p.sib.Fork? ==> p.sib.at in Nodes(p.sib);
      assert p.up.sib.Fork? ==> p.up.sib.at in Nodes(p.up.sib);
    }
    FocusGrand(m', nil, root, p1, t1);
  }

  lemma FocusUp(m: Cells, nil: Node, root: Node, p: Path<Node>, t: Tree<Node>)
    requires p.Step? && HoldsZip(m, nil, root, p, t)
    ensures HoldsZip(m, nil, root, p.up, Join(p.side, t, p.at, p.color, p.sib))
  {
    ZipUp(m, nil, root, p.side, p.up, p.at, p.color, p.sib, t);
  }

  /** The node above the focus can be rotated towards the other side. */
  lemma ParentRotatable(m: Cells, nil: Node, root: Node, p: Path<Node>, t: Tree<Node>)
    requires HoldsZip(m, nil, root, p, t) && t.Fork? && p.Step?
    ensures Rotatable(m, nil, root, p.at, p.side)
  {
    ZipUp(m, nil, root, p.side, p.up, p.at, p.color, p.sib, t);
    ZipRotatable(m, nil, root, p.up, Join(p.side, t, p.at, p.color, p.sib), p.side);
  }

  /** The node two levels above the focus can be rotated towards the other side. */
  lemma GrandRotatable(m: Cells, nil: Node, root: Node, p: Path<Node>, t: Tree<Node>)
    requires HoldsZip(m, nil, root, p, t) && p.Step? && p.up.Step?
    ensures Rotatable(m, nil, root, p.up.at, p.up.side)
  {
    FocusUp(m, nil, root, p, t);
    ParentRotatable(m, nil, root, p.up, Join(p.side, t, p.at, p.color, p.sib));
  }

  // ---- Refocusing on the sibling's children ---------------------------------------------

  lemma FocusFar(m: Cells, nil: Node, root: Node, p: Path<Node>, t: Tree<Node>)
    requires p.Step? && p.sib.Fork?
    ensures HoldsZip(m, nil, root, p, t) <==> HoldsZip(m, nil, root, FarPath(p, t), Far(p.side, p.sib))
    ensures Plug(FarPath(p, t), Far(p.side, p.sib)) == Plug(p, t)
  {
    ZipUp(m, nil, root, p.side, p.up, p.at, p.color, p.sib, t);
    FocusGrand(m, nil, root, FarPath(p, t), Far(p.side, p.sib));
  }

  lemma FocusNear(m: Cells, nil: Node, root: Node, p: Path<Node>, t: Tree<Node>)
    requires p.Step? && p.sib.Fork?
    ensures HoldsZip(m, nil, root, p, t) <==> HoldsZip(m, nil, root, NearPath(p, t), Near(p.side, p.sib))
    ensures Plug(NearPath(p, t), Near(p.side, p.sib)) == Plug(p, t)
  {
    ZipUp(m, nil, root, p.side, p.up, p.at, p.color, p.sib, t);
    FocusGrand(m, nil, root, NearPath(p, t), Near(p.side, p.sib));
  }

  /** The sibling on top of the focus's parent, seen from the focus again. */
  lemma FocusBack(m: Cells, nil: Node, root: Node, side: Side, up: Path<Node>, w: Node, cw: Color, x: Node, cx: Color,
                  t: Tree<Node>, near: Tree<Node>, far: Tree<Node>)
    ensures
      var p := Step(Opposite(side), up, w, cw, Join(side, t, x, cx, near));
      var q := Step(side, Step(side, up, w, cw, far), x, cx, near);
      && (HoldsZip(m, nil, root, p, far) <==> HoldsZip(m, nil, root, q, t))
      && Plug(p, far) == Plug(q, t)
  {
    ZipUp(m, nil, root, Opposite(side), up, w, cw, Join(side, t, x, cx, near), far);
    FocusGrand(m, nil, root, Step(side, Step(side, up, w, cw, far), x, cx, near), t);
  }

  lemma FirstInorder(q: Path<Node>, u: Tree<Node>)
    requires u.Fork? && u.left.Leaf? && Before(q) == []
    ensures Inorder(Plug(q, u)) != [] && Inorder(Plug(q, u))[0] == u.at && u.at in Nodes(Plug(q, u))
  {
    PlugInorder(q, u);
    PlugNodes(q, u);
    assert Inorder(Plug(q, u)) == Inorder(u) + After(q);
  }

  lemma LastInorder(q: Path<Node>, u: Tree<Node>)
    requires u.Fork? && u.right.Leaf? && After(q) == []
    ensures Inorder(Plug(q, u)) != [] && u.at in Nodes(Plug(q, u))
    ensures Inorder(Plug(q, u))[|Inorder(Plug(q, u))| - 1] == u.at
  {
    PlugInorder(q, u);
    PlugNodes(q, u);
    assert Inorder(Plug(q, u)) == Before(q) + Inorder(u);
    assert Inorder(u) == Inorder(u.left) + [u.at];
  }

  lemma Census(m: Cells, nil: Node, t: Tree<Node>)
    requires Holds(m, nil, t)
    ensures NoTwice(Inorder(t)) && |Inorder(t)| == |Nodes(t)|
  {
    InorderDistinct(m, nil, t);
    InorderNodes(t);
    SizeOf(Inorder(t));
  }

  class RbTree {
    var root: Node
    const sentinel: Node
    const keyCompare: (int, int) -> int
    ghost var tree: Tree<Node>
    ghost var turns: nat            // rotations performed so far

    constructor (keyCompare: (int, int) -> int)
      requires ThreeWay(keyCompare)
      ensures Valid() && tree == Leaf && this.keyCompare == keyCompare && fresh(sentinel)
    {
      this.keyCompare := keyCompare;
      sentinel := new Node(0);
      root := sentinel;
      tree, turns := Leaf, 0;
    }

    /** Node set `S` holds the tree, with `t` in focus. */
    ghost predicate Focused(S: set<Node>, p: Path<Node>, t: Tree<Node>)
      reads `root, S
    {
      sentinel in S && sentinel.color.Black? && HoldsZip(Snap(S), sentinel, root, p, t)
    }

    method RotateLeft(node: Node, ghost S: set<Node>)
      requires Rotatable(Snap(S), sentinel, root, node, Right)
      modifies `root, `turns, S
      ensures Rotated(old(Snap(S)), Snap(S), sentinel, old(root), root, node, Right) && turns == old(turns) + 1
    {
      turns := turns + 1;
      var tmp: Node := node.right;
      ghost var b: Node, up: Node? := tmp.left, node.parent;
      node.right := tmp.left;
      if tmp.left != sentinel { tmp.left.parent := node; }
      tmp.parent := node.parent;
      if node == root {
        root := tmp;
      } else if node == node.parent.left {
        node.parent.left := tmp;
      } else {
        node.parent.right := tmp;
      }
      tmp.left := node;
      node.parent := tmp;
    }

    method RotateRight(node: Node, ghost S: set<Node>)
      requires Rotatable(Snap(S), sentinel, root, node, Left)
      modifies `root, `turns, S
      ensures Rotated(old(Snap(S)), Snap(S), sentinel, old(root), root, node, Left) && turns == old(turns) + 1
    {
      turns := turns + 1;
      var tmp: Node := node.left;
      ghost var b: Node, up: Node? := tmp.right, node.parent;
      node.left := tmp.right;
      if tmp.right != sentinel { tmp.right.parent := node; }
      tmp.parent := node.parent;
      if node == root {
        root := tmp;
      } else if node == node.parent.right {
        node.parent.right := tmp;
      } else {
        node.parent.left := tmp;
      }
      tmp.right := node;
      node.parent := tmp;
    }

    /** Rotating left about the grandparent of the focus. */
    method RotateGrandLeft(grand: Node, ghost S: set<Node>, ghost p: Path<Node>, ghost t: Tree<Node>)
      returns (ghost q: Path<Node>)
      requires Focused(S, p, t) && p.Step? && p.side.Right? && p.up.Step? && p.up.side.Right? && p.up.at == grand
      modifies `root, `turns, S
      ensures q == Step(Right, p.up.up, p.at, p.color, Fork(p.up.sib, p.up.at, p.up.color, p.sib))
      ensures Focused(S, q, t) && Inorder(Plug(q, t)) == Inorder(Plug(p, t)) && sentinel.parent == old(sentinel.parent)
      ensures turns == old(turns) + 1
    {
      ghost var m, oldRoot := Snap(S), root;
      GrandRotatable(m, sentinel, root, p, t);
      RotateLeft(grand, S);
      OuterRotatedLeft(m, Snap(S), sentinel, oldRoot, root, p, t);
      assert m[sentinel] == old(CellOf(sentinel)) && Snap(S)[sentinel] == CellOf(sentinel);
      q := Step(Right, p.up.up, p.at, p.color, Fork(p.up.sib, p.up.at, p.up.color, p.sib));
    }

    /** Rotating right about the grandparent of the focus. */
    method RotateGrandRight(grand: Node, ghost S: set<Node>, ghost p: Path<Node>, ghost t: Tree<Node>)
      returns (ghost q: Path<Node>)
      requires Focused(S, p, t) && p.Step? && p.side.Left? && p.up.Step? && p.up.side.Left? && p.up.at == grand
      modifies `root, `turns, S
      ensures q == Step(Left, p.up.up, p.at, p.color, Fork(p.sib, p.up.at, p.up.color, p.up.sib))
      ensures Focused(S, q, t) && Inorder(Plug(q, t)) == Inorder(Plug(p, t)) && sentinel.parent == old(sentinel.parent)
      ensures turns == old(turns) + 1
    {
      ghost var m, oldRoot := Snap(S), root;
      GrandRotatable(m, sentinel, root, p, t);
      RotateRight(grand, S);
      OuterRotatedRight(m, Snap(S), sentinel, oldRoot, root, p, t);
      assert m[sentinel] == old(CellOf(sentinel)) && Snap(S)[sentinel] == CellOf(sentinel);
      q := Step(Left, p.up.up, p.at, p.color, Fork(p.sib, p.up.at, p.up.color, p.up.sib));
    }

    // Each assignment of a colour in the fixup loops is to the focus, its parent or its grandparent.

    method PaintFocus(n: Node, c: Color, ghost S: set<Node>, ghost p: Path<Node>, ghost t: Tree<Node>)
      requires Focused(S, p, t) && p.Step? && p.up.Step? && t.Fork? && t.at == n
      modifies n`color
      ensures Focused(S, p, Painted(t, c)) && Inorder(Plug(p, Painted(t, c))) == Inorder(Plug(p, t))
    {
      ghost var m := Snap(S);
      GrandApart(m, sentinel, root, p, t);
      assert n in Nodes(t);
      n.color := c;
      KinRecolored(m, Snap(S), sentinel, root, p, t, {n});
    }

    method PaintParent(n: Node, c: Color, ghost S: set<Node>, ghost p: Path<Node>, ghost t: Tree<Node>)
      requires Focused(S, p, t) && p.Step? && p.up.Step? && p.at == n
      modifies n`color
      ensures Focused(S, p.(color := c), t) && Inorder(Plug(p.(color := c), t)) == Inorder(Plug(p, t))
    {
      ghost var m := Snap(S);
      GrandApart(m, sentinel, root, p, t);
      n.color := c;
      KinRecolored(m, Snap(S), sentinel, root, p, t, {n});
    }

    method PaintGrand(n: Node, c: Color, ghost S: set<Node>, ghost p: Path<Node>, ghost t: Tree<Node>)
      requires Focused(S, p, t) && p.Step? && p.up.Step? && p.up.at == n
      modifies n`color
      ensures Focused(S, p.(up := p.up.(color := c)), t)
      ensures Inorder(Plug(p.(up := p.up.(color := c)), t)) == Inorder(Plug(p, t))
    {
      ghost var m := Snap(S);
      GrandApart(m, sentinel, root, p, t);
      n.color := c;
      KinRecolored(m, Snap(S), sentinel, root, p, t, {n});
    }

    /** What the fixup code reads around a red focus with a red parent. */
    lemma Kin(S: set<Node>, p: Path<Node>, t: Tree<Node>)
      requires Focused(S, p, t) && t.Fork? && p.Step? && p.up.Step?
      ensures {t.at, p.at, p.up.at} <= S && Ref(p.up.sib, sentinel) in S
      ensures t.at.parent == p.at && p.at.parent == p.up.at && p.up.at != sentinel
      ensures ChildOf(CellOf(p.at), p.side) == t.at && ChildOf(CellOf(p.at), Opposite(p.side)) == Ref(p.sib, sentinel)
      ensures ChildOf(CellOf(p.up.at), p.up.side) == p.at
      ensures ChildOf(CellOf(p.up.at), Opposite(p.up.side)) == Ref(p.up.sib, sentinel)
      ensures Ref(p.up.sib, sentinel).color == RootColor(p.up.sib)
      ensures p.at.color == p.color && p.up.at.color == p.up.color
      ensures t.at != Ref(p.sib, sentinel) && p.at != Ref(p.up.sib, sentinel)
    {
      var m := Snap(S);
      GrandApart(m, sentinel, root, p, t);
      assert HoldsPath(m, sentinel, root, p.up, p.at);
      assert m[t.at].parent == p.at && m[p.at].parent == p.up.at;
      assert p.up.sib.Fork? ==> m[p.up.sib.at].color == p.up.sib.color;
    }

    /** Red uncle: parent and uncle turn black, the grandparent red, and becomes the focus. */
    method PushRedUp(start: Node, tmp: Node, ghost S: set<Node>, ghost p: Path<Node>, ghost t: Tree<Node>)
      returns (node: Node, ghost q: Path<Node>, ghost u: Tree<Node>)
      requires Focused(S, p, t) && RedFocus(p, t) && t.at == start && p.Step? && p.color.Red? && p.up.Step?
      requires p.up.sib.Fork? && p.up.sib.color.Red? && tmp == p.up.sib.at
      modifies S
      ensures Focused(S, q, u) && RedFocus(q, u) && u.at == node && root == old(root)
      ensures Inorder(Plug(q, u)) == Inorder(Plug(p, t)) && Depth(q) + 2 == Depth(p)
      ensures turns == old(turns)
    {
      Kin(S, p, t);
      ghost var m := Snap(S);
      assert tmp != p.at && tmp != p.up.at by {
        assert tmp in Nodes(p.up.sib);
        GrandApart(m, sentinel, root, p, t);
      }
      node := start;
      node.parent.color := Black;
      tmp.color := Black;
      node.parent.parent.color := Red;
      node := node.parent.parent;
      q, u := p.up.up, NewGrand(p, t, Snap(S));
      UncleRecolored(m, Snap(S), sentinel, root, p, t);
    }

    /** Black uncle, outer grandchild on the left: recolour and rotate the grandparent right. */
    method SettleLeft(node: Node, ghost S: set<Node>, ghost p: Path<Node>, ghost t: Tree<Node>)
      returns (ghost q: Path<Node>)
      requires Focused(S, p, t) && RedFocus(p, t) && t.at == node
      requires p.Step? && p.color.Red? && p.side.Left? && p.up.Step? && p.up.side.Left? && RootColor(p.up.sib).Black?
      modifies `root, `turns, S
      ensures Focused(S, q, t) && RedFocus(q, t) && q.Step? && q.color.Black?
      ensures Inorder(Plug(q, t)) == Inorder(Plug(p, t)) && Depth(q) < Depth(p)
      ensures turns == old(turns) + 1
    {
      Kin(S, p, t);
      ghost var p1 := p.(color := Black);
      PaintParent(node.parent, Black, S, p, t);
      PaintGrand(node.parent.parent, Red, S, p1, t);
      p1 := Tinted(p, Black, Red);
      BlackUncle(p, t);
      q := RotateGrandRight(node.parent.parent, S, p1, t);
    }

    /** The mirror image of `SettleLeft`. */
    method SettleRight(node: Node, ghost S: set<Node>, ghost p: Path<Node>, ghost t: Tree<Node>)
      returns (ghost q: Path<Node>)
      requires Focused(S, p, t) && RedFocus(p, t) && t.at == node
      requires p.Step? && p.color.Red? && p.side.Right? && p.up.Step? && p.up.side.Right? && RootColor(p.up.sib).Black?
      modifies `root, `turns, S
      ensures Focused(S, q, t) && RedFocus(q, t) && q.Step? && q.color.Black?
      ensures Inorder(Plug(q, t)) == Inorder(Plug(p, t)) && Depth(q) < Depth(p)
      ensures turns == old(turns) + 1
    {
      Kin(S, p, t);
      ghost var p1 := p.(color := Black);
      PaintParent(node.parent, Black, S, p, t);
      PaintGrand(node.parent.parent, Red, S, p1, t);
      p1 := Tinted(p, Black, Red);
      BlackUncle(p, t);
      q := RotateGrandLeft(node.parent.parent, S, p1, t);
    }

    /** One round of the insertion fixup when the parent is a left child. */
    method InsertFixupLeft(start: Node, ghost S: set<Node>, ghost p0: Path<Node>, ghost t0: Tree<Node>)
      returns (node: Node, ghost p: Path<Node>, ghost t: Tree<Node>)
      requires Focused(S, p0, t0) && RedFocus(p0, t0) && t0.at == start
      requires p0.Step? && p0.color.Red? && p0.up.Step? && p0.up.side.Left?
      modifies `root, `turns, S
      ensures Focused(S, p, t) && RedFocus(p, t) && t.at == node
      ensures Inorder(Plug(p, t)) == Inorder(Plug(p0, t0)) && Depth(p) < Depth(p0)
      ensures turns <= old(turns) + 2 && (turns > old(turns) ==> p.Step? && p.color.Black?)
    {
      node, p, t := start, p0, t0;
      Kin(S, p, t);
      var tmp: Node := node.parent.parent.right;
      if tmp.color == Red {
        node, p, t := PushRedUp(node, tmp, S, p, t);
      } else {
        if node == node.parent.right {
          InnerToOuter(p, t);
          ParentRotatable(Snap(S), sentinel, root, p, t);
          ghost var m, oldRoot := Snap(S), root;
          node := node.parent;
          RotateLeft(node, S);
          InnerRotatedLeft(m, Snap(S), sentinel, oldRoot, root, p, t);
          p, t := Step(Left, p.up, t.at, Red, t.right), Fork(p.sib, p.at, Red, t.left);
        }
        p := SettleLeft(node, S, p, t);
      }
    }

    method InsertFixupRight(start: Node, ghost S: set<Node>, ghost p0: Path<Node>, ghost t0: Tree<Node>)
      returns (node: Node, ghost p: Path<Node>, ghost t: Tree<Node>)
      requires Focused(S, p0, t0) && RedFocus(p0, t0) && t0.at == start
      requires p0.Step? && p0.color.Red? && p0.up.Step? && p0.up.side.Right?
      modifies `root, `turns, S
      ensures Focused(S, p, t) && RedFocus(p, t) && t.at == node
      ensures Inorder(Plug(p, t)) == Inorder(Plug(p0, t0)) && Depth(p) < Depth(p0)
      ensures turns <= old(turns) + 2 && (turns > old(turns) ==> p.Step? && p.color.Black?)
    {
      node, p, t := start, p0, t0;
      Kin(S, p, t);
      var tmp: Node := node.parent.parent.left;
      if tmp.color == Red {
        node, p, t := PushRedUp(node, tmp, S, p, t);
      } else {
        if node == node.parent.left {
          InnerToOuter(p, t);
          ParentRotatable(Snap(S), sentinel, root, p, t);
          ghost var m, oldRoot := Snap(S), root;
          node := node.parent;
          RotateRight(node, S);
          InnerRotatedRight(m, Snap(S), sentinel, oldRoot, root, p, t);
          p, t := Step(Right, p.up, t.at, Red, t.left), Fork(t.right, p.at, Red, p.sib);
        }
        p := SettleRight(node, S, p, t);
      }
    }

    // ---- Insertion ------------------------------------------------------------------

    ghost predicate Valid()
      reads this, sentinel, Nodes(tree)
    {
      && Focused(Nodes(tree) + {sentinel}, Top, tree)
      && RedBlack(tree)
      && ThreeWay(keyCompare) && Sorted(keyCompare, Inorder(tree))
    }

    /** A tree of n nodes lists each once and is at most 2 * log2(n + 1) high. */
    lemma Logarithmic()
      requires Valid()
      ensures NoTwice(Inorder(tree)) && |Inorder(tree)| == |Nodes(tree)|
      ensures Pow2(Height(tree)) <= Square(|Nodes(tree)| + 1)
    {
      Census(Snap(Nodes(tree) + {sentinel}), sentinel, tree);
      HeightBound(tree);
    }

    /** Everything before the hole is smaller than `key`, everything after it is not. */
    ghost predicate Fits(key: int, p: Path<Node>) {
      && (forall n :: n in Before(p) ==> keyCompare(key, n.key) > 0)
      && (forall n :: n in After(p) ==> keyCompare(key, n.key) <= 0)
    }

    lemma FitsBelow(key: int, p: Path<Node>, t: Tree<Node>, side: Side)
      requires ThreeWay(keyCompare) && Sorted(keyCompare, Inorder(Plug(p, t)))
      requires Fits(key, p) && t.Fork?
      requires side.Left? <==> keyCompare(key, t.at.key) <= 0
      ensures Fits(key, Below(p, t, side))
    {
      SortedAround(keyCompare, p, t);
      if side.Right? {
        forall n | n in Inorder(t.left) ensures keyCompare(key, n.key) > 0 {
          Laws(keyCompare, key, n.key, t.at.key);
        }
      } else {
        forall n | n in Inorder(t.right) ensures keyCompare(key, n.key) <= 0 {
          Laws(keyCompare, key, t.at.key, n.key);
        }
      }
    }

    /** The descent of `rbt_bst_insert`: the node below which `key` belongs, and on which side. */
    method SeekSlot(key: int) returns (pos: Node, goesLeft: bool, ghost p: Path<Node>)
      requires Valid() && tree.Fork?
      ensures p.Step? && p.at == pos && p.side.Left? == goesLeft
      ensures HoldsZip(Snap(Nodes(tree) + {sentinel}), sentinel, root, p, Leaf)
      ensures Plug(p, Leaf) == tree && Fits(key, p)
    {
      ghost var S := Nodes(tree) + {sentinel};
      ghost var m := Snap(S);
      ghost var u := tree;
      p := Top;
      ZipDown(m, sentinel, root, p, u, Left);
      pos := root;
      goesLeft := keyCompare(key, pos.key) <= 0;
      var target: Node := if goesLeft then pos.left else pos.right;
      while target != sentinel
        invariant u.Fork? && u.at == pos && pos in S && HoldsZip(m, sentinel, root, p, u)
        invariant goesLeft == (keyCompare(key, pos.key) <= 0)
        invariant target == Ref(if goesLeft then u.left else u.right, sentinel)
        invariant Plug(p, u) == tree && Fits(key, p)
        decreases u
      {
        ghost var side := if goesLeft then Left else Right;
        FitsBelow(key, p, u, side);
        ZipDown(m, sentinel, root, p, u, side);
        p, u := Below(p, u, side), Near(side, u);
        ZipDown(m, sentinel, root, p, u, Left);
        pos := target;
        goesLeft := keyCompare(key, pos.key) <= 0;
        target := if goesLeft then pos.left else pos.right;
      }
      ghost var side := if goesLeft then Left else Right;
      FitsBelow(key, p, u, side);
      ZipDown(m, sentinel, root, p, u, side);
      assert Holds(m, sentinel, Near(side, u));
      p := Below(p, u, side);
    }

    method Hang(node: Node, pos: Node, goesLeft: bool, ghost S: set<Node>)
      requires {sentinel, pos} <= S && node !in S
      modifies pos, node
      ensures var m, m' := old(Snap(S)), Snap(S + {node});
        && m'[node] == Cell(sentinel, sentinel, pos, Red)
        && m'[pos] == WithChild(m[pos], if goesLeft then Left else Right, node)
        && (forall k :: k in S && k != pos ==> m'[k] == m[k])
      ensures turns == old(turns)
    {
      if goesLeft { pos.left := node; } else { pos.right := node; }
      node.parent := pos;
      node.left, node.right := sentinel, sentinel;
      node.color := Red;
    }

    method BstInsert(node: Node) returns (ghost p: Path<Node>)
      requires Valid() && tree.Fork? && node !in Nodes(tree) && node != sentinel
      modifies Nodes(tree), node
      ensures Focused(Nodes(tree) + {sentinel} + {node}, p, Fork(Leaf, node, Red, Leaf))
      ensures RedFocus(p, Fork(Leaf, node, Red, Leaf))
      ensures Inorder(Plug(p, Fork(Leaf, node, Red, Leaf))) == Inserted(keyCompare, Inorder(tree), node)
      ensures turns == old(turns)
    {
      var pos, goesLeft;
      pos, goesLeft, p := SeekSlot(node.key);
      ghost var S := Nodes(tree) + {sentinel};
      ghost var m := Snap(S);
      HoldsPathDomain(m, sentinel, root, p, sentinel);
      assert pos in PathNodes(p);
      PlugNodes(p, Leaf);
      Hang(node, pos, goesLeft, S);
      Hung(m, Snap(S + {node}), sentinel, root, p, node);
      InsertedHere(p, node);
    }

    method InsertFirst(node: Node)
      requires Valid() && root == sentinel && node != sentinel
      modifies this, node
      ensures Valid() && Inorder(tree) == [node] && Nodes(tree) == {node} && old(tree.Leaf?) && turns == old(turns)
    {
      assert Holds(Snap(Nodes(tree) + {sentinel}), sentinel, tree);
      root := node;
      root.parent := null;
      root.left, root.right := sentinel, sentinel;
      root.color := Black;
      tree := Fork(Leaf, node, Black, Leaf);
      ghost var m := Snap(Nodes(tree) + {sentinel});
      assert m[node] == Cell(sentinel, sentinel, null, Black);
      assert Holds(m, sentinel, tree);
      assert HoldsPath(m, sentinel, root, Top, node);
    }

    /** The fixup loop of `scraft_rbt_insert`: the violation climbs towards the root. */
    method InsertFixup(start: Node, ghost S: set<Node>, ghost p0: Path<Node>, ghost t0: Tree<Node>)
      returns (ghost u: Tree<Node>)
      requires Focused(S, p0, t0) && RedFocus(p0, t0) && t0.at == start
      modifies `root, `turns, S
      ensures Focused(S, Top, u) && RedBlack(u) && Inorder(u) == Inorder(Plug(p0, t0))
      ensures turns <= old(turns) + 2
    {
      var node := start;
      ghost var p, t := p0, t0;
      FixupCase(S, p, t);
      while node != root && node.parent.color == Red
        invariant Focused(S, p, t) && RedFocus(p, t) && t.at == node
        invariant node == root <==> p.Top?
        invariant p.Step? ==> node.parent == p.at && p.at.color == p.color
        invariant Inorder(Plug(p, t)) == Inorder(Plug(p0, t0))
        invariant turns <= old(turns) + 2 && (turns > old(turns) ==> p.Step? && p.color.Black?)
        decreases Depth(p)
      {
        FixupCase(S, p, t);
        if node.parent == node.parent.parent.left {
          node, p, t := InsertFixupLeft(node, S, p, t);
        } else {
          node, p, t := InsertFixupRight(node, S, p, t);
        }
        FixupCase(S, p, t);
      }
      BlackenRoot(S, p, t);
      u := Painted(Plug(p, t), Black);
    }

    method InsertBelow(node: Node)
      requires Valid() && tree.Fork? && node !in Nodes(tree) && node != sentinel
      modifies this, sentinel, Nodes(tree), node
      ensures Valid() && Inorder(tree) == Inserted(keyCompare, old(Inorder(tree)), node)
      ensures Nodes(tree) == old(Nodes(tree)) + {node}
      ensures turns <= old(turns) + 2
    {
      ghost var before, S := tree, Nodes(tree) + {sentinel} + {node};
      ghost var p := BstInsert(node);
      ghost var u;
      u := InsertFixup(node, S, p, Fork(Leaf, node, Red, Leaf));
      InsertedTree(keyCompare, before, u, node);
      assert Nodes(u) + {sentinel} == S;
      Conclude(u);
    }

    /** Inserts a node that is in no tree. */
    method Insert(node: Node)
      requires Valid() && node !in Nodes(tree) && node != sentinel
      modifies this, sentinel, Nodes(tree), node
      ensures Valid() && Inorder(tree) == Inserted(keyCompare, old(Inorder(tree)), node)
      ensures Nodes(tree) == old(Nodes(tree)) + {node}
      ensures turns <= old(turns) + 2
    {
      if root == sentinel {
        InsertFirst(node);
      } else {
        InsertBelow(node);
      }
    }

    lemma FixupCase(S: set<Node>, p: Path<Node>, t: Tree<Node>)
      requires Focused(S, p, t) && RedFocus(p, t)
      ensures t.at == root <==> p.Top?
      ensures t.at in S && (p.Step? ==> p.at in S && t.at.parent == p.at && p.at.color == p.color)
      ensures p.Step? && p.color.Red? ==> p.up.Step? && p.at.parent == p.up.at && p.up.at in S
      ensures p.Step? && p.color.Red? ==> (p.up.side.Left? <==> p.at == p.up.at.left)
    {
      HoldsDomain(Snap(S), sentinel, t);
      HoldsPathDomain(Snap(S), sentinel, root, p, t.at);
      if p.Step? {
        assert Snap(S)[t.at].parent == p.at && p.at in PathNodes(p);
        if p.color.Red? {
          assert Admits(p.up, Red, BlackHeight(t));
          Kin(S, p, t);
        }
      }
    }

    method BlackenRoot(ghost S: set<Node>, ghost p: Path<Node>, ghost t: Tree<Node>)
      requires Focused(S, p, t) && RedFocus(p, t) && (p.Top? || p.color.Black?)
      modifies S
      ensures Focused(S, Top, Painted(Plug(p, t), Black)) && RedBlack(Painted(Plug(p, t), Black))
      ensures Inorder(Painted(Plug(p, t), Black)) == Inorder(Plug(p, t))
      ensures turns == old(turns)
    {
      ghost var u, m := Plug(p, t), Snap(S);
      ZipPlug(m, sentinel, root, p, t);
      RedFocusDone(p, t);
      PlugNodes(p, t);
      HoldsDomain(m, sentinel, u);
      assert u.Fork?;
      root.color := Black;
      RecoloredZip(m, Snap(S), sentinel, root, Top, u, {root});
      RootDyed(m, Snap(S), sentinel, u, {root});
    }

    lemma InsertedHere(p: Path<Node>, node: Node)
      requires Plug(p, Leaf) == tree && Fits(node.key, p) && RedBlack(tree)
      ensures Inorder(Plug(p, Fork(Leaf, node, Red, Leaf))) == Inserted(keyCompare, Inorder(tree), node)
      ensures RedFocus(p, Fork(Leaf, node, Red, Leaf))
    {
      PlugInorder(p, Leaf);
      PlugInorder(p, Fork(Leaf, node, Red, Leaf));
      InsertedBetween(keyCompare, Before(p), After(p), node);
      assert Before(p) + Inorder<Node>(Leaf) + After(p) == Before(p) + After(p);
      assert Inorder(Fork(Leaf, node, Red, Leaf)) == [node];
      PlugRedBlack(p, Leaf);
    }

    lemma EmptyIffSentinel()
      requires Valid()
      ensures tree.Leaf? <==> root == sentinel
    {}

    // ---- Search -----------------------------------------------------------------------

    /** `scraft_rbt_find`: a node whose key compares equal, or nothing if there is none. */
    method Find(key: int) returns (r: Node?)
      requires Valid()
      ensures r != null ==> r in Nodes(tree) && r in Inorder(tree) && keyCompare(key, r.key) == 0
      ensures r == null ==> forall n :: n in Inorder(tree) ==> keyCompare(key, n.key) != 0
    {
      ghost var m := Snap(Nodes(tree) + {sentinel});
      ghost var p, t := Top, tree;
      var iter := root;
      while iter != sentinel
        invariant iter == Ref(t, sentinel) && HoldsZip(m, sentinel, root, p, t) && Plug(p, t) == tree
        invariant forall n :: n in Before(p) + After(p) ==> keyCompare(key, n.key) != 0
        decreases t
      {
        ZipDown(m, sentinel, root, p, t, Left);
        ZipDown(m, sentinel, root, p, t, Right);
        Laws(keyCompare, key, iter.key, iter.key);
        ApartBelow(key, p, t);
        match keyCompare(key, iter.key) {
          case 0 =>
            PlugNodes(p, t);
            PlugInorder(p, t);
            assert iter in Inorder(t);
            return iter;
          case -1 =>
            p, t := Below(p, t, Left), t.left;
            iter := iter.left;
          case 1 =>
            p, t := Below(p, t, Right), t.right;
            iter := iter.right;
        }
      }
      PlugInorder(p, t);
      return null;
    }

    lemma ApartBelow(key: int, p: Path<Node>, t: Tree<Node>)
      requires ThreeWay(keyCompare) && Sorted(keyCompare, Inorder(Plug(p, t))) && t.Fork?
      requires forall n :: n in Before(p) + After(p) ==> keyCompare(key, n.key) != 0
      ensures keyCompare(key, t.at.key) < 0 ==>
        forall n :: n in Before(Below(p, t, Left)) + After(Below(p, t, Left)) ==> keyCompare(key, n.key) != 0
      ensures keyCompare(key, t.at.key) > 0 ==>
        forall n :: n in Before(Below(p, t, Right)) + After(Below(p, t, Right)) ==> keyCompare(key, n.key) != 0
    {
      SortedAround(keyCompare, p, t);
      forall n | n in Inorder(t.right) && keyCompare(key, t.at.key) < 0 ensures keyCompare(key, n.key) != 0 {
        Laws(keyCompare, t.at.key, n.key, key);
        Laws(keyCompare, key, n.key, key);
        Laws(keyCompare, key, t.at.key, key);
      }
      forall n | n in Inorder(t.left) && keyCompare(key, t.at.key) > 0 ensures keyCompare(key, n.key) != 0 {
        Laws(keyCompare, key, n.key, t.at.key);
      }
    }

    /** `scraft_rbtree_getmin` below a focus; `q` leads from the focus down to the result. */
    method GetMin(start: Node, ghost p: Path<Node>, ghost t: Tree<Node>)
      returns (node: Node, ghost q: Path<Node>, ghost u: Tree<Node>)
      requires Valid() && HoldsZip(Snap(Nodes(tree) + {sentinel}), sentinel, root, p, t) && t.Fork? && t.at == start
      ensures u.Fork? && u.at == node && u.left.Leaf? && Plug(q, u) == t && Before(q) == [] && LeftSpine(q)
      ensures HoldsZip(Snap(Nodes(tree) + {sentinel}), sentinel, root, Compose(q, p), u)
    {
      ghost var m := Snap(Nodes(tree) + {sentinel});
      node, q, u := start, Top, t;
      ZipDown(m, sentinel, root, p, u, Left);
      while node.left != sentinel
        invariant u.Fork? && u.at == node && Plug(q, u) == t && Before(q) == [] && LeftSpine(q)
        invariant HoldsZip(m, sentinel, root, Compose(q, p), u)
        invariant node in m && m[node].left == Ref(u.left, sentinel)
        decreases u
      {
        ZipDown(m, sentinel, root, Compose(q, p), u, Left);
        node := node.left;
        q, u := Below(q, u, Left), u.left;
        ZipDown(m, sentinel, root, Compose(q, p), u, Left);
      }
      ZipDown(m, sentinel, root, Compose(q, p), u, Left);
      assert Holds(m, sentinel, u.left);
    }

    method GetMax(start: Node, ghost p: Path<Node>, ghost t: Tree<Node>)
      returns (node: Node, ghost q: Path<Node>, ghost u: Tree<Node>)
      requires Valid() && HoldsZip(Snap(Nodes(tree) + {sentinel}), sentinel, root, p, t) && t.Fork? && t.at == start
      ensures u.Fork? && u.at == node && u.right.Leaf? && Plug(q, u) == t && After(q) == []
    {
      ghost var m := Snap(Nodes(tree) + {sentinel});
      node, q, u := start, Top, t;
      ZipDown(m, sentinel, root, p, u, Right);
      while node.right != sentinel
        invariant u.Fork? && u.at == node && Plug(q, u) == t && After(q) == []
        invariant HoldsZip(m, sentinel, root, Compose(q, p), u)
        invariant node in m && m[node].right == Ref(u.right, sentinel)
        decreases u
      {
        ZipDown(m, sentinel, root, Compose(q, p), u, Right);
        node := node.right;
        q, u := Below(q, u, Right), u.right;
        ZipDown(m, sentinel, root, Compose(q, p), u, Right);
      }
      ZipDown(m, sentinel, root, Compose(q, p), u, Right);
      assert Holds(m, sentinel, u.right);
    }

    /** `scraft_rbtree_min`: the sentinel stands for "none". */
    method Min() returns (r: Node)
      requires Valid()
      ensures r == if Inorder(tree) == [] then sentinel else Inorder(tree)[0]
      ensures r != sentinel <==> r in Nodes(tree)
    {
      EmptyIffSentinel();
      HoldsDomain(Snap(Nodes(tree) + {sentinel}), sentinel, tree);
      if root == sentinel { return root; }
      ghost var q, u;
      r, q, u := GetMin(root, Top, tree);
      FirstInorder(q, u);
    }

    method Max() returns (r: Node)
      requires Valid()
      ensures r == if Inorder(tree) == [] then sentinel else Inorder(tree)[|Inorder(tree)| - 1]
      ensures r != sentinel <==> r in Nodes(tree)
    {
      EmptyIffSentinel();
      HoldsDomain(Snap(Nodes(tree) + {sentinel}), sentinel, tree);
      if root == sentinel { return root; }
      ghost var q, u;
      r, q, u := GetMax(root, Top, tree);
      LastInorder(q, u);
    }

    // ---- Deletion ---------------------------------------------------------------------

    method Detach(node: Node, subst: Node, tmp: Node, ghost S: set<Node>)
      requires Substitutable(Snap(S), sentinel, root, node, subst, tmp)
      modifies S
      ensures Detached(old(Snap(S)), Snap(S), node, subst, tmp)
      ensures turns == old(turns)
    {
      if subst == subst.parent.left { subst.parent.left := tmp; } else { subst.parent.right := tmp; }
      if subst.parent == node { tmp.parent := subst; } else { tmp.parent := subst.parent; }
    }

    method TakePlace(node: Node, subst: Node, ghost S: set<Node>)
      requires {sentinel, node, subst} <= S && node != subst
      requires node.left in S && node.left != node && node.left != subst && node.left != node.right
      requires node.right in S && node.right != node && node.right != subst
      requires node != root ==> node.parent in S && node.parent != node && node.parent != subst
      requires node != root ==> node.parent != node.left && node.parent != node.right
      modifies `root, S
      ensures TookPlace(old(Snap(S)), Snap(S), sentinel, old(root), root, node, subst)
      ensures turns == old(turns)
    {
      subst.left, subst.right := node.left, node.right;
      subst.parent := node.parent;
      subst.color := node.color;
      if node == root {
        root := subst;
      } else if node == node.parent.left {
        node.parent.left := subst;
      } else {
        node.parent.right := subst;
      }
      if subst.left != sentinel { subst.left.parent := subst; }
      if subst.right != sentinel { subst.right.parent := subst; }
    }

    /** The relinking of `scraft_rbt_delete` when the node has two children. */
    method Substitute(node: Node, subst: Node, tmp: Node, ghost S: set<Node>)
      requires sentinel in S && Substitutable(Snap(S), sentinel, root, node, subst, tmp)
      modifies `root, S
      ensures Substituted(old(Snap(S)), Snap(S), sentinel, old(root), root, node, subst, tmp)
      ensures turns == old(turns)
    {
      ghost var m, oldRoot := Snap(S), root;
      Detach(node, subst, tmp, S);
      ghost var m1 := Snap(S);
      assert CellOf(node) == m1[node];
      TakePlace(node, subst, S);
      DetachedThenPlaced(m, m1, Snap(S), sentinel, oldRoot, root, node, subst, tmp);
    }

    /** What the deletion fixup reads around its focus, which may be the sentinel. */
    lemma Sibling(S: set<Node>, p: Path<Node>, t: Tree<Node>)
      requires Focused(S, p, t) && p.Step? && p.sib.Fork?
      ensures p.at in S && p.sib.at in S && Ref(t, sentinel) in S && p.at != p.sib.at && Ref(t, sentinel) != p.sib.at
      ensures p.at != sentinel && p.sib.at != sentinel
      ensures ChildOf(CellOf(p.at), p.side) == Ref(t, sentinel) && ChildOf(CellOf(p.at), Opposite(p.side)) == p.sib.at
      ensures p.at.color == p.color && p.sib.at.color == p.sib.color && p.sib.at.parent == p.at
      ensures Ref(p.sib.left, sentinel) in S && Ref(p.sib.right, sentinel) in S
      ensures p.sib.at.left == Ref(p.sib.left, sentinel) && p.sib.at.right == Ref(p.sib.right, sentinel)
      ensures Ref(p.sib.left, sentinel).color == RootColor(p.sib.left)
      ensures Ref(p.sib.right, sentinel).color == RootColor(p.sib.right)
      ensures p.up.Step? ==> p.at.parent == p.up.at
    {
      var m := Snap(S);
      HoldsDomain(m, sentinel, t);
      HoldsDomain(m, sentinel, p.sib);
      assert p.sib.at in Nodes(p.sib);
      assert t.Fork? ==> t.at in Nodes(t);
      HoldsDomain(m, sentinel, p.sib.left);
      HoldsDomain(m, sentinel, p.sib.right);
      assert m[p.at].color == p.color && m[p.sib.at].color == p.sib.color;
      assert Holds(m, sentinel, p.sib.left) && Holds(m, sentinel, p.sib.right);
      assert p.sib.left.Fork? ==> m[p.sib.left.at].color == p.sib.left.color;
      assert p.sib.right.Fork? ==> m[p.sib.right.at].color == p.sib.right.color;
    }

    /** A short focus, with the parent pointer of its root, sentinel or not, in place. */
    ghost predicate Short(S: set<Node>, p: Path<Node>, t: Tree<Node>)
      reads `root, S
    {
      && Focused(S, p, t) && ShortFocus(p, t)
      && Ref(t, sentinel) in S && (p.Step? ==> Ref(t, sentinel).parent == p.at)
    }

    /** Red sibling on the right: it becomes the grandparent and the new sibling is black. */
    method LiftRedSiblingLeft(tmp: Node, sibling: Node, ghost S: set<Node>, ghost p: Path<Node>, ghost t: Tree<Node>)
      returns (ghost q: Path<Node>)
      requires Short(S, p, t) && p.Step? && p.side.Left? && Ref(t, sentinel) == tmp
      requires p.sib.Fork? && p.sib.at == sibling && p.sib.color.Red?
      modifies `root, `turns, S
      ensures q == Step(Left, Step(Left, p.up, p.sib.at, Black, p.sib.right), p.at, Red, p.sib.left)
      ensures Short(S, q, t) && RootColor(q.sib).Black? && Inorder(Plug(q, t)) == Inorder(Plug(p, t))
      ensures turns == old(turns) + 1
    {
      Sibling(S, p, t);
      RedSibling(p, t);
      FocusFar(Snap(S), sentinel, root, p, t);
      ghost var f, far := FarPath(p, t), p.sib.right;
      PaintParent(sibling, Black, S, f, far);
      f := f.(color := Black);
      PaintGrand(tmp.parent, Red, S, f, far);
      f := f.(up := f.up.(color := Red));
      q := RotateGrandLeft(tmp.parent, S, f, far);
      FocusBack(Snap(S), sentinel, root, Left, p.up, p.sib.at, Black, p.at, Red, t, p.sib.left, far);
      q := Step(Left, Step(Left, p.up, p.sib.at, Black, far), p.at, Red, p.sib.left);
    }

    /** Red sibling on the left: it becomes the grandparent and the new sibling is black. */
    method LiftRedSiblingRight(tmp: Node, sibling: Node, ghost S: set<Node>, ghost p: Path<Node>, ghost t: Tree<Node>)
      returns (ghost q: Path<Node>)
      requires Short(S, p, t) && p.Step? && p.side.Right? && Ref(t, sentinel) == tmp
      requires p.sib.Fork? && p.sib.at == sibling && p.sib.color.Red?
      modifies `root, `turns, S
      ensures q == Step(Right, Step(Right, p.up, p.sib.at, Black, p.sib.left), p.at, Red, p.sib.right)
      ensures Short(S, q, t) && RootColor(q.sib).Black? && Inorder(Plug(q, t)) == Inorder(Plug(p, t))
      ensures turns == old(turns) + 1
    {
      Sibling(S, p, t);
      RedSibling(p, t);
      FocusFar(Snap(S), sentinel, root, p, t);
      ghost var f, far := FarPath(p, t), p.sib.left;
      PaintParent(sibling, Black, S, f, far);
      f := f.(color := Black);
      PaintGrand(tmp.parent, Red, S, f, far);
      f := f.(up := f.up.(color := Red));
      q := RotateGrandRight(tmp.parent, S, f, far);
      FocusBack(Snap(S), sentinel, root, Right, p.up, p.sib.at, Black, p.at, Red, t, p.sib.right, far);
      q := Step(Right, Step(Right, p.up, p.sib.at, Black, far), p.at, Red, p.sib.right);
    }

    /** Red nephew on the near side only: it becomes the sibling, with a red far child. */
    method TurnNephewLeft(tmp: Node, sibling: Node, ghost S: set<Node>, ghost p: Path<Node>, ghost t: Tree<Node>)
      returns (ghost q: Path<Node>)
      requires Short(S, p, t) && p.Step? && p.side.Left? && Ref(t, sentinel) == tmp
      requires p.sib.Fork? && p.sib.at == sibling && p.sib.color.Black?
      requires RootColor(p.sib.left).Red? && RootColor(p.sib.right).Black?
      modifies `root, `turns, S
      ensures q.Step? && q.side.Left? && q.at == p.at && q.up == p.up
      ensures q.sib.Fork? && q.sib.color.Black? && RootColor(q.sib.right).Red?
      ensures Short(S, q, t) && Inorder(Plug(q, t)) == Inorder(Plug(p, t))
      ensures turns == old(turns) + 1
    {
      Sibling(S, p, t);
      RedNearNephew(p, t);
      ghost var f, near := NearPath(p, t), p.sib.left;
      FocusNear(Snap(S), sentinel, root, p, t);
      PaintFocus(sibling.left, Black, S, f, near);
      PaintParent(sibling, Red, S, f, Painted(near, Black));
      ghost var m, oldRoot, f1, near1 := Snap(S), root, f.(color := Red), Painted(near, Black);
      ParentRotatable(m, sentinel, root, f1, near1);
      RotateRight(sibling, S);
      InnerRotatedRight(m, Snap(S), sentinel, oldRoot, root, f1, near1);
      q := p.(sib := Fork(near.left, near.at, Black, Fork(near.right, sibling, Red, p.sib.right)));
      FocusFar(Snap(S), sentinel, root, q, t);
    }

    /** Red nephew on the far side: recolouring and one rotation end the fixup. */
    method SettleShortLeft(tmp: Node, sibling: Node, ghost S: set<Node>, ghost p: Path<Node>, ghost t: Tree<Node>)
      returns (ghost u: Tree<Node>)
      requires Short(S, p, t) && p.Step? && p.side.Left? && Ref(t, sentinel) == tmp && RootColor(t).Black?
      requires p.sib.Fork? && p.sib.at == sibling && p.sib.color.Black? && RootColor(p.sib.right).Red?
      modifies `root, `turns, S
      ensures Focused(S, Top, u) && RedBlack(u) && Inorder(u) == Inorder(Plug(p, t)) && turns == old(turns) + 1
    {
      Sibling(S, p, t);
      RedFarNephew(p, t);
      ghost var f, far := FarPath(p, t), p.sib.right;
      FocusFar(Snap(S), sentinel, root, p, t);
      PaintParent(sibling, tmp.parent.color, S, f, far);
      f := f.(color := p.color);
      PaintGrand(tmp.parent, Black, S, f, far);
      f := f.(up := f.up.(color := Black));
      PaintFocus(sibling.right, Black, S, f, far);
      ghost var q := RotateGrandLeft(tmp.parent, S, f, Painted(far, Black));
      u := Plug(p.up, Fork(Fork(t, p.at, Black, p.sib.left), sibling, p.color, Painted(far, Black)));
      ZipPlug(Snap(S), sentinel, root, q, Painted(far, Black));
    }

    /** Red nephew on the near side only: it becomes the sibling, with a red far child. */
    method TurnNephewRight(tmp: Node, sibling: Node, ghost S: set<Node>, ghost p: Path<Node>, ghost t: Tree<Node>)
      returns (ghost q: Path<Node>)
      requires Short(S, p, t) && p.Step? && p.side.Right? && Ref(t, sentinel) == tmp
      requires p.sib.Fork? && p.sib.at == sibling && p.sib.color.Black?
      requires RootColor(p.sib.right).Red? && RootColor(p.sib.left).Black?
      modifies `root, `turns, S
      ensures q.Step? && q.side.Right? && q.at == p.at && q.up == p.up
      ensures q.sib.Fork? && q.sib.color.Black? && RootColor(q.sib.left).Red?
      ensures Short(S, q, t) && Inorder(Plug(q, t)) == Inorder(Plug(p, t))
      ensures turns == old(turns) + 1
    {
      Sibling(S, p, t);
      RedNearNephew(p, t);
      ghost var f, near := NearPath(p, t), p.sib.right;
      FocusNear(Snap(S), sentinel, root, p, t);
      PaintFocus(sibling.right, Black, S, f, near);
      PaintParent(sibling, Red, S, f, Painted(near, Black));
      ghost var m, oldRoot, f1, near1 := Snap(S), root, f.(color := Red), Painted(near, Black);
      ParentRotatable(m, sentinel, root, f1, near1);
      RotateLeft(sibling, S);
      InnerRotatedLeft(m, Snap(S), sentinel, oldRoot, root, f1, near1);
      q := p.(sib := Fork(Fork(p.sib.left, sibling, Red, near.left), near.at, Black, near.right));
      FocusFar(Snap(S), sentinel, root, q, t);
    }

    /** Red nephew on the far side: recolouring and one rotation end the fixup. */
    method SettleShortRight(tmp: Node, sibling: Node, ghost S: set<Node>, ghost p: Path<Node>, ghost t: Tree<Node>)
      returns (ghost u: Tree<Node>)
      requires Short(S, p, t) && p.Step? && p.side.Right? && Ref(t, sentinel) == tmp && RootColor(t).Black?
      requires p.sib.Fork? && p.sib.at == sibling && p.sib.color.Black? && RootColor(p.sib.left).Red?
      modifies `root, `turns, S
      ensures Focused(S, Top, u) && RedBlack(u) && Inorder(u) == Inorder(Plug(p, t)) && turns == old(turns) + 1
    {
      Sibling(S, p, t);
      RedFarNephew(p, t);
      ghost var f, far := FarPath(p, t), p.sib.left;
      FocusFar(Snap(S), sentinel, root, p, t);
      PaintParent(sibling, tmp.parent.color, S, f, far);
      f := f.(color := p.color);
      PaintGrand(tmp.parent, Black, S, f, far);
      f := f.(up := f.up.(color := Black));
      PaintFocus(sibling.left, Black, S, f, far);
      ghost var q := RotateGrandRight(tmp.parent, S, f, Painted(far, Black));
      u := Plug(p.up, Fork(Painted(far, Black), sibling, p.color, Fork(p.sib.right, p.at, Black, t)));
      ZipPlug(Snap(S), sentinel, root, q, Painted(far, Black));
    }

    /** Two black nephews: the sibling turns red and the shortage moves one level up. */
    method SinkSibling(start: Node, sibling: Node, ghost S: set<Node>, ghost p: Path<Node>, ghost t: Tree<Node>)
      returns (tmp: Node, ghost q: Path<Node>, ghost u: Tree<Node>)
      requires Short(S, p, t) && p.Step? && Ref(t, sentinel) == start && RootColor(t).Black?
      requires p.sib.Fork? && p.sib.at == sibling && p.sib.color.Black?
      requires RootColor(p.sib.left).Black? && RootColor(p.sib.right).Black?
      modifies S
      ensures q == p.up && u == Join(p.side, t, p.at, p.color, Painted(p.sib, Red))
      ensures Short(S, q, u) && tmp == p.at && root == old(root) && Inorder(Plug(q, u)) == Inorder(Plug(p, t))
      ensures turns == old(turns)
    {
      Sibling(S, p, t);
      BlackNephews(p, t);
      ghost var m := Snap(S);
      FocusFar(m, sentinel, root, p, t);
      tmp := start;
      sibling.color := Red;
      ghost var f, far := FarPath(p, t), Far(p.side, p.sib);
      KinRecolored(m, Snap(S), sentinel, root, f, far, {f.at});
      ghost var p1 := p.(sib := Painted(p.sib, Red));
      FocusFar(Snap(S), sentinel, root, p1, t);
      FocusUp(Snap(S), sentinel, root, p1, t);
      tmp := tmp.parent;
      q, u := p.up, Join(p.side, t, p.at, p.color, Painted(p.sib, Red));
    }

    lemma RootShort(S: set<Node>, t: Tree<Node>)
      requires Focused(S, Top, t) && RedBlack(t)
      ensures Short(S, Top, t) && root == Ref(t, sentinel)
    {
      HoldsDomain(Snap(S), sentinel, t);
      assert t.Fork? ==> t.at in Nodes(t);
      PaintedBlack(t);
    }

    /** One round of the deletion fixup when the focus is a left child. */
    method DeleteFixupLeft(start: Node, ghost S: set<Node>, ghost p0: Path<Node>, ghost t0: Tree<Node>)
      returns (tmp: Node, ghost p: Path<Node>, ghost t: Tree<Node>)
      requires Short(S, p0, t0) && Ref(t0, sentinel) == start && RootColor(t0).Black? && p0.Step? && p0.side.Left?
      modifies `root, `turns, S
      ensures Short(S, p, t) && Ref(t, sentinel) == tmp && Inorder(Plug(p, t)) == Inorder(Plug(p0, t0))
      ensures turns <= old(turns) + 3 && (turns > old(turns) ==> p.Top? || RootColor(t).Red?)
      ensures p.Top? || RootColor(t).Red? || Depth(p) < Depth(p0)
    {
      tmp, p, t := start, p0, t0;
      SiblingExists(p, t);
      Sibling(S, p, t);
      var fixTarget: Node := tmp.parent.right;
      if fixTarget.color == Red {
        p := LiftRedSiblingLeft(tmp, fixTarget, S, p, t);
        SiblingExists(p, t);
        Sibling(S, p, t);
        fixTarget := tmp.parent.right;
      }
      if fixTarget.left.color == Black && fixTarget.right.color == Black {
        tmp, p, t := SinkSibling(tmp, fixTarget, S, p, t);
      } else {
        if fixTarget.right.color == Black {
          p := TurnNephewLeft(tmp, fixTarget, S, p, t);
          Sibling(S, p, t);
          fixTarget := tmp.parent.right;
        }
        t := SettleShortLeft(tmp, fixTarget, S, p, t);
        p := Top;
        tmp := root;
        RootShort(S, t);
      }
    }

    /** One round of the deletion fixup when the focus is a right child. */
    method DeleteFixupRight(start: Node, ghost S: set<Node>, ghost p0: Path<Node>, ghost t0: Tree<Node>)
      returns (tmp: Node, ghost p: Path<Node>, ghost t: Tree<Node>)
      requires Short(S, p0, t0) && Ref(t0, sentinel) == start && RootColor(t0).Black? && p0.Step? && p0.side.Right?
      modifies `root, `turns, S
      ensures Short(S, p, t) && Ref(t, sentinel) == tmp && Inorder(Plug(p, t)) == Inorder(Plug(p0, t0))
      ensures turns <= old(turns) + 3 && (turns > old(turns) ==> p.Top? || RootColor(t).Red?)
      ensures p.Top? || RootColor(t).Red? || Depth(p) < Depth(p0)
    {
      tmp, p, t := start, p0, t0;
      SiblingExists(p, t);
      Sibling(S, p, t);
      var fixTarget: Node := tmp.parent.left;
      if fixTarget.color == Red {
        p := LiftRedSiblingRight(tmp, fixTarget, S, p, t);
        SiblingExists(p, t);
        Sibling(S, p, t);
        fixTarget := tmp.parent.left;
      }
      if fixTarget.right.color == Black && fixTarget.left.color == Black {
        tmp, p, t := SinkSibling(tmp, fixTarget, S, p, t);
      } else {
        if fixTarget.left.color == Black {
          p := TurnNephewRight(tmp, fixTarget, S, p, t);
          Sibling(S, p, t);
          fixTarget := tmp.parent.left;
        }
        t := SettleShortRight(tmp, fixTarget, S, p, t);
        p := Top;
        tmp := root;
        RootShort(S, t);
      }
    }

    /** The fixup loop of `scraft_rbt_delete`; the focus may start at the sentinel. */
    method DeleteFixup(start: Node, ghost S: set<Node>, ghost p0: Path<Node>, ghost t0: Tree<Node>)
      returns (ghost u: Tree<Node>)
      requires Short(S, p0, t0) && Ref(t0, sentinel) == start
      modifies `root, `turns, S
      ensures Focused(S, Top, u) && RedBlack(u) && Inorder(u) == Inorder(Plug(p0, t0))
      ensures turns <= old(turns) + 3
    {
      var tmp := start;
      ghost var p, t := p0, t0;
      ShortCase(S, p, t);
      while tmp != root && tmp.color == Black
        invariant Short(S, p, t) && Ref(t, sentinel) == tmp
        invariant tmp.color == RootColor(t) && (tmp == root <==> p.Top?)
        invariant Inorder(Plug(p, t)) == Inorder(Plug(p0, t0))
        invariant turns <= old(turns) + 3 && (turns > old(turns) ==> p.Top? || RootColor(t).Red?)
        decreases if p.Top? || RootColor(t).Red? then 0 else 1 + Depth(p)
      {
        ShortCase(S, p, t);
        if tmp == tmp.parent.left {
          tmp, p, t := DeleteFixupLeft(tmp, S, p, t);
        } else {
          tmp, p, t := DeleteFixupRight(tmp, S, p, t);
        }
        ShortCase(S, p, t);
      }
      u := BlackenFocus(tmp, S, p, t);
    }

    /** How the code tells the cases of a short focus apart.  Comparing the sentinel with
        its parent's left child works because its sibling is a real node. */
    lemma ShortCase(S: set<Node>, p: Path<Node>, t: Tree<Node>)
      requires Short(S, p, t)
      ensures Ref(t, sentinel) == root <==> p.Top?
      ensures Ref(t, sentinel).color == RootColor(t)
      ensures p.Step? && RootColor(t).Black? ==> p.at in S && (p.side.Left? <==> p.at.left == Ref(t, sentinel))
    {
      var m := Snap(S);
      HoldsDomain(m, sentinel, t);
      HoldsPathDomain(m, sentinel, root, p, Ref(t, sentinel));
      assert t.Fork? ==> t.at in Nodes(t) && m[t.at].color == t.color;
      if p.Step? && RootColor(t).Black? {
        SiblingExists(p, t);
        Sibling(S, p, t);
      }
    }

    method BlackenFocus(tmp: Node, ghost S: set<Node>, ghost p: Path<Node>, ghost t: Tree<Node>)
      returns (ghost u: Tree<Node>)
      requires Short(S, p, t) && Ref(t, sentinel) == tmp && (p.Top? || RootColor(t).Red?)
      modifies S
      ensures Focused(S, Top, u) && RedBlack(u) && Inorder(u) == Inorder(Plug(p, t))
      ensures turns == old(turns)
    {
      ghost var m := Snap(S);
      ShortFocusDone(p, t);
      HoldsDomain(m, sentinel, t);
      tmp.color := Black;
      if t.Fork? {
        assert t.at in Nodes(t);
        RecoloredZip(m, Snap(S), sentinel, root, p, t, {tmp});
        RootDyed(m, Snap(S), sentinel, t, {tmp});
      }
      u := Plug(p, Painted(t, Black));
      ZipPlug(Snap(S), sentinel, root, p, Painted(t, Black));
      PlugSameInorder(p, Painted(t, Black), t);
    }

    /** Takes out a node that is not the root and has at most one child. */
    method UnlinkOuter(node: Node, tmp: Node, ghost S: set<Node>, ghost p: Path<Node>,
                       ghost t0: Tree<Node>, ghost t: Tree<Node>)
      requires Focused(S, p, t0) && p.Step? && t0.Fork? && t0.at == node && (t == t0.left || t == t0.right)
      requires tmp == Ref(t, sentinel)
      modifies S
      ensures Focused(S - {node}, p, t) && tmp in S && tmp != node && tmp.parent == p.at && root == old(root)
      ensures turns == old(turns)
    {
      ghost var m := Snap(S);
      HoldsDomain(m, sentinel, t0);
      HoldsDomain(m, sentinel, t);
      HoldsPathDomain(m, sentinel, root, p, node);
      HoleIsOnItsSide(m, sentinel, root, p, t0);
      assert m[node].parent == p.at && p.at in PathNodes(p);
      assert t.Fork? ==> t.at in Nodes(t);
      if node == node.parent.left { node.parent.left := tmp; } else { node.parent.right := tmp; }
      tmp.parent := node.parent;
      SplicedZip(m, Snap(S), sentinel, root, p, t0, t);
      assert node in Nodes(t0);
      FrameZip(Snap(S), Snap(S - {node}), sentinel, root, p, t);
    }

    /** Puts the successor of a node with two children in its place. */
    method UnlinkInner(node: Node, subst: Node, tmp: Node, ghost S: set<Node>, ghost p: Path<Node>,
                       ghost t0: Tree<Node>,
                       ghost q: Path<Node>, ghost u: Tree<Node>)
      returns (ghost p': Path<Node>)
      requires t0.Fork? && t0.at == node && t0.left.Fork? && u.Fork? && u.at == subst && u.left.Leaf? && LeftSpine(q)
      requires Focused(S, Compose(q, Below(p, t0, Right)), u) && tmp == Ref(u.right, sentinel)
      modifies `root, S
      ensures p' == Compose(q, Step(Right, p, subst, t0.color, t0.left))
      ensures Focused(S - {node}, p', u.right) && tmp in S && tmp != node && tmp.parent == p'.at
      ensures turns == old(turns)
    {
      ghost var m, oldRoot := Snap(S), root;
      ghost var l, c := t0.left, t0.color;
      CanSubstitute(m, sentinel, root, p, l, node, c, q, u);
      Substitute(node, subst, tmp, S);
      p' := Compose(q, Step(Right, p, subst, c, l));
      UnlinkedZip(m, Snap(S), Snap(S - {node}), sentinel, oldRoot, root, p, l, node, c, q, u);
    }

    /** The end of `scraft_rbt_delete`: a removed black node calls for the fixup. */
    method Rebalance(node: Node, tmp: Node, substColor: Color, ghost S: set<Node>,
                     ghost p: Path<Node>, ghost t: Tree<Node>)
      requires Focused(S, p, t) && node !in S && tmp == Ref(t, sentinel) && tmp in S
      requires p.Step? && tmp.parent == p.at
      requires substColor.Red? ==> RedBlack(Plug(p, t))
      requires substColor.Black? ==> ShortFocus(p, t)
      requires ThreeWay(keyCompare) && Sorted(keyCompare, Inorder(Plug(p, t))) && S == Nodes(Plug(p, t)) + {sentinel}
      modifies this, S, node
      ensures Valid() && Inorder(tree) == Inorder(Plug(p, t)) && Nodes(tree) == Nodes(Plug(p, t))
      ensures turns <= old(turns) + 3
    {
      if substColor == Red {
        ZipPlug(Snap(S), sentinel, root, p, t);
        Conclude(Plug(p, t));
        return;
      }
      node.left, node.right := null, null;
      RebalanceBlack(tmp, S, p, t);
    }

    method RebalanceBlack(tmp: Node, ghost S: set<Node>, ghost p: Path<Node>, ghost t: Tree<Node>)
      requires Short(S, p, t) && tmp == Ref(t, sentinel) && S == Nodes(Plug(p, t)) + {sentinel}
      requires ThreeWay(keyCompare) && Sorted(keyCompare, Inorder(Plug(p, t)))
      modifies this, S
      ensures Valid() && Inorder(tree) == Inorder(Plug(p, t)) && Nodes(tree) == Nodes(Plug(p, t))
      ensures turns <= old(turns) + 3
    {
      ghost var u := DeleteFixup(tmp, S, p, t);
      InorderNodes(u);
      InorderNodes(Plug(p, t));
      Conclude(u);
    }

    /** Takes the finished tree over as the abstract value. */
    ghost method Conclude(u: Tree<Node>)
      requires Focused(Nodes(u) + {sentinel}, Top, u) && RedBlack(u)
      requires ThreeWay(keyCompare) && Sorted(keyCompare, Inorder(u))
      modifies `tree
      ensures tree == u && Valid()
    {
      tree := u;
    }

    /** Deletes a member; no other node changes identity or key. */
    method Delete(node: Node)
      requires Valid() && node in Nodes(tree)
      modifies this, sentinel, Nodes(tree)
      ensures Valid() && Inorder(tree) == Dropped(old(Inorder(tree)), node)
      ensures Nodes(tree) == old(Nodes(tree)) - {node}
      ensures turns <= old(turns) + 3
    {
      ghost var before, S := tree, Nodes(tree) + {sentinel};
      ghost var m := Snap(S);
      ghost var p, t0 := Locate(tree, node);
      ZipPlug(m, sentinel, root, p, t0);
      ZipDown(m, sentinel, root, p, t0, Right);
      if node.left == sentinel || node.right == sentinel {
        DeleteOuter(node, p, t0);
      } else {
        DeleteInner(node, p, t0);
      }
    }

    method DeleteOuter(node: Node, ghost p: Path<Node>, ghost t0: Tree<Node>)
      requires Valid() && Plug(p, t0) == tree && t0.Fork? && t0.at == node
      requires HoldsZip(Snap(Nodes(tree) + {sentinel}), sentinel, root, p, t0)
      requires node.left == sentinel || node.right == sentinel
      modifies this, sentinel, Nodes(tree)
      ensures Valid() && Inorder(tree) == Dropped(old(Inorder(tree)), node)
      ensures Nodes(tree) == old(Nodes(tree)) - {node}
      ensures turns <= old(turns) + 3
    {
      ghost var S := Nodes(tree) + {sentinel};
      OuterShape(p, t0);
      var tmp: Node := if node.left == sentinel then node.right else node.left;
      ghost var t := if node.left == sentinel then t0.right else t0.left;
      assert Inorder(t) == Inorder(t0.left) + Inorder(t0.right);
      RemoveOne(p, t0, t);
      RemovedTree(keyCompare, Snap(S), sentinel, root, p, t0, t);
      assert S - {node} == Nodes(Plug(p, t)) + {sentinel};
      if node == root {
        ReplaceRoot(node, tmp, S, t0, t);
      } else {
        var substColor := node.color;
        UnlinkOuter(node, tmp, S, p, t0, t);
        Rebalance(node, tmp, substColor, S - {node}, p, t);
      }
    }

    lemma OuterShape(p: Path<Node>, t0: Tree<Node>)
      requires Valid() && t0.Fork? && HoldsZip(Snap(Nodes(tree) + {sentinel}), sentinel, root, p, t0)
      requires t0.at.left == sentinel || t0.at.right == sentinel
      ensures t0.at in Nodes(tree) && t0.at != sentinel && (t0.at == root <==> p.Top?)
      ensures t0.at.left == Ref(t0.left, sentinel) && t0.at.right == Ref(t0.right, sentinel) && t0.at.color == t0.color
      ensures t0.at.left == sentinel <==> t0.left.Leaf?
      ensures t0.at.right == sentinel <==> t0.right.Leaf?
    {
      var m := Snap(Nodes(tree) + {sentinel});
      ZipDown(m, sentinel, root, p, t0, Left);
      HoldsPathDomain(m, sentinel, root, p, t0.at);
      assert t0.at in Nodes(t0);
      assert Holds(m, sentinel, t0.left) && Holds(m, sentinel, t0.right);
    }

    /** Deletion of the root when it has at most one child. */
    method ReplaceRoot(node: Node, tmp: Node, ghost S: set<Node>, ghost t0: Tree<Node>, ghost t: Tree<Node>)
      requires Focused(S, Top, t0) && t0.Fork? && t0.at == node
      requires (t == t0.left || t == t0.right) && tmp == Ref(t, sentinel)
      requires RedBlack(Painted(t, Black)) && ThreeWay(keyCompare) && Sorted(keyCompare, Inorder(t))
      requires S - {node} == Nodes(t) + {sentinel}
      modifies this, S
      ensures Valid() && Inorder(tree) == Inorder(t) && Nodes(tree) == Nodes(t) && turns == old(turns)
    {
      HoldsDomain(Snap(S), sentinel, t0);
      HoldsDomain(Snap(S), sentinel, t);
      root := tmp;
      PaintRoot(tmp, S, S - {node}, t);
      Conclude(Painted(t, Black));
    }

    method PaintRoot(tmp: Node, ghost S: set<Node>, ghost S': set<Node>, ghost t: Tree<Node>)
      requires Holds(Snap(S), sentinel, t) && tmp == Ref(t, sentinel) && sentinel.color == Black
      requires tmp in S && S' <= S && Nodes(t) <= S'
      modifies tmp`color
      ensures Holds(Snap(S'), sentinel, Painted(t, Black)) && sentinel.color == Black
    {
      ghost var m := Snap(S);
      HoldsDomain(m, sentinel, t);
      tmp.color := Black;
      if t.Fork? {
        assert t.at in Nodes(t);
        DyedHolds(m, Snap(S), sentinel, t);
        RootDyed(m, Snap(S), sentinel, t, {tmp});
      }
      FrameTree(Snap(S), Snap(S'), sentinel, Painted(t, Black));
    }

    method DeleteInner(node: Node, ghost p: Path<Node>, ghost t0: Tree<Node>)
      requires Valid() && Plug(p, t0) == tree && t0.Fork? && t0.at == node && t0.left.Fork? && t0.right.Fork?
      requires HoldsZip(Snap(Nodes(tree) + {sentinel}), sentinel, root, p, t0)
      modifies this, sentinel, Nodes(tree)
      ensures Valid() && Inorder(tree) == Dropped(old(Inorder(tree)), node)
      ensures Nodes(tree) == old(Nodes(tree)) - {node}
      ensures turns <= old(turns) + 3
    {
      ghost var m := Snap(Nodes(tree) + {sentinel});
      ZipDown(m, sentinel, root, p, t0, Left);
      ZipDown(m, sentinel, root, p, t0, Right);
      assert Holds(m, sentinel, t0.left) && Holds(m, sentinel, t0.right);
      var subst: Node;
      ghost var q, w;
      subst, q, w := GetMin(node.right, Below(p, t0, Right), t0.right);
      ZipDown(m, sentinel, root, Compose(q, Below(p, t0, Right)), w, Right);
      if subst.left != sentinel { assert false; }   // the minimum has no left child
      var tmp: Node := subst.right;
      RelinkInner(node, subst, tmp, p, t0, q, w);
    }

    /** The rest of `scraft_rbt_delete` once the successor of a node with two children is known. */
    method RelinkInner(node: Node, subst: Node, tmp: Node, ghost p: Path<Node>, ghost t0: Tree<Node>,
                       ghost q: Path<Node>, ghost w: Tree<Node>)
      requires Valid() && Plug(p, t0) == tree && t0.Fork? && t0.at == node && t0.left.Fork?
      requires HoldsZip(Snap(Nodes(tree) + {sentinel}), sentinel, root, p, t0)
      requires w.Fork? && w.at == subst && w.left.Leaf? && Plug(q, w) == t0.right && Before(q) == [] && LeftSpine(q)
      requires HoldsZip(Snap(Nodes(tree) + {sentinel}), sentinel, root, Compose(q, Below(p, t0, Right)), w)
      requires tmp == Ref(w.right, sentinel) && subst.color == w.color
      modifies this, sentinel, Nodes(tree)
      ensures Valid() && Inorder(tree) == Dropped(old(Inorder(tree)), node)
      ensures Nodes(tree) == old(Nodes(tree)) - {node}
      ensures turns <= old(turns) + 3
    {
      ghost var S := Nodes(tree) + {sentinel};
      InnerRemoved(keyCompare, Snap(S), sentinel, root, p, t0, q, w);
      var substColor := subst.color;
      ghost var p' := UnlinkInner(node, subst, tmp, S, p, t0, q, w);
      Rebalance(node, tmp, substColor, S - {node}, p', w.right);
    }
  }
}
