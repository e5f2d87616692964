/** The mathematics behind util/scraft_rbt.c: coloured trees, paths from a focus up to
    the root, and what each kind of fixup step does to them.  Nothing here mentions
    pointers; module RbHeap relates these values to linked nodes. */
module RbShape {
  datatype Color = Red | Black

  datatype Side = Left | Right

  datatype Tree<N> = Leaf | Fork(left: Tree<N>, at: N, color: Color, right: Tree<N>)

  /** A tree with a hole: the way from the hole up to the root.  `Step(side, up, at, color, sib)`
      says that the hole is the `side` child of `at`, whose other child is `sib`. */
  datatype Path<N> = Top | Step(side: Side, up: Path<N>, at: N, color: Color, sib: Tree<N>)

  function Join<N>(side: Side, t: Tree<N>, at: N, color: Color, sib: Tree<N>): Tree<N> {
    if side.Left? then Fork(t, at, color, sib) else Fork(sib, at, color, t)
  }

  function Plug<N>(p: Path<N>, t: Tree<N>): Tree<N> {
    match p
    case Top => t
    case Step(side, up, at, color, sib) => Plug(up, Join(side, t, at, color, sib))
  }

  function Near<N>(side: Side, t: Tree<N>): Tree<N>
    requires t.Fork?
  {
    if side.Left? then t.left else t.right
  }

  function Far<N>(side: Side, t: Tree<N>): Tree<N>
    requires t.Fork?
  {
    if side.Left? then t.right else t.left
  }

  /** The path to the child of `t` on `side`. */
  function Below<N>(p: Path<N>, t: Tree<N>, side: Side): Path<N>
    requires t.Fork?
  {
    Step(side, p, t.at, t.color, Far(side, t))
  }

  function Compose<N>(inner: Path<N>, outer: Path<N>): Path<N> {
    match inner
    case Top => outer
    case Step(side, up, at, color, sib) => Step(side, Compose(up, outer), at, color, sib)
  }

  function Depth<N>(p: Path<N>): nat {
    if p.Top? then 0 else 1 + Depth(p.up)
  }

  function Inorder<N>(t: Tree<N>): seq<N> {
    if t.Leaf? then [] else Inorder(t.left) + [t.at] + Inorder(t.right)
  }

  /** What stands before, respectively after, the hole in the in-order sequence. */
  function Before<N>(p: Path<N>): seq<N> {
    match p
    case Top => []
    case Step(side, up, at, _, sib) => if side.Left? then Before(up) else Before(up) + Inorder(sib) + [at]
  }

  function After<N>(p: Path<N>): seq<N> {
    match p
    case Top => []
    case Step(side, up, at, _, sib) => if side.Left? then [at] + Inorder(sib) + After(up) else After(up)
  }

  lemma Reassociate<N>(a: seq<N>, b: seq<N>, c: seq<N>, d: seq<N>, e: seq<N>)
    ensures a + (b + c + d) + e == a + b + (c + d + e)
    ensures a + (b + c + d) + e == (a + b + c) + d + e
  {}

  lemma Regroup<N>(a: seq<N>, b: seq<N>, c: seq<N>, d: seq<N>, e: seq<N>)
    ensures a + (b + c + d) + e == (a + b) + c + (d + e)
    ensures a + (b + d) + e == (a + b) + (d + e)
  {}

  lemma {:induction false} PlugInorder<N>(p: Path<N>, t: Tree<N>)
    ensures Inorder(Plug(p, t)) == Before(p) + Inorder(t) + After(p)
  {
    match p
    case Top =>
    case Step(side, up, at, color, sib) =>
      PlugInorder(up, Join(side, t, at, color, sib));
      if side.Left? {
        Reassociate(Before(up), Inorder(t), [at], Inorder(sib), After(up));
      } else {
        Reassociate(Before(up), Inorder(sib), [at], Inorder(t), After(up));
      }
  }

  lemma PlugSameInorder<N>(p: Path<N>, t: Tree<N>, u: Tree<N>)
    requires Inorder(t) == Inorder(u)
    ensures Inorder(Plug(p, t)) == Inorder(Plug(p, u))
  {
    PlugInorder(p, t);
    PlugInorder(p, u);
  }

  lemma {:induction false} PlugCompose<N>(inner: Path<N>, outer: Path<N>, t: Tree<N>)
    ensures Plug(Compose(inner, outer), t) == Plug(outer, Plug(inner, t))
  {
    if inner.Top? {
    } else {
      PlugCompose(inner.up, outer, Join(inner.side, t, inner.at, inner.color, inner.sib));
    }
  }

  lemma RotationKeepsInorder<N>(a: Tree<N>, x: N, cx: Color, b: Tree<N>, y: N, cy: Color, e: Tree<N>,
                                dx: Color, dy: Color)
    ensures Inorder(Fork(a, x, cx, Fork(b, y, cy, e))) == Inorder(Fork(Fork(a, x, dx, b), y, dy, e))
  {
    assert Inorder(Fork(a, x, cx, Fork(b, y, cy, e))) == Inorder(a) + [x] + (Inorder(b) + [y] + Inorder(e));
    assert Inorder(Fork(Fork(a, x, dx, b), y, dy, e)) == (Inorder(a) + [x] + Inorder(b)) + [y] + Inorder(e);
  }

  // ---- Red-black discipline ------------------------------------------------

  function RootColor<N>(t: Tree<N>): Color { if t.Leaf? then Black else t.color }

  function Weight(c: Color): nat { if c.Black? then 1 else 0 }

  function BlackHeight<N>(t: Tree<N>): nat {
    if t.Leaf? then 0 else BlackHeight(t.left) + Weight(t.color)
  }

  /** No red node has a red child and both subtrees of every node have equal black height. */
  predicate Balanced<N>(t: Tree<N>) {
    t.Fork? ==>
      && Balanced(t.left) && Balanced(t.right)
      && BlackHeight(t.left) == BlackHeight(t.right)
      && (t.color.Red? ==> RootColor(t.left).Black? && RootColor(t.right).Black?)
  }

  predicate RedBlack<N>(t: Tree<N>) {
    Balanced(t) && RootColor(t).Black?
  }

  /** Exactly the balanced trees with root colour `c` and black height `h` fill this hole. */
  predicate Admits<N>(p: Path<N>, c: Color, h: nat) {
    match p
    case Top => c.Black?
    case Step(_, up, _, color, sib) =>
      && Balanced(sib) && BlackHeight(sib) == h
      && (color.Red? ==> c.Black? && RootColor(sib).Black?)
      && Admits(up, color, h + Weight(color))
  }

  lemma {:induction false} PlugRedBlack<N>(p: Path<N>, t: Tree<N>)
    ensures RedBlack(Plug(p, t)) <==> Balanced(t) && Admits(p, RootColor(t), BlackHeight(t))
  {
    if p.Top? {
    } else {
      var u := Join(p.side, t, p.at, p.color, p.sib);
      PlugRedBlack(p.up, u);
      if Balanced(t) && Balanced(p.sib) && BlackHeight(t) == BlackHeight(p.sib) {
        assert BlackHeight(u) == BlackHeight(t) + Weight(p.color);
      }
    }
  }

  function Painted<N>(t: Tree<N>, c: Color): Tree<N> {
    if t.Leaf? then t else t.(color := c)
  }

  // ---- Height -----------------------------------------------------------------

  function Height<N>(t: Tree<N>): nat {
    if t.Leaf? then 0 else 1 + if Height(t.left) >= Height(t.right) then Height(t.left) else Height(t.right)
  }

  function Pow2(n: nat): (r: nat)
    ensures r >= 1
  {
    if n == 0 then 1 else 2 * Pow2(n - 1)
  }

  lemma {:induction false} Pow2Sum(a: nat, b: nat)
    ensures Pow2(a + b) == Pow2(a) * Pow2(b)
  {
    if a == 0 {
    } else {
      Pow2Sum(a - 1, b);
      assert Pow2(a + b) == 2 * Pow2(a - 1 + b);
    }
  }

  lemma {:induction false} Pow2Grows(a: nat, b: nat)
    requires a <= b
    ensures Pow2(a) <= Pow2(b)
  {
    if a == b {
    } else {
      Pow2Grows(a, b - 1);
    }
  }

  lemma {:induction false} HeightWithinBlackHeight<N>(t: Tree<N>)
    requires Balanced(t)
    ensures Height(t) <= 2 * BlackHeight(t) + (if RootColor(t).Red? then 1 else 0)
  {
    if t.Leaf? {
    } else {
      HeightWithinBlackHeight(t.left);
      HeightWithinBlackHeight(t.right);
    }
  }

  lemma {:induction false} BlackHeightForcesSize<N>(t: Tree<N>)
    requires Balanced(t)
    ensures Pow2(BlackHeight(t)) <= |Inorder(t)| + 1
  {
    if t.Leaf? {
    } else {
      BlackHeightForcesSize(t.left);
      BlackHeightForcesSize(t.right);
    }
  }

  lemma SquareGrows(a: nat, b: nat)
    requires a <= b
    ensures a * a <= b * b
  {
    assert a * a <= b * a;
    assert b * a <= b * b;
  }

  function Square(n: nat): nat { n * n }

  /** Height at most 2 * log2(n + 1), written without logarithms. */
  lemma HeightBound<N>(t: Tree<N>)
    requires RedBlack(t)
    ensures Pow2(Height(t)) <= Square(|Inorder(t)| + 1)
  {
    HeightWithinBlackHeight(t);
    BlackHeightForcesSize(t);
    Pow2Grows(Height(t), BlackHeight(t) + BlackHeight(t));
    Pow2Sum(BlackHeight(t), BlackHeight(t));
    SquareGrows(Pow2(BlackHeight(t)), |Inorder(t)| + 1);
  }

  // ---- Insertion fixup ----------------------------------------------------------

  /** The subtree two levels above the focus. */
  function Grand<N>(p: Path<N>, t: Tree<N>): Tree<N>
    requires p.Step? && p.up.Step?
  {
    Join(p.up.side, Join(p.side, t, p.at, p.color, p.sib), p.up.at, p.up.color, p.up.sib)
  }

  /** The focus is red, and the tree would be red-black if it were black. */
  predicate RedFocus<N>(p: Path<N>, t: Tree<N>) {
    t.Fork? && t.color.Red? && Balanced(t) && Admits(p, Black, BlackHeight(t))
  }

  lemma {:induction false} RedFocusDone<N>(p: Path<N>, t: Tree<N>)
    requires RedFocus(p, t)
    requires p.Top? || p.color.Black?
    ensures RedBlack(Painted(Plug(p, t), Black))
  {
    if p.Top? {
    } else {
      PlugRedBlack(p, t);
      PaintedBlack(Plug(p, t));
    }
  }

  lemma PaintedBlack<N>(t: Tree<N>)
    requires RootColor(t).Black?
    ensures Painted(t, Black) == t
  {}

  /** Red uncle: recolouring moves the violation two levels up. */
  lemma RedUncle<N>(p: Path<N>, t: Tree<N>)
    requires RedFocus(p, t) && p.Step? && p.color.Red? && p.up.Step?
    requires RootColor(p.up.sib).Red?
    ensures RedFocus(p.up.up,
      Join(p.up.side, Join(p.side, t, p.at, Black, p.sib), p.up.at, Red, Painted(p.up.sib, Black)))
  {
    assert Admits(p.up, Red, BlackHeight(t));
  }

  /** Black uncle, inner grandchild: one rotation makes it an outer grandchild. */
  lemma InnerToOuter<N>(p: Path<N>, t: Tree<N>)
    requires RedFocus(p, t) && p.Step? && p.color.Red? && p.up.Step?
    requires p.side != p.up.side
    ensures p.side.Right? ==> RedFocus(Step(Left, p.up, t.at, Red, t.right), Fork(p.sib, p.at, Red, t.left))
    ensures p.side.Left? ==> RedFocus(Step(Right, p.up, t.at, Red, t.left), Fork(t.right, p.at, Red, p.sib))
  {}

  /** Black uncle, outer grandchild: recolouring and one rotation end the fixup. */
  lemma BlackUncle<N>(p: Path<N>, t: Tree<N>)
    requires RedFocus(p, t) && p.Step? && p.color.Red? && p.up.Step?
    requires p.side == p.up.side && RootColor(p.up.sib).Black?
    ensures RedFocus(Step(p.side, p.up.up, p.at, Black, Join(p.side, p.sib, p.up.at, Red, p.up.sib)), t)
  {
    assert Admits(p.up, Red, BlackHeight(t));
  }

  lemma JoinBalanced<N>(side: Side, t: Tree<N>, at: N, c: Color, sib: Tree<N>)
    requires Balanced(t) && Balanced(sib) && BlackHeight(t) == BlackHeight(sib)
    requires c.Red? ==> RootColor(t).Black? && RootColor(sib).Black?
    ensures Balanced(Join(side, t, at, c, sib))
    ensures BlackHeight(Join(side, t, at, c, sib)) == BlackHeight(t) + Weight(c)
  {}

  // ---- Deletion fixup -------------------------------------------------------------

  /** Once painted black, the focus is balanced; if it was black already, it is one black
      node short of what its hole admits. */
  predicate ShortFocus<N>(p: Path<N>, t: Tree<N>) {
    Balanced(Painted(t, Black)) && Admits(p, Black, BlackHeight(t) + 1)
  }

  lemma {:induction false} ShortFocusDone<N>(p: Path<N>, t: Tree<N>)
    requires ShortFocus(p, t)
    requires p.Top? || RootColor(t).Red?
    ensures RedBlack(Plug(p, Painted(t, Black)))
  {
    PlugRedBlack(p, Painted(t, Black));
    if RootColor(t).Black? { PaintedBlack(t); }
  }

  lemma SiblingExists<N>(p: Path<N>, t: Tree<N>)
    requires ShortFocus(p, t) && p.Step?
    ensures p.sib.Fork?
    ensures p.sib.color.Red? ==> p.sib.left.Fork? && p.sib.right.Fork?
  {}

  lemma RedSibling<N>(p: Path<N>, t: Tree<N>)
    requires ShortFocus(p, t) && p.Step? && RootColor(p.sib).Red?
    ensures p.sib.Fork? && RootColor(Near(p.side, p.sib)).Black?
    ensures ShortFocus(Step(p.side, Step(p.side, p.up, p.sib.at, Black, Far(p.side, p.sib)),
                            p.at, Red, Near(p.side, p.sib)), t)
  {
    SiblingExists(p, t);
  }

  lemma BlackNephews<N>(p: Path<N>, t: Tree<N>)
    requires ShortFocus(p, t) && p.Step? && p.sib.Fork? && p.sib.color.Black?
    requires RootColor(t).Black?
    requires RootColor(p.sib.left).Black? && RootColor(p.sib.right).Black?
    ensures ShortFocus(p.up, Join(p.side, t, p.at, p.color, Painted(p.sib, Red)))
  {
    PaintedBlack(t);
    JoinBalanced(p.side, t, p.at, Black, Painted(p.sib, Red));
    assert Admits(p.up, p.color, BlackHeight(t) + 1 + Weight(p.color));
    assert Admits(p.up, Black, BlackHeight(t) + 1 + Weight(p.color));
  }

  lemma RedNearNephew<N>(p: Path<N>, t: Tree<N>)
    requires ShortFocus(p, t) && p.Step? && p.sib.Fork? && p.sib.color.Black?
    requires RootColor(Far(p.side, p.sib)).Black? && RootColor(Near(p.side, p.sib)).Red?
    ensures
      var near := Near(p.side, p.sib);
      ShortFocus(p.(sib := Join(p.side, Near(p.side, near), near.at, Black,
                       Join(p.side, Far(p.side, near), p.sib.at, Red, Far(p.side, p.sib)))), t)
  {
    var near, far := Near(p.side, p.sib), Far(p.side, p.sib);
    assert Balanced(near) && Balanced(far) && BlackHeight(near) == BlackHeight(far);
    JoinBalanced(p.side, Far(p.side, near), p.sib.at, Red, far);
    JoinBalanced(p.side, Near(p.side, near), near.at, Black, Join(p.side, Far(p.side, near), p.sib.at, Red, far));
  }

  lemma {:induction false} RedFarNephew<N>(p: Path<N>, t: Tree<N>)
    requires ShortFocus(p, t) && p.Step? && p.sib.Fork? && p.sib.color.Black?
    requires RootColor(t).Black?
    requires RootColor(Far(p.side, p.sib)).Red?
    ensures RedBlack(Plug(p.up, Join(p.side, Join(p.side, t, p.at, Black, Near(p.side, p.sib)),
                       p.sib.at, p.color, Painted(Far(p.side, p.sib), Black))))
  {
    PaintedBlack(t);
    var near, far := Near(p.side, p.sib), Far(p.side, p.sib);
    assert Balanced(near) && Balanced(far) && BlackHeight(near) == BlackHeight(far);
    assert Balanced(Painted(far, Black)) && BlackHeight(Painted(far, Black)) == BlackHeight(far) + 1;
    JoinBalanced(p.side, t, p.at, Black, near);
    var v := Join(p.side, t, p.at, Black, near);
    JoinBalanced(p.side, v, p.sib.at, p.color, Painted(far, Black));
    PlugRedBlack(p.up, Join(p.side, v, p.sib.at, p.color, Painted(far, Black)));
  }

  function Opposite(side: Side): Side {
    if side.Left? then Right else Left
  }

  /** The path to the sibling's child that is farther from, respectively nearer to, the focus. */
  function FarPath<N>(p: Path<N>, t: Tree<N>): Path<N>
    requires p.Step? && p.sib.Fork?
  {
    var o := Opposite(p.side);
    Step(o, Step(o, p.up, p.at, p.color, t), p.sib.at, p.sib.color, Near(p.side, p.sib))
  }

  function NearPath<N>(p: Path<N>, t: Tree<N>): Path<N>
    requires p.Step? && p.sib.Fork?
  {
    Step(p.side, Step(Opposite(p.side), p.up, p.at, p.color, t), p.sib.at, p.sib.color, Far(p.side, p.sib))
  }

  /** Removing a node with at most one child. */
  lemma {:induction false} RemoveOne<N>(p: Path<N>, t0: Tree<N>, t: Tree<N>)
    requires RedBlack(Plug(p, t0)) && t0.Fork?
    requires (t0.left.Leaf? && t == t0.right) || (t0.right.Leaf? && t == t0.left)
    ensures Balanced(t)
    ensures p.Top? ==> RedBlack(Painted(t, Black))
    ensures t0.color.Red? ==> RedBlack(Plug(p, t))
    ensures t0.color.Black? ==> ShortFocus(p, t)
  {
    PlugRedBlack(p, t0);
    PlugRedBlack(p, t);
    if t0.color.Red? { AdmitsBlack(p, BlackHeight(t)); }
  }

  lemma AdmitsBlack<N>(p: Path<N>, h: nat)
    requires Admits(p, Red, h)
    ensures Admits(p, Black, h)
  {}

  lemma {:induction false} AdmitsRenamed<N>(q: Path<N>, side: Side, up: Path<N>, a: N, b: N, color: Color,
                                            sib: Tree<N>, c: Color, h: nat)
    ensures Admits(Compose(q, Step(side, up, a, color, sib)), c, h) <==>
            Admits(Compose(q, Step(side, up, b, color, sib)), c, h)
  {
    if q.Top? {
    } else {
      AdmitsRenamed(q.up, side, up, a, b, color, sib, q.color, h + Weight(q.color));
    }
  }
}
