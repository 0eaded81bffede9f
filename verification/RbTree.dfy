/**
  The red-black tree macros: nodes with parent pointers, rotations and recoloring in place.  Every
  method is proved against the values of module RbAlgebra.
*/
module RbTree {
  import opened RbAlgebra

  // ----- which nodes make up a tree, and how they are linked -----

  ghost function Nodes(t: Tree): set<Node> {
    if t.Leaf? then {} else Nodes(t.left) + {t.node} + Nodes(t.right)
  }

  ghost function ContextNodes(c: Context): set<Node> {
    match c
    case Top => {}
    case InLeft(node, red, right, up) => {node} + Nodes(right) + ContextNodes(up)
    case InRight(left, node, red, up) => {node} + Nodes(left) + ContextNodes(up)
  }

  /** No node occurs twice. */
  ghost predicate Apart(t: Tree) {
    t.Branch? ==>
      && Apart(t.left) && Apart(t.right)
      && Nodes(t.left) !! Nodes(t.right) && t.node !in Nodes(t.left) && t.node !in Nodes(t.right)
  }

  ghost predicate ContextApart(c: Context) {
    match c
    case Top => true
    case InLeft(node, red, right, up) =>
      && Apart(right) && ContextApart(up) && Nodes(right) !! ContextNodes(up)
      && node !in Nodes(right) && node !in ContextNodes(up)
    case InRight(left, node, red, up) =>
      && Apart(left) && ContextApart(up) && Nodes(left) !! ContextNodes(up)
      && node !in Nodes(left) && node !in ContextNodes(up)
  }

  ghost function RootOf(t: Tree): Node? {
    if t.Leaf? then null else t.node
  }

  ghost function ParentOf(c: Context): Node? {
    if c.Top? then null else c.node
  }

  ghost function PaintedBlack(t: Tree): Tree {
    if t.Leaf? then t else t.(red := false)
  }

  lemma PaintedBlackSame(t: Tree, c: Context)
    ensures All(PaintedBlack(t), c) == All(t, c) && Nodes(PaintedBlack(t)) == Nodes(t)
        && RootOf(PaintedBlack(t)) == RootOf(t)
  {
  }

  /** A red root or the whole tree, painted black: nothing lacks. */
  lemma RemoveEnds(t: Tree, c: Context)
    requires Lacks(t, c) && (c.Top? || !Black(t))
    ensures RedBlack(Plug(c, PaintedBlack(t))) && Black(Plug(c, PaintedBlack(t)))
  {
    if !c.Top? { PlugRedBlack(c, PaintedBlack(t), BlackHeight(t) + 1); }
  }

  lemma RepairedEnds(t: Tree)
    requires Repaired(t, Top)
    ensures RedBlack(Plug(Top, PaintedBlack(t))) && Black(Plug(Top, PaintedBlack(t)))
  {
  }

  /** The place of the sibling. */
  ghost function Beside(t: Tree, c: Context): Context
    requires !c.Top?
  {
    if c.InLeft? then InRight(t, c.node, c.red, c.up) else InLeft(c.node, c.red, t, c.up)
  }

  lemma RotatedNodes(t: Tree, t': Tree)
    requires t.Branch? && t'.Branch? && t.node == t'.node
    requires Nodes(t.left) == Nodes(t'.left) && Nodes(t.right) == Nodes(t'.right)
    ensures Nodes(t) == Nodes(t')
  {
  }

  lemma PaintedNodes(t: Tree, t': Tree)
    requires t.Branch? && t'.Branch? && t.node == t'.node
    requires t.left.Branch? && t'.left.Branch? ==>
      (t.left.node == t'.left.node && t.left.left == t'.left.left && t.left.right == t'.left.right)
    requires t.right.Branch? && t'.right.Branch? ==>
      (t.right.node == t'.right.node && t.right.left == t'.right.left && t.right.right == t'.right.right)
    requires t.left.Leaf? == t'.left.Leaf? && t.right.Leaf? == t'.right.Leaf?
    ensures Nodes(t) == Nodes(t')
  {
  }

  lemma RepaidNodes(t: Tree, c: Context)
    requires RedNephew(c)
    ensures Nodes(Repaid(t, c)) + ContextNodes(c.up) == Nodes(t) + ContextNodes(c)
  {
    var s := Sibling(c);
    assert Nodes(s) == Nodes(s.left) + {s.node} + Nodes(s.right);
    assert Nodes(Repaid(t, c)) == Nodes(t) + {c.node} + Nodes(s);
  }

  lemma LiftedNodes(t: Tree, c: Context)
    requires t.Branch? && !c.Top? && !c.up.Top?
    ensures Nodes(Lifted(t, c).0) + ContextNodes(Lifted(t, c).1) == Nodes(t) + ContextNodes(c)
  {
    var p := InLine(t, c);
    assert Nodes(p) == Nodes(Step(c, t));
  }

  /** The nodes of t hang together as t says, below `parent`. */
  ghost predicate Linked(t: Tree, parent: Node?)
    reads Nodes(t)
  {
    t.Branch? ==>
      && t.node.parent == parent && t.node.red == t.red
      && t.node.left == RootOf(t.left) && t.node.right == RootOf(t.right)
      && Linked(t.left, t.node) && Linked(t.right, t.node)
  }

  twostate predicate Same(n: Node)
    reads n
  {
    n.left == old(n.left) && n.right == old(n.right) && n.parent == old(n.parent) && n.red == old(n.red)
  }

  twostate lemma Kept(t: Tree, new parent: Node?)
    requires old(allocated(Nodes(t))) && old(allocated(parent))
    requires old(Linked(t, parent))
    requires forall n :: n in Nodes(t) ==> Same(n)
    ensures Linked(t, parent)
  {
  }

  /** Only the parent pointer of the root has changed. */
  twostate lemma Moved(t: Tree, new was: Node?, new parent: Node?)
    requires old(allocated(Nodes(t))) && old(allocated(was))
    requires old(Linked(t, was))
    requires Apart(t)
    requires t.Branch? ==> t.node.parent == parent
    requires t.Branch? ==>
        t.node.left == old(t.node.left) && t.node.right == old(t.node.right) && t.node.red == old(t.node.red)
    requires forall n :: n in Nodes(t) && n != t.node ==> Same(n)
    ensures Linked(t, parent)
  {
  }

  lemma {:induction false} PlugBranch(c: Context, t: Tree)
    requires t.Branch? || !c.Top?
    ensures Plug(c, t).Branch?
    decreases c
  {
    if !c.Top? { PlugBranch(c.up, Step(c, t)); }
  }

  class Head {
    var root: Node?

    /** The nodes of c hang together as c says, with x in the hole. */
    ghost predicate Around(c: Context, x: Node?)
      reads this, ContextNodes(c)
    {
      match c
      case Top => root == x
      case InLeft(node, red, right, up) =>
        && node.left == x && node.right == RootOf(right) && node.red == red && node.parent == ParentOf(up)
        && Linked(right, node) && Around(up, node)
      case InRight(left, node, red, up) =>
        && node.left == RootOf(left) && node.right == x && node.red == red && node.parent == ParentOf(up)
        && Linked(left, node) && Around(up, node)
    }

    /** The heap holds t in the hole of c. */
    ghost predicate At(t: Tree, c: Context)
      reads this, Nodes(t), ContextNodes(c)
    {
      && Linked(t, ParentOf(c)) && Around(c, RootOf(t))
      && Apart(t) && ContextApart(c) && Nodes(t) !! ContextNodes(c)
    }

    constructor ()
      ensures At(Leaf, Top)
    {
      root := null;
    }

    lemma {:induction false} Zip(t: Tree, c: Context)
      ensures At(t, c) <==> At(Plug(c, t), Top)
      ensures Nodes(Plug(c, t)) == Nodes(t) + ContextNodes(c)
      decreases c
    {
      match c
      case Top =>
      case InLeft(node, red, right, up) => Zip(Branch(t, node, red, right), up);
      case InRight(left, node, red, up) => Zip(Branch(left, node, red, t), up);
    }

    /** The pointer to x that its parent, or the head, holds is changed to y. */
    method Redirect(x: Node, y: Node?, ghost c: Context)
      requires Around(c, x) && ContextApart(c) && x !in ContextNodes(c) && x.parent == ParentOf(c)
      modifies `root, ParentOf(c)
      ensures Around(c, y)
      ensures c.Top? || unchanged(this)
    {
      if x.parent != null {
        if x == x.parent.left {
          x.parent.left := y;
        } else {
          x.parent.right := y;
        }
      } else {
        root := y;
      }
    }

    /** What RotateLeft needs to know about the pointers. */
    lemma LeftPointers(t: Tree, c: Context)
      requires At(t, c) && t.Branch? && t.right.Branch?
      ensures var x, y, b := t.node, t.right.node, RootOf(t.right.left);
        && x.right == y && y.left == b && x.parent == ParentOf(c) && Around(c, x) && ContextApart(c)
        && {x, y} <= Nodes(t) && x != y && b != x && b != y && Nodes(t) !! ContextNodes(c)
        && (b != null ==> b in Nodes(t)) && Linked(t, x.parent) && Apart(t)
    {
      assert Linked(t.right, t.node) && Apart(t.right);
    }

    /** The pointers have been changed as RotateLeft does; nothing else in t has. */
    twostate lemma LeftRotated(t: Tree, new c: Context, new parent: Node?)
      requires old(allocated(Nodes(t))) && old(allocated(parent)) && parent == ParentOf(c)
      requires old(Linked(t, parent)) && Apart(t) && ContextApart(c) && Nodes(t) !! ContextNodes(c)
      requires t.Branch? && t.right.Branch? && Around(c, t.right.node)
      requires var x, y, b := t.node, t.right.node, RootOf(t.right.left);
        && x.left == old(x.left) && x.right == b && x.parent == y && x.red == old(x.red)
        && y.left == x && y.right == old(y.right) && y.parent == parent && y.red == old(y.red)
        && (b != null ==> b.parent == x && b.left == old(b.left) && b.right == old(b.right) && b.red == old(b.red))
        && (forall n :: n in Nodes(t) && n != x && n != y && n != b ==> Same(n))
      ensures At(LeftRotation(t), c)
    {
      var x, y := t.node, t.right.node;
      assert old(Linked(t.right, x)) && Apart(t.right);
      hide Head.Around;
      Kept(t.left, x);
      Kept(t.right.right, y);
      Moved(t.right.left, y, x);
      assert Linked(Branch(t.left, x, t.red, t.right.left), y);
      var rot := LeftRotation(t);
      assert Nodes(rot) == Nodes(t);
      assert Apart(rot);
      assert Linked(rot, parent);
    }

    method RotateLeft(x: Node, ghost t: Tree, ghost c: Context)
      requires At(t, c) && t.Branch? && t.node == x && t.right.Branch?
      modifies `root, Nodes(t), ParentOf(c)
      ensures At(LeftRotation(t), c)
    {
      LeftPointers(t, c);
      hide Linked, Apart, ContextApart, Head.At, Nodes;
      var y := x.right;
      x.right := y.left;
      if x.right != null {
        x.right.parent := x;
      }
      y.parent := x.parent;
      Redirect(x, y, c);
      y.left := x;
      x.parent := y;
      LeftRotated(t, c, y.parent);
    }

    /** What RotateRight needs to know about the pointers. */
    lemma RightPointers(t: Tree, c: Context)
      requires At(t, c) && t.Branch? && t.left.Branch?
      ensures var x, y, b := t.node, t.left.node, RootOf(t.left.right);
        && x.left == y && y.right == b && x.parent == ParentOf(c) && Around(c, x) && ContextApart(c)
        && {x, y} <= Nodes(t) && x != y && b != x && b != y && Nodes(t) !! ContextNodes(c)
        && (b != null ==> b in Nodes(t)) && Linked(t, x.parent) && Apart(t)
    {
      assert Linked(t.left, t.node) && Apart(t.left);
    }

    /** The pointers have been changed as RotateRight does; nothing else in t has. */
    twostate lemma RightRotated(t: Tree, new c: Context, new parent: Node?)
      requires old(allocated(Nodes(t))) && old(allocated(parent)) && parent == ParentOf(c)
      requires old(Linked(t, parent)) && Apart(t) && ContextApart(c) && Nodes(t) !! ContextNodes(c)
      requires t.Branch? && t.left.Branch? && Around(c, t.left.node)
      requires var x, y, b := t.node, t.left.node, RootOf(t.left.right);
        && x.right == old(x.right) && x.left == b && x.parent == y && x.red == old(x.red)
        && y.right == x && y.left == old(y.left) && y.parent == parent && y.red == old(y.red)
        && (b != null ==> b.parent == x && b.right == old(b.right) && b.left == old(b.left) && b.red == old(b.red))
        && (forall n :: n in Nodes(t) && n != x && n != y && n != b ==> Same(n))
      ensures At(RightRotation(t), c)
    {
      var x, y := t.node, t.left.node;
      assert old(Linked(t.left, x)) && Apart(t.left);
      hide Head.Around;
      Kept(t.right, x);
      Kept(t.left.left, y);
      Moved(t.left.right, y, x);
      assert Linked(Branch(t.left.right, x, t.red, t.right), y);
      var rot := RightRotation(t);
      assert Nodes(rot) == Nodes(t);
      assert Apart(rot);
      assert Linked(rot, parent);
    }

    method RotateRight(x: Node, ghost t: Tree, ghost c: Context)
      requires At(t, c) && t.Branch? && t.node == x && t.left.Branch?
      modifies `root, Nodes(t), ParentOf(c)
      ensures At(RightRotation(t), c)
    {
      RightPointers(t, c);
      hide Linked, Apart, ContextApart, Head.At, Nodes;
      var y := x.left;
      x.left := y.right;
      if x.left != null {
        x.left.parent := x;
      }
      y.parent := x.parent;
      Redirect(x, y, c);
      y.right := x;
      x.parent := y;
      RightRotated(t, c, y.parent);
    }

    lemma GoLeft(left: Tree, node: Node, red: bool, right: Tree, c: Context)
      ensures At(Branch(left, node, red, right), c) <==> At(left, InLeft(node, red, right, c))
    {
    }

    lemma GoRight(left: Tree, node: Node, red: bool, right: Tree, c: Context)
      ensures At(Branch(left, node, red, right), c) <==> At(right, InRight(left, node, red, c))
    {
    }

    method SetColor(x: Node, red: bool, ghost t: Tree, ghost c: Context)
      requires At(t, c) && t.Branch? && t.node == x
      modifies x`red
      ensures At(t.(red := red), c)
    {
      assert Linked(t.left, x) && Linked(t.right, x);
      x.red := red;
    }

    ghost predicate IsLeft(x: Node, t: Tree) {
      t.Branch? && t.left.Branch? && t.left.node == x
    }

    ghost predicate IsRight(x: Node, t: Tree) {
      t.Branch? && t.right.Branch? && t.right.node == x
    }

    lemma AtStep(t: Tree, c: Context)
      requires !c.Top?
      ensures At(t, c) <==> At(Step(c, t), c.up)
      ensures Nodes(Step(c, t)) + ContextNodes(c.up) == Nodes(t) + ContextNodes(c)
    {
    }

    /** The pointers around a red node below a red node. */
    lemma RedPointers(t: Tree, c: Context)
      requires At(t, c) && RedRed(t, c)
      ensures !c.up.Top? && !c.up.red
      ensures t.node.parent == c.node && c.node.parent == c.up.node
      ensures c.up.node.left == RootOf(Grand(t, c).left) && c.up.node.right == RootOf(Grand(t, c).right)
      ensures (c.up.node.left == c.node) == c.up.InLeft?
      ensures (c.node.right == t.node) == c.InRight? && (c.node.left == t.node) == c.InLeft?
      ensures c.up.InLeft? && c.up.right.Branch? ==> c.up.right.node.red == c.up.right.red
      ensures c.up.InRight? && c.up.left.Branch? ==> c.up.left.node.red == c.up.left.red
      ensures At(Grand(t, c), c.up.up) && At(Step(c, t), c.up)
      ensures Nodes(Grand(t, c)) + ContextNodes(c.up.up) == Nodes(t) + ContextNodes(c)
    {
      AtStep(t, c);
      AtStep(Step(c, t), c.up);
    }

    method SetChildBlack(x: Node, ghost t: Tree, ghost c: Context)
      requires At(t, c) && (IsLeft(x, t) || IsRight(x, t))
      modifies x`red
      ensures At(if IsLeft(x, t) then t.(left := t.left.(red := false)) else t.(right := t.right.(red := false)), c)
    {
      GoLeft(t.left, t.node, t.red, t.right, c);
      GoRight(t.left, t.node, t.red, t.right, c);
      hide Head.At;
      ghost var child := if IsLeft(x, t) then t.left else t.right;
      ghost var around := if IsLeft(x, t) then InLeft(t.node, t.red, t.right, c) else InRight(t.left, t.node, t.red, c);
      SetColor(x, false, child, around);
      GoLeft(child.(red := false), t.node, t.red, t.right, c);
      GoRight(t.left, t.node, t.red, child.(red := false), c);
    }

    /** Red uncle, on either side: colors move up. */
    method Recolor(uncle: Node, parent: Node, gparent: Node, ghost g: Tree, ghost c: Context)
      requires At(g, c) && g.Branch? && g.node == gparent && uncle != parent
      requires (IsLeft(parent, g) && IsRight(uncle, g)) || (IsLeft(uncle, g) && IsRight(parent, g))
      modifies uncle`red, parent`red, gparent`red
      ensures At(Recolored(g), c)
    {
      hide Head.At;
      SetChildBlack(uncle, g, c);
      ghost var g1 := if IsLeft(uncle, g) then g.(left := g.left.(red := false))
          else g.(right := g.right.(red := false));
      SetChildBlack(parent, g1, c);
      SetColor(gparent, true, Branch(g.left.(red := false), gparent, g.red, g.right.(red := false)), c);
    }

    /** RB_SET_BLACKRED(parent, gparent) followed by a right rotation of gparent. */
    method LiftLeft(parent: Node, gparent: Node, ghost g: Tree, ghost c: Context)
      requires At(g, c) && g.Branch? && g.node == gparent && IsLeft(parent, g)
      modifies `root, Nodes(g), ParentOf(c)
      ensures At(Branch(g.left.left, parent, false, Branch(g.left.right, gparent, true, g.right)), c)
    {
      assert parent in Nodes(g.left) && gparent in Nodes(g);
      hide Head.At;
      SetChildBlack(parent, g, c);
      ghost var g1 := g.(left := g.left.(red := false));
      SetColor(gparent, true, g1, c);
      assert Nodes(g1.(red := true)) == Nodes(g);
      RotateRight(gparent, g1.(red := true), c);
    }

    /** The parent is a left child and the uncle is black. */
    method UntangleLeft(elm: Node, parent: Node, gparent: Node, ghost t: Tree, ghost c: Context)
      returns (low: Node, ghost t': Tree, ghost c': Context)
      requires At(t, c) && RedRed(t, c) && c.up.InLeft? && Black(c.up.right)
      requires elm == t.node && parent == c.node && gparent == c.up.node
      modifies `root, Nodes(t), ContextNodes(c)
      ensures At(t', c') && t'.Branch? && t'.node == low && t'.red && RedBlack(t') && Fits(c', BlackHeight(t'))
      ensures All(t', c') == All(t, c) && Nodes(t') + ContextNodes(c') == Nodes(t) + ContextNodes(c)
      ensures BlackHole(c') && Depth(c') < Depth(c)
    {
      RedPointers(t, c);
      LiftEnds(t, c);
      LiftKeepsOrder(t, c);
      LiftedNodes(t, c);
      hide Head.At, Linked, Apart, ContextApart, All, RedBlack, Fits, BlackHeight, Nodes, ContextNodes;
      ghost var p := Step(c, t);
      var upper := parent;
      low := elm;
      if parent.right == elm {
        RotateLeft(parent, p, c.up);
        p := LeftRotation(p);
        upper := elm;
        low := parent;
      }
      AtStep(p, c.up);
      ghost var g := Step(c.up, p);
      LiftLeft(upper, gparent, g, c.up.up);
      t', c' := Lifted(t, c).0, Lifted(t, c).1;
      AtStep(t', c');
    }

    /** The mirror image of LiftLeft. */
    method LiftRight(parent: Node, gparent: Node, ghost g: Tree, ghost c: Context)
      requires At(g, c) && g.Branch? && g.node == gparent && IsRight(parent, g) && !IsLeft(parent, g)
      modifies `root, Nodes(g), ParentOf(c)
      ensures At(Branch(Branch(g.left, gparent, true, g.right.left), parent, false, g.right.right), c)
    {
      assert parent in Nodes(g.right) && gparent in Nodes(g);
      hide Head.At;
      SetChildBlack(parent, g, c);
      ghost var g1 := g.(right := g.right.(red := false));
      SetColor(gparent, true, g1, c);
      assert Nodes(g1.(red := true)) == Nodes(g);
      RotateLeft(gparent, g1.(red := true), c);
    }

    lemma NotBoth(t: Tree, c: Context)
      requires At(t, c) && t.Branch?
      ensures t.left.Branch? && t.right.Branch? ==> t.left.node != t.right.node
    {
      if t.left.Branch? && t.right.Branch? {
        assert t.left.node in Nodes(t.left) && t.right.node in Nodes(t.right);
      }
    }

    /** The parent is a right child and the uncle is black. */
    method UntangleRight(elm: Node, parent: Node, gparent: Node, ghost t: Tree, ghost c: Context)
      returns (low: Node, ghost t': Tree, ghost c': Context)
      requires At(t, c) && RedRed(t, c) && c.up.InRight? && Black(c.up.left)
      requires elm == t.node && parent == c.node && gparent == c.up.node
      modifies `root, Nodes(t), ContextNodes(c)
      ensures At(t', c') && t'.Branch? && t'.node == low && t'.red && RedBlack(t') && Fits(c', BlackHeight(t'))
      ensures All(t', c') == All(t, c) && Nodes(t') + ContextNodes(c') == Nodes(t) + ContextNodes(c)
      ensures BlackHole(c') && Depth(c') < Depth(c)
    {
      RedPointers(t, c);
      LiftEnds(t, c);
      LiftKeepsOrder(t, c);
      LiftedNodes(t, c);
      hide Head.At, Linked, Apart, ContextApart, All, RedBlack, Fits, BlackHeight, Nodes, ContextNodes;
      ghost var p := Step(c, t);
      var upper := parent;
      low := elm;
      if parent.left == elm {
        RotateRight(parent, p, c.up);
        p := RightRotation(p);
        upper := elm;
        low := parent;
      }
      AtStep(p, c.up);
      ghost var g := Step(c.up, p);
      NotBoth(g, c.up.up);
      LiftRight(upper, gparent, g, c.up.up);
      t', c' := Lifted(t, c).0, Lifted(t, c).1;
      AtStep(t', c');
    }

    /** What a rotation at the top of t touches lies in t or in its context. */
    lemma NodesInside(t: Tree, c: Context)
      ensures !c.Top? ==> ParentOf(c) in ContextNodes(c)
      ensures t.Branch? ==> t.node in Nodes(t)
    {
    }

    /** The whole tree, from its root, when the loop of RB_INSERT_COLOR is over. */
    lemma Whole(t: Tree, c: Context) returns (whole: Tree)
      requires At(t, c) && t.Branch?
      ensures At(whole, Top) && whole == Plug(c, t) && whole.Branch? && whole.node == root
      ensures Flat(whole) == All(t, c) && Nodes(whole) == Nodes(t) + ContextNodes(c)
    {
      Zip(t, c);
      whole := Plug(c, t);
      FlatPlug(c, t);
      PlugBranch(c, t);
    }

    lemma RecolorAll(t: Tree, c: Context)
      requires !c.Top? && !c.up.Top?
      ensures All(Grand(t, c), c.up.up) == All(t, c)
      ensures var g := Grand(t, c); g.left.Branch? && g.right.Branch? ==>
        && Nodes(Recolored(g)) == Nodes(g)
        && (Flat(Recolored(g)) == Flat(g) ==> All(Recolored(g), c.up.up) == All(t, c))
    {
      AllStep(t, c);
      AllStep(Step(c, t), c.up);
    }

    /** One round of the loop in RB_INSERT_COLOR. */
    method InsertColorOnce(elm: Node, parent: Node, gparent: Node, ghost t: Tree, ghost c: Context)
      returns (next: Node, ghost t': Tree, ghost c': Context)
      requires At(t, c) && RedRed(t, c)
      requires elm == t.node && parent == c.node && gparent == c.up.node
      modifies `root, Nodes(t), ContextNodes(c)
      ensures At(t', c') && t'.Branch? && t'.node == next && t'.red && RedBlack(t') && Fits(c', BlackHeight(t'))
      ensures All(t', c') == All(t, c) && Nodes(t') + ContextNodes(c') == Nodes(t) + ContextNodes(c)
      ensures Depth(c') < Depth(c)
    {
      RedPointers(t, c);
      RecolorMovesUp(t, c);
      RecolorAll(t, c);
      hide Head.At, Linked, Apart, ContextApart, All, RedBlack, Fits, BlackHeight, Nodes, ContextNodes, Lifted;
      var tmp := if parent == gparent.left then gparent.right else gparent.left;
      if tmp != null && tmp.red {
        ghost var g := Grand(t, c);
        NotBoth(g, c.up.up);
        Recolor(tmp, parent, gparent, g, c.up.up);
        next, t', c' := gparent, Recolored(g), c.up.up;
      } else if parent == gparent.left {
        next, t', c' := UntangleLeft(elm, parent, gparent, t, c);
      } else {
        next, t', c' := UntangleRight(elm, parent, gparent, t, c);
      }
    }

    lemma HolePointer(t: Tree, c: Context)
      requires At(t, c) && t.Branch?
      ensures t.node.parent == ParentOf(c) && (!c.Top? ==> c.node.red == c.red && c.node in ContextNodes(c))
      ensures t.node in Nodes(t)
    {
    }

    /** The loop is over: only the root may be red below nothing. */
    lemma InsertColorEnds(t: Tree, c: Context)
      requires t.Branch? && RedBlack(t) && Fits(c, BlackHeight(t)) && BlackHole(c)
      ensures Plug(c, t).Branch?
      ensures var whole := Plug(c, t).(red := false);
        RedBlack(whole) && Flat(whole) == Flat(Plug(c, t)) && Nodes(whole) == Nodes(Plug(c, t))
    {
      PlugBranch(c, t);
      PlugRedBlack(c, t, BlackHeight(t));
    }

    /** RB_INSERT_COLOR */
    method InsertColor(start: Node, ghost t0: Tree, ghost c0: Context) returns (ghost t: Tree)
      requires At(t0, c0) && t0.Branch? && t0.node == start && t0.red && RedBlack(t0) && Fits(c0, BlackHeight(t0))
      modifies `root, Nodes(t0) + ContextNodes(c0)
      ensures At(t, Top) && t.Branch? && RedBlack(t) && Black(t) && Flat(t) == All(t0, c0)
      ensures Nodes(t) == Nodes(t0) + ContextNodes(c0)
    {
      var elm := start;
      ghost var c := c0;
      t := t0;
      hide Head.At, All, Nodes, ContextNodes, Head.Around, Linked, Apart, ContextApart, RedBlack, Fits, BlackHeight;
      HolePointer(t, c);
      while elm.parent != null && elm.parent.red
        invariant At(t, c) && t.Branch? && t.node == elm && t.red && RedBlack(t) && Fits(c, BlackHeight(t))
        invariant All(t, c) == All(t0, c0) && Nodes(t) + ContextNodes(c) == Nodes(t0) + ContextNodes(c0)
        invariant elm.parent == ParentOf(c) && (elm.parent != null ==> elm.parent.red == c.red)
        decreases Depth(c)
      {
        RedPointers(t, c);
        var parent := elm.parent;
        var gparent := parent.parent;
        elm, t, c := InsertColorOnce(elm, parent, gparent, t, c);
        HolePointer(t, c);
      }
      InsertColorEnds(t, c);
      t := Whole(t, c);
      HolePointer(t, Top);
      SetColor(root, false, t, Top);
      t := t.(red := false);
    }

    // ----- removal: the hole is on the left -----

    /** A red sibling: RB_SET_BLACKRED(tmp, parent) and a left rotation of parent. */
    method LiftSiblingLeft(tmp: Node, parent: Node, ghost t: Tree, ghost c: Context)
      requires At(t, c) && c.InLeft? && c.right.Branch? && parent == c.node && tmp == c.right.node
      modifies `root, Nodes(t), ContextNodes(c)
      ensures At(t, SiblingLifted(c))
    {
      ghost var p := Step(c, t);
      AtStep(t, c);
      NotBoth(p, c.up);
      NodesInside(p, c.up);
      assert parent in Nodes(p) && tmp in Nodes(p) by { assert tmp in Nodes(p.right); }
      hide Head.At, Nodes, ContextNodes;
      SetChildBlack(tmp, p, c.up);
      ghost var q := p.(right := p.right.(red := false));
      SetColor(parent, true, q, c.up);
      q := q.(red := true);
      PaintedNodes(p, q);
      RotateLeft(parent, q, c.up);
      AtStep(t, SiblingLifted(c));
      AtStep(Step(SiblingLifted(c), t), SiblingLifted(c).up);
    }

    /** Two black nephews: the sibling turns red. */
    method RedSibling(tmp: Node, ghost t: Tree, ghost c: Context)
      requires At(t, c) && !c.Top? && Sibling(c).Branch? && tmp == Sibling(c).node
      modifies tmp`red
      ensures At(LackMovedUp(t, c), c.up)
    {
      AtStep(t, c);
      AtStep(Sibling(c), Beside(t, c));
      AtStep(Sibling(c).(red := true), Beside(t, c));
      hide Head.At;
      SetColor(tmp, true, Sibling(c), Beside(t, c));
    }

    lemma LeftPointer(t: Tree, c: Context)
      requires At(t, c) && t.Branch?
      ensures t.node.left == RootOf(t.left) && t.node.right == RootOf(t.right) && t.node.red == t.red
      ensures t.left.Branch? ==> t.left.node.red == t.left.red && t.left.node in Nodes(t)
      ensures t.right.Branch? ==> t.right.node.red == t.right.red && t.right.node in Nodes(t)
    {
      assert Linked(t.left, t.node) && Linked(t.right, t.node);
    }

    /** The inner nephew takes the sibling's place. */
    method InnerNephewLeft(tmp: Node, ghost s: Tree, ghost c: Context)
      requires At(s, c) && s.Branch? && tmp == s.node && s.left.Branch?
      modifies `root, Nodes(s), ParentOf(c)
      ensures At(Branch(s.left.left, s.left.node, false, Branch(s.left.right, tmp, true, s.right)), c)
    {
      NodesInside(s, c);
      NodesInside(s.left, InLeft(s.node, s.red, s.right, c));
      assert s.left.node in Nodes(s);
      NotBoth(s, c);
      HolePointer(s, c);
      LeftPointer(s, c);
      hide Head.At, Nodes, ContextNodes;
      var oleft := tmp.left;
      if oleft != null {
        SetChildBlack(oleft, s, c);
      }
      ghost var q := s.(left := s.left.(red := false));
      SetColor(tmp, true, q, c);
      q := q.(red := true);
      PaintedNodes(s, q);
      RotateRight(tmp, q, c);
    }

    /** The outer nephew is red: the sibling takes the parent's color and place. */
    method OuterNephewLeft(tmp: Node, parent: Node, ghost t: Tree, ghost c: Context)
      requires At(t, c) && c.InLeft? && c.right.Branch? && c.right.right.Branch?
      requires parent == c.node && tmp == c.right.node
      modifies `root, Nodes(t), ContextNodes(c)
      ensures At(Branch(Branch(t, parent, false, c.right.left), tmp, c.red, c.right.right.(red := false)), c.up)
    {
      ghost var s, p := c.right, Step(c, t);
      AtStep(t, c);
      AtStep(s, Beside(t, c));
      LeftPointer(p, c.up);
      LeftPointer(s, Beside(t, c));
      NodesInside(p, c.up);
      NotBoth(s, Beside(t, c));
      assert Nodes(s) <= Nodes(p);
      hide Head.At, Nodes, ContextNodes;
      SetColor(tmp, parent.red, s, Beside(t, c));
      s := s.(red := c.red);
      AtStep(s, Beside(t, c));
      SetColor(parent, false, Branch(t, parent, c.red, s), c.up);
      ghost var d := InLeft(parent, false, s, c.up);
      AtStep(s, Beside(t, d));
      if tmp.right != null {
        SetChildBlack(tmp.right, s, Beside(t, d));
      }
      s := s.(right := s.right.(red := false));
      AtStep(s, Beside(t, d));
      PaintedNodes(c.right, s);
      RotatedNodes(p, Branch(t, parent, false, s));
      RotateLeft(parent, Branch(t, parent, false, s), c.up);
    }

    /** What a round leaves behind, whichever way it goes. */
    lemma RoundFacts(t: Tree, c: Context)
      requires Lacks(t, c) && Black(t) && !c.Top? && Sibling(c).Branch? && !Sibling(c).red
      ensures BlackNephews(c) ==> var w := LackMovedUp(t, c);
        && Lacks(w, c.up) && All(w, c.up) == All(t, c) && Nodes(w) + ContextNodes(c.up) == Nodes(t) + ContextNodes(c)
      ensures !BlackNephews(c) ==> var w := Repaid(t, c);
        && Repaired(w, c.up) && All(w, c.up) == All(t, c) && Nodes(w) + ContextNodes(c.up) == Nodes(t) + ContextNodes(c)
    {
      if BlackNephews(c) {
        LackMovesUp(t, c);
        assert Nodes(LackMovedUp(t, c)) == Nodes(Step(c, t));
      } else {
        RepaidFits(t, c);
        RepaidOrder(t, c);
        RepaidNodes(t, c);
      }
    }

    /** The parent's pointers. */
    lemma HoleParent(t: Tree, c: Context)
      requires At(t, c) && !c.Top?
      ensures c.node.left == (if c.InLeft? then RootOf(t) else RootOf(c.left))
      ensures c.node.right == (if c.InLeft? then RootOf(c.right) else RootOf(t))
      ensures c.node.red == c.red && c.node.parent == ParentOf(c.up)
    {
    }

    /** The round for a hole on the left, the sibling being black. */
    method RepayLeft(sibling: Node, parent: Node, ghost t: Tree, ghost c: Context)
      returns (done: bool, ghost t': Tree, ghost c': Context)
      requires At(t, c) && Lacks(t, c) && Black(t) && c.InLeft? && c.right.Branch? && !c.right.red
      requires parent == c.node && sibling == c.right.node
      modifies `root, Nodes(t), ContextNodes(c)
      ensures At(t', c') && All(t', c') == All(t, c) && Nodes(t') + ContextNodes(c') == Nodes(t) + ContextNodes(c)
      ensures c' == c.up && (if done then Repaired(t', c')
          else Lacks(t', c') && t'.Branch? && t'.node == parent && t'.red == c.red)
    {
      AtStep(t, c);
      AtStep(c.right, Beside(t, c));
      LeftPointer(c.right, Beside(t, c));
      RoundFacts(t, c);
      NodesInside(c.right, Beside(t, c));
      c' := c.up;
      if (sibling.left == null || !sibling.left.red) && (sibling.right == null || !sibling.right.red) {
        assert BlackNephews(c);
        hide Head.At, Nodes, ContextNodes, Lacks, Repaired, All, RedBlack, Fits;
        RedSibling(sibling, t, c);
        done, t' := false, LackMovedUp(t, c);
      } else {
        assert RedNephew(c);
        ghost var d := c;
        var tmp := sibling;
        t' := Repaid(t, c);
        hide Head.At, Nodes, ContextNodes, Lacks, Repaired, All, RedBlack, Fits;
        if tmp.right == null || !tmp.right.red {
          ghost var s := c.right;
          InnerNephewLeft(tmp, s, Beside(t, c));
          d := c.(right := Branch(s.left.left, s.left.node, false, Branch(s.left.right, s.node, true, s.right)));
          AtStep(d.right, Beside(t, d));
          AtStep(t, d);
          HoleParent(t, d);
          tmp := parent.right;
        }
        OuterNephewLeft(tmp, parent, t, d);
        done := true;
      }
    }

    // ----- removal: the hole is on the right -----

    method LiftSiblingRight(tmp: Node, parent: Node, ghost t: Tree, ghost c: Context)
      requires At(t, c) && c.InRight? && c.left.Branch? && parent == c.node && tmp == c.left.node
      modifies `root, Nodes(t), ContextNodes(c)
      ensures At(t, SiblingLifted(c))
    {
      ghost var p := Step(c, t);
      AtStep(t, c);
      NotBoth(p, c.up);
      NodesInside(p, c.up);
      assert parent in Nodes(p) && tmp in Nodes(p) by { assert tmp in Nodes(p.left); }
      hide Head.At, Nodes, ContextNodes;
      SetChildBlack(tmp, p, c.up);
      ghost var q := p.(left := p.left.(red := false));
      SetColor(parent, true, q, c.up);
      q := q.(red := true);
      PaintedNodes(p, q);
      RotateRight(parent, q, c.up);
      AtStep(t, SiblingLifted(c));
      AtStep(Step(SiblingLifted(c), t), SiblingLifted(c).up);
    }

    method InnerNephewRight(tmp: Node, ghost s: Tree, ghost c: Context)
      requires At(s, c) && s.Branch? && tmp == s.node && s.right.Branch?
      modifies `root, Nodes(s), ParentOf(c)
      ensures At(Branch(Branch(s.left, tmp, true, s.right.left), s.right.node, false, s.right.right), c)
    {
      NodesInside(s, c);
      assert s.right.node in Nodes(s.right);
      NotBoth(s, c);
      LeftPointer(s, c);
      hide Head.At, Nodes, ContextNodes;
      var oright := tmp.right;
      if oright != null {
        SetChildBlack(oright, s, c);
      }
      ghost var q := s.(right := s.right.(red := false));
      SetColor(tmp, true, q, c);
      q := q.(red := true);
      PaintedNodes(s, q);
      RotateLeft(tmp, q, c);
    }

    method OuterNephewRight(tmp: Node, parent: Node, ghost t: Tree, ghost c: Context)
      requires At(t, c) && c.InRight? && c.left.Branch? && c.left.left.Branch?
      requires parent == c.node && tmp == c.left.node
      modifies `root, Nodes(t), ContextNodes(c)
      ensures At(Branch(c.left.left.(red := false), tmp, c.red, Branch(c.left.right, parent, false, t)), c.up)
    {
      ghost var s, p := c.left, Step(c, t);
      AtStep(t, c);
      AtStep(s, Beside(t, c));
      LeftPointer(p, c.up);
      LeftPointer(s, Beside(t, c));
      NodesInside(p, c.up);
      NotBoth(s, Beside(t, c));
      assert Nodes(s) <= Nodes(p);
      hide Head.At, Nodes, ContextNodes;
      SetColor(tmp, parent.red, s, Beside(t, c));
      s := s.(red := c.red);
      AtStep(s, Beside(t, c));
      SetColor(parent, false, Branch(s, parent, c.red, t), c.up);
      ghost var d := InRight(s, parent, false, c.up);
      AtStep(s, Beside(t, d));
      if tmp.left != null {
        SetChildBlack(tmp.left, s, Beside(t, d));
      }
      s := s.(left := s.left.(red := false));
      AtStep(s, Beside(t, d));
      PaintedNodes(c.left, s);
      RotatedNodes(p, Branch(s, parent, false, t));
      RotateRight(parent, Branch(s, parent, false, t), c.up);
    }

    /** The round for a hole on the right, the sibling being black. */
    method RepayRight(sibling: Node, parent: Node, ghost t: Tree, ghost c: Context)
      returns (done: bool, ghost t': Tree, ghost c': Context)
      requires At(t, c) && Lacks(t, c) && Black(t) && c.InRight? && c.left.Branch? && !c.left.red
      requires parent == c.node && sibling == c.left.node
      modifies `root, Nodes(t), ContextNodes(c)
      ensures At(t', c') && All(t', c') == All(t, c) && Nodes(t') + ContextNodes(c') == Nodes(t) + ContextNodes(c)
      ensures c' == c.up && (if done then Repaired(t', c')
          else Lacks(t', c') && t'.Branch? && t'.node == parent && t'.red == c.red)
    {
      AtStep(t, c);
      AtStep(c.left, Beside(t, c));
      LeftPointer(c.left, Beside(t, c));
      RoundFacts(t, c);
      NodesInside(c.left, Beside(t, c));
      c' := c.up;
      if (sibling.left == null || !sibling.left.red) && (sibling.right == null || !sibling.right.red) {
        assert BlackNephews(c);
        hide Head.At, Nodes, ContextNodes, Lacks, Repaired, All, RedBlack, Fits;
        RedSibling(sibling, t, c);
        done, t' := false, LackMovedUp(t, c);
      } else {
        assert RedNephew(c);
        ghost var d := c;
        var tmp := sibling;
        t' := Repaid(t, c);
        hide Head.At, Nodes, ContextNodes, Lacks, Repaired, All, RedBlack, Fits;
        if tmp.left == null || !tmp.left.red {
          ghost var s := c.left;
          InnerNephewRight(tmp, s, Beside(t, c));
          d := c.(left := Branch(Branch(s.left, s.node, true, s.right.left), s.right.node, false, s.right.right));
          AtStep(d.left, Beside(t, d));
          AtStep(t, d);
          HoleParent(t, d);
          tmp := parent.left;
        }
        OuterNephewRight(tmp, parent, t, d);
        done := true;
      }
    }

    // ----- removal: the loop -----

    lemma LiftedNodesSame(t: Tree, c: Context)
      requires !c.Top? && Sibling(c).Branch?
      ensures Nodes(t) + ContextNodes(SiblingLifted(c)) == Nodes(t) + ContextNodes(c)
    {
      var s := Sibling(c);
      assert Nodes(s) == Nodes(s.left) + {s.node} + Nodes(s.right);
      assert ContextNodes(SiblingLifted(c)) == {c.node} + Nodes(s) + ContextNodes(c.up);
    }

    /** The code tells the sides apart by the parent's left pointer, which may be null. */
    lemma SidesDiffer(t: Tree, c: Context)
      requires At(t, c) && !c.Top? && Sibling(c).Branch?
      ensures (c.node.left == RootOf(t)) == c.InLeft?
    {
      assert Sibling(c).node in ContextNodes(c);
    }

    /** One round of the loop in RB_REMOVE_COLOR. */
    method RemoveColorOnce(elm: Node?, parent: Node, ghost t: Tree, ghost c: Context)
      returns (done: bool, ghost t': Tree, ghost c': Context)
      requires At(t, c) && Lacks(t, c) && Black(t) && !c.Top? && parent == c.node && elm == RootOf(t)
      modifies `root, Nodes(t), ContextNodes(c)
      ensures At(t', c') && All(t', c') == All(t, c) && Nodes(t') + ContextNodes(c') == Nodes(t) + ContextNodes(c)
      ensures if done then Repaired(t', c')
              else Lacks(t', c') && t'.Branch? && t'.node == parent && (t'.red || Depth(c') < Depth(c))
    {
      HoleParent(t, c);
      SidesDiffer(t, c);
      SiblingFacts(t, c);
      SiblingLiftedOrder(t, c);
      LiftedNodesSame(t, c);
      LeftPointer(Sibling(c), Beside(t, c)) by { AtStep(t, c); AtStep(Sibling(c), Beside(t, c)); }
      NodesInside(Sibling(c), Beside(t, c));
      hide Head.At, Nodes, ContextNodes, Lacks, Repaired, All, RedBlack, Fits, BlackHeight;
      ghost var d := c;
      if parent.left == elm {
        var tmp := parent.right;
        if tmp.red {
          LiftSiblingLeft(tmp, parent, t, c);
          d := SiblingLifted(c);
          HoleParent(t, d);
          tmp := parent.right;
        }
        done, t', c' := RepayLeft(tmp, parent, t, d);
      } else {
        var tmp := parent.left;
        if tmp.red {
          LiftSiblingRight(tmp, parent, t, c);
          d := SiblingLifted(c);
          HoleParent(t, d);
          tmp := parent.left;
        }
        done, t', c' := RepayRight(tmp, parent, t, d);
      }
    }

    lemma {:induction false} RootInContext(c: Context, t: Tree)
      requires !c.Top?
      ensures Plug(c, t).Branch? && Plug(c, t).node in ContextNodes(c)
      decreases c
    {
      if !c.up.Top? { RootInContext(c.up, Step(c, t)); }
    }

    lemma OnlyRootAtTop(t: Tree, c: Context)
      requires At(t, c) && (!c.Top? ==> Sibling(c).Branch?)
      ensures (RootOf(t) == root) == c.Top?
    {
      if !c.Top? {
        Zip(t, c);
        RootInContext(c, t);
      }
    }

    lemma RemovePointers(t: Tree, c: Context)
      requires At(t, c) && Lacks(t, c)
      ensures t.Branch? ==> t.node.red == t.red && t.node in Nodes(t) && t.node.parent == ParentOf(c)
      ensures (RootOf(t) == root) == c.Top?
    {
      if !c.Top? { SiblingFacts(t, c); }
      OnlyRootAtTop(t, c);
    }

    lemma WholeRepaired(t: Tree, c: Context) returns (whole: Tree)
      requires At(t, c) && Repaired(t, c)
      ensures At(whole, Top) && Repaired(whole, Top) && RootOf(whole) == root
      ensures All(whole, Top) == All(t, c) && Nodes(whole) + ContextNodes(Top) == Nodes(t) + ContextNodes(c)
      ensures whole.Branch? ==> root in Nodes(t) + ContextNodes(c)
    {
      Zip(t, c);
      whole := Plug(c, t);
      FlatPlug(c, t);
      PlugRedBlack(c, t, BlackHeight(t));
    }

    /** RB_REMOVE_COLOR */
    method RemoveColor(parent0: Node?, elm0: Node?, ghost t0: Tree, ghost c0: Context) returns (ghost t: Tree)
      requires At(t0, c0) && Lacks(t0, c0) && elm0 == RootOf(t0) && parent0 == ParentOf(c0)
      modifies `root, Nodes(t0), ContextNodes(c0)
      ensures At(t, Top) && RedBlack(t) && Black(t) && Flat(t) == All(t0, c0)
      ensures Nodes(t) == Nodes(t0) + ContextNodes(c0)
    {
      var elm, parent := elm0, parent0;
      ghost var c := c0;
      ghost var done := false;
      t := t0;
      RemovePointers(t, c);
      hide Head.At, All, Nodes, ContextNodes, Head.Around, Linked, Apart, ContextApart, RedBlack, Fits, BlackHeight,
          Lacks, Repaired;
      while (elm == null || !elm.red) && elm != root
        invariant At(t, c) && All(t, c) == All(t0, c0) && Nodes(t) + ContextNodes(c) == Nodes(t0) + ContextNodes(c0)
        invariant if done then Repaired(t, c) && c.Top? && elm == root == RootOf(t)
                  else Lacks(t, c) && elm == RootOf(t) && parent == ParentOf(c)
                       && (elm != null ==> elm.red == t.red && elm in Nodes(t)) && (elm == root <==> c.Top?)
        decreases if Black(t) then 1 + Depth(c) else 0
      {
        var stop;
        ghost var t1, c1;
        stop, t1, c1 := RemoveColorOnce(elm, parent, t, c);
        if stop {
          elm := root;
          t := WholeRepaired(t1, c1);
          c := Top;
          done := true;
          break;
        }
        t, c := t1, c1;
        RemovePointers(t, c);
        elm := parent;
        parent := elm.parent;
      }
      ghost var low := PaintedBlack(t);
      if elm != null {
        SetColor(elm, false, t, c);
      }
      if !done {
        RemoveEnds(t, c);
      } else {
        RepairedEnds(t);
      }
      PaintedBlackSame(t, c);
      Zip(low, c);
      FlatPlug(c, low);
      t := Plug(c, low);
    }
  }
}
