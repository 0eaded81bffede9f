/** RB_REMOVE: the node is unlinked, or its successor takes its place; then the colors are repaired. */
module RbRemoval {
  import opened RbAlgebra
  import opened RbTree
  import opened RbOperations

  ghost predicate OneChild(s: Tree) {
    s.Branch? && (s.left.Leaf? || s.right.Leaf?)
  }

  ghost function OnlyChild(s: Tree): Tree
    requires OneChild(s)
  {
    if s.left.Leaf? then s.right else s.left
  }

  /** The child takes the place of its parent elm. */
  method Unlink(head: Head, elm: Node, child: Node?, ghost s: Tree, ghost c: Context)
    requires head.At(s, c) && OneChild(s) && s.node == elm && child == RootOf(OnlyChild(s))
    modifies head, child, ParentOf(c)
    ensures head.At(OnlyChild(s), c)
    ensures elm.parent == old(elm.parent) && elm.red == old(elm.red)
  {
    ghost var only := OnlyChild(s);
    assert Linked(only, elm) && Apart(only) && (child != null ==> child in Nodes(only));
    if child != null {
      child.parent := elm.parent;
    }
    head.Redirect(elm, child, c);
    Moved(only, elm, elm.parent);
  }

  /** The pointers around a node with a left child. */
  lemma ReplacePointers(head: Head, t: Tree, c: Context)
    requires head.At(t, c) && t.Branch?
    ensures var l, r := RootOf(t.left), RootOf(t.right);
      && t.node.left == l && t.node.right == r && t.node.parent == ParentOf(c) && t.node.red == t.red
      && head.Around(c, t.node) && ContextApart(c) && t.node !in ContextNodes(c) && t.node in Nodes(t)
      && (l != null ==> l in Nodes(t) && l !in ContextNodes(c) && l != t.node && l != r)
      && (r != null ==> r in Nodes(t) && r !in ContextNodes(c) && r != t.node)
    ensures Linked(t, t.node.parent) && Apart(t) && Nodes(t) !! ContextNodes(c)
    ensures !c.Top? ==> ParentOf(c) in ContextNodes(c)
  {
    head.NotBoth(t, c);
  }

  /** Only the parents of the two children have changed below t's root. */
  twostate lemma Replaced(t: Tree, new c: Context, new parent: Node?, new elm: Node, new head: Head)
    requires old(allocated(Nodes(t))) && old(allocated(parent))
    requires old(Linked(t, parent)) && Apart(t) && ContextApart(c) && Nodes(t) !! ContextNodes(c)
    requires t.Branch? && elm !in Nodes(t) && elm !in ContextNodes(c) && head.Around(c, elm) && parent == ParentOf(c)
    requires elm.left == RootOf(t.left) && elm.right == RootOf(t.right) && elm.parent == parent && elm.red == t.red
    requires forall n :: n in {RootOf(t.left), RootOf(t.right)} && n != null ==>
      n.parent == elm && n.left == old(n.left) && n.right == old(n.right) && n.red == old(n.red)
    requires forall n :: n in Nodes(t) && n != t.node && n != RootOf(t.left) && n != RootOf(t.right) ==> Same(n)
    ensures head.At(Branch(t.left, elm, t.red, t.right), c)
  {
    hide Head.Around;
    Moved(t.left, t.node, elm);
    Moved(t.right, t.node, elm);
  }

  /** elm takes over the fields of the replaced node, whose neighbours point to elm. */
  method Replace(head: Head, replaced: Node, elm: Node, ghost t: Tree, ghost c: Context)
    requires head.At(t, c) && t.Branch? && t.node == replaced && t.left.Branch?
    requires elm !in Nodes(t) && elm !in ContextNodes(c)
    modifies head, elm, Nodes(t), ParentOf(c)
    ensures head.At(Branch(t.left, elm, t.red, t.right), c)
  {
    ReplacePointers(head, t, c);
    hide Head.At, Head.Around, Linked, Apart, ContextApart, ContextNodes, Nodes;
    var left, right := replaced.left, replaced.right;
    assert left == t.left.node && right == RootOf(t.right);
    elm.left, elm.right, elm.parent, elm.red := left, right, replaced.parent, replaced.red;
    head.Redirect(replaced, elm, c);
    left.parent := elm;
    if right != null {
      right.parent := elm;
    }
    Replaced(t, c, elm.parent, elm, head);
  }

  lemma {:induction false} ZipPart(head: Head, low: Context, high: Context, t: Tree)
    ensures head.At(t, Join(low, high)) <==> head.At(Plug(low, t), high)
    ensures Nodes(t) + ContextNodes(Join(low, high)) == Nodes(Plug(low, t)) + ContextNodes(high)
    decreases low
  {
    if !low.Top? {
      head.AtStep(t, Join(low, high));
      ZipPart(head, low.up, high, Step(low, t));
    }
  }

  // ----- what is left in the tree -----

  /** t' holds what t holds, in order, but for elm. */
  ghost predicate Lost(was: seq<Node>, elm: Node, now: seq<Node>) {
    exists i :: 0 <= i < |was| && was[i] == elm && now == was[..i] + was[i + 1..]
  }

  lemma SortedRemove(a: seq<Node>, n: Node, b: seq<Node>, cmp: Cmp)
    requires Sorted(a + [n] + b, cmp)
    ensures Sorted(a + b, cmp)
  {
    var s, s' := a + [n] + b, a + b;
    forall i, j | 0 <= i < j < |s'| ensures Less(cmp, s'[i].key, s'[j].key) {
      var x, y := if i < |a| then i else i + 1, if j < |a| then j else j + 1;
      assert s[x] == s'[i] && s[y] == s'[j];
    }
  }

  lemma LostSorted(was: seq<Node>, elm: Node, now: seq<Node>, cmp: Cmp)
    requires Sorted(was, cmp) && Lost(was, elm, now)
    ensures Sorted(now, cmp)
  {
    var i :| 0 <= i < |was| && was[i] == elm && now == was[..i] + was[i + 1..];
    assert was == was[..i] + [elm] + was[i + 1..];
    SortedRemove(was[..i], elm, was[i + 1..], cmp);
  }

  lemma LostNode(was: seq<Node>, elm: Node, now: seq<Node>, n: Node, cmp: Cmp)
    requires Ordering(cmp)
    requires Sorted(was, cmp) && Lost(was, elm, now)
    ensures n in now <==> n in was && n != elm
  {
    Asymmetric(cmp, elm.key, elm.key);
    var i :| 0 <= i < |was| && was[i] == elm && now == was[..i] + was[i + 1..];
    var a, b := was[..i], was[i + 1..];
    assert was == a + [elm] + b;
    SortedSplit(a, elm, b, cmp);
    hide Sorted;
  }

  lemma LostInOrder(t: Tree, elm: Node, t': Tree, cmp: Cmp)
    requires Ordering(cmp)
    requires Sorted(Flat(t), cmp) && Lost(Flat(t), elm, Flat(t'))
    ensures Sorted(Flat(t'), cmp) && Nodes(t') == Nodes(t) - {elm}
  {
    hide Sorted, Lost, Flat, Nodes;
    LostSorted(Flat(t), elm, Flat(t'), cmp);
    forall n | n in Nodes(t') ensures n in Nodes(t) - {elm} {
      FlatNode(t, n);
      FlatNode(t', n);
      LostNode(Flat(t), elm, Flat(t'), n, cmp);
    }
    forall n | n in Nodes(t) - {elm} ensures n in Nodes(t') {
      FlatNode(t, n);
      FlatNode(t', n);
      LostNode(Flat(t), elm, Flat(t'), n, cmp);
    }
  }

  lemma Loses(a: seq<Node>, elm: Node, b: seq<Node>)
    ensures Lost(a + [elm] + b, elm, a + b)
  {
    var s := a + [elm] + b;
    assert s[|a|] == elm && a + b == s[..|a|] + s[|a| + 1..];
  }

  lemma UnlinkLoses(s: Tree, c: Context)
    requires OneChild(s)
    ensures Lost(All(s, c), s.node, All(OnlyChild(s), c))
  {
    var a, b := Before(c) + Flat(s.left), Flat(s.right) + After(c);
    Regroup([], Before(c) + Flat(s.left), [s.node], Flat(s.right), After(c));
    assert All(s, c) == a + [s.node] + b;
    assert All(OnlyChild(s), c) == a + b;
    Loses(a, s.node, b);
  }

  /** A red node with at most one child has none; a black one leaves a lack behind. */
  lemma UnlinkFits(t: Tree, s: Tree, c: Context)
    requires RedBlack(t) && Black(t) && t == Plug(c, s) && OneChild(s)
    ensures s.red ==> RedBlack(Plug(c, OnlyChild(s))) && Black(Plug(c, OnlyChild(s)))
    ensures !s.red ==> Lacks(OnlyChild(s), c)
  {
    PlugFits(c, s);
    if s.red {
      assert OnlyChild(s).Leaf?;
      PlugRedBlack(c, OnlyChild(s), 0);
    }
  }

  // ----- the successor takes the node's place -----

  lemma {:induction false} JoinShape(low: Context, left: Tree, n: Node, m: Node, red: bool, c: Context)
    ensures var x, y := Join(low, InRight(left, n, red, c)), Join(low, InRight(left, m, red, c));
      !x.Top? && !y.Top? && x.red == y.red
  {
  }

  lemma {:induction false} FitsIgnoresNode(low: Context, left: Tree, n: Node, m: Node, red: bool, c: Context, h: nat)
    requires Fits(Join(low, InRight(left, n, red, c)), h)
    ensures Fits(Join(low, InRight(left, m, red, c)), h)
    decreases low
  {
    if !low.Top? {
      FitsIgnoresNode(low.up, left, n, m, red, c, if low.red then h else h + 1);
      JoinShape(low.up, left, n, m, red, c);
    }
  }

  lemma {:induction false} PlugIgnoresNode(low: Context, left: Tree, n: Node, m: Node, red: bool, c: Context, t: Tree)
    requires RedBlack(Plug(Join(low, InRight(left, n, red, c)), t))
        && Black(Plug(Join(low, InRight(left, n, red, c)), t))
    ensures RedBlack(Plug(Join(low, InRight(left, m, red, c)), t))
        && Black(Plug(Join(low, InRight(left, m, red, c)), t))
  {
    var x, y := Join(low, InRight(left, n, red, c)), Join(low, InRight(left, m, red, c));
    PlugFits(x, t);
    FitsIgnoresNode(low, left, n, m, red, c, BlackHeight(t));
    JoinShape(low, left, n, m, red, c);
    PlugRedBlack(y, t, BlackHeight(t));
  }

  lemma {:induction false} BeforeJoin(low: Context, high: Context)
    ensures Before(Join(low, high)) == Before(high) + Before(low)
    ensures After(Join(low, high)) == After(low) + After(high)
    decreases low
  {
    if !low.Top? { BeforeJoin(low.up, high); }
  }

  lemma SuccessorOrder(s: Tree, u: Tree, low: Context, c: Context)
    requires s.Branch? && s.right == Plug(low, u) && Before(low) == [] && u.Branch? && u.left.Leaf?
    ensures Flat(s.right) == [u.node] + (Flat(u.right) + After(low))
  {
    FlatPlug(low, u);
    assert Flat(u) == [u.node] + Flat(u.right);
    hide Flat, Before, After, Plug;
  }

  lemma SuccessorContext(s: Tree, u: Tree, low: Context, c: Context)
    requires s.Branch? && Before(low) == [] && u.Branch?
    ensures var d := Join(low, InRight(s.left, u.node, s.red, c));
      Before(d) == Before(c) + Flat(s.left) + [u.node] && After(d) == After(low) + After(c)
  {
    var up := InRight(s.left, u.node, s.red, c);
    BeforeJoin(low, up);
    assert Before(up) == Before(c) + Flat(s.left) + [u.node] && After(up) == After(c);
    hide Flat, Before, After, Join;
  }

  lemma SpliceOrder(p: seq<Node>, l: seq<Node>, n: seq<Node>, r: seq<Node>, q: seq<Node>, m: seq<Node>, x: seq<Node>,
      y: seq<Node>)
    ensures r == m + (x + y) ==> p + (l + n + r) + q == p + l + n + (m + (x + y) + q)
    ensures (p + l + m) + x + (y + q) == p + l + (m + (x + y) + q)
  {
  }

  /** Order and contents when the successor, with nothing before it, moves up. */
  lemma SuccessorLoses(s: Tree, u: Tree, low: Context, c: Context)
    requires s.Branch? && s.right == Plug(low, u) && Before(low) == [] && u.Branch? && u.left.Leaf?
    ensures Lost(All(s, c), s.node, All(u.right, Join(low, InRight(s.left, u.node, s.red, c))))
  {
    SuccessorOrder(s, u, low, c);
    SuccessorContext(s, u, low, c);
    assert Flat(s) == Flat(s.left) + [s.node] + Flat(s.right);
    hide Flat, Before, After, Plug, Lost, Join;
    SpliceOrder(Before(c), Flat(s.left), [s.node], Flat(s.right), After(c), [u.node], Flat(u.right), After(low));
    Loses(Before(c) + Flat(s.left), s.node, [u.node] + (Flat(u.right) + After(low)) + After(c));
  }

  // ----- RB_REMOVE -----

  /** Colors are repaired when the node that left its place was black. */
  method Finish(head: Head, parent: Node?, child: Node?, color: bool, ghost t: Tree, ghost c: Context)
    returns (ghost t': Tree)
    requires head.At(t, c) && child == RootOf(t) && parent == ParentOf(c)
    requires if color then RedBlack(Plug(c, t)) && Black(Plug(c, t)) else Lacks(t, c)
    modifies head, Nodes(t), ContextNodes(c)
    ensures head.At(t', Top) && RedBlack(t') && Black(t') && Flat(t') == All(t, c)
  {
    if !color {
      t' := head.RemoveColor(parent, child, t, c);
    } else {
      head.Zip(t, c);
      FlatPlug(c, t);
      t' := Plug(c, t);
    }
  }

  /** A node with at most one child. */
  method RemoveSimple(head: Head, elm: Node, ghost t: Tree, ghost s: Tree, ghost c: Context, ghost cmp: Cmp)
    returns (ghost t': Tree)
    requires Ordering(cmp) && Holds(head, t, cmp) && t == Plug(c, s) && head.At(s, c) && OneChild(s) && s.node == elm
    requires Nodes(s) + ContextNodes(c) == Nodes(t)
    modifies head, Nodes(t)
    ensures Holds(head, t', cmp) && Nodes(t') == Nodes(t) - {elm}
  {
    head.LeftPointer(s, c);
    head.HolePointer(s, c);
    UnlinkFits(t, s, c);
    UnlinkLoses(s, c);
    FlatPlug(c, s);
    ghost var only := OnlyChild(s);
    assert Nodes(only) <= Nodes(t) && (only.Branch? ==> only.node in Nodes(t));
    hide Head.At, Nodes, ContextNodes, RedBlack, Lacks, Black, Sorted, Lost;
    var child := if elm.left == null then elm.right else elm.left;
    var parent := elm.parent;
    var color := elm.red;
    Unlink(head, elm, child, s, c);
    t' := Finish(head, parent, child, color, only, c);
    LostInOrder(t, elm, t', cmp);
  }

  /** The leftmost node of the right subtree. */
  method Leftmost(ghost head: Head, replaced: Node, ghost s: Tree, ghost c: Context)
    returns (elm: Node, ghost u: Tree, ghost low: Context)
    requires head.At(s, c) && s.Branch? && s.node == replaced && s.right.Branch?
    ensures u.Branch? && u.left.Leaf? && elm == u.node && s.right == Plug(low, u) && Before(low) == []
    ensures head.At(u, Join(low, InRight(s.left, replaced, s.red, c)))
  {
    ghost var up := InRight(s.left, replaced, s.red, c);
    head.LeftPointer(s, c);
    head.GoRight(s.left, s.node, s.red, s.right, c);
    elm, u, low := replaced.right, s.right, Top;
    head.LeftPointer(u, up);
    hide Head.At;
    var left := elm.left;
    while left != null
      invariant head.At(u, Join(low, up)) && u.Branch? && elm == u.node && left == RootOf(u.left)
      invariant s.right == Plug(low, u) && Before(low) == []
      decreases u
    {
      elm := left;
      head.GoLeft(u.left, u.node, u.red, u.right, Join(low, up));
      u, low := u.left, InLeft(u.node, u.red, u.right, low);
      head.LeftPointer(u, Join(low, up));
      left := elm.left;
    }
  }

  /** The tree after the successor has moved up, seen from the place that the successor left. */
  ghost function Spliced(s: Tree, u: Tree, low: Context, c: Context): Context
    requires s.Branch? && u.Branch?
  {
    Join(low, InRight(s.left, u.node, s.red, c))
  }

  lemma SpliceFits(t: Tree, s: Tree, u: Tree, low: Context, c: Context)
    requires RedBlack(t) && Black(t) && t == Plug(c, s) && s.Branch? && s.right == Plug(low, u) && OneChild(u)
    ensures var d := Spliced(s, u, low, c);
      if u.red then RedBlack(Plug(d, OnlyChild(u))) && Black(Plug(d, OnlyChild(u))) else Lacks(OnlyChild(u), d)
  {
    var replaced := Join(low, InRight(s.left, s.node, s.red, c));
    PlugJoin(low, InRight(s.left, s.node, s.red, c), u);
    assert Plug(replaced, u) == t;
    UnlinkFits(t, u, replaced);
    if u.red {
      PlugIgnoresNode(low, s.left, s.node, u.node, s.red, c, OnlyChild(u));
    } else {
      FitsIgnoresNode(low, s.left, s.node, u.node, s.red, c, BlackHeight(OnlyChild(u)) + 1);
    }
  }

  /** The old node's subtree, its successor having left it. */
  ghost function Left(s: Tree, u: Tree, low: Context): (w: Tree)
    requires s.Branch? && u.Branch?
    ensures w.Branch?
  {
    Branch(s.left, s.node, s.red, Plug(low, u.right))
  }

  /** Where everything is just before the successor takes over. */
  lemma BeforeTakeover(head: Head, s: Tree, u: Tree, low: Context, c: Context)
    requires s.Branch? && u.Branch? && head.At(u.right, Join(low, InRight(s.left, s.node, s.red, c)))
    ensures head.At(Left(s, u, low), c)
  {
    ZipPart(head, low, InRight(s.left, s.node, s.red, c), u.right);
    head.GoRight(s.left, s.node, s.red, Plug(low, u.right), c);
  }

  /** And just after. */
  lemma AfterTakeover(head: Head, s: Tree, u: Tree, low: Context, c: Context)
    requires s.Branch? && u.Branch? && head.At(Branch(s.left, u.node, s.red, Plug(low, u.right)), c)
    ensures head.At(u.right, Spliced(s, u, low, c))
    ensures ParentOf(Spliced(s, u, low, c)) == if low.Top? then u.node else low.node
    ensures Nodes(u.right) + ContextNodes(Spliced(s, u, low, c)) ==
            Nodes(Branch(s.left, u.node, s.red, Plug(low, u.right))) + ContextNodes(c)
  {
    ZipPart(head, low, InRight(s.left, u.node, s.red, c), u.right);
    head.GoRight(s.left, u.node, s.red, Plug(low, u.right), c);
  }

  lemma {:induction false} LowNodes(low: Context, u: Tree)
    ensures Nodes(Plug(low, u)) == Nodes(u) + ContextNodes(low)
    decreases low
  {
    if !low.Top? { LowNodes(low.up, Step(low, u)); }
  }

  /** Where a node without left child is plugged in, its right child may take its place. */
  lemma SpliceNodes(low: Context, u: Tree)
    requires u.Branch? && u.left.Leaf? && Apart(u) && Nodes(u) !! ContextNodes(low)
    ensures Nodes(Plug(low, u)) == Nodes(Plug(low, u.right)) + {u.node} && u.node !in Nodes(Plug(low, u.right))
    ensures u.right.Branch? ==> u.right.node in Nodes(Plug(low, u.right))
    ensures !low.Top? ==> low.node in Nodes(Plug(low, u.right)) && low.node in Nodes(Plug(low, u))
  {
    LowNodes(low, u);
    LowNodes(low, u.right);
    assert Nodes(u) == Nodes(u.right) + {u.node};
  }

  lemma TopNodes(s: Tree)
    requires s.Branch?
    ensures Nodes(s) == Nodes(s.left) + {s.node} + Nodes(s.right)
  {
  }

  lemma TopApart(s: Tree)
    requires s.Branch? && Apart(s)
    ensures s.node !in Nodes(s.left) && s.node !in Nodes(s.right) && Nodes(s.left) !! Nodes(s.right)
  {
  }

  /** The successor occurs nowhere else. */
  lemma SuccessorApart(s: Tree, u: Tree, low: Context, c: Context)
    requires Apart(s) && s.Branch? && u.Branch? && u.left.Leaf? && s.right == Plug(low, u)
        && Nodes(s) !! ContextNodes(c)
    requires Nodes(u) !! ContextNodes(low) && Apart(u)
    ensures u.node !in Nodes(Left(s, u, low)) && u.node !in ContextNodes(c)
    ensures Nodes(Left(s, u, low)) + {u.node} == Nodes(s)
    ensures u.right.Branch? ==> u.right.node in Nodes(Left(s, u, low))
    ensures !low.Top? ==> low.node in Nodes(s.right) && low.node in Nodes(Left(s, u, low)) && low.node != s.node
    ensures s.node in Nodes(Left(s, u, low))
  {
    hide ContextNodes, Plug, Apart, Nodes;
    SpliceNodes(low, u);
    TopNodes(s);
    TopNodes(Left(s, u, low));
    TopApart(s);
  }

  lemma {:induction false} JoinNodes(low: Context, high: Context)
    ensures ContextNodes(Join(low, high)) == ContextNodes(low) + ContextNodes(high)
    decreases low
  {
    if !low.Top? { JoinNodes(low.up, high); }
  }

  /** What the successor's pointers are. */
  lemma SuccessorPointers(head: Head, s: Tree, u: Tree, low: Context, c: Context)
    requires u.Branch? && s.Branch? && head.At(u, Join(low, InRight(s.left, s.node, s.red, c)))
    ensures u.node.red == u.red && u.node.right == RootOf(u.right)
    ensures u.node.parent == ParentOf(Join(low, InRight(s.left, s.node, s.red, c)))
    ensures u.node.parent == if low.Top? then s.node else low.node
    ensures Nodes(u) !! ContextNodes(low) && Apart(u)
  {
    var up := InRight(s.left, s.node, s.red, c);
    head.LeftPointer(u, Join(low, up));
    head.HolePointer(u, Join(low, up));
    JoinNodes(low, up);
  }

  lemma TakeoverNodes(head: Head, s: Tree, u: Tree, low: Context, c: Context)
    requires s.Branch? && u.Branch? && head.At(Left(s, u, low), c)
    ensures Nodes(Branch(s.left, u.node, s.red, Plug(low, u.right))) == Nodes(Left(s, u, low)) - {s.node} + {u.node}
  {
    assert Apart(Left(s, u, low));
  }

  /** The successor, already out of its place, takes over the old node's fields. */
  method TakeOver(head: Head, replaced: Node, elm: Node, ghost s: Tree, ghost u: Tree, ghost low: Context,
      ghost c: Context)
    requires s.Branch? && u.Branch? && s.left.Branch? && replaced == s.node && elm == u.node
    requires head.At(u.right, Join(low, InRight(s.left, replaced, s.red, c)))
    requires elm !in Nodes(Left(s, u, low)) && elm !in ContextNodes(c)
    modifies head, elm, Nodes(Left(s, u, low)), ParentOf(c)
    ensures head.At(u.right, Spliced(s, u, low, c))
    ensures ParentOf(Spliced(s, u, low, c)) == if low.Top? then elm else low.node
    ensures Nodes(u.right) + ContextNodes(Spliced(s, u, low, c)) ==
            Nodes(Left(s, u, low)) - {replaced} + {elm} + ContextNodes(c)
  {
    BeforeTakeover(head, s, u, low, c);
    TakeoverNodes(head, s, u, low, c);
    hide Head.At, Nodes, ContextNodes, Spliced;
    Replace(head, replaced, elm, Left(s, u, low), c);
    AfterTakeover(head, s, u, low, c);
  }

  /** A node with two children: its successor takes its place. */
  method RemoveInner(head: Head, replaced: Node, ghost t: Tree, ghost s: Tree, ghost c: Context, ghost cmp: Cmp)
    returns (ghost t': Tree)
    requires Ordering(cmp) && Holds(head, t, cmp) && t == Plug(c, s) && head.At(s, c) && s.Branch? && s.node == replaced
    requires s.left.Branch? && s.right.Branch? && Nodes(s) + ContextNodes(c) == Nodes(t)
    modifies head, Nodes(t)
    ensures Holds(head, t', cmp) && Nodes(t') == Nodes(t) - {replaced}
  {
    var elm;
    ghost var u, low;
    assert allocated(Nodes(t)) && allocated(Nodes(s)) && allocated(ContextNodes(c));
    elm, u, low := Leftmost(head, replaced, s, c);
    ghost var full, d := Join(low, InRight(s.left, replaced, s.red, c)), Spliced(s, u, low, c);
    SuccessorPointers(head, s, u, low, c);
    SuccessorApart(s, u, low, c);
    SpliceFits(t, s, u, low, c);
    SuccessorLoses(s, u, low, c);
    FlatPlug(c, s);
    head.NodesInside(s, c);
    hide Head.At, Nodes, ContextNodes, RedBlack, Lacks, Black, Sorted, Lost, Spliced, Left;
    var child := elm.right;
    var parent := elm.parent;
    var color := elm.red;
    Unlink(head, elm, child, u, full);
    if elm.parent == replaced {
      parent := elm;
    }
    TakeOver(head, replaced, elm, s, u, low, c);
    t' := Finish(head, parent, child, color, u.right, d);
    LostInOrder(t, replaced, t', cmp);
  }

  /** RB_REMOVE */
  method Remove(head: Head, elm: Node, ghost t: Tree, ghost cmp: Cmp) returns (removed: Node, ghost t': Tree)
    requires Ordering(cmp) && Holds(head, t, cmp) && elm in Nodes(t)
    modifies head, Nodes(t)
    ensures Holds(head, t', cmp) && Nodes(t') == Nodes(t) - {elm} && removed == elm
  {
    ghost var s, c := PlaceOf(t, Top, elm);
    head.Zip(s, c);
    head.LeftPointer(s, c);
    hide Head.At, Nodes, ContextNodes, RedBlack, Black, Sorted;
    if elm.left == null || elm.right == null {
      t' := RemoveSimple(head, elm, t, s, c, cmp);
    } else {
      t' := RemoveInner(head, elm, t, s, c, cmp);
    }
    removed := elm;
  }
}
