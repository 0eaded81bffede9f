/** RB_INSERT, RB_REMOVE, RB_FIND, RB_NFIND, RB_NEXT, RB_PREV and RB_MINMAX. */
module RbOperations {
  import opened RbAlgebra
  import opened RbTree

  /** The heap below `head` is the red-black search tree t. */
  ghost predicate Holds(head: Head, t: Tree, cmp: Cmp)
    reads head, Nodes(t)
  {
    head.At(t, Top) && RedBlack(t) && Black(t) && Sorted(Flat(t), cmp)
  }

  lemma {:induction false} FlatNodes(t: Tree)
    ensures forall n :: n in Flat(t) <==> n in Nodes(t)
  {
    if t.Branch? {
      FlatNodes(t.left);
      FlatNodes(t.right);
    }
  }

  lemma FlatNode(t: Tree, n: Node)
    ensures n in Flat(t) <==> n in Nodes(t)
  {
    FlatNodes(t);
  }

  /** What lies before the hole is less than key, what lies after it is greater. */
  ghost predicate Between(c: Context, key: int, cmp: Cmp) {
    (forall n :: n in Before(c) ==> Less(cmp, n.key, key)) && (forall n :: n in After(c) ==> Less(cmp, key, n.key))
  }

  lemma SortedSplit(a: seq<Node>, n: Node, b: seq<Node>, cmp: Cmp)
    ensures Sorted(a + [n] + b, cmp) ==> forall m :: m in a ==> Less(cmp, m.key, n.key)
    ensures Sorted(a + [n] + b, cmp) ==> forall m :: m in b ==> Less(cmp, n.key, m.key)
  {
    var s := a + [n] + b;
    if Sorted(s, cmp) {
      assert s[|a|] == n;
      forall m | m in a ensures Less(cmp, m.key, n.key) {
        var i :| 0 <= i < |a| && a[i] == m;
        assert s[i] == m;
      }
      forall m | m in b ensures Less(cmp, n.key, m.key) {
        var i :| 0 <= i < |b| && b[i] == m;
        assert s[|a| + 1 + i] == m;
      }
    }
  }

  lemma SortedParts(t: Tree, c: Context, cmp: Cmp)
    requires t.Branch? && Sorted(All(t, c), cmp)
    ensures forall n :: n in Flat(t.left) ==> Less(cmp, n.key, t.node.key)
    ensures forall n :: n in Flat(t.right) ==> Less(cmp, t.node.key, n.key)
  {
    SortedSplit(Before(c) + Flat(t.left), t.node, Flat(t.right) + After(c), cmp);
    assert All(t, c) == (Before(c) + Flat(t.left)) + [t.node] + (Flat(t.right) + After(c));
  }

  lemma SortedInsert(a: seq<Node>, n: Node, b: seq<Node>, cmp: Cmp)
    requires Sorted(a + b, cmp) && (forall m :: m in a ==> Less(cmp, m.key, n.key))
        && (forall m :: m in b ==> Less(cmp, n.key, m.key))
    ensures Sorted(a + [n] + b, cmp)
  {
    var s, s' := a + b, a + [n] + b;
    forall i, j | 0 <= i < j < |s'| ensures Less(cmp, s'[i].key, s'[j].key) {
      if j < |a| { assert s'[i] == s[i] && s'[j] == s[j]; }
      else if i > |a| { assert s'[i] == s[i - 1] && s'[j] == s[j - 1]; }
      else if i < |a| < j { assert s'[i] == s[i] && s'[j] == s[j - 1]; }
    }
  }

  /** To the left the hole's place is still the right one for the key. */
  lemma BetweenLeft(t: Tree, c: Context, key: int, cmp: Cmp)
    requires Ordering(cmp) && t.Branch? && Between(c, key, cmp) && Sorted(All(t, c), cmp) && Less(cmp, key, t.node.key)
    ensures Between(InLeft(t.node, t.red, t.right, c), key, cmp)
  {
    SortedParts(t, c, cmp);
    hide Sorted, Ordering, All;
    forall n | n in Flat(t.right) ensures Less(cmp, key, n.key) {
      Asymmetric(cmp, t.node.key, n.key);
      Transitive(cmp, key, t.node.key, n.key);
    }
  }

  lemma BetweenRight(t: Tree, c: Context, key: int, cmp: Cmp)
    requires Ordering(cmp) && t.Branch? && Between(c, key, cmp) && Sorted(All(t, c), cmp) && Less(cmp, t.node.key, key)
    ensures Between(InRight(t.left, t.node, t.red, c), key, cmp)
  {
    SortedParts(t, c, cmp);
    hide Sorted, Ordering, All;
    forall n | n in Flat(t.left) ensures Less(cmp, n.key, key) {
      Asymmetric(cmp, t.node.key, key);
      Transitive(cmp, n.key, t.node.key, key);
    }
  }

  lemma GoDown(head: Head, t: Tree, c: Context, key: int, cmp: Cmp)
    requires Ordering(cmp) && head.At(t, c) && t.Branch? && Between(c, key, cmp) && Sorted(All(t, c), cmp)
    ensures cmp(key, t.node.key) < 0 ==>
      var d := InLeft(t.node, t.red, t.right, c);
        head.At(t.left, d) && Between(d, key, cmp) && All(t.left, d) == All(t, c)
    ensures cmp(key, t.node.key) > 0 ==>
      var d := InRight(t.left, t.node, t.red, c);
        head.At(t.right, d) && Between(d, key, cmp) && All(t.right, d) == All(t, c)
    ensures t.node.left == RootOf(t.left) && t.node.right == RootOf(t.right)
  {
    Asymmetric(cmp, key, t.node.key);
    if Less(cmp, key, t.node.key) { BetweenLeft(t, c, key, cmp); }
    if Less(cmp, t.node.key, key) { BetweenRight(t, c, key, cmp); }
    hide Between, Sorted, Ordering;
    AllStep(t.left, InLeft(t.node, t.red, t.right, c));
    AllStep(t.right, InRight(t.left, t.node, t.red, c));
    head.GoLeft(t.left, t.node, t.red, t.right, c);
    head.GoRight(t.left, t.node, t.red, t.right, c);
  }

  /** RB_SET, and the new node hangs in the hole. */
  method Hang(head: Head, elm: Node, parent: Node?, comp: int, ghost c: Context)
    requires head.At(Leaf, c) && elm !in ContextNodes(c) && parent == ParentOf(c)
    requires parent != null ==> (comp < 0) == c.InLeft?
    modifies head, parent, elm
    ensures head.At(Branch(Leaf, elm, true, Leaf), c)
  {
    elm.parent := parent;
    elm.left, elm.right := null, null;
    elm.red := true;
    if parent != null {
      if comp < 0 {
        parent.left := elm;
      } else {
        parent.right := elm;
      }
    } else {
      head.root := elm;
    }
  }

  lemma HangsInOrder(t: Tree, elm: Node, c: Context, cmp: Cmp)
    requires t == Plug(c, Leaf) && Sorted(Flat(t), cmp) && Between(c, elm.key, cmp)
    ensures Sorted(All(Branch(Leaf, elm, true, Leaf), c), cmp)
  {
    FlatPlug(c, Leaf);
    assert Flat(t) == Before(c) + After(c);
    assert All(Branch(Leaf, elm, true, Leaf), c) == Before(c) + [elm] + After(c);
    hide Sorted, Before, After, Flat;
    SortedInsert(Before(c), elm, After(c), cmp);
  }

  lemma HoleNodes(t: Tree, c: Context, key: int, cmp: Cmp)
    requires Ordering(cmp)
    requires t == Plug(c, Leaf) && Between(c, key, cmp)
    ensures forall n :: n in Nodes(t) ==> cmp(key, n.key) != 0
  {
    FlatPlug(c, Leaf);
    assert Flat(t) == Before(c) + After(c);
    hide Flat, Nodes, Before, After;
    forall n | n in Nodes(t) ensures cmp(key, n.key) != 0 {
      FlatNode(t, n);
      Asymmetric(cmp, key, n.key);
      assert n in Before(c) || n in After(c);
    }
  }

  lemma HangsBalanced(t: Tree, elm: Node, c: Context)
    requires RedBlack(t) && Black(t) && t == Plug(c, Leaf)
    ensures var leaf := Branch(Leaf, elm, true, Leaf); RedBlack(leaf) && Fits(c, BlackHeight(leaf))
  {
    PlugFits(c, Leaf);
  }

  /** The loop of RB_INSERT: down to an equal key, or to the hole where the key belongs. */
  method FindHole(head: Head, key: int, ghost t: Tree, cmp: Cmp)
    returns (existing: Node?, parent: Node?, comp: int, ghost c: Context)
    requires Ordering(cmp) && Holds(head, t, cmp)
    ensures existing != null ==> existing in Nodes(t) && cmp(key, existing.key) == 0
    ensures existing == null ==>
      && head.At(Leaf, c) && Plug(c, Leaf) == t && Between(c, key, cmp)
      && parent == ParentOf(c) && (parent != null ==> (comp < 0) == c.InLeft? && parent in Nodes(t))
  {
    var tmp := head.root;
    parent, comp, existing := null, 0, null;
    ghost var s := t;
    c := Top;
    hide Head.At, Before, After, RedBlack, Fits, BlackHeight, Sorted;
    while tmp != null
      invariant head.At(s, c) && Plug(c, s) == t && All(s, c) == Flat(t) && Between(c, key, cmp)
      invariant tmp == RootOf(s) && parent == ParentOf(c) && (parent != null ==> (comp < 0) == c.InLeft?)
      invariant Nodes(s) + ContextNodes(c) == Nodes(t)
      decreases s
    {
      GoDown(head, s, c, key, cmp);
      parent := tmp;
      comp := cmp(key, parent.key);
      if comp < 0 {
        tmp := tmp.left;
        s, c := s.left, InLeft(s.node, s.red, s.right, c);
      } else if comp > 0 {
        tmp := tmp.right;
        s, c := s.right, InRight(s.left, s.node, s.red, c);
      } else {
        existing := tmp;
        return;
      }
    }
  }

  /** RB_INSERT */
  method Insert(head: Head, elm: Node, ghost t: Tree, cmp: Cmp) returns (existing: Node?, ghost t': Tree)
    requires Ordering(cmp) && Holds(head, t, cmp) && elm !in Nodes(t)
    modifies head, Nodes(t), elm
    ensures Holds(head, t', cmp)
    ensures existing != null ==> existing in Nodes(t) && cmp(elm.key, existing.key) == 0 && t' == t && unchanged(elm)
    ensures existing == null ==>
        (forall n :: n in Nodes(t) ==> cmp(elm.key, n.key) != 0) && Nodes(t') == Nodes(t) + {elm}
  {
    var parent, comp;
    ghost var c;
    assert allocated(Nodes(t));
    existing, parent, comp, c := FindHole(head, elm.key, t, cmp);
    if existing != null {
      assert Holds(head, t, cmp);
      return existing, t;
    }
    ghost var leaf := Branch(Leaf, elm, true, Leaf);
    HangsInOrder(t, elm, c, cmp);
    HoleNodes(t, c, elm.key, cmp);
    head.Zip(Leaf, c);
    HangsBalanced(t, elm, c);
    assert Nodes(leaf) == {elm};
    hide Head.At, All, RedBlack, Fits, BlackHeight, Sorted, Flat;
    Hang(head, elm, parent, comp, c);
    t' := head.InsertColor(elm, leaf, c);
  }

  /** RB_FIND */
  method Find(head: Head, key: int, ghost t: Tree, cmp: Cmp) returns (found: Node?)
    requires Ordering(cmp) && Holds(head, t, cmp)
    ensures found != null ==> found in Nodes(t) && cmp(key, found.key) == 0
    ensures found == null ==> forall n :: n in Nodes(t) ==> cmp(key, n.key) != 0
  {
    var tmp := head.root;
    ghost var s, c := t, Top;
    hide Head.At, Before, After, RedBlack, BlackHeight, Sorted;
    while tmp != null
      invariant head.At(s, c) && Plug(c, s) == t && All(s, c) == Flat(t) && Between(c, key, cmp)
      invariant tmp == RootOf(s) && Nodes(s) + ContextNodes(c) == Nodes(t)
      decreases s
    {
      GoDown(head, s, c, key, cmp);
      var comp := cmp(key, tmp.key);
      if comp < 0 {
        tmp := tmp.left;
        s, c := s.left, InLeft(s.node, s.red, s.right, c);
      } else if comp > 0 {
        tmp := tmp.right;
        s, c := s.right, InRight(s.left, s.node, s.red, c);
      } else {
        return tmp;
      }
    }
    HoleNodes(t, c, key, cmp);
    return null;
  }

  /** The first node after the hole, if there is one. */
  ghost function NextUp(c: Context): Node? {
    if After(c) == [] then null else After(c)[0]
  }

  lemma ExactIsFirst(t: Tree, s: Tree, c: Context)
    requires s.Branch? && t == Plug(c, s)
    ensures s.node in Nodes(t)
  {
    FlatPlug(c, s);
    FlatNodes(t);
    assert s.node in Flat(s);
    assert s.node in Flat(t);
  }

  lemma FlatHole(t: Tree, c: Context)
    requires t == Plug(c, Leaf)
    ensures Flat(t) == Before(c) + After(c)
  {
    FlatPlug(c, Leaf);
    assert Flat(Leaf) == [] && Before(c) + [] == Before(c);
  }

  /** Of the nodes in two parts of an ordered sequence, the first of the second part. */
  lemma FirstAfter(b: seq<Node>, a: seq<Node>, key: int, cmp: Cmp)
    requires Ordering(cmp)
    requires Sorted(b + a, cmp) && (forall n :: n in b ==> Less(cmp, n.key, key))
        && (forall n :: n in a ==> Less(cmp, key, n.key))
    ensures a == [] ==> forall n :: n in b + a ==> Less(cmp, n.key, key)
    ensures a != [] ==>
        && a[0] in b + a && !Less(cmp, a[0].key, key)
        && forall n :: n in b + a && !Less(cmp, n.key, key) ==> !Less(cmp, n.key, a[0].key)
  {
    if a != [] {
      SortedSplit(b, a[0], a[1..], cmp);
      assert b + [a[0]] + a[1..] == b + a;
    }
  }

  lemma NextIsFirst(t: Tree, c: Context, key: int, cmp: Cmp)
    requires Ordering(cmp)
    requires t == Plug(c, Leaf) && Sorted(Flat(t), cmp) && Between(c, key, cmp)
    ensures var found := NextUp(c);
      && (found == null ==> forall n :: n in Nodes(t) ==> Less(cmp, n.key, key))
      && (found != null ==>
          found in Nodes(t) && !Less(cmp, found.key, key) && forall n :: n in Nodes(t) && !Less(cmp, n.key, key) ==>
              !Less(cmp, n.key, found.key))
  {
    hide Flat, Nodes, Before, After, Plug, Sorted;
    FlatHole(t, c);
    FirstAfter(Before(c), After(c), key, cmp);
    forall n | n in Nodes(t) ensures n in Before(c) + After(c) { FlatNode(t, n); }
    if After(c) != [] { FlatNode(t, After(c)[0]); }
  }

  /** RB_NFIND: the node with the least key that is not less than `key`. */
  method NFind(head: Head, key: int, ghost t: Tree, cmp: Cmp) returns (found: Node?)
    requires Ordering(cmp) && Holds(head, t, cmp)
    ensures found == null ==> forall n :: n in Nodes(t) ==> Less(cmp, n.key, key)
    ensures found != null ==>
      found in Nodes(t) && !Less(cmp, found.key, key) && forall n :: n in Nodes(t) && !Less(cmp, n.key, key) ==>
          !Less(cmp, n.key, found.key)
  {
    var tmp := head.root;
    found := null;
    ghost var s, c := t, Top;
    hide Head.At, RedBlack, BlackHeight, Sorted;
    while tmp != null
      invariant head.At(s, c) && Plug(c, s) == t && All(s, c) == Flat(t) && Between(c, key, cmp)
      invariant tmp == RootOf(s) && found == NextUp(c)
      decreases s
    {
      GoDown(head, s, c, key, cmp);
      var comp := cmp(key, tmp.key);
      if comp < 0 {
        found := tmp;
        tmp := tmp.left;
        s, c := s.left, InLeft(s.node, s.red, s.right, c);
      } else if comp > 0 {
        tmp := tmp.right;
        s, c := s.right, InRight(s.left, s.node, s.red, c);
      } else {
        ExactIsFirst(t, s, c);
        return tmp;
      }
    }
    NextIsFirst(t, c, key, cmp);
  }

  // ----- walking the tree in order -----

  /** Every node of a tree has its place. */
  lemma {:induction false} PlaceOf(t: Tree, c: Context, n: Node) returns (s: Tree, d: Context)
    requires n in Nodes(t)
    ensures s.Branch? && s.node == n && Plug(d, s) == Plug(c, t)
    decreases t
  {
    if n == t.node {
      s, d := t, c;
    } else if n in Nodes(t.left) {
      s, d := PlaceOf(t.left, InLeft(t.node, t.red, t.right, c), n);
    } else {
      s, d := PlaceOf(t.right, InRight(t.left, t.node, t.red, c), n);
    }
  }

  ghost predicate IsNext(t: Tree, elm: Node, next: Node?, cmp: Cmp) {
    if next == null then forall n :: n in Nodes(t) ==> !Less(cmp, elm.key, n.key)
    else
      && next in Nodes(t) && Less(cmp, elm.key, next.key)
      && forall n :: n in Nodes(t) && Less(cmp, elm.key, n.key) ==> !Less(cmp, n.key, next.key)
  }

  ghost predicate IsPrev(t: Tree, elm: Node, prev: Node?, cmp: Cmp) {
    if prev == null then forall n :: n in Nodes(t) ==> !Less(cmp, n.key, elm.key)
    else
      && prev in Nodes(t) && Less(cmp, prev.key, elm.key)
      && forall n :: n in Nodes(t) && Less(cmp, n.key, elm.key) ==> !Less(cmp, prev.key, n.key)
  }

  lemma NextInOrder(a: seq<Node>, elm: Node, b: seq<Node>, cmp: Cmp)
    requires Ordering(cmp)
    requires Sorted(a + [elm] + b, cmp) && b != []
    ensures Less(cmp, elm.key, b[0].key) && forall n :: n in a + [elm] + b && Less(cmp, elm.key, n.key) ==>
        !Less(cmp, n.key, b[0].key)
  {
    SortedSplit(a, elm, b, cmp);
    SortedSplit(a + [elm], b[0], b[1..], cmp);
    assert (a + [elm]) + [b[0]] + b[1..] == a + [elm] + b;
  }

  lemma PrevInOrder(a: seq<Node>, elm: Node, b: seq<Node>, cmp: Cmp)
    requires Ordering(cmp)
    requires Sorted(a + [elm] + b, cmp) && a != []
    ensures Less(cmp, a[|a| - 1].key, elm.key) && forall n :: n in a + [elm] + b && Less(cmp, n.key, elm.key) ==>
        !Less(cmp, a[|a| - 1].key, n.key)
  {
    var k := |a| - 1;
    SortedSplit(a, elm, b, cmp);
    SortedSplit(a[..k], a[k], [elm] + b, cmp);
    assert a[..k] + [a[k]] + ([elm] + b) == a + [elm] + b;
  }

  lemma Neighbours(t: Tree, a: seq<Node>, elm: Node, b: seq<Node>, cmp: Cmp)
    requires Ordering(cmp)
    requires Sorted(Flat(t), cmp) && Flat(t) == a + [elm] + b
    ensures IsNext(t, elm, if b == [] then null else b[0], cmp)
    ensures IsPrev(t, elm, if a == [] then null else a[|a| - 1], cmp)
  {
    hide Sorted, Flat, Nodes;
    SortedSplit(a, elm, b, cmp);
    forall n | n in Nodes(t) ensures n in a + [elm] + b { FlatNode(t, n); }
    if b != [] {
      FlatNode(t, b[0]);
      NextInOrder(a, elm, b, cmp);
    }
    if a != [] {
      FlatNode(t, a[|a| - 1]);
      PrevInOrder(a, elm, b, cmp);
    }
  }

  lemma NoLeft(s: Tree)
    requires s.Branch? && s.left.Leaf?
    ensures Flat(s) == [s.node] + Flat(s.right)
  {
  }

  lemma NoRight(s: Tree)
    requires s.Branch? && s.right.Leaf?
    ensures Flat(s) == Flat(s.left) + [s.node]
  {
  }

  lemma Regrouped(p: seq<Node>, u: seq<Node>, q: seq<Node>, a: seq<Node>, e: Node, x: Node, v: seq<Node>)
    ensures p == a + [e] && u == [x] + v ==> p + u + q == a + [e] + ([x] + v + q)
    ensures q == [e] + a && u == v + [x] ==> p + u + q == (p + v + [x]) + [e] + a
  {
  }

  lemma LeftmostOrder(t: Tree, u: Tree, e: Context, a: seq<Node>, elm: Node)
    requires t == Plug(e, u) && u.Branch? && u.left.Leaf? && Before(e) == a + [elm]
    ensures Flat(t) == a + [elm] + ([u.node] + Flat(u.right) + After(e))
  {
    hide Flat, Before, After, Plug;
    FlatPlug(e, u);
    NoLeft(u);
    Regrouped(Before(e), Flat(u), After(e), a, elm, u.node, Flat(u.right));
  }

  /** The leftmost node of u comes right after what lies before u. */
  lemma LeftmostIsNext(t: Tree, u: Tree, e: Context, a: seq<Node>, elm: Node, cmp: Cmp)
    requires Ordering(cmp)
    requires Sorted(Flat(t), cmp) && t == Plug(e, u) && u.Branch? && u.left.Leaf? && Before(e) == a + [elm]
    ensures IsNext(t, elm, u.node, cmp)
  {
    hide Flat, Before, After, Sorted, IsNext, IsPrev, Plug;
    LeftmostOrder(t, u, e, a, elm);
    Neighbours(t, a, elm, [u.node] + Flat(u.right) + After(e), cmp);
  }

  lemma RightmostIsPrev(t: Tree, u: Tree, e: Context, b: seq<Node>, elm: Node, cmp: Cmp)
    requires Ordering(cmp)
    requires Sorted(Flat(t), cmp) && t == Plug(e, u) && u.Branch? && u.right.Leaf? && After(e) == [elm] + b
    ensures IsPrev(t, elm, u.node, cmp)
  {
    hide Flat, Before, After, Plug, Sorted, IsNext, IsPrev;
    FlatPlug(e, u);
    NoRight(u);
    Regrouped(Before(e), Flat(u), After(e), b, elm, u.node, Flat(u.left));
    Neighbours(t, Before(e) + Flat(u.left) + [u.node], elm, b, cmp);
  }

  lemma AfterIsNext(t: Tree, s: Tree, c: Context, cmp: Cmp)
    requires Ordering(cmp)
    requires Sorted(Flat(t), cmp) && t == Plug(c, s) && s.Branch? && s.right.Leaf?
    ensures IsNext(t, s.node, NextUp(c), cmp)
  {
    hide Flat, Before, After, Plug, Sorted, IsNext, IsPrev;
    FlatPlug(c, s);
    NoRight(s);
    Regroup([], Before(c), Flat(s.left), [s.node], After(c));
    Neighbours(t, Before(c) + Flat(s.left), s.node, After(c), cmp);
  }

  ghost function PrevUp(c: Context): Node? {
    if Before(c) == [] then null else Before(c)[|Before(c)| - 1]
  }

  lemma BeforeOrder(t: Tree, s: Tree, c: Context)
    requires t == Plug(c, s) && s.Branch? && s.left.Leaf?
    ensures Flat(t) == Before(c) + [s.node] + (Flat(s.right) + After(c))
  {
    hide Flat, Before, After, Plug;
    FlatPlug(c, s);
    NoLeft(s);
    Regroup(Before(c), [], [s.node], Flat(s.right), After(c));
  }

  lemma BeforeIsPrev(t: Tree, s: Tree, c: Context, cmp: Cmp)
    requires Ordering(cmp)
    requires Sorted(Flat(t), cmp) && t == Plug(c, s) && s.Branch? && s.left.Leaf?
    ensures IsPrev(t, s.node, PrevUp(c), cmp)
  {
    hide Flat, Before, After, Sorted, IsNext, IsPrev, Plug;
    BeforeOrder(t, s, c);
    Neighbours(t, Before(c), s.node, Flat(s.right) + After(c), cmp);
  }

  lemma AtPlace(head: Head, t: Tree, s: Tree, c: Context)
    requires head.At(t, Top) && t == Plug(c, s)
    ensures head.At(s, c)
  {
    head.Zip(s, c);
  }

  lemma WalkPointers(head: Head, u: Tree, e: Context)
    requires head.At(u, e) && u.Branch?
    ensures u.node.parent == ParentOf(e)
    ensures !e.Top? ==> (u.node == e.node.right) == e.InRight? && (u.node == e.node.left) == e.InLeft?
  {
  }

  /** RB_NEXT */
  method Next(ghost head: Head, elm: Node, ghost t: Tree, ghost cmp: Cmp) returns (next: Node?)
    requires Ordering(cmp) && Holds(head, t, cmp) && elm in Nodes(t)
    ensures IsNext(t, elm, next, cmp)
  {
    ghost var s, c := PlaceOf(t, Top, elm);
    AtPlace(head, t, s, c);
    head.LeftPointer(s, c);
    hide Head.At, RedBlack, Sorted, IsNext, Nodes, Flat;
    if elm.right != null {
      next := elm.right;
      ghost var u, e := s.right, InRight(s.left, s.node, s.red, c);
      head.GoRight(s.left, s.node, s.red, s.right, c);
      head.LeftPointer(u, e);
      while next.left != null
        invariant head.At(u, e) && u.Branch? && next == u.node && next.left == RootOf(u.left)
        invariant Plug(e, u) == t && Before(e) == Before(c) + Flat(s.left) + [elm]
        decreases u
      {
        next := next.left;
        head.GoLeft(u.left, u.node, u.red, u.right, e);
        u, e := u.left, InLeft(u.node, u.red, u.right, e);
        head.LeftPointer(u, e);
      }
      LeftmostIsNext(t, u, e, Before(c) + Flat(s.left), elm, cmp);
    } else {
      AfterIsNext(t, s, c, cmp);
      next := elm;
      ghost var u, e := s, c;
      WalkPointers(head, u, e);
      if next.parent != null && next == next.parent.left {
        next := next.parent;
      } else {
        while next.parent != null && next == next.parent.right
          invariant head.At(u, e) && u.Branch? && u.node == next && NextUp(e) == NextUp(c)
              && !e.InLeft? == !(next.parent != null && next == next.parent.left)
          invariant next.parent == ParentOf(e) && (next.parent != null ==> (next == next.parent.right) == e.InRight?)
          decreases e
        {
          next := next.parent;
          head.AtStep(u, e);
          u, e := Step(e, u), e.up;
          WalkPointers(head, u, e);
        }
        next := next.parent;
      }
    }
  }

  /** RB_PREV */
  method Prev(ghost head: Head, elm: Node, ghost t: Tree, ghost cmp: Cmp) returns (prev: Node?)
    requires Ordering(cmp) && Holds(head, t, cmp) && elm in Nodes(t)
    ensures IsPrev(t, elm, prev, cmp)
  {
    ghost var s, c := PlaceOf(t, Top, elm);
    AtPlace(head, t, s, c);
    head.LeftPointer(s, c);
    hide Head.At, RedBlack, Sorted, IsPrev, Nodes, Flat;
    if elm.left != null {
      prev := elm.left;
      ghost var u, e := s.left, InLeft(s.node, s.red, s.right, c);
      head.GoLeft(s.left, s.node, s.red, s.right, c);
      head.LeftPointer(u, e);
      while prev.right != null
        invariant head.At(u, e) && u.Branch? && prev == u.node && prev.right == RootOf(u.right)
        invariant Plug(e, u) == t && After(e) == [elm] + (Flat(s.right) + After(c))
        decreases u
      {
        prev := prev.right;
        head.GoRight(u.left, u.node, u.red, u.right, e);
        u, e := u.right, InRight(u.left, u.node, u.red, e);
        head.LeftPointer(u, e);
      }
      RightmostIsPrev(t, u, e, Flat(s.right) + After(c), elm, cmp);
    } else {
      BeforeIsPrev(t, s, c, cmp);
      prev := elm;
      ghost var u, e := s, c;
      WalkPointers(head, u, e);
      if prev.parent != null && prev == prev.parent.right {
        prev := prev.parent;
      } else {
        while prev.parent != null && prev == prev.parent.left
          invariant head.At(u, e) && u.Branch? && u.node == prev && PrevUp(e) == PrevUp(c)
          invariant prev.parent == ParentOf(e) && (prev.parent != null ==> (prev == prev.parent.left) == e.InLeft?)
          decreases e
        {
          prev := prev.parent;
          head.AtStep(u, e);
          u, e := Step(e, u), e.up;
          WalkPointers(head, u, e);
        }
        prev := prev.parent;
      }
    }
  }

  lemma EndsOfOrder(t: Tree, cmp: Cmp)
    requires Ordering(cmp)
    requires t.Branch? && Sorted(Flat(t), cmp)
    ensures Flat(t) != [] && Flat(t)[0] in Nodes(t) && Flat(t)[|Flat(t)| - 1] in Nodes(t)
    ensures forall n :: n in Nodes(t) ==>
        !Less(cmp, n.key, Flat(t)[0].key) && !Less(cmp, Flat(t)[|Flat(t)| - 1].key, n.key)
  {
    FlatNode(t, Flat(t)[0]);
    FlatNode(t, Flat(t)[|Flat(t)| - 1]);
    forall n | n in Nodes(t) ensures !Less(cmp, n.key, Flat(t)[0].key)
        && !Less(cmp, Flat(t)[|Flat(t)| - 1].key, n.key) { FlatNode(t, n); }
  }

  lemma EndIsExtreme(t: Tree, c: Context, cmp: Cmp)
    requires Ordering(cmp)
    requires t == Plug(c, Leaf) && Sorted(Flat(t), cmp)
    ensures t.Leaf? == c.Top? && (t.Leaf? <==> Nodes(t) == {})
    ensures Before(c) == [] && !c.Top? ==>
      NextUp(c) != null && NextUp(c) in Nodes(t) && forall n :: n in Nodes(t) ==> !Less(cmp, n.key, NextUp(c).key)
    ensures After(c) == [] && !c.Top? ==>
      PrevUp(c) != null && PrevUp(c) in Nodes(t) && forall n :: n in Nodes(t) ==> !Less(cmp, PrevUp(c).key, n.key)
  {
    if !c.Top? {
      PlugBranch(c, Leaf);
      assert t.node in Nodes(t);
      FlatPlug(c, Leaf);
      FlatNode(t, t.node);
      EndsOfOrder(t, cmp);
    }
  }

  /** RB_MINMAX */
  method MinMax(head: Head, val: int, ghost t: Tree, ghost cmp: Cmp) returns (found: Node?)
    requires Ordering(cmp) && Holds(head, t, cmp)
    ensures found == null <==> Nodes(t) == {}
    ensures found != null ==>
      found in Nodes(t) && forall n :: n in Nodes(t) ==>
          if val < 0 then !Less(cmp, n.key, found.key) else !Less(cmp, found.key, n.key)
  {
    var tmp := head.root;
    found := null;
    ghost var s, c := t, Top;
    hide Head.At, RedBlack, Sorted, Flat;
    while tmp != null
      invariant head.At(s, c) && Plug(c, s) == t && tmp == RootOf(s) && found == ParentOf(c)
      invariant if val < 0 then Before(c) == [] && found == NextUp(c) else After(c) == [] && found == PrevUp(c)
      decreases s
    {
      head.LeftPointer(s, c);
      head.GoLeft(s.left, s.node, s.red, s.right, c);
      head.GoRight(s.left, s.node, s.red, s.right, c);
      found := tmp;
      if val < 0 {
        tmp := tmp.left;
        s, c := s.left, InLeft(s.node, s.red, s.right, c);
      } else {
        tmp := tmp.right;
        s, c := s.right, InRight(s.left, s.node, s.red, c);
      }
    }
    EndIsExtreme(t, c, cmp);
  }
}
