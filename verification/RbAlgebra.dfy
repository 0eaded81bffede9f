/**
  Red-black trees as values: the shapes that the pointer code of module RbTree goes through.  A
  zipper (`Context` and the tree in its hole) says where in the tree the code is working.
*/
module RbAlgebra {

  /** An element of the tree with its RB_ENTRY fields; `key` stands for what cmp compares. */
  class Node {
    var left: Node?
    var right: Node?
    var parent: Node?
    var red: bool
    const key: int

    constructor (key: int)
      ensures this.key == key
    {
      this.key := key;
      left, right, parent, red := null, null, null, false;
    }
  }

  datatype Tree = Leaf | Branch(left: Tree, node: Node, red: bool, right: Tree)

  /** A tree with a hole; the hole is the left or the right child of `node`. */
  datatype Context =
    | Top
    | InLeft(node: Node, red: bool, right: Tree, up: Context)
    | InRight(left: Tree, node: Node, red: bool, up: Context)

  ghost function Plug(c: Context, t: Tree): Tree
    decreases c
  {
    match c
    case Top => t
    case InLeft(node, red, right, up) => Plug(up, Branch(t, node, red, right))
    case InRight(left, node, red, up) => Plug(up, Branch(left, node, red, t))
  }

  ghost function Join(low: Context, high: Context): Context {
    match low
    case Top => high
    case InLeft(node, red, right, up) => InLeft(node, red, right, Join(up, high))
    case InRight(left, node, red, up) => InRight(left, node, red, Join(up, high))
  }

  lemma {:induction false} PlugJoin(low: Context, high: Context, t: Tree)
    ensures Plug(Join(low, high), t) == Plug(high, Plug(low, t))
    decreases low
  {
    match low
    case Top =>
    case InLeft(node, red, right, up) => PlugJoin(up, high, Branch(t, node, red, right));
    case InRight(left, node, red, up) => PlugJoin(up, high, Branch(left, node, red, t));
  }

  ghost function LeftRotation(t: Tree): Tree
    requires t.Branch? && t.right.Branch?
  {
    Branch(Branch(t.left, t.node, t.red, t.right.left), t.right.node, t.right.red, t.right.right)
  }

  ghost function RightRotation(t: Tree): Tree
    requires t.Branch? && t.left.Branch?
  {
    Branch(t.left.left, t.left.node, t.left.red, Branch(t.left.right, t.node, t.red, t.right))
  }

  /** One level up. */
  ghost function Step(c: Context, t: Tree): Tree
    requires !c.Top?
  {
    if c.InLeft? then Branch(t, c.node, c.red, c.right) else Branch(c.left, c.node, c.red, t)
  }

  ghost function Depth(c: Context): nat {
    if c.Top? then 0 else 1 + Depth(c.up)
  }

  // ----- contents, in order -----

  ghost function Flat(t: Tree): seq<Node> {
    if t.Leaf? then [] else Flat(t.left) + [t.node] + Flat(t.right)
  }

  ghost function Before(c: Context): seq<Node> {
    match c
    case Top => []
    case InLeft(node, red, right, up) => Before(up)
    case InRight(left, node, red, up) => Before(up) + Flat(left) + [node]
  }

  ghost function After(c: Context): seq<Node> {
    match c
    case Top => []
    case InLeft(node, red, right, up) => [node] + Flat(right) + After(up)
    case InRight(left, node, red, up) => After(up)
  }

  lemma Regroup(a: seq<Node>, b: seq<Node>, c: seq<Node>, d: seq<Node>, e: seq<Node>)
    ensures a + (b + c + d) + e == a + b + (c + d + e) == a + b + c + d + e
  {
  }

  lemma {:induction false} FlatPlug(c: Context, t: Tree)
    ensures Flat(Plug(c, t)) == Before(c) + Flat(t) + After(c)
    decreases c
  {
    match c
    case Top =>
    case InLeft(node, red, right, up) =>
      FlatPlug(up, Branch(t, node, red, right));
      Regroup(Before(up), Flat(t), [node], Flat(right), After(up));
    case InRight(left, node, red, up) =>
      FlatPlug(up, Branch(left, node, red, t));
      Regroup(Before(up), Flat(left), [node], Flat(t), After(up));
  }

  /** What cmp says of two keys: negative, zero or positive. */
  type Cmp = (int, int) -> int

  ghost predicate Ordering(cmp: Cmp) {
    && (forall a, b :: cmp(a, b) < 0 <==> cmp(b, a) > 0)
    && (forall a, b, c :: cmp(a, b) <= 0 && cmp(b, c) <= 0 ==> cmp(a, c) <= 0)
  }

  predicate Less(cmp: Cmp, a: int, b: int) {
    cmp(a, b) < 0
  }

  lemma Transitive(cmp: Cmp, a: int, b: int, c: int)
    requires Ordering(cmp)
    ensures Less(cmp, a, b) && !Less(cmp, c, b) ==> Less(cmp, a, c)
    ensures !Less(cmp, b, a) && Less(cmp, b, c) ==> Less(cmp, a, c)
  {
  }

  lemma Asymmetric(cmp: Cmp, a: int, b: int)
    requires Ordering(cmp)
    ensures Less(cmp, a, b) ==> !Less(cmp, b, a)
    ensures cmp(a, b) == 0 <==> !Less(cmp, a, b) && !Less(cmp, b, a)
    ensures cmp(a, b) > 0 <==> Less(cmp, b, a)
  {
  }

  ghost predicate Sorted(s: seq<Node>, cmp: Cmp) {
    forall i, j :: 0 <= i < j < |s| ==> Less(cmp, s[i].key, s[j].key)
  }

  // ----- the red-black rules -----

  ghost predicate Black(t: Tree) {
    t.Leaf? || !t.red
  }

  /** Black nodes on the way down the left side. */
  ghost function BlackHeight(t: Tree): nat {
    if t.Leaf? then 0 else BlackHeight(t.left) + if t.red then 0 else 1
  }

  /** No red node has a red child, and both sides of every node have the same black height. */
  ghost predicate RedBlack(t: Tree) {
    t.Branch? ==>
      && RedBlack(t.left) && RedBlack(t.right)
      && BlackHeight(t.left) == BlackHeight(t.right)
      && (t.red ==> Black(t.left) && Black(t.right))
  }

  ghost predicate BlackHole(c: Context) {
    c.Top? || !c.red
  }

  /** A black tree of black height h in the hole makes a red-black tree with a black root. */
  ghost predicate Fits(c: Context, h: nat) {
    match c
    case Top => true
    case InLeft(node, red, right, up) =>
      && RedBlack(right) && BlackHeight(right) == h
      && (red ==> Black(right) && up != Top && BlackHole(up))
      && Fits(up, if red then h else h + 1)
    case InRight(left, node, red, up) =>
      && RedBlack(left) && BlackHeight(left) == h
      && (red ==> Black(left) && up != Top && BlackHole(up))
      && Fits(up, if red then h else h + 1)
  }

  lemma {:induction false} PlugRedBlack(c: Context, t: Tree, h: nat)
    requires Fits(c, h) && RedBlack(t) && BlackHeight(t) == h && (Black(t) || BlackHole(c))
    ensures RedBlack(Plug(c, t)) && (c != Top || Black(t) ==> Black(Plug(c, t)))
    decreases c
  {
    match c
    case Top =>
    case InLeft(node, red, right, up) =>
      PlugRedBlack(up, Branch(t, node, red, right), if red then h else h + 1);
    case InRight(left, node, red, up) =>
      PlugRedBlack(up, Branch(left, node, red, t), if red then h else h + 1);
  }

  /** And the other way round: every place in a red-black tree with a black root fits. */
  lemma {:induction false} PlugFits(c: Context, t: Tree)
    requires RedBlack(Plug(c, t)) && Black(Plug(c, t))
    ensures Fits(c, BlackHeight(t)) && RedBlack(t) && (Black(t) || (BlackHole(c) && c != Top))
    decreases c
  {
    match c
    case Top =>
    case InLeft(node, red, right, up) => PlugFits(up, Branch(t, node, red, right));
    case InRight(left, node, red, up) => PlugFits(up, Branch(left, node, red, t));
  }

  // ----- height -----

  ghost function Height(t: Tree): nat {
    if t.Leaf? then 0 else 1 + if Height(t.left) > Height(t.right) then Height(t.left) else Height(t.right)
  }

  ghost function Power2(n: nat): nat {
    if n == 0 then 1 else 2 * Power2(n - 1)
  }

  lemma {:induction false} PowerSum(a: nat, b: nat)
    ensures Power2(a + b) == Power2(a) * Power2(b)
    decreases b
  {
    if b > 0 { PowerSum(a, b - 1); }
  }

  lemma {:induction false} PowerMonotone(a: nat, b: nat)
    requires a <= b
    ensures Power2(a) <= Power2(b)
    decreases b
  {
    if a < b { PowerMonotone(a, b - 1); }
  }

  lemma {:induction false} HeightByBlackHeight(t: Tree)
    requires RedBlack(t)
    ensures Height(t) <= 2 * BlackHeight(t) + if Black(t) then 0 else 1
    ensures Power2(BlackHeight(t)) <= |Flat(t)| + 1
  {
    if t.Branch? {
      HeightByBlackHeight(t.left);
      HeightByBlackHeight(t.right);
    }
  }

  lemma SquareMonotone(b: nat, n: nat)
    requires b <= n
    ensures b * b <= n * n
  {
    assert b * b <= b * n <= n * n;
  }

  /** Height is at most 2 lg(n + 1). */
  lemma HeightBound(t: Tree)
    requires RedBlack(t) && Black(t)
    ensures Power2(Height(t)) <= (|Flat(t)| + 1) * (|Flat(t)| + 1)
  {
    var b, n := Power2(BlackHeight(t)), |Flat(t)| + 1;
    hide Power2, Flat, Height, BlackHeight, RedBlack;
    HeightByBlackHeight(t);
    PowerMonotone(Height(t), BlackHeight(t) + BlackHeight(t));
    PowerSum(BlackHeight(t), BlackHeight(t));
    SquareMonotone(b, n);
  }

  // ----- what RB_INSERT_COLOR does to the tree -----

  /** A red node below a red node, and nothing else wrong. */
  ghost predicate RedRed(t: Tree, c: Context) {
    && t.Branch? && t.red && RedBlack(t) && Fits(c, BlackHeight(t))
    && !c.Top? && c.red
  }

  ghost function Grand(t: Tree, c: Context): Tree
    requires !c.Top? && !c.up.Top?
  {
    Step(c.up, Step(c, t))
  }

  /** The nodes of a tree in a context, in order. */
  ghost function All(t: Tree, c: Context): seq<Node> {
    Before(c) + Flat(t) + After(c)
  }

  lemma AllStep(t: Tree, c: Context)
    requires !c.Top?
    ensures All(Step(c, t), c.up) == All(t, c)
  {
    if c.InLeft? {
      Regroup(Before(c.up), Flat(t), [c.node], Flat(c.right), After(c.up));
    } else {
      Regroup(Before(c.up), Flat(c.left), [c.node], Flat(t), After(c.up));
    }
  }

  lemma RotationsKeepOrder(t: Tree)
    ensures t.Branch? && t.right.Branch? ==> Flat(LeftRotation(t)) == Flat(t)
    ensures t.Branch? && t.left.Branch? ==> Flat(RightRotation(t)) == Flat(t)
  {
    if t.Branch? && t.right.Branch? {
      Regroup(Flat(t.left), [t.node], Flat(t.right.left), [t.right.node], Flat(t.right.right));
    }
    if t.Branch? && t.left.Branch? {
      Regroup(Flat(t.left.left), [t.left.node], Flat(t.left.right), [t.node], Flat(t.right));
    }
  }

  lemma PaintKeepsOrder(t: Tree, red: bool)
    requires t.Branch?
    ensures Flat(t.(red := red)) == Flat(t)
  {
  }

  /** A red uncle: the grandparent takes over the red, two levels up. */
  ghost function Recolored(g: Tree): Tree
    requires g.Branch? && g.left.Branch? && g.right.Branch?
  {
    Branch(g.left.(red := false), g.node, true, g.right.(red := false))
  }

  lemma Blackened(t: Tree)
    requires t.Branch? && t.red && BlackHeight(t.left) == BlackHeight(t.right) && RedBlack(t.left) && RedBlack(t.right)
    ensures RedBlack(t.(red := false)) && BlackHeight(t.(red := false)) == BlackHeight(t) + 1
  {
  }

  lemma FlatUnfold(t: Tree)
    requires t.Branch?
    ensures Flat(t) == Flat(t.left) + [t.node] + Flat(t.right)
  {
  }

  lemma RecolorMovesUp(t: Tree, c: Context)
    requires RedRed(t, c)
    ensures !c.up.Top? && !c.up.red
    ensures var g := Grand(t, c);
      g.left.Branch? && g.right.Branch? && (if c.up.InLeft? then g.right.red else g.left.red) ==>
        && RedBlack(Recolored(g)) && Fits(c.up.up, BlackHeight(Recolored(g))) && Flat(Recolored(g)) == Flat(g)
  {
    hide Flat;
    var g := Grand(t, c);
    assert Fits(c.up, BlackHeight(t));
    if g.left.Branch? && g.right.Branch? && (if c.up.InLeft? then g.right.red else g.left.red) {
      assert Fits(c.up.up, BlackHeight(t) + 1);
      var p := Step(c, t);
      assert RedBlack(p.left) && RedBlack(p.right) && BlackHeight(p.left) == BlackHeight(t) == BlackHeight(p.right);
      Blackened(g.left);
      Blackened(g.right);
      PaintKeepsOrder(g.left, false);
      PaintKeepsOrder(g.right, false);
      FlatUnfold(g);
      FlatUnfold(Recolored(g));
    }
  }

  /** A black uncle: the pair of red nodes is put in line first. */
  ghost function InLine(t: Tree, c: Context): Tree
    requires t.Branch? && !c.Top? && !c.up.Top?
  {
    var p := Step(c, t);
    if c.up.InLeft? && c.InRight? then LeftRotation(p)
    else if c.up.InRight? && c.InLeft? then RightRotation(p)
    else p
  }

  /** What the red node below sees after the grandparent has been rotated away. */
  ghost function Lifted(t: Tree, c: Context): (Tree, Context)
    requires t.Branch? && !c.Top? && !c.up.Top?
  {
    var p, g := InLine(t, c), c.up.node;
    if c.up.InLeft? then (p.left, InLeft(p.node, false, Branch(p.right, g, true, c.up.right), c.up.up))
    else (p.right, InRight(Branch(c.up.left, g, true, p.left), p.node, false, c.up.up))
  }

  /** One rotation, or two, and no red node is below a red node any more. */
  lemma LiftEnds(t: Tree, c: Context)
    requires RedRed(t, c)
    ensures !c.up.Top? && !c.up.red
    ensures (if c.up.InLeft? then Black(c.up.right) else Black(c.up.left)) ==>
      var (t', c') := Lifted(t, c);
      && t'.Branch? && t'.red && RedBlack(t') && Fits(c', BlackHeight(t')) && BlackHole(c') && Depth(c') < Depth(c)
  {
    if (if c.up.InLeft? then Black(c.up.right) else Black(c.up.left)) {
      var p, h := InLine(t, c), BlackHeight(t);
      assert Fits(c.up, h) && Fits(c.up.up, h + 1);
      assert RedBlack(p.left) && RedBlack(p.right) && BlackHeight(p.left) == h == BlackHeight(p.right);
    }
  }

  lemma FlatSwap(t: Tree, t': Tree, c: Context)
    requires Flat(t) == Flat(t')
    ensures All(t, c) == All(t', c)
  {
  }

  /** The rotation of the grandparent, written out. */
  lemma LiftedFlat(p: Tree, up: Context)
    requires p.Branch? && !up.Top?
    ensures up.InLeft? ==>
      All(Branch(p.left, p.node, false, Branch(p.right, up.node, true, up.right)), up.up) == All(p, up)
    ensures up.InRight? ==>
      All(Branch(Branch(up.left, up.node, true, p.left), p.node, false, p.right), up.up) == All(p, up)
  {
    AllStep(p, up);
    if up.InLeft? {
      Regroup(Flat(p.left), [p.node], Flat(p.right), [up.node], Flat(up.right));
      FlatSwap(Step(up, p), Branch(p.left, p.node, false, Branch(p.right, up.node, true, up.right)), up.up);
    } else {
      Regroup(Flat(up.left), [up.node], Flat(p.left), [p.node], Flat(p.right));
      FlatSwap(Step(up, p), Branch(Branch(up.left, up.node, true, p.left), p.node, false, p.right), up.up);
    }
  }

  lemma LiftKeepsOrder(t: Tree, c: Context)
    requires t.Branch? && !c.Top? && !c.up.Top?
    ensures All(Lifted(t, c).0, Lifted(t, c).1) == All(t, c)
  {
    var p := Step(c, t);
    var p' := InLine(t, c);
    AllStep(t, c);
    RotationsKeepOrder(p);
    assert Flat(p') == Flat(p);
    AllStep(p, c.up);
    FlatSwap(p, p', c.up);
    hide InLine, Flat, Before, After;
    var (t2, c2) := Lifted(t, c);
    AllStep(t2, c2);
    LiftedFlat(p', c.up);
  }

  // ----- what RB_REMOVE_COLOR does to the tree -----

  /** The place of t wants one black node more; if the root of t is red it may have red children. */
  ghost predicate Lacks(t: Tree, c: Context) {
    && (t.Branch? ==> RedBlack(t.(red := false)))
    && Fits(c, BlackHeight(t) + 1)
  }

  ghost function Sibling(c: Context): Tree
    requires !c.Top?
  {
    if c.InLeft? then c.right else c.left
  }

  ghost function WithSibling(c: Context, sibling: Tree): Context
    requires !c.Top?
  {
    if c.InLeft? then c.(right := sibling) else c.(left := sibling)
  }

  /** A red sibling is rotated above the parent; the new sibling is black. */
  ghost function SiblingLifted(c: Context): Context
    requires !c.Top? && Sibling(c).Branch?
  {
    var s := Sibling(c);
    if c.InLeft? then InLeft(c.node, true, s.left, InLeft(s.node, false, s.right, c.up))
    else InRight(s.right, c.node, true, InRight(s.left, s.node, false, c.up))
  }

  lemma SiblingFacts(t: Tree, c: Context)
    requires Lacks(t, c) && !c.Top?
    ensures Sibling(c).Branch? && RedBlack(Sibling(c)) && BlackHeight(Sibling(c)) == BlackHeight(t) + 1
    ensures Sibling(c).red ==>
      && !c.red && Lacks(t, SiblingLifted(c))
      && Sibling(SiblingLifted(c)).Branch? && !Sibling(SiblingLifted(c)).red
      && Depth(SiblingLifted(c)) == Depth(c) + 1
  {
  }

  lemma SiblingLiftedOrder(t: Tree, c: Context)
    requires !c.Top? && Sibling(c).Branch?
    ensures All(t, SiblingLifted(c)) == All(t, c)
  {
    var s, c' := Sibling(c), SiblingLifted(c);
    FlatUnfold(s);
    if c.InLeft? {
      Regroup([c.node], Flat(s.left), [s.node], Flat(s.right), After(c.up));
      assert After(c) == [c.node] + Flat(s) + After(c.up);
      assert After(c') == [c.node] + Flat(s.left) + ([s.node] + Flat(s.right) + After(c.up)) == After(c);
      assert Before(c') == Before(c'.up) == Before(c);
    } else {
      Regroup(Before(c.up), Flat(s.left), [s.node], Flat(s.right), [c.node]);
      assert Before(c) == Before(c.up) + Flat(s) + [c.node];
      assert Before(c') == Before(c.up) + Flat(s.left) + [s.node] + Flat(s.right) + [c.node] == Before(c);
      assert After(c') == After(c'.up) == After(c);
    }
  }

  /** A black sibling without red children turns red, and the lack moves up. */
  ghost function LackMovedUp(t: Tree, c: Context): Tree
    requires !c.Top? && Sibling(c).Branch?
  {
    Step(WithSibling(c, Sibling(c).(red := true)), t)
  }

  lemma LackMovesUp(t: Tree, c: Context)
    requires Lacks(t, c) && Black(t) && !c.Top? && Sibling(c).Branch? && !Sibling(c).red
    requires Black(Sibling(c).left) && Black(Sibling(c).right)
    ensures Lacks(LackMovedUp(t, c), c.up) && (c.red ==> !c.up.Top?)
    ensures All(LackMovedUp(t, c), c.up) == All(t, c)
  {
    AllStep(t, WithSibling(c, Sibling(c).(red := true)));
    PaintKeepsOrder(Sibling(c), true);
  }

  /** A black sibling with a red child makes up for the lack, by one rotation or two. */
  ghost function Repaid(t: Tree, c: Context): Tree
    requires !c.Top? && Sibling(c).Branch?
  {
    var s, p := Sibling(c), c.node;
    if c.InLeft? then
      if Black(s.right) && s.left.Branch? then
        Branch(Branch(t, p, false, s.left.left), s.left.node, c.red, Branch(s.left.right, s.node, false, s.right))
      else if s.right.Branch? then Branch(Branch(t, p, false, s.left), s.node, c.red, s.right.(red := false))
      else Leaf
    else
      if Black(s.left) && s.right.Branch? then
        Branch(Branch(s.left, s.node, false, s.right.left), s.right.node, c.red, Branch(s.right.right, p, false, t))
      else if s.left.Branch? then Branch(s.left.(red := false), s.node, c.red, Branch(s.right, p, false, t))
      else Leaf
  }

  ghost predicate RedNephew(c: Context) {
    && !c.Top? && Sibling(c).Branch? && !Sibling(c).red
    && (!Black(Sibling(c).left) || !Black(Sibling(c).right))
  }

  /** A root of any color over two black nodes over trees of black height h. */
  lemma SameHeights(w: Tree, top: nat, h: nat)
    requires w.Branch? && top == h + 1 + (if w.red then 0 else 1)
    requires w.left.Branch? && !w.left.red && w.right.Branch? && !w.right.red
    requires RedBlack(w.left.left) && RedBlack(w.left.right) && RedBlack(w.right.left) && RedBlack(w.right.right)
    requires BlackHeight(w.left.left) == h == BlackHeight(w.left.right)
    requires BlackHeight(w.right.left) == h == BlackHeight(w.right.right)
    ensures RedBlack(w) && BlackHeight(w) == top
  {
    assert RedBlack(w.left) && RedBlack(w.right) && BlackHeight(w.left) == h + 1 == BlackHeight(w.right);
  }

  lemma RepaidFits(t: Tree, c: Context)
    requires Lacks(t, c) && Black(t) && RedNephew(c)
    ensures RedBlack(Repaid(t, c)) && Fits(c.up, BlackHeight(Repaid(t, c)))
    ensures Black(Repaid(t, c)) || (BlackHole(c.up) && !c.up.Top?)
  {
    var s, h, w := Sibling(c), BlackHeight(t), Repaid(t, c);
    assert t.Branch? ==> t.(red := false) == t;
    assert RedBlack(t) && RedBlack(s.left) && RedBlack(s.right) && BlackHeight(s.left) == h == BlackHeight(s.right);
    SameHeights(w, if c.red then h + 1 else h + 2, h);
  }

  lemma RegroupSeven(a: seq<Node>, p: seq<Node>, b: seq<Node>, x: seq<Node>, d: seq<Node>, y: seq<Node>, e: seq<Node>)
    ensures (a + p + b) + x + (d + y + e) == a + p + ((b + x + d) + y + e)
    ensures (a + p + b) + x + (d + y + e) == (a + p + (b + x + d)) + y + e
  {
  }

  lemma RepaidFlat(t: Tree, c: Context)
    requires RedNephew(c)
    ensures Flat(Repaid(t, c)) == Flat(Step(c, t))
  {
    var s, p, w := Sibling(c), [c.node], Repaid(t, c);
    assert Flat(w) == Flat(w.left) + [w.node] + Flat(w.right);
    assert Flat(s) == Flat(s.left) + [s.node] + Flat(s.right);
    if c.InLeft? {
      assert Flat(Step(c, t)) == Flat(t) + p + Flat(s);
      if Black(s.right) {
        RegroupSeven(Flat(t), p, Flat(s.left.left), [s.left.node], Flat(s.left.right), [s.node], Flat(s.right));
      } else {
        PaintKeepsOrder(s.right, false);
        Regroup(Flat(t), p, Flat(s.left), [s.node], Flat(s.right));
      }
    } else {
      assert Flat(Step(c, t)) == Flat(s) + p + Flat(t);
      if Black(s.left) {
        RegroupSeven(Flat(s.left), [s.node], Flat(s.right.left), [s.right.node], Flat(s.right.right), p, Flat(t));
      } else {
        PaintKeepsOrder(s.left, false);
        Regroup(Flat(s.left), [s.node], Flat(s.right), p, Flat(t));
      }
    }
  }

  lemma RepaidOrder(t: Tree, c: Context)
    requires RedNephew(c)
    ensures All(Repaid(t, c), c.up) == All(t, c)
  {
    AllStep(t, c);
    FlatSwap(Step(c, t), Repaid(t, c), c.up) by { RepaidFlat(t, c); }
  }

  /** Nothing is lacking any more. */
  ghost predicate Repaired(t: Tree, c: Context) {
    RedBlack(t) && Fits(c, BlackHeight(t)) && (Black(t) || (BlackHole(c) && !c.Top?))
  }

  ghost predicate BlackNephews(c: Context)
    requires !c.Top? && Sibling(c).Branch?
  {
    Black(Sibling(c).left) && Black(Sibling(c).right)
  }
}
