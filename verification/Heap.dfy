/**
  The pointer min-heap: a complete binary tree of nodes with parent links, whose next free place is
  found by the binary digits of its number.  `slots` lists the nodes row by row, so the children
  of slot k are slots 2k and 2k + 1.
*/
module Heap {

  class HeapNode {
    var left: HeapNode?
    var right: HeapNode?
    var parent: HeapNode?
    const key: int

    constructor (key: int)
      ensures this.key == key
    {
      this.key := key;
      left, right, parent := null, null, null;
    }
  }

  /** Slots are numbered from 1; there is nothing outside. */
  ghost function Slot(s: seq<HeapNode>, k: nat): HeapNode? {
    if 1 <= k <= |s| then s[k - 1] else null
  }

  ghost predicate Distinct(s: seq<HeapNode>) {
    forall i, j :: 0 <= i < j < |s| ==> s[i] != s[j]
  }

  ghost predicate LinkedAt(s: seq<HeapNode>, k: nat)
    requires 1 <= k <= |s|
    reads s
  {
    var x := s[k - 1];
    x.left == Slot(s, 2 * k) && x.right == Slot(s, 2 * k + 1) && x.parent == Slot(s, k / 2)
  }

  ghost predicate Linked(s: seq<HeapNode>)
    reads s
  {
    Distinct(s) && forall k :: 1 <= k <= |s| ==> LinkedAt(s, k)
  }

  // ----- the order -----

  ghost predicate StrictWeak(less: (int, int) -> bool) {
    && (forall a, b :: less(a, b) ==> !less(b, a))
    && (forall a, b, c :: !less(b, a) && !less(c, b) ==> !less(c, a))
  }

  /** The node in slot k is not less than its parent. */
  ghost predicate Below(s: seq<HeapNode>, less: (int, int) -> bool, k: nat)
    requires 2 <= k <= |s|
  {
    !less(s[k - 1].key, s[k / 2 - 1].key)
  }

  ghost predicate Ordered(s: seq<HeapNode>, less: (int, int) -> bool) {
    forall k :: 2 <= k <= |s| ==> Below(s, less, k)
  }

  /** The children of slot k are not less than the parent of slot k. */
  ghost predicate Bypass(s: seq<HeapNode>, less: (int, int) -> bool, k: nat) {
    forall j :: 2 <= j <= |s| && j / 2 == k && k >= 2 ==> !less(s[j - 1].key, s[k / 2 - 1].key)
  }

  /** In order but for the node in slot k and its parent. */
  ghost predicate OrderedAbove(s: seq<HeapNode>, less: (int, int) -> bool, k: nat) {
    (forall j :: 2 <= j <= |s| && j != k ==> Below(s, less, j)) && Bypass(s, less, k)
  }

  /** In order but for the node in slot k, its parent and its children. */
  ghost predicate OrderedAround(s: seq<HeapNode>, less: (int, int) -> bool, k: nat) {
    (forall j :: 2 <= j <= |s| && j != k && j / 2 != k ==> Below(s, less, j)) && Bypass(s, less, k)
  }

  /** The node in the first slot is least. */
  lemma {:induction false} FirstIsLeast(s: seq<HeapNode>, less: (int, int) -> bool, k: nat)
    requires StrictWeak(less) && Ordered(s, less) && 1 <= k <= |s|
    ensures !less(s[k - 1].key, s[0].key)
    decreases k
  {
    if k > 1 {
      FirstIsLeast(s, less, k / 2);
      assert Below(s, less, k);
    }
  }

  /** Slots k and k/2 trade places. */
  ghost function Swapped(s: seq<HeapNode>, k: nat): (s': seq<HeapNode>)
    requires 2 <= k <= |s|
    ensures |s'| == |s|
  {
    s[k - 1 := s[k / 2 - 1]][k / 2 - 1 := s[k - 1]]
  }

  lemma SwapDistinct(s: seq<HeapNode>, k: nat)
    requires Distinct(s) && 2 <= k <= |s|
    ensures Distinct(Swapped(s, k)) && multiset(Swapped(s, k)) == multiset(s)
    ensures forall i :: 0 <= i < |s| ==> Swapped(s, k)[i] in s
  {
  }

  function Sibling(k: nat): nat
    requires k >= 2
  {
    if k % 2 == 0 then k + 1 else k - 1
  }

  /** Slots k and k/2 have been relinked the other way round; nothing else has changed. */
  twostate predicate Relinked(s: seq<HeapNode>, new k: nat)
    requires 2 <= k <= |s|
    reads s
  {
    var p, child, parent := k / 2, s[k - 1], s[k / 2 - 1];
    var sibling, grand := Slot(s, Sibling(k)), Slot(s, p / 2);
    && child.parent == grand
    && child.left == (if k % 2 == 0 then parent else sibling)
    && child.right == (if k % 2 == 0 then sibling else parent)
    && parent.parent == child && parent.left == Slot(s, 2 * k) && parent.right == Slot(s, 2 * k + 1)
    && (forall i :: 0 <= i < |s| && i + 1 != k && i + 1 != p ==>
          && s[i].left == (if s[i] == grand && p % 2 == 0 then child else old(s[i].left))
          && s[i].right == (if s[i] == grand && p % 2 == 1 then child else old(s[i].right))
          && s[i].parent == (if i + 1 == Sibling(k) then child else if (i + 1) / 2 == k then parent
              else old(s[i].parent)))
  }

  lemma SlotOfSwapped(s: seq<HeapNode>, k: nat, m: nat)
    requires 2 <= k <= |s|
    ensures Slot(Swapped(s, k), m) == if m == k then s[k / 2 - 1] else if m == k / 2 then s[k - 1] else Slot(s, m)
  {
  }

  twostate lemma RelinkedPair(s: seq<HeapNode>, new k: nat)
    requires 2 <= k <= |s| && Distinct(s) && Relinked(s, k)
    ensures LinkedAt(Swapped(s, k), k) && LinkedAt(Swapped(s, k), k / 2)
  {
    hide Swapped;
    var p := k / 2;
    SlotOfSwapped(s, k, k);
    SlotOfSwapped(s, k, p);
    SlotOfSwapped(s, k, 2 * k);
    SlotOfSwapped(s, k, 2 * k + 1);
    SlotOfSwapped(s, k, Sibling(k));
    SlotOfSwapped(s, k, p / 2);
  }

  twostate lemma RelinkedOther(s: seq<HeapNode>, new k: nat, new j: nat)
    requires 2 <= k <= |s| && Distinct(s) && old(Linked(s)) && Relinked(s, k) && 1 <= j <= |s| && j != k && j != k / 2
    ensures LinkedAt(Swapped(s, k), j)
  {
    assert old(LinkedAt(s, j));
    assert s[j - 1] == Slot(s, k / 2 / 2) <==> j == k / 2 / 2;
    hide Swapped, Distinct, Linked;
    SlotOfSwapped(s, k, j);
    SlotOfSwapped(s, k, 2 * j);
    SlotOfSwapped(s, k, 2 * j + 1);
    SlotOfSwapped(s, k, j / 2);
  }

  twostate lemma RelinkedSlot(s: seq<HeapNode>, new k: nat, new j: nat)
    requires 2 <= k <= |s| && Distinct(s) && old(Linked(s)) && Relinked(s, k) && 1 <= j <= |s|
    ensures LinkedAt(Swapped(s, k), j)
  {
    hide Relinked, Swapped, Linked, Distinct;
    if j == k || j == k / 2 { RelinkedPair(s, k); } else { RelinkedOther(s, k, j); }
  }

  // ----- one step of a node up or down keeps the rest in order -----

  lemma SiftUp(s: seq<HeapNode>, less: (int, int) -> bool, k: nat)
    requires StrictWeak(less) && 2 <= k <= |s| && OrderedAbove(s, less, k)
    requires less(s[k - 1].key, s[k / 2 - 1].key)
    ensures OrderedAbove(Swapped(s, k), less, k / 2)
  {
    var p, s' := k / 2, Swapped(s, k);
    if p >= 2 { assert Below(s, less, p); }
    forall j | 2 <= j <= |s'| && j != p ensures Below(s', less, j) {
      if j != k { assert Below(s, less, j); }
    }
    forall j | 2 <= j <= |s'| && j / 2 == p && p >= 2 ensures !less(s'[j - 1].key, s'[p / 2 - 1].key) {
      if j != k { assert Below(s, less, j); }
    }
  }

  lemma UpEnds(s: seq<HeapNode>, less: (int, int) -> bool, k: nat)
    requires OrderedAbove(s, less, k) && (2 <= k <= |s| ==> Below(s, less, k))
    ensures Ordered(s, less)
  {
  }

  /** The child in slot c is less than its parent in slot k and not greater than its sibling. */
  lemma SiftDown(s: seq<HeapNode>, less: (int, int) -> bool, k: nat, c: nat)
    requires StrictWeak(less) && 2 <= c <= |s| && c / 2 == k && OrderedAround(s, less, k)
    requires less(s[c - 1].key, s[k - 1].key)
    requires Sibling(c) <= |s| ==> !less(s[Sibling(c) - 1].key, s[c - 1].key)
    ensures OrderedAround(Swapped(s, c), less, c)
  {
    var s' := Swapped(s, c);
    forall j | 2 <= j <= |s'| && j != c && j / 2 != c ensures Below(s', less, j) {
      if j != k && j / 2 != k { assert Below(s, less, j); }
    }
    forall j | 2 <= j <= |s'| && j / 2 == c ensures !less(s'[j - 1].key, s'[c / 2 - 1].key) {
      assert Below(s, less, j);
    }
  }

  lemma DownEnds(s: seq<HeapNode>, less: (int, int) -> bool, k: nat)
    requires OrderedAround(s, less, k)
    requires forall j :: 2 <= j <= |s| && j / 2 == k ==> Below(s, less, j)
    ensures OrderedAbove(s, less, k)
  {
  }

  // ----- the way to a slot -----

  /** The slot reached from slot c by taking k digits of `path`, the lowest first: 0 left, 1 right. */
  function Walk(c: nat, path: nat, k: nat): nat
    decreases k
  {
    if k == 0 then c else Walk(2 * c + path % 2, path / 2, k - 1)
  }

  lemma {:induction false} WalkGrows(c: nat, path: nat, k: nat)
    requires c >= 1
    ensures Walk(c, path, k) >= c && (k > 0 ==> Walk(c, path, k) >= 2 * c + path % 2)
    decreases k
  {
    if k > 0 { WalkGrows(2 * c + path % 2, path / 2, k - 1); }
  }

  /** Digit i of n, from the lowest. */
  function Digit(n: nat, i: nat): nat {
    if i == 0 then n % 2 else Digit(n / 2, i - 1)
  }

  lemma {:induction false} WalkTop(c: nat, path: nat, k: nat, j: nat)
    ensures Digit(Walk(c, path, k), k + j) == Digit(c, j)
    decreases k
  {
    if k > 0 {
      WalkTop(2 * c + path % 2, path / 2, k - 1, j + 1);
      assert (2 * c + path % 2) / 2 == c;
    }
  }

  /** The path, lowest digit first, spells the slot's number below its leading 1, highest digit first. */
  lemma {:induction false} WalkDigits(c: nat, path: nat, k: nat, i: nat)
    requires i < k
    ensures Digit(Walk(c, path, k), k - 1 - i) == Digit(path, i)
    decreases k
  {
    if i == 0 {
      WalkTop(2 * c + path % 2, path / 2, k - 1, 0);
    } else {
      WalkDigits(2 * c + path % 2, path / 2, k - 1, i - 1);
    }
  }

  /** A node hangs in the first free slot; nothing else has changed. */
  twostate predicate Hung(s: seq<HeapNode>, new x: HeapNode)
    reads s, x
  {
    var n := |s| + 1;
    && x.left == null && x.right == null && x.parent == Slot(s, n / 2)
    && forall i :: 0 <= i < |s| ==>
         && s[i].parent == old(s[i].parent)
         && s[i].left == (if i + 1 == n / 2 && n % 2 == 0 then x else old(s[i].left))
         && s[i].right == (if i + 1 == n / 2 && n % 2 == 1 then x else old(s[i].right))
  }

  twostate lemma HungSlot(s: seq<HeapNode>, new x: HeapNode, new j: nat)
    requires old(Linked(s)) && Hung(s, x) && 1 <= j <= |s| + 1
    ensures LinkedAt(s + [x], j)
  {
    var n, s' := |s| + 1, s + [x];
    assert forall m: nat :: Slot(s', m) == if m == n then x else Slot(s, m);
    if j < n { assert old(LinkedAt(s, j)) && s'[j - 1] == s[j - 1]; }
    hide Linked, Slot;
  }

  /** The last slot has been cut off; nothing else has changed. */
  twostate predicate CutOff(s: seq<HeapNode>)
    reads s
  {
    var n := |s|;
    forall i :: 0 <= i < n ==>
      && s[i].parent == old(s[i].parent)
      && s[i].left == (if i + 1 == n / 2 && n % 2 == 0 then null else old(s[i].left))
      && s[i].right == (if i + 1 == n / 2 && n % 2 == 1 then null else old(s[i].right))
  }

  twostate lemma CutOffSlot(s: seq<HeapNode>, new j: nat)
    requires old(Linked(s)) && CutOff(s) && 1 <= j < |s|
    ensures LinkedAt(s[..|s| - 1], j)
  {
    var s' := s[..|s| - 1];
    assert forall m: nat :: Slot(s', m) == if m == |s| then null else Slot(s, m);
    assert old(LinkedAt(s, j)) && s'[j - 1] == s[j - 1];
    hide Linked, Slot;
  }

  /** x has taken over the fields and the neighbours of the node in slot m. */
  twostate predicate Taken(s: seq<HeapNode>, new m: nat, new x: HeapNode)
    requires 1 <= m <= |s|
    reads s, x
  {
    && x.left == Slot(s, 2 * m) && x.right == Slot(s, 2 * m + 1) && x.parent == Slot(s, m / 2)
    && forall i :: 0 <= i < |s| && i + 1 != m ==>
         && s[i].parent == (if (i + 1) / 2 == m then x else old(s[i].parent))
         && s[i].left == (if i + 1 == m / 2 && m % 2 == 0 then x else old(s[i].left))
         && s[i].right == (if i + 1 == m / 2 && m % 2 == 1 then x else old(s[i].right))
  }

  twostate lemma TakenSlot(s: seq<HeapNode>, new m: nat, new x: HeapNode, new j: nat)
    requires 1 <= m <= |s| && old(Linked(s)) && Taken(s, m, x) && 1 <= j <= |s| && x !in s
    ensures LinkedAt(s[m - 1 := x], j)
  {
    var s' := s[m - 1 := x];
    assert forall i: nat :: Slot(s', i) == if i == m then x else Slot(s, i);
    if j != m { assert old(LinkedAt(s, j)) && s'[j - 1] == s[j - 1]; }
    hide Linked, Slot;
  }

  lemma SwappedAt(s: seq<HeapNode>, c: nat)
    requires 2 <= c <= |s|
    ensures Swapped(s, c)[c - 1] == s[c / 2 - 1]
  {
  }

  lemma CutOrder(s: seq<HeapNode>, less: (int, int) -> bool)
    requires Ordered(s, less) && s != []
    ensures Ordered(s[..|s| - 1], less)
  {
    var t := s[..|s| - 1];
    forall j | 2 <= j <= |t| ensures Below(t, less, j) { assert Below(s, less, j); }
  }

  /** Replacing a node leaves everything away from it in order. */
  lemma ReplaceOrder(s: seq<HeapNode>, less: (int, int) -> bool, m: nat)
    requires StrictWeak(less) && Ordered(s, less) && 1 <= m < |s|
    ensures OrderedAround(s[..|s| - 1][m - 1 := s[|s| - 1]], less, m)
  {
    var t := s[..|s| - 1][m - 1 := s[|s| - 1]];
    forall j | 2 <= j <= |t| && j != m && j / 2 != m ensures Below(t, less, j) { assert Below(s, less, j); }
    forall j | 2 <= j <= |t| && j / 2 == m && m >= 2 ensures !less(t[j - 1].key, t[m / 2 - 1].key) {
      assert Below(s, less, j) && Below(s, less, m);
    }
  }

  lemma AppendOrder(s: seq<HeapNode>, x: HeapNode, less: (int, int) -> bool)
    requires Ordered(s, less)
    ensures OrderedAbove(s + [x], less, |s| + 1)
  {
    forall j | 2 <= j <= |s| ensures Below(s + [x], less, j) { assert Below(s, less, j); }
  }

  class Heap {
    var min: HeapNode?
    var nelts: nat
    ghost var slots: seq<HeapNode>

    /** A complete tree, linked both ways. */
    ghost predicate Shape()
      reads this, slots
    {
      Linked(slots) && min == Slot(slots, 1) && nelts == |slots|
    }

    ghost predicate Valid(less: (int, int) -> bool)
      reads this, slots
    {
      Shape() && Ordered(slots, less)
    }

    constructor ()
      ensures Shape() && slots == []
    {
      min, nelts, slots := null, 0, [];
    }

    /** The six nodes around the slots k and k/2, where they exist, and how they are linked. */
    lemma Near(k: nat, parent: HeapNode, child: HeapNode, grand: HeapNode?, beside: HeapNode?, low: HeapNode?,
        high: HeapNode?)
      requires Shape() && 2 <= k <= |slots| && child == slots[k - 1] && parent == slots[k / 2 - 1]
      requires grand == Slot(slots, k / 2 / 2) && beside == Slot(slots, Sibling(k))
      requires low == Slot(slots, 2 * k) && high == Slot(slots, 2 * k + 1)
      ensures child.parent == parent && parent.parent == grand && child.left == low && child.right == high
      ensures if k % 2 == 0 then parent.left == child && parent.right == beside
          else parent.right == child && parent.left == beside
      ensures parent != child && grand != parent && grand != child && beside != parent && beside != child
      ensures low != parent && low != child && high != parent && high != child
      ensures grand != null ==>
        && (if k / 2 % 2 == 0 then grand.left == parent else grand.right == parent && grand.left != parent)
        && grand != beside && grand != low && grand != high
      ensures beside != null ==> beside != low && beside != high
      ensures low != null ==> low != high
      ensures forall i :: 0 <= i < |slots| ==>
        && (slots[i] == grand <==> i + 1 == k / 2 / 2) && (slots[i] == beside <==> i + 1 == Sibling(k))
        && (slots[i] == low <==> i + 1 == 2 * k) && (slots[i] == high <==> i + 1 == 2 * k + 1)
        && (slots[i] == child <==> i + 1 == k) && (slots[i] == parent <==> i + 1 == k / 2)
    {
      assert LinkedAt(slots, k) && LinkedAt(slots, k / 2);
      if grand != null { assert LinkedAt(slots, k / 2 / 2); }
    }

    lemma NearIn(k: nat)
      ensures forall m: nat :: Slot(slots, m) != null ==> Slot(slots, m) in slots
    {
    }

    /** The pointer work of heap_node_swap on the nodes around. */
    method Rewire(parent: HeapNode, child: HeapNode, ghost grand: HeapNode?, ghost beside: HeapNode?,
                  ghost low: HeapNode?, ghost high: HeapNode?)
      requires child.parent == parent && parent.parent == grand && child.left == low && child.right == high
      requires (parent.left == child && parent.right == beside) || (parent.right == child && parent.left == beside)
      requires parent != child && grand != parent && grand != child && beside != parent && beside != child
      requires low != parent && low != child && high != parent && high != child
      requires grand != null ==>
          (grand.left == parent || grand.right == parent) && grand != beside && grand != low && grand != high
      requires beside != null ==> beside != low && beside != high
      requires low != null ==> low != high
      modifies this`min, parent, child, grand, beside, low, high
      ensures child.parent == grand && parent.parent == child && parent.left == low && parent.right == high
      ensures child.left == (if old(parent.left) == child then parent else beside)
      ensures child.right == (if old(parent.left) == child then beside else parent)
      ensures beside != null ==>
          beside.parent == child && beside.left == old(beside.left) && beside.right == old(beside.right)
      ensures low != null ==> low.parent == parent && low.left == old(low.left) && low.right == old(low.right)
      ensures high != null ==> high.parent == parent && high.left == old(high.left) && high.right == old(high.right)
      ensures grand != null ==>
        && grand.parent == old(grand.parent)
        && grand.left == (if old(grand.left) == parent then child else old(grand.left))
        && grand.right == (if old(grand.left) == parent then old(grand.right) else child)
      ensures min == if grand == null then child else old(min)
    {
      var left, right, up := parent.left, parent.right, parent.parent;
      parent.left, parent.right, parent.parent := child.left, child.right, child.parent;
      child.left, child.right, child.parent := left, right, up;
      parent.parent := child;
      var sibling;
      if child.left == child {
        child.left := parent;
        sibling := child.right;
      } else {
        child.right := parent;
        sibling := child.left;
      }
      if sibling != null { sibling.parent := child; }
      if parent.left != null { parent.left.parent := parent; }
      if parent.right != null { parent.right.parent := parent; }
      if child.parent == null {
        min := child;
      } else if child.parent.left == parent {
        child.parent.left := child;
      } else {
        child.parent.right := child;
      }
    }

    /** The same, seen from the slots. */
    method Relink(parent: HeapNode, child: HeapNode, ghost k: nat)
      requires Shape() && 2 <= k <= |slots| && child == slots[k - 1] && parent == slots[k / 2 - 1]
      modifies this`min, slots
      ensures Relinked(slots, k)
      ensures min == if k / 2 == 1 then child else old(min)
    {
      ghost var grand, beside := Slot(slots, k / 2 / 2), Slot(slots, Sibling(k));
      ghost var low, high := Slot(slots, 2 * k), Slot(slots, 2 * k + 1);
      Near(k, parent, child, grand, beside, low, high);
      NearIn(k);
      hide Heap.Shape, Slot;
      Rewire(parent, child, grand, beside, low, high);
    }

    /** heap_node_swap */
    method NodeSwap(parent: HeapNode, child: HeapNode, ghost k: nat)
      requires Shape() && 2 <= k <= |slots| && child == slots[k - 1] && parent == slots[k / 2 - 1]
      modifies this`min, this`slots, slots
      ensures Shape() && slots == Swapped(old(slots), k)
    {
      ghost var s := slots;
      Relink(parent, child, k);
      slots := Swapped(s, k);
      SwapDistinct(s, k);
      forall j | 1 <= j <= |slots| ensures LinkedAt(slots, j) { RelinkedSlot(s, k, j); }
    }

    static lemma MulMonotone(a: nat, b: nat, c: nat)
      requires a <= b
      ensures a * c <= b * c
    {
    }

    /** The loop that computes the path to slot n; an unsigned int holds it. */
    static method PathTo(target: nat) returns (path: nat, k: nat)
      requires 1 <= target < 0x1_0000_0000
      ensures Walk(1, path, k) == target && path < 0x1_0000_0000
    {
      path, k := 0, 0;
      var n := target;
      ghost var scale := 1;
      while n >= 2
        invariant n >= 1 && Walk(n, path, k) == target
        invariant path < scale && scale >= 1 && n * scale <= target
      {
        path := 2 * path + n % 2;
        assert Walk(n / 2, path, k + 1) == Walk(2 * (n / 2) + n % 2, path / 2, k);
        assert n / 2 * (2 * scale) <= n * scale by { assert n / 2 * 2 <= n; MulMonotone(n / 2 * 2, n, scale); }
        n := n / 2;
        k := k + 1;
        scale := 2 * scale;
      }
      assert scale <= target;
    }

    /** Follows the path: `above` and the side are where the pointer to slot `target` is kept. */
    method Follow(path0: nat, k0: nat, ghost target: nat) returns (above: HeapNode?, right: bool, node: HeapNode?)
      requires Shape() && Walk(1, path0, k0) == target && 1 <= target <= |slots| + 1
      ensures above == Slot(slots, target / 2) && node == Slot(slots, target)
      ensures target >= 2 ==> right == (target % 2 == 1)
    {
      var path, k := path0, k0;
      above, right, node := null, false, min;
      ghost var c := 1;
      while k > 0
        invariant c >= 1 && Walk(c, path, k) == target
        invariant above == Slot(slots, c / 2) && node == Slot(slots, c) && (c >= 2 ==> right == (c % 2 == 1))
      {
        WalkGrows(c, path, k);
        assert LinkedAt(slots, c);
        above := node;
        right := path % 2 == 1;
        node := if right then above.right else above.left;
        c := 2 * c + path % 2;
        path := path / 2;
        k := k - 1;
      }
    }

    /** The pointer to a free or last slot is set. */
    method SetPointer(above: HeapNode?, right: bool, value: HeapNode?)
      modifies this`min, above
      ensures if above == null then min == value
              else above.parent == old(above.parent) && min == old(min)
                   && above.left == (if right then old(above.left) else value)
                   && above.right == (if right then value else old(above.right))
    {
      if above == null { min := value; } else if right { above.right := value; } else { above.left := value; }
    }

    /** Where the pointer to slot `target` is kept. */
    method Locate(target: nat) returns (above: HeapNode?, right: bool, node: HeapNode?)
      requires Shape() && 1 <= target <= |slots| + 1 && target < 0x1_0000_0000
      ensures above == Slot(slots, target / 2) && node == Slot(slots, target)
      ensures if above == null then target == 1 else target >= 2 && right == (target % 2 == 1)
      ensures forall i :: 0 <= i < |slots| ==> (slots[i] == above <==> i + 1 == target / 2)
    {
      var path, k := PathTo(target);
      above, right, node := Follow(path, k, target);
    }

    /** The new node hangs in the first free slot. */
    method Hang(newnode: HeapNode)
      requires Shape() && newnode !in slots && nelts < 0xFFFF_FFFF
      modifies this`min, this`nelts, slots, newnode
      ensures Hung(slots, newnode)
      ensures nelts == old(nelts) + 1 && min == if old(nelts) == 0 then newnode else old(min)
    {
      newnode.left, newnode.right, newnode.parent := null, null, null;
      var above, right, node := Locate(1 + nelts);
      hide Heap.Shape;
      newnode.parent := above;
      SetPointer(above, right, newnode);
      nelts := nelts + 1;
    }

    /** The new node in the first free slot, before it is sifted up. */
    method Append(newnode: HeapNode)
      requires Shape() && newnode !in slots && nelts < 0xFFFF_FFFF
      modifies this, slots, newnode
      ensures Shape() && slots == old(slots) + [newnode]
    {
      ghost var s := slots;
      Hang(newnode);
      slots := slots + [newnode];
      forall k | 1 <= k <= |slots| ensures LinkedAt(slots, k) { HungSlot(s, newnode, k); }
    }

    /** Both walks up the tree. */
    method SiftNodeUp(node: HeapNode, less: (int, int) -> bool, ghost k0: nat)
      requires StrictWeak(less) && Shape() && 1 <= k0 <= |slots| && node == slots[k0 - 1]
          && OrderedAbove(slots, less, k0)
      modifies this`min, this`slots, slots
      ensures Valid(less) && multiset(slots) == multiset(old(slots))
    {
      ghost var k := k0;
      while node.parent != null && less(node.key, node.parent.key)
        invariant Shape() && 1 <= k <= |slots| && node == slots[k - 1] && OrderedAbove(slots, less, k)
        invariant multiset(slots) == multiset(old(slots)) && forall i :: 0 <= i < |slots| ==> slots[i] in old(slots)
        decreases k
      {
        assert LinkedAt(slots, k);
        ghost var s := slots;
        SiftUp(s, less, k);
        SwapDistinct(s, k);
        hide Ordered, OrderedAbove, Swapped, StrictWeak;
        NodeSwap(node.parent, node, k);
        k := k / 2;
      }
      assert LinkedAt(slots, k);
      UpEnds(slots, less, k);
    }

    /** heap_insert */
    method Insert(newnode: HeapNode, less: (int, int) -> bool)
      requires StrictWeak(less) && Valid(less) && newnode !in slots && nelts < 0xFFFF_FFFF
      modifies this, slots, newnode
      ensures Valid(less) && multiset(slots) == multiset(old(slots)) + multiset{newnode}
    {
      Append(newnode);
      ghost var n := |slots|;
      assert OrderedAbove(slots, less, n) by { hide Heap.Shape; AppendOrder(old(slots), newnode, less); }
      SiftNodeUp(newnode, less, n);
    }

    method Unlink() returns (child: HeapNode)
      requires Shape() && 1 <= nelts < 0x1_0000_0000
      modifies this`min, this`nelts, slots
      ensures CutOff(slots) && child == slots[|slots| - 1]
      ensures nelts == old(nelts) - 1 && min == if old(nelts) == 1 then null else old(min)
    {
      var above, right, node := Locate(nelts);
      child := node;
      hide Heap.Shape;
      nelts := nelts - 1;
      SetPointer(above, right, null);
    }

    /** The pointer to the last node is cleared. */
    method CutLast() returns (child: HeapNode)
      requires Shape() && 1 <= nelts < 0x1_0000_0000
      modifies this, slots
      ensures Shape() && slots == old(slots)[..|old(slots)| - 1] && child == old(slots)[|old(slots)| - 1]
    {
      ghost var s := slots;
      child := Unlink();
      slots := s[..|s| - 1];
      forall j | 1 <= j <= |slots| ensures LinkedAt(slots, j) { CutOffSlot(s, j); }
    }

    /** The nodes around slot m, where they exist. */
    lemma Beside(m: nat, node: HeapNode, up: HeapNode?, low: HeapNode?, high: HeapNode?)
      requires Shape() && 1 <= m <= |slots| && node == slots[m - 1] && up == Slot(slots, m / 2)
      requires low == Slot(slots, 2 * m) && high == Slot(slots, 2 * m + 1)
      ensures node.left == low && node.right == high && node.parent == up
      ensures up != null ==>
          up.left == (if m % 2 == 0 then node else up.left) && (m % 2 == 1 ==> up.right == node && up.left != node)
      ensures forall i :: 0 <= i < |slots| ==>
        && (slots[i] == up <==> i + 1 == m / 2) && (slots[i] == low <==> i + 1 == 2 * m)
        && (slots[i] == high <==> i + 1 == 2 * m + 1) && (slots[i] == node <==> i + 1 == m)
      ensures up == null <==> m == 1
    {
      assert LinkedAt(slots, m);
      if up != null { assert LinkedAt(slots, m / 2); }
    }

    /** The node in slot m is replaced by child. */
    method TakePlace(node: HeapNode, child: HeapNode, ghost m: nat)
      requires Shape() && 1 <= m <= |slots| && node == slots[m - 1] && child !in slots
      modifies this`min, slots, child
      ensures Taken(slots, m, child) && min == if m == 1 then child else old(min)
    {
      ghost var up, low, high := Slot(slots, m / 2), Slot(slots, 2 * m), Slot(slots, 2 * m + 1);
      Beside(m, node, up, low, high);
      NearIn(m);
      hide Heap.Shape;
      child.left, child.right, child.parent := node.left, node.right, node.parent;
      if child.left != null { child.left.parent := child; }
      if child.right != null { child.right.parent := child; }
      if node.parent == null {
        min := child;
      } else if node.parent.left == node {
        node.parent.left := child;
      } else {
        node.parent.right := child;
      }
    }

    method ReplaceNode(node: HeapNode, child: HeapNode, ghost m: nat)
      requires Shape() && 1 <= m <= |slots| && node == slots[m - 1] && child !in slots
      modifies this, slots, child
      ensures Shape() && slots == old(slots)[m - 1 := child]
    {
      ghost var s := slots;
      TakePlace(node, child, m);
      slots := s[m - 1 := child];
      forall j | 1 <= j <= |slots| ensures LinkedAt(slots, j) { TakenSlot(s, m, child, j); }
    }

    /** The smallest of a node and its children, as the loop in heap_remove picks it. */
    method Smallest(child: HeapNode, less: (int, int) -> bool, ghost k: nat) returns (smallest: HeapNode, ghost c: nat)
      requires StrictWeak(less) && Shape() && 1 <= k <= |slots| && child == slots[k - 1]
      ensures smallest == child ==> forall j :: 2 <= j <= |slots| && j / 2 == k ==> Below(slots, less, j)
      ensures smallest != child ==>
        && 2 <= c <= |slots| && c / 2 == k && smallest == slots[c - 1] && smallest.parent == child
        && less(smallest.key, child.key)
        && (Sibling(c) <= |slots| ==> !less(slots[Sibling(c) - 1].key, smallest.key))
    {
      assert LinkedAt(slots, k);
      assert 2 * k <= |slots| ==> LinkedAt(slots, 2 * k);
      assert 2 * k + 1 <= |slots| ==> LinkedAt(slots, 2 * k + 1);
      smallest := child;
      if child.left != null && less(child.left.key, smallest.key) {
        smallest := child.left;
      }
      if child.right != null && less(child.right.key, smallest.key) {
        smallest := child.right;
      }
      c := if smallest == child.left then 2 * k else 2 * k + 1;
    }

    lemma ShapeDistinct()
      requires Shape()
      ensures Distinct(slots)
    {
    }

    /** One round of the walk down the tree. */
    method StepDown(child: HeapNode, less: (int, int) -> bool, ghost k: nat) returns (done: bool, ghost k': nat)
      requires StrictWeak(less) && Shape() && 1 <= k <= |slots| && child == slots[k - 1]
          && OrderedAround(slots, less, k)
      modifies this`min, this`slots, slots
      ensures Shape() && 1 <= k' <= |slots| == |old(slots)| && child == slots[k' - 1]
      ensures if done then OrderedAbove(slots, less, k') else k < k' && OrderedAround(slots, less, k')
      ensures multiset(slots) == multiset(old(slots)) && forall i :: 0 <= i < |slots| ==> slots[i] in old(slots)
    {
      hide Heap.Shape, OrderedAround, OrderedAbove, StrictWeak, Below, Swapped;
      var smallest; ghost var c;
      smallest, c := Smallest(child, less, k);
      if smallest == child {
        DownEnds(slots, less, k);
        return true, k;
      }
      ghost var s := slots;
      SiftDown(s, less, k, c);
      ShapeDistinct();
      SwapDistinct(s, c);
      SwappedAt(s, c);
      NodeSwap(child, smallest, c);
      done, k' := false, c;
    }

    /** The walk down the tree. */
    method SiftNodeDown(child: HeapNode, less: (int, int) -> bool, ghost k0: nat) returns (ghost k: nat)
      requires StrictWeak(less) && Shape() && 1 <= k0 <= |slots| && child == slots[k0 - 1]
          && OrderedAround(slots, less, k0)
      modifies this`min, this`slots, slots
      ensures Shape() && 1 <= k <= |slots| && child == slots[k - 1] && OrderedAbove(slots, less, k)
      ensures multiset(slots) == multiset(old(slots)) && forall i :: 0 <= i < |slots| ==> slots[i] in old(slots)
    {
      k := k0;
      var done := false;
      hide Heap.Shape, OrderedAround, OrderedAbove, StrictWeak, Below;
      while !done
        invariant Shape() && 1 <= k <= |slots| && child == slots[k - 1]
        invariant if done then OrderedAbove(slots, less, k) else OrderedAround(slots, less, k)
        invariant multiset(slots) == multiset(old(slots)) && forall i :: 0 <= i < |slots| ==> slots[i] in old(slots)
        decreases !done, |slots| - k
      {
        done, k := StepDown(child, less, k);
      }
    }

    /** The last node takes the removed node's place and then finds its own. */
    method RemoveInner(node: HeapNode, child: HeapNode, less: (int, int) -> bool, ghost s: seq<HeapNode>, ghost m: nat)
      requires StrictWeak(less) && Shape() && Ordered(s, less) && s == slots + [child] && child !in slots
      requires 1 <= m <= |slots| && slots[m - 1] == node
      modifies this, slots, child
      ensures Valid(less) && multiset(slots) == multiset(old(slots)) - multiset{node} + multiset{child}
    {
      ghost var t := slots;
      ReplaceOrder(s, less, m);
      assert s[..|s| - 1] == t && t == t[..m - 1] + [node] + t[m..]
          && t[m - 1 := child] == t[..m - 1] + [child] + t[m..];
      hide Heap.Shape, OrderedAround, OrderedAbove, StrictWeak, Ordered;
      ReplaceNode(node, child, m);
      ghost var k := SiftNodeDown(child, less, m);
      SiftNodeUp(child, less, k);
    }

    /** heap_remove */
    method Remove(node: HeapNode?, less: (int, int) -> bool)
      requires StrictWeak(less) && Valid(less) && nelts < 0x1_0000_0000
      requires slots != [] ==> node in slots
      modifies this, slots
      ensures Valid(less) && (old(slots) == [] ==> slots == [])
      ensures old(slots) != [] ==> multiset(slots) == multiset(old(slots)) - multiset{node}
    {
      if nelts == 0 {
        return;
      }
      ghost var s, n := slots, |slots|;
      var child := CutLast();
      CutOrder(s, less);
      if child == node {
        // the source clears min once more if it still points to child, which it no longer does
        assert min != child;
        assert s == slots + [node];
        return;
      }
      ghost var i :| 0 <= i < n && s[i] == node;
      assert slots[i] == node && s == slots + [child];
      RemoveInner(node, child, less, s, i + 1);
    }

    /** heap_dequeue */
    method Dequeue(less: (int, int) -> bool)
      requires StrictWeak(less) && Valid(less) && nelts < 0x1_0000_0000
      modifies this, slots
      ensures Valid(less) && (old(slots) == [] ==> slots == [])
      ensures old(slots) != [] ==> multiset(slots) == multiset(old(slots)) - multiset{old(slots)[0]}
    {
      Remove(min, less);
    }

    /** heap_min: a least node. */
    method Min(less: (int, int) -> bool) returns (least: HeapNode?)
      requires StrictWeak(less) && Valid(less)
      ensures least == null <==> slots == []
      ensures least != null ==> least in slots && forall i :: 0 <= i < |slots| ==> !less(slots[i].key, least.key)
    {
      least := min;
      forall i | 0 <= i < |slots| ensures !less(slots[i].key, slots[0].key) { FirstIsLeast(slots, less, i + 1); }
    }
  }
}
