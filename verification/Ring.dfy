/** The intrusive circular queue: macros that rewrite next and prev links in place. */
module Ring {

  class Link {
    var next: Link
    var prev: Link

    /** QUEUE_INIT */
    constructor ()
      ensures IsRing([this])
    {
      next, prev := this, this;
    }
  }

  ghost predicate Distinct(s: seq<Link>) {
    forall i, j :: 0 <= i < j < |s| ==> s[i] != s[j]
  }

  /** Each element is linked both ways with the one behind it. */
  ghost predicate Chain(s: seq<Link>)
    reads s
  {
    forall i :: 0 <= i < |s| - 1 ==> s[i].next == s[i + 1] && s[i + 1].prev == s[i]
  }

  /** The links of s lead round the whole sequence, both ways; s[0] is the queue's own head. */
  ghost predicate IsRing(s: seq<Link>)
    reads s
  {
    s != [] && Distinct(s) && Chain(s) && s[|s| - 1].next == s[0] && s[0].prev == s[|s| - 1]
  }

  lemma ChainParts(a: seq<Link>, b: seq<Link>)
    requires a != [] && b != []
    ensures Chain(a + b) <==> Chain(a) && Chain(b) && a[|a| - 1].next == b[0] && b[0].prev == a[|a| - 1]
  {
    var s := a + b;
    if Chain(s) {
      assert s[|a| - 1].next == s[|a|];
      forall i | 0 <= i < |b| - 1 ensures b[i].next == b[i + 1] && b[i + 1].prev == b[i] {
        assert s[|a| + i] == b[i] && s[|a| + i + 1] == b[i + 1];
      }
      forall i | 0 <= i < |a| - 1 ensures a[i].next == a[i + 1] && a[i + 1].prev == a[i] {
        assert s[i] == a[i] && s[i + 1] == a[i + 1];
      }
    }
  }

  lemma DistinctParts(a: seq<Link>, b: seq<Link>)
    ensures Distinct(a + b) ==> Distinct(a) && Distinct(b) && forall x :: x in a ==> x !in b
    ensures Distinct(a) && Distinct(b) && (forall x :: x in a ==> x !in b) ==> Distinct(a + b)
  {
    var s := a + b;
    if Distinct(s) {
      forall i, j | 0 <= i < j < |b| ensures b[i] != b[j] { assert s[|a| + i] == b[i] && s[|a| + j] == b[j]; }
      forall i, j | 0 <= i < j < |a| ensures a[i] != a[j] { assert s[i] == a[i] && s[j] == a[j]; }
      forall i, j | 0 <= i < |a| && 0 <= j < |b| ensures a[i] != b[j] { assert s[i] == a[i] && s[|a| + j] == b[j]; }
    }
    if Distinct(a) && Distinct(b) && forall x :: x in a ==> x !in b {
      forall i, j | 0 <= i < j < |s| ensures s[i] != s[j] {
        if i < |a| <= j { assert s[i] == a[i] && s[j] == b[j - |a|] && a[i] in a; }
      }
    }
  }

  /** A chain whose inner links have not been touched. */
  twostate lemma ChainKept(s: seq<Link>)
    requires old(Chain(s)) && Distinct(s) && s != []
    requires forall x :: x in s && x != s[|s| - 1] ==> x.next == old(x.next)
    requires forall x :: x in s && x != s[0] ==> x.prev == old(x.prev)
    ensures Chain(s)
  {
    forall i | 0 <= i < |s| - 1 ensures s[i].next == s[i + 1] && s[i + 1].prev == s[i] {
      assert s[i] in s && s[i + 1] in s;
    }
  }

  /** QUEUE_EMPTY */
  method IsEmpty(h: Link, ghost a: seq<Link>) returns (empty: bool)
    requires IsRing([h] + a)
    ensures empty <==> a == []
  {
    if a != [] { assert ([h] + a)[1] == a[0] && ([h] + a)[0] == h; }
    empty := h == h.next;
  }

  /** QUEUE_HEAD */
  method First(h: Link, ghost a: seq<Link>) returns (q: Link)
    requires IsRing([h] + a)
    ensures q == if a == [] then h else a[0]
  {
    if a != [] { assert ([h] + a)[1] == a[0] && ([h] + a)[0] == h; }
    q := h.next;
  }

  /** QUEUE_INSERT_TAIL */
  method InsertTail(h: Link, q: Link, ghost a: seq<Link>)
    requires IsRing([h] + a) && q != h && q !in a
    modifies h, q, h.prev
    ensures IsRing([h] + a + [q])
  {
    ghost var s := [h] + a;
    DistinctParts(s, [q]);
    q.next := h;
    q.prev := h.prev;
    q.prev.next := q;
    h.prev := q;
    ChainKept(s);
    ChainParts(s, [q]);
  }

  /** QUEUE_INSERT_HEAD */
  method InsertHead(h: Link, q: Link, ghost a: seq<Link>)
    requires IsRing([h] + a) && q != h && q !in a
    modifies h, q, h.next
    ensures IsRing([h, q] + a)
  {
    ghost var s := [h] + a;
    DistinctParts([h], a);
    DistinctParts([q], a);
    DistinctParts([h], [q] + a);
    if a != [] { ChainParts([h], a); }
    q.next := h.next;
    q.prev := h;
    q.next.prev := q;
    h.next := q;
    assert [h, q] + a == [h] + ([q] + a);
    if a != [] {
      ChainKept(a);
      ChainParts([q], a);
    } else {
      assert [q] + a == [q];
    }
    ChainParts([h], [q] + a);
  }

  /** QUEUE_REMOVE: the element's own links stay as they were. */
  method Remove(q: Link, ghost a: seq<Link>, ghost b: seq<Link>)
    requires IsRing(a + [q] + b) && a != []
    modifies q.prev, q.next
    ensures IsRing(a + b)
    ensures q.next == old(q.next) && q.prev == old(q.prev)
  {
    DistinctParts(a, [q] + b);
    DistinctParts([q], b);
    assert a + [q] + b == a + ([q] + b);
    ChainParts(a, [q] + b);
    if b != [] {
      ChainParts([q], b);
      assert (a + [q] + b)[|a| + |b|] == b[|b| - 1] && (a + [q] + b)[0] == a[0];
    }
    assert forall x :: x in a ==> x !in b by { assert forall x :: x in b ==> x in [q] + b; }
    DistinctParts(a, b);
    assert a[|a| - 1] in a && (b != [] ==> b[|b| - 1] in b);
    q.prev.next := q.next;
    q.next.prev := q.prev;
    ChainKept(a);
    if b != [] {
      ChainKept(b);
      ChainParts(a, b);
      assert (a + b)[|a| + |b| - 1] == b[|b| - 1] && (a + b)[0] == a[0];
    } else {
      assert a + b == a;
    }
  }

  /** QUEUE_ADD: what hangs on n moves to the end of h; n itself is left out. */
  method Add(h: Link, n: Link, ghost a: seq<Link>, ghost b: seq<Link>)
    requires IsRing([h] + a) && IsRing([n] + b) && b != []
    requires n !in [h] + a && forall x :: x in [h] + a ==> x !in b
    modifies h, n, h.prev, n.next, n.prev
    ensures IsRing([h] + a + b)
  {
    ghost var s := [h] + a;
    DistinctParts([n], b);
    DistinctParts(s, b);
    ChainParts([n], b);
    assert ([n] + b)[|b|] == b[|b| - 1];
    h.prev.next := n.next;
    n.next.prev := h.prev;
    h.prev := n.prev;
    h.prev.next := h;
    ChainKept(s);
    ChainKept(b);
    ChainParts(s, b);
  }

  /** QUEUE_SPLIT: from q on everything moves to n. */
  method Split(h: Link, q: Link, n: Link, ghost a: seq<Link>, ghost b: seq<Link>)
    requires IsRing([h] + a + b) && b != [] && b[0] == q && n != h && n !in a && n !in b
    modifies h, n, q, h.prev, q.prev
    ensures IsRing([h] + a) && IsRing([n] + b)
  {
    ghost var s := [h] + a;
    DistinctParts(s, b);
    DistinctParts([n], b);
    ChainParts(s, b);
    assert (s + b)[|s| + |b| - 1] == b[|b| - 1] && (s + b)[0] == s[0] == h && h in s && s[|s| - 1] in s;
    n.prev := h.prev;
    n.prev.next := n;
    n.next := q;
    h.prev := q.prev;
    h.prev.next := h;
    q.prev := n;
    ChainKept(s);
    ChainKept(b);
    ChainParts([n], b);
    assert ([n] + b)[|b|] == b[|b| - 1];
  }

  /** uv__work_done takes the whole of the loop's queue over, if there is anything in it. */
  method TakeAll(h: Link, n: Link, ghost a: seq<Link>)
    requires IsRing([h] + a) && n != h && n !in a && IsRing([n])
    modifies h, n, a
    ensures IsRing([h]) && IsRing([n] + a)
  {
    var empty := IsEmpty(h, a);
    if !empty {
      var q := First(h, a);
      assert [h] + [] + a == [h] + a && [h] + [] == [h];
      assert ([h] + a)[|a|] == a[|a| - 1] && ([h] + a)[1] == a[0];
      Split(h, q, n, [], a);
    } else {
      assert [h] + a == [h] && [n] + a == [n];
    }
  }
}
