/** include/util_list.h: the circular doubly linked list, refined to sequences. */
module UtilList {
  import opened Lists

  class ListNode {
    var prev: ListNode?
    var next: ListNode?
  }

  // A ring headed by `h` over `s` has |s| + 1 gaps; these are the nodes before and after gap `i`.
  ghost function Left(h: ListNode, s: seq<ListNode>, i: nat): ListNode
    requires i <= |s|
  {
    if i == 0 then h else s[i - 1]
  }

  ghost function Right(h: ListNode, s: seq<ListNode>, i: nat): ListNode
    requires i <= |s|
  {
    if i == |s| then h else s[i]
  }

  ghost predicate Linked(h: ListNode, s: seq<ListNode>, i: nat)
    requires i <= |s|
    reads h, s
  {
    Left(h, s, i).next == Right(h, s, i) && Right(h, s, i).prev == Left(h, s, i)
  }

  /** `h` heads a ring whose other nodes are `s`, in order. */
  ghost predicate Ring(h: ListNode, s: seq<ListNode>)
    reads h, s
  {
    && NoTwice(s) && h !in s
    && forall i :: 0 <= i <= |s| ==> Linked(h, s, i)
  }

  /** Different gaps have different nodes on either side. */
  lemma GapsApart(h: ListNode, s: seq<ListNode>, i: nat, j: nat)
    requires NoTwice(s) && h !in s && i <= |s| && j <= |s| && i != j
    ensures Left(h, s, i) != Left(h, s, j) && Right(h, s, i) != Right(h, s, j)
  {}

  /** The nodes of a ring are determined by its head. */
  lemma RingUnique(h: ListNode, s: seq<ListNode>, t: seq<ListNode>)
    requires Ring(h, s) && Ring(h, t)
    ensures s == t
  {
    var n := if |s| <= |t| then |s| else |t|;
    SameNodes(h, s, t, n);
    assert Linked(h, s, n) && Linked(h, t, n);
    assert n > 0 ==> s[..n][n - 1] == s[n - 1] && t[..n][n - 1] == t[n - 1];
    assert Left(h, s, n) == Left(h, t, n);
  }

  lemma {:induction false} SameNodes(h: ListNode, s: seq<ListNode>, t: seq<ListNode>, n: nat)
    requires Ring(h, s) && Ring(h, t) && n <= |s| && n <= |t|
    ensures s[..n] == t[..n]
  {
    if n == 0 {
    } else {
      SameNodes(h, s, t, n - 1);
      assert n > 1 ==> s[..n - 1][n - 2] == t[..n - 1][n - 2];
      assert Linked(h, s, n - 1) && Linked(h, t, n - 1);
      assert Left(h, s, n - 1) == Left(h, t, n - 1);
    }
  }

  method InitListHead(h: ListNode)
    modifies h
    ensures Ring(h, [])
  {
    h.next := h;
    h.prev := h;
  }

  /** `list_add__`: puts `e` between two neighbours of a ring, in gap `k`. */
  method AddBetween(e: ListNode, p: ListNode, n: ListNode, ghost h: ListNode, ghost s: seq<ListNode>, ghost k: nat)
    requires Ring(h, s) && e != h && e !in s
    requires k <= |s| && p == Left(h, s, k) && n == Right(h, s, k)
    modifies e, p, n
    ensures Ring(h, s[..k] + [e] + s[k..])
  {
    ghost var t := s[..k] + [e] + s[k..];
    assert forall i :: 0 <= i <= |s| ==> Linked(h, s, i);
    n.prev := e;
    e.next := n;
    e.prev := p;
    p.next := e;
    forall i | 0 <= i <= |t| ensures Linked(h, t, i) {
      if i < k {
        assert old(Linked(h, s, i)) && Left(h, t, i) == Left(h, s, i) && Right(h, t, i) == Right(h, s, i);
        GapsApart(h, s, i, k);
      } else if i > k + 1 {
        assert old(Linked(h, s, i - 1)) && Left(h, t, i) == Left(h, s, i - 1) && Right(h, t, i) == Right(h, s, i - 1);
        GapsApart(h, s, i - 1, k);
      }
    }
  }

  method AddHead(e: ListNode, h: ListNode, ghost s: seq<ListNode>)
    requires Ring(h, s) && e != h && e !in s
    modifies e, h, h.next
    ensures Ring(h, [e] + s)
  {
    assert Linked(h, s, 0);
    AddBetween(e, h, h.next, h, s, 0);
    assert s[..0] + [e] + s[0..] == [e] + s;
  }

  method AddTail(e: ListNode, h: ListNode, ghost s: seq<ListNode>)
    requires Ring(h, s) && e != h && e !in s
    modifies e, h, h.prev
    ensures Ring(h, s + [e])
  {
    assert Linked(h, s, |s|);
    AddBetween(e, h.prev, h, h, s, |s|);
    assert s[..|s|] + [e] + s[|s|..] == s + [e];
  }

  /** `list_del` needs no head: the node knows its neighbours. */
  method Del(e: ListNode, ghost h: ListNode, ghost s: seq<ListNode>, ghost k: nat)
    requires Ring(h, s) && k < |s| && s[k] == e
    modifies e, e.prev, e.next
    ensures Ring(h, s[..k] + s[k + 1..]) && e.next == null && e.prev == null
  {
    ghost var t := s[..k] + s[k + 1..];
    assert forall i :: 0 <= i <= |s| ==> Linked(h, s, i);
    assert Linked(h, s, k) && Linked(h, s, k + 1);
    e.next.prev := e.prev;
    e.prev.next := e.next;
    e.next, e.prev := null, null;
    forall i | 0 <= i <= |t| ensures Linked(h, t, i) {
      if i < k {
        assert old(Linked(h, s, i)) && Left(h, t, i) == Left(h, s, i) && Right(h, t, i) == Right(h, s, i);
        GapsApart(h, s, i, k);
        GapsApart(h, s, i, k + 1);
      } else if i > k {
        assert old(Linked(h, s, i + 1)) && Left(h, t, i) == Left(h, s, i + 1) && Right(h, t, i) == Right(h, s, i + 1);
        GapsApart(h, s, i + 1, k);
        GapsApart(h, s, i + 1, k + 1);
      }
    }
  }

  method IsEmpty(h: ListNode, ghost s: seq<ListNode>) returns (b: bool)
    requires Ring(h, s)
    ensures b <==> s == []
  {
    assert Linked(h, s, 0) && Linked(h, s, |s|);
    b := h.next == h && h.prev == h;
  }

  /** One turn of `list_foreach_remove`: steps on before the node comes off. */
  method DelFirst(e: ListNode, ghost h: ListNode, ghost s: seq<ListNode>) returns (pos: ListNode)
    requires Ring(h, s) && s != [] && e == s[0]
    modifies e, e.prev, e.next
    ensures Ring(h, s[1..]) && pos == Right(h, s[1..], 0)
    ensures e.next == null && e.prev == null
  {
    WithoutFirst(h, s);
    assert Linked(h, s, 0) && Linked(h, s, 1);
    pos := e.next;
    Del(e, h, s, 0);
  }

  lemma WithoutFirst(h: ListNode, s: seq<ListNode>)
    requires s != []
    ensures s[..0] + s[1..] == s[1..] && Right(h, s[1..], 0) == Right(h, s, 1)
  {}

  /** `list_foreach_remove` around `list_del`: the nodes come off in order, each isolated. */
  method Drain(h: ListNode, ghost s: seq<ListNode>) returns (out: seq<ListNode>)
    requires Ring(h, s)
    modifies h, s
    ensures out == s && Ring(h, [])
    ensures forall i :: 0 <= i < |s| ==> s[i].next == null && s[i].prev == null
  {
    out := [];
    ghost var n := 0;
    assert Linked(h, s, 0);
    var pos: ListNode := h.next;
    var tmp: ListNode := pos;
    while tmp != h
      invariant n <= |s| && out == s[..n] && Ring(h, s[n..])
      invariant tmp == Right(h, s[n..], 0) && tmp == pos
      invariant forall i :: 0 <= i < n ==> s[i].next == null && s[i].prev == null
      decreases |s| - n
    {
      assert tmp == s[n] && s[n..][1..] == s[n + 1..];
      assert Linked(h, s[n..], 0) && Linked(h, s[n..], 1);
      pos := DelFirst(tmp, h, s[n..]);
      out := out + [tmp];
      n := n + 1;
      tmp := pos;
    }
  }
}
