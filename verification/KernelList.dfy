/**
 * The kernel's intrusive doubly linked list, as the driver uses it for `dmaq->active`
 * (lkml/v4l2/vid4linux.c): list_add_tail, list_empty and list_del of the first entry. The links
 * live in the buffers themselves, so a buffer has one pair of links whatever the list it is on.
 */
module KernelList {

  /** The list head or the links of a buffer. */
  datatype Node = Head | Buf(id: nat)

  /** The next and prev pointers; a node whose links are poisoned is in neither map. */
  datatype Links = Links(next: map<Node, Node>, prev: map<Node, Node>)

  /** INIT_LIST_HEAD. */
  const EMPTY: Links := Links(map[Head := Head], map[Head := Head])

  function Follow(m: map<Node, Node>, a: Node): Node {
    if a in m then m[a] else Head
  }

  /** list_add_tail: between the last entry and the head, by four stores in this order. */
  function AddTail(l: Links, b: nat): Links {
    var x, last := Buf(b), Follow(l.prev, Head);
    Links(l.next[x := Head][last := x], l.prev[Head := x][x := last])
  }

  /** list_del: the neighbours are joined and the entry's links poisoned. */
  function Delete(l: Links, b: nat): Links {
    var x := Buf(b);
    var before, after := Follow(l.prev, x), Follow(l.next, x);
    Links(l.next[before := after] - {x}, l.prev[after := before] - {x})
  }

  // ---------------------------------------------------------------- what links stand for

  /** Position `k` on the ring through the head and the entries of `q`. */
  function Ring(q: seq<nat>, k: nat): Node {
    if 1 <= k <= |q| then Buf(q[k - 1]) else Head
  }

  ghost predicate Joined(l: Links, a: Node, b: Node) {
    a in l.next && l.next[a] == b && b in l.prev && l.prev[b] == a
  }

  ghost predicate Distinct(q: seq<nat>) {
    forall i, j | 0 <= i < j < |q| :: q[i] != q[j]
  }

  /** The links are those of a well-formed list with the entries `q`. */
  ghost predicate Holds(l: Links, q: seq<nat>) {
    Distinct(q) && forall k: nat | k <= |q| :: Joined(l, Ring(q, k), Ring(q, k + 1))
  }

  lemma EmptyHolds()
    ensures Holds(EMPTY, [])
  {
  }

  lemma LastOf(l: Links, q: seq<nat>)
    requires Holds(l, q)
    ensures Follow(l.prev, Head) == Ring(q, |q|)
  {
    assert Joined(l, Ring(q, |q|), Ring(q, |q| + 1));
  }

  /** list_empty tells the truth, and otherwise the first entry is found behind the head. */
  lemma FirstOf(l: Links, q: seq<nat>)
    requires Holds(l, q)
    ensures Follow(l.next, Head) == Head <==> q == []
    ensures q != [] ==> Follow(l.next, Head) == Buf(q[0])
  {
    assert Joined(l, Ring(q, 0), Ring(q, 1));
  }

  /** Whatever the head points to points back to it. */
  lemma HeadIsBeforeFirst(l: Links, q: seq<nat>)
    requires Holds(l, q)
    ensures Head in l.next && l.next[Head] in l.prev && l.prev[l.next[Head]] == Head
  {
    assert Joined(l, Ring(q, 0), Ring(q, 1));
  }

  /** Appending a buffer that is not on the list. */
  lemma AddTailAppends(l: Links, q: seq<nat>, b: nat)
    requires Holds(l, q) && b !in q
    ensures Holds(AddTail(l, b), q + [b])
  {
    var l', q' := AddTail(l, b), q + [b];
    LastOf(l, q);
    forall k: nat | k <= |q'| ensures Joined(l', Ring(q', k), Ring(q', k + 1)) {
      if k < |q| {
        assert Joined(l, Ring(q, k), Ring(q, k + 1));
        assert Ring(q', k) == Ring(q, k) && Ring(q', k + 1) == Ring(q, k + 1);
        assert Ring(q, k) != Ring(q, |q|);
      } else if k == |q| {
        assert Ring(q', k) == Ring(q, k) && Ring(q', k + 1) == Buf(b);
      }
    }
  }

  /** Removing the first entry. */
  lemma DeleteFirst(l: Links, q: seq<nat>)
    requires Holds(l, q) && q != []
    ensures Holds(Delete(l, q[0]), q[1..])
    ensures Buf(q[0]) !in Delete(l, q[0]).next && Buf(q[0]) !in Delete(l, q[0]).prev
  {
    var l', q' := Delete(l, q[0]), q[1..];
    assert Joined(l, Ring(q, 0), Ring(q, 1)) && Joined(l, Ring(q, 1), Ring(q, 2));
    forall k: nat | k <= |q'| ensures Joined(l', Ring(q', k), Ring(q', k + 1)) {
      assert Joined(l, Ring(q, k + 1), Ring(q, k + 2));
      assert Ring(q', k + 1) == Ring(q, k + 2);
      if k > 0 {
        assert Ring(q', k) == Ring(q, k + 1);
      }
    }
  }

  // ---------------------------------------------------------------- adding an entry twice

  /**
   * What a second list_add_tail of entry `i` stores. The last entry is made to point to itself
   * both ways; any other now ends the list behind the old last one, and its successors are
   * reached no more from the head.
   */
  lemma RelinkStores(l: Links, q: seq<nat>, i: nat)
    requires Holds(l, q) && i < |q|
    ensures var l', x, last := AddTail(l, q[i]), Buf(q[i]), Buf(q[|q| - 1]);
            && Head in l'.prev && l'.prev[Head] == x && x in l'.prev && l'.prev[x] == last
            && x in l'.next && last in l'.next && l'.next[last] == x
            && l'.next[x] == (if i == |q| - 1 then x else Head)
            && Head in l'.next && l'.next[Head] == Buf(q[0])
  {
    LastOf(l, q);
    FirstOf(l, q);
    HeadIsBeforeFirst(l, q);
  }

  /**
   * The links after a second list_add_tail of entry `i`, read backwards from the head: the added
   * entry, then the old entries from the last one down.
   */
  lemma {:induction false} BackwardsAfterRelink(l: Links, q: seq<nat>, i: nat, r: seq<nat>, k: nat)
    requires Holds(l, q) && i < |q| && Holds(AddTail(l, q[i]), r)
    requires k <= |q| - 1 - i
    ensures k + 2 <= |r| && r[|r| - 1] == q[i] && r[|r| - 2 - k] == q[|q| - 1 - k]
  {
    var l', n, m := AddTail(l, q[i]), |q|, |r|;
    LastOf(l, q);
    assert Joined(l', Ring(r, m), Ring(r, m + 1));
    assert m > 0 && r[m - 1] == q[i];
    if k == 0 {
      assert Joined(l', Ring(r, m - 1), Ring(r, m));
    } else {
      BackwardsAfterRelink(l, q, i, r, k - 1);
      assert Joined(l, Ring(q, n - k), Ring(q, n - k + 1));
      assert Joined(l', Ring(r, m - 1 - k), Ring(r, m - k));
    }
  }

  /** No list has the links that result from adding an entry that is already there. */
  lemma RelinkedIsNoList(l: Links, q: seq<nat>, b: nat, r: seq<nat>)
    requires Holds(l, q) && b in q
    ensures !Holds(AddTail(l, b), r)
  {
    var i :| 0 <= i < |q| && q[i] == b;
    if Holds(AddTail(l, b), r) {
      BackwardsAfterRelink(l, q, i, r, |q| - 1 - i);
    }
  }

  /**
   * list_add_tail leaves a list if and only if the buffer was not on it, and then the list with
   * the buffer appended; adding a buffer that is linked already destroys the links.
   */
  lemma AddTailKeepsListIff(l: Links, q: seq<nat>, b: nat)
    requires Holds(l, q)
    ensures (exists r :: Holds(AddTail(l, b), r)) <==> b !in q
    ensures b !in q ==> Holds(AddTail(l, b), q + [b])
  {
    if b !in q {
      AddTailAppends(l, q, b);
    } else {
      forall r ensures !Holds(AddTail(l, b), r) {
        RelinkedIsNoList(l, q, b, r);
      }
    }
  }
}
