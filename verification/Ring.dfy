/** The circular doubly linked list of include/os/list.h, on real pointers.
    A head node and the sequence of nodes linked behind it form a ring. */
module Ring {
  import opened Lists

  class Node {
    var next: Node
    var pre: Node

    /** init_list: a node alone is an empty ring. */
    constructor ()
      ensures IsRing(this, [])
    {
      next := this;
      pre := this;
    }
  }

  /** Once round, starting and ending at the head. */
  ghost function Round(head: Node, s: seq<Node>): seq<Node> { [head] + s + [head] }

  ghost predicate Linked(a: Node, b: Node)
    reads a, b
  {
    a.next == b && b.pre == a
  }

  ghost predicate IsRing(head: Node, s: seq<Node>)
    reads head, s
  {
    && head !in s && NoDup(s)
    && forall i :: 0 <= i <= |s| ==> Linked(Round(head, s)[i], Round(head, s)[i + 1])
  }

  lemma Step(head: Node, s: seq<Node>, i: nat)
    requires IsRing(head, s) && i <= |s|
    ensures Linked(Round(head, s)[i], Round(head, s)[i + 1])
  {
  }

  method IsListEmpty(head: Node, ghost s: seq<Node>) returns (empty: bool)
    requires IsRing(head, s)
    ensures empty <==> s == []
  {
    assert Linked(Round(head, s)[0], Round(head, s)[1]);
    empty := head.next == head;
  }

  /** list_add: right behind the head. */
  method ListAdd(head: Node, n: Node, ghost s: seq<Node>)
    requires IsRing(head, s) && n != head && n !in s
    modifies head, s, n
    ensures IsRing(head, [n] + s)
  {
    ghost var p, q := Round(head, s), Round(head, [n] + s);
    assert Linked(p[0], p[1]);
    head.next.pre := n;
    n.next := head.next;
    n.pre := head;
    head.next := n;
    forall i | 0 <= i <= |s| + 1 ensures Linked(q[i], q[i + 1]) {
      if i >= 2 { assert q[i] == p[i - 1] && q[i + 1] == p[i] && old(Linked(p[i - 1], p[i])); }
    }
  }

  /** list_add_tail: right before the head. */
  method ListAddTail(head: Node, n: Node, ghost s: seq<Node>)
    requires IsRing(head, s) && n != head && n !in s
    modifies head, s, n
    ensures IsRing(head, s + [n])
  {
    ghost var p, q := Round(head, s), Round(head, s + [n]);
    assert Linked(p[|s|], p[|s| + 1]);
    head.pre.next := n;
    n.next := head;
    n.pre := head.pre;
    head.pre := n;
    forall i | 0 <= i <= |s| + 1 ensures Linked(q[i], q[i + 1]) {
      if i < |s| { assert old(Linked(p[i], p[i + 1])); }
    }
  }

  ghost function Without(s: seq<Node>, k: nat): seq<Node>
    requires k < |s|
  {
    s[..k] + s[k + 1..]
  }

  /** list_del: the unlinked node keeps its own two pointers. */
  method ListDel(n: Node, ghost head: Node, ghost s: seq<Node>, ghost k: nat)
    requires IsRing(head, s) && k < |s| && s[k] == n
    modifies n.next`pre, n.pre`next
    ensures IsRing(head, Without(s, k))
    ensures n.next == old(n.next) && n.pre == old(n.pre)
  {
    ghost var p, q := Round(head, s), Round(head, Without(s, k));
    assert Linked(p[k], p[k + 1]) && Linked(p[k + 1], p[k + 2]);
    n.next.pre := n.pre;
    n.pre.next := n.next;
    forall i | 0 <= i < |s| ensures Linked(q[i], q[i + 1]) {
      if i < k {
        assert old(Linked(p[i], p[i + 1]));
      } else if i > k {
        assert q[i] == p[i + 1] && q[i + 1] == p[i + 2] && old(Linked(p[i + 1], p[i + 2]));
      }
    }
  }

  // ---- unlinking while going round --------------------------------------------

  /** What is left of s when the nodes in drop are unlinked. */
  ghost function Keep(s: seq<Node>, drop: set<Node>): seq<Node> {
    if s == [] then [] else Keep(s[..|s| - 1], drop) + (if s[|s| - 1] in drop then [] else [s[|s| - 1]])
  }

  lemma {:induction false} KeepMembers(s: seq<Node>, drop: set<Node>)
    ensures forall i :: 0 <= i < |Keep(s, drop)| ==> Keep(s, drop)[i] in s && Keep(s, drop)[i] !in drop
    ensures forall i :: 0 <= i < |s| && s[i] !in drop ==> s[i] in Keep(s, drop)
  {
    if s != [] {
      KeepMembers(s[..|s| - 1], drop);
      assert s == s[..|s| - 1] + [s[|s| - 1]];
    }
  }

  /** The ring after visiting node k of s, with the nodes before it swept. */
  lemma KeepNext(s: seq<Node>, k: nat, drop: set<Node>)
    requires NoDup(s) && k < |s|
    ensures var kept := Keep(s[..k], drop);
            var r := kept + s[k..];
            var r' := Keep(s[..k + 1], drop) + s[k + 1..];
            && r[|kept|] == s[k]
            && (if s[k] in drop then r' == Without(r, |kept|) else r' == r)
            && (forall head :: Round(head, r)[|kept| + 1] == s[k])
            && (forall head :: Round(head, r)[|kept| + 2] == Round(head, s)[k + 2])
  {
    assert s[..k + 1][..k] == s[..k];
  }

  lemma Neighbours(head: Node, s: seq<Node>, k: nat, drop: set<Node>)
    requires NoDup(s) && k < |s| && IsRing(head, Keep(s[..k], drop) + s[k..])
    ensures s[k].next == Round(head, s)[k + 2]
    ensures (s[k].pre == head || s[k].pre in s) && (s[k].next == head || s[k].next in s)
  {
    hide IsRing;
    var kept := Keep(s[..k], drop);
    var r := kept + s[k..];
    KeepNext(s, k, drop);
    Step(head, r, |kept| + 1);
    Step(head, r, |kept|);
    KeepMembers(s[..k], drop);
    if |kept| > 0 { assert s[k].pre == kept[|kept| - 1] && kept[|kept| - 1] in s[..k]; }
  }

  /** The ring when the nodes before k have been visited. */
  ghost function Left(s: seq<Node>, k: nat, drop: set<Node>): seq<Node>
    requires k <= |s|
  {
    Keep(s[..k], drop) + s[k..]
  }

  /** One turn of the loop: the node is unlinked or not, and the loop goes on to the node
      that followed it. */
  method Visit(cur: Node, head: Node, drop: set<Node>, ghost s: seq<Node>, ghost k: nat) returns (next: Node)
    requires NoDup(s) && head !in s && k < |s| && cur == s[k] && IsRing(head, Left(s, k, drop))
    modifies head, s
    ensures next == Round(head, s)[k + 2] && IsRing(head, Left(s, k + 1, drop))
  {
    hide IsRing, Keep;
    KeepNext(s, k, drop);
    Neighbours(head, s, k, drop);
    if cur in drop {
      ListDel(cur, head, Left(s, k, drop), |Keep(s[..k], drop)|);
    }
    next := cur.next;
  }

  /** list_for_each with list_del of the node being visited, as the tick, the
      mutex and the killer use it: every original node is visited exactly
      once, in order, and the ring keeps exactly the others. */
  method Sweep(head: Node, drop: set<Node>, ghost s: seq<Node>) returns (visited: seq<Node>)
    requires IsRing(head, s)
    modifies head, s
    ensures visited == s
    ensures IsRing(head, Keep(s, drop))
  {
    visited := [];
    Step(head, s, 0);
    var cur := head.next;
    ghost var k := 0;
    assert Left(s, 0, drop) == s && head !in s && NoDup(s);
    hide IsRing, Left;
    while cur != head
      invariant 0 <= k <= |s| && visited == s[..k]
      invariant cur == Round(head, s)[k + 1]
      invariant IsRing(head, Left(s, k, drop))
      decreases |s| - k
    {
      SliceNext(head, s, k);
      visited := visited + [cur];
      cur := Visit(cur, head, drop, s, k);
      k := k + 1;
    }
    AllLeft(s, k, drop, head);
  }

  lemma SliceNext(head: Node, s: seq<Node>, k: nat)
    requires k <= |s| && Round(head, s)[k + 1] != head
    ensures k < |s| && Round(head, s)[k + 1] == s[k] && s[..k] + [s[k]] == s[..k + 1]
  {
  }

  lemma AllLeft(s: seq<Node>, k: nat, drop: set<Node>, head: Node)
    requires k <= |s| && head !in s && Round(head, s)[k + 1] == head
    ensures k == |s| && s[..k] == s && Left(s, k, drop) == Keep(s, drop)
  {
    assert s[..|s|] == s;
  }
}
