/** The list operations on real pointers (include/os/list.h), wherever the nodes are: they do
    to the objects what RingLinks says they do to the links. */
module RingNodes {
  import opened Lists
  import opened RingLinks
  import Ring

  /** The nodes that the links speak of: the head's and one for each owner. */
  predicate InNodes(nodes: map<nat, Ring.Node>, n: Nd) { n == Head || n.owner in nodes }

  function NodeOf(head: Ring.Node, nodes: map<nat, Ring.Node>, n: Nd): Ring.Node
    requires InNodes(nodes, n)
  {
    if n == Head then head else nodes[n.owner]
  }

  ghost predicate Separate(head: Ring.Node, nodes: map<nat, Ring.Node>) {
    && (forall t :: t in nodes ==> nodes[t] != head)
    && (forall t, u :: t in nodes && u in nodes && t != u ==> nodes[t] != nodes[u])
  }

  ghost predicate Shown(head: Ring.Node, nodes: map<nat, Ring.Node>, l: Links, n: Nd)
    requires InNodes(nodes, n)
    reads head, nodes.Values
  {
    var o := NodeOf(head, nodes, n);
    && InNodes(nodes, Next(l, n)) && o.next == NodeOf(head, nodes, Next(l, n))
    && InNodes(nodes, Pre(l, n)) && o.pre == NodeOf(head, nodes, Pre(l, n))
  }

  /** The objects' pointers are the links. */
  ghost predicate Shows(head: Ring.Node, nodes: map<nat, Ring.Node>, l: Links)
    reads head, nodes.Values
  {
    Separate(head, nodes) && forall n {:trigger Shown(head, nodes, l, n)} :: InNodes(nodes, n) ==> Shown(head, nodes, l, n)
  }

  lemma NodesDiffer(head: Ring.Node, nodes: map<nat, Ring.Node>, a: Nd, b: Nd)
    requires Separate(head, nodes) && InNodes(nodes, a) && InNodes(nodes, b)
    ensures NodeOf(head, nodes, a) == NodeOf(head, nodes, b) <==> a == b
  {
  }

  lemma NodeShown(head: Ring.Node, nodes: map<nat, Ring.Node>, l: Links, n: Nd)
    requires Shows(head, nodes, l) && InNodes(nodes, n)
    ensures InNodes(nodes, Next(l, n)) && NodeOf(head, nodes, n).next == NodeOf(head, nodes, Next(l, n))
  {
    assert Shown(head, nodes, l, n);
  }

  /** list_add_tail. */
  method ListAddTail(head: Ring.Node, n: Ring.Node, ghost nodes: map<nat, Ring.Node>, ghost l: Links, ghost t: nat)
    requires Shows(head, nodes, l) && t in nodes && nodes[t] == n
    modifies head, nodes.Values
    ensures Shows(head, nodes, AddTail(l, t))
  {
    hide AddTail, Next, Pre;
    assert Shown(head, nodes, l, Head);
    head.pre.next := n;
    n.next := head;
    n.pre := head.pre;
    head.pre := n;
    forall a | InNodes(nodes, a) ensures Shown(head, nodes, AddTail(l, t), a) {
      assert old(Shown(head, nodes, l, a));
      AddReads(l, t, a);
      NodesDiffer(head, nodes, a, Pre(l, Head));
    }
  }

  /** list_del. */
  method ListDel(n: Ring.Node, ghost head: Ring.Node, ghost nodes: map<nat, Ring.Node>, ghost l: Links, ghost t: nat)
    requires Shows(head, nodes, l) && t in nodes && nodes[t] == n
    modifies head, nodes.Values
    ensures Shows(head, nodes, Unlink(l, t))
  {
    hide Unlink, Next, Pre;
    assert Shown(head, nodes, l, Of(t));
    n.next.pre := n.pre;
    n.pre.next := n.next;
    forall a | InNodes(nodes, a) ensures Shown(head, nodes, Unlink(l, t), a) {
      assert old(Shown(head, nodes, l, a));
      UnlinkReads(l, t, a);
      NodesDiffer(head, nodes, a, Pre(l, Of(t)));
      NodesDiffer(head, nodes, a, Next(l, Of(t)));
    }
  }

  ghost function Objects(nodes: map<nat, Ring.Node>, s: seq<nat>): seq<Ring.Node>
    requires forall t :: t in s ==> t in nodes
  {
    seq(|s|, i requires 0 <= i < |s| => nodes[s[i]])
  }

  /** The objects form a ring if and only if the links do. */
  lemma RingsAgree(head: Ring.Node, nodes: map<nat, Ring.Node>, l: Links, s: seq<nat>)
    requires Shows(head, nodes, l) && forall t :: t in s ==> t in nodes
    ensures IsRing(l, s) <==> Ring.IsRing(head, Objects(nodes, s))
  {
    var r := Objects(nodes, s);
    var p := Ring.Round(head, r);
    assert forall i :: 0 <= i <= |s| + 1 ==> InNodes(nodes, Spot(s, i)) && p[i] == NodeOf(head, nodes, Spot(s, i));
    forall i | 0 <= i <= |s| ensures Ring.Linked(p[i], p[i + 1]) <==> Joined(l, Spot(s, i), Spot(s, i + 1)) {
      assert Shown(head, nodes, l, Spot(s, i)) && Shown(head, nodes, l, Spot(s, i + 1));
      NodesDiffer(head, nodes, Next(l, Spot(s, i)), Spot(s, i + 1));
      NodesDiffer(head, nodes, Pre(l, Spot(s, i + 1)), Spot(s, i));
    }
    forall i, j | 0 <= i < j < |s| ensures r[i] != r[j] <==> s[i] != s[j] { NodesDiffer(head, nodes, Of(s[i]), Of(s[j])); }
    if IsRing(l, s) {
      forall i | 0 <= i <= |r| ensures Ring.Linked(p[i], p[i + 1]) { assert Joined(l, Spot(s, i), Spot(s, i + 1)); }
    }
    if Ring.IsRing(head, r) {
      forall i | 0 <= i <= |s| ensures Joined(l, Spot(s, i), Spot(s, i + 1)) { assert Ring.Linked(p[i], p[i + 1]); }
    }
  }
}
