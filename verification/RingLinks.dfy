/** The links of a ring as values (include/os/list.h): every node's two pointers, whether it
    is on the ring or not, so that list operations on nodes in the wrong place have a
    meaning. Ring holds the same operations on objects. */
module RingLinks {
  import opened Lists

  /** The head of the list, or the list node embedded in an owner. */
  datatype Nd = Head | Of(owner: nat)

  datatype Links = Links(next: map<Nd, Nd>, pre: map<Nd, Nd>)

  /** A node nobody has written to points at itself, as init_list leaves it. */
  function Next(l: Links, n: Nd): Nd { if n in l.next then l.next[n] else n }

  function Pre(l: Links, n: Nd): Nd { if n in l.pre then l.pre[n] else n }

  function Init(l: Links, t: nat): Links { Links(l.next[Of(t) := Of(t)], l.pre[Of(t) := Of(t)]) }

  /** list_add_tail, in the order of its four writes. */
  function AddTail(l: Links, t: nat): Links {
    var n, p := Of(t), Pre(l, Head);
    Links(l.next[p := n][n := Head], l.pre[n := p][Head := n])
  }

  /** list_del: the node's own two pointers stay. */
  function Unlink(l: Links, t: nat): Links {
    var p, m := Pre(l, Of(t)), Next(l, Of(t));
    Links(l.next[p := m], l.pre[m := p])
  }

  // ---- rings ------------------------------------------------------------------------------

  /** Once round: the head, the owners, the head again. */
  function Spot(s: seq<nat>, i: int): Nd { if 1 <= i <= |s| then Of(s[i - 1]) else Head }

  ghost predicate Joined(l: Links, a: Nd, b: Nd) { Next(l, a) == b && Pre(l, b) == a }

  ghost predicate IsRing(l: Links, s: seq<nat>) {
    NoDup(s) && forall i :: 0 <= i <= |s| ==> Joined(l, Spot(s, i), Spot(s, i + 1))
  }

  predicate On(s: seq<nat>, n: Nd) { n == Head || n.owner in s }

  lemma Around(l: Links, s: seq<nat>, i: nat)
    requires IsRing(l, s) && i <= |s|
    ensures Next(l, Spot(s, i)) == Spot(s, i + 1) && Pre(l, Spot(s, i + 1)) == Spot(s, i)
  {
    assert Joined(l, Spot(s, i), Spot(s, i + 1));
  }

  /** Following next from the head, a ring can only be what the pointers say. */
  lemma {:induction false} Forward(l: Links, q: seq<nat>, s: seq<nat>, k: nat, i: nat)
    requires IsRing(l, q) && i <= k <= |s|
    requires forall j :: 0 <= j < k ==> Next(l, Spot(s, j)) == Spot(s, j + 1)
    ensures i <= |q| && Spot(q, i) == Spot(s, i)
  {
    if i > 0 {
      Forward(l, q, s, k, i - 1);
      Around(l, q, i - 1);
      assert Next(l, Spot(s, i - 1)) == Spot(s, i);
    }
  }

  /** So can it following pre. */
  lemma {:induction false} Backward(l: Links, q: seq<nat>, s: seq<nat>, i: nat)
    requires IsRing(l, q) && i <= |s|
    requires forall j :: 0 <= j <= |s| ==> Pre(l, Spot(s, j + 1)) == Spot(s, j)
    ensures i <= |q| && Spot(q, |q| + 1 - i) == Spot(s, |s| + 1 - i)
  {
    if i > 0 {
      Backward(l, q, s, i - 1);
      Around(l, q, |q| + 1 - i);
      assert Pre(l, Spot(s, |s| - i + 1 + 1)) == Spot(s, |s| - i + 1);
    }
  }

  /** The pointers leave no choice: next alone decides the ring, and so does pre. */
  lemma NextDecides(l: Links, q: seq<nat>, s: seq<nat>)
    requires IsRing(l, q) && forall j :: 0 <= j <= |s| ==> Next(l, Spot(s, j)) == Spot(s, j + 1)
    ensures q == s
  {
    Forward(l, q, s, |s|, |s|);
    Around(l, q, |s|);
    assert Next(l, Spot(s, |s|)) == Spot(s, |s| + 1);
    forall i | 0 <= i < |s| ensures q[i] == s[i] { Forward(l, q, s, |s|, i + 1); }
  }

  lemma PreDecides(l: Links, q: seq<nat>, s: seq<nat>)
    requires IsRing(l, q) && forall j :: 0 <= j <= |s| ==> Pre(l, Spot(s, j + 1)) == Spot(s, j)
    ensures q == s
  {
    Backward(l, q, s, |s|);
    Around(l, q, |q| - |s|);
    assert Pre(l, Spot(s, 1)) == Spot(s, 0);
    forall i | 0 <= i < |s| ensures q[i] == s[i] { Backward(l, q, s, |s| - i); }
  }

  lemma RingIsOne(l: Links, q: seq<nat>, s: seq<nat>)
    requires IsRing(l, q) && IsRing(l, s)
    ensures q == s
  {
    forall j | 0 <= j <= |s| ensures Next(l, Spot(s, j)) == Spot(s, j + 1) { Around(l, s, j); }
    NextDecides(l, q, s);
  }

  /** A node off the ring may be set up anew. */
  lemma InitKeeps(l: Links, s: seq<nat>, t: nat)
    requires IsRing(l, s) && t !in s
    ensures IsRing(Init(l, t), s)
    ensures Next(Init(l, t), Of(t)) == Pre(Init(l, t), Of(t)) == Of(t)
    ensures forall n :: n != Of(t) ==> Next(Init(l, t), n) == Next(l, n) && Pre(Init(l, t), n) == Pre(l, n)
  {
    forall i | 0 <= i <= |s| ensures Joined(Init(l, t), Spot(s, i), Spot(s, i + 1)) { Around(l, s, i); }
  }

  /** A node that points at itself is not on the ring. */
  lemma OffWhenSelf(l: Links, s: seq<nat>, t: nat)
    requires IsRing(l, s) && Next(l, Of(t)) == Of(t)
    ensures t !in s
  {
    if t in s { Around(l, s, Index(s, t) + 1); }
  }

  // ---- list_add_tail --------------------------------------------------------------------

  lemma AddReads(l: Links, t: nat, n: Nd)
    ensures Next(AddTail(l, t), n) == if n == Of(t) then Head else if n == Pre(l, Head) then Of(t) else Next(l, n)
    ensures Pre(AddTail(l, t), n) == if n == Head then Of(t) else if n == Of(t) then Pre(l, Head) else Pre(l, n)
  {
  }

  lemma AddKeeps(l: Links, s: seq<nat>, t: nat)
    requires IsRing(l, s) && t !in s
    ensures IsRing(AddTail(l, t), s + [t])
  {
    var r, l' := s + [t], AddTail(l, t);
    NoDupAppend(s, t);
    Around(l, s, |s|);
    forall i | 0 <= i <= |r| ensures Joined(l', Spot(r, i), Spot(r, i + 1)) {
      if i < |s| {
        Around(l, s, i);
        assert Spot(r, i) == Spot(s, i) && Spot(r, i + 1) == Spot(s, i + 1);
        assert i > 0 ==> s[i - 1] != s[|s| - 1];
      } else if i == |s| {
        assert Spot(r, i) == Spot(s, i);
      }
    }
  }

  /** Linking a node that is on the ring leaves no ring. */
  lemma AddAgainBreaks(l: Links, s: seq<nat>, t: nat, q: seq<nat>)
    requires IsRing(l, s) && t in s
    ensures !IsRing(AddTail(l, t), q)
  {
    var l' := AddTail(l, t);
    var k := Index(s, t) + 1;
    Around(l, s, |s|);
    if IsRing(l', q) {
      forall j | 0 <= j < k ensures Next(l', Spot(s, j)) == Spot(s, j + 1) { Around(l, s, j); }
      Forward(l', q, s, k, k);
      Forward(l', q, s, k, k - 1);
    }
  }

  // ---- list_del ---------------------------------------------------------------------------

  lemma {:induction false} DelIs(s: seq<nat>, k: nat)
    requires NoDup(s) && k < |s|
    ensures Del(s, s[k]) == s[..k] + s[k + 1..]
  {
    if k == 0 {
      assert s[..0] + s[1..] == s[1..];
    } else {
      DelIs(s[1..], k - 1);
      CutTail(s, k);
    }
  }

  lemma CutTail(s: seq<nat>, k: nat)
    requires 0 < k < |s|
    ensures s[..k] + s[k + 1..] == [s[0]] + (s[1..][..k - 1] + s[1..][k..])
  {
  }

  /** The ring without what lies between places i and j. */
  function Cut(s: seq<nat>, i: nat, j: nat): seq<nat>
    requires i < j <= |s| + 1
  {
    s[..i] + s[j - 1..]
  }

  lemma CutSpot(s: seq<nat>, i: nat, j: nat, k: nat)
    requires i < j <= |s| + 1 && k <= |Cut(s, i, j)| + 1
    ensures Spot(Cut(s, i, j), k) == if k <= i then Spot(s, k) else Spot(s, k - i - 1 + j)
  {
  }

  lemma CutNoDup(s: seq<nat>, i: nat, j: nat)
    requires i < j <= |s| + 1 && NoDup(s)
    ensures NoDup(Cut(s, i, j)) && (Cut(s, i, j) == s <==> j == i + 1)
  {
  }

  lemma UnlinkReads(l: Links, t: nat, n: Nd)
    ensures Next(Unlink(l, t), n) == if n == Pre(l, Of(t)) then Next(l, Of(t)) else Next(l, n)
    ensures Pre(Unlink(l, t), n) == if n == Next(l, Of(t)) then Pre(l, Of(t)) else Pre(l, n)
  {
  }

  lemma SpotsDiffer(l: Links, s: seq<nat>, i: nat, k: nat)
    requires IsRing(l, s) && i <= |s| && k <= |s| && i != k
    ensures Spot(s, i) != Spot(s, k) && Spot(s, i + 1) != Spot(s, k + 1)
  {
  }

  /** A list_del of a node whose neighbours are at places i and j joins these. */
  lemma CutKeeps(l: Links, s: seq<nat>, t: nat, i: nat, j: nat)
    requires IsRing(l, s) && i < j <= |s| + 1 && Pre(l, Of(t)) == Spot(s, i) && Next(l, Of(t)) == Spot(s, j)
    ensures IsRing(Unlink(l, t), Cut(s, i, j))
  {
    hide Cut, Unlink, Spot, Pre, Next;
    CutNoDup(s, i, j);
    var r := Cut(s, i, j);
    forall k | 0 <= k <= |r| ensures Joined(Unlink(l, t), Spot(r, k), Spot(r, k + 1)) { CutJoined(l, s, t, i, j, k); }
  }

  lemma CutJoined(l: Links, s: seq<nat>, t: nat, i: nat, j: nat, k: nat)
    requires IsRing(l, s) && i < j <= |s| + 1 && Pre(l, Of(t)) == Spot(s, i) && Next(l, Of(t)) == Spot(s, j)
    requires k <= |Cut(s, i, j)|
    ensures Joined(Unlink(l, t), Spot(Cut(s, i, j), k), Spot(Cut(s, i, j), k + 1))
  {
    hide IsRing, Unlink, Spot, Pre, Next;
    CutSpot(s, i, j, k);
    CutSpot(s, i, j, k + 1);
    if k == i {
      UnlinkReads(l, t, Spot(s, i));
      UnlinkReads(l, t, Spot(s, j));
    } else {
      var k' := if k < i then k else k - i - 1 + j;
      Around(l, s, k');
      SpotsDiffer(l, s, i, k');
      SpotsDiffer(l, s, j - 1, k');
      UnlinkReads(l, t, Spot(s, k'));
      UnlinkReads(l, t, Spot(s, k' + 1));
    }
  }

  lemma DelKeeps(l: Links, s: seq<nat>, t: nat)
    requires IsRing(l, s) && t in s
    ensures IsRing(Unlink(l, t), Del(s, t))
  {
    hide Unlink;
    var k := Index(s, t);
    DelIs(s, k);
    Around(l, s, k);
    Around(l, s, k + 1);
    CutKeeps(l, s, t, k, k + 2);
  }

  /** A list_del does the ring no harm: the node is on it; or neither of its neighbours is;
      or they are next to each other there. */
  predicate Fits(l: Links, s: seq<nat>, t: nat) {
    var p, m := Pre(l, Of(t)), Next(l, Of(t));
    t in s || (!On(s, p) && !On(s, m)) || (On(s, p) && Next(l, p) == m)
  }

  /** Where a node of the ring is found going round from the head. */
  function Place(s: seq<nat>, n: Nd): (i: nat)
    requires On(s, n)
    ensures i <= |s| && Spot(s, i) == n
  {
    if n == Head then 0 else Index(s, n.owner) + 1
  }

  /** Where it is found at the end of a step. */
  function EndPlace(s: seq<nat>, n: Nd): (i: nat)
    requires On(s, n)
    ensures 1 <= i <= |s| + 1 && Spot(s, i) == n
  {
    if n == Head then |s| + 1 else Place(s, n)
  }

  lemma PlaceIs(s: seq<nat>, i: nat)
    requires NoDup(s) && i <= |s|
    ensures On(s, Spot(s, i)) && Place(s, Spot(s, i)) == i
    ensures On(s, Spot(s, i + 1)) && EndPlace(s, Spot(s, i + 1)) == i + 1
  {
    assert i > 0 ==> s[i - 1] in s;
    assert i < |s| ==> s[i] in s;
  }

  /** The node is not on the ring but its neighbours p and m are, and p comes before m. */
  ghost predicate Skips(l: Links, s: seq<nat>, t: nat) {
    var p, m := Pre(l, Of(t)), Next(l, Of(t));
    t !in s && On(s, p) && On(s, m) && Place(s, p) < EndPlace(s, m)
  }

  ghost function Short(l: Links, s: seq<nat>, t: nat): seq<nat>
    requires Skips(l, s, t)
  {
    Cut(s, Place(s, Pre(l, Of(t))), EndPlace(s, Next(l, Of(t))))
  }

  /** Then a list_del leaves the ring without what lies between them. */
  lemma SkipKeeps(l: Links, s: seq<nat>, t: nat)
    requires IsRing(l, s) && Skips(l, s, t)
    ensures IsRing(Unlink(l, t), Short(l, s, t))
    ensures Short(l, s, t) == s <==> Fits(l, s, t)
  {
    hide Cut, Unlink, Place, EndPlace, Spot, Pre, Next;
    var i, j := Place(s, Pre(l, Of(t))), EndPlace(s, Next(l, Of(t)));
    CutKeeps(l, s, t, i, j);
    CutNoDup(s, i, j);
    Around(l, s, i);
    PlaceIs(s, i);
    PlaceIs(s, j - 1);
  }

  /** Otherwise nothing is left that is a ring, unless both neighbours are off it. */
  lemma StrayBreaks(l: Links, s: seq<nat>, t: nat, q: seq<nat>)
    requires IsRing(l, s) && !Fits(l, s, t) && !Skips(l, s, t)
    ensures !IsRing(Unlink(l, t), q)
  {
    hide IsRing, Unlink;
    if IsRing(Unlink(l, t), q) {
      if !On(s, Pre(l, Of(t))) {
        OnlyNextOn(l, s, t, q);
      } else if !On(s, Next(l, Of(t))) {
        OnlyPreOn(l, s, t, q);
      } else {
        BackwardsOn(l, s, t, q);
      }
    }
  }

  /** The links of the ring that the list_del does not write. */
  lemma Untouched(l: Links, s: seq<nat>, t: nat, k: nat)
    requires IsRing(l, s) && k <= |s|
    ensures Spot(s, k) != Pre(l, Of(t)) ==> Next(Unlink(l, t), Spot(s, k)) == Spot(s, k + 1)
    ensures Spot(s, k + 1) != Next(l, Of(t)) ==> Pre(Unlink(l, t), Spot(s, k + 1)) == Spot(s, k)
    ensures On(s, Spot(s, k)) && On(s, Spot(s, k + 1))
  {
    Around(l, s, k);
    PlaceIs(s, k);
    UnlinkReads(l, t, Spot(s, k));
    UnlinkReads(l, t, Spot(s, k + 1));
  }

  lemma OnlyNextOn(l: Links, s: seq<nat>, t: nat, q: seq<nat>)
    requires IsRing(l, s) && !On(s, Pre(l, Of(t))) && On(s, Next(l, Of(t)))
    ensures !IsRing(Unlink(l, t), q)
  {
    hide IsRing, Unlink, On;
    var l', j := Unlink(l, t), EndPlace(s, Next(l, Of(t)));
    if IsRing(l', q) {
      forall k | 0 <= k <= |s| ensures Next(l', Spot(s, k)) == Spot(s, k + 1) { Untouched(l, s, t, k); }
      NextDecides(l', q, s);
      Around(l', q, j - 1);
      UnlinkReads(l, t, Spot(s, j));
      Untouched(l, s, t, j - 1);
    }
  }

  lemma OnlyPreOn(l: Links, s: seq<nat>, t: nat, q: seq<nat>)
    requires IsRing(l, s) && On(s, Pre(l, Of(t))) && !On(s, Next(l, Of(t)))
    ensures !IsRing(Unlink(l, t), q)
  {
    hide IsRing, Unlink, On;
    var l', i := Unlink(l, t), Place(s, Pre(l, Of(t)));
    if IsRing(l', q) {
      forall k | 0 <= k <= |s| ensures Pre(l', Spot(s, k + 1)) == Spot(s, k) { Untouched(l, s, t, k); }
      PreDecides(l', q, s);
      Around(l', q, i);
      UnlinkReads(l, t, Spot(s, i));
      Untouched(l, s, t, i);
    }
  }

  lemma BackwardsOn(l: Links, s: seq<nat>, t: nat, q: seq<nat>)
    requires IsRing(l, s) && On(s, Pre(l, Of(t))) && On(s, Next(l, Of(t)))
    requires Place(s, Pre(l, Of(t))) >= EndPlace(s, Next(l, Of(t)))
    ensures !IsRing(Unlink(l, t), q)
  {
    hide Unlink;
    var l', i, j := Unlink(l, t), Place(s, Pre(l, Of(t))), EndPlace(s, Next(l, Of(t)));
    if IsRing(l', q) {
      forall k | 0 <= k < i ensures Next(l', Spot(s, k)) == Spot(s, k + 1) {
        Untouched(l, s, t, k);
        SpotsDiffer(l, s, i, k);
      }
      Forward(l', q, s, i, i);
      Forward(l', q, s, i, j);
      Around(l', q, i);
      UnlinkReads(l, t, Spot(s, i));
    }
  }

  /** Both neighbours are off the ring. */
  lemma StrayKeeps(l: Links, s: seq<nat>, t: nat)
    requires IsRing(l, s) && !On(s, Pre(l, Of(t))) && !On(s, Next(l, Of(t)))
    ensures IsRing(Unlink(l, t), s)
  {
    var l' := Unlink(l, t);
    forall k | 0 <= k <= |s| ensures Joined(l', Spot(s, k), Spot(s, k + 1)) { Around(l, s, k); PlaceIs(s, k); }
  }

  /** A list_del leaves the ring it should, that of s without the node, if and only if it
      fits. */
  lemma UnlinkIff(l: Links, s: seq<nat>, t: nat)
    requires IsRing(l, s)
    ensures IsRing(Unlink(l, t), Del(s, t)) <==> Fits(l, s, t)
  {
    hide IsRing, Unlink;
    if t in s {
      DelKeeps(l, s, t);
    } else if !On(s, Pre(l, Of(t))) && !On(s, Next(l, Of(t))) {
      StrayKeeps(l, s, t);
    } else if Skips(l, s, t) {
      SkipKeeps(l, s, t);
      if IsRing(Unlink(l, t), s) { RingIsOne(Unlink(l, t), s, Short(l, s, t)); }
    } else {
      if Fits(l, s, t) { FitIsNext(l, s, t); }
      StrayBreaks(l, s, t, s);
    }
  }

  lemma FitIsNext(l: Links, s: seq<nat>, t: nat)
    requires IsRing(l, s) && Fits(l, s, t) && t !in s && (On(s, Pre(l, Of(t))) || On(s, Next(l, Of(t))))
    ensures Skips(l, s, t)
  {
    var i := Place(s, Pre(l, Of(t)));
    Around(l, s, i);
    PlaceIs(s, i);
  }

  // ---- the loop of mutex_unlock -------------------------------------------------------------

  /** list_for_each with a list_del of the node it is at, from cur on, visits ts and ends. */
  ghost predicate Walk(l: Links, cur: Nd, ts: seq<nat>)
    decreases |ts|
  {
    if ts == [] then cur == Head else
    cur == Of(ts[0]) && Walk(Unlink(l, ts[0]), Next(Unlink(l, ts[0]), cur), ts[1..])
  }

  function UnlinkAll(l: Links, ts: seq<nat>): Links
    decreases |ts|
  {
    if ts == [] then l else UnlinkAll(Unlink(l, ts[0]), ts[1..])
  }

  lemma {:induction false} WalkIsOne(l: Links, cur: Nd, ts: seq<nat>, us: seq<nat>)
    requires Walk(l, cur, ts) && Walk(l, cur, us)
    ensures ts == us
    decreases |ts|
  {
    if ts != [] && us != [] {
      WalkIsOne(Unlink(l, ts[0]), Next(Unlink(l, ts[0]), cur), ts[1..], us[1..]);
      assert ts == [ts[0]] + ts[1..] && us == [us[0]] + us[1..];
    }
  }

  /** The first turn on a ring. */
  lemma DrainsFirst(l: Links, s: seq<nat>)
    requires IsRing(l, s) && s != []
    ensures var m := Unlink(l, s[0]);
      && Next(l, Head) == Of(s[0]) && IsRing(m, s[1..]) && NoDup(s)
      && Next(m, Of(s[0])) == Next(m, Head) == Spot(s, 2) && Pre(m, Of(s[0])) == Head
      && forall t :: t !in s ==> Next(m, Of(t)) == Next(l, Of(t)) && Pre(m, Of(t)) == Pre(l, Of(t))
  {
    hide Unlink;
    Around(l, s, 0);
    Around(l, s, 1);
    DelKeeps(l, s, s[0]);
    DelIs(s, 0);
    assert s[..0] + s[1..] == s[1..];
    UnlinkReads(l, s[0], Head);
    UnlinkReads(l, s[0], Of(s[0]));
    forall t | t !in s
      ensures Next(Unlink(l, s[0]), Of(t)) == Next(l, Of(t)) && Pre(Unlink(l, s[0]), Of(t)) == Pre(l, Of(t))
    {
      UnlinkReads(l, s[0], Of(t));
    }
  }

  /** On a ring it visits every node once, in order, leaves the empty ring, and leaves each
      node pointing at the head and at the node that followed it. */
  lemma {:induction false} WalkDrains(l: Links, s: seq<nat>)
    requires IsRing(l, s)
    ensures Walk(l, Next(l, Head), s) && IsRing(UnlinkAll(l, s), [])
    ensures forall i :: 0 <= i < |s| ==>
      Pre(UnlinkAll(l, s), Of(s[i])) == Head && Next(UnlinkAll(l, s), Of(s[i])) == Spot(s, i + 2)
    ensures forall t :: t !in s ==>
      Pre(UnlinkAll(l, s), Of(t)) == Pre(l, Of(t)) && Next(UnlinkAll(l, s), Of(t)) == Next(l, Of(t))
    decreases |s|
  {
    hide IsRing, Unlink, Next, Pre;
    if s == [] {
      Around(l, s, 0);
    } else {
      var m, s' := Unlink(l, s[0]), s[1..];
      DrainsFirst(l, s);
      WalkDrains(m, s');
      assert s[0] !in s';
      forall i | 0 <= i < |s|
        ensures Pre(UnlinkAll(l, s), Of(s[i])) == Head && Next(UnlinkAll(l, s), Of(s[i])) == Spot(s, i + 2)
      {
        if i > 0 { assert s[i] == s'[i - 1] && Spot(s, i + 2) == Spot(s', i + 1); }
      }
    }
  }
}
