/** Facts about sequences without repetition, the value that every intrusive
    list of the kernel represents. */
module Lists {

  ghost predicate NoDup<T>(s: seq<T>) {
    forall i, j :: 0 <= i < j < |s| ==> s[i] != s[j]
  }

  /** The sequence without the first occurrence of x. */
  function Del<T(==,!new)>(s: seq<T>, x: T): (r: seq<T>)
    ensures x !in s ==> r == s
    ensures x in s ==> |r| == |s| - 1
    ensures NoDup(s) ==> NoDup(r) && forall y :: y in r <==> y in s && y != x
  {
    if s == [] then [] else if s[0] == x then s[1..] else
      var r := Del(s[1..], x);
      assert NoDup(s) ==> NoDup(s[1..]) && forall y :: y in s <==> y == s[0] || y in s[1..];
      assert NoDup(s) ==> s[0] !in s[1..] && s[0] !in r;
      [s[0]] + r
  }

  /** How many elements precede x. */
  function Index<T(==,!new)>(s: seq<T>, x: T): (n: nat)
    ensures n <= |s|
    ensures x in s ==> n < |s| && s[n] == x
    ensures x !in s[..n]
  {
    if s == [] || s[0] == x then 0 else
      var n := Index(s[1..], x);
      assert s[..n + 1] == [s[0]] + s[1..][..n];
      n + 1
  }

  lemma {:induction false} IndexAppend<T(!new)>(s: seq<T>, x: T, y: T)
    requires x in s
    ensures Index(s + [y], x) == Index(s, x)
  {
    if s[0] != x {
      assert (s + [y])[1..] == s[1..] + [y];
      IndexAppend(s[1..], x, y);
    }
  }

  /** Unlinking another element never moves x away from the front. */
  lemma {:induction false} IndexDel<T(!new)>(s: seq<T>, x: T, y: T)
    requires x in s && x != y
    ensures x in Del(s, y)
    ensures Index(Del(s, y), x) <= Index(s, x) <= Index(Del(s, y), x) + 1
    ensures s[0] == y ==> Index(Del(s, y), x) == Index(s, x) - 1
    ensures y !in s ==> Index(Del(s, y), x) == Index(s, x)
  {
    if s[0] != y && s[0] != x {
      IndexDel(s[1..], x, y);
      assert ([s[0]] + Del(s[1..], y))[1..] == Del(s[1..], y);
    }
  }

  lemma NoDupAppend<T>(s: seq<T>, x: T)
    requires NoDup(s) && x !in s
    ensures NoDup(s + [x])
  {
  }
}
