/** Bitmaps of 32-bit words and the search for a run of equal bits
    (kernel/bitops.c). */
module Bitops {

  // ---- one bit of a word --------------------------------------------------------

  /** A shift amount as a machine word. */
  function Shift(n: nat): (y: bv32)
    requires n < 32
    ensures y < 32 && y as int == n
  {
    if n == 0 then 0 else Shift(n - 1) + 1
  }

  lemma ShiftInjective(a: nat, b: nat)
    requires a < 32 && b < 32
    ensures Shift(a) == Shift(b) <==> a == b
  {
    hide Shift;
  }

  function GetBit(w: bv32, y: bv32): bv32
    requires y < 32
  {
    (w & (1 << y)) >> y
  }

  function PutBit(w: bv32, y: bv32, v: bool): bv32
    requires y < 32
  {
    if v then w | (1 << y) else w & !(1 << y)
  }

  lemma BitIsBinary(w: bv32, y: bv32)
    requires y < 32
    ensures GetBit(w, y) == 0 || GetBit(w, y) == 1
  {
  }

  lemma SetOne(w: bv32, y: bv32, z: bv32)
    requires y < 32 && z < 32
    ensures GetBit(w | (1 << y), z) == if y == z then 1 else GetBit(w, z)
  {
  }

  lemma ClearOne(w: bv32, y: bv32, z: bv32)
    requires y < 32 && z < 32
    ensures GetBit(w & !(1 << y), z) == if y == z then 0 else GetBit(w, z)
  {
  }

  lemma PutOne(w: bv32, y: bv32, z: bv32, v: bool)
    requires y < 32 && z < 32
    ensures GetBit(PutBit(w, y, v), z) == if y == z then (if v then 1 else 0) else GetBit(w, z)
  {
    hide GetBit;
    if v { SetOne(w, y, z); } else { ClearOne(w, y, z); }
  }

  /** Bit n of a word. */
  predicate Get(w: bv32, n: nat)
    requires n < 32
  {
    GetBit(w, Shift(n)) == 1
  }

  /** The word with bit n set or cleared. */
  function Put(w: bv32, n: nat, v: bool): bv32
    requires n < 32
  {
    PutBit(w, Shift(n), v)
  }

  /** Writing one bit of a word changes that bit and no other. */
  lemma PutGet(w: bv32, n: nat, k: nat, v: bool)
    requires n < 32 && k < 32
    ensures Get(Put(w, n, v), k) == if k == n then v else Get(w, k)
  {
    hide GetBit, PutBit, Shift;
    PutOne(w, Shift(n), Shift(k), v);
    ShiftInjective(n, k);
    BitIsBinary(w, Shift(k));
  }

  // ---- the bitmap as a sequence of bits --------------------------------------------

  ghost function Bits(m: seq<bv32>): (b: seq<bool>)
    ensures |b| == 32 * |m|
  {
    seq(32 * |m|, n requires 0 <= n < 32 * |m| => Get(m[n / 32], n % 32))
  }

  /** Bit n of the bitmap is bit n % 32, counted from the lowest, of word n / 32. */
  lemma BitOrder(m: seq<bv32>, n: nat)
    requires n < 32 * |m|
    ensures Bits(m)[n] <==> (m[n / 32] >> Shift(n % 32)) & 1 == 1
  {
    hide Shift, GetBit;
    LowBit(m[n / 32], Shift(n % 32));
  }

  lemma LowBit(w: bv32, y: bv32)
    requires y < 32
    ensures GetBit(w, y) == 1 <==> (w >> y) & 1 == 1
  {
  }

  lemma BitsUpdate(m: seq<bv32>, n: nat, v: bool)
    requires n < 32 * |m|
    ensures Bits(m[n / 32 := Put(m[n / 32], n % 32, v)]) == Bits(m)[n := v]
  {
    hide Get, Put;
    var r := m[n / 32 := Put(m[n / 32], n % 32, v)];
    forall k | 0 <= k < 32 * |m| ensures Bits(r)[k] == Bits(m)[n := v][k] {
      if k / 32 == n / 32 { PutGet(m[n / 32], n % 32, k % 32, v); }
    }
  }

  /** op_bits with BITS_READ. */
  method ReadBit(m: array<bv32>, n: nat) returns (r: nat)
    requires n < 32 * m.Length
    ensures r == if Bits(m[..])[n] then 1 else 0
  {
    hide Get;
    r := if Get(m[n / 32], n % 32) then 1 else 0;
  }

  /** op_bits with BITS_SET and BITS_CLEAR. */
  method WriteBit(m: array<bv32>, n: nat, v: bool)
    requires n < 32 * m.Length
    modifies m
    ensures Bits(m[..]) == old(Bits(m[..]))[n := v]
  {
    hide Get, Put;
    BitsUpdate(m[..], n, v);
    m[n / 32] := Put(m[n / 32], n % 32, v);
    assert m[..] == old(m[..])[n / 32 := Put(old(m[n / 32]), n % 32, v)];
  }

  // ---- bitmap_find_free_base -----------------------------------------------------------

  const ENOSPC := -28

  /** count bits from s on are all equal to v. */
  ghost predicate RunAt(b: seq<bool>, v: bool, s: nat, count: nat) {
    s + count <= |b| && forall k :: s <= k < s + count ==> b[k] == v
  }

  /** No such run lies inside lo..hi. */
  ghost predicate NoRun(b: seq<bool>, v: bool, lo: nat, hi: int, count: nat) {
    forall s :: lo <= s && s + count <= hi ==> !RunAt(b, v, s, count)
  }

  /** What the search returns: the first run from start up to the end; failing
      that, and unless it started at 0, the first run in 1..start; else nothing.
      Bit 0 is not looked at again after the wrap. */
  ghost predicate Finds(b: seq<bool>, v: bool, start: nat, count: nat, r: int) {
    if r >= 0 then
      && count > 0 && RunAt(b, v, r, count)
      && (|| (start <= r && r + count <= |b| && NoRun(b, v, start, r + count - 1, count))
          || (&& start > 0 && 1 <= r && r + count <= start + 1
              && NoRun(b, v, start, |b|, count) && NoRun(b, v, 1, r + count - 1, count)))
    else
      && r == ENOSPC
      && (count > 0 ==> NoRun(b, v, start, |b|, count) && (start > 0 ==> NoRun(b, v, 1, start + 1, count)))
  }

  /** The search stops: it does not start on the last of several bits, or there is a
      run to find. */
  ghost predicate Stops(b: seq<bool>, v: bool, start: nat, count: nat) {
    start < |b| - 1 || |b| == 1 || (count > 0 && !NoRun(b, v, 1, |b|, count))
  }

  /** sum bits before i, within lo..i, are equal to v, and the one before them is
      not; no run has been completed. */
  ghost predicate Streak(b: seq<bool>, v: bool, lo: nat, i: nat, sum: nat, count: nat) {
    && lo + sum <= i <= |b|
    && (forall k :: i - sum <= k < i ==> b[k] == v)
    && (lo + sum < i ==> b[i - sum - 1] != v)
    && (count > 0 ==> sum < count && NoRun(b, v, lo, i, count))
  }

  lemma StreakNext(b: seq<bool>, v: bool, lo: nat, i: nat, sum: nat, count: nat)
    requires Streak(b, v, lo, i, sum, count) && i < |b|
    ensures b[i] != v ==> Streak(b, v, lo, i + 1, 0, count)
    ensures b[i] == v && sum + 1 != count ==> Streak(b, v, lo, i + 1, sum + 1, count)
    ensures b[i] == v && sum + 1 == count ==> RunAt(b, v, i + 1 - count, count)
  {
    if count > 0 {
      forall s | lo <= s && s + count <= i + 1 && (b[i] != v || sum + 1 != count)
        ensures !RunAt(b, v, s, count)
      {
        if s + count == i + 1 {
          if b[i] != v { assert s <= i < s + count; } else { assert s <= i - sum - 1 < s + count; }
        }
      }
    }
  }

  /** Where the search is: the loop variables, or the result. */
  datatype Scan = At(i: nat, sum: nat, again: bool) | Done(r: int)

  /** One turn of the search loop. */
  function Turn(b: seq<bool>, v: bool, start: nat, count: nat, c: Scan): (d: Scan)
    requires start < |b| && (c.At? ==> c.i < |b|)
    ensures d.At? ==> d.i < |b|
  {
    if c.Done? then c
    else if b[c.i] == v && c.sum + 1 == count then Done(c.i + 1 - count)
    else
      var wrap := c.i == |b| - 1;
      var sum := if wrap || b[c.i] != v then 0 else c.sum + 1;
      var i := if wrap then 0 else c.i;
      var again := c.again || wrap;
      if again && i == start then Done(ENOSPC) else At(i + 1, sum, again)
  }

  /** The search after n turns. */
  ghost function Turns(b: seq<bool>, v: bool, start: nat, count: nat, n: nat): (d: Scan)
    requires start < |b|
    ensures d.At? ==> d.i < |b|
  {
    if n == 0 then At(start, 0, false) else Turn(b, v, start, count, Turns(b, v, start, count, n - 1))
  }

  /** The search ends with r. */
  ghost predicate Ends(b: seq<bool>, v: bool, start: nat, count: nat, r: int)
    requires start < |b|
  {
    exists n :: Turns(b, v, start, count, n) == Done(r)
  }

  /** The search in progress: the streak belongs to the pass it is on. */
  ghost predicate Scanning(b: seq<bool>, v: bool, start: nat, count: nat, c: Scan) {
    && start < |b| && c.At? && c.i < |b|
    && Streak(b, v, if c.again then 1 else start, c.i, c.sum, count)
    && (c.again ==> 0 < start && c.i <= start && (count > 0 ==> NoRun(b, v, start, |b|, count)))
  }

  lemma ScanStarts(b: seq<bool>, v: bool, start: nat, count: nat)
    requires start < |b|
    ensures Scanning(b, v, start, count, At(start, 0, false))
  {
  }

  lemma TurnStays(b: seq<bool>, v: bool, start: nat, count: nat, c: Scan)
    requires Scanning(b, v, start, count, c)
    ensures var d := Turn(b, v, start, count, c);
      d.At? ==>
        && Scanning(b, v, start, count, d)
        && (c.again && c.i == |b| - 1 ==> !Stops(b, v, start, count))
  {
    hide RunAt;
    StreakNext(b, v, if c.again then 1 else start, c.i, c.sum, count);
    if c.i == |b| - 1 { hide NoRun; StreakStarts(b, v, 1, count); }
  }

  lemma StreakStarts(b: seq<bool>, v: bool, lo: nat, count: nat)
    requires lo <= |b|
    ensures Streak(b, v, lo, lo, 0, count)
  {
  }

  lemma TurnEnds(b: seq<bool>, v: bool, start: nat, count: nat, c: Scan)
    requires Scanning(b, v, start, count, c)
    ensures var d := Turn(b, v, start, count, c);
      d.Done? ==> Finds(b, v, start, count, d.r)
  {
    hide RunAt, NoRun;
    StreakNext(b, v, if c.again then 1 else start, c.i, c.sum, count);
  }

  /** A turn keeps the search in progress or ends it with what it should find; it
      passes the end a second time only where Stops fails. */
  lemma TurnKeeps(b: seq<bool>, v: bool, start: nat, count: nat, c: Scan)
    requires Scanning(b, v, start, count, c)
    ensures var d := Turn(b, v, start, count, c);
      if d.Done? then Finds(b, v, start, count, d.r) else
      && Scanning(b, v, start, count, d)
      && (c.again && c.i == |b| - 1 ==> !Stops(b, v, start, count))
  {
    hide Streak, Finds, Stops, Turn;
    TurnStays(b, v, start, count, c);
    TurnEnds(b, v, start, count, c);
  }

  lemma {:induction false} StaysAt(b: seq<bool>, v: bool, start: nat, count: nat, n: nat)
    requires start < |b| && !Stops(b, v, start, count)
    ensures Turns(b, v, start, count, n).At?
    ensures Scanning(b, v, start, count, Turns(b, v, start, count, n))
  {
    if n > 0 {
      StaysAt(b, v, start, count, n - 1);
      var c := Turns(b, v, start, count, n - 1);
      StreakNext(b, v, if c.again then 1 else start, c.i, c.sum, count);
    }
  }

  /** Where Stops fails - the search starts on the last of several bits and no run
      lies above bit 0 - it runs for ever. FindFreeBase shows the other half. */
  lemma SearchHangs(b: seq<bool>, v: bool, start: nat, count: nat, r: int)
    requires start < |b| && !Stops(b, v, start, count)
    ensures !Ends(b, v, start, count, r)
  {
    forall n: nat ensures Turns(b, v, start, count, n) != Done(r) {
      StaysAt(b, v, start, count, n);
    }
  }

  /** What the search returns, as a function. */
  ghost function FirstRun(b: seq<bool>, v: bool, lo: nat, hi: nat, count: nat): int
    decreases hi - lo
  {
    if lo + count > hi || lo >= hi then ENOSPC
    else if RunAt(b, v, lo, count) then lo
    else FirstRun(b, v, lo + 1, hi, count)
  }

  ghost function Search(b: seq<bool>, v: bool, start: nat, count: nat): int {
    if count == 0 then ENOSPC
    else if FirstRun(b, v, start, |b|, count) >= 0 then FirstRun(b, v, start, |b|, count)
    else if start > 0 then FirstRun(b, v, 1, start + 1, count)
    else ENOSPC
  }

  lemma {:induction false} FirstRunIs(b: seq<bool>, v: bool, lo: nat, hi: nat, count: nat)
    requires count > 0
    ensures var r := FirstRun(b, v, lo, hi, count);
      if r >= 0 then lo <= r && r + count <= hi && RunAt(b, v, r, count) && NoRun(b, v, lo, r + count - 1, count)
      else r == ENOSPC && NoRun(b, v, lo, hi, count)
    decreases hi - lo
  {
    hide RunAt;
    if lo + count <= hi && !RunAt(b, v, lo, count) { FirstRunIs(b, v, lo + 1, hi, count); }
  }

  /** The search has one result. */
  lemma FindsIs(b: seq<bool>, v: bool, start: nat, count: nat, r: int)
    requires start < |b|
    ensures Finds(b, v, start, count, r) <==> r == Search(b, v, start, count)
  {
    hide RunAt;
    if count > 0 {
      FirstRunIs(b, v, start, |b|, count);
      FirstRunIs(b, v, 1, start + 1, count);
    }
  }

  /** bitmap_find_free_base. */
  method FindFreeBase(m: array<bv32>, start: nat, value: nat, nr: nat, count: nat) returns (r: int)
    requires start < nr <= 32 * m.Length && value < 2
    requires Stops(Bits(m[..])[..nr], value == 1, start, count)
    ensures Finds(Bits(m[..])[..nr], value == 1, start, count, r)
    ensures Ends(Bits(m[..])[..nr], value == 1, start, count, r)
  {
    hide Bits, Streak, Finds, Stops;
    ghost var b, v, n := Bits(m[..])[..nr], value == 1, 0;
    var i: nat, again, sum: nat := start, false, 0;
    ScanStarts(b, v, start, count);
    while true
      invariant Scanning(b, v, start, count, At(i, sum, again))
      invariant Turns(b, v, start, count, n) == At(i, sum, again)
      decreases !again, nr - i
    {
      ghost var c := At(i, sum, again);
      TurnKeeps(b, v, start, count, c);
      n := n + 1;
      assert Turns(b, v, start, count, n) == Turn(b, v, start, count, c);
      var bit := ReadBit(m, i);
      if bit == value {
        sum := sum + 1;
        if sum == count { return i + 1 - count; }
      } else {
        sum := 0;
      }
      if i == nr - 1 { again, sum, i := true, 0, 0; }
      if again {
        if i == start { break; }
      }
      i := i + 1;
    }
    r := ENOSPC;
  }
}
