/** Registered memory regions: their whole pages, and sorting them by start address
    (mm/mm.c:103-185). Addresses are 32-bit, pages 4096 bytes. */
module Regions {

  const PAGE_SIZE := 4096

  /** Page numbers, like addresses, wrap: there are 2^20 of them. */
  const PAGES := 0x100000

  const MIB := 0x100000
  const MAX_REGION := 16
  const UNKNOWN_MEM := 3

  datatype Region = Region(start: nat, size: nat, attr: nat)

  /** What register_memory_region leaves in the table: memory below 4 GiB whose size
      is a positive signed 32-bit number. */
  predicate Registered(r: Region) {
    r.start < 0x1_0000_0000 && r.size < 0x8000_0000 && r.start + r.size <= 0x1_0000_0000
  }

  /** register_memory_region, for memory from start up to start + size: the whole
      mebibytes in it, if there are any and the table has room. */
  method RegisterMemoryRegion(rs: seq<Region>, start: nat, size: int, attr: nat) returns (out: seq<Region>)
    requires start < 0x1_0000_0000 && size < 0x8000_0000 && start + size <= 0x1_0000_0000
    ensures out == rs || exists r :: out == rs + [r] && WholeMib(r, start, size, attr)
    ensures out == rs <==> |rs| >= MAX_REGION || forall b: nat :: start <= b * MIB ==> start + size < (b + 1) * MIB
  {
    if |rs| >= MAX_REGION { return rs; }
    var newStart := (start + MIB - 1) / MIB * MIB;
    var left := size - (newStart - start);
    left := left - left % MIB;
    if left < PAGE_SIZE {
      MibNone(start, size, newStart / MIB);
      return rs;
    }
    MibFits(newStart / MIB, left, start, size);
    out := rs + [Region(newStart, left, attr)];
    assert out != rs by { assert |out| == |rs| + 1; }
    assert WholeMib(Region(newStart, left, attr), start, size, attr);
  }

  /** r covers exactly the mebibytes that lie wholly between start and start + size. */
  ghost predicate WholeMib(r: Region, start: nat, size: int, attr: nat) {
    && Registered(r) && r.attr == attr && r.start % MIB == 0 && r.size % MIB == 0 && r.size > 0
    && start <= r.start < start + MIB
    && r.start + r.size <= start + size < r.start + r.size + MIB
  }

  lemma MibNone(start: nat, size: int, k: nat)
    requires k * MIB >= start && start + size - k * MIB < MIB
    requires k * MIB < start + MIB
    ensures forall b: nat :: start <= b * MIB ==> start + size < (b + 1) * MIB
  {
  }

  lemma MibFits(k: nat, left: int, start: nat, size: int)
    requires start <= k * MIB && left >= MIB && k * MIB + left <= start + size && left % MIB == 0
    ensures (k + 1) * MIB <= start + size
  {
  }

  function Low(r: Region): nat { (r.start + PAGE_SIZE - 1) / PAGE_SIZE }

  function High(r: Region): nat { (r.start + r.size) / PAGE_SIZE }

  /** The pages insert_region_to_zone counts: size_t is a signed 32-bit int, so a
      difference of half the address space or more is negative and counts for none. */
  function Pages(r: Region): nat {
    var d := (High(r) - Low(r)) % PAGES;
    if d < PAGES / 2 then d else 0
  }

  /** The pages counted are the whole pages of the region, none for a region strictly
      inside one page. */
  lemma PagesAreWhole(r: Region)
    requires Registered(r)
    ensures Pages(r) == if Low(r) <= High(r) then High(r) - Low(r) else 0
    ensures Pages(r) > 0 ==> Low(r) % PAGES == Low(r) && Low(r) + Pages(r) <= PAGES
  {
    var d := High(r) - Low(r);
    assert -1 <= d < PAGES / 2;
    if d == -1 { assert d % PAGES == PAGES - 1; }
  }

  lemma PageRegion(first: nat, n: nat, attr: nat)
    requires first < PAGES && first + n <= PAGES && n < PAGES / 2
    ensures var r := Region(first * PAGE_SIZE, n * PAGE_SIZE, attr);
      Registered(r) && Low(r) == first && Pages(r) == n
  {
  }

  /** Page p lies wholly in the region, and the region is memory. */
  predicate Holds(r: Region, p: nat) {
    r.attr < UNKNOWN_MEM && Low(r) <= p < High(r)
  }

  /** That is, all bytes of the page are in the region. */
  lemma HoldsIs(r: Region, p: nat)
    ensures Holds(r, p) <==> r.attr < 3 && r.start <= p * 4096 && (p + 1) * 4096 <= r.start + r.size
  {
    var low: int, high: int := Low(r), High(r);
    assert PAGE_SIZE * low >= r.start && PAGE_SIZE * (low - 1) < r.start;
    assert PAGE_SIZE * high <= r.start + r.size < PAGE_SIZE * (high + 1);
    if p < low { assert PAGE_SIZE * p <= PAGE_SIZE * (low - 1); }
    if p >= low { assert PAGE_SIZE * p >= PAGE_SIZE * low; }
    if p < high { assert PAGE_SIZE * (p + 1) <= PAGE_SIZE * high; }
    if p >= high { assert PAGE_SIZE * (p + 1) >= PAGE_SIZE * (high + 1); }
  }

  /** The region gives a section of zone z. */
  predicate Feeds(r: Region, z: nat) { r.attr == z < UNKNOWN_MEM && Pages(r) > 0 }

  // ---- sums over a sequence -------------------------------------------------------

  ghost function Total<T(!new)>(xs: seq<T>, f: T -> nat): nat {
    if xs == [] then 0 else Total(xs[..|xs| - 1], f) + f(xs[|xs| - 1])
  }

  lemma {:induction false} TotalUpdate<T(!new)>(xs: seq<T>, i: nat, x: T, f: T -> nat)
    requires i < |xs|
    ensures Total(xs[i := x], f) + f(xs[i]) == Total(xs, f) + f(x)
  {
    var n := |xs| - 1;
    if i == n {
      assert xs[i := x][..n] == xs[..n];
    } else {
      assert xs[i := x][..n] == xs[..n][i := x];
      TotalUpdate(xs[..n], i, x, f);
    }
  }

  lemma {:induction false} TotalJoin<T(!new)>(xs: seq<T>, ys: seq<T>, f: T -> nat)
    ensures Total(xs + ys, f) == Total(xs, f) + Total(ys, f)
  {
    if ys == [] {
      assert xs + ys == xs;
    } else {
      var n := |ys| - 1;
      assert (xs + ys)[..|xs| + n] == xs + ys[..n];
      TotalJoin(xs, ys[..n], f);
    }
  }

  lemma TotalPrefix<T(!new)>(xs: seq<T>, i: nat, f: T -> nat)
    requires i <= |xs|
    ensures Total(xs[..i], f) <= Total(xs, f)
  {
    assert xs == xs[..i] + xs[i..];
    TotalJoin(xs[..i], xs[i..], f);
  }

  lemma TakeOut<T(!new)>(ys: seq<T>, i: nat, f: T -> nat)
    requires i < |ys|
    ensures Total(ys, f) == Total(ys[..i] + ys[i + 1..], f) + f(ys[i])
  {
    var x, front, back := ys[i], ys[..i], ys[i + 1..];
    Glued(ys, i);
    TotalOne(x, f);
    hide Total;
    TotalJoin(front, [x] + back, f);
    TotalJoin([x], back, f);
    TotalJoin(front, back, f);
  }

  lemma Glued<T>(ys: seq<T>, i: nat)
    requires i < |ys|
    ensures ys == ys[..i] + ([ys[i]] + ys[i + 1..])
  {
  }

  lemma TotalOne<T(!new)>(x: T, f: T -> nat)
    ensures Total([x], f) == f(x)
  {
    assert [x][..0] == [];
  }

  lemma TakeOutMultiset<T>(ys: seq<T>, i: nat)
    requires i < |ys|
    ensures multiset(ys[..i] + ys[i + 1..]) == multiset(ys) - multiset{ys[i]}
  {
    assert ys == ys[..i] + [ys[i]] + ys[i + 1..];
  }

  /** A sum does not depend on the order. */
  lemma {:induction false} TotalPermuted<T(!new)>(xs: seq<T>, ys: seq<T>, f: T -> nat)
    requires multiset(xs) == multiset(ys)
    ensures Total(xs, f) == Total(ys, f)
    decreases |xs|
  {
    hide Total;
    if xs == [] {
      assert |ys| == |multiset(ys)| == 0;
      assert ys == [];
    } else {
      var n := |xs| - 1;
      assert xs[n] in multiset(ys);
      var i :| 0 <= i < |ys| && ys[i] == xs[n];
      TakeOutMultiset(xs, n);
      TakeOutMultiset(ys, i);
      TakeOut(xs, n, f);
      TakeOut(ys, i, f);
      TotalPermuted(xs[..n] + xs[n + 1..], ys[..i] + ys[i + 1..], f);
    }
  }

  // ---- the sort -------------------------------------------------------------------------

  ghost predicate Sorted(rs: seq<Region>) {
    forall i, j :: 0 <= i < j < |rs| ==> rs[i].start <= rs[j].start
  }

  /** The index of a least start in a[i..]. */
  method FindMin(a: array<Region>, i: nat) returns (min: nat)
    requires i < a.Length
    ensures i <= min < a.Length
    ensures forall k :: i <= k < a.Length ==> a[min].start <= a[k].start
  {
    min := i;
    var j := i + 1;
    while j < a.Length
      invariant i <= min < j <= a.Length
      invariant forall k :: i <= k < j ==> a[min].start <= a[k].start
    {
      if a[min].start > a[j].start { min := j; }
      j := j + 1;
    }
  }

  /** The selection sort of get_memory_sections. */
  method SortRegions(a: array<Region>)
    modifies a
    ensures Sorted(a[..]) && multiset(a[..]) == multiset(old(a[..]))
  {
    var i := 0;
    while i < a.Length
      invariant 0 <= i <= a.Length
      invariant forall k, j :: 0 <= k < i && k < j < a.Length ==> a[k].start <= a[j].start
      invariant multiset(a[..]) == multiset(old(a[..]))
    {
      var min := FindMin(a, i);
      if min != i { Exchange(a, i, min); }
      i := i + 1;
    }
  }

  method Exchange(a: array<Region>, i: nat, j: nat)
    requires i < j < a.Length
    modifies a
    ensures a[i] == old(a[j]) && a[j] == old(a[i])
    ensures forall k :: 0 <= k < a.Length && k != i && k != j ==> a[k] == old(a[k])
    ensures multiset(a[..]) == multiset(old(a[..]))
  {
    var tmp := a[i];
    a[i] := a[j];
    a[j] := tmp;
  }
}
