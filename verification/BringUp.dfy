/** Memory bring-up: regions become the sections of zones, a DMA zone is carved out,
    the sections get virtual addresses, and what cannot be mapped goes to the user
    zone (mm/mm.c). Everything is counted in pages of 4096 bytes. */
module BringUp {
  import opened Regions

  const ZONES := 4
  const KERNEL := 0
  const DMA := 1
  const RES := 2
  const USER := 3
  const ZONE_SECTIONS := 4

  /** A page directory entry maps 4 MiB. */
  const PDE := 1024

  const VIRTUAL_BASE := 0x80000
  const VIRTUAL_END := 0xc0000
  const DMA_BASE := 0xc0000
  const DMA_END := 0xc8000

  /** A section: its first physical page, its pages, and the virtual pages it is
      mapped at. An unused one is NONE. */
  datatype Slot = Slot(first: nat, nr: nat, virt: nat, mapped: nat)

  const NONE := Slot(0, 0, 0, 0)

  function SlotHas(p: nat): Slot -> nat {
    (s: Slot) => if s.first <= p < s.first + s.nr then 1 else 0
  }

  function RegionHas(p: nat): Region -> nat {
    (r: Region) => if Holds(r, p) then 1 else 0
  }

  function Feeding(z: nat): Region -> nat {
    (r: Region) => if Feeds(r, z) then 1 else 0
  }

  function Extent(z: nat): Region -> nat {
    (r: Region) => if Feeds(r, z) then Pages(r) else 0
  }

  /** In how many sections page p is. */
  ghost function Cover(slots: seq<Slot>, p: nat): nat { Total(slots, SlotHas(p)) }

  lemma CoverUpdate(slots: seq<Slot>, i: nat, s: Slot, p: nat)
    requires i < |slots|
    ensures Cover(slots[i := s], p) + SlotHas(p)(slots[i]) == Cover(slots, p) + SlotHas(p)(s)
  {
    TotalUpdate(slots, i, s, SlotHas(p));
  }

  /** Splitting one section and putting the other part in an empty slot moves pages
      without losing or doubling any. */
  lemma SplitCover(slots: seq<Slot>, i: nat, j: nat, a: Slot, b: Slot)
    requires i < |slots| && j < |slots| && i != j && slots[j].nr == 0
    requires a.nr + b.nr == slots[i].nr && (a.nr > 0 ==> a.first == slots[i].first)
    requires b.nr > 0 ==> b.first == slots[i].first + a.nr
    ensures forall p: nat :: Cover(slots[i := a][j := b], p) == Cover(slots, p)
  {
    hide Cover;
    forall p: nat ensures Cover(slots[i := a][j := b], p) == Cover(slots, p) {
      CoverUpdate(slots, i, a, p);
      CoverUpdate(slots[i := a], j, b, p);
    }
  }

  /** The DMA zone's share of the kernel zone's pages. */
  function DmaPages(kernelPages: nat): nat {
    if kernelPages / 16 > 0x8000 then 0x8000 else kernelPages / 16
  }

  function AlignUp(n: nat): (m: nat)
    ensures n <= m < n + PDE && m % PDE == 0
  {
    (n + PDE - 1) / PDE * PDE
  }

  /** The top size pages of section i become the first DMA section. */
  ghost function Carved(slots: seq<Slot>, i: nat, size: nat): seq<Slot>
    requires i < 4 * DMA < |slots| && size <= slots[i].nr
  {
    if size == 0 then slots else
    slots[i := slots[i].(nr := slots[i].nr - size)]
         [4 * DMA := Slot(slots[i].first + slots[i].nr - size, size, 0, 0)]
  }

  lemma CarvedIs(slots: seq<Slot>, i: nat, size: nat)
    requires i < 4 * DMA < |slots| && size <= slots[i].nr && slots[4 * DMA] == NONE
    ensures forall p: nat :: Cover(Carved(slots, i, size), p) == Cover(slots, p)
    ensures |Carved(slots, i, size)| == |slots|
    ensures size > 0 ==>
      && Carved(slots, i, size)[i] == slots[i].(nr := slots[i].nr - size)
      && Carved(slots, i, size)[4 * DMA] == Slot(slots[i].first + slots[i].nr - size, size, 0, 0)
    ensures size == 0 ==> Carved(slots, i, size) == slots
    ensures forall k :: 0 <= k < |slots| && k != i && k != 4 * DMA ==> Carved(slots, i, size)[k] == slots[k]
  {
    hide Cover;
    if size > 0 {
      var top := Slot(slots[i].first + slots[i].nr - size, size, 0, 0);
      SplitCover(slots, i, 4 * DMA, slots[i].(nr := slots[i].nr - size), top);
    }
  }

  lemma CarvedAs(slots: seq<Slot>, i: nat, size: nat)
    requires i < 4 * DMA < |slots| && size <= slots[i].nr && slots[4 * DMA] == NONE
    ensures var less := slots[i := slots[i].(nr := slots[i].nr - size)];
      Carved(slots, i, size) ==
      if size == 0 then less else less[4 * DMA := Slot(slots[i].first + slots[i].nr - size, size, 0, 0)]
    ensures forall p: nat :: Cover(Carved(slots, i, size), p) == Cover(slots, p)
  {
    hide Cover;
    CarvedIs(slots, i, size);
  }

  lemma DmaRegion(first: nat, size: nat)
    requires first + size <= PAGES && size <= 0x8000
    ensures var r := Region(first * PAGE_SIZE % 0x1_0000_0000, size * PAGE_SIZE, DMA);
      Registered(r) && Pages(r) == size && (size > 0 ==> Low(r) % PAGES == first)
  {
    if first < PAGES { PageRegion(first, size, DMA); }
  }

  /** r is a kernel region that none starts after. */
  ghost predicate Topmost(rs: seq<Region>, r: Region) {
    r in rs && Feeds(r, KERNEL) && forall q :: q in rs && Feeds(q, KERNEL) ==> q.start <= r.start
  }

  /** k is one of the first n sections of zone z and was not mapped before. */
  predicate Newly(was: seq<Slot>, z: nat, n: nat, k: int) {
    4 * z <= k < 4 * z + n && k < |was| && was[k].mapped == 0
  }

  /** Sections of zone z among the first n that were not mapped have been given ranges:
      inside the window, ascending, and congruent to their physical place modulo what
      a directory entry maps. A section is cut short only where the window is full. */
  ghost predicate WindowOk(was: seq<Slot>, slots: seq<Slot>, z: nat, n: nat, from: nat, at: nat, end: nat) {
    && |slots| == |was| && from <= at <= end && at % PDE == end % PDE == 0
    && (forall k :: 0 <= k < |was| && !Newly(was, z, n, k) ==> slots[k] == was[k])
    && (forall k :: Newly(was, z, n, k) ==>
          slots[k].first == was[k].first && slots[k].nr == was[k].nr && slots[k].mapped <= slots[k].nr)
    && (forall k :: Newly(was, z, n, k) ==> Ranged(slots[k], from, at))
    && Ascending(was, slots, z, n)
    && (forall k :: Newly(was, z, n, k) && slots[k].mapped < slots[k].nr ==> at == end)
  }

  /** A mapped section lies between from and at, congruent to its physical place. */
  predicate Ranged(s: Slot, from: nat, at: nat) {
    s.mapped > 0 ==> from <= s.virt && s.virt + s.mapped <= at && s.virt % PDE == s.first % PDE
  }

  /** Each range of the zone lies behind those of the sections before. */
  ghost predicate Ascending(was: seq<Slot>, slots: seq<Slot>, z: nat, n: nat)
    requires |slots| == |was|
  {
    forall j, k :: Newly(was, z, n, j) && Newly(was, z, n, k) && j < k && slots[j].mapped > 0 && slots[k].mapped > 0 ==>
      slots[j].virt + slots[j].mapped <= slots[k].virt
  }

  lemma WindowSkip(was: seq<Slot>, slots: seq<Slot>, z: nat, i: nat, from: nat, at: nat, end: nat)
    requires WindowOk(was, slots, z, i, from, at, end) && 4 * z + i < |was|
    requires slots[4 * z + i].mapped > 0
    ensures WindowOk(was, slots, z, i + 1, from, at, end)
  {
    assert forall k :: Newly(was, z, i + 1, k) <==> Newly(was, z, i, k);
  }

  /** The next section takes its range. */
  lemma WindowStep(was: seq<Slot>, slots: seq<Slot>, z: nat, i: nat, from: nat, at: nat, end: nat, count: nat)
    requires WindowOk(was, slots, z, i, from, at, end) && 4 * z + i < |was| && at < end
    requires var s := slots[4 * z + i];
      && s.mapped == 0 && count <= s.nr && at + s.first % PDE + count <= end
      && (count == s.nr || at + s.first % PDE + count == end)
    ensures var s := slots[4 * z + i]; var virt := at + s.first % PDE;
      WindowOk(was, slots[4 * z + i := s.(virt := virt, mapped := count)], z, i + 1, from, AlignUp(virt + count), end)
  {
    hide AlignUp, Ascending, Ranged;
    var s := slots[4 * z + i];
    var virt := at + s.first % PDE;
    var mapped := s.(virt := virt, mapped := count);
    var t := slots[4 * z + i := mapped];
    Between(virt + count, end);
    assert forall k :: Newly(was, z, i + 1, k) <==> Newly(was, z, i, k) || k == 4 * z + i;
    assert forall k :: Newly(was, z, i, k) ==> t[k] == slots[k];
    Congruent(at, s.first);
    NewRange(mapped, from, AlignUp(virt + count));
    forall k | Newly(was, z, i, k) ensures Ranged(slots[k], from, AlignUp(virt + count)) {
      RangeGrows(slots[k], from, at, AlignUp(virt + count));
    }
    EndsBefore(was, slots, z, i, from, at);
    StepAscends(was, slots, z, i, at, mapped);
  }

  lemma NewRange(s: Slot, from: nat, at: nat)
    requires from <= s.virt && s.virt + s.mapped <= at && s.virt % PDE == s.first % PDE
    ensures Ranged(s, from, at)
  {
  }

  lemma RangeGrows(s: Slot, from: nat, at: nat, to: nat)
    requires Ranged(s, from, at) && at <= to
    ensures Ranged(s, from, to)
  {
  }

  lemma EndsBefore(was: seq<Slot>, slots: seq<Slot>, z: nat, n: nat, from: nat, at: nat)
    requires |slots| == |was| && forall k :: Newly(was, z, n, k) ==> Ranged(slots[k], from, at)
    ensures forall k :: Newly(was, z, n, k) && slots[k].mapped > 0 ==> slots[k].virt + slots[k].mapped <= at
  {
    hide Newly;
  }

  lemma StepAscends(was: seq<Slot>, slots: seq<Slot>, z: nat, i: nat, at: nat, s: Slot)
    requires |slots| == |was| && 4 * z + i < |was| && Ascending(was, slots, z, i) && at <= s.virt
    requires forall k :: Newly(was, z, i, k) && slots[k].mapped > 0 ==> slots[k].virt + slots[k].mapped <= at
    ensures Ascending(was, slots[4 * z + i := s], z, i + 1)
  {
    var t := slots[4 * z + i := s];
    forall j, k | Newly(was, z, i + 1, j) && Newly(was, z, i + 1, k) && j < k && t[j].mapped > 0 && t[k].mapped > 0
      ensures t[j].virt + t[j].mapped <= t[k].virt
    {
      assert Newly(was, z, i, j);
      if k < 4 * z + i { assert Newly(was, z, i, k); }
    }
  }

  lemma Congruent(at: nat, first: nat)
    requires at % PDE == 0
    ensures (at + first % PDE) % PDE == first % PDE
  {
  }

  lemma Between(n: nat, end: nat)
    requires n <= end && end % PDE == 0
    ensures AlignUp(n) <= end && (n == end ==> AlignUp(n) == end)
  {
  }

  lemma Offset(at: nat, end: nat, first: nat)
    requires at < end && at % PDE == end % PDE == 0
    ensures at + first % PDE < end
  {
  }

  lemma WindowElse(was: seq<Slot>, slots: seq<Slot>, z: nat, n: nat, from: nat, at: nat, end: nat)
    requires WindowOk(was, slots, z, n, from, at, end)
    ensures |slots| == |was| && forall k :: 0 <= k < |was| && !Newly(was, z, n, k) ==> slots[k] == was[k]
  {
  }

  /** The sections from i on are as they were. */
  lemma Untouched(was: seq<Slot>, slots: seq<Slot>, z: nat, i: nat, from: nat, at: nat, end: nat)
    requires WindowOk(was, slots, z, i, from, at, end)
    ensures |slots| == |was| && forall k :: 4 * z + i <= k < |was| ==> slots[k] == was[k]
  {
  }

  lemma WindowStarts(slots: seq<Slot>, z: nat, from: nat, end: nat)
    requires from <= end && from % PDE == end % PDE == 0
    ensures WindowOk(slots, slots, z, 0, from, from, end)
  {
  }

  lemma WindowDone(was: seq<Slot>, slots: seq<Slot>, z: nat, i: nat, n: nat, from: nat, end: nat)
    requires WindowOk(was, slots, z, i, from, end, end) && i <= n
    ensures WindowOk(was, slots, z, n, from, end, end)
  {
  }

  // ---- one range behind the other ------------------------------------------------------

  /** The section's range ends where the next one may start, at x. */
  predicate Closes(s: Slot, x: int) { (s.mapped > 0 || s.nr == 0) && AlignUp(s.virt + s.mapped) == x }

  /** x is the start of the window or the end of one of the new ranges. */
  ghost predicate Behind(was: seq<Slot>, slots: seq<Slot>, z: nat, n: nat, from: nat, x: int)
    requires |slots| == |was|
  {
    x == from || exists j :: Newly(was, z, n, j) && Closes(slots[j], x)
  }

  /** The new ranges follow each other without a gap but for the alignment, up to at. */
  ghost predicate Gapless(was: seq<Slot>, slots: seq<Slot>, z: nat, n: nat, from: nat, at: nat) {
    && |slots| == |was| && Behind(was, slots, z, n, from, at)
    && forall k :: Newly(was, z, n, k) && slots[k].mapped > 0 ==>
         Behind(was, slots, z, n, from, slots[k].virt - slots[k].first % PDE)
  }

  lemma GaplessStarts(slots: seq<Slot>, z: nat, from: nat)
    ensures Gapless(slots, slots, z, 0, from, from)
  {
  }

  lemma BehindKept(was: seq<Slot>, slots: seq<Slot>, z: nat, i: nat, n: nat, t: seq<Slot>, from: nat, x: int)
    requires |slots| == |was| == |t| && i <= n && Behind(was, slots, z, i, from, x)
    requires forall k :: Newly(was, z, i, k) ==> t[k] == slots[k]
    ensures Behind(was, t, z, n, from, x)
  {
    if x != from {
      var j :| Newly(was, z, i, j) && Closes(slots[j], x);
      assert Newly(was, z, n, j) && Closes(t[j], x);
    }
  }

  lemma GaplessStep(was: seq<Slot>, slots: seq<Slot>, z: nat, i: nat, from: nat, at: nat, count: nat)
    requires Gapless(was, slots, z, i, from, at) && 4 * z + i < |was| && slots[4 * z + i] == was[4 * z + i]
    requires var s := was[4 * z + i]; s.mapped == 0 && (count > 0 || s.nr == 0)
    ensures var s := slots[4 * z + i]; var virt := at + s.first % PDE;
      Gapless(was, slots[4 * z + i := s.(virt := virt, mapped := count)], z, i + 1, from, AlignUp(virt + count))
  {
    hide AlignUp, Behind;
    var s := slots[4 * z + i];
    var virt := at + s.first % PDE;
    var t := slots[4 * z + i := s.(virt := virt, mapped := count)];
    EndsAt(was, t, z, i, from, AlignUp(virt + count));
    forall k | Newly(was, z, i + 1, k) && t[k].mapped > 0
      ensures Behind(was, t, z, i + 1, from, t[k].virt - t[k].first % PDE)
    {
      if k == 4 * z + i {
        BehindKept(was, slots, z, i, i + 1, t, from, at);
      } else {
        assert Newly(was, z, i, k);
        BehindKept(was, slots, z, i, i + 1, t, from, t[k].virt - t[k].first % PDE);
      }
    }
  }

  lemma EndsAt(was: seq<Slot>, t: seq<Slot>, z: nat, i: nat, from: nat, x: int)
    requires |t| == |was| && 4 * z + i < |was| && was[4 * z + i].mapped == 0 && Closes(t[4 * z + i], x)
    ensures Behind(was, t, z, i + 1, from, x)
  {
    assert Newly(was, z, i + 1, 4 * z + i);
  }

  lemma GaplessMore(was: seq<Slot>, slots: seq<Slot>, z: nat, i: nat, n: nat, from: nat, at: nat)
    requires Gapless(was, slots, z, i, from, at) && i <= n
    requires forall k :: Newly(was, z, n, k) && !Newly(was, z, i, k) ==> k < |slots| && slots[k].mapped == 0
    ensures Gapless(was, slots, z, n, from, at)
  {
    hide Behind;
    BehindKept(was, slots, z, i, n, slots, from, at);
    forall k | Newly(was, z, n, k) && slots[k].mapped > 0
      ensures Behind(was, slots, z, n, from, slots[k].virt - slots[k].first % PDE)
    {
      BehindKept(was, slots, z, i, n, slots, from, slots[k].virt - slots[k].first % PDE);
    }
  }

  /** The sections keep their pages; only the mapping changes. */
  ghost predicate SameSections(was: seq<Slot>, slots: seq<Slot>) {
    |slots| == |was| && forall k :: 0 <= k < |was| ==>
      slots[k].first == was[k].first && slots[k].nr == was[k].nr && slots[k].mapped <= slots[k].nr
  }

  /** The mapped sections of zone z have ranges between from and to, none overlapping. */
  ghost predicate InWindow(slots: seq<Slot>, z: nat, from: nat, to: nat) {
    && |slots| == ZONES * ZONE_SECTIONS
    && (forall k :: 4 * z <= k < 4 * z + 4 && k < |slots| && slots[k].mapped > 0 ==>
          from <= slots[k].virt && slots[k].virt + slots[k].mapped <= to)
    && (forall j, k :: 4 * z <= j < k < 4 * z + 4 && k < |slots| && slots[j].mapped > 0 && slots[k].mapped > 0 ==>
          Apart(slots[j], slots[k]))
  }

  /** The virtual ranges have no page in common. */
  predicate Apart(s: Slot, t: Slot) {
    s.virt + s.mapped <= t.virt || t.virt + t.mapped <= s.virt
  }

  /** The kernel zone after mapping: section b at the start of the window, the others
      behind it. */
  ghost predicate KernelWindow(was: seq<Slot>, slots: seq<Slot>, n: nat, b: nat, at: nat) {
    && SameSections(was, slots) && |was| == ZONES * ZONE_SECTIONS && b < n <= 4
    && (forall k :: 4 <= k < |was| ==> slots[k] == was[k])
    && InWindow(slots, KERNEL, VIRTUAL_BASE, at) && VIRTUAL_BASE <= at <= VIRTUAL_END && at % PDE == 0
    && (slots[b].nr > 0 ==> slots[b].virt == VIRTUAL_BASE && slots[b].mapped > 0)
    && (forall k :: 0 <= k < 4 && k != b && slots[k].mapped > 0 ==> slots[k].virt % PDE == slots[k].first % PDE)
    && (forall k :: 0 <= k < n && slots[k].mapped < slots[k].nr ==> at == VIRTUAL_END)
  }

  lemma KernelWindowIs(was: seq<Slot>, slots: seq<Slot>, n: nat, b: nat, size: nat, from: nat, at: nat)
    requires |was| == ZONES * ZONE_SECTIONS && b < n <= 4 && forall k :: 0 <= k < |was| ==> was[k].mapped == 0
    requires size <= was[b].nr && from == VIRTUAL_BASE + AlignUp(size) <= VIRTUAL_END
    requires size == was[b].nr || from == VIRTUAL_END
    requires size > 0 || was[b].nr == 0
    requires WindowOk(was[b := was[b].(virt := VIRTUAL_BASE, mapped := size)], slots, KERNEL, n, from, at, VIRTUAL_END)
    ensures KernelWindow(was, slots, n, b, at)
  {
    hide AlignUp;
    var mid := was[b := was[b].(virt := VIRTUAL_BASE, mapped := size)];
    assert forall k :: 0 <= k < |was| && k != b ==> (Newly(mid, KERNEL, n, k) <==> k < n);
    assert size > 0 ==> !Newly(mid, KERNEL, n, b) && slots[b] == mid[b];
    assert forall k :: 0 <= k < |was| && k >= n ==> !Newly(mid, KERNEL, n, k);
    assert SameSections(was, slots);
    assert InWindow(slots, KERNEL, VIRTUAL_BASE, at);
  }

  lemma KernelBase(was: seq<Slot>, slots: seq<Slot>, n: nat, b: nat, at: nat)
    requires KernelWindow(was, slots, n, b, at)
    ensures at <= VIRTUAL_END && at % PDE == 0
  {
  }

  /** All sections keep their pages; the mapped ones have virtual ranges with no page in
      common, in the kernel window or the DMA window, and all but the boot section b are
      congruent to their physical place. */
  ghost predicate MappedOk(was: seq<Slot>, slots: seq<Slot>, b: nat) {
    && SameSections(was, slots) && |was| == ZONES * ZONE_SECTIONS
    && (forall j, k :: 0 <= j < k < |slots| && slots[j].mapped > 0 && slots[k].mapped > 0 ==> Apart(slots[j], slots[k]))
    && (forall k :: 0 <= k < |slots| && slots[k].mapped > 0 ==> Placed(slots[k], k, b))
  }

  predicate Placed(s: Slot, k: nat, b: nat) {
    && k < 4 * USER
    && (if 4 * DMA <= k < 4 * RES then DMA_BASE <= s.virt && s.virt + s.mapped <= DMA_END
        else VIRTUAL_BASE <= s.virt && s.virt + s.mapped <= VIRTUAL_END)
    && (k != b ==> s.virt % PDE == s.first % PDE)
  }

  lemma ZoneWindow(was: seq<Slot>, slots: seq<Slot>, z: nat, n: nat, from: nat, at: nat, end: nat)
    requires WindowOk(was, slots, z, n, from, at, end) && |was| == ZONES * ZONE_SECTIONS && z < ZONES && n <= 4
    requires forall k :: 4 * z <= k < 4 * z + 4 ==> was[k].mapped == 0
    ensures InWindow(slots, z, from, end)
    ensures forall k :: 0 <= k < |was| && k / 4 != z ==> slots[k] == was[k]
    ensures forall k :: 4 * z <= k < 4 * z + 4 ==>
              slots[k].first == was[k].first && slots[k].nr == was[k].nr && slots[k].mapped <= slots[k].nr
    ensures forall k :: 4 * z <= k < 4 * z + 4 && slots[k].mapped > 0 ==> slots[k].virt % PDE == slots[k].first % PDE
  {
    assert forall k :: 0 <= k < |was| ==> (Newly(was, z, n, k) <==> 4 * z <= k < 4 * z + n);
  }

  /** The three zones, each in its window, as one. */
  lemma ZonesApart(was: seq<Slot>, slots: seq<Slot>, b: nat, at: nat)
    requires SameSections(was, slots) && |was| == ZONES * ZONE_SECTIONS && at <= VIRTUAL_END
    requires InWindow(slots, KERNEL, VIRTUAL_BASE, at) && InWindow(slots, DMA, DMA_BASE, DMA_END)
    requires InWindow(slots, RES, at, VIRTUAL_END) && VIRTUAL_BASE <= at
    requires forall k :: 0 <= k < |slots| && slots[k].mapped > 0 ==>
               k < 4 * USER && (k != b ==> slots[k].virt % PDE == slots[k].first % PDE)
    ensures MappedOk(was, slots, b)
  {
    forall j, k | 0 <= j < k < |slots| && slots[j].mapped > 0 && slots[k].mapped > 0 ensures Apart(slots[j], slots[k]) {
      if k < 4 || (4 <= j && k < 8) || 8 <= j {} else if k < 8 || j >= 4 {} else {}
    }
  }

  lemma AllMapped(was: seq<Slot>, first: seq<Slot>, second: seq<Slot>, slots: seq<Slot>,
                  n: nat, nd: nat, nres: nat, b: nat, at: nat, dma: nat, res: nat)
    requires KernelWindow(was, first, n, b, at) && forall k :: 0 <= k < |was| ==> was[k].mapped == 0
    requires nd <= 4 && nres <= 4
    requires WindowOk(first, second, DMA, nd, DMA_BASE, dma, DMA_END)
    requires WindowOk(second, slots, RES, nres, at, res, VIRTUAL_END)
    ensures MappedOk(was, slots, b)
  {
    hide WindowOk, InWindow, MappedOk;
    ZoneWindow(first, second, DMA, nd, DMA_BASE, dma, DMA_END);
    ZoneWindow(second, slots, RES, nres, at, res, VIRTUAL_END);
    assert forall k :: 0 <= k < 4 ==> slots[k] == second[k] == first[k];
    assert forall k :: 4 <= k < 8 ==> slots[k] == second[k] && first[k] == was[k];
    assert forall k :: 8 <= k < 12 ==> second[k] == first[k] == was[k];
    assert forall k :: 12 <= k < 16 ==> slots[k] == second[k] == first[k] == was[k];
    WindowKept(first, slots, KERNEL, VIRTUAL_BASE, at);
    WindowKept(second, slots, DMA, DMA_BASE, DMA_END);
    ZonesApart(was, slots, b, at);
  }

  // ---- the three windows, stacked -----------------------------------------------------------

  /** A range of zone z ends at x. */
  ghost predicate Closed(slots: seq<Slot>, z: nat, x: int) {
    exists j :: 4 * z <= j < 4 * z + 4 && j < |slots| && Closes(slots[j], x)
  }

  /** The space below x is used up: x is the start of the zone's window or the end of a range in
      it. The reserved zone goes on where the kernel zone ends. */
  ghost predicate Rests(slots: seq<Slot>, z: nat, x: int) {
    if z == DMA then x == DMA_BASE || Closed(slots, DMA, x)
    else x == VIRTUAL_BASE || Closed(slots, KERNEL, x) || (z == RES && Closed(slots, RES, x))
  }

  function WindowEnd(z: nat): nat { if z == DMA then DMA_END else VIRTUAL_END }

  /** Every range but that of the boot section b starts where the space below it is used up, and
      a section is cut short or left out only where its whole window is. */
  ghost predicate Stacked(slots: seq<Slot>, b: nat) {
    && (forall k :: 0 <= k < 4 * USER && k < |slots| && k != b && slots[k].mapped > 0 ==>
          Rests(slots, k / 4, slots[k].virt - slots[k].first % PDE))
    && (forall k :: 0 <= k < 4 * USER && k < |slots| && slots[k].mapped < slots[k].nr ==>
          Rests(slots, k / 4, WindowEnd(k / 4)))
  }

  lemma GaplessRest(slots: seq<Slot>, z: nat, n: nat, from: nat)
    ensures Gapless(slots, slots, z, n, from, from)
  {
    assert forall k :: Newly(slots, z, n, k) ==> slots[k].mapped == 0;
  }

  lemma BehindRests(was: seq<Slot>, slots: seq<Slot>, z: nat, n: nat, from: nat, x: int)
    requires |slots| == |was| && n <= 4 && z < USER && Behind(was, slots, z, n, from, x) && Rests(slots, z, from)
    ensures Rests(slots, z, x)
  {
    if x != from {
      var j :| Newly(was, z, n, j) && Closes(slots[j], x);
      assert Closed(slots, z, x);
    }
  }

  /** The kernel zone: its ranges and its map base rest on what is below. */
  ghost predicate KernelStacked(slots: seq<Slot>, b: nat, at: nat) {
    && |slots| == ZONES * ZONE_SECTIONS && Rests(slots, KERNEL, at)
    && forall k :: 0 <= k < 4 && k != b && slots[k].mapped > 0 ==> Rests(slots, KERNEL, slots[k].virt - slots[k].first % PDE)
  }

  lemma KernelStackedIs(was: seq<Slot>, slots: seq<Slot>, n: nat, b: nat, size: nat, from: nat, at: nat)
    requires |was| == ZONES * ZONE_SECTIONS && b < n <= 4 && (forall k :: 0 <= k < |was| ==> was[k].mapped == 0)
    requires from == VIRTUAL_BASE + AlignUp(size) && (size > 0 || was[b].nr == 0)
    requires var mid := was[b := was[b].(virt := VIRTUAL_BASE, mapped := size)];
      && Gapless(mid, slots, KERNEL, n, from, at)
      && forall k :: 0 <= k < |mid| && !Newly(mid, KERNEL, n, k) ==> slots[k] == mid[k]
    ensures KernelStacked(slots, b, at)
  {
    hide Behind;
    var mid := was[b := was[b].(virt := VIRTUAL_BASE, mapped := size)];
    assert Rests(slots, KERNEL, from) by {
      if size > 0 {
        assert !Newly(mid, KERNEL, n, b) && slots[b] == mid[b];
        assert AlignUp(VIRTUAL_BASE + size) == VIRTUAL_BASE + AlignUp(size);
        assert Closes(slots[b], from);
      }
    }
    hide Rests;
    BehindRests(mid, slots, KERNEL, n, from, at);
    forall k | 0 <= k < 4 && k != b && slots[k].mapped > 0
      ensures Rests(slots, KERNEL, slots[k].virt - slots[k].first % PDE)
    {
      assert Newly(mid, KERNEL, n, k);
      BehindRests(mid, slots, KERNEL, n, from, slots[k].virt - slots[k].first % PDE);
    }
  }

  lemma ClosedKept(slots: seq<Slot>, t: seq<Slot>, z: nat, x: int)
    requires |t| == |slots| && Closed(slots, z, x) && forall k :: 4 * z <= k < 4 * z + 4 && k < |t| ==> t[k] == slots[k]
    ensures Closed(t, z, x)
  {
    var j :| 4 * z <= j < 4 * z + 4 && j < |slots| && Closes(slots[j], x);
    assert Closes(t[j], x);
  }

  lemma RestsKept(slots: seq<Slot>, t: seq<Slot>, z: nat, x: int)
    requires |t| == |slots| && Rests(slots, z, x)
    requires forall k :: 4 * z <= k < 4 * z + 4 && k < |t| ==> t[k] == slots[k]
    requires z != DMA ==> forall k :: 0 <= k < 4 && k < |t| ==> t[k] == slots[k]
    ensures Rests(t, z, x)
  {
    hide Closed;
    if Closed(slots, z, x) { ClosedKept(slots, t, z, x); }
    if z != DMA && Closed(slots, KERNEL, x) { ClosedKept(slots, t, KERNEL, x); }
  }

  /** A zone filled from a base that rests on what is below. */
  lemma ZoneStacked(was: seq<Slot>, slots: seq<Slot>, z: nat, n: nat, from: nat, at: nat, end: nat)
    requires WindowOk(was, slots, z, n, from, at, end) && Gapless(was, slots, z, n, from, at) && z < USER && n <= 4
    requires |was| == ZONES * ZONE_SECTIONS && Rests(slots, z, from) && end == WindowEnd(z)
    requires forall k :: 4 * z <= k < 4 * z + 4 ==> was[k].mapped == 0 && (k >= 4 * z + n ==> was[k].nr == 0)
    ensures forall k :: 4 * z <= k < 4 * z + 4 && slots[k].mapped > 0 ==>
      Rests(slots, z, slots[k].virt - slots[k].first % PDE)
    ensures forall k :: 4 * z <= k < 4 * z + 4 && slots[k].mapped < slots[k].nr ==> Rests(slots, z, WindowEnd(z))
  {
    hide Behind, Rests, Ascending, Ranged;
    BehindRests(was, slots, z, n, from, at);
    forall k | 4 * z <= k < 4 * z + 4 && slots[k].mapped > 0
      ensures Rests(slots, z, slots[k].virt - slots[k].first % PDE)
    {
      assert Newly(was, z, n, k);
      BehindRests(was, slots, z, n, from, slots[k].virt - slots[k].first % PDE);
    }
    forall k | 4 * z <= k < 4 * z + 4 && slots[k].mapped < slots[k].nr ensures Rests(slots, z, WindowEnd(z)) {
      assert Newly(was, z, n, k);
    }
  }

  /** Nothing is mapped, and the sections beyond the zones' counts have no pages. */
  ghost predicate Bare(was: seq<Slot>, n: nat, nd: nat, nres: nat) {
    && (forall k :: 0 <= k < |was| ==> was[k].mapped == 0)
    && (forall k :: 0 <= k < 12 && k < |was| ==>
          (k % 4 >= (if k < 4 then n else if k < 8 then nd else nres) ==> was[k].nr == 0))
  }

  /** The three windows are filled. */
  lemma Filled(was: seq<Slot>, first: seq<Slot>, second: seq<Slot>, slots: seq<Slot>,
               n: nat, nd: nat, nres: nat, b: nat, at: nat, dma: nat, res: nat)
    requires KernelWindow(was, first, n, b, at) && KernelStacked(first, b, at) && nd <= 4 && nres <= 4
    requires Bare(was, n, nd, nres)
    requires WindowOk(first, second, DMA, nd, DMA_BASE, dma, DMA_END) && Gapless(first, second, DMA, nd, DMA_BASE, dma)
    requires WindowOk(second, slots, RES, nres, at, res, VIRTUAL_END) && Gapless(second, slots, RES, nres, at, res)
    ensures MappedOk(was, slots, b) && Stacked(slots, b)
    ensures |slots| == |was| && b < 4 && slots[b].first == was[b].first && slots[b].nr == was[b].nr
    ensures slots[b].nr > 0 ==> slots[b].virt == VIRTUAL_BASE && slots[b].mapped > 0
  {
    hide WindowOk, Gapless, KernelWindow, KernelStacked, MappedOk, Stacked;
    AllMapped(was, first, second, slots, n, nd, nres, b, at, dma, res);
    AllStacked(was, first, second, slots, n, nd, nres, b, at, dma, res);
    BootKept(was, first, second, slots, n, nd, nres, b, at, dma, res);
  }

  lemma AllStacked(was: seq<Slot>, first: seq<Slot>, second: seq<Slot>, slots: seq<Slot>,
                   n: nat, nd: nat, nres: nat, b: nat, at: nat, dma: nat, res: nat)
    requires KernelWindow(was, first, n, b, at) && KernelStacked(first, b, at) && nd <= 4 && nres <= 4
    requires Bare(was, n, nd, nres)
    requires WindowOk(first, second, DMA, nd, DMA_BASE, dma, DMA_END) && Gapless(first, second, DMA, nd, DMA_BASE, dma)
    requires WindowOk(second, slots, RES, nres, at, res, VIRTUAL_END) && Gapless(second, slots, RES, nres, at, res)
    ensures Stacked(slots, b)
  {
    hide WindowOk, Gapless, Rests, InWindow, KernelWindow, KernelStacked, Bare;
    CutAtEnd(was, first, n, nd, nres, b, at);
    ZoneWindow(first, second, DMA, nd, DMA_BASE, dma, DMA_END);
    ZoneWindow(second, slots, RES, nres, at, res, VIRTUAL_END);
    RestsSome(first, second);
    ZoneStacked(first, second, DMA, nd, DMA_BASE, dma, DMA_END);
    assert forall k :: 0 <= k < 4 ==> slots[k] == second[k] == first[k];
    assert forall k :: 4 <= k < 8 ==> slots[k] == second[k];
    AtRests(first, b, at);
    KernelRests(first, slots, at);
    ZoneStacked(second, slots, RES, nres, at, res, VIRTUAL_END);
    JoinStacked(first, second, slots, n, b, at);
  }

  lemma CutAtEnd(was: seq<Slot>, first: seq<Slot>, n: nat, nd: nat, nres: nat, b: nat, at: nat)
    requires KernelWindow(was, first, n, b, at) && Bare(was, n, nd, nres)
    ensures |first| == |was| == ZONES * ZONE_SECTIONS && n <= 4
    ensures forall k :: 0 <= k < 4 && first[k].mapped < first[k].nr ==> at == VIRTUAL_END
    ensures forall k :: 4 <= k < 8 ==> first[k].mapped == 0 && (k >= 4 + nd ==> first[k].nr == 0)
    ensures forall k :: 8 <= k < 12 ==> first[k].mapped == 0 && (k >= 8 + nres ==> first[k].nr == 0)
  {
    hide InWindow;
  }

  /** The three zones, each stacked, as one. */
  lemma JoinStacked(first: seq<Slot>, second: seq<Slot>, slots: seq<Slot>, n: nat, b: nat, at: nat)
    requires |first| == |second| == |slots| == ZONES * ZONE_SECTIONS && KernelStacked(first, b, at) && n <= 4
    requires forall k :: 0 <= k < 4 ==> slots[k] == first[k] && (first[k].mapped < first[k].nr ==> at == VIRTUAL_END)
    requires forall k :: 4 <= k < 8 ==> slots[k] == second[k]
    requires forall k :: 4 <= k < 8 && second[k].mapped > 0 ==> Rests(second, DMA, second[k].virt - second[k].first % PDE)
    requires forall k :: 4 <= k < 8 && second[k].mapped < second[k].nr ==> Rests(second, DMA, DMA_END)
    requires forall k :: 8 <= k < 12 && slots[k].mapped > 0 ==> Rests(slots, RES, slots[k].virt - slots[k].first % PDE)
    requires forall k :: 8 <= k < 12 && slots[k].mapped < slots[k].nr ==> Rests(slots, RES, VIRTUAL_END)
    ensures Stacked(slots, b)
  {
    hide Rests;
    forall k | 0 <= k < 4 * USER && k != b && slots[k].mapped > 0
      ensures Rests(slots, k / 4, slots[k].virt - slots[k].first % PDE)
    {
      if k < 4 { RestsKept(first, slots, KERNEL, slots[k].virt - slots[k].first % PDE); }
      else if k < 8 { RestsKept(second, slots, DMA, slots[k].virt - slots[k].first % PDE); }
    }
    forall k | 0 <= k < 4 * USER && slots[k].mapped < slots[k].nr ensures Rests(slots, k / 4, WindowEnd(k / 4)) {
      if k < 4 { RestsKept(first, slots, KERNEL, at); }
      else if k < 8 { RestsKept(second, slots, DMA, DMA_END); }
    }
  }

  lemma BootKept(was: seq<Slot>, first: seq<Slot>, second: seq<Slot>, slots: seq<Slot>,
                 n: nat, nd: nat, nres: nat, b: nat, at: nat, dma: nat, res: nat)
    requires KernelWindow(was, first, n, b, at)
    requires WindowOk(first, second, DMA, nd, DMA_BASE, dma, DMA_END)
    requires WindowOk(second, slots, RES, nres, at, res, VIRTUAL_END)
    ensures |slots| == |was| && b < 4 && slots[b].first == was[b].first && slots[b].nr == was[b].nr
    ensures slots[b].nr > 0 ==> slots[b].virt == VIRTUAL_BASE && slots[b].mapped > 0
  {
    WindowElse(first, second, DMA, nd, DMA_BASE, dma, DMA_END);
    WindowElse(second, slots, RES, nres, at, res, VIRTUAL_END);
    assert !Newly(first, DMA, nd, b) && !Newly(second, RES, nres, b);
  }

  lemma AtRests(first: seq<Slot>, b: nat, at: nat)
    requires KernelStacked(first, b, at)
    ensures Rests(first, KERNEL, at)
  {
  }

  lemma RestsSome(first: seq<Slot>, second: seq<Slot>)
    ensures Rests(second, DMA, DMA_BASE)
    ensures forall x :: Rests(first, KERNEL, x) ==> Rests(first, RES, x)
  {
  }

  lemma KernelRests(first: seq<Slot>, slots: seq<Slot>, at: nat)
    requires Rests(first, KERNEL, at) && |slots| == |first| >= 4 && forall k :: 0 <= k < 4 ==> slots[k] == first[k]
    ensures Rests(slots, RES, at)
  {
    RestsKept(first, slots, KERNEL, at);
  }

  lemma WindowKept(s: seq<Slot>, t: seq<Slot>, z: nat, from: nat, to: nat)
    requires InWindow(s, z, from, to) && |t| == |s| && z < ZONES
    requires forall k :: 4 * z <= k < 4 * z + 4 ==> t[k] == s[k]
    ensures InWindow(t, z, from, to)
  {
  }

  lemma WindowRest(slots: seq<Slot>, z: nat, n: nat, end: nat)
    requires end % PDE == 0
    ensures WindowOk(slots, slots, z, n, end, end, end)
  {
  }

  /** Every kernel region starts one of the n kernel sections. */
  ghost predicate Starts(slots: seq<Slot>, n: nat, rs: seq<Region>) {
    n <= |slots| && forall r :: r in rs && Feeds(r, KERNEL) ==> exists i :: 0 <= i < n && slots[i].first == Low(r)
  }

  lemma StartsMore(slots: seq<Slot>, n: nat, rs: seq<Region>, more: seq<Slot>, m: nat, r: Region)
    requires Starts(slots, n, rs) && n <= m <= |more| && forall i :: 0 <= i < n ==> more[i].first == slots[i].first
    requires Feeds(r, KERNEL) ==> n < m && more[n].first == Low(r)
    ensures Starts(more, m, rs + [r])
  {
    hide Feeds;
    forall q | q in rs + [r] && Feeds(q, KERNEL) ensures exists i :: 0 <= i < m && more[i].first == Low(q) {
      if q in rs {
        var i :| 0 <= i < n && slots[i].first == Low(q);
        assert more[i].first == Low(q);
      }
    }
  }

  // ---- which zone a page is in ---------------------------------------------------------

  predicate HasPage(s: Slot, p: nat) { s.first <= p < s.first + s.nr }

  ghost predicate InZone(slots: seq<Slot>, z: nat, p: nat) {
    exists k :: 4 * z <= k < 4 * z + 4 && k < |slots| && HasPage(slots[k], p)
  }

  /** Each page of a region is in the zone that the region is for. */
  ghost predicate Zoned(slots: seq<Slot>, rs: seq<Region>) {
    forall r, p: nat :: r in rs && Holds(r, p) ==> InZone(slots, r.attr, p)
  }

  /** One more region, in a slot that was empty. */
  lemma ZonedMore(slots: seq<Slot>, rs: seq<Region>, more: seq<Slot>, r: Region, i: nat)
    requires Zoned(slots, rs) && Registered(r) && |more| == |slots|
    requires forall k :: 0 <= k < |slots| && more[k] != slots[k] ==> slots[k].nr == 0
    requires r.attr < UNKNOWN_MEM && Pages(r) > 0 ==>
      4 * r.attr <= i < 4 * r.attr + 4 && i < |more| && more[i].first == Low(r) && more[i].nr == Pages(r)
    ensures Zoned(more, rs + [r])
  {
    PagesAreWhole(r);
    forall q, p: nat | q in rs + [r] && Holds(q, p) ensures InZone(more, q.attr, p) {
      if q in rs {
        assert InZone(slots, q.attr, p);
        var k :| 4 * q.attr <= k < 4 * q.attr + 4 && k < |slots| && HasPage(slots[k], p);
        assert HasPage(more[k], p);
      } else {
        assert HasPage(more[i], p);
      }
    }
  }

  /** One more region, counted. */
  lemma CoverMore(slots: seq<Slot>, i: nat, rs: seq<Region>, r: Region, more: seq<Slot>)
    requires Registered(r) && r.attr < UNKNOWN_MEM && forall p: nat :: Cover(slots, p) == Total(rs, RegionHas(p))
    requires if Pages(r) == 0 then more == slots
             else i < |slots| && slots[i].nr == 0 && more == slots[i := Slot(Low(r), Pages(r), 0, 0)]
    ensures forall p: nat :: Cover(more, p) == Total(rs + [r], RegionHas(p))
  {
    hide Cover;
    PagesAreWhole(r);
    assert (rs + [r])[..|rs|] == rs;
    forall p: nat ensures Cover(more, p) == Total(rs + [r], RegionHas(p)) {
      if Pages(r) > 0 { CoverUpdate(slots, i, Slot(Low(r), Pages(r), 0, 0), p); }
    }
  }

  lemma ZonedSame(slots: seq<Slot>, xs: seq<Region>, ys: seq<Region>)
    requires Zoned(slots, xs) && forall r :: r in ys ==> r in xs
    ensures Zoned(slots, ys)
  {
    hide Holds, InZone;
  }

  /** Carving moves pages from the kernel zone to the DMA zone and no others. */
  lemma CarvedZone(slots: seq<Slot>, i: nat, size: nat, z: nat, p: nat)
    requires i < 4 * DMA && |slots| == ZONES * ZONE_SECTIONS && size <= slots[i].nr && slots[4 * DMA] == NONE
    requires InZone(slots, z, p)
    ensures InZone(Carved(slots, i, size), z, p) || (z == KERNEL && InZone(Carved(slots, i, size), DMA, p))
  {
    var k :| 4 * z <= k < 4 * z + 4 && k < |slots| && HasPage(slots[k], p);
    CarvedIs(slots, i, size);
    var t := Carved(slots, i, size);
    if k != i {
      assert HasPage(t[k], p);
    } else if p < slots[i].first + slots[i].nr - size {
      assert HasPage(t[i], p);
    } else {
      assert HasPage(t[4 * DMA], p);
    }
  }

  /** d is a sixteenth of total, but at most 128 MiB. */
  predicate DmaShare(d: nat, total: nat) {
    if total >= 0x80000 then d == 0x8000 else 16 * d <= total < 16 * d + 16
  }

  /** Each page of a region is in the zone the region is for; but if no region is for the DMA
      zone, that zone has its share of the kernel's pages. */
  ghost predicate Shared(slots: seq<Slot>, rs: seq<Region>) {
    && (forall r, p: nat :: r in rs && Holds(r, p) ==>
          InZone(slots, r.attr, p) || (r.attr == KERNEL && Total(rs, Feeding(DMA)) == 0 && InZone(slots, DMA, p)))
    && (Total(rs, Feeding(DMA)) == 0 ==> |slots| > 4 * DMA && DmaShare(slots[4 * DMA].nr, Total(rs, Extent(KERNEL))))
  }

  /** A kernel section without pages has given them to the DMA zone. */
  ghost predicate Backed(slots: seq<Slot>, n: nat) {
    forall k :: 0 <= k < n && k < |slots| ==> slots[k].nr > 0 || InZone(slots, DMA, slots[k].first)
  }

  lemma SharedAsIs(slots: seq<Slot>, rs: seq<Region>, n: nat)
    requires Zoned(slots, rs) && Total(rs, Feeding(DMA)) > 0 && forall k :: 0 <= k < n && k < |slots| ==> slots[k].nr > 0
    ensures Shared(slots, rs) && Backed(slots, n)
  {
    hide Holds, InZone, Total;
  }

  lemma SharedCarved(was: seq<Slot>, rs: seq<Region>, n: nat, share: nat, slots: seq<Slot>)
    requires |was| == ZONES * ZONE_SECTIONS && 0 < n <= 4 && share <= was[n - 1].nr && was[4 * DMA] == NONE
    requires Zoned(was, rs) && Total(rs, Feeding(DMA)) == 0 && share == DmaPages(Total(rs, Extent(KERNEL)))
    requires slots == Carved(was, n - 1, share) && forall k :: 0 <= k < n ==> was[k].nr > 0
    ensures Shared(slots, rs) && Backed(slots, n)
  {
    hide Holds, InZone, Total, Carved;
    CarvedIs(was, n - 1, share);
    forall r, p: nat | r in rs && Holds(r, p)
      ensures InZone(slots, r.attr, p) || (r.attr == KERNEL && InZone(slots, DMA, p))
    {
      CarvedZone(was, n - 1, share, r.attr, p);
    }
    assert slots[4 * DMA].nr == share;
    if slots[n - 1].nr == 0 { AtStart(slots, DMA, 4 * DMA); }
  }

  lemma AtStart(slots: seq<Slot>, z: nat, k: nat)
    requires 4 * z <= k < 4 * z + 4 && k < |slots| && slots[k].nr > 0
    ensures InZone(slots, z, slots[k].first)
  {
    assert HasPage(slots[k], slots[k].first);
  }

  /** The pages of a kernel section that are not mapped. */
  function Unfit(s: Slot): Slot {
    Slot(s.first + s.mapped, if s.mapped <= s.nr then s.nr - s.mapped else 0, 0, 0)
  }

  /** s is one of the first j user sections. */
  ghost predicate Arrived(slots: seq<Slot>, j: nat, s: Slot) {
    exists u :: 12 <= u < 12 + j && u < |slots| && slots[u] == s
  }

  /** s is what one of the first i kernel sections could not map. */
  ghost predicate Left(was: seq<Slot>, i: nat, s: Slot) {
    exists k :: 0 <= k < i && k < |was| && was[k].mapped < was[k].nr && s == Unfit(was[k])
  }

  /** The first j user sections are what the first i kernel sections could not map. */
  ghost predicate Moved(was: seq<Slot>, slots: seq<Slot>, i: nat, j: nat) {
    && (forall k :: 0 <= k < i && k < |was| && was[k].mapped < was[k].nr ==> Arrived(slots, j, Unfit(was[k])))
    && (forall u :: 12 <= u < 12 + j && u < |slots| ==> Left(was, i, slots[u]))
  }

  lemma NoneMoved(slots: seq<Slot>)
    ensures Moved(slots, slots, 0, 0)
  {
  }

  lemma ArrivedKept(slots: seq<Slot>, t: seq<Slot>, j: nat, m: nat, s: Slot)
    requires Arrived(slots, j, s) && j <= m && |t| == |slots| && forall u :: 12 <= u < 12 + j && u < |t| ==> t[u] == slots[u]
    ensures Arrived(t, m, s)
  {
    var u :| 12 <= u < 12 + j && u < |slots| && slots[u] == s;
    assert t[u] == s;
  }

  lemma LeftKept(was: seq<Slot>, i: nat, s: Slot)
    requires Left(was, i, s)
    ensures Left(was, i + 1, s)
  {
  }

  lemma MovedNext(was: seq<Slot>, slots: seq<Slot>, t: seq<Slot>, i: nat, j: nat)
    requires i < 4 && j <= i && |slots| == |was| == |t| == ZONES * ZONE_SECTIONS
    requires Moved(was, slots, i, j) && forall u :: 12 <= u < 12 + j ==> t[u] == slots[u]
    ensures was[i].mapped >= was[i].nr ==> Moved(was, t, i + 1, j)
    ensures was[i].mapped < was[i].nr && t[12 + j] == Unfit(was[i]) ==> Moved(was, t, i + 1, j + 1)
  {
    hide Arrived, Left;
    forall k | 0 <= k < i && was[k].mapped < was[k].nr
      ensures Arrived(t, j, Unfit(was[k])) && Arrived(t, j + 1, Unfit(was[k]))
    {
      ArrivedKept(slots, t, j, j, Unfit(was[k]));
      ArrivedKept(slots, t, j, j + 1, Unfit(was[k]));
    }
    forall u | 12 <= u < 12 + j ensures Left(was, i + 1, t[u]) { LeftKept(was, i, slots[u]); }
    if was[i].mapped < was[i].nr && t[12 + j] == Unfit(was[i]) { Moves(was, t, i, j); }
  }

  lemma Moves(was: seq<Slot>, t: seq<Slot>, i: nat, j: nat)
    requires i < |was| && 12 + j < |t| && was[i].mapped < was[i].nr && t[12 + j] == Unfit(was[i])
    ensures Arrived(t, j + 1, Unfit(was[i])) && Left(was, i + 1, t[12 + j])
  {
  }

  // ---- the end of mm_init -------------------------------------------------------------------

  /** Each page of a region is in the zone the region is for; or it is a kernel page in the DMA
      zone's share; or it is a kernel page in the user zone, and the kernel window is full. */
  ghost predicate Settled(slots: seq<Slot>, rs: seq<Region>) {
    && (forall r, p: nat :: r in rs && Holds(r, p) ==>
          || InZone(slots, r.attr, p)
          || (r.attr == KERNEL && Total(rs, Feeding(DMA)) == 0 && InZone(slots, DMA, p))
          || (r.attr == KERNEL && InZone(slots, USER, p) && Closed(slots, KERNEL, VIRTUAL_END)))
    && (Total(rs, Feeding(DMA)) == 0 ==> |slots| > 4 * DMA && DmaShare(slots[4 * DMA].nr, Total(rs, Extent(KERNEL))))
  }

  /** Section b starts at start and at the base of the kernel window, unless its pages are the
      DMA zone's; the mapped sections are in their windows, congruent and stacked. */
  ghost predicate Arranged(slots: seq<Slot>, b: nat, start: nat) {
    && b < 4 * DMA < |slots| && slots[b].first == start
    && (if slots[b].mapped > 0 then slots[b].virt == VIRTUAL_BASE else InZone(slots, DMA, start))
    && Stacked(slots, b)
    && forall k :: 0 <= k < 4 * USER && k < |slots| && slots[k].mapped > 0 ==> Placed(slots[k], k, b)
  }

  /** slots is what init_user_zone makes of the mapped sections was, n of them in the kernel
      zone, with j user sections. */
  ghost predicate Handed(was: seq<Slot>, slots: seq<Slot>, n: nat, j: nat) {
    && |slots| == |was| == ZONES * ZONE_SECTIONS && n <= 4 && j <= 4
    && (forall k :: 0 <= k < |was| ==> was[k].mapped <= was[k].nr)
    && (forall k :: 0 <= k < n ==> slots[k] == KeptPart(was[k]))
    && (forall k :: n <= k < 4 * USER ==> slots[k] == was[k])
    && (forall k :: n <= k < 4 ==> was[k].nr == 0)
  }

  lemma ClosedHanded(was: seq<Slot>, slots: seq<Slot>, n: nat, j: nat, z: nat, x: int)
    requires Handed(was, slots, n, j) && z < USER && Closed(was, z, x)
    ensures Closed(slots, z, x)
  {
    var i :| 4 * z <= i < 4 * z + 4 && i < |was| && Closes(was[i], x);
    assert Closes(slots[i], x);
  }

  lemma RestsHanded(was: seq<Slot>, slots: seq<Slot>, n: nat, j: nat, z: nat, x: int)
    requires Handed(was, slots, n, j) && z < USER && Rests(was, z, x)
    ensures Rests(slots, z, x)
  {
    hide Closed, Handed;
    if Closed(was, z, x) { ClosedHanded(was, slots, n, j, z, x); }
    if z != DMA && Closed(was, KERNEL, x) { ClosedHanded(was, slots, n, j, KERNEL, x); }
  }

  lemma StackedHanded(was: seq<Slot>, slots: seq<Slot>, n: nat, j: nat, b: nat)
    requires Handed(was, slots, n, j) && Stacked(was, b)
    ensures Stacked(slots, b)
  {
    hide Rests;
    forall k | 0 <= k < 4 * USER && k != b && slots[k].mapped > 0
      ensures Rests(slots, k / 4, slots[k].virt - slots[k].first % PDE)
    {
      assert was[k].mapped > 0 && slots[k].virt == was[k].virt && slots[k].first == was[k].first;
      RestsHanded(was, slots, n, j, k / 4, slots[k].virt - slots[k].first % PDE);
    }
    forall k | 0 <= k < 4 * USER && slots[k].mapped < slots[k].nr ensures Rests(slots, k / 4, WindowEnd(k / 4)) {
      assert k >= 4 && was[k] == slots[k];
      RestsHanded(was, slots, n, j, k / 4, WindowEnd(k / 4));
    }
  }

  /** A page of a zone stays in it, but for kernel pages that no window was left for. */
  lemma ZoneHanded(was: seq<Slot>, slots: seq<Slot>, n: nat, j: nat, b: nat, z: nat, p: nat)
    requires Handed(was, slots, n, j) && Moved(was, slots, n, j) && Stacked(was, b) && z < USER && InZone(was, z, p)
    ensures InZone(slots, z, p) || (z == KERNEL && InZone(slots, USER, p) && Closed(slots, KERNEL, VIRTUAL_END))
  {
    var k :| 4 * z <= k < 4 * z + 4 && k < |was| && HasPage(was[k], p);
    if k >= n || p < was[k].first + was[k].mapped {
      assert HasPage(slots[k], p);
    } else {
      FullWindow(was, slots, n, j, b, k);
      assert Arrived(slots, j, Unfit(was[k]));
      var u :| 12 <= u < 12 + j && u < |slots| && slots[u] == Unfit(was[k]);
      assert HasPage(slots[u], p);
    }
  }

  lemma FullWindow(was: seq<Slot>, slots: seq<Slot>, n: nat, j: nat, b: nat, k: nat)
    requires Handed(was, slots, n, j) && Stacked(was, b) && k < 4 && was[k].mapped < was[k].nr
    ensures Closed(slots, KERNEL, VIRTUAL_END)
  {
    hide Closed;
    assert Rests(was, KERNEL, VIRTUAL_END);
    ClosedHanded(was, slots, n, j, KERNEL, VIRTUAL_END);
  }

  lemma ZoneSame(was: seq<Slot>, slots: seq<Slot>, z: nat, p: nat)
    requires SameSections(was, slots) && InZone(was, z, p)
    ensures InZone(slots, z, p)
  {
    var k :| 4 * z <= k < 4 * z + 4 && k < |was| && HasPage(was[k], p);
    assert HasPage(slots[k], p);
  }

  lemma Finished(laid: seq<Slot>, was: seq<Slot>, slots: seq<Slot>, rs: seq<Region>, n: nat, j: nat, b: nat, start: nat)
    requires Shared(laid, rs) && Backed(laid, n) && MappedOk(laid, was, b) && Stacked(was, b) && Moved(was, slots, n, j)
    requires b < n <= 4 && Handed(was, slots, n, j) && was[b].first == start
    requires was[b].nr > 0 ==> was[b].virt == VIRTUAL_BASE && was[b].mapped > 0
    ensures Settled(slots, rs) && Arranged(slots, b, start)
    ensures forall i, k :: 0 <= i < k < 4 * USER && slots[i].mapped > 0 && slots[k].mapped > 0 ==> Apart(slots[i], slots[k])
    ensures forall k :: 0 <= k < 4 * DMA ==> slots[k].nr == slots[k].mapped
  {
    hide Shared, Backed, Stacked, Moved, Handed, Settled, MappedOk, Arranged, Apart;
    HandedKept(was, slots, n, j);
    MappedSame(laid, was, b);
    Settles(laid, was, slots, rs, n, j, b);
    Arranges(laid, was, slots, n, j, b, start);
    HandedRanges(laid, was, slots, n, j, b);
  }

  lemma MappedSame(laid: seq<Slot>, was: seq<Slot>, b: nat)
    requires MappedOk(laid, was, b)
    ensures SameSections(laid, was)
  {
  }

  /** What stays mapped keeps its place. */
  lemma HandedKept(was: seq<Slot>, slots: seq<Slot>, n: nat, j: nat)
    requires Handed(was, slots, n, j)
    ensures |slots| == |was| == ZONES * ZONE_SECTIONS
    ensures forall k :: 0 <= k < 4 * USER && slots[k].mapped > 0 ==>
      slots[k].mapped == was[k].mapped && slots[k].virt == was[k].virt && slots[k].first == was[k].first
    ensures forall k :: 0 <= k < 4 * DMA ==> slots[k].nr == slots[k].mapped
    ensures slots[4 * DMA] == was[4 * DMA]
  {
  }

  lemma HandedRanges(laid: seq<Slot>, was: seq<Slot>, slots: seq<Slot>, n: nat, j: nat, b: nat)
    requires MappedOk(laid, was, b) && Handed(was, slots, n, j)
    ensures |slots| == ZONES * ZONE_SECTIONS
    ensures forall i, k :: 0 <= i < k < 4 * USER && slots[i].mapped > 0 && slots[k].mapped > 0 ==> Apart(slots[i], slots[k])
    ensures forall k :: 0 <= k < 4 * USER && slots[k].mapped > 0 ==> Placed(slots[k], k, b)
    ensures forall k :: 0 <= k < 4 * DMA ==> slots[k].nr == slots[k].mapped
  {
    hide Handed, SameSections;
    HandedKept(was, slots, n, j);
  }

  lemma Settles(laid: seq<Slot>, was: seq<Slot>, slots: seq<Slot>, rs: seq<Region>, n: nat, j: nat, b: nat)
    requires Shared(laid, rs) && SameSections(laid, was) && Stacked(was, b)
    requires Moved(was, slots, n, j) && Handed(was, slots, n, j)
    ensures Settled(slots, rs)
  {
    HandedKept(was, slots, n, j);
    assert was[4 * DMA].nr == laid[4 * DMA].nr;
    hide SameSections, Moved, Stacked, Handed, InZone, Closed, Holds, Total, DmaShare;
    forall r, p: nat | r in rs && Holds(r, p)
      ensures
        || InZone(slots, r.attr, p)
        || (r.attr == KERNEL && Total(rs, Feeding(DMA)) == 0 && InZone(slots, DMA, p))
        || (r.attr == KERNEL && InZone(slots, USER, p) && Closed(slots, KERNEL, VIRTUAL_END))
    {
      Held(r, p);
      var z := if InZone(laid, r.attr, p) then r.attr else DMA;
      ZoneSame(laid, was, z, p);
      ZoneHanded(was, slots, n, j, b, z, p);
    }
  }

  lemma Arranges(laid: seq<Slot>, was: seq<Slot>, slots: seq<Slot>, n: nat, j: nat, b: nat, start: nat)
    requires Backed(laid, n) && MappedOk(laid, was, b) && Stacked(was, b) && Handed(was, slots, n, j)
    requires b < n <= 4 && b < |was| && was[b].first == start
    requires was[b].nr > 0 ==> was[b].virt == VIRTUAL_BASE && was[b].mapped > 0
    ensures Arranged(slots, b, start)
  {
    hide Backed, Stacked, Handed, MappedOk, InZone, SameSections, Placed;
    HandedKept(was, slots, n, j);
    HandedRanges(laid, was, slots, n, j, b);
    StackedHanded(was, slots, n, j, b);
    MappedSame(laid, was, b);
    if slots[b].mapped == 0 { BootGone(laid, was, slots, n, j, b); }
    BootVirt(was, slots, n, j, b);
  }

  lemma BootVirt(was: seq<Slot>, slots: seq<Slot>, n: nat, j: nat, b: nat)
    requires Handed(was, slots, n, j) && b < n && (was[b].nr > 0 ==> was[b].mapped > 0)
    ensures slots[b].first == was[b].first && (slots[b].mapped > 0 ==> was[b].nr > 0 && slots[b].virt == was[b].virt)
  {
  }

  lemma Held(r: Region, p: nat)
    requires Holds(r, p)
    ensures r.attr < USER
  {
  }

  /** A boot section without pages has given them to the DMA zone. */
  lemma BootGone(laid: seq<Slot>, was: seq<Slot>, slots: seq<Slot>, n: nat, j: nat, b: nat)
    requires SameSections(laid, was) && Handed(was, slots, n, j) && b < n && Backed(laid, n)
    requires slots[b].mapped == 0 && (was[b].nr > 0 ==> was[b].mapped > 0)
    ensures slots[b].first == was[b].first && InZone(slots, DMA, was[b].first)
  {
    assert was[b].nr == 0 && slots[b] == was[b];
    ZoneSame(laid, was, DMA, was[b].first);
    var k :| 4 <= k < 8 && HasPage(was[k], was[b].first);
    assert HasPage(slots[k], was[b].first);
  }

  /** The zones count the pages of their sections. */
  ghost predicate Counted(slots: seq<Slot>, pages: seq<int>) {
    && |slots| == ZONES * ZONE_SECTIONS && |pages| == ZONES
    && forall z :: 0 <= z < ZONES ==> pages[z] == ZonePages(slots, z)
  }

  lemma CountInsert(slots: seq<Slot>, pages: seq<int>, z: nat, i: nat, s: Slot)
    requires Counted(slots, pages) && z < ZONES && 4 * z <= i < 4 * z + 4 && slots[i].nr == 0
    ensures Counted(slots[i := s], pages[z := pages[z] + s.nr])
  {
    forall y | 0 <= y < ZONES && y != z ensures ZonePages(slots[i := s], y) == ZonePages(slots, y) {}
  }

  lemma CountTake(slots: seq<Slot>, pages: seq<int>, z: nat, i: nat, s: Slot)
    requires Counted(slots, pages) && z < ZONES && 4 * z <= i < 4 * z + 4
    ensures Counted(slots[i := s], pages[z := pages[z] - slots[i].nr + s.nr])
  {
    forall y | 0 <= y < ZONES && y != z ensures ZonePages(slots[i := s], y) == ZonePages(slots, y) {}
  }

  lemma CountCarve(slots: seq<Slot>, pages: seq<int>, i: nat, size: nat)
    requires |slots| == ZONES * ZONE_SECTIONS && |pages| == ZONES && Counted(slots, pages)
    requires i < 4 && size <= slots[i].nr && slots[4 * DMA] == NONE
    ensures Counted(Carved(slots, i, size), pages[KERNEL := pages[KERNEL] - size][DMA := pages[DMA] + size])
  {
    hide Counted;
    if size == 0 {
      assert pages[KERNEL := pages[KERNEL] - size][DMA := pages[DMA] + size] == pages;
    } else {
      var rest := slots[i].(nr := slots[i].nr - size);
      CountTake(slots, pages, KERNEL, i, rest);
      CountInsert(slots[i := rest], pages[KERNEL := pages[KERNEL] - slots[i].nr + rest.nr], DMA, 4 * DMA,
                  Slot(slots[i].first + slots[i].nr - size, size, 0, 0));
    }
  }

  lemma CountSame(was: seq<Slot>, slots: seq<Slot>, pages: seq<int>)
    requires Counted(was, pages) && |slots| == |was| && forall k :: 0 <= k < |was| ==> slots[k].nr == was[k].nr
    ensures Counted(slots, pages)
  {
  }

  /** What get_memory_sections has made of the regions rs, in their order. */
  ghost predicate Made(slots: seq<Slot>, nr: seq<nat>, pages: seq<int>, rs: seq<Region>) {
    && |nr| == |pages| == ZONES && (forall p: nat :: Cover(slots, p) == Total(rs, RegionHas(p)))
    && (forall z :: 0 <= z < UNKNOWN_MEM ==> nr[z] == Total(rs, Feeding(z)) && pages[z] == Total(rs, Extent(z)))
    && nr[USER] == 0 && pages[USER] == 0
  }

  /** The pages of the regions rs are in their zones, and no kernel section is empty. */
  ghost predicate Sorts(slots: seq<Slot>, n: nat, rs: seq<Region>) {
    Zoned(slots, rs) && n <= |slots| && forall k :: 0 <= k < n ==> slots[k].nr > 0
  }

  /** The region r has been inserted in zone z, or has no pages. */
  ghost predicate Inserted(slots: seq<Slot>, nr: seq<nat>, pages: seq<int>, r: Region,
                           more: seq<Slot>, nr': seq<nat>, pages': seq<int>)
    requires |slots| == ZONES * ZONE_SECTIONS && |nr| == |pages| == ZONES && r.attr < UNKNOWN_MEM
  {
    if Pages(r) == 0 then more == slots && nr' == nr && pages' == pages
    else
      && nr[r.attr] < ZONE_SECTIONS && slots[4 * r.attr + nr[r.attr]].nr == 0
      && more == slots[4 * r.attr + nr[r.attr] := Slot(Low(r), Pages(r), 0, 0)]
      && nr' == nr[r.attr := nr[r.attr] + 1] && pages' == pages[r.attr := pages[r.attr] + Pages(r)]
  }

  lemma InsertedMade(slots: seq<Slot>, nr: seq<nat>, pages: seq<int>, rs: seq<Region>, r: Region,
                     more: seq<Slot>, nr': seq<nat>, pages': seq<int>)
    requires |slots| == ZONES * ZONE_SECTIONS && Made(slots, nr, pages, rs) && r.attr < UNKNOWN_MEM && Registered(r)
    requires Inserted(slots, nr, pages, r, more, nr', pages')
    ensures Made(more, nr', pages', rs + [r])
  {
    CoverMore(slots, 4 * r.attr + nr[r.attr], rs, r, more);
    hide Cover, Pages, Low;
    assert (rs + [r])[..|rs|] == rs;
  }

  lemma InsertedSorts(slots: seq<Slot>, nr: seq<nat>, pages: seq<int>, rs: seq<Region>, r: Region,
                      more: seq<Slot>, nr': seq<nat>, pages': seq<int>)
    requires |slots| == ZONES * ZONE_SECTIONS && |nr| == |pages| == ZONES && r.attr < UNKNOWN_MEM && Registered(r)
    requires Sorts(slots, nr[KERNEL], rs) && Starts(slots, nr[KERNEL], rs) && Counted(slots, pages) && nr[KERNEL] <= 4
    requires Inserted(slots, nr, pages, r, more, nr', pages')
    ensures |nr'| == ZONES && Sorts(more, nr'[KERNEL], rs + [r]) && Starts(more, nr'[KERNEL], rs + [r])
    ensures Counted(more, pages')
  {
    hide Zoned, Starts, Counted, Pages, Low;
    var i := 4 * r.attr + nr[r.attr];
    ZonedMore(slots, rs, more, r, i);
    if Pages(r) > 0 { CountInsert(slots, pages, r.attr, i, Slot(Low(r), Pages(r), 0, 0)); }
    StartsMore(slots, nr[KERNEL], rs, more, nr'[KERNEL], r);
  }

  ghost predicate InRange(slots: seq<Slot>) {
    forall k :: 0 <= k < |slots| ==> slots[k].first + slots[k].nr <= PAGES && slots[k].nr < PAGES
  }

  ghost predicate NoneMapped(slots: seq<Slot>) { forall k :: 0 <= k < |slots| ==> slots[k].mapped == 0 }

  ghost predicate LastSection(r: Region, was: seq<Slot>, n: nat, slots: seq<Slot>, m: nat) {
    && |was| == |slots| == ZONES * ZONE_SECTIONS && n <= 4 && m <= 4
    && if Feeds(r, KERNEL) then m > 0 && slots[m - 1].nr == Pages(r)
       else m == n && (n > 0 ==> slots[n - 1] == was[n - 1])
  }

  ghost predicate LastOf(slots: seq<Slot>, n: nat, rs: seq<Region>, q: nat)
    requires n <= |slots|
  {
    n > 0 ==>
      && q < |rs| && Feeds(rs[q], KERNEL) && slots[n - 1].nr == Pages(rs[q])
      && forall i :: q < i < |rs| ==> !Feeds(rs[i], KERNEL)
  }

  lemma LastNext(was: seq<Slot>, n: nat, slots: seq<Slot>, m: nat, rs: seq<Region>, r: Region, q: nat)
    requires LastSection(r, was, n, slots, m) && LastOf(was, n, rs, q)
    ensures LastOf(slots, m, rs + [r], if Feeds(r, KERNEL) then |rs| else q)
  {
    hide Feeds, Pages;
  }

  lemma InsertedKeeps(slots: seq<Slot>, nr: seq<nat>, pages: seq<int>, r: Region,
                      more: seq<Slot>, nr': seq<nat>, pages': seq<int>)
    requires |slots| == ZONES * ZONE_SECTIONS && |nr| == |pages| == ZONES && r.attr < UNKNOWN_MEM && Registered(r)
    requires InRange(slots) && NoneMapped(slots) && nr[KERNEL] <= 4
    requires Inserted(slots, nr, pages, r, more, nr', pages')
    ensures InRange(more) && NoneMapped(more) && |nr'| == ZONES && LastSection(r, slots, nr[KERNEL], more, nr'[KERNEL])
  {
    PagesAreWhole(r);
    hide Pages, Low, Registered;
  }

  /** A region that is no memory changes nothing. */
  lemma IgnoredIs(slots: seq<Slot>, nr: seq<nat>, pages: seq<int>, rs: seq<Region>, r: Region)
    requires Made(slots, nr, pages, rs) && Sorts(slots, nr[KERNEL], rs) && Starts(slots, nr[KERNEL], rs)
    requires r.attr >= UNKNOWN_MEM && Registered(r)
    ensures Made(slots, nr, pages, rs + [r]) && Sorts(slots, nr[KERNEL], rs + [r]) && Starts(slots, nr[KERNEL], rs + [r])
  {
    hide Cover, Zoned, Starts;
    assert (rs + [r])[..|rs|] == rs;
    ZonedMore(slots, rs, slots, r, 0);
    StartsMore(slots, nr[KERNEL], rs, slots, nr[KERNEL], r);
  }

  ghost function ZonePages(slots: seq<Slot>, z: nat): nat
    requires z < ZONES && |slots| == ZONES * ZONE_SECTIONS
  {
    slots[4 * z].nr + slots[4 * z + 1].nr + slots[4 * z + 2].nr + slots[4 * z + 3].nr
  }

  ghost predicate PageDisjoint(rs: seq<Region>) {
    forall i, j, p: nat :: 0 <= i < j < |rs| && Holds(rs[i], p) ==> !Holds(rs[j], p)
  }

  ghost predicate HeldBy(rs: seq<Region>, p: nat) {
    exists i :: 0 <= i < |rs| && Holds(rs[i], p)
  }

  /** The kernel region on top is large enough for the DMA zone's share. */
  ghost predicate DmaFits(rs: seq<Region>) {
    forall r :: Topmost(rs, r) ==> DmaPages(Total(rs, Extent(KERNEL))) <= Pages(r)
  }

  lemma {:induction false} OneRegion(rs: seq<Region>, p: nat)
    requires PageDisjoint(rs)
    ensures Total(rs, RegionHas(p)) == if HeldBy(rs, p) then 1 else 0
  {
    hide Holds;
    if rs != [] {
      var n := |rs| - 1;
      OneRegion(rs[..n], p);
      if Holds(rs[n], p) {
        assert forall i :: 0 <= i < n ==> !Holds(rs[i], p);
      } else if HeldBy(rs, p) {
        var i :| 0 <= i < |rs| && Holds(rs[i], p);
        assert Holds(rs[..n][i], p);
      }
    }
  }

  lemma {:induction false} CoverSame(was: seq<Slot>, slots: seq<Slot>, p: nat)
    requires |slots| == |was| && forall k :: 0 <= k < |was| ==> slots[k].first == was[k].first && slots[k].nr == was[k].nr
    ensures Cover(slots, p) == Cover(was, p)
  {
    if was != [] { CoverSame(was[..|was| - 1], slots[..|was| - 1], p); }
  }

  /** What init_user_zone leaves of a kernel section: its mapped pages. */
  function KeptPart(s: Slot): Slot { if s.mapped == 0 && s.nr > 0 then NONE else s.(nr := s.mapped) }

  class Setup {
    var slots: seq<Slot>
    var nr: seq<nat>
    var pages: seq<int>
    var base: seq<nat>

    ghost predicate Valid()
      reads this
    {
      && |slots| == ZONES * ZONE_SECTIONS && |nr| == |pages| == |base| == ZONES
      && (forall z :: 0 <= z < ZONES ==> nr[z] <= ZONE_SECTIONS)
    }

    /** The sections of a zone fill its table from the bottom. */
    ghost predicate Packed()
      requires Valid()
      reads this
    {
      forall k :: 0 <= k < |slots| && nr[k / 4] <= k % 4 ==> slots[k] == NONE
    }

    /** Sections lie within the 2^20 pages. */
    ghost predicate Bounded()
      requires Valid()
      reads this
    {
      InRange(slots)
    }

    ghost predicate Unmapped()
      reads this
    {
      NoneMapped(slots)
    }

    /** Sections in place, before any is mapped. */
    ghost predicate Laid()
      reads this
    {
      Valid() && Packed() && Bounded() && Unmapped()
    }

    /** init_memory_bank. */
    constructor ()
      ensures Blank()
    {
      slots := seq(ZONES * ZONE_SECTIONS, _ => NONE);
      nr, pages, base := [0, 0, 0, 0], [0, 0, 0, 0], [0, 0, 0, 0];
      new;
      forall p: nat ensures Cover(slots, p) == 0 { NoneCovers(slots, p); }
    }

    /** insert_region_to_zone. */
    method InsertRegion(r: Region, z: nat) returns (size: nat)
      requires Valid() && Packed() && Registered(r) && z < ZONES
      modifies this
      ensures Valid() && Packed()
      ensures Pages(r) == 0 || old(nr)[z] == ZONE_SECTIONS ==>
        size == 0 && slots == old(slots) && nr == old(nr) && pages == old(pages)
      ensures Pages(r) > 0 && old(nr)[z] < ZONE_SECTIONS ==>
        && size == Pages(r) && nr == old(nr)[z := old(nr)[z] + 1] && pages == old(pages)[z := old(pages)[z] + size]
        && slots == old(slots)[4 * z + old(nr)[z] := Slot(Low(r) % PAGES, size, 0, 0)]
    {
      var high, low := (r.start + r.size) / PAGE_SIZE, (r.start + PAGE_SIZE - 1) / PAGE_SIZE;
      var diff := (high - low) % PAGES;
      var signed := if diff >= PAGES / 2 then diff - PAGES else diff;
      if signed < 1 { return 0; }
      if nr[z] == ZONE_SECTIONS { return 0; }
      size := signed;
      var i := 4 * z + nr[z];
      slots := slots[i := slots[i].(first := low % PAGES, nr := size)];
      nr := nr[z := nr[z] + 1];
      pages := pages[z := pages[z] + size];
    }

    /** The last section of the kernel zone comes from the last kernel region. */
    ghost predicate LastIs(rs: seq<Region>, q: nat)
      requires Valid()
      reads this
    {
      LastOf(slots, nr[KERNEL], rs, q)
    }

    /** The sections so far are those of the regions rs. */
    ghost predicate Holding(rs: seq<Region>)
      reads this
    {
      && Laid() && Made(slots, nr, pages, rs) && Starts(slots, nr[KERNEL], rs) && Sorts(slots, nr[KERNEL], rs)
      && Counted(slots, pages)
    }

    /** The last kernel section is that of r, if r is for the kernel zone, and was is kept
        otherwise. */
    ghost predicate LastAfter(r: Region, was: seq<Slot>, n: nat)
      reads this
    {
      Valid() && LastSection(r, was, n, slots, nr[KERNEL])
    }

    /** One region of the loop of get_memory_sections. */
    method AddRegion(r: Region, ghost rs: seq<Region>)
      requires Holding(rs) && Registered(r)
      requires forall z :: 0 <= z < UNKNOWN_MEM ==> Total(rs + [r], Feeding(z)) <= ZONE_SECTIONS
      modifies this
      ensures Holding(rs + [r]) && LastAfter(r, old(slots), old(nr)[KERNEL])
    {
      hide Starts, Counted, Made, Sorts, Packed, Bounded, Unmapped;
      if r.attr >= UNKNOWN_MEM {
        IgnoredIs(slots, nr, pages, rs, r);
        return;
      }
      RoomLeft(rs, r);
      AddMemory(r, rs);
    }

    method AddMemory(r: Region, ghost rs: seq<Region>)
      requires Holding(rs) && Registered(r) && r.attr < UNKNOWN_MEM && (Pages(r) > 0 ==> nr[r.attr] < ZONE_SECTIONS)
      modifies this
      ensures Holding(rs + [r]) && LastAfter(r, old(slots), old(nr)[KERNEL])
    {
      hide Starts, Counted, Made, Sorts, Packed, Pages, Low, Registered, Cover, InRange, NoneMapped, LastSection, Inserted, Feeds;
      ghost var was, n, c := slots, nr, pages;
      InsertMemory(r);
      InsertedKeeps(was, n, c, r, slots, nr, pages);
      InsertedMade(was, n, c, rs, r, slots, nr, pages);
      InsertedSorts(was, n, c, rs, r, slots, nr, pages);
    }

    method InsertMemory(r: Region)
      requires Valid() && Packed() && Registered(r) && r.attr < UNKNOWN_MEM && (Pages(r) > 0 ==> nr[r.attr] < ZONE_SECTIONS)
      modifies this
      ensures Valid() && Packed() && Inserted(old(slots), old(nr), old(pages), r, slots, nr, pages)
    {
      NextEmpty();
      PagesAreWhole(r);
      hide Packed, Pages, Low, Registered;
      var _ := InsertRegion(r, r.attr);
    }

    lemma NextEmpty()
      requires Valid() && Packed()
      ensures forall z :: 0 <= z < ZONES && nr[z] < ZONE_SECTIONS ==> slots[4 * z + nr[z]].nr == 0
    {
    }

    lemma RoomLeft(rs: seq<Region>, r: Region)
      requires Valid() && Made(slots, nr, pages, rs)
      requires forall z :: 0 <= z < UNKNOWN_MEM ==> Total(rs + [r], Feeding(z)) <= ZONE_SECTIONS
      ensures r.attr < UNKNOWN_MEM && Pages(r) > 0 ==> nr[r.attr] < ZONE_SECTIONS
    {
      assert (rs + [r])[..|rs|] == rs;
    }

    /** Nothing has been made yet. */
    ghost predicate Blank()
      reads this
    {
      Laid() && nr == [0, 0, 0, 0] && pages == [0, 0, 0, 0] && Counted(slots, pages) && forall p: nat :: Cover(slots, p) == 0
    }

    /** The loop of get_memory_sections that turns regions into sections. */
    method AddRegions(a: array<Region>) returns (ghost q: nat)
      requires Blank() && Usable(a[..]) && Fits(a[..])
      modifies this
      ensures Laid() && Made(slots, nr, pages, a[..]) && LastIs(a[..], q)
      ensures Starts(slots, nr[KERNEL], a[..]) && Sorts(slots, nr[KERNEL], a[..])
      ensures Counted(slots, pages)
    {
      NothingSorted();
      hide Cover, Feeds, Total, Registered, Packed, Sorts, Counted, Made, Starts, InRange, NoneMapped, LastSection, LastOf;
      ghost var rs := a[..];
      var i := 0;
      q := 0;
      assert rs[..0] == [];
      while i < a.Length
        invariant 0 <= i <= a.Length && a[..] == rs
        invariant Holding(rs[..i]) && LastIs(rs[..i], q)
      {
        assert rs[..i + 1] == rs[..i] + [rs[i]];
        assert rs[i] in rs;
        FitsPrefix(rs, i + 1);
        ghost var was, n := slots, nr[KERNEL];
        AddRegion(a[i], rs[..i]);
        LastNext(was, n, slots, nr[KERNEL], rs[..i], rs[i], q);
        if Feeds(rs[i], KERNEL) { q := i; }
        i := i + 1;
      }
      assert rs[..i] == rs;
    }

    lemma NothingSorted()
      requires Blank()
      ensures Sorts(slots, nr[KERNEL], []) && Made(slots, nr, pages, []) && Starts(slots, nr[KERNEL], [])
      ensures LastOf(slots, nr[KERNEL], [], 0)
    {
      hide Counted, Packed, InRange, NoneMapped;
      NothingYet([]);
    }

    /** get_memory_sections: the regions are sorted and become sections; every page is
        in as many sections as regions held it. */
    method GetMemorySections(a: array<Region>)
      requires Blank() && Usable(a[..]) && Fits(a[..])
      modifies this, a
      ensures Laid() && Made(slots, nr, pages, old(a[..])) && Counted(slots, pages)
      ensures Starts(slots, nr[KERNEL], old(a[..])) && Sorts(slots, nr[KERNEL], old(a[..]))
      ensures Sorted(a[..]) && multiset(a[..]) == multiset(old(a[..]))
      ensures nr[KERNEL] > 0 ==> exists r :: Topmost(old(a[..]), r) && slots[nr[KERNEL] - 1].nr == Pages(r)
    {
      hide Cover, Feeds, Total, Registered, Packed, Bounded, Unmapped, Made, Fits, Sorted, Zoned, Counted;
      SortRegions(a);
      SameRegions(old(a[..]), a[..]);
      ghost var q := AddRegions(a);
      MadeSame(old(a[..]), a[..]);
      ZonedSame(slots, a[..], old(a[..]));
      if nr[KERNEL] > 0 {
        LastIsTopmost(a[..], q);
        assert Topmost(old(a[..]), a[q]);
      }
    }

    /** alloc_dma_section: the top of the last kernel section becomes the DMA zone. The
        code itself does not check that the section is large enough. */
    method AllocDmaSection()
      requires Laid() && nr[KERNEL] > 0 && nr[DMA] == 0 && pages[KERNEL] >= 0
      requires DmaPages(pages[KERNEL]) <= slots[nr[KERNEL] - 1].nr
      modifies this
      ensures Laid() && (Counted(old(slots), old(pages)) ==> Counted(slots, pages))
      ensures forall p: nat :: Cover(slots, p) == Cover(old(slots), p)
      ensures var size, i := DmaPages(old(pages)[KERNEL]), old(nr)[KERNEL] - 1;
        && slots == Carved(old(slots), i, size)
        && nr == old(nr)[DMA := if size == 0 then 0 else 1]
        && pages == old(pages)[KERNEL := old(pages)[KERNEL] - size][DMA := old(pages)[DMA] + size]
    {
      hide Cover, Registered, Pages, Low, Carved, Counted;
      var size := pages[KERNEL] / 16;
      if size > 0x8000 { size := 0x8000; }
      var i := nr[KERNEL] - 1;
      var pr := slots[i];
      var first := pr.first + pr.nr - size;
      var region := Region(first * PAGE_SIZE % 0x1_0000_0000, size * PAGE_SIZE, DMA);
      DmaRegion(first, size);
      CarvedAs(slots, i, size);
      if Counted(slots, pages) { CountCarve(slots, pages, i, size); }
      Shrink(i, size);
      var _ := InsertRegion(region, DMA);
      assert slots == Carved(old(slots), i, size);
      assert pages == old(pages)[KERNEL := old(pages)[KERNEL] - size][DMA := old(pages)[DMA] + size];
    }

    /** The last kernel section gives up its top size pages. */
    method Shrink(i: nat, size: nat)
      requires Laid() && i < nr[KERNEL] && size <= slots[i].nr
      modifies this`slots, this`pages
      ensures Laid() && slots == old(slots)[i := old(slots)[i].(nr := old(slots)[i].nr - size)]
      ensures pages == old(pages)[KERNEL := old(pages)[KERNEL] - size]
    {
      slots := slots[i := slots[i].(nr := slots[i].nr - size)];
      pages := pages[KERNEL := pages[KERNEL] - size];
    }

    /** map_zone_memory: the sections not yet mapped get consecutive ranges of the
        window, size pages from the zone's map base on. */
    method MapZoneMemory(z: nat, size: int)
      requires Valid() && z < ZONES && base[z] % PDE == 0 && size % PDE == 0
      modifies this`slots, this`base
      ensures Valid() && |slots| == |old(slots)| && base == old(base)[z := base[z]]
      ensures size <= 0 ==> slots == old(slots) && base == old(base)
      ensures size > 0 ==> WindowOk(old(slots), slots, z, nr[z], old(base)[z], base[z], old(base)[z] + size)
      ensures size > 0 ==> Gapless(old(slots), slots, z, nr[z], old(base)[z], base[z])
    {
      hide AlignUp, WindowOk, Gapless;
      if size <= 0 { return; }
      ghost var was, from := slots, base[z];
      var end, at := base[z] + size, base[z];
      WindowStarts(was, z, from, end);
      GaplessStarts(was, z, from);
      var i := 0;
      while i < nr[z]
        invariant 0 <= i <= nr[z] && Valid() && at == base[z] && base == old(base)[z := at] && at < end
        invariant at % PDE == end % PDE == 0
        invariant WindowOk(was, slots, z, i, from, at, end) && Gapless(was, slots, z, i, from, at)
      {
        var k := 4 * z + i;
        Untouched(was, slots, z, i, from, at, end);
        if slots[k].mapped > 0 {
          WindowSkip(was, slots, z, i, from, at, end);
          GaplessMore(was, slots, z, i, i + 1, from, at);
        } else {
          Offset(at, end, slots[k].first);
          ghost var start := at;
          at := at + slots[k].first % PDE;
          var count := end - at;
          if count > slots[k].nr { count := slots[k].nr; }
          WindowStep(was, slots, z, i, from, start, end, count);
          GaplessStep(was, slots, z, i, from, start, count);
          slots := slots[k := slots[k].(virt := at, mapped := count)];
          Between(at + count, end);
          at := AlignUp(at + count);
          base := base[z := at];
          if base[z] == end {
            WindowDone(was, slots, z, i + 1, nr[z], from, end);
            Untouched(was, slots, z, i + 1, from, at, end);
            GaplessMore(was, slots, z, i + 1, nr[z], from, at);
            break;
          }
        }
        i := i + 1;
      }
    }

    /** map_kernel_memory: the section the kernel was loaded in comes first, at the
        start of the window; b is that section. */
    method MapKernelMemory(start: nat) returns (ghost b: nat)
      requires Laid() && exists i :: 0 <= i < nr[KERNEL] && slots[i].first == start
      modifies this`slots, this`base
      ensures Valid() && b < nr[KERNEL] && old(slots)[b].first == start && |base| == |old(base)|
      ensures KernelWindow(old(slots), slots, nr[KERNEL], b, base[KERNEL]) && KernelStacked(slots, b, base[KERNEL])
    {
      hide AlignUp, WindowOk, KernelWindow, Packed, Bounded, Gapless, KernelStacked;
      base := base[KERNEL := VIRTUAL_BASE];
      var i, size := 0, 0;
      while i < nr[KERNEL] && slots[i].first != start
        invariant 0 <= i <= nr[KERNEL] && forall k :: 0 <= k < i ==> slots[k].first != start
      {
        i := i + 1;
      }
      b := i;
      size := slots[i].nr;
      if slots[i].nr > VIRTUAL_END - VIRTUAL_BASE { size := VIRTUAL_END - VIRTUAL_BASE; }
      slots := slots[i := slots[i].(virt := VIRTUAL_BASE, mapped := size)];
      Between(size, VIRTUAL_END - VIRTUAL_BASE);
      base := base[KERNEL := base[KERNEL] + AlignUp(size)];
      WindowStarts(slots, KERNEL, base[KERNEL], VIRTUAL_END);
      WindowRest(slots, KERNEL, nr[KERNEL], VIRTUAL_END);
      ghost var from, mid := base[KERNEL], slots;
      GaplessRest(slots, KERNEL, nr[KERNEL], from);
      MapZoneMemory(KERNEL, VIRTUAL_END - VIRTUAL_BASE - AlignUp(size));
      KernelWindowIs(old(slots), slots, nr[KERNEL], b, size, from, base[KERNEL]);
      WindowElse(mid, slots, KERNEL, nr[KERNEL], from, base[KERNEL], VIRTUAL_END);
      KernelStackedIs(old(slots), slots, nr[KERNEL], b, size, from, base[KERNEL]);
    }

    /** map_dma_memory. */
    method MapDmaMemory()
      requires Valid()
      modifies this`slots, this`base
      ensures Valid() && base == old(base)[DMA := base[DMA]]
      ensures WindowOk(old(slots), slots, DMA, nr[DMA], DMA_BASE, base[DMA], DMA_END)
      ensures Gapless(old(slots), slots, DMA, nr[DMA], DMA_BASE, base[DMA])
    {
      hide WindowOk, Gapless;
      base := base[DMA := DMA_BASE];
      MapZoneMemory(DMA, DMA_END - DMA_BASE);
    }

    /** map_res_memory: what the kernel zone left of its window. */
    method MapResMemory()
      requires Valid() && base[KERNEL] <= VIRTUAL_END && base[KERNEL] % PDE == 0
      modifies this`slots, this`base
      ensures Valid() && base == old(base)[RES := base[RES]]
      ensures WindowOk(old(slots), slots, RES, nr[RES], old(base)[KERNEL], base[RES], VIRTUAL_END)
      ensures Gapless(old(slots), slots, RES, nr[RES], old(base)[KERNEL], base[RES])
    {
      hide WindowOk, Gapless;
      base := base[RES := base[KERNEL]];
      WindowRest(slots, RES, nr[RES], VIRTUAL_END);
      GaplessRest(slots, RES, nr[RES], base[RES]);
      MapZoneMemory(RES, VIRTUAL_END - base[KERNEL]);
    }

    /** map_memory: kernel, DMA and reserved zones get their virtual addresses. */
    method MapMemory(start: nat) returns (ghost b: nat)
      requires Laid() && exists i :: 0 <= i < nr[KERNEL] && slots[i].first == start
      modifies this`slots, this`base
      ensures Valid() && b < nr[KERNEL] && MappedOk(old(slots), slots, b) && Stacked(slots, b)
      ensures slots[b].first == start && (slots[b].nr > 0 ==> slots[b].virt == VIRTUAL_BASE && slots[b].mapped > 0)
    {
      PackedOff();
      hide WindowOk, KernelWindow, Packed, Bounded, Unmapped, Gapless, KernelStacked, Stacked, MappedOk, Bare;
      b := MapKernelMemory(start);
      ghost var first, at := slots, base[KERNEL];
      KernelBase(old(slots), slots, nr[KERNEL], b, at);
      MapDmaMemory();
      ghost var second := slots;
      MapResMemory();
      Filled(old(slots), first, second, slots, nr[KERNEL], nr[DMA], nr[RES], b, at, base[DMA], base[RES]);
    }

    /** Sections beyond a zone's count have no pages. */
    lemma PackedOff()
      requires Laid()
      ensures Bare(slots, nr[KERNEL], nr[DMA], nr[RES])
    {
    }

    /** The unmapped rest of kernel section i becomes the next user section. */
    method MoveUnfit(i: nat)
      requires Valid() && i < 4 && nr[USER] < 4 && nr[KERNEL] > 0
      requires slots[i].mapped < slots[i].nr && slots[4 * USER + nr[USER]].nr == 0
      modifies this`slots, this`nr, this`pages
      ensures Valid() && forall p: nat :: Cover(slots, p) == Cover(old(slots), p)
      ensures slots == old(slots)[i := KeptPart(old(slots)[i])][4 * USER + old(nr)[USER] := Unfit(old(slots)[i])]
      ensures nr[USER] == old(nr)[USER] + 1 && nr[KERNEL] >= old(nr)[KERNEL] - 1
      ensures Counted(old(slots), old(pages)) ==> Counted(slots, pages)
      ensures pages[KERNEL] + pages[USER] == old(pages)[KERNEL] + old(pages)[USER]
    {
      hide Cover, Counted;
      var s, j := slots[i], nr[USER];
      if Counted(slots, pages) {
        CountTake(slots, pages, KERNEL, i, KeptPart(s));
        CountInsert(slots[i := KeptPart(s)], pages[KERNEL := pages[KERNEL] - s.nr + s.mapped], USER, 4 * USER + j, Unfit(s));
      }
      var u := Slot(s.first + s.mapped, s.nr - s.mapped, 0, 0);
      var rest := if s.mapped == 0 then NONE else s.(nr := s.mapped);
      SplitCover(slots, i, 4 * USER + j, rest, u);
      ghost var split := slots[i := rest][4 * USER + j := u];
      slots := slots[4 * USER + j := u];
      slots := slots[i := s.(nr := s.nr - u.nr)];
      nr := nr[USER := nr[USER] + 1];
      pages := pages[USER := pages[USER] + u.nr];
      if s.mapped == 0 {
        nr := nr[KERNEL := nr[KERNEL] - 1];
        slots := slots[i := NONE];
      }
      assert slots == split;
      pages := pages[KERNEL := pages[KERNEL] - u.nr];
      assert pages == old(pages)[KERNEL := old(pages)[KERNEL] - s.nr + s.mapped][USER := old(pages)[USER] + u.nr];
    }

    /** init_user_zone: what the kernel zone could not map goes to the user zone. */
    method InitUserZone()
      requires Valid() && nr[USER] == 0 && forall k :: 4 * USER <= k < |slots| ==> slots[k].nr == 0
      requires forall k :: 0 <= k < nr[KERNEL] ==> slots[k].mapped <= slots[k].nr
      modifies this`slots, this`nr, this`pages
      ensures Valid()
      ensures forall p: nat :: Cover(slots, p) == Cover(old(slots), p)
      ensures forall k :: 0 <= k < old(nr)[KERNEL] ==>
        slots[k] == KeptPart(old(slots)[k])
      ensures forall k :: old(nr)[KERNEL] <= k < 4 * USER ==> slots[k] == old(slots)[k]
      ensures nr[USER] <= 4 && Moved(old(slots), slots, old(nr)[KERNEL], nr[USER])
      ensures forall k :: 4 * USER + nr[USER] <= k < |slots| ==> slots[k].nr == 0
      ensures Counted(old(slots), old(pages)) ==> Counted(slots, pages)
      ensures pages[KERNEL] + pages[USER] == old(pages)[KERNEL] + old(pages)[USER]
    {
      hide Cover, Moved, Counted;
      var n, i := nr[KERNEL], 0;
      NoneMoved(slots);
      while i < n
        invariant Valid() && nr[USER] <= i <= n && nr[KERNEL] >= n - i
        invariant forall p: nat :: Cover(slots, p) == Cover(old(slots), p)
        invariant forall k :: 4 * USER + nr[USER] <= k < |slots| ==> slots[k].nr == 0
        invariant forall k :: 0 <= k < i ==> slots[k] == KeptPart(old(slots)[k])
        invariant forall k :: i <= k < 4 * USER ==> slots[k] == old(slots)[k]
        invariant Moved(old(slots), slots, i, nr[USER]) && (Counted(old(slots), old(pages)) ==> Counted(slots, pages))
        invariant pages[KERNEL] + pages[USER] == old(pages)[KERNEL] + old(pages)[USER]
      {
        ghost var before, j := slots, nr[USER];
        if slots[i].mapped < slots[i].nr { MoveUnfit(i); }
        MovedNext(old(slots), before, slots, i, j);
        i := i + 1;
      }
    }

    /** analyse_soc_memory_info: sections from the regions, and a DMA zone if no region
        gave one. */
    method AnalyseSocMemoryInfo(a: array<Region>, ghost start: nat)
      requires Blank() && Usable(a[..]) && Fits(a[..])
      requires exists r :: r in a[..] && Feeds(r, KERNEL) && Low(r) == start
      requires Total(a[..], Feeding(DMA)) == 0 ==> DmaFits(a[..])
      modifies this, a
      ensures Laid() && nr[USER] == 0 && Counted(slots, pages)
      ensures forall p: nat :: Cover(slots, p) == Total(old(a[..]), RegionHas(p))
      ensures exists i :: 0 <= i < nr[KERNEL] && slots[i].first == start
      ensures Shared(slots, old(a[..])) && Backed(slots, nr[KERNEL])
    {
      hide Cover, Fits, Usable, Total, Feeds, Carved, Low, Pages, Sorted, Packed, Bounded, Unmapped, Zoned, Shared, Backed, Counted;
      ghost var rs := a[..];
      GetMemorySections(a);
      Loaded(rs, start);
      ghost var i :| 0 <= i < nr[KERNEL] && slots[i].first == start;
      if nr[DMA] == 0 {
        LaidDma();
        CarvedIs(slots, nr[KERNEL] - 1, DmaPages(pages[KERNEL]));
        ghost var was, share := slots, DmaPages(pages[KERNEL]);
        AllocDmaSection();
        assert slots[i].first == start;
        SharedCarved(was, rs, nr[KERNEL], share, slots);
      } else {
        SharedAsIs(slots, rs, nr[KERNEL]);
      }
    }

    lemma LaidDma()
      requires Laid() && nr[DMA] == 0
      ensures slots[4 * DMA] == NONE
    {
    }

    /** mm_init up to the page tables. Every page held by a region is in exactly one section,
        in the zone its region is for, every other page in none. The kernel's own section lies
        at the start of the kernel window and the other ranges follow, each where the space
        below is used up; sections are cut short, and kernel pages go to the user zone, only
        where the window is full. start is the page the kernel was loaded at. */
    method MmInit(a: array<Region>, start: nat)
      requires Blank() && Usable(a[..]) && Fits(a[..]) && PageDisjoint(a[..])
      requires exists r :: r in a[..] && Feeds(r, KERNEL) && Low(r) == start
      requires Total(a[..], Feeding(DMA)) == 0 ==> DmaFits(a[..])
      modifies this, a
      ensures Valid() && forall p: nat :: Cover(slots, p) == if HeldBy(old(a[..]), p) then 1 else 0
      ensures forall k :: 0 <= k < 4 * DMA ==> slots[k].nr == slots[k].mapped
      ensures forall j, k :: 0 <= j < k < 4 * USER && slots[j].mapped > 0 && slots[k].mapped > 0 ==>
        Apart(slots[j], slots[k])
      ensures Counted(slots, pages) && Settled(slots, old(a[..]))
      ensures exists b :: 0 <= b < 4 * DMA && Arranged(slots, b, start)
    {
      hide Cover, Fits, Usable, PageDisjoint, Total, Feeds, Low, Bounded, HeldBy, DmaFits;
      hide Shared, Backed, Stacked, Moved, Settled, Arranged, Apart, Placed, Counted;
      ghost var rs := a[..];
      AnalyseSocMemoryInfo(a, start);
      ghost var laid, n := slots, nr[KERNEL];
      PackedOff();
      ghost var b := MapMemory(start);
      forall p: nat ensures Cover(slots, p) == Cover(laid, p) { CoverSame(laid, slots, p); }
      ghost var mapped := slots;
      CountSame(laid, slots, pages);
      InitUserZone();
      Finished(laid, mapped, slots, rs, n, nr[USER], b, start);
      forall p: nat ensures Cover(slots, p) == if HeldBy(rs, p) then 1 else 0 { OneRegion(rs, p); }
    }

    /** The kernel's own section is there. */
    lemma Loaded(rs: seq<Region>, start: nat)
      requires Valid() && Starts(slots, nr[KERNEL], rs) && exists r :: r in rs && Feeds(r, KERNEL) && Low(r) == start
      ensures exists i :: 0 <= i < nr[KERNEL] && slots[i].first == start
    {
    }

    lemma MadeSame(xs: seq<Region>, ys: seq<Region>)
      requires Valid() && Made(slots, nr, pages, ys) && multiset(xs) == multiset(ys)
      ensures Made(slots, nr, pages, xs)
    {
      forall p: nat ensures Total(xs, RegionHas(p)) == Total(ys, RegionHas(p)) {
        TotalPermuted(xs, ys, RegionHas(p));
      }
      forall z: nat ensures Total(xs, Feeding(z)) == Total(ys, Feeding(z)) && Total(xs, Extent(z)) == Total(ys, Extent(z)) {
        TotalPermuted(xs, ys, Feeding(z));
        TotalPermuted(xs, ys, Extent(z));
      }
    }
  }

  ghost predicate Usable(rs: seq<Region>) {
    forall r :: r in rs ==> Registered(r)
  }

  /** The regions fit the section tables of their zones. */
  ghost predicate Fits(rs: seq<Region>) {
    forall z :: 0 <= z < UNKNOWN_MEM ==> Total(rs, Feeding(z)) <= ZONE_SECTIONS
  }

  lemma FitsPrefix(rs: seq<Region>, i: nat)
    requires Fits(rs) && i <= |rs|
    ensures Fits(rs[..i])
  {
    forall z: nat { TotalPrefix(rs, i, Feeding(z)); }
  }

  lemma NothingYet(rs: seq<Region>)
    ensures rs[..0] == []
    ensures forall p: nat :: Total(rs[..0], RegionHas(p)) == 0
    ensures forall z: nat :: Total(rs[..0], Feeding(z)) == 0 && Total(rs[..0], Extent(z)) == 0
  {
  }

  lemma SameRegions(xs: seq<Region>, ys: seq<Region>)
    requires multiset(xs) == multiset(ys)
    ensures forall r :: r in xs <==> r in ys
    ensures Fits(xs) <==> Fits(ys)
  {
    forall r: Region ensures r in xs <==> r in ys { assert r in multiset(xs) <==> r in multiset(ys); }
    forall z: nat { TotalPermuted(xs, ys, Feeding(z)); }
  }

  lemma LastIsTopmost(rs: seq<Region>, q: nat)
    requires Sorted(rs) && q < |rs| && Feeds(rs[q], KERNEL)
    requires forall i :: q < i < |rs| ==> !Feeds(rs[i], KERNEL)
    ensures Topmost(rs, rs[q])
  {
    hide Feeds;
  }

  lemma {:induction false} NoneCovers(slots: seq<Slot>, p: nat)
    requires forall i :: 0 <= i < |slots| ==> slots[i].nr == 0
    ensures Cover(slots, p) == 0
  {
    if slots != [] { NoneCovers(slots[..|slots| - 1], p); }
  }
}
