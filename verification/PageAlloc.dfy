/** A section of physical pages: a bitmap, the page descriptors and a search cursor
    (mm/mm.c). The ledger beside it records which pages the boot code, the live
    runs and the pages lost by a truncated free account for. */
module PageAlloc {
  import opened Bitops

  const PAGE_SIZE := 4096

  /** A page descriptor keeps its run's length in 16 bits. */
  const COUNT_LIMIT := 65536

  /** header is __GFP_PAGE_HEADER in the flag word, flag the rest of it. */
  datatype Page = Page(header: bool, flag: nat, count: nat, pa: nat, va: nat)

  /** One bit and one descriptor a page; cur is bm_current, free is nr_free_pages. */
  datatype Section = Section(bits: seq<bool>, pages: seq<Page>, cur: nat, free: int,
                             phys: nat, virt: nat, id: nat)

  ghost predicate Shaped(s: Section) {
    |s.pages| == |s.bits| && (s.bits != [] ==> s.cur < |s.bits|)
  }

  /** n elements from i on replaced by v. */
  function Fill<T>(b: seq<T>, i: nat, n: nat, v: T): (r: seq<T>)
    requires i + n <= |b|
    ensures |r| == |b|
    ensures forall k :: 0 <= k < |b| ==> r[k] == if i <= k < i + n then v else b[k]
  {
    b[..i] + seq(n, _ => v) + b[i + n..]
  }

  // ---- allocating and freeing ---------------------------------------------------

  predicate UserFlag(flag: nat) { flag / 8 % 2 == 1 }

  /** The descriptor init_pages leaves for page k of a run at index. */
  function NewPage(s: Section, index: nat, count: nat, flag: nat, k: nat): Page {
    Page(k == index, flag, if k == index then count % COUNT_LIMIT else 0,
         s.phys + k * PAGE_SIZE + s.id,
         if UserFlag(flag) then 0 else s.virt + k * PAGE_SIZE)
  }

  /** page_to_pa, page_to_va, and the section a descriptor belongs to. */
  function PageToPa(p: Page): nat { p.pa - p.pa % 256 }

  function PageToVa(p: Page): nat { p.va - p.va % PAGE_SIZE }

  function SectionId(p: Page): nat { p.pa % 256 }

  lemma PageAddress(base: nat, k: nat, id: nat)
    requires base % 4096 == 0 && id < 256
    ensures (base + k * 4096) % 4096 == 0 && (base + k * 4096 + id) % 256 == id && (base + k * 4096 - base) / 4096 == k
  {
    var a := base / 4096 + k;
    assert base + k * 4096 == 4096 * a;
    Remains(base + k * 4096 + id, 16 * a, id);
  }

  lemma Remains(x: nat, q: nat, r: nat)
    requires x == 256 * q + r && r < 256
    ensures x % 256 == r
  {
  }

  /** The descriptor of page k leads back to the page: to its physical and, but for user pages,
      its virtual address, to its section and, from either address, to its index. */
  lemma DescriptorTrip(s: Section, index: nat, count: nat, flag: nat, k: nat)
    requires s.phys % PAGE_SIZE == 0 && s.virt % PAGE_SIZE == 0 && s.id < 256
    ensures var p := NewPage(s, index, count, flag, k);
      && PageToPa(p) == s.phys + k * 4096 && SectionId(p) == s.id && (PageToPa(p) - s.phys) / 4096 == k
      && (!UserFlag(flag) ==> PageToVa(p) == s.virt + k * 4096 && (PageToVa(p) - s.virt) / 4096 == k)
      && (UserFlag(flag) ==> PageToVa(p) == 0)
  {
    hide UserFlag;
    PageAddress(s.phys, k, s.id);
    PageAddress(s.virt, k, 0);
  }

  ghost function InitPages(s: Section, index: nat, count: nat, flag: nat): (p: seq<Page>)
    ensures |p| == |s.pages|
  {
    seq(|s.pages|, k requires 0 <= k < |s.pages| =>
      if index <= k < index + count then NewPage(s, index, count, flag, k) else s.pages[k])
  }

  /** Where a run of count pages would be taken, negative if nowhere. */
  ghost function Place(s: Section, count: nat): int {
    Search(s.bits, false, s.cur, count)
  }

  lemma PlaceIs(s: Section, count: nat)
    requires s.cur < |s.bits|
    ensures var r := Place(s, count);
      if r >= 0 then count > 0 && RunAt(s.bits, false, r, count)
      else count > 0 ==> NoRun(s.bits, false, s.cur, |s.bits|, count) &&
                         (s.cur > 0 ==> NoRun(s.bits, false, 1, s.cur + 1, count))
  {
    hide RunAt, NoRun, Search;
    FindsIs(s.bits, false, s.cur, count, Place(s, count));
  }

  /** get_free_pages_from_section, at the place found. */
  ghost function Take(s: Section, r: nat, count: nat, flag: nat): (t: Section)
    requires r + count <= |s.bits|
  {
    s.(bits := Fill(s.bits, r, count, true),
       pages := InitPages(s, r, count, flag),
       cur := if r + count >= |s.bits| then 0 else r + count,
       free := s.free - count)
  }

  /** update_bm_current: the cursor moves down over clear bits. */
  ghost function Back(b: seq<bool>, cur: nat): (c: nat)
    requires cur <= |b|
    ensures c <= cur
  {
    if cur == 0 || b[cur - 1] then cur else Back(b, cur - 1)
  }

  /** The walk down finds a set bit before it leaves the bitmap. */
  ghost predicate Anchored(b: seq<bool>, cur: nat)
    requires cur <= |b|
  {
    cur == 0 || exists k :: 0 <= k < cur && b[k]
  }

  lemma {:induction false} BackStops(b: seq<bool>, cur: nat)
    requires cur <= |b| && Anchored(b, cur)
    ensures cur > 0 ==> Back(b, cur) > 0 && b[Back(b, cur) - 1]
    ensures forall k :: Back(b, cur) <= k < cur ==> !b[k]
  {
    if cur > 0 && !b[cur - 1] { BackStops(b, cur - 1); }
  }

  /** update_bm_current looks at bit i on its way down over clear bits. */
  ghost predicate LooksAt(b: seq<bool>, cur: nat, i: int)
    requires cur <= |b|
    decreases cur - i
  {
    0 < cur && i < cur && (i == cur - 1 || (i >= -1 && !b[i + 1] && LooksAt(b, cur, i + 1)))
  }

  lemma {:induction false} LooksAtIs(b: seq<bool>, cur: nat, i: int)
    requires cur <= |b| && i >= -1
    ensures LooksAt(b, cur, i) <==> 0 < cur && i < cur && forall k :: i < k < cur ==> !b[k]
    decreases cur - i
  {
    if i < cur - 1 { LooksAtIs(b, cur, i + 1); }
  }

  /** It leaves the bitmap at its lower end if and only if it is not anchored. */
  lemma WalksOff(b: seq<bool>, cur: nat)
    requires cur <= |b|
    ensures LooksAt(b, cur, -1) <==> !Anchored(b, cur)
  {
    LooksAtIs(b, cur, -1);
  }

  /** _free_pages on page k, which does nothing without the header flag. */
  ghost function Give(s: Section, k: nat): (t: Section)
    requires k < |s.pages| && s.cur <= |s.bits| && (s.pages[k].header ==> k + s.pages[k].count <= |s.bits|)
  {
    if !s.pages[k].header then s else
    var bits := Fill(s.bits, k, s.pages[k].count, false);
    s.(bits := bits, cur := Back(bits, s.cur))
  }

  /** After a free the cursor stands just above a set bit or at 0, and everything between it and
      where it was is free: pages freed just below it are found again at once. */
  lemma GiveRewinds(s: Section, k: nat)
    requires k < |s.pages| && s.cur <= |s.bits| && s.pages[k].header && k + s.pages[k].count <= |s.bits|
    requires Anchored(Fill(s.bits, k, s.pages[k].count, false), s.cur)
    ensures var t := Give(s, k);
      && t.bits == Fill(s.bits, k, s.pages[k].count, false) && t.cur <= s.cur
      && (forall i :: t.cur <= i < s.cur ==> !t.bits[i]) && (s.cur > 0 ==> t.cur > 0 && t.bits[t.cur - 1])
      && (k < s.cur <= k + s.pages[k].count ==> t.cur <= k)
  {
    hide Fill;
    var b := Fill(s.bits, k, s.pages[k].count, false);
    BackStops(b, s.cur);
  }

  // ---- who has which page ----------------------------------------------------------

  datatype Own = Free | Boot | Run(start: nat) | Lost

  /** boot pages at the bottom, the owner of every page, and the live runs. */
  datatype Ledger = Ledger(boot: nat, own: seq<Own>, live: map<nat, nat>)

  ghost predicate RunsOk(l: Ledger) {
    && (forall k :: 0 <= k < |l.own| ==> (l.own[k] == Boot <==> k < l.boot))
    && (forall s :: s in l.live ==> l.live[s] > 0 && s + l.live[s] <= |l.own|)
    && (forall s, k :: s in l.live && s <= k < s + l.live[s] && k < |l.own| ==> l.own[k] == Run(s))
    && (forall k :: 0 <= k < |l.own| && l.own[k].Run? ==>
          l.own[k].start in l.live && l.own[k].start <= k < l.own[k].start + l.live[l.own[k].start])
  }

  /** The bitmap and the descriptors agree with the ledger. */
  ghost predicate Recorded(s: Section, l: Ledger) {
    && |l.own| == |s.bits| == |s.pages|
    && (forall k :: 0 <= k < |s.bits| ==> (s.bits[k] <==> l.own[k] != Free))
    && (forall k :: 0 <= k < |s.pages| && l.own[k].Run? ==> (s.pages[k].header <==> l.own[k].start == k))
    && (forall k :: 0 <= k < |s.pages| && l.own[k].Boot? ==> !s.pages[k].header)
    && (forall k :: 0 <= k < |s.pages| && l.own[k] == Run(k) ==> k in l.live && s.pages[k].count == l.live[k] % COUNT_LIMIT)
  }

  ghost predicate SectionInv(s: Section, l: Ledger) {
    Shaped(s) && RunsOk(l) && Recorded(s, l)
  }

  ghost function Took(l: Ledger, r: nat, count: nat): Ledger
    requires r + count <= |l.own|
  {
    Ledger(l.boot, Fill(l.own, r, count, Run(r)), l.live[r := count])
  }

  /** A free clears as many pages as the 16-bit count says; the rest of the run is
      lost. */
  ghost function Gave(l: Ledger, r: nat): Ledger
    requires RunsOk(l) && r in l.live
  {
    Ledger(l.boot, Fill(Fill(l.own, r, l.live[r], Lost), r, l.live[r] % COUNT_LIMIT, Free), l.live - {r})
  }

  lemma TakeRecords(s: Section, l: Ledger, r: nat, count: nat, flag: nat)
    requires SectionInv(s, l) && count > 0 && RunAt(s.bits, false, r, count)
    ensures Recorded(Take(s, r, count, flag), Took(l, r, count))
  {
    hide Fill, RunsOk;
  }

  ghost predicate FreeRun(l: Ledger, r: nat, count: nat) {
    r + count <= |l.own| && forall k :: r <= k < r + count ==> l.own[k] == Free
  }

  lemma TakeRuns(l: Ledger, r: nat, count: nat)
    requires RunsOk(l) && count > 0 && FreeRun(l, r, count)
    ensures RunsOk(Took(l, r, count))
  {
    hide Fill;
    var m := Took(l, r, count);
    assert l.own[r] == Free;
    assert r !in l.live;
    forall s, k | s in m.live && s <= k < s + m.live[s] && k < |m.own| ensures m.own[k] == Run(s) {
      if s != r { assert l.own[k] == Run(s); }
    }
  }

  /** Allocating from a section keeps its bitmap, descriptors and runs in step. */
  lemma TakeKeeps(s: Section, l: Ledger, count: nat, flag: nat)
    requires SectionInv(s, l) && s.bits != [] && Place(s, count) >= 0
    ensures var r := Place(s, count);
      r + count <= |s.bits| && SectionInv(Take(s, r, count, flag), Took(l, r, count))
  {
    hide Search;
    PlaceIs(s, count);
    var r := Place(s, count);
    assert FreeRun(l, r, count) by { hide RunsOk; }
    TakeRuns(l, r, count);
    TakeRecords(s, l, r, count, flag);
    assert Shaped(Take(s, r, count, flag)) by { hide Recorded, RunsOk; }
  }

  lemma OtherRuns(l: Ledger, r: nat)
    requires RunsOk(l) && r in l.live
    ensures forall k :: 0 <= k < |l.own| && !(r <= k < r + l.live[r]) ==> l.own[k] != Run(r)
  {
  }

  lemma GiveRuns(l: Ledger, r: nat)
    requires RunsOk(l) && r in l.live
    ensures RunsOk(Gave(l, r))
  {
    hide Fill;
    OtherRuns(l, r);
    var m := Gave(l, r);
    assert forall k :: r <= k < r + l.live[r] ==> l.own[k] == Run(r) && (m.own[k] == Free || m.own[k] == Lost);
    assert forall k :: 0 <= k < |l.own| && !(r <= k < r + l.live[r]) ==> m.own[k] == l.own[k];
    forall s, k | s in m.live && s <= k < s + m.live[s] && k < |m.own| ensures m.own[k] == Run(s) {
      assert l.own[k] == Run(s);
    }
    forall k | 0 <= k < |m.own| && m.own[k].Run?
      ensures m.own[k].start in m.live && m.own[k].start <= k < m.own[k].start + m.live[m.own[k].start]
    {
      assert l.own[k] == m.own[k];
    }
  }

  lemma RunFacts(s: Section, l: Ledger, r: nat)
    requires SectionInv(s, l) && r in l.live
    ensures l.live[r] > 0 && r + l.live[r] <= |s.bits| == |s.pages| == |l.own|
    ensures s.pages[r].header && s.pages[r].count == l.live[r] % COUNT_LIMIT <= l.live[r]
    ensures forall k :: r <= k < r + l.live[r] ==> l.own[k] == Run(r)
  {
    assert l.own[r] == Run(r);
  }

  lemma GiveRecords(s: Section, l: Ledger, r: nat)
    requires SectionInv(s, l) && r in l.live
    ensures r < |s.pages| && r + s.pages[r].count <= |s.bits| && Recorded(Give(s, r), Gave(l, r))
  {
    hide Back, Fill, RunsOk;
    RunFacts(s, l, r);
    var t, m := Give(s, r), Gave(l, r);
    assert forall k :: 0 <= k < |s.bits| ==> (t.bits[k] <==> m.own[k] != Free);
    assert forall k :: 0 <= k < |s.bits| && m.own[k].Run? ==> m.own[k] == l.own[k] && m.own[k] != Run(r) by {
      OtherRuns(l, r);
    }
  }

  /** Freeing the first page of a run keeps them in step: it clears the run, up to
      the length its descriptor can hold, and nothing else. */
  lemma GiveKeeps(s: Section, l: Ledger, r: nat)
    requires SectionInv(s, l) && r in l.live
    ensures r < |s.pages| && r + s.pages[r].count <= |s.bits| && SectionInv(Give(s, r), Gave(l, r))
  {
    GiveRuns(l, r);
    GiveRecords(s, l, r);
    assert Shaped(Give(s, r)) by { hide Recorded, RunsOk; }
  }

  /** A free of any other allocated page is ignored: only the first page of a live
      run carries the header flag. */
  lemma OthersIgnored(s: Section, l: Ledger, k: nat)
    requires SectionInv(s, l) && k < |s.pages| && l.own[k] != Free && l.own[k] != Lost && k !in l.live
    ensures !s.pages[k].header
  {
  }

  // ---- boot ---------------------------------------------------------------------------

  function BootPage(s: Section, k: nat): Page {
    Page(false, 1, 1, s.phys + k * PAGE_SIZE, s.virt + k * PAGE_SIZE)
  }

  /** update_boot_section_info: the first size pages are taken, without a header. */
  ghost function Booted(s: Section, size: nat): (t: Section)
    requires size <= |s.bits|
  {
    s.(bits := Fill(s.bits, 0, size, true),
       pages := seq(|s.pages|, k requires 0 <= k < |s.pages| => if k < size then BootPage(s, k) else s.pages[k]),
       cur := size,
       free := s.free - size)
  }

  /** A section as the zeroed tables leave it. */
  ghost predicate Fresh(s: Section) {
    && |s.pages| == |s.bits| && s.cur == 0 && s.free == |s.bits|
    && forall k :: 0 <= k < |s.bits| ==> !s.bits[k]
  }

  ghost function BootLedger(n: nat, size: nat): Ledger
    requires size <= n
  {
    Ledger(size, seq(n, k => if k < size then Boot else Free), map[])
  }

  /** The boot section and the sections not yet used start in step. */
  lemma BootHolds(s: Section, size: nat)
    requires Fresh(s) && (size < |s.bits| || size == 0)
    ensures SectionInv(Booted(s, size), BootLedger(|s.bits|, size))
    ensures Booted(s, size).free == |s.bits| - size >= 0 && Booted(s, size).cur == size
    ensures SectionInv(s, BootLedger(|s.bits|, 0))
  {
  }
}
