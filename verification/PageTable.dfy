/** A task's two-level page table (mm/pgt.c) on x86 (arch/x86/kernel/x86_mmu.c): a
    directory of 1024 entries, page tables of 1024 entries, and the two lists the
    pages for those tables come from. */
module PageTable {
  import opened Lists

  const PAGE_SIZE := 4096
  const ENTRIES := 1024

  /** What one directory entry maps. */
  const PDE_SIZE := 0x400000

  /** User addresses end where the kernel half of the directory begins. */
  const USER_END := 0x80000000
  const KERNEL_PDE := 512

  /** The directory index of KERNEL_TEMP_BUFFER_BASE. */
  const TEMP_PDE := 0xec00_0000 / 0x40_0000

  // ---- entries -------------------------------------------------------------------

  predicate Aligned(pa: nat) { pa % PAGE_SIZE == 0 }

  /** Present, writable, user: the low three bits set, for both kinds of entry. */
  function Encode(pa: nat): nat { pa - pa % 8 + 7 }

  /** The page table a directory entry names: its low 12 bits masked off; 0 is none. */
  function TableAt(e: nat): nat { e - e % 0x1000 }

  /** The page a page table entry names: its low 8 bits masked off. */
  function PageAt(e: nat): nat { e - e % 0x100 }

  /** Decoding undoes encoding for page addresses. */
  lemma EntryRoundTrip(pa: nat)
    requires Aligned(pa)
    ensures TableAt(Encode(pa)) == pa && PageAt(Encode(pa)) == pa
    ensures TableAt(0) == 0 && PageAt(0) == 0
  {
    var k := pa / 4096;
    assert pa == 4096 * k;
    assert 8 * (512 * k) % 8 == 0;
    assert (256 * (16 * k) + 7) % 256 == 7;
    assert (4096 * k + 7) % 4096 == 7;
  }

  /** Bits 0 to 2 of an entry for a page are set, bits 3 to 11 are clear, and the rest is the
      page. */
  lemma EntryBits(pa: nat)
    requires Aligned(pa)
    ensures var e := Encode(pa); UserBits(e) && e % 4096 == 7 && e - e % 4096 == pa
  {
    EncodeIs(pa);
    hide Encode, Aligned, UserBits;
    LowSeven(Encode(pa), pa / 4096);
  }

  lemma EncodeIs(pa: nat)
    requires Aligned(pa)
    ensures Encode(pa) == 4096 * (pa / 4096) + 7 && pa == 4096 * (pa / 4096)
  {
    assert 8 * (512 * (pa / 4096)) % 8 == 0;
  }

  lemma LowSeven(e: nat, k: nat)
    requires e == 4096 * k + 7
    ensures UserBits(e) && e % 4096 == 7 && e - e % 4096 == 4096 * k
  {
    HalfOf(e, 2048 * k + 3);
    HalfOf(2048 * k + 3, 1024 * k + 1);
    HalfOf(1024 * k + 1, 512 * k);
    assert e / 4 == e / 2 / 2;
  }

  lemma HalfOf(e: nat, h: nat)
    requires e == 2 * h + 1
    ensures e % 2 == 1 && e / 2 == h
  {
  }

  // ---- the processor ----------------------------------------------------------------

  /** Present, writable, open to user code: bits 0, 1 and 2. */
  predicate UserBits(e: nat) { e % 2 == 1 && e / 2 % 2 == 1 && e / 4 % 2 == 1 }

  /** The processor's own walk for a user access: bits 22 to 31 of the address select a
      directory entry, bits 12 to 21 one of the table it names, and bits 0 to 11 stay. A
      directory entry with bit 7 set would map 4 MiB itself. */
  ghost function Walk(pde: seq<nat>, mem: map<nat, seq<nat>>, va: nat): Option<nat>
    requires |pde| == 1024
  {
    var e := pde[va / 0x40_0000 % 0x400];
    if !UserBits(e) || e / 0x80 % 2 == 1 || e - e % 0x1000 !in mem then None else
    var words := mem[e - e % 0x1000];
    if |words| != 1024 then None else
    var f := words[va / 0x1000 % 0x400];
    if UserBits(f) then Some(f - f % 0x1000 + va % 0x1000) else None
  }

  // ---- addresses -------------------------------------------------------------------

  predicate UserPage(va: nat) { va < USER_END && va % PAGE_SIZE == 0 }

  function Pde(va: nat): nat { va / PDE_SIZE }

  function Pte(va: nat): nat { va % PDE_SIZE / PAGE_SIZE }

  /** The two indices are in range and together determine the page. */
  lemma IndicesSplit(va: nat, vb: nat)
    requires UserPage(va) && UserPage(vb)
    ensures Pde(va) < KERNEL_PDE && Pte(va) < ENTRIES
    ensures Pde(va) == Pde(vb) && Pte(va) == Pte(vb) ==> va == vb
  {
    SplitBack(va);
    SplitBack(vb);
    hide Pde, Pte;
  }

  lemma SplitBack(va: nat)
    requires UserPage(va)
    ensures va == Pde(va) * PDE_SIZE + Pte(va) * PAGE_SIZE && Pde(va) < KERNEL_PDE && Pte(va) < ENTRIES
  {
    var k := va / PAGE_SIZE;
    assert va == k * PAGE_SIZE;
    assert va / PDE_SIZE == k / ENTRIES;
    assert va % PDE_SIZE == k % ENTRIES * PAGE_SIZE;
  }

  // ---- the lists of table pages ------------------------------------------------------

  /** pages is pte_list; cur the place in it of pte_current_page, -1 for its head. */
  datatype Cache = Cache(pages: seq<nat>, alloc: nat, free: nat, cur: int)

  /** free pages at the end of the list have not been handed out since the last
      initialisation; cur is the last one that has, while there are any. */
  ghost predicate CacheOk(c: Cache) {
    && c.alloc == PAGE_SIZE * |c.pages| && c.free % PAGE_SIZE == 0 && c.free <= c.alloc
    && (c.free > 0 ==> c.cur == Given(c) - 1)
  }

  /** How many pages have been handed out. */
  function Given(c: Cache): int { |c.pages| - c.free / PAGE_SIZE }

  ghost function Handed(c: Cache): (s: seq<nat>)
    requires CacheOk(c)
    ensures |s| == Given(c)
  {
    c.pages[..Given(c)]
  }

  /** init_pte_cache_list. */
  function ResetCache(c: Cache): Cache {
    if c.alloc > 0 then c.(cur := -1, free := c.alloc) else Cache([], 0, 0, -1)
  }

  /** alloc_new_pte_page: the next page of the list, or a page from the page allocator. */
  function NextPage(c: Cache, page: nat): (r: (nat, Cache))
    requires c.free > 0 ==> 0 <= c.cur + 1 < |c.pages| && c.free >= PAGE_SIZE
  {
    if c.free == 0 then (page, c.(pages := c.pages + [page], alloc := c.alloc + PAGE_SIZE))
    else (c.pages[c.cur + 1], c.(cur := c.cur + 1, free := c.free - PAGE_SIZE))
  }

  lemma NextPageIs(c: Cache, page: nat)
    requires CacheOk(c)
    ensures c.free > 0 ==> 0 <= c.cur + 1 < |c.pages| && c.free >= PAGE_SIZE
    ensures var (p, d) := NextPage(c, page);
      && CacheOk(d) && Handed(d) == Handed(c) + [p]
      && (if c.free == 0 then p == page && d.pages == c.pages + [page] else p in c.pages && d.pages == c.pages)
  {
  }

  lemma ResetIs(c: Cache)
    requires CacheOk(c)
    ensures CacheOk(ResetCache(c)) && Handed(ResetCache(c)) == [] && ResetCache(c).pages == c.pages
  {
  }

  // ---- the table ------------------------------------------------------------------------

  /** mem holds the words of the table pages by physical address. */
  datatype Table = Table(pde: seq<nat>, mem: map<nat, seq<nat>>, task: Cache, mmap: Cache)

  datatype Option<T> = None | Some(value: T)

  /** All pages the two lists have handed out since the last initialisation. */
  ghost function InUse(t: Table): seq<nat>
    requires CacheOk(t.task) && CacheOk(t.mmap)
  {
    Handed(t.task) + Handed(t.mmap)
  }

  ghost predicate PagesOk(t: Table) {
    && CacheOk(t.task) && CacheOk(t.mmap) && NoDup(t.task.pages) && NoDup(t.mmap.pages)
    && (forall p :: p in t.task.pages ==> p !in t.mmap.pages)
    && forall p :: p in t.task.pages || p in t.mmap.pages ==> GoodPage(t, p)
  }

  ghost predicate GoodPage(t: Table, p: nat) {
    Aligned(p) && p != 0 && p in t.mem && |t.mem[p]| == ENTRIES
  }

  /** The entry is the one for the table it names. */
  predicate Names(e: nat) { TableAt(e) != 0 && e == Encode(TableAt(e)) }

  /** Each user entry of the directory is clear or names a table page of its own. */
  ghost predicate DirectoryOk(t: Table)
    requires CacheOk(t.task) && CacheOk(t.mmap)
  {
    && |t.pde| == ENTRIES
    && (forall i :: 0 <= i < KERNEL_PDE ==> t.pde[i] == 0 || Names(t.pde[i]))
    && (forall i :: 0 <= i < KERNEL_PDE && TableAt(t.pde[i]) != 0 ==> TableAt(t.pde[i]) in InUse(t))
    && (forall i, j :: 0 <= i < j < KERNEL_PDE && TableAt(t.pde[i]) != 0 ==> TableAt(t.pde[i]) != TableAt(t.pde[j]))
  }

  ghost predicate Inv(t: Table) { PagesOk(t) && DirectoryOk(t) }

  // ---- looking up, mapping, unmapping ------------------------------------------------------

  /** pgt_get_task_page: the page mapped at va, as far as a page table is there. */
  ghost function Lookup(t: Table, va: nat): (r: Option<nat>)
    requires Inv(t) && UserPage(va)
  {
    IndicesSplit(va, va);
    var p := TableAt(t.pde[Pde(va)]);
    if p == 0 then None else
    InUseIsGood(t, p);
    Some(PageAt(t.mem[p][Pte(va)]))
  }

  /** The page table entry for va, 0 where there is no table. */
  ghost function Word(t: Table, va: nat): nat
    requires Inv(t) && UserPage(va)
  {
    IndicesSplit(va, va);
    var p := TableAt(t.pde[Pde(va)]);
    if p == 0 then 0 else
    InUseIsGood(t, p);
    t.mem[p][Pte(va)]
  }

  /** The physical page at va, 0 where nothing is mapped. */
  ghost function Flat(t: Table, va: nat): nat
    requires Inv(t) && UserPage(va)
  {
    PageAt(Word(t, va))
  }

  lemma LookupIs(t: Table, va: nat)
    requires Inv(t) && UserPage(va)
    ensures Lookup(t, va) == if TableAt(t.pde[Pde(va)]) == 0 then None else Some(PageAt(Word(t, va)))
    ensures Lookup(t, va) == None ==> Word(t, va) == 0
    ensures Pde(va) < KERNEL_PDE < |t.pde| == ENTRIES
  {
    IndicesSplit(va, va);
  }

  lemma InUseIsGood(t: Table, p: nat)
    requires PagesOk(t) && p in InUse(t)
    ensures GoodPage(t, p)
  {
  }

  /** pgt_map_new_pde_entry: a zeroed page becomes the table for va. */
  ghost function NewTable(t: Table, mmap: bool, va: nat, page: nat): Table
    requires Inv(t) && UserPage(va)
  {
    IndicesSplit(va, va);
    var c := if mmap then t.mmap else t.task;
    NextPageIs(c, page);
    var (p, d) := NextPage(c, page);
    Table(t.pde[Pde(va) := Encode(p)], t.mem[p := seq(ENTRIES, _ => 0)],
          if mmap then t.task else d, if mmap then d else t.mmap)
  }

  /** The page offered by the page allocator is one not in use here. */
  ghost predicate Offered(t: Table, page: nat) {
    Aligned(page) && page != 0 && page !in t.task.pages && page !in t.mmap.pages
  }

  ghost predicate NeedsTable(t: Table, va: nat)
    requires Inv(t) && UserPage(va)
  {
    Lookup(t, va) == None
  }

  /** The table va's entry is in, made if need be; None when there is no page for it. */
  ghost function WithTable(t: Table, mmap: bool, va: nat, offer: Option<nat>): Option<Table>
    requires Inv(t) && UserPage(va)
  {
    if !NeedsTable(t, va) then Some(t)
    else if (if mmap then t.mmap else t.task).free == 0 && offer == None then None
    else Some(NewTable(t, mmap, va, if offer == None then 0 else offer.value))
  }

  ghost function SetEntry(t: Table, va: nat, e: nat): Table
    requires Inv(t) && UserPage(va) && !NeedsTable(t, va)
  {
    IndicesSplit(va, va);
    var p := TableAt(t.pde[Pde(va)]);
    InUseIsGood(t, p);
    var words: seq<nat> := t.mem[p][Pte(va) := e];
    t.(mem := t.mem[p := words])
  }

  // ---- what each step does to the flat map -----------------------------------------------

  /** Writing one entry changes what is mapped at one page. */
  lemma SetEntryKeeps(t: Table, va: nat, e: nat)
    requires Inv(t) && UserPage(va) && !NeedsTable(t, va)
    ensures Inv(SetEntry(t, va, e)) && InUse(SetEntry(t, va, e)) == InUse(t)
  {
    hide CacheOk, Given, Aligned, TableAt, Pde, Pte;
    IndicesSplit(va, va);
    var p := TableAt(t.pde[Pde(va)]);
    InUseIsGood(t, p);
  }

  lemma SetEntryWord(t: Table, va: nat, e: nat, v: nat)
    requires Inv(t) && UserPage(va) && !NeedsTable(t, va) && UserPage(v)
    requires Inv(SetEntry(t, va, e))
    ensures Word(SetEntry(t, va, e), v) == if v == va then e else Word(t, v)
  {
    hide PagesOk, InUse, Pde, Pte, PageAt, TableAt, CacheOk;
    IndicesSplit(va, v);
    IndicesSplit(v, va);
    var i, j := Pde(va), Pde(v);
    var p, q := TableAt(t.pde[i]), TableAt(t.pde[j]);
    InUseIsGood(t, p);
    if q != 0 {
      InUseIsGood(t, q);
      if i != j { assert p != q; }
      var u := SetEntry(t, va, e);
      assert u.mem[q][Pte(v)] == if v == va then e else t.mem[q][Pte(v)];
    }
  }

  /** The page for a new table has not been handed out before. */
  lemma PageIsNew(t: Table, mmap: bool, page: nat)
    requires PagesOk(t) && ((if mmap then t.mmap else t.task).free == 0 ==> Offered(t, page))
    ensures var c := if mmap then t.mmap else t.task;
      && (c.free > 0 ==> 0 <= c.cur + 1 < |c.pages| && c.free >= PAGE_SIZE)
      && var (p, d) := NextPage(c, page);
         Aligned(p) && p != 0 && p !in InUse(t)
  {
    hide Aligned;
    var c := if mmap then t.mmap else t.task;
    NextPageIs(c, page);
    if c.free > 0 { assert c.pages[c.cur + 1] !in Handed(c); }
  }

  lemma NewTableDirectory(t: Table, mmap: bool, va: nat, page: nat)
    requires Inv(t) && UserPage(va) && NeedsTable(t, va)
    requires (if mmap then t.mmap else t.task).free == 0 ==> Offered(t, page)
    ensures var u := NewTable(t, mmap, va, page);
      CacheOk(u.task) && CacheOk(u.mmap) && DirectoryOk(u)
  {
    hide CacheOk, Given, Aligned, TableAt, Pde, Encode, Handed, NextPage;
    IndicesSplit(va, va);
    var c := if mmap then t.mmap else t.task;
    NextPageIs(c, page);
    PageIsNew(t, mmap, page);
    EntryRoundTrip(NextPage(c, page).0);
  }

  lemma NewTablePages(t: Table, mmap: bool, va: nat, page: nat)
    requires Inv(t) && UserPage(va) && NeedsTable(t, va)
    requires (if mmap then t.mmap else t.task).free == 0 ==> Offered(t, page)
    ensures PagesOk(NewTable(t, mmap, va, page))
  {
    hide CacheOk, Given, Aligned, TableAt, Pde, Encode, Handed, DirectoryOk;
    IndicesSplit(va, va);
    var c := if mmap then t.mmap else t.task;
    NextPageIs(c, page);
    PageIsNew(t, mmap, page);
    if c.free == 0 { NoDupAppend(c.pages, page); }
  }

  /** The page a new table would be in. */
  ghost function PickedPage(t: Table, mmap: bool, page: nat): nat
    requires Inv(t)
  {
    var c := if mmap then t.mmap else t.task;
    NextPageIs(c, page);
    NextPage(c, page).0
  }

  /** A new table maps nothing: what the flat map says does not change. */
  lemma NewTableWord(t: Table, mmap: bool, va: nat, page: nat, v: nat)
    requires Inv(t) && UserPage(va) && NeedsTable(t, va) && UserPage(v)
    requires (if mmap then t.mmap else t.task).free == 0 ==> Offered(t, page)
    requires Inv(NewTable(t, mmap, va, page))
    ensures var u := NewTable(t, mmap, va, page); Word(u, v) == Word(t, v) && (v == va ==> !NeedsTable(u, v))
  {
    hide CacheOk, Given, Aligned, TableAt, PageAt, Pde, Pte, Encode, Handed, NextPage, PagesOk;
    IndicesSplit(va, v);
    IndicesSplit(v, va);
    PageIsNew(t, mmap, page);
    var p := PickedPage(t, mmap, page);
    EntryRoundTrip(p);
    EntryRoundTrip(0);
    var q := TableAt(t.pde[Pde(v)]);
    if q != 0 { InUseIsGood(t, q); }
  }

  lemma NewTableKeeps(t: Table, mmap: bool, va: nat, page: nat)
    requires Inv(t) && UserPage(va) && NeedsTable(t, va)
    requires (if mmap then t.mmap else t.task).free == 0 ==> Offered(t, page)
    ensures var u := NewTable(t, mmap, va, page);
      && Inv(u) && !NeedsTable(u, va) && PickedPage(t, mmap, page) !in InUse(t)
      && (forall p :: p in InUse(u) <==> p in InUse(t) || p == PickedPage(t, mmap, page))
      && (forall v :: UserPage(v) ==> Word(u, v) == Word(t, v))
      && |u.pde| == |t.pde| && (forall i :: KERNEL_PDE <= i < ENTRIES ==> u.pde[i] == t.pde[i])
  {
    hide CacheOk, Given, Aligned, TableAt, Pde, Encode, Handed, NextPage, DirectoryOk, Word, NeedsTable;
    NewTablePages(t, mmap, va, page);
    NewTableDirectory(t, mmap, va, page);
    PageIsNew(t, mmap, page);
    NextPageIs(if mmap then t.mmap else t.task, page);
    IndicesSplit(va, va);
    NewTableWord(t, mmap, va, page, va);
    forall v | UserPage(v) ensures Word(NewTable(t, mmap, va, page), v) == Word(t, v) {
      NewTableWord(t, mmap, va, page, v);
    }
    assert |t.pde| == ENTRIES by { DirectorySize(t); }
  }

  lemma DirectorySize(t: Table)
    requires Inv(t)
    ensures |t.pde| == ENTRIES
  {
  }

  /** alloc_new_pte_page: the page leaves the list, zeroed. */
  ghost function WithPage(t: Table, mmap: bool, page: nat): Table
    requires Inv(t)
  {
    var c := if mmap then t.mmap else t.task;
    NextPageIs(c, page);
    var (p, d) := NextPage(c, page);
    Table(t.pde, t.mem[p := seq(ENTRIES, _ => 0)], if mmap then t.task else d, if mmap then d else t.mmap)
  }

  lemma NewTableIs(t: Table, mmap: bool, va: nat, page: nat)
    requires Inv(t) && UserPage(va)
    ensures |t.pde| == ENTRIES && Pde(va) < KERNEL_PDE
    ensures NewTable(t, mmap, va, page) ==
      WithPage(t, mmap, page).(pde := t.pde[Pde(va) := Encode(PickedPage(t, mmap, page))])
  {
    IndicesSplit(va, va);
  }
}
