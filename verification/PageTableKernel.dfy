/** The page table in place: directory and table words in memory, and the two lists
    (mm/pgt.c, arch/x86/kernel/x86_mmu.c). */
module PageTableKernel {
  import opened PageTable
  import opened PageTableRuns

  /** The words of a page, by its physical address. */
  ghost predicate Separate(pde: array<nat>, frames: map<nat, array<nat>>) {
    && pde.Length == ENTRIES
    && (forall p :: p in frames ==> frames[p] != pde && frames[p].Length == ENTRIES)
    && (forall p, q :: p in frames && q in frames && p != q ==> frames[p] != frames[q])
  }

  class TaskPageTable {
    const pde: array<nat>
    var frames: map<nat, array<nat>>
    var task: Cache
    var mmap: Cache

    ghost function Words(): set<object>
      reads this
    {
      set p | p in frames :: frames[p] as object
    }

    ghost function View(): Table
      reads this, pde, Words()
    {
      Table(pde[..], map p | p in frames :: frames[p][..], task, mmap)
    }

    ghost predicate Valid()
      reads this, pde, Words()
    {
      Separate(pde, frames) && Inv(View())
    }

    /** pgt_get_task_page, down to the physical address of the page. */
    method GetTaskPage(va: nat) returns (r: Option<nat>)
      requires Valid() && UserPage(va)
      ensures r == Lookup(View(), va)
    {
      hide Inv, InUse, GoodPage;
      ghost var t := View();
      IndicesSplit(va, va);
      FlatLookup(t, va);
      var table := TableAt(pde[va / PDE_SIZE]);
      if table == 0 { return None; }
      TableIsGood(t, va);
      r := Some(PageAt(frames[table][va % PDE_SIZE / PAGE_SIZE]));
    }

    /** Writing one entry of the table that is there. */
    method WriteEntry(va: nat, e: nat)
      requires Valid() && UserPage(va) && !NeedsTable(View(), va)
      modifies Words()
      ensures frames == old(frames) && task == old(task) && mmap == old(mmap)
      ensures Valid() && View() == SetEntry(old(View()), va, e)
    {
      hide Inv, InUse, GoodPage;
      ghost var t := View();
      IndicesSplit(va, va);
      FlatLookup(t, va);
      TableIsGood(t, va);
      SetEntryKeeps(t, va, e);
      var table := TableAt(pde[Pde(va)]);
      var words := frames[table];
      words[Pte(va)] := e;
      assert View() == SetEntry(t, va, e);
    }

    /** memset of a table page. */
    method Zero(p: nat)
      requires Separate(pde, frames) && p in frames
      modifies frames[p]
      ensures View() == old(View()).(mem := old(View()).mem[p := Zeros()])
    {
      var words := frames[p];
      var i := 0;
      while i < ENTRIES
        invariant 0 <= i <= ENTRIES && forall j :: 0 <= j < i ==> words[j] == 0
      {
        words[i] := 0;
        i := i + 1;
      }
      assert words[..] == Zeros();
    }

    /** The first half of alloc_new_pte_page: the next page of the list, or the one the
        page allocator offers, whose memory is words. */
    method TakePage(fromMmap: bool, offer: Option<nat>, words: array<nat>) returns (r: Option<nat>)
      requires Separate(pde, frames)
      requires words.Length == ENTRIES && words != pde && forall p :: p in frames ==> frames[p] != words
      requires var c := if fromMmap then mmap else task;
        c.free > 0 ==> 0 <= c.cur + 1 < |c.pages| && c.free >= PAGE_SIZE && c.pages[c.cur + 1] in frames
      modifies this
      ensures Separate(pde, frames) && Words() <= old(Words()) + {words}
      ensures View().mem.Keys >= old(View()).mem.Keys
      ensures forall q :: q in View().mem && r != Some(q) ==> q in old(View()).mem && View().mem[q] == old(View()).mem[q]
      ensures var c := if fromMmap then old(mmap) else old(task);
        var page := if offer == None then 0 else offer.value;
        if c.free == 0 && offer == None then
          r == None && frames == old(frames) && task == old(task) && mmap == old(mmap)
        else
          && r == Some(NextPage(c, page).0) && r.value in frames
          && mmap == (if fromMmap then NextPage(c, page).1 else old(mmap))
          && task == (if fromMmap then old(task) else NextPage(c, page).1)
    {
      var c := if fromMmap then mmap else task;
      if c.free == 0 {
        if offer == None { return None; }
        frames := frames[offer.value := words];
        c := c.(pages := c.pages + [offer.value], alloc := c.alloc + PAGE_SIZE);
        r := offer;
      } else {
        c := c.(cur := c.cur + 1, free := c.free - PAGE_SIZE);
        r := Some(c.pages[c.cur]);
      }
      if fromMmap { mmap := c; } else { task := c; }
    }

    /** alloc_new_pte_page. */
    method AllocNewPtePage(fromMmap: bool, offer: Option<nat>, words: array<nat>) returns (r: Option<nat>)
      requires Valid() && words.Length == ENTRIES && words != pde && forall p :: p in frames ==> frames[p] != words
      modifies this, Words(), words
      ensures Separate(pde, frames) && pde[..] == old(pde[..]) && Words() <= old(Words()) + {words}
      ensures r == None <==> (if fromMmap then old(mmap) else old(task)).free == 0 && offer == None
      ensures r == None ==> View() == old(View()) && frames == old(frames)
      ensures var page := if offer == None then 0 else offer.value;
        r.Some? ==> r.value == PickedPage(old(View()), fromMmap, page) && View() == WithPage(old(View()), fromMmap, page)
    {
      hide Inv, PickedPage, WithPage, Zeros;
      ghost var t := View();
      CachePages(t, fromMmap, if offer == None then 0 else offer.value);
      r := TakePage(fromMmap, offer, words);
      if r == None { return; }
      PageIsPicked(t, fromMmap, if offer == None then 0 else offer.value);
      SameMem(t.mem, View().mem, r.value, Zeros());
      Zero(r.value);
    }

    /** pgt_map_new_pde_entry. */
    method MapNewPdeEntry(fromMmap: bool, va: nat, offer: Option<nat>, words: array<nat>) returns (ok: bool)
      requires Valid() && OfferOk(View(), offer) && UserPage(va) && NeedsTable(View(), va)
      requires words.Length == ENTRIES && words != pde && forall p :: p in frames ==> frames[p] != words
      modifies this, pde, Words(), words
      ensures Words() <= old(Words()) + {words}
      ensures Valid() && (ok <==> WithTable(old(View()), fromMmap, va, offer).Some?)
      ensures ok <==> offer.Some? || (if fromMmap then old(mmap) else old(task)).free > 0
      ensures !ok ==> View() == old(View()) && frames == old(frames)
      ensures ok ==> View() == WithTable(old(View()), fromMmap, va, offer).value
    {
      hide Inv, WithPage, NewTable, PickedPage, NeedsTable, Encode, InUse, Offered;
      ghost var t, page := View(), if offer == None then 0 else offer.value;
      NewTableIs(t, fromMmap, va, page);
      var p := AllocNewPtePage(fromMmap, offer, words);
      if p == None { return false; }
      WithTableKeeps(t, fromMmap, va, offer);
      pde[Pde(va)] := Encode(p.value);
      assert View() == NewTable(t, fromMmap, va, page);
      ok := true;
    }

    /** __pgt_map_page and pgt_map_mmap_page. */
    method MapPage(fromMmap: bool, va: nat, pa: nat, offer: Option<nat>, words: array<nat>) returns (ok: bool)
      requires Valid() && OfferOk(View(), offer) && UserPage(va)
      requires words.Length == ENTRIES && words != pde && forall p :: p in frames ==> frames[p] != words
      modifies this, pde, Words(), words
      ensures Valid() && (ok <==> PageTableRuns.MapPage(old(View()), fromMmap, va, pa, offer).Some?)
      ensures var c := if fromMmap then old(mmap) else old(task);
        !ok <==> old(Lookup(View(), va)) == None && offer == None && CacheOk(c) && Handed(c) == c.pages
      ensures !ok ==> View() == old(View())
      ensures ok ==> View() == PageTableRuns.MapPage(old(View()), fromMmap, va, pa, offer).value
    {
      hide Inv, NewTable, Encode, SetEntry, Flat, InUse, Separate;
      ghost var t := View();
      FlatLookup(t, va);
      IndicesSplit(va, va);
      DirectoryWords();
      WithTableKeeps(t, fromMmap, va, offer);
      MapRefused(t, fromMmap, va, pa, offer);
      if TableAt(pde[Pde(va)]) == 0 {
        ok := MapNewPdeEntry(fromMmap, va, offer, words);
        if !ok { return; }
      }
      WriteEntry(va, Encode(pa));
      ok := true;
    }

    lemma DirectoryWords()
      requires Valid()
      ensures pde.Length == ENTRIES
    {
    }

    /** pgt_unmap_mmap_page: the physical address that was mapped, if a table is there. */
    method UnmapMmapPage(va: nat) returns (r: Option<nat>)
      requires Valid() && UserPage(va)
      modifies Words()
      ensures Valid() && View() == Unmap(old(View()), va) && r == Lookup(old(View()), va)
    {
      r := GetTaskPage(va);
      if r == None { return; }
      WriteEntry(va, 0);
    }

    /** init_task_page_table, for a directory that is there. */
    method InitTaskPageTable(boot: array<nat>, temp: nat)
      requires Valid() && boot.Length == ENTRIES && forall p :: p in frames ==> frames[p] != boot
      requires boot == pde ==> UserClear(boot[..])
      modifies this, pde
      ensures Valid() && frames == old(frames) && |old(View()).pde| == ENTRIES
      ensures View() == Init(old(View()), old(boot[..]), temp, boot == pde)
    {
      hide Inv, ResetCache, Encode, InUse, UserClear;
      ghost var t := View();
      StartKeeps(t, boot[..], temp, boot == pde);
      CopyKernelPde(boot);
      task, mmap := ResetCache(task), ResetCache(mmap);
      pde[TEMP_PDE] := Encode(temp);
      assert View() == Init(t, old(boot[..]), temp, boot == pde);
    }

    /** mmu_copy_kernel_pde. */
    method CopyKernelPde(boot: array<nat>)
      requires pde.Length == boot.Length == ENTRIES
      modifies pde
      ensures pde[..] == CopyKernel(old(pde[..]), old(boot[..]), boot == pde)
    {
      if boot == pde { return; }
      var i := 0;
      while i < ENTRIES
        invariant 0 <= i <= ENTRIES && forall j :: 0 <= j < i ==> pde[j] == if j < KERNEL_PDE then 0 else boot[j]
        invariant boot[..] == old(boot[..])
      {
        pde[i] := if i < KERNEL_PDE then 0 else boot[i];
        i := i + 1;
      }
    }
  }

  lemma SameMem(m: map<nat, seq<nat>>, n: map<nat, seq<nat>>, p: nat, words: seq<nat>)
    requires m.Keys <= n.Keys && forall q :: q in n && q != p ==> q in m && n[q] == m[q]
    ensures n[p := words] == m[p := words]
  {
  }

  /** A zeroed table page. */
  function Zeros(): seq<nat> { seq(ENTRIES, _ => 0) }

  lemma PageIsPicked(t: Table, fromMmap: bool, page: nat)
    requires Inv(t)
    ensures var c := if fromMmap then t.mmap else t.task;
      c.free > 0 ==> 0 <= c.cur + 1 < |c.pages| && c.free >= PAGE_SIZE
    ensures var c, u := if fromMmap then t.mmap else t.task, WithPage(t, fromMmap, page);
      && PickedPage(t, fromMmap, page) == NextPage(c, page).0
      && u.task == (if fromMmap then t.task else NextPage(c, page).1)
      && u.mmap == (if fromMmap then NextPage(c, page).1 else t.mmap)
      && u.pde == t.pde && u.mem == t.mem[PickedPage(t, fromMmap, page) := Zeros()]
  {
    CachePages(t, fromMmap, page);
  }

  lemma CachePages(t: Table, fromMmap: bool, page: nat)
    requires Inv(t)
    ensures var c := if fromMmap then t.mmap else t.task;
      c.free > 0 ==> 0 <= c.cur + 1 < |c.pages| && c.free >= PAGE_SIZE && c.pages[c.cur + 1] in t.mem
  {
    var c := if fromMmap then t.mmap else t.task;
    NextPageIs(c, page);
  }

  lemma TableIsGood(t: Table, va: nat)
    requires Inv(t) && UserPage(va) && !NeedsTable(t, va)
    ensures |t.pde| == ENTRIES && Pde(va) < ENTRIES
    ensures var p := TableAt(t.pde[Pde(va)]); p != 0 && p in t.mem && |t.mem[p]| == ENTRIES
    ensures var p := TableAt(t.pde[Pde(va)]); Lookup(t, va) == Some(PageAt(t.mem[p][Pte(va)]))
  {
    IndicesSplit(va, va);
    InUseIsGood(t, TableAt(t.pde[Pde(va)]));
  }
}
