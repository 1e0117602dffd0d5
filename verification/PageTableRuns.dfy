/** Runs of mapping, unmapping and initialising a task's page table, beside a flat map
    from user page to physical page (mm/pgt.c). */
module PageTableRuns {
  import opened Lists
  import opened PageTable

  ghost predicate OfferOk(t: Table, offer: Option<nat>) {
    offer.Some? ==> Offered(t, offer.value)
  }

  lemma WithTableKeeps(t: Table, mmap: bool, va: nat, offer: Option<nat>)
    requires Inv(t) && UserPage(va) && OfferOk(t, offer)
    ensures var r := WithTable(t, mmap, va, offer);
      r.Some? ==>
        && Inv(r.value) && !NeedsTable(r.value, va)
        && (forall v :: UserPage(v) ==> Word(r.value, v) == Word(t, v))
        && |r.value.pde| == |t.pde| && (forall i :: KERNEL_PDE <= i < ENTRIES && i < |t.pde| ==> r.value.pde[i] == t.pde[i])
  {
    hide Inv, NeedsTable, NewTable, Word;
    if NeedsTable(t, va) && WithTable(t, mmap, va, offer).Some? {
      NewTableKeeps(t, mmap, va, if offer == None then 0 else offer.value);
    }
    DirectorySize(t);
  }

  /** __pgt_map_page and pgt_map_mmap_page, which differ in the list a new table page
      comes from; None when there is no memory for it. */
  ghost function MapPage(t: Table, mmap: bool, va: nat, pa: nat, offer: Option<nat>): (r: Option<Table>)
    requires Inv(t) && UserPage(va) && OfferOk(t, offer)
  {
    WithTableKeeps(t, mmap, va, offer);
    match WithTable(t, mmap, va, offer)
    case None => None
    case Some(u) => Some(SetEntry(u, va, Encode(pa)))
  }

  /** pgt_unmap_mmap_page. */
  ghost function Unmap(t: Table, va: nat): Table
    requires Inv(t) && UserPage(va)
  {
    if NeedsTable(t, va) then t else SetEntry(t, va, 0)
  }

  /** mmu_copy_kernel_pde: the user half is cleared and the kernel half copied, unless the
      directory is the boot directory itself, as the idle task's is. */
  ghost function CopyKernel(pde: seq<nat>, boot: seq<nat>, own: bool): (r: seq<nat>)
    requires |pde| == |boot| == ENTRIES
    ensures |r| == ENTRIES
  {
    if own then pde else seq(ENTRIES, i requires 0 <= i < ENTRIES => if i < KERNEL_PDE then 0 else boot[i])
  }

  /** init_task_page_table on a directory that is there: the directory as above, the
      temporary buffer entered, both lists start over. */
  ghost function Init(t: Table, boot: seq<nat>, temp: nat, own: bool): Table
    requires |t.pde| == |boot| == ENTRIES
  {
    Table(CopyKernel(t.pde, boot, own)[TEMP_PDE := Encode(temp)], t.mem, ResetCache(t.task), ResetCache(t.mmap))
  }

  /** The user half of the directory is clear. */
  ghost predicate UserClear(pde: seq<nat>) {
    forall i :: 0 <= i < KERNEL_PDE && i < |pde| ==> pde[i] == 0
  }

  // ---- each step against the flat map --------------------------------------------------

  ghost predicate SameKernel(t: Table, u: Table) {
    |u.pde| == |t.pde| && forall i :: KERNEL_PDE <= i < |t.pde| ==> u.pde[i] == t.pde[i]
  }

  /** Mapping a page changes the flat map at that page and nowhere else. */
  lemma MapIsFlat(t: Table, mmap: bool, va: nat, pa: nat, offer: Option<nat>)
    requires Inv(t) && UserPage(va) && OfferOk(t, offer) && Aligned(pa)
    ensures var r := MapPage(t, mmap, va, pa, offer);
      r.Some? ==>
        && Inv(r.value) && SameKernel(t, r.value) && Lookup(r.value, va) == Some(pa)
        && (forall v :: UserPage(v) ==> Word(r.value, v) == if v == va then Encode(pa) else Word(t, v))
        && forall v :: UserPage(v) ==> Flat(r.value, v) == if v == va then pa else Flat(t, v)
  {
    hide Inv, SetEntry, WithTable, Word, Encode, PageAt, Aligned, NeedsTable;
    WithTableKeeps(t, mmap, va, offer);
    var w := WithTable(t, mmap, va, offer);
    if w.Some? {
      SetEntryFlats(w.value, va, Encode(pa));
      EntryRoundTrip(pa);
      DirectorySize(t);
    }
  }

  /** A mapping is refused if and only if there is no table for the page yet, the page allocator
      offers none, and every page of the list has been handed out. */
  lemma MapRefused(t: Table, mmap: bool, va: nat, pa: nat, offer: Option<nat>)
    requires Inv(t) && UserPage(va) && OfferOk(t, offer)
    ensures MapPage(t, mmap, va, pa, offer) == None <==>
      && Lookup(t, va) == None && offer == None
      && var c := if mmap then t.mmap else t.task; CacheOk(c) && Handed(c) == c.pages
  {
    var c := if mmap then t.mmap else t.task;
    assert CacheOk(c);
    assert c.free == 0 <==> Given(c) == |c.pages|;
    assert Handed(c) == c.pages <==> Given(c) == |c.pages|;
    hide Inv;
    WithTableKeeps(t, mmap, va, offer);
  }

  lemma SetEntryFlats(t: Table, va: nat, e: nat)
    requires Inv(t) && UserPage(va) && !NeedsTable(t, va)
    ensures var u := SetEntry(t, va, e);
      && Inv(u) && InUse(u) == InUse(t) && SameKernel(t, u) && Lookup(u, va) == Some(PageAt(e))
      && (forall v :: UserPage(v) ==> Word(u, v) == if v == va then e else Word(t, v))
      && forall v :: UserPage(v) ==> Flat(u, v) == if v == va then PageAt(e) else Flat(t, v)
  {
    hide Inv, Word, PageAt, Pde, Pte, InUse;
    SetEntryKeeps(t, va, e);
    var u := SetEntry(t, va, e);
    SetEntryWord(t, va, e, va);
    LookupIs(t, va);
    LookupIs(u, va);
    forall v | UserPage(v) ensures Word(u, v) == if v == va then e else Word(t, v) {
      SetEntryWord(t, va, e, v);
    }
  }

  lemma FlatLookup(t: Table, va: nat)
    requires Inv(t) && UserPage(va)
    ensures Lookup(t, va).Some? ==> Flat(t, va) == Lookup(t, va).value
    ensures Lookup(t, va).None? <==> TableAt(t.pde[Pde(va)]) == 0
    ensures Lookup(t, va).None? ==> Flat(t, va) == 0
  {
    IndicesSplit(va, va);
  }

  /** Unmapping clears the flat map at that page and nowhere else. */
  lemma UnmapIsFlat(t: Table, va: nat)
    requires Inv(t) && UserPage(va)
    ensures var u := Unmap(t, va);
      && Inv(u) && SameKernel(t, u) && InUse(u) == InUse(t)
      && (forall v :: UserPage(v) ==> Word(u, v) == if v == va then 0 else Word(t, v))
      && forall v :: UserPage(v) ==> Flat(u, v) == if v == va then 0 else Flat(t, v)
  {
    hide Inv, SetEntry, Word, InUse;
    LookupIs(t, va);
    if !NeedsTable(t, va) {
      SetEntryFlats(t, va, 0);
    }
  }

  /** After initialisation nothing is mapped and no table page is in use, if and only if the
      directory is not the boot directory or its user half was clear. The kernel half is
      the boot directory's in any case. */
  lemma InitIsFlat(t: Table, boot: seq<nat>, temp: nat, own: bool)
    requires PagesOk(t) && |t.pde| == |boot| == ENTRIES && (own ==> t.pde == boot)
    ensures var u := Init(t, boot, temp, own);
      && (Inv(u) <==> !own || UserClear(t.pde))
      && (Inv(u) ==> InUse(u) == [] && forall v :: UserPage(v) ==> Lookup(u, v) == None)
      && (forall i :: KERNEL_PDE <= i < ENTRIES && i != TEMP_PDE ==> u.pde[i] == boot[i]) && u.pde[TEMP_PDE] == Encode(temp)
  {
    hide CacheOk, ResetCache, Handed, Given, Aligned, Encode, TableAt;
    ResetIs(t.task);
    ResetIs(t.mmap);
    var u := Init(t, boot, temp, own);
    assert TableAt(0) == 0 by { EntryRoundTrip(0); }
    assert forall i :: 0 <= i < KERNEL_PDE ==> u.pde[i] == if own then t.pde[i] else 0;
    assert InUse(u) == [];
    if Inv(u) {
      forall v | UserPage(v) ensures Lookup(u, v) == None { IndicesSplit(v, v); }
    }
  }

  // ---- whole runs ------------------------------------------------------------------------

  datatype Op = MapAt(mmap: bool, va: nat, pa: nat, offer: Option<nat>) | UnmapAt(va: nat)
    | Start(boot: seq<nat>, temp: nat, own: bool)

  /** The table, the flat map it stands for, and the table pages handed out since the
      last initialisation, in order. */
  datatype World = World(table: Table, flat: map<nat, nat>, log: seq<nat>)

  /** The page table entries are exactly those of the flat map. */
  ghost predicate Agrees(t: Table, flat: map<nat, nat>)
    requires Inv(t)
  {
    && (forall v :: v in flat ==> Aligned(flat[v]))
    && forall v :: UserPage(v) ==> Word(t, v) == if v in flat then Encode(flat[v]) else 0
  }

  ghost predicate Logged(t: Table, log: seq<nat>)
    requires Inv(t)
  {
    NoDup(log) && forall p :: p in log <==> p in InUse(t)
  }

  /** The table stands for the flat map, and no table page has been handed out twice. */
  ghost predicate Good(w: World) {
    Inv(w.table) && Agrees(w.table, w.flat) && Logged(w.table, w.log)
  }

  ghost predicate Allowed(w: World, op: Op) {
    match op
    case MapAt(_, va, pa, offer) => UserPage(va) && Aligned(pa) && OfferOk(w.table, offer)
    case UnmapAt(va) => UserPage(va)
    case Start(boot, _, own) => |boot| == ENTRIES && (own ==> w.table.pde == boot && UserClear(boot))
  }

  ghost function LogAfter(w: World, op: Op): seq<nat>
    requires Good(w) && Allowed(w, op)
  {
    match op
    case MapAt(mmap, va, pa, offer) =>
      if MapPage(w.table, mmap, va, pa, offer).Some? && NeedsTable(w.table, va)
      then w.log + [PickedPage(w.table, mmap, if offer == None then 0 else offer.value)] else w.log
    case UnmapAt(_) => w.log
    case Start(_, _, _) => []
  }

  ghost function Next(w: World, op: Op): World
    requires Good(w) && Allowed(w, op)
  {
    match op
    case MapAt(mmap, va, pa, offer) =>
      (match MapPage(w.table, mmap, va, pa, offer)
       case None => w
       case Some(u) => World(u, w.flat[va := pa], LogAfter(w, op)))
    case UnmapAt(va) => World(Unmap(w.table, va), w.flat - {va}, w.log)
    case Start(boot, temp, own) => DirectorySize(w.table); World(Init(w.table, boot, temp, own), map[], [])
  }

  /** A task that had no page table yet begins a run well, whatever its directory held, unless
      that is the boot directory with something mapped in its user half. */
  lemma FirstGood(pde: seq<nat>, boot: seq<nat>, temp: nat, own: bool)
    requires |pde| == |boot| == ENTRIES && (own ==> pde == boot)
    ensures var none := Cache([], 0, 0, -1);
      Good(World(Init(Table(pde, map[], none, none), boot, temp, own), map[], [])) <==> !own || UserClear(boot)
  {
    hide TableAt, Encode;
    var none := Cache([], 0, 0, -1);
    var t := Table(pde, map[], none, none);
    InitIsFlat(t, boot, temp, own);
    var u := Init(t, boot, temp, own);
    if Inv(u) {
      forall v | UserPage(v) ensures Word(u, v) == 0 { LookupIs(u, v); }
    }
  }

  lemma MapLogs(w: World, op: Op)
    requires Good(w) && Allowed(w, op) && op.MapAt? && MapPage(w.table, op.mmap, op.va, op.pa, op.offer).Some?
    requires Inv(Next(w, op).table)
    ensures Logged(Next(w, op).table, Next(w, op).log)
  {
    hide Inv, SetEntry, NewTable, InUse, Word, NeedsTable, Encode, PickedPage, Agrees;
    WithTableKeeps(w.table, op.mmap, op.va, op.offer);
    var u := WithTable(w.table, op.mmap, op.va, op.offer).value;
    SetEntryFlats(u, op.va, Encode(op.pa));
    if NeedsTable(w.table, op.va) {
      var page := if op.offer == None then 0 else op.offer.value;
      NewTableKeeps(w.table, op.mmap, op.va, page);
      NoDupAppend(w.log, PickedPage(w.table, op.mmap, page));
    }
  }

  lemma StartKeeps(t: Table, boot: seq<nat>, temp: nat, own: bool)
    requires Inv(t) && |boot| == ENTRIES && (own ==> t.pde == boot && UserClear(boot))
    ensures |t.pde| == ENTRIES
    ensures var u := Init(t, boot, temp, own);
      Inv(u) && InUse(u) == [] && forall v :: UserPage(v) ==> Word(u, v) == 0
  {
    hide InUse, PagesOk, DirectoryOk, Lookup;
    DirectorySize(t);
    InitIsFlat(t, boot, temp, own);
    var u := Init(t, boot, temp, own);
    forall v | UserPage(v) ensures Word(u, v) == 0 { LookupIs(u, v); }
  }

  /** Every step keeps the table in step with the flat map; only an initialisation
      touches the kernel half of the directory. */
  lemma StepKeeps(w: World, op: Op)
    requires Good(w) && Allowed(w, op)
    ensures Good(Next(w, op)) && (!op.Start? ==> SameKernel(w.table, Next(w, op).table))
  {
    hide Inv, MapPage, Unmap, Init, Word, InUse, Aligned, NeedsTable, PickedPage, Encode, PageAt;
    match op
    case MapAt(mmap, va, pa, offer) =>
      MapIsFlat(w.table, mmap, va, pa, offer);
      if MapPage(w.table, mmap, va, pa, offer).Some? { MapLogs(w, op); }
    case UnmapAt(va) => UnmapIsFlat(w.table, va);
    case Start(boot, temp, own) => StartKeeps(w.table, boot, temp, own);
  }

  /** What the kernel looks up and what the processor translates, at every user address, is
      the flat map. */
  lemma Translates(w: World, va: nat)
    requires Good(w) && va < USER_END
    ensures var page := va - va % PAGE_SIZE;
      && UserPage(page) && |w.table.pde| == ENTRIES
      && Flat(w.table, page) == (if page in w.flat then w.flat[page] else 0)
      && Walk(w.table.pde, w.table.mem, va) == if page in w.flat then Some(w.flat[page] + va % PAGE_SIZE) else None
  {
    hide Inv, Word, Encode, PageAt, UserBits, Walk, Aligned, Logged;
    var page := va - va % PAGE_SIZE;
    PageOf(va);
    WalkIs(w.table, va);
    EntryMeans(if page in w.flat then w.flat[page] else 0);
  }

  /** The entry for a page, and the clear entry, to the kernel and to the processor. */
  lemma EntryMeans(pa: nat)
    requires Aligned(pa)
    ensures PageAt(Encode(pa)) == pa && UserBits(Encode(pa)) && Encode(pa) - Encode(pa) % 0x1000 == pa
    ensures PageAt(0) == 0 && !UserBits(0)
  {
    EntryRoundTrip(pa);
    EntryBits(pa);
  }

  /** The indices that the kernel computes for the page are those the processor takes from the
      address. */
  lemma PageOf(va: nat)
    requires va < USER_END
    ensures var page := va - va % PAGE_SIZE;
      UserPage(page) && Pde(page) == va / 0x40_0000 % 0x400 && Pte(page) == va / 0x1000 % 0x400
  {
    var k := va / PAGE_SIZE;
    var page := va - va % PAGE_SIZE;
    assert page == k * PAGE_SIZE;
    assert va / PDE_SIZE == k / ENTRIES && page / PDE_SIZE == k / ENTRIES;
    assert page % PDE_SIZE == k % ENTRIES * PAGE_SIZE;
  }

  lemma WalkIs(t: Table, va: nat)
    requires Inv(t) && va < USER_END
    ensures var page := va - va % PAGE_SIZE;
      && UserPage(page) && |t.pde| == ENTRIES
      && Walk(t.pde, t.mem, va) ==
           if UserBits(Word(t, page)) then Some(Word(t, page) - Word(t, page) % 0x1000 + va % 0x1000) else None
  {
    hide Inv, Encode, UserBits, Aligned, TableAt;
    PageOf(va);
    DirectorySize(t);
    EntryOf(t, va - va % PAGE_SIZE);
    hide UserPage, Pde, Pte;
  }

  /** The directory entry for a page, as the processor reads it. */
  lemma EntryOf(t: Table, page: nat)
    requires Inv(t) && UserPage(page)
    ensures Pde(page) < |t.pde| == ENTRIES && Pte(page) < ENTRIES
    ensures var e := t.pde[Pde(page)];
      if e == 0 then Word(t, page) == 0 && !UserBits(0)
      else
        && UserBits(e) && e / 0x80 % 2 == 0 && e - e % 0x1000 in t.mem && |t.mem[e - e % 0x1000]| == ENTRIES
        && Word(t, page) == t.mem[e - e % 0x1000][Pte(page)]
  {
    IndicesSplit(page, page);
    var e := t.pde[Pde(page)];
    assert e == 0 || Names(e);
    if e != 0 {
      InUseIsGood(t, TableAt(e));
      hide Inv;
      EntryBits(TableAt(e));
      LowBits(e);
    }
  }

  lemma LowBits(e: nat)
    requires e % 4096 == 7
    ensures e / 0x80 % 2 == 0
  {
    SeventhBit(e, e / 4096);
  }

  lemma SeventhBit(e: nat, k: nat)
    requires e == 4096 * k + 7
    ensures e / 0x80 % 2 == 0
  {
    BelowBit(e, 32 * k, 7);
    Doubled(32 * k, 16 * k);
  }

  lemma Doubled(q: nat, h: nat)
    requires q == 2 * h
    ensures q % 2 == 0
  {
  }

  lemma BelowBit(e: nat, q: nat, r: nat)
    requires e == 128 * q + r && r < 128
    ensures e / 0x80 == q
  {
  }

  ghost predicate IsRun(ws: seq<World>, ops: seq<Op>) {
    |ws| == |ops| + 1 && forall i :: 0 <= i < |ops| ==> StepTo(ws[i], ops[i], ws[i + 1])
  }

  ghost predicate StepTo(w: World, op: Op, v: World) {
    Good(w) && Allowed(w, op) && v == Next(w, op)
  }

  /** Over every run the two-level table refines the flat map and no table page is
      handed out twice between two initialisations; without an initialisation the
      kernel half of the directory never changes. */
  lemma {:induction false} Refinement(ws: seq<World>, ops: seq<Op>, n: nat)
    requires IsRun(ws, ops) && Good(ws[0]) && n <= |ops|
    ensures Good(ws[n])
    ensures (forall i :: 0 <= i < n ==> !ops[i].Start?) ==> SameKernel(ws[0].table, ws[n].table)
  {
    hide Good, Allowed, Next;
    if n > 0 {
      Refinement(ws, ops, n - 1);
      assert StepTo(ws[n - 1], ops[n - 1], ws[n]);
      StepKeeps(ws[n - 1], ops[n - 1]);
    }
  }
}
