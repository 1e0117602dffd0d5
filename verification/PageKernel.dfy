/** The page allocator in place: words of bitmap and descriptors updated by the loops
    of mm/mm.c, proved against the sections and banks of values. */
module PageKernel {
  import opened Bitops
  import opened PageAlloc
  import opened PageBank
  import PageRuns

  class SectionCell {
    const nr: nat
    const phys: nat
    const virt: nat
    const id: nat
    const bitmap: array<bv32>
    const table: array<Page>
    const tableAt: nat        // where page_table is, counted in descriptors
    var cur: nat
    var free: int

    ghost predicate Valid()
      reads this, bitmap
    {
      && nr <= 32 * bitmap.Length && table.Length == nr && (nr > 0 ==> cur < nr) && tableAt > 0
      && (bitmap as object) != (table as object)
    }

    ghost function Bitmap(): seq<bool>
      requires nr <= 32 * bitmap.Length
      reads this, bitmap
    {
      Bits(bitmap[..])[..nr]
    }

    ghost function View(): (s: Section)
      requires Valid()
      reads this, bitmap, table
      ensures Shaped(s)
    {
      Section(Bitmap(), table[..], cur, free, phys, virt, id)
    }

    /** update_memory_bitmap. */
    method UpdateMemoryBitmap(index: nat, count: nat, update: bool)
      requires nr <= 32 * bitmap.Length && index + count <= nr
      modifies bitmap
      ensures Bitmap() == Fill(old(Bitmap()), index, count, update)
    {
      hide Bits, Fill;
      var i := index;
      while i < index + count
        invariant index <= i <= index + count
        invariant Bitmap() == Fill(old(Bitmap()), index, i - index, update)
      {
        WriteBit(bitmap, i, update);
        i := i + 1;
      }
    }

    /** init_pages. */
    method InitPages(index: nat, count: nat, flag: nat)
      requires Valid() && index + count <= nr
      modifies table
      ensures table[..] == PageAlloc.InitPages(old(View()), index, count, flag)
    {
      hide Bits;
      var i, n, header, pa := 0, count, true, phys + index * PAGE_SIZE;
      var va, step := virt + index * PAGE_SIZE, PAGE_SIZE;
      if UserFlag(flag) { va, step := 0, 0; }
      while i < count
        invariant 0 <= i <= count
        invariant pa == phys + (index + i) * PAGE_SIZE
        invariant n == (if i == 0 then count else 0) && header == (i == 0)
        invariant forall k :: 0 <= k < nr ==>
          table[k] == if index <= k < index + i then NewPage(old(View()), index, count, flag, k) else old(table[k])
      {
        table[index + i] := Page(header, flag, n % COUNT_LIMIT, pa + id, va + i * step);
        pa := pa + PAGE_SIZE;
        n, header := 0, false;
        i := i + 1;
      }
    }

    /** update_boot_section_info. */
    method UpdateBootSectionInfo(size: nat)
      requires Valid() && size < nr
      modifies this, bitmap, table
      ensures Valid() && View() == Booted(old(View()), size)
    {
      hide Bits, Fill;
      var i, address := 0, virt;
      while i < size
        invariant 0 <= i <= size && address == virt + i * PAGE_SIZE
        invariant Bitmap() == Fill(old(Bitmap()), 0, i, true)
        invariant forall k :: 0 <= k < nr ==> table[k] == if k < i then BootPage(old(View()), k) else old(table[k])
        invariant cur == old(cur) && free == old(free)
      {
        WriteBit(bitmap, i, true);
        table[i] := Page(false, 1, 1, address - virt + phys, address);
        address := address + PAGE_SIZE;
        i := i + 1;
      }
      cur := size;
      free := free - size;
    }

    /** get_free_pages_from_section, which returns the address of the run or that of its
        descriptor. */
    method GetFreePages(count: nat, flag: nat, vp: bool) returns (r: int, ret: nat)
      requires Valid() && nr > 0 && Stops(Bitmap(), false, cur, count)
      modifies this, bitmap, table
      ensures Valid() && r == Place(old(View()), count)
      ensures ret == if r < 0 then 0 else if vp then virt + r * PAGE_SIZE else tableAt + r
      ensures r < 0 ==> View() == old(View())
      ensures r >= 0 ==> r + count <= nr && View() == Take(old(View()), r, count, flag)
    {
      hide Bits, Search, Stops, Finds, RunAt, NoRun, PageAlloc.InitPages;
      ghost var s := View();
      ret := 0;
      r := FindFreeBase(bitmap, cur, 0, nr, count);
      FindsIs(s.bits, false, cur, count, r);
      if r < 0 { return; }
      PlaceIs(s, count);
      RunFits(s.bits, false, r, count);
      UpdateMemoryBitmap(r, count, true);
      cur := r + count;
      if cur >= nr { cur := 0; }
      free := free - count;
      SameInit(s, View(), r, count, flag);
      InitPages(r, count, flag);
      ret := if vp then virt + r * PAGE_SIZE else tableAt + r;
    }

    /** update_bm_current. */
    method UpdateBmCurrent()
      requires nr <= 32 * bitmap.Length && cur <= nr && Anchored(Bitmap(), cur)
      modifies this`cur
      ensures cur == Back(Bitmap(), old(cur)) && cur <= old(cur)
    {
      hide Bits;
      if cur == 0 { return; }
      var count, start := 0, cur - 1;
      var bit := ReadBit(bitmap, start);
      while bit == 0
        invariant 0 <= start == cur - 1 - count < nr
        invariant cur == old(cur) && Anchored(Bitmap(), start + 1) && Back(Bitmap(), start + 1) == Back(Bitmap(), cur)
        invariant bit == if Bits(bitmap[..])[start] then 1 else 0
        decreases start
      {
        count := count + 1;
        start := start - 1;
        assert Anchored(Bitmap(), start + 1);
        bit := ReadBit(bitmap, start);
      }
      cur := cur - count;
    }

    /** __free_pages behind the header test of _free_pages, on page k. */
    method FreePages(k: nat)
      requires Valid() && k < nr
      requires table[k].header ==> k + table[k].count <= nr && Anchored(Fill(Bitmap(), k, table[k].count, false), cur)
      modifies this`cur, bitmap
      ensures Valid() && View() == Give(old(View()), k)
    {
      hide Bits, Back, Fill;
      if !table[k].header { return; }
      UpdateMemoryBitmap(k, table[k].count, false);
      UpdateBmCurrent();
    }
  }

  lemma SameInit(s: Section, t: Section, r: nat, count: nat, flag: nat)
    requires s.pages == t.pages && s.phys == t.phys && s.virt == t.virt && s.id == t.id
    ensures PageAlloc.InitPages(s, r, count, flag) == PageAlloc.InitPages(t, r, count, flag)
  {
  }

  lemma RunFits(b: seq<bool>, v: bool, r: nat, count: nat)
    requires RunAt(b, v, r, count)
    ensures r + count <= |b|
  {
  }

  /** get_zone_id. */
  method GetZoneId(flag: nat) returns (i: nat)
    requires flag % 256 > 0
    ensures i == ZoneOf(flag) && Asks(flag, i)
  {
    ZoneIs(flag, ZoneOf(flag));
    var f := flag % 256;
    i := 0;
    while f != 1
      invariant f > 0 && i + TopBit(f) == ZoneOf(flag)
      decreases f
    {
      f := f / 2;
      i := i + 1;
    }
  }

  lemma OneSection(b: Bank, z: nat, count: nat, id: nat)
    requires BankShaped(b) && z < ZONES && id < ZONE_SECTIONS && PageRuns.SectionsStop(b, z, count, id)
    ensures var s := b.secs[4 * z + id];
      && PickSection(b, z, count, ZONE_SECTIONS) == ZONE_SECTIONS
      && (s.bits != [] && s.free >= count ==> Stops(s.bits, false, s.cur, count))
      && (if HasRoom(s, count) then PickSection(b, z, count, id) == id
          else PickSection(b, z, count, id) == PickSection(b, z, count, id + 1) && PageRuns.SectionsStop(b, z, count, id + 1))
  {
    hide Stops, Place;
  }

  lemma OneZone(b: Bank, z: nat, count: nat, vp: bool)
    requires BankShaped(b) && z < ZONES && PageRuns.Returns(b, z, count)
    requires PickZone(b, z, count) < ZONES ==> ZoneReports(b, PickZone(b, z, count), count, vp)
    ensures ZoneReports(b, z, count, vp) && (b.free[z] >= count ==> PageRuns.SectionsStop(b, z, count, 0))
    ensures if ZoneServes(b, z, count) then PickZone(b, z, count) == z
            else if z == ZONE_RES then PickZone(b, z, count) == ZONES
            else PickZone(b, z, count) == PickZone(b, NextZone(z), count) && PageRuns.Returns(b, NextZone(z), count)
  {
    hide ZoneServes, Picked, PageRuns.SectionsStop;
  }

  lemma PickedIn(b: Bank, z: nat, count: nat)
    requires BankShaped(b) && z < ZONES && ZoneServes(b, z, count)
    ensures Picked(b, z, count) / ZONE_SECTIONS == z
  {
  }

  class BankCell {
    const secs: seq<SectionCell>
    const free: array<int>

    ghost function Parts(): set<object>
      reads this
    {
      (set j | 0 <= j < |secs| :: secs[j] as object) + (set j | 0 <= j < |secs| :: secs[j].bitmap as object)
        + (set j | 0 <= j < |secs| :: secs[j].table as object)
    }

    /** No two sections share storage. */
    ghost predicate Apart()
      reads this
    {
      && (forall i, j :: 0 <= i < j < |secs| ==> secs[i] != secs[j])
      && (forall i, j :: 0 <= i < j < |secs| ==> secs[i].bitmap != secs[j].bitmap)
      && (forall i, j :: 0 <= i < j < |secs| ==> secs[i].table != secs[j].table)
      && (forall i, j :: 0 <= i < |secs| && 0 <= j < |secs| ==> (secs[i].bitmap as object) != (secs[j].table as object))
      && (free as object) !in Parts()
    }

    ghost predicate Valid()
      reads this, Parts(), free
    {
      && |secs| == ZONES * ZONE_SECTIONS && free.Length == ZONES && Apart()
      && forall j :: 0 <= j < |secs| ==> secs[j].Valid()
    }

    ghost function View(): (b: Bank)
      requires Valid()
      reads this, Parts(), free
      ensures BankShaped(b)
    {
      Bank(seq(|secs|, j requires 0 <= j < |secs| && secs[j].Valid() reads this, Parts() => secs[j].View()), free[..])
    }

    /** Section j is asked for the run; the other sections stay as they are. */
    method AskSection(j: nat, count: nat, flag: nat, vp: bool) returns (r: int, ret: nat)
      requires Valid() && j < |secs| && secs[j].nr > 0 && Stops(View().secs[j].bits, false, secs[j].cur, count)
      modifies Parts()
      ensures Valid() && r == Place(old(View()).secs[j], count)
      ensures r < 0 ==> View() == old(View())
      ensures r >= 0 ==> r + count <= secs[j].nr
      ensures ret == if r < 0 then 0 else if vp then secs[j].virt + r * PAGE_SIZE else secs[j].tableAt + r
      ensures r >= 0 ==>
        View() == old(View()).(secs := old(View()).secs[j := Take(old(View()).secs[j], r, count, flag)])
    {
      hide Search, Stops, Take;
      r, ret := secs[j].GetFreePages(count, flag, vp);
    }

    lemma Seen(j: nat)
      requires Valid() && j < ZONES * ZONE_SECTIONS
      ensures |View().secs| == |secs| == ZONES * ZONE_SECTIONS && View().secs[j] == secs[j].View()
      ensures |View().secs[j].bits| == secs[j].nr && View().secs[j].free == secs[j].free && View().secs[j].cur == secs[j].cur
      ensures secs[j].tableAt > 0 && View().secs[j].virt == secs[j].virt
      ensures View().secs[j].pages == secs[j].table[..] && |secs[j].table[..]| == secs[j].nr
    {
    }

    lemma SeenFree(z: nat)
      requires Valid() && z < ZONES
      ensures |View().free| == free.Length == ZONES && View().free[z] == free[z]
    {
    }

    /** The search through the sections of a zone. */
    method AskSections(z: nat, count: nat, flag: nat, vp: bool) returns (j: int, r: int, ret: nat)
      requires Valid() && z < ZONES && PageRuns.SectionsStop(View(), z, count, 0)
      requires var id := PickSection(View(), z, count, 0);
        id < ZONE_SECTIONS ==> Reported(View().secs[4 * z + id], count, vp)
      modifies Parts()
      ensures Valid() && (j >= 0 <==> PickSection(old(View()), z, count, 0) < ZONE_SECTIONS)
      ensures j < 0 ==> View() == old(View())
      ensures j >= 0 ==> j == 4 * z + PickSection(old(View()), z, count, 0) && r == Place(old(View()).secs[j], count)
      ensures j >= 0 ==> r + count <= |old(View()).secs[j].bits|
      ensures ret != 0 <==> j >= 0
      ensures ret == if j < 0 then 0 else if vp then secs[j].virt + r * PAGE_SIZE else secs[j].tableAt + r
      ensures j >= 0 ==>
        View() == old(View()).(secs := old(View()).secs[j := Take(old(View()).secs[j], r, count, flag)])
    {
      hide Place, Stops, Take, Valid, View, SectionCell.View, SectionCell.Valid, Apart, BankShaped;
      hide PickSection, PageRuns.SectionsStop;
      ghost var b := View();
      j, r, ret := -1, -1, 0;
      var id := 0;
      Seen(0);
      while id < ZONE_SECTIONS
        invariant 0 <= id <= ZONE_SECTIONS && j < 0 && ret == 0
        invariant Valid() && View() == b && PageRuns.SectionsStop(b, z, count, id)
        invariant PickSection(b, z, count, 0) == PickSection(b, z, count, id)
      {
        Seen(4 * z + id);
        OneSection(b, z, count, id);
        var cell := secs[4 * z + id];
        if cell.nr > 0 {
          if cell.free >= count {
            r, ret := AskSection(4 * z + id, count, flag, vp);
            if ret != 0 {
              j := 4 * z + id;
              break;
            }
          }
        }
        id := id + 1;
      }
    }

    /** __get_free_pages_from_zone. */
    method GetFromZone(z: nat, count: nat, flag: nat, vp: bool) returns (j: int, r: int, ret: nat)
      requires Valid() && z < ZONES && (free[z] >= count ==> PageRuns.SectionsStop(View(), z, count, 0))
      requires ZoneReports(View(), z, count, vp)
      modifies Parts(), free
      ensures Valid() && (j >= 0 <==> ZoneServes(old(View()), z, count))
      ensures j < 0 ==> View() == old(View())
      ensures j >= 0 ==> j == Picked(old(View()), z, count) && r == Place(old(View()).secs[j], count)
      ensures j >= 0 ==> View() == Served(old(View()), z, count, flag)
      ensures ret == if j < 0 then 0 else if vp then secs[j].virt + r * PAGE_SIZE else secs[j].tableAt + r
      ensures ret != 0 <==> j >= 0
    {
      hide Place, Take, PickSection, PageRuns.SectionsStop, SectionCell.View;
      j, r, ret := -1, -1, 0;
      if free[z] < count { return; }
      j, r, ret := AskSections(z, count, flag, vp);
      if ret != 0 { free[z] := free[z] - count; }
    }

    /** __get_free_pages: the section, the index of the run, and what the caller is told. */
    method GetFreePages(count: nat, flag: nat, vp: bool) returns (j: int, r: int, ret: nat)
      requires Valid() && flag % 256 > 0
      requires ZoneOf(flag) < ZONES ==> PageRuns.Returns(View(), ZoneOf(flag), count)
      requires ZoneOf(flag) < ZONES && PickZone(View(), ZoneOf(flag), count) < ZONES ==>
        ZoneReports(View(), PickZone(View(), ZoneOf(flag), count), count, vp)
      modifies Parts(), free
      ensures Valid() && View() == Obtain(old(View()), count, flag)
      ensures j >= 0 <==> ZoneOf(flag) < ZONES && PickZone(old(View()), ZoneOf(flag), count) < ZONES
      ensures j >= 0 ==>
        j == Picked(old(View()), PickZone(old(View()), ZoneOf(flag), count), count) && r == Place(old(View()).secs[j], count)
      ensures ret == if j < 0 then 0 else if vp then secs[j].virt + r * PAGE_SIZE else secs[j].tableAt + r
      ensures ret != 0 <==> j >= 0
      ensures forall z :: 0 <= z < ZONES && Asks(flag, z) && ZoneServes(old(View()), z, count) ==> j / ZONE_SECTIONS == z
    {
      hide PageRuns.SectionsStop, PageRuns.Returns, ZoneServes, ZoneReports, ZoneOf, Served, Picked, PickZone, Place, Valid, View;
      ghost var b := View();
      forall z | 0 <= z < ZONES && Asks(flag, z) && ZoneServes(b, z, count)
        ensures ZoneOf(flag) == z && PickZone(b, z, count) == z && Picked(b, z, count) / ZONE_SECTIONS == z
      {
        ServedWhereAsked(b, count, flag, z);
        PickedIn(b, z, count);
      }
      j, r, ret := -1, -1, 0;
      var id := GetZoneId(flag);
      if id >= ZONES { return; }
      while true
        invariant 0 <= id < ZONES && j < 0 && ret == 0 && Valid() && View() == b
        invariant PageRuns.Returns(b, id, count)
        invariant PickZone(b, id, count) == PickZone(b, ZoneOf(flag), count)
        decreases Rank(id)
      {
        OneZone(b, id, count, vp);
        SeenFree(id);
        j, r, ret := GetFromZone(id, count, flag, vp);
        if ret != 0 { break; }
        var next := if id == ZONE_USER then -1 else id;
        if next == ZONE_RES { break; }
        id := next + 1;
      }
    }

    /** _free_pages, on page k of section j. */
    method FreePages(j: nat, k: nat)
      requires Valid() && j < |secs| && k < secs[j].nr
      requires var p := secs[j].table[k];
        p.header ==>
          && k + p.count <= secs[j].nr && p.flag % 256 > 0 && ZoneOf(p.flag) < ZONES
          && Anchored(Fill(secs[j].Bitmap(), k, p.count, false), secs[j].cur)
      modifies Parts(), free
      ensures Valid() && View() == Restore(old(View()), j, k)
    {
      hide Fill, Give, ZoneOf, Back, Anchored, SectionCell.View;
      Seen(j);
      var cell := secs[j];
      var p := cell.table[k];
      if !p.header { return; }
      var z := GetZoneId(p.flag);
      free[z] := free[z] + p.count;
      cell.FreePages(k);
    }
  }
}
