/** kmalloc and kfree (mm/slab.c): size-class free lists threaded through block
    headers, and a bump region from which new blocks are cut. */
module Slab {
  import opened Lists

  const HEADER := 8              // sizeof(struct slab_header)
  const MAGIC := 0x1234abcd
  const UNIT := 16               // pool[0].size
  const NPOOL := 33
  const PAGE_SIZE := 4096
  const MIN_BLOCK := HEADER + UNIT

  type Addr = nat

  /** A block header: its size, and either the magic word (block in use) or the
      next free block of the same pool. */
  datatype Header = Header(size: nat, word: nat)

  type Heap = map<Addr, Header>

  function AllocSize(size: nat): nat { (size + UNIT - 1) / UNIT * UNIT }

  function PoolId(size: nat): nat
    requires size >= UNIT
  {
    var id := size / UNIT - 1;
    if id >= NPOOL then NPOOL - 1 else id
  }

  /** The size class of a request is the least multiple of 16 that is not below it. */
  lemma RoundsUp(size: nat)
    ensures var n := AllocSize(size);
      size <= n && n % 16 == 0 && forall m: nat :: m % 16 == 0 && m >= size ==> m >= n
  {
    var n := AllocSize(size);
    forall m: nat | m % 16 == 0 && m >= size ensures m >= n { Multiples(m / 16, (size + 15) / 16, size); }
  }

  lemma Multiples(i: nat, j: nat, size: nat)
    requires 16 * i >= size && j == (size + 15) / 16
    ensures i >= j
  {
  }

  /** The pools are the classes of 16 bytes from 16 on; the last one has no upper end. */
  lemma PoolIs(size: nat, k: nat)
    requires size >= UNIT
    ensures k < 32 ==> (PoolId(size) == k <==> 16 * k + 16 <= size < 16 * k + 32)
    ensures PoolId(size) == 32 <==> size >= 528
    ensures PoolId(size) < NPOOL
  {
  }

  // ---- free lists ------------------------------------------------------------

  /** The list that starts at head and follows the header words. */
  ghost predicate Linked(hdr: Heap, head: nat, l: seq<Addr>)
    decreases |l|
  {
    if l == [] then head == 0
    else head == l[0] && l[0] in hdr && Linked(hdr, hdr[l[0]].word, l[1..])
  }

  lemma {:induction false} LinkedSame(hdr: Heap, other: Heap, head: nat, l: seq<Addr>)
    requires Linked(hdr, head, l)
    requires forall h :: h in l ==> h in other && h in hdr && other[h].word == hdr[h].word
    ensures Linked(other, head, l)
    decreases |l|
  {
    if l != [] { LinkedSame(hdr, other, hdr[l[0]].word, l[1..]); }
  }

  /** Pool k: a list without repetition of free blocks whose sizes belong to k. */
  ghost predicate PoolOk(hdr: Heap, head: nat, l: seq<Addr>, k: nat) {
    && Linked(hdr, head, l) && NoDup(l)
    && forall h :: h in l ==>
         h in hdr && hdr[h].size >= UNIT && PoolId(hdr[h].size) == k && hdr[h].word != MAGIC
  }

  // ---- tiles -------------------------------------------------------------------

  function End(hdr: Heap, h: Addr): nat
    requires h in hdr
  {
    h + HEADER + hdr[h].size
  }

  /** The blocks l lie one behind the other from a to b. */
  ghost predicate Tiles(hdr: Heap, l: seq<Addr>, a: nat, b: nat) {
    if l == [] then a == b else
      var h := l[|l| - 1];
      h in hdr && a <= h && Tiles(hdr, l[..|l| - 1], a, h) && b == End(hdr, h)
  }

  lemma {:induction false} TilesSame(hdr: Heap, other: Heap, l: seq<Addr>, a: nat, b: nat)
    requires Tiles(hdr, l, a, b)
    requires forall h :: h in l ==> h in hdr && h in other && other[h].size == hdr[h].size
    ensures Tiles(other, l, a, b)
  {
    if l != [] {
      var h := l[|l| - 1];
      assert forall x :: x in l[..|l| - 1] ==> x in l;
      TilesSame(hdr, other, l[..|l| - 1], a, h);
    }
  }

  lemma TilesAppend(hdr: Heap, l: seq<Addr>, a: nat, b: nat)
    requires Tiles(hdr, l, a, b) && b in hdr && a <= b
    ensures Tiles(hdr, l + [b], a, End(hdr, b))
  {
    assert (l + [b])[..|l|] == l;
  }

  ghost function Sum(hdr: Heap, l: seq<Addr>): nat
    requires forall h :: h in l ==> h in hdr
  {
    if l == [] then 0 else Sum(hdr, l[..|l| - 1]) + HEADER + hdr[l[|l| - 1]].size
  }

  /** Tiles lie within their range and their sizes add up to it. */
  lemma {:induction false} TilesBound(hdr: Heap, l: seq<Addr>, a: nat, b: nat)
    requires Tiles(hdr, l, a, b)
    ensures a <= b
    ensures forall h :: h in l ==> h in hdr && a <= h && End(hdr, h) <= b
    ensures Sum(hdr, l) == b - a
  {
    if l != [] {
      var h := l[|l| - 1];
      TilesBound(hdr, l[..|l| - 1], a, h);
      assert l == l[..|l| - 1] + [h];
    }
  }

  ghost predicate Covers(hdr: Heap, h: Addr, x: nat) {
    h in hdr && h <= x < End(hdr, h)
  }

  /** Every byte of the range is in exactly one tile. */
  lemma {:induction false} TilesCover(hdr: Heap, l: seq<Addr>, a: nat, b: nat, x: nat)
    requires Tiles(hdr, l, a, b) && a <= x < b
    ensures exists h :: h in l && Covers(hdr, h, x)
    ensures forall h, g :: h in l && g in l && Covers(hdr, h, x) && Covers(hdr, g, x) ==> h == g
  {
    var h := l[|l| - 1];
    var front := l[..|l| - 1];
    TilesBound(hdr, front, a, h);
    assert l == front + [h];
    if x < h {
      TilesCover(hdr, front, a, h, x);
      var g :| g in front && Covers(hdr, g, x);
      assert g in l;
    } else {
      assert Covers(hdr, h, x) && h in l;
    }
  }

  // ---- the allocator's data --------------------------------------------------------

  datatype Region = Region(base: Addr, len: nat)

  ghost predicate Apart(r: Region, q: Region) {
    r.base + r.len <= q.base || q.base + q.len <= r.base
  }

  /** The pools and the bump region, with what they stand for: the list in each
      pool, the pages requested so far, and the blocks cut from each page. */
  datatype View = View(hdr: Heap, heads: seq<nat>, slabFree: nat, freeSize: nat, allocSize: nat,
                       lists: seq<seq<Addr>>, pages: seq<Region>, tiles: seq<seq<Addr>>,
                       home: map<Addr, nat>)

  ghost predicate HeadersOk(v: View) {
    forall h :: h in v.hdr ==>
      h > 0 && h % 8 == 0 && v.hdr[h].size % 8 == 0 && v.hdr[h].size >= UNIT
  }

  /** Pool k holds exactly the free blocks whose size belongs to k. */
  ghost predicate PoolsOk(v: View) {
    && |v.heads| == NPOOL && |v.lists| == NPOOL
    && (forall k :: 0 <= k < NPOOL ==> PoolOk(v.hdr, v.heads[k], v.lists[k], k))
    && (forall h :: h in v.hdr && v.hdr[h].word != MAGIC && v.hdr[h].size >= UNIT ==>
          h in v.lists[PoolId(v.hdr[h].size)])
  }

  /** Where the blocks of page i end: before the bump region in the last page. */
  ghost function TileEnd(v: View, i: nat): int
    requires i < |v.pages|
  {
    v.pages[i].base + v.pages[i].len - (if i == |v.pages| - 1 then v.freeSize else 0)
  }

  ghost predicate PageOk(v: View, i: nat)
    requires i < |v.pages| == |v.tiles|
  {
    && v.pages[i].base > 0 && v.pages[i].base % 8 == 0 && v.pages[i].len % 8 == 0
    && TileEnd(v, i) >= 0 && Tiles(v.hdr, v.tiles[i], v.pages[i].base, TileEnd(v, i))
  }

  /** Each page is cut into blocks without gap or overlap, up to the bump
      region, which is empty or large enough for a block. */
  ghost predicate LayoutOk(v: View) {
    && |v.pages| == |v.tiles|
    && (forall i :: 0 <= i < |v.pages| ==> PageOk(v, i))
    && (forall i, j :: 0 <= i < j < |v.pages| ==> Apart(v.pages[i], v.pages[j]))
    && v.freeSize % 8 == 0 && (v.freeSize == 0 || v.freeSize >= MIN_BLOCK)
    && (v.freeSize > 0 ==> v.pages != [] && v.slabFree == TileEnd(v, |v.pages| - 1))
    && v.home.Keys == v.hdr.Keys
    && (forall h :: h in v.home ==> v.home[h] < |v.tiles| && h in v.tiles[v.home[h]])
    && (forall i, h :: 0 <= i < |v.tiles| && h in v.tiles[i] ==> h in v.home && v.home[h] == i)
    && v.allocSize == Total(v.pages)
  }

  ghost function Total(pages: seq<Region>): nat {
    if pages == [] then 0 else Total(pages[..|pages| - 1]) + pages[|pages| - 1].len
  }

  ghost predicate Valid(v: View) { HeadersOk(v) && PoolsOk(v) && LayoutOk(v) }

  /** slab_init before its first page. */
  function Empty(): View {
    View(map[], seq(NPOOL, _ => 0), 0, 0, 0, seq(NPOOL, _ => []), [], [], map[])
  }

  // ---- the steps ---------------------------------------------------------------------

  /** get_slab_from_slab_pool. */
  ghost function Take(v: View, k: nat): View
    requires k < |v.heads| == |v.lists| && v.heads[k] in v.hdr && v.lists[k] != []
  {
    var h := v.heads[k];
    v.(heads := v.heads[k := v.hdr[h].word], lists := v.lists[k := v.lists[k][1..]],
       hdr := v.hdr[h := v.hdr[h].(word := MAGIC)])
  }

  /** add_slab_to_slab_pool. */
  ghost function Give(v: View, h: Addr): View
    requires h in v.hdr && v.hdr[h].size >= UNIT && |v.heads| == |v.lists| == NPOOL
  {
    var k := PoolId(v.hdr[h].size);
    v.(heads := v.heads[k := h], lists := v.lists[k := [h] + v.lists[k]],
       hdr := v.hdr[h := v.hdr[h].(word := v.heads[k])])
  }

  /** A new block of the given size at the start of the bump region, in use. */
  ghost function Cut(v: View, size: nat): View
    requires v.tiles != [] && HEADER + size <= v.freeSize
  {
    var h, last := v.slabFree, |v.tiles| - 1;
    var rest := v.freeSize - (HEADER + size);
    v.(hdr := v.hdr[h := Header(size, MAGIC)],
       slabFree := if rest == 0 then 0 else h + HEADER + size, freeSize := rest,
       tiles := v.tiles[last := v.tiles[last] + [h]], home := v.home[h := last])
  }

  /** get_slab_from_slab_free: a remainder too small for a block goes along. */
  ghost function Carve(v: View, size: nat): View
    requires v.tiles != [] && HEADER + size <= v.freeSize
  {
    var rest := v.freeSize - (HEADER + size);
    Cut(v, if rest < MIN_BLOCK then size + rest else size)
  }

  /** The first part of __get_new_slab: the bump region becomes a free block. */
  ghost function Recycle(v: View): View
    requires v.tiles != [] && MIN_BLOCK <= v.freeSize && |v.heads| == |v.lists| == NPOOL
  {
    Give(Cut(v, v.freeSize - HEADER), v.slabFree)
  }

  /** alloc_new_slab_cache. */
  ghost function AddPage(v: View, r: Region): View {
    v.(slabFree := r.base, freeSize := r.len, allocSize := v.allocSize + r.len,
       pages := v.pages + [r], tiles := v.tiles + [[]])
  }

  // ---- each step keeps the structure ----------------------------------------------------

  lemma HeadOf(v: View, k: nat)
    requires Valid(v) && k < NPOOL
    ensures v.heads[k] == 0 <==> v.lists[k] == []
    ensures v.heads[k] != 0 ==> v.heads[k] == v.lists[k][0] && v.heads[k] in v.hdr
  {
    assert PoolOk(v.hdr, v.heads[k], v.lists[k], k);
    if v.lists[k] != [] { assert v.lists[k][0] in v.hdr; }
  }

  lemma TakeKeeps(v: View, k: nat)
    requires Valid(v) && k < NPOOL && v.heads[k] != 0
    ensures v.heads[k] in v.hdr && v.lists[k] != [] && Valid(Take(v, k))
  {
    hide PoolsOk, LayoutOk;
    HeadOf(v, k);
    ValidShape(v);
    TakeKeepsPools(v, k);
    SizesKeepLayout(v, Take(v, k));
  }

  lemma TakeKeepsPools(v: View, k: nat)
    requires HeadersOk(v) && PoolsOk(v) && k < NPOOL && v.heads[k] in v.hdr && v.lists[k] != []
    ensures PoolsOk(Take(v, k))
  {
    var h, r := v.heads[k], Take(v, k);
    assert PoolOk(v.hdr, v.heads[k], v.lists[k], k);
    assert h == v.lists[k][0];
    forall j | 0 <= j < NPOOL ensures PoolOk(r.hdr, r.heads[j], r.lists[j], j) {
      assert PoolOk(v.hdr, v.heads[j], v.lists[j], j);
      if j == k {
        assert v.lists[k] == [h] + v.lists[k][1..];
        LinkedSame(v.hdr, r.hdr, v.hdr[h].word, v.lists[k][1..]);
      } else {
        LinkedSame(v.hdr, r.hdr, v.heads[j], v.lists[j]);
      }
    }
  }

  /** Only headers' words changed: the layout is the same. */
  lemma SizesKeepLayout(v: View, r: View)
    requires LayoutOk(v) && r == v.(hdr := r.hdr, heads := r.heads, lists := r.lists)
    requires r.hdr.Keys == v.hdr.Keys && forall h :: h in v.hdr ==> r.hdr[h].size == v.hdr[h].size
    ensures LayoutOk(r)
  {
    hide Tiles;
    forall i | 0 <= i < |r.pages| ensures PageOk(r, i) { PageKept(v, r, i); }
    hide PageOk, Total;
  }

  lemma PageKept(v: View, r: View, i: nat)
    requires LayoutOk(v) && r == v.(hdr := r.hdr, heads := r.heads, lists := r.lists) && i < |v.pages|
    requires r.hdr.Keys == v.hdr.Keys && forall h :: h in v.hdr ==> r.hdr[h].size == v.hdr[h].size
    ensures PageOk(r, i)
  {
    assert PageOk(v, i);
    forall h | h in v.tiles[i] ensures h in v.hdr { assert h in v.home; }
    hide LayoutOk, Total;
    TilesSame(v.hdr, r.hdr, v.tiles[i], v.pages[i].base, TileEnd(v, i));
  }

  lemma GiveKeepsPools(v: View, h: Addr)
    requires HeadersOk(v) && PoolsOk(v) && h in v.hdr && v.hdr[h].word == MAGIC
    ensures PoolsOk(Give(v, h))
  {
    var k, r := PoolId(v.hdr[h].size), Give(v, h);
    FreeWord(v, k);
    forall j | 0 <= j < NPOOL ensures PoolOk(r.hdr, r.heads[j], r.lists[j], j) {
      assert PoolOk(v.hdr, v.heads[j], v.lists[j], j);
      LinkedSame(v.hdr, r.hdr, v.heads[j], v.lists[j]);
      if j == k { assert ([h] + v.lists[k])[1..] == v.lists[k]; }
    }
  }

  /** A pointer is never the magic word: blocks are aligned to 8 bytes. */
  lemma FreeWord(v: View, k: nat)
    requires HeadersOk(v) && PoolsOk(v) && k < NPOOL
    ensures v.heads[k] != MAGIC
  {
    assert PoolOk(v.hdr, v.heads[k], v.lists[k], k);
    if v.lists[k] != [] { assert v.heads[k] in v.hdr; }
  }

  lemma GiveKeeps(v: View, h: Addr)
    requires Valid(v) && h in v.hdr && v.hdr[h].word == MAGIC
    ensures v.hdr[h].size >= UNIT && |v.heads| == |v.lists| == NPOOL
    ensures Valid(Give(v, h)) && Give(v, h).hdr[h].word != MAGIC
  {
    hide PoolsOk, LayoutOk;
    ValidShape(v);
    GiveKeepsPools(v, h);
    FreeWord(v, PoolId(v.hdr[h].size));
    SizesKeepLayout(v, Give(v, h));
  }

  /** The bump region lies behind every block of its page and outside the
      others, so no header is there yet. */
  lemma BumpIsNew(v: View)
    requires LayoutOk(v) && v.freeSize > 0
    ensures v.tiles != [] && v.slabFree !in v.hdr && v.slabFree > 0 && v.slabFree % 8 == 0
  {
    var last := |v.pages| - 1;
    assert PageOk(v, last);
    TilesBound(v.hdr, v.tiles[last], v.pages[last].base, TileEnd(v, last));
    TilesAligned(v, last);
    forall h | h in v.hdr ensures h != v.slabFree { HomeBound(v, h); }
  }

  /** A block lies in the page it was cut from. */
  lemma HomeBound(v: View, h: Addr)
    requires LayoutOk(v) && h in v.hdr
    ensures v.home[h] < |v.pages| == |v.tiles|
    ensures v.pages[v.home[h]].base <= h && End(v.hdr, h) <= TileEnd(v, v.home[h])
    ensures v.freeSize > 0 && v.home[h] < |v.pages| - 1 ==> Apart(v.pages[v.home[h]], v.pages[|v.pages| - 1])
  {
    assert PageOk(v, v.home[h]);
    TilesBound(v.hdr, v.tiles[v.home[h]], v.pages[v.home[h]].base, TileEnd(v, v.home[h]));
  }

  lemma TilesAligned(v: View, i: nat)
    requires LayoutOk(v) && i < |v.pages|
    ensures TileEnd(v, i) % 8 == 0
  {
    assert PageOk(v, i);
  }

  lemma ValidShape(v: View)
    requires Valid(v)
    ensures |v.heads| == |v.lists| == NPOOL && |v.pages| == |v.tiles|
    ensures v.freeSize % 8 == 0 && (v.freeSize == 0 || v.freeSize >= MIN_BLOCK)
    ensures forall h :: h in v.hdr ==> v.hdr[h].size >= UNIT
  {
  }

  lemma CutKeepsPools(v: View, size: nat)
    requires HeadersOk(v) && PoolsOk(v) && v.tiles != [] && HEADER + size <= v.freeSize
    requires v.slabFree !in v.hdr
    ensures PoolsOk(Cut(v, size))
  {
    var r := Cut(v, size);
    forall j | 0 <= j < NPOOL ensures PoolOk(r.hdr, r.heads[j], r.lists[j], j) {
      assert PoolOk(v.hdr, v.heads[j], v.lists[j], j);
      LinkedSame(v.hdr, r.hdr, v.heads[j], v.lists[j]);
    }
  }

  lemma CutKeepsPages(v: View, size: nat, i: nat)
    requires LayoutOk(v) && v.tiles != [] && HEADER + size <= v.freeSize && size % 8 == 0
    requires v.slabFree !in v.hdr && i < |v.pages|
    ensures PageOk(Cut(v, size), i)
  {
    var r, last := Cut(v, size), |v.tiles| - 1;
    assert PageOk(v, i);
    TilesBound(v.hdr, v.tiles[i], v.pages[i].base, TileEnd(v, i));
    TilesSame(v.hdr, r.hdr, v.tiles[i], v.pages[i].base, TileEnd(v, i));
    if i == last { TilesAppend(r.hdr, v.tiles[i], v.pages[i].base, TileEnd(v, i)); }
  }

  lemma CutKeepsHome(v: View, size: nat)
    requires LayoutOk(v) && v.tiles != [] && HEADER + size <= v.freeSize && v.slabFree !in v.hdr
    ensures var r := Cut(v, size);
      && r.home.Keys == r.hdr.Keys
      && (forall h :: h in r.home ==> r.home[h] < |r.tiles| && h in r.tiles[r.home[h]])
      && (forall i, h :: 0 <= i < |r.tiles| && h in r.tiles[i] ==> h in r.home && r.home[h] == i)
  {
    hide PageOk;
    var r, last, h := Cut(v, size), |v.tiles| - 1, v.slabFree;
    forall i, g | 0 <= i < |r.tiles| && g in r.tiles[i] ensures g in r.home && r.home[g] == i {
      assert i == last ==> g == h || g in v.tiles[last];
    }
    forall g | g in r.home ensures r.home[g] < |r.tiles| && g in r.tiles[r.home[g]] {
      assert g != h ==> g in v.tiles[v.home[g]];
    }
  }

  lemma CutKeepsLayout(v: View, size: nat)
    requires LayoutOk(v) && v.tiles != [] && HEADER + size <= v.freeSize && size % 8 == 0
    requires v.slabFree !in v.hdr
    requires v.freeSize - (HEADER + size) == 0 || v.freeSize - (HEADER + size) >= MIN_BLOCK
    ensures LayoutOk(Cut(v, size))
  {
    hide PageOk;
    CutKeepsHome(v, size);
    forall i | 0 <= i < |v.pages| ensures PageOk(Cut(v, size), i) { CutKeepsPages(v, size, i); }
  }

  lemma CutKeeps(v: View, size: nat)
    requires Valid(v) && UNIT <= size && size % 8 == 0 && HEADER + size <= v.freeSize
    requires v.freeSize - (HEADER + size) == 0 || v.freeSize - (HEADER + size) >= MIN_BLOCK
    ensures v.tiles != [] && Valid(Cut(v, size))
    ensures v.slabFree !in v.hdr && v.slabFree > 0
  {
    hide PoolsOk, LayoutOk;
    BumpIsNew(v);
    CutKeepsPools(v, size);
    CutKeepsLayout(v, size);
  }

  lemma CarveKeeps(v: View, size: nat)
    requires Valid(v) && UNIT <= size && size % 8 == 0 && HEADER + size <= v.freeSize
    ensures v.tiles != [] && Valid(Carve(v, size))
    ensures v.slabFree !in v.hdr && v.slabFree > 0
  {
    hide Valid;
    var rest := v.freeSize - (HEADER + size);
    ValidShape(v);
    CutKeeps(v, if rest < MIN_BLOCK then size + rest else size);
  }

  lemma RecycleKeeps(v: View)
    requires Valid(v) && v.freeSize >= MIN_BLOCK
    ensures v.tiles != [] && |v.heads| == |v.lists| == NPOOL
    ensures Valid(Recycle(v)) && Recycle(v).freeSize == 0
    ensures v.slabFree !in v.hdr && Recycle(v).hdr[v.slabFree].size == v.freeSize - HEADER
    ensures Recycle(v).hdr[v.slabFree].word != MAGIC
  {
    hide Valid;
    ValidShape(v);
    CutKeeps(v, v.freeSize - HEADER);
    GiveKeeps(Cut(v, v.freeSize - HEADER), v.slabFree);
  }

  lemma AddPageKeeps(v: View, r: Region)
    requires Valid(v) && v.freeSize == 0 && r.base > 0 && r.base % 8 == 0
    requires r.len % 8 == 0 && r.len >= MIN_BLOCK
    requires forall i :: 0 <= i < |v.pages| ==> Apart(v.pages[i], r)
    ensures Valid(AddPage(v, r))
  {
    hide LayoutOk, Linked;
    AddPageKeepsLayout(v, r);
    assert forall k :: 0 <= k < NPOOL ==> PoolOk(v.hdr, v.heads[k], v.lists[k], k);
  }

  lemma AddPageKeepsLayout(v: View, r: Region)
    requires LayoutOk(v) && v.freeSize == 0 && r.base > 0 && r.base % 8 == 0
    requires r.len % 8 == 0 && r.len >= MIN_BLOCK
    requires forall i :: 0 <= i < |v.pages| ==> Apart(v.pages[i], r)
    ensures LayoutOk(AddPage(v, r))
  {
    var w := AddPage(v, r);
    forall i | 0 <= i < |w.pages| ensures PageOk(w, i) {
      if i < |v.pages| { assert PageOk(v, i); }
    }
    assert w.pages[..|v.pages|] == v.pages;
  }

  // ---- kmalloc and kfree -------------------------------------------------------------------

  /** Blocks in use. */
  ghost function Live(v: View): set<Addr> { set h | h in v.hdr && v.hdr[h].word == MAGIC }

  /** The page allocator's answer: none, or a page that is not a slab page yet. */
  ghost predicate PageGiven(v: View, page: nat) {
    page == 0 || (page % PAGE_SIZE == 0 &&
                  forall i :: 0 <= i < |v.pages| ==> Apart(v.pages[i], Region(page, PAGE_SIZE)))
  }

  /** The first pool from k on that has a block, as get_big_slab looks for it. */
  function FirstPool(heads: seq<nat>, k: nat): (j: nat)
    requires k <= |heads|
    ensures k <= j <= |heads| && (j < |heads| ==> heads[j] != 0)
    ensures forall i :: k <= i < j ==> heads[i] == 0
    decreases |heads| - k
  {
    if k == |heads| || heads[k] != 0 then k else FirstPool(heads, k + 1)
  }

  /** A step's outcome: the new state and the address handed out, 0 for none. */
  datatype Got = Got(v: View, base: nat)

  ghost predicate Shaped(v: View) {
    |v.heads| == |v.lists| == NPOOL && |v.pages| == |v.tiles|
  }

  /** The first block of pool k, if it has one. */
  ghost function FromPool(v: View, k: nat): Got
    requires Shaped(v) && k < NPOOL
  {
    if v.heads[k] in v.hdr && v.lists[k] != [] then Got(Take(v, k), v.heads[k] + HEADER) else Got(v, 0)
  }

  /** __get_new_slab and, when there is no page, get_big_slab. */
  ghost function FromNew(v: View, n: nat, page: nat): Got
    requires Shaped(v) && UNIT <= n < PAGE_SIZE - HEADER
  {
    var w := if v.tiles != [] && v.freeSize >= MIN_BLOCK then Recycle(v) else v;
    if page > 0 then Got(Carve(AddPage(w, Region(page, PAGE_SIZE)), n), page + HEADER) else
      var k := FirstPool(w.heads, PoolId(n));
      if k == NPOOL then Got(w, 0) else FromPool(w, k)
  }

  /** kmalloc(size, GFP_KERNEL) below a page: exact pool, bump region, new page,
      larger pool. */
  ghost function Kmalloc(v: View, size: nat, page: nat): Got
    requires Shaped(v) && 0 < size && AllocSize(size) < PAGE_SIZE
  {
    var n := AllocSize(size);
    if v.heads[PoolId(n)] != 0 then FromPool(v, PoolId(n))
    else if v.tiles != [] && HEADER + n <= v.freeSize then Got(Carve(v, n), v.slabFree + HEADER)
    else FromNew(v, n, page)
  }

  /** v becomes r by handing out the block h: only h joins the blocks in use, and
      no block changes its size or place. */
  ghost predicate HandsOut(v: View, r: View, h: Addr) {
    && Valid(r) && h in r.hdr && h !in Live(v) && Live(r) == Live(v) + {h}
    && forall g :: g in v.hdr ==> g in r.hdr && r.hdr[g].size == v.hdr[g].size
  }

  lemma TakeHandsOut(v: View, k: nat)
    requires Valid(v) && k < |v.heads| && v.heads[k] != 0
    ensures k < NPOOL && v.heads[k] in v.hdr && v.lists[k] != []
    ensures HandsOut(v, Take(v, k), v.heads[k])
    ensures v.hdr[v.heads[k]].size >= UNIT && PoolId(v.hdr[v.heads[k]].size) == k
  {
    hide LayoutOk, HeadersOk;
    assert |v.heads| == NPOOL;
    HeadOf(v, k);
    TakeKeeps(v, k);
    assert PoolOk(v.hdr, v.heads[k], v.lists[k], k);
    hide Valid, Linked;
    assert v.heads[k] in v.lists[k];
  }

  lemma CarveHandsOut(v: View, size: nat)
    requires Valid(v) && UNIT <= size && size % 8 == 0 && HEADER + size <= v.freeSize
    ensures v.tiles != [] && HandsOut(v, Carve(v, size), v.slabFree)
    ensures v.slabFree in Carve(v, size).hdr && Carve(v, size).hdr[v.slabFree].size >= size
  {
    hide Valid;
    CarveKeeps(v, size);
  }

  /** Every block of at least the pool's size fits requests of that pool. */
  lemma PoolFits(size: nat, n: nat)
    requires size >= UNIT && UNIT <= n <= 512 && n % UNIT == 0 && PoolId(size) >= PoolId(n)
    ensures size >= n
  {
  }

  lemma SizeKept(v: View, r: View, h: Addr)
    requires HandsOut(v, r, h) && h in v.hdr
    ensures h in r.hdr && r.hdr[h].size == v.hdr[h].size
  {
  }

  /** Preparing the state first does not change what is handed out. */
  lemma ThenHandsOut(v: View, w: View, r: View, h: Addr)
    requires HandsOut(w, r, h) && Live(w) == Live(v)
    requires forall g :: g in v.hdr ==> g in w.hdr && w.hdr[g].size == v.hdr[g].size
    ensures HandsOut(v, r, h)
  {
  }

  lemma PoolHandsOut(v: View, k: nat, n: nat)
    requires Valid(v) && Shaped(v) && k < NPOOL && v.heads[k] != 0
    requires UNIT <= n && n % UNIT == 0 && PoolId(n) <= k
    ensures var r := FromPool(v, k);
      && v.heads[k] in v.hdr && r.base == v.heads[k] + HEADER && HandsOut(v, r.v, v.heads[k])
      && r.v.hdr[v.heads[k]].size == v.hdr[v.heads[k]].size
      && (n <= 512 ==> v.hdr[v.heads[k]].size >= n)
  {
    hide Valid, HandsOut;
    TakeHandsOut(v, k);
    if n <= 512 { PoolFits(v.hdr[v.heads[k]].size, n); }
    SizeKept(v, Take(v, k), v.heads[k]);
  }

  lemma PageHandsOut(v: View, n: nat, page: nat)
    requires Valid(v) && v.freeSize == 0 && UNIT <= n < PAGE_SIZE - HEADER && n % UNIT == 0
    requires page > 0 && PageGiven(v, page)
    ensures var w := AddPage(v, Region(page, PAGE_SIZE)); var r := Carve(w, n);
      HandsOut(v, r, page) && r.hdr[page].size >= n
  {
    hide Valid, HandsOut, Carve;
    ValidShape(v);
    assert page % 8 == 0;
    var w := AddPage(v, Region(page, PAGE_SIZE));
    AddPageKeeps(v, Region(page, PAGE_SIZE));
    CarveHandsOut(w, n);
    ThenHandsOut(v, w, Carve(w, n), page);
  }

  lemma FromNewHandsOut(v: View, n: nat, page: nat)
    requires Shaped(v) && Valid(v) && UNIT <= n < PAGE_SIZE - HEADER && n % UNIT == 0 && PageGiven(v, page)
    ensures var r := FromNew(v, n, page);
      if r.base == 0 then page == 0 && Valid(r.v) && Live(r.v) == Live(v)
      else
        && r.base >= HEADER && HandsOut(v, r.v, r.base - HEADER) && r.base - HEADER in r.v.hdr
        && (n <= 512 || page > 0 ==> r.v.hdr[r.base - HEADER].size >= n)
        && (n > 512 && page == 0 && v.heads[NPOOL - 1] == 0 && v.freeSize < HEADER + n ==>
              r.v.hdr[r.base - HEADER].size == v.freeSize - HEADER < n)
  {
    hide Valid, HandsOut, Recycle, Carve, AddPage, FromPool;
    ValidShape(v);
    BumpHasPage(v);
    var w := if v.tiles != [] && v.freeSize >= MIN_BLOCK then Recycle(v) else v;
    RecycledIs(v, w);
    if page > 0 {
      PageHandsOut(w, n, page);
      ThenHandsOut(v, w, FromNew(v, n, page).v, page);
    } else {
      var k := FirstPool(w.heads, PoolId(n));
      if k < NPOOL {
        PoolHandsOut(w, k, n);
        ThenHandsOut(v, w, FromPool(w, k).v, w.heads[k]);
        if n > 512 && v.heads[NPOOL - 1] == 0 { RecycledHead(v, w); }
      }
    }
  }

  /** What an empty last pool holds after recycling is the bump region. */
  lemma RecycledHead(v: View, w: View)
    requires Shaped(v) && Valid(v) && v.heads[NPOOL - 1] == 0
    requires w == if v.tiles != [] && v.freeSize >= MIN_BLOCK then Recycle(v) else v
    requires Shaped(w) && w.heads[NPOOL - 1] != 0 && w.heads[NPOOL - 1] in w.hdr
    ensures w.hdr[w.heads[NPOOL - 1]].size == v.freeSize - HEADER
  {
  }

  /** Recycling the bump region only adds a free block. */
  lemma RecycledIs(v: View, w: View)
    requires Shaped(v) && Valid(v)
    requires w == if v.tiles != [] && v.freeSize >= MIN_BLOCK then Recycle(v) else v
    ensures Valid(w) && Shaped(w) && w.freeSize == 0 && w.pages == v.pages && Live(w) == Live(v)
    ensures forall g :: g in v.hdr ==> g in w.hdr && w.hdr[g].size == v.hdr[g].size
  {
    hide Valid;
    ValidShape(v);
    BumpHasPage(v);
    if v.freeSize > 0 { RecycleKeeps(v); }
  }

  lemma BumpHasPage(v: View)
    requires Valid(v)
    ensures v.freeSize > 0 ==> v.tiles != []
  {
  }

  /** The block handed out has room for size bytes. */
  ghost predicate Holds(r: Got, size: nat) {
    r.base >= HEADER && r.base - HEADER in r.v.hdr && r.v.hdr[r.base - HEADER].size >= size
  }

  /** Whatever path it takes, kmalloc hands out one block that was not in use and is large
      enough for the bytes asked for and for their size class. The one exception is a request
      above 512 bytes: the last pool mixes sizes and its first block is taken unseen, be it one
      that was there or, without a page, the remainder of the bump region. */
  lemma KmallocHandsOut(v: View, size: nat, page: nat)
    requires Shaped(v) && Valid(v) && 0 < size && AllocSize(size) < PAGE_SIZE && PageGiven(v, page)
    ensures var r := Kmalloc(v, size, page); var n := AllocSize(size);
      && Valid(r.v)
      && (r.base == 0 ==> page == 0 && Live(r.v) == Live(v))
      && (r.base != 0 ==>
            && r.base >= HEADER && HandsOut(v, r.v, r.base - HEADER) && r.base - HEADER in r.v.hdr
            && (r.v.hdr[r.base - HEADER].size >= n <==>
                  n <= 512 ||
                  (if v.heads[NPOOL - 1] in v.hdr then v.hdr[v.heads[NPOOL - 1]].size >= n
                   else page > 0 || HEADER + n <= v.freeSize))
            && (Holds(r, size) <==>
                  size <= 512 ||
                  (if v.heads[NPOOL - 1] in v.hdr then v.hdr[v.heads[NPOOL - 1]].size >= size
                   else page > 0 || HEADER + size <= v.freeSize)))
  {
    hide Valid, HandsOut, Carve, FromNew;
    var n := AllocSize(size);
    RoundsUp(size);
    ValidShape(v);
    var k := PoolId(n);
    HeadOf(v, NPOOL - 1);
    NullIsNoBlock(v);
    BumpHasPage(v);
    if v.heads[k] != 0 {
      PoolHandsOut(v, k, n);
    } else if HEADER + n <= v.freeSize {
      CarveHandsOut(v, n);
    } else {
      FromNewHandsOut(v, n, page);
    }
    HandedValid(v, Kmalloc(v, size, page));
  }

  /** Where the block comes from: a free block of the size class if there is one, else the bump
      region, else a new page, with less than 24 bytes too many each time. Only then, and
      without a page, is a larger block taken, and kmalloc fails exactly if there is none
      either, the remainder of the bump region included. */
  lemma KmallocPlan(v: View, size: nat, page: nat)
    requires Shaped(v) && Valid(v) && 0 < size && AllocSize(size) < PAGE_SIZE && PageGiven(v, page)
    ensures var r := Kmalloc(v, size, page); var n := AllocSize(size); var k := PoolId(n);
      if v.heads[k] != 0 then
        && r.base == v.heads[k] + HEADER && r.v.pages == v.pages && r.v.freeSize == v.freeSize
        && v.heads[k] in v.hdr && (n <= 512 ==> n <= v.hdr[v.heads[k]].size < n + 16)
      else if HEADER + n <= v.freeSize then
        && r.base == v.slabFree + HEADER && r.v.pages == v.pages && Snug(r, n)
        && r.v.freeSize == v.freeSize - HEADER - r.v.hdr[v.slabFree].size
      else if page > 0 then
        && r.base == page + HEADER && r.v.pages == v.pages + [Region(page, PAGE_SIZE)] && Snug(r, n)
      else
        && r.v.pages == v.pages
        && (r.base == 0 <==>
              (forall j :: k <= j < NPOOL ==> v.heads[j] == 0) &&
              (v.freeSize > 0 ==> PoolId(v.freeSize - HEADER) < k))
  {
    hide Valid, FromNew, Recycle;
    var n := AllocSize(size);
    RoundsUp(size);
    ValidShape(v);
    BumpHasPage(v);
    var k := PoolId(n);
    HeadOf(v, k);
    if v.heads[k] != 0 {
      TakeHandsOut(v, k);
      PoolIs(v.hdr[v.heads[k]].size, k);
      PoolIs(n, k);
    } else if HEADER + n > v.freeSize {
      FromNewPlan(v, n, page);
    }
  }

  ghost predicate Snug(r: Got, n: nat) {
    r.base >= HEADER && r.base - HEADER in r.v.hdr && n <= r.v.hdr[r.base - HEADER].size < n + MIN_BLOCK
  }

  lemma FromNewPlan(v: View, n: nat, page: nat)
    requires Shaped(v) && Valid(v) && UNIT <= n < PAGE_SIZE - HEADER
    ensures var r := FromNew(v, n, page);
      if page > 0 then r.base == page + HEADER && r.v.pages == v.pages + [Region(page, PAGE_SIZE)] && Snug(r, n)
      else
        && r.v.pages == v.pages
        && (r.base == 0 <==>
              (forall j :: PoolId(n) <= j < NPOOL ==> v.heads[j] == 0) &&
              (v.freeSize > 0 ==> PoolId(v.freeSize - HEADER) < PoolId(n)))
  {
    hide Valid, Recycle, Carve, Snug;
    ValidShape(v);
    BumpHasPage(v);
    BumpNotNull(v);
    var w := if v.tiles != [] && v.freeSize >= MIN_BLOCK then Recycle(v) else v;
    RecycledIs(v, w);
    RecycledHeads(v, w);
    if page > 0 {
      CarveSnug(AddPage(w, Region(page, PAGE_SIZE)), n);
    } else {
      var k := FirstPool(w.heads, PoolId(n));
      if k < NPOOL {
        HeadOf(w, k);
      } else if v.freeSize > 0 {
        var j := PoolId(v.freeSize - HEADER);
        assert j < NPOOL && w.heads[j] == v.slabFree;
      }
    }
  }

  /** Recycling puts the bump region at the head of the pool of its size. */
  lemma RecycledHeads(v: View, w: View)
    requires Shaped(v) && Valid(v) && Shaped(w)
    requires w == if v.tiles != [] && v.freeSize >= MIN_BLOCK then Recycle(v) else v
    ensures forall j :: 0 <= j < NPOOL ==>
      w.heads[j] == if v.freeSize > 0 && j == PoolId(v.freeSize - HEADER) then v.slabFree else v.heads[j]
  {
    hide Valid;
    ValidShape(v);
    BumpHasPage(v);
  }

  lemma CarveSnug(v: View, n: nat)
    requires v.tiles != [] && HEADER + n <= v.freeSize
    ensures var r := Carve(v, n); r.pages == v.pages && Snug(Got(r, v.slabFree + HEADER), n)
  {
  }

  lemma BumpNotNull(v: View)
    requires Valid(v)
    ensures v.freeSize > 0 ==> v.slabFree > 0
  {
    if v.freeSize > 0 {
      var i := |v.pages| - 1;
      assert PageOk(v, i);
      TilesBound(v.hdr, v.tiles[i], v.pages[i].base, TileEnd(v, i));
    }
  }

  /** A block that is freed is the next one handed out in its class, and the allocator is as
      before. */
  lemma FreeThenMalloc(v: View, h: Addr, size: nat, page: nat)
    requires Shaped(v) && Valid(v) && h in Live(v) && 0 < size && AllocSize(size) < PAGE_SIZE
    requires Sized(v) && PoolId(v.hdr[h].size) == PoolId(AllocSize(size))
    ensures Legal(v, Free(h + HEADER)) && Shaped(Serve(v, Free(h + HEADER)))
    ensures Kmalloc(Serve(v, Free(h + HEADER)), size, page) == Got(v, h + HEADER)
  {
    hide Valid, Give, Take, Live, FromNew, Carve;
    InUse(v, h);
    FreeIs(v, h);
    NullIsNoBlock(v);
    TakeUndoesGive(v, h);
  }

  lemma InUse(v: View, h: Addr)
    requires h in Live(v)
    ensures h in v.hdr && v.hdr[h].word == MAGIC
  {
  }

  lemma TakeUndoesGive(v: View, h: Addr)
    requires Shaped(v) && h in v.hdr && v.hdr[h].size >= UNIT && v.hdr[h].word == MAGIC
    ensures var r, k := Give(v, h), PoolId(v.hdr[h].size);
      Shaped(r) && k < NPOOL && r.heads[k] == h && h in r.hdr && r.lists[k] != [] && Take(r, k) == v
  {
    var r, k := Give(v, h), PoolId(v.hdr[h].size);
    assert r.hdr[h := r.hdr[h].(word := MAGIC)] == v.hdr;
    assert ([h] + v.lists[k])[1..] == v.lists[k];
    assert v.heads[k := h][k := v.heads[k]] == v.heads && v.lists[k := [h] + v.lists[k]][k := v.lists[k]] == v.lists;
  }

  lemma TakenIsBlock(v: View, k: nat)
    requires Shaped(v) && Valid(v) && k < NPOOL
    ensures v.heads[k] != 0 ==> FromPool(v, k).base != 0
    ensures v.freeSize > 0 ==> v.tiles != []
  {
    HeadOf(v, k);
  }

  lemma NullIsNoBlock(v: View)
    requires Valid(v)
    ensures 0 !in v.hdr
  {
  }

  lemma HandedValid(v: View, r: Got)
    requires if r.base == 0 then Valid(r.v) else r.base >= HEADER && HandsOut(v, r.v, r.base - HEADER)
    ensures Valid(r.v)
  {
  }

  // ---- every run -------------------------------------------------------------------------

  const SLAB_CACHE_SIZE := 0x100000

  /** slab_init with the megabyte it asks for. */
  ghost function Init(page: Addr): View { AddPage(Empty(), Region(page, SLAB_CACHE_SIZE)) }

  lemma InitHolds(page: Addr)
    requires page > 0 && page % PAGE_SIZE == 0
    ensures Valid(Init(page)) && Shaped(Init(page))
  {
    hide Valid, LayoutOk, PoolsOk;
    EmptyHolds();
    AddPageKeeps(Empty(), Region(page, SLAB_CACHE_SIZE));
  }

  lemma EmptyHolds()
    ensures Valid(Empty())
  {
    assert forall k :: 0 <= k < NPOOL ==> PoolOk(Empty().hdr, 0, [], k);
  }

  datatype Req = Malloc(size: nat, page: nat) | Free(base: nat)

  ghost predicate Legal(v: View, q: Req) {
    match q
    case Malloc(size, page) => 0 < size && AllocSize(size) < PAGE_SIZE && PageGiven(v, page)
    case Free(base) => base >= HEADER && base - HEADER in Live(v)
  }

  /** Every block holds at least the smallest size. */
  ghost predicate Sized(v: View) { forall h :: h in v.hdr ==> v.hdr[h].size >= UNIT }

  lemma ValidSized(v: View)
    requires Valid(v)
    ensures Sized(v)
  {
  }

  ghost function Serve(v: View, q: Req): View
    requires Shaped(v) && Sized(v) && Legal(v, q)
  {
    match q
    case Malloc(size, page) => Kmalloc(v, size, page).v
    case Free(base) => Give(v, base - HEADER)
  }

  /** A block that is given back is in use no more; nothing else changes hands. */
  lemma FreeIs(v: View, h: Addr)
    requires Shaped(v) && Valid(v) && h in v.hdr && v.hdr[h].word == MAGIC
    ensures Sized(v) && |v.heads| == |v.lists| == NPOOL && Legal(v, Free(h + HEADER))
    ensures var r := Give(v, h);
      && Serve(v, Free(h + HEADER)) == r && Valid(r) && Shaped(r)
      && Live(r) == Live(v) - {h} && r.hdr.Keys == v.hdr.Keys
  {
    ValidSized(v);
    hide Valid;
    ValidShape(v);
    GiveKeeps(v, h);
    ValidShape(Give(v, h));
  }

  lemma ServeKeeps(v: View, q: Req)
    requires Shaped(v) && Valid(v) && Legal(v, q)
    ensures Sized(v) && Valid(Serve(v, q)) && Shaped(Serve(v, q))
  {
    hide HandsOut, LayoutOk, PoolsOk, HeadersOk, Kmalloc;
    ValidShape(v);
    match q {
      case Malloc(size, page) => KmallocHandsOut(v, size, page);
      case Free(base) => GiveKeeps(v, base - HEADER);
    }
    ValidShape(Serve(v, q));
  }

  ghost predicate LegalRun(v: View, qs: seq<Req>)
    requires Shaped(v) && Valid(v)
    decreases |qs|
  {
    qs == [] || (Legal(v, qs[0]) && (ServeKeeps(v, qs[0]); LegalRun(Serve(v, qs[0]), qs[1..])))
  }

  ghost function AfterRun(v: View, qs: seq<Req>): (r: View)
    requires Shaped(v) && Valid(v) && LegalRun(v, qs)
    ensures Shaped(r) && Valid(r)
    decreases |qs|
  {
    if qs == [] then v else (ServeKeeps(v, qs[0]); AfterRun(Serve(v, qs[0]), qs[1..]))
  }

  ghost predicate InBump(v: View, x: nat) {
    v.freeSize > 0 && v.slabFree <= x < v.slabFree + v.freeSize
  }

  /** Exact tiling, after any run: every byte of a slab page is in exactly one
      block or in the bump region, never both, and every block is in use or
      exactly once in the pool of its size. */
  lemma ExactTiling(page: Addr, qs: seq<Req>, i: nat, x: nat)
    requires page > 0 && page % PAGE_SIZE == 0
    requires Shaped(Init(page)) && Valid(Init(page)) && LegalRun(Init(page), qs)
    requires var v := AfterRun(Init(page), qs);
      i < |v.pages| && v.pages[i].base <= x < v.pages[i].base + v.pages[i].len
    ensures var v := AfterRun(Init(page), qs);
      && ((exists h :: Covers(v.hdr, h, x)) <==> !InBump(v, x))
      && (forall h, g :: Covers(v.hdr, h, x) && Covers(v.hdr, g, x) ==> h == g)
      && (forall h :: h in v.hdr ==>
            v.hdr[h].size >= UNIT &&
            (h !in Live(v) <==> h in v.lists[PoolId(v.hdr[h].size)]))
      && (forall k :: 0 <= k < NPOOL ==> NoDup(v.lists[k]))
  {
    var v := AfterRun(Init(page), qs);
    hide Valid, AfterRun, LegalRun;
    ByteIsCovered(v, i, x);
    UsedOrPooled(v);
  }

  lemma UsedOrPooled(v: View)
    requires Shaped(v) && Valid(v)
    ensures forall h :: h in v.hdr ==>
              v.hdr[h].size >= UNIT && (h !in Live(v) <==> h in v.lists[PoolId(v.hdr[h].size)])
    ensures forall k :: 0 <= k < NPOOL ==> NoDup(v.lists[k])
  {
    assert forall k :: 0 <= k < NPOOL ==> PoolOk(v.hdr, v.heads[k], v.lists[k], k);
    hide Linked, LayoutOk;
  }

  lemma ByteIsCovered(v: View, i: nat, x: nat)
    requires Shaped(v) && Valid(v) && i < |v.pages|
    requires v.pages[i].base <= x < v.pages[i].base + v.pages[i].len
    ensures (exists h :: Covers(v.hdr, h, x)) <==> !InBump(v, x)
    ensures forall h, g :: Covers(v.hdr, h, x) && Covers(v.hdr, g, x) ==> h == g
  {
    hide Tiles, PoolsOk, HeadersOk;
    forall h | Covers(v.hdr, h, x) ensures h in v.tiles[i] && x < TileEnd(v, i) { CoverIsHome(v, i, x, h); }
    BumpPlace(v, i, x);
    if x < TileEnd(v, i) {
      assert PageOk(v, i);
      TilesCover(v.hdr, v.tiles[i], v.pages[i].base, TileEnd(v, i), x);
    }
  }

  /** A block that covers a byte of page i was cut from page i. */
  lemma CoverIsHome(v: View, i: nat, x: nat, h: Addr)
    requires LayoutOk(v) && i < |v.pages| && Covers(v.hdr, h, x)
    requires v.pages[i].base <= x < v.pages[i].base + v.pages[i].len
    ensures h in v.tiles[i] && x < TileEnd(v, i)
  {
    HomeBound(v, h);
    var j := v.home[h];
    if i != j { PagesApart(v, i, j); }
  }

  lemma PagesApart(v: View, i: nat, j: nat)
    requires LayoutOk(v) && i < |v.pages| && j < |v.pages| && i != j
    ensures Apart(v.pages[i], v.pages[j])
  {
    hide PageOk;
    assert if i < j then Apart(v.pages[i], v.pages[j]) else Apart(v.pages[j], v.pages[i]);
  }

  lemma BumpPlace(v: View, i: nat, x: nat)
    requires LayoutOk(v) && i < |v.pages|
    requires v.pages[i].base <= x < v.pages[i].base + v.pages[i].len
    ensures InBump(v, x) <==> x >= TileEnd(v, i)
  {
    var last := |v.pages| - 1;
    assert PageOk(v, i) && PageOk(v, last);
    TilesBound(v.hdr, v.tiles[last], v.pages[last].base, TileEnd(v, last));
    assert i < last ==> Apart(v.pages[i], v.pages[last]);
  }

  /** Bytes in the blocks of the first n pages. */
  ghost function InBlocks(v: View, n: nat): nat
    requires Shaped(v) && Valid(v) && n <= |v.tiles|
  {
    if n == 0 then 0 else
      assert PageOk(v, n - 1);
      TilesBound(v.hdr, v.tiles[n - 1], v.pages[n - 1].base, TileEnd(v, n - 1));
      InBlocks(v, n - 1) + Sum(v.hdr, v.tiles[n - 1])
  }

  /** Headers, sizes and the bump region add up to what was requested. */
  lemma SizesAddUp(v: View)
    requires Shaped(v) && Valid(v)
    ensures InBlocks(v, |v.tiles|) + v.freeSize == v.allocSize
    ensures v.freeSize == 0 || v.freeSize >= MIN_BLOCK
  {
    SizesUpTo(v, |v.tiles|);
    assert v.pages[..|v.pages|] == v.pages;
  }

  lemma {:induction false} SizesUpTo(v: View, n: nat)
    requires Shaped(v) && Valid(v) && n <= |v.pages|
    ensures InBlocks(v, n) + (if n == |v.pages| then v.freeSize else 0) == Total(v.pages[..n])
  {
    hide Tiles, PoolsOk, HeadersOk;
    if n > 0 {
      SizesUpTo(v, n - 1);
      assert PageOk(v, n - 1);
      TilesBound(v.hdr, v.tiles[n - 1], v.pages[n - 1].base, TileEnd(v, n - 1));
      assert v.pages[..n][..n - 1] == v.pages[..n - 1];
    }
  }
}
