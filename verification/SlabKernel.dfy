/** The slab allocator in place (mm/slab.c): header memory, the table of pool
    heads and the bump pointer are updated step by step. */
module SlabKernel {
  import S = Slab

  class Cache {
    var hdr: S.Heap
    const heads: array<nat>
    var slabFree: nat
    var freeSize: nat
    var allocSize: nat
    ghost var lists: seq<seq<S.Addr>>
    ghost var pages: seq<S.Region>
    ghost var tiles: seq<seq<S.Addr>>
    ghost var home: map<S.Addr, nat>

    ghost function View(): S.View
      reads this, heads
    {
      S.View(hdr, heads[..], slabFree, freeSize, allocSize, lists, pages, tiles, home)
    }

    /** slab_init; page is what request_pages returned for the first megabyte. */
    constructor (page: S.Addr)
      requires page > 0 && page % S.PAGE_SIZE == 0
      ensures View() == S.Init(page) && S.Valid(View())
    {
      hdr := map[];
      heads := new nat[S.NPOOL](_ => 0);
      slabFree, freeSize, allocSize := page, S.SLAB_CACHE_SIZE, S.SLAB_CACHE_SIZE;
      lists, pages, tiles, home :=
        seq(S.NPOOL, _ => []), [S.Region(page, S.SLAB_CACHE_SIZE)], [[]], map[];
      new;
      S.InitHolds(page);
      assert heads[..] == S.Empty().heads;
    }

    /** get_slab_from_slab_pool. */
    method TakeFirst(k: nat) returns (h: S.Addr)
      requires k < heads.Length == |lists| && heads[k] in hdr && lists[k] != []
      modifies this, heads
      ensures h == old(heads[k]) && View() == S.Take(old(View()), k)
    {
      h := heads[k];
      heads[k] := hdr[h].word;
      hdr := hdr[h := hdr[h].(word := S.MAGIC)];
      lists := lists[k := lists[k][1..]];
    }

    /** add_slab_to_slab_pool, for the pool of the block's size. */
    method AddFirst(h: S.Addr)
      requires h in hdr && hdr[h].size >= S.UNIT && heads.Length == |lists| == S.NPOOL
      modifies this, heads
      ensures View() == S.Give(old(View()), h)
    {
      var k := S.PoolId(hdr[h].size);
      hdr := hdr[h := hdr[h].(word := heads[k])];
      heads[k] := h;
      lists := lists[k := [h] + lists[k]];
    }

    method GetFromPool(size: nat) returns (base: nat)
      requires S.Shaped(View()) && S.Valid(View()) && size >= S.UNIT
      modifies this, heads
      ensures S.Shaped(old(View())) && S.Valid(old(View()))
      ensures if old(heads[S.PoolId(size)]) == 0 then base == 0 && View() == old(View())
              else S.FromPool(old(View()), S.PoolId(size)) == S.Got(View(), base)
    {
      hide S.Valid;
      var id := S.PoolId(size);
      S.HeadOf(View(), id);
      if heads[id] == 0 {
        return 0;
      }
      var h := TakeFirst(id);
      return h + S.HEADER;
    }

    /** get_slab_from_slab_free: 0 when the bump region is too small. */
    method GetFromFree(size: nat) returns (base: nat)
      requires S.Shaped(View()) && (freeSize > 0 ==> tiles != [])
      modifies this
      ensures if S.HEADER + size > old(freeSize) then base == 0 && View() == old(View())
              else base == old(slabFree) + S.HEADER && View() == S.Carve(old(View()), size)
    {
      if freeSize < S.HEADER + size {
        return 0;
      }
      var h := slabFree;
      ghost var rest := freeSize - (S.HEADER + size);
      hdr := hdr[h := S.Header(size, S.MAGIC)];
      slabFree := slabFree + (S.HEADER + size);
      freeSize := freeSize - (S.HEADER + size);
      if freeSize < S.MIN_BLOCK {
        hdr := hdr[h := hdr[h].(size := hdr[h].size + freeSize)];
        slabFree, freeSize := 0, 0;
      }
      assert hdr == old(hdr)[h := S.Header(if rest < S.MIN_BLOCK then size + rest else size, S.MAGIC)];
      assert freeSize == if rest < S.MIN_BLOCK then 0 else rest;
      tiles := tiles[|tiles| - 1 := tiles[|tiles| - 1] + [h]];
      home := home[h := |tiles| - 1];
      return h + S.HEADER;
    }

    /** The rest of the bump region goes to the pools. */
    method RecycleFree()
      requires S.Shaped(View()) && (freeSize > 0 ==> tiles != [])
      modifies this, heads
      ensures S.Shaped(old(View()))
      ensures View() == if old(tiles != [] && freeSize >= S.MIN_BLOCK) then S.Recycle(old(View())) else old(View())
    {
      if freeSize >= S.MIN_BLOCK {
        var h := slabFree;
        hdr := hdr[h := S.Header(freeSize - S.HEADER, S.MAGIC)];
        tiles := tiles[|tiles| - 1 := tiles[|tiles| - 1] + [h]];
        home := home[h := |tiles| - 1];
        freeSize := 0;
        slabFree := 0;
        assert View() == S.Cut(old(View()), old(freeSize) - S.HEADER);
        AddFirst(h);
      }
    }

    /** alloc_new_slab_cache for one page that the page allocator gave. */
    method AddPage(page: S.Addr)
      modifies this
      ensures View() == S.AddPage(old(View()), S.Region(page, S.PAGE_SIZE))
    {
      freeSize := S.PAGE_SIZE;
      allocSize := allocSize + S.PAGE_SIZE;
      slabFree := page;
      pages, tiles := pages + [S.Region(page, S.PAGE_SIZE)], tiles + [[]];
    }

    /** get_big_slab: the search over the larger pools. */
    method GetBig(size: nat) returns (base: nat)
      requires S.Shaped(View()) && S.Valid(View()) && size >= S.UNIT
      modifies this, heads
      ensures S.Shaped(old(View())) && S.Valid(old(View()))
      ensures var k := S.FirstPool(old(View()).heads, S.PoolId(size));
              S.Got(View(), base) == if k == S.NPOOL then S.Got(old(View()), 0) else S.FromPool(old(View()), k)
    {
      hide S.Valid;
      var id := S.PoolId(size);
      while heads[id] == 0
        invariant 0 <= id < S.NPOOL
        invariant S.FirstPool(heads[..], S.PoolId(size)) == S.FirstPool(heads[..], id)
        decreases S.NPOOL - id
      {
        id := id + 1;
        if id == S.NPOOL {
          return 0;
        }
      }
      S.HeadOf(View(), id);
      var h := TakeFirst(id);
      return h + S.HEADER;
    }

    /** get_new_slab, then get_big_slab when there is no page. */
    method GetNewOrBig(n: nat, page: nat) returns (base: nat)
      requires S.Shaped(View()) && S.Valid(View()) && S.PageGiven(View(), page)
      requires S.UNIT <= n < S.PAGE_SIZE - S.HEADER && n % S.UNIT == 0
      modifies this, heads
      ensures S.Shaped(old(View())) && S.FromNew(old(View()), n, page) == S.Got(View(), base)
    {
      hide S.Valid, S.Recycle;
      ghost var v := View();
      S.BumpHasPage(v);
      S.RecycledIs(v, if v.tiles != [] && v.freeSize >= S.MIN_BLOCK then S.Recycle(v) else v);
      RecycleFree();
      if page > 0 {
        AddPage(page);
        base := GetFromFree(n);
      } else {
        base := GetBig(n);
      }
    }

    /** kmalloc with GFP_KERNEL; page answers the page request it may make.
        Blocks in use stay as they are and the new one is disjoint from them. */
    method Kmalloc(size: int, page: nat) returns (base: nat)
      requires S.Shaped(View()) && S.Valid(View()) && S.PageGiven(View(), page)
      requires size > 0 ==> S.AllocSize(size) < S.PAGE_SIZE
      modifies this, heads
      ensures S.Shaped(View()) && S.Valid(View()) && S.Shaped(old(View()))
      ensures size <= 0 ==> base == 0 && View() == old(View())
      ensures size > 0 ==> S.Kmalloc(old(View()), size, page) == S.Got(View(), base)
    {
      hide S.Valid, S.HandsOut, S.FromNew, S.FromPool, S.Carve;
      if size <= 0 {
        return 0;
      }
      ghost var v := View();
      S.KmallocHandsOut(v, size, page);
      S.ValidShape(S.Kmalloc(v, size, page).v);
      S.BumpHasPage(v);
      S.TakenIsBlock(v, S.PoolId(S.AllocSize(size)));
      var n := S.AllocSize(size);
      base := GetFromPool(n);
      if base != 0 {
        return;
      }
      base := GetFromFree(n);
      if base != 0 {
        return;
      }
      base := GetNewOrBig(n, page);
    }

    /** kfree.  The magic word tells blocks in use from free ones: anything else
        is passed on to the page allocator and changes nothing here.  other is the word
        found before memory that is no block of the slab. */
    method Kfree(base: nat, other: nat) returns (toPages: bool)
      requires S.Shaped(View()) && S.Valid(View())
      requires base == 0 || (base >= S.HEADER && (base - S.HEADER !in hdr ==> other != S.MAGIC))
      modifies this, heads
      ensures S.Shaped(View()) && S.Valid(View())
      ensures toPages <==> base > 0 && base - S.HEADER !in S.Live(old(View()))
      ensures base == 0 || toPages ==> View() == old(View())
      ensures base > 0 && !toPages ==>
        S.Live(View()) == S.Live(old(View())) - {base - S.HEADER} && hdr.Keys == old(hdr).Keys
      ensures S.Shaped(old(View())) && S.Sized(old(View()))
      ensures base > 0 && !toPages ==>
        S.Legal(old(View()), S.Free(base)) && View() == S.Serve(old(View()), S.Free(base))
    {
      S.ValidSized(View());
      hide S.Valid, S.Sized, S.Give, S.Legal, S.Serve;
      if base == 0 {
        return false;
      }
      var h := base - S.HEADER;
      if (if h in hdr then hdr[h].word else other) != S.MAGIC {
        return true;
      }
      S.FreeIs(View(), h);
      AddFirst(h);
      return false;
    }
  }
}
