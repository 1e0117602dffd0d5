/** The kernel's pool of free data blocks (fs/lmfs.c:165-220): one page in
    memory, the pages below it on disk. */
module LmfsPool {

  const PAGE := 1024

  type Page = p: seq<nat> | |p| == PAGE witness seq(PAGE, _ => 0)

  /** The entries of the disk pages from block a up to block b. */
  ghost function Below(disk: map<nat, Page>, a: nat, b: nat): (s: seq<nat>)
    requires a <= b && forall k :: a <= k < b ==> k in disk
    ensures |s| == PAGE * (b - a)
  {
    if a == b then [] else Below(disk, a, b - 1) + disk[b - 1]
  }

  lemma {:induction false} BelowSame(disk: map<nat, Page>, other: map<nat, Page>, a: nat, b: nat)
    requires a <= b && forall k :: a <= k < b ==> k in disk && k in other && disk[k] == other[k]
    ensures Below(disk, a, b) == Below(other, a, b)
  {
    if a < b { BelowSame(disk, other, a, b - 1); }
  }

  /** Writing a page at b adds its entries on top. */
  lemma BelowNext(disk: map<nat, Page>, a: nat, b: nat, p: Page)
    requires a <= b && forall k :: a <= k < b ==> k in disk
    ensures Below(disk[b := p], a, b + 1) == Below(disk, a, b) + p
  {
    BelowSame(disk, disk[b := p], a, b);
  }

  lemma BelowNone(disk: map<nat, Page>, a: nat)
    ensures Below(disk, a, a) == []
  {
  }

  class Pool {
    const start: nat             // db_pool_start_block
    const dataFree: nat          // data_free_blocks, which neither operation updates
    var disk: map<nat, Page>     // the device, by block
    const page: array<nat>       // db_pool
    var cur: nat                 // db_pool_current_block
    var pos: nat                 // db_pool_pos

    /** Used up: the cursor is before the first page, its position wrapped. */
    ghost predicate Drained()
      reads this
    {
      cur + 1 == start && pos == PAGE - 1
    }

    ghost predicate Valid()
      reads this, page
    {
      && start > 0 && page.Length == PAGE && pos < PAGE
      && (Drained() || (start <= cur && forall k :: start <= k < cur ==> k in disk))
    }

    /** The free blocks, the next one to hand out last. */
    ghost function Stack(): seq<nat>
      requires Valid()
      reads this, page
    {
      if Drained() then [] else Below(disk, start, cur) + page[..pos + 1]
    }

    constructor (start: nat, dataFree: nat, disk: map<nat, Page>, cur: nat, pos: nat)
      requires 0 < start <= cur && pos < PAGE && forall k :: start <= k <= cur ==> k in disk
      ensures Valid() && Stack() == Below(disk, start, cur) + disk[cur][..pos + 1]
      ensures this.start == start && this.dataFree == dataFree && this.disk == disk
    {
      this.start, this.dataFree, this.disk, this.cur, this.pos := start, dataFree, disk, cur, pos;
      page := new nat[PAGE](i requires 0 <= i < PAGE => disk[cur][i]);
      new;
      assert page[..pos + 1] == disk[cur][..pos + 1];
    }

    method LoadPage(block: nat)
      requires page.Length == PAGE && block in disk
      modifies page
      ensures page[..] == disk[block]
    {
      for i := 0 to PAGE
        invariant page[..i] == disk[block][..i]
      {
        page[i] := disk[block][i];
      }
      assert page[..] == page[..PAGE] && disk[block][..PAGE] == disk[block];
    }

    /** Takes the last entry off, fetching the page below when the one in
        memory runs out.  On a drained pool nothing stops it: it hands out an
        old entry and leaves the cursor where no pool is. */
    method Pop() returns (block: nat)
      requires Valid()
      modifies this`cur, this`pos, page
      ensures dataFree == 0 ==> block == 0 && pos == old(pos) && cur == old(cur) && Valid() && Stack() == old(Stack())
      ensures dataFree > 0 && old(Stack()) != [] ==>
        Valid() && old(Stack()) == Stack() + [block]
      ensures dataFree > 0 && old(Stack()) == [] ==>
        !Valid() && block == old(page[PAGE - 1])
    {
      if dataFree == 0 {
        return 0;
      }
      ghost var was: Page := page[..];
      block := page[pos];
      if pos == 0 {
        pos := PAGE - 1;
        cur := cur - 1;
        if cur >= start {
          LoadPage(cur);
          assert page[..pos + 1] == disk[cur];
        }
        assert was[..1] == [block];
      } else {
        pos := pos - 1;
        assert was[..pos + 2] == was[..pos + 1] + [block];
      }
    }

    /** Puts a block on top, writing a full page out first: at most the pool's
        current block changes on disk.  Only for a drained pool is that block
        outside the pool, the one before it. */
    method Push(block: nat) returns (ok: bool)
      requires Valid()
      modifies this`cur, this`pos, this`disk, page
      ensures ok <==> block != 0
      ensures !ok ==> disk == old(disk) && Valid() && Stack() == old(Stack())
      ensures ok ==> Valid() && Stack() == old(Stack()) + [block]
      ensures old(Stack()) != [] ==> old(cur) >= start
      ensures forall k :: k != old(cur) ==> (k in disk <==> k in old(disk)) && (k in disk ==> disk[k] == old(disk)[k])
      ensures ok && old(Stack()) == [] ==> disk == old(disk)[start - 1 := old(page[..])]
    {
      if block == 0 {
        return false;
      }
      ghost var was: Page := page[..];
      hide Below;
      if start <= cur { BelowNext(disk, start, cur, was); }
      BelowNone(disk[cur := was], start);
      assert was[..PAGE] == was;
      pos := pos + 1;
      if pos == PAGE {
        pos := 0;
        disk := disk[cur := page[..]];
        cur := cur + 1;
      }
      page[pos] := block;
      assert page[..pos + 1] == was[..pos] + [block];
      return true;
    }
  }

  /** A block that is given back is the next one handed out, also across a page
      boundary, and the pool is as it was. */
  method PushThenPop(p: Pool, block: nat) returns (again: nat)
    requires p.Valid() && p.dataFree > 0 && block != 0
    modifies p, p.page
    ensures again == block && p.Valid() && p.Stack() == old(p.Stack())
  {
    var _ := p.Push(block);
    ghost var s := p.Stack();
    again := p.Pop();
    assert s[|s| - 1] == again && s[..|s| - 1] == p.Stack();
    assert s[..|s| - 1] == old(p.Stack());
  }
}
