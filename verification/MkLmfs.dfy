/** The image builder (tools/mklmfs/mklmfs.c): block pool, file layout and
    inode sectors. */
module MkLmfs {
  import opened Chain
  import opened LmfsDisk

  const DATA_BLOCK := 7         // after the four blocks of inodes
  const FREE_BLOCKS := 249
  const DT_BLK := 6

  const ENOSPC32 := 0xffff_ffe4 // -ENOSPC as the u32 that pop_block returns

  /** init_buffer_pool: counts down from base + count - 1. */
  method InitBufferPool(addr: array<nat>, base: nat, count: nat)
    requires count <= addr.Length
    modifies addr
    ensures forall i :: 0 <= i < count ==> addr[i] == base + count - 1 - i
    ensures forall i :: count <= i < addr.Length ==> addr[i] == old(addr[i])
  {
    var i, left := 0, count;
    while left > 0
      invariant 0 <= i <= count && left == count - i
      invariant forall j :: 0 <= j < i ==> addr[j] == base + count - 1 - j
      invariant forall j :: i <= j < addr.Length ==> addr[j] == old(addr[j])
    {
      addr[i] := base + left - 1;
      i := i + 1;
      left := left - 1;
    }
  }

  /** The words of an inode sector that the tool fills in (init_inode_entry and
      write_inode), in the order of struct lmfs_inode_entry, with lvl0 at byte
      256. */
  datatype Inode = Inode(size: nat, blockNr: nat, posLvl1: nat, posLvl0: nat, lvl0: seq<nat>)

  function InodeWords(n: Inode): (ws: seq<nat>)
    requires |n.lvl0| == 64
    ensures |ws| == 128
  {
    [DT_BLK, DT_BLK, DT_BLK, 0x19700101, 0, 0, 0x1234, n.size, 0, n.blockNr, n.posLvl1, n.posLvl0] +
    seq(52, _ => 0) + n.lvl0
  }

  function InodeSector(inode: nat): nat { INODE_BLOCK * 8 + inode }

  // ---- what a stored file looks like ------------------------------------------

  /** Blocks come off the pool in order: the first data block, the index block,
      then the other data blocks. */
  function DataNo(base: nat, j: nat): nat { if j == 0 then base else base + 1 + j }

  function IndexNo(base: nat): nat { base + 1 }

  /** Whole blocks in a file; it always has one data block more. */
  function Whole(c: seq<byte>): nat { |c| / BLOCK }

  /** Data block j of a file: its bytes, then zeros. */
  function ChunkOf(c: seq<byte>, j: nat): (b: Block)
    requires j <= Whole(c)
    ensures |b| == BLOCK
  {
    if j < Whole(c) then c[j * BLOCK..(j + 1) * BLOCK]
    else c[j * BLOCK..] + seq(BLOCK - (|c| - j * BLOCK), _ => 0)
  }

  function IndexWords(base: nat, n: nat): (ws: seq<nat>)
    requires n <= PER_PAGE
    ensures |ws| == PER_PAGE
  {
    seq(PER_PAGE, j requires 0 <= j < PER_PAGE => if j < n then DataNo(base, j) else 0)
  }

  lemma IndexNext(base: nat, j: nat)
    requires j < PER_PAGE
    ensures IndexWords(base, j)[j := DataNo(base, j)] == IndexWords(base, j + 1)
    ensures IndexWords(base, 0) == seq(PER_PAGE, _ => 0)
  {
  }

  function InodeOf(c: seq<byte>, base: nat): (n: Inode)
    ensures |n.lvl0| == 64
  {
    Inode(|c|, Whole(c) + 1, Whole(c), 0, [IndexNo(base)] + seq(63, _ => 0))
  }

  /** The file c lies in the image behind inode ino, in the blocks from base up
      to base + Whole(c) + 1. */
  ghost predicate Stored(d: Disk, ino: nat, c: seq<byte>, base: nat) {
    && |d| == DISK_SIZE && ino < MAX_FILE
    && DATA_BLOCK <= base && base + Whole(c) + 2 <= NBLOCKS
    && SectorOf(d, InodeSector(ino)) == WordsBytes(InodeWords(InodeOf(c, base)))
    && BlockOf(d, IndexNo(base)) == WordsBytes(IndexWords(base, Whole(c) + 1))
    && forall j :: 0 <= j <= Whole(c) ==> BlockOf(d, DataNo(base, j)) == ChunkOf(c, j)
  }

  // ---- the tool -------------------------------------------------------------------

  /** One of the two pools, a page of numbers handed out from its end. */
  class Pool {
    const page: array<nat>
    const start: nat
    var cur: nat
    var pos: nat

    /** The pool holds limit - 1 at the bottom and counts down upwards. */
    ghost predicate Valid(limit: nat)
      reads this, page
    {
      && page.Length == PER_PAGE && start > 0 && pos < PER_PAGE
      && (cur == start - 1 ==> pos == PER_PAGE - 1)
      && (cur != start - 1 ==> cur == start && pos < limit && pos < PER_PAGE - 1)
      && (cur == start ==> forall i :: 0 <= i <= pos ==> page[i] == limit - 1 - i)
    }

    /** The number that is handed out next; limit when the pool is used up. */
    ghost function Next(limit: nat): nat
      requires Valid(limit)
      reads this, page
    {
      if cur == start then limit - 1 - pos else limit
    }

    constructor (start: nat, base: nat, count: nat)
      requires start > 0 && 0 < count < PER_PAGE
      ensures Valid(base + count) && Next(base + count) == base && fresh(page)
    {
      this.start, cur, pos := start, start, count - 1;
      page := new nat[PER_PAGE](_ => 0);
      new;
      InitBufferPool(page, base, count);
    }

    /** pop_block and pop_inode: a pool that is used up yields -ENOSPC. */
    method Pop(ghost limit: nat) returns (n: nat)
      requires Valid(limit)
      modifies this`cur, this`pos, page
      ensures Valid(limit)
      ensures old(Next(limit)) == limit ==> n == ENOSPC32 && Next(limit) == limit
      ensures old(Next(limit)) < limit ==> n == old(Next(limit)) && Next(limit) == n + 1
    {
      if pos == PER_PAGE - 1 && cur == start - 1 {
        return ENOSPC32;
      }
      n := page[pos];
      page[pos] := 0;
      if pos == 0 {
        pos := PER_PAGE - 1;
        cur := cur - 1;
      } else {
        pos := pos - 1;
      }
    }
  }

  /** Two images agree on every block outside lo..hi. */
  ghost predicate SameOutside(d: Disk, e: Disk, lo: nat, hi: nat) {
    && |d| == DISK_SIZE && |e| == DISK_SIZE
    && forall b :: 0 <= b < NBLOCKS && !(lo <= b < hi) ==> BlockOf(e, b) == BlockOf(d, b)
  }

  lemma FlushKeeps(d: Disk, b: nat, buf: Block, k: nat)
    requires |d| == DISK_SIZE && b < NBLOCKS && k < NBLOCKS && |buf| == BLOCK
    ensures BlockOf(Splice(d, b * BLOCK, buf), k) == if k == b then buf else BlockOf(d, k)
  {
    SpliceReads(d, b * BLOCK, buf, k * BLOCK, (k + 1) * BLOCK);
  }

  /** An inode sector is the same place in the kernel's and the tool's terms. */
  lemma SectorPlace(d: Disk, ino: nat)
    requires |d| == DISK_SIZE && ino < MAX_FILE
    ensures SectorOf(d, InodeSector(ino)) ==
            BlockOf(d, INODE_BLOCK + ino / 8)[(ino % 8) * SECTOR..(ino % 8 + 1) * SECTOR]
  {
    var i, j := ino / 8, ino % 8;
    assert ino == 8 * i + j;
    var at := (INODE_BLOCK + i) * BLOCK;
    assert at + j * SECTOR == InodeSector(ino) * SECTOR;
    Slices(d, at, at + BLOCK, j * SECTOR, (j + 1) * SECTOR);
  }

  lemma Slices(d: Disk, a: nat, b: nat, i: nat, j: nat)
    requires a <= b <= |d| && i <= j <= b - a
    ensures d[a..b][i..j] == d[a + i..a + j]
  {
    forall k | 0 <= k < j - i ensures d[a..b][i..j][k] == d[a + i..a + j][k] { assert d[a..b][i + k] == d[a + i + k]; }
  }

  ghost predicate Fits(c: seq<byte>, base: nat) {
    DATA_BLOCK <= base && base + Whole(c) + 2 <= NBLOCKS
  }

  /** The first n blocks of c are on disk, and nothing outside base..hi has
      changed. */
  ghost predicate Flushed(d0: Disk, d: Disk, c: seq<byte>, base: nat, n: nat, hi: nat) {
    && SameOutside(d0, d, base, hi) && Fits(c, base) && n <= Whole(c) + 1
    && forall i :: 0 <= i < n ==> BlockOf(d, DataNo(base, i)) == ChunkOf(c, i)
  }

  lemma FlushedNext(d0: Disk, d: Disk, e: Disk, c: seq<byte>, base: nat, n: nat, hi: nat)
    requires Flushed(d0, d, c, base, n, hi) && |e| == DISK_SIZE && n <= Whole(c)
    requires DataNo(base, n) < hi
    requires forall k :: 0 <= k < NBLOCKS ==>
               BlockOf(e, k) == if k == DataNo(base, n) then ChunkOf(c, n) else BlockOf(d, k)
    ensures Flushed(d0, e, c, base, n + 1, hi)
  {
    hide ChunkOf, BlockOf;
  }

  lemma FlushedWiden(d0: Disk, d: Disk, c: seq<byte>, base: nat, n: nat, lo: nat, hi: nat)
    requires Flushed(d0, d, c, base, n, lo) && lo <= hi
    ensures Flushed(d0, d, c, base, n, hi)
  {
  }

  const ZEROS := seq(BLOCK, _ => 0 as byte)

  class Tool {
    var disk: Disk
    const blocks: Pool
    const inodes: Pool
    var data: nat            // the data block being filled, 0 if none
    var lvl1: nat            // the index block being filled, 0 if none
    var dataPos: nat
    var lvl1Pos: nat
    var lvl0Pos: nat
    var dataBuf: Block
    var indexBuf: seq<nat>
    var inode: Inode

    ghost predicate Valid()
      reads this, blocks, blocks.page
    {
      && |disk| == DISK_SIZE && blocks.Valid(NBLOCKS)
      && |dataBuf| == BLOCK && |indexBuf| == PER_PAGE && |inode.lvl0| == 64
      && forall i :: 1 <= i < 64 ==> inode.lvl0[i] == 0
    }

    ghost function Next(): nat
      requires Valid()
      reads this, blocks, blocks.page
    {
      blocks.Next(NBLOCKS)
    }

    /** format_disk on a cleared image. */
    constructor ()
      ensures Valid() && Next() == DATA_BLOCK
      ensures inodes.Valid(MAX_FILE) && inodes.Next(MAX_FILE) == 1
      ensures fresh(blocks) && fresh(blocks.page) && fresh(inodes) && fresh(inodes.page)
      ensures blocks != inodes && blocks.page != inodes.page
    {
      disk := seq(DISK_SIZE, _ => 0);
      inodes := new Pool(1, 1, MAX_FILE - 1);
      blocks := new Pool(2, DATA_BLOCK, FREE_BLOCKS);
      data, lvl1, dataPos, lvl1Pos, lvl0Pos := 0, 0, 0, 0, 0;
      dataBuf, indexBuf := ZEROS, seq(PER_PAGE, _ => 0);
      inode := Inode(0, 0, 0, 0, seq(64, _ => 0));
    }

    /** flush_data. */
    method Flush(buf: Block, b: nat)
      requires |disk| == DISK_SIZE && |buf| == BLOCK && b < NBLOCKS
      modifies this`disk
      ensures |disk| == DISK_SIZE
      ensures forall k :: 0 <= k < NBLOCKS ==>
                BlockOf(disk, k) == if k == b then buf else BlockOf(old(disk), k)
    {
      forall k | 0 <= k < NBLOCKS
        ensures BlockOf(Splice(disk, b * BLOCK, buf), k) == if k == b then buf else BlockOf(disk, k)
      {
        FlushKeeps(disk, b, buf, k);
      }
      disk := Splice(disk, b * BLOCK, buf);
    }

    /** j whole blocks of c have been read; the last one is still in memory. */
    ghost predicate Laid(d0: Disk, c: seq<byte>, base: nat, j: nat)
      reads this, blocks, blocks.page
    {
      && Valid() && Fits(c, base) && j <= Whole(c)
      && inode.size == j * BLOCK && inode.blockNr == j
      && lvl1Pos == j && lvl0Pos == 0 && dataPos == 0
      && (if j == 0 then data == 0 && lvl1 == 0 && Next() == base
          else
            && data == DataNo(base, j - 1) && dataBuf == ChunkOf(c, j - 1)
            && lvl1 == IndexNo(base) && indexBuf == IndexWords(base, j)
            && inode.lvl0[0] == IndexNo(base) && Next() == base + 1 + j)
      && Flushed(d0, disk, c, base, if j == 0 then 0 else j - 1, Next())
    }

    /** Block j has been taken and is empty. */
    ghost predicate Opened(d0: Disk, c: seq<byte>, base: nat, j: nat)
      reads this, blocks, blocks.page
    {
      && Valid() && Fits(c, base) && j <= Whole(c)
      && inode.size == j * BLOCK && inode.blockNr == j + 1
      && lvl1Pos == j && lvl0Pos == 0 && dataPos == 0
      && data == DataNo(base, j) && dataBuf == ZEROS
      && lvl1 == IndexNo(base) && indexBuf == IndexWords(base, j + 1)
      && inode.lvl0[0] == IndexNo(base) && Next() == base + 2 + j
      && Flushed(d0, disk, c, base, j, Next())
    }

    /** Flushes a filled data block, if there is one. */
    method FlushLast(ghost d0: Disk, ghost c: seq<byte>, ghost base: nat, ghost j: nat)
      requires Laid(d0, c, base, j)
      modifies this`disk
      ensures |disk| == DISK_SIZE && Flushed(d0, disk, c, base, j, Next())
    {
      hide ChunkOf, BlockOf, Flushed;
      if data != 0 {
        ghost var d := disk;
        Flush(dataBuf, data);
        FlushedNext(d0, d, disk, c, base, j - 1, Next());
      }
    }

    /** The inner branch: a new index block, entered in the inode. */
    method TakeIndex() returns (ok: bool)
      requires Valid() && lvl1 < NBLOCKS && lvl0Pos <= 32 && 0 < Next() < NBLOCKS
      modifies this`lvl1, this`indexBuf, this`inode, this`disk, blocks, blocks.page
      ensures ok <==> lvl0Pos < 32
      ensures |disk| == DISK_SIZE && (old(lvl1) == 0 ==> disk == old(disk))
      ensures blocks.Valid(NBLOCKS) && blocks.Next(NBLOCKS) == old(Next()) + 1
      ensures lvl1 == old(Next()) && indexBuf == seq(PER_PAGE, _ => 0)
      ensures ok ==> inode == old(inode).(lvl0 := old(inode).lvl0[lvl0Pos := lvl1])
    {
      hide Pool.Valid, Pool.Next, BlockOf;
      if lvl1 != 0 {
        Flush(WordsBytes(indexBuf), lvl1);
      }
      lvl1 := blocks.Pop(NBLOCKS);
      if lvl1 == 0 {
        return false;
      }
      indexBuf := seq(PER_PAGE, _ => 0);
      if lvl0Pos == 32 {
        return false;
      }
      inode := inode.(lvl0 := inode.lvl0[lvl0Pos := lvl1]);
      return true;
    }

    /** A block has been taken for data block j but is not entered yet. */
    ghost predicate Taken(d0: Disk, c: seq<byte>, base: nat, j: nat)
      reads this, blocks, blocks.page
    {
      && Valid() && Fits(c, base) && j <= Whole(c)
      && inode.size == j * BLOCK && inode.blockNr == j
      && lvl1Pos == j && lvl0Pos == 0 && dataPos == 0
      && data == DataNo(base, j) && dataBuf == ZEROS
      && (if j == 0 then lvl1 == 0 && Next() == base + 1
          else
            && lvl1 == IndexNo(base) && indexBuf == IndexWords(base, j)
            && inode.lvl0[0] == IndexNo(base) && Next() == base + 2 + j)
      && Flushed(d0, disk, c, base, j, base + 2 + j)
    }

    method TakeData(ghost d0: Disk, ghost c: seq<byte>, ghost base: nat, ghost j: nat) returns (ok: bool)
      requires Laid(d0, c, base, j)
      modifies this`disk, this`data, this`dataBuf, blocks, blocks.page
      ensures ok && Taken(d0, c, base, j)
    {
      hide ChunkOf, IndexWords, Flushed, Pool.Valid, Pool.Next;
      FlushLast(d0, c, base, j);
      FlushedWiden(d0, disk, c, base, j, Next(), base + 2 + j);
      data := blocks.Pop(NBLOCKS);
      dataBuf := ZEROS;
      ok := data != 0;
    }

    /** The branch of write_file for an empty data buffer: flush the last block,
        take a new one, and a new index block when the index is empty too. */
    method OpenBlock(ghost d0: Disk, ghost c: seq<byte>, ghost base: nat, ghost j: nat) returns (ok: bool)
      requires Laid(d0, c, base, j)
      modifies this, blocks, blocks.page
      ensures ok && Opened(d0, c, base, j)
    {
      hide ChunkOf, IndexWords, Flushed, Pool.Valid, Pool.Next;
      IndexNext(base, j);
      ok := TakeData(d0, c, base, j);
      if lvl1Pos == 0 {
        ok := TakeIndex();
      }
      if !ok {
        return;
      }
      inode := inode.(blockNr := inode.blockNr + 1);
      indexBuf := indexBuf[lvl1Pos := data];
    }

    /** All of c has been read; its last block and its index are in memory. */
    ghost predicate Filled(d0: Disk, c: seq<byte>, base: nat)
      reads this, blocks, blocks.page
    {
      && Valid() && Fits(c, base)
      && inode.size == |c| && inode.blockNr == Whole(c) + 1
      && lvl1Pos == Whole(c) && lvl0Pos == 0
      && data == DataNo(base, Whole(c)) && dataBuf == ChunkOf(c, Whole(c))
      && lvl1 == IndexNo(base) && indexBuf == IndexWords(base, Whole(c) + 1)
      && inode.lvl0[0] == IndexNo(base) && Next() == base + 2 + Whole(c)
      && Flushed(d0, disk, c, base, Whole(c), Next())
    }

    method NextSlot()
      modifies this`lvl1Pos, this`lvl0Pos
      ensures if old(lvl1Pos) + 1 == PER_PAGE then lvl1Pos == 0 && lvl0Pos == old(lvl0Pos) + 1
              else lvl1Pos == old(lvl1Pos) + 1 && lvl0Pos == old(lvl0Pos)
    {
      lvl1Pos := lvl1Pos + 1;
      if lvl1Pos == PER_PAGE {
        lvl1Pos := 0;
        lvl0Pos := lvl0Pos + 1;
      }
    }

    /** One read() of at most a block, and what write_file does with it. */
    method ReadChunk(c: seq<byte>, ghost d0: Disk, ghost base: nat, ghost j: nat) returns (n: nat)
      requires Opened(d0, c, base, j)
      modifies this`dataBuf, this`dataPos, this`lvl1Pos, this`lvl0Pos, this`inode
      ensures n == BLOCK <==> j < Whole(c)
      ensures if n == BLOCK then Laid(d0, c, base, j + 1) else Filled(d0, c, base)
    {
      hide IndexWords, Flushed, Pool.Valid, Pool.Next;
      var done := inode.size;
      n := if |c| - done >= BLOCK then BLOCK else |c| - done;
      if n > 0 {
        dataBuf := c[done..done + n] + dataBuf[n..];
        dataPos := dataPos + n;
        if dataPos == BLOCK {
          dataPos := 0;
          NextSlot();
        }
        inode := inode.(size := inode.size + n);
      }
      assert n < BLOCK ==> dataBuf == ChunkOf(c, j);
    }

    /** write_file on a reused buffer.  The callers must leave it enough free
        blocks: the failure value of pop_block is not zero and goes unnoticed. */
    method WriteFile(c: seq<byte>, ino: nat) returns (ok: bool)
      requires Valid() && DATA_BLOCK <= Next() && Next() + Whole(c) + 2 <= NBLOCKS && ino < MAX_FILE
      modifies this, blocks, blocks.page
      ensures ok && Valid() && Next() == old(Next()) + Whole(c) + 2
      ensures Stored(disk, ino, c, old(Next()))
      ensures Untouched(old(disk), disk, ino, old(Next()), Next())
    {
      hide ChunkOf, IndexWords, Pool.Valid, Pool.Next, Stored, Untouched;
      data, lvl1, dataPos, lvl1Pos, lvl0Pos := 0, 0, 0, 0, 0;
      inode := inode.(size := 0, blockNr := 0, posLvl1 := 0, posLvl0 := 0);
      ghost var d0, base, j := disk, Next(), 0;
      var n := BLOCK;
      while n == BLOCK
        invariant if n == BLOCK then Laid(d0, c, base, j) else Filled(d0, c, base)
        decreases if n == BLOCK then Whole(c) + 1 - j else 0
      {
        ok := OpenBlock(d0, c, base, j);
        if !ok {
          return;
        }
        n := ReadChunk(c, d0, base, j);
        j := j + 1;
      }
      WriteInode(ino, d0, c, base);
      return true;
    }

    /** write_inode. */
    method WriteInode(ino: nat, ghost d0: Disk, ghost c: seq<byte>, ghost base: nat)
      requires Filled(d0, c, base) && ino < MAX_FILE
      modifies this`disk, this`inode
      ensures Valid() && Next() == base + 2 + Whole(c)
      ensures Stored(disk, ino, c, base)
      ensures Untouched(d0, disk, ino, base, Next())
    {
      hide ChunkOf, IndexWords, Flushed, Pool.Valid, Pool.Next, WordsBytes, BlockOf;
      inode := inode.(posLvl1 := lvl1Pos, posLvl0 := lvl0Pos);
      ghost var d1 := disk;
      if data != 0 {
        Flush(dataBuf, data);
      }
      FlushedNext(d0, d1, disk, c, base, Whole(c), Next());
      ghost var d2 := disk;
      if lvl1 != 0 {
        Flush(WordsBytes(indexBuf), lvl1);
      }
      FlushedIndex(d0, d2, disk, c, base, Next());
      assert inode == InodeOf(c, base);
      ghost var d3 := disk;
      disk := Splice(disk, InodeSector(ino) * SECTOR, WordsBytes(InodeWords(inode)));
      SectorWritten(d0, d3, disk, c, base, ino, Next());
    }
  }

  // ---- whole images ---------------------------------------------------------------

  /** Blocks that a list of files takes. */
  ghost function Blocks(files: seq<seq<byte>>): nat {
    if files == [] then 0 else Blocks(files[..|files| - 1]) + Whole(files[|files| - 1]) + 2
  }

  lemma {:induction false} BlocksPrefix(files: seq<seq<byte>>, k: nat)
    requires k <= |files|
    ensures Blocks(files[..k]) <= Blocks(files)
    ensures k < |files| ==> Blocks(files[..k + 1]) == Blocks(files[..k]) + Whole(files[k]) + 2
  {
    if k < |files| {
      assert files[..k + 1][..k] == files[..k];
      if k < |files| - 1 {
        BlocksPrefix(files[..|files| - 1], k);
        assert files[..|files| - 1][..k] == files[..k];
      }
    } else {
      assert files[..k] == files;
    }
  }

  /** Where file k starts: files lie one after the other. */
  ghost function Base(files: seq<seq<byte>>, k: nat): nat
    requires k <= |files|
  {
    DATA_BLOCK + Blocks(files[..k])
  }

  /** For any list of files that fits, the image holds each of them behind its
      inode, one after the other, so no two share a block. */
  method MakeImage(files: seq<seq<byte>>) returns (disk: Disk)
    requires |files| < MAX_FILE && Blocks(files) <= FREE_BLOCKS
    ensures forall k :: 0 <= k < |files| ==> Stored(disk, k + 1, files[k], Base(files, k))
    ensures forall i, k :: 0 <= i < k < |files| ==> Base(files, i) + Whole(files[i]) + 2 <= Base(files, k)
  {
    hide Stored, Untouched, Blocks, Pool.Valid, Pool.Next;
    var tool := new Tool();
    var k := 0;
    BlocksPrefix(files, 0);
    NoBlocks();
    while k < |files|
      invariant 0 <= k <= |files| && fresh(tool.blocks) && fresh(tool.blocks.page)
      invariant fresh(tool) && fresh(tool.inodes) && fresh(tool.inodes.page)
      invariant tool.blocks != tool.inodes && tool.blocks.page != tool.inodes.page
      invariant tool.Valid() && tool.Next() == Base(files, k) <= NBLOCKS
      invariant tool.inodes.Valid(MAX_FILE) && tool.inodes.Next(MAX_FILE) == k + 1
      invariant forall i :: 0 <= i < k ==> Stored(tool.disk, i + 1, files[i], Base(files, i))
    {
      BlocksPrefix(files, k);
      BlocksPrefix(files, k + 1);
      ghost var d := tool.disk;
      var ino := tool.inodes.Pop(MAX_FILE);
      var _ := tool.WriteFile(files[k], ino);
      forall i | 0 <= i < k ensures Stored(tool.disk, i + 1, files[i], Base(files, i)) {
        BaseOrder(files, i, k);
        StoredKept(d, tool.disk, i + 1, files[i], Base(files, i), ino, Base(files, k), Base(files, k + 1));
      }
      k := k + 1;
    }
    disk := tool.disk;
    forall i, k | 0 <= i < k < |files| ensures Base(files, i) + Whole(files[i]) + 2 <= Base(files, k) {
      BaseOrder(files, i, k);
    }
  }

  lemma BaseOrder(files: seq<seq<byte>>, i: nat, k: nat)
    requires i < k <= |files|
    ensures Base(files, i) + Whole(files[i]) + 2 <= Base(files, k)
  {
    BlocksPrefix(files, i);
    if i + 1 < k {
      BlocksPrefix(files[..k], i + 1);
      assert files[..k][..i + 1] == files[..i + 1];
    }
  }

  lemma NoBlocks()
    ensures Blocks([]) == 0
  {
  }

  /** What building one file may change: its own blocks and inode. */
  ghost predicate Untouched(d: Disk, e: Disk, ino: nat, lo: nat, hi: nat) {
    && |d| == DISK_SIZE && |e| == DISK_SIZE
    && (forall b :: DATA_BLOCK <= b < NBLOCKS && !(lo <= b < hi) ==> BlockOf(e, b) == BlockOf(d, b))
    && (forall i :: 0 <= i < MAX_FILE && i != ino ==>
          SectorOf(e, InodeSector(i)) == SectorOf(d, InodeSector(i)))
  }

  lemma FlushedIndex(d0: Disk, d: Disk, e: Disk, c: seq<byte>, base: nat, hi: nat)
    requires Flushed(d0, d, c, base, Whole(c) + 1, hi) && |e| == DISK_SIZE && IndexNo(base) < hi
    requires forall k :: 0 <= k < NBLOCKS ==>
               BlockOf(e, k) == if k == IndexNo(base) then WordsBytes(IndexWords(base, Whole(c) + 1)) else BlockOf(d, k)
    ensures Flushed(d0, e, c, base, Whole(c) + 1, hi)
    ensures BlockOf(e, IndexNo(base)) == WordsBytes(IndexWords(base, Whole(c) + 1))
  {
    hide ChunkOf, BlockOf, WordsBytes, IndexWords;
  }

  lemma SectorWritten(d0: Disk, d: Disk, e: Disk, c: seq<byte>, base: nat, ino: nat, hi: nat)
    requires Flushed(d0, d, c, base, Whole(c) + 1, hi) && ino < MAX_FILE
    requires BlockOf(d, IndexNo(base)) == WordsBytes(IndexWords(base, Whole(c) + 1))
    requires e == Splice(d, InodeSector(ino) * SECTOR, WordsBytes(InodeWords(InodeOf(c, base))))
    ensures Stored(e, ino, c, base) && Untouched(d0, e, ino, base, hi)
  {
    hide ChunkOf, WordsBytes, IndexWords, InodeWords;
    var s := WordsBytes(InodeWords(InodeOf(c, base)));
    var at := InodeSector(ino) * SECTOR;
    forall b | DATA_BLOCK <= b < NBLOCKS ensures BlockOf(e, b) == BlockOf(d, b) {
      SpliceReads(d, at, s, b * BLOCK, (b + 1) * BLOCK);
    }
    SpliceReads(d, at, s, at, at + SECTOR);
    forall i | 0 <= i < MAX_FILE && i != ino
      ensures SectorOf(e, InodeSector(i)) == SectorOf(d0, InodeSector(i))
    {
      SpliceReads(d, at, s, InodeSector(i) * SECTOR, (InodeSector(i) + 1) * SECTOR);
      SectorPlace(d, i);
      SectorPlace(d0, i);
    }
    hide BlockOf, SectorOf, Splice;
  }

  /** A stored file survives the building of others. */
  lemma StoredKept(d: Disk, e: Disk, ino: nat, c: seq<byte>, base: nat, other: nat, lo: nat, hi: nat)
    requires Stored(d, ino, c, base) && Untouched(d, e, other, lo, hi) && ino != other
    requires base + Whole(c) + 2 <= lo
    ensures Stored(e, ino, c, base)
  {
    hide ChunkOf, BlockOf, SectorOf, WordsBytes, IndexWords, InodeWords;
  }
}
