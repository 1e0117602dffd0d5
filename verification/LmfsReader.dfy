/** The kernel's side of LMFS (fs/lmfs.c): from an inode number to the blocks of
    a file, and the file read through the buffered file layer. */
module LmfsReader {
  import opened Chain
  import opened LmfsDisk
  import opened LmfsNode
  import opened MkLmfs
  import Vfs

  // ---- the two programs agree -----------------------------------------------------

  /** What the kernel finds in the inode of a stored file. */
  lemma EntryReads(d: Disk, ino: nat, c: seq<byte>, base: nat)
    requires Stored(d, ino, c, base)
    ensures EntryWord(d, ino, 7) == |c| && EntryWord(d, ino, 2) == DT_BLK
    ensures EntryWord(d, ino, 9) == Whole(c) + 1 && EntryWord(d, ino, 64) == IndexNo(base)
  {
    var ws := InodeWords(InodeOf(c, base));
    assert ws[7] == |c| && ws[2] == DT_BLK && ws[9] == Whole(c) + 1 && ws[64] == IndexNo(base);
    hide InodeWords, EntryWord;
    InodeReads(d, ino, c, base, 7);
    InodeReads(d, ino, c, base, 2);
    InodeReads(d, ino, c, base, 9);
    InodeReads(d, ino, c, base, 64);
  }

  lemma InodeReads(d: Disk, ino: nat, c: seq<byte>, base: nat, k: nat)
    requires Stored(d, ino, c, base) && k < 128 && InodeWords(InodeOf(c, base))[k] < WORD
    ensures EntryWord(d, ino, k) == InodeWords(InodeOf(c, base))[k]
  {
    hide InodeWords, WordsBytes, WordAt, SectorOf, BlockOf;
    SectorPlace(d, ino);
    WordsRoundTrip(InodeWords(InodeOf(c, base)), k);
  }

  lemma IndexReads(d: Disk, ino: nat, c: seq<byte>, base: nat)
    requires Stored(d, ino, c, base)
    ensures Index(d, IndexNo(base)) == IndexWords(base, Whole(c) + 1)
  {
    hide WordsBytes, WordAt;
    var ws := IndexWords(base, Whole(c) + 1);
    forall k | 0 <= k < PER_PAGE ensures Index(d, IndexNo(base))[k] == ws[k] {
      WordsRoundTrip(ws, k);
    }
  }

  /** Byte k of a 32-bit word in memory is bits 8k to 8k + 7. */
  lemma LittleEndian(w: nat)
    requires w < WORD
    ensures var s := WordBytes(w); s[0] as nat == w % 256 && s[1] as nat == w / 0x100 % 256
    ensures var s := WordBytes(w); s[2] as nat == w / 0x1_0000 % 256 && s[3] as nat == w / 0x100_0000
  {
  }

  /** Where the bytes of a stored file are on the image: byte i of the file is in block base for
      the first 4096 of them, and in the blocks from base + 2 on for the others; the inode is
      sector ino behind 0x3000, with the file's size in bytes 28 to 31. */
  lemma OnDisk(d: Disk, ino: nat, c: seq<byte>, base: nat, i: nat)
    requires Stored(d, ino, c, base) && i < |c|
    ensures |d| == 0x10_0000 && 0x3000 + 512 * ino + 512 <= |d|
    ensures var b := if i < 4096 then base else base + 1 + i / 4096; b < 256 && d[4096 * b + i % 4096] == c[i]
    ensures d[0x3000 + 512 * ino + 28..0x3000 + 512 * ino + 32] == WordBytes(|c|)
  {
    var j := i / BLOCK;
    assert i == BLOCK * j + i % BLOCK;
    assert j <= Whole(c);
    assert BlockOf(d, DataNo(base, j)) == ChunkOf(c, j);
    ChunkByte(c, i);
    assert BlockOf(d, DataNo(base, j))[i % BLOCK] == d[DataNo(base, j) * BLOCK + i % BLOCK];
    hide BlockOf, ChunkOf;
    SizeWord(d, ino, c, base);
  }

  lemma ChunkByte(c: seq<byte>, i: nat)
    requires i < |c|
    ensures i / BLOCK <= Whole(c) && ChunkOf(c, i / BLOCK)[i % BLOCK] == c[i]
  {
    var j := i / BLOCK;
    assert i == BLOCK * j + i % BLOCK;
  }

  lemma SizeWord(d: Disk, ino: nat, c: seq<byte>, base: nat)
    requires Stored(d, ino, c, base)
    ensures 0x3000 + 512 * ino + 512 <= |d|
    ensures d[0x3000 + 512 * ino + 28..0x3000 + 512 * ino + 32] == WordBytes(|c|)
  {
    var ws := InodeWords(InodeOf(c, base));
    assert ws[7] == |c|;
    WordPlace(ws, 7);
    var at := 0x3000 + 512 * ino;
    assert SectorOf(d, InodeSector(ino)) == d[at..at + 512];
    hide InodeWords, WordsBytes, WordBytes, SectorOf;
    SubSlice(d, at, 512, 28, 32);
  }

  lemma SubSlice(d: Disk, at: nat, n: nat, a: nat, b: nat)
    requires at + n <= |d| && a <= b <= n
    ensures d[at..at + n][a..b] == d[at + a..at + b]
  {
    var s, t := d[at..at + n][a..b], d[at + a..at + b];
    assert |s| == |t| && forall i :: 0 <= i < |s| ==> s[i] == t[i];
  }

  /** Word k of an array is its bytes 4k to 4k + 3. */
  lemma {:induction false} WordPlace(ws: seq<nat>, k: nat)
    requires k < |ws|
    ensures WordsBytes(ws)[4 * k..4 * k + 4] == WordBytes(ws[k])
  {
    var n := |ws| - 1;
    if k < n {
      WordPlace(ws[..n], k);
      assert WordsBytes(ws)[4 * k..4 * k + 4] == WordsBytes(ws[..n])[4 * k..4 * k + 4];
    }
  }

  /** The blocks of a stored file, as a chain, hold its bytes and one block
      more than they fill. */
  ghost function ChunksOf(c: seq<byte>): seq<Block> {
    seq(Whole(c) + 1, j requires 0 <= j < Whole(c) + 1 => ChunkOf(c, j))
  }

  lemma ChunksHold(c: seq<byte>)
    ensures Uniform(ChunksOf(c), BLOCK) && |c| < Start(|ChunksOf(c)|, BLOCK)
    ensures Bytes(ChunksOf(c), BLOCK, 0, |c|) == c
  {
    var bs := ChunksOf(c);
    forall i | 0 <= i < |c| ensures ByteAt(bs, BLOCK, i) == c[i] {
      BlockExists(i, |bs|, BLOCK);
    }
  }

  /** Walking from START by NEXT until it reports no block: the chain that the
      file layer sees.  It is exactly the file's blocks, in order. */
  method WalkChain(f: Fnode, ghost ino: nat, ghost c: seq<byte>, ghost base: nat) returns (chain: seq<Block>)
    requires f.Valid() && Stored(f.d, ino, c, base)
    requires f.posLvl0 == 0 && f.posLvl1 == 0 && f.current == f.lvl1[0]
    requires f.lvl1 == IndexWords(base, Whole(c) + 1)
    modifies f`lvl1, f`posLvl0, f`posLvl1, f`current
    ensures chain == ChunksOf(c)
  {
    hide ChunkOf, BlockOf;
    var b := f.GetDataBlock(StartBlock);
    chain := [];
    while b != 0
      invariant f.Valid() && f.posLvl0 == 0 && f.lvl1 == IndexWords(base, Whole(c) + 1)
      invariant 0 <= |chain| == f.posLvl1 <= Whole(c) + 1 && b == f.lvl1[|chain|]
      invariant forall j :: 0 <= j < |chain| ==> chain[j] == ChunkOf(c, j)
      decreases Whole(c) + 1 - |chain|
    {
      assert b == DataNo(base, |chain|);
      chain := chain + [BlockOf(f.d, b)];
      b := f.GetDataBlock(NextBlock);
    }
    assert |chain| == Whole(c) + 1;
  }

  /** The file node of a stored file, at its start, tracks the file's blocks. */
  lemma StartTracks(f: Fnode, ino: nat, c: seq<byte>, base: nat)
    requires f.Valid() && Stored(f.d, ino, c, base) && f.lvl1 == IndexWords(base, Whole(c) + 1)
    requires f.posLvl0 == 0 && f.posLvl1 == 0 && f.current == f.lvl1[0]
    ensures Tracks(f, ChunksOf(c), 0)
  {
    hide ChunkOf, BlockOf;
  }

  /** A stored file reads back: any seek and read through the kernel, on the live file node,
      returns the bytes that the tool was given. */
  method ReadStored(d: Disk, ino: nat, from: nat, n: nat, ghost c: seq<byte>, ghost base: nat)
    returns (out: seq<byte>)
    requires Stored(d, ino, c, base) && from <= |c|
    ensures out == c[from..if from + n > |c| then |c| else from + n]
  {
    hide Stored, ChunksOf, IndexWords, Index, EntryWord, Bytes, Start, Uniform, Tracks;
    EntryReads(d, ino, c, base);
    IndexReads(d, ino, c, base);
    StoredShape(d, ino, c, base);
    var f := new Fnode(d, ino);
    var chain := WalkChain(f, ino, c, base);
    ChunksHold(c);
    var node := new Fnode(d, ino);
    StartTracks(node, ino, c, base);
    var file := new Vfs.File(BLOCK, true, chain, node.size, 0);
    var count;
    count, out := Vfs.SeekThenRead(file, from, n, node);
  }

  lemma StoredShape(d: Disk, ino: nat, c: seq<byte>, base: nat)
    requires Stored(d, ino, c, base)
    ensures |d| == DISK_SIZE && ino < MAX_FILE && IndexNo(base) < NBLOCKS
  {
  }

  /** Image round trip: for any list of files that fits on the image, building
      it with the tool and reading any part of any file through the kernel
      returns that part. */
  method ImageRoundTrip(files: seq<seq<byte>>, k: nat, from: nat, n: nat) returns (out: seq<byte>)
    requires |files| < MAX_FILE && Blocks(files) <= FREE_BLOCKS
    requires k < |files| && from <= |files[k]|
    ensures out == files[k][from..if from + n > |files[k]| then |files[k]| else from + n]
  {
    hide Stored, Blocks;
    var disk := MakeImage(files);
    out := ReadStored(disk, k + 1, from, n, files[k], Base(files, k));
  }
}
