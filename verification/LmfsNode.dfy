/** The kernel's file node of LMFS (fs/lmfs.c): from an inode number to the data blocks of
    a file, one at a time. */
module LmfsNode {
  import opened Chain
  import opened LmfsDisk

  /** fnode_location: the block of an inode and its place in it. */
  function FnodeLocation(index: nat): (nat, nat) { (index / 8 + INODE_BLOCK, index % 8) }

  /** Word k of an inode (struct lmfs_fnode_entry). */
  function EntryWord(d: Disk, index: nat, k: nat): nat
    requires |d| == DISK_SIZE && index < MAX_FILE && k < 128
  {
    var (i, j) := FnodeLocation(index);
    WordAt(BlockOf(d, i)[j * SECTOR..(j + 1) * SECTOR], k)
  }

  /** The words of an index block. */
  function Index(d: Disk, b: nat): (ws: seq<nat>)
    requires |d| == DISK_SIZE && b < NBLOCKS
    ensures |ws| == PER_PAGE
  {
    seq(PER_PAGE, k requires 0 <= k < PER_PAGE => WordAt(BlockOf(d, b), k))
  }

  datatype Whence = StartBlock | CurrentBlock | NextBlock | PrevBlock

  class Fnode {
    const d: Disk
    var size: nat
    var kind: nat
    var blockNr: nat
    var lvl1: seq<nat>
    var posLvl0: nat
    var posLvl1: nat
    var current: nat

    ghost predicate Valid()
      reads this
    {
      |d| == DISK_SIZE && |lvl1| == PER_PAGE && posLvl1 < PER_PAGE && posLvl0 < 64
    }

    /** lmfs_fill_fnode and init_data_block_info for a regular file. */
    constructor (d: Disk, index: nat)
      requires |d| == DISK_SIZE && index < MAX_FILE && EntryWord(d, index, 64) < NBLOCKS
      ensures Valid() && this.d == d && posLvl0 == 0 && posLvl1 == 0
      ensures size == EntryWord(d, index, 7) && kind == EntryWord(d, index, 2)
      ensures blockNr == EntryWord(d, index, 9)
      ensures lvl1 == Index(d, EntryWord(d, index, 64)) && current == lvl1[0]
    {
      this.d := d;
      size, kind, blockNr := EntryWord(d, index, 7), EntryWord(d, index, 2), EntryWord(d, index, 9);
      posLvl0, posLvl1 := 0, 0;
      var ix := Index(d, EntryWord(d, index, 64));
      lvl1, current := ix, ix[0];
    }

    /** Reads another index block; beyond the device that is an I/O error. */
    method LoadIndex(b: nat) returns (ok: bool)
      requires Valid()
      modifies this`lvl1
      ensures Valid() && (ok <==> b < NBLOCKS)
      ensures lvl1 == if ok then Index(d, b) else old(lvl1)
    {
      ok := b < NBLOCKS;
      if ok { lvl1 := Index(d, b); }
    }

    /** lmfs_get_data_block.  The branches that leave the first index block look
        its successor up in the index block itself, not in the inode. */
    method GetDataBlock(whence: Whence) returns (b: nat)
      requires Valid() && posLvl0 < 63
      modifies this`lvl1, this`posLvl0, this`posLvl1, this`current
      ensures Valid()
      ensures whence == StartBlock && old(posLvl0) == 0 && old(posLvl1) == 0 ==> b == current && unchanged(this)
      ensures whence == CurrentBlock ==> b == current && unchanged(this)
      ensures whence == NextBlock && old(posLvl1) < PER_PAGE - 1 ==>
        && posLvl1 == old(posLvl1) + 1 && posLvl0 == old(posLvl0) && lvl1 == old(lvl1)
        && b == current == lvl1[posLvl1]
      ensures whence == NextBlock && old(posLvl1) == PER_PAGE - 1 ==>
        var n := old(lvl1[posLvl0 + 1]);
        if n == 0 || n >= NBLOCKS then b == 0 && unchanged(this)
        else lvl1 == Index(d, n) && posLvl0 == old(posLvl0) + 1 && posLvl1 == 0 && b == current == lvl1[0]
      ensures whence == PrevBlock && old(posLvl1) > 0 ==>
        && posLvl1 == old(posLvl1) - 1 && posLvl0 == old(posLvl0) && lvl1 == old(lvl1)
        && b == current == lvl1[posLvl1]
      ensures whence == PrevBlock && old(posLvl1) == 0 && old(posLvl0) == 0 ==> b == 0 && unchanged(this)
      ensures whence == PrevBlock && old(posLvl1) == 0 && old(posLvl0) > 0 ==>
        var n := old(lvl1[posLvl0 - 1]);
        if n >= NBLOCKS then b == 0 && unchanged(this)
        else lvl1 == Index(d, n) && posLvl0 == old(posLvl0) - 1 && posLvl1 == PER_PAGE - 1 && b == current == lvl1[posLvl1]
      ensures whence == StartBlock && !(old(posLvl0) == 0 && old(posLvl1) == 0) ==>
        var n := old(lvl1[0]);
        if n >= NBLOCKS then b == 0 && unchanged(this)
        else lvl1 == Index(d, n) && posLvl0 == 0 && posLvl1 == 0 && b == current == lvl1[0]
    {
      hide Index;
      match whence
      case StartBlock =>
        if posLvl0 == 0 && posLvl1 == 0 {
          return current;
        }
        var ok := LoadIndex(lvl1[0]);
        if !ok {
          return 0;
        }
        posLvl0, posLvl1, current := 0, 0, lvl1[0];
        return current;
      case CurrentBlock =>
        return current;
      case NextBlock =>
        if posLvl1 == PER_PAGE - 1 {
          if lvl1[posLvl0 + 1] == 0 {
            return 0;
          }
          var ok := LoadIndex(lvl1[posLvl0 + 1]);
          if !ok {
            return 0;
          }
          posLvl0, posLvl1, current := posLvl0 + 1, 0, lvl1[0];
        } else {
          posLvl1 := posLvl1 + 1;
          current := lvl1[posLvl1];
        }
        return current;
      case PrevBlock =>
        if posLvl1 == 0 {
          if posLvl0 == 0 {
            return 0;
          }
          var ok := LoadIndex(lvl1[posLvl0 - 1]);
          if !ok {
            return 0;
          }
          posLvl0, posLvl1, current := posLvl0 - 1, PER_PAGE - 1, lvl1[PER_PAGE - 1];
        } else {
          posLvl1 := posLvl1 - 1;
          current := lvl1[posLvl1];
        }
        return current;
    }
  }

  /** The node stands on block cur of the chain, and its index block names the chain. */
  ghost predicate Tracks(node: Fnode, blocks: seq<Block>, cur: nat)
    reads node
  {
    && node.Valid() && node.posLvl0 == 0 && cur == node.posLvl1 < |blocks| < PER_PAGE
    && node.current == node.lvl1[cur] && node.lvl1[|blocks|] == 0
    && forall k :: 0 <= k < |blocks| ==> 0 < node.lvl1[k] < NBLOCKS && BlockOf(node.d, node.lvl1[k]) == blocks[k]
  }

  /** VFS_NEXT_BLOCK steps along the chain and reports its end. */
  method StepNext(node: Fnode, ghost blocks: seq<Block>) returns (ok: bool)
    requires Tracks(node, blocks, node.posLvl1)
    modifies node
    ensures ok <==> old(node.posLvl1) + 1 < |blocks|
    ensures ok ==> Tracks(node, blocks, old(node.posLvl1) + 1)
  {
    hide BlockOf;
    var b := node.GetDataBlock(NextBlock);
    ok := b != 0;
  }

  /** VFS_PREV_BLOCK steps back and reports the start. */
  method StepPrev(node: Fnode, ghost blocks: seq<Block>) returns (ok: bool)
    requires Tracks(node, blocks, node.posLvl1)
    modifies node
    ensures ok <==> old(node.posLvl1) > 0
    ensures Tracks(node, blocks, if ok then old(node.posLvl1) - 1 else old(node.posLvl1))
  {
    hide BlockOf;
    var b := node.GetDataBlock(PrevBlock);
    ok := b != 0;
  }

  /** lmfs_read_block of the block the node stands on. */
  method Load(node: Fnode, ghost blocks: seq<Block>, ghost cur: nat) returns (b: Block)
    requires Tracks(node, blocks, cur)
    ensures b == blocks[cur]
  {
    hide BlockOf;
    b := BlockOf(node.d, node.current);
  }
}
