/** Buffered files over a block chain (fs/vfs.c). */
module Vfs {
  import opened Chain
  import LmfsNode

  const ENOSPC := -28
  const EINVAL := -22
  const EFBIG := -27

  /** How vfs_read and vfs_write cut a request: bytes in the buffered block,
      whole blocks after it, and bytes of a last block. */
  datatype Cut = Cut(head: nat, whole: nat, left: nat)

  function CutOf(pos: nat, n: nat, bs: nat): (c: Cut)
    requires pos < bs
    ensures c.head + Start(c.whole, bs) + c.left == n
    ensures c.head <= bs - pos && c.left < bs
    ensures c.head < bs - pos ==> c.whole == 0 && c.left == 0
  {
    var room := bs - pos;
    if room > n then
      StartNext(0, bs);
      Cut(n, 0, 0)
    else
      Divide(n - room, bs);
      Cut(room, (n - room) / bs, (n - room) % bs)
  }

  function Rem(x: nat, bs: nat): (r: nat)
    requires bs > 0
    ensures r < bs
  {
    x % bs
  }

  /** Where a request that starts at pos in block k ends. */
  lemma Landing(k: nat, pos: nat, n: nat, bs: nat)
    requires pos < bs
    ensures var c := CutOf(pos, n, bs);
      if c.head < bs - pos then pos + n < bs && Rem(pos + n, bs) == pos + n
      else Rem(pos + n, bs) == c.left &&
           Start(k, bs) + pos + n == Start(k + 1 + c.whole, bs) + c.left
  {
    var c := CutOf(pos, n, bs);
    StartNext(c.whole, bs);
    Position(c.whole + 1, c.left, bs);
    StartMono(k, k + 1 + c.whole, bs);
    hide Start;
  }

  /** The cursor and rw_pos a read ends with agree with the new offset, except
      when it starts inside a block and ends on a block boundary. */
  lemma ReadLands(k: nat, pos: nat, n: nat, bs: nat)
    requires pos < bs
    ensures var c := CutOf(pos, n, bs);
      var reload := c.left > 0 || c.head == bs;
      var k' := k + c.whole + if reload then 1 else 0;
      && (Start(k', bs) + Rem(pos + n, bs) == Start(k, bs) + pos + n <==>
            !(pos > 0 && n > 0 && Rem(pos + n, bs) == 0))
      && (!reload && !(pos > 0 && n > 0 && Rem(pos + n, bs) == 0) ==> k' == k)
  {
    var c := CutOf(pos, n, bs);
    Landing(k, pos, n, bs);
    hide Start;
    StartNext(k + c.whole, bs);
    StartNext(0, bs);
  }

  /** The same for a write, which loads no block at the end. */
  lemma WriteLands(k: nat, pos: nat, n: nat, bs: nat)
    requires pos < bs
    ensures var c := CutOf(pos, n, bs);
      var need := c.whole + if c.left > 0 then 1 else 0;
      && (Start(k + need, bs) + Rem(pos + n, bs) == Start(k, bs) + pos + n <==>
            n == 0 || Rem(pos + n, bs) != 0)
      && (n == 0 || Rem(pos + n, bs) != 0 ==> need == 0 || c.left > 0)
  {
    var c := CutOf(pos, n, bs);
    Landing(k, pos, n, bs);
    hide Start;
    StartNext(k + c.whole, bs);
    StartNext(0, bs);
  }

  lemma Joined(p: seq<byte>, b: seq<byte>, i: nat, j: nat)
    requires i <= j <= |b|
    ensures (p + b[..i]) + b[i..j] == p + b[..j]
    ensures b[..|b|] == b
  {
  }

  datatype Whence = SeekSet | SeekCur | SeekEnd

  /** baligin(x, bs) / bs for a power of two. */
  function Ceil(x: nat, bs: nat): nat
    requires bs > 0
  {
    (x + bs - 1) / bs
  }

  lemma CeilIs(x: nat, bs: nat)
    requires bs > 0
    ensures Ceil(x, bs) == x / bs + if x % bs > 0 then 1 else 0
    ensures x == Start(x / bs, bs) + x % bs
  {
    Divide(x, bs);
    var q, r := x / bs, x % bs;
    if r > 0 {
      StartNext(q, bs);
      Position(q + 1, r - 1, bs);
    } else {
      Position(q, bs - 1, bs);
    }
  }

  /** Blocks that a seek crosses going forward by n from pos; the exact
      multiple needs one more. */
  function AheadBlocks(pos: nat, n: nat, bs: nat): nat
    requires pos < bs && n >= bs - pos
  {
    Ceil(n - (bs - pos), bs) + if (n - (bs - pos)) % bs == 0 then 1 else 0
  }

  lemma AheadLands(k: nat, pos: nat, n: nat, bs: nat, m: nat)
    requires pos < bs && n >= bs - pos
    ensures var r := (n - (bs - pos)) % bs; var j := AheadBlocks(pos, n, bs);
      && r < bs && r % bs == r
      && Start(k + j, bs) + r == Start(k, bs) + pos + n
      && (k + j >= m ==> Start(m, bs) <= Start(k, bs) + pos + n)
  {
    var x := n - (bs - pos);
    CeilIs(x, bs);
    var j := AheadBlocks(pos, n, bs);
    assert j == x / bs + 1;
    hide Ceil, Start;
    StartNext(x / bs, bs);
    StartMono(k, k + j, bs);
    Position(0, x % bs, bs);
    StartNext(0, bs);
    if k + j >= m { StartMono(m, k + j, bs); }
  }

  /** Blocks that a seek crosses going back by n from pos. */
  function BackBlocks(pos: nat, n: nat, bs: nat): nat
    requires pos < bs && n > pos
  {
    Ceil(n - pos, bs)
  }

  lemma BackLands(k: nat, pos: nat, n: nat, bs: nat)
    requires pos < bs && n > pos
    ensures var r := bs - (n - pos) % bs; var j := BackBlocks(pos, n, bs);
      && 0 <= r % bs < bs
      && (k >= j ==> Start(k - j, bs) + r % bs + n == Start(k, bs) + pos)
      && (k < j ==> Start(k, bs) + pos < n)
  {
    var x := n - pos;
    CeilIs(x, bs);
    ModBack(x % bs, bs);
    BackLinear(k, pos, n, bs, x / bs, x % bs);
  }

  lemma BackLinear(k: nat, pos: nat, n: nat, bs: nat, q: nat, r: nat)
    requires pos < bs && n > pos && r < bs && n - pos == Start(q, bs) + r
    ensures var back := if r == 0 then 0 else bs - r;
      var j := q + if r > 0 then 1 else 0;
      && (k >= j ==> Start(k - j, bs) + back + n == Start(k, bs) + pos)
      && (k < j ==> Start(k, bs) + pos < n)
  {
    hide Start;
    var j := q + if r > 0 then 1 else 0;
    StartNext(q, bs);
    if k >= j { StartMono(k - j, k, bs); } else { StartMono(k + 1, j, bs); StartNext(k, bs); }
  }

  lemma ModBack(r: nat, bs: nat)
    requires r < bs
    ensures (bs - r) % bs == if r == 0 then 0 else bs - r
  {
    StartNext(0, bs);
    if r > 0 { Position(0, bs - r, bs); } else { Position(1, 0, bs); }
  }

  class File {
    const bs: nat            // fnode->buffer_size
    const hasPrev: bool      // FS_FOPS_PREV_BLOCK
    var blocks: seq<Block>   // the chain, block by block
    var free: nat            // blocks the file system can still add to it
    var cur: nat             // the chain's own cursor
    var buf: Block           // fnode->data_buffer
    var rwPos: nat           // fnode->rw_pos
    var size: int            // fnode->data_size
    var offset: int          // file->offset

    /** What the C code needs of its own data to stay in bounds. */
    ghost predicate Shaped()
      reads this
    {
      && bs > 0 && Uniform(blocks, bs) && |buf| == bs
      && cur < |blocks| && rwPos < bs && offset <= size
    }

    /** The buffer holds the block of the offset, the cursor is on it, rw_pos
        is the offset modulo the block size, and the chain has at least
        size / bs + 1 blocks. */
    ghost predicate Buffered()
      reads this
    {
      && Shaped()
      && buf == blocks[cur] && offset == Start(cur, bs) + rwPos
      && size < Start(|blocks|, bs)
    }

    /** The file as a reader should see it. */
    ghost function Contents(): seq<byte>
      requires Buffered()
      reads this
    {
      Bytes(blocks, bs, 0, size)
    }

    constructor (bs: nat, hasPrev: bool, blocks: seq<Block>, size: nat, free: nat)
      requires bs > 0 && Uniform(blocks, bs) && size < Start(|blocks|, bs)
      ensures Buffered() && offset == 0 && cur == 0
      ensures this.bs == bs && this.hasPrev == hasPrev
      ensures this.blocks == blocks && this.size == size && this.free == free
    {
      this.bs := bs;
      this.hasPrev := hasPrev;
      this.blocks, this.size, this.free := blocks, size, free;
      cur, rwPos, offset := 0, 0, 0;
      buf := if |blocks| > 0 then blocks[0] else [];
    }

    // ---- the chain ---------------------------------------------------------

    /** The file system below: a chain of blocks with a cursor, or the file node of LMFS, which
        then names the blocks and stands on that of the cursor. */
    ghost predicate Below(node: LmfsNode.Fnode?)
      reads this, node
    {
      node != null ==> LmfsNode.Tracks(node, blocks, cur)
    }

    /** vfs_get_data_block(VFS_NEXT_BLOCK): 0 at the end of the chain. */
    method NextBlock(node: LmfsNode.Fnode? := null) returns (ok: bool)
      requires Shaped() && Below(node)
      modifies this`cur, node
      ensures ok <==> old(cur) + 1 < |blocks|
      ensures cur == if ok then old(cur) + 1 else old(cur)
      ensures ok ==> Below(node)
    {
      if node == null {
        ok := cur + 1 < |blocks|;
      } else {
        ok := LmfsNode.StepNext(node, blocks);
      }
      if ok { cur := cur + 1; }
    }

    method PrevBlock(node: LmfsNode.Fnode? := null) returns (ok: bool)
      requires Shaped() && Below(node)
      modifies this`cur, node
      ensures ok <==> old(cur) > 0
      ensures cur == if ok then old(cur) - 1 else old(cur)
      ensures Below(node)
    {
      if node == null {
        ok := cur > 0;
      } else {
        ok := LmfsNode.StepPrev(node, blocks);
      }
      if ok { cur := cur - 1; }
    }

    /** vfs_read_block(VFS_NEXT_BLOCK) into the file's own buffer. */
    method LoadNext(node: LmfsNode.Fnode? := null) returns (ok: bool)
      requires Shaped() && Below(node)
      modifies this`cur, this`buf, node
      ensures ok <==> old(cur) + 1 < |blocks|
      ensures cur == if ok then old(cur) + 1 else old(cur)
      ensures buf == (if ok then blocks[cur] else old(buf)) && |buf| == bs
      ensures ok ==> Below(node)
    {
      hide LmfsNode.Tracks;
      ok := NextBlock(node);
      if ok { buf := Fetch(node); }
    }

    /** __vfs_read_block at the cursor. */
    method Fetch(node: LmfsNode.Fnode? := null) returns (b: Block)
      requires Uniform(blocks, bs) && cur < |blocks| && Below(node)
      ensures b == blocks[cur] && |b| == bs
    {
      if node == null {
        b := blocks[cur];
      } else {
        b := LmfsNode.Load(node, blocks, cur);
      }
    }

    // ---- vfs_read ------------------------------------------------------------

    /** How much of a request lies in the file. */
    function Wanted(n: nat): nat
      reads this
      requires offset <= size
    {
      if offset + n > size then size - offset else n
    }

    ghost function ReadCut(n: nat): Cut
      reads this
      requires Shaped()
    {
      CutOf(rwPos, Wanted(n), bs)
    }

    /** Whether the read leaves a newly loaded block in the buffer: its tail
        lies in one, or it starts and ends on a block boundary. */
    ghost predicate Reloads(n: nat)
      reads this
      requires Shaped()
    {
      ReadCut(n).left > 0 || ReadCut(n).head == bs
    }

    /** Steps along the chain that the read takes. */
    ghost function Nexts(n: nat): nat
      reads this
      requires Shaped()
    {
      ReadCut(n).whole + (if Reloads(n) then 1 else 0)
    }

    /** What the read hands out: the rest of the buffer, then the blocks that
        follow the cursor. */
    ghost function Served(n: nat): seq<byte>
      reads this
      requires Shaped() && cur + Nexts(n) < |blocks|
    {
      var c := ReadCut(n);
      BytesAcross(blocks, bs, cur, 0, c.whole, c.left);
      buf[rwPos..rwPos + c.head] +
      Bytes(blocks, bs, Start(cur + 1, bs), Start(cur + 1 + c.whole, bs)) +
      (if c.left > 0 then blocks[cur + 1 + c.whole][..c.left] else [])
    }

    /** The loop of vfs_read: whole blocks into the caller's buffer. */
    method ReadBlocks(q: nat, node: LmfsNode.Fnode? := null) returns (ok: bool, data: seq<byte>)
      requires Shaped() && Below(node)
      modifies this`cur, node
      ensures ok ==> Below(node)
      ensures ok <==> old(cur) + q < |blocks|
      ensures ok ==> cur == old(cur) + q
      ensures ok ==> Start(old(cur) + 1, bs) <= Start(old(cur) + 1 + q, bs) <= Start(|blocks|, bs)
      ensures ok ==> data == Bytes(blocks, bs, Start(old(cur) + 1, bs), Start(old(cur) + 1 + q, bs))
      ensures cur < |blocks|
    {
      hide Start, Bytes, Below;
      ghost var c := cur;
      StartMono(c + 1, |blocks|, bs);
      data := [];
      var i := 0;
      while i < q
        invariant 0 <= i <= q && cur == c + i < |blocks| && Below(node)
        invariant Start(c + 1, bs) <= Start(c + 1 + i, bs) <= Start(|blocks|, bs)
        invariant data == Bytes(blocks, bs, Start(c + 1, bs), Start(c + 1 + i, bs))
      {
        var next := NextBlock(node);
        if !next {
          return false, data;
        }
        NextWhole(blocks, bs, c + 1, c + 1 + i);
        var b := Fetch(node);
        data := data + b;
        i := i + 1;
      }
      ok := true;
    }

    /** The copying part of vfs_read: buffer, whole blocks, last block, and the
        block after it when the buffer is used up. */
    method CopyOut(n: nat, node: LmfsNode.Fnode? := null) returns (ok: bool, out: seq<byte>)
      requires Shaped() && Below(node)
      modifies this`cur, this`buf, node
      ensures ok ==> Below(node)
      ensures ok <==> old(cur + Nexts(n)) < |blocks|
      ensures ok ==>
        && out == old(Served(n))
        && cur == old(cur + Nexts(n)) && cur < |blocks|
        && buf == (if old(Reloads(n)) then blocks[cur] else old(buf)) && |buf| == bs
    {
      hide Start, Bytes, Uniform, Below;
      var cut := CutOf(rwPos, Wanted(n), bs);
      var inBuffer, left := cut.head, cut.left;
      out := buf[rwPos..rwPos + inBuffer];
      var copied, data := ReadBlocks(cut.whole, node);
      if !copied {
        return false, out + data;
      }
      out := out + data;
      if left > 0 {
        var next := LoadNext(node);
        if !next {
          return false, out;
        }
        out := out + buf[..left];
        inBuffer := bs - left;
      }
      if inBuffer == bs {
        var next := LoadNext(node);
        if !next {
          return false, out;
        }
      }
      ok := true;
    }

    /** Reads what is left of the request in the file.  From a buffered state
        that is the slice at the offset, and the state stays buffered unless
        the read starts inside a block and ends exactly on a boundary. */
    method Read(n: nat, node: LmfsNode.Fnode? := null) returns (ret: int, out: seq<byte>)
      requires Shaped() && Below(node)
      modifies this`cur, this`buf, this`rwPos, this`offset, node
      ensures ret >= 0 ==> Below(node)
      ensures ret == old(Wanted(n)) || ret == ENOSPC
      ensures ret >= 0 <==> old(cur + Nexts(n)) < |blocks|
      ensures ret >= 0 ==>
        && out == old(Served(n))
        && offset == old(offset) + ret && rwPos == Rem(old(rwPos) + ret, bs)
        && cur == old(cur + Nexts(n)) && cur < |blocks|
        && buf == if old(Reloads(n)) then blocks[cur] else old(buf)
      ensures old(Buffered()) ==>
        && ret == old(Wanted(n))
        && out == old(Contents()[offset..offset + Wanted(n)])
        && (Buffered() <==> old(rwPos == 0 || Wanted(n) == 0 || Rem(rwPos + Wanted(n), bs) != 0))
    {
      hide Start, Bytes, Uniform, Served, Rem, CutOf, LmfsNode.Tracks;
      ghost var buffered := Buffered();
      if buffered { ReadsSlice(n); }
      ReadLands(cur, rwPos, Wanted(n), bs);
      var want := Wanted(n);
      if want == 0 {
        EmptyServed(n);
        return 0, [];
      }
      var ok;
      ok, out := CopyOut(n, node);
      if !ok {
        return ENOSPC, out;
      }
      offset := offset + want;
      rwPos := Rem(rwPos + want, bs);
      return want, out;
    }

    /** From a buffered state the chain is long enough, and what is served is
        the slice of the file at the offset. */
    lemma ReadsSlice(n: nat)
      requires Buffered()
      ensures cur + Nexts(n) < |blocks|
      ensures Served(n) == Contents()[offset..offset + Wanted(n)]
    {
      hide Start, Bytes, Served, Nexts, CutOf;
      ServesBytes(n);
      BytesSplit(blocks, bs, offset, offset + Wanted(n), size);
    }

    /** What is served is the chain's bytes at the offset. */
    lemma ServesBytes(n: nat)
      requires Buffered()
      ensures cur + Nexts(n) < |blocks|
      ensures Served(n) == Bytes(blocks, bs, offset, offset + Wanted(n))
    {
      hide Start, Bytes, Served, Nexts;
      Landing(cur, rwPos, Wanted(n), bs);
      if ReadCut(n).head < bs - rwPos { ServesHead(n); } else { ServesAcross(n); }
    }

    lemma ServesHead(n: nat)
      requires Buffered() && ReadCut(n).head < bs - rwPos
      ensures cur + Nexts(n) < |blocks|
      ensures Served(n) == Bytes(blocks, bs, offset, offset + Wanted(n))
    {
      hide Start, Bytes;
      var want := Wanted(n);
      Landing(cur, rwPos, want, bs);
      StartNext(0, bs);
      BytesInBlock(blocks, bs, cur, rwPos, rwPos + want);
      StartMono(cur + 1, |blocks|, bs);
    }

    lemma ServesAcross(n: nat)
      requires Buffered() && ReadCut(n).head == bs - rwPos
      ensures cur + Nexts(n) < |blocks|
      ensures Served(n) == Bytes(blocks, bs, offset, offset + Wanted(n))
    {
      hide Start, Bytes;
      var c := ReadCut(n);
      Landing(cur, rwPos, Wanted(n), bs);
      if cur + 1 + c.whole >= |blocks| { StartMono(|blocks|, cur + 1 + c.whole, bs); }
      BytesAcross(blocks, bs, cur, rwPos, c.whole, c.left);
    }

    // ---- vfs_seek ------------------------------------------------------------

    method StepNext(k: nat, node: LmfsNode.Fnode? := null) returns (ok: bool)
      requires Shaped() && Below(node)
      modifies this`cur, node
      ensures ok ==> Below(node)
      ensures ok <==> old(cur) + k < |blocks|
      ensures ok ==> cur == old(cur) + k
      ensures cur < |blocks|
    {
      hide Below;
      var i := 0;
      while i < k
        invariant 0 <= i <= k && cur == old(cur) + i < |blocks| && Below(node)
      {
        var next := NextBlock(node);
        if !next {
          return false;
        }
        i := i + 1;
      }
      return true;
    }

    method StepPrev(k: nat, node: LmfsNode.Fnode? := null) returns (ok: bool)
      requires Shaped() && Below(node)
      modifies this`cur, node
      ensures ok ==> Below(node)
      ensures ok <==> old(cur) >= k
      ensures ok ==> cur == old(cur) - k
      ensures cur < |blocks|
    {
      hide Below;
      var i := 0;
      while i < k
        invariant 0 <= i <= k && cur == old(cur) - i && Below(node)
      {
        var prev := PrevBlock(node);
        if !prev {
          return false;
        }
        i := i + 1;
      }
      return true;
    }

    /** The forward half: move ahead by n bytes from pos in the current block. */
    method Forward(n: nat, node: LmfsNode.Fnode? := null) returns (ok: bool)
      requires Shaped() && Below(node)
      modifies this`cur, this`buf, this`rwPos, node
      ensures ok ==> Below(node)
      ensures cur < |blocks| && |buf| == bs && rwPos < bs
      ensures ok ==>
        && Start(cur, bs) + rwPos == old(Start(cur, bs) + rwPos) + n
        && (buf == blocks[cur] || (buf == old(buf) && cur == old(cur)))
      ensures !ok ==> Start(|blocks|, bs) <= old(Start(cur, bs) + rwPos) + n
    {
      hide Start, Ceil, AheadBlocks, Uniform, LmfsNode.Tracks;
      var left := bs - rwPos;
      if n >= left {
        AheadLands(cur, rwPos, n, bs, |blocks|);
        var aligned := (n - left) % bs;
        var moved := StepNext(AheadBlocks(rwPos, n, bs), node);
        if !moved {
          return false;
        }
        buf := Fetch(node);
        rwPos := aligned;
      } else {
        Position(0, rwPos + n, bs);
        StartNext(0, bs);
        rwPos := rwPos + n;
      }
      rwPos := rwPos % bs;
      return true;
    }

    /** The backward half, for file systems that can step back. */
    method Backward(n: nat, node: LmfsNode.Fnode? := null) returns (ok: bool)
      requires Shaped() && Below(node)
      modifies this`cur, this`buf, this`rwPos, node
      ensures ok ==> Below(node)
      ensures cur < |blocks| && |buf| == bs && rwPos < bs
      ensures ok ==>
        && Start(cur, bs) + rwPos + n == old(Start(cur, bs) + rwPos)
        && (buf == blocks[cur] || (buf == old(buf) && cur == old(cur)))
      ensures !ok ==> old(Start(cur, bs) + rwPos) < n
    {
      hide Start, Ceil, BackBlocks, Uniform, LmfsNode.Tracks;
      var left := rwPos;
      if n > left {
        BackLands(cur, rwPos, n, bs);
        var aligned := (n - left) % bs;
        var moved := StepPrev(BackBlocks(rwPos, n, bs), node);
        if !moved {
          return false;
        }
        buf := Fetch(node);
        rwPos := bs - aligned;
      } else {
        Position(0, rwPos - n, bs);
        StartNext(0, bs);
        rwPos := rwPos - n;
      }
      rwPos := rwPos % bs;
      return true;
    }

    /** Where a successful seek should end; SEEK_CUR does not stop at the end
        of the file although its block walk does. */
    ghost function Target(off: int, whence: Whence): int
      reads this
    {
      match whence
      case SeekSet => off
      case SeekCur => if off <= 0 || offset >= size then offset else offset + off
      case SeekEnd => size
    }

    /** A negative SEEK_SET is not refused as such: the walk back finds no block, and so
        does the walk forward after a restart, which takes the offset as unsigned. */
    method Seek(off: int, whence: Whence, node: LmfsNode.Fnode? := null) returns (ret: int)
      requires Below(node) && (node != null ==> hasPrev)
      requires Shaped() && off >= -0x8000_0000 && (off < 0 ==> offset - off < 0x8000_0000)
      modifies this`cur, this`buf, this`rwPos, this`offset, node
      ensures ret != ENOSPC ==> Below(node)
      ensures whence == SeekSet && off > size ==> ret == EINVAL && unchanged(this)
      ensures
        && old(Buffered()) && whence == SeekSet && off < 0
        && (hasPrev || Start(|blocks|, bs) <= 0x1_0000_0000 + off) ==>
          ret == ENOSPC && offset == old(offset)
      ensures old(Buffered()) && !(whence == SeekSet && (off > size || off < 0)) ==>
        && offset == old(Target(off, whence))
        && ret == (if offset == old(offset) then 0 else offset)
        && (Buffered() <==> offset <= size)
    {
      hide Start, Uniform, LmfsNode.Tracks;
      ghost var sound := Buffered();
      if sound { StartMono(0, cur, bs); StartNext(0, bs); }
      var dist, back, target := 0, false, 0;
      match whence {
        case SeekSet =>
          if off > size {
            return EINVAL;
          }
          if off < offset {
            back, dist := true, offset - off;
          } else {
            dist := off - offset;
          }
          target := off;
        case SeekCur =>
          dist := if offset + off > size then size - offset else off;
          target := offset + off;
        case SeekEnd =>
          dist := size - offset;
          target := size;
      }
      if dist <= 0 {
        return 0;
      }
      if back && !hasPrev && dist > rwPos {
        dist := offset - dist;
        rwPos, back := 0, false;
        cur := 0;
        buf := Fetch();
      }
      var ok;
      if back {
        ok := Backward(dist, node);
      } else {
        ok := Forward(if dist < 0 then dist + 0x1_0000_0000 else dist, node);
      }
      if !ok {
        return ENOSPC;
      }
      StartNext(cur, bs);
      StartMono(cur + 1, |blocks|, bs);
      offset := target;
      return offset;
    }

    // ---- vfs_write -----------------------------------------------------------

    /** The next block of the chain, or a new one at its end. */
    method NextOrNew(grown: bool) returns (err: int, grown': bool)
      requires Shaped() && (grown ==> cur == |blocks| - 1)
      modifies this`cur, this`blocks, this`free
      ensures err == 0 <==> old(cur) + 1 < |old(blocks)| || old(free) > 0
      ensures err == 0 || err == ENOSPC || err == EFBIG
      ensures err == 0 ==>
        && cur == old(cur) + 1 && cur < |blocks| && (grown' ==> cur == |blocks| - 1)
        && old(blocks) <= blocks && |blocks| + free == |old(blocks)| + old(free)
      ensures err != 0 ==> blocks == old(blocks)
      ensures Uniform(blocks, bs) && cur < |blocks|
    {
      grown' := grown;
      if !grown {
        var next := NextBlock();
        if next {
          return 0, grown';
        }
        grown' := true;
      }
      if free == 0 {
        return (if grown then EFBIG else ENOSPC), grown';
      }
      blocks, free := blocks + [seq(bs, _ => 0)], free - 1;
      cur := |blocks| - 1;
      return 0, grown';
    }

    /** __vfs_write_block at the cursor. */
    method Store(d: Block)
      requires Uniform(blocks, bs) && cur < |blocks| && |d| == bs
      modifies this`blocks
      ensures blocks == old(blocks)[cur := d] && Uniform(blocks, bs)
    {
      blocks := blocks[cur := d];
    }

    /** The whole blocks of a write. */
    method WriteBlocks(data: seq<byte>, q: nat) returns (err: int, grown: bool)
      requires Shaped() && |data| == Start(q, bs)
      modifies this`cur, this`blocks, this`free
      ensures err == 0 <==> old(cur) + q < |old(blocks)| + old(free)
      ensures err == 0 || err == ENOSPC || err == EFBIG
      ensures Uniform(blocks, bs) && cur < |blocks|
      ensures q == 0 ==> blocks == old(blocks) && free == old(free)
      ensures err == 0 ==>
        && cur == old(cur) + q && (grown ==> cur == |blocks| - 1)
        && |blocks| + free == |old(blocks)| + old(free)
        && Start(old(cur) + 1, bs) <= Start(|old(blocks)|, bs)
        && Start(cur + 1, bs) <= Start(|blocks|, bs)
        && Bytes(blocks, bs, 0, Start(cur + 1, bs)) ==
           Bytes(old(blocks), bs, 0, Start(old(cur) + 1, bs)) + data
    {
      hide Start, Bytes;
      ghost var c, was := cur, blocks;
      StartMono(c + 1, |blocks|, bs);
      StartNext(0, bs);
      grown := false;
      var i, done := 0, 0;
      while i < q
        invariant 0 <= i <= q && cur == c + i < |blocks| && Uniform(blocks, bs)
        invariant i == 0 ==> blocks == was && free == old(free)
        invariant grown ==> cur == |blocks| - 1
        invariant |blocks| + free == |was| + old(free)
        invariant done == Start(i, bs) <= |data|
        invariant Start(cur + 1, bs) <= Start(|blocks|, bs)
        invariant Bytes(blocks, bs, 0, Start(cur + 1, bs)) ==
                  Bytes(was, bs, 0, Start(c + 1, bs)) + data[..done]
      {
        ghost var before := blocks;
        err, grown := NextOrNew(grown);
        if err != 0 {
          return;
        }
        StartNext(i, bs);
        StartMono(i + 1, q, bs);
        StartNext(cur, bs);
        StartMono(cur, |before|, bs);
        StartMono(cur + 1, |blocks|, bs);
        BytesPrefixSame(before, blocks, bs, Start(cur, bs), cur);
        var d := data[done..done + bs];
        BytesOverwrite(blocks, bs, cur, d, bs);
        Joined(Bytes(was, bs, 0, Start(c + 1, bs)), data, done, done + bs);
        Store(d);
        done := done + bs;
        i := i + 1;
      }
      assert data[..done] == data;
      err := 0;
    }

    /** The bytes that fit in the buffered block, through the buffer. */
    method WriteHead(d: seq<byte>)
      requires Shaped() && |d| <= bs - rwPos
      modifies this`buf, this`blocks
      ensures Uniform(blocks, bs) && |buf| == bs && |blocks| == |old(blocks)|
      ensures buf == blocks[cur]
      ensures Start(cur, bs) + rwPos + |d| <= Start(|blocks|, bs)
      ensures old(buf == blocks[cur]) ==>
        Bytes(blocks, bs, 0, Start(cur, bs) + rwPos + |d|) ==
        Bytes(old(blocks), bs, 0, Start(cur, bs) + rwPos) + d
    {
      hide Start, Bytes;
      ghost var was := blocks;
      buf := buf[..rwPos] + d + buf[rwPos + |d|..];
      BytesOverwrite(blocks, bs, cur, buf, rwPos + |d|);
      assert buf[..rwPos + |d|] == old(buf)[..rwPos] + d;
      BytesInBlock(blocks, bs, cur, 0, rwPos);
      BytesSplit(blocks, bs, 0, Start(cur, bs), Start(cur, bs) + rwPos);
      Store(buf);
    }

    /** The bytes of the last block; the rest of it keeps what the buffer held. */
    method WriteTail(d: seq<byte>, grown: bool) returns (err: int)
      requires Shaped() && |d| < bs && (grown ==> cur == |blocks| - 1)
      modifies this`cur, this`buf, this`blocks, this`free
      ensures err == 0 <==> old(cur) + 1 < |old(blocks)| + old(free)
      ensures err == 0 || err == ENOSPC || err == EFBIG
      ensures Uniform(blocks, bs) && |buf| == bs && cur < |blocks|
      ensures err == 0 ==>
        && cur == old(cur) + 1 && buf == blocks[cur]
        && Start(cur, bs) <= Start(|old(blocks)|, bs)
        && Start(cur, bs) + |d| < Start(|blocks|, bs)
        && Bytes(blocks, bs, 0, Start(cur, bs) + |d|) ==
           Bytes(old(blocks), bs, 0, Start(cur, bs)) + d
    {
      hide Start, Bytes;
      ghost var was := blocks;
      StartMono(cur + 1, |blocks|, bs);
      var more;
      err, more := NextOrNew(grown);
      if err != 0 {
        return;
      }
      StartMono(cur + 1, |blocks|, bs);
      StartNext(cur, bs);
      BytesPrefixSame(was, blocks, bs, Start(cur, bs), cur);
      buf := d + buf[|d|..];
      BytesOverwrite(blocks, bs, cur, buf, |d|);
      assert buf[..|d|] == d;
      Store(buf);
    }

    /** Blocks beyond the buffered one that a write of n bytes needs. */
    ghost function Need(n: nat): nat
      reads this
      requires Shaped()
    {
      var c := CutOf(rwPos, n, bs);
      c.whole + if c.left > 0 then 1 else 0
    }

    /** They are just enough: the last byte written lies in the last of them. */
    lemma NeedIs(n: nat)
      requires Shaped() && n > 0
      ensures Start(Need(n), bs) < rwPos + n <= Start(Need(n) + 1, bs)
    {
      hide Start;
      Landing(0, rwPos, n, bs);
      StartNext(0, bs);
      var c := CutOf(rwPos, n, bs);
      StartNext(c.whole, bs);
      StartNext(c.whole + 1, bs);
    }

    /** They are there if and only if the bytes up to the last one written fit into the t blocks
        there are and may be. */
    lemma NeedFits(n: nat, t: nat)
      requires Buffered() && |blocks| <= t
      ensures cur + Need(n) < t <==> offset + n <= Start(t, bs)
    {
      hide Start, Uniform;
      StartMono(|blocks|, t, bs);
      if n > 0 {
        NeedIs(n);
        var m := cur + Need(n);
        StartMono(cur, m, bs);
        StartMono(cur, m + 1, bs);
        if m < t { StartMono(m + 1, t, bs); } else { StartMono(t, m, bs); }
      }
    }

    /** What lies behind the buffered block: whole blocks and a last part. */
    method WriteRest(d: seq<byte>, q: nat, left: nat) returns (ret: int)
      requires Shaped() && |d| == Start(q, bs) + left && left < bs
      modifies this`cur, this`buf, this`blocks, this`free
      ensures ret == 0 <==> old(cur) + q + (if left > 0 then 1 else 0) < |old(blocks)| + old(free)
      ensures ret == 0 || ret == ENOSPC || ret == EFBIG
      ensures Uniform(blocks, bs) && |buf| == bs && cur < |blocks|
      ensures q == 0 && left == 0 ==> blocks == old(blocks) && buf == old(buf)
      ensures ret == 0 ==>
        && cur == old(cur) + q + (if left > 0 then 1 else 0) && (left > 0 ==> buf == blocks[cur])
        && Start(old(cur) + 1, bs) <= Start(|old(blocks)|, bs)
        && Start(old(cur) + 1, bs) + |d| <= Start(|blocks|, bs)
        && Bytes(blocks, bs, 0, Start(old(cur) + 1, bs) + |d|) ==
           Bytes(old(blocks), bs, 0, Start(old(cur) + 1, bs)) + d
    {
      hide Start, Bytes, Uniform;
      ghost var at := Start(cur + 1, bs);
      StartMono(cur + 1, cur + 1 + q, bs);
      StartMono(cur + 1, |blocks|, bs);
      ghost var prefix := Bytes(blocks, bs, 0, at);
      Joined(prefix, d, |d| - left, |d|);
      var grown;
      ret, grown := WriteBlocks(d[..|d| - left], q);
      if ret != 0 {
        return;
      }
      if left > 0 {
        ret := WriteTail(d[|d| - left..|d|], grown);
      }
    }

    /** The copying part of vfs_write. */
    method CopyIn(b: seq<byte>) returns (ret: int)
      requires Shaped()
      modifies this`cur, this`buf, this`blocks, this`free
      ensures ret == 0 <==> old(cur + Need(|b|)) < |old(blocks)| + old(free)
      ensures ret == 0 || ret == ENOSPC || ret == EFBIG
      ensures Uniform(blocks, bs) && |buf| == bs && cur < |blocks|
      ensures ret == 0 ==>
        && cur == old(cur + Need(|b|))
        && (Need(|b|) == 0 || CutOf(rwPos, |b|, bs).left > 0 ==> buf == blocks[cur])
      ensures ret == 0 && old(buf == blocks[cur]) ==>
        var from := old(Start(cur, bs)) + rwPos;
        && from <= Start(|old(blocks)|, bs) && from + |b| <= Start(|blocks|, bs)
        && Bytes(blocks, bs, 0, from + |b|) == Bytes(old(blocks), bs, 0, from) + b
    {
      hide Start, Bytes, Uniform, CutOf;
      var cut := CutOf(rwPos, |b|, bs);
      Landing(cur, rwPos, |b|, bs);
      StartNext(0, bs);
      StartNext(cur, bs);
      StartMono(cur + 1, cur + 1 + cut.whole, bs);
      StartMono(cur + 1, |blocks|, bs);
      Joined(Bytes(blocks, bs, 0, Start(cur, bs) + rwPos), b, cut.head, |b|);
      WriteHead(b[..cut.head]);
      ret := WriteRest(b[cut.head..|b|], cut.whole, cut.left);
    }

    /** A write truncates and appends: what lies before the offset stays, the
        data follows, and the file ends there.  The state stays buffered unless
        the data ends exactly on a block boundary. */
    method Write(b: seq<byte>) returns (ret: int)
      requires Shaped()
      modifies this`cur, this`buf, this`blocks, this`free, this`rwPos, this`size, this`offset
      ensures ret == 0 <==> old(cur + Need(|b|)) < |old(blocks)| + old(free)
      ensures ret == 0 || ret == ENOSPC || ret == EFBIG
      ensures ret != 0 ==> offset == old(offset) && size == old(size) && rwPos == old(rwPos)
      ensures ret == 0 ==> size == offset == old(offset) + |b| && rwPos == Rem(old(rwPos) + |b|, bs)
      ensures old(Buffered()) && ret == 0 ==>
        && Uniform(blocks, bs) && size <= Start(|blocks|, bs)
        && Bytes(blocks, bs, 0, size) == old(Contents()[..offset]) + b
        && (Buffered() <==> |b| == 0 || old(Rem(rwPos + |b|, bs)) != 0)
    {
      hide Start, Bytes, Uniform, Rem, CutOf;
      ghost var sound := Buffered();
      if sound { BytesSplit(blocks, bs, 0, offset, size); }
      WriteLands(cur, rwPos, |b|, bs);
      ret := CopyIn(b);
      if ret != 0 {
        return;
      }
      StartNext(cur, bs);
      StartMono(cur + 1, |blocks|, bs);
      size := offset + |b|;
      offset := offset + |b|;
      rwPos := Rem(rwPos + |b|, bs);
    }

    lemma EmptyServed(n: nat)
      requires Shaped() && Wanted(n) == 0
      ensures ReadCut(n) == Cut(0, 0, 0) && Nexts(n) == 0 && !Reloads(n) && Served(n) == []
      ensures rwPos == Rem(rwPos, bs)
    {
    }
  }

  /** Seek then read is a slice: whichever way the seek went, a read of n bytes
      at t returns exactly the bytes of the file from t, cut at its end. */
  method SeekThenRead(f: File, t: nat, n: nat, node: LmfsNode.Fnode? := null) returns (ret: int, out: seq<byte>)
    requires f.Buffered() && t <= f.size && f.Below(node) && (node != null ==> f.hasPrev)
    modifies f, node
    ensures f.Below(node)
    ensures f.blocks == old(f.blocks) && f.size == old(f.size)
    ensures out == old(f.Contents())[t..if t + n > f.size then f.size else t + n]
    ensures ret == |out|
  {
    hide LmfsNode.Tracks;
    var _ := f.Seek(t, SeekSet, node);
    ret, out := f.Read(n, node);
  }

  /** Seeking ahead by off from the current offset, then reading, is the slice off bytes further
      on. */
  method SeekAheadThenRead(f: File, off: nat, n: nat) returns (ret: int, out: seq<byte>)
    requires f.Buffered() && f.offset + off <= f.size
    modifies f
    ensures f.size == old(f.size) && ret == |out|
    ensures var t := old(f.offset) + off; out == old(f.Contents())[t..if t + n > f.size then f.size else t + n]
  {
    var _ := f.Seek(off, SeekCur);
    ret, out := f.Read(n);
  }

  /** A write after a seek to the end appends, if and only if the longer file fits into the
      blocks of the chain and the free ones. */
  method SeekEndThenWrite(f: File, b: seq<byte>) returns (ret: int)
    requires f.Buffered()
    modifies f
    ensures ret == 0 <==> old(f.size) + |b| <= Start(|old(f.blocks)| + old(f.free), f.bs)
    ensures ret == 0 ==> Uniform(f.blocks, f.bs) && 0 <= f.size <= Start(|f.blocks|, f.bs)
    ensures ret == 0 ==> Bytes(f.blocks, f.bs, 0, f.size) == old(f.Contents()) + b
  {
    hide Bytes, Start, Uniform;
    ghost var c := f.Contents();
    var _ := f.Seek(0, SeekEnd);
    AllBytes(f, c);
    f.NeedFits(|b|, |f.blocks| + f.free);
    ret := f.Write(b);
  }

  lemma AllBytes(f: File, c: seq<byte>)
    requires f.Buffered() && c == f.Contents() && f.offset == f.size
    ensures f.Contents()[..f.offset] == c
  {
  }

  /** What is written at the offset reads back, unless it ends on a boundary. */
  method WriteThenReadBack(f: File, b: seq<byte>) returns (ret: int, out: seq<byte>)
    requires f.Buffered() && f.cur + f.Need(|b|) < |f.blocks| + f.free
    requires |b| == 0 || Rem(f.rwPos + |b|, f.bs) != 0
    modifies f
    ensures ret == |b| && out == b
  {
    hide Start, Bytes, Uniform, Rem, CutOf;
    var o := f.offset;
    var _ := f.Write(b);
    ret, out := SeekThenRead(f, o, |b|);
  }

  /** The failing case of Read: after a read from inside a block up to its end,
      the next read starts over in the same block. */
  method StaleAfterBoundary(f: File) returns (out: seq<byte>)
    requires f.Buffered() && f.rwPos > 0 && Start(f.cur + 1, f.bs) < f.size
    modifies f
    ensures f.blocks == old(f.blocks)
    ensures out == [old(f.blocks[f.cur][0])]
  {
    hide Bytes, Uniform, Start, Rem;
    StartNext(f.cur, f.bs);
    StartNext(0, f.bs);
    var n := f.bs - f.rwPos;
    ExactCut(f.rwPos, f.bs);
    Landing(f.cur, f.rwPos, n, f.bs);
    var _, _ := f.Read(n);
    assert CutOf(0, 1, f.bs) == Cut(1, 0, 0);
    var _, next := f.Read(1);
    out := next;
  }

  lemma ExactCut(pos: nat, bs: nat)
    requires 0 < pos < bs
    ensures CutOf(pos, bs - pos, bs) == Cut(bs - pos, 0, 0)
  {
  }
}
