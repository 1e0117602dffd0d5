/** The bytes of an LMFS image, and 32-bit words in them. */
module LmfsDisk {
  import opened Chain

  const BLOCK := 4096
  const SECTOR := 512
  const NBLOCKS := 256          // MAX_SIZE / BLOCK_SIZE
  const DISK_SIZE := 0x100000   // MAX_SIZE
  const MAX_FILE := 32
  const INODE_BLOCK := 3        // after super block, inode pool and block pool
  const PER_PAGE := 1024

  type Disk = seq<byte>

  function BlockOf(d: Disk, b: nat): (r: Block)
    requires (b + 1) * BLOCK <= |d|
    ensures |r| == BLOCK
  {
    d[b * BLOCK..(b + 1) * BLOCK]
  }

  function SectorOf(d: Disk, s: nat): (r: seq<byte>)
    requires (s + 1) * SECTOR <= |d|
    ensures |r| == SECTOR
  {
    d[s * SECTOR..(s + 1) * SECTOR]
  }

  /** memcpy into the image. */
  function Splice(d: Disk, off: nat, s: seq<byte>): (r: Disk)
    requires off + |s| <= |d|
    ensures |r| == |d|
  {
    d[..off] + s + d[off + |s|..]
  }

  lemma SpliceReads(d: Disk, off: nat, s: seq<byte>, a: nat, b: nat)
    requires off + |s| <= |d| && a <= b <= |d|
    ensures b <= off || off + |s| <= a ==> Splice(d, off, s)[a..b] == d[a..b]
    ensures a == off && b == off + |s| ==> Splice(d, off, s)[a..b] == s
  {
    var e := Splice(d, off, s);
    assert forall i :: 0 <= i < |d| ==> e[i] == if off <= i < off + |s| then s[i - off] else d[i];
    if b <= off || off + |s| <= a { assert forall i :: 0 <= i < b - a ==> e[a..b][i] == d[a..b][i]; }
    if a == off && b == off + |s| { assert forall i :: 0 <= i < |s| ==> e[a..b][i] == s[i]; }
  }

  // ---- words -------------------------------------------------------------

  const WORD := 0x1_0000_0000

  function WordBytes(w: nat): (s: seq<byte>)
    ensures |s| == 4
  {
    [(w % 256) as byte, (w / 256 % 256) as byte, (w / 65536 % 256) as byte, (w / 16777216 % 256) as byte]
  }

  function WordAt(s: seq<byte>, i: nat): nat
    requires 4 * i + 4 <= |s|
  {
    s[4 * i] as nat + 256 * s[4 * i + 1] as nat + 65536 * s[4 * i + 2] as nat + 16777216 * s[4 * i + 3] as nat
  }

  /** An array of words as it lies in memory. */
  function WordsBytes(ws: seq<nat>): (s: seq<byte>)
    ensures |s| == 4 * |ws|
  {
    if ws == [] then [] else WordsBytes(ws[..|ws| - 1]) + WordBytes(ws[|ws| - 1])
  }

  lemma WordRoundTrip(w: nat)
    requires w < WORD
    ensures WordAt(WordBytes(w), 0) == w
  {
    var a := w / 256;
    var b := a / 256;
    assert w / 65536 == b && w / 16777216 == b / 256 && b / 256 < 256;
    assert w == 256 * a + w % 256 && a == 256 * b + a % 256 && b == 256 * (b / 256) + b % 256;
  }

  /** Reading a word back out of an array gives what was stored. */
  lemma {:induction false} WordsRoundTrip(ws: seq<nat>, i: nat)
    requires i < |ws| && ws[i] < WORD
    ensures WordAt(WordsBytes(ws), i) == ws[i]
  {
    var s := WordsBytes(ws);
    var front := WordsBytes(ws[..|ws| - 1]);
    if i < |ws| - 1 {
      WordsRoundTrip(ws[..|ws| - 1], i);
      assert s[..|front|] == front;
    } else {
      WordRoundTrip(ws[i]);
      assert s[4 * i..4 * i + 4] == WordBytes(ws[i]);
    }
  }
}
