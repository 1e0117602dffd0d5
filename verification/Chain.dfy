/** A file's bytes as a chain of equal blocks: what fs/vfs.c reads and writes
    through the file system's block operations. */
module Chain {

  newtype byte = b: int | 0 <= b < 256

  type Block = seq<byte>

  ghost predicate Uniform(blocks: seq<Block>, bs: nat) {
    forall k :: 0 <= k < |blocks| ==> |blocks[k]| == bs
  }

  /** Where block k starts. */
  ghost function Start(k: nat, bs: nat): nat { k * bs }

  lemma StartNext(k: nat, bs: nat)
    ensures Start(0, bs) == 0 && Start(k + 1, bs) == Start(k, bs) + bs
  {
    assert (k + 1) * bs == k * bs + bs;
  }

  lemma StartMono(k: nat, m: nat, bs: nat)
    requires k <= m
    ensures Start(k, bs) <= Start(m, bs)
    ensures Start(m, bs) == Start(k, bs) + Start(m - k, bs)
  {
    assert m * bs == k * bs + (m - k) * bs && (m - k) * bs >= 0;
  }

  /** Dividing a position gives its block and its place inside. */
  lemma Position(k: nat, r: nat, bs: nat)
    requires r < bs
    ensures (Start(k, bs) + r) / bs == k && (Start(k, bs) + r) % bs == r
  {
    var n := k * bs + r;
    assert n == (n / bs) * bs + n % bs;
    var d := n / bs - k;
    assert d * bs == r - n % bs;
    assert (d >= 1 ==> d * bs >= bs) && (d <= -1 ==> d * bs <= -1 * bs);
  }

  lemma Divide(i: nat, bs: nat)
    requires bs > 0
    ensures i == Start(i / bs, bs) + i % bs
  {
  }

  lemma BlockExists(i: nat, n: nat, bs: nat)
    requires bs > 0 && i < Start(n, bs)
    ensures i / bs < n
  {
    Divide(i, bs);
    if i / bs >= n { StartMono(n, i / bs, bs); }
  }

  ghost predicate Within(blocks: seq<Block>, bs: nat, to: nat) {
    bs > 0 && Uniform(blocks, bs) && to <= Start(|blocks|, bs)
  }

  /** One byte of the file. */
  ghost function ByteAt(blocks: seq<Block>, bs: nat, i: nat): byte
    requires Within(blocks, bs, i + 1)
  {
    BlockExists(i, |blocks|, bs);
    blocks[i / bs][i % bs]
  }

  /** The bytes from one position up to another. */
  ghost function Bytes(blocks: seq<Block>, bs: nat, from: nat, to: nat): (s: seq<byte>)
    requires from <= to && Within(blocks, bs, to)
    ensures |s| == to - from
  {
    seq(to - from, j requires 0 <= j < to - from => ByteAt(blocks, bs, from + j))
  }

  lemma BytesSplit(blocks: seq<Block>, bs: nat, from: nat, mid: nat, to: nat)
    requires from <= mid <= to && Within(blocks, bs, to)
    ensures Bytes(blocks, bs, from, to) == Bytes(blocks, bs, from, mid) + Bytes(blocks, bs, mid, to)
    ensures Bytes(blocks, bs, 0, to)[from..mid] == Bytes(blocks, bs, from, mid)
  {
    hide ByteAt;
  }

  /** Inside one block the bytes are a slice of it. */
  lemma BytesInBlock(blocks: seq<Block>, bs: nat, k: nat, a: nat, b: nat)
    requires k < |blocks| && a <= b <= bs && bs > 0 && Uniform(blocks, bs)
    ensures Start(k, bs) + b <= Start(|blocks|, bs)
    ensures Bytes(blocks, bs, Start(k, bs) + a, Start(k, bs) + b) == blocks[k][a..b]
  {
    StartNext(k, bs);
    StartMono(k + 1, |blocks|, bs);
    hide Start;
    var s := Bytes(blocks, bs, Start(k, bs) + a, Start(k, bs) + b);
    forall j | 0 <= j < b - a ensures s[j] == blocks[k][a..b][j] {
      var i := Start(k, bs) + a + j;
      assert i / bs == k && i % bs == a + j by {
        Position(k, a + j, bs);
        assert i == Start(k, bs) + (a + j);
      }
      assert s[j] == ByteAt(blocks, bs, i);
    }
  }

  /** The rest of block k from a, q whole blocks, and the head of the next. */
  lemma BytesAcross(blocks: seq<Block>, bs: nat, k: nat, a: nat, q: nat, left: nat)
    requires bs > 0 && Uniform(blocks, bs) && a <= bs && left <= bs
    requires k + q < |blocks| && (left > 0 ==> k + q + 1 < |blocks|)
    ensures Start(k, bs) + a <= Start(k + 1, bs) <= Start(k + 1 + q, bs)
    ensures Start(k + 1 + q, bs) + left <= Start(|blocks|, bs)
    ensures Bytes(blocks, bs, Start(k, bs) + a, Start(k + 1 + q, bs) + left) ==
            blocks[k][a..] + Bytes(blocks, bs, Start(k + 1, bs), Start(k + 1 + q, bs)) +
            (if left > 0 then blocks[k + 1 + q][..left] else [])
  {
    hide Start, Bytes;
    BytesInBlock(blocks, bs, k, a, bs);
    StartNext(k, bs);
    StartMono(k + 1, k + 1 + q, bs);
    StartMono(k + 1 + q, |blocks|, bs);
    if left > 0 { BytesInBlock(blocks, bs, k + 1 + q, 0, left); }
    var from, one, mid, to :=
      Start(k, bs) + a, Start(k + 1, bs), Start(k + 1 + q, bs), Start(k + 1 + q, bs) + left;
    BytesSplit(blocks, bs, from, one, to);
    BytesSplit(blocks, bs, one, mid, to);
    assert blocks[k][a..bs] == blocks[k][a..];
  }

  /** One more whole block. */
  lemma NextWhole(blocks: seq<Block>, bs: nat, k: nat, m: nat)
    requires k <= m < |blocks| && bs > 0 && Uniform(blocks, bs)
    ensures Start(k, bs) <= Start(m, bs) <= Start(m + 1, bs) <= Start(|blocks|, bs)
    ensures Bytes(blocks, bs, Start(k, bs), Start(m + 1, bs)) ==
            Bytes(blocks, bs, Start(k, bs), Start(m, bs)) + blocks[m]
  {
    hide Start, Bytes;
    StartMono(k, m, bs);
    StartMono(m + 1, |blocks|, bs);
    StartNext(m, bs);
    BytesSplit(blocks, bs, Start(k, bs), Start(m, bs), Start(m + 1, bs));
    BytesInBlock(blocks, bs, m, 0, bs);
  }

  /** Only the blocks that are read matter. */
  lemma BytesPrefixSame(blocks: seq<Block>, other: seq<Block>, bs: nat, to: nat, n: nat)
    requires Within(blocks, bs, to) && Within(other, bs, to) && to <= Start(n, bs)
    requires forall k :: 0 <= k < n && k < |blocks| && k < |other| ==> blocks[k] == other[k]
    ensures Bytes(blocks, bs, 0, to) == Bytes(other, bs, 0, to)
  {
    hide Start;
    forall i | 0 <= i < to ensures ByteAt(blocks, bs, i) == ByteAt(other, bs, i) {
      BlockExists(i, n, bs);
      BlockExists(i, |blocks|, bs);
      BlockExists(i, |other|, bs);
    }
  }

  /** Overwriting block m with d: the bytes before it stay, and the bytes up
      to any place inside it end with the head of d. */
  lemma BytesOverwrite(blocks: seq<Block>, bs: nat, m: nat, d: Block, n: nat)
    requires bs > 0 && Uniform(blocks, bs) && m < |blocks| && |d| == bs && n <= bs
    ensures Start(m, bs) + n <= Start(|blocks|, bs)
    ensures Uniform(blocks[m := d], bs)
    ensures Bytes(blocks[m := d], bs, 0, Start(m, bs) + n) == Bytes(blocks, bs, 0, Start(m, bs)) + d[..n]
  {
    hide Start, Bytes;
    var other := blocks[m := d];
    BytesInBlock(blocks, bs, m, 0, n);
    BytesInBlock(other, bs, m, 0, n);
    BytesPrefixSame(blocks, other, bs, Start(m, bs), m);
    BytesSplit(other, bs, 0, Start(m, bs), Start(m, bs) + n);
  }
}
