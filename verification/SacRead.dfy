/** sac_read. */
module SacRead {
  import opened Bytes
  import opened Layout
  import opened Volume
  import opened Inodes
  import opened DiskState
  import opened NodeOps
  import opened Contents
  import opened FileStore

  /** A stretch of the content inside one block is that stretch of the block. */
  lemma BlockSlice(blk: seq<Block>, f: Extent, size: nat, k: nat, at: nat, c: nat)
    requires k < |f.data| && at + c <= 4096 && 4096 * k + at + c <= size
    ensures FileBytes(blk, f, size)[4096 * k + at..4096 * k + at + c] == BlockAt(blk, f.data[k])[at..at + c]
  {
    var s, b := FileBytes(blk, f, size), BlockAt(blk, f.data[k]);
    var l, r := s[4096 * k + at..4096 * k + at + c], b[at..at + c];
    forall i | 0 <= i < c
      ensures l[i] == r[i]
    {
      assert (4096 * k + at + i) / 4096 == k && (4096 * k + at + i) % 4096 == at + i;
    }
  }

  /** One iteration: the part of the request that lies in the current block. */
  method ReadChunk(d: Disk, x: TNode, size: nat, done: seq<byte>, count: nat, offset: nat, k: nat, at: nat,
                   ghost n: nat, ghost t: Table) returns (data: seq<byte>)
    requires Holding(d, t, x, n) && |t[n].data| == size / 4096 + 1 && x.size == size
    requires |done| < count && offset + count <= size
    requires offset + |done| == 4096 * k + at && at < 4096
    requires done == FileBytes(d.Vol().blk, t[n], size)[offset..offset + |done|]
    ensures |done| < |data| <= count && data == FileBytes(d.Vol().blk, t[n], size)[offset..offset + |data|]
    ensures |data| < count ==> offset + |data| == 4096 * (k + 1)
  {
    hide Sound, Linked, FileBytes, InRegion;
    var most := if BLOCK_SIZE > x.size then x.size else BLOCK_SIZE;
    var c := if count - |done| > most - at then most - at else count - |done|;
    assert k < |t[n].data|;
    var b := BlockNumber(d, x, k, n, t);
    RegionBelow(b);
    BlockSlice(d.Vol().blk, t[n], size, k, at, c);
    ghost var s := FileBytes(d.Vol().blk, t[n], size);
    data := done + d.blocks[b][at..at + c];
    assert s[offset..offset + |done|] + s[offset + |done|..offset + |done| + c] == s[offset..offset + |done| + c];
  }

  method ReadLoop(d: Disk, x: TNode, count: nat, offset: nat, ghost n: nat, ghost t: Table) returns (data: seq<byte>)
    requires Holding(d, t, x, n) && |t[n].data| == x.size / 4096 + 1 && offset + count <= x.size
    ensures data == FileBytes(d.Vol().blk, t[n], x.size)[offset..offset + count]
  {
    assert n in t;
    hide Holding, FileBytes;
    ghost var s := FileBytes(d.Vol().blk, t[n], x.size);
    data := [];
    var k: nat := offset / BLOCK_SIZE;
    var at: nat := offset - BLOCK_SIZE * k;
    while |data| < count
      invariant |data| <= count && data == s[offset..offset + |data|]
      invariant |data| < count ==> offset + |data| == 4096 * k + at && at < 4096
      decreases count - |data|
    {
      data := ReadChunk(d, x, x.size, data, count, offset, k, at, n, t);
      if |data| >= x.size {
        break;
      }
      if |data| < count {
        k, at := k + 1, 0;
      }
    }
  }

  /** A file with a data block: the bytes of the range that exist. */
  method ReadFile(d: Disk, x: TNode, count: nat, offset: nat, ghost n: nat, ghost t: Table) returns (data: seq<byte>)
    requires Holding(d, t, x, n) && |t[n].data| == x.size / 4096 + 1
    ensures data == Slice(FileBytes(d.Vol().blk, t[n], x.size), offset, count)
  {
    assert n in t;
    hide Holding, FileBytes;
    if offset >= x.size {
      return [];
    }
    var most := if count + offset > x.size then x.size - offset else count;
    data := ReadLoop(d, x, most, offset, n, t);
  }

  /** sac_read's promise: -1 for what is not a file, or has no data block; otherwise exactly the bytes of
      the range that exist. */
  ghost predicate ReadPost(v: Vol, fd: nat, count: nat, offset: nat, r: int, data: seq<byte>)
  {
    var x := NodeAt(v.blk, fd);
    if x.state != 1 || |x.ptrs| != 1000 || x.ptrs[0] == 0 then r == -1 && data == []
    else r == |data| && data == Slice(FileData(v, fd), offset, count)
  }

  lemma ReadPostIs(v: Vol, own: Owners, lk: set<nat>, fd: nat, count: nat, offset: nat, data: seq<byte>)
    requires VolOk(v, own, lk) && IsFile(v, fd) && NodeAt(v.blk, fd).ptrs[0] != 0
    ensures fd in TableOf(v) && |TableOf(v)[fd].data| == NodeAt(v.blk, fd).size / 4096 + 1
    ensures data == Slice(FileBytes(v.blk, TableOf(v)[fd], NodeAt(v.blk, fd).size), offset, count) ==>
            ReadPost(v, fd, count, offset, |data|, data)
  {
    StoredIsLinked(v, own, lk, fd);
    StartData(v, own, lk, fd);
    hide FileBytes, NodeAt, TableOf, Sound, Linked, Slice;
  }

  /** The copy of inode fd that sac_read holds is read from. */
  method ReadHeld(d: Disk, x: TNode, fd: nat, count: nat, offset: nat) returns (r: int, data: seq<byte>)
    requires d.Ok() && Live(d.Vol().bm, fd) && x.Val() == NodeAt(d.Vol().blk, fd)
    ensures ReadPost(d.Vol(), fd, count, offset, r, data)
  {
    hide VolOk, Holding, NodeOk, BlockToNode, FileBytes, TableOf, FileData, Slice;
    ReadyCopy(d, x, fd);
    assert |x.ptrs| == 1000;
    hide NodeAt;
    r, data := -1, [];
    if x.state == 1 && x.ptrs[0] != 0 {
      ReadPostIs(d.Vol(), d.own, d.lk, fd, count, offset, []);
      hide ReadPost;
      data := ReadFile(d, x, count, offset, fd, TableOf(d.Vol()));
      ReadPostIs(d.Vol(), d.own, d.lk, fd, count, offset, data);
      r := |data|;
    }
  }

  /** sac_read. The volume does not change. */
  method Read(d: Disk, fd: nat, count: nat, offset: nat) returns (r: int, data: seq<byte>)
    requires d.Ok() && Live(d.Vol().bm, fd)
    requires offset < 0x8000_0000 && offset + count < 0x1_0000_0000
    modifies d.blocks
    ensures d.Vol() == old(d.Vol())
    ensures ReadPost(d.Vol(), fd, count, offset, r, data)
    ensures var x, s := NodeAt(d.Vol().blk, fd), FileData(d.Vol(), fd);
            if x.state == 1 && BlockCount(x) > 0 then
              && r == |data| == (if offset >= |s| then 0 else if count <= |s| - offset then count else |s| - offset)
              && (forall i | 0 <= i < |data| :: data[i] == s[offset + i])
            else
              r == -1 && data == []
  {
    hide *;
    LiveIsSound(d, fd);
    var x := d.ReadNode(fd);
    r, data := ReadHeld(d, x, fd, count, offset);
    ReadBytes(d.Vol(), fd, count, offset, r, data);
    d.UnmapRead(x, fd);
  }

  lemma LiveIsSound(d: Disk, fd: nat)
    requires d.Ok() && Live(d.Vol().bm, fd)
    ensures d.Sizes() && fd < NODE_TABLE_BLOCKS
  {
    hide VolOk;
  }

  /** The promise, byte by byte. */
  lemma ReadBytes(v: Vol, fd: nat, count: nat, offset: nat, r: int, data: seq<byte>)
    requires ReadPost(v, fd, count, offset, r, data)
    ensures var x, s := NodeAt(v.blk, fd), FileData(v, fd);
            if x.state == 1 && BlockCount(x) > 0 then
              && r == |data| == (if offset >= |s| then 0 else if count <= |s| - offset then count else |s| - offset)
              && (forall i | 0 <= i < |data| :: data[i] == s[offset + i])
            else
              r == -1 && data == []
  {
    hide BlockToNode, FileBytes;
    assert |NodeAt(v.blk, fd).ptrs| == 1000;
    SliceBytes(FileData(v, fd), offset, count);
    hide Slice, FileData;
  }
}
