/** sac_write as an operation on the volume: it writes one file's bytes. Which writes leave the block
    accounting exact, and what the others leak. */
module SacWrite {
  import opened Bytes
  import opened Layout
  import opened Volume
  import opened Inodes
  import opened Commits
  import opened DiskState
  import opened NodeOps
  import opened FreeSpace
  import opened Contents
  import opened GapFilling
  import opened FileWrite
  import opened FileCommit
  import opened FileStore

  /** What sac_write does to file fd. */
  ghost predicate WritePost(v: Vol, lk: set<nat>, v': Vol, own': Owners, lk': set<nat>, fd: nat, offset: nat,
                            buffer: seq<byte>)
  {
    var size := NodeAt(v.blk, fd).size;
    FilePost(v, lk, v', own', lk', fd, Overwritten(FileData(v, fd), offset, buffer), true,
             Filled(size, offset, offset + |buffer|), WriteKeepsShape(size, offset, |buffer|))
  }

  /** An extra data block is there only while the last block is the one it was before. */
  lemma ExtraKeepsLast(size: nat, offset: nat, pos: nat)
    requires offset <= pos
    ensures Extra(size, offset, pos) == 1 ==> Max(size, pos) / 4096 == size / 4096
    ensures Extra(size, offset, pos) <= 1
  {
  }

  lemma WriteKeepsIs(size: nat, offset: nat, count: nat, blk: seq<Block>, x: Node, f: Extent)
    requires Linked(blk, x.ptrs, f) && |f.data| > 0 && x.size == Max(size, offset + count)
    ensures Keeps(x, Extra(size, offset, offset + count)) <==> WriteKeepsShape(size, offset, count)
  {
    ExtraKeepsLast(size, offset, offset + count);
    CountOfLinked(blk, x, f);
    hide Extra, Linked, BlockCount;
  }

  lemma WriteDoneIs(d: Disk, x: TNode, n: nat, s0: Start, t: Table, offset: nat, buffer: seq<byte>)
    requires WriteDone(d, x, n, s0, t, offset, buffer) && s0.x.state == 1 && Fits(s0.x)
    ensures var e := Extra(s0.x.size, offset, offset + |buffer|);
            && CopyDone(s0, Snapshot(d, t, x), n, e, Overwritten(FileBytes(s0.blk, s0.t[n], s0.x.size), offset, buffer))
            && (Keeps(x.Val(), e) <==> WriteKeepsShape(s0.x.size, offset, |buffer|))
    ensures Fits(x.Val()) && x.state == 1 && |d.Vol().blk| == TOTAL_BLOCKS && BlockCount(x.Val()) > 0
    ensures s0.lk <= d.lk
    ensures |d.lk| + Extra(s0.x.size, offset, offset + |buffer|) ==
            |s0.lk| + Filled(s0.x.size, offset, offset + |buffer|)
  {
    CountOfLinked(d.Vol().blk, x.Val(), t[n]);
    ExtraKeepsLast(s0.x.size, offset, offset + |buffer|);
    WriteKeepsIs(s0.x.size, offset, |buffer|, d.Vol().blk, x.Val(), t[n]);
    SizeFits(d.Vol().bm, t, d.own, d.lk, n, x.Val());
    hide Sound, Linked, LowBits, SameOwners, FileBytes, Overwritten, Filled, Extra, Keeps, WriteKeepsShape;
  }

  lemma WriteDonePost(d: Disk, x: TNode, fd: nat, v: Vol, own: Owners, lk: set<nat>, t: Table, offset: nat,
                      buffer: seq<byte>)
    returns (own': Owners, lk': set<nat>)
    requires VolOk(v, own, lk) && IsFile(v, fd)
    requires WriteDone(d, x, fd, Start(v.bm, v.blk, own, lk, TableOf(v), NodeAt(v.blk, fd)), t, offset, buffer)
    ensures fd < NODE_TABLE_BLOCKS && Fits(x.Val()) && |d.Vol().blk| == TOTAL_BLOCKS && d.Sizes()
    ensures var v' := Vol(d.Vol().bm, d.Vol().blk[fd + 2 := NodeToBlock(x.Val())]);
            WritePost(v, lk, v', own', lk', fd, offset, buffer)
  {
    var s0 := Start(v.bm, v.blk, own, lk, TableOf(v), NodeAt(v.blk, fd));
    var e := Extra(s0.x.size, offset, offset + |buffer|);
    assert s0.x.state == 1 && Fits(s0.x) && fd < NODE_TABLE_BLOCKS;
    StartData(v, own, lk, fd);
    hide Sound, Linked, TableOf, NodeAt, FileBytes, Overwritten, Filled, Extra, Follows, NodeToBlock, FilePost,
      CopyDone, Keeps;
    WriteDoneIs(d, x, fd, s0, t, offset, buffer);
    own', lk' := Store(v, own, lk, s0, Snapshot(d, t, x), fd, e, Overwritten(FileData(v, fd), offset, buffer),
                        Filled(s0.x.size, offset, offset + |buffer|));
  }

  /** The end of sac_write: the copy is written back. */
  method FinishWrite(d: Disk, x: TNode, fd: nat, ghost v: Vol, ghost own: Owners, ghost lk: set<nat>, ghost t: Table,
                     ghost offset: nat, ghost buffer: seq<byte>)
    requires VolOk(v, own, lk) && IsFile(v, fd)
    requires WriteDone(d, x, fd, Start(v.bm, v.blk, own, lk, TableOf(v), NodeAt(v.blk, fd)), t, offset, buffer)
    modifies d, d.blocks
    ensures WritePost(v, lk, d.Vol(), d.own, d.lk, fd, offset, buffer) && d.Vol().bm == old(d.Vol()).bm
  {
    hide VolOk, IsFile, WriteDone, WritePost, TableOf, NodeAt, NodeToBlock;
    d.own, d.lk := WriteDonePost(d, x, fd, v, own, lk, t, offset, buffer);
    d.UnmapNode(x, fd);
  }

  /** sac_write. The bytes are right whenever the gap up to the offset, if any, is one that is filled right. A
      write that starts in the last block or fills no earlier block leaks nothing; any other leaks one
      block for every earlier block it fills, and in one case leaves the inode malformed. */
  method Write(d: Disk, fd: nat, buffer: seq<byte>, offset: nat) returns (ok: bool, count: nat)
    requires d.Ok() && IsFile(d.Vol(), fd)
    requires GapFits(NodeAt(d.Vol().blk, fd).size, offset)
    modifies d, d.bits, d.blocks
    ensures Paid(ok, old(d.Vol()).bm, d.Vol().bm,
                 WriteNeeds(HasBlock(old(d.Vol()).blk, fd), old(NodeAt(d.Vol().blk, fd).size), offset, |buffer|))
    ensures ok ==> count == |buffer| && WritePost(old(d.Vol()), old(d.lk), d.Vol(), d.own, d.lk, fd, offset, buffer)
  {
    hide *;
    Constants();
    ghost var v, own, lk := d.Vol(), d.own, d.lk;
    FileInNodes(v, fd);
    FileIsLive(v, fd);
    DiskOk(d);
    var x := d.ReadNode(fd);
    ReadyCopy(d, x, fd);
    CopyIs(d, x, fd);
    ghost var t;
    ok, t := WriteCopy(d, x, buffer, offset, fd, TableOf(v));
    count := |buffer|;
    if ok {
      FinishWrite(d, x, fd, v, own, lk, t, offset, buffer);
    }
  }

  lemma DiskOk(d: Disk)
    requires d.Ok()
    ensures d.Sizes() && VolOk(d.Vol(), d.own, d.lk)
  {
  }

  /** A copy just read has the size and the first pointer of the inode. */
  lemma CopyIs(d: Disk, x: TNode, n: nat)
    requires x.Val() == NodeAt(d.Vol().blk, n)
    ensures x.size == NodeAt(d.Vol().blk, n).size && |x.ptrs| == 1000 && (x.ptrs[0] != 0 <==> HasBlock(d.Vol().blk, n))
  {
    hide NodeAt;
    NodePtrs(d.Vol().blk, n);
  }

  lemma NodePtrs(blk: seq<Block>, n: nat)
    ensures |NodeAt(blk, n).ptrs| == 1000
  {
    hide BlockToNode;
  }
}
