/** The byte-level part of sac_truncate: shrinking block by block, and growing by a write. */
module SacTruncate {
  import opened Layout
  import opened Volume
  import opened Inodes
  import opened Commits
  import opened DiskState
  import opened NodeOps
  import opened Contents
  import opened FileWrite
  import opened FileCommit
  import opened FileStore

  // ---------------------------------------------------------------- the arithmetic of one iteration

  lemma DeleteStep(size: nat, length: nat)
    requires size > length && (size - length >= 4096 || length == 0)
    ensures ShorterSize(size) < size
    ensures TruncSize(ShorterSize(size), length) == TruncSize(size, length)
    ensures ShorterSize(size) > length ==>
              (TruncLeavesBlock(ShorterSize(size), length) <==> TruncLeavesBlock(size, length))
    ensures ShorterSize(size) <= length ==> !TruncLeavesBlock(size, length)
  {
  }

  lemma DeleteBlocks(size: nat, length: nat, count: nat, count': nat)
    requires size > length && (size - length >= 4096 || length == 0)
    requires count == size / 4096 + 1 && count' + 1 == count
    ensures ShrinkBlocks(count' > 0, ShorterSize(size), length) <==> ShrinkBlocks(true, size, length)
  {
  }

  lemma CutStep(size: nat, length: nat)
    requires size > length > 0 && size - length < 4096
    ensures TruncSize(size, length) == length == TruncSize(length, length)
    ensures size / 4096 == length / 4096 + if TruncLeavesBlock(size, length) then 1 else 0
  {
  }

  // ---------------------------------------------------------------- the loop

  /** The blocks too many while the loop runs: none until the last iteration. */
  function LeftOver(start: nat, size: nat, length: nat): nat
  {
    if TruncLeavesBlock(start, length) && size <= length then 1 else 0
  }

  /** The loop invariant: the same final size and the same block left behind are still ahead, no byte has
      changed, and the file keeps a prefix of its data blocks. */
  ghost predicate Shrinking(d: Disk, x: TNode, n: nat, s: Start, t: Table, length: nat)
    reads d, d.bits, d.blocks, x
  {
    && Since(d, x, n, s, t) && d.Vol().blk == s.blk && d.lk == s.lk
    && TruncSize(x.size, length) == TruncSize(s.x.size, length)
    && (x.size > length ==> (TruncLeavesBlock(x.size, length) <==> TruncLeavesBlock(s.x.size, length)))
    && |t[n].data| == BlockCount(x.Val()) + LeftOver(s.x.size, x.size, length)
    && (x.ptrs[0] == 0 ==> x.size == 0 && LeftOver(s.x.size, x.size, length) == 0)
    && t[n].data <= s.t[n].data
    && (ShrinkBlocks(BlockCount(x.Val()) > 0, x.size, length) <==>
        ShrinkBlocks(BlockCount(s.x) > 0, s.x.size, length))
  }

  lemma StartShrinking(d: Disk, x: TNode, n: nat, t: Table, length: nat)
    requires Holding(d, t, x, n) && |t[n].data| == BlockCount(x.Val()) && (x.ptrs[0] == 0 ==> x.size == 0)
    ensures Shrinking(d, x, n, Snapshot(d, t, x), t, length)
  {
    SinceNow(d, x, n, t);
    hide Sound, Linked, Follows, BlockCount;
  }

  lemma ShorterIsPrefix(f: Extent)
    requires |f.data| > 0 && |f.ptrs| == PtrBlocks(|f.data|)
    ensures Shorter(f).data <= f.data
  {
  }

  /** The iteration that drops the last block. */
  method ShrinkByBlock(d: Disk, x: TNode, ghost n: nat, ghost s: Start, ghost t: Table, ghost length: nat)
    returns (ghost t': Table)
    requires Shrinking(d, x, n, s, t, length) && x.size > length && (x.size - length >= 4096 || length == 0)
    modifies d, d.bits, x`ptrs, x`size
    ensures Shrinking(d, x, n, s, t', length) && x.size < old(x.size)
  {
    hide Sound, Linked, LowBits, SameOwners, Untouched, BlockCount, TruncSize, TruncLeavesBlock, Shorter, ShorterSize,
      ShrinkBlocks;
    ghost var was := Snapshot(d, t, x);
    DeleteStep(x.size, length);
    CountOfSize(d.Vol().blk, x.Val(), t[n]);
    ShorterIsPrefix(t[n]);
    ShorterCount(t[n]);
    t' := DeleteLastDataBlock(d, x, n, t);
    assert Untouched(was.own, was.blk, d.Vol().blk, n) by { UntouchedRefl(was.own, was.blk, n); }
    FollowsTrans(s, was, Snapshot(d, t', x), n);
    PointersSet(d.Vol().blk, x.ptrs, t'[n]);
    assert x.ptrs[0] == 0 ==> x.size == 0 by { ShorterEmpty(was.x.size, |was.t[n].data|, x.size, |t'[n].data|); }
    DeleteBlocks(was.x.size, length, |was.t[n].data|, |t'[n].data|);
  }

  lemma CountOfSize(blk: seq<Block>, x: Node, f: Extent)
    requires Linked(blk, x.ptrs, f) && (x.ptrs[0] == 0 ==> x.size == 0) && x.size > 0 && |f.data| >= BlockCount(x)
    ensures |f.data| > 0 && Sized(f) && BlockCount(x) == x.size / 4096 + 1
  {
  }

  lemma ShorterEmpty(size: nat, count: nat, size': nat, count': nat)
    requires size' == ShorterSize(size) && count == size / 4096 + 1 && count' + 1 == count
    ensures count' == 0 ==> size' == 0
  {
  }

  /** The iteration that only cuts the size. */
  method ShrinkByCut(d: Disk, x: TNode, length: nat, ghost n: nat, ghost s: Start, ghost t: Table)
    requires Shrinking(d, x, n, s, t, length) && x.size > length > 0 && x.size - length < 4096
    modifies x`size
    ensures Shrinking(d, x, n, s, t, length) && x.size == length
  {
    CutStep(x.size, length);
    CountOfSize(d.Vol().blk, x.Val(), t[n]);
    assert |x.ptrs| == 1000 && x.ptrs[0] != 0;
    hide Sound, Linked, LowBits, SameOwners, Untouched, TruncSize, TruncLeavesBlock;
    x.size := x.size - (x.size - length);
  }

  /** The shrinking loop of sac_truncate. It ends for every length. */
  method ShrinkLoop(d: Disk, x: TNode, length: nat, ghost n: nat, ghost s: Start) returns (ghost t: Table)
    requires Shrinking(d, x, n, s, s.t, length)
    modifies d, d.bits, x`ptrs, x`size
    ensures Shrinking(d, x, n, s, t, length) && x.size <= length
  {
    hide Shrinking;
    t := s.t;
    while x.size > length && x.size > 0
      invariant Shrinking(d, x, n, s, t, length)
      decreases x.size
    {
      var cut := x.size - length;
      if cut >= BLOCK_SIZE || length == 0 {
        t := ShrinkByBlock(d, x, n, s, t, length);
      } else if length > 0 {
        ShrinkByCut(d, x, length, n, s, t);
      }
    }
  }

  /** What the finished loop leaves in the copy. */
  lemma ShrinkDone(d: Disk, x: TNode, n: nat, s: Start, t: Table, length: nat)
    requires Shrinking(d, x, n, s, t, length) && x.size <= length <= s.x.size && Fits(s.x) && s.x.state == 1
    requires Linked(s.blk, s.x.ptrs, s.t[n])
    ensures var e := if TruncLeavesBlock(s.x.size, length) then 1 else 0;
            && x.size == TruncSize(s.x.size, length)
            && CopyDone(s, Snapshot(d, t, x), n, e, FileBytes(s.blk, s.t[n], s.x.size)[..TruncSize(s.x.size, length)])
            && (Keeps(x.Val(), e) <==> TruncKeepsShape(s.x.size, length))
    ensures BlockCount(x.Val()) > 0 <==> ShrinkBlocks(BlockCount(s.x) > 0, s.x.size, length)
    ensures Fits(x.Val()) && x.state == 1 && |d.Vol().blk| == TOTAL_BLOCKS
  {
    var e := if TruncLeavesBlock(s.x.size, length) then 1 else 0;
    if length < s.x.size {
      TruncExact(s.x.size, length);
    }
    assert x.size == TruncSize(s.x.size, length) by { TruncAtMost(x.size, length); }
    CountCovers(d.Vol().blk, x.Val(), t[n]);
    SizeFits(d.Vol().bm, t, d.own, d.lk, n, x.Val());
    LeftKeeps(s.x.size, length, d.Vol().blk, x.Val(), t[n]);
    hide Sound, Linked, LowBits, SameOwners, FileBytes, BlockCount, TruncSize, TruncLeavesBlock, TruncKeepsShape, Keeps;
    PrefixBytes(s.blk, s.t[n], t[n], x.size);
    ShorterBytes(s.blk, s.t[n], s.x.size, x.size);
  }

  lemma TruncAtMost(size: nat, length: nat)
    requires size <= length
    ensures TruncSize(size, length) == size
  {
  }

  lemma ShorterBytes(blk: seq<Block>, f: Extent, size: nat, m: nat)
    requires m <= size
    ensures FileBytes(blk, f, size)[..m] == FileBytes(blk, f, m)
  {
    hide ByteOf;
  }

  lemma LeftKeeps(size: nat, length: nat, blk: seq<Block>, x: Node, f: Extent)
    requires x.size == TruncSize(size, length)
    requires Linked(blk, x.ptrs, f) && (TruncLeavesBlock(size, length) ==> |f.data| > 0)
    ensures Keeps(x, if TruncLeavesBlock(size, length) then 1 else 0) <==> TruncKeepsShape(size, length)
  {
    if TruncLeavesBlock(size, length) {
      CountOfLinked(blk, x, f);
      assert x.size == length;
    }
  }

  /** What sac_truncate does to file fd. */
  ghost predicate TruncPost(v: Vol, lk: set<nat>, v': Vol, own': Owners, lk': set<nat>, fd: nat, length: nat)
  {
    var size := NodeAt(v.blk, fd).size;
    FilePost(v, lk, v', own', lk', fd, Truncated(FileData(v, fd), length),
             ShrinkBlocks(HasBlock(v.blk, fd), size, length), if TruncLeavesBlock(size, length) then 1 else 0,
             TruncKeepsShape(size, length))
  }

  lemma ShrinkPost(d: Disk, x: TNode, fd: nat, v: Vol, own: Owners, lk: set<nat>, t: Table, length: nat)
    returns (own': Owners, lk': set<nat>)
    requires VolOk(v, own, lk) && IsFile(v, fd) && length <= NodeAt(v.blk, fd).size
    requires Shrinking(d, x, fd, Start(v.bm, v.blk, own, lk, TableOf(v), NodeAt(v.blk, fd)), t, length)
    requires x.size <= length
    ensures fd < NODE_TABLE_BLOCKS && Fits(x.Val()) && |d.Vol().blk| == TOTAL_BLOCKS && d.Sizes()
    ensures TruncPost(v, lk, Vol(d.Vol().bm, d.Vol().blk[fd + 2 := NodeToBlock(x.Val())]), own', lk', fd, length)
  {
    hide Sound, Linked, TableOf, NodeAt, FileBytes, Follows, NodeToBlock, FilePost, CopyDone, Keeps, NodeOk, VolOk,
      IsFile, Shrinking, TruncSize, TruncLeavesBlock, TruncKeepsShape, BlockCount, FileData, TruncPost,
      ShrinkBlocks;
    var s0 := Start(v.bm, v.blk, own, lk, TableOf(v), NodeAt(v.blk, fd));
    FileStart(v, own, lk, fd);
    ShrunkLeaks(d, x, fd, s0, t, length);
    ShrinkDone(d, x, fd, s0, t, length);
    var e := if TruncLeavesBlock(s0.x.size, length) then 1 else 0;
    assert Truncated(FileData(v, fd), length) == FileData(v, fd)[..TruncSize(s0.x.size, length)];
    assert HasBlock(v.blk, fd) <==> BlockCount(s0.x) > 0;
    own', lk' := Store(v, own, lk, s0, Snapshot(d, t, x), fd, e, Truncated(FileData(v, fd), length), e);
    TruncPostHolds(v, lk, Vol(d.Vol().bm, d.Vol().blk[fd + 2 := NodeToBlock(x.Val())]), own', lk', fd, length);
  }

  lemma FileStart(v: Vol, own: Owners, lk: set<nat>, fd: nat)
    requires VolOk(v, own, lk) && IsFile(v, fd)
    ensures fd in TableOf(v) && fd < NODE_TABLE_BLOCKS && NodeAt(v.blk, fd).state == 1 && Fits(NodeAt(v.blk, fd))
    ensures FileData(v, fd) == FileBytes(v.blk, TableOf(v)[fd], NodeAt(v.blk, fd).size)
    ensures |FileData(v, fd)| == NodeAt(v.blk, fd).size
    ensures Linked(v.blk, NodeAt(v.blk, fd).ptrs, TableOf(v)[fd])
  {
    hide VolOk, NodeAt, TableOf, ExtentOf, Linked;
    StartData(v, own, lk, fd);
    StoredIsLinked(v, own, lk, fd);
  }

  lemma ShrunkLeaks(d: Disk, x: TNode, n: nat, s: Start, t: Table, length: nat)
    requires Shrinking(d, x, n, s, t, length)
    ensures d.lk == s.lk && d.Sizes()
  {
    hide Sound, Linked, Follows, TruncSize, TruncLeavesBlock;
  }

  lemma TruncPostHolds(v: Vol, lk: set<nat>, v': Vol, own': Owners, lk': set<nat>, fd: nat, length: nat)
    requires var size := NodeAt(v.blk, fd).size;
             FilePost(v, lk, v', own', lk', fd, Truncated(FileData(v, fd), length),
                      ShrinkBlocks(HasBlock(v.blk, fd), size, length), if TruncLeavesBlock(size, length) then 1 else 0,
                      TruncKeepsShape(size, length))
    ensures TruncPost(v, lk, v', own', lk', fd, length)
  {
    hide FilePost, NodeAt, Truncated, FileData, TruncLeavesBlock, TruncKeepsShape, ShrinkBlocks, HasBlock;
  }

  method FinishShrink(d: Disk, x: TNode, fd: nat, ghost v: Vol, ghost own: Owners, ghost lk: set<nat>,
                      ghost t: Table, ghost length: nat)
    requires VolOk(v, own, lk) && IsFile(v, fd) && length <= NodeAt(v.blk, fd).size
    requires Shrinking(d, x, fd, Start(v.bm, v.blk, own, lk, TableOf(v), NodeAt(v.blk, fd)), t, length)
    requires x.size <= length
    modifies d, d.blocks
    ensures TruncPost(v, lk, d.Vol(), d.own, d.lk, fd, length)
  {
    hide VolOk, IsFile, Shrinking, TruncPost, TableOf, NodeAt, NodeToBlock;
    d.own, d.lk := ShrinkPost(d, x, fd, v, own, lk, t, length);
    d.UnmapNode(x, fd);
  }

  lemma StartShrink(d: Disk, x: TNode, fd: nat, length: nat)
    requires d.Ok() && Live(d.Vol().bm, fd) && x.Val() == NodeAt(d.Vol().blk, fd)
    ensures Shrinking(d, x, fd, Start(d.Vol().bm, d.Vol().blk, d.own, d.lk, TableOf(d.Vol()), NodeAt(d.Vol().blk, fd)),
                      TableOf(d.Vol()), length)
  {
    ReadyCopy(d, x, fd);
    StartShrinking(d, x, fd, TableOf(d.Vol()), length);
    hide Shrinking, VolOk, TableOf, NodeAt, Holding, NodeOk;
  }

  /** The shrinking branch of sac_truncate, from the copy just read to the copy written back. */
  method Shrink(d: Disk, x: TNode, fd: nat, length: nat)
    requires d.Ok() && IsFile(d.Vol(), fd) && x.Val() == NodeAt(d.Vol().blk, fd) && length <= x.size
    modifies d, d.bits, d.blocks, x`ptrs, x`size
    ensures TruncPost(old(d.Vol()), old(d.lk), d.Vol(), d.own, d.lk, fd, length)
  {
    ghost var v, own, lk := d.Vol(), d.own, d.lk;
    StartShrink(d, x, fd, length);
    hide VolOk, Shrinking, TruncPost, TableOf, NodeAt;
    ghost var t := ShrinkLoop(d, x, length, fd, Start(v.bm, v.blk, own, lk, TableOf(v), NodeAt(v.blk, fd)));
    FinishShrink(d, x, fd, v, own, lk, t, length);
  }
}
