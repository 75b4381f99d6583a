/** Writing a changed copy of a file's inode back, when its blocks are the ones its size calls for or one
    more: what the file and the volume are afterwards, and exactly when the inode stays well formed. */
module FileStore {
  import opened Bytes
  import opened Layout
  import opened Volume
  import opened GraphOps
  import opened Inodes
  import opened Commits
  import opened DiskState
  import opened NodeOps
  import opened FileWrite
  import opened FileCommit

  ghost predicate IsFile(v: Vol, n: nat)
  {
    Live(v.bm, n) && NodeAt(v.blk, n).state == 1
  }

  ghost function FileData(v: Vol, n: nat): seq<byte>
  {
    FileBytes(v.blk, ExtentOf(v.blk, NodeAt(v.blk, n)), NodeAt(v.blk, n).size)
  }

  /** The inode's own size and index give exactly these bytes. */
  ghost predicate FileIs(blk: seq<Block>, n: nat, data: seq<byte>)
  {
    var x := NodeAt(blk, n);
    x.size == |data| && FileBytes(blk, ExtentOf(blk, x), x.size) == data
  }

  lemma StartData(v: Vol, own: Owners, lk: set<nat>, n: nat)
    requires VolOk(v, own, lk) && IsFile(v, n)
    ensures n in TableOf(v) && FileData(v, n) == FileBytes(v.blk, TableOf(v)[n], NodeAt(v.blk, n).size)
  {
    StoredIsLinked(v, own, lk, n);
    hide FileBytes, ExtentOf, NodeAt;
  }

  /** A copy just read from a sound volume is ready to be changed. */
  lemma ReadyCopy(d: Disk, x: TNode, n: nat)
    requires d.Ok() && Live(d.Vol().bm, n) && x.Val() == NodeAt(d.Vol().blk, n)
    ensures Holding(d, TableOf(d.Vol()), x, n) && |TableOf(d.Vol())[n].data| == BlockCount(x.Val())
    ensures NodeOk(x.Val()) && (x.ptrs[0] == 0 ==> x.size == 0)
    ensures Snapshot(d, TableOf(d.Vol()), x) ==
            Start(d.Vol().bm, d.Vol().blk, d.own, d.lk, TableOf(d.Vol()), NodeAt(d.Vol().blk, n))
  {
    StoredIsLinked(d.Vol(), d.own, d.lk, n);
    hide Sound, Linked, NodeAt, TableOf, BlockCount;
  }

  // ---------------------------------------------------------------- one block too many

  /** A data block the size does not call for, in a pointer block it does: unlinking it changes no byte
      of the file and no pointer, and leaks the block. */
  lemma DropExtra(bm: seq<bool>, blk: seq<Block>, t: Table, own: Owners, lk: set<nat>, n: nat, ptrs: seq<u32>,
                  c: nat, size: nat)
    requires Sound(bm, t, own, lk) && n in t && Linked(blk, ptrs, t[n])
    requires |t[n].data| == c + 1 && c % 1024 != 0 && size <= 4096 * c
    ensures Sized(t[n]) && |Shorter(t[n]).data| == c
    ensures Sound(bm, t[n := Shorter(t[n])], own - Dropped(t[n]), lk + Dropped(t[n]))
    ensures Linked(blk, ptrs, Shorter(t[n]))
    ensures SameOwners(own, own - Dropped(t[n]), n)
    ensures |lk + Dropped(t[n])| == |lk| + 1
    ensures FileBytes(blk, Shorter(t[n]), size) == FileBytes(blk, t[n], size)
  {
    hide Sound, Linked, FileBytes, DirEntries, SameOwners, ShorterPtrs;
    UnlinkSound(bm, t, own, lk, n);
    DropOwners(bm, t, own, lk, n);
    DroppedNotLeaked(bm, t, own, lk, n);
    LinkShorter(blk, ptrs, t[n]);
    assert ShorterPtrs(ptrs, c + 1) == ptrs by { SamePtrs(ptrs, c + 1); }
    PrefixBytes(blk, t[n], Shorter(t[n]), size);
    assert Dropped(t[n]) == {t[n].data[c]};
  }

  lemma SamePtrs(ptrs: seq<u32>, nb: nat)
    requires nb > 0 && (nb - 1) / 1024 < |ptrs| && (nb - 1) % 1024 != 0
    ensures ShorterPtrs(ptrs, nb) == ptrs
  {
  }

  /** When the data block left over is alone in its pointer block, that pointer stays set beyond the ones
      the size calls for; otherwise the inode is well formed. */
  lemma ShapeKept(blk: seq<Block>, x: Node, f: Extent, e: nat)
    requires Linked(blk, x.ptrs, f) && |f.data| == BlockCount(x) + e && e <= 1
    requires Fits(x) && 0 in x.name && x.state == 1 && (x.ptrs[0] == 0 ==> x.size == 0 && e == 0)
    ensures NodeOk(x) <==> !(e == 1 && BlockCount(x) % 1024 == 0)
  {
    var c := BlockCount(x);
    if e == 1 && c % 1024 == 0 {
      assert |f.ptrs| == PtrBlocks(c + 1) == PtrBlocks(c) + 1;
      assert x.ptrs[PtrBlocks(c)] != 0;
    } else {
      assert PtrBlocks(c + e) == PtrBlocks(c);
    }
  }

  /** Either way the bytes the size covers are where the inode's own index finds them. */
  lemma BytesDespiteExtra(blk: seq<Block>, x: Node, f: Extent)
    requires Linked(blk, x.ptrs, f) && BlockCount(x) <= |f.data| && x.size <= 4096 * BlockCount(x)
    ensures FileBytes(blk, ExtentOf(blk, x), x.size) == FileBytes(blk, f, x.size)
  {
    var g := ExtentOf(blk, x);
    hide DataBlock, FileBytes, DirEntries, BlockCount;
    forall k | 0 <= k < |g.data|
      ensures g.data[k] == f.data[k]
    {
      assert DataBlock(blk, x.ptrs, k) == f.data[k];
    }
    assert f.data[..|g.data|] == g.data;
    PrefixBytes(blk, f, g, x.size);
  }

  // ---------------------------------------------------------------- the finished copy

  /** The copy of a file with these bytes, e blocks too many, linked to its blocks. */
  ghost predicate CopyDone(s0: Start, s: Start, n: nat, e: nat, data: seq<byte>)
  {
    && n in s0.t && n in s.t && Follows(s0, s, n)
    && Sound(s.bm, s.t, s.own, s.lk) && Linked(s.blk, s.x.ptrs, s.t[n])
    && e <= 1 && |s.t[n].data| == BlockCount(s.x) + e
    && (s.x.ptrs[0] == 0 ==> s.x.size == 0 && e == 0)
    && s.x.size == |data| && FileBytes(s.blk, s.t[n], s.x.size) == data
  }

  predicate Keeps(x: Node, e: nat)
  {
    !(e == 1 && BlockCount(x) % 1024 == 0)
  }

  lemma NodeWritten(blk: seq<Block>, n: nat, x: Node)
    requires n + 2 < |blk| && Fits(x)
    ensures NodeAt(blk[n + 2 := NodeToBlock(x)], n) == x
  {
    NodeRoundTrip(x);
    hide NodeToBlock, BlockToNode;
  }

  lemma CountCovers(blk: seq<Block>, x: Node, f: Extent)
    requires Linked(blk, x.ptrs, f) && (x.ptrs[0] == 0 ==> x.size == 0)
    ensures x.size <= 4096 * BlockCount(x)
  {
  }

  /** What the volume holds once the copy is written back: the bytes, and the exact condition for the
      inode to be well formed. */
  lemma BytesStored(s0: Start, s: Start, n: nat, e: nat, data: seq<byte>)
    requires CopyDone(s0, s, n, e, data) && Fits(s.x) && s.x.state == 1 && 0 in s.x.name && n < NODE_TABLE_BLOCKS
    requires |s.blk| == TOTAL_BLOCKS
    ensures FileIs(s.blk[n + 2 := NodeToBlock(s.x)], n, data)
    ensures NodeOk(s.x) <==> Keeps(s.x, e)
  {
    hide Sound, Linked, NodeToBlock, NodeAt, FileBytes, DirEntries, DataSame, Follows, BlockCount, NodeOk, ExtentOf;
    var x, f, blk' := s.x, s.t[n], s.blk[n + 2 := NodeToBlock(s.x)];
    CountCovers(s.blk, x, f);
    NodeWritten(s.blk, n, x);
    UnmapFrame(s.bm, s.blk, s.t, s.own, s.lk, n, x.ptrs, n + 2, NodeToBlock(x));
    BytesDespiteExtra(blk', x, f);
    SameBytes(s.blk, blk', f, x.size);
    ShapeKept(s.blk, x, f, e);
  }

  /** The owners and the leaked set once what is left over is unlinked. */
  lemma UnlinkExtra(s0: Start, s: Start, n: nat, e: nat, data: seq<byte>)
    returns (own: Owners, lk: set<nat>, f: Extent)
    requires CopyDone(s0, s, n, e, data) && Keeps(s.x, e)
    ensures Sound(s.bm, s0.t[n := f], own, lk) && Linked(s.blk, s.x.ptrs, f) && |f.data| == BlockCount(s.x)
    ensures SameOwners(s.own, own, n)
    ensures FileBytes(s.blk, f, s.x.size) == data
    ensures s.lk <= lk && |lk| == |s.lk| + e
  {
    assert s.t == s0.t[n := s.t[n]];
    CountCovers(s.blk, s.x, s.t[n]);
    hide Sound, Linked, FileBytes, Follows, SameOwners, BlockCount;
    if e == 1 {
      own, lk, f := DropLeftOver(s0.t, s, n, data);
    } else {
      own, lk, f := s.own, s.lk, s.t[n];
      SameOwnersRefl(own, n);
    }
  }

  /** The volume with inode n's pointer past those its size calls for cleared. */
  function Mended(v: Vol, n: nat): Vol
  {
    var x := NodeAt(v.blk, n);
    var i := PtrBlocks(BlockCount(x));
    if n + 2 < |v.blk| && i < 1000 then Vol(v.bm, v.blk[n + 2 := NodeToBlock(x.(ptrs := x.ptrs[i := 0]))]) else v
  }

  /** When the block left over is alone in its pointer block, both go. */
  lemma UnlinkPair(s0: Start, s: Start, n: nat, data: seq<byte>)
    returns (own: Owners, lk: set<nat>, f: Extent)
    requires CopyDone(s0, s, n, 1, data) && BlockCount(s.x) % 1024 == 0
    ensures PtrBlocks(BlockCount(s.x)) < 1000 == |s.x.ptrs|
    ensures var y := s.x.(ptrs := s.x.ptrs[PtrBlocks(BlockCount(s.x)) := 0]);
            && Linked(s.blk, y.ptrs, f) && |f.data| == BlockCount(y)
            && BlockCount(y) == BlockCount(s.x) && y.ptrs[0] != 0
    ensures Sound(s.bm, s0.t[n := f], own, lk) && SameOwners(s.own, own, n)
    ensures FileBytes(s.blk, f, s.x.size) == data
    ensures s.lk <= lk && |lk| == |s.lk| + 2
  {
    hide Sound, FileBytes, DirEntries, SameOwners, Linked, Shorter, Dropped, Follows;
    var c := BlockCount(s.x);
    assert s.t == s0.t[n := s.t[n]] by { FollowsTable(s0, s, n); }
    PairPlace(s.blk, s.x, s.t[n]);
    CountCovers(s.blk, s.x, s.t[n]);
    UnlinkSound(s.bm, s.t, s.own, s.lk, n);
    DropOwners(s.bm, s.t, s.own, s.lk, n);
    DroppedNotLeaked(s.bm, s.t, s.own, s.lk, n);
    LinkShorter(s.blk, s.x.ptrs, s.t[n]);
    own, lk, f := s.own - Dropped(s.t[n]), s.lk + Dropped(s.t[n]), Shorter(s.t[n]);
    ShorterPair(s.t[n], c);
    PrefixBytes(s.blk, s.t[n], f, s.x.size);
    assert s0.t[n := f] == s.t[n := f];
  }

  lemma FollowsTable(s0: Start, s: Start, n: nat)
    requires Follows(s0, s, n)
    ensures n in s0.t && n in s.t && s.t == s0.t[n := s.t[n]]
  {
  }

  lemma PairPlace(blk: seq<Block>, x: Node, f: Extent)
    requires Linked(blk, x.ptrs, f) && |f.data| == BlockCount(x) + 1 && BlockCount(x) % 1024 == 0 && x.ptrs[0] != 0
    ensures var i := PtrBlocks(BlockCount(x));
            && 0 < i < 1000 == |x.ptrs| && i == BlockCount(x) / 1024
            && x.ptrs[i := 0] == ShorterPtrs(x.ptrs, |f.data|)
            && BlockCount(x.(ptrs := x.ptrs[i := 0])) == BlockCount(x)
  {
  }

  lemma ShorterPair(f: Extent, c: nat)
    requires Sized(f) && |f.data| == c + 1 && c % 1024 == 0
    requires f.ptrs[c / 1024] != f.data[c]
    ensures |Dropped(f)| == 2 && |Shorter(f).data| == c && f.data[..c] == Shorter(f).data
  {
    assert Dropped(f) == {f.data[c], f.ptrs[c / 1024]};
  }

  lemma DropLeftOver(t0: Table, s: Start, n: nat, data: seq<byte>) returns (own: Owners, lk: set<nat>, f: Extent)
    requires n in s.t && s.t == t0[n := s.t[n]]
    requires Sound(s.bm, s.t, s.own, s.lk) && Linked(s.blk, s.x.ptrs, s.t[n])
    requires |s.t[n].data| == BlockCount(s.x) + 1 && BlockCount(s.x) % 1024 != 0 && s.x.size <= 4096 * BlockCount(s.x)
    requires FileBytes(s.blk, s.t[n], s.x.size) == data
    ensures Sound(s.bm, t0[n := f], own, lk) && Linked(s.blk, s.x.ptrs, f) && |f.data| == BlockCount(s.x)
    ensures SameOwners(s.own, own, n)
    ensures FileBytes(s.blk, f, s.x.size) == data
    ensures s.lk <= lk && |lk| == |s.lk| + 1
  {
    hide Sound, Linked, FileBytes, SameOwners, Dropped, Shorter, BlockCount;
    DropExtra(s.bm, s.blk, s.t, s.own, s.lk, n, s.x.ptrs, BlockCount(s.x), s.x.size);
    f := Shorter(s.t[n]);
    own, lk := s.own - Dropped(s.t[n]), s.lk + Dropped(s.t[n]);
    assert t0[n := f] == s.t[n := f];
  }

  /** From the finished copy to the volume, when nothing is left over. */
  lemma CommitCopy(v: Vol, own: Owners, lk: set<nat>, s: Start, n: nat, f: Extent)
    requires VolOk(v, own, lk) && IsFile(v, n)
    requires Follows(Start(v.bm, v.blk, own, lk, TableOf(v), NodeAt(v.blk, n)), s, n)
    requires Fits(s.x) && Linked(s.blk, s.x.ptrs, f) && |f.data| == BlockCount(s.x)
    requires s.x.ptrs[0] == 0 ==> s.x.size == 0
    requires Sound(s.bm, TableOf(v)[n := f], s.own, s.lk)
    ensures n in GraphOf(v) && |s.blk| == TOTAL_BLOCKS
    ensures var v' := Vol(s.bm, s.blk[n + 2 := NodeToBlock(s.x)]);
            && VolOk(v', s.own, s.lk)
            && GraphOf(v') == SetData(GraphOf(v), n, FileBytes(s.blk, f, s.x.size), BlockCount(s.x) > 0)
  {
    hide VolOk, Sound, Linked, LowBits, SameOwners, Untouched, NodeToBlock, BlockToNode, GraphOf, TableOf,
      BlockCount, FileBytes, ExtentOf;
    CommitFile(v, own, lk, s.bm, s.blk, s.own, s.lk, n, s.x, f);
  }

  lemma StoreCommitted(v: Vol, own: Owners, lk: set<nat>, s0: Start, s: Start, n: nat, e: nat, data: seq<byte>)
    returns (own': Owners, lk': set<nat>)
    requires VolOk(v, own, lk) && IsFile(v, n) && s0 == Start(v.bm, v.blk, own, lk, TableOf(v), NodeAt(v.blk, n))
    requires CopyDone(s0, s, n, e, data) && Keeps(s.x, e) && Fits(s.x)
    ensures n in GraphOf(v) && |s.blk| == TOTAL_BLOCKS
    ensures var v' := Vol(s.bm, s.blk[n + 2 := NodeToBlock(s.x)]);
            VolOk(v', own', lk') && GraphOf(v') == SetData(GraphOf(v), n, data, BlockCount(s.x) > 0)
    ensures s.lk <= lk' && |lk'| == |s.lk| + e
  {
    hide VolOk, Sound, Linked, LowBits, Untouched, NodeToBlock, BlockToNode, GraphOf, BlockCount, FileBytes, Keeps;
    var f;
    own', lk', f := UnlinkExtra(s0, s, n, e, data);
    var s' := s.(own := own', lk := lk', t := s0.t[n := f]);
    SameOwnersTrans(own, s.own, own', n);
    hide SameOwners;
    CommitCopy(v, own, lk, s', n, f);
  }

  /** What an operation on a file's bytes promises: the file has these bytes, and every other inode is as it
      was. Its inode stays well formed exactly when keeps holds; then the volume's graph changes in this file
      only and the leaked set grows by the given number of blocks. When it does not, one pointer past those
      its size calls for is all that is wrong: with that pointer cleared the same holds, and the block it
      named is leaked too. */
  ghost predicate FilePost(v: Vol, lk: set<nat>, v': Vol, own': Owners, lk': set<nat>, fd: nat, data: seq<byte>,
                           blocks: bool, leaks: nat, keeps: bool)
  {
    && FileIs(v'.blk, fd, data) && OtherLines(v, v', fd)
    && (NodeOk(NodeAt(v'.blk, fd)) <==> keeps)
    && (keeps ==>
          && VolOk(v', own', lk')
          && fd in GraphOf(v) && GraphOf(v') == SetData(GraphOf(v), fd, data, blocks)
          && lk <= lk' && |lk'| == |lk| + leaks)
    && (!keeps ==>
          && VolOk(Mended(v', fd), own', lk')
          && fd in GraphOf(v) && GraphOf(Mended(v', fd)) == SetData(GraphOf(v), fd, data, blocks)
          && lk <= lk' && |lk'| == |lk| + leaks + 1)
  }

  lemma StoreMended(v: Vol, own: Owners, lk: set<nat>, s0: Start, s: Start, n: nat, e: nat, data: seq<byte>)
    returns (own': Owners, lk': set<nat>)
    requires VolOk(v, own, lk) && IsFile(v, n) && s0 == Start(v.bm, v.blk, own, lk, TableOf(v), NodeAt(v.blk, n))
    requires CopyDone(s0, s, n, e, data) && !Keeps(s.x, e) && Fits(s.x)
    ensures n in GraphOf(v) && |s.blk| == TOTAL_BLOCKS && n < NODE_TABLE_BLOCKS
    ensures var v' := Vol(s.bm, s.blk[n + 2 := NodeToBlock(s.x)]);
            && VolOk(Mended(v', n), own', lk')
            && GraphOf(Mended(v', n)) == SetData(GraphOf(v), n, data, BlockCount(s.x) > 0)
    ensures s.lk <= lk' && |lk'| == |s.lk| + e + 1
  {
    hide VolOk, IsFile, Sound, Linked, LowBits, Untouched, NodeToBlock, BlockToNode, GraphOf, TableOf, NodeAt,
      BlockCount, FileBytes, PtrBlocks, Mended, Follows, SameOwners, Keeps, CopyDone;
    NotKept(s0, s, n, e, data);
    FileInNodes(v, n);
    var f;
    own', lk', f := UnlinkPair(s0, s, n, data);
    var y := s.x.(ptrs := s.x.ptrs[PtrBlocks(BlockCount(s.x)) := 0]);
    var s' := s.(own := own', lk := lk', t := s0.t[n := f], x := y);
    MendedFollows(s0, s, s', n, e, data);
    CommitCopy(v, own, lk, s', n, f);
    MendedIs(s.bm, s.blk, n, s.x);
  }

  lemma NotKept(s0: Start, s: Start, n: nat, e: nat, data: seq<byte>)
    requires CopyDone(s0, s, n, e, data) && !Keeps(s.x, e)
    ensures e == 1 && BlockCount(s.x) % 1024 == 0 && s.x.size == |data|
  {
  }

  lemma FileIsLive(v: Vol, fd: nat)
    requires IsFile(v, fd)
    ensures Live(v.bm, fd)
  {
  }

  lemma FileInNodes(v: Vol, n: nat)
    requires IsFile(v, n)
    ensures n < NODE_TABLE_BLOCKS
  {
  }

  lemma MendedFollows(s0: Start, s: Start, s': Start, n: nat, e: nat, data: seq<byte>)
    requires CopyDone(s0, s, n, e, data) && n in s'.t
    requires s' == s.(own := s'.own, lk := s'.lk, t := s0.t[n := s'.t[n]], x := s.x.(ptrs := s'.x.ptrs))
    requires SameOwners(s.own, s'.own, n)
    ensures Follows(s0, s', n)
  {
    SameOwnersTrans(s0.own, s.own, s'.own, n);
    hide SameOwners, Sound, Linked, LowBits, Untouched, FileBytes, BlockCount;
  }

  lemma MendedIs(bm: seq<bool>, blk: seq<Block>, n: nat, x: Node)
    requires |blk| == TOTAL_BLOCKS && n < NODE_TABLE_BLOCKS && Fits(x) && PtrBlocks(BlockCount(x)) < 1000
    ensures var y := x.(ptrs := x.ptrs[PtrBlocks(BlockCount(x)) := 0]);
            Mended(Vol(bm, blk[n + 2 := NodeToBlock(x)]), n) == Vol(bm, blk[n + 2 := NodeToBlock(y)])
  {
    hide BlockCount, NodeToBlock, NodeAt, PtrBlocks;
    NodeWritten(blk, n, x);
    var y := x.(ptrs := x.ptrs[PtrBlocks(BlockCount(x)) := 0]);
    assert blk[n + 2 := NodeToBlock(x)][n + 2 := NodeToBlock(y)] == blk[n + 2 := NodeToBlock(y)];
  }

  /** Whatever the copy became, writing it back leaves the other inodes alone. */
  lemma StoredLocally(v: Vol, own: Owners, lk: set<nat>, s0: Start, s: Start, n: nat, e: nat, data: seq<byte>)
    requires VolOk(v, own, lk) && IsFile(v, n) && s0 == Start(v.bm, v.blk, own, lk, TableOf(v), NodeAt(v.blk, n))
    requires CopyDone(s0, s, n, e, data) && Fits(s.x) && |s.blk| == TOTAL_BLOCKS && n + 2 < TOTAL_BLOCKS
    ensures OtherLines(v, Vol(s.bm, s.blk[n + 2 := NodeToBlock(s.x)]), n)
  {
    assert n < NODE_TABLE_BLOCKS;
    OwnersInRegion(v.bm, TableOf(v), own, lk);
    hide Sound, Linked, TableOf, NodeAt, FileBytes, NodeToBlock, SameLine, SameOwners, LowBits, Untouched,
      BlockCount, OnlyNode, NodesOk;
    var v' := Vol(s.bm, s.blk[n + 2 := NodeToBlock(s.x)]);
    OnlyNodeAfter(v, own, s.bm, s.blk, n, NodeToBlock(s.x));
    forall m: nat | m != n
      ensures SameLine(v, v', m)
    {
      OtherLine(v, own, lk, v', n, m);
    }
  }

  lemma Store(v: Vol, own: Owners, lk: set<nat>, s0: Start, s: Start, n: nat, e: nat, data: seq<byte>, leaks: nat)
    returns (own': Owners, lk': set<nat>)
    requires VolOk(v, own, lk) && IsFile(v, n) && s0 == Start(v.bm, v.blk, own, lk, TableOf(v), NodeAt(v.blk, n))
    requires CopyDone(s0, s, n, e, data) && Fits(s.x) && |s.blk| == TOTAL_BLOCKS
    requires lk <= s.lk && |s.lk| + e == |lk| + leaks
    ensures n + 2 < TOTAL_BLOCKS
    ensures FilePost(v, lk, Vol(s.bm, s.blk[n + 2 := NodeToBlock(s.x)]), own', lk', n, data, BlockCount(s.x) > 0, leaks,
                     Keeps(s.x, e))
  {
    own', lk' := own, lk;
    assert n < NODE_TABLE_BLOCKS;
    assert s.x.state == 1 && NodeOk(NodeAt(v.blk, n));
    NodeWritten(s.blk, n, s.x);
    BytesStored(s0, s, n, e, data);
    StoredLocally(v, own, lk, s0, s, n, e, data);
    hide OtherLines, Mended, VolOk, Sound, Linked, Live, TableOf, GraphOf, NodeAt, FileBytes, ExtentOf, NodeOk,
      NodeToBlock, FileIs, CopyDone, Keeps;
    if Keeps(s.x, e) {
      own', lk' := StoreCommitted(v, own, lk, s0, s, n, e, data);
    } else {
      own', lk' := StoreMended(v, own, lk, s0, s, n, e, data);
    }
  }
}
