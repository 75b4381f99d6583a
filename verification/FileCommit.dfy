/** Writing a changed file inode back: the graph changes in that file's bytes only. */
module FileCommit {
  import opened Bytes
  import opened Layout
  import opened Volume
  import opened GraphOps
  import opened Inodes
  import opened Commits
  import opened NodeOps

  /** The size of an inode whose blocks are counted fits its 32-bit field. */
  lemma SizeFits(bm: seq<bool>, t: Table, own: Owners, lk: set<nat>, n: nat, x: Node)
    requires Sound(bm, t, own, lk) && n in t && BlockCount(x) <= |t[n].data|
    requires |x.ptrs| == 1000 && (x.ptrs[0] == 0 ==> x.size == 0)
    ensures x.size < 2966 * 4096
  {
    SizeBound(bm, t, own, lk, n);
  }

  lemma LinkedIsOk(blk: seq<Block>, x: Node, f: Extent)
    requires Linked(blk, x.ptrs, f) && |f.data| == BlockCount(x) && Fits(x)
    requires x.state == 1 && 0 in x.name && (x.ptrs[0] == 0 ==> x.size == 0)
    ensures NodeOk(x)
  {
  }

  /** Writing the inode's own block changes nothing its extent depends on. */
  lemma UnmapFrame(bm: seq<bool>, blk: seq<Block>, t: Table, own: Owners, lk: set<nat>, n: nat, ptrs: seq<u32>,
                   b: nat, x: Block)
    requires Sound(bm, t, own, lk) && n in t && Linked(blk, ptrs, t[n]) && |blk| == TOTAL_BLOCKS
    requires b < DATA_INITIAL_BLOCK
    ensures Linked(blk[b := x], ptrs, t[n]) && DataSame(blk, blk[b := x], t[n])
  {
    var f, blk' := t[n], blk[b := x];
    forall i | 0 <= i < |f.ptrs|
      ensures BlockAt(blk', f.ptrs[i]) == BlockAt(blk, f.ptrs[i])
    {
      Roles(bm, t, own, lk, n, i);
    }
    forall k | 0 <= k < |f.data|
      ensures BlockAt(blk', f.data[k]) == BlockAt(blk, f.data[k])
    {
      Roles(bm, t, own, lk, n, |f.ptrs| + k);
    }
    hide Sound;
    LinkedFrame(blk, blk', ptrs, f);
  }

  lemma OnlyNodeAfter(v: Vol, own: Owners, bm': seq<bool>, blk1: seq<Block>, n: nat, x: Block)
    requires WfVol(v) && LowBits(v.bm, bm') && Untouched(own, v.blk, blk1, n) && n < NODE_TABLE_BLOCKS
    requires forall b | b in own :: InRegion(b)
    ensures OnlyNode(v, own, Vol(bm', blk1[n + 2 := x]), n)
  {
  }

  lemma OwnersInRegion(bm: seq<bool>, t: Table, own: Owners, lk: set<nat>)
    requires Sound(bm, t, own, lk)
    ensures forall b | b in own :: InRegion(b)
  {
    forall b | b in own
      ensures InRegion(b)
    {
      assert OwnerMet(t, own, lk, b);
    }
  }

  /** A file's inode is written back with a new size, pointers and blocks. */
  lemma CommitFile(v: Vol, own: Owners, lk: set<nat>, bm': seq<bool>, blk1: seq<Block>, own': Owners, lk': set<nat>,
                   n: nat, x: Node, f: Extent)
    requires VolOk(v, own, lk) && Live(v.bm, n) && NodeAt(v.blk, n).state == 1
    requires x == NodeAt(v.blk, n).(size := x.size, ptrs := x.ptrs) && Fits(x)
    requires LowBits(v.bm, bm') && Untouched(own, v.blk, blk1, n)
    requires Sound(bm', TableOf(v)[n := f], own', lk') && Linked(blk1, x.ptrs, f) && |f.data| == BlockCount(x)
    requires x.ptrs[0] == 0 ==> x.size == 0
    ensures n in GraphOf(v) && |blk1| == TOTAL_BLOCKS
    ensures var v' := Vol(bm', blk1[n + 2 := NodeToBlock(x)]);
            && VolOk(v', own', lk')
            && NodeAt(v'.blk, n) == x
            && GraphOf(v') == SetData(GraphOf(v), n, FileBytes(blk1, f, x.size), BlockCount(x) > 0)
  {
    hide VolOk, Live, Sound, Linked, NodeAt, LowBits, Untouched, NodeToBlock, BlockToNode, NodeOk, DataSame,
      FileBytes, DirEntries, BlockCount, TableOf, GraphOf, ExtentOf;
    LiveFacts(v, own, lk, bm', blk1, n);
    var v', t' := Vol(bm', blk1[n + 2 := NodeToBlock(x)]), TableOf(v)[n := f];
    LinkedIsOk(blk1, x, f);
    OnlyNodeAfter(v, own, bm', blk1, n, NodeToBlock(x));
    UnmapFrame(bm', blk1, t', own', lk', n, x.ptrs, n + 2, NodeToBlock(x));
    Commit(v, own, lk, v', own', lk', n, x, f);
    LinkedIsExtent(v'.blk, x, f);
    SameBytes(blk1, v'.blk, f, x.size);
    GraphAt(v, n);
  }

  lemma LiveFacts(v: Vol, own: Owners, lk: set<nat>, bm: seq<bool>, blk: seq<Block>, n: nat)
    requires VolOk(v, own, lk) && Live(v.bm, n) && LowBits(v.bm, bm) && Untouched(own, v.blk, blk, n)
    ensures n < NODE_TABLE_BLOCKS && WfVol(v) && Live(bm, n) && NodeOk(NodeAt(v.blk, n)) && 0 in NodeAt(v.blk, n).name
    ensures |blk| == TOTAL_BLOCKS && n + 2 < DATA_INITIAL_BLOCK && forall b | b in own :: InRegion(b)
  {
    OwnersInRegion(v.bm, TableOf(v), own, lk);
    hide NodeAt;
  }

  lemma GraphAt(v: Vol, n: nat)
    requires Live(v.bm, n)
    ensures n in GraphOf(v) && n in TableOf(v) && GraphOf(v)[n].parent == NodeAt(v.blk, n).parent
    ensures GraphOf(v)[n] == ObjOf(v.blk, NodeAt(v.blk, n))
  {
    hide ExtentOf, FileBytes, DirEntries, NodeAt;
  }
}
