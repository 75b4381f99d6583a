/** Where on the disk the fields of an inode, the bytes of a file and the entries of a directory lie: the graph
    of inodes, in terms of raw bytes. */
module Storage {
  import opened Bytes
  import opened Layout
  import opened Volume
  import opened Graph
  import opened Inodes

  /** The fields of an inode's block. */
  lemma NodeFields(b: Block, i: nat)
    requires i < 1000
    ensures var x := BlockToNode(b);
            && x.state == b[0] && x.name == b[1..72] && x.parent == U32At(b, 72) && x.size == U32At(b, 76)
            && Le(x.ctime, 8) == b[80..88] && Le(x.mtime, 8) == b[88..96]
            && |x.ptrs| == 1000 && x.ptrs[i] == U32At(b, 96 + 4 * i)
  {
    LeValue(b[80..88]);
    LeValue(b[88..96]);
    hide Le, Value;
  }

  /** The fields of an entry: the number in four bytes, and the name up to its NUL in the other 124. */
  lemma EntryFields(b: Block, k: nat)
    requires k < 32
    ensures EntryIn(b, k).id == U32At(b, 128 * k)
    ensures EntryIn(b, k).name == CStr(b[128 * k + 4..128 * k + 128])
  {
    hide CStr, Value;
  }

  /** Inode n is in use when bit n + 2 is set, and block n + 2 says whether it is a file and who holds it. */
  lemma NodeOnDisk(v: Vol, own: Owners, lk: set<nat>, n: nat)
    requires VolOk(v, own, lk)
    ensures |v.bm| == |v.blk| == 3000
    ensures n in GraphOf(v) <==> n < 32 && v.bm[n + 2]
    ensures n in GraphOf(v) ==> GraphOf(v)[n].parent == U32At(v.blk[n + 2], 72)
    ensures n in GraphOf(v) ==> (GraphOf(v)[n].body.File? <==> v.blk[n + 2][0] == 1)
    ensures n in GraphOf(v) ==> (GraphOf(v)[n].body.Dir? <==> v.blk[n + 2][0] == 2)
  {
    hide Sound, ExtentOf, FileBytes, DirEntries, DecPtrs, Value;
    if n in GraphOf(v) {
      assert NodeOk(NodeAt(v.blk, n));
    }
  }

  /** The blocks that the k-th data block of an inode is reached through: word k / 1024 of the pointers, which
      start at byte 96, and word k % 1024 of the block it names. */
  lemma BlockOnDisk(v: Vol, own: Owners, lk: set<nat>, n: nat, k: nat) returns (p: nat, b: nat)
    requires VolOk(v, own, lk) && Live(v.bm, n) && n in TableOf(v) && k < |TableOf(v)[n].data|
    ensures |v.blk| == 3000 && n < 32 && k < 1_024_000
    ensures 34 <= p < 3000 && p == U32At(v.blk[n + 2], 96 + 4 * (k / 1024))
    ensures 34 <= b < 3000 && b == U32At(v.blk[p], 4 * (k % 1024)) && TableOf(v)[n].data[k] == b
  {
    hide *;
    Constants();
    LiveIs(v, own, lk, n);
    StoredIsLinked(v, own, lk, n);
    var f, x := TableOf(v)[n], NodeAt(v.blk, n);
    LinkedPlace(v.blk, x.ptrs, f, k);
    NodeIs(v.blk, n, k / 1024);
    p, b := f.ptrs[k / 1024], f.data[k];
    BlocksInRegion(v.bm, TableOf(v), own, lk, n, k);
    SlotIs(v.blk, p, k % 1024);
  }

  lemma LiveIs(v: Vol, own: Owners, lk: set<nat>, n: nat)
    requires VolOk(v, own, lk) && Live(v.bm, n)
    ensures n < 32 && |v.blk| == 3000 && Sound(v.bm, TableOf(v), own, lk)
  {
    hide Sound, NodesOk;
  }

  lemma NodeIs(blk: seq<Block>, n: nat, i: nat)
    requires n + 2 < |blk| && i < 1000
    ensures var x := NodeAt(blk, n); |x.ptrs| == 1000 && x.ptrs[i] == U32At(blk[n + 2], 96 + 4 * i)
  {
    hide BlockToNode;
    NodeFields(blk[n + 2], i);
  }

  lemma LinkedPlace(blk: seq<Block>, ptrs: seq<u32>, f: Extent, k: nat)
    requires Linked(blk, ptrs, f) && k < |f.data|
    ensures k < 1_024_000 && |ptrs| == 1000 && k / 1024 < |f.ptrs| && ptrs[k / 1024] == f.ptrs[k / 1024]
    ensures f.data[k] == Slot(BlockAt(blk, f.ptrs[k / 1024]), k % 1024)
  {
    hide Slot, BlockAt;
    assert DataBlock(blk, ptrs, k) == f.data[k];
  }

  lemma SlotIs(blk: seq<Block>, p: nat, j: nat)
    requires p < |blk| && j < 1024
    ensures Slot(BlockAt(blk, p), j) == U32At(blk[p], 4 * j)
  {
  }

  lemma BlocksInRegion(bm: seq<bool>, t: Table, own: Owners, lk: set<nat>, n: nat, k: nat)
    requires Sound(bm, t, own, lk) && n in t && k < |t[n].data|
    ensures k / 1024 < |t[n].ptrs| && 34 <= t[n].ptrs[k / 1024] < 3000 && 34 <= t[n].data[k] < 3000
  {
    OwnBlocks(bm, t, own, lk, n);
    var p, b := t[n].ptrs[k / 1024], t[n].data[k];
    assert Holds(own, p, PtrRole(n, k / 1024)) && Holds(own, b, DataRole(n, k));
    assert OwnerMet(t, own, lk, p) && OwnerMet(t, own, lk, b);
  }

  /** The i-th byte of a file is byte i % 4096 of its data block i / 4096. */
  lemma FileOnDisk(v: Vol, own: Owners, lk: set<nat>, n: nat, i: nat)
    requires VolOk(v, own, lk) && n < 32 && Live(v.bm, n) && |v.blk| == 3000 && v.blk[n + 2][0] == 1
    ensures n in GraphOf(v) && GraphOf(v)[n].body.File?
    ensures |GraphOf(v)[n].body.data| == U32At(v.blk[n + 2], 76)
    ensures GraphOf(v)[n].body.blocks <==> U32At(v.blk[n + 2], 96) != 0
    ensures i < |GraphOf(v)[n].body.data| ==>
              i / 4_194_304 < 1000 &&
              var p := U32At(v.blk[n + 2], 96 + 4 * (i / 4_194_304));
              && 34 <= p < 3000
              && var b := U32At(v.blk[p], 4 * (i / 4096 % 1024));
                 34 <= b < 3000 && GraphOf(v)[n].body.data[i] == v.blk[b][i % 4096]
  {
    hide *;
    StoredIsLinked(v, own, lk, n);
    ObjIs(v, n);
    var f := TableOf(v)[n];
    if i < |GraphOf(v)[n].body.data| {
      EnoughBlocks(v, own, lk, n, i);
      var p, b := BlockOnDisk(v, own, lk, n, i / 4096);
      ByteIs(v.blk, f, U32At(v.blk[n + 2], 76), i);
    }
  }

  lemma ObjIs(v: Vol, n: nat)
    requires Live(v.bm, n) && n + 2 < |v.blk|
    ensures n in GraphOf(v) && n in TableOf(v)
    ensures v.blk[n + 2][0] == 1 ==>
              GraphOf(v)[n].body == File(FileBytes(v.blk, TableOf(v)[n], U32At(v.blk[n + 2], 76)),
                                         U32At(v.blk[n + 2], 96) != 0)
    ensures v.blk[n + 2][0] != 1 ==>
              GraphOf(v)[n].body == Dir(DirEntries(v.blk, TableOf(v)[n], U32At(v.blk[n + 2], 76)))
  {
    hide ExtentOf, FileBytes, DirEntries, BlockToNode;
    NodeFields(v.blk[n + 2], 0);
  }

  lemma EnoughBlocks(v: Vol, own: Owners, lk: set<nat>, n: nat, i: nat)
    requires VolOk(v, own, lk) && Live(v.bm, n) && n + 2 < |v.blk| && n in TableOf(v)
    requires i < U32At(v.blk[n + 2], 76)
    ensures i / 4096 < |TableOf(v)[n].data|
  {
    hide VolOk, TableOf, ExtentOf, BlockToNode, Linked, U32At;
    StoredIsLinked(v, own, lk, n);
    NodeFields(v.blk[n + 2], 0);
  }

  lemma ByteIs(blk: seq<Block>, f: Extent, size: nat, i: nat)
    requires i < size && i / 4096 < |f.data| && f.data[i / 4096] < |blk|
    ensures FileBytes(blk, f, size)[i] == blk[f.data[i / 4096]][i % 4096]
  {
  }

  /** A directory has size / 128 entries, and at most 31. */
  lemma DirOnDisk(v: Vol, own: Owners, lk: set<nat>, n: nat)
    requires VolOk(v, own, lk) && n < 32 && Live(v.bm, n) && |v.blk| == 3000 && v.blk[n + 2][0] == 2
    ensures n in GraphOf(v) && GraphOf(v)[n].body.Dir?
    ensures 128 * |GraphOf(v)[n].body.ents| == U32At(v.blk[n + 2], 76) <= 3968
  {
    hide *;
    StoredIsLinked(v, own, lk, n);
    ObjIs(v, n);
    DirSizeIs(v.blk, n);
    EntriesNumber(v.blk, TableOf(v)[n], U32At(v.blk[n + 2], 76));
  }

  /** The e-th entry is at byte 128 * e of the one data block. */
  lemma EntryOnDisk(v: Vol, own: Owners, lk: set<nat>, n: nat, e: nat) returns (p: nat, b: nat)
    requires VolOk(v, own, lk) && n < 32 && Live(v.bm, n) && |v.blk| == 3000 && v.blk[n + 2][0] == 2
    requires e < 31 && 128 * e < U32At(v.blk[n + 2], 76)
    ensures 34 <= p < 3000 && p == U32At(v.blk[n + 2], 96) && 34 <= b < 3000 && b == U32At(v.blk[p], 0)
    ensures n in GraphOf(v) && GraphOf(v)[n].body.Dir? && e < |GraphOf(v)[n].body.ents|
    ensures GraphOf(v)[n].body.ents[e] == EntryIn(v.blk[b], e)
  {
    hide *;
    StoredIsLinked(v, own, lk, n);
    DirOnDisk(v, own, lk, n);
    ObjIs(v, n);
    EnoughBlocks(v, own, lk, n, 0);
    p, b := BlockOnDisk(v, own, lk, n, 0);
    EntryIs(v.blk, TableOf(v)[n], U32At(v.blk[n + 2], 76), e);
  }

  lemma DirSizeIs(blk: seq<Block>, n: nat)
    requires n + 2 < |blk| && blk[n + 2][0] == 2 && NodeOk(NodeAt(blk, n))
    ensures U32At(blk[n + 2], 76) % 128 == 0 && U32At(blk[n + 2], 76) <= 3968
  {
    hide BlockToNode;
    NodeFields(blk[n + 2], 0);
  }

  lemma EntriesNumber(blk: seq<Block>, f: Extent, size: nat)
    ensures |DirEntries(blk, f, size)| == size / 128
  {
  }

  lemma EntryIs(blk: seq<Block>, f: Extent, size: nat, e: nat)
    requires e < size / 128 && size <= 3968 && 0 < |f.data| && f.data[0] < |blk|
    ensures DirEntries(blk, f, size)[e] == EntryIn(blk[f.data[0]], e)
  {
    hide CStr, Value;
  }
}
