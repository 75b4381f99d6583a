/** Taking things away: a file's blocks, an entry of a directory, an inode. */
module Removal {
  import opened Bytes
  import opened Layout
  import opened Volume
  import opened Graph
  import opened GraphOps
  import opened Inodes
  import opened Commits
  import opened DiskState
  import opened Bitmap
  import opened NodeOps
  import opened FileWrite
  import opened FileCommit
  import opened Directory
  import opened DirStore
  import opened Creation

  // ---------------------------------------------------------------- freeing the blocks of an inode

  /** Exactly the bits of s are cleared. */
  ghost predicate Cleared(bm: seq<bool>, bm': seq<bool>, s: set<nat>)
  {
    |bm'| == |bm| && forall b: nat | b < |bm| :: bm'[b] <==> bm[b] && b !in s
  }

  lemma ClearOne(bm: seq<bool>, bm': seq<bool>, s: set<nat>, b: nat)
    requires Cleared(bm, bm', s) && b < |bm|
    ensures Cleared(bm, bm'[b := false], s + {b})
  {
  }

  lemma FreeAllSound(bm: seq<bool>, bm': seq<bool>, t: Table, own: Owners, lk: set<nat>, s: set<nat>)
    requires Sound(bm, t, own, lk) && s <= lk && Cleared(bm, bm', s)
    ensures Sound(bm', t, own, lk - s)
  {
    forall b | b in own
      ensures OwnerMet(t, own, lk - s, b)
    {
      assert OwnerMet(t, own, lk, b);
    }
    assert BitsMatch(bm', own, lk - s) by {
      assert BitsMatch(bm, own, lk);
      assert forall b | b in own :: b !in lk by { Separate(bm, t, own, lk); }
    }
  }

  lemma Separate(bm: seq<bool>, t: Table, own: Owners, lk: set<nat>)
    requires Sound(bm, t, own, lk)
    ensures own.Keys !! lk
  {
    forall b | b in own
      ensures b !in lk
    {
      assert OwnerMet(t, own, lk, b);
    }
  }

  /** When all blocks of inode n are freed, the volume is sound without it, and nothing leaks. */
  lemma ForgetAndFree(bm: seq<bool>, bm': seq<bool>, t: Table, own: Owners, lk: set<nat>, n: nat)
    requires Sound(bm, t, own, lk) && Cleared(bm, bm', BlocksOf(own, n))
    ensures Sound(bm', t - {n}, own - BlocksOf(own, n), lk)
  {
    ForgetSound(bm, t, own, lk, n);
    Separate(bm, t, own, lk);
    hide Sound, Cleared;
    var gone := BlocksOf(own, n);
    FreeAllSound(bm, bm', t - {n}, own - gone, lk + gone, gone);
    assert lk + gone - gone == lk;
  }

  /** The first i pointer blocks and the first k data blocks. */
  function FirstBlocks(f: Extent, i: nat, k: nat): set<nat>
    requires i <= |f.ptrs| && k <= |f.data|
  {
    (set b | b in f.ptrs[..i]) + (set b | b in f.data[..k])
  }

  lemma OneMoreData(f: Extent, i: nat, k: nat)
    requires i <= |f.ptrs| && k < |f.data|
    ensures FirstBlocks(f, i, k + 1) == FirstBlocks(f, i, k) + {f.data[k]}
  {
    assert f.data[..k + 1] == f.data[..k] + [f.data[k]];
  }

  lemma OneMorePointer(f: Extent, i: nat, k: nat)
    requires i < |f.ptrs| && k <= |f.data|
    ensures FirstBlocks(f, i + 1, k) == FirstBlocks(f, i, k) + {f.ptrs[i]}
  {
    assert f.ptrs[..i + 1] == f.ptrs[..i] + [f.ptrs[i]];
  }

  /** An inode owns the blocks its extent lists. */
  lemma AllBlocks(bm: seq<bool>, t: Table, own: Owners, lk: set<nat>, n: nat)
    requires Sound(bm, t, own, lk) && n in t
    ensures BlocksOf(own, n) == FirstBlocks(t[n], |t[n].ptrs|, |t[n].data|)
    ensures forall b | b in BlocksOf(own, n) :: InRegion(b)
  {
    OwnBlocks(bm, t, own, lk, n);
    OwnersInRegion(bm, t, own, lk);
    hide Sound;
    var f := t[n];
    assert f.ptrs[..|f.ptrs|] == f.ptrs && f.data[..|f.data|] == f.data;
    forall b: nat
      ensures b in BlocksOf(own, n) <==> b in f.ptrs || b in f.data
    {
      if b in own && own[b].n == n {
        assert RoleMet(map[n := f], b, own[b]);
      }
      if b in f.ptrs {
        var i :| 0 <= i < |f.ptrs| && f.ptrs[i] == b;
        assert Holds(own, b, PtrRole(n, i));
      }
      if b in f.data {
        var k :| 0 <= k < |f.data| && f.data[k] == b;
        assert Holds(own, b, DataRole(n, k));
      }
    }
  }

  /** Where the blocks of an extent are: through the index, in the data region. */
  ghost predicate Indexed(blk: seq<Block>, ptrs: seq<u32>, f: Extent)
  {
    && |blk| == TOTAL_BLOCKS && Linked(blk, ptrs, f)
    && (forall i | 0 <= i < |f.ptrs| :: InRegion(f.ptrs[i]))
    && (forall k | 0 <= k < |f.data| :: InRegion(f.data[k]))
  }

  lemma SoundIsIndexed(bm: seq<bool>, blk: seq<Block>, t: Table, own: Owners, lk: set<nat>, n: nat, ptrs: seq<u32>)
    requires Sound(bm, t, own, lk) && n in t && |blk| == TOTAL_BLOCKS && Linked(blk, ptrs, t[n])
    ensures Indexed(blk, ptrs, t[n])
  {
    forall i | 0 <= i < |t[n].ptrs|
      ensures InRegion(t[n].ptrs[i])
    {
      Roles(bm, t, own, lk, n, i);
    }
    forall k | 0 <= k < |t[n].data|
      ensures InRegion(t[n].data[k])
    {
      Roles(bm, t, own, lk, n, |t[n].ptrs| + k);
    }
  }

  lemma SlotIs(blk: seq<Block>, ptrs: seq<u32>, f: Extent, i: nat, j: nat)
    requires Indexed(blk, ptrs, f) && j < 1024 && 1024 * i + j < |f.data|
    ensures i < |f.ptrs| <= |ptrs| && InRegion(ptrs[i]) && ptrs[i] == f.ptrs[i]
    ensures Slot(blk[ptrs[i]], j) == f.data[1024 * i + j] && InRegion(f.data[1024 * i + j])
  {
    hide Slot;
    assert DataBlock(blk, ptrs, 1024 * i + j) == f.data[1024 * i + j];
    assert (1024 * i + j) / 1024 == i && (1024 * i + j) % 1024 == j;
  }

  /** Clearing one more data block's bit. */
  lemma ClearData(bm: seq<bool>, cur: seq<bool>, blk: seq<Block>, ptrs: seq<u32>, f: Extent, i: nat, j: nat)
    requires Indexed(blk, ptrs, f) && j < 1024 && 1024 * i + j < |f.data| && |bm| == TOTAL_BLOCKS && i < |f.ptrs|
    requires Cleared(bm, cur, FirstBlocks(f, i, 1024 * i + j))
    ensures i < |ptrs| && ptrs[i] < TOTAL_BLOCKS && |cur| == TOTAL_BLOCKS
    ensures var b := Slot(blk[ptrs[i]], j);
            b < TOTAL_BLOCKS && Cleared(bm, cur[b := false], FirstBlocks(f, i, 1024 * i + j + 1))
  {
    hide Cleared, Indexed, FirstBlocks, Slot;
    SlotIs(blk, ptrs, f, i, j);
    var k, b := 1024 * i + j, f.data[1024 * i + j];
    assert |cur| == TOTAL_BLOCKS by { ClearedLength(bm, cur, FirstBlocks(f, i, k)); }
    ClearOne(bm, cur, FirstBlocks(f, i, k), b);
    OneMoreData(f, i, k);
  }

  lemma ClearedLength(bm: seq<bool>, bm': seq<bool>, s: set<nat>)
    requires Cleared(bm, bm', s)
    ensures |bm'| == |bm|
  {
  }

  /** The inner loop of sac_remove: the slots of the i-th pointer block, as many as are left. */
  method FreeSlots(d: Disk, x: TNode, i: nat, left: nat, ghost f: Extent, ghost bm: seq<bool>) returns (rest: nat)
    requires d.Sizes() && Indexed(d.Vol().blk, x.ptrs, f) && |bm| == TOTAL_BLOCKS
    requires i < |f.ptrs| && left + 1024 * i == |f.data| && left > 0
    requires Cleared(bm, d.Vol().bm, FirstBlocks(f, i, 1024 * i))
    modifies d.bits
    ensures d.Vol().blk == old(d.Vol().blk)
    ensures rest == if left > 1024 then left - 1024 else 0
    ensures Cleared(bm, d.Vol().bm, FirstBlocks(f, i, |f.data| - rest))
  {
    hide Cleared, Indexed, FirstBlocks, Slot;
    ClearData(bm, d.Vol().bm, d.Vol().blk, x.ptrs, f, i, 0);
    var pointers := d.blocks[x.ptrs[i]];
    ghost var k := 1024 * i;
    rest := left;
    var j := 0;
    while j < 1024 && rest > 0
      modifies d.bits
      invariant 0 <= j <= 1024 && rest == left - j
      invariant Cleared(bm, d.Vol().bm, FirstBlocks(f, i, k + j))
    {
      ClearData(bm, d.Vol().bm, d.Vol().blk, x.ptrs, f, i, j);
      FreeBlock(d, Slot(pointers, j));
      rest := rest - 1;
      j := j + 1;
    }
  }

  /** One iteration of the outer loop: the slots of the i-th pointer block, and the block itself. */
  method FreePointerBlock(d: Disk, x: TNode, i: nat, left: nat, ghost f: Extent, ghost bm: seq<bool>)
    returns (rest: nat)
    requires d.Sizes() && Indexed(d.Vol().blk, x.ptrs, f) && |bm| == TOTAL_BLOCKS
    requires i < |f.ptrs| && left + 1024 * i == |f.data|
    requires Cleared(bm, d.Vol().bm, FirstBlocks(f, i, 1024 * i))
    modifies d.bits
    ensures d.Vol().blk == old(d.Vol().blk)
    ensures i + 1 < |f.ptrs| ==> rest + 1024 * (i + 1) == |f.data|
    ensures Cleared(bm, d.Vol().bm, FirstBlocks(f, i + 1, DataFreed(f, i + 1)))
  {
    IndexShape(d.Vol().blk, x.ptrs, f);
    hide Cleared, Indexed, FirstBlocks, InRegion;
    rest := FreeSlots(d, x, i, left, f, bm);
    RegionBelow(x.ptrs[i]);
    assert |f.data| - rest == DataFreed(f, i + 1);
    ClearOne(bm, d.Vol().bm, FirstBlocks(f, i, DataFreed(f, i + 1)), x.ptrs[i]);
    OneMorePointer(f, i, DataFreed(f, i + 1));
    FreeBlock(d, x.ptrs[i]);
  }

  /** How many data blocks are freed with the first i pointer blocks. */
  function DataFreed(f: Extent, i: nat): (k: nat)
    ensures k <= |f.data|
  {
    if 1024 * i < |f.data| then 1024 * i else |f.data|
  }

  method FreeLoop(d: Disk, x: TNode, left: nat, ghost f: Extent, ghost bm: seq<bool>)
    requires d.Sizes() && Indexed(d.Vol().blk, x.ptrs, f) && bm == d.Vol().bm
    requires |f.data| > 0 ==> left == |f.data|
    modifies d.bits
    ensures d.Vol().blk == old(d.Vol().blk)
    ensures Cleared(bm, d.Vol().bm, FirstBlocks(f, |f.ptrs|, |f.data|))
  {
    IndexShape(d.Vol().blk, x.ptrs, f);
    FirstNone(bm, f);
    hide Cleared, Indexed, FirstBlocks, InRegion;
    var rest := left;
    var i := 0;
    while i < 1000 && x.ptrs[i] != 0
      invariant 0 <= i <= |f.ptrs| && d.Vol().blk == old(d.Vol().blk)
      invariant i < |f.ptrs| ==> rest + 1024 * i == |f.data|
      invariant Cleared(bm, d.Vol().bm, FirstBlocks(f, i, DataFreed(f, i)))
    {
      rest := FreePointerBlock(d, x, i, rest, f, bm);
      i := i + 1;
    }
  }

  /** The nested loops of sac_remove, with a counter taken from the size alone: exactly the bits of the
      file's data blocks and pointer blocks are cleared. */
  method FreeFileBlocks(d: Disk, x: TNode, ghost n: nat, ghost t: Table)
    requires Holding(d, t, x, n) && |t[n].data| == BlockCount(x.Val())
    modifies d.bits
    ensures d.Sizes() && d.Vol().blk == old(d.Vol().blk)
    ensures Cleared(old(d.Vol().bm), d.Vol().bm, BlocksOf(d.own, n))
  {
    ghost var f := t[n];
    SoundIsIndexed(d.Vol().bm, d.Vol().blk, t, d.own, d.lk, n, x.ptrs);
    AllBlocks(d.Vol().bm, t, d.own, d.lk, n);
    CountIfAny(x.Val());
    hide Cleared, Indexed, FirstBlocks, BlocksOf, Sound, Linked, BlockCount;
    FreeLoop(d, x, x.size / BLOCK_SIZE + 1, f, d.Vol().bm);
  }

  lemma CountIfAny(x: Node)
    ensures BlockCount(x) > 0 ==> BlockCount(x) == x.size / 4096 + 1
  {
  }

  lemma FirstNone(bm: seq<bool>, f: Extent)
    ensures Cleared(bm, bm, FirstBlocks(f, 0, 0))
  {
  }

  lemma IndexShape(blk: seq<Block>, ptrs: seq<u32>, f: Extent)
    requires Indexed(blk, ptrs, f)
    ensures |ptrs| == 1000 && |f.ptrs| <= 1000
    ensures forall i | 0 <= i < 1000 :: ptrs[i] != 0 <==> i < |f.ptrs|
    ensures forall i | 0 <= i < |f.ptrs| :: ptrs[i] == f.ptrs[i] && InRegion(ptrs[i])
    ensures 1024 * |f.ptrs| < |f.data| + 1024 && |f.data| <= 1024 * |f.ptrs|
  {
  }

  lemma NodeAtFits(blk: seq<Block>, n: nat)
    ensures Fits(NodeAt(blk, n))
  {
  }

  /** The blocks that the first i pointers name. */
  function FirstPointers(ptrs: seq<u32>, i: nat): set<nat>
    requires i <= |ptrs|
  {
    set j | 0 <= j < i :: ptrs[j]
  }

  lemma NoPointers(bm: seq<bool>, ptrs: seq<u32>)
    ensures FirstPointers(ptrs, 0) == {} && Cleared(bm, bm, FirstPointers(ptrs, 0))
  {
  }

  lemma ClearPointer(bm: seq<bool>, cur: seq<bool>, ptrs: seq<u32>, i: nat)
    requires i < |ptrs| && ptrs[i] < |bm| && Cleared(bm, cur, FirstPointers(ptrs, i))
    ensures |cur| == |bm| && Cleared(bm, cur[ptrs[i] := false], FirstPointers(ptrs, i + 1))
  {
    assert FirstPointers(ptrs, i + 1) == FirstPointers(ptrs, i) + {ptrs[i]};
  }

  /** delete_all_directory_entries: exactly the bits of the pointer blocks are cleared. */
  method DeleteAllDirectoryEntries(d: Disk, n: nat)
    requires d.Sizes() && n < NODE_TABLE_BLOCKS
    requires forall i | 0 <= i < 1000 :: NodeAt(d.Vol().blk, n).ptrs[i] < TOTAL_BLOCKS
    modifies d.bits, d.blocks
    ensures d.Vol().blk == old(d.Vol().blk)
    ensures var ptrs := NodeAt(d.Vol().blk, n).ptrs;
            Cleared(old(d.Vol().bm), d.Vol().bm, FirstPointers(ptrs, SetPointers(ptrs)))
  {
    NodeAtFits(d.Vol().blk, n);
    hide NodeAt, FirstPointers, SetPointers, Cleared;
    ghost var bm := d.Vol().bm;
    var x := d.ReadNode(n);
    NoPointers(bm, x.ptrs);
    var i := 0;
    while i < 1000 && x.ptrs[i] != 0
      modifies d.bits
      invariant 0 <= i <= 1000 && d.Vol().blk == old(d.Vol().blk)
      invariant forall j | 0 <= j < i :: x.ptrs[j] != 0
      invariant Cleared(bm, d.Vol().bm, FirstPointers(x.ptrs, i))
    {
      ClearPointer(bm, d.Vol().bm, x.ptrs, i);
      FreeBlock(d, x.ptrs[i]);
      i := i + 1;
    }
    SetPointersIs(x.ptrs, i);
    d.UnmapRead(x, n);
  }

  // ---------------------------------------------------------------- an entry goes

  /** The same blocks, and the same bits in the data region. */
  ghost predicate SameData(v: Vol, w: Vol)
  {
    && v.blk == w.blk && |v.bm| == |w.bm| == TOTAL_BLOCKS
    && forall b | DATA_INITIAL_BLOCK <= b < TOTAL_BLOCKS :: v.bm[b] == w.bm[b]
  }

  lemma SoundSame(v: Vol, w: Vol, t: Table, own: Owners, lk: set<nat>)
    requires SameData(v, w) && Sound(w.bm, t, own, lk)
    ensures Sound(v.bm, t, own, lk)
  {
  }

  lemma ReadyCopyIn(d: Disk, x: TNode, n: nat, w: Vol)
    requires d.Sizes() && SameData(d.Vol(), w) && VolOk(w, d.own, d.lk) && Live(w.bm, n) && x.Val() == NodeAt(w.blk, n)
    ensures Holding(d, TableOf(w), x, n) && |TableOf(w)[n].data| == BlockCount(x.Val()) && NodeOk(x.Val())
  {
    StoredIsLinked(w, d.own, d.lk, n);
    SoundSame(d.Vol(), w, TableOf(w), d.own, d.lk);
    hide Sound, Linked, NodeAt, TableOf, BlockCount, SameData;
  }

  /** A directory's copy, when the volume counts as w because an inode has been given up already. */
  lemma DirReadyIn(d: Disk, x: TNode, dir: nat, w: Vol)
    requires d.Sizes() && SameData(d.Vol(), w) && VolOk(w, d.own, d.lk) && IsDir(GraphOf(w), dir)
    requires x.Val() == NodeAt(w.blk, dir)
    ensures DirCopy(d, x, dir, TableOf(w))
    ensures EntriesIn(d, x, dir, TableOf(w)) == GraphOf(w)[dir].body.ents
    ensures dir < NODE_TABLE_BLOCKS && d.Vol().blk == w.blk
  {
    hide VolOk, NodeAt, NodeOk, Holding, TableOf, GraphOf, DirEntries, ExtentOf, BlockCount;
    DirObj(w, dir);
    ReadyCopyIn(d, x, dir, w);
    DirCount(x.Val());
    assert dir < NODE_TABLE_BLOCKS;
  }

  lemma FollowsBits(s: Start, s': Start, bm: seq<bool>, n: nat)
    requires Follows(s, s', n) && s'.bm == s.bm && |bm| == TOTAL_BLOCKS
    ensures Follows(s.(bm := bm), s'.(bm := bm), n)
  {
  }

  /** A changed copy of a directory, about to be written back, seen from w. */
  lemma DirChangedIn(d: Disk, x: TNode, dir: nat, w: Vol, bm: seq<bool>, own: Owners, lk: set<nat>, t: Table)
    requires VolOk(w, own, lk) && IsDir(GraphOf(w), dir) && DirCopy(d, x, dir, t) && |w.bm| == TOTAL_BLOCKS
    requires Follows(Start(bm, w.blk, own, lk, TableOf(w), NodeAt(w.blk, dir)), Snapshot(d, t, x), dir)
    requires d.Vol().bm == bm && SameData(w, Vol(bm, w.blk))
    ensures d.Sizes() && dir < NODE_TABLE_BLOCKS && Fits(x.Val())
    ensures var w' := Vol(w.bm, d.Vol().blk[dir + 2 := NodeToBlock(x.Val())]);
            && VolOk(w', d.own, d.lk)
            && GraphOf(w') == SetEntries(GraphOf(w), dir, EntriesIn(d, x, dir, t))
  {
    DirFits(w, dir);
    var s := Snapshot(d, t, x);
    FollowsBits(Start(bm, w.blk, own, lk, TableOf(w), NodeAt(w.blk, dir)), s, w.bm, dir);
    SoundSame(Vol(w.bm, s.blk), Vol(bm, s.blk), t, d.own, d.lk);
    hide VolOk, GraphOf, TableOf, NodeAt, DirEntries, NodeToBlock, Sound, Linked, LowBits, SameOwners, Untouched;
    CommitDir(w, own, lk, s.(bm := w.bm), dir);
  }

  /** The table blocks of the other inodes are as they were. */
  ghost predicate OthersSame(blk: seq<Block>, blk': seq<Block>, n: nat)
  {
    |blk| == |blk'| == TOTAL_BLOCKS && forall b: nat | b < DATA_INITIAL_BLOCK && b != n + 2 :: blk'[b] == blk[b]
  }

  /** What deleting an entry makes of w: the graph without the entry, and two blocks leaked if it was the
      only one. */
  ghost predicate EntryDeleted(w: Vol, lk: set<nat>, blk': seq<Block>, own': Owners, lk': set<nat>, dir: nat,
                               name: Name)
  {
    && IsDir(GraphOf(w), dir) && Child(GraphOf(w), dir, name).Some?
    && VolOk(Vol(w.bm, blk'), own', lk')
    && GraphOf(Vol(w.bm, blk')) == DropEntryOf(GraphOf(w), dir, name)
    && lk <= lk' && |lk'| == |lk| + (if |GraphOf(w)[dir].body.ents| == 1 then 2 else 0)
    && OthersSame(w.blk, blk', dir)
  }

  lemma EntryGone(d: Disk, x: TNode, dir: nat, name: Name, w: Vol, s: Start, t: Table)
    requires VolOk(w, s.own, s.lk) && IsDir(GraphOf(w), dir) && DirCopy(d, x, dir, t)
    requires SameData(Vol(s.bm, w.blk), w) && Child(GraphOf(w), dir, name).Some?
    requires s == Start(s.bm, w.blk, s.own, s.lk, TableOf(w), NodeAt(w.blk, dir))
    requires Follows(s, Snapshot(d, t, x), dir) && d.Vol().bm == s.bm
    requires var ents := GraphOf(w)[dir].body.ents; var i := IndexOf(ents, name);
             && i < |ents| && EntriesIn(d, x, dir, t) == RemoveAt(ents, i)
             && s.lk <= d.lk && |d.lk| == |s.lk| + if |ents| == 1 then 2 else 0
    ensures d.Sizes() && dir < NODE_TABLE_BLOCKS && Fits(x.Val())
    ensures EntryDeleted(w, s.lk, d.Vol().blk[dir + 2 := NodeToBlock(x.Val())], d.own, d.lk, dir, name)
  {
    hide VolOk, GraphOf, TableOf, NodeAt, DirEntries, NodeToBlock, Follows, SameData, DirCopy, IndexOf, RemoveAt,
      Child, OthersSame, EntriesIn, Snapshot, DropEntryOf, EntryDeleted;
    SameDataBack(Vol(s.bm, w.blk), w);
    DirChangedIn(d, x, dir, w, s.bm, s.own, s.lk, t);
    OthersKeptIn(s, Snapshot(d, t, x), dir, NodeToBlock(x.Val()));
    SnapshotIs(d, x, t);
    DirShape(d, x, dir, t);
    DeletedFrom(w, s.lk, d.Vol().blk[dir + 2 := NodeToBlock(x.Val())], d.own, d.lk, dir, name, EntriesIn(d, x, dir, t));
  }

  lemma SnapshotIs(d: Disk, x: TNode, t: Table)
    ensures Snapshot(d, t, x) == Start(d.Vol().bm, d.Vol().blk, d.own, d.lk, t, x.Val())
  {
  }

  lemma DeletedFrom(w: Vol, lk: set<nat>, blk': seq<Block>, own': Owners, lk': set<nat>, dir: nat, name: Name,
                    ents: seq<Entry>)
    requires IsDir(GraphOf(w), dir) && Child(GraphOf(w), dir, name).Some? && OthersSame(w.blk, blk', dir)
    requires VolOk(Vol(w.bm, blk'), own', lk') && GraphOf(Vol(w.bm, blk')) == SetEntries(GraphOf(w), dir, ents)
    requires var before := GraphOf(w)[dir].body.ents;
             && IndexOf(before, name) < |before| && ents == RemoveAt(before, IndexOf(before, name))
             && lk <= lk' && |lk'| == |lk| + if |before| == 1 then 2 else 0
    ensures EntryDeleted(w, lk, blk', own', lk', dir, name)
  {
    hide VolOk, GraphOf, IndexOf, RemoveAt, Child, OthersSame;
  }

  lemma OthersKeptIn(s: Start, s': Start, n: nat, b: Block)
    requires Follows(s, s', n) && n < NODE_TABLE_BLOCKS
    ensures n + 2 < |s'.blk| && OthersSame(s.blk, s'.blk[n + 2 := b], n)
  {
    hide SameOwners, LowBits;
  }

  /** delete_directory_entry on a directory's copy that has the entry. */
  method DeleteEntryCopy(d: Disk, x: TNode, dir: nat, name: Name, ghost w: Vol)
    requires d.Sizes() && SameData(d.Vol(), w) && VolOk(w, d.own, d.lk) && IsDir(GraphOf(w), dir)
    requires x.Val() == NodeAt(w.blk, dir) && name != [] && Child(GraphOf(w), dir, name).Some?
    modifies d, d.blocks, x
    ensures d.Vol().bm == old(d.Vol().bm) && d.Sizes() && dir < NODE_TABLE_BLOCKS && Fits(x.Val())
    ensures EntryDeleted(w, old(d.lk), d.Vol().blk[dir + 2 := NodeToBlock(x.Val())], d.own, d.lk, dir, name)
  {
    hide *;
    ChildIndex(GraphOf(w), dir, name);
    DirReadyIn(d, x, dir, w);
    SameDataHere(d, w);
    ghost var s := Snapshot(d, TableOf(w), x);
    SnapshotIs(d, x, TableOf(w));
    VolParts(d);
    ghost var t := DeleteDirectoryEntry(d, x, name, dir, TableOf(w));
    VolParts(d);
    EntryGone(d, x, dir, name, w, s, t);
  }

  lemma SameDataHere(d: Disk, w: Vol)
    requires SameData(d.Vol(), w)
    ensures SameData(Vol(d.Vol().bm, w.blk), w) && d.Vol().blk == w.blk
  {
  }

  lemma ChildIndex(g: Graph, dir: nat, name: Name)
    requires IsDir(g, dir) && Child(g, dir, name).Some?
    ensures IndexOf(g[dir].body.ents, name) < |g[dir].body.ents|
  {
  }

  /** And writing it back. */
  method DeleteEntryAndUnmap(d: Disk, x: TNode, dir: nat, name: Name, ghost w: Vol)
    requires d.Sizes() && SameData(d.Vol(), w) && VolOk(w, d.own, d.lk) && IsDir(GraphOf(w), dir)
    requires x.Val() == NodeAt(w.blk, dir) && name != [] && Child(GraphOf(w), dir, name).Some?
    modifies d, d.blocks, x
    ensures d.Vol().bm == old(d.Vol().bm)
    ensures EntryDeleted(w, old(d.lk), d.Vol().blk, d.own, d.lk, dir, name)
  {
    hide VolOk, GraphOf, NodeAt, NodeToBlock, SameData, Child, EntryDeleted;
    DeleteEntryCopy(d, x, dir, name, w);
    d.UnmapNode(x, dir);
  }

  lemma SameDataBack(v: Vol, w: Vol)
    requires SameData(v, w)
    ensures SameData(w, Vol(v.bm, w.blk)) && |w.bm| == TOTAL_BLOCKS
  {
  }

  // ---------------------------------------------------------------- an inode goes

  lemma NoBlocks(bm: seq<bool>, t: Table, own: Owners, lk: set<nat>, n: nat)
    requires Sound(bm, t, own, lk) && (n in t ==> t[n] == Extent([], []))
    ensures BlocksOf(own, n) == {}
  {
    forall b | b in own
      ensures own[b].n != n
    {
      assert OwnerMet(t, own, lk, b);
    }
  }

  /** An inode without blocks is given up. */
  lemma DropEmpty(w: Vol, own: Owners, lk: set<nat>, n: nat, b: Block)
    requires VolOk(w, own, lk) && n < NODE_TABLE_BLOCKS
    requires Live(w.bm, n) ==> BlockCount(NodeAt(w.blk, n)) == 0
    ensures var w' := Vol(w.bm[n + 2 := false], w.blk[n + 2 := b]);
            VolOk(w', own, lk) && GraphOf(w') == GraphOf(w) - {n}
  {
    hide TableOf, GraphOf, NodeAt, BlockCount, Sound, OnlyNode, NodesOk, Live;
    DropIsLocal(w, own, lk, n, b);
    EmptyForgotten(w, own, lk, n);
    Drop(w, own, lk, Vol(w.bm[n + 2 := false], w.blk[n + 2 := b]), own, lk, n);
  }

  lemma EmptyForgotten(w: Vol, own: Owners, lk: set<nat>, n: nat)
    requires VolOk(w, own, lk) && n < NODE_TABLE_BLOCKS
    requires Live(w.bm, n) ==> BlockCount(NodeAt(w.blk, n)) == 0
    ensures Sound(w.bm[n + 2 := false], TableOf(w) - {n}, own, lk)
  {
    hide TableOf, NodeAt, BlockCount, Sound, Live;
    EmptyExtent(w, n);
    NoBlocks(w.bm, TableOf(w), own, lk, n);
    ForgetAndFree(w.bm, w.bm, TableOf(w), own, lk, n);
    assert own - {} == own;
    LowBitSound(w.bm, TableOf(w) - {n}, own, lk, n + 2, false);
  }

  lemma DropIsLocal(w: Vol, own: Owners, lk: set<nat>, n: nat, b: Block)
    requires VolOk(w, own, lk) && n < NODE_TABLE_BLOCKS
    ensures var w' := Vol(w.bm[n + 2 := false], w.blk[n + 2 := b]);
            OnlyNode(w, own, w', n) && !Live(w'.bm, n)
  {
    hide TableOf, NodeAt, Sound;
    OwnersInRegion(w.bm, TableOf(w), own, lk);
  }

  lemma EmptyExtent(w: Vol, n: nat)
    requires Live(w.bm, n) ==> BlockCount(NodeAt(w.blk, n)) == 0
    ensures n in TableOf(w) ==> Live(w.bm, n) && TableOf(w)[n] == Extent([], [])
  {
    hide NodeAt, BlockCount;
  }

  /** An inode is given up together with its freed blocks. */
  lemma DropFreed(v: Vol, own: Owners, lk: set<nat>, n: nat, bm: seq<bool>)
    requires VolOk(v, own, lk) && Live(v.bm, n) && Cleared(v.bm, bm, BlocksOf(own, n))
    ensures |bm| == TOTAL_BLOCKS && SameData(Vol(bm, v.blk), Vol(bm[n + 2 := false], v.blk))
    ensures var w := Vol(bm[n + 2 := false], v.blk);
            VolOk(w, own - BlocksOf(own, n), lk) && GraphOf(w) == GraphOf(v) - {n} && !Live(w.bm, n)
  {
    hide TableOf, GraphOf, Sound, OnlyNode, Cleared, BlocksOf, Live, SameData, NodesOk;
    FreedIsLocal(v, own, lk, n, bm);
    ForgetAndFree(v.bm, bm, TableOf(v), own, lk, n);
    LowBitSound(bm, TableOf(v) - {n}, own - BlocksOf(own, n), lk, n + 2, false);
    Drop(v, own, lk, Vol(bm[n + 2 := false], v.blk), own - BlocksOf(own, n), lk, n);
  }

  lemma FreedIsLocal(v: Vol, own: Owners, lk: set<nat>, n: nat, bm: seq<bool>)
    requires VolOk(v, own, lk) && Live(v.bm, n) && Cleared(v.bm, bm, BlocksOf(own, n))
    ensures n < NODE_TABLE_BLOCKS && |bm| == TOTAL_BLOCKS && SameData(Vol(bm, v.blk), Vol(bm[n + 2 := false], v.blk))
    ensures OnlyNode(v, own, Vol(bm[n + 2 := false], v.blk), n) && !Live(bm[n + 2 := false], n)
  {
    hide TableOf, Sound, NodesOk, BlocksOf;
    LiveInTable(v, n);
    AllBlocks(v.bm, TableOf(v), own, lk, n);
    UntouchedRefl(own, v.blk, n);
  }

  lemma LiveInTable(v: Vol, n: nat)
    ensures n in TableOf(v) <==> Live(v.bm, n)
  {
    hide NodeAt, ExtentOf;
  }
}
