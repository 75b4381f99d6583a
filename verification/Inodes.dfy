/** What the raw blocks say: the inode in a table block, the extent its pointers lead to, its bytes or
    its entries, and the graph of all live inodes. */
module Inodes {
  import opened Bytes
  import opened Layout
  import opened Volume
  import opened Graph

  function BlockAt(blk: seq<Block>, b: nat): Block
  {
    if b < |blk| then blk[b] else seq(4096, _ => 0)
  }

  /** The number of the k-th data block, through the two-level index. */
  function DataBlock(blk: seq<Block>, ptrs: seq<u32>, k: nat): nat
  {
    if k / 1024 < |ptrs| then Slot(BlockAt(blk, ptrs[k / 1024]), k % 1024) else 0
  }

  /** How many data blocks an inode has: none if pointer 0 is clear, and otherwise size/4096 + 1. */
  function BlockCount(x: Node): nat
  {
    if |x.ptrs| == 0 || x.ptrs[0] == 0 then 0 else x.size / 4096 + 1
  }

  /** How many pointers are set before the first that is clear. */
  function SetPointers(ptrs: seq<u32>): (c: nat)
    ensures c <= |ptrs|
  {
    if ptrs == [] || ptrs[0] == 0 then 0 else 1 + SetPointers(ptrs[1..])
  }

  lemma {:induction false} SetPointersIs(ptrs: seq<u32>, c: nat)
    requires c <= |ptrs| && (forall i | 0 <= i < c :: ptrs[i] != 0) && (c < |ptrs| ==> ptrs[c] == 0)
    ensures SetPointers(ptrs) == c
    decreases c
  {
    if c > 0 {
      SetPointersIs(ptrs[1..], c - 1);
    }
  }

  /** The position at which a block is added to an inode with that many pointers set and that size: in the
      last pointer block if the size calls for fewer blocks than the pointer blocks can hold, and otherwise
      first in a new one. */
  function AddPosition(pointers: nat, size: nat): nat
  {
    var count := size / 4096 + 1;
    if count < 1024 * pointers then 1024 * (pointers - 1) + count % 1024 else 1024 * pointers
  }

  /** The inode has a data block. */
  predicate HasBlock(blk: seq<Block>, n: nat)
  {
    BlockCount(NodeAt(blk, n)) > 0
  }

  function ExtentOf(blk: seq<Block>, x: Node): Extent
  {
    var c := BlockCount(x);
    Extent(if PtrBlocks(c) <= |x.ptrs| then x.ptrs[..PtrBlocks(c)] else x.ptrs,
           seq(c, k requires 0 <= k < c => DataBlock(blk, x.ptrs, k)))
  }

  function ByteOf(blk: seq<Block>, f: Extent, i: nat): byte
  {
    if i / 4096 < |f.data| then BlockAt(blk, f.data[i / 4096])[i % 4096] else 0
  }

  function FileBytes(blk: seq<Block>, f: Extent, size: nat): (s: seq<byte>)
    ensures |s| == size
  {
    seq(size, i requires 0 <= i < size => ByteOf(blk, f, i))
  }

  function EntryOf(blk: seq<Block>, f: Extent, e: nat): Entry
  {
    if e / 32 < |f.data| then EntryIn(BlockAt(blk, f.data[e / 32]), e % 32) else Entry([], 0)
  }

  function DirEntries(blk: seq<Block>, f: Extent, size: nat): (s: seq<Entry>)
    ensures |s| == size / 128
  {
    seq(size / 128, e requires 0 <= e < size / 128 => EntryOf(blk, f, e))
  }

  function NodeAt(blk: seq<Block>, n: nat): Node
  {
    BlockToNode(BlockAt(blk, n + 2))
  }

  function ObjOf(blk: seq<Block>, x: Node): Obj
  {
    var f := ExtentOf(blk, x);
    Obj(x.parent, if x.state == 1 then File(FileBytes(blk, f, x.size), BlockCount(x) > 0)
                  else Dir(DirEntries(blk, f, x.size)))
  }

  predicate Live(bm: seq<bool>, n: nat)
  {
    n < NODE_TABLE_BLOCKS && n + 2 < |bm| && bm[n + 2]
  }

  function TableOf(v: Vol): Table
  {
    map n: nat | 0 <= n < NODE_TABLE_BLOCKS && Live(v.bm, n) :: ExtentOf(v.blk, NodeAt(v.blk, n))
  }

  function GraphOf(v: Vol): Graph
  {
    map n: nat | 0 <= n < NODE_TABLE_BLOCKS && Live(v.bm, n) :: ObjOf(v.blk, NodeAt(v.blk, n))
  }

  // ---------------------------------------------------------------- the volume invariant

  /** No pointer is set past the ones the size calls for; a directory is a whole number of entries in
      one block, and has a block if and only if it has an entry. */
  ghost predicate NodeOk(x: Node)
  {
    && Fits(x) && 0 in x.name
    && (x.state == 1 || x.state == 2)
    && (forall i | PtrBlocks(BlockCount(x)) <= i < 1000 :: x.ptrs[i] == 0)
    && (x.ptrs[0] == 0 ==> x.size == 0)
    && (x.state == 2 ==> x.size % 128 == 0 && x.size <= 3968 && (x.size == 0 ==> x.ptrs[0] == 0))
  }

  ghost predicate NodesOk(v: Vol)
  {
    forall n: nat | Live(v.bm, n) :: NodeOk(NodeAt(v.blk, n))
  }

  ghost predicate VolOk(v: Vol, own: Owners, lk: set<nat>)
  {
    WfVol(v) && v.bm[0] && v.bm[1] && NodesOk(v) && Sound(v.bm, TableOf(v), own, lk)
  }

  // ---------------------------------------------------------------- an inode held in memory

  /** The pointer array and the pointer blocks lead to exactly the blocks of f. */
  ghost predicate Linked(blk: seq<Block>, ptrs: seq<u32>, f: Extent)
  {
    && |ptrs| == 1000 && Sized(f)
    && (forall i | 0 <= i < |f.ptrs| :: ptrs[i] == f.ptrs[i] != 0)
    && (forall i | |f.ptrs| <= i < 1000 :: ptrs[i] == 0)
    && (forall k | 0 <= k < |f.data| :: DataBlock(blk, ptrs, k) == f.data[k])
  }

  lemma LinkedIsExtent(blk: seq<Block>, x: Node, f: Extent)
    requires Linked(blk, x.ptrs, f) && |f.data| == BlockCount(x)
    ensures ExtentOf(blk, x) == f
  {
    hide DataBlock, BlockCount;
    assert x.ptrs[..|f.ptrs|] == f.ptrs;
  }

  lemma StoredIsLinked(v: Vol, own: Owners, lk: set<nat>, n: nat)
    requires VolOk(v, own, lk) && Live(v.bm, n)
    ensures n in TableOf(v) && TableOf(v)[n] == ExtentOf(v.blk, NodeAt(v.blk, n))
    ensures NodeOk(NodeAt(v.blk, n))
    ensures Linked(v.blk, NodeAt(v.blk, n).ptrs, TableOf(v)[n])
    ensures |TableOf(v)[n].data| == BlockCount(NodeAt(v.blk, n))
  {
    hide VolOk, Live, NodeAt, NodeOk, ExtentOf, TableOf, Linked, BlockCount, Sound;
    StoredLine(v, own, lk, n);
    SizeBound(v.bm, TableOf(v), own, lk, n);
    PtrsSet(v.bm, TableOf(v), own, lk, n);
    ExtentIsLinked(v.blk, NodeAt(v.blk, n));
  }

  lemma StoredLine(v: Vol, own: Owners, lk: set<nat>, n: nat)
    requires VolOk(v, own, lk) && Live(v.bm, n)
    ensures n in TableOf(v) && TableOf(v)[n] == ExtentOf(v.blk, NodeAt(v.blk, n))
    ensures NodeOk(NodeAt(v.blk, n)) && Sound(v.bm, TableOf(v), own, lk)
  {
    hide Sound, ExtentOf, NodeAt, NodeOk;
  }

  lemma PtrsSet(bm: seq<bool>, t: Table, own: Owners, lk: set<nat>, n: nat)
    requires Sound(bm, t, own, lk) && n in t
    ensures Sized(t[n]) && forall i | 0 <= i < |t[n].ptrs| :: t[n].ptrs[i] != 0
  {
    forall i | 0 <= i < |t[n].ptrs|
      ensures t[n].ptrs[i] != 0
    {
      Roles(bm, t, own, lk, n, i);
    }
  }

  /** An inode whose called-for pointers are all set, and no others, is linked to its extent. */
  lemma ExtentIsLinked(blk: seq<Block>, x: Node)
    requires NodeOk(x) && var f := ExtentOf(blk, x); Sized(f) && forall i | 0 <= i < |f.ptrs| :: f.ptrs[i] != 0
    ensures Linked(blk, x.ptrs, ExtentOf(blk, x)) && |ExtentOf(blk, x).data| == BlockCount(x)
  {
    hide DataBlock;
  }

  lemma DistinctPtrs(bm: seq<bool>, t: Table, own: Owners, lk: set<nat>, n: nat)
    requires Sound(bm, t, own, lk) && n in t
    ensures forall i, j | 0 <= i < j < |t[n].ptrs| :: t[n].ptrs[i] != t[n].ptrs[j]
    ensures forall i, k | 0 <= i < |t[n].ptrs| && 0 <= k < |t[n].data| :: t[n].ptrs[i] != t[n].data[k]
    ensures forall j, k | 0 <= j < k < |t[n].data| :: t[n].data[j] != t[n].data[k]
  {
    OwnBlocks(bm, t, own, lk, n);
    hide Sound;
    forall i, j | 0 <= i < j < |t[n].ptrs|
      ensures t[n].ptrs[i] != t[n].ptrs[j]
    {
      assert Holds(own, t[n].ptrs[i], PtrRole(n, i)) && Holds(own, t[n].ptrs[j], PtrRole(n, j));
    }
    forall i, k | 0 <= i < |t[n].ptrs| && 0 <= k < |t[n].data|
      ensures t[n].ptrs[i] != t[n].data[k]
    {
      assert Holds(own, t[n].ptrs[i], PtrRole(n, i)) && Holds(own, t[n].data[k], DataRole(n, k));
    }
    forall j, k | 0 <= j < k < |t[n].data|
      ensures t[n].data[j] != t[n].data[k]
    {
      assert Holds(own, t[n].data[j], DataRole(n, j)) && Holds(own, t[n].data[k], DataRole(n, k));
    }
  }

  /** Blocks that are not its pointer blocks may change without changing what an extent is linked to. */
  lemma LinkedFrame(blk: seq<Block>, blk': seq<Block>, ptrs: seq<u32>, f: Extent)
    requires Linked(blk, ptrs, f)
    requires forall i | 0 <= i < |f.ptrs| :: BlockAt(blk', f.ptrs[i]) == BlockAt(blk, f.ptrs[i])
    ensures Linked(blk', ptrs, f)
  {
    hide BlockAt, Slot;
    forall k | 0 <= k < |f.data|
      ensures DataBlock(blk', ptrs, k) == f.data[k]
    {
      assert ptrs[k / 1024] == f.ptrs[k / 1024];
    }
  }

  /** Storing a slot of the last pointer block appends a data block. */
  lemma LinkSlot(blk: seq<Block>, ptrs: seq<u32>, f: Extent, k: nat, b: u32)
    requires Linked(blk, ptrs, f) && k / 1024 < |f.ptrs| && f.ptrs[k / 1024] < |blk|
    requires forall i, j | 0 <= i < j < |f.ptrs| :: f.ptrs[i] != f.ptrs[j]
    requires k == |f.data| || k == |f.data| - 1
    ensures var p := f.ptrs[k / 1024];
            Linked(blk[p := PutSlot(blk[p], k % 1024, b)], ptrs, f.(data := f.data[..k] + [b]))
  {
    var p := f.ptrs[k / 1024];
    var blk', g := blk[p := PutSlot(blk[p], k % 1024, b)], f.(data := f.data[..k] + [b]);
    assert PtrBlocks(k + 1) == |f.ptrs|;
    forall j | 0 <= j < k + 1
      ensures DataBlock(blk', ptrs, j) == g.data[j]
    {
      SlotWrite(blk, ptrs, f.ptrs, k, j, b);
    }
  }

  lemma SlotWrite(blk: seq<Block>, ptrs: seq<u32>, ps: seq<nat>, k: nat, j: nat, b: u32)
    requires k / 1024 < |ps| <= |ptrs| && j / 1024 < |ps| && ps[k / 1024] < |blk|
    requires forall i | 0 <= i < |ps| :: ptrs[i] == ps[i]
    requires forall i, j | 0 <= i < j < |ps| :: ps[i] != ps[j]
    ensures var p := ps[k / 1024];
            DataBlock(blk[p := PutSlot(blk[p], k % 1024, b)], ptrs, j) == if j == k then b else DataBlock(blk, ptrs, j)
  {
    var p := ps[k / 1024];
    hide Slot, PutSlot;
    if j / 1024 == k / 1024 {
      SlotOfPut(blk[p], k % 1024, b, j % 1024);
      assert j == 1024 * (j / 1024) + j % 1024 && k == 1024 * (k / 1024) + k % 1024;
    }
  }

  /** A new pointer block with its first slot stored appends a pointer block and a data block. */
  lemma LinkBoth(blk: seq<Block>, ptrs: seq<u32>, f: Extent, p: u32, b: u32)
    requires Linked(blk, ptrs, f) && |f.data| == 1024 * |f.ptrs| && |f.ptrs| < 1000
    requires 0 < p < |blk| && p !in f.ptrs
    ensures Linked(blk[p := PutSlot(blk[p], 0, b)], ptrs[|f.ptrs| := p], Extent(f.ptrs + [p], f.data + [b]))
  {
    var k := |f.data|;
    var blk', ptrs', g := blk[p := PutSlot(blk[p], 0, b)], ptrs[|f.ptrs| := p], Extent(f.ptrs + [p], f.data + [b]);
    hide Slot, PutSlot;
    forall j | 0 <= j < k + 1
      ensures DataBlock(blk', ptrs', j) == g.data[j]
    {
      if j == k {
        SlotOfPut(blk[p], 0, b, 0);
      } else {
        assert j / 1024 < |f.ptrs| && f.ptrs[j / 1024] in f.ptrs;
        assert DataBlock(blk, ptrs, j) == f.data[j];
      }
    }
  }

  /** The pointer array after the last data block is dropped. */
  function ShorterPtrs(ptrs: seq<u32>, nb: nat): seq<u32>
    requires nb > 0 && (nb - 1) / 1024 < |ptrs|
  {
    if (nb - 1) % 1024 == 0 then ptrs[(nb - 1) / 1024 := 0] else ptrs
  }

  lemma LinkShorter(blk: seq<Block>, ptrs: seq<u32>, f: Extent)
    requires Linked(blk, ptrs, f) && |f.data| > 0
    ensures (|f.data| - 1) / 1024 < |ptrs|
    ensures Linked(blk, ShorterPtrs(ptrs, |f.data|), Shorter(f))
  {
    var k := |f.data| - 1;
    var g, ptrs' := Shorter(f), ShorterPtrs(ptrs, |f.data|);
    hide Slot;
    forall j | 0 <= j < k
      ensures DataBlock(blk, ptrs', j) == g.data[j]
    {
      assert DataBlock(blk, ptrs, j) == f.data[j];
      if k % 1024 == 0 {
        assert j / 1024 < k / 1024;
      }
    }
  }

  // ---------------------------------------------------------------- bytes and entries depend on their blocks

  ghost predicate DataSame(blk: seq<Block>, blk': seq<Block>, f: Extent)
  {
    forall k | 0 <= k < |f.data| :: BlockAt(blk', f.data[k]) == BlockAt(blk, f.data[k])
  }

  ghost predicate PtrsSame(blk: seq<Block>, blk': seq<Block>, f: Extent)
  {
    forall k | 0 <= k < |f.ptrs| :: BlockAt(blk', f.ptrs[k]) == BlockAt(blk, f.ptrs[k])
  }

  lemma SameBytes(blk: seq<Block>, blk': seq<Block>, f: Extent, size: nat)
    requires DataSame(blk, blk', f)
    ensures FileBytes(blk', f, size) == FileBytes(blk, f, size)
    ensures DirEntries(blk', f, size) == DirEntries(blk, f, size)
  {
    hide BlockAt, EntryIn;
    assert forall i | 0 <= i < size :: ByteOf(blk', f, i) == ByteOf(blk, f, i);
    assert forall e | 0 <= e < size / 128 :: EntryOf(blk', f, e) == EntryOf(blk, f, e);
  }

  /** Only the blocks an extent needs for its size count. */
  lemma PrefixBytes(blk: seq<Block>, f: Extent, g: Extent, size: nat)
    requires |g.data| <= |f.data| && f.data[..|g.data|] == g.data && size <= 4096 * |g.data|
    ensures FileBytes(blk, f, size) == FileBytes(blk, g, size)
    ensures DirEntries(blk, f, size) == DirEntries(blk, g, size)
  {
    hide BlockAt, EntryIn;
    forall k | 0 <= k < |g.data|
      ensures f.data[k] == g.data[k]
    {
      assert f.data[..|g.data|][k] == g.data[k];
    }
    forall i | 0 <= i < size
      ensures ByteOf(blk, f, i) == ByteOf(blk, g, i)
    {
      assert i / 4096 < |g.data|;
    }
    forall e | 0 <= e < size / 128
      ensures EntryOf(blk, f, e) == EntryOf(blk, g, e)
    {
      assert e / 32 < |g.data|;
    }
  }
}
