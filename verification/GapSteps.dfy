/** One iteration of sac_write's first loop on the disk, and the step of the loop's arithmetic that it is. */
module GapSteps {
  import opened Bytes
  import opened Layout
  import opened Volume
  import opened Inodes
  import opened NodeOps
  import opened Contents
  import opened GapFilling

  /** The positions the arithmetic counts are those at which the inode has a block, through the pointers it
      counts; each block is in use and at one position only. */
  ghost predicate GapAt(g: Gap, v: Vol, ptrs: seq<u32>, at: map<nat, nat>)
  {
    && |v.bm| == TOTAL_BLOCKS && g.pointers == SetPointers(ptrs) && at.Keys == g.slots
    && (forall k | k in at :: PlacedAt(v, ptrs, g.pointers, k, at[k]))
    && (forall j, k | j in at && k in at && j != k :: at[j] != at[k])
  }

  ghost predicate PlacedAt(v: Vol, ptrs: seq<u32>, pointers: nat, k: nat, b: nat)
    requires |v.bm| == TOTAL_BLOCKS
  {
    k < 1024 * pointers && DataBlock(v.blk, ptrs, k) == b && InRegion(b) && v.bm[b]
  }

  /** The positions of an extent. */
  ghost function AtOf(f: Extent): (at: map<nat, nat>)
    ensures at.Keys == Range(0, |f.data|)
  {
    map k | k in Range(0, |f.data|) :: f.data[k]
  }

  /** Exactly the given bytes of an extent's blocks have become zero. */
  ghost predicate ZerosAt(blk: seq<Block>, blk': seq<Block>, f: Extent, zeroed: set<nat>)
  {
    forall i: nat | i / 4096 < |f.data| :: ByteOf(blk', f, i) == if i in zeroed then 0 else ByteOf(blk, f, i)
  }

  /** Under the pointers set before, the slots of the positions without a block are as they were. */
  ghost predicate OtherSlots(blk: seq<Block>, ptrs: seq<u32>, blk': seq<Block>, ptrs': seq<u32>, at: map<nat, nat>)
  {
    forall k: nat | k < 1024 * SetPointers(ptrs) && k !in at :: DataBlock(blk', ptrs', k) == DataBlock(blk, ptrs, k)
  }

  /** What an iteration makes of an inode that has exactly the blocks its size calls for. */
  ghost predicate GapStepped(v: Vol, ptrs: seq<u32>, f: Extent, size: nat, rest: nat, v': Vol, ptrs': seq<u32>,
                             at: map<nat, nat>)
    requires size < rest
  {
    var r := FillStep(GapOf(f, size, rest, {}));
    && GapAt(r, v', ptrs', at) && AtOf(f).Keys <= at.Keys && (forall k | k in AtOf(f) :: at[k] == AtOf(f)[k])
    && ZerosAt(v.blk, v'.blk, f, r.zeroed)
    && OtherSlots(v.blk, ptrs, v'.blk, ptrs', at)
  }

  /** An inode that is linked to its blocks has them at the positions of its extent. */
  lemma LinkedAt(v: Vol, t: Table, own: Owners, lk: set<nat>, n: nat, ptrs: seq<u32>)
    requires Sound(v.bm, t, own, lk) && n in t && Linked(v.blk, ptrs, t[n])
    ensures |v.bm| == TOTAL_BLOCKS && SetPointers(ptrs) == |t[n].ptrs|
    ensures forall k | k in AtOf(t[n]) :: PlacedAt(v, ptrs, |t[n].ptrs|, k, AtOf(t[n])[k])
    ensures forall j, k | j in AtOf(t[n]) && k in AtOf(t[n]) && j != k :: AtOf(t[n])[j] != AtOf(t[n])[k]
  {
    var f := t[n];
    SetPointersIs(ptrs, |f.ptrs|);
    DistinctPtrs(v.bm, t, own, lk, n);
    forall k | k in AtOf(f)
      ensures PlacedAt(v, ptrs, |f.ptrs|, k, AtOf(f)[k])
    {
      assert Within(0, |f.data|, k);
      Roles(v.bm, t, own, lk, n, |f.ptrs| + k);
    }
    hide Sound, Linked;
    forall j, k | j in AtOf(f) && k in AtOf(f) && j != k
      ensures AtOf(f)[j] != AtOf(f)[k]
    {
      assert Within(0, |f.data|, j) && Within(0, |f.data|, k);
      assert AtOf(f)[j] == f.data[j] && AtOf(f)[k] == f.data[k];
      if j < k {
        assert f.data[j] != f.data[k];
      } else {
        assert f.data[k] != f.data[j];
      }
    }
  }

  /** No block is added. */
  lemma StepEnded(v: Vol, ptrs: seq<u32>, t: Table, own: Owners, lk: set<nat>, n: nat, size: nat, rest: nat, v1: Vol)
    requires Sound(v1.bm, t, own, lk) && n in t && Linked(v1.blk, ptrs, t[n]) && |t[n].data| == size / 4096 + 1
    requires size < rest && !Adds(size, rest) && PtrsSame(v.blk, v1.blk, t[n])
    requires ZerosAt(v.blk, v1.blk, t[n], Zeroed(size, rest))
    ensures GapStepped(v, ptrs, t[n], size, rest, v1, ptrs, AtOf(t[n]))
  {
    hide Sound, PlacedAt, AtOf, ZerosAt, Range;
    LinkedAt(v1, t, own, lk, n, ptrs);
    StepIs(t[n], size, rest);
    SameSlots(v.blk, v1.blk, ptrs, t[n]);
  }

  /** An iteration that fills its block, its pointer block not being full, has left the position that comes next
      without a block and given one to the position after it. */
  lemma SkippedOnDisk(v: Vol, ptrs: seq<u32>, f: Extent, size: nat, rest: nat, v': Vol, ptrs': seq<u32>,
                      at: map<nat, nat>)
    requires Sized(f) && |f.data| == size / 4096 + 1 && size < rest && Adds(size, rest) && size / 4096 % 1024 != 1023
    requires GapStepped(v, ptrs, f, size, rest, v', ptrs', at)
    ensures var r := FillStep(GapOf(f, size, rest, {}));
            r.size / 4096 !in at && r.size / 4096 + 1 in at && Skips(FillLoop(r), r.size / 4096)
  {
    hide *;
    var g := GapOf(f, size, rest, {});
    StepReady(f, size, rest);
    FullStepSkips(g);
    SkipStays(FillStep(g), size / 4096 + 1);
    SkipsHas(FillStep(g), size / 4096 + 1);
    SteppedKeys(v, ptrs, f, size, rest, v', ptrs', at);
  }

  lemma StepReady(f: Extent, size: nat, rest: nat)
    requires Sized(f) && |f.data| == size / 4096 + 1 && size < rest && Adds(size, rest)
    ensures var g := GapOf(f, size, rest, {});
            && g.size == size && g.rest == rest && g.rest > 4096 - size % 4096 && rest >= 4096
            && g.slots == Positions(size) && g.pointers == size / 4096 / 1024 + 1
            && FillStep(g).size == 4096 * (size / 4096 + 1)
  {
    hide AddPosition, Range;
  }

  lemma SteppedKeys(v: Vol, ptrs: seq<u32>, f: Extent, size: nat, rest: nat, v': Vol, ptrs': seq<u32>,
                    at: map<nat, nat>)
    requires size < rest && GapStepped(v, ptrs, f, size, rest, v', ptrs', at)
    ensures at.Keys == FillStep(GapOf(f, size, rest, {})).slots
  {
    hide OtherSlots, ZerosAt, PlacedAt, SetPointers, FillStep, AtOf;
  }

  lemma SkipsHas(g: Gap, k: nat)
    requires Skips(g, k)
    ensures k !in g.slots && k + 1 in g.slots
  {
  }

  /** Whether an iteration adds a block, and which bytes it makes zero. */
  predicate Adds(size: nat, rest: nat)
    requires size < rest
  {
    var nulls := Min(rest, 4096) - size % 4096;
    size % 4096 + nulls == 4096 && rest - nulls > 0
  }

  function Zeroed(size: nat, rest: nat): set<nat>
    requires size < rest
  {
    var at := size % 4096;
    var from := 4096 * (size / 4096 % 1024) + at;
    Range(from, from + Min(rest, 4096) - at)
  }

  /** The step in these terms. */
  lemma StepIs(f: Extent, size: nat, rest: nat)
    requires size < rest && |f.data| == size / 4096 + 1
    ensures var r, nulls := FillStep(GapOf(f, size, rest, {})), Min(rest, 4096) - size % 4096;
            && r.size == size + nulls && r.rest == rest - nulls && r.zeroed == Zeroed(size, rest)
            && var k := AddPosition(|f.ptrs|, size + nulls);
               && r.slots == (if Adds(size, rest) then Range(0, |f.data|) + {k} else Range(0, |f.data|))
               && r.pointers == if Adds(size, rest) && k / 1024 == |f.ptrs| then |f.ptrs| + 1 else |f.ptrs|
  {
    hide AddPosition, Range;
    assert forall s: set<nat> :: {} + s == s;
  }

  lemma SameSlots(blk: seq<Block>, blk': seq<Block>, ptrs: seq<u32>, f: Extent)
    requires PtrsSame(blk, blk', f) && |f.ptrs| <= |ptrs| && forall i | 0 <= i < |f.ptrs| :: ptrs[i] == f.ptrs[i]
    ensures forall k: nat | k < 1024 * |f.ptrs| :: DataBlock(blk', ptrs, k) == DataBlock(blk, ptrs, k)
  {
    hide BlockAt, Slot;
    forall k: nat | k < 1024 * |f.ptrs|
      ensures DataBlock(blk', ptrs, k) == DataBlock(blk, ptrs, k)
    {
      assert BlockAt(blk', f.ptrs[k / 1024]) == BlockAt(blk, f.ptrs[k / 1024]);
    }
  }

  /** Where the added block goes: past the blocks there are, in the last pointer block or in a new one. */
  lemma PositionAdded(f: Extent, size: nat)
    requires Sized(f) && |f.data| > 0 && size == 4096 * |f.data|
    ensures var k := AddPosition(|f.ptrs|, size);
            |f.data| <= k && k / 1024 <= |f.ptrs| && (k / 1024 == |f.ptrs| || k / 1024 == |f.ptrs| - 1)
  {
  }

  /** A block is added. */
  lemma StepAdded(v: Vol, ptrs: seq<u32>, t: Table, own: Owners, lk: set<nat>, n: nat, size: nat, rest: nat, v1: Vol,
                  v2: Vol, ptrs2: seq<u32>, p: nat, b: nat)
    requires Sound(v1.bm, t, own, lk) && n in t && Linked(v1.blk, ptrs, t[n]) && |t[n].data| == size / 4096 + 1
    requires size < rest && Adds(size, rest) && PtrsSame(v.blk, v1.blk, t[n])
    requires ZerosAt(v.blk, v1.blk, t[n], Zeroed(size, rest))
    requires |v1.blk| == TOTAL_BLOCKS && |t[n].ptrs| < 1000
    requires var k := AddPosition(|t[n].ptrs|, 4096 * |t[n].data|);
             BlockStored(v1, ptrs, v2, ptrs2, k / 1024, k % 1024, p, b)
    ensures var k := AddPosition(|t[n].ptrs|, 4096 * |t[n].data|);
            GapStepped(v, ptrs, t[n], size, rest, v2, ptrs2, AtOf(t[n])[k := b])
  {
    hide Sound, Linked, PlacedAt, AtOf, ZerosAt, Range, BlockStored, AddPosition, DataBlock, SetPointers, DataSame,
      PtrsSame, Zeroed, InRegion, FillStep;
    var f := t[n];
    var k := AddPosition(|f.ptrs|, 4096 * |f.data|);
    LinkedAt(v1, t, own, lk, n, ptrs);
    LinkedShape(v1.blk, ptrs, f);
    PositionAdded(f, 4096 * |f.data|);
    StepIs(f, size, rest);
    assert size + (4096 - size % 4096) == 4096 * |f.data|;
    SameSlots(v.blk, v1.blk, ptrs, f);
    StoredBits(v1, ptrs, v2, ptrs2, k / 1024, k % 1024, p, b);
    BlocksApart(v1, ptrs, t, own, lk, n, v2, ptrs2, k, p, b);
    SlotsStored(v1, ptrs, f, v2, ptrs2, k, p, b);
    PlacedStays(v1, ptrs, f, v2, ptrs2, k, b);
    ZerosTrans(v.blk, v1.blk, v2.blk, f, Zeroed(size, rest));
    FreshPlace(v1, ptrs, f, b);
    NewPlaced(v2, ptrs2, if k / 1024 == |f.ptrs| then |f.ptrs| + 1 else |f.ptrs|, k, b);
    var g := FillStep(GapOf(f, size, rest, {}));
    assert GapAt(g, v2, ptrs2, AtOf(f)[k := b]) by {
      OneMoreAt(g, v2, ptrs2, AtOf(f), k, b);
    }
    NotInRange(|f.data|, k);
  }

  lemma NotInRange(hi: nat, k: nat)
    requires hi <= k
    ensures k !in Range(0, hi)
  {
  }

  lemma OneMoreAt(g: Gap, v: Vol, ptrs: seq<u32>, at: map<nat, nat>, k: nat, b: nat)
    requires |v.bm| == TOTAL_BLOCKS && g.pointers == SetPointers(ptrs) && g.slots == at.Keys + {k}
    requires (forall j | j in at :: PlacedAt(v, ptrs, g.pointers, j, at[j])) && PlacedAt(v, ptrs, g.pointers, k, b)
    requires (forall i, j | i in at && j in at && i != j :: at[i] != at[j]) && b !in at.Values
    ensures GapAt(g, v, ptrs, at[k := b])
  {
    hide PlacedAt, SetPointers;
    var at' := at[k := b];
    assert at'.Keys == at.Keys + {k};
    forall i, j | i in at' && j in at' && i != j
      ensures at'[i] != at'[j]
    {
      assert i in at && i != k ==> at'[i] == at[i] && at[i] in at.Values;
      assert j in at && j != k ==> at'[j] == at[j] && at[j] in at.Values;
    }
  }

  lemma StoredBits(v: Vol, ptrs: seq<u32>, v': Vol, ptrs': seq<u32>, i: nat, j: nat, p: nat, b: nat)
    requires BlockStored(v, ptrs, v', ptrs', i, j, p, b)
    ensures |v.bm| == |v'.bm| == TOTAL_BLOCKS && InRegion(b) && !v.bm[b] && v'.bm[b]
    ensures forall x: nat | x < TOTAL_BLOCKS && v.bm[x] :: v'.bm[x]
  {
    hide PutSlot;
  }

  lemma NewPlaced(v: Vol, ptrs: seq<u32>, pointers: nat, k: nat, b: nat)
    requires |v.bm| == TOTAL_BLOCKS && InRegion(b) && v.bm[b] && DataBlock(v.blk, ptrs, k) == b && k / 1024 < pointers
    ensures PlacedAt(v, ptrs, pointers, k, b)
  {
  }

  /** What is stored lies outside the blocks there are, but for the slot. */
  lemma BlocksApart(v: Vol, ptrs: seq<u32>, t: Table, own: Owners, lk: set<nat>, n: nat, v': Vol, ptrs': seq<u32>,
                    k: nat, p: nat, b: nat)
    requires Sound(v.bm, t, own, lk) && n in t && Linked(v.blk, ptrs, t[n]) && SetPointers(ptrs) == |t[n].ptrs|
    requires BlockStored(v, ptrs, v', ptrs', k / 1024, k % 1024, p, b) && k / 1024 <= |t[n].ptrs| < 1000
    ensures DataSame(v.blk, v'.blk, t[n])
    ensures forall i | 0 <= i < |t[n].ptrs| && i != k / 1024 :: ptrs[i] != p
    ensures forall i | |t[n].ptrs| <= i < 1000 :: ptrs[i] == 0
  {
    var f := t[n];
    DistinctPtrs(v.bm, t, own, lk, n);
    if k / 1024 == |f.ptrs| {
      FreshIsNew(v.bm, t, own, lk, n, p);
    }
    hide Sound, PutSlot;
    forall j | 0 <= j < |f.data|
      ensures BlockAt(v'.blk, f.data[j]) == BlockAt(v.blk, f.data[j])
    {
      assert f.data[j] != p;
    }
  }

  /** Every slot but the one stored reads as before. */
  lemma SlotsStored(v: Vol, ptrs: seq<u32>, f: Extent, v': Vol, ptrs': seq<u32>, k: nat, p: nat, b: nat)
    requires |ptrs| == 1000 && SetPointers(ptrs) == |f.ptrs| < 1000 && k / 1024 <= |f.ptrs|
    requires BlockStored(v, ptrs, v', ptrs', k / 1024, k % 1024, p, b)
    requires forall i | 0 <= i < |f.ptrs| && i != k / 1024 :: ptrs[i] != p
    requires forall i | 0 <= i < |f.ptrs| :: ptrs[i] != 0
    requires forall i | |f.ptrs| <= i < 1000 :: ptrs[i] == 0
    ensures SetPointers(ptrs') == if k / 1024 == |f.ptrs| then |f.ptrs| + 1 else |f.ptrs|
    ensures forall j: nat | j < 1024 * |f.ptrs| && j != k :: DataBlock(v'.blk, ptrs', j) == DataBlock(v.blk, ptrs, j)
    ensures DataBlock(v'.blk, ptrs', k) == b
  {
    hide Slot, PutSlot;
    var i := k / 1024;
    SetPointersIs(ptrs', if i == |f.ptrs| then |f.ptrs| + 1 else |f.ptrs|);
    SlotOfPut(v.blk[p], k % 1024, b, k % 1024);
    forall j: nat | j < 1024 * |f.ptrs| && j != k
      ensures DataBlock(v'.blk, ptrs', j) == DataBlock(v.blk, ptrs, j)
    {
      if j / 1024 == i {
        SlotOfPut(v.blk[p], k % 1024, b, j % 1024);
        assert j == 1024 * i + j % 1024 && k == 1024 * i + k % 1024;
      }
    }
  }

  /** The blocks there are keep their positions, and the new one has its own. */
  lemma PlacedStays(v: Vol, ptrs: seq<u32>, f: Extent, v': Vol, ptrs': seq<u32>, k: nat, b: nat)
    requires |v.bm| == |v'.bm| == TOTAL_BLOCKS && (forall x: nat | x < TOTAL_BLOCKS && v.bm[x] :: v'.bm[x])
    requires forall j | j in AtOf(f) :: PlacedAt(v, ptrs, |f.ptrs|, j, AtOf(f)[j])
    requires forall j: nat | j < 1024 * |f.ptrs| && j != k :: DataBlock(v'.blk, ptrs', j) == DataBlock(v.blk, ptrs, j)
    requires |f.data| <= k
    ensures forall j, c: nat | j in AtOf(f) && c >= |f.ptrs| :: PlacedAt(v', ptrs', c, j, AtOf(f)[j])
  {
    forall j, c: nat | j in AtOf(f) && c >= |f.ptrs|
      ensures PlacedAt(v', ptrs', c, j, AtOf(f)[j])
    {
      assert PlacedAt(v, ptrs, |f.ptrs|, j, AtOf(f)[j]);
      assert Within(0, |f.data|, j);
    }
  }

  lemma FreshPlace(v: Vol, ptrs: seq<u32>, f: Extent, b: nat)
    requires |v.bm| == TOTAL_BLOCKS && InRegion(b) && !v.bm[b]
    requires forall j | j in AtOf(f) :: PlacedAt(v, ptrs, |f.ptrs|, j, AtOf(f)[j])
    ensures b !in AtOf(f).Values
  {
  }

  lemma LinkedShape(blk: seq<Block>, ptrs: seq<u32>, f: Extent)
    requires Linked(blk, ptrs, f)
    ensures Sized(f) && |ptrs| == 1000 && forall i | 0 <= i < |f.ptrs| :: ptrs[i] == f.ptrs[i] != 0
  {
  }

  lemma ZerosTrans(blk: seq<Block>, blk1: seq<Block>, blk2: seq<Block>, f: Extent, zeroed: set<nat>)
    requires ZerosAt(blk, blk1, f, zeroed) && DataSame(blk1, blk2, f)
    ensures ZerosAt(blk, blk2, f, zeroed)
  {
    hide BlockAt;
    forall i: nat | i / 4096 < |f.data|
      ensures ByteOf(blk2, f, i) == ByteOf(blk1, f, i)
    {
      assert BlockAt(blk2, f.data[i / 4096]) == BlockAt(blk1, f.data[i / 4096]);
    }
  }
}
