/** Growing and shrinking one inode's extent: what linking a reserved block, or unlinking the last one,
    does to the blocks, the owners and the other inodes. */
module Growth {
  import opened Bytes
  import opened Layout
  import opened Volume
  import opened Inodes
  import opened Commits

  /** Everything a change to inode n's blocks must keep: the other inodes' blocks and owners, and the
      bytes of n's own data blocks. */
  ghost predicate Local(own: Owners, own': Owners, blk: seq<Block>, blk': seq<Block>, f: Extent, n: nat)
  {
    SameOwners(own, own', n) && Untouched(own, blk, blk', n) && DataSame(blk, blk', f)
  }

  /** The slot for data block k is in a pointer block of n, and storing it is local to n. */
  lemma SlotIsLocal(bm: seq<bool>, blk: seq<Block>, t: Table, own: Owners, lk: set<nat>, n: nat, k: nat, x: Block)
    requires Sound(bm, t, own, lk) && n in t && |blk| == TOTAL_BLOCKS && k / 1024 < |t[n].ptrs|
    ensures var p := t[n].ptrs[k / 1024];
            && InRegion(p)
            && Untouched(own, blk, blk[p := x], n) && DataSame(blk, blk[p := x], t[n])
  {
    var f := t[n];
    var p := f.ptrs[k / 1024];
    Roles(bm, t, own, lk, n, k / 1024);
    DistinctPtrs(bm, t, own, lk, n);
    hide Sound;
    forall j | 0 <= j < |f.data|
      ensures f.data[j] != p
    {
    }
  }

  lemma GrowSlot(bm: seq<bool>, blk: seq<Block>, t: Table, own: Owners, lk: set<nat>, n: nat, ptrs: seq<u32>, b: u32)
    requires Sound(bm, t, own, lk) && n in t && |blk| == TOTAL_BLOCKS && Linked(blk, ptrs, t[n])
    requires b in lk && |t[n].data| % 1024 != 0
    ensures |t[n].data| / 1024 < |t[n].ptrs| && InRegion(t[n].ptrs[|t[n].data| / 1024])
    ensures var k := |t[n].data|;
            var p, f', own' := t[n].ptrs[k / 1024], t[n].(data := t[n].data + [b]), own[b := DataRole(n, k)];
            var blk' := blk[p := PutSlot(blk[p], k % 1024, b)];
            && Sound(bm, t[n := f'], own', lk - {b})
            && Linked(blk', ptrs, f')
            && Local(own, own', blk, blk', t[n], n)
  {
    var f, k := t[n], |t[n].data|;
    assert k / 1024 < |f.ptrs|;
    var p := f.ptrs[k / 1024];
    SlotIsLocal(bm, blk, t, own, lk, n, k, PutSlot(blk[p], k % 1024, b));
    DistinctPtrs(bm, t, own, lk, n);
    LinkSlot(blk, ptrs, f, k, b);
    assert f.data[..k] == f.data;
    AppendSound(bm, t, own, lk, n, b);
    LeakedIsFree(bm, t, own, lk, b);
    hide Sound, Linked, PutSlot, Untouched, DataSame;
  }

  lemma LeakedIsFree(bm: seq<bool>, t: Table, own: Owners, lk: set<nat>, b: nat)
    requires Sound(bm, t, own, lk) && b in lk
    ensures b !in own && InRegion(b)
    ensures forall n | n in t :: b !in t[n].ptrs && b !in t[n].data
  {
    assert b in own ==> OwnerMet(t, own, lk, b);
    forall n | n in t
      ensures b !in t[n].ptrs && b !in t[n].data
    {
      assert ExtentHeld(t[n], n, own);
      assert forall k | 0 <= k < |t[n].ptrs| :: Holds(own, t[n].ptrs[k], PtrRole(n, k));
    }
  }

  lemma GrowBoth(bm: seq<bool>, blk: seq<Block>, t: Table, own: Owners, lk: set<nat>, n: nat, ptrs: seq<u32>, p: u32,
                 b: u32)
    requires Sound(bm, t, own, lk) && n in t && |blk| == TOTAL_BLOCKS && Linked(blk, ptrs, t[n])
    requires b in lk && p in lk && p != b && |t[n].data| % 1024 == 0
    ensures |t[n].data| == 1024 * |t[n].ptrs| && |t[n].ptrs| < 1000 && InRegion(p)
    ensures var k := |t[n].data|;
            var f' := Extent(t[n].ptrs + [p], t[n].data + [b]);
            var own' := own[p := PtrRole(n, |t[n].ptrs|)][b := DataRole(n, k)];
            var blk' := blk[p := PutSlot(blk[p], 0, b)];
            && Sound(bm, t[n := f'], own', lk - {p} - {b})
            && Linked(blk', ptrs[|t[n].ptrs| := p], f')
            && Local(own, own', blk, blk', t[n], n)
  {
    hide Sound, Linked, PutSlot, Untouched;
    var f, k := t[n], |t[n].data|;
    SizeBound(bm, t, own, lk, n);
    OwnBlocks(bm, t, own, lk, n);
    LeakedIsFree(bm, t, own, lk, p);
    LeakedIsFree(bm, t, own, lk, b);
    LinkBoth(blk, ptrs, f, p, b);
    AppendBothSound(bm, t, own, lk, n, p, b);
    FreshPointer(own, blk, n, p, PutSlot(blk[p], 0, b));
    assert DataSame(blk, blk[p := PutSlot(blk[p], 0, b)], f) by {
      assert forall j | 0 <= j < |f.data| :: f.data[j] != p;
    }
  }

  /** Changing a block that no inode owns is local to any inode. */
  lemma FreshPointer(own: Owners, blk: seq<Block>, n: nat, p: nat, x: Block)
    requires |blk| == TOTAL_BLOCKS && InRegion(p) && p !in own
    ensures Untouched(own, blk, blk[p := x], n)
  {
  }

  lemma GrowReplace(bm: seq<bool>, blk: seq<Block>, t: Table, own: Owners, lk: set<nat>, n: nat, ptrs: seq<u32>, b: u32)
    requires Sound(bm, t, own, lk) && n in t && |blk| == TOTAL_BLOCKS && Linked(blk, ptrs, t[n])
    requires b in lk && |t[n].data| > 0
    ensures (|t[n].data| - 1) / 1024 < |t[n].ptrs| && InRegion(t[n].ptrs[(|t[n].data| - 1) / 1024])
    ensures var k := |t[n].data| - 1;
            var p, was := t[n].ptrs[k / 1024], t[n].data[k];
            var f', own' := t[n].(data := t[n].data[..k] + [b]), (own - {was})[b := DataRole(n, k)];
            var blk' := blk[p := PutSlot(blk[p], k % 1024, b)];
            && Sound(bm, t[n := f'], own', lk - {b} + {was})
            && Linked(blk', ptrs, f')
            && Local(own, own', blk, blk', t[n], n)
  {
    var k := |t[n].data| - 1;
    ReplaceLinks(bm, blk, t, own, lk, n, ptrs, b);
    ReplaceOwners(bm, t, own, lk, n, b);
    hide Sound, Linked, PutSlot, Untouched, DataSame, SameOwners;
    assert t[n].data[k := b] == t[n].data[..k] + [b];
  }

  lemma ReplaceOwners(bm: seq<bool>, t: Table, own: Owners, lk: set<nat>, n: nat, b: nat)
    requires Sound(bm, t, own, lk) && n in t && b in lk && |t[n].data| > 0
    ensures var k := |t[n].data| - 1;
            var was := t[n].data[k];
            var own' := (own - {was})[b := DataRole(n, k)];
            && Sound(bm, t[n := t[n].(data := t[n].data[k := b])], own', lk - {b} + {was})
            && SameOwners(own, own', n)
  {
    hide Sound;
    ReplaceSound(bm, t, own, lk, n, b);
    LeakedIsFree(bm, t, own, lk, b);
    Roles(bm, t, own, lk, n, |t[n].ptrs| + |t[n].data| - 1);
  }

  lemma ReplaceLinks(bm: seq<bool>, blk: seq<Block>, t: Table, own: Owners, lk: set<nat>, n: nat, ptrs: seq<u32>,
                     b: u32)
    requires Sound(bm, t, own, lk) && n in t && |blk| == TOTAL_BLOCKS && Linked(blk, ptrs, t[n]) && |t[n].data| > 0
    ensures (|t[n].data| - 1) / 1024 < |t[n].ptrs| && InRegion(t[n].ptrs[(|t[n].data| - 1) / 1024])
    ensures var k := |t[n].data| - 1;
            var p := t[n].ptrs[k / 1024];
            var blk' := blk[p := PutSlot(blk[p], k % 1024, b)];
            && Linked(blk', ptrs, t[n].(data := t[n].data[..k] + [b]))
            && Untouched(own, blk, blk', n) && DataSame(blk, blk', t[n])
  {
    var f, k := t[n], |t[n].data| - 1;
    assert k / 1024 < |f.ptrs|;
    var p := f.ptrs[k / 1024];
    SlotIsLocal(bm, blk, t, own, lk, n, k, PutSlot(blk[p], k % 1024, b));
    DistinctPtrs(bm, t, own, lk, n);
    hide Sound;
    LinkSlot(blk, ptrs, f, k, b);
  }

  /** The blocks an addition at position k displaces: none, or the last one. */
  function Displaced(f: Extent, k: nat): set<nat>
    requires k <= |f.data|
  {
    set b | b in f.data[k..]
  }

  /** Both cases at once: the slot of position k now names b, and what it named before is leaked. */
  lemma GrowAt(bm: seq<bool>, blk: seq<Block>, t: Table, own: Owners, lk: set<nat>, n: nat, ptrs: seq<u32>, k: nat,
               b: u32)
    requires Sound(bm, t, own, lk) && n in t && |blk| == TOTAL_BLOCKS && Linked(blk, ptrs, t[n])
    requires b in lk && ((k == |t[n].data| && k % 1024 != 0) || k + 1 == |t[n].data|)
    ensures k / 1024 < |t[n].ptrs| && InRegion(t[n].ptrs[k / 1024])
    ensures var p, gone := t[n].ptrs[k / 1024], Displaced(t[n], k);
            var f', own' := t[n].(data := t[n].data[..k] + [b]), (own - gone)[b := DataRole(n, k)];
            var blk' := blk[p := PutSlot(blk[p], k % 1024, b)];
            && Sound(bm, t[n := f'], own', lk - {b} + gone)
            && Linked(blk', ptrs, f')
            && Local(own, own', blk, blk', t[n], n)
  {
    var f, gone := t[n], Displaced(t[n], k);
    if k == |f.data| {
      GrowSlot(bm, blk, t, own, lk, n, ptrs, b);
      hide Sound, Linked, PutSlot, Local;
      assert gone == {} && own - gone == own && lk - {b} + gone == lk - {b};
      assert f.data[..k] == f.data;
    } else {
      GrowReplace(bm, blk, t, own, lk, n, ptrs, b);
      hide Sound, Linked, PutSlot, Local;
      assert f.data[k..] == [f.data[k]] && gone == {f.data[k]};
    }
  }

  /** Changing one of n's data blocks, or a leaked one, is local and keeps everything linked. */
  lemma WriteData(bm: seq<bool>, blk: seq<Block>, t: Table, own: Owners, lk: set<nat>, n: nat, ptrs: seq<u32>,
                  k: nat, x: Block)
    requires Sound(bm, t, own, lk) && n in t && |blk| == TOTAL_BLOCKS && Linked(blk, ptrs, t[n]) && k < |t[n].data|
    ensures var b := t[n].data[k];
            && InRegion(b)
            && Linked(blk[b := x], ptrs, t[n])
            && Untouched(own, blk, blk[b := x], n)
            && forall j | 0 <= j < |t[n].data| && j != k ::
                 BlockAt(blk[b := x], t[n].data[j]) == BlockAt(blk, t[n].data[j])
  {
    var f := t[n];
    Roles(bm, t, own, lk, n, |f.ptrs| + k);
    DistinctPtrs(bm, t, own, lk, n);
    hide Sound;
    forall i | 0 <= i < |f.ptrs|
      ensures f.ptrs[i] != f.data[k]
    {
    }
    LinkedFrame(blk, blk[f.data[k] := x], ptrs, f);
    hide Linked;
    forall j | 0 <= j < |f.data| && j != k
      ensures f.data[j] != f.data[k]
    {
      if j < k {
      } else {
      }
    }
  }
}
