/** The three nested iterators of directory.c: pointer blocks, data blocks, entries. They visit the
    entries of a directory in order and stop at the first one the callback accepts. */
module Iterate {
  import opened Layout
  import opened Volume
  import opened Inodes
  import opened DiskState
  import opened NodeOps

  /** What the callback does with an entry: look for a name, or take every entry and go on. */
  datatype Visit = Find(name: Name) | All

  /** The callback returns the entry, and it is valid: its name is not empty. */
  predicate Stops(visit: Visit, e: Entry)
  {
    visit.Find? && e.name == visit.name && e.name != []
  }

  /** Where the iteration stopped: the data block and the byte of the entry in it. */
  datatype Place = Place(block: nat, at: nat)

  /** The visited entries, and whether the last of them stopped the iteration. */
  ghost predicate Visited(visit: Visit, seen: seq<Entry>, stopped: bool)
  {
    && (stopped ==> |seen| > 0 && Stops(visit, seen[|seen| - 1]))
    && (forall j | 0 <= j < |seen| - (if stopped then 1 else 0) :: !Stops(visit, seen[j]))
  }

  lemma VisitedAppend(visit: Visit, a: seq<Entry>, b: seq<Entry>, stopped: bool)
    requires Visited(visit, a, false) && Visited(visit, b, stopped)
    ensures Visited(visit, a + b, stopped)
  {
    hide Stops;
    var s := a + b;
    forall j | 0 <= j < |s| - (if stopped then 1 else 0)
      ensures !Stops(visit, s[j])
    {
      if j < |a| {
        assert s[j] == a[j];
      } else {
        assert s[j] == b[j - |a|];
      }
    }
    if stopped {
      assert s[|s| - 1] == b[|b| - 1];
    }
  }

  /** __next_byte, with the unsigned wrap-around of a limit of -1. */
  predicate NextByte(pos: nat, minLimit: int, maxLimit: nat, isLast: bool)
  {
    pos <= (if minLimit < 0 then minLimit + 0x1_0000_0000 else minLimit) || (pos < maxLimit && !isLast)
  }

  /** iterate_bytes_in_block: the entries of one data block, up to the end of the directory in its last. */
  method IterateBytes(b: Block, isLast: bool, byteNum: nat, visit: Visit)
    returns (stopped: bool, at: nat, seen: seq<Entry>)
    requires 0 < byteNum < 4096 && byteNum % 128 == 0
    ensures |seen| <= 32 && forall j | 0 <= j < |seen| :: seen[j] == EntryIn(b, j)
    ensures Visited(visit, seen, stopped)
    ensures stopped ==> |seen| <= (if isLast then byteNum / 128 else 32) && at == 128 * (|seen| - 1)
    ensures !stopped ==> |seen| == if isLast then byteNum / 128 else 32
  {
    hide EntryIn, Stops;
    var k := 0;
    seen := [];
    stopped := false;
    while !stopped && NextByte(k, byteNum - 1, BLOCK_SIZE, isLast)
      invariant k == 128 * |seen| && |seen| <= if isLast then byteNum / 128 else 32
      invariant forall j | 0 <= j < |seen| :: seen[j] == EntryIn(b, j)
      invariant Visited(visit, seen, stopped)
      decreases 4096 - k
    {
      var e := EntryIn(b, k / 128);
      VisitOne(visit, seen, e);
      seen := seen + [e];
      stopped := Stops(visit, e);
      k := k + 128;
    }
    at := if stopped then k - 128 else 0;
  }

  lemma VisitOne(visit: Visit, seen: seq<Entry>, e: Entry)
    requires Visited(visit, seen, false)
    ensures Visited(visit, seen + [e], Stops(visit, e))
  {
    hide Stops;
    if Stops(visit, e) {
      assert Visited(visit, [e], true);
      VisitedAppend(visit, seen, [e], true);
    } else {
      VisitedAppend(visit, seen, [e], false);
    }
  }

  /** seen is the stretch of the directory's entries that starts at entry from. */
  ghost predicate Stretch(blk: seq<Block>, f: Extent, from: nat, seen: seq<Entry>)
  {
    forall j | 0 <= j < |seen| :: seen[j] == EntryOf(blk, f, from + j)
  }

  lemma StretchAppend(blk: seq<Block>, f: Extent, from: nat, a: seq<Entry>, b: seq<Entry>)
    requires Stretch(blk, f, from, a) && Stretch(blk, f, from + |a|, b)
    ensures Stretch(blk, f, from, a + b)
  {
    hide EntryOf;
    forall j | 0 <= j < |a + b|
      ensures (a + b)[j] == EntryOf(blk, f, from + j)
    {
      if j < |a| {
      } else {
        assert b[j - |a|] == EntryOf(blk, f, from + |a| + (j - |a|));
      }
    }
  }

  lemma StretchOfBlock(blk: seq<Block>, f: Extent, k: nat, seen: seq<Entry>)
    requires k < |f.data| && f.data[k] < |blk| && |seen| <= 32
    requires forall j | 0 <= j < |seen| :: seen[j] == EntryIn(blk[f.data[k]], j)
    ensures Stretch(blk, f, 32 * k, seen)
  {
    hide EntryIn;
    forall j | 0 <= j < |seen|
      ensures seen[j] == EntryOf(blk, f, 32 * k + j)
    {
      assert (32 * k + j) / 32 == k && (32 * k + j) % 32 == j;
    }
  }

  /** The entries a pointer block leads to: all it can, or those up to the end of the directory. */
  function EntriesUnder(isLast: bool, blockNum: nat, byteNum: nat): nat
  {
    if isLast then 32 * blockNum + byteNum / 128 else 32768
  }

  /** Where the last entry seen is: its data block, and its byte there. */
  ghost predicate LastAt(f: Extent, from: nat, seen: seq<Entry>, place: Place)
  {
    && |seen| > 0
    && var e := from + |seen| - 1;
       e / 32 < |f.data| && place.block == f.data[e / 32] && place.at == 128 * (e % 32)
  }

  lemma LastInBlock(f: Extent, from: nat, k: nat, seen: seq<Entry>, more: seq<Entry>, place: Place)
    requires from + |seen| == 32 * k && 0 < |more| <= 32 && k < |f.data|
    requires place == Place(f.data[k], 128 * (|more| - 1))
    ensures LastAt(f, from, seen + more, place)
  {
    var e := from + |seen + more| - 1;
    assert e / 32 == k && e % 32 == |more| - 1;
  }

  /** The j-th data block of the i-th pointer block. */
  method IterateBlock(d: Disk, x: TNode, i: nat, j: nat, isLast: bool, blockNum: nat, byteNum: nat, visit: Visit,
                      seen: seq<Entry>, ghost n: nat, ghost t: Table)
    returns (stopped: bool, place: Place, seen': seq<Entry>)
    requires Holding(d, t, x, n) && 0 < byteNum < 4096 && byteNum % 128 == 0
    requires j < 1024 && 1024 * i + j < |t[n].data| && (isLast ==> j <= blockNum < 1024)
    requires |seen| == 32 * j && Stretch(d.Vol().blk, t[n], 32768 * i, seen) && Visited(visit, seen, false)
    ensures Stretch(d.Vol().blk, t[n], 32768 * i, seen') && Visited(visit, seen', stopped)
    ensures stopped ==> LastAt(t[n], 32768 * i, seen', place) && |seen'| <= EntriesUnder(isLast, blockNum, byteNum)
    ensures !stopped ==> |seen'| == if isLast && j == blockNum then 32 * j + byteNum / 128 else 32 * (j + 1)
  {
    hide Sound, Linked, EntryIn, EntryOf, Stretch, Visited, InRegion;
    var b := BlockNumber(d, x, 1024 * i + j, n, t);
    RegionBelow(b);
    var at, more;
    stopped, at, more := IterateBytes(d.blocks[b], j == blockNum && isLast, byteNum, visit);
    StretchOfBlock(d.Vol().blk, t[n], 1024 * i + j, more);
    StretchAppend(d.Vol().blk, t[n], 32768 * i, seen, more);
    VisitedAppend(visit, seen, more, stopped);
    seen' := seen + more;
    place := Place(b, at);
    if stopped {
      assert |more| > 0 by { VisitedSome(visit, more); }
      LastInBlock(t[n], 32768 * i, 1024 * i + j, seen, more, place);
    }
  }

  lemma VisitedSome(visit: Visit, seen: seq<Entry>)
    requires Visited(visit, seen, true)
    ensures |seen| > 0
  {
  }

  lemma StretchEmpty(blk: seq<Block>, f: Extent, from: nat, visit: Visit)
    ensures Stretch(blk, f, from, []) && Visited(visit, [], false)
  {
  }

  /** iterate_blocks: the data blocks of the i-th pointer block. */
  method IterateBlocks(d: Disk, x: TNode, i: nat, isLast: bool, blockNum: nat, byteNum: nat, visit: Visit,
                       ghost n: nat, ghost t: Table)
    returns (stopped: bool, place: Place, seen: seq<Entry>)
    requires Holding(d, t, x, n) && 0 < byteNum < 4096 && byteNum % 128 == 0 && blockNum < 1024
    requires if isLast then 1024 * i + blockNum < |t[n].data| else 1024 * (i + 1) <= |t[n].data|
    ensures Stretch(d.Vol().blk, t[n], 32768 * i, seen) && Visited(visit, seen, stopped)
    ensures stopped ==> LastAt(t[n], 32768 * i, seen, place) && |seen| <= EntriesUnder(isLast, blockNum, byteNum)
    ensures !stopped ==> |seen| == EntriesUnder(isLast, blockNum, byteNum)
  {
    hide Holding, Stretch, Visited, LastAt;
    assert n in t by { HoldingHas(d, t, x, n); }
    stopped, place, seen := false, Place(0, 0), [];
    StretchEmpty(d.Vol().blk, t[n], 32768 * i, visit);
    var j := 0;
    while !stopped && NextByte(j, blockNum, 1024, isLast)
      invariant 0 <= j <= 1024 && (isLast ==> j <= blockNum + 1)
      invariant Stretch(d.Vol().blk, t[n], 32768 * i, seen) && Visited(visit, seen, stopped)
      invariant stopped ==> LastAt(t[n], 32768 * i, seen, place) && |seen| <= EntriesUnder(isLast, blockNum, byteNum)
      invariant !stopped ==> |seen| == if isLast && j == blockNum + 1 then 32 * blockNum + byteNum / 128 else 32 * j
      decreases 1024 - j
    {
      stopped, place, seen := IterateBlock(d, x, i, j, isLast, blockNum, byteNum, visit, seen, n, t);
      j := j + 1;
    }
  }

  lemma HoldingHas(d: Disk, t: Table, x: TNode, n: nat)
    requires Holding(d, t, x, n)
    ensures n in t && |x.ptrs| == 1000 && Sized(t[n]) && forall i | 0 <= i < 1000 :: x.ptrs[i] != 0 <==> i < |t[n].ptrs|
  {
  }

  /** iterate_pointers_blocks: first match over the entries in order, and with a callback that accepts
      nothing, exactly size/128 entries. The size of a directory is not a whole number of blocks: at such
      a size the inner loop's limit would wrap around. */
  method IteratePointers(d: Disk, x: TNode, visit: Visit, ghost n: nat, ghost t: Table)
    returns (stopped: bool, place: Place, seen: seq<Entry>)
    requires Holding(d, t, x, n) && x.state != 0 && x.size % 128 == 0
    requires if x.ptrs[0] == 0 then x.size == 0 else x.size % 4096 != 0 && |t[n].data| == x.size / 4096 + 1
    ensures Stretch(d.Vol().blk, t[n], 0, seen) && Visited(visit, seen, stopped)
    ensures stopped ==> LastAt(t[n], 0, seen, place) && |seen| <= x.size / 128
    ensures !stopped ==> |seen| == x.size / 128
  {
    HoldingHas(d, t, x, n);
    hide Holding, Stretch, Visited, LastAt;
    var blocks, byteNum := x.size / BLOCK_SIZE, x.size % BLOCK_SIZE;
    var pointerBlockNum, blockNum := blocks / 1024, blocks % 1024;
    stopped, place, seen := false, Place(0, 0), [];
    StretchEmpty(d.Vol().blk, t[n], 0, visit);
    var i := 0;
    while !stopped && i < 1000 && x.ptrs[i] != 0 && x.state != 0
      invariant 0 <= i <= |t[n].ptrs|
      invariant Stretch(d.Vol().blk, t[n], 0, seen) && Visited(visit, seen, stopped)
      invariant stopped ==> LastAt(t[n], 0, seen, place) && |seen| <= x.size / 128
      invariant !stopped ==> |seen| == if i == pointerBlockNum + 1 then x.size / 128 else 32768 * i
      decreases 1000 - i
    {
      stopped, place, seen := IteratePointer(d, x, i, i == pointerBlockNum, blockNum, byteNum, visit, seen, n, t);
      i := i + 1;
    }
  }

  /** The entries under one pointer block, appended to those before. */
  method IteratePointer(d: Disk, x: TNode, i: nat, isLast: bool, blockNum: nat, byteNum: nat, visit: Visit,
                        seen: seq<Entry>, ghost n: nat, ghost t: Table)
    returns (stopped: bool, place: Place, seen': seq<Entry>)
    requires Holding(d, t, x, n) && 0 < byteNum < 4096 && byteNum % 128 == 0 && blockNum < 1024
    requires if isLast then 1024 * i + blockNum < |t[n].data| else 1024 * (i + 1) <= |t[n].data|
    requires |seen| == 32768 * i && Stretch(d.Vol().blk, t[n], 0, seen) && Visited(visit, seen, false)
    ensures Stretch(d.Vol().blk, t[n], 0, seen') && Visited(visit, seen', stopped)
    ensures stopped ==> LastAt(t[n], 0, seen', place) && |seen'| <= 32768 * i + EntriesUnder(isLast, blockNum, byteNum)
    ensures !stopped ==> |seen'| == 32768 * i + EntriesUnder(isLast, blockNum, byteNum)
  {
    assert n in t by { HoldingHas(d, t, x, n); }
    hide Holding, Stretch, Visited, LastAt, EntriesUnder;
    var more;
    stopped, place, more := IterateBlocks(d, x, i, isLast, blockNum, byteNum, visit, n, t);
    JoinUnder(d.Vol().blk, t[n], visit, seen, more, stopped, place);
    seen' := seen + more;
  }

  lemma JoinUnder(blk: seq<Block>, f: Extent, visit: Visit, seen: seq<Entry>, more: seq<Entry>, stopped: bool,
                  place: Place)
    requires Stretch(blk, f, 0, seen) && Visited(visit, seen, false)
    requires Stretch(blk, f, |seen|, more) && Visited(visit, more, stopped)
    requires stopped ==> LastAt(f, |seen|, more, place)
    ensures Stretch(blk, f, 0, seen + more) && Visited(visit, seen + more, stopped)
    ensures stopped ==> LastAt(f, 0, seen + more, place)
  {
    hide Stretch, Visited, LastAt;
    StretchAppend(blk, f, 0, seen, more);
    VisitedAppend(visit, seen, more, stopped);
    if stopped {
      LastShift(f, seen, more, place);
    }
  }

  lemma LastShift(f: Extent, seen: seq<Entry>, more: seq<Entry>, place: Place)
    requires LastAt(f, |seen|, more, place)
    ensures LastAt(f, 0, seen + more, place)
  {
  }
}
