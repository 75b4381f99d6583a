/** sac_write. */
module FileWrite {
  import opened Bytes
  import opened Layout
  import opened Volume
  import opened Inodes
  import opened Commits
  import opened Growth
  import opened DiskState
  import opened NodeOps
  import opened FreeSpace
  import opened Contents
  import opened GapFilling
  import opened GapSteps

  // ---------------------------------------------------------------- bytes of a file being written

  /** The first size bytes of (blk, f) are those of (blk0, f0) with data put at an offset. */
  ghost predicate Wrote(blk0: seq<Block>, f0: Extent, blk: seq<Block>, f: Extent, size: nat, at: nat, data: seq<byte>)
  {
    forall i: nat | i < size ::
      ByteOf(blk, f, i) == if at <= i < at + |data| then data[i - at] else ByteOf(blk0, f0, i)
  }

  lemma WroteIs(blk0: seq<Block>, f0: Extent, blk: seq<Block>, f: Extent, size: nat, at: nat, data: seq<byte>)
    requires at <= size && Wrote(blk0, f0, blk, f, Max(size, at + |data|), at, data)
    ensures FileBytes(blk, f, Max(size, at + |data|)) == Overwritten(FileBytes(blk0, f0, size), at, data)
  {
    hide ByteOf;
    var r, s := FileBytes(blk, f, Max(size, at + |data|)), FileBytes(blk0, f0, size);
    var w := Overwritten(s, at, data);
    forall i | 0 <= i < |r|
      ensures r[i] == w[i]
    {
      assert r[i] == ByteOf(blk, f, i);
      if i < at {
        assert w[i] == s[i] == ByteOf(blk0, f0, i);
      } else if i < at + |data| {
        assert w[i] == data[i - at];
      } else {
        assert w[i] == s[i] == ByteOf(blk0, f0, i);
      }
    }
  }

  /** Bytes [lo, lo+|data|) of one data block change, and no others. */
  ghost predicate ChunkPut(blk: seq<Block>, blk': seq<Block>, f: Extent, lo: nat, data: seq<byte>)
  {
    forall i: nat | i / 4096 < |f.data| ::
      ByteOf(blk', f, i) == if lo <= i < lo + |data| then data[i - lo] else ByteOf(blk, f, i)
  }

  lemma ChunkBytes(blk: seq<Block>, f: Extent, k: nat, at: nat, data: seq<byte>)
    requires k < |f.data| && f.data[k] < |blk| && at + |data| <= 4096
    requires forall j | 0 <= j < |f.data| && j != k :: f.data[j] != f.data[k]
    ensures var b := f.data[k];
            ChunkPut(blk, blk[b := Splice(blk[b], at, data)], f, 4096 * k + at, data)
  {
    var b := f.data[k];
    var blk' := blk[b := Splice(blk[b], at, data)];
    forall i: nat | i / 4096 < |f.data|
      ensures ByteOf(blk', f, i) ==
              if 4096 * k + at <= i < 4096 * k + at + |data| then data[i - 4096 * k - at] else ByteOf(blk, f, i)
    {
      assert i == 4096 * (i / 4096) + i % 4096;
      if i / 4096 == k {
        assert BlockAt(blk', b)[i % 4096] == Splice(blk[b], at, data)[i % 4096];
      } else {
        assert f.data[i / 4096] != b;
      }
    }
  }

  lemma WroteChunk(blk0: seq<Block>, f0: Extent, blk: seq<Block>, blk': seq<Block>, f: Extent, size: nat, at: nat,
                   data: seq<byte>, chunk: seq<byte>)
    requires Wrote(blk0, f0, blk, f, Max(size, at + |data|), at, data)
    requires ChunkPut(blk, blk', f, at + |data|, chunk) && at <= size
    requires Max(size, at + |data| + |chunk|) <= 4096 * |f.data|
    ensures Wrote(blk0, f0, blk', f, Max(size, at + |data| + |chunk|), at, data + chunk)
  {
    hide ByteOf;
    var all := data + chunk;
    forall i: nat | i < Max(size, at + |all|)
      ensures ByteOf(blk', f, i) == if at <= i < at + |all| then all[i - at] else ByteOf(blk0, f0, i)
    {
      assert i / 4096 < |f.data|;
      if at + |data| <= i < at + |all| {
        assert all[i - at] == chunk[i - at - |data|];
      } else {
        assert at <= i < at + |data| ==> all[i - at] == data[i - at];
      }
    }
  }

  /** The bytes that stay when the extent changes past them. */
  lemma WroteFrame(blk0: seq<Block>, f0: Extent, blk: seq<Block>, f: Extent, blk': seq<Block>, f': Extent, size: nat,
                   at: nat, data: seq<byte>, k: nat)
    requires Wrote(blk0, f0, blk, f, size, at, data) && DataSame(blk, blk', f)
    requires k <= |f.data| && k <= |f'.data| && f'.data[..k] == f.data[..k] && size <= 4096 * k
    ensures Wrote(blk0, f0, blk', f', size, at, data)
  {
    hide BlockAt;
    forall i: nat | i < size
      ensures ByteOf(blk', f', i) == ByteOf(blk, f, i)
    {
      assert i / 4096 < k;
      assert f'.data[..k][i / 4096] == f.data[..k][i / 4096];
    }
  }

  // ---------------------------------------------------------------- one chunk

  /** Copies data into the k-th data block of inode n. */
  method WriteChunk(d: Disk, x: TNode, k: nat, at: nat, data: seq<byte>, ghost n: nat, ghost t: Table)
    requires Holding(d, t, x, n) && k < |t[n].data| && at + |data| <= 4096
    modifies d.blocks
    ensures Holding(d, t, x, n) && d.Vol().bm == old(d.Vol()).bm
    ensures Untouched(d.own, old(d.Vol()).blk, d.Vol().blk, n)
    ensures ChunkPut(old(d.Vol()).blk, d.Vol().blk, t[n], 4096 * k + at, data)
    ensures PtrsSame(old(d.Vol()).blk, d.Vol().blk, t[n])
  {
    hide Sound, Linked, Untouched, ChunkPut, InRegion, ByteOf, PtrsSame;
    ghost var blk := d.Vol().blk;
    var b := BlockNumber(d, x, k, n, t);
    RegionBelow(b);
    DataApart(d.Vol().bm, t, d.own, d.lk, n, k);
    PtrsKept(d.Vol().bm, blk, t, d.own, d.lk, n, k, Splice(blk[b], at, data));
    WriteData(d.Vol().bm, blk, t, d.own, d.lk, n, x.ptrs, k, Splice(blk[b], at, data));
    ChunkBytes(blk, t[n], k, at, data);
    d.WriteBlock(b, Splice(d.blocks[b], at, data));
  }

  lemma PtrsKept(bm: seq<bool>, blk: seq<Block>, t: Table, own: Owners, lk: set<nat>, n: nat, k: nat,
                 b: Block)
    requires Sound(bm, t, own, lk) && n in t && k < |t[n].data| && |blk| == TOTAL_BLOCKS
    ensures t[n].data[k] < |blk| && PtrsSame(blk, blk[t[n].data[k] := b], t[n])
  {
    Roles(bm, t, own, lk, n, |t[n].ptrs| + k);
    DistinctPtrs(bm, t, own, lk, n);
    hide Sound;
  }

  lemma DataApart(bm: seq<bool>, t: Table, own: Owners, lk: set<nat>, n: nat, k: nat)
    requires Sound(bm, t, own, lk) && n in t && k < |t[n].data|
    ensures forall j | 0 <= j < |t[n].data| && j != k :: t[n].data[j] != t[n].data[k]
  {
    DistinctPtrs(bm, t, own, lk, n);
    hide Sound;
    forall j | 0 <= j < |t[n].data| && j != k
      ensures t[n].data[j] != t[n].data[k]
    {
      if j < k {
      } else {
      }
    }
  }

  // ---------------------------------------------------------------- the loop

  /** The state when the loop starts. */
  datatype Start = Start(bm: seq<bool>, blk: seq<Block>, own: Owners, lk: set<nat>, t: Table, x: Node)

  ghost function Snapshot(d: Disk, t: Table, x: TNode): Start
    reads d, d.bits, d.blocks, x
  {
    Start(d.Vol().bm, d.Vol().blk, d.own, d.lk, t, x.Val())
  }

  /** Only the size and the pointers of the copy change, and inode n's own blocks. */
  ghost predicate Follows(s: Start, s': Start, n: nat)
  {
    && n in s.t && n in s'.t && s'.t == s.t[n := s'.t[n]]
    && s'.x == s.x.(size := s'.x.size, ptrs := s'.x.ptrs)
    && LowBits(s.bm, s'.bm) && SameOwners(s.own, s'.own, n) && Untouched(s.own, s.blk, s'.blk, n)
  }

  lemma FollowsTrans(s: Start, s1: Start, s2: Start, n: nat)
    requires Follows(s, s1, n) && Follows(s1, s2, n)
    ensures Follows(s, s2, n)
  {
    hide LowBits, SameOwners, Untouched;
    LowBitsTrans(s.bm, s1.bm, s2.bm);
    SameOwnersTrans(s.own, s1.own, s2.own, n);
    UntouchedTrans(s.own, s1.own, s.blk, s1.blk, s2.blk, n);
  }

  ghost predicate Since(d: Disk, x: TNode, n: nat, s: Start, t: Table)
    reads d, d.bits, d.blocks, x
  {
    Holding(d, t, x, n) && Follows(s, Snapshot(d, t, x), n)
  }

  /** The loop invariant: data, a prefix of the buffer, is written at the offset. The size has caught up,
      the blocks are the ones the size calls for and one more if an earlier block was filled and the last
      was not, and a block has leaked for every earlier block filled but that one. */
  ghost predicate Writing(d: Disk, x: TNode, n: nat, s: Start, t: Table, offset: nat, data: seq<byte>)
    reads d, d.bits, d.blocks, x
  {
    var pos := offset + |data|;
    && Since(d, x, n, s, t)
    && x.size == Max(s.x.size, pos)
    && |t[n].data| == x.size / 4096 + 1 + Extra(s.x.size, offset, pos)
    && Wrote(s.blk, s.t[n], d.Vol().blk, t[n], x.size, offset, data)
    && s.lk <= d.lk
    && |d.lk| == |s.lk| + Filled(s.x.size, offset, pos) - Extra(s.x.size, offset, pos)
  }

  lemma StartWriting(d: Disk, x: TNode, n: nat, s: Start, offset: nat)
    requires Holding(d, s.t, x, n) && |s.t[n].data| == x.size / 4096 + 1 && offset <= x.size
    requires s == Start(d.Vol().bm, d.Vol().blk, d.own, d.lk, s.t, x.Val())
    ensures Writing(d, x, n, s, s.t, offset, [])
  {
    hide Sound, Linked, ByteOf;
  }

  /** The arithmetic of a chunk that does not reach the end of its block. */
  lemma PartialStep(size: nat, offset: nat, pos: nat, c: nat)
    requires offset <= size && offset <= pos && pos % 4096 + c < 4096
    ensures Filled(size, offset, pos + c) == Filled(size, offset, pos)
    ensures Extra(size, offset, pos + c) == Extra(size, offset, pos)
    ensures Max(size, pos + c) / 4096 == Max(size, pos) / 4096
    ensures pos / 4096 <= Max(size, pos) / 4096
  {
    assert (pos + c) / 4096 == pos / 4096;
  }

  /** The arithmetic of a chunk that does. */
  lemma FullStep(size: nat, offset: nat, pos: nat, c: nat)
    requires offset <= size && offset <= pos && pos % 4096 + c == 4096
    ensures pos + c == 4096 * (pos / 4096 + 1)
    ensures Filled(size, offset, pos + c) - Extra(size, offset, pos + c) == Filled(size, offset, pos)
    ensures Max(size, pos) / 4096 + 2 == Max(size, pos + c) / 4096 + 1 + Extra(size, offset, pos + c)
    ensures pos / 4096 <= Max(size, pos) / 4096
    ensures Max(size, pos + c) <= 4096 * (Max(size, pos) / 4096 + 1)
  {
    assert (pos + c) / 4096 == pos / 4096 + 1;
  }

  lemma DisplacedCount(bm: seq<bool>, t: Table, own: Owners, lk: set<nat>, n: nat, k: nat)
    requires Sound(bm, t, own, lk) && n in t && (|t[n].data| == k || |t[n].data| == k + 1)
    ensures |lk + Displaced(t[n], k)| == |lk| + |t[n].data| - k
  {
    var f := t[n];
    if |f.data| == k {
      assert Displaced(f, k) == {};
      assert lk + {} == lk;
    } else {
      Roles(bm, t, own, lk, n, |f.ptrs| + k);
      assert OwnerMet(t, own, lk, f.data[k]);
      assert f.data[k..] == [f.data[k]];
      assert Displaced(f, k) == {f.data[k]};
    }
  }

  /** After the copy part of an iteration, before the size catches up. */
  ghost predicate Copied(d: Disk, x: TNode, n: nat, s: Start, t: Table, offset: nat, data: seq<byte>, c: nat)
    requires c <= |data|
    reads d, d.bits, d.blocks, x
  {
    var pos := offset + |data| - c;
    && Since(d, x, n, s, t)
    && x.size == Max(s.x.size, pos)
    && |t[n].data| == x.size / 4096 + 1 + Extra(s.x.size, offset, pos)
    && Wrote(s.blk, s.t[n], d.Vol().blk, t[n], Max(s.x.size, pos + c), offset, data)
    && s.lk <= d.lk
    && |d.lk| == |s.lk| + Filled(s.x.size, offset, pos) - Extra(s.x.size, offset, pos)
  }

  /** The copy part of an iteration. */
  method CopyStep(d: Disk, x: TNode, k: nat, at: nat, chunk: seq<byte>, offset: nat,
                  ghost n: nat, ghost s: Start, ghost t: Table, ghost data: seq<byte>)
    requires Writing(d, x, n, s, t, offset, data) && offset <= s.x.size
    requires offset + |data| == 4096 * k + at && at + |chunk| <= 4096 && at < 4096
    modifies d.blocks
    ensures Copied(d, x, n, s, t, offset, data + chunk, |chunk|)
  {
    hide Sound, Linked, SameOwners, Untouched, LowBits, Wrote, ChunkPut, Filled, Extra;
    ghost var blk, own := d.Vol().blk, d.own;
    ghost var pos := offset + |data|;
    assert k == pos / 4096;
    assert k <= x.size / 4096;
    WriteChunk(d, x, k, at, chunk, n, t);
    UntouchedTrans(s.own, own, s.blk, blk, d.Vol().blk, n);
    WroteChunk(s.blk, s.t[n], blk, d.Vol().blk, t[n], s.x.size, offset, data, chunk);
  }

  /** The chunk ended inside its block: only the size is left to do. */
  method EndPartial(d: Disk, x: TNode, offset: nat, c: nat, ghost n: nat, ghost s: Start, ghost t: Table,
                    ghost data: seq<byte>, written: nat)
    requires c <= |data| == written && Copied(d, x, n, s, t, offset, data, c) && offset <= s.x.size
    requires (offset + |data| - c) % 4096 + c < 4096
    modifies x`size
    ensures Writing(d, x, n, s, t, offset, data)
  {
    hide Sound, Linked, SameOwners, Untouched, LowBits, Wrote, Filled, Extra;
    PartialStep(s.x.size, offset, offset + |data| - c, c);
    if offset + written > x.size {
      x.size := offset + written;
    }
  }

  /** The chunk filled its block: a data block is added, and then the size catches up. */
  method EndFull(d: Disk, x: TNode, offset: nat, c: nat, ghost n: nat, ghost s: Start, ghost t: Table,
                 ghost data: seq<byte>, written: nat) returns (ok: bool, ghost t': Table)
    requires c <= |data| == written && Copied(d, x, n, s, t, offset, data, c) && offset <= s.x.size
    requires (offset + |data| - c) % 4096 + c == 4096
    modifies d, d.bits, d.blocks, x`ptrs, x`size
    ensures Paid(ok, old(d.Vol()).bm, d.Vol().bm, old(AddCost(PtrBlocks(|t[n].data|), x.size)))
    ensures ok ==> Writing(d, x, n, s, t', offset, data)
  {
    hide Holding, HeldOk, Follows, Since, Wrote, Filled, Extra, Displaced, DataSame, AddPosition, PtrBlocks, Writing,
      Copied, LowBits, Local, BlockStored, CanGrow, Paid, AddCost;
    ghost var was, size := Snapshot(d, t, x), x.size;
    FullReady(d, x, n, s, t, offset, data, c);
    PositionIs(|t[n].data|, size);
    ghost var p, b;
    ok, t', p, b := GrowNode(d, x, n, t);
    if ok {
      AddedHas(d, x, n, t, t', size / 4096 + 1, was);
      CatchUp(d, x, n, t', offset + written);
      FullDone(d, x, n, s, was, t', offset, data, c);
    }
  }

  /** The size follows the end of what has been written. */
  method CatchUp(d: Disk, x: TNode, ghost n: nat, ghost t: Table, end: nat)
    requires Holding(d, t, x, n)
    modifies x`size
    ensures Holding(d, t, x, n) && x.Val() == old(x.Val()).(size := Max(old(x.size), end))
  {
    hide Sound, Linked;
    if end > x.size {
      x.size := end;
    }
  }

  /** The state between the copy part of an iteration and the block it calls for. */
  ghost predicate CopiedState(s: Start, w: Start, n: nat, offset: nat, data: seq<byte>, c: nat)
    requires c <= |data|
  {
    var pos := offset + |data| - c;
    && n in s.t && n in w.t && Follows(s, w, n)
    && w.x.size == Max(s.x.size, pos)
    && |w.t[n].data| == w.x.size / 4096 + 1 + Extra(s.x.size, offset, pos)
    && Wrote(s.blk, s.t[n], w.blk, w.t[n], Max(s.x.size, pos + c), offset, data)
    && s.lk <= w.lk
    && |w.lk| == |s.lk| + Filled(s.x.size, offset, pos) - Extra(s.x.size, offset, pos)
    && |w.lk + Displaced(w.t[n], w.x.size / 4096 + 1)| == |w.lk| + Extra(s.x.size, offset, pos)
  }

  lemma FullReady(d: Disk, x: TNode, n: nat, s: Start, t: Table, offset: nat, data: seq<byte>, c: nat)
    requires c <= |data| && Copied(d, x, n, s, t, offset, data, c)
    ensures Holding(d, t, x, n) && n in t && n in s.t && CanGrow(|t[n].data|, x.size)
    ensures |t[n].data| == x.size / 4096 + 1 || |t[n].data| == x.size / 4096 + 2
    ensures CopiedState(s, Snapshot(d, t, x), n, offset, data, c)
  {
    hide Sound, Linked, LowBits, SameOwners, Untouched, Wrote, Filled, Extra, Displaced;
    var pos := offset + |data| - c;
    ExtraIsBit(s.x.size, offset, pos);
    DisplacedCount(d.Vol().bm, t, d.own, d.lk, n, x.size / 4096 + 1);
  }

  /** The block is added and the size has caught up. */
  lemma FullDone(d: Disk, x: TNode, n: nat, s: Start, w: Start, t': Table, offset: nat, data: seq<byte>, c: nat)
    requires c <= |data| && CopiedState(s, w, n, offset, data, c) && offset <= s.x.size
    requires (offset + |data| - c) % 4096 + c == 4096
    requires Holding(d, t', x, n) && n in t' && x.size == Max(w.x.size, offset + |data|)
    requires Follows(w, Snapshot(d, t', x).(x := x.Val().(size := w.x.size)), n)
    requires d.lk == w.lk + Displaced(w.t[n], w.x.size / 4096 + 1)
    requires |t'[n].data| == w.x.size / 4096 + 2 && DataSame(w.blk, d.Vol().blk, w.t[n])
    requires t'[n].data[..w.x.size / 4096 + 1] == w.t[n].data[..w.x.size / 4096 + 1]
    ensures Writing(d, x, n, s, t', offset, data)
  {
    hide Holding, LowBits, SameOwners, Untouched, Wrote, Filled, Extra, Displaced, DataSame;
    var pos, k := offset + |data| - c, w.x.size / 4096 + 1;
    FullStep(s.x.size, offset, pos, c);
    ExtraIsBit(s.x.size, offset, pos);
    WroteFrame(s.blk, s.t[n], w.blk, w.t[n], d.Vol().blk, t'[n], Max(s.x.size, pos + c), offset, data, k);
    FollowsTrans(s, w, Snapshot(d, t', x).(x := x.Val().(size := w.x.size)), n);
  }

  lemma CountOfLinked(blk: seq<Block>, x: Node, f: Extent)
    requires Linked(blk, x.ptrs, f) && |f.data| > 0
    ensures BlockCount(x) == x.size / 4096 + 1
  {
  }

  lemma ExtraIsBit(size: nat, offset: nat, pos: nat)
    requires offset <= pos
    ensures Extra(size, offset, pos) == 0 || Extra(size, offset, pos) == 1
  {
  }

  /** One iteration of the second loop. */
  method WriteStep(d: Disk, x: TNode, buffer: seq<byte>, written: nat, k: nat, at: nat, offset: nat,
                   ghost n: nat, ghost s: Start, ghost t: Table)
    returns (ok: bool, c: nat, filled: bool, ghost t': Table)
    requires written < |buffer| && Writing(d, x, n, s, t, offset, buffer[..written]) && offset <= s.x.size
    requires offset + written == 4096 * k + at && at < 4096
    modifies d, d.bits, d.blocks, x`ptrs, x`size
    ensures Paid(ok, old(d.Vol()).bm, d.Vol().bm, StepCost(s.x.size, offset, offset + written, c))
    ensures 0 < c <= |buffer| - written && at + c <= 4096
    ensures (filled <==> at + c == 4096) && (!filled ==> written + c == |buffer|)
    ensures ok ==> Writing(d, x, n, s, t', offset, buffer[..written + c])
  {
    hide *;
    Constants();
    BitsIs(d);
    var room := BLOCK_SIZE - at;
    c := if |buffer| - written > room then room else |buffer| - written;
    var chunk := buffer[written..written + c];
    assert |buffer[..written]| == written && |chunk| == c;
    CopyStep(d, x, k, at, chunk, offset, n, s, t, buffer[..written]);
    assert buffer[..written] + chunk == buffer[..written + c];
    assert (offset + written) % 4096 == at;
    CopiedHas(d, x, n, s, t, offset, buffer[..written + c], c);
    CostIs(s.x.size, offset, offset + written, c);
    BitsIs(d);
    NothingPaid(d.Vol().bm, d.Vol().bm);
    ok, t', filled := true, t, c == room;
    if filled {
      ok, t' := EndFull(d, x, offset, c, n, s, t, buffer[..written + c], written + c);
    } else {
      EndPartial(d, x, offset, c, n, s, t, buffer[..written + c], written + c);
      BitsIs(d);
    }
  }

  lemma BitsIs(d: Disk)
    ensures d.Vol().bm == d.bits[..]
  {
  }

  lemma CopiedHas(d: Disk, x: TNode, n: nat, s: Start, t: Table, offset: nat, data: seq<byte>, c: nat)
    requires c <= |data| && Copied(d, x, n, s, t, offset, data, c)
    ensures var pos := offset + |data| - c;
            && n in t && x.size == Max(s.x.size, pos)
            && |t[n].data| == x.size / 4096 + 1 + Extra(s.x.size, offset, pos)
  {
    hide Follows, Sound, Linked, Wrote, Filled, Extra;
  }

  /** What an iteration that starts at pos and copies c bytes costs. */
  ghost function StepCost(size: nat, offset: nat, pos: nat, c: nat): nat
    requires offset <= pos
  {
    if pos % 4096 + c < 4096 then 0
    else AddCost(PtrBlocks(Max(size, pos) / 4096 + 1 + Extra(size, offset, pos)), Max(size, pos))
  }

  lemma CostIs(size: nat, offset: nat, pos: nat, c: nat)
    requires offset <= pos
    ensures StepCost(size, offset, pos, c) ==
            if pos % 4096 + c < 4096 then 0
            else AddCost(PtrBlocks(Max(size, pos) / 4096 + 1 + Extra(size, offset, pos)), Max(size, pos))
  {
    hide AddCost, PtrBlocks, Extra;
  }

  /** It is what the write needs more. */
  lemma StepCostIs(size: nat, offset: nat, pos: nat, c: nat)
    requires offset <= pos && offset <= size && pos % 4096 + c <= 4096
    ensures LoopNeeds(size, offset, pos) + StepCost(size, offset, pos, c) == LoopNeeds(size, offset, pos + c)
  {
    if pos % 4096 + c == 4096 {
      assert (pos + c) / 4096 == pos / 4096 + 1;
    }
  }

  lemma NeedsGrow(size: nat, offset: nat, pos: nat, end: nat)
    requires offset <= pos <= end && offset <= size
    ensures LoopNeeds(size, offset, pos) <= LoopNeeds(size, offset, end)
  {
  }

  lemma NeedsNothingYet(size: nat, offset: nat)
    requires offset <= size
    ensures LoopNeeds(size, offset, offset) == 0
  {
  }

  /** A payment that is part of another. */
  lemma PaysOn(ok: bool, bm: seq<bool>, bm1: seq<bool>, bm2: seq<bool>, before: nat, cost: nat, after: nat, all: nat)
    requires Room(bm1) + before == Room(bm) && Paid(ok, bm1, bm2, cost) && before + cost == after <= all
    ensures if ok then Room(bm2) + after == Room(bm) else Paid(false, bm, bm2, all)
  {
  }

  /** sac_write's second loop, from an offset within the file. */
  method WriteLoop(d: Disk, x: TNode, buffer: seq<byte>, offset: nat, ghost n: nat, ghost t: Table)
    returns (ok: bool, ghost s: Start, ghost t': Table)
    requires Holding(d, t, x, n) && |t[n].data| == x.size / 4096 + 1 && offset <= x.size
    modifies d, d.bits, d.blocks, x`ptrs, x`size
    ensures s == Start(old(d.Vol()).bm, old(d.Vol()).blk, old(d.own), old(d.lk), t, old(x.Val()))
    ensures Paid(ok, old(d.Vol()).bm, d.Vol().bm, LoopNeeds(old(x.size), offset, offset + |buffer|))
    ensures ok ==> Writing(d, x, n, s, t', offset, buffer)
  {
    s := Start(d.Vol().bm, d.Vol().blk, d.own, d.lk, t, x.Val());
    StartWriting(d, x, n, s, offset);
    hide Writing, Holding;
    ok, t' := RunLoop(d, x, buffer, offset, n, s);
  }

  method RunLoop(d: Disk, x: TNode, buffer: seq<byte>, offset: nat, ghost n: nat, ghost s: Start)
    returns (ok: bool, ghost t: Table)
    requires Writing(d, x, n, s, s.t, offset, []) && offset <= s.x.size
    modifies d, d.bits, d.blocks, x`ptrs, x`size
    ensures Paid(ok, old(d.Vol()).bm, d.Vol().bm, LoopNeeds(s.x.size, offset, offset + |buffer|))
    ensures ok ==> Writing(d, x, n, s, t, offset, buffer)
  {
    hide Writing, StepCost, LoopNeeds, Room, Paid;
    ghost var bm := d.Vol().bm;
    NeedsNothingYet(s.x.size, offset);
    t := s.t;
    ok := true;
    var k: nat := offset / BLOCK_SIZE;
    var at: nat := offset - BLOCK_SIZE * k;
    var written := 0;
    assert buffer[..written] == [];
    while written < |buffer|
      invariant 0 <= written <= |buffer|
      invariant Writing(d, x, n, s, t, offset, buffer[..written])
      invariant Room(d.Vol().bm) + LoopNeeds(s.x.size, offset, offset + written) == Room(bm)
      invariant written < |buffer| ==> offset + written == 4096 * k + at && at < 4096
    {
      var c, filled;
      ghost var bm1 := d.Vol().bm;
      ok, c, filled, t := WriteStep(d, x, buffer, written, k, at, offset, n, s, t);
      assert (offset + written) % 4096 == at;
      StepCostIs(s.x.size, offset, offset + written, c);
      NeedsGrow(s.x.size, offset, offset + written + c, offset + |buffer|);
      PaysOn(ok, bm, bm1, d.Vol().bm, LoopNeeds(s.x.size, offset, offset + written),
             StepCost(s.x.size, offset, offset + written, c), LoopNeeds(s.x.size, offset, offset + written + c),
             LoopNeeds(s.x.size, offset, offset + |buffer|));
      if !ok {
        return;
      }
      written := written + c;
      if filled {
        k, at := k + 1, 0;
      }
    }
    ok := true;
    assert buffer[..written] == buffer;
    PaidIs(bm, d.Vol().bm, LoopNeeds(s.x.size, offset, offset + |buffer|));
  }

  lemma PaidIs(bm: seq<bool>, bm': seq<bool>, cost: nat)
    requires Room(bm') + cost == Room(bm)
    ensures Paid(true, bm, bm', cost)
  {
  }

  // ---------------------------------------------------------------- before the loop

  lemma SinceNow(d: Disk, x: TNode, n: nat, t: Table)
    requires Holding(d, t, x, n)
    ensures Since(d, x, n, Snapshot(d, t, x), t)
  {
    hide Sound, Linked;
  }

  /** A file that has no data block gets its first. */
  method EnsureFirstBlock(d: Disk, x: TNode, ghost n: nat, ghost t: Table) returns (ok: bool, ghost t': Table)
    requires Holding(d, t, x, n) && |t[n].data| == BlockCount(x.Val()) && (x.ptrs[0] == 0 ==> x.size == 0)
    modifies d, d.bits, d.blocks, x`ptrs
    ensures Paid(ok, old(d.Vol()).bm, d.Vol().bm, if old(x.ptrs)[0] == 0 then 2 else 0)
    ensures ok ==> Since(d, x, n, old(Snapshot(d, t, x)), t') && x.size == old(x.size) && d.lk == old(d.lk)
    ensures ok ==> |t'[n].data| == x.size / 4096 + 1
    ensures ok ==> FileBytes(d.Vol().blk, t'[n], x.size) == FileBytes(old(d.Vol()).blk, t[n], x.size)
  {
    ok, t' := true, t;
    SinceNow(d, x, n, t);
    PointersSet(d.Vol().blk, x.ptrs, t[n]);
    hide Sound, Linked, SameOwners, Untouched, LowBits, Displaced, DataSame, BlockStored, FileBytes;
    if x.ptrs[0] == 0 {
      assert |t[n].data| == 0;
      assert Displaced(t[n], 0) == {} by { NothingDisplaced(t[n]); }
      assert AddCost(PtrBlocks(0), 0) == 2;
      ghost var p, b;
      ok, t', p, b := GrowNode(d, x, n, t);
    }
  }

  /** What filling part of the gap leaves: the file's bytes and then zeros, and the blocks its size calls for. */
  ghost predicate Filling(d: Disk, x: TNode, n: nat, s: Start, t: Table, upto: nat)
    requires s.x.size <= upto && n in s.t
    reads d, d.bits, d.blocks, x
  {
    && Since(d, x, n, s, t) && n in t && d.lk == s.lk
    && x.size == upto && |t[n].data| == upto / 4096 + 1
    && FileBytes(d.Vol().blk, t[n], upto) ==
       Overwritten(FileBytes(s.blk, s.t[n], s.x.size), s.x.size, Zeros(upto - s.x.size))
  }

  /** sac_write's first loop: from the end of the file up to the offset, zeros. Where the gap is one the loop
      fills right, one iteration does it. */
  method GapFill(d: Disk, x: TNode, offset: nat, ghost n: nat, ghost t: Table) returns (ok: bool, ghost t': Table)
    requires Holding(d, t, x, n) && |t[n].data| == x.size / 4096 + 1 && GapFits(x.size, offset)
    modifies d, d.bits, d.blocks, x`ptrs, x`size
    ensures Paid(ok, old(d.Vol()).bm, d.Vol().bm, if old(x.size) < offset && 4096 <= offset then 2 else 0)
    ensures ok ==> Filling(d, x, n, old(Snapshot(d, t, x)), t', Max(old(x.size), offset))
  {
    hide Holding, Filling, GapFits, Since, Paid, GapCost, PtrBlocks, GapStepped;
    HoldingIn(d, t, x, n);
    NothingPaid(d.Vol().bm, d.Vol().bm);
    StartFilling(d, x, n, t);
    ghost var s := Snapshot(d, t, x);
    var rest := offset;
    ok, t' := true, t;
    while x.size < rest
      invariant rest == offset ==> x.size == s.x.size && t' == t && Snapshot(d, t, x) == s && Holding(d, t, x, n)
      invariant rest != offset ==> x.size == offset && s.x.size < offset && rest <= s.x.size
      invariant Paid(true, s.bm, d.Vol().bm, if rest != offset && 4096 <= offset then 2 else 0)
      invariant Filling(d, x, n, s, t', x.size)
      decreases rest
    {
      var nulls;
      ghost var at';
      GapSizes(x.size, rest);
      GapCostIs(x.size, rest);
      PointersOf(d, t, x, n);
      ok, nulls, t', at' := FillGapStep(d, x, rest, n, t);
      if !ok {
        return;
      }
      rest := rest - nulls;
    }
  }

  lemma StartFilling(d: Disk, x: TNode, n: nat, t: Table)
    requires Holding(d, t, x, n) && n in t && |t[n].data| == x.size / 4096 + 1
    ensures Filling(d, x, n, Snapshot(d, t, x), t, x.size)
  {
    hide Holding, Since, FileBytes, Overwritten;
    SinceNow(d, x, n, t);
    OverwrittenNothing(FileBytes(d.Vol().blk, t[n], x.size), x.size);
  }

  /** In a gap that the loop fills right, one iteration does it. */
  lemma GapSizes(size: nat, rest: nat)
    requires size < rest
    ensures GapFits(size, rest) ==> size / 4096 < 1024 && Min(rest, 4096) - size % 4096 == rest - size
    ensures GapFits(size, rest) && Adds(size, rest) ==> size / 4096 == 1023 && rest == 1024 * 4096
    ensures GapFits(size, rest) && !Adds(size, rest) ==> size / 4096 == rest / 4096 == 0
    ensures size % 4096 < Min(rest, 4096) <= 4096
    ensures Adds(size, rest) ==> 4096 <= rest && size + (4096 - size % 4096) == 4096 * (size / 4096 + 1)
  {
  }

  /** One iteration of the first loop, for any gap: zeros up to the end of the block or the offset, and a data
      block if that fills the block and more remains. It is the step of the loop's arithmetic. */
  method FillGapStep(d: Disk, x: TNode, rest: nat, ghost n: nat, ghost t: Table)
    returns (ok: bool, nulls: nat, ghost t': Table, ghost at': map<nat, nat>)
    requires Holding(d, t, x, n) && |t[n].data| == x.size / 4096 + 1 && x.size < rest
    modifies d, d.bits, d.blocks, x`ptrs, x`size
    ensures Paid(ok, old(d.Vol()).bm, d.Vol().bm, GapCost(|t[n].ptrs|, old(x.size), rest))
    ensures n in t && nulls == Min(rest, 4096) - old(x.size) % 4096 && x.size == old(x.size) + nulls
    ensures ok ==> GapStepped(old(d.Vol()), old(x.ptrs), t[n], old(x.size), rest, d.Vol(), x.ptrs, at')
    ensures ok && GapFits(old(x.size), rest) ==> x.size == rest && Filling(d, x, n, old(Snapshot(d, t, x)), t', rest)
  {
    hide *;
    Constants();
    HoldingIn(d, t, x, n);
    GapSizes(x.size, rest);
    SnapshotIs(d, x, t);
    ghost var v, ptrs, s, size := d.Vol(), x.ptrs, Snapshot(d, t, x), x.size;
    var at := x.size % BLOCK_SIZE;
    nulls := WriteNulls(d, x, rest, n, t);
    AddsIs(size, rest, nulls);
    ok, t', at' := true, t, AtOf(t[n]);
    ghost var was := Snapshot(d, t, x);
    StepReady(d, x, n, s, t);
    if at + nulls == BLOCK_SIZE && rest - nulls > 0 {
      ghost var p, b;
      ok, t', p, b := GrowAfterGap(d, x, n, s, t);
      if ok {
        at' := at'[AddPosition(|t[n].ptrs|, x.size) := b];
        StepAdded(v, ptrs, t, was.own, was.lk, n, size, rest, Vol(was.bm, was.blk), d.Vol(), x.ptrs, p, b);
      }
    } else {
      NothingPaid(v.bm, d.Vol().bm);
      StepEnded(v, ptrs, t, d.own, d.lk, n, size, rest, d.Vol());
      if GapFits(size, rest) {
        FilledIs(d, x, n, s, t);
      }
    }
  }

  lemma SnapshotIs(d: Disk, x: TNode, t: Table)
    ensures Snapshot(d, t, x) == Start(d.Vol().bm, d.Vol().blk, d.own, d.lk, t, x.Val())
    ensures x.Val() == Node(x.state, x.name, x.parent, x.size, x.ctime, x.mtime, x.ptrs)
  {
  }

  /** What an iteration of the first loop costs. */
  ghost function GapCost(pointers: nat, size: nat, rest: nat): nat
    requires size < rest
  {
    if Adds(size, rest) then AddCost(pointers, size + (4096 - size % 4096)) else 0
  }

  /** In a gap that is filled right it is a data block and its pointer block, after a full pointer block. */
  lemma GapCostIs(size: nat, rest: nat)
    requires size < rest && GapFits(size, rest)
    ensures GapCost(PtrBlocks(size / 4096 + 1), size, rest) == if 4096 <= rest then 2 else 0
  {
  }

  lemma NothingPaid(bm: seq<bool>, bm': seq<bool>)
    requires bm' == bm
    ensures Paid(true, bm, bm', 0)
  {
  }

  lemma AddsIs(size: nat, rest: nat, nulls: nat)
    requires size < rest && nulls == Min(rest, 4096) - size % 4096
    ensures Adds(size, rest) <==> size % 4096 + nulls == 4096 && rest - nulls > 0
    ensures forall pointers: nat ::
              GapCost(pointers, size, rest) == if Adds(size, rest) then AddCost(pointers, size + nulls) else 0
  {
    hide AddCost;
  }

  lemma FilledIs(d: Disk, x: TNode, n: nat, s: Start, t: Table)
    requires Since(d, x, n, s, t) && n in t && n in s.t && d.lk == s.lk && s.x.size <= x.size
    requires |t[n].data| == x.size / 4096 + 1
    requires FileBytes(d.Vol().blk, t[n], x.size) ==
             Overwritten(FileBytes(s.blk, s.t[n], s.x.size), s.x.size, Zeros(x.size - s.x.size))
    ensures Filling(d, x, n, s, t, x.size)
  {
    hide Since, FileBytes, Overwritten;
  }

  /** The block that an iteration adds. After a full first pointer block it joins the inode. */
  method GrowAfterGap(d: Disk, x: TNode, ghost n: nat, ghost s: Start, ghost t: Table)
    returns (ok: bool, ghost t': Table, ghost p: nat, ghost b: nat)
    requires Since(d, x, n, s, t) && n in t && n in s.t && d.lk == s.lk && s.x.size <= x.size
    modifies d, d.bits, d.blocks, x`ptrs
    ensures Paid(ok, old(d.Vol()).bm, d.Vol().bm, AddCost(PtrBlocks(|t[n].data|), x.size))
    ensures ok ==> var k := AddPosition(PtrBlocks(|t[n].data|), x.size);
                   BlockStored(old(d.Vol()), old(x.ptrs), d.Vol(), x.ptrs, k / 1024, k % 1024, p, b)
    ensures ok && |t[n].data| == 1024 && x.size == 1024 * 4096 &&
            FileBytes(old(d.Vol()).blk, t[n], x.size) ==
            Overwritten(FileBytes(s.blk, s.t[n], s.x.size), s.x.size, Zeros(x.size - s.x.size)) ==>
              Filling(d, x, n, s, t', x.size)
  {
    hide Since, Holding, Follows, FileBytes, Overwritten, Filling, AddPosition, LowBits, Local, Displaced,
      BlockStored, CanGrow, Paid, AddCost;
    SinceIs(d, x, n, s, t);
    CanGrowAfter();
    ghost var blk, was := d.Vol().blk, Snapshot(d, t, x);
    ok, t', p, b := GrowNode(d, x, n, t);
    if ok && |t[n].data| == 1024 && x.size == 1024 * 4096 &&
       FileBytes(blk, t[n], x.size) ==
       Overwritten(FileBytes(s.blk, s.t[n], s.x.size), s.x.size, Zeros(x.size - s.x.size)) {
      GrewAfterGap(d, x, n, s, was, t, t');
    }
  }

  lemma CanGrowAfter()
    ensures CanGrow(1024, 1024 * 4096) && AddPosition(PtrBlocks(1024), 1024 * 4096) == 1024
  {
  }

  lemma GrewAfterGap(d: Disk, x: TNode, n: nat, s: Start, was: Start, t: Table, t': Table)
    requires n in t && n in s.t && was.t == t && Follows(s, was, n) && was.lk == s.lk
    requires |t[n].data| == 1024 && x.size == was.x.size == 1024 * 4096 && s.x.size <= x.size
    requires FileBytes(was.blk, t[n], x.size) ==
             Overwritten(FileBytes(s.blk, s.t[n], s.x.size), s.x.size, Zeros(x.size - s.x.size))
    requires was.x == x.Val().(ptrs := was.x.ptrs)
    requires Holding(d, t', x, n) && t' == t[n := t'[n]]
    requires |t'[n].data| == 1025 && t'[n].data[..1024] == t[n].data[..1024]
    requires LowBits(was.bm, d.Vol().bm) && Local(was.own, d.own, was.blk, d.Vol().blk, t[n], n)
    requires d.lk == was.lk + Displaced(t[n], 1024)
    ensures Filling(d, x, n, s, t', x.size)
  {
    hide Since, Holding, Follows, FileBytes, Overwritten, Filling, DataSame, LowBits, Local, Displaced;
    AddedHas(d, x, n, t, t', 1024, was);
    NothingDisplaced(t[n]);
    assert t[n].data[..1024] == t[n].data;
    FollowsTrans(s, was, Snapshot(d, t', x), n);
    GrownBytes(was.blk, d.Vol().blk, t[n], t'[n], x.size);
    SinceFrom(d, x, n, s, t');
    FilledIs(d, x, n, s, t');
  }

  /** What adding a block at position k means for a copy. */
  lemma AddedHas(d: Disk, x: TNode, n: nat, t: Table, t': Table, k: nat, was: Start)
    requires n in t && k <= |t[n].data| && was.t == t && was.x == x.Val().(ptrs := was.x.ptrs)
    requires Holding(d, t', x, n) && t' == t[n := t'[n]] && |t'[n].data| == k + 1 && t'[n].data[..k] == t[n].data[..k]
    requires LowBits(was.bm, d.Vol().bm) && Local(was.own, d.own, was.blk, d.Vol().blk, t[n], n)
    requires d.lk == was.lk + Displaced(t[n], k)
    ensures Holding(d, t', x, n) && n in t' && |t'[n].data| == k + 1 && t'[n].data[..k] == t[n].data[..k]
    ensures Follows(was, Snapshot(d, t', x), n) && d.lk == was.lk + Displaced(t[n], k)
    ensures DataSame(was.blk, d.Vol().blk, t[n])
  {
    hide Holding, LowBits, SameOwners, Untouched, DataSame, Displaced;
  }

  /** Bytes that were there before a block is added are the same after. */
  lemma GrownBytes(blk: seq<Block>, blk': seq<Block>, f: Extent, f': Extent, size: nat)
    requires DataSame(blk, blk', f) && |f.data| <= |f'.data| && f'.data[..|f.data|] == f.data && size <= 4096 * |f.data|
    ensures FileBytes(blk', f', size) == FileBytes(blk, f, size)
  {
    hide DataSame, FileBytes, DirEntries;
    SameBytes(blk, blk', f, size);
    PrefixBytes(blk', f', f, size);
  }

  lemma SinceFrom(d: Disk, x: TNode, n: nat, s: Start, t: Table)
    requires Holding(d, t, x, n) && Follows(s, Snapshot(d, t, x), n)
    ensures Since(d, x, n, s, t)
  {
    hide Holding, Follows;
  }

  /** The copy of one iteration. The block is looked up without its pointer block. */
  method WriteNulls(d: Disk, x: TNode, rest: nat, ghost n: nat, ghost t: Table) returns (nulls: nat)
    requires Holding(d, t, x, n) && |t[n].data| == x.size / 4096 + 1 && x.size < rest
    modifies d.blocks, x`size
    ensures nulls == Min(rest, 4096) - old(x.size) % 4096 && x.size == old(x.size) + nulls
    ensures Since(d, x, n, old(Snapshot(d, t, x)), t) && d.Vol().bm == old(d.Vol()).bm
    ensures PtrsSame(old(d.Vol()).blk, d.Vol().blk, t[n])
    ensures ZerosAt(old(d.Vol()).blk, d.Vol().blk, t[n], Zeroed(old(x.size), rest))
    ensures old(x.size) / 4096 < 1024 ==>
              FileBytes(d.Vol().blk, t[n], x.size) ==
              Overwritten(FileBytes(old(d.Vol()).blk, t[n], old(x.size)), old(x.size), Zeros(nulls))
  {
    hide *;
    Constants();
    SinceNow(d, x, n, t);
    HoldingIn(d, t, x, n);
    GapSizes(x.size, rest);
    SnapshotIs(d, x, t);
    ghost var blk, s := d.Vol().blk, Snapshot(d, t, x);
    var at := x.size % BLOCK_SIZE;
    nulls := Min(rest, BLOCK_SIZE) - at;
    var k := x.size / BLOCK_SIZE % 1024;
    WriteChunk(d, x, k, at, Zeros(nulls), n, t);
    ZerosPut(blk, d.Vol().blk, t[n], x.size, rest, nulls);
    if x.size / 4096 < 1024 {
      GapWrote(blk, d.Vol().blk, t[n], x.size, Zeros(nulls));
    }
    ghost var after := Start(d.Vol().bm, d.Vol().blk, d.own, d.lk, t, x.Val().(size := x.size + nulls));
    NullsFollow(d, x, n, t, s, after);
    x.size := x.size + nulls;
    SnapshotIs(d, x, t);
    StillHolds(d, x, n, t, s, after);
  }

  lemma ZerosPut(blk: seq<Block>, blk': seq<Block>, f: Extent, size: nat, rest: nat, nulls: nat)
    requires size < rest && nulls == Min(rest, 4096) - size % 4096
    requires ChunkPut(blk, blk', f, 4096 * (size / 4096 % 1024) + size % 4096, Zeros(nulls))
    ensures ZerosAt(blk, blk', f, Zeroed(size, rest))
  {
    hide ByteOf;
  }

  /** The state between the copy part of an iteration and its block. */
  lemma StepReady(d: Disk, x: TNode, n: nat, s: Start, t: Table)
    requires Since(d, x, n, s, t)
    ensures d.Sizes() && n in t && n in s.t && Follows(s, Snapshot(d, t, x), n) && Holding(d, t, x, n)
    ensures Sound(d.Vol().bm, t, d.own, d.lk) && Linked(d.Vol().blk, x.ptrs, t[n]) && |t[n].ptrs| < 1000
    ensures |d.Vol().blk| == TOTAL_BLOCKS && |t[n].ptrs| == PtrBlocks(|t[n].data|)
    ensures Snapshot(d, t, x) == Start(d.Vol().bm, d.Vol().blk, d.own, d.lk, t, x.Val())
    ensures x.Val().size == x.size && x.Val().ptrs == x.ptrs
    ensures d.Vol() == Vol(d.Vol().bm, d.Vol().blk)
  {
    PointersOf(d, t, x, n);
    hide Follows;
  }

  lemma HoldingIn(d: Disk, t: Table, x: TNode, n: nat)
    requires Holding(d, t, x, n)
    ensures n in t && d.Sizes()
  {
    hide Sound, Linked;
  }

  /** After the zeros are written, and with the size they give. */
  lemma NullsFollow(d: Disk, x: TNode, n: nat, t: Table, s: Start, after: Start)
    requires Holding(d, t, x, n) && s.x == x.Val() && s.t == t && s.own == d.own && s.bm == d.Vol().bm
    requires Untouched(d.own, s.blk, d.Vol().blk, n)
    requires after == Start(d.Vol().bm, d.Vol().blk, d.own, d.lk, t, x.Val().(size := after.x.size))
    ensures Follows(s, after, n) && Sound(after.bm, t, after.own, after.lk) && n < NODE_TABLE_BLOCKS && d.Sizes()
    ensures n in t && Linked(after.blk, after.x.ptrs, t[n])
  {
    SameOwnersRefl(d.own, n);
    hide Sound, Linked, SameOwners, Untouched;
  }

  lemma StillHolds(d: Disk, x: TNode, n: nat, t: Table, s: Start, after: Start)
    requires d.Sizes() && Snapshot(d, t, x) == after && Follows(s, after, n) && n < NODE_TABLE_BLOCKS
    requires Sound(after.bm, t, after.own, after.lk) && n in t && Linked(after.blk, after.x.ptrs, t[n])
    ensures Since(d, x, n, s, t) && d.Vol().bm == after.bm
  {
    hide Sound, Linked, Follows;
  }

  lemma OverwrittenNothing(s: seq<byte>, at: nat)
    requires at <= |s|
    ensures Overwritten(s, at, Zeros(0)) == s
  {
  }

  lemma GapWrote(blk: seq<Block>, blk': seq<Block>, f: Extent, size: nat, data: seq<byte>)
    requires ChunkPut(blk, blk', f, size, data) && size + |data| <= 4096 * |f.data|
    ensures FileBytes(blk', f, size + |data|) == Overwritten(FileBytes(blk, f, size), size, data)
  {
    hide ByteOf;
    forall i: nat | i < Max(size, size + |data|)
      ensures ByteOf(blk', f, i) == if size <= i < size + |data| then data[i - size] else ByteOf(blk, f, i)
    {
      assert i / 4096 < |f.data|;
    }
    WroteIs(blk, f, blk', f, size, size, data);
  }

  // ---------------------------------------------------------------- the whole write, on the copy

  lemma GapThenWrite(s: seq<byte>, at: nat, data: seq<byte>)
    ensures Overwritten(Overwritten(s, |s|, Zeros(Max(at, |s|) - |s|)), at, data) == Overwritten(s, at, data)
  {
    if at <= |s| {
      OverwrittenNothing(s, |s|);
    } else {
      assert Overwritten(s, |s|, Zeros(at - |s|)) == s + Zeros(at - |s|);
    }
  }

  /** Filling a gap below offset 4096 fills no earlier block. */
  lemma GapFillsNone(size: nat, offset: nat, pos: nat)
    requires offset <= pos && GapFits(size, offset)
    ensures Filled(Max(size, offset), offset, pos) == Filled(size, offset, pos)
    ensures Extra(Max(size, offset), offset, pos) == Extra(size, offset, pos)
  {
    if offset > size {
      if offset < 4096 {
        assert size / 4096 == 0 && offset / 4096 == 0;
      } else {
        assert size / 4096 == 1023 && offset / 4096 == 1024;
      }
    }
  }

  /** What sac_write has done to the copy and the blocks when its loops are over. */
  ghost predicate WriteDone(d: Disk, x: TNode, n: nat, s: Start, t: Table, offset: nat, buffer: seq<byte>)
    reads d, d.bits, d.blocks, x
  {
    var pos := offset + |buffer|;
    && Since(d, x, n, s, t)
    && x.size == Max(s.x.size, pos)
    && |t[n].data| == x.size / 4096 + 1 + Extra(s.x.size, offset, pos)
    && FileBytes(d.Vol().blk, t[n], x.size) == Overwritten(FileBytes(s.blk, s.t[n], s.x.size), offset, buffer)
    && s.lk <= d.lk
    && |d.lk| == |s.lk| + Filled(s.x.size, offset, pos) - Extra(s.x.size, offset, pos)
  }

  lemma SinceIs(d: Disk, x: TNode, n: nat, s: Start, t: Table)
    requires Since(d, x, n, s, t)
    ensures Follows(s, Snapshot(d, t, x), n) && Holding(d, t, x, n) && n in t && n in s.t
  {
    hide Sound, Linked, LowBits, SameOwners, Untouched;
  }

  lemma FillingIs(d: Disk, x: TNode, n: nat, s: Start, t: Table, upto: nat)
    requires n in s.t && s.x.size <= upto && Filling(d, x, n, s, t, upto)
    ensures Since(d, x, n, s, t) && n in t && d.lk == s.lk && x.size == upto && |t[n].data| == upto / 4096 + 1
    ensures FileBytes(d.Vol().blk, t[n], upto) ==
            Overwritten(FileBytes(s.blk, s.t[n], s.x.size), s.x.size, Zeros(upto - s.x.size))
  {
    hide Since, FileBytes, Overwritten;
  }

  /** The three parts of a write together: s is the start, s1 has a first block, s2 the gap filled. */
  lemma WholeWrite(d: Disk, x: TNode, n: nat, s: Start, s1: Start, s2: Start, t: Table, offset: nat, buffer: seq<byte>)
    requires Follows(s, s1, n) && Follows(s1, s2, n) && n in s.t && n in s1.t
    requires s1.lk == s.lk && s2.lk == s1.lk && s1.x.size == s.x.size
    requires FileBytes(s1.blk, s1.t[n], s1.x.size) == FileBytes(s.blk, s.t[n], s.x.size)
    requires s2.x.size == Max(s1.x.size, offset) && GapFits(s.x.size, offset) && n in s2.t
    requires FileBytes(s2.blk, s2.t[n], s2.x.size) ==
             Overwritten(FileBytes(s1.blk, s1.t[n], s1.x.size), s1.x.size, Zeros(s2.x.size - s1.x.size))
    requires Writing(d, x, n, s2, t, offset, buffer)
    ensures WriteDone(d, x, n, s, t, offset, buffer)
  {
    hide Sound, Linked, LowBits, SameOwners, Untouched, FileBytes, Overwritten, Wrote, Filled, Extra;
    FollowsTrans(s, s1, s2, n);
    FollowsTrans(s, s2, Snapshot(d, t, x), n);
    WroteIs(s2.blk, s2.t[n], d.Vol().blk, t[n], s2.x.size, offset, buffer);
    GapThenWrite(FileBytes(s.blk, s.t[n], s.x.size), offset, buffer);
    GapFillsNone(s.x.size, offset, offset + |buffer|);
  }

  /** What a write takes once the file has a block. */
  ghost function NeedsPast(size: nat, offset: nat, count: nat): nat
  {
    (if size < offset && 4096 <= offset then 2 else 0) + LoopNeeds(Max(size, offset), offset, offset + count)
  }

  lemma NeedsParts(blocks: bool, size: nat, offset: nat, count: nat)
    ensures WriteNeeds(blocks, size, offset, count) == (if blocks then 0 else 2) + NeedsPast(size, offset, count)
    ensures NeedsPast(size, offset, count) ==
            (if size < offset && 4096 <= offset then 2 else 0) + LoopNeeds(Max(size, offset), offset, offset + count)
    ensures size <= Max(size, offset) && offset <= Max(size, offset)
  {
    hide LoopNeeds;
  }

  method WriteCopy(d: Disk, x: TNode, buffer: seq<byte>, offset: nat, ghost n: nat, ghost t: Table)
    returns (ok: bool, ghost t': Table)
    requires Holding(d, t, x, n) && |t[n].data| == BlockCount(x.Val()) && (x.ptrs[0] == 0 ==> x.size == 0)
    requires GapFits(x.size, offset)
    modifies d, d.bits, d.blocks, x`ptrs, x`size
    ensures Paid(ok, old(d.Vol()).bm, d.Vol().bm, WriteNeeds(old(x.ptrs)[0] != 0, old(x.size), offset, |buffer|))
    ensures ok ==> WriteDone(d, x, n, old(Snapshot(d, t, x)), t', offset, buffer)
  {
    hide *;
    ghost var s := Snapshot(d, t, x);
    SnapshotIs(d, x, t);
    PointersOf(d, t, x, n);
    NeedsParts(x.ptrs[0] != 0, x.size, offset, |buffer|);
    ghost var c0 := if x.ptrs[0] == 0 then 2 else 0;
    ok, t' := EnsureFirstBlock(d, x, n, t);
    if !ok {
      PaidBoth(false, s.bm, d.Vol().bm, c0, false, d.Vol().bm, NeedsPast(s.x.size, offset, |buffer|));
      return;
    }
    ghost var s1, t1 := Snapshot(d, t', x), t';
    SinceIs(d, x, n, s, t1);
    SnapshotIs(d, x, t1);
    ghost var c1 := if x.size < offset && 4096 <= offset then 2 else 0;
    ok, t' := GapFill(d, x, offset, n, t1);
    PaidBoth(true, s.bm, s1.bm, c0, ok, d.Vol().bm, c1);
    if !ok {
      PaidBoth(false, s.bm, d.Vol().bm, c0 + c1, false, d.Vol().bm,
               LoopNeeds(Max(s.x.size, offset), offset, offset + |buffer|));
      return;
    }
    ghost var t2 := t';
    SnapshotIs(d, x, t2);
    FillingIs(d, x, n, s1, t2, Max(s1.x.size, offset));
    SinceIs(d, x, n, s1, t2);
    ghost var s2 := Snapshot(d, t2, x);
    ghost var s3;
    ok, s3, t' := WriteLoop(d, x, buffer, offset, n, t2);
    PaidBoth(true, s.bm, s2.bm, c0 + c1, ok, d.Vol().bm, LoopNeeds(Max(s.x.size, offset), offset, offset + |buffer|));
    if ok {
      WholeWrite(d, x, n, s, s1, s2, t', offset, buffer);
    }
  }
}
