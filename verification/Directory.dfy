/** directory.c: the entries of a directory held in memory. */
module Directory {
  import opened Bytes
  import opened Layout
  import opened Volume
  import opened Graph
  import opened Inodes
  import opened Commits
  import opened Growth
  import opened DiskState
  import opened NodeOps
  import opened FreeSpace
  import opened FileWrite
  import opened Iterate

  /** The entries the copy of a directory has. */
  ghost function EntriesIn(d: Disk, x: TNode, n: nat, t: Table): (s: seq<Entry>)
    requires n in t
    reads d.blocks, x
  {
    DirEntries(d.blocks[..], t[n], x.size)
  }

  /** A directory in memory: a whole number of entries in one data block, and no block when empty. */
  ghost predicate DirCopy(d: Disk, x: TNode, n: nat, t: Table)
    reads d, d.bits, d.blocks, x
  {
    && Holding(d, t, x, n) && x.state == 2
    && x.size % 128 == 0 && x.size <= 3968
    && |t[n].data| == (if x.size == 0 then 0 else 1)
  }

  lemma DirShape(d: Disk, x: TNode, n: nat, t: Table)
    requires DirCopy(d, x, n, t)
    ensures n in t && (x.ptrs[0] == 0 <==> x.size == 0) && |x.ptrs| == 1000
    ensures x.size / 4096 == 0 && x.size % 4096 == x.size && |t[n].data| == BlockCount(x.Val())
    ensures |t[n].ptrs| == |t[n].data|
  {
    HoldingHas(d, t, x, n);
    hide Holding;
  }

  lemma StretchIs(blk: seq<Block>, f: Extent, size: nat, seen: seq<Entry>)
    requires Stretch(blk, f, 0, seen) && |seen| <= size / 128
    ensures seen == DirEntries(blk, f, size)[..|seen|]
  {
    hide EntryOf;
  }

  lemma {:induction false} IndexIs(ents: seq<Entry>, name: Name, k: nat)
    requires k < |ents| && ents[k].name == name && forall j | 0 <= j < k :: ents[j].name != name
    ensures IndexOf(ents, name) == k
  {
    IndexOfIsFirst(ents, name);
  }

  lemma NotFoundIndex(ents: seq<Entry>, name: Name)
    requires forall j | 0 <= j < |ents| :: ents[j].name != name
    ensures IndexOf(ents, name) == |ents|
  {
  }

  /** The iteration that looks for a name stops at the first entry of that name. */
  lemma FindIsIndex(visit: Visit, ents: seq<Entry>, seen: seq<Entry>, stopped: bool)
    requires visit.Find? && visit.name != [] && Visited(visit, seen, stopped)
    requires |seen| <= |ents| && seen == ents[..|seen|] && (!stopped ==> |seen| == |ents|)
    ensures IndexOf(ents, visit.name) == if stopped then |seen| - 1 else |ents|
  {
    forall j | 0 <= j < |seen|
      ensures seen[j] == ents[j]
    {
    }
    if stopped {
      IndexIs(ents, visit.name, |seen| - 1);
    } else {
      NotFoundIndex(ents, visit.name);
    }
  }

  /** get_entry: the inode number of the first entry of that name. */
  method GetEntry(d: Disk, x: TNode, name: Name, ghost n: nat, ghost t: Table) returns (r: Option<nat>)
    requires DirCopy(d, x, n, t) && name != []
    ensures n in t && r == Lookup(EntriesIn(d, x, n, t), name)
  {
    DirShape(d, x, n, t);
    hide Holding, Stretch, Visited, LastAt, IndexOf;
    var stopped, place, seen := IteratePointers(d, x, Find(name), n, t);
    ghost var ents := EntriesIn(d, x, n, t);
    StretchIs(d.Vol().blk, t[n], x.size, seen);
    FindIsIndex(Find(name), ents, seen, stopped);
    r := if stopped then Some(seen[|seen| - 1].id) else None;
    assert stopped ==> |seen| > 0 && seen[|seen| - 1] == ents[|seen| - 1] by { VisitedLast(Find(name), seen, stopped); }
  }

  lemma VisitedLast(visit: Visit, seen: seq<Entry>, stopped: bool)
    requires Visited(visit, seen, stopped)
    ensures stopped ==> |seen| > 0
  {
  }

  /** The iteration of sac_readdir: all entries in order, as many as the size says. */
  method ListEntries(d: Disk, x: TNode, ghost n: nat, ghost t: Table) returns (seen: seq<Entry>)
    requires DirCopy(d, x, n, t)
    ensures n in t && seen == EntriesIn(d, x, n, t) && |seen| == x.size / 128
  {
    DirShape(d, x, n, t);
    hide Holding, Stretch, LastAt;
    var stopped, place;
    stopped, place, seen := IteratePointers(d, x, All, n, t);
    StretchIs(d.Vol().blk, t[n], x.size, seen);
  }

  // ---------------------------------------------------------------- adding an entry

  /** One more entry at the end of the only data block. */
  lemma EntryAdded(blk: seq<Block>, f: Extent, size: nat, e: Entry, junk: seq<byte>)
    requires |f.data| == 1 && f.data[0] < |blk| && size % 128 == 0 && size <= 3968
    requires e.id < 0x1_0000_0000 && |e.name| + |junk| == 123 && 0 !in e.name
    ensures var b := f.data[0];
            DirEntries(blk[b := PutEntry(blk[b], size / 128, e, junk)], f, size + 128) == DirEntries(blk, f, size) + [e]
  {
    hide EntryIn, PutEntry;
    var b, k := f.data[0], size / 128;
    var r, s := DirEntries(blk[b := PutEntry(blk[b], k, e, junk)], f, size + 128), DirEntries(blk, f, size) + [e];
    forall j | 0 <= j < |r|
      ensures r[j] == s[j]
    {
      PutEntryRoundTrip(blk[b], k, e, junk, j);
      if j < k {
        assert s[j] == DirEntries(blk, f, size)[j];
      }
    }
  }

  /** The first entry's blocks are made, or the only data block is found. */
  method ReadNextDataBlock(d: Disk, x: TNode, ghost n: nat, ghost t: Table) returns (ok: bool, b: nat, ghost t': Table)
    requires DirCopy(d, x, n, t)
    modifies d, d.bits, d.blocks, x`ptrs
    ensures ok ==> Since(d, x, n, old(Snapshot(d, t, x)), t') && d.lk == old(d.lk)
    ensures ok ==> t'[n].data == [b] && InRegion(b)
    ensures ok ==> EntriesIn(d, x, n, t') == old(EntriesIn(d, x, n, t))
    ensures Paid(ok, old(d.Vol()).bm, d.Vol().bm, if old(x.size) == 0 then 2 else 0)
  {
    hide Follows, Holding, DirEntries, DataSame, Snapshot, Room;
    DirShape(d, x, n, t);
    DirHolds(d, x, n, t);
    SinceNow(d, x, n, t);
    var pointerBlock, block := x.size / BLOCK_SIZE / 1024, x.size / BLOCK_SIZE % 1024;
    ok, t' := true, t;
    if x.ptrs[pointerBlock] == 0 {
      ok, t' := FirstBlock(d, x, n, t);
      if !ok {
        b := 0;
        return;
      }
    }
    b := BlockNumber(d, x, 1024 * pointerBlock + block, n, t');
  }

  lemma DirHolds(d: Disk, x: TNode, n: nat, t: Table)
    requires DirCopy(d, x, n, t)
    ensures Holding(d, t, x, n)
  {
    hide Holding;
  }

  /** An empty directory gets its pointer block and its data block. */
  method FirstBlock(d: Disk, x: TNode, ghost n: nat, ghost t: Table) returns (ok: bool, ghost t': Table)
    requires DirCopy(d, x, n, t) && x.size == 0
    modifies d, d.bits, d.blocks, x`ptrs
    ensures ok ==> Since(d, x, n, old(Snapshot(d, t, x)), t') && d.lk == old(d.lk)
    ensures ok ==> |t'[n].data| == 1 && EntriesIn(d, x, n, t') == []
    ensures Paid(ok, old(d.Vol()).bm, d.Vol().bm, 2)
  {
    DirShape(d, x, n, t);
    hide Sound, Linked, LowBits, SameOwners, Untouched, Displaced, DataSame, EntryIn, Paid;
    assert Displaced(t[n], 0) == {} by { NothingDisplaced(t[n]); }
    ok, t' := AddInNewPointerBlock(d, x, 0, n, t);
  }

  /** The two copies of add_directory_entry, the size, and what they come to. */
  method PutLastEntry(d: Disk, x: TNode, b: nat, name: Name, id: nat, ghost n: nat, ghost s: Start, ghost t: Table)
    requires Since(d, x, n, s, t) && t[n].data == [b] && x.size % 128 == 0 && x.size <= 3968 && x.state == 2
    requires ValidName(name) && id < 0x1_0000_0000
    modifies d.blocks, x`size
    ensures Since(d, x, n, s, t) && x.size == old(x.size) + 128 && (x.size <= 3968 ==> DirCopy(d, x, n, t))
    ensures EntriesIn(d, x, n, t) == old(EntriesIn(d, x, n, t)) + [Entry(name, id)]
  {
    hide Sound, Linked, Follows, PutEntry, EntryIn, DirEntries, ValidName, Since, DirCopy;
    ghost var blk := d.Vol().blk;
    SinceHas(d, x, n, s, t);
    NameLength(name);
    assert |seq(123 - |name|, _ => 0)| == 123 - |name|;
    var junk: seq<byte> :| |junk| == 123 - |name|;
    PutLast(d, x, n, s, t, name, id, junk);
    var y := PutEntry(d.blocks[b], x.size / 128, Entry(name, id), junk);
    ghost var after := Start(d.Vol().bm, blk[b := y], d.own, d.lk, t, x.Val().(size := x.size + 128));
    d.WriteBlock(b, y);
    x.size := x.size + 128;
    assert Snapshot(d, t, x) == after;
    PutDone(d, x, n, s, t);
  }

  lemma NameLength(name: Name)
    requires ValidName(name)
    ensures |name| <= 70
  {
  }

  lemma SinceHas(d: Disk, x: TNode, n: nat, s: Start, t: Table)
    requires Since(d, x, n, s, t)
    ensures n in t && n < NODE_TABLE_BLOCKS && d.Sizes() && Sound(d.Vol().bm, t, d.own, d.lk)
    ensures |d.Vol().blk| == TOTAL_BLOCKS
  {
    hide Sound, Linked, LowBits, SameOwners;
  }

  lemma PutDone(d: Disk, x: TNode, n: nat, s: Start, t: Table)
    requires d.Sizes() && Sound(d.Vol().bm, t, d.own, d.lk) && n in t && n < NODE_TABLE_BLOCKS
    requires Linked(d.Vol().blk, x.ptrs, t[n]) && Follows(s, Snapshot(d, t, x), n)
    requires |t[n].data| == 1 && 0 < x.size && x.size % 128 == 0 && x.state == 2
    ensures Since(d, x, n, s, t) && (x.size <= 3968 ==> DirCopy(d, x, n, t))
  {
    hide Sound, Linked, Follows;
  }

  lemma PutLast(d: Disk, x: TNode, n: nat, s: Start, t: Table, name: Name, id: nat, junk: seq<byte>)
    requires Since(d, x, n, s, t) && |t[n].data| == 1 && x.size % 128 == 0 && x.size <= 3968
    requires ValidName(name) && id < 0x1_0000_0000 && |junk| == 123 - |name|
    ensures d.Sizes() && t[n].data[0] < TOTAL_BLOCKS
    ensures var b := t[n].data[0];
            var blk, e := d.Vol().blk, Entry(name, id);
            var blk' := blk[b := PutEntry(blk[b], x.size / 128, e, junk)];
            && Linked(blk', x.ptrs, t[n])
            && Follows(s, Start(d.Vol().bm, blk', d.own, d.lk, t, x.Val().(size := x.size + 128)), n)
            && DirEntries(blk', t[n], x.size + 128) == DirEntries(blk, t[n], x.size) + [e]
  {
    KnownSlot(d.Vol().bm, d.Vol().blk, t, d.own, d.lk, n, x.ptrs, 0);
    hide Sound, Linked, LowBits, SameOwners, Untouched, PutEntry, DirEntries;
    var b, blk := t[n].data[0], d.Vol().blk;
    var y := PutEntry(blk[b], x.size / 128, Entry(name, id), junk);
    WriteData(d.Vol().bm, blk, t, d.own, d.lk, n, x.ptrs, 0, y);
    UntouchedTrans(s.own, d.own, s.blk, blk, blk[b := y], n);
    EntryAdded(blk, t[n], x.size, Entry(name, id), junk);
  }

  /** add_directory_entry: the entry goes after the last. The directory stays well formed up to 31 entries. */
  method AddDirectoryEntry(d: Disk, x: TNode, name: Name, id: nat, ghost n: nat, ghost t: Table)
    returns (ok: bool, ghost t': Table)
    requires DirCopy(d, x, n, t) && ValidName(name) && id < 0x1_0000_0000
    modifies d, d.bits, d.blocks, x`ptrs, x`size
    ensures ok ==> Since(d, x, n, old(Snapshot(d, t, x)), t') && d.lk == old(d.lk)
    ensures ok ==> x.size == old(x.size) + 128 && (x.size <= 3968 ==> DirCopy(d, x, n, t'))
    ensures ok ==> EntriesIn(d, x, n, t') == old(EntriesIn(d, x, n, t)) + [Entry(name, id)]
    ensures Paid(ok, old(d.Vol()).bm, d.Vol().bm, if old(x.size) == 0 then 2 else 0)
  {
    hide Holding, Follows, DirEntries, Paid;
    ghost var s := Snapshot(d, t, x);
    var b;
    ok, b, t' := ReadNextDataBlock(d, x, n, t);
    if ok {
      assert x.state == 2 by { FollowsState(s, Snapshot(d, t', x), n); }
      PutLastEntry(d, x, b, name, id, n, s, t');
    }
  }

  lemma FollowsState(s: Start, s': Start, n: nat)
    requires Follows(s, s', n)
    ensures s'.x.state == s.x.state && n in s'.t && n in s.t
  {
  }

  // ---------------------------------------------------------------- deleting an entry

  /** The left shift removes one entry and keeps the order of the rest. */
  lemma EntryDropped(blk: seq<Block>, f: Extent, size: nat, k: nat)
    requires |f.data| == 1 && f.data[0] < |blk| && size % 128 == 0 && size <= 3968 && k < size / 128
    ensures var b := f.data[0];
            DirEntries(blk[b := DropEntry(blk[b], k)], f, size - 128) == RemoveAt(DirEntries(blk, f, size), k)
  {
    hide EntryIn, DropEntry;
    var b := f.data[0];
    var ents := DirEntries(blk, f, size);
    var r, s := DirEntries(blk[b := DropEntry(blk[b], k)], f, size - 128), RemoveAt(ents, k);
    forall j | 0 <= j < |r|
      ensures r[j] == s[j]
    {
      DropEntryAt(blk[b], k, j);
      if j < k {
        assert s[j] == ents[j];
      } else {
        assert s[j] == ents[j + 1];
      }
    }
  }

  /** The shift, as a change of the copy's volume. */
  lemma DropLinks(d: Disk, x: TNode, n: nat, t: Table, k: nat)
    requires DirCopy(d, x, n, t) && k < x.size / 128
    ensures n in t && |t[n].data| == 1 && t[n].data[0] < TOTAL_BLOCKS && d.Sizes() && n < NODE_TABLE_BLOCKS
    ensures Sound(d.Vol().bm, t, d.own, d.lk)
    ensures var b, blk := t[n].data[0], d.Vol().blk;
            var blk' := blk[b := DropEntry(blk[b], k)];
            && Linked(blk', x.ptrs, t[n])
            && Follows(Snapshot(d, t, x), Start(d.Vol().bm, blk', d.own, d.lk, t, x.Val().(size := x.size - 128)), n)
            && DirEntries(blk', t[n], x.size - 128) == RemoveAt(DirEntries(blk, t[n], x.size), k)
  {
    KnownSlot(d.Vol().bm, d.Vol().blk, t, d.own, d.lk, n, x.ptrs, 0);
    SinceNow(d, x, n, t);
    hide Sound, Linked, Untouched, LowBits, SameOwners, DropEntry, DirEntries;
    var b, blk := t[n].data[0], d.Vol().blk;
    WriteData(d.Vol().bm, blk, t, d.own, d.lk, n, x.ptrs, 0, DropEntry(blk[b], k));
    EntryDropped(blk, t[n], x.size, k);
  }

  /** The first entry of a name goes, by a shift in its block. */
  method ShiftOver(d: Disk, x: TNode, block: nat, at: nat, ghost k: nat, ghost n: nat, ghost t: Table)
    requires DirCopy(d, x, n, t) && k < x.size / 128 && t[n].data == [block] && at == 128 * k
    modifies d.blocks, x`size
    ensures Holding(d, t, x, n) && x.size == old(x.size) - 128 && |t[n].data| == 1
    ensures Follows(old(Snapshot(d, t, x)), Snapshot(d, t, x), n)
    ensures EntriesIn(d, x, n, t) == RemoveAt(old(EntriesIn(d, x, n, t)), k)
  {
    hide Sound, Linked, Follows, DropEntry, DirEntries, DirCopy, RemoveAt;
    DropLinks(d, x, n, t, k);
    DirShape(d, x, n, t);
    DirIsShort(d, x, n, t);
    var i := at / DIR_ENTRY_SIZE;
    assert i == k;
    ghost var blk := d.Vol().blk;
    var y := DropEntry(d.blocks[block], i);
    ghost var after := Start(d.Vol().bm, blk[block := y], d.own, d.lk, t, x.Val().(size := x.size - 128));
    d.WriteBlock(block, y);
    x.size := x.size - DIR_ENTRY_SIZE;
    assert Snapshot(d, t, x) == after;
  }

  lemma DirIsShort(d: Disk, x: TNode, n: nat, t: Table)
    requires DirCopy(d, x, n, t)
    ensures x.size <= 3968 && x.size % 128 == 0
  {
    hide Holding;
  }

  /** An emptied directory forgets its two blocks without freeing them. */
  lemma ForgetOnly(bm: seq<bool>, blk: seq<Block>, t: Table, own: Owners, lk: set<nat>, n: nat, ptrs: seq<u32>)
    requires Sound(bm, t, own, lk) && n in t && Linked(blk, ptrs, t[n]) && |t[n].data| == 1
    ensures Sized(t[n]) && |ptrs| == 1000
    ensures Sound(bm, t[n := Shorter(t[n])], own - Dropped(t[n]), lk + Dropped(t[n]))
    ensures Linked(blk, ptrs[0 := 0], Shorter(t[n])) && Shorter(t[n]) == Extent([], [])
    ensures SameOwners(own, own - Dropped(t[n]), n) && |lk + Dropped(t[n])| == |lk| + 2
  {
    UnlinkSound(bm, t, own, lk, n);
    DropOwners(bm, t, own, lk, n);
    DroppedNotLeaked(bm, t, own, lk, n);
    LinkShorter(blk, ptrs, t[n]);
    hide Sound, Linked, SameOwners;
    assert Dropped(t[n]) == {t[n].data[0], t[n].ptrs[0]};
  }

  lemma Forgets(d: Disk, x: TNode, n: nat, t: Table)
    requires Holding(d, t, x, n) && |t[n].data| == 1
    ensures d.Sizes() && n in t && n < NODE_TABLE_BLOCKS && Sized(t[n]) && |x.ptrs| == 1000
    ensures var gone, t', y := Dropped(t[n]), t[n := Extent([], [])], x.Val().(ptrs := x.ptrs[0 := 0]);
            && Sound(d.Vol().bm, t', d.own - gone, d.lk + gone) && Linked(d.Vol().blk, x.ptrs[0 := 0], t'[n])
            && Follows(Snapshot(d, t, x),
                       Start(d.Vol().bm, d.Vol().blk, d.own - gone, d.lk + gone, t', y), n)
            && |d.lk + gone| == |d.lk| + 2
  {
    SinceNow(d, x, n, t);
    hide Sound, Linked, LowBits, SameOwners, Untouched, Dropped, Shorter;
    ForgetOnly(d.Vol().bm, d.Vol().blk, t, d.own, d.lk, n, x.ptrs);
  }

  /** The end of delete_directory_entry: the last entry takes the blocks with it. */
  method ForgetIfEmpty(d: Disk, x: TNode, ghost n: nat, ghost t: Table) returns (ghost t': Table)
    requires Holding(d, t, x, n) && |t[n].data| == 1 && x.size % 128 == 0 && x.size <= 3968
    modifies d, x`ptrs
    ensures Holding(d, t', x, n) && x.size == old(x.size) && |t'[n].data| == if x.size == 0 then 0 else 1
    ensures Follows(old(Snapshot(d, t, x)), Snapshot(d, t', x), n)
    ensures old(d.lk) <= d.lk && |d.lk| == |old(d.lk)| + if x.size == 0 then 2 else 0
    ensures EntriesIn(d, x, n, t') == old(EntriesIn(d, x, n, t))
  {
    t' := t;
    SinceNow(d, x, n, t);
    if x.size == 0 {
      t' := Forget(d, x, n, t);
    } else {
      hide Holding, Follows;
    }
  }

  method Forget(d: Disk, x: TNode, ghost n: nat, ghost t: Table) returns (ghost t': Table)
    requires Holding(d, t, x, n) && |t[n].data| == 1 && x.size == 0
    modifies d, x`ptrs
    ensures Holding(d, t', x, n) && |t'[n].data| == 0
    ensures Follows(old(Snapshot(d, t, x)), Snapshot(d, t', x), n)
    ensures old(d.lk) <= d.lk && |d.lk| == |old(d.lk)| + 2
  {
    Forgets(d, x, n, t);
    hide Sound, Linked, Follows, Dropped;
    x.ptrs := x.ptrs[0 := 0];
    d.own, d.lk := d.own - Dropped(t[n]), d.lk + Dropped(t[n]);
    t' := t[n := Extent([], [])];
  }

  /** delete_directory_entry: the first entry of the name goes and the order of the others stays. When it
      was the only one, the pointer block and the data block are leaked. */
  method DeleteDirectoryEntry(d: Disk, x: TNode, name: Name, ghost n: nat, ghost t: Table) returns (ghost t': Table)
    requires DirCopy(d, x, n, t) && name != []
    modifies d, d.blocks, x`ptrs, x`size
    ensures DirCopy(d, x, n, t') && Follows(old(Snapshot(d, t, x)), Snapshot(d, t', x), n)
    ensures var ents := old(EntriesIn(d, x, n, t));
            var i := IndexOf(ents, name);
            if i == |ents| then
              EntriesIn(d, x, n, t') == ents && d.lk == old(d.lk)
            else
              && EntriesIn(d, x, n, t') == RemoveAt(ents, i)
              && old(d.lk) <= d.lk && |d.lk| == |old(d.lk)| + if |ents| == 1 then 2 else 0
  {
    hide Holding, Follows, DirEntries, IndexOf, RemoveAt;
    DirShape(d, x, n, t);
    t' := t;
    ghost var s := Snapshot(d, t, x);
    var stopped, place, seen := FindEntry(d, x, name, n, t);
    if stopped {
      ghost var i := IndexOf(EntriesIn(d, x, n, t), name);
      ShiftOver(d, x, place.block, place.at, i, n, t);
      ghost var s1 := Snapshot(d, t, x);
      t' := ForgetIfEmpty(d, x, n, t);
      FollowsTrans(s, s1, Snapshot(d, t', x), n);
      FollowsState(s, Snapshot(d, t', x), n);
    } else {
      FollowsRefl(s, n);
    }
  }

  lemma FollowsRefl(s: Start, n: nat)
    requires n in s.t && |s.bm| == TOTAL_BLOCKS && |s.blk| == TOTAL_BLOCKS
    ensures Follows(s, s, n)
  {
  }

  /** The iteration of delete_directory_entry: where the entry to delete is. */
  method FindEntry(d: Disk, x: TNode, name: Name, ghost n: nat, ghost t: Table)
    returns (stopped: bool, place: Place, seen: seq<Entry>)
    requires DirCopy(d, x, n, t) && name != []
    ensures n in t && d.Sizes()
    ensures var ents := EntriesIn(d, x, n, t);
            var i := IndexOf(ents, name);
            && (stopped <==> i < |ents|)
            && (stopped ==> i < x.size / 128 && t[n].data == [place.block] && place.at == 128 * i)
  {
    DirShape(d, x, n, t);
    hide Holding, Stretch, Visited, LastAt, IndexOf;
    stopped, place, seen := IteratePointers(d, x, Find(name), n, t);
    ghost var ents := EntriesIn(d, x, n, t);
    StretchIs(d.Vol().blk, t[n], x.size, seen);
    FindIsIndex(Find(name), ents, seen, stopped);
    if stopped {
      VisitedLast(Find(name), seen, stopped);
      OnlyBlock(t[n], seen, place);
    }
  }

  lemma OnlyBlock(f: Extent, seen: seq<Entry>, place: Place)
    requires LastAt(f, 0, seen, place) && 0 < |seen| <= 31 && |f.data| <= 1
    ensures f.data == [place.block] && place.at == 128 * (|seen| - 1)
  {
  }
}
