/** Making an inode with its entry: file.c and the creating half of directory.c. */
module Creation {
  import opened Bytes
  import opened Layout
  import opened Volume
  import opened Graph
  import opened GraphOps
  import opened Inodes
  import opened Commits
  import opened DiskState
  import opened Bitmap
  import opened NodeOps
  import opened FreeSpace
  import opened FileWrite
  import opened FileStore
  import opened Directory
  import opened DirStore

  ghost predicate NodesFull(d: Disk)
    reads d.bits
  {
    Full(d.bits[..], NODE_TABLE_INITIAL_BLOCK, DATA_INITIAL_BLOCK)
  }

  /** While an inode is free, a directory has room for one more entry in its block. */
  lemma RoomForEntry(g: Graph, dir: nat, n: nat)
    requires Tree(g) && IsDir(g, dir) && n !in g && n < NODE_TABLE_BLOCKS
    ensures |g[dir].body.ents| <= 30
  {
    RootIsLive(g);
    NotOwnEntry(g, dir);
    EntriesBounded(g, dir, {0});
    FewerThanAll(g, n);
  }

  lemma NotOwnEntry(g: Graph, dir: nat)
    requires Tree(g) && IsDir(g, dir)
    ensures {0} !! Ids(g[dir].body.ents)
  {
    hide Tree;
    var ents := g[dir].body.ents;
    forall i | 0 <= i < |ents|
      ensures ents[i].id != 0
    {
      EntryParent(g, dir, i);
    }
  }

  lemma FewerThanAll(g: Graph, n: nat)
    requires Tree(g) && n !in g && n < NODE_TABLE_BLOCKS
    ensures |g| <= 31
  {
    var all := g.Keys + {n};
    LiveCount(all, NODE_TABLE_BLOCKS);
    assert |all| == |g.Keys| + 1;
  }

  /** Reserves an inode and stores a new one in it: create_and_save_dir_node and the first half of
      create_and_save_file_node. */
  method MakeNode(d: Disk, state: byte, name: Name, dir: nat, now: nat) returns (ok: bool, n: nat)
    requires d.Ok() && (state == 1 || state == 2) && |name| <= 70 && dir < NODE_TABLE_BLOCKS
    requires now < 0x1_0000_0000_0000_0000
    modifies d.bits, d.blocks
    ensures !ok ==> NodesFull(d) && d.Vol() == old(d.Vol())
    ensures ok ==> n < NODE_TABLE_BLOCKS && n !in old(GraphOf(d.Vol())) && d.Ok()
    ensures ok ==> GraphOf(d.Vol()) == old(GraphOf(d.Vol()))[n := Obj(dir + 2, EmptyBody(state))]
    ensures ok ==> |name| <= 70 && NodeAt(d.Vol().blk, n) == NewNode(state, name, dir + 2, now)
    ensures ok && 0 !in name ==>
              var x := NodeAt(d.Vol().blk, n);
              && x.state == state && CStr(x.name) == name && x.parent == dir + 2 && x.size == 0
              && x.ctime == now && x.mtime == now && |x.ptrs| == 1000 && forall i | 0 <= i < 1000 :: x.ptrs[i] == 0
    ensures ok ==> Full(old(d.Vol()).bm, NODE_TABLE_INITIAL_BLOCK, n + 2)
    ensures ok ==> forall b | 0 <= b < TOTAL_BLOCKS && b != n + 2 :: d.Vol().blk[b] == old(d.Vol()).blk[b]
    ensures ok ==> Room(d.Vol().bm) == Room(old(d.Vol()).bm)
  {
    hide VolOk, GraphOf, NewNode, NodeToBlock, NodeAt, Fits, EmptyBody, Full;
    ghost var v := d.Vol();
    VolSizes(v, d.own, d.lk);
    var b;
    ok, b := GetFreeNodeBlock(d);
    n := 0;
    if 0 !in name {
      NewNodeIs(state, name, dir + 2, now);
    }
    if ok {
      n := b - NODE_TABLE_INITIAL_BLOCK;
      var x := new TNode(NewNode(state, name, dir + 2, now));
      CommitNew(v, d.own, d.lk, n, state, name, dir + 2, now);
      NodeWritten(v.blk, n, NewNode(state, name, dir + 2, now));
      d.UnmapNode(x, n);
      RoomSame(v.bm, v.bm[b := true]);
    }
  }

  lemma VolSizes(v: Vol, own: Owners, lk: set<nat>)
    requires VolOk(v, own, lk)
    ensures |v.bm| == |v.blk| == TOTAL_BLOCKS
  {
  }

  /** The copy of a directory gets an entry and is written back. */
  method AddEntryAndUnmap(d: Disk, x: TNode, dir: nat, name: Name, id: nat) returns (ok: bool)
    requires d.Ok() && IsDir(GraphOf(d.Vol()), dir) && x.Val() == NodeAt(d.Vol().blk, dir)
    requires ValidName(name) && id < NODE_TABLE_BLOCKS
    modifies d, d.bits, d.blocks, x
    ensures d.Sizes()
    ensures ok && |old(GraphOf(d.Vol()))[dir].body.ents| <= 30 ==>
              var g := old(GraphOf(d.Vol()));
              && d.Ok() && d.lk == old(d.lk)
              && GraphOf(d.Vol()) == SetEntries(g, dir, g[dir].body.ents + [Entry(name, id)])
    ensures ok && |old(GraphOf(d.Vol()))[dir].body.ents| > 30 ==> TooLong(d.Vol(), dir)
    ensures EntryPaid(ok, old(d.Vol()), dir, d.Vol().bm)
  {
    hide *;
    ghost var v, lk := d.Vol(), d.lk;
    Constants();
    ok := AddEntryCopy(d, x, dir, name, id);
    VolParts(d);
    DirIn(GraphOf(v), dir);
    if ok {
      d.UnmapNode(x, dir);
      if |GraphOf(v)[dir].body.ents| <= 30 {
        EntryIsAdded(d, v, lk, dir, name, id);
      }
    }
  }

  lemma VolParts(d: Disk)
    ensures d.Vol() == Vol(d.bits[..], d.blocks[..])
  {
  }

  lemma SinceFollows(d: Disk, x: TNode, n: nat, s: Start, t: Table)
    requires Since(d, x, n, s, t)
    ensures Follows(s, Snapshot(d, t, x), n) && |d.Vol().blk| == TOTAL_BLOCKS && |x.ptrs| == 1000
  {
    hide Follows, Sound;
  }

  /** What adding an entry makes of a volume. */
  ghost predicate EntryAdds(v: Vol, lk: set<nat>, v': Vol, own': Owners, lk': set<nat>, dir: nat, name: Name, id: nat)
  {
    && IsDir(GraphOf(v), dir) && VolOk(v', own', lk') && lk' == lk
    && GraphOf(v') == SetEntries(GraphOf(v), dir, GraphOf(v)[dir].body.ents + [Entry(name, id)])
  }

  /** A directory whose entries fill its block to the end, which no sound volume has. */
  ghost predicate TooLong(v: Vol, dir: nat)
  {
    Live(v.bm, dir) && NodeAt(v.blk, dir).state == 2 && NodeAt(v.blk, dir).size == 4096
  }

  lemma TooLongIsWrong(v: Vol, dir: nat, own: Owners, lk: set<nat>)
    requires TooLong(v, dir)
    ensures !VolOk(v, own, lk)
  {
    hide Sound, NodeAt, TableOf;
    if VolOk(v, own, lk) {
      StoredLine(v, own, lk, dir);
      assert false;
    }
  }

  lemma DirOverfull(d: Disk, x: TNode, dir: nat, v: Vol, own: Owners, lk: set<nat>, t: Table)
    requires VolOk(v, own, lk) && IsDir(GraphOf(v), dir) && x.size == 4096 && |d.Vol().blk| == TOTAL_BLOCKS
    requires |x.ptrs| == 1000
    requires Follows(Start(v.bm, v.blk, own, lk, TableOf(v), NodeAt(v.blk, dir)), Snapshot(d, t, x), dir)
    ensures dir < NODE_TABLE_BLOCKS && Fits(x.Val())
    ensures TooLong(Vol(d.Vol().bm, d.Vol().blk[dir + 2 := NodeToBlock(x.Val())]), dir)
  {
    hide *;
    Constants();
    DirObj(v, dir);
    StoredLine(v, own, lk, dir);
    SnapshotIs(d, x, t);
    var s := Start(v.bm, v.blk, own, lk, TableOf(v), NodeAt(v.blk, dir));
    StillDir(s, Snapshot(d, t, x), dir);
    NodeWritten(d.Vol().blk, dir, x.Val());
    TooLongIs(Vol(d.Vol().bm, d.Vol().blk[dir + 2 := NodeToBlock(x.Val())]), dir, x.Val());
  }

  lemma StillDir(s: Start, s': Start, n: nat)
    requires Follows(s, s', n) && NodeOk(s.x) && s.x.state != 1 && Live(s.bm, n) && |s'.x.ptrs| == 1000
    requires s'.x.size == 4096
    ensures n < NODE_TABLE_BLOCKS && Live(s'.bm, n) && Fits(s'.x) && s'.x.state == 2
  {
    hide SameOwners, Untouched, BlockCount;
  }

  lemma TooLongIs(v: Vol, dir: nat, x: Node)
    requires Live(v.bm, dir) && NodeAt(v.blk, dir) == x && x.state == 2 && x.size == 4096
    ensures TooLong(v, dir)
  {
    hide NodeAt;
  }

  lemma DirIn(g: Graph, dir: nat)
    requires IsDir(g, dir)
    ensures dir in g && g[dir].body.Dir?
  {
  }

  lemma EntryIsAdded(d: Disk, v: Vol, lk: set<nat>, dir: nat, name: Name, id: nat)
    requires d.Sizes() && EntryAdds(v, lk, d.Vol(), d.own, d.lk, dir, name, id)
    ensures d.Ok() && d.lk == lk && IsDir(GraphOf(v), dir)
    ensures GraphOf(d.Vol()) == SetEntries(GraphOf(v), dir, GraphOf(v)[dir].body.ents + [Entry(name, id)])
  {
    hide VolOk, GraphOf, SetEntries;
  }

  /** The copy gets the entry. */
  method AddEntryCopy(d: Disk, x: TNode, dir: nat, name: Name, id: nat) returns (ok: bool)
    requires d.Ok() && IsDir(GraphOf(d.Vol()), dir) && x.Val() == NodeAt(d.Vol().blk, dir)
    requires ValidName(name) && id < NODE_TABLE_BLOCKS
    modifies d, d.bits, d.blocks, x
    ensures d.Sizes()
    ensures ok ==> dir < NODE_TABLE_BLOCKS && Fits(x.Val()) && |d.Vol().blk| == TOTAL_BLOCKS
    ensures ok ==> var v' := Vol(d.Vol().bm, d.Vol().blk[dir + 2 := NodeToBlock(x.Val())]);
                   if |old(GraphOf(d.Vol()))[dir].body.ents| <= 30 then
                     EntryAdds(old(d.Vol()), old(d.lk), v', d.own, d.lk, dir, name, id)
                   else
                     TooLong(v', dir)
    ensures EntryPaid(ok, old(d.Vol()), dir, d.Vol().bm)
  {
    hide *;
    Constants();
    ghost var v, own, lk := d.Vol(), d.own, d.lk;
    DiskSound(d);
    DirReady(d, x, dir);
    RoomInCopy(d, x, dir);
    ghost var s, size := Snapshot(d, TableOf(v), x), x.size;
    ghost var t;
    ok, t := AddDirectoryEntry(d, x, name, id, dir, TableOf(v));
    EntryPaidIs(ok, v, dir, size, d.Vol().bm);
    DirIn(GraphOf(v), dir);
    if ok {
      SinceFollows(d, x, dir, s, t);
      if |GraphOf(v)[dir].body.ents| <= 30 {
        DirChanged(d, x, dir, v, own, lk, t);
        EntryAddsIs(d, x, dir, name, id, v, lk, t);
      } else {
        DirOverfull(d, x, dir, v, own, lk, t);
      }
    }
  }

  /** The first entry of a directory takes two blocks, and any other none. */
  ghost predicate EntryPaid(ok: bool, v: Vol, dir: nat, bm: seq<bool>)
    requires IsDir(GraphOf(v), dir)
  {
    Paid(ok, v.bm, bm, if GraphOf(v)[dir].body.ents == [] then 2 else 0)
  }

  lemma EntryPaidIs(ok: bool, v: Vol, dir: nat, size: nat, bm: seq<bool>)
    requires IsDir(GraphOf(v), dir) && size == 128 * |GraphOf(v)[dir].body.ents|
    requires Paid(ok, v.bm, bm, if size == 0 then 2 else 0)
    ensures EntryPaid(ok, v, dir, bm)
  {
    hide GraphOf, Paid;
  }

  lemma DiskSound(d: Disk)
    requires d.Ok()
    ensures d.Sizes() && VolOk(d.Vol(), d.own, d.lk)
  {
  }

  lemma RoomInCopy(d: Disk, x: TNode, dir: nat)
    requires d.Ok() && IsDir(GraphOf(d.Vol()), dir) && x.Val() == NodeAt(d.Vol().blk, dir)
    requires DirCopy(d, x, dir, TableOf(d.Vol()))
    requires EntriesIn(d, x, dir, TableOf(d.Vol())) == GraphOf(d.Vol())[dir].body.ents
    ensures x.size <= 3968 && (x.size == 0 ==> GraphOf(d.Vol())[dir].body.ents == [])
    ensures x.size == 128 * |GraphOf(d.Vol())[dir].body.ents|
  {
    hide VolOk, GraphOf, TableOf, NodeAt;
  }

  lemma EntryAddsIs(d: Disk, x: TNode, dir: nat, name: Name, id: nat, v: Vol, lk: set<nat>, t: Table)
    requires d.Sizes() && IsDir(GraphOf(v), dir) && dir < NODE_TABLE_BLOCKS && Fits(x.Val()) && DirCopy(d, x, dir, t)
    requires EntriesIn(d, x, dir, t) == GraphOf(v)[dir].body.ents + [Entry(name, id)] && d.lk == lk
    requires |d.Vol().blk| == TOTAL_BLOCKS
    requires var v' := Vol(d.Vol().bm, d.Vol().blk[dir + 2 := NodeToBlock(x.Val())]);
             VolOk(v', d.own, d.lk) && GraphOf(v') == SetEntries(GraphOf(v), dir, EntriesIn(d, x, dir, t))
    ensures EntryAdds(v, lk, Vol(d.Vol().bm, d.Vol().blk[dir + 2 := NodeToBlock(x.Val())]), d.own, d.lk, dir, name, id)
  {
    hide VolOk, GraphOf, NodeToBlock, DirCopy, EntriesIn;
  }

  /** A changed directory copy, about to be written back. */
  lemma DirChanged(d: Disk, x: TNode, dir: nat, v: Vol, own: Owners, lk: set<nat>, t: Table)
    requires VolOk(v, own, lk) && IsDir(GraphOf(v), dir) && DirCopy(d, x, dir, t)
    requires Follows(Start(v.bm, v.blk, own, lk, TableOf(v), NodeAt(v.blk, dir)), Snapshot(d, t, x), dir)
    ensures d.Sizes() && dir < NODE_TABLE_BLOCKS && Fits(x.Val())
    ensures var v' := Vol(d.Vol().bm, d.Vol().blk[dir + 2 := NodeToBlock(x.Val())]);
            && VolOk(v', d.own, d.lk)
            && NodeAt(v'.blk, dir) == x.Val()
            && GraphOf(v') == SetEntries(GraphOf(v), dir, EntriesIn(d, x, dir, t))
  {
    DirFits(v, dir);
    hide VolOk, GraphOf, TableOf, NodeAt, DirEntries, NodeToBlock, Sound, Linked, LowBits, SameOwners, Untouched;
    CommitDir(v, own, lk, Snapshot(d, t, x), dir);
  }

  lemma DirFits(v: Vol, n: nat)
    requires IsDir(GraphOf(v), n)
    ensures Fits(NodeAt(v.blk, n))
  {
  }
}
