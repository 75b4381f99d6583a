/** The bytes of an inode's name after its NUL. create_node copies a name with strcpy into fresh memory, so
    reading an inode and writing it back may change them; everywhere else the model reads that copy as one of
    all 71 bytes. Here the copy is taken as it is, and those bytes are proved not to matter. */
module NameTails {
  import opened Bytes
  import opened Layout
  import opened Volume
  import opened Inodes

  /** strcpy of a terminated name over what the 71 bytes of new memory held. */
  function Strcpied(name: seq<byte>, heap: seq<byte>): (r: seq<byte>)
    requires |name| == |heap| == 71 && 0 in name
    ensures |r| == 71
  {
    CStrShort(name);
    CStr(name) + [0] + heap[|CStr(name)| + 1..]
  }

  /** block_to_node: all fields as they are, but the name through create_node. */
  function ReadBlock(b: Block, heap: seq<byte>): (x: Node)
    requires |heap| == 71 && 0 in b[1..72]
    ensures Fits(x)
  {
    BlockToNode(b).(name := Strcpied(b[1..72], heap))
  }

  /** The same inode: every field, and the name as a string. */
  ghost predicate SameInode(x: Node, y: Node)
  {
    x == y.(name := x.name) && CStr(x.name) == CStr(y.name)
  }

  /** The same block but for the bytes after the name's NUL. */
  ghost predicate SameButTail(b: Block, c: Block)
  {
    b[0] == c[0] && CStr(b[1..72]) == CStr(c[1..72]) && b[72..] == c[72..]
  }

  lemma StrcpiedIs(name: seq<byte>, heap: seq<byte>)
    requires |name| == |heap| == 71 && 0 in name
    ensures CStr(Strcpied(name, heap)) == CStr(name) && 0 in Strcpied(name, heap)
  {
    CStrShort(name);
    CStrOf(CStr(name), heap[|CStr(name)| + 1..]);
    assert Strcpied(name, heap)[|CStr(name)|] == 0;
  }

  /** An inode written to a block and read back is the same in every field, whatever the memory held. */
  lemma NodeCopyRoundTrip(x: Node, heap: seq<byte>)
    requires Fits(x) && 0 in x.name && |heap| == 71
    ensures 0 in NodeToBlock(x)[1..72] && SameInode(ReadBlock(NodeToBlock(x), heap), x)
  {
    NodeRoundTrip(x);
    NameField(x);
    StrcpiedIs(x.name, heap);
    hide NodeToBlock, BlockToNode, Strcpied;
  }

  lemma NameField(x: Node)
    requires Fits(x)
    ensures NodeToBlock(x)[1..72] == x.name
  {
    NodeRoundTrip(x);
    assert BlockToNode(NodeToBlock(x)).name == NodeToBlock(x)[1..72];
  }

  /** Writing back an inode just read changes no byte of its block but those after the name's NUL. */
  lemma BlockCopyRoundTrip(b: Block, heap: seq<byte>)
    requires |heap| == 71 && 0 in b[1..72]
    ensures SameButTail(b, NodeToBlock(ReadBlock(b, heap)))
  {
    var x, y := BlockToNode(b), ReadBlock(b, heap);
    BlockRoundTrip(b);
    StrcpiedIs(b[1..72], heap);
    NameField(y);
    OtherFields(x, y);
  }

  /** A copy whose fields have changed, its name being strcpy'd, is written as the same block but for those
      bytes. */
  lemma ChangedCopy(x: Node, heap: seq<byte>)
    requires Fits(x) && 0 in x.name && |heap| == 71
    ensures SameButTail(NodeToBlock(x), NodeToBlock(x.(name := Strcpied(x.name, heap))))
  {
    hide NodeToBlock, Strcpied, CStr;
    var y := x.(name := Strcpied(x.name, heap));
    StrcpiedIs(x.name, heap);
    NameField(x);
    NameField(y);
    OtherFields(x, y);
  }

  /** The name lies in bytes 1 to 71 and no other field does. */
  lemma OtherFields(x: Node, y: Node)
    requires Fits(x) && Fits(y) && x == y.(name := x.name)
    ensures NodeToBlock(x)[0] == NodeToBlock(y)[0] && NodeToBlock(x)[72..] == NodeToBlock(y)[72..]
  {
    hide Le, EncPtrs;
    var tail := Le(x.parent, 4) + Le(x.size, 4) + Le(x.ctime, 8) + Le(x.mtime, 8) + EncPtrs(x.ptrs);
    assert NodeToBlock(x) == [x.state] + x.name + tail;
    assert NodeToBlock(y) == [x.state] + y.name + tail;
  }

  // ---------------------------------------------------------------- they do not matter

  /** Two volumes that differ in name tails of the inode table only. */
  ghost predicate TailsOnly(v: Vol, w: Vol)
  {
    && |v.bm| == |v.blk| == |w.blk| == TOTAL_BLOCKS && w.bm == v.bm
    && forall b: nat | b < TOTAL_BLOCKS ::
         if NODE_TABLE_INITIAL_BLOCK <= b < DATA_INITIAL_BLOCK then SameButTail(v.blk[b], w.blk[b])
         else w.blk[b] == v.blk[b]
  }

  lemma TailFields(b: Block, c: Block)
    requires SameButTail(b, c)
    ensures BlockToNode(c) == BlockToNode(b).(name := c[1..72])
    ensures 0 in b[1..72] ==> 0 in c[1..72]
  {
    CStrShort(b[1..72]);
    CStrShort(c[1..72]);
    hide CStr, Value;
    Past(b, c, 72, 76);
    Past(b, c, 76, 80);
    Past(b, c, 80, 88);
    Past(b, c, 88, 96);
    forall i | 0 <= i < 1000
      ensures U32At(c, 96 + 4 * i) == U32At(b, 96 + 4 * i)
    {
      Past(b, c, 96 + 4 * i, 100 + 4 * i);
    }
    assert DecPtrs(b) == DecPtrs(c);
  }

  lemma Past(b: Block, c: Block, lo: nat, hi: nat)
    requires b[72..] == c[72..] && 72 <= lo <= hi <= 4096
    ensures b[lo..hi] == c[lo..hi]
  {
    SliceAfter(b[..72], b[72..], lo - 72, hi - 72);
    SliceAfter(c[..72], c[72..], lo - 72, hi - 72);
    assert b == b[..72] + b[72..] && c == c[..72] + c[72..];
  }

  /** One live inode in both volumes. */
  lemma SameLineTails(v: Vol, own: Owners, lk: set<nat>, w: Vol, n: nat)
    requires VolOk(v, own, lk) && TailsOnly(v, w) && Live(v.bm, n)
    ensures NodeOk(NodeAt(w.blk, n))
    ensures ExtentOf(w.blk, NodeAt(w.blk, n)) == ExtentOf(v.blk, NodeAt(v.blk, n))
    ensures ObjOf(w.blk, NodeAt(w.blk, n)) == ObjOf(v.blk, NodeAt(v.blk, n))
  {
    hide VolOk, TailsOnly, NodeOk, TableOf, BlockAt, Linked, BlockCount, DataSame, FileBytes, DirEntries, SameButTail;
    StoredIsLinked(v, own, lk, n);
    var x, y, f := NodeAt(v.blk, n), NodeAt(w.blk, n), TableOf(v)[n];
    TailNode(v, own, lk, w, n);
    TailBlocks(v, own, lk, w, n);
    NameOnly(x, y);
    LinkedFrame(v.blk, w.blk, x.ptrs, f);
    LinkedIsExtent(w.blk, y, f);
    SameBytes(v.blk, w.blk, f, x.size);
  }

  lemma TailNode(v: Vol, own: Owners, lk: set<nat>, w: Vol, n: nat)
    requires VolOk(v, own, lk) && TailsOnly(v, w) && Live(v.bm, n)
    ensures var x, y := NodeAt(v.blk, n), NodeAt(w.blk, n); y == x.(name := y.name) && 0 in y.name && |y.name| == 71
  {
    hide Sound, BlockToNode, SameButTail;
    assert NodeOk(NodeAt(v.blk, n));
    TailFields(v.blk[n + 2], w.blk[n + 2]);
    NameOf(v.blk[n + 2]);
    NameOf(w.blk[n + 2]);
  }

  lemma NameOf(b: Block)
    ensures BlockToNode(b).name == b[1..72]
  {
  }

  lemma TailBlocks(v: Vol, own: Owners, lk: set<nat>, w: Vol, n: nat)
    requires VolOk(v, own, lk) && TailsOnly(v, w) && n in TableOf(v)
    ensures DataSame(v.blk, w.blk, TableOf(v)[n]) && PtrsSame(v.blk, w.blk, TableOf(v)[n])
  {
    hide TableOf, NodesOk, Sound, SameButTail;
    var f := TableOf(v)[n];
    forall k | 0 <= k < |f.data|
      ensures BlockAt(w.blk, f.data[k]) == BlockAt(v.blk, f.data[k])
    {
      Roles(v.bm, TableOf(v), own, lk, n, |f.ptrs| + k);
    }
    forall k | 0 <= k < |f.ptrs|
      ensures BlockAt(w.blk, f.ptrs[k]) == BlockAt(v.blk, f.ptrs[k])
    {
      Roles(v.bm, TableOf(v), own, lk, n, k);
    }
  }

  lemma NameOnly(x: Node, y: Node)
    requires y == x.(name := y.name) && 0 in y.name && |y.name| == 71
    ensures BlockCount(y) == BlockCount(x) && (NodeOk(x) ==> NodeOk(y))
  {
  }

  /** The invariant, the table and the graph, and so the namespace, are the same whatever the tails hold. */
  lemma TailsDoNotMatter(v: Vol, own: Owners, lk: set<nat>, w: Vol)
    requires VolOk(v, own, lk) && TailsOnly(v, w)
    ensures VolOk(w, own, lk) && TableOf(w) == TableOf(v) && GraphOf(w) == GraphOf(v)
  {
    hide *;
    Constants();
    SameBits(v, w);
    forall n: nat | Live(v.bm, n)
      ensures NodeOk(NodeAt(w.blk, n)) && ExtentOf(w.blk, NodeAt(w.blk, n)) == ExtentOf(v.blk, NodeAt(v.blk, n))
      ensures ObjOf(w.blk, NodeAt(w.blk, n)) == ObjOf(v.blk, NodeAt(v.blk, n))
    {
      SameLineTails(v, own, lk, w, n);
    }
    SameLinesSame(v, own, lk, w);
  }

  lemma SameBits(v: Vol, w: Vol)
    requires TailsOnly(v, w)
    ensures w.bm == v.bm && |w.blk| == TOTAL_BLOCKS
  {
  }

  lemma SameLinesSame(v: Vol, own: Owners, lk: set<nat>, w: Vol)
    requires VolOk(v, own, lk) && w.bm == v.bm && |w.blk| == TOTAL_BLOCKS
    requires forall n: nat | Live(v.bm, n) ::
               && NodeOk(NodeAt(w.blk, n)) && ExtentOf(w.blk, NodeAt(w.blk, n)) == ExtentOf(v.blk, NodeAt(v.blk, n))
               && ObjOf(w.blk, NodeAt(w.blk, n)) == ObjOf(v.blk, NodeAt(v.blk, n))
    ensures VolOk(w, own, lk) && TableOf(w) == TableOf(v) && GraphOf(w) == GraphOf(v)
  {
    hide NodeOk, ExtentOf, ObjOf, NodeAt, Sound;
    assert TableOf(w) == TableOf(v);
  }

  /** One inode read by the program and written back, on the volume: nothing that counts has changed. */
  lemma WriteBackKeeps(v: Vol, own: Owners, lk: set<nat>, n: nat, heap: seq<byte>)
    requires VolOk(v, own, lk) && Live(v.bm, n) && |heap| == 71
    ensures n + 2 < |v.blk| && 0 in v.blk[n + 2][1..72]
    ensures var w := Vol(v.bm, v.blk[n + 2 := NodeToBlock(ReadBlock(v.blk[n + 2], heap))]);
            VolOk(w, own, lk) && TableOf(w) == TableOf(v) && GraphOf(w) == GraphOf(v)
  {
    hide *;
    Constants();
    NameTerminated(v, own, lk, n);
    BlockCopyRoundTrip(v.blk[n + 2], heap);
    OneTail(v, n, NodeToBlock(ReadBlock(v.blk[n + 2], heap)));
    TailsDoNotMatter(v, own, lk, Vol(v.bm, v.blk[n + 2 := NodeToBlock(ReadBlock(v.blk[n + 2], heap))]));
  }

  /** The same for a copy whose fields have changed: the volume that the program leaves counts as the one
      that the model leaves. */
  lemma ChangedWriteBack(v: Vol, own: Owners, lk: set<nat>, n: nat, x: Node, heap: seq<byte>)
    requires n + 2 < |v.blk| && n < NODE_TABLE_BLOCKS && Fits(x) && 0 in x.name && |heap| == 71
    requires VolOk(Vol(v.bm, v.blk[n + 2 := NodeToBlock(x)]), own, lk)
    ensures var v' := Vol(v.bm, v.blk[n + 2 := NodeToBlock(x)]);
            var w := Vol(v.bm, v.blk[n + 2 := NodeToBlock(x.(name := Strcpied(x.name, heap)))]);
            VolOk(w, own, lk) && TableOf(w) == TableOf(v') && GraphOf(w) == GraphOf(v')
  {
    hide VolOk, TableOf, GraphOf, NodeToBlock, Strcpied, CStr, SameButTail, TailsOnly;
    var b, c := NodeToBlock(x), NodeToBlock(x.(name := Strcpied(x.name, heap)));
    ChangedCopy(x, heap);
    var v' := Vol(v.bm, v.blk[n + 2 := b]);
    VolShape(v', own, lk);
    OneTail(v', n, c);
    assert v.blk[n + 2 := b][n + 2 := c] == v.blk[n + 2 := c];
    TailsDoNotMatter(v', own, lk, Vol(v.bm, v.blk[n + 2 := c]));
  }

  lemma VolShape(v: Vol, own: Owners, lk: set<nat>)
    requires VolOk(v, own, lk)
    ensures WfVol(v)
  {
    hide Sound, NodesOk;
  }

  lemma OneTail(v: Vol, n: nat, c: Block)
    requires WfVol(v) && n < NODE_TABLE_BLOCKS && SameButTail(v.blk[n + 2], c)
    ensures TailsOnly(v, Vol(v.bm, v.blk[n + 2 := c]))
  {
    hide CStr;
  }

  lemma NameTerminated(v: Vol, own: Owners, lk: set<nat>, n: nat)
    requires VolOk(v, own, lk) && Live(v.bm, n)
    ensures WfVol(v) && |v.blk| == 3000 && n < NODE_TABLE_BLOCKS && 0 in v.blk[n + 2][1..72]
  {
    hide Sound;
    assert NodeOk(NodeAt(v.blk, n));
    NameOf(v.blk[n + 2]);
  }
}
