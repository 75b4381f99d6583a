/** search_path: the walk from the root, one component at a time. */
module Search {
  import opened Bytes
  import opened Layout
  import opened Graph
  import opened GraphOps
  import opened Inodes
  import opened DiskState
  import opened Paths
  import opened Directory
  import opened DirStore

  /** The inodes a walk along p searches are directories. */
  ghost predicate Walkable(g: Graph, p: Path)
  {
    forall k: nat | k < |p| && Resolve(g, p[..k]).Some? :: IsDir(g, Resolve(g, p[..k]).value)
  }

  /** get_entry on the copy of a directory just read. */
  method LookupCopy(d: Disk, x: TNode, n: nat, name: Name) returns (r: Option<nat>)
    requires d.Ok() && IsDir(GraphOf(d.Vol()), n) && x.Val() == NodeAt(d.Vol().blk, n) && name != []
    ensures r == Child(GraphOf(d.Vol()), n, name)
  {
    DirReady(d, x, n);
    hide VolOk, GraphOf, TableOf, DirCopy, NodeAt, Lookup, DirEntries;
    r := GetEntry(d, x, name, n, TableOf(d.Vol()));
  }

  /** One step of the walk: the entry of a name in a directory. The inode is only read. */
  method SearchDir(d: Disk, n: nat, name: Name) returns (r: Option<nat>)
    requires FsOk(d) && IsDir(GraphOf(d.Vol()), n) && name != []
    modifies d.blocks
    ensures d.Vol() == old(d.Vol()) && r == Child(GraphOf(d.Vol()), n, name)
  {
    assert n < NODE_TABLE_BLOCKS;
    hide VolOk, Tree, GraphOf, Child, NodeAt;
    var x := d.ReadNode(n);
    r := LookupCopy(d, x, n, name);
    d.UnmapRead(x, n);
  }

  lemma ResolveStep(g: Graph, p: Path, k: nat)
    requires k < |p|
    ensures Resolve(g, p[..k + 1]) ==
            if Resolve(g, p[..k]).Some? then Child(g, Resolve(g, p[..k]).value, p[k]) else None
  {
    assert p[..k + 1] == p[..k] + [p[k]];
    ResolveSnoc(g, p[..k], p[k]);
  }

  method SearchPath(d: Disk, path: seq<byte>) returns (r: Option<nat>)
    requires FsOk(d) && 0 !in path && Walkable(GraphOf(d.Vol()), Split(path))
    modifies d.blocks
    ensures d.Vol() == old(d.Vol()) && r == Resolve(GraphOf(d.Vol()), Split(path))
    ensures FsOk(d)
  {
    hide VolOk, Tree, GraphOf, Resolve, Child, Split, Walkable;
    var parts := Split(path);
    ghost var g := GraphOf(d.Vol());
    SplitNames(path);
    RootResolves(g, parts);
    r := Some(0);
    var i := 0;
    while i < |parts| && r.Some?
      invariant 0 <= i <= |parts| && FsOk(d) && d.Vol() == old(d.Vol())
      invariant r == Resolve(g, parts[..i])
    {
      ResolveStep(g, parts, i);
      WalksTo(g, parts, i);
      r := SearchDir(d, r.value, parts[i]);
      i := i + 1;
    }
    if r.None? {
      DeadPrefix(g, parts, i);
    } else {
      assert parts[..i] == parts;
    }
  }

  lemma RootResolves(g: Graph, p: Path)
    ensures Resolve(g, p[..0]) == Some(0)
  {
  }

  lemma WalksTo(g: Graph, p: Path, k: nat)
    requires Walkable(g, p) && k < |p| && Resolve(g, p[..k]).Some?
    ensures IsDir(g, Resolve(g, p[..k]).value)
  {
  }

  lemma DeadPrefix(g: Graph, p: Path, k: nat)
    requires k <= |p| && Resolve(g, p[..k]) == None
    ensures Resolve(g, p) == None
  {
    hide Child;
    if Resolve(g, p).Some? {
      PrefixResolves(g, p, p[..k]);
    }
  }
}
