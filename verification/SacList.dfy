/** sac_readdir and sac_stat. */
module SacList {
  import opened Layout
  import opened Volume
  import opened Graph
  import opened GraphOps
  import opened Namespace
  import opened Abstract
  import opened Paths
  import opened Inodes
  import opened DiskState
  import opened Directory
  import opened DirStore
  import opened Search
  import opened SacDirs
  import opened SacRemove
  import opened SacFiles

  function NamesOf(ents: seq<Entry>): (names: seq<Name>)
    ensures |names| == |ents|
    ensures forall i | 0 <= i < |ents| :: names[i] == ents[i].name
  {
    seq(|ents|, i requires 0 <= i < |ents| => ents[i].name)
  }

  /** The listing of a directory: each name below it once, and no other. */
  ghost predicate Listing(ns: NS, p: Path, names: seq<Name>)
  {
    && (forall name: Name :: name in names <==> p + [name] in ns)
    && (forall i, j | 0 <= i < j < |names| :: names[i] != names[j])
  }

  lemma EntriesAreListing(g: Graph, p: Path, n: nat)
    requires Tree(g) && Resolve(g, p) == Some(n) && IsDir(g, n)
    ensures Listing(View(g), p, NamesOf(g[n].body.ents))
  {
    var ents := g[n].body.ents;
    var names := NamesOf(ents);
    Entries0(g, n);
    hide Tree, Resolve, View;
    forall name: Name
      ensures name in names <==> p + [name] in View(g)
    {
      ViewNames(g, n, p, name);
      if name in names {
        var i :| 0 <= i < |names| && names[i] == name;
        assert ents[i].name == name;
      }
      if p + [name] in View(g) {
        var i :| 0 <= i < |ents| && ents[i].name == name;
        assert names[i] == name;
      }
    }
  }

  /** The iteration of sac_readdir on a copy just read: it fills the array of size/128 names exactly. */
  method ListCopy(d: Disk, x: TNode, n: nat) returns (names: seq<Name>)
    requires d.Ok() && IsDir(GraphOf(d.Vol()), n) && x.Val() == NodeAt(d.Vol().blk, n)
    ensures names == NamesOf(GraphOf(d.Vol())[n].body.ents) && |names| == x.size / DIR_ENTRY_SIZE
  {
    hide VolOk, GraphOf, TableOf, DirCopy, NodeAt, DirEntries;
    DirReady(d, x, n);
    var seen := ListEntries(d, x, n, TableOf(d.Vol()));
    names := NamesOf(seen);
  }

  lemma NamedDir(v: Vol, own: Owners, lk: set<nat>, path: PathStr, n: nat)
    requires VolOk(v, own, lk) && Tree(GraphOf(v)) && IsValidPath(path) && Resolve(GraphOf(v), Split(path)) == Some(n)
    ensures NodeAt(v.blk, n).state == 2 ==> IsDir(GraphOf(v), n)
  {
    hide VolOk, Tree, GraphOf, View, Split, NodeAt, Resolve;
    FoundItem(v, own, lk, path, n);
  }

  /** sac_readdir, once the path is found to lead to inode n. */
  method ReaddirFound(d: Disk, path: PathStr, n: nat) returns (r: Option<seq<Name>>)
    requires FsOk(d) && IsValidPath(path) && Resolve(GraphOf(d.Vol()), Split(path)) == Some(n)
    modifies d.blocks
    ensures d.Vol() == old(d.Vol()) && FsOk(d)
    ensures r.Some? <==> NamesDir(Ns(d), path)
    ensures r.Some? ==> Listing(Ns(d), Split(path), r.value)
  {
    hide *;
    FsParts(d);
    ghost var v := d.Vol();
    FoundItem(v, d.own, d.lk, path, n);
    NamedDir(v, d.own, d.lk, path, n);
    var x := d.ReadNode(n);
    ValState(x);
    r := None;
    if x.state == 2 {
      EntriesAreListing(GraphOf(v), Split(path), n);
      var names := ListCopy(d, x, n);
      r := Some(names);
    }
    d.UnmapRead(x, n);
    SameFs(d, v);
  }

  /** sac_readdir: nothing for what is not a directory, and otherwise its listing. */
  method Readdir(d: Disk, path: PathStr) returns (r: Option<seq<Name>>)
    requires FsOk(d) && PathDomain(Ns(d), path)
    modifies d.blocks
    ensures d.Vol() == old(d.Vol()) && FsOk(d)
    ensures r.Some? <==> NamesDir(Ns(d), path)
    ensures r.Some? ==> Listing(Ns(d), Split(path), r.value)
    ensures r.Some? <==> IsValidPath(path) && Split(path) in Ns(d) && Ns(d)[Split(path)].ADir?
    ensures r.Some? ==> forall name: Name :: name in r.value <==> Split(path) + [name] in Ns(d)
    ensures r.Some? ==> forall i, j | 0 <= i < j < |r.value| :: r.value[i] != r.value[j]
  {
    NamesDirIs(Ns(d), path);
    hide FsOk, View, GraphOf, Resolve, Split, Walkable, PathDomain, NamesDir, Listing;
    r := None;
    if IsValidPath(path) {
      DomainWalk(d, path);
      var n := SearchPath(d, path);
      if n.Some? {
        r := ReaddirFound(d, path, n.value);
        if r.Some? {
          ListingIs(Ns(d), Split(path), r.value);
        }
      } else {
        NothingThere(d, path);
      }
    } else {
      NotValid(Ns(d), path);
    }
  }

  lemma NamesDirIs(ns: NS, path: PathStr)
    ensures NamesDir(ns, path) <==> IsValidPath(path) && Split(path) in ns && ns[Split(path)].ADir?
  {
    hide Split, IsValidPath;
  }

  lemma ListingIs(ns: NS, p: Path, names: seq<Name>)
    ensures Listing(ns, p, names) <==>
            && (forall name: Name :: name in names <==> p + [name] in ns)
            && (forall i, j | 0 <= i < j < |names| :: names[i] != names[j])
  {
  }

  /** What sac_stat fills in. */
  datatype Stat = Stat(kind: nat, ino: nat, size: nat, mtime: nat, ctime: nat)

  /** A directory's size: 128 bytes for each name below it. */
  ghost predicate DirSize(ns: NS, p: Path, size: nat)
  {
    exists names: seq<Name> :: Listing(ns, p, names) && size == 128 * |names|
  }

  /** The kind, the number and the size are those of the item the path names, and the dates are the inode's. */
  ghost predicate Describes(s: Stat, v: Vol, p: Path)
  {
    && p in View(GraphOf(v)) && Resolve(GraphOf(v), p) == Some(s.ino)
    && s.mtime == NodeAt(v.blk, s.ino).mtime && s.ctime == NodeAt(v.blk, s.ino).ctime
    && match View(GraphOf(v))[p]
       case ADir(ino) => s.kind == 2 && s.ino == ino && DirSize(View(GraphOf(v)), p, s.size)
       case AFile(ino, data, _) => s.kind == 1 && s.size == |data| && s.ino == ino
  }

  lemma StatIs(d: Disk, path: PathStr, n: nat)
    requires FsOk(d) && IsValidPath(path) && Resolve(GraphOf(d.Vol()), Split(path)) == Some(n)
    ensures n < NODE_TABLE_BLOCKS
    ensures var x := NodeAt(d.Vol().blk, n);
            && (x.state == 1 || x.state == 2)
            && Describes(Stat(x.state, n, x.size, x.mtime, x.ctime), d.Vol(), Split(path))
  {
    hide VolOk, Tree, GraphOf, View, Split, NodeAt, Resolve, FileAt, DirSize;
    var v := d.Vol();
    FoundItem(v, d.own, d.lk, path, n);
    StateIs(v, d.own, d.lk, n);
    ViewAt(GraphOf(v), Split(path));
    if NodeAt(v.blk, n).state == 1 {
      NamedFile(v, d.own, d.lk, path, n);
      FileAtView(v, Split(path), n, Ns(d)[Split(path)].data);
    } else {
      NamedDir(v, d.own, d.lk, path, n);
      DirSizeIs(v, d.own, d.lk, Split(path), n);
    }
  }

  lemma DirSizeIs(v: Vol, own: Owners, lk: set<nat>, p: Path, n: nat)
    requires VolOk(v, own, lk) && Tree(GraphOf(v)) && Resolve(GraphOf(v), p) == Some(n) && IsDir(GraphOf(v), n)
    ensures DirSize(View(GraphOf(v)), p, NodeAt(v.blk, n).size)
  {
    hide Tree, GraphOf, View, Resolve, NodeAt, Sound, Listing;
    EntriesAreListing(GraphOf(v), p, n);
    DirLength(v, own, lk, n);
  }

  lemma DirLength(v: Vol, own: Owners, lk: set<nat>, n: nat)
    requires VolOk(v, own, lk) && IsDir(GraphOf(v), n)
    ensures NodeAt(v.blk, n).size == 128 * |GraphOf(v)[n].body.ents|
  {
    hide Sound, NodeAt, ExtentOf;
    assert NodeOk(NodeAt(v.blk, n));
  }

  /** sac_stat, once the path is found to lead to inode n. */
  method StatFound(d: Disk, path: PathStr, n: nat) returns (r: Option<Stat>)
    requires FsOk(d) && IsValidPath(path) && Resolve(GraphOf(d.Vol()), Split(path)) == Some(n)
    modifies d.blocks
    ensures d.Vol() == old(d.Vol()) && FsOk(d) && r.Some? && Describes(r.value, d.Vol(), Split(path))
  {
    hide *;
    FsParts(d);
    ghost var v := d.Vol();
    StatIs(d, path, n);
    var x := d.ReadNode(n);
    FieldsOf(x);
    r := if x.state == 1 || x.state == 2 then Some(Stat(x.state, n, x.size, x.mtime, x.ctime)) else None;
    d.UnmapRead(x, n);
    SameFs(d, v);
  }

  lemma FieldsOf(x: TNode)
    ensures var y := x.Val(); y.state == x.state && y.size == x.size && y.mtime == x.mtime && y.ctime == x.ctime
  {
  }

  /** sac_stat. */
  method GetStat(d: Disk, path: PathStr) returns (r: Option<Stat>)
    requires FsOk(d) && PathDomain(Ns(d), path)
    modifies d.blocks
    ensures d.Vol() == old(d.Vol()) && FsOk(d)
    ensures r.Some? <==> IsValidPath(path) && Split(path) in Ns(d)
    ensures r.Some? ==> Describes(r.value, d.Vol(), Split(path))
    ensures r.Some? ==>
              var s, item := r.value, Ns(d)[Split(path)];
              && s.ino == item.ino && s.kind == (if item.ADir? then 2 else 1)
              && (item.AFile? ==> s.size == |item.data|)
              && (item.ADir? ==> exists names: seq<Name> ::
                    && s.size == 128 * |names|
                    && (forall name: Name :: name in names <==> Split(path) + [name] in Ns(d))
                    && (forall i, j | 0 <= i < j < |names| :: names[i] != names[j]))
              && s.mtime == NodeAt(d.Vol().blk, s.ino).mtime && s.ctime == NodeAt(d.Vol().blk, s.ino).ctime
  {
    hide FsOk, View, GraphOf, Resolve, Split, Walkable, PathDomain, NamesDir, Describes, DirSize;
    r := None;
    if IsValidPath(path) {
      DomainWalk(d, path);
      var n := SearchPath(d, path);
      if n.Some? {
        r := StatFound(d, path, n.value);
        DescribesIs(r.value, d.Vol(), Split(path));
      } else {
        PathNotThere(d, path);
      }
    }
  }

  lemma DescribesIs(s: Stat, v: Vol, p: Path)
    requires Describes(s, v, p)
    ensures p in View(GraphOf(v))
    ensures var ns := View(GraphOf(v));
            var item := ns[p];
            && s.ino == item.ino && s.kind == (if item.ADir? then 2 else 1)
            && (item.AFile? ==> s.size == |item.data|)
            && (item.ADir? ==> exists names: seq<Name> ::
                  && s.size == 128 * |names| && (forall name: Name :: name in names <==> p + [name] in ns)
                  && (forall i, j | 0 <= i < j < |names| :: names[i] != names[j]))
            && s.mtime == NodeAt(v.blk, s.ino).mtime && s.ctime == NodeAt(v.blk, s.ino).ctime
  {
    hide GraphOf, View, NodeAt, Resolve;
  }

  lemma PathNotThere(d: Disk, path: PathStr)
    requires FsOk(d) && Resolve(GraphOf(d.Vol()), Split(path)) == None
    ensures Split(path) !in Ns(d)
  {
    hide VolOk, Tree, GraphOf, View, Split, Resolve;
    ViewAt(GraphOf(d.Vol()), Split(path));
  }
}
