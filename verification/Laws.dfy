/** Laws of the abstract file system that hold of every disk keeping the invariant: its namespace is a tree,
    and what one operation undoes of another. */
module Laws {
  import opened Bytes
  import opened Layout
  import opened Graph
  import opened GraphOps
  import opened Namespace
  import opened Abstract
  import opened Paths
  import opened Contents
  import opened GapFilling

  /** The root is a directory, every other path is in a directory, and no two paths have one number. */
  ghost predicate NsTree(ns: NS)
  {
    && [] in ns && ns[[]] == ADir(0)
    && (forall p: Path | p != [] && p in ns :: Parent(p) in ns && ns[Parent(p)].ADir?)
    && (forall p: Path, q: Path | p in ns && q in ns && ns[p].ino == ns[q].ino :: p == q)
  }

  /** The abstraction of a tree of inodes is such a namespace. */
  lemma ViewIsTree(g: Graph)
    requires Tree(g)
    ensures NsTree(View(g))
  {
    hide Tree, View, Child;
    ViewAt(g, []);
    RootIsLive(g);
    forall p: Path | p != [] && p in View(g)
      ensures Parent(p) in View(g) && View(g)[Parent(p)].ADir?
    {
      ViewAt(g, p);
      ViewAt(g, Parent(p));
      ChildInDir(g, Resolve(g, Parent(p)).value, p[|p| - 1]);
    }
    forall p: Path, q: Path | p in View(g) && q in View(g) && View(g)[p].ino == View(g)[q].ino
      ensures p == q
    {
      ViewAt(g, p);
      ViewAt(g, q);
      PathUnique(g, p, q);
    }
  }

  lemma ChildInDir(g: Graph, d: nat, name: Name)
    requires Child(g, d, name).Some?
    ensures IsDir(g, d)
  {
  }

  /** Everything in the file system has a path string that leads to it, with nothing in the way, and everything
      but the root has a name that fits. */
  lemma ItemNamed(g: Graph, p: Path) returns (path: PathStr)
    requires Tree(g) && p in View(g)
    ensures IsValidPath(path) && Split(path) == p
    ensures PathDomain(View(g), path) && (p != [] ==> CreateDomain(View(g), path))
  {
    hide Tree, View, Split, IsValidPath;
    NamesAreValid(g, p);
    path := PathString(p);
    ViewIsTree(g);
    PrefixesAreDirs(View(g), p);
  }

  lemma {:induction false} NamesAreValid(g: Graph, p: Path)
    requires Tree(g) && p in View(g)
    ensures forall i | 0 <= i < |p| :: ValidName(p[i])
    decreases |p|
  {
    hide Tree, View, ValidName;
    if p != [] {
      LastIsValid(g, p);
      NamesAreValid(g, Parent(p));
    }
  }

  lemma LastIsValid(g: Graph, p: Path)
    requires Tree(g) && p in View(g) && p != []
    ensures ValidName(p[|p| - 1]) && Parent(p) in View(g)
  {
    hide Tree, View, Child, ValidName;
    ViewAt(g, p);
    ViewAt(g, Parent(p));
    ChildIs(g, Resolve(g, Parent(p)).value, p[|p| - 1]);
  }

  lemma PrefixesAreDirs(ns: NS, p: Path)
    requires NsTree(ns) && p in ns
    ensures ClearWalk(ns, p)
  {
    forall k: nat | k < |p|
      ensures p[..k] in ns && ns[p[..k]].ADir?
    {
      PrefixIn(ns, p, p[..k + 1]);
      assert Parent(p[..k + 1]) == p[..k];
    }
  }

  /** A path that exists has all its prefixes. */
  lemma {:induction false} PrefixIn(ns: NS, p: Path, q: Path)
    requires NsTree(ns) && p in ns && q <= p
    ensures q in ns
    decreases |p|
  {
    if q != p {
      PrefixIn(ns, Parent(p), q);
    }
  }

  /** Nothing is below what does not exist. */
  lemma NothingBelow(ns: NS, p: Path)
    requires NsTree(ns) && p !in ns
    ensures forall q: Path | p <= q :: q !in ns
  {
    forall q: Path | p <= q
      ensures q !in ns
    {
      if q in ns {
        PrefixIn(ns, q, p);
      }
    }
  }

  lemma AddThenDrop(ns: NS, p: Path, item: Item)
    requires p !in ns
    ensures Without(ns[p := item], p) == ns
  {
  }

  /** rmdir undoes mkdir. */
  lemma RmdirUndoesMkdir(ns: NS, path: PathStr)
    requires NsTree(ns) && Creatable(path) && IsNew(ns, path)
    ensures RmdirCode(MkdirNext(ns, path), path) == 0
    ensures RmdirNext(MkdirNext(ns, path), path) == ns
  {
    hide Split, IsValidPath;
    var p := Split(path);
    NothingBelow(ns, p);
    AddThenDrop(ns, p, ADir(NewNumber(ns)));
    forall name: Name
      ensures p + [name] !in MkdirNext(ns, path)
    {
      assert p <= p + [name] && p + [name] != p;
    }
    assert EmptyDir(MkdirNext(ns, path), p);
  }

  /** remove undoes the creating open. */
  lemma RemoveUndoesOpen(ns: NS, path: PathStr)
    requires Creatable(path) && IsNew(ns, path)
    ensures RemoveCode(OpenNext(ns, path), path) == 0
    ensures RemoveNext(OpenNext(ns, path), path) == ns
  {
    hide Split, IsValidPath;
    AddThenDrop(ns, Split(path), AFile(NewNumber(ns), [], false));
  }

  /** Two different paths, neither at or below the other. */
  ghost predicate Apart(o: Path, n: Path)
  {
    !(o <= n) && !(n <= o)
  }

  lemma RenamedBack(ns: NS, o: Path, n: Path)
    requires o == n || (Apart(o, n) && forall q: Path | n <= q :: q !in ns)
    ensures Renamed(Renamed(ns, o, n), n, o) == ns
  {
    var r := Renamed(Renamed(ns, o, n), n, o);
    forall q: Path
      ensures SameAt(r, ns, q)
    {
      RenamedAt(Renamed(ns, o, n), n, o, q);
      if o <= q {
        var rest := q[|o|..];
        assert o + rest == q;
        assert (n + rest)[|n|..] == rest;
        RenamedAt(ns, o, n, n + rest);
      } else {
        RenamedAt(ns, o, n, q);
      }
    }
    SameEverywhere(r, ns);
  }

  lemma RenameApart(ns: NS, from: PathStr, to: PathStr)
    requires NsTree(ns) && RenameDomain(ns, from, to) && ParentsExist(ns, from, to)
    ensures Split(from) == Split(to) || (Apart(Split(from), Split(to)) && forall q: Path | Split(to) <= q :: q !in ns)
  {
    hide Split, IsValidPath, ClearWalk;
    var o, n := Split(from), Split(to);
    if o != n {
      NothingBelow(ns, n);
      ProperPrefix(o, n);
    }
  }

  lemma ProperPrefix(o: Path, n: Path)
    requires n != []
    ensures o <= n && o != n ==> o <= Parent(n)
  {
  }

  /** Renaming back is in the domain and gives the old namespace. */
  lemma RenameUndoesRename(ns: NS, from: PathStr, to: PathStr)
    requires NsTree(ns) && RenameDomain(ns, from, to) && ParentsExist(ns, from, to)
    ensures ParentsExist(RenameNext(ns, from, to), to, from) && RenameDomain(RenameNext(ns, from, to), to, from)
    ensures RenameNext(RenameNext(ns, from, to), to, from) == ns
  {
    hide Split, IsValidPath, ClearWalk, Renamed;
    var o, n := Split(from), Split(to);
    RenameApart(ns, from, to);
    RenamedBack(ns, o, n);
    RenamedAt(ns, o, n, Parent(o));
    RenamedAt(ns, o, n, Parent(n));
    NotInItself(o);
    NotInItself(n);
    RenamedAt(ns, o, n, o);
    RenamedAt(ns, o, n, n);
    assert o + n[|n|..] == o;
    ClearAfter(ns, o, n, o);
    ClearAfter(ns, o, n, n);
  }

  /** The way to a path that is not below what is renamed, nor below its new name, is as clear as before. */
  lemma ClearAfter(ns: NS, o: Path, n: Path, p: Path)
    requires ClearWalk(ns, p) && (p == o || p == n) && (o == n || Apart(o, n))
    ensures ClearWalk(Renamed(ns, o, n), p)
  {
    forall k: nat | k < |p| && p[..k] in Renamed(ns, o, n)
      ensures Renamed(ns, o, n)[p[..k]].ADir?
    {
      assert !(o <= p[..k]) && !(n <= p[..k]) by { BelowNeither(o, n, p, k); }
      RenamedAt(ns, o, n, p[..k]);
    }
  }

  lemma BelowNeither(o: Path, n: Path, p: Path, k: nat)
    requires k < |p| && (p == o || p == n) && (o == n || Apart(o, n))
    ensures !(o <= p[..k]) && !(n <= p[..k])
  {
    assert o <= p[..k] ==> o <= p;
    assert n <= p[..k] ==> n <= p;
  }

  lemma NotInItself(p: Path)
    requires p != []
    ensures !(p <= Parent(p))
  {
  }

  /** After a rename, what was at or below the old name is at or below the new one, and unrelated paths
      are as before. */
  lemma RenameMoves(ns: NS, from: PathStr, to: PathStr, rest: Path, q: Path)
    requires NsTree(ns) && RenameDomain(ns, from, to) && ParentsExist(ns, from, to)
    requires !(Split(from) <= q) && !(Split(to) <= q)
    ensures var ns' := RenameNext(ns, from, to);
            && (Split(to) + rest in ns' <==> Split(from) + rest in ns)
            && (Split(from) + rest in ns ==> ns'[Split(to) + rest] == ns[Split(from) + rest])
            && (q in ns' <==> q in ns) && (q in ns ==> ns'[q] == ns[q])
            && (Split(from) != Split(to) ==> Split(from) + rest !in ns')
  {
    hide Split, IsValidPath, ClearWalk, Renamed;
    var o, n := Split(from), Split(to);
    RenameApart(ns, from, to);
    assert (n + rest)[|n|..] == rest;
    RenamedAt(ns, o, n, n + rest);
    RenamedAt(ns, o, n, q);
    RenamedAt(ns, o, n, o + rest);
    if o != n && n <= o + rest {
      PrefixesCompare(n, o, rest);
    }
  }

  lemma PrefixesCompare(n: Path, o: Path, rest: Path)
    requires n <= o + rest
    ensures n <= o || o <= n
  {
    if |n| <= |o| {
      assert n == (o + rest)[..|n|] == o[..|n|];
    } else {
      assert n == (o + rest)[..|n|];
      assert n[..|o|] == o;
    }
  }

  /** A write is read back at its path, and no other path changes. */
  lemma WriteThenRead(ns: NS, fd: nat, data: seq<byte>, offset: nat, q: Path)
    requires WriteDomain(ns, fd, data, offset)
    ensures var ns', p := WriteNext(ns, fd, data, offset), PathOf(ns, fd);
            && p in ns' && ns'[p].AFile? && ns'[p].ino == fd
            && (forall r, read :: ReadAnswers(ns'[p], |data|, offset, r, read) <==> r == |data| && read == data)
            && (q != p ==> (q in ns' <==> q in ns) && (q in ns ==> ns'[q] == ns[q]))
  {
    hide WriteKeepsShape, Overwritten, GapFits;
    ReadAfterWrite(ns[PathOf(ns, fd)].data, offset, data);
  }

  /** open gives a new file a number that no other path has, and finds what exists by its number. */
  lemma OpenNumbers(ns: NS, path: PathStr, q: Path)
    requires Creatable(path) && !OpenFails(ns, path) && !CreateExits(ns, path, false) && q in ns && q != Split(path)
    requires NsTree(ns)
    ensures var ns' := OpenNext(ns, path);
            && Split(path) in ns' && ns'[Split(path)].ino == OpenCode(ns, path)
            && q in ns' && ns'[q] == ns[q] && ns'[q].ino != OpenCode(ns, path)
  {
    hide Split, IsValidPath, EmptyDir;
    FirstFreeIsFree(ns, 0);
  }

  /** A descriptor follows its file: after a rename the number leads to the new path of what it led to. */
  lemma DescriptorFollows(ns: NS, from: PathStr, to: PathStr, rest: Path)
    requires NsTree(ns) && RenameDomain(ns, from, to) && ParentsExist(ns, from, to) && Split(from) + rest in ns
    ensures var n := ns[Split(from) + rest].ino;
            var ns' := RenameNext(ns, from, to);
            && Used(ns', n) && PathOf(ns', n) == Split(to) + rest
            && Split(to) + rest in ns' && ns'[Split(to) + rest] == ns[Split(from) + rest]
  {
    var o, t := Split(from), Split(to);
    var n, ns' := ns[o + rest].ino, RenameNext(ns, from, to);
    NotInItself(o);
    RenameApart(ns, from, to);
    hide Split, IsValidPath, ClearWalk, Renamed;
    assert (t + rest)[|t|..] == rest;
    RenamedAt(ns, o, t, t + rest);
    assert Used(ns', n) by {
      assert t + rest in ns' && ns'[t + rest].ino == n;
    }
    var p := PathOf(ns', n);
    RenamedAt(ns, o, t, p);
    if t <= p {
      assert o + p[|t|..] == o + rest;
      SameTail(o, p[|t|..], rest);
      assert p == t + p[|t|..];
    }
  }

  lemma SameTail(o: Path, a: Path, b: Path)
    requires o + a == o + b
    ensures a == b
  {
    assert (o + a)[|o|..] == a && (o + b)[|o|..] == b;
  }
}
