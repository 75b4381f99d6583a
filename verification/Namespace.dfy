/** The file system as its clients see it: paths to directories and byte sequences, each with the number
    that open and stat report. The abstract
    operations on it, and the proof that each change of the inode graph is the abstract one. */
module Namespace {
  import opened Bytes
  import opened Layout
  import opened Graph
  import opened GraphOps

  datatype Item = ADir(ino: nat) | AFile(ino: nat, data: seq<byte>, blocks: bool)

  type NS = imap<Path, Item>

  function ItemOf(n: nat, b: Body): Item
  {
    match b
    case Dir(_) => ADir(n)
    case File(data, blocks) => AFile(n, data, blocks)
  }

  /** The abstraction function. */
  ghost function View(g: Graph): NS
  {
    imap p: Path | Resolve(g, p).Some? && Resolve(g, p).value in g ::
      ItemOf(Resolve(g, p).value, g[Resolve(g, p).value].body)
  }

  ghost function Without(ns: NS, p: Path): NS
  {
    imap q | q in ns && q != p :: ns[q]
  }

  /** Everything at or below o is at or below n instead. */
  ghost function Renamed(ns: NS, o: Path, n: Path): NS
  {
    imap q: Path | if n <= q then o + q[|n|..] in ns else !(o <= q) && q in ns ::
      if n <= q then ns[o + q[|n|..]] else ns[q]
  }

  // ---------------------------------------------------------------- the graph changes are these

  lemma ViewAt(g: Graph, p: Path)
    requires Tree(g)
    ensures p in View(g) <==> Resolve(g, p).Some?
    ensures Resolve(g, p).Some? ==>
              Resolve(g, p).value in g && View(g)[p] == ItemOf(Resolve(g, p).value, g[Resolve(g, p).value].body)
  {
    hide Tree, Child;
    if Resolve(g, p).Some? {
      ResolvedIsLive(g, p);
    }
  }

  ghost predicate SameAt(a: NS, b: NS, p: Path)
  {
    (p in a <==> p in b) && (p in a ==> a[p] == b[p])
  }

  lemma SameEverywhere(a: NS, b: NS)
    requires forall p: Path :: SameAt(a, b, p)
    ensures a == b
  {
    assert forall p: Path :: SameAt(a, b, p) ==> (p in a <==> p in b);
  }

  /** mkdir and open of a new name: one new path, nothing else. */
  lemma ViewAdd(g: Graph, d: nat, name: Name, n: nat, body: Body, dp: Path)
    requires CanAdd(g, d, name, n, body) && Resolve(g, dp) == Some(d)
    ensures View(AddChild(g, d, name, n, body)) == View(g)[dp + [name] := ItemOf(n, body)]
  {
    var a, b := View(AddChild(g, d, name, n, body)), View(g)[dp + [name] := ItemOf(n, body)];
    forall p: Path
      ensures SameAt(a, b, p)
    {
      ViewAddAt(g, d, name, n, body, dp, p);
    }
    SameEverywhere(a, b);
  }

  lemma ViewAddAt(g: Graph, d: nat, name: Name, n: nat, body: Body, dp: Path, p: Path)
    requires CanAdd(g, d, name, n, body) && Resolve(g, dp) == Some(d)
    ensures SameAt(View(AddChild(g, d, name, n, body)), View(g)[dp + [name] := ItemOf(n, body)], p)
  {
    AddChildTree(g, d, name, n, body);
    ResolveAfterAdd(g, d, name, n, body, dp, p);
    hide Tree, Child, Resolve, View, AddChild, AfterAdd;
    var g', np := AddChild(g, d, name, n, body), dp + [name];
    ViewAt(g, p);
    ViewAt(g', p);
    AddChildItems(g, d, name, n, body);
    if p == np {
      assert AfterAdd(g, n, np, p) == Some(n) by { AfterAddIs(g, n, np, p); }
    } else if np <= p {
      AfterAddIs(g, n, np, p);
      NothingBelowFree(g, d, name, dp, p);
    } else {
      AfterAddIs(g, n, np, p);
    }
  }

  lemma AfterAddIs(g: Graph, n: nat, np: Path, p: Path)
    ensures p == np ==> AfterAdd(g, n, np, p) == Some(n)
    ensures p != np && np <= p ==> AfterAdd(g, n, np, p) == None
    ensures !(np <= p) ==> AfterAdd(g, n, np, p) == Resolve(g, p)
  {
    hide Resolve;
  }

  lemma AddChildItems(g: Graph, d: nat, name: Name, n: nat, body: Body)
    requires CanAdd(g, d, name, n, body)
    ensures var g' := AddChild(g, d, name, n, body);
            && n in g' && ItemOf(n, g'[n].body) == ItemOf(n, body)
            && forall m | m in g :: m in g' && ItemOf(m, g'[m].body) == ItemOf(m, g[m].body)
  {
    hide Tree, Child;
  }

  lemma ResolveAfterAdd(g: Graph, d: nat, name: Name, n: nat, body: Body, dp: Path, p: Path)
    requires CanAdd(g, d, name, n, body) && Resolve(g, dp) == Some(d)
    ensures Resolve(AddChild(g, d, name, n, body), p) == AfterAdd(g, n, dp + [name], p)
  {
    hide Tree, Child, Resolve, OnlyPath, AddRule, AfterAdd;
    AddChildRule(g, d, name, n, body);
    TreePaths(g, d, dp);
    NotLiveNoPath(g, n);
    AddChildResolve(g, AddChild(g, d, name, n, body), d, name, n, dp, p);
  }

  lemma NothingBelowFree(g: Graph, d: nat, name: Name, dp: Path, p: Path)
    requires Resolve(g, dp) == Some(d) && Child(g, d, name) == None
    ensures dp + [name] <= p ==> Resolve(g, p) == None
  {
    hide Child;
    if dp + [name] <= p && Resolve(g, p).Some? {
      PrefixResolves(g, p, dp + [name]);
      ResolveSnoc(g, dp, name);
    }
  }

  /** remove and rmdir: one path less, nothing else. */
  lemma ViewRemove(g: Graph, d: nat, name: Name, dp: Path)
    requires CanRemove(g, d, name) && Resolve(g, dp) == Some(d)
    ensures View(RemoveChild(g, d, name)) == Without(View(g), dp + [name])
  {
    var a, b := View(RemoveChild(g, d, name)), Without(View(g), dp + [name]);
    forall p: Path
      ensures SameAt(a, b, p)
    {
      ViewRemoveAt(g, d, name, dp, p);
    }
    SameEverywhere(a, b);
  }

  lemma ResolveAfterRemove(g: Graph, d: nat, name: Name, dp: Path, p: Path)
    requires CanRemove(g, d, name) && Resolve(g, dp) == Some(d)
    ensures Resolve(RemoveChild(g, d, name), p) == AfterRemove(g, dp + [name], p)
  {
    RemoveChildRule(g, d, name);
    RemovedPath(g, d, name, dp);
    hide Tree, Child, Resolve, OnlyPath, RemoveRule, AfterRemove;
    RemoveChildResolve(g, RemoveChild(g, d, name), d, name, Child(g, d, name).value, dp, p);
  }

  lemma WithoutAt(ns: NS, q: Path, p: Path)
    ensures p in Without(ns, q) <==> p in ns && p != q
    ensures p in Without(ns, q) ==> Without(ns, q)[p] == ns[p]
  {
  }

  lemma ViewRemoveAt(g: Graph, d: nat, name: Name, dp: Path, p: Path)
    requires CanRemove(g, d, name) && Resolve(g, dp) == Some(d)
    ensures SameAt(View(RemoveChild(g, d, name)), Without(View(g), dp + [name]), p)
  {
    RemoveChildTree(g, d, name);
    ResolveAfterRemove(g, d, name, dp, p);
    hide Tree, Child, Resolve, View, Without, RemoveChild, AfterRemove;
    var g', np := RemoveChild(g, d, name), dp + [name];
    ViewAt(g, p);
    ViewAt(g', p);
    WithoutAt(View(g), np, p);
    if np <= p {
      assert AfterRemove(g, np, p) == None by { AfterRemoveIs(g, np, p); }
      if Resolve(g, p).Some? {
        RemovedNothingBelow(g, d, name, dp, p);
      } else {
      }
    } else {
      assert AfterRemove(g, np, p) == Resolve(g, p) by { AfterRemoveIs(g, np, p); }
      if Resolve(g, p).Some? {
        RemovedElsewhere(g, d, name, dp, p);
      } else {
      }
    }
  }

  lemma AfterRemoveIs(g: Graph, np: Path, p: Path)
    ensures np <= p ==> AfterRemove(g, np, p) == None
    ensures !(np <= p) ==> AfterRemove(g, np, p) == Resolve(g, p)
  {
    hide Resolve;
  }

  lemma RemovedNothingBelow(g: Graph, d: nat, name: Name, dp: Path, p: Path)
    requires CanRemove(g, d, name) && Resolve(g, dp) == Some(d)
    requires dp + [name] <= p && Resolve(g, p).Some?
    ensures p == dp + [name]
  {
    RemovedPath(g, d, name, dp);
    hide Tree, Child, Resolve;
    LeafHasNothingBelow(g, dp + [name], p);
  }

  lemma RemovedElsewhere(g: Graph, d: nat, name: Name, dp: Path, p: Path)
    requires CanRemove(g, d, name) && Resolve(g, dp) == Some(d)
    requires Resolve(g, p).Some? && !(dp + [name] <= p)
    ensures var n := Resolve(g, p).value;
            n in RemoveChild(g, d, name) && n in g && ItemOf(n, RemoveChild(g, d, name)[n].body) == ItemOf(n, g[n].body)
  {
    ResolvedIsLive(g, p);
    RemovedPath(g, d, name, dp);
    hide Tree, Child, Resolve;
  }

  /** rename: every path at or below the new name is what it was at or below the old one, the old name
      and all below it are gone, and unrelated paths are as before. */
  lemma ViewMove(g: Graph, d1: nat, name1: Name, d2: nat, name2: Name, dp1: Path, dp2: Path)
    requires CanMove(g, d1, name1, d2, name2, dp1, dp2)
    ensures Child(g, d1, name1).value in g
    ensures View(Move(g, d1, name1, d2, name2)) == Renamed(View(g), dp1 + [name1], dp2 + [name2])
  {
    MovedIsApart(g, d1, name1, d2, name2, dp1, dp2);
    var a, b := View(Move(g, d1, name1, d2, name2)), Renamed(View(g), dp1 + [name1], dp2 + [name2]);
    forall p: Path
      ensures SameAt(a, b, p)
    {
      ViewMoveAt(g, d1, name1, d2, name2, dp1, dp2, p);
    }
    SameEverywhere(a, b);
  }

  lemma RenamedAt(ns: NS, o: Path, n: Path, p: Path)
    ensures p in Renamed(ns, o, n) <==> if n <= p then o + p[|n|..] in ns else !(o <= p) && p in ns
    ensures p in Renamed(ns, o, n) ==> Renamed(ns, o, n)[p] == if n <= p then ns[o + p[|n|..]] else ns[p]
  {
  }

  /** A move changes no inode's item. */
  lemma MoveItems(g: Graph, d1: nat, name1: Name, d2: nat, name2: Name, dp1: Path, dp2: Path, n: nat)
    requires CanMove(g, d1, name1, d2, name2, dp1, dp2)
    ensures Child(g, d1, name1).value in g
    ensures var g' := Move(g, d1, name1, d2, name2);
            (n in g' <==> n in g) && (n in g ==> ItemOf(n, g'[n].body) == ItemOf(n, g[n].body))
  {
    hide Tree, Child, Resolve, IndexOf, RemoveAt, ValidName, OnlyPath;
    MovedIsApart(g, d1, name1, d2, name2, dp1, dp2);
  }

  lemma ResolveAfterMove(g: Graph, d1: nat, name1: Name, d2: nat, name2: Name, dp1: Path, dp2: Path, p: Path)
    requires CanMove(g, d1, name1, d2, name2, dp1, dp2)
    ensures Child(g, d1, name1).value in g
    ensures Resolve(Move(g, d1, name1, d2, name2), p) == AfterMove(g, dp1 + [name1], dp2 + [name2], p)
  {
    hide Tree, Child, Resolve, Moved, AfterMove;
    MoveMoves(g, d1, name1, d2, name2, dp1, dp2);
    MoveResolve(g, Move(g, d1, name1, d2, name2), d1, name1, d2, name2, dp1, dp2, p);
  }

  lemma ViewMoveAt(g: Graph, d1: nat, name1: Name, d2: nat, name2: Name, dp1: Path, dp2: Path, p: Path)
    requires CanMove(g, d1, name1, d2, name2, dp1, dp2)
    ensures Child(g, d1, name1).value in g
    ensures SameAt(View(Move(g, d1, name1, d2, name2)), Renamed(View(g), dp1 + [name1], dp2 + [name2]), p)
  {
    var op, np := dp1 + [name1], dp2 + [name2];
    assert Tree(g);
    MoveTree(g, d1, name1, d2, name2, dp1, dp2);
    ResolveAfterMove(g, d1, name1, d2, name2, dp1, dp2, p);
    hide CanMove, Tree, Child, Resolve, View, Move, Renamed;
    var g' := Move(g, d1, name1, d2, name2);
    ViewAt(g', p);
    RenamedAt(View(g), op, np, p);
    if np <= p {
      ViewAt(g, op + p[|np|..]);
    } else {
      ViewAt(g, p);
    }
    if Resolve(g', p).Some? {
      MoveItems(g, d1, name1, d2, name2, dp1, dp2, Resolve(g', p).value);
    }
  }

  /** write and truncate: the bytes of one file, nothing else. */
  lemma ViewSetData(g: Graph, n: nat, data: seq<byte>, blocks: bool, np: Path)
    requires Tree(g) && n in g && g[n].body.File? && Resolve(g, np) == Some(n)
    ensures View(SetData(g, n, data, blocks)) == View(g)[np := AFile(n, data, blocks)]
  {
    var a, b := View(SetData(g, n, data, blocks)), View(g)[np := AFile(n, data, blocks)];
    forall p: Path
      ensures SameAt(a, b, p)
    {
      ViewSetDataAt(g, n, data, blocks, np, p);
    }
    SameEverywhere(a, b);
  }

  lemma ViewSetDataAt(g: Graph, n: nat, data: seq<byte>, blocks: bool, np: Path, p: Path)
    requires Tree(g) && n in g && g[n].body.File? && Resolve(g, np) == Some(n)
    ensures SameAt(View(SetData(g, n, data, blocks)), View(g)[np := AFile(n, data, blocks)], p)
  {
    hide Tree, Child, Resolve, View;
    var g' := SetData(g, n, data, blocks);
    SetDataTree(g, n, data, blocks);
    SetDataResolve(g, n, data, blocks, p);
    ViewAt(g, p);
    ViewAt(g', p);
    if p == np {
    } else if Resolve(g, p) == Some(n) {
      PathUnique(g, p, np);
    } else {
    }
  }

  /** The names listed for a directory are exactly the names of the paths one step below it. */
  lemma ViewNames(g: Graph, d: nat, dp: Path, name: Name)
    requires Tree(g) && IsDir(g, d) && Resolve(g, dp) == Some(d)
    ensures dp + [name] in View(g) <==> exists i :: 0 <= i < |g[d].body.ents| && g[d].body.ents[i].name == name
  {
    ViewAt(g, dp + [name]);
    ResolveSnoc(g, dp, name);
    hide Tree, View, Resolve;
    IndexOfIsFirst(g[d].body.ents, name);
  }
}
