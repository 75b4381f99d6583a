/** The changes the file system makes to the inode graph. Each keeps the tree invariant, and each is
    characterised by what every path leads to afterwards. */
module GraphOps {
  import opened Bytes
  import opened Layout
  import opened Graph

  ghost predicate IsDir(g: Graph, d: nat)
  {
    d in g && g[d].body.Dir?
  }

  function SetEntries(g: Graph, d: nat, ents: seq<Entry>): Graph
    requires d in g
  {
    g[d := Obj(g[d].parent, Dir(ents))]
  }

  /** dp is the path of d, and d has no other. */
  ghost predicate OnlyPath(g: Graph, d: nat, dp: Path)
  {
    Resolve(g, dp) == Some(d) && forall q :: Resolve(g, q) == Some(d) ==> q == dp
  }

  lemma TreePaths(g: Graph, d: nat, dp: Path)
    requires Tree(g) && Resolve(g, dp) == Some(d)
    ensures OnlyPath(g, d, dp)
  {
    hide Tree, Child, Resolve;
    forall q | Resolve(g, q) == Some(d)
      ensures q == dp
    {
      PathUnique(g, q, dp);
    }
  }

  lemma ResolveSnoc(g: Graph, q: Path, x: Name)
    ensures Resolve(g, q + [x]) == if Resolve(g, q).Some? then Child(g, Resolve(g, q).value, x) else None
  {
    assert (q + [x])[..|q|] == q;
  }

  lemma PrefixSnoc(np: Path, q: Path, x: Name)
    ensures np <= q + [x] <==> np <= q || np == q + [x]
    ensures np != [] ==> (q + [x] == np <==> q == np[..|np| - 1] && x == np[|np| - 1])
  {
    if np <= q + [x] && np != q + [x] {
      assert |np| <= |q| && (q + [x])[..|np|] == q[..|np|];
    }
  }

  lemma Entries0(g: Graph, d: nat)
    requires Tree(g) && IsDir(g, d)
    ensures DirOk(g, d, g[d].body.ents)
  {
  }

  // ---------------------------------------------------------------- a changed entry list stays well formed

  lemma UniqueAppend(ents: seq<Entry>, e: Entry)
    requires Unique(ents) && forall i | 0 <= i < |ents| :: ents[i].name != e.name && ents[i].id != e.id
    ensures Unique(ents + [e])
  {
  }

  lemma UniqueRemove(ents: seq<Entry>, i: nat)
    requires Unique(ents) && i < |ents|
    ensures Unique(RemoveAt(ents, i))
    ensures forall k | 0 <= k < |ents| - 1 ::
              RemoveAt(ents, i)[k].name != ents[i].name && RemoveAt(ents, i)[k].id != ents[i].id
  {
    var r := RemoveAt(ents, i);
    assert forall k | 0 <= k < |r| :: r[k] == ents[if k < i then k else k + 1];
  }

  lemma AllOkRemove(g: Graph, d: nat, ents: seq<Entry>, i: nat)
    requires AllOk(g, d, ents) && i < |ents|
    ensures AllOk(g, d, RemoveAt(ents, i))
  {
    var r := RemoveAt(ents, i);
    forall k | 0 <= k < |r|
      ensures EntryOk(g, d, r[k])
    {
      assert EntryOk(g, d, ents[if k < i then k else k + 1]);
    }
  }

  lemma AllOkFrame(g: Graph, g': Graph, d: nat, ents: seq<Entry>)
    requires AllOk(g, d, ents)
    requires forall i | 0 <= i < |ents| && ents[i].id in g ::
               ents[i].id in g' && g'[ents[i].id].parent == g[ents[i].id].parent
    ensures AllOk(g', d, ents)
  {
    hide ValidName;
    forall i | 0 <= i < |ents|
      ensures EntryOk(g', d, ents[i])
    {
      assert EntryOk(g, d, ents[i]);
    }
  }

  lemma AllOkAppend(g: Graph, d: nat, ents: seq<Entry>, e: Entry)
    requires AllOk(g, d, ents) && EntryOk(g, d, e)
    ensures AllOk(g, d, ents + [e])
  {
    hide EntryOk;
  }

  // ---------------------------------------------------------------- searching a changed entry list

  lemma {:induction false} IndexOfAppend(ents: seq<Entry>, e: Entry, name: Name)
    ensures IndexOf(ents + [e], name) ==
            if IndexOf(ents, name) < |ents| then IndexOf(ents, name)
            else if e.name == name then |ents| else |ents| + 1
  {
    if ents != [] && ents[0].name != name {
      assert (ents + [e])[1..] == ents[1..] + [e];
      IndexOfAppend(ents[1..], e, name);
    }
  }

  /** With unique names, removing the entry of a name leaves none of that name and shifts the rest. */
  lemma IndexOfRemove(ents: seq<Entry>, i: nat, name: Name)
    requires i < |ents| && Unique(ents)
    ensures var j, j' := IndexOf(ents, name), IndexOf(RemoveAt(ents, i), name);
            && (ents[i].name == name ==> j == i && j' == |ents| - 1)
            && (ents[i].name != name ==> j' == if j < i then j else j - 1)
  {
    var r := RemoveAt(ents, i);
    var j, j' := IndexOf(ents, name), IndexOf(r, name);
    IndexOfIsFirst(ents, name);
    IndexOfIsFirst(r, name);
    forall k | 0 <= k < |r|
      ensures r[k] == ents[if k < i then k else k + 1]
    {
    }
    hide IndexOf;
    if j < |ents| && j != i {
      assert r[if j < i then j else j - 1].name == name;
    }
    if j' < |r| {
      assert ents[if j' < i then j' else j' + 1].name == name;
    }
  }

  lemma LookupAppend(ents: seq<Entry>, e: Entry, x: Name)
    requires Lookup(ents, e.name) == None
    ensures Lookup(ents + [e], x) == if x == e.name then Some(e.id) else Lookup(ents, x)
  {
    IndexOfAppend(ents, e, x);
    hide IndexOf;
  }

  lemma LookupRemove(ents: seq<Entry>, name: Name, x: Name)
    requires Unique(ents) && Lookup(ents, name).Some?
    ensures Lookup(RemoveAt(ents, IndexOf(ents, name)), x) == if x == name then None else Lookup(ents, x)
  {
    hide IndexOf, Unique, RemoveAt;
    var i, j := IndexOf(ents, name), IndexOf(ents, x);
    IndexOfRemove(ents, i, x);
    RemoveAtIs(ents, i);
  }

  lemma RemoveAtIs<T>(s: seq<T>, i: nat)
    requires i < |s|
    ensures |RemoveAt(s, i)| == |s| - 1
    ensures forall k | 0 <= k < |s| - 1 :: RemoveAt(s, i)[k] == s[if k < i then k else k + 1]
  {
  }

  /** Adding an entry of a fresh name and then removing that name gives back the same list. */
  lemma AddThenRemove(ents: seq<Entry>, e: Entry)
    requires IndexOf(ents, e.name) == |ents|
    ensures var s := ents + [e];
            IndexOf(s, e.name) < |s| && RemoveAt(s, IndexOf(s, e.name)) == ents
  {
    IndexOfAppend(ents, e, e.name);
  }

  // ---------------------------------------------------------------- a new inode with its entry

  /** mkdir and open: inode n appears, with an entry at the end of directory d. */
  function AddChild(g: Graph, d: nat, name: Name, n: nat, body: Body): Graph
    requires IsDir(g, d)
  {
    SetEntries(g[n := Obj(d + 2, body)], d, g[d].body.ents + [Entry(name, n)])
  }

  ghost predicate CanAdd(g: Graph, d: nat, name: Name, n: nat, body: Body)
  {
    && Tree(g) && IsDir(g, d) && Child(g, d, name) == None && ValidName(name)
    && n !in g && n < NODE_TABLE_BLOCKS
    && body in {Dir([]), File([], false)}
  }

  ghost predicate AddRule(g: Graph, g': Graph, d: nat, name: Name, n: nat)
  {
    forall e, x :: Child(g', e, x) == if e == d && x == name then Some(n) else if e == n then None else Child(g, e, x)
  }

  lemma AddChildRule(g: Graph, d: nat, name: Name, n: nat, body: Body)
    requires CanAdd(g, d, name, n, body)
    ensures AddRule(g, AddChild(g, d, name, n, body), d, name, n)
  {
    hide Tree, Lookup;
    var g' := AddChild(g, d, name, n, body);
    forall e, x
      ensures Child(g', e, x) == if e == d && x == name then Some(n) else if e == n then None else Child(g, e, x)
    {
      LookupAppend(g[d].body.ents, Entry(name, n), x);
      assert Lookup([], x) == None by { EmptyLookup(x); }
    }
  }

  lemma EmptyLookup(x: Name)
    ensures Lookup([], x) == None
  {
  }

  function AfterAdd(g: Graph, n: nat, np: Path, p: Path): Option<nat>
  {
    if p == np then Some(n) else if np <= p then None else Resolve(g, p)
  }

  lemma AddChildStep(g: Graph, g': Graph, d: nat, name: Name, n: nat, dp: Path, q: Path, x: Name)
    requires AddRule(g, g', d, name, n) && OnlyPath(g, d, dp) && forall p :: Resolve(g, p) != Some(n)
    requires Resolve(g', q) == AfterAdd(g, n, dp + [name], q)
    ensures Resolve(g', q + [x]) == AfterAdd(g, n, dp + [name], q + [x])
  {
    var np := dp + [name];
    assert np[..|np| - 1] == dp;
    PrefixSnoc(np, q, x);
    ResolveSnoc(g, q, x);
    ResolveSnoc(g', q, x);
    hide Child, Resolve;
  }

  /** After adding, the new path leads to the new inode, nothing is below it, and every other path
      leads where it did. */
  lemma {:induction false} AddChildResolve(g: Graph, g': Graph, d: nat, name: Name, n: nat, dp: Path, p: Path)
    requires AddRule(g, g', d, name, n) && OnlyPath(g, d, dp) && forall q :: Resolve(g, q) != Some(n)
    ensures Resolve(g', p) == AfterAdd(g, n, dp + [name], p)
    decreases |p|
  {
    hide AddRule, OnlyPath;
    if p != [] {
      var q, x := p[..|p| - 1], p[|p| - 1];
      AddChildResolve(g, g', d, name, n, dp, q);
      AddChildStep(g, g', d, name, n, dp, q, x);
      assert p == q + [x];
    }
  }

  lemma NotLiveNoPath(g: Graph, n: nat)
    requires Tree(g) && n !in g
    ensures forall q :: Resolve(g, q) != Some(n)
  {
    hide Tree, Child, Resolve;
    forall q | Resolve(g, q) == Some(n)
      ensures false
    {
      ResolvedIsLive(g, q);
    }
  }

  lemma AddChildTree(g: Graph, d: nat, name: Name, n: nat, body: Body)
    requires CanAdd(g, d, name, n, body)
    ensures Tree(AddChild(g, d, name, n, body))
  {
    hide Reached, DirOk, Child, ValidName;
    var g' := AddChild(g, d, name, n, body);
    forall m | m in g'
      ensures Reached(g', m)
    {
      AddChildReaches(g, d, name, n, body, m);
    }
    forall e | e in g' && g'[e].body.Dir?
      ensures DirOk(g', e, g'[e].body.ents)
    {
      AddChildDirOk(g, d, name, n, body, e);
    }
    RootIsLive(g);
  }

  lemma AddChildReaches(g: Graph, d: nat, name: Name, n: nat, body: Body, m: nat)
    requires CanAdd(g, d, name, n, body) && m in AddChild(g, d, name, n, body)
    ensures Reached(AddChild(g, d, name, n, body), m)
  {
    hide Tree, Child;
    var g' := AddChild(g, d, name, n, body);
    var dp := PathTo(g, d);
    var np := dp + [name];
    TreePaths(g, d, dp);
    NotLiveNoPath(g, n);
    AddChildRule(g, d, name, n, body);
    assert np[..|np| - 1] == dp;
    if m == n {
      AddChildResolve(g, g', d, name, n, dp, np);
    } else {
      var p := PathTo(g, m);
      assert !(np <= p) by {
        if np <= p {
          PrefixResolves(g, p, np);
        }
      }
      AddChildResolve(g, g', d, name, n, dp, p);
    }
  }

  lemma FreshName(g: Graph, d: nat, name: Name)
    requires IsDir(g, d) && Child(g, d, name) == None
    ensures IndexOf(g[d].body.ents, name) == |g[d].body.ents|
    ensures forall i | 0 <= i < |g[d].body.ents| :: g[d].body.ents[i].name != name
  {
    IndexOfIsFirst(g[d].body.ents, name);
  }

  lemma FreshId(g: Graph, d: nat, n: nat)
    requires Tree(g) && IsDir(g, d) && n !in g
    ensures forall i | 0 <= i < |g[d].body.ents| :: g[d].body.ents[i].id != n
  {
    Entries0(g, d);
    hide Tree;
    forall i | 0 <= i < |g[d].body.ents|
      ensures g[d].body.ents[i].id != n
    {
      assert EntryOk(g, d, g[d].body.ents[i]);
    }
  }

  lemma AddChildDirOk(g: Graph, d: nat, name: Name, n: nat, body: Body, e: nat)
    requires CanAdd(g, d, name, n, body)
    requires IsDir(AddChild(g, d, name, n, body), e)
    ensures DirOk(AddChild(g, d, name, n, body), e, AddChild(g, d, name, n, body)[e].body.ents)
  {
    RootIsLive(g);
    FreshName(g, d, name);
    FreshId(g, d, n);
    hide Tree, AllOk, Unique, ValidName;
    var g' := AddChild(g, d, name, n, body);
    if e == n {
      assert AllOk(g', e, []) && Unique([]) by { EmptyDirOk(g', e); }
    } else {
      var ents := g[e].body.ents;
      Entries0(g, e);
      AllOkFrame(g, g', e, ents);
      if e == d {
        AllOkAppend(g', d, ents, Entry(name, n));
        UniqueAppend(ents, Entry(name, n));
      }
    }
  }

  lemma EmptyDirOk(g: Graph, d: nat)
    ensures DirOk(g, d, [])
  {
  }

  // ---------------------------------------------------------------- a leaf goes with its entry

  /** rename's first half, and part of remove: the entry goes. */
  function DropEntryOf(g: Graph, d: nat, name: Name): Graph
    requires IsDir(g, d) && Child(g, d, name).Some?
  {
    SetEntries(g, d, RemoveAt(g[d].body.ents, IndexOf(g[d].body.ents, name)))
  }

  /** remove and rmdir: the entry goes, and the inode with it. */
  function RemoveChild(g: Graph, d: nat, name: Name): Graph
    requires IsDir(g, d) && Child(g, d, name).Some?
  {
    DropEntryOf(g, d, name) - {Child(g, d, name).value}
  }

  ghost predicate CanRemove(g: Graph, d: nat, name: Name)
  {
    && Tree(g) && IsDir(g, d) && Child(g, d, name).Some?
    && var n := Child(g, d, name).value; n in g && (g[n].body.File? || g[n].body == Dir([]))
  }

  ghost predicate RemoveRule(g: Graph, g': Graph, d: nat, name: Name, n: nat)
  {
    forall e, x :: Child(g', e, x) == if e == n || (e == d && x == name) then None else Child(g, e, x)
  }

  lemma DropRule(g: Graph, d: nat, name: Name, e: nat, x: Name)
    requires Tree(g) && IsDir(g, d) && Child(g, d, name).Some?
    ensures Child(DropEntryOf(g, d, name), e, x) == if e == d && x == name then None else Child(g, e, x)
  {
    Entries0(g, d);
    hide Tree, Unique, Lookup, IndexOf;
    LookupRemove(g[d].body.ents, name, x);
  }

  lemma RemoveChildRule(g: Graph, d: nat, name: Name)
    requires CanRemove(g, d, name)
    ensures RemoveRule(g, RemoveChild(g, d, name), d, name, Child(g, d, name).value)
  {
    hide Tree;
    var g1, n := DropEntryOf(g, d, name), Child(g, d, name).value;
    forall e, x
      ensures Child(RemoveChild(g, d, name), e, x) == if e == n || (e == d && x == name) then None else Child(g, e, x)
    {
      DropRule(g, d, name, e, x);
    }
  }

  function AfterRemove(g: Graph, np: Path, p: Path): Option<nat>
  {
    if np <= p then None else Resolve(g, p)
  }

  lemma RemoveChildStep(g: Graph, g': Graph, d: nat, name: Name, n: nat, dp: Path, q: Path, x: Name)
    requires RemoveRule(g, g', d, name, n) && OnlyPath(g, d, dp) && OnlyPath(g, n, dp + [name])
    requires Resolve(g', q) == AfterRemove(g, dp + [name], q)
    ensures Resolve(g', q + [x]) == AfterRemove(g, dp + [name], q + [x])
  {
    var np := dp + [name];
    assert np[..|np| - 1] == dp;
    PrefixSnoc(np, q, x);
    ResolveSnoc(g, q, x);
    ResolveSnoc(g', q, x);
    hide Child, Resolve;
  }

  /** After a removal the removed path leads nowhere and every other path leads where it did. */
  lemma {:induction false} RemoveChildResolve(g: Graph, g': Graph, d: nat, name: Name, n: nat, dp: Path, p: Path)
    requires RemoveRule(g, g', d, name, n) && OnlyPath(g, d, dp) && OnlyPath(g, n, dp + [name])
    ensures Resolve(g', p) == AfterRemove(g, dp + [name], p)
    decreases |p|
  {
    hide RemoveRule, OnlyPath;
    if p != [] {
      var q, x := p[..|p| - 1], p[|p| - 1];
      RemoveChildResolve(g, g', d, name, n, dp, q);
      RemoveChildStep(g, g', d, name, n, dp, q, x);
      assert p == q + [x];
    }
  }

  lemma RemovedPath(g: Graph, d: nat, name: Name, dp: Path)
    requires CanRemove(g, d, name) && Resolve(g, dp) == Some(d)
    ensures var n := Child(g, d, name).value;
            n != d && n != 0 && OnlyPath(g, d, dp) && OnlyPath(g, n, dp + [name])
            && forall x :: Child(g, n, x) == None
  {
    ChildIs(g, d, name);
    TreePaths(g, d, dp);
    var np := dp + [name];
    assert np[..|np| - 1] == dp;
    TreePaths(g, Child(g, d, name).value, np);
  }

  lemma RemoveChildTree(g: Graph, d: nat, name: Name)
    requires CanRemove(g, d, name)
    ensures Tree(RemoveChild(g, d, name))
  {
    hide Reached, DirOk, Child, Resolve, OnlyPath, ValidName;
    var g' := RemoveChild(g, d, name);
    var dp := PathTo(g, d);
    RemovedPath(g, d, name, dp);
    forall m | m in g'
      ensures Reached(g', m)
    {
      RemoveChildReaches(g, d, name, dp, m);
    }
    forall e | e in g' && g'[e].body.Dir?
      ensures DirOk(g', e, g'[e].body.ents)
    {
      RemoveChildDirOk(g, d, name, e);
    }
    RootIsLive(g);
  }

  lemma RemoveChildReaches(g: Graph, d: nat, name: Name, dp: Path, m: nat)
    requires CanRemove(g, d, name) && Resolve(g, dp) == Some(d)
    requires m in g && m != Child(g, d, name).value
    ensures Reached(RemoveChild(g, d, name), m)
  {
    hide Tree, Child;
    RemovedPath(g, d, name, dp);
    RemoveChildRule(g, d, name);
    var p := PathTo(g, m);
    var np, n := dp + [name], Child(g, d, name).value;
    if np <= p {
      LeafHasNothingBelow(g, np, p);
    }
    RemoveChildResolve(g, RemoveChild(g, d, name), d, name, n, dp, p);
  }

  lemma LeafHasNothingBelow(g: Graph, np: Path, p: Path)
    requires np <= p && Resolve(g, p).Some? && Resolve(g, np).Some?
    requires forall x :: Child(g, Resolve(g, np).value, x) == None
    ensures p == np
  {
    hide Child;
    if p != np {
      ResolveSnoc(g, np, p[|np|]);
      LongerPrefix(np, p);
      PrefixResolves(g, p, np + [p[|np|]]);
    }
  }

  lemma LongerPrefix(np: Path, p: Path)
    requires np < p
    ensures np + [p[|np|]] <= p
  {
  }

  /** What is left of a directory's entries when one is dropped. */
  lemma DroppedEntries(g: Graph, d: nat, name: Name)
    requires Tree(g) && IsDir(g, d) && Child(g, d, name).Some?
    ensures var ents := g[d].body.ents;
            var i := IndexOf(ents, name);
            && i < |ents|
            && var r := RemoveAt(ents, i);
               DirOk(g, d, r) && forall k | 0 <= k < |r| :: r[k].name != name && r[k].id != Child(g, d, name).value
  {
    Entries0(g, d);
    hide Tree, AllOk, Unique;
    var ents := g[d].body.ents;
    AllOkRemove(g, d, ents, IndexOf(ents, name));
    UniqueRemove(ents, IndexOf(ents, name));
  }

  /** No other directory has an entry for the child of this one. */
  lemma NoOtherEntry(g: Graph, d: nat, name: Name, e: nat)
    requires Tree(g) && Child(g, d, name).Some? && IsDir(g, e) && e != d
    ensures forall k | 0 <= k < |g[e].body.ents| :: g[e].body.ents[k].id != Child(g, d, name).value
  {
    ChildIs(g, d, name);
    Entries0(g, e);
    hide Tree, Child, ValidName;
    forall k | 0 <= k < |g[e].body.ents|
      ensures g[e].body.ents[k].id != Child(g, d, name).value
    {
      assert EntryOk(g, e, g[e].body.ents[k]);
    }
  }

  lemma RemoveChildDirOk(g: Graph, d: nat, name: Name, e: nat)
    requires CanRemove(g, d, name)
    requires IsDir(RemoveChild(g, d, name), e)
    ensures DirOk(RemoveChild(g, d, name), e, RemoveChild(g, d, name)[e].body.ents)
  {
    hide Tree, AllOk, Unique, Child;
    var g' := RemoveChild(g, d, name);
    if e == d {
      DroppedEntries(g, d, name);
    } else {
      Entries0(g, e);
      NoOtherEntry(g, d, name, e);
    }
    AllOkFrame(g, g', e, g'[e].body.ents);
  }

  // ---------------------------------------------------------------- an entry moves

  /** rename: drop the old entry, append the new one, then set the parent field. */
  function Move(g: Graph, d1: nat, name1: Name, d2: nat, name2: Name): Graph
    requires IsDir(g, d1) && Child(g, d1, name1).Some? && IsDir(g, d2)
    requires Child(g, d1, name1).value in g
  {
    var m := Child(g, d1, name1).value;
    var g1 := DropEntryOf(g, d1, name1);
    var g2 := SetEntries(g1, d2, g1[d2].body.ents + [Entry(name2, m)]);
    g2[m := Obj(d2 + 2, g2[m].body)]
  }

  /** What a rename is given: two directories by their paths, and two names. */
  ghost predicate RenameAsked(g: Graph, d1: nat, name1: Name, d2: nat, name2: Name, dp1: Path, dp2: Path)
  {
    && Tree(g) && IsDir(g, d1) && IsDir(g, d2) && name1 != [] && ValidName(name2)
    && Resolve(g, dp1) == Some(d1) && Resolve(g, dp2) == Some(d2)
  }

  /** The old name has an entry. */
  ghost predicate MoveAsked(g: Graph, d1: nat, name1: Name, d2: nat, name2: Name, dp1: Path, dp2: Path)
  {
    RenameAsked(g, d1, name1, d2, name2, dp1, dp2) && Child(g, d1, name1).Some?
  }

  /** rename without an old entry: the root is entered under the new name, and the directory that lists it
      becomes its parent. */
  function RootEntered(g: Graph, d: nat, name: Name): Graph
    requires IsDir(g, d) && 0 in g
  {
    var g2 := SetEntries(g, d, g[d].body.ents + [Entry(name, 0)]);
    g2[0 := Obj(d + 2, g2[0].body)]
  }

  /** What a rename makes of the graph. */
  ghost predicate RenamedTo(g: Graph, g': Graph, d1: nat, name1: Name, d2: nat, name2: Name)
  {
    && IsDir(g, d1) && IsDir(g, d2) && 0 in g && (Child(g, d1, name1).Some? ==> Child(g, d1, name1).value in g)
    && g' == if Child(g, d1, name1).Some? then Move(g, d1, name1, d2, name2) else RootEntered(g, d2, name2)
  }

  /** The new name is free (or is the old one), and the target directory is not the moved inode or inside it. */
  ghost predicate CanMove(g: Graph, d1: nat, name1: Name, d2: nat, name2: Name, dp1: Path, dp2: Path)
  {
    && MoveAsked(g, d1, name1, d2, name2, dp1, dp2)
    && (Child(g, d2, name2) == None || (d2 == d1 && name2 == name1))
    && !(dp1 + [name1] <= dp2)
  }

  ghost predicate MoveRule(g: Graph, g': Graph, d1: nat, name1: Name, d2: nat, name2: Name)
  {
    forall e, x :: Child(g', e, x) ==
                   if e == d2 && x == name2 then Child(g, d1, name1)
                   else if e == d1 && x == name1 then None
                   else Child(g, e, x)
  }

  lemma MovedIsApart(g: Graph, d1: nat, name1: Name, d2: nat, name2: Name, dp1: Path, dp2: Path)
    requires CanMove(g, d1, name1, d2, name2, dp1, dp2)
    ensures var m := Child(g, d1, name1).value;
            m in g && m != d1 && m != d2 && m != 0 && Resolve(g, dp1 + [name1]) == Some(m)
    ensures OnlyPath(g, d1, dp1) && OnlyPath(g, d2, dp2)
  {
    hide Tree, Child;
    ChildIs(g, d1, name1);
    TreePaths(g, d1, dp1);
    TreePaths(g, d2, dp2);
    var op := dp1 + [name1];
    ResolveSnoc(g, dp1, name1);
    assert op != dp1 && op != dp2;
  }

  lemma AppendRule(g: Graph, d: nat, name: Name, m: nat, e: nat, x: Name)
    requires IsDir(g, d) && Child(g, d, name) == None
    ensures Child(SetEntries(g, d, g[d].body.ents + [Entry(name, m)]), e, x) ==
            if e == d && x == name then Some(m) else Child(g, e, x)
  {
    LookupAppend(g[d].body.ents, Entry(name, m), x);
    hide Lookup;
  }

  lemma ParentRule(g: Graph, m: nat, parent: nat, e: nat, x: Name)
    requires m in g
    ensures Child(g[m := Obj(parent, g[m].body)], e, x) == Child(g, e, x)
  {
    hide IndexOf;
  }

  lemma MoveChildRule(g: Graph, d1: nat, name1: Name, d2: nat, name2: Name, dp1: Path, dp2: Path)
    requires CanMove(g, d1, name1, d2, name2, dp1, dp2)
    ensures Child(g, d1, name1).value in g
    ensures MoveRule(g, Move(g, d1, name1, d2, name2), d1, name1, d2, name2)
  {
    hide Tree, Resolve, OnlyPath, Child, ValidName, IndexOf, RemoveAt;
    MovedIsApart(g, d1, name1, d2, name2, dp1, dp2);
    var g1, m := DropEntryOf(g, d1, name1), Child(g, d1, name1).value;
    var g2 := SetEntries(g1, d2, g1[d2].body.ents + [Entry(name2, m)]);
    forall e, x
      ensures Child(Move(g, d1, name1, d2, name2), e, x) ==
              if e == d2 && x == name2 then Some(m) else if e == d1 && x == name1 then None else Child(g, e, x)
    {
      DropRule(g, d1, name1, e, x);
      DropRule(g, d1, name1, d2, name2);
      AppendRule(g1, d2, name2, m, e, x);
      ParentRule(g2, m, d2 + 2, e, x);
    }
  }

  function AfterMove(g: Graph, op: Path, np: Path, p: Path): Option<nat>
  {
    if np <= p then Resolve(g, op + p[|np|..]) else if op <= p then None else Resolve(g, p)
  }

  /** What MoveResolve needs to know about the graph. */
  ghost predicate Moved(g: Graph, g': Graph, d1: nat, name1: Name, d2: nat, name2: Name, dp1: Path, dp2: Path)
  {
    && MoveRule(g, g', d1, name1, d2, name2)
    && OnlyPath(g, d1, dp1) && OnlyPath(g, d2, dp2)
    && (Child(g, d2, name2) == None || (d2 == d1 && name2 == name1))
    && !(dp1 + [name1] <= dp2)
  }

  /** Below the new name: the path it stood for is longer than either directory's. */
  lemma MoveStepBelow(g: Graph, g': Graph, d1: nat, name1: Name, d2: nat, name2: Name, dp1: Path, dp2: Path, q: Path,
                      x: Name)
    requires Moved(g, g', d1, name1, d2, name2, dp1, dp2) && dp2 + [name2] <= q
    requires Resolve(g', q) == AfterMove(g, dp1 + [name1], dp2 + [name2], q)
    ensures Resolve(g', q + [x]) == AfterMove(g, dp1 + [name1], dp2 + [name2], q + [x])
  {
    hide Child, Resolve, AfterMove;
    var op, np := dp1 + [name1], dp2 + [name2];
    var from := op + q[|np|..];
    AfterMoveBelow(g, op, np, q, x);
    ResolveSnoc(g', q, x);
    assert from != dp1 && from != dp2 by {
      assert op <= from && |op| > |dp1|;
    }
  }

  lemma AfterMoveBelow(g: Graph, op: Path, np: Path, q: Path, x: Name)
    requires np <= q
    ensures var from := op + q[|np|..];
            && AfterMove(g, op, np, q) == Resolve(g, from)
            && AfterMove(g, op, np, q + [x]) ==
               if Resolve(g, from).Some? then Child(g, Resolve(g, from).value, x) else None
  {
    var from := op + q[|np|..];
    assert np <= q + [x];
    assert op + (q + [x])[|np|..] == from + [x];
    ResolveSnoc(g, from, x);
    hide Child, Resolve;
  }

  lemma MoveStep(g: Graph, g': Graph, d1: nat, name1: Name, d2: nat, name2: Name, dp1: Path, dp2: Path, q: Path,
                 x: Name)
    requires Moved(g, g', d1, name1, d2, name2, dp1, dp2) && !(dp2 + [name2] <= q)
    requires Resolve(g', q) == AfterMove(g, dp1 + [name1], dp2 + [name2], q)
    ensures Resolve(g', q + [x]) == AfterMove(g, dp1 + [name1], dp2 + [name2], q + [x])
  {
    hide Child, Resolve, AfterMove;
    var op, np := dp1 + [name1], dp2 + [name2];
    PrefixSnoc(op, q, x);
    ResolveSnoc(g, q, x);
    ResolveSnoc(g', q, x);
    ResolveSnoc(g, dp1, name1);
    ResolveSnoc(g, dp2, name2);
    AfterMoveAside(g, op, np, q, x);
    if q + [x] == np {
      assert q == dp2 && x == name2;
    } else if q + [x] == op {
      assert q == dp1 && x == name1;
    }
  }

  /** Next to the new name or at it. */
  lemma AfterMoveAside(g: Graph, op: Path, np: Path, q: Path, x: Name)
    requires !(np <= q) && np != []
    ensures AfterMove(g, op, np, q) == if op <= q then None else Resolve(g, q)
    ensures AfterMove(g, op, np, q + [x]) ==
            if q + [x] == np then Resolve(g, op) else if op <= q + [x] then None else Resolve(g, q + [x])
    ensures q + [x] == np <==> q == np[..|np| - 1] && x == np[|np| - 1]
  {
    hide Resolve;
    PrefixSnoc(np, q, x);
    assert op + np[|np|..] == op;
  }

  lemma MoveMoves(g: Graph, d1: nat, name1: Name, d2: nat, name2: Name, dp1: Path, dp2: Path)
    requires CanMove(g, d1, name1, d2, name2, dp1, dp2)
    ensures Child(g, d1, name1).value in g
    ensures Moved(g, Move(g, d1, name1, d2, name2), d1, name1, d2, name2, dp1, dp2)
  {
    hide Tree, Child, OnlyPath, MoveRule, Resolve;
    MovedIsApart(g, d1, name1, d2, name2, dp1, dp2);
    MoveChildRule(g, d1, name1, d2, name2, dp1, dp2);
  }

  /** After a move every path at or below the new name leads where the same path at or below the old
      name led; the old name leads nowhere; all other paths lead where they did. */
  lemma {:induction false} MoveResolve(g: Graph, g': Graph, d1: nat, name1: Name, d2: nat, name2: Name, dp1: Path,
                                       dp2: Path, p: Path)
    requires Moved(g, g', d1, name1, d2, name2, dp1, dp2)
    ensures Resolve(g', p) == AfterMove(g, dp1 + [name1], dp2 + [name2], p)
    decreases |p|
  {
    hide Moved;
    if p == [] {
      assert Resolve(g', p) == Some(0) == Resolve(g, p);
    } else {
      var q, x := p[..|p| - 1], p[|p| - 1];
      MoveResolve(g, g', d1, name1, d2, name2, dp1, dp2, q);
      if dp2 + [name2] <= q {
        MoveStepBelow(g, g', d1, name1, d2, name2, dp1, dp2, q, x);
      } else {
        MoveStep(g, g', d1, name1, d2, name2, dp1, dp2, q, x);
      }
      assert p == q + [x];
    }
  }

  lemma MoveTree(g: Graph, d1: nat, name1: Name, d2: nat, name2: Name, dp1: Path, dp2: Path)
    requires CanMove(g, d1, name1, d2, name2, dp1, dp2)
    ensures Child(g, d1, name1).value in g
    ensures Tree(Move(g, d1, name1, d2, name2))
  {
    hide Reached, DirOk, Child, Resolve, OnlyPath, ValidName;
    MovedIsApart(g, d1, name1, d2, name2, dp1, dp2);
    var g' := Move(g, d1, name1, d2, name2);
    forall n | n in g'
      ensures Reached(g', n)
    {
      MoveReaches(g, d1, name1, d2, name2, dp1, dp2, n);
    }
    forall e | e in g' && g'[e].body.Dir?
      ensures DirOk(g', e, g'[e].body.ents)
    {
      MoveDirOk(g, d1, name1, d2, name2, dp1, dp2, e);
    }
    RootIsLive(g);
  }

  lemma MoveReaches(g: Graph, d1: nat, name1: Name, d2: nat, name2: Name, dp1: Path, dp2: Path, n: nat)
    requires CanMove(g, d1, name1, d2, name2, dp1, dp2) && n in g
    ensures Child(g, d1, name1).value in g
    ensures Reached(Move(g, d1, name1, d2, name2), n)
  {
    hide Tree, Child, Resolve, Reached, Moved;
    MoveMoves(g, d1, name1, d2, name2, dp1, dp2);
    var p := PathTo(g, n);
    if !(dp1 + [name1] <= p) {
      NewNameIsFree(g, d1, name1, d2, name2, dp1, dp2, p);
    }
    MovedReaches(g, Move(g, d1, name1, d2, name2), d1, name1, d2, name2, dp1, dp2, p);
  }

  /** The inode a path led to is reached after the move, by the path with its head renamed. */
  lemma MovedReaches(g: Graph, g': Graph, d1: nat, name1: Name, d2: nat, name2: Name, dp1: Path, dp2: Path, p: Path)
    requires Moved(g, g', d1, name1, d2, name2, dp1, dp2) && Resolve(g, p).Some?
    requires !(dp1 + [name1] <= p) ==> !(dp2 + [name2] <= p)
    ensures Reached(g', Resolve(g, p).value)
  {
    hide Moved, Child;
    var op, np := dp1 + [name1], dp2 + [name2];
    if op <= p {
      var p' := np + p[|op|..];
      assert op + p'[|np|..] == p;
      MoveResolve(g, g', d1, name1, d2, name2, dp1, dp2, p');
    } else {
      MoveResolve(g, g', d1, name1, d2, name2, dp1, dp2, p);
    }
  }

  lemma NewNameIsFree(g: Graph, d1: nat, name1: Name, d2: nat, name2: Name, dp1: Path, dp2: Path, p: Path)
    requires CanMove(g, d1, name1, d2, name2, dp1, dp2) && Resolve(g, p).Some?
    requires !(dp1 + [name1] <= p)
    ensures !(dp2 + [name2] <= p)
  {
    MovedIsApart(g, d1, name1, d2, name2, dp1, dp2);
    hide Tree, Child;
    if dp2 + [name2] <= p {
      PrefixResolves(g, p, dp2 + [name2]);
      ResolveSnoc(g, dp2, name2);
    }
  }

  lemma MoveDirOk(g: Graph, d1: nat, name1: Name, d2: nat, name2: Name, dp1: Path, dp2: Path, e: nat)
    requires CanMove(g, d1, name1, d2, name2, dp1, dp2)
    requires IsDir(g, e)
    ensures Child(g, d1, name1).value in g
    ensures var g' := Move(g, d1, name1, d2, name2); IsDir(g', e) && DirOk(g', e, g'[e].body.ents)
  {
    MovedIsApart(g, d1, name1, d2, name2, dp1, dp2);
    hide Tree, Resolve, OnlyPath, ValidName, IndexOf, AllOk, Unique, Child;
    var g', m := Move(g, d1, name1, d2, name2), Child(g, d1, name1).value;
    var kept := DropEntryOf(g, d1, name1)[e].body.ents;
    KeptAfterMove(g, d1, name1, d2, name2, dp1, dp2, e);
    AllOkFrame(g, g', e, kept);
    if e == d2 {
      assert EntryOk(g', e, Entry(name2, m));
      AllOkAppend(g', e, kept, Entry(name2, m));
      UniqueAppend(kept, Entry(name2, m));
    }
  }

  /** The entries a directory keeps are well formed, lead elsewhere than to the moved inode, and leave
      the new name free. */
  lemma KeptAfterMove(g: Graph, d1: nat, name1: Name, d2: nat, name2: Name, dp1: Path, dp2: Path, e: nat)
    requires CanMove(g, d1, name1, d2, name2, dp1, dp2) && IsDir(g, e)
    ensures var kept := DropEntryOf(g, d1, name1)[e].body.ents;
            && DirOk(g, e, kept)
            && forall k | 0 <= k < |kept| ::
                 kept[k].id != Child(g, d1, name1).value && (e == d2 ==> kept[k].name != name2)
  {
    hide Tree, Resolve, OnlyPath, AllOk, Unique, ValidName, IndexOf;
    if e != d1 {
      Entries0(g, e);
      NoOtherEntry(g, d1, name1, e);
      if e == d2 {
        FreshName(g, d2, name2);
      }
    } else {
      DroppedEntries(g, d1, name1);
      if e == d2 && name1 != name2 {
        FreshName(g, d2, name2);
        KeptNames(g[e].body.ents, IndexOf(g[e].body.ents, name1), name2);
      }
    }
  }

  lemma KeptNames(ents: seq<Entry>, i: nat, name: Name)
    requires i < |ents| && IndexOf(ents, name) == |ents|
    ensures forall k | 0 <= k < |ents| - 1 :: RemoveAt(ents, i)[k].name != name
  {
    IndexOfIsFirst(ents, name);
    assert forall k | 0 <= k < |ents| - 1 :: RemoveAt(ents, i)[k] == ents[if k < i then k else k + 1];
  }

  // ---------------------------------------------------------------- the only moves that keep the tree

  /** A move keeps the tree exactly when the new name is free (or is the old one) and the target directory is
      not inside what moves. A name that is taken is listed twice; a directory moved into itself is cut off
      from the root. */
  lemma MoveExact(g: Graph, d1: nat, name1: Name, d2: nat, name2: Name, dp1: Path, dp2: Path)
    requires MoveAsked(g, d1, name1, d2, name2, dp1, dp2)
    ensures Child(g, d1, name1).value in g
    ensures Tree(Move(g, d1, name1, d2, name2)) <==>
            (Child(g, d2, name2) == None || (d2 == d1 && name2 == name1)) && !(dp1 + [name1] <= dp2)
  {
    ChildIs(g, d1, name1);
    hide Tree, Child, Resolve, ValidName;
    if dp1 + [name1] <= dp2 {
      MovedIntoItself(g, d1, name1, d2, name2, dp1, dp2);
    } else if Child(g, d2, name2) != None && !(d2 == d1 && name2 == name1) {
      ListedTwice(g, d1, name1, d2, name2);
    } else {
      MoveTree(g, d1, name1, d2, name2, dp1, dp2);
    }
  }

  /** And so for a rename of whatever names: without an old entry it never keeps the tree. */
  lemma RenameExact(g: Graph, g': Graph, d1: nat, name1: Name, d2: nat, name2: Name, dp1: Path, dp2: Path)
    requires RenameAsked(g, d1, name1, d2, name2, dp1, dp2) && RenamedTo(g, g', d1, name1, d2, name2)
    ensures Tree(g') <==> CanMove(g, d1, name1, d2, name2, dp1, dp2)
  {
    hide Tree, Child, Resolve, ValidName, Move;
    if Child(g, d1, name1).Some? {
      MoveExact(g, d1, name1, d2, name2, dp1, dp2);
    } else {
      RootListed(g, d2, name2);
    }
  }

  lemma RootListed(g: Graph, d: nat, name: Name)
    requires IsDir(g, d) && 0 in g
    ensures !Tree(RootEntered(g, d, name))
  {
    hide Tree, ValidName;
    var g', ents := RootEntered(g, d, name), g[d].body.ents;
    if Tree(g') {
      EntryParent(g', d, |ents|);
      assert false;
    }
  }

  lemma ListedTwice(g: Graph, d1: nat, name1: Name, d2: nat, name2: Name)
    requires Tree(g) && IsDir(g, d1) && IsDir(g, d2) && Child(g, d1, name1).Some? && Child(g, d1, name1).value in g
    requires Child(g, d2, name2).Some? && !(d2 == d1 && name2 == name1)
    ensures !Tree(Move(g, d1, name1, d2, name2))
  {
    DropRule(g, d1, name1, d2, name2);
    hide Tree, ValidName;
    var g1, g' := DropEntryOf(g, d1, name1), Move(g, d1, name1, d2, name2);
    var kept := g1[d2].body.ents;
    assert IndexOf(kept, name2) < |kept|;
    assert g'[d2].body.ents == kept + [Entry(name2, Child(g, d1, name1).value)];
    assert g'[d2].body.ents[IndexOf(kept, name2)].name == g'[d2].body.ents[|kept|].name;
    if Tree(g') {
      DirIsUnique(g', d2);
      assert false;
    }
  }

  /** Away from the target directory a move only takes the old entry away. */
  lemma MoveElsewhere(g: Graph, d1: nat, name1: Name, d2: nat, name2: Name, e: nat, x: Name)
    requires Tree(g) && IsDir(g, d1) && IsDir(g, d2) && Child(g, d1, name1).Some? && Child(g, d1, name1).value in g
    requires e != d2
    ensures Child(Move(g, d1, name1, d2, name2), e, x) == if e == d1 && x == name1 then None else Child(g, e, x)
  {
    hide Tree, Lookup, IndexOf, RemoveAt, ValidName;
    var g1, m := DropEntryOf(g, d1, name1), Child(g, d1, name1).value;
    var g2 := SetEntries(g1, d2, g1[d2].body.ents + [Entry(name2, m)]);
    DropRule(g, d1, name1, e, x);
    ParentRule(g2, m, d2 + 2, e, x);
  }

  /** With the target directory at or below the moved inode, paths lead only to what was not below it. */
  lemma {:induction false} CutOff(g: Graph, d1: nat, name1: Name, d2: nat, name2: Name, dp1: Path, dp2: Path, p: Path)
    returns (was: Path)
    requires MoveAsked(g, d1, name1, d2, name2, dp1, dp2) && Child(g, d1, name1).value in g && dp1 + [name1] <= dp2
    requires Resolve(Move(g, d1, name1, d2, name2), p).Some?
    ensures !(dp1 + [name1] <= was) && Resolve(g, was) == Resolve(Move(g, d1, name1, d2, name2), p)
    decreases |p|
  {
    hide Tree, Child, Move, OnlyPath;
    if p == [] {
      was := [];
    } else {
      var q, x := p[..|p| - 1], p[|p| - 1];
      var before := CutOff(g, d1, name1, d2, name2, dp1, dp2, q);
      was := before + [x];
      StillOutside(g, d1, name1, d2, name2, dp1, dp2, before, x);
    }
  }

  lemma StillOutside(g: Graph, d1: nat, name1: Name, d2: nat, name2: Name, dp1: Path, dp2: Path, q: Path, x: Name)
    requires MoveAsked(g, d1, name1, d2, name2, dp1, dp2) && Child(g, d1, name1).value in g && dp1 + [name1] <= dp2
    requires !(dp1 + [name1] <= q) && Resolve(g, q).Some?
    requires Child(Move(g, d1, name1, d2, name2), Resolve(g, q).value, x).Some?
    ensures !(dp1 + [name1] <= q + [x])
    ensures Resolve(g, q + [x]) == Child(Move(g, d1, name1, d2, name2), Resolve(g, q).value, x)
  {
    hide Tree, Child, Move, Resolve, ValidName;
    TreePaths(g, d1, dp1);
    TreePaths(g, d2, dp2);
    assert q != dp2;
    MoveElsewhere(g, d1, name1, d2, name2, Resolve(g, q).value, x);
    ResolveSnoc(g, q, x);
    PrefixSnoc(dp1 + [name1], q, x);
    assert (dp1 + [name1])[..|dp1|] == dp1;
  }

  lemma MovedIntoItself(g: Graph, d1: nat, name1: Name, d2: nat, name2: Name, dp1: Path, dp2: Path)
    requires MoveAsked(g, d1, name1, d2, name2, dp1, dp2) && Child(g, d1, name1).value in g && dp1 + [name1] <= dp2
    ensures !Tree(Move(g, d1, name1, d2, name2))
  {
    var m, g' := Child(g, d1, name1).value, Move(g, d1, name1, d2, name2);
    assert m in g';
    ResolveSnoc(g, dp1, name1);
    TreePaths(g, m, dp1 + [name1]);
    hide Tree, Child, Move, Resolve, ValidName;
    if Tree(g') {
      var p := PathTo(g', m);
      var was := CutOff(g, d1, name1, d2, name2, dp1, dp2, p);
      assert false;
    }
  }

  // ---------------------------------------------------------------- file bytes change

  function SetData(g: Graph, n: nat, data: seq<byte>, blocks: bool): Graph
    requires n in g
  {
    g[n := Obj(g[n].parent, File(data, blocks))]
  }

  lemma {:induction false} SetDataResolve(g: Graph, n: nat, data: seq<byte>, blocks: bool, p: Path)
    requires n in g && g[n].body.File?
    ensures Resolve(SetData(g, n, data, blocks), p) == Resolve(g, p)
    decreases |p|
  {
    if p != [] {
      SetDataResolve(g, n, data, blocks, p[..|p| - 1]);
    }
  }

  lemma SetDataTree(g: Graph, n: nat, data: seq<byte>, blocks: bool)
    requires Tree(g) && n in g && g[n].body.File?
    ensures Tree(SetData(g, n, data, blocks))
  {
    hide Reached, DirOk;
    var g' := SetData(g, n, data, blocks);
    forall m | m in g'
      ensures Reached(g', m)
    {
      SetDataReaches(g, n, data, blocks, m);
    }
    forall e | e in g' && g'[e].body.Dir?
      ensures DirOk(g', e, g'[e].body.ents)
    {
      SetDataDirOk(g, n, data, blocks, e);
    }
  }

  lemma SetDataDirOk(g: Graph, n: nat, data: seq<byte>, blocks: bool, e: nat)
    requires Tree(g) && n in g && g[n].body.File? && IsDir(g, e)
    ensures DirOk(SetData(g, n, data, blocks), e, g[e].body.ents)
  {
    Entries0(g, e);
    hide Tree, AllOk, Unique;
    AllOkFrame(g, SetData(g, n, data, blocks), e, g[e].body.ents);
  }

  lemma SetDataReaches(g: Graph, n: nat, data: seq<byte>, blocks: bool, m: nat)
    requires Tree(g) && n in g && g[n].body.File? && m in g
    ensures Reached(SetData(g, n, data, blocks), m)
  {
    hide Tree;
    var p := PathTo(g, m);
    SetDataResolve(g, n, data, blocks, p);
  }
}
