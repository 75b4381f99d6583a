/** The inode graph: what each live inode is, with directories as entry lists. Its tree invariant, and
    how each change of entries changes what paths lead to. */
module Graph {
  import opened Bytes
  import opened Layout

  datatype Option<+T> = None | Some(value: T)

  /** blocks says whether a file has a data block, which an empty one may. */
  datatype Body = File(data: seq<byte>, blocks: bool) | Dir(ents: seq<Entry>)

  /** parent is the parent_block field: the parent's inode number plus 2, and 0 for the root. */
  datatype Obj = Obj(parent: nat, body: Body)

  type Graph = map<nat, Obj>
  type Path = seq<Name>

  /** The position of the first entry with that name, or the length if there is none. */
  function IndexOf(ents: seq<Entry>, name: Name): (i: nat)
    ensures i <= |ents|
    ensures i < |ents| ==> ents[i].name == name
  {
    if ents == [] || ents[0].name == name then 0 else 1 + IndexOf(ents[1..], name)
  }

  lemma {:induction false} IndexOfIsFirst(ents: seq<Entry>, name: Name)
    ensures forall j | 0 <= j < IndexOf(ents, name) :: ents[j].name != name
  {
    if ents != [] && ents[0].name != name {
      IndexOfIsFirst(ents[1..], name);
      forall j | 0 <= j < IndexOf(ents, name)
        ensures ents[j].name != name
      {
        assert j > 0 ==> ents[j] == ents[1..][j - 1];
      }
    }
  }

  function RemoveAt<T>(s: seq<T>, i: nat): seq<T>
    requires i < |s|
  {
    s[..i] + s[i + 1..]
  }

  /** get_entry: the inode number of the first entry with that name. */
  function Lookup(ents: seq<Entry>, name: Name): Option<nat>
  {
    var i := IndexOf(ents, name);
    if i < |ents| then Some(ents[i].id) else None
  }

  function Child(g: Graph, d: nat, name: Name): Option<nat>
  {
    if d in g && g[d].body.Dir? then Lookup(g[d].body.ents, name) else None
  }

  /** The inode a path leads to, from the root. */
  function Resolve(g: Graph, p: Path): Option<nat>
  {
    if p == [] then Some(0)
    else
      var d := Resolve(g, p[..|p| - 1]);
      if d.Some? then Child(g, d.value, p[|p| - 1]) else None
  }

  // ---------------------------------------------------------------- the tree invariant

  ghost predicate EntryOk(g: Graph, d: nat, e: Entry)
  {
    e.id in g && e.id != 0 && g[e.id].parent == d + 2 && ValidName(e.name)
  }

  ghost predicate AllOk(g: Graph, d: nat, ents: seq<Entry>)
  {
    forall i | 0 <= i < |ents| :: EntryOk(g, d, ents[i])
  }

  ghost predicate Unique(ents: seq<Entry>)
  {
    forall i, j | 0 <= i < j < |ents| :: ents[i].name != ents[j].name && ents[i].id != ents[j].id
  }

  ghost predicate DirOk(g: Graph, d: nat, ents: seq<Entry>)
  {
    AllOk(g, d, ents) && Unique(ents)
  }

  ghost predicate Reached(g: Graph, n: nat)
  {
    exists p :: Resolve(g, p) == Some(n)
  }

  /** Entries lead to live inodes whose parent field names the directory; names are unique in a
      directory; every live inode is reached from the root. */
  ghost predicate Tree(g: Graph)
  {
    && 0 in g && g[0].body.Dir?
    && (forall n | n in g :: n < NODE_TABLE_BLOCKS)
    && (forall d | d in g && g[d].body.Dir? :: DirOk(g, d, g[d].body.ents))
    && (forall n | n in g :: Reached(g, n))
  }

  lemma ChildIs(g: Graph, d: nat, name: Name)
    requires Tree(g) && Child(g, d, name).Some?
    ensures var c := Child(g, d, name).value;
            c in g && c != 0 && g[c].parent == d + 2 && ValidName(name)
  {
    var ents := g[d].body.ents;
    assert DirOk(g, d, ents);
    assert EntryOk(g, d, ents[IndexOf(ents, name)]);
  }

  lemma ChildInjective(g: Graph, d: nat, a: Name, b: Name)
    requires Tree(g) && Child(g, d, a).Some? && Child(g, d, b) == Child(g, d, a)
    ensures a == b
  {
    hide Tree, IndexOf, Unique;
    DirIsUnique(g, d);
    var ents := g[d].body.ents;
    SameIdSamePlace(ents, IndexOf(ents, a), IndexOf(ents, b));
  }

  lemma DirIsUnique(g: Graph, d: nat)
    requires Tree(g) && d in g && g[d].body.Dir?
    ensures Unique(g[d].body.ents)
  {
    assert DirOk(g, d, g[d].body.ents);
  }

  lemma SameIdSamePlace(ents: seq<Entry>, i: nat, j: nat)
    requires Unique(ents) && i < |ents| && j < |ents| && ents[i].id == ents[j].id
    ensures i == j
  {
  }

  lemma RootIsLive(g: Graph)
    requires Tree(g)
    ensures 0 in g && g[0].body.Dir?
  {
  }

  lemma ResolvedIsLive(g: Graph, p: Path)
    requires Tree(g) && Resolve(g, p).Some?
    ensures Resolve(g, p).value in g
    ensures p == [] || Resolve(g, p).value != 0
  {
    RootIsLive(g);
    hide Tree, Child;
    if p != [] {
      ChildIs(g, Resolve(g, p[..|p| - 1]).value, p[|p| - 1]);
    }
  }

  /** Each inode has one path. */
  lemma {:induction false} PathUnique(g: Graph, p: Path, q: Path)
    requires Tree(g) && Resolve(g, p).Some? && Resolve(g, q) == Resolve(g, p)
    ensures p == q
    decreases |p|
  {
    hide Tree, Child;
    ResolvedIsLive(g, p);
    ResolvedIsLive(g, q);
    if p != [] && q != [] {
      var p', q' := p[..|p| - 1], q[..|q| - 1];
      var d, e := Resolve(g, p').value, Resolve(g, q').value;
      ChildIs(g, d, p[|p| - 1]);
      ChildIs(g, e, q[|q| - 1]);
      assert d == e;
      PathUnique(g, p', q');
      ChildInjective(g, d, p[|p| - 1], q[|q| - 1]);
      assert p == p' + [p[|p| - 1]];
      assert q == q' + [q[|q| - 1]];
    }
  }

  /** A path that leads somewhere has all its prefixes leading somewhere. */
  lemma {:induction false} PrefixResolves(g: Graph, p: Path, q: Path)
    requires Resolve(g, p).Some? && q <= p
    ensures Resolve(g, q).Some?
    decreases |p|
  {
    if q != p {
      PrefixResolves(g, p[..|p| - 1], q);
    }
  }

  /** Following parent fields from any inode reaches the root, in as many steps as its path has names. */
  function Up(g: Graph, n: nat, steps: nat): nat
    decreases steps
  {
    if steps == 0 || n !in g || g[n].parent < 2 then n else Up(g, g[n].parent - 2, steps - 1)
  }

  lemma {:induction false} ParentsReachRoot(g: Graph, p: Path)
    requires Tree(g) && Resolve(g, p).Some?
    ensures Up(g, Resolve(g, p).value, |p|) == 0
    decreases |p|
  {
    hide Tree, Child;
    if p != [] {
      ParentsReachRoot(g, p[..|p| - 1]);
      ChildIs(g, Resolve(g, p[..|p| - 1]).value, p[|p| - 1]);
    }
  }

  /** Entries and live non-root inodes are in bijection: each such inode has exactly one entry, in the
      directory its parent field names. */
  lemma OneEntryEach(g: Graph, n: nat)
    requires Tree(g) && n in g && n != 0
    ensures g[n].parent >= 2
    ensures var d := g[n].parent - 2;
            && d in g && g[d].body.Dir?
            && (exists i :: 0 <= i < |g[d].body.ents| && g[d].body.ents[i].id == n)
            && (forall e: nat, i | e in g && g[e].body.Dir? && 0 <= i < |g[e].body.ents| && g[e].body.ents[i].id == n ::
                  e == d && forall j | 0 <= j < |g[d].body.ents| && g[d].body.ents[j].id == n :: j == i)
  {
    hide Tree;
    var p := PathTo(g, n);
    var d, name := Resolve(g, p[..|p| - 1]).value, p[|p| - 1];
    ChildIs(g, d, name);
    assert g[d].body.ents[IndexOf(g[d].body.ents, name)].id == n;
    forall e: nat, i | e in g && g[e].body.Dir? && 0 <= i < |g[e].body.ents| && g[e].body.ents[i].id == n
      ensures e == d && forall j | 0 <= j < |g[d].body.ents| && g[d].body.ents[j].id == n :: j == i
    {
      EntryParent(g, e, i);
    }
  }

  lemma PathTo(g: Graph, n: nat) returns (p: Path)
    requires Tree(g) && n in g
    ensures Resolve(g, p) == Some(n)
  {
    assert Reached(g, n);
    p :| Resolve(g, p) == Some(n);
  }

  lemma EntryParent(g: Graph, e: nat, i: nat)
    requires Tree(g) && e in g && g[e].body.Dir? && i < |g[e].body.ents|
    ensures EntryOk(g, e, g[e].body.ents[i])
    ensures forall j | 0 <= j < |g[e].body.ents| && j != i ::
              g[e].body.ents[j].id != g[e].body.ents[i].id && g[e].body.ents[j].name != g[e].body.ents[i].name
  {
    assert DirOk(g, e, g[e].body.ents);
  }

  // ---------------------------------------------------------------- a directory fits in one block

  ghost function Ids(ents: seq<Entry>): set<nat>
  {
    set i | 0 <= i < |ents| :: ents[i].id
  }

  lemma {:induction false} IdCount(ents: seq<Entry>)
    requires forall i, j | 0 <= i < j < |ents| :: ents[i].id != ents[j].id
    ensures |Ids(ents)| == |ents|
  {
    if ents == [] {
      assert Ids(ents) == {};
    } else {
      var last := |ents| - 1;
      IdCount(ents[..last]);
      assert Ids(ents) == Ids(ents[..last]) + {ents[last].id};
      assert ents[last].id !in Ids(ents[..last]);
    }
  }

  lemma SubsetCount(a: set<nat>, b: set<nat>)
    requires a <= b
    ensures |a| <= |b|
  {
    if a != b {
      assert b == a + (b - a);
    }
  }

  /** A directory has fewer entries than there are live inodes, not counting any given others. */
  lemma EntriesBounded(g: Graph, d: nat, others: set<nat>)
    requires Tree(g) && d in g && g[d].body.Dir?
    requires others <= g.Keys && 0 in others && others !! Ids(g[d].body.ents)
    ensures |g[d].body.ents| + |others| <= |g|
  {
    var ents := g[d].body.ents;
    assert DirOk(g, d, ents);
    IdCount(ents);
    forall n | n in Ids(ents)
      ensures n in g
    {
      var i :| 0 <= i < |ents| && ents[i].id == n;
      assert EntryOk(g, d, ents[i]);
    }
    SubsetCount(Ids(ents) + others, g.Keys);
  }

  lemma {:induction false} LiveCount(s: set<nat>, n: nat)
    requires forall x | x in s :: x < n
    ensures |s| <= n
  {
    if n == 0 {
      assert s == {};
    } else {
      LiveCount(s - {n - 1}, n - 1);
      assert n - 1 in s ==> s == (s - {n - 1}) + {n - 1};
    }
  }
}
