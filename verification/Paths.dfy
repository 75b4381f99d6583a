/** Path strings: validity, splitting at slashes (empty components are dropped), the last component
    and the path of the directory that holds it. */
module Paths {
  import opened Bytes
  import opened Layout
  import opened Graph

  type PathStr = s: seq<byte> | 0 !in s

  /** is_valid_path: not empty, starts with a slash, and does not end with one unless it is "/". */
  predicate IsValidPath(s: PathStr)
  {
    |s| > 0 && s[0] == SLASH && (|s| == 1 || s[|s| - 1] != SLASH)
  }

  /** The bytes before the first slash. */
  function Word(s: seq<byte>): (w: seq<byte>)
    ensures |w| <= |s| && w == s[..|w|] && SLASH !in w
    ensures |w| < |s| ==> s[|w|] == SLASH
  {
    if s == [] || s[0] == SLASH then [] else [s[0]] + Word(s[1..])
  }

  function Split(s: seq<byte>): Path
    decreases |s|
  {
    if s == [] then []
    else if s[0] == SLASH then Split(s[1..])
    else [Word(s)] + Split(s[|Word(s)|..])
  }

  lemma {:induction false} WordThenSlash(w: seq<byte>, b: seq<byte>)
    requires SLASH !in w
    ensures Word(w + [SLASH] + b) == w && Word(w) == w
  {
    if w == [] {
      assert w + [SLASH] + b == [SLASH] + b;
    } else {
      WordThenSlash(w[1..], b);
      assert (w + [SLASH] + b)[1..] == w[1..] + [SLASH] + b;
    }
  }

  lemma WordOfConcat(a: seq<byte>, b: seq<byte>)
    requires a != [] && a[0] != SLASH
    ensures Word(a + [SLASH] + b) == Word(a) && |Word(a)| > 0
  {
    var w := Word(a);
    if |w| == |a| {
      WordThenSlash(a, b);
    } else {
      var rest := a[|w| + 1..];
      assert a == w + [SLASH] + rest;
      WordThenSlash(w, rest);
      WordThenSlash(w, rest + [SLASH] + b);
      assert a + [SLASH] + b == w + [SLASH] + (rest + [SLASH] + b);
    }
  }

  /** Splitting at a slash splits the path. */
  lemma {:induction false} SplitConcat(a: seq<byte>, b: seq<byte>)
    ensures Split(a + [SLASH] + b) == Split(a) + Split(b)
    decreases |a|
  {
    var s := a + [SLASH] + b;
    if a == [] {
      assert s[1..] == b;
    } else if a[0] == SLASH {
      assert s[1..] == a[1..] + [SLASH] + b;
      SplitConcat(a[1..], b);
    } else {
      WordOfConcat(a, b);
      var k := |Word(a)|;
      assert s[k..] == a[k..] + [SLASH] + b;
      SplitConcat(a[k..], b);
      assert Split(s) == [Word(a)] + (Split(a[k..]) + Split(b));
    }
  }

  lemma SplitWord(w: seq<byte>)
    requires SLASH !in w && w != []
    ensures Split(w) == [w]
  {
    WordThenSlash(w, []);
    assert w[|w|..] == [];
  }

  /** Where the last slash is, in a string that has one. */
  function LastSlash(s: seq<byte>): (k: nat)
    requires SLASH in s
    ensures k < |s| && s[k] == SLASH && SLASH !in s[k + 1..]
  {
    if s[|s| - 1] == SLASH then |s| - 1
    else
      assert s == s[..|s| - 1] + [s[|s| - 1]];
      LastSlash(s[..|s| - 1])
  }

  /** A valid path other than "/" has a last name: what follows its last slash. The path of its
      directory, with that slash or without it, splits into the names before it. */
  lemma LastName(s: PathStr)
    requires IsValidPath(s) && |s| > 1
    ensures var parts := Split(s);
            && |parts| > 0
            && var last := parts[|parts| - 1];
               && 0 < |last| < |s| && SLASH !in last && 0 !in last
               && s[|s| - |last|..] == last
               && Split(s[..|s| - |last|]) == parts[..|parts| - 1]
               && Split(s[..|s| - |last| - 1]) == parts[..|parts| - 1]
  {
    var k := LastSlash(s);
    var a, w := s[..k], s[k + 1..];
    assert s == a + [SLASH] + w;
    assert w != [];
    SplitConcat(a, w);
    SplitWord(w);
    assert s[..|s| - |w|] == a + [SLASH] + [];
    SplitConcat(a, []);
    assert forall i | 0 <= i < |w| :: w[i] == s[k + 1 + i];
  }

  /** The valid paths, by their parts: "/", and whatever ends in a slash and a word, with nothing or something
      that starts with a slash before it. */
  lemma ValidParts(s: PathStr)
    ensures IsValidPath(s) <==>
            s == [SLASH] ||
            exists a: seq<byte>, w: seq<byte> ::
              w != [] && SLASH !in w && s == a + [SLASH] + w && (a == [] || a[0] == SLASH)
  {
    if IsValidPath(s) && s != [SLASH] {
      var k := LastSlash(s);
      var a, w := s[..k], s[k + 1..];
      assert w != [] && SLASH !in w && s == a + [SLASH] + w && (a == [] || a[0] == SLASH);
    }
    if a: seq<byte>, w: seq<byte> :| w != [] && SLASH !in w && s == a + [SLASH] + w && (a == [] || a[0] == SLASH) {
      assert s[|s| - 1] == w[|w| - 1];
    }
  }

  /** Every list of names that are not empty and hold no slash and no NUL is what some valid path splits into. */
  lemma {:induction false} PathString(p: Path) returns (s: PathStr)
    requires forall i | 0 <= i < |p| :: p[i] != [] && SLASH !in p[i] && 0 !in p[i]
    ensures IsValidPath(s) && Split(s) == p
    ensures p != [] ==> |s| > 1
    decreases |p|
  {
    if p == [] {
      s := [SLASH];
    } else {
      var last := p[|p| - 1];
      var front := PathString(p[..|p| - 1]);
      var before: seq<byte> := if |p| == 1 then [] else front;
      s := before + [SLASH] + last;
      SplitConcat(before, last);
      SplitWord(last);
      assert p == p[..|p| - 1] + [last];
      assert s[|s| - 1] == last[|last| - 1];
    }
  }

  /** The empty path and "/" both name the root. */
  lemma RootPaths()
    ensures Split([]) == [] && Split([SLASH]) == []
  {
  }

  /** Components are not empty and hold no slash and no NUL. */
  lemma {:induction false} SplitNames(s: seq<byte>)
    requires 0 !in s
    ensures forall i | 0 <= i < |Split(s)| :: |Split(s)[i]| > 0 && SLASH !in Split(s)[i] && 0 !in Split(s)[i]
    decreases |s|
  {
    if s != [] {
      if s[0] == SLASH {
        SplitNames(s[1..]);
      } else {
        var w := Word(s);
        assert |w| > 0;
        SplitNames(s[|w|..]);
        assert forall j | 0 <= j < |w| :: w[j] == s[j];
      }
    }
  }
}
