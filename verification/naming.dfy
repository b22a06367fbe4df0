/** Which names make the search find every act from everywhere. */
module Naming {
  import opened Options
  import opened Paths
  import opened Acts
  import opened Lookup

  // ---- prefixes ---------------------------------------------------------------------------------

  lemma SiblingPaths<P>(f: Flow<P>, q: P, c: P, d: P)
    requires Shape(f) && q in f && c in f[q].acts && d in f[q].acts && c in f && d in f && f[c].name <= f[d].name
    ensures f[c].parent == Some(q) && f[d].parent == Some(q) && f[c].depth == f[d].depth
    ensures f[d].fullPath == f[c].fullPath + f[d].name[|f[c].name|..]
  {
    assert ShapeAt(f, q);
    var i :| 0 <= i < |f[q].acts| && f[q].acts[i] == c;
    var j :| 0 <= j < |f[q].acts| && f[q].acts[j] == d;
    assert ShapeAt(f, c) && ShapeAt(f, d);
    assert f[d].name == f[c].name + f[d].name[|f[c].name|..];
    var base := f[q].fullPath + "/";
    assert base + (f[c].name + f[d].name[|f[c].name|..]) == base + f[c].name + f[d].name[|f[c].name|..];
  }

  lemma SiblingsNotAbove<P>(f: Flow<P>, c: P, d: P)
    requires Shape(f) && c in f && d in f && c != d && f[c].depth == f[d].depth
    ensures !AncestorOrSelf(f, c, d)
  {
    assert ShapeAt(f, d);
  }

  ghost predicate PrefixAgrees<P>(f: Flow<P>, m: P, n: P)
    requires Shape(f) && m in f && n in f
  {
    IsChildOf(f[m].fullPath, f[n].fullPath) <==> AncestorOrSelf(f, m, n)
  }

  /** The prefix test decides ancestry throughout a tree exactly when no sibling's name begins with another's. */
  lemma PrefixIsAncestryIff<P>(f: Flow<P>)
    requires Shape(f)
    ensures (forall m, n | m in f && n in f :: PrefixAgrees(f, m, n)) <==> PrefixFree(f)
  {
    if PrefixFree(f) {
      forall m, n | m in f && n in f ensures PrefixAgrees(f, m, n) {
        PrefixIsAncestry(f, m, n);
      }
    } else {
      var c, d := PrefixedSibling(f);
      assert !PrefixAgrees(f, c, d);
    }
  }

  /** A pair that breaks prefix-freeness. */
  lemma PrefixedSibling<P>(f: Flow<P>) returns (c: P, d: P)
    requires Shape(f) && !PrefixFree(f)
    ensures c in f && d in f && c != d && f[c].depth == f[d].depth && f[c].name <= f[d].name
    ensures f[c].parent.Some? && f[c].parent == f[d].parent
    ensures f[d].fullPath == f[c].fullPath + f[d].name[|f[c].name|..] && !AncestorOrSelf(f, c, d)
  {
    var q :| q in f && !PrefixFreeAt(f, q);
    assert ShapeAt(f, q);
    var i, j :| 0 <= i < |f[q].acts| && 0 <= j < |f[q].acts| && i != j && f[f[q].acts[i]].name <= f[f[q].acts[j]].name;
    c, d := f[q].acts[i], f[q].acts[j];
    assert i < j || j < i;
    SiblingPaths(f, q, c, d);
    SiblingsNotAbove(f, c, d);
  }

  // ---- relative searches stay below -------------------------------------------------------------

  lemma {:induction false} JoinIsRelative(parts: seq<string>)
    requires GoodNames(parts) && |parts| > 0
    ensures IsRelative(JoinParts(parts))
  {
    assert GoodName(parts[0]);
    JoinIsRelativePath(parts);
    RelativeCons(parts);
  }

  /** Popping leaves nothing or a relative path. */
  lemma PopIsRelative(path: string)
    requires PopHead(path).Ok?
    ensures |PopHead(path).value| == 0 || IsRelative(PopHead(path).value)
  {
    var parts := Split(path, SLASH);
    SplitLosesDelimitersOnly(path, '/');
    if |parts| > 1 {
      assert GoodNames(parts[1..]) by {
        forall n | n in parts[1..] ensures GoodName(n) {
          assert n in parts;
        }
      }
      JoinIsRelative(parts[1..]);
    }
  }

  ghost predicate StaysBelow<P>(f: Flow<P>, m: P, r: Result<Option<P>>)
    requires Shape(f) && m in f
  {
    r.Ok? && r.value.Some? ==> r.value.value in f && AncestorOrSelf(f, m, r.value.value)
  }

  /** Whatever a relative path finds lies at or below the act that was asked. */
  lemma {:induction false} FindStaysBelow<P>(f: Flow<P>, m: P, path: string)
    requires Shape(f) && m in f && (|path| == 0 || IsRelative(path))
    ensures StaysBelow(f, m, Find(f, m, path))
    decreases |path|, if FirstAct(path) == Ok(f[m].name) then 0 else 2
  {
    assert ShapeAt(f, m);
    assert AncestorOrSelf(f, m, m);
    if |path| > 0 && !IsSelf(f[m], path) {
      if FirstAct(path) == Ok(f[m].name) {
        if PopHead(path).Ok? {
          PopHeadIsShorter(path);
          PopIsRelative(path);
          FindChildStaysBelow(f, m, PopHead(path).value);
        }
      } else {
        FindChildStaysBelow(f, m, path);
      }
    }
  }

  lemma {:induction false} FindChildStaysBelow<P>(f: Flow<P>, m: P, path: string)
    requires Shape(f) && m in f && (|path| == 0 || IsRelative(path))
    ensures StaysBelow(f, m, FindChild(f, m, path))
    decreases |path|, 1
  {
    assert ShapeAt(f, m);
    if f[m].kind != Leaf && FirstAct(path).Ok? {
      var i := FindAct(f, f[m].acts, FirstAct(path).value);
      if i.Some? {
        var c := f[m].acts[i.value];
        assert ShapeAt(f, c);
        FindStaysBelow(f, c, path);
        var r := Find(f, c, path);
        if r.Ok? && r.value.Some? {
          AboveChild(f, m, c, r.value.value);
        }
      }
    }
  }

  lemma AboveChild<P>(f: Flow<P>, m: P, c: P, n: P)
    requires Shape(f) && m in f && c in f && n in f && f[c].parent == Some(m) && AncestorOrSelf(f, c, n)
    ensures AncestorOrSelf(f, m, n)
  {
    assert ShapeAt(f, c) && ShapeAt(f, m);
    UpOfUp(f, n, f[c].depth, f[m].depth);
    assert Up(f, m, f[m].depth) == m;
  }

  // ---- a sibling in the way ---------------------------------------------------------------------

  lemma RestOfName(base: string, name: string, k: nat)
    requires GoodName(name) && k < |name|
    ensures (base + name[k..])[|base| + 1..] == name[k..][1..]
    ensures |name[k..][1..]| == 0 || IsRelative(name[k..][1..])
  {
    assert name[k..][1..] == name[k + 1..];
  }

  lemma CutPath<P>(f: Flow<P>, m: P, path: string, below: string)
    requires Shape(f) && m in f && IsAbsolute(path) && IsChildOf(f[m].fullPath, path) && |path| > |f[m].fullPath|
    requires ChildPath(f[m].fullPath, path) == Ok(below)
    ensures Find(f, m, path) == FindChild(f, m, below)
  {
    hide FindChild, Shape;
  }

  lemma OwnPath<P>(f: Flow<P>, m: P)
    requires Shape(f) && m in f
    ensures Find(f, m, f[m].fullPath) == Ok(Some(m))
  {
    FullPathIsAbsolute(f, m);
    hide FindChild, Shape;
  }

  /** How an act takes the path of a sibling whose name its own begins. */
  lemma SiblingSearch<P>(f: Flow<P>, c: P, d: P)
    requires Shape(f) && c in f && d in f && c != d && f[c].parent.Some? && f[c].parent == f[d].parent
    requires f[c].name <= f[d].name
    ensures var rest := f[d].name[|f[c].name|..];
      if |rest| == 0 then Find(f, c, f[d].fullPath) == Ok(Some(c))
      else (|rest[1..]| == 0 || IsRelative(rest[1..])) && Find(f, c, f[d].fullPath) == FindChild(f, c, rest[1..])
  {
    assert ShapeAt(f, c) && ShapeAt(f, d);
    hide Find, FindChild;
    SiblingPaths(f, f[c].parent.value, c, d);
    hide Shape, ShapeAt;
    var k, own := |f[c].name|, f[c].fullPath;
    var rest := f[d].name[k..];
    if |rest| == 0 {
      assert f[d].fullPath == own;
      OwnPath(f, c);
    } else {
      RestOfName(own, f[d].name, k);
      FullPathIsAbsolute(f, d);
      CutPath(f, c, f[d].fullPath, rest[1..]);
    }
  }

  /** An act whose name begins its sibling's does not find the sibling, whether it is a leaf or has children. */
  lemma PrefixHidesSibling<P>(f: Flow<P>, c: P, d: P)
    requires Shape(f) && c in f && d in f && c != d && f[c].parent.Some? && f[c].parent == f[d].parent
    requires f[c].name <= f[d].name
    ensures Find(f, c, f[d].fullPath) != Ok(Some(d))
  {
    assert f[c].depth == f[d].depth by { assert ShapeAt(f, c) && ShapeAt(f, d); }
    hide Find, FindChild, Shape;
    SiblingSearch(f, c, d);
    SiblingsNotAbove(f, c, d);
    if |f[c].name| < |f[d].name| {
      FindChildStaysBelow(f, c, f[d].name[|f[c].name|..][1..]);
    }
  }

  /** It may even answer with a child of its own: one character of the longer name is taken for the slash. */
  lemma PrefixFindsOwnChild<P>(f: Flow<P>, m: P, n: P, i: nat, x: char)
    requires Shape(f) && m in f && n in f && ShapeAt(f, m) && f[m].parent.Some? && f[m].parent == f[n].parent
    requires i < |f[m].acts| && f[n].name == f[m].name + [x] + f[f[m].acts[i]].name
    requires forall j | 0 <= j < i :: f[f[m].acts[j]].name != f[f[m].acts[i]].name
    ensures Find(f, m, f[n].fullPath) == Ok(Some(f[m].acts[i]))
  {
    var name := f[f[m].acts[i]].name;
    OwnNameFinds(f, m, i);
    CutInsideName(f, m, n, name, x);
    FullPathIsAbsolute(f, n);
    hide *;
    CutPath(f, m, f[n].fullPath, name);
  }

  lemma CutInsideName<P>(f: Flow<P>, m: P, n: P, name: string, x: char)
    requires Shape(f) && m in f && n in f && f[m].parent.Some? && f[m].parent == f[n].parent
    requires f[n].name == f[m].name + [x] + name
    ensures f[m].fullPath <= f[n].fullPath && |f[n].fullPath| > |f[m].fullPath|
    ensures ChildPath(f[m].fullPath, f[n].fullPath) == Ok(name)
  {
    assert ShapeAt(f, m) && ShapeAt(f, n);
    var rest := [x] + name;
    assert f[n].name == f[m].name + rest;
    SiblingPaths(f, f[m].parent.value, m, n);
    assert f[n].name[|f[m].name|..] == rest;
    hide Shape, ShapeAt;
    assert f[n].fullPath == f[m].fullPath + rest;
    assert f[n].fullPath[|f[m].fullPath| + 1..] == rest[1..] == name;
  }

  lemma OwnNameFinds<P>(f: Flow<P>, m: P, i: nat)
    requires Shape(f) && m in f && ShapeAt(f, m) && i < |f[m].acts|
    requires forall j | 0 <= j < i :: f[f[m].acts[j]].name != f[f[m].acts[i]].name
    ensures FindChild(f, m, f[f[m].acts[i]].name) == Ok(Some(f[m].acts[i]))
  {
    var c := f[m].acts[i];
    assert ShapeAt(f, c);
    var name := f[c].name;
    SplitOffName(name, "");
    assert Split(name, SLASH) == [name];
    assert FindAct(f, f[m].acts, name) == Some(i);
  }

  // ---- the whole tree ---------------------------------------------------------------------------

  ghost predicate Finds<P>(f: Flow<P>, m: P, n: P)
    requires Shape(f) && m in f && n in f
  {
    Find(f, m, f[n].fullPath) == Ok(Some(n))
  }

  /**
   * Every act finds every act by its full path exactly when no sibling's name begins with another's and
   * no act but the root has an act of its own name below it.
   */
  lemma EveryActFoundIff<P>(f: Flow<P>)
    requires Shape(f)
    ensures (forall m, n | m in f && n in f :: Finds(f, m, n))
      <==> PrefixFree(f) && forall n | n in f :: FreshFrom(f, n, 1)
  {
    if !PrefixFree(f) {
      var c, d := PrefixedSibling(f);
      PrefixHidesSibling(f, c, d);
      assert !Finds(f, c, d);
    } else {
      if forall n | n in f :: FreshFrom(f, n, 1) {
        forall m, n | m in f && n in f ensures Finds(f, m, n) {
          assert FreshFrom(f, n, 1);
          FindReturnsNodeIff(f, m, n);
        }
      }
      forall n | n in f && !FreshFrom(f, n, 1) ensures !Finds(f, Up(f, n, 0), n) {
        RootMissesNamesake(f, n);
      }
    }
  }

  lemma RootMissesNamesake<P>(f: Flow<P>, n: P)
    requires Shape(f) && PrefixFree(f) && n in f && !FreshFrom(f, n, 1)
    ensures !Finds(f, Up(f, n, 0), n)
  {
    var root := Up(f, n, 0);
    assert ShapeAt(f, n) && ShapeAt(f, root);
    assert AncestorOrSelf(f, root, n);
    FindReturnsNodeIff(f, root, n);
    assert Meet(f, root, n) == root && f[root].depth == 0;
  }
}
