/** What the textual search does to the tree, said without text. */
module Lookup {
  import opened Options
  import opened Paths
  import opened Acts

  // ---- ancestors and names ----------------------------------------------------------------------

  lemma {:induction false} FullPathIsNames<P>(f: Flow<P>, a: P)
    requires Shape(f) && a in f
    ensures f[a].fullPath == FullPath(Names(f, a)) && GoodNames(Names(f, a))
    decreases f[a].depth
  {
    assert ShapeAt(f, a);
    if f[a].parent == None {
      assert [f[a].name][1..] == [];
      assert "/" + f[a].name + "" == "/" + f[a].name;
    } else {
      var q := f[a].parent.value;
      FullPathIsNames(f, q);
      FullPathSnoc(Names(f, q), f[a].name);
    }
  }

  lemma {:induction false} NamesOfUp<P>(f: Flow<P>, a: P, k: nat)
    requires Shape(f) && a in f && k <= f[a].depth
    ensures Names(f, a)[..k + 1] == Names(f, Up(f, a, k))
    ensures Names(f, a)[k] == f[Up(f, a, k)].name
    decreases f[a].depth
  {
    assert ShapeAt(f, a);
    if k == f[a].depth {
      assert Names(f, a)[..k + 1] == Names(f, a);
    } else {
      var q := f[a].parent.value;
      NamesOfUp(f, q, k);
      assert Names(f, a) == Names(f, q) + [f[a].name];
      assert Names(f, a)[..k + 1] == Names(f, q)[..k + 1];
    }
  }

  lemma {:induction false} UpOfUp<P>(f: Flow<P>, a: P, k: nat, j: nat)
    requires Shape(f) && a in f && j <= k <= f[a].depth
    ensures Up(f, Up(f, a, k), j) == Up(f, a, j)
    decreases f[a].depth
  {
    assert ShapeAt(f, a);
    if k < f[a].depth {
      UpOfUp(f, f[a].parent.value, k, j);
    }
  }

  lemma UpIsChild<P>(f: Flow<P>, a: P, k: nat)
    requires Shape(f) && a in f && k < f[a].depth
    ensures f[Up(f, a, k + 1)].parent == Some(Up(f, a, k))
    ensures Up(f, a, k + 1) in f[Up(f, a, k)].acts
    ensures f[Up(f, a, k)].kind != Leaf
  {
    var c := Up(f, a, k + 1);
    assert ShapeAt(f, c);
    UpOfUp(f, a, k + 1, k);
    assert Up(f, f[c].parent.value, k) == f[c].parent.value by { assert ShapeAt(f, f[c].parent.value); }
    assert ShapeAt(f, Up(f, a, k));
  }

  lemma SiblingByName<P>(f: Flow<P>, q: P, c: P, d: P)
    requires Shape(f) && PrefixFree(f) && q in f && c in f[q].acts && d in f[q].acts
    ensures c in f && d in f && (f[c].name <= f[d].name ==> c == d)
  {
    assert ShapeAt(f, q) && PrefixFreeAt(f, q);
    var i :| 0 <= i < |f[q].acts| && f[q].acts[i] == c;
    var j :| 0 <= j < |f[q].acts| && f[q].acts[j] == d;
  }

  lemma RootIsCommon<P>(f: Flow<P>, a: P, b: P)
    requires Shape(f) && a in f && b in f
    ensures Up(f, a, 0) == Up(f, b, 0)
  {
    assert ShapeAt(f, Up(f, a, 0)) && ShapeAt(f, Up(f, b, 0));
  }

  /** Nodes whose names agree on the way down are reached through the same ancestors. */
  lemma {:induction false} NamesDetermineUp<P>(f: Flow<P>, a: P, b: P, k: nat)
    requires Shape(f) && PrefixFree(f) && a in f && b in f && k <= f[a].depth && k <= f[b].depth
    requires forall j | 0 <= j <= k :: Names(f, a)[j] <= Names(f, b)[j]
    ensures Up(f, a, k) == Up(f, b, k)
  {
    if k == 0 {
      RootIsCommon(f, a, b);
    } else {
      NamesDetermineUp(f, a, b, k - 1);
      UpIsChild(f, a, k - 1);
      UpIsChild(f, b, k - 1);
      NamesOfUp(f, a, k);
      NamesOfUp(f, b, k);
      SiblingByName(f, Up(f, a, k - 1), Up(f, a, k), Up(f, b, k));
    }
  }

  /** The names from below `h` down to `n`. */
  ghost function Below<P>(f: Flow<P>, h: P, n: P): (ns: seq<string>)
    requires Shape(f) && h in f && n in f && f[h].depth <= f[n].depth
    ensures |ns| == f[n].depth - f[h].depth
  {
    Names(f, n)[f[h].depth + 1..]
  }

  lemma PathBelow<P>(f: Flow<P>, h: P, n: P)
    requires Shape(f) && h in f && n in f && AncestorOrSelf(f, h, n)
    ensures f[n].fullPath == f[h].fullPath + FullPath(Below(f, h, n)) && GoodNames(Below(f, h, n))
  {
    var k := f[h].depth;
    FullPathIsNames(f, h);
    FullPathIsNames(f, n);
    NamesOfUp(f, n, k);
    assert Names(f, n) == Names(f, n)[..k + 1] + Below(f, h, n);
    FullPathConcat(Names(f, h), Below(f, h, n));
  }

  /** The prefix test of is_child_of decides ancestry, given that no sibling's name begins with another's. */
  lemma PrefixIsAncestry<P>(f: Flow<P>, m: P, n: P)
    requires Shape(f) && PrefixFree(f) && m in f && n in f
    ensures IsChildOf(f[m].fullPath, f[n].fullPath) <==> AncestorOrSelf(f, m, n)
  {
    if AncestorOrSelf(f, m, n) {
      PathBelow(f, m, n);
    }
    if IsChildOf(f[m].fullPath, f[n].fullPath) {
      FullPathIsNames(f, m);
      FullPathIsNames(f, n);
      var a, b, last := Names(f, m), Names(f, n), f[m].depth;
      PrefixOfPath(a, b);
      forall j | 0 <= j <= last ensures a[j] <= b[j] {
        assert j < last ==> a[j] == a[..last][j] == b[..last][j] == b[j];
      }
      NamesDetermineUp(f, m, n, last);
      assert Up(f, m, last) == m by { assert ShapeAt(f, m); }
    }
  }

  lemma FindActFindsChild<P>(f: Flow<P>, q: P, c: P)
    requires Shape(f) && PrefixFree(f) && q in f && c in f[q].acts
    ensures ShapeAt(f, q) && c in f
    ensures var r := FindAct(f, f[q].acts, f[c].name); r.Some? && f[q].acts[r.value] == c
  {
    assert ShapeAt(f, q);
    var i :| 0 <= i < |f[q].acts| && f[q].acts[i] == c;
    var r := FindAct(f, f[q].acts, f[c].name);
    SiblingByName(f, q, f[q].acts[r.value], c);
  }

  /** Going one step down towards `n`. */
  lemma StepBelow<P>(f: Flow<P>, h: P, n: P)
    requires Shape(f) && h in f && n in f && AncestorOrSelf(f, h, n) && h != n
    ensures f[h].depth < f[n].depth
    ensures var c := Up(f, n, f[h].depth + 1);
      && c in f[h].acts && f[h].kind != Leaf && AncestorOrSelf(f, c, n)
      && Below(f, h, n) == [f[c].name] + Below(f, c, n)
  {
    assert ShapeAt(f, n);
    var k := f[h].depth;
    assert Up(f, n, f[n].depth) == n;
    var c := Up(f, n, k + 1);
    UpIsChild(f, n, k);
    NamesOfUp(f, n, k + 1);
    assert Names(f, n)[k + 1..] == [Names(f, n)[k + 1]] + Names(f, n)[k + 2..];
  }

  // ---- find -------------------------------------------------------------------------------------

  /** The first node named like `n` on the way from depth `k` down to `n`. */
  ghost function FirstNamesake<P>(f: Flow<P>, n: P, k: nat): (r: P)
    requires Shape(f) && n in f && k <= f[n].depth
    ensures r in f
    decreases f[n].depth - k
  {
    assert ShapeAt(f, n);
    if f[Up(f, n, k)].name == f[n].name then Up(f, n, k) else
    assert k < f[n].depth;
    FirstNamesake(f, n, k + 1)
  }

  /** Where the climb from `m` stops: the lowest ancestor of `m` that is also one of `n`, either included. */
  ghost function Meet<P>(f: Flow<P>, m: P, n: P): (h: P)
    requires Shape(f) && m in f && n in f
    ensures h in f && AncestorOrSelf(f, h, n)
    decreases f[m].depth
  {
    assert ShapeAt(f, m);
    RootIsCommon(f, m, n);
    if AncestorOrSelf(f, m, n) || f[m].parent == None then m else Meet(f, f[m].parent.value, n)
  }

  lemma {:induction false} FindBelow<P>(f: Flow<P>, h: P, n: P)
    requires Shape(f) && PrefixFree(f) && h in f && n in f && AncestorOrSelf(f, h, n) && h != n
    ensures f[h].depth < f[n].depth
    ensures FindChild(f, h, RelativePath(Below(f, h, n))) == Ok(Some(FirstNamesake(f, n, f[h].depth + 1)))
    decreases f[n].depth - f[h].depth
  {
    StepBelow(f, h, n);
    var c := Up(f, n, f[h].depth + 1);
    FindChildStep(f, h, c, n);
    FindStep(f, h, c, n);
    if f[c].name != f[n].name {
      assert c != n;
      FindBelow(f, c, n);
    }
  }

  /** find_child hands the path to the child on the way to `n`. */
  lemma FindChildStep<P>(f: Flow<P>, h: P, c: P, n: P)
    requires Shape(f) && PrefixFree(f) && h in f && n in f && AncestorOrSelf(f, h, n) && h != n
    requires f[h].depth < f[n].depth && c == Up(f, n, f[h].depth + 1)
    ensures FindChild(f, h, RelativePath(Below(f, h, n))) == Find(f, c, RelativePath(Below(f, h, n)))
  {
    StepBelow(f, h, n);
    PathBelow(f, h, n);
    assert ShapeAt(f, h);
    PathParts(Below(f, h, n));
    FindActFindsChild(f, h, c);
    hide Find, Below, RelativePath, AncestorOrSelf, Shape, PrefixFree;
  }

  /** The child takes the path for itself if it has the last name, and else drops its own name. */
  lemma FindStep<P>(f: Flow<P>, h: P, c: P, n: P)
    requires Shape(f) && PrefixFree(f) && h in f && n in f && AncestorOrSelf(f, h, n) && h != n
    requires f[h].depth < f[n].depth && c == Up(f, n, f[h].depth + 1)
    ensures Find(f, c, RelativePath(Below(f, h, n)))
         == if f[c].name == f[n].name then Ok(Some(c)) else FindChild(f, c, RelativePath(Below(f, c, n)))
  {
    StepBelow(f, h, n);
    PathBelow(f, h, n);
    var names := Below(f, h, n);
    PathParts(names);
    LastNameBelow(f, h, n);
    assert names[1..] == Below(f, c, n);
    hide FindChild, Below, RelativePath, AncestorOrSelf, Shape, PrefixFree;
  }

  lemma LastNameBelow<P>(f: Flow<P>, h: P, n: P)
    requires Shape(f) && h in f && n in f && f[h].depth < f[n].depth && GoodNames(Below(f, h, n))
    ensures IsRelative(RelativePath(Below(f, h, n))) && LastAct(RelativePath(Below(f, h, n))) == f[n].name
  {
    var names := Below(f, h, n);
    PathParts(names);
    NamesOfUp(f, n, f[n].depth);
    assert ShapeAt(f, n);
    assert names[|names| - 1] == Names(f, n)[f[n].depth];
  }

  lemma FullPathIsAbsolute<P>(f: Flow<P>, a: P)
    requires Shape(f) && a in f
    ensures IsAbsolute(f[a].fullPath) && !IsRelative(f[a].fullPath)
  {
    FullPathIsNames(f, a);
    var names := Names(f, a);
    assert FullPath(names) == "/" + names[0] + FullPath(names[1..]);
    assert FullPath(names)[0] == '/';
  }

  lemma ChildPathBelow<P>(f: Flow<P>, h: P, n: P)
    requires Shape(f) && h in f && n in f && AncestorOrSelf(f, h, n)
    ensures ChildPath(f[h].fullPath, f[n].fullPath) == if h == n then Throws else Ok(RelativePath(Below(f, h, n)))
  {
    PathBelow(f, h, n);
    if h == n {
      assert Below(f, h, n) == [];
    } else {
      StepBelow(f, h, n);
      FullIsSlashRelative(Below(f, h, n));
      assert f[n].fullPath == f[h].fullPath + ("/" + RelativePath(Below(f, h, n)));
      assert f[n].fullPath[|f[h].fullPath| + 1..] == RelativePath(Below(f, h, n));
    }
  }

  /**
   * Searching a node's own full path from anywhere climbs to where the two meet and comes down to the
   * first node that merely shares the target's name.
   */
  lemma {:induction false} FindFullPath<P>(f: Flow<P>, m: P, n: P)
    requires Shape(f) && PrefixFree(f) && m in f && n in f
    ensures var h := Meet(f, m, n);
      && (h != n ==> f[h].depth < f[n].depth)
      && Find(f, m, f[n].fullPath) == Ok(Some(if h == n then n else FirstNamesake(f, n, f[h].depth + 1)))
    decreases f[m].depth
  {
    assert ShapeAt(f, m);
    FullPathIsAbsolute(f, n);
    PrefixIsAncestry(f, m, n);
    PrefixIsAncestry(f, n, m);
    if AncestorOrSelf(f, m, n) {
      if m != n {
        StepBelow(f, m, n);
        ChildPathBelow(f, m, n);
        FindBelow(f, m, n);
        SamePathSameNode(f, m, n);
      }
    } else {
      RootIsCommon(f, m, n);
      FindFullPath(f, f[m].parent.value, n);
      assert f[m].fullPath != f[n].fullPath;
    }
  }

  lemma SamePathSameNode<P>(f: Flow<P>, m: P, n: P)
    requires Shape(f) && PrefixFree(f) && m in f && n in f
    ensures f[m].fullPath == f[n].fullPath <==> m == n
  {
    if f[m].fullPath == f[n].fullPath {
      PrefixIsAncestry(f, m, n);
      PrefixIsAncestry(f, n, m);
      assert ShapeAt(f, m);
    }
  }

  /** No act on the way from depth `k` down to `n`, `n` left out, has its name. */
  ghost predicate FreshFrom<P>(f: Flow<P>, n: P, k: nat)
    requires Shape(f) && n in f
  {
    forall j: nat | k <= j < f[n].depth :: f[Up(f, n, j)].name != f[n].name
  }

  /** So the search finds the node itself exactly when no act strictly between the meeting point and it has its name. */
  lemma FindReturnsNodeIff<P>(f: Flow<P>, m: P, n: P)
    requires Shape(f) && PrefixFree(f) && m in f && n in f
    ensures Find(f, m, f[n].fullPath) == Ok(Some(n)) <==> FreshFrom(f, n, f[Meet(f, m, n)].depth + 1)
  {
    var h := Meet(f, m, n);
    FindFullPath(f, m, n);
    if h != n {
      NamesakeIsSelfIff(f, n, f[h].depth + 1);
    }
  }

  lemma {:induction false} NamesakeIsSelfIff<P>(f: Flow<P>, n: P, k: nat)
    requires Shape(f) && n in f && k <= f[n].depth
    ensures FirstNamesake(f, n, k) == n <==> FreshFrom(f, n, k)
    decreases f[n].depth - k
  {
    assert ShapeAt(f, n);
    assert Up(f, n, f[n].depth) == n;
    if f[Up(f, n, k)].name != f[n].name {
      NamesakeIsSelfIff(f, n, k + 1);
    } else {
      assert FirstNamesake(f, n, k) == Up(f, n, k);
      assert k < f[n].depth ==> f[Up(f, n, k)].depth != f[n].depth;
    }
  }

  /**
   * Prefix-freeness is needed: a leaf whose name begins its sibling's name takes the sibling's path for one
   * below itself.
   */
  lemma LeafHidesLongerSibling<P>(f: Flow<P>, m: P, n: P)
    requires Shape(f) && m in f && n in f && f[m].kind == Leaf
    requires f[m].parent != None && f[m].parent == f[n].parent
    requires f[m].name < f[n].name
    ensures Find(f, m, f[n].fullPath) == Ok(None)
  {
    assert ShapeAt(f, m) && ShapeAt(f, n);
    FullPathIsAbsolute(f, n);
    var q := f[m].parent.value;
    var base := f[q].fullPath + "/";
    assert f[n].fullPath == base + f[n].name && f[m].fullPath == base + f[m].name;
    assert base + f[m].name <= base + f[n].name;
  }

  // ---- jump -------------------------------------------------------------------------------------

  /**
   * From `h` down towards `n`: the first serial act switches to its child on that way; parallel acts pass the
   * jump on.
   */
  ghost function FirstSerial<P>(f: Flow<P>, h: P, n: P): Switch<P>
    requires Shape(f) && h in f && n in f && AncestorOrSelf(f, h, n) && h != n
    decreases f[n].depth - f[h].depth
  {
    StepBelow(f, h, n);
    var c := Up(f, n, f[h].depth + 1);
    if f[h].kind == Serial then
      var i :| 0 <= i < |f[h].acts| && f[h].acts[i] == c;
      To(h, i)
    else if c == n then Nothing
    else FirstSerial(f, c, n)
  }

  lemma {:induction false} EmptyJumpDoesNothing<P>(f: Flow<P>, m: P)
    requires Shape(f) && m in f
    ensures Jump(f, m, "") == Ok(Nothing)
    decreases f[m].depth
  {
    assert ShapeAt(f, m);
    FullPathIsAbsolute(f, m);
    if f[m].parent != None {
      EmptyJumpDoesNothing(f, f[m].parent.value);
    }
  }

  lemma {:induction false} JumpBelow<P>(f: Flow<P>, h: P, n: P)
    requires Shape(f) && PrefixFree(f) && h in f && n in f && AncestorOrSelf(f, h, n) && h != n
    ensures f[h].kind != Leaf && JumpChild(f, h, RelativePath(Below(f, h, n))) == Ok(FirstSerial(f, h, n))
    decreases f[n].depth - f[h].depth
  {
    StepBelow(f, h, n);
    PathBelow(f, h, n);
    var c, names := Up(f, n, f[h].depth + 1), Below(f, h, n);
    assert ShapeAt(f, h);
    PathParts(names);
    FindActFindsChild(f, h, c);
    if f[h].kind != Serial {
      assert names[1..] == Below(f, c, n);
      hide Names, AncestorOrSelf, PrefixFree, Shape;
      if c == n {
        EmptyJumpDoesNothing(f, c);
      } else {
        StepBelow(f, c, n);
        PathBelow(f, c, n);
        PathParts(Below(f, c, n));
        JumpBelow(f, c, n);
      }
    }
  }

  /**
   * Jumping to a node's full path climbs to where the asked act and the target meet; from there the
   * first serial act on the way down switches. If they meet at the target itself, an act enclosing the
   * one that asked, the path arithmetic throws.
   */
  lemma {:induction false} JumpToFullPath<P>(f: Flow<P>, m: P, n: P)
    requires Shape(f) && PrefixFree(f) && m in f && n in f && f[m].kind != Leaf
    ensures var h := Meet(f, m, n);
      Jump(f, m, f[n].fullPath) == if h == n then Throws else Ok(FirstSerial(f, h, n))
    decreases f[m].depth
  {
    assert ShapeAt(f, m);
    FullPathIsAbsolute(f, n);
    PrefixIsAncestry(f, m, n);
    if AncestorOrSelf(f, m, n) {
      ChildPathBelow(f, m, n);
      if m != n {
        JumpBelow(f, m, n);
      }
    } else {
      RootIsCommon(f, m, n);
      assert ShapeAt(f, f[m].parent.value);
      JumpToFullPath(f, f[m].parent.value, n);
    }
  }

  /** The jump throws exactly when its target is a composite act that is, or encloses, the one that asked. */
  lemma JumpThrowsIff<P>(f: Flow<P>, m: P, n: P)
    requires Shape(f) && PrefixFree(f) && m in f && n in f
    ensures Jump(f, m, f[n].fullPath) == Throws <==> f[n].kind != Leaf && AncestorOrSelf(f, n, m)
  {
    assert ShapeAt(f, m);
    if f[m].kind == Leaf {
      FullPathIsAbsolute(f, n);
      if f[m].parent != None {
        var q := f[m].parent.value;
        assert ShapeAt(f, q);
        JumpToFullPath(f, q, n);
        MeetIsTargetIff(f, q, n);
        AncestorOfChild(f, n, m);
        if AncestorOrSelf(f, n, q) {
          CompositeAbove(f, n, q);
        }
      } else {
        assert AncestorOrSelf(f, n, m) ==> n == m;
      }
    } else {
      JumpToFullPath(f, m, n);
      MeetIsTargetIff(f, m, n);
      if AncestorOrSelf(f, n, m) {
        CompositeAbove(f, n, m);
      }
    }
  }

  lemma {:induction false} MeetIsTargetIff<P>(f: Flow<P>, m: P, n: P)
    requires Shape(f) && m in f && n in f
    ensures Meet(f, m, n) == n <==> AncestorOrSelf(f, n, m)
    decreases f[m].depth
  {
    assert ShapeAt(f, m);
    if AncestorOrSelf(f, m, n) {
      assert ShapeAt(f, n);
      if AncestorOrSelf(f, n, m) {
        assert f[m].depth == f[n].depth;
      }
    } else {
      RootIsCommon(f, m, n);
      MeetIsTargetIff(f, f[m].parent.value, n);
      AncestorOfChild(f, n, m);
      assert AncestorOrSelf(f, n, n);
    }
  }

  /** An ancestor of a node is the node or an ancestor of its parent. */
  lemma AncestorOfChild<P>(f: Flow<P>, n: P, m: P)
    requires Shape(f) && m in f && n in f && f[m].parent != None
    ensures ShapeAt(f, m) && (AncestorOrSelf(f, n, m) <==> n == m || AncestorOrSelf(f, n, f[m].parent.value))
  {
    assert ShapeAt(f, m) && ShapeAt(f, n);
  }

  lemma CompositeAbove<P>(f: Flow<P>, n: P, m: P)
    requires Shape(f) && m in f && n in f && f[m].kind != Leaf && AncestorOrSelf(f, n, m)
    ensures f[n].kind != Leaf
  {
    if n != m {
      StepBelow(f, n, m);
    }
  }
}
