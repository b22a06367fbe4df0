/** Relative paths: what acts find by them, and where jumps along them land. */
module Search {
  import opened Options
  import opened Paths
  import opened Acts
  import opened Lookup
  import opened Naming
  import opened FlowControl
  import opened ActiveChain
  import opened Signals
  import opened FlowRun

  // ---- find by a path below the act ---------------------------------------------------------------

  lemma RelativeSplits(names: seq<string>)
    requires GoodNames(names) && names != []
    ensures IsRelative(RelativePath(names)) && FirstAct(RelativePath(names)) == Ok(names[0])
    ensures LastAct(RelativePath(names)) == names[|names| - 1]
    ensures PopHead(RelativePath(names)) == Ok(RelativePath(names[1..]))
  {
    PathParts(names);
  }

  /** The cases of a relative search, in names. */
  lemma FindCases<P>(f: Flow<P>, m: P, names: seq<string>)
    requires Shape(f) && m in f && GoodNames(names) && names != []
    ensures Find(f, m, RelativePath(names))
         == if names[|names| - 1] == f[m].name then Ok(Some(m))
            else if names[0] == f[m].name then FindChild(f, m, RelativePath(names[1..]))
            else FindChild(f, m, RelativePath(names))
  {
    RelativeSplits(names);
    hide Shape, FindChild, RelativePath;
  }

  lemma NamesBelow<P>(f: Flow<P>, m: P, n: P)
    requires Shape(f) && m in f && n in f && AncestorOrSelf(f, m, n) && m != n
    ensures f[m].depth < f[n].depth
    ensures var names := Below(f, m, n);
      names != [] && GoodNames(names) && names[|names| - 1] == f[n].name && GoodName(f[m].name)
  {
    StepBelow(f, m, n);
    PathBelow(f, m, n);
    NamesOfUp(f, n, f[n].depth);
    assert ShapeAt(f, n) && ShapeAt(f, m);
    assert Up(f, n, f[n].depth) == n;
  }

  /**
   * An act asked for the path of an act below it, without its own name, answers the first act of the
   * last name on the way there, unless the path begins or ends with the asked act's own name.
   */
  lemma RelativeFind<P>(f: Flow<P>, m: P, n: P)
    requires Shape(f) && PrefixFree(f) && m in f && n in f && AncestorOrSelf(f, m, n) && m != n
    requires f[m].depth < f[n].depth && Below(f, m, n)[0] != f[m].name && f[n].name != f[m].name
    ensures Find(f, m, RelativePath(Below(f, m, n))) == Ok(Some(FirstNamesake(f, n, f[m].depth + 1)))
  {
    NamesBelow(f, m, n);
    FindCases(f, m, Below(f, m, n));
    FindBelow(f, m, n);
  }

  /** The path may begin with the asked act's own name. */
  lemma RelativeFindWithSelf<P>(f: Flow<P>, m: P, n: P)
    requires Shape(f) && PrefixFree(f) && m in f && n in f && AncestorOrSelf(f, m, n) && m != n
    ensures f[m].depth < f[n].depth
    ensures Find(f, m, RelativePath([f[m].name] + Below(f, m, n)))
         == Ok(Some(if f[n].name == f[m].name then m else FirstNamesake(f, n, f[m].depth + 1)))
  {
    NamesBelow(f, m, n);
    var names := [f[m].name] + Below(f, m, n);
    assert names[1..] == Below(f, m, n);
    FindCases(f, m, names);
    FindBelow(f, m, n);
  }

  // ---- how deep a search goes ---------------------------------------------------------------------

  ghost predicate NoDeeper<P>(f: Flow<P>, r: Result<Option<P>>, depth: nat) {
    r.Ok? && r.value.Some? ==> r.value.value in f && f[r.value.value].depth <= depth
  }

  /** A search goes down one level for each name of the path, and none for the asked act's own. */
  lemma {:induction false} FindGoesDown<P>(f: Flow<P>, m: P, names: seq<string>)
    requires Shape(f) && m in f && GoodNames(names) && names != []
    ensures NoDeeper(f, Find(f, m, RelativePath(names)), f[m].depth + |names| - if names[0] == f[m].name then 1 else 0)
    decreases |names|, if names[0] == f[m].name then 0 else 2
  {
    FindCases(f, m, names);
    if names[|names| - 1] != f[m].name {
      if names[0] == f[m].name {
        assert GoodNames(names[1..]) && names[1..] != [];
        FindChildGoesDown(f, m, names[1..]);
      } else {
        FindChildGoesDown(f, m, names);
      }
    }
  }

  lemma {:induction false} FindChildGoesDown<P>(f: Flow<P>, m: P, names: seq<string>)
    requires Shape(f) && m in f && GoodNames(names) && names != []
    ensures NoDeeper(f, FindChild(f, m, RelativePath(names)), f[m].depth + |names|)
    decreases |names|, 1
  {
    assert ShapeAt(f, m);
    RelativeSplits(names);
    if f[m].kind != Leaf {
      var i := FindAct(f, f[m].acts, names[0]);
      if i.Some? {
        var c := f[m].acts[i.value];
        assert ShapeAt(f, c) && f[c].name == names[0];
        FindGoesDown(f, c, names);
      }
    }
  }

  /**
   * So a relative search below finds the act itself exactly when no act from the asked one on has its name,
   * nor the first step down the asked one's.
   */
  lemma RelativeFindReturnsNodeIff<P>(f: Flow<P>, m: P, n: P)
    requires Shape(f) && PrefixFree(f) && m in f && n in f && AncestorOrSelf(f, m, n) && m != n
    ensures f[m].depth < f[n].depth
    ensures Find(f, m, RelativePath(Below(f, m, n))) == Ok(Some(n))
      <==> FreshFrom(f, n, f[m].depth) && Below(f, m, n)[0] != f[m].name
  {
    NamesBelow(f, m, n);
    var names := Below(f, m, n);
    FindCases(f, m, names);
    assert Up(f, n, f[m].depth) == m;
    if f[n].name != f[m].name {
      assert FreshFrom(f, n, f[m].depth) <==> FreshFrom(f, n, f[m].depth + 1);
      if names[0] == f[m].name {
        assert GoodNames(names[1..]) && |names| > 1;
        FindChildGoesDown(f, m, names[1..]);
      } else {
        RelativeFind(f, m, n);
        NamesakeIsSelfIff(f, n, f[m].depth + 1);
      }
    }
  }

  // ---- what is not there --------------------------------------------------------------------------

  ghost predicate Named<P>(f: Flow<P>, r: Result<Option<P>>, name: string) {
    r.Ok? && (r.value.Some? ==> r.value.value in f && f[r.value.value].name == name)
  }

  /** No relative path made of names throws, and whatever the search answers has the last name of the path. */
  lemma {:induction false} FindHasLastName<P>(f: Flow<P>, m: P, names: seq<string>)
    requires Shape(f) && m in f && GoodNames(names) && names != []
    ensures Named(f, Find(f, m, RelativePath(names)), names[|names| - 1])
    decreases |names|, if names[0] == f[m].name then 0 else 2
  {
    FindCases(f, m, names);
    if names[|names| - 1] != f[m].name {
      if names[0] == f[m].name {
        assert GoodNames(names[1..]) && |names| > 1;
        FindChildHasLastName(f, m, names[1..]);
      } else {
        FindChildHasLastName(f, m, names);
      }
    }
  }

  lemma {:induction false} FindChildHasLastName<P>(f: Flow<P>, m: P, names: seq<string>)
    requires Shape(f) && m in f && GoodNames(names) && names != []
    ensures Named(f, FindChild(f, m, RelativePath(names)), names[|names| - 1])
    decreases |names|, 1
  {
    assert ShapeAt(f, m);
    RelativeSplits(names);
    if f[m].kind != Leaf {
      var i := FindAct(f, f[m].acts, names[0]);
      if i.Some? {
        assert ShapeAt(f, f[m].acts[i.value]);
        FindHasLastName(f, f[m].acts[i.value], names);
      }
    }
  }

  /** A full path that ends in a name no act has is not found by the act it continues, nor by any above that. */
  lemma UnknownIsNotFound<P>(f: Flow<P>, m: P, n: P, name: string)
    requires Shape(f) && m in f && n in f && AncestorOrSelf(f, m, n) && GoodName(name)
    requires forall x | x in f :: f[x].name != name
    ensures Find(f, m, f[n].fullPath + "/" + name) == Ok(None)
  {
    var names := Below(f, m, n) + [name];
    PathBelow(f, m, n);
    assert GoodNames(names);
    FullPathSnoc(Below(f, m, n), name);
    FullIsSlashRelative(names);
    var path := f[n].fullPath + "/" + name;
    assert path == f[m].fullPath + FullPath(names) == f[m].fullPath + ("/" + RelativePath(names));
    assert path[|f[m].fullPath| + 1..] == RelativePath(names);
    FullPathIsAbsolute(f, m);
    CutPath(f, m, path, RelativePath(names));
    FindChildHasLastName(f, m, names);
  }

  // ---- jumps --------------------------------------------------------------------------------------

  /**
   * A leaf hands a relative target to its parent, which takes it from there: any act below the parent can be
   * named so.
   */
  lemma RelativeLeafJump<P>(f: Flow<P>, m: P, q: P, n: P)
    requires Shape(f) && PrefixFree(f) && m in f && n in f && f[m].kind == Leaf && f[m].parent == Some(q)
    requires q in f && AncestorOrSelf(f, q, n) && q != n
    ensures f[q].depth < f[n].depth
    ensures Jump(f, m, RelativePath(Below(f, q, n))) == Ok(FirstSerial(f, q, n))
  {
    NamesBelow(f, q, n);
    RelativeSplits(Below(f, q, n));
    JumpBelow(f, q, n);
    hide FirstSerial, Below, RelativePath;
  }

  /** ... and what its signal then does, as for full paths. */
  lemma RelativeJumpLandsIff<P>(f: Flow<P>, m: P, q: P, n: P)
    requires Shape(f) && PrefixFree(f) && Chain(f) && m in f && n in f && f[m].kind == Leaf && f[m].parent == Some(q)
    requires ShapeAt(f, m) && Served(f, m) && q in f && AncestorOrSelf(f, q, n) && q != n
    ensures f[q].depth < f[n].depth
    ensures Lands(f, Signal(f, m, JumpTo(RelativePath(Below(f, q, n)))), FirstSerial(f, q, n), n)
  {
    RelativeLeafJump(f, m, q, n);
    ActiveIsOnLine(f, q);
    hide *;
    var path, r := RelativePath(Below(f, q, n)), FirstSerial(f, q, n);
    FirstSerialOnLine(f, q, n);
    JumpSignals(f, m, path, r);
    SwitchLands(f, r, n, Signal(f, m, JumpTo(path)));
  }

  /**
   * A serial act goes by the first name alone: its child of that name if it has one, and else the jump comes to
   * nothing.
   */
  lemma SerialJumpIff<P>(f: Flow<P>, m: P, s: P, names: seq<string>, i: nat)
    requires Shape(f) && m in f && s in f && ShapeAt(f, s) && f[s].kind == Serial && GoodNames(names) && names != []
    requires m == s || (f[m].kind == Leaf && f[m].parent == Some(s))
    requires i < |f[s].acts| && forall j | 0 <= j < i :: f[f[s].acts[j]].name != names[0]
    ensures Jump(f, m, RelativePath(names)) == Ok(To(s, i)) <==> f[f[s].acts[i]].name == names[0]
    ensures (forall j | 0 <= j < |f[s].acts| :: f[f[s].acts[j]].name != names[0]) ==>
      Jump(f, m, RelativePath(names)) == Ok(Nothing)
  {
    RelativeSplits(names);
    hide RelativePath, Shape;
    assert Jump(f, m, RelativePath(names)) == JumpChild(f, s, RelativePath(names));
  }

  /**
   * Below a parallel act a leaf hands the rest of a path back: naming a leaf child first, and then more,
   * comes to what the rest comes to without it.
   */
  lemma LeafBounces<P>(f: Flow<P>, p: P, i: nat, rest: seq<string>)
    requires Shape(f) && PrefixFree(f) && p in f && ShapeAt(f, p) && f[p].kind == Parallel
    requires i < |f[p].acts| && f[f[p].acts[i]].kind == Leaf && GoodNames(rest) && rest != []
    ensures Jump(f, p, RelativePath([f[f[p].acts[i]].name] + rest)) == Jump(f, p, RelativePath(rest))
  {
    var x := f[p].acts[i];
    var names := [f[x].name] + rest;
    assert ShapeAt(f, x);
    assert names[1..] == rest;
    RelativeSplits(names);
    RelativeSplits(rest);
    FindActFindsChild(f, p, x);
    hide RelativePath, Shape, PrefixFree;
    assert Jump(f, p, RelativePath(names)) == JumpChild(f, p, RelativePath(names)) == Jump(f, x, RelativePath(rest));
    assert Jump(f, x, RelativePath(rest)) == Jump(f, p, RelativePath(rest));
  }

  /** Slashes after an act's own path: a composite throws on them, a leaf finds nothing. */
  lemma SlashesThrowIff<P>(f: Flow<P>, m: P, rest: string)
    requires Shape(f) && m in f && |rest| > 0 && forall i | 0 <= i < |rest| :: rest[i] == '/'
    ensures Find(f, m, f[m].fullPath + "/" + rest) == if f[m].kind == Leaf then Ok(None) else Throws
  {
    var own := f[m].fullPath;
    var path := own + "/" + rest;
    assert path == own + ("/" + rest) && path[|own| + 1..] == rest;
    FullPathIsAbsolute(f, m);
    OnlySlashes(rest);
    CutPath(f, m, path, rest);
    assert ShapeAt(f, m);
    hide Shape;
    assert FirstAct(rest) == Throws;
  }

  lemma {:induction false} OnlySlashes(s: string)
    requires forall i | 0 <= i < |s| :: s[i] == '/'
    ensures Split(s, SLASH) == []
  {
    if |s| > 0 {
      OnlySlashes(s[1..]);
      assert s == "/" + s[1..];
      SplitSkipsSlash(s[1..]);
    }
  }

  /**
   * A composite act whose name begins a sibling's takes a jump to that sibling for one below itself: if the
   * longer name goes on with one character and the name of a child, that child is jumped to.
   */
  lemma PrefixJumpsToOwnChild<P>(f: Flow<P>, m: P, n: P, i: nat, x: char)
    requires Shape(f) && m in f && n in f && ShapeAt(f, m) && f[m].parent.Some? && f[m].parent == f[n].parent
    requires f[m].kind == Serial && i < |f[m].acts| && f[n].name == f[m].name + [x] + f[f[m].acts[i]].name
    requires forall j | 0 <= j < i :: f[f[m].acts[j]].name != f[f[m].acts[i]].name
    ensures Jump(f, m, f[n].fullPath) == Ok(To(m, i))
  {
    var name := f[f[m].acts[i]].name;
    assert ShapeAt(f, f[m].acts[i]);
    CutInsideName(f, m, n, name, x);
    FullPathIsAbsolute(f, n);
    SplitOffName(name, "");
    assert Split(name, SLASH) == [name];
    hide Shape, ShapeAt;
    assert Jump(f, m, f[n].fullPath) == JumpChild(f, m, name);
    assert FirstAct(name) == Ok(name) && FindAct(f, f[m].acts, name) == Some(i);
  }
}
