/** The active acts of a flow form a chain, or a fan below parallel acts, and every signal keeps it so. */
module ActiveChain {
  import opened Options
  import opened Acts
  import opened Lookup
  import opened FlowControl

  /** An active act runs under an active parent, and under a serial one only as its current child. */
  ghost predicate RunsUnderParent<P>(f: Flow<P>, a: P)
    requires a in f && ShapeAt(f, a)
  {
    f[a].active && f[a].parent != None ==>
      var q := f[a].parent.value;
      f[q].active && (f[q].kind == Serial ==> f[q].current < |f[q].acts| && f[q].acts[f[q].current] == a)
  }

  /**
   * An active parallel act runs all its children; an active serial act runs its current child, if that is
   * composite.
   */
  ghost predicate RunsChildren<P>(f: Flow<P>, a: P)
    requires a in f && ShapeAt(f, a)
  {
    f[a].active ==>
      && (f[a].kind == Parallel ==> forall i | 0 <= i < |f[a].acts| :: f[f[a].acts[i]].active)
      && (f[a].kind == Serial ==> f[f[a].acts[f[a].current]].kind != Leaf ==> f[f[a].acts[f[a].current]].active)
  }

  ghost predicate ChainAt<P>(f: Flow<P>, a: P)
    requires a in f && ShapeAt(f, a)
  {
    RunsUnderParent(f, a) && RunsChildren(f, a)
  }

  ghost predicate Chain<P>(f: Flow<P>)
    requires Shape(f)
  {
    forall a {:trigger ChainAt(f, a)} | a in f :: ChainAt(f, a)
  }

  // ---- subtrees ---------------------------------------------------------------------------------

  ghost predicate Within<P>(f: Flow<P>, a: P, x: P)
    requires Shape(f) && a in f
  {
    x in f && AncestorOrSelf(f, a, x)
  }

  lemma {:induction false} UpSame<P>(f: Flow<P>, g: Flow<P>, x: P, k: nat)
    requires Shape(f) && Shape(g) && f.Keys == g.Keys && x in f && k <= f[x].depth
    requires forall y | y in f :: g[y].parent == f[y].parent && g[y].depth == f[y].depth
    ensures Up(g, x, k) == Up(f, x, k)
    decreases f[x].depth
  {
    assert ShapeAt(f, x) && ShapeAt(g, x);
    if k < f[x].depth {
      UpSame(f, g, f[x].parent.value, k);
    }
  }

  lemma WithinSame<P>(f: Flow<P>, g: Flow<P>, a: P, x: P)
    requires Shape(f) && Shape(g) && f.Keys == g.Keys && a in f
    requires forall y | y in f :: g[y].parent == f[y].parent && g[y].depth == f[y].depth
    ensures Within(g, a, x) <==> Within(f, a, x)
  {
    if x in f && f[a].depth <= f[x].depth {
      UpSame(f, g, x, f[a].depth);
    }
  }

  /** Below a node means below one of its children. */
  lemma WithinChild<P>(f: Flow<P>, a: P, x: P) returns (c: P)
    requires Shape(f) && a in f && Within(f, a, x) && x != a
    ensures c in f && c in f[a].acts && Within(f, c, x) && f[a].kind != Leaf && f[c].parent == Some(a)
  {
    StepBelow(f, a, x);
    c := Up(f, x, f[a].depth + 1);
    UpIsChild(f, x, f[a].depth);
  }

  lemma ChildWithin<P>(f: Flow<P>, a: P, c: P, x: P)
    requires Shape(f) && a in f && c in f && f[c].parent == Some(a) && Within(f, c, x)
    ensures Within(f, a, x) && x != a
  {
    assert ShapeAt(f, c) && ShapeAt(f, a);
    UpOfUp(f, x, f[c].depth, f[a].depth);
    assert Up(f, a, f[a].depth) == a;
  }

  /** Two children of one act have nothing in common below them. */
  lemma SiblingsApart<P>(f: Flow<P>, a: P, c: P, d: P, x: P)
    requires Shape(f) && c in f && d in f && f[c].parent == Some(a) && f[d].parent == Some(a)
    requires Within(f, c, x) && Within(f, d, x)
    ensures c == d
  {
    assert ShapeAt(f, c) && ShapeAt(f, d);
  }

  lemma ParentWithin<P>(f: Flow<P>, a: P, x: P)
    requires Shape(f) && a in f && Within(f, a, x) && x != a
    ensures f[x].parent.Some? && Within(f, a, f[x].parent.value)
  {
    StepBelow(f, a, x);
    assert ShapeAt(f, x);
    AncestorOfChild(f, a, x);
  }

  // ---- deactivation -----------------------------------------------------------------------------

  /** Below an inactive act nothing runs. */
  lemma {:induction false} InactiveBelow<P>(f: Flow<P>, a: P, x: P)
    requires Shape(f) && a in f && Within(f, a, x) && !f[a].active
    requires forall y | y in f && Within(f, a, y) && y != a :: RunsUnderParent(f, y)
    ensures !f[x].active
    decreases f[x].depth
  {
    if x != a {
      assert ShapeAt(f, x);
      ParentWithin(f, a, x);
      InactiveBelow(f, a, f[x].parent.value);
      assert RunsUnderParent(f, x);
    }
  }

  /** Whatever runs below `a`, other than `a` itself, runs under its parent. */
  ghost predicate ClosedBelow<P>(f: Flow<P>, a: P)
    requires Shape(f) && a in f
  {
    forall y | y in f && Within(f, a, y) && y != a :: RunsUnderParent(f, y)
  }

  ghost predicate SameBelow<P>(f: Flow<P>, g: Flow<P>, a: P)
    requires Shape(f) && a in f && SameTree(f, g)
  {
    forall x | x in f && Within(f, a, x) :: g[x] == f[x]
  }

  lemma ClosedBelowSame<P>(f: Flow<P>, g: Flow<P>, a: P)
    requires Shape(f) && Shape(g) && a in f && SameTree(f, g) && SameBelow(f, g, a) && ClosedBelow(f, a)
    ensures ClosedBelow(g, a)
  {
    forall y | Within(g, a, y) && y != a ensures RunsUnderParent(g, y) {
      WithinSame(f, g, a, y);
      assert RunsUnderParent(f, y);
      ParentWithin(f, a, y);
    }
  }

  lemma ClosedBelowChild<P>(f: Flow<P>, a: P, c: P)
    requires Shape(f) && a in f && c in f && f[c].parent == Some(a) && ClosedBelow(f, a)
    ensures ClosedBelow(f, c)
  {
    forall y | Within(f, c, y) && y != c ensures RunsUnderParent(f, y) {
      ChildWithin(f, a, c, y);
    }
  }

  /** `x` lies below one of the first `n` children of `a`. */
  ghost predicate BelowFirst<P>(f: Flow<P>, a: P, n: nat, x: P)
    requires Shape(f) && a in f && n <= |f[a].acts|
  {
    ShapeAt(f, a) && exists i | 0 <= i < n :: Within(f, f[a].acts[i], x)
  }

  /** From `f` to `g`, the acts below `a` stopped and no other act changed. */
  ghost predicate Cleared<P>(f: Flow<P>, g: Flow<P>, a: P)
    requires Shape(f) && a in f
  {
    SameTree(f, g) && forall x | x in f :: if Within(f, a, x) then !g[x].active else g[x] == f[x]
  }

  /** The same for the first `n` children of `a`. */
  ghost predicate ClearedUpTo<P>(f: Flow<P>, g: Flow<P>, a: P, n: nat)
    requires Shape(f) && a in f && n <= |f[a].acts|
  {
    SameTree(f, g) && forall x | x in f :: if BelowFirst(f, a, n, x) then !g[x].active else g[x] == f[x]
  }

  lemma {:induction false} DeactivateClears<P>(f: Flow<P>, a: P)
    requires Shape(f) && a in f && ClosedBelow(f, a)
    ensures Cleared(f, Deactivate(f, a), a)
    decreases f[a].height, 1
  {
    assert ShapeAt(f, a);
    var g := Deactivate(f, a);
    if !f[a].active {
      forall x | x in f && Within(f, a, x) ensures !g[x].active {
        InactiveBelow(f, a, x);
      }
    } else {
      if f[a].kind == Serial {
        var c := f[a].acts[f[a].current];
        ClosedBelowChild(f, a, c);
        DeactivateClears(f, c);
      } else if f[a].kind == Parallel {
        DeactivateAllClears(f, a, |f[a].acts|);
      }
      forall x | x in f ensures if Within(f, a, x) then !g[x].active else g[x] == f[x] {
        DeactivateClearsAt(f, a, x);
      }
    }
  }

  /** One act's view of it, once the children are dealt with. */
  lemma DeactivateClearsAt<P>(f: Flow<P>, a: P, x: P)
    requires Shape(f) && a in f && x in f && ShapeAt(f, a) && ClosedBelow(f, a) && f[a].active
    requires f[a].kind == Serial ==>
      var c := f[a].acts[f[a].current]; Cleared(f, Deactivate(f, c), c)
    requires f[a].kind == Parallel ==> ClearedUpTo(f, DeactivateAll(f, a, |f[a].acts|), a, |f[a].acts|)
    ensures if Within(f, a, x) then !Deactivate(f, a)[x].active else Deactivate(f, a)[x] == f[x]
  {
    if Within(f, a, x) {
      if x != a {
        var c := WithinChild(f, a, x);
        assert f[a].kind == Parallel ==> BelowFirst(f, a, |f[a].acts|, x);
        if f[a].kind == Serial && c != f[a].acts[f[a].current] {
          IdleChild(f, a, c, x);
          NotWithinSibling(f, a, c, f[a].acts[f[a].current], x);
        }
      }
    } else {
      NotWithinChildren(f, a, x);
      assert x != a by { assert Up(f, a, f[a].depth) == a; }
    }
  }

  /** Nothing runs below a child of a serial act that is not the current one. */
  lemma IdleChild<P>(f: Flow<P>, a: P, c: P, x: P)
    requires Shape(f) && a in f && c in f && f[c].parent == Some(a) && Within(f, c, x) && ClosedBelow(f, a)
    requires ShapeAt(f, a) && f[a].kind == Serial && c != f[a].acts[f[a].current]
    ensures !f[x].active
  {
    ClosedBelowChild(f, a, c);
    assert Within(f, c, c) by { assert ShapeAt(f, c); }
    ChildWithin(f, a, c, c);
    assert RunsUnderParent(f, c);
    InactiveBelow(f, c, x);
  }

  lemma NotWithinSibling<P>(f: Flow<P>, a: P, c: P, d: P, x: P)
    requires Shape(f) && c in f && d in f && f[c].parent == Some(a) && f[d].parent == Some(a) && c != d
    requires Within(f, c, x)
    ensures !Within(f, d, x)
  {
    if Within(f, d, x) {
      SiblingsApart(f, a, c, d, x);
    }
  }

  lemma NotWithinChildren<P>(f: Flow<P>, a: P, x: P)
    requires Shape(f) && a in f && x in f && !Within(f, a, x)
    ensures ShapeAt(f, a) && forall i | 0 <= i < |f[a].acts| :: !Within(f, f[a].acts[i], x)
  {
    assert ShapeAt(f, a);
    forall i | 0 <= i < |f[a].acts| ensures !Within(f, f[a].acts[i], x) {
      if Within(f, f[a].acts[i], x) {
        ChildWithin(f, a, f[a].acts[i], x);
      }
    }
  }

  lemma {:induction false} DeactivateAllClears<P>(f: Flow<P>, a: P, n: nat)
    requires Shape(f) && a in f && n <= |f[a].acts| && ClosedBelow(f, a)
    ensures ClearedUpTo(f, DeactivateAll(f, a, n), a, n)
    decreases f[a].height, 0, n
  {
    hide *;
    if n == 0 {
      ClearNone(f, a);
    } else {
      DeactivateAllClears(f, a, n - 1);
      var c := DeactivateAllStep(f, a, n);
      var g0 := DeactivateAll(f, a, n - 1);
      NextChildIsClosed(f, g0, a, n - 1);
      DeactivateClears(g0, c);
      ClearOneMore(f, g0, Deactivate(g0, c), a, n);
    }
  }

  lemma ClearNone<P>(f: Flow<P>, a: P)
    requires Shape(f) && a in f
    ensures ClearedUpTo(f, DeactivateAll(f, a, 0), a, 0)
  {
    hide Shape, Within, Deactivate;
  }

  /** The child that comes next is as it was. */
  lemma NextChildIsClosed<P>(f: Flow<P>, g: Flow<P>, a: P, k: nat)
    requires Shape(f) && Shape(g) && a in f && k < |f[a].acts| && ClosedBelow(f, a) && ClearedUpTo(f, g, a, k)
    ensures f[a].acts[k] in f && f[a].acts[k] in g
    ensures ClosedBelow(g, f[a].acts[k]) && g[f[a].acts[k]].height == f[f[a].acts[k]].height
  {
    assert ShapeAt(f, a);
    var c := f[a].acts[k];
    assert g[c] == f[c].(active := g[c].active, activeCount := g[c].activeCount);
    forall x | x in f && Within(f, c, x) ensures g[x] == f[x] {
      NotBelowEarlier(f, a, k, x);
    }
    ClosedBelowChild(f, a, c);
    ClosedBelowSame(f, g, c);
  }

  lemma NotBelowEarlier<P>(f: Flow<P>, a: P, k: nat, x: P)
    requires Shape(f) && a in f && ShapeAt(f, a) && k < |f[a].acts| && Within(f, f[a].acts[k], x)
    ensures !BelowFirst(f, a, k, x)
  {
    forall i | 0 <= i < k ensures !Within(f, f[a].acts[i], x) {
      NotWithinSibling(f, a, f[a].acts[k], f[a].acts[i], x);
    }
  }

  lemma BelowOneMore<P>(f: Flow<P>, a: P, n: nat, x: P)
    requires Shape(f) && a in f && ShapeAt(f, a) && 0 < n <= |f[a].acts|
    ensures BelowFirst(f, a, n, x) <==> BelowFirst(f, a, n - 1, x) || Within(f, f[a].acts[n - 1], x)
  {
    hide Within;
  }

  lemma SameTreeTrans<P>(f: Flow<P>, g: Flow<P>, h: Flow<P>)
    requires SameTree(f, g) && SameTree(g, h)
    ensures SameTree(f, h)
  {
    forall x | x in f ensures h[x] == f[x].(active := h[x].active, activeCount := h[x].activeCount) {
      assert g[x] == f[x].(active := g[x].active, activeCount := g[x].activeCount);
    }
  }

  lemma SameTreeMember<P>(f: Flow<P>, g: Flow<P>, x: P)
    requires SameTree(f, g) && x in f
    ensures g[x].parent == f[x].parent && g[x].depth == f[x].depth && g[x].acts == f[x].acts && g[x].kind == f[x].kind
    ensures g[x].height == f[x].height && g[x].current == f[x].current
  {
    assert g[x] == f[x].(active := g[x].active, activeCount := g[x].activeCount);
  }

  lemma WithinSameTree<P>(f: Flow<P>, g: Flow<P>, a: P, x: P)
    requires Shape(f) && Shape(g) && SameTree(f, g) && a in f
    ensures Within(g, a, x) <==> Within(f, a, x)
  {
    forall y | y in f ensures g[y].parent == f[y].parent && g[y].depth == f[y].depth {
      SameTreeMember(f, g, y);
    }
    WithinSame(f, g, a, x);
  }

  lemma ClearOneMore<P>(f: Flow<P>, g0: Flow<P>, g: Flow<P>, a: P, n: nat)
    requires Shape(f) && Shape(g0) && a in f && 0 < n <= |f[a].acts| && f[a].acts[n - 1] in g0
    requires ClearedUpTo(f, g0, a, n - 1) && Cleared(g0, g, f[a].acts[n - 1])
    ensures ClearedUpTo(f, g, a, n)
  {
    assert ShapeAt(f, a);
    var c := f[a].acts[n - 1];
    SameTreeTrans(f, g0, g);
    forall x | x in f ensures if BelowFirst(f, a, n, x) then !g[x].active else g[x] == f[x] {
      WithinSameTree(f, g0, c, x);
      BelowOneMore(f, a, n, x);
      hide Within, BelowFirst, SameTree, Shape;
    }
  }

  // ---- activation -------------------------------------------------------------------------------

  ghost predicate Idle<P>(f: Flow<P>, a: P)
    requires Shape(f) && a in f
  {
    forall x | x in f && Within(f, a, x) :: !f[x].active
  }

  /** All children of a parallel act run, and the current one of a serial act, a leaf too. */
  ghost predicate RunsAllChildren<P>(f: Flow<P>, a: P)
    requires a in f && ShapeAt(f, a)
  {
    f[a].active ==>
      && (f[a].kind == Parallel ==> forall i | 0 <= i < |f[a].acts| :: f[f[a].acts[i]].active)
      && (f[a].kind == Serial ==> f[f[a].acts[f[a].current]].active)
  }

  ghost predicate RunningAt<P>(f: Flow<P>, a: P, y: P)
    requires y in f && ShapeAt(f, y)
  {
    RunsAllChildren(f, y) && (y != a ==> RunsUnderParent(f, y))
  }

  /** `a` runs, and below it the chain is in order. */
  ghost predicate Running<P>(f: Flow<P>, a: P)
    requires Shape(f) && a in f
  {
    f[a].active && forall y | y in f && Within(f, a, y) :: RunningAt(f, a, y)
  }

  /** From `f` to `g`, `a` started and no act outside it changed. */
  ghost predicate Started<P>(f: Flow<P>, g: Flow<P>, a: P)
    requires Shape(f) && a in f
  {
    SameTree(f, g) && Shape(g) && Running(g, a) && forall x | x in f && !Within(f, a, x) :: g[x] == f[x]
  }

  ghost predicate RunningFirst<P>(f: Flow<P>, g: Flow<P>, a: P, n: nat)
    requires a in f && Shape(g) && n <= |f[a].acts|
  {
    forall i | 0 <= i < n :: f[a].acts[i] in g && Running(g, f[a].acts[i])
  }

  ghost predicate SameBeyond<P>(f: Flow<P>, g: Flow<P>, a: P, n: nat)
    requires Shape(f) && a in f && n <= |f[a].acts| && f.Keys == g.Keys
  {
    forall x | x in f && !BelowFirst(f, a, n, x) :: g[x] == f[x]
  }

  ghost predicate StartedUpTo<P>(f: Flow<P>, g: Flow<P>, a: P, n: nat)
    requires Shape(f) && a in f && n <= |f[a].acts|
  {
    SameTree(f, g) && Shape(g) && RunningFirst(f, g, a, n) && SameBeyond(f, g, a, n)
  }

  lemma IdleChildren<P>(f: Flow<P>, a: P, c: P)
    requires Shape(f) && a in f && c in f && f[c].parent == Some(a) && Idle(f, a)
    ensures Idle(f, c)
  {
    forall x | x in f && Within(f, c, x) ensures !f[x].active {
      ChildWithin(f, a, c, x);
    }
  }

  lemma RunningKept<P>(f: Flow<P>, g: Flow<P>, a: P)
    requires Shape(f) && Shape(g) && a in f && SameTree(f, g) && SameBelow(f, g, a) && Running(f, a)
    ensures Running(g, a)
  {
    assert Within(f, a, a) by { assert ShapeAt(f, a); }
    forall y | y in g && Within(g, a, y) ensures RunningAt(g, a, y) {
      WithinSameTree(f, g, a, y);
      RunningKeptAt(f, g, a, y);
    }
  }

  lemma RunningKeptAt<P>(f: Flow<P>, g: Flow<P>, a: P, y: P)
    requires Shape(f) && Shape(g) && a in f && y in f && SameTree(f, g) && SameBelow(f, g, a)
    requires Within(f, a, y) && ShapeAt(f, y) && ShapeAt(g, y) && RunningAt(f, a, y)
    ensures RunningAt(g, a, y)
  {
    forall i | 0 <= i < |f[y].acts| ensures Within(f, a, f[y].acts[i]) {
      ChildOfWithin(f, a, y, f[y].acts[i]);
    }
    if y != a {
      ParentWithin(f, a, y);
    }
  }

  lemma ChildOfWithin<P>(f: Flow<P>, a: P, y: P, c: P)
    requires Shape(f) && a in f && y in f && c in f && f[c].parent == Some(y) && Within(f, a, y)
    ensures Within(f, a, c)
  {
    assert ShapeAt(f, c);
  }

  lemma {:induction false} ActivateStarts<P>(f: Flow<P>, a: P)
    requires Shape(f) && a in f && Idle(f, a)
    ensures Started(f, Activate(f, a), a)
    decreases f[a].height, 1
  {
    assert ShapeAt(f, a);
    assert Within(f, a, a);
    hide Started, StartedUpTo, Within, Shape, SameTree, ActivateAll;
    match f[a].kind
    case Leaf =>
      StartLeaf(f, a);
    case Serial =>
      var c := f[a].acts[f[a].current];
      IdleChildren(f, a, c);
      ActivateStarts(f, c);
      StartSerial(f, Activate(f, c), a);
    case Parallel =>
      ActivateAllStarts(f, a, |f[a].acts|);
      StartParallel(f, ActivateAll(f, a, |f[a].acts|), a);
  }

  lemma StartLeaf<P>(f: Flow<P>, a: P)
    requires Shape(f) && a in f && f[a].kind == Leaf
    ensures Started(f, f[a := Lit(f[a])], a)
  {
    var g := f[a := Lit(f[a])];
    SameTreeKeepsShape(f, g);
    assert Within(f, a, a) by { assert ShapeAt(f, a); }
    forall y | y in g && Within(g, a, y) ensures RunningAt(g, a, y) {
      WithinSameTree(f, g, a, y);
      if y != a {
        var c := WithinChild(f, a, y);
        assert false;
      }
    }
  }

  lemma LitKeeps<P>(f: Flow<P>, a: P, c: P)
    requires Shape(f) && a in f && c in f && f[c].parent == Some(a) && Running(f, c)
    ensures SameTree(f, f[a := Lit(f[a])]) && Shape(f[a := Lit(f[a])]) && Running(f[a := Lit(f[a])], c)
  {
    var g := f[a := Lit(f[a])];
    SameTreeKeepsShape(f, g);
    forall x | x in f && Within(f, c, x) ensures g[x] == f[x] {
      ChildWithin(f, a, c, x);
    }
    RunningKept(f, g, c);
  }

  lemma StartSerial<P>(f: Flow<P>, g0: Flow<P>, a: P)
    requires Shape(f) && a in f && ShapeAt(f, a) && f[a].kind == Serial && Idle(f, a)
    requires Started(f, g0, f[a].acts[f[a].current])
    ensures Started(f, g0[a := Lit(g0[a])], a)
  {
    var c, g := f[a].acts[f[a].current], g0[a := Lit(g0[a])];
    SameTreeMember(f, g0, c);
    SameTreeMember(f, g0, a);
    LitKeeps(g0, a, c);
    SameTreeTrans(f, g0, g);
    forall y | y in g && Within(g, a, y) ensures RunningAt(g, a, y) {
      hide Running, RunningAt, Shape;
      WithinSameTree(f, g, a, y);
      if y != a {
        StartSerialAt(f, g0, a, y);
      } else {
        StartSerialSelf(f, g, a);
      }
    }
    forall x | x in f && !Within(f, a, x) ensures g[x] == f[x] {
      hide Running, RunningAt, Shape;
      assert x != a by { assert Within(f, a, a); }
      NotWithinChildren(f, a, x);
    }
    hide RunningAt, Within, Shape;
  }

  lemma StartSerialSelf<P>(f: Flow<P>, g: Flow<P>, a: P)
    requires Shape(f) && Shape(g) && a in f && ShapeAt(f, a) && f[a].kind == Serial && SameTree(f, g)
    requires Running(g, f[a].acts[f[a].current])
    ensures ShapeAt(g, a) && RunningAt(g, a, a)
  {
    assert ShapeAt(g, a);
    SameTreeMember(f, g, a);
  }

  lemma StartSerialAt<P>(f: Flow<P>, g0: Flow<P>, a: P, y: P)
    requires Shape(f) && a in f && ShapeAt(f, a) && f[a].kind == Serial && Idle(f, a)
    requires Started(f, g0, f[a].acts[f[a].current]) && Within(f, a, y) && y != a
    requires SameTree(f, g0[a := Lit(g0[a])]) && Shape(g0[a := Lit(g0[a])])
    requires Running(g0[a := Lit(g0[a])], f[a].acts[f[a].current])
    ensures ShapeAt(g0[a := Lit(g0[a])], y) && RunningAt(g0[a := Lit(g0[a])], a, y)
  {
    var g, c := g0[a := Lit(g0[a])], f[a].acts[f[a].current];
    assert ShapeAt(g, y) && ShapeAt(f, y);
    SameTreeMember(f, g, a);
    SameTreeMember(f, g, y);
    if Within(f, c, y) {
      WithinSameTree(f, g, c, y);
      assert RunningAt(g, c, y);
      assert y == c ==> RunsUnderParent(g, y);
    } else {
      assert g[y] == g0[y] == f[y] && !f[y].active;
    }
  }

  lemma StartParallel<P>(f: Flow<P>, g0: Flow<P>, a: P)
    requires Shape(f) && a in f && ShapeAt(f, a) && f[a].kind == Parallel
    requires StartedUpTo(f, g0, a, |f[a].acts|)
    ensures Started(f, g0[a := Lit(g0[a])], a)
  {
    var g := g0[a := Lit(g0[a])];
    SameTreeMember(f, g0, a);
    forall i | 0 <= i < |f[a].acts|
      ensures Running(g0, f[a].acts[i]) && Shape(g) && SameTree(g0, g) && Running(g, f[a].acts[i])
    {
      SameTreeMember(f, g0, f[a].acts[i]);
      LitKeeps(g0, a, f[a].acts[i]);
    }
    SameTreeKeepsShape(g0, g);
    SameTreeTrans(f, g0, g);
    forall y | y in g && Within(g, a, y) ensures RunningAt(g, a, y) {
      hide Running, RunningAt, Shape;
      WithinSameTree(f, g, a, y);
      if y != a {
        StartParallelAt(f, g, a, y);
      } else {
        StartParallelSelf(f, g, a);
      }
    }
    forall x | x in f && !Within(f, a, x) ensures g[x] == f[x] {
      hide Running, RunningAt, Shape;
      assert x != a by { assert Within(f, a, a); }
      NotWithinChildren(f, a, x);
    }
    hide RunningAt, Within, Shape;
  }

  lemma StartParallelSelf<P>(f: Flow<P>, g: Flow<P>, a: P)
    requires Shape(f) && Shape(g) && a in f && ShapeAt(f, a) && f[a].kind == Parallel && SameTree(f, g)
    requires forall i | 0 <= i < |f[a].acts| :: Running(g, f[a].acts[i])
    ensures ShapeAt(g, a) && RunningAt(g, a, a)
  {
    assert ShapeAt(g, a);
    SameTreeMember(f, g, a);
    forall i | 0 <= i < |f[a].acts| ensures g[f[a].acts[i]].active {
      assert Running(g, f[a].acts[i]);
    }
  }

  lemma StartParallelAt<P>(f: Flow<P>, g: Flow<P>, a: P, y: P)
    requires Shape(f) && Shape(g) && a in f && ShapeAt(f, a) && f[a].kind == Parallel && SameTree(f, g) && g[a].active
    requires forall i | 0 <= i < |f[a].acts| :: Running(g, f[a].acts[i])
    requires Within(f, a, y) && y != a
    ensures ShapeAt(g, y) && RunningAt(g, a, y)
  {
    var c := WithinChild(f, a, y);
    WithinSameTree(f, g, c, y);
    assert ShapeAt(g, y);
    assert RunningAt(g, c, y);
    SameTreeMember(f, g, c);
    SameTreeMember(f, g, a);
  }

  lemma {:induction false} ActivateAllStarts<P>(f: Flow<P>, a: P, n: nat)
    requires Shape(f) && a in f && n <= |f[a].acts| && Idle(f, a)
    ensures StartedUpTo(f, ActivateAll(f, a, n), a, n)
    decreases f[a].height, 0, n
  {
    hide *;
    if n == 0 {
      StartNone(f, a);
    } else {
      ActivateAllStarts(f, a, n - 1);
      var c := ActivateAllStep(f, a, n);
      var g0 := ActivateAll(f, a, n - 1);
      NextChildIsIdle(f, g0, a, n - 1);
      ActivateStarts(g0, c);
      StartOneMore(f, g0, Activate(g0, c), a, n);
    }
  }

  lemma StartNone<P>(f: Flow<P>, a: P)
    requires Shape(f) && a in f
    ensures StartedUpTo(f, ActivateAll(f, a, 0), a, 0)
  {
    hide Shape, Within, Activate;
  }

  lemma NextChildIsIdle<P>(f: Flow<P>, g: Flow<P>, a: P, k: nat)
    requires Shape(f) && Shape(g) && a in f && k < |f[a].acts| && Idle(f, a) && StartedUpTo(f, g, a, k)
    ensures f[a].acts[k] in f && f[a].acts[k] in g && Idle(g, f[a].acts[k])
    ensures g[f[a].acts[k]].height == f[f[a].acts[k]].height
  {
    assert ShapeAt(f, a);
    var c := f[a].acts[k];
    SameTreeMember(f, g, c);
    IdleChildren(f, a, c);
    forall x | x in g && Within(g, c, x) ensures !g[x].active {
      WithinSameTree(f, g, c, x);
      NotBelowEarlier(f, a, k, x);
    }
  }

  lemma StartOneMore<P>(f: Flow<P>, g0: Flow<P>, g: Flow<P>, a: P, n: nat)
    requires Shape(f) && Shape(g0) && a in f && 0 < n <= |f[a].acts|
    requires StartedUpTo(f, g0, a, n - 1) && f[a].acts[n - 1] in g0 && Started(g0, g, f[a].acts[n - 1])
    ensures StartedUpTo(f, g, a, n)
  {
    hide Shape, Running, SameTree, RunningFirst, SameBeyond;
    SameTreeTrans(f, g0, g);
    StartOneMoreRuns(f, g0, g, a, n);
    SameBeyondOneMore(f, g0, g, a, n);
  }

  lemma StartOneMoreRuns<P>(f: Flow<P>, g0: Flow<P>, g: Flow<P>, a: P, n: nat)
    requires Shape(f) && Shape(g0) && a in f && 0 < n <= |f[a].acts|
    requires SameTree(f, g0) && RunningFirst(f, g0, a, n - 1) && f[a].acts[n - 1] in g0
    requires Started(g0, g, f[a].acts[n - 1])
    ensures Shape(g) && RunningFirst(f, g, a, n)
  {
    assert RunningFirst(f, g, a, n - 1) by {
      forall i | 0 <= i < n - 1 ensures f[a].acts[i] in g && Running(g, f[a].acts[i]) {
        assert ShapeAt(f, a);
        hide Running, Within, Shape, SameTree, Started;
        EarlierChildKept(f, g0, g, a, n, i);
      }
    }
    hide Running, Within, Shape, RunningFirst;
    RunningFirstSnoc(f, g, a, n);
  }

  lemma RunningFirstSnoc<P>(f: Flow<P>, g: Flow<P>, a: P, n: nat)
    requires a in f && Shape(g) && 0 < n <= |f[a].acts| && RunningFirst(f, g, a, n - 1)
    requires f[a].acts[n - 1] in g && Running(g, f[a].acts[n - 1])
    ensures RunningFirst(f, g, a, n)
  {
    hide Running, Shape;
  }

  lemma SameBeyondOneMore<P>(f: Flow<P>, g0: Flow<P>, g: Flow<P>, a: P, n: nat)
    requires Shape(f) && Shape(g0) && a in f && 0 < n <= |f[a].acts| && SameTree(f, g0) && SameTree(g0, g)
    requires SameBeyond(f, g0, a, n - 1) && f[a].acts[n - 1] in g0
    requires forall x | x in g0 && !Within(g0, f[a].acts[n - 1], x) :: g[x] == g0[x]
    ensures f.Keys == g.Keys && SameBeyond(f, g, a, n)
  {
    assert ShapeAt(f, a);
    forall x | x in f && !BelowFirst(f, a, n, x) ensures g[x] == f[x] {
      WithinSameTree(f, g0, f[a].acts[n - 1], x);
      BelowOneMore(f, a, n, x);
      hide Within, BelowFirst, Shape, SameTree;
    }
  }

  lemma EarlierChildKept<P>(f: Flow<P>, g0: Flow<P>, g: Flow<P>, a: P, n: nat, i: nat)
    requires Shape(f) && Shape(g0) && a in f && ShapeAt(f, a) && 0 < n <= |f[a].acts| && i < n - 1
    requires SameTree(f, g0) && Running(g0, f[a].acts[i]) && f[a].acts[n - 1] in g0 && Started(g0, g, f[a].acts[n - 1])
    ensures f[a].acts[i] in g && Running(g, f[a].acts[i])
  {
    var c, d := f[a].acts[n - 1], f[a].acts[i];
    SameTreeMember(f, g0, c);
    SameTreeMember(f, g0, d);
    forall x | x in g0 && Within(g0, d, x) ensures g[x] == g0[x] {
      NotWithinSibling(g0, a, d, c, x);
    }
    RunningKept(g0, g, d);
  }
}
