/** Which acts of a flow are active: activation runs down the tree, `next` and jumps switch serial acts. */
module FlowControl {
  import opened Options
  import opened Acts

  // ---- operations -------------------------------------------------------------------------------

  function Lit<P>(n: Act<P>): Act<P> {
    n.(active := true, activeCount := n.activeCount + 1)
  }

  /** activate: on_activate first, then the flag; a second activation changes nothing. */
  ghost function Activate<P>(f: Flow<P>, a: P): (g: Flow<P>)
    requires Shape(f) && a in f
    ensures SameTree(f, g)
    decreases f[a].height, 2
  {
    if f[a].active then f else
    var g := OnActivate(f, a);
    SameTreeUpdate(f, g, a, Lit(g[a]));
    g[a := Lit(g[a])]
  }

  /** A serial act activates its current child, a parallel one every child, and leaves accept. */
  ghost function OnActivate<P>(f: Flow<P>, a: P): (g: Flow<P>)
    requires Shape(f) && a in f
    ensures SameTree(f, g)
    decreases f[a].height, 1
  {
    assert ShapeAt(f, a);
    match f[a].kind
    case Leaf => f
    case Serial => Activate(f, f[a].acts[f[a].current])
    case Parallel => ActivateAll(f, a, |f[a].acts|)
  }

  /** The first `n` children of a parallel act, in order. */
  ghost function ActivateAll<P>(f: Flow<P>, a: P, n: nat): (g: Flow<P>)
    requires Shape(f) && a in f && n <= |f[a].acts|
    ensures SameTree(f, g)
    decreases f[a].height, 0, n
  {
    assert ShapeAt(f, a);
    if n == 0 then f else
    var g := ActivateAll(f, a, n - 1);
    SameTreeKeepsShape(f, g);
    Activate(g, f[a].acts[n - 1])
  }

  ghost function Deactivate<P>(f: Flow<P>, a: P): (g: Flow<P>)
    requires Shape(f) && a in f
    ensures SameTree(f, g)
    decreases f[a].height, 2
  {
    if !f[a].active then f else
    var g := OnDeactivate(f, a);
    SameTreeUpdate(f, g, a, g[a].(active := false));
    g[a := g[a].(active := false)]
  }

  ghost function OnDeactivate<P>(f: Flow<P>, a: P): (g: Flow<P>)
    requires Shape(f) && a in f
    ensures SameTree(f, g)
    decreases f[a].height, 1
  {
    assert ShapeAt(f, a);
    match f[a].kind
    case Leaf => f
    case Serial => Deactivate(f, f[a].acts[f[a].current])
    case Parallel => DeactivateAll(f, a, |f[a].acts|)
  }

  ghost function DeactivateAll<P>(f: Flow<P>, a: P, n: nat): (g: Flow<P>)
    requires Shape(f) && a in f && n <= |f[a].acts|
    ensures SameTree(f, g)
    decreases f[a].height, 0, n
  {
    assert ShapeAt(f, a);
    if n == 0 then f else
    var g := DeactivateAll(f, a, n - 1);
    SameTreeKeepsShape(f, g);
    Deactivate(g, f[a].acts[n - 1])
  }

  /** act_serial::jump_child once the child is found. */
  ghost function SwitchTo<P>(f: Flow<P>, s: P, i: nat): (g: Flow<P>)
    requires Shape(f) && s in f && f[s].kind == Serial && i < |f[s].acts|
  {
    assert ShapeAt(f, s);
    var g := Deactivate(f, f[s].acts[f[s].current]);
    SameTreeKeepsShape(f, g);
    MoveKeepsShape(g, s, i);
    Activate(g[s := g[s].(current := i)], f[s].acts[i])
  }

  /** act_serial::next: at the end the last child is deactivated and stays current. */
  ghost function Next<P>(f: Flow<P>, s: P): (g: Flow<P>)
    requires Shape(f) && s in f && f[s].kind == Serial
  {
    assert ShapeAt(f, s);
    if f[s].current + 1 >= |f[s].acts| then Deactivate(f, f[s].acts[f[s].current])
    else SwitchTo(f, s, f[s].current + 1)
  }

  // ---- what operations leave alone --------------------------------------------------------------

  /** Only activity and counts differ: nothing moved. */
  ghost predicate SameTree<P>(f: Flow<P>, g: Flow<P>) {
    && f.Keys == g.Keys
    && forall x {:trigger g[x]} | x in f :: g[x] == f[x].(active := g[x].active, activeCount := g[x].activeCount)
  }

  lemma SameTreeUpdate<P>(f: Flow<P>, g: Flow<P>, a: P, n: Act<P>)
    requires SameTree(f, g) && a in f && n == g[a].(active := n.active, activeCount := n.activeCount)
    ensures SameTree(f, g[a := n])
  {
  }

  lemma SameTreeKeepsShape<P>(f: Flow<P>, g: Flow<P>)
    requires Shape(f) && SameTree(f, g)
    ensures Shape(g)
  {
    forall a {:trigger ShapeAt(g, a)} | a in g ensures ShapeAt(g, a) {
      assert ShapeAt(f, a);
      assert g[a] == f[a].(active := g[a].active, activeCount := g[a].activeCount);
      forall i | 0 <= i < |f[a].acts|
        ensures f[a].acts[i] in g && g[f[a].acts[i]].parent == Some(a) && g[f[a].acts[i]].height < f[a].height
      {
        var c := f[a].acts[i];
        assert g[c] == f[c].(active := g[c].active, activeCount := g[c].activeCount);
      }
      if f[a].parent != None {
        var q := f[a].parent.value;
        assert g[q] == f[q].(active := g[q].active, activeCount := g[q].activeCount);
      }
    }
  }

  lemma MoveKeepsShape<P>(f: Flow<P>, s: P, i: nat)
    requires Shape(f) && s in f && i < |f[s].acts|
    ensures Shape(f[s := f[s].(current := i)])
  {
    var g := f[s := f[s].(current := i)];
    forall a {:trigger ShapeAt(g, a)} | a in g ensures ShapeAt(g, a) {
      assert ShapeAt(f, a);
    }
  }

  lemma ActivateAllStep<P>(f: Flow<P>, a: P, n: nat) returns (c: P)
    requires Shape(f) && a in f && 0 < n <= |f[a].acts|
    ensures c == f[a].acts[n - 1] && c in f && f[c].height < f[a].height
    ensures Shape(ActivateAll(f, a, n - 1)) && c in ActivateAll(f, a, n - 1)
    ensures ActivateAll(f, a, n - 1)[c].height == f[c].height
    ensures ActivateAll(f, a, n) == Activate(ActivateAll(f, a, n - 1), c)
  {
    assert ShapeAt(f, a);
    c := f[a].acts[n - 1];
    SameTreeKeepsShape(f, ActivateAll(f, a, n - 1));
    assert ActivateAll(f, a, n - 1)[c].height == f[c].height;
    hide Shape, SameTree, Activate;
  }

  lemma DeactivateAllStep<P>(f: Flow<P>, a: P, n: nat) returns (c: P)
    requires Shape(f) && a in f && 0 < n <= |f[a].acts|
    ensures c == f[a].acts[n - 1] && c in f && f[c].height < f[a].height
    ensures Shape(DeactivateAll(f, a, n - 1)) && c in DeactivateAll(f, a, n - 1)
    ensures DeactivateAll(f, a, n - 1)[c].height == f[c].height
    ensures DeactivateAll(f, a, n) == Deactivate(DeactivateAll(f, a, n - 1), c)
  {
    assert ShapeAt(f, a);
    c := f[a].acts[n - 1];
    SameTreeKeepsShape(f, DeactivateAll(f, a, n - 1));
    assert DeactivateAll(f, a, n - 1)[c].height == f[c].height;
    hide Shape, SameTree, Deactivate;
  }

  // ---- counts -----------------------------------------------------------------------------------

  /** Acts only start, and the count of each that starts rises by one. */
  ghost predicate Lights<P>(f: Flow<P>, g: Flow<P>) {
    && f.Keys == g.Keys
    && forall x {:trigger g[x]} | x in f ::
         && (f[x].active ==> g[x].active)
         && g[x].activeCount == f[x].activeCount + (if g[x].active && !f[x].active then 1 else 0)
  }

  /** Acts only stop, and no count changes. */
  ghost predicate Darkens<P>(f: Flow<P>, g: Flow<P>) {
    && f.Keys == g.Keys
    && forall x {:trigger g[x]} | x in f :: (g[x].active ==> f[x].active) && g[x].activeCount == f[x].activeCount
  }

  lemma {:induction false} ActivateCounts<P>(f: Flow<P>, a: P)
    requires Shape(f) && a in f
    ensures Lights(f, Activate(f, a)) && Activate(f, a)[a].active
    decreases f[a].height, 2
  {
    if !f[a].active {
      OnActivateCounts(f, a);
      ActivateLightsOnce(f, a);
    }
  }

  /** on_activate does not reach back to the act itself. */
  lemma ActivateLightsOnce<P>(f: Flow<P>, a: P)
    requires Shape(f) && a in f && !f[a].active && Lights(f, OnActivate(f, a)) && !OnActivate(f, a)[a].active
    ensures Lights(f, Activate(f, a))
  {
    hide Shape, OnActivate, SameTree;
  }

  /** Only acts lower than `h` may change. */
  ghost predicate SameFrom<P>(f: Flow<P>, g: Flow<P>, h: nat) {
    f.Keys == g.Keys && forall x {:trigger g[x]} | x in f && f[x].height >= h :: g[x] == f[x]
  }

  lemma {:induction false} OnActivateCounts<P>(f: Flow<P>, a: P)
    requires Shape(f) && a in f
    ensures Lights(f, OnActivate(f, a)) && SameFrom(f, OnActivate(f, a), f[a].height)
    decreases f[a].height, 1
  {
    assert ShapeAt(f, a);
    match f[a].kind
    case Leaf =>
    case Serial =>
      var c := f[a].acts[f[a].current];
      ChildCounts(f, c, f[a].height);
    case Parallel =>
      ActivateAllCounts(f, a, |f[a].acts|);
  }

  lemma {:induction false} ActivateAllCounts<P>(f: Flow<P>, a: P, n: nat)
    requires Shape(f) && a in f && n <= |f[a].acts|
    ensures Lights(f, ActivateAll(f, a, n)) && SameFrom(f, ActivateAll(f, a, n), f[a].height)
    decreases f[a].height, 0, n
  {
    hide *;
    if n == 0 {
      NothingCounts(f, a);
    } else {
      ActivateAllCounts(f, a, n - 1);
      var c := ActivateAllStep(f, a, n);
      ChildCounts(ActivateAll(f, a, n - 1), c, f[a].height);
      CountsAddUp(f, ActivateAll(f, a, n - 1), ActivateAll(f, a, n), f[a].height);
    }
  }

  lemma NothingCounts<P>(f: Flow<P>, a: P)
    requires Shape(f) && a in f
    ensures Lights(f, ActivateAll(f, a, 0)) && SameFrom(f, ActivateAll(f, a, 0), f[a].height)
    ensures Darkens(f, DeactivateAll(f, a, 0))
  {
    hide Shape, SameTree;
  }

  lemma ChildCounts<P>(g: Flow<P>, c: P, level: nat)
    requires Shape(g) && c in g && g[c].height < level
    ensures Lights(g, Activate(g, c)) && SameFrom(g, Activate(g, c), level)
    decreases g[c].height, 2
  {
    if !g[c].active {
      OnActivateCounts(g, c);
      ActivateLightsOnce(g, c);
    }
  }

  lemma CountsAddUp<P>(f: Flow<P>, g: Flow<P>, h: Flow<P>, level: nat)
    requires SameTree(f, g) && Lights(f, g) && SameFrom(f, g, level) && Lights(g, h) && SameFrom(g, h, level)
    ensures Lights(f, h) && SameFrom(f, h, level)
  {
    forall x | x in f && f[x].height >= level ensures h[x] == f[x] {
      assert g[x] == f[x];
    }
    forall x | x in f
      ensures (f[x].active ==> h[x].active)
      ensures h[x].activeCount == f[x].activeCount + (if h[x].active && !f[x].active then 1 else 0)
    {
      assert g[x].active ==> h[x].active;
    }
  }

  lemma {:induction false} DeactivateCounts<P>(f: Flow<P>, a: P)
    requires Shape(f) && a in f
    ensures Darkens(f, Deactivate(f, a)) && !Deactivate(f, a)[a].active
    decreases f[a].height, 2
  {
    if f[a].active {
      assert ShapeAt(f, a);
      match f[a].kind
      case Leaf =>
      case Serial => DeactivateCounts(f, f[a].acts[f[a].current]);
      case Parallel => DeactivateAllCounts(f, a, |f[a].acts|);
    }
  }

  lemma {:induction false} DeactivateAllCounts<P>(f: Flow<P>, a: P, n: nat)
    requires Shape(f) && a in f && n <= |f[a].acts|
    ensures Darkens(f, DeactivateAll(f, a, n))
    decreases f[a].height, 0, n
  {
    hide *;
    if n == 0 {
      NothingCounts(f, a);
    } else {
      DeactivateAllCounts(f, a, n - 1);
      var c := DeactivateAllStep(f, a, n);
      DeactivateCounts(DeactivateAll(f, a, n - 1), c);
      DarkensTrans(f, DeactivateAll(f, a, n - 1), DeactivateAll(f, a, n));
    }
  }

  lemma DarkensTrans<P>(f: Flow<P>, g: Flow<P>, h: Flow<P>)
    requires Darkens(f, g) && Darkens(g, h)
    ensures Darkens(f, h)
  {
    forall x | x in f ensures (h[x].active ==> f[x].active) && h[x].activeCount == f[x].activeCount {
      assert g[x].active ==> f[x].active;
    }
  }
}
