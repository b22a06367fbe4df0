/** What one move of a serial act does: which child comes next, which acts start again, and how often. */
module Moves {
  import opened Options
  import opened Acts
  import opened FlowControl
  import opened ActiveChain
  import opened Signals

  /** From `f` to `g` serial act `s` moved on by one child, or, at its last, stopped what ran there. */
  ghost predicate MovedOn<P>(f: Flow<P>, g: Flow<P>, s: P)
    requires Shape(f) && s in f && ShapeAt(f, s) && f[s].kind == Serial
  {
    var c, k := f[s].acts[f[s].current], f[s].current + 1;
    if k < |f[s].acts| then Switched(f, g, s, c, f[s].acts[k], k) else Cleared(f, g, c)
  }

  /**
   * `next` moves a serial act on by exactly one child: the old one's acts stop, the new one's chain runs,
   * and nothing else changes. At the last child it only stops what runs there.
   */
  lemma NextMoves<P>(f: Flow<P>, s: P)
    requires Shape(f) && Chain(f) && s in f && f[s].kind == Serial
    ensures ShapeAt(f, s) && MovedOn(f, Next(f, s), s)
  {
    hide *;
    NextIs(f, s);
    var c := f[s].acts[f[s].current];
    if f[s].current + 1 < |f[s].acts| {
      SwitchMoves(f, s, f[s].current + 1);
    } else {
      ChainCloses(f, c);
      DeactivateClears(f, c);
    }
    MovedOnIs(f, Next(f, s), s);
  }

  lemma MovedOnIs<P>(f: Flow<P>, g: Flow<P>, s: P)
    requires Shape(f) && s in f && ShapeAt(f, s) && f[s].kind == Serial && f[s].current < |f[s].acts|
    requires f[s].acts[f[s].current] in f
    ensures var c, k := f[s].acts[f[s].current], f[s].current + 1;
      MovedOn(f, g, s) <==> if k < |f[s].acts| then Switched(f, g, s, c, f[s].acts[k], k) else Cleared(f, g, c)
  {
    hide Switched, Cleared, Shape;
  }

  /** A leaf that signals next moves its serial parent on; under a parallel parent, or none, nothing happens. */
  lemma LeafNextMoves<P>(f: Flow<P>, m: P)
    requires Shape(f) && Chain(f) && m in f && f[m].kind == Leaf
    ensures ShapeAt(f, m)
    ensures var g := Signal(f, m, MoveNext);
      if f[m].parent == None || f[f[m].parent.value].kind == Parallel then g == f else
        var s := f[m].parent.value;
        f[s].kind == Serial && ShapeAt(f, s) && MovedOn(f, g, s)
  {
    assert ShapeAt(f, m);
    LeafNextIs(f, m);
    hide *;
    if f[m].parent.Some? && f[f[m].parent.value].kind == Serial {
      NextMoves(f, f[m].parent.value);
    }
  }

  lemma LeafNextIs<P>(f: Flow<P>, m: P)
    requires Shape(f) && m in f && f[m].kind == Leaf && ShapeAt(f, m)
    ensures f[m].parent.Some? ==> f[m].parent.value in f && f[f[m].parent.value].kind != Leaf
    ensures Signal(f, m, MoveNext)
         == if f[m].parent == None || f[f[m].parent.value].kind != Serial then f else Next(f, f[m].parent.value)
  {
    if f[m].parent.Some? {
      assert ShapeAt(f, f[m].parent.value);
    }
    hide Next, Shape;
  }

  /** Jumping to, or moving on to, a child starts what runs below it anew: counted once, and nothing else is counted. */
  lemma SwitchCounts<P>(f: Flow<P>, s: P, i: nat, x: P)
    requires Shape(f) && Chain(f) && s in f && f[s].kind == Serial && i < |f[s].acts| && x in f
    ensures f[s].acts[i] in f
    ensures var g := SwitchTo(f, s, i);
      && x in g
      && g[x].activeCount == f[x].activeCount + (if Within(f, f[s].acts[i], x) && g[x].active then 1 else 0)
  {
    assert ShapeAt(f, s);
    var c, t := f[s].acts[f[s].current], f[s].acts[i];
    var d := Deactivate(f, c);
    ChainCloses(f, c);
    DeactivateClears(f, c);
    DeactivateCounts(f, c);
    SameTreeKeepsShape(f, d);
    MoveKeepsShape(d, s, i);
    var m := d[s := d[s].(current := i)];
    TargetIsIdle(f, d, s, i);
    ActivateStarts(m, t);
    ActivateCounts(m, t);
    WithinMoved(f, d, s, i, t, x);
    hide Chain, Deactivate, Activate, Shape, ShapeAt, Within;
    CountsOf(f, d, m, Activate(m, t), s, i, t, x);
  }

  lemma CountsOf<P>(f: Flow<P>, d: Flow<P>, m: Flow<P>, g: Flow<P>, s: P, i: nat, t: P, x: P)
    requires s in d && x in f && f.Keys == d.Keys && m == d[s := d[s].(current := i)]
    requires Darkens(f, d) && Lights(m, g) && Shape(m) && t in m && Idle(m, t) && Started(m, g, t)
    requires Shape(f) && t in f && (Within(m, t, x) <==> Within(f, t, x))
    ensures x in g && g[x].activeCount == f[x].activeCount + (if Within(f, t, x) && g[x].active then 1 else 0)
  {
    hide Shape, Within, Running;
    assert m[x].activeCount == d[x].activeCount == f[x].activeCount;
    if Within(m, t, x) {
      assert !m[x].active;
    } else {
      assert g[x] == m[x];
    }
  }

  /** `n` calls of next, whatever the children are. */
  ghost function Nexts<P>(f: Flow<P>, s: P, n: nat): (g: Flow<P>)
    requires Shape(f) && s in f && f[s].kind == Serial
    ensures Shape(g) && s in g && g[s].kind == Serial && g[s].acts == f[s].acts
  {
    if n == 0 then f else
    var g := Nexts(f, s, n - 1);
    NextPlaces(g, s);
    Next(g, s)
  }

  lemma NextPlaces<P>(f: Flow<P>, s: P)
    requires Shape(f) && s in f && f[s].kind == Serial
    ensures var g := Next(f, s);
      && Shape(g) && s in g && g[s].kind == Serial && g[s].acts == f[s].acts
      && g[s].current == if f[s].current + 1 < |f[s].acts| then f[s].current + 1 else f[s].current
  {
    assert ShapeAt(f, s);
    var c, k := f[s].acts[f[s].current], f[s].current + 1;
    var d := Deactivate(f, c);
    SameTreeKeepsShape(f, d);
    SameTreeMember(f, d, s);
    if k < |f[s].acts| {
      MoveKeepsShape(d, s, k);
      var m := d[s := d[s].(current := k)];
      SameTreeKeepsShape(m, Activate(m, f[s].acts[k]));
      SameTreeMember(m, Activate(m, f[s].acts[k]), s);
    }
    hide Shape, ShapeAt, Deactivate, Activate, SameTree;
  }

  /** The children of a serial act come one after another, and the last one stays. */
  lemma {:induction false} NextsWalk<P>(f: Flow<P>, s: P, n: nat)
    requires Shape(f) && s in f && f[s].kind == Serial
    ensures f[s].current < |f[s].acts|
    ensures Nexts(f, s, n)[s].current == if f[s].current + n < |f[s].acts| then f[s].current + n else |f[s].acts| - 1
  {
    assert ShapeAt(f, s);
    assert Nexts(f, s, 0) == f;
    hide *;
    if n > 0 {
      NextsWalk(f, s, n - 1);
      NextsStep(f, s, n);
      NextPlaces(Nexts(f, s, n - 1), s);
    }
  }

  lemma NextsStep<P>(f: Flow<P>, s: P, n: nat)
    requires Shape(f) && s in f && f[s].kind == Serial && n > 0
    ensures Nexts(f, s, n) == Next(Nexts(f, s, n - 1), s)
  {
    hide Shape, Next;
  }
}
