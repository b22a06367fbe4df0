/** Signals of leaf acts move serial acts; the chain of active acts survives every one that update can cause. */
module Signals {
  import opened Options
  import opened Paths
  import opened Acts
  import opened Lookup
  import opened FlowControl
  import opened ActiveChain

  // ---- one switch -------------------------------------------------------------------------------

  /** What a switch of `s` from child `c` to child `t` makes of act `x`. */
  ghost predicate SwitchedAt<P>(f: Flow<P>, g: Flow<P>, s: P, c: P, t: P, i: nat, x: P)
    requires Shape(f) && Shape(g) && f.Keys == g.Keys && c in f && t in f && x in f
  {
    && ShapeAt(g, x)
    && g[x].parent == f[x].parent && g[x].acts == f[x].acts && g[x].kind == f[x].kind
    && g[x].current == (if x == s then i else f[x].current)
    && (if Within(f, t, x) then RunningAt(g, t, x) && (x == t ==> g[x].active)
        else if Within(f, c, x) then !g[x].active
        else g[x].active == f[x].active)
  }

  ghost predicate Switched<P>(f: Flow<P>, g: Flow<P>, s: P, c: P, t: P, i: nat) {
    && Shape(f) && Shape(g) && f.Keys == g.Keys && c in f && t in f
    && forall x {:trigger SwitchedAt(f, g, s, c, t, i, x)} | x in f :: SwitchedAt(f, g, s, c, t, i, x)
  }

  lemma NotBelowChild<P>(f: Flow<P>, s: P, c: P)
    requires Shape(f) && s in f && c in f && f[c].parent == Some(s)
    ensures Within(f, c, c) && !Within(f, c, s)
  {
    assert ShapeAt(f, c);
  }

  /** The old child stops, the new one runs, and no other act is touched. */
  lemma SwitchMoves<P>(f: Flow<P>, s: P, i: nat)
    requires Shape(f) && Chain(f) && s in f && f[s].kind == Serial && i < |f[s].acts|
    ensures ShapeAt(f, s) && Switched(f, SwitchTo(f, s, i), s, f[s].acts[f[s].current], f[s].acts[i], i)
  {
    assert ShapeAt(f, s);
    var c, t := f[s].acts[f[s].current], f[s].acts[i];
    var d := Deactivate(f, c);
    assert ClosedBelow(f, c) by { ChainCloses(f, c); }
    DeactivateClears(f, c);
    SameTreeKeepsShape(f, d);
    MoveKeepsShape(d, s, i);
    var m := d[s := d[s].(current := i)];
    TargetIsIdle(f, d, s, i);
    ActivateStarts(m, t);
    var g := Activate(m, t);
    forall x {:trigger SwitchedAt(f, g, s, c, t, i, x)} | x in f ensures SwitchedAt(f, g, s, c, t, i, x) {
      SwitchMovesAt(f, d, m, g, s, i, x);
    }
  }

  lemma ChainCloses<P>(f: Flow<P>, a: P)
    requires Shape(f) && Chain(f) && a in f
    ensures ClosedBelow(f, a)
  {
    forall y | y in f && Within(f, a, y) && y != a ensures RunsUnderParent(f, y) {
      assert ChainAt(f, y);
    }
  }

  lemma WithinMoved<P>(f: Flow<P>, d: Flow<P>, s: P, i: nat, a: P, x: P)
    requires Shape(f) && SameTree(f, d) && s in f && a in f && Shape(d[s := d[s].(current := i)])
    ensures Within(d[s := d[s].(current := i)], a, x) <==> Within(f, a, x)
  {
    var m := d[s := d[s].(current := i)];
    forall y | y in f ensures m[y].parent == f[y].parent && m[y].depth == f[y].depth {
      SameTreeMember(f, d, y);
    }
    WithinSame(f, m, a, x);
  }

  lemma TargetIsIdle<P>(f: Flow<P>, d: Flow<P>, s: P, i: nat)
    requires Shape(f) && Chain(f) && s in f && ShapeAt(f, s) && f[s].kind == Serial && i < |f[s].acts|
    requires Cleared(f, d, f[s].acts[f[s].current]) && Shape(d[s := d[s].(current := i)])
    ensures Idle(d[s := d[s].(current := i)], f[s].acts[i])
  {
    var m, c, t := d[s := d[s].(current := i)], f[s].acts[f[s].current], f[s].acts[i];
    forall x | x in m && Within(m, t, x) ensures !m[x].active {
      WithinMoved(f, d, s, i, t, x);
      ChildWithin(f, s, t, x);
      if i != f[s].current {
        ChainCloses(f, s);
        IdleChild(f, s, t, x);
        NotWithinSibling(f, s, t, c, x);
      }
    }
  }

  lemma SwitchMovesAt<P>(f: Flow<P>, d: Flow<P>, m: Flow<P>, g: Flow<P>, s: P, i: nat, x: P)
    requires Shape(f) && s in f && x in f && ShapeAt(f, s) && f[s].kind == Serial && i < |f[s].acts|
    requires Cleared(f, d, f[s].acts[f[s].current]) && m == d[s := d[s].(current := i)] && Shape(m)
    requires Started(m, g, f[s].acts[i])
    ensures SwitchedAt(f, g, s, f[s].acts[f[s].current], f[s].acts[i], i, x)
  {
    var c, t := f[s].acts[f[s].current], f[s].acts[i];
    assert ShapeAt(g, x);
    SameTreeMember(f, d, x);
    SameTreeMember(m, g, x);
    WithinMoved(f, d, s, i, t, x);
    WithinSameTree(m, g, t, x);
    NotBelowChild(f, s, c);
    NotBelowChild(f, s, t);
    assert x == t ==> g[x].active;
    if Within(f, t, x) {
      assert RunningAt(g, t, x);
    }
  }

  /** The chain at each act after a switch under an active serial act. */
  lemma SwitchedKeepsChainAt<P>(f: Flow<P>, g: Flow<P>, s: P, i: nat, x: P)
    requires Shape(f) && Chain(f) && s in f && x in f && ShapeAt(f, s) && f[s].kind == Serial && i < |f[s].acts|
    requires Switched(f, g, s, f[s].acts[f[s].current], f[s].acts[i], i) && f[s].active
    ensures ShapeAt(g, x) && ChainAt(g, x)
  {
    var c, t := f[s].acts[f[s].current], f[s].acts[i];
    assert ShapeAt(f, x) && ChainAt(f, x);
    assert SwitchedAt(f, g, s, c, t, i, x) && SwitchedAt(f, g, s, c, t, i, s) && SwitchedAt(f, g, s, c, t, i, t);
    NotBelowChild(f, s, c);
    NotBelowChild(f, s, t);
    if Within(f, t, x) {
    } else if Within(f, c, x) {
    } else {
      SwitchLeavesParent(f, g, s, i, x);
      SwitchLeavesChildren(f, g, s, i, x);
    }
  }

  lemma SwitchLeavesParent<P>(f: Flow<P>, g: Flow<P>, s: P, i: nat, x: P)
    requires Shape(f) && Chain(f) && s in f && x in f && ShapeAt(f, s) && f[s].kind == Serial && i < |f[s].acts|
    requires Switched(f, g, s, f[s].acts[f[s].current], f[s].acts[i], i)
    requires !Within(f, f[s].acts[i], x) && !Within(f, f[s].acts[f[s].current], x)
    ensures ShapeAt(g, x) && RunsUnderParent(g, x)
  {
    var c, t := f[s].acts[f[s].current], f[s].acts[i];
    assert ShapeAt(f, x) && ChainAt(f, x) && SwitchedAt(f, g, s, c, t, i, x);
    if f[x].parent != None {
      var q := f[x].parent.value;
      assert SwitchedAt(f, g, s, c, t, i, q);
      if Within(f, c, q) {
        ChildOfWithin(f, c, q, x);
      }
      if Within(f, t, q) {
        ChildOfWithin(f, t, q, x);
      }
      NotBelowChild(f, s, c);
    }
  }

  lemma SwitchLeavesChildren<P>(f: Flow<P>, g: Flow<P>, s: P, i: nat, x: P)
    requires Shape(f) && Chain(f) && s in f && x in f && ShapeAt(f, s) && f[s].kind == Serial && i < |f[s].acts|
    requires Switched(f, g, s, f[s].acts[f[s].current], f[s].acts[i], i)
    requires !Within(f, f[s].acts[i], x) && !Within(f, f[s].acts[f[s].current], x)
    ensures ShapeAt(g, x) && RunsChildren(g, x)
  {
    var c, t := f[s].acts[f[s].current], f[s].acts[i];
    assert ShapeAt(f, x) && ChainAt(f, x) && SwitchedAt(f, g, s, c, t, i, x) && SwitchedAt(f, g, s, c, t, i, t);
    if x == s {
      NotBelowChild(f, s, t);
    } else {
      forall j | 0 <= j < |f[x].acts|
        ensures g[f[x].acts[j]].active == f[f[x].acts[j]].active && g[f[x].acts[j]].kind == f[f[x].acts[j]].kind
      {
        var y := f[x].acts[j];
        assert SwitchedAt(f, g, s, c, t, i, y);
        if Within(f, c, y) && y != c {
          ParentWithin(f, c, y);
        }
        if Within(f, t, y) && y != t {
          ParentWithin(f, t, y);
        }
      }
    }
  }

  /** A switch keeps the chain exactly when the serial act itself runs. */
  lemma SwitchKeepsChainIff<P>(f: Flow<P>, s: P, i: nat)
    requires Shape(f) && Chain(f) && s in f && f[s].kind == Serial && i < |f[s].acts|
    ensures Shape(SwitchTo(f, s, i))
    ensures Chain(SwitchTo(f, s, i)) <==> f[s].active
  {
    assert ShapeAt(f, s);
    SwitchMoves(f, s, i);
    var g, c, t := SwitchTo(f, s, i), f[s].acts[f[s].current], f[s].acts[i];
    if f[s].active {
      forall x {:trigger ChainAt(g, x)} | x in g ensures ChainAt(g, x) {
        SwitchedKeepsChainAt(f, g, s, i, x);
      }
    } else {
      NotBelowChild(f, s, c);
      NotBelowChild(f, s, t);
      assert SwitchedAt(f, g, s, c, t, i, t) && SwitchedAt(f, g, s, c, t, i, s);
      assert !ChainAt(g, t);
    }
  }

  /** Stopping the current child of a serial act keeps the chain exactly when that leaves no composite to run. */
  lemma StopCurrentKeepsChainIff<P>(f: Flow<P>, s: P)
    requires Shape(f) && Chain(f) && s in f && f[s].kind == Serial
    ensures ShapeAt(f, s)
    ensures var g := Deactivate(f, f[s].acts[f[s].current]);
      Shape(g) && (Chain(g) <==> (f[s].active ==> f[f[s].acts[f[s].current]].kind == Leaf))
  {
    assert ShapeAt(f, s);
    var c := f[s].acts[f[s].current];
    var g := Deactivate(f, c);
    ChainCloses(f, c);
    DeactivateClears(f, c);
    SameTreeKeepsShape(f, g);
    NotBelowChild(f, s, c);
    SameTreeMember(f, g, s);
    SameTreeMember(f, g, c);
    assert ChainAt(f, c) by { assert ShapeAt(f, c); }
    if f[s].active ==> f[c].kind == Leaf {
      forall x {:trigger ChainAt(g, x)} | x in g ensures ChainAt(g, x) {
        StopCurrentAt(f, g, s, x);
      }
    } else {
      assert !ChainAt(g, s) by { assert ShapeAt(g, s); }
    }
  }

  lemma StopCurrentAt<P>(f: Flow<P>, g: Flow<P>, s: P, x: P)
    requires Shape(f) && Chain(f) && Shape(g) && s in f && x in f && ShapeAt(f, s) && f[s].kind == Serial
    requires Cleared(f, g, f[s].acts[f[s].current]) && (f[s].active ==> f[f[s].acts[f[s].current]].kind == Leaf)
    ensures ShapeAt(g, x) && ChainAt(g, x)
  {
    var c := f[s].acts[f[s].current];
    assert ShapeAt(f, x) && ChainAt(f, x) && ShapeAt(g, x);
    SameTreeMember(f, g, x);
    if !Within(f, c, x) {
      if f[x].parent != None {
        var q := f[x].parent.value;
        SameTreeMember(f, g, q);
        if Within(f, c, q) {
          ChildOfWithin(f, c, q, x);
        }
      }
      forall j | 0 <= j < |f[x].acts|
        ensures (g[f[x].acts[j]].active == f[f[x].acts[j]].active || (x == s && f[x].acts[j] == c))
        ensures g[f[x].acts[j]].kind == f[f[x].acts[j]].kind
      {
        var y := f[x].acts[j];
        SameTreeMember(f, g, y);
        if Within(f, c, y) && y != c {
          ParentWithin(f, c, y);
        }
      }
    }
  }

  lemma NextIs<P>(f: Flow<P>, s: P)
    requires Shape(f) && s in f && f[s].kind == Serial
    ensures ShapeAt(f, s) && f[s].current < |f[s].acts| && f[s].acts[f[s].current] in f
    ensures f[s].current + 1 < |f[s].acts| ==> Next(f, s) == SwitchTo(f, s, f[s].current + 1)
    ensures f[s].current + 1 == |f[s].acts| ==> Next(f, s) == Deactivate(f, f[s].acts[f[s].current])
  {
    assert ShapeAt(f, s);
    hide Shape, SwitchTo, Deactivate;
  }

  /** `next` at the end of a flow stops the last child and stays on it. */
  lemma NextKeepsChainIff<P>(f: Flow<P>, s: P)
    requires Shape(f) && Chain(f) && s in f && f[s].kind == Serial
    ensures ShapeAt(f, s) && Shape(Next(f, s))
    ensures Chain(Next(f, s)) <==>
      if f[s].current + 1 < |f[s].acts| then f[s].active else f[s].active ==> f[f[s].acts[f[s].current]].kind == Leaf
  {
    hide *;
    NextIs(f, s);
    if f[s].current + 1 < |f[s].acts| {
      SwitchKeepsChainIff(f, s, f[s].current + 1);
    } else {
      StopCurrentKeepsChainIff(f, s);
    }
  }

  // ---- exit -------------------------------------------------------------------------------------

  /** Stopping the root of a flow in order stops every act. */
  lemma StopRootClears<P>(f: Flow<P>, root: P)
    requires Shape(f) && Chain(f) && root in f && f[root].parent == None
    ensures forall x | x in f :: x in Deactivate(f, root) && !Deactivate(f, root)[x].active
  {
    ChainCloses(f, root);
    DeactivateClears(f, root);
    forall x | x in f ensures !Deactivate(f, root)[x].active {
      assert Within(f, root, x) by { RootIsCommon(f, x, root); assert ShapeAt(f, root) && ShapeAt(f, Up(f, x, 0)); }
    }
  }

  /** exit climbs to the root; a flow, which is serial, then stops its bot, and that deactivates the flow. */
  ghost function AfterExit<P>(f: Flow<P>, m: P): (g: Flow<P>)
    requires Shape(f) && m in f
    ensures SameTree(f, g)
  {
    var root := Up(f, m, 0);
    if f[root].kind == Serial then Deactivate(f, root) else f
  }

  lemma ExitKeepsChain<P>(f: Flow<P>, m: P)
    requires Shape(f) && Chain(f) && m in f
    ensures Shape(AfterExit(f, m)) && Chain(AfterExit(f, m))
    ensures f[Up(f, m, 0)].kind == Serial ==> forall x | x in f :: !AfterExit(f, m)[x].active
  {
    var root, g := Up(f, m, 0), AfterExit(f, m);
    SameTreeKeepsShape(f, g);
    assert ShapeAt(f, root);
    if f[root].kind == Serial {
      StopRootClears(f, root);
      forall x {:trigger ChainAt(g, x)} | x in g ensures ChainAt(g, x) {
        assert ShapeAt(g, x);
      }
    }
  }

  // ---- signals ----------------------------------------------------------------------------------

  /** What a slot tells the parent to do. */
  datatype Command = JumpTo(target: string) | MoveNext | Exit

  ghost function AfterJump<P>(f: Flow<P>, r: Result<Switch<P>>): Flow<P>
    requires Shape(f)
    requires r.Ok? && r.value.To? ==>
      r.value.serial in f && f[r.value.serial].kind == Serial && r.value.index < |f[r.value.serial].acts|
  {
    match r
    case Ok(To(s, i)) => SwitchTo(f, s, i)
    case _ => f
  }

  /** A jump with an unusable path throws. */
  ghost predicate SignalThrows<P>(f: Flow<P>, m: P, command: Command)
    requires Shape(f) && m in f
  {
    command.JumpTo? && Jump(f, m, command.target).Throws?
  }

  /** Signals go to the parent; a jump that throws does so before anything changes. */
  ghost function Signal<P>(f: Flow<P>, m: P, command: Command): Flow<P>
    requires Shape(f) && m in f && f[m].kind == Leaf
  {
    match command
    case Exit => AfterExit(f, m)
    case MoveNext =>
      assert ShapeAt(f, m);
      if f[m].parent == None || f[f[m].parent.value].kind != Serial then f else Next(f, f[m].parent.value)
    case JumpTo(path) =>
      AfterJump(f, Jump(f, m, path))
  }

  /** Where update runs: a composite that runs, or a leaf whose parent runs it. */
  ghost predicate Served<P>(f: Flow<P>, m: P)
    requires m in f && ShapeAt(f, m)
  {
    if f[m].kind != Leaf || f[m].parent == None then f[m].active else
    var q := f[m].parent.value;
    f[q].active && (f[q].kind == Serial ==> f[q].current < |f[q].acts| && f[q].acts[f[q].current] == m)
  }

  /** A jump never switches a serial act that does not run. */
  lemma {:induction false} JumpSwitchesActive<P>(f: Flow<P>, m: P, path: string)
    requires Shape(f) && Chain(f) && m in f
    requires f[m].kind != Leaf ==> f[m].active
    requires f[m].kind == Leaf && f[m].parent.Some? ==> ShapeAt(f, m) && f[f[m].parent.value].active
    ensures Jump(f, m, path).Ok? && Jump(f, m, path).value.To? ==> f[Jump(f, m, path).value.serial].active
    decreases |path|, f[m].depth, 1
  {
    assert ShapeAt(f, m) && ChainAt(f, m);
    if f[m].kind == Serial && |path| == 0 {
    } else if f[m].kind != Leaf && IsRelative(path) {
      JumpChildSwitchesActive(f, m, path);
    } else if f[m].kind != Leaf && IsChildOf(f[m].fullPath, path) {
      if ChildPath(f[m].fullPath, path).Ok? {
        JumpChildSwitchesActive(f, m, ChildPath(f[m].fullPath, path).value);
      }
    } else if f[m].parent.Some? {
      assert ShapeAt(f, f[m].parent.value);
      JumpSwitchesActive(f, f[m].parent.value, path);
    }
  }

  lemma {:induction false} JumpChildSwitchesActive<P>(f: Flow<P>, m: P, path: string)
    requires Shape(f) && Chain(f) && m in f && f[m].kind != Leaf && f[m].active
    ensures JumpChild(f, m, path).Ok? && JumpChild(f, m, path).value.To? ==>
      f[JumpChild(f, m, path).value.serial].active
    decreases |path|, f[m].depth, 0
  {
    assert ShapeAt(f, m) && ChainAt(f, m);
    if f[m].kind == Parallel && FirstAct(path).Ok? && PopHead(path).Ok?
        && FindAct(f, f[m].acts, FirstAct(path).value).Some? {
      var i := FindAct(f, f[m].acts, FirstAct(path).value).value;
      PopHeadIsShorter(path);
      assert ShapeAt(f, f[m].acts[i]);
      JumpSwitchesActive(f, f[m].acts[i], PopHead(path).value);
    }
  }

  /** Whatever a served leaf signals, the chain survives, in every tree of serial and parallel acts. */
  lemma SignalKeepsChain<P>(f: Flow<P>, m: P, command: Command)
    requires Shape(f) && Chain(f) && m in f && f[m].kind == Leaf && ShapeAt(f, m) && Served(f, m)
    ensures Shape(Signal(f, m, command)) && Chain(Signal(f, m, command))
  {
    match command
    case Exit => ExitKeepsChain(f, m);
    case MoveNext =>
      if f[m].parent.Some? && f[f[m].parent.value].kind == Serial {
        NextKeepsChainIff(f, f[m].parent.value);
      }
    case JumpTo(path) =>
      JumpSwitchesActive(f, m, path);
      var r := Jump(f, m, path);
      if r.Ok? && r.value.To? {
        SwitchKeepsChainIff(f, r.value.serial, r.value.index);
      }
  }

  // ---- update -----------------------------------------------------------------------------------

  /** The leaves that one update of `a` reaches, in order. */
  ghost function Updated<P>(f: Flow<P>, a: P): (leaves: seq<P>)
    requires Shape(f) && a in f
    decreases f[a].height, 1
  {
    assert ShapeAt(f, a);
    match f[a].kind
    case Leaf => [a]
    case Serial => Updated(f, f[a].acts[f[a].current])
    case Parallel => UpdatedFirst(f, a, |f[a].acts|)
  }

  ghost function UpdatedFirst<P>(f: Flow<P>, a: P, n: nat): (leaves: seq<P>)
    requires Shape(f) && a in f && n <= |f[a].acts|
    decreases f[a].height, 0, n
  {
    assert ShapeAt(f, a);
    if n == 0 then [] else UpdatedFirst(f, a, n - 1) + Updated(f, f[a].acts[n - 1])
  }

  ghost predicate AllServed<P>(f: Flow<P>, leaves: seq<P>)
    requires Shape(f)
  {
    forall m | m in leaves :: m in f && f[m].kind == Leaf && ShapeAt(f, m) && Served(f, m)
  }

  /** Update reaches served leaves only. */
  lemma {:induction false} UpdateReachesServed<P>(f: Flow<P>, a: P)
    requires Shape(f) && Chain(f) && a in f && ShapeAt(f, a) && Served(f, a)
    ensures AllServed(f, Updated(f, a))
    decreases f[a].height, 1
  {
    assert ChainAt(f, a);
    match f[a].kind
    case Leaf =>
    case Serial =>
      var c := f[a].acts[f[a].current];
      assert ShapeAt(f, c);
      UpdateReachesServed(f, c);
    case Parallel =>
      UpdateFirstReachesServed(f, a, |f[a].acts|);
  }

  lemma {:induction false} UpdateFirstReachesServed<P>(f: Flow<P>, a: P, n: nat)
    requires Shape(f) && Chain(f) && a in f && ShapeAt(f, a) && f[a].kind == Parallel && f[a].active && n <= |f[a].acts|
    ensures AllServed(f, UpdatedFirst(f, a, n))
    decreases f[a].height, 0, n
  {
    if n > 0 {
      UpdateFirstReachesServed(f, a, n - 1);
      var c := f[a].acts[n - 1];
      assert ShapeAt(f, c) && ChainAt(f, a);
      UpdateReachesServed(f, c);
    }
  }
}
