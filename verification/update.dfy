/**
 * A whole update of a flow: signals take effect at once, so later children of a parallel act see the flow
 * they left; a jump that throws ends the update, which the runner catches.
 */
module FlowUpdate {
  import opened Options
  import opened Paths
  import opened Acts
  import opened Lookup
  import opened FlowControl
  import opened ActiveChain
  import opened Signals
  import opened FlowRun

  // ---- the tree stays -----------------------------------------------------------------------------

  /** The acts and their places are the same. */
  ghost predicate SameActs<P>(f: Flow<P>, g: Flow<P>) {
    && f.Keys == g.Keys
    && forall x {:trigger g[x]} | x in f ::
         && g[x].parent == f[x].parent && g[x].acts == f[x].acts && g[x].kind == f[x].kind
         && g[x].depth == f[x].depth && g[x].height == f[x].height
         && g[x].name == f[x].name && g[x].fullPath == f[x].fullPath
  }

  lemma SameTreeSameActs<P>(f: Flow<P>, g: Flow<P>)
    requires SameTree(f, g)
    ensures SameActs(f, g)
  {
    forall x | x in f
      ensures g[x].parent == f[x].parent && g[x].acts == f[x].acts && g[x].kind == f[x].kind
        && g[x].depth == f[x].depth && g[x].height == f[x].height
        && g[x].name == f[x].name && g[x].fullPath == f[x].fullPath
    {
      assert g[x] == f[x].(active := g[x].active, activeCount := g[x].activeCount);
    }
  }

  lemma SameActsTrans<P>(f: Flow<P>, g: Flow<P>, h: Flow<P>)
    requires SameActs(f, g) && SameActs(g, h)
    ensures SameActs(f, h)
  {
    forall x | x in f
      ensures h[x].parent == f[x].parent && h[x].acts == f[x].acts && h[x].kind == f[x].kind
        && h[x].depth == f[x].depth && h[x].height == f[x].height
        && h[x].name == f[x].name && h[x].fullPath == f[x].fullPath
    {
      assert g[x].parent == f[x].parent;
    }
  }

  lemma SwitchKeepsActs<P>(f: Flow<P>, s: P, i: nat)
    requires Shape(f) && s in f && f[s].kind == Serial && i < |f[s].acts|
    ensures Shape(SwitchTo(f, s, i)) && SameActs(f, SwitchTo(f, s, i))
  {
    assert ShapeAt(f, s);
    var g := Deactivate(f, f[s].acts[f[s].current]);
    hide Deactivate, Activate;
    SameTreeKeepsShape(f, g);
    SameTreeSameActs(f, g);
    MoveKeepsShape(g, s, i);
    var m := g[s := g[s].(current := i)];
    assert SameActs(g, m);
    SameTreeKeepsShape(m, SwitchTo(f, s, i));
    SameTreeSameActs(m, SwitchTo(f, s, i));
    hide Shape, ShapeAt, SwitchTo, SameActs, SameTree;
    SameActsTrans(f, g, m);
    SameActsTrans(f, m, SwitchTo(f, s, i));
  }

  lemma StopKeepsActs<P>(f: Flow<P>, c: P)
    requires Shape(f) && c in f
    ensures Shape(Deactivate(f, c)) && SameActs(f, Deactivate(f, c))
  {
    SameTreeKeepsShape(f, Deactivate(f, c));
    SameTreeSameActs(f, Deactivate(f, c));
    hide Shape, SameTree, SameActs, Deactivate;
  }

  lemma NextKeepsActs<P>(f: Flow<P>, s: P)
    requires Shape(f) && s in f && f[s].kind == Serial
    ensures Shape(Next(f, s)) && SameActs(f, Next(f, s))
  {
    hide *;
    NextIs(f, s);
    if f[s].current + 1 < |f[s].acts| {
      SwitchKeepsActs(f, s, f[s].current + 1);
    } else {
      StopKeepsActs(f, f[s].acts[f[s].current]);
    }
  }

  lemma ExitKeepsActs<P>(f: Flow<P>, m: P)
    requires Shape(f) && m in f
    ensures Shape(AfterExit(f, m)) && SameActs(f, AfterExit(f, m))
  {
    SameTreeKeepsShape(f, AfterExit(f, m));
    SameTreeSameActs(f, AfterExit(f, m));
    hide Shape, SameTree, SameActs, AfterExit;
  }

  lemma SignalKeepsActs<P>(f: Flow<P>, m: P, command: Command)
    requires Shape(f) && m in f && f[m].kind == Leaf
    ensures Shape(Signal(f, m, command)) && SameActs(f, Signal(f, m, command))
  {
    match command
    case Exit =>
      ExitKeepsActs(f, m);
    case MoveNext =>
      assert ShapeAt(f, m);
      if f[m].parent.Some? && f[f[m].parent.value].kind == Serial {
        NextKeepsActs(f, f[m].parent.value);
      }
    case JumpTo(path) =>
      var r := Jump(f, m, path);
      if r.Ok? && r.value.To? {
        SwitchKeepsActs(f, r.value.serial, r.value.index);
      }
  }

  // ---- update -------------------------------------------------------------------------------------

  /** The flow an update leaves, and whether a jump threw on the way. */
  datatype Outcome<P(==)> = Outcome(flow: Flow<P>, threw: bool)

  /** `commands` says what each leaf signals when it is updated, if it does. */
  ghost function UpdateWith<P>(f: Flow<P>, a: P, commands: map<P, Command>): (u: Outcome<P>)
    requires Shape(f) && a in f
    ensures Shape(u.flow) && SameActs(f, u.flow)
    decreases f[a].height, 1
  {
    assert ShapeAt(f, a);
    match f[a].kind
    case Leaf => SignalledAt(f, a, commands)
    case Serial => UpdateWith(f, f[a].acts[f[a].current], commands)
    case Parallel => UpdateFirst(f, a, |f[a].acts|, commands)
  }

  ghost function SignalledAt<P>(f: Flow<P>, m: P, commands: map<P, Command>): (u: Outcome<P>)
    requires Shape(f) && m in f && f[m].kind == Leaf
    ensures Shape(u.flow) && SameActs(f, u.flow)
  {
    if m in commands then
      SignalKeepsActs(f, m, commands[m]);
      Outcome(Signal(f, m, commands[m]), SignalThrows(f, m, commands[m]))
    else Outcome(f, false)
  }

  /** The first `n` children of a parallel act, each in the flow the ones before it left, up to one that throws. */
  ghost function UpdateFirst<P>(f: Flow<P>, a: P, n: nat, commands: map<P, Command>): (u: Outcome<P>)
    requires Shape(f) && a in f && n <= |f[a].acts|
    ensures Shape(u.flow) && SameActs(f, u.flow)
    decreases f[a].height, 0, n
  {
    assert ShapeAt(f, a);
    if n == 0 then Outcome(f, false) else
    var u := UpdateFirst(f, a, n - 1, commands);
    if u.threw then u else
    assert u.flow[f[a].acts[n - 1]].height == f[f[a].acts[n - 1]].height;
    SameActsTrans(f, u.flow, UpdateWith(u.flow, f[a].acts[n - 1], commands).flow);
    UpdateWith(u.flow, f[a].acts[n - 1], commands)
  }

  lemma UpdateFirstStep<P>(f: Flow<P>, a: P, n: nat, commands: map<P, Command>)
    requires Shape(f) && a in f && 0 < n <= |f[a].acts|
    ensures var c, u := f[a].acts[n - 1], UpdateFirst(f, a, n - 1, commands);
      && c in f && f[c].height < f[a].height && f[c].parent == Some(a)
      && c in u.flow && u.flow[c].height == f[c].height
      && UpdateFirst(f, a, n, commands) == if u.threw then u else UpdateWith(u.flow, c, commands)
  {
    assert ShapeAt(f, a);
    hide Shape, UpdateWith;
  }

  /** Once a child of a parallel act throws, the update is over, whatever the later children would signal. */
  lemma {:induction false} ThrowEndsUpdate<P>(f: Flow<P>, a: P, n: nat, k: nat, commands: map<P, Command>)
    requires Shape(f) && a in f && f[a].kind == Parallel && n <= k <= |f[a].acts|
    requires UpdateFirst(f, a, n, commands).threw
    ensures UpdateFirst(f, a, k, commands) == UpdateFirst(f, a, n, commands)
    decreases k
  {
    hide *;
    if n < k {
      ThrowEndsUpdate(f, a, n, k - 1, commands);
      UpdateFirstStep(f, a, k, commands);
    }
  }

  /** The signal of a leaf child that throws changes nothing, so the update leaves what the children before it left. */
  lemma ThrowingLeafEndsUpdate<P>(f: Flow<P>, a: P, n: nat, commands: map<P, Command>)
    requires Shape(f) && a in f && f[a].kind == Parallel && n < |f[a].acts| && !UpdateFirst(f, a, n, commands).threw
    requires var u, c := UpdateFirst(f, a, n, commands), f[a].acts[n];
      c in u.flow && u.flow[c].kind == Leaf && c in commands && SignalThrows(u.flow, c, commands[c])
    ensures UpdateWith(f, a, commands) == Outcome(UpdateFirst(f, a, n, commands).flow, true)
  {
    hide *;
    UpdateFirstStep(f, a, n + 1, commands);
    ThrowingLeaf(UpdateFirst(f, a, n, commands).flow, f[a].acts[n], commands);
    ThrowEndsUpdate(f, a, n + 1, |f[a].acts|, commands);
    ParallelUpdate(f, a, commands);
  }

  lemma ThrowingLeaf<P>(f: Flow<P>, m: P, commands: map<P, Command>)
    requires Shape(f) && m in f && f[m].kind == Leaf && m in commands && SignalThrows(f, m, commands[m])
    ensures UpdateWith(f, m, commands) == Outcome(f, true)
  {
    hide Shape, SameActs, Jump;
  }

  lemma ParallelUpdate<P>(f: Flow<P>, a: P, commands: map<P, Command>)
    requires Shape(f) && a in f && f[a].kind == Parallel
    ensures UpdateWith(f, a, commands) == UpdateFirst(f, a, |f[a].acts|, commands)
  {
    hide Shape, SameActs, UpdateFirst;
  }

  // ---- when each signal keeps the chain -------------------------------------------------------------

  ghost predicate NextSafe<P>(f: Flow<P>, s: P)
    requires s in f && ShapeAt(f, s) && f[s].kind == Serial
  {
    if f[s].current + 1 < |f[s].acts| then f[s].active else f[s].active ==> f[f[s].acts[f[s].current]].kind == Leaf
  }

  /** What the signal switches runs. */
  ghost predicate SignalSafe<P>(f: Flow<P>, m: P, command: Command)
    requires Shape(f) && m in f && f[m].kind == Leaf
  {
    match command
    case Exit => true
    case MoveNext =>
      assert ShapeAt(f, m);
      f[m].parent.Some? && f[f[m].parent.value].kind == Serial ==>
        ShapeAt(f, f[m].parent.value) && NextSafe(f, f[m].parent.value)
    case JumpTo(path) =>
      var r := Jump(f, m, path);
      r.Ok? && r.value.To? ==> f[r.value.serial].active
  }

  lemma SignalKeepsChainIff<P>(f: Flow<P>, m: P, command: Command)
    requires Shape(f) && Chain(f) && m in f && f[m].kind == Leaf
    ensures Shape(Signal(f, m, command)) && (Chain(Signal(f, m, command)) <==> SignalSafe(f, m, command))
  {
    match command
    case Exit =>
      ExitKeepsChain(f, m);
    case MoveNext =>
      assert ShapeAt(f, m);
      if f[m].parent.Some? && f[f[m].parent.value].kind == Serial {
        assert ShapeAt(f, f[m].parent.value);
        NextKeepsChainIff(f, f[m].parent.value);
      }
    case JumpTo(path) =>
      var r := Jump(f, m, path);
      if r.Ok? && r.value.To? {
        SwitchKeepsChainIff(f, r.value.serial, r.value.index);
      }
  }

  /** The chain is in order after every signal of the update. */
  ghost predicate ChainThroughout<P>(f: Flow<P>, a: P, commands: map<P, Command>)
    requires Shape(f) && a in f
    decreases f[a].height, 1
  {
    assert ShapeAt(f, a);
    match f[a].kind
    case Leaf => Chain(SignalledAt(f, a, commands).flow)
    case Serial => ChainThroughout(f, f[a].acts[f[a].current], commands)
    case Parallel => ChainThroughFirst(f, a, |f[a].acts|, commands)
  }

  ghost predicate ChainThroughFirst<P>(f: Flow<P>, a: P, n: nat, commands: map<P, Command>)
    requires Shape(f) && a in f && n <= |f[a].acts|
    decreases f[a].height, 0, n
  {
    n > 0 ==>
      && ChainThroughFirst(f, a, n - 1, commands)
      && (UpdateFirstStep(f, a, n, commands);
          var u := UpdateFirst(f, a, n - 1, commands);
          u.threw || ChainThroughout(u.flow, f[a].acts[n - 1], commands))
  }

  /** Every signal of the update switches an act that runs when the signal comes. */
  ghost predicate SafeThroughout<P>(f: Flow<P>, a: P, commands: map<P, Command>)
    requires Shape(f) && a in f
    decreases f[a].height, 1
  {
    assert ShapeAt(f, a);
    match f[a].kind
    case Leaf => a in commands ==> SignalSafe(f, a, commands[a])
    case Serial => SafeThroughout(f, f[a].acts[f[a].current], commands)
    case Parallel => SafeThroughFirst(f, a, |f[a].acts|, commands)
  }

  ghost predicate SafeThroughFirst<P>(f: Flow<P>, a: P, n: nat, commands: map<P, Command>)
    requires Shape(f) && a in f && n <= |f[a].acts|
    decreases f[a].height, 0, n
  {
    n > 0 ==>
      && SafeThroughFirst(f, a, n - 1, commands)
      && (UpdateFirstStep(f, a, n, commands);
          var u := UpdateFirst(f, a, n - 1, commands);
          u.threw || SafeThroughout(u.flow, f[a].acts[n - 1], commands))
  }

  /**
   * In every tree, whatever the leaves signal, an update keeps the chain throughout exactly when each signal is
   * safe.
   */
  lemma {:induction false} UpdateKeepsChainIff<P>(f: Flow<P>, a: P, commands: map<P, Command>)
    requires Shape(f) && Chain(f) && a in f
    ensures ChainThroughout(f, a, commands) <==> SafeThroughout(f, a, commands)
    ensures ChainThroughout(f, a, commands) ==> Chain(UpdateWith(f, a, commands).flow)
    decreases f[a].height, 1
  {
    assert ShapeAt(f, a);
    match f[a].kind
    case Leaf =>
      if a in commands {
        SignalKeepsChainIff(f, a, commands[a]);
      }
    case Serial =>
      UpdateKeepsChainIff(f, f[a].acts[f[a].current], commands);
    case Parallel =>
      FirstKeepChainIff(f, a, |f[a].acts|, commands);
  }

  lemma {:induction false} FirstKeepChainIff<P>(f: Flow<P>, a: P, n: nat, commands: map<P, Command>)
    requires Shape(f) && Chain(f) && a in f && n <= |f[a].acts|
    ensures ChainThroughFirst(f, a, n, commands) <==> SafeThroughFirst(f, a, n, commands)
    ensures ChainThroughFirst(f, a, n, commands) ==> Chain(UpdateFirst(f, a, n, commands).flow)
    decreases f[a].height, 0, n
  {
    if n == 0 {
      assert UpdateFirst(f, a, 0, commands) == Outcome(f, false);
    } else {
      hide *;
      UpdateFirstStep(f, a, n, commands);
      ThroughFirstStep(f, a, n, commands);
      FirstKeepChainIff(f, a, n - 1, commands);
      var u := UpdateFirst(f, a, n - 1, commands);
      if Chain(u.flow) && !u.threw {
        UpdateKeepsChainIff(u.flow, f[a].acts[n - 1], commands);
      }
    }
  }

  lemma ThroughFirstStep<P>(f: Flow<P>, a: P, n: nat, commands: map<P, Command>)
    requires Shape(f) && a in f && 0 < n <= |f[a].acts|
    ensures var u, c := UpdateFirst(f, a, n - 1, commands), f[a].acts[n - 1];
      && c in u.flow
      && (ChainThroughFirst(f, a, n, commands) <==>
            ChainThroughFirst(f, a, n - 1, commands) && (u.threw || ChainThroughout(u.flow, c, commands)))
      && (SafeThroughFirst(f, a, n, commands) <==>
            SafeThroughFirst(f, a, n - 1, commands) && (u.threw || SafeThroughout(u.flow, c, commands)))
  {
    UpdateFirstStep(f, a, n, commands);
    hide Shape, Chain, UpdateFirst, ChainThroughout, SafeThroughout;
  }

  // ---- signals that stay inside -------------------------------------------------------------------

  /** The signal neither stops the flow nor switches an act outside `p`. */
  ghost predicate StaysWithin<P>(f: Flow<P>, m: P, command: Command, p: P)
    requires Shape(f) && m in f && p in f
  {
    match command
    case Exit => false
    case MoveNext => true
    case JumpTo(path) => var r := Jump(f, m, path); r.Ok? && r.value.To? ==> Within(f, p, r.value.serial)
  }

  /**
   * While a parallel act has children still to be updated, no exit, and no jump that switches a serial act
   * not below it. `pending` is the innermost such act.
   */
  ghost predicate Contained<P>(f: Flow<P>, a: P, commands: map<P, Command>, pending: Option<P>)
    requires Shape(f) && a in f && (pending.Some? ==> pending.value in f)
    decreases f[a].height, 1
  {
    assert ShapeAt(f, a);
    match f[a].kind
    case Leaf =>
      a in commands && pending.Some? ==> StaysWithin(f, a, commands[a], pending.value)
    case Serial => Contained(f, f[a].acts[f[a].current], commands, pending)
    case Parallel => ContainedFirst(f, a, |f[a].acts|, commands, pending)
  }

  ghost predicate ContainedFirst<P>(f: Flow<P>, a: P, n: nat, commands: map<P, Command>, pending: Option<P>)
    requires Shape(f) && a in f && n <= |f[a].acts| && (pending.Some? ==> pending.value in f)
    decreases f[a].height, 0, n
  {
    n > 0 ==>
      && ContainedFirst(f, a, n - 1, commands, pending)
      && (UpdateFirstStep(f, a, n, commands);
          var u := UpdateFirst(f, a, n - 1, commands);
          u.threw || Contained(u.flow, f[a].acts[n - 1], commands, if n < |f[a].acts| then Some(a) else pending))
  }

  /** An act that runs, above or at the act about to be updated. */
  ghost predicate Guarded<P>(f: Flow<P>, a: P, pending: Option<P>)
    requires Shape(f) && a in f
  {
    pending.Some? ==> pending.value in f && f[pending.value].active && Within(f, pending.value, a) && pending.value != a
  }

  ghost predicate StillActive<P>(g: Flow<P>, pending: Option<P>) {
    pending.Some? ==> pending.value in g && g[pending.value].active
  }

  lemma NotBelowChildAbove<P>(f: Flow<P>, s: P, c: P, p: P)
    requires Shape(f) && s in f && c in f && f[c].parent == Some(s) && p in f && Within(f, p, s)
    ensures !Within(f, c, p)
  {
    assert ShapeAt(f, c);
  }

  /** What lies at or above a serial act is not touched when it switches. */
  lemma SwitchLeavesAbove<P>(f: Flow<P>, s: P, i: nat, p: P)
    requires Shape(f) && Chain(f) && s in f && p in f && f[s].kind == Serial && i < |f[s].acts| && Within(f, p, s)
    ensures p in SwitchTo(f, s, i) && SwitchTo(f, s, i)[p].active == f[p].active
  {
    SwitchMoves(f, s, i);
    assert ShapeAt(f, s);
    var c, t := f[s].acts[f[s].current], f[s].acts[i];
    assert SwitchedAt(f, SwitchTo(f, s, i), s, c, t, i, p);
    NotBelowChildAbove(f, s, c, p);
    NotBelowChildAbove(f, s, t, p);
    hide SwitchTo, Chain;
  }

  lemma NextLeavesAbove<P>(f: Flow<P>, s: P, p: P)
    requires Shape(f) && Chain(f) && s in f && p in f && f[s].kind == Serial && Within(f, p, s)
    ensures p in Next(f, s) && Next(f, s)[p].active == f[p].active
  {
    hide *;
    NextIs(f, s);
    if f[s].current + 1 < |f[s].acts| {
      SwitchLeavesAbove(f, s, f[s].current + 1, p);
    } else {
      StopLeavesAbove(f, s, f[s].acts[f[s].current], p);
    }
  }

  lemma StopLeavesAbove<P>(f: Flow<P>, s: P, c: P, p: P)
    requires Shape(f) && Chain(f) && s in f && c in f && p in f && Within(f, p, s)
    requires ShapeAt(f, s) && f[s].kind == Serial && c == f[s].acts[f[s].current]
    ensures p in Deactivate(f, c) && Deactivate(f, c)[p].active == f[p].active
  {
    ChainCloses(f, c);
    DeactivateClears(f, c);
    NotBelowChildAbove(f, s, c, p);
    hide Deactivate, Chain;
  }

  lemma ContainedSignal<P>(f: Flow<P>, m: P, commands: map<P, Command>, pending: Option<P>)
    requires Shape(f) && Chain(f) && m in f && f[m].kind == Leaf && ShapeAt(f, m) && Served(f, m)
    requires Guarded(f, m, pending) && Contained(f, m, commands, pending)
    ensures SafeThroughout(f, m, commands)
    ensures Chain(SignalledAt(f, m, commands).flow) && StillActive(SignalledAt(f, m, commands).flow, pending)
  {
    if m in commands {
      SignalKeepsChain(f, m, commands[m]);
      SignalKeepsChainIff(f, m, commands[m]);
      if pending.Some? {
        SignalLeavesAbove(f, m, commands[m], pending.value);
      }
    }
  }

  lemma SignalLeavesAbove<P>(f: Flow<P>, m: P, command: Command, p: P)
    requires Shape(f) && Chain(f) && m in f && f[m].kind == Leaf && p in f && Within(f, p, m) && p != m
    requires StaysWithin(f, m, command, p)
    ensures p in Signal(f, m, command) && Signal(f, m, command)[p].active == f[p].active
  {
    match command
    case MoveNext =>
      ParentWithin(f, p, m);
      if f[f[m].parent.value].kind == Serial {
        NextLeavesAbove(f, f[m].parent.value, p);
      }
    case JumpTo(path) =>
      var r := Jump(f, m, path);
      if r.Ok? && r.value.To? {
        SwitchLeavesAbove(f, r.value.serial, r.value.index, p);
      }
  }

  lemma ServedChild<P>(f: Flow<P>, a: P, c: P)
    requires Shape(f) && Chain(f) && a in f && c in f && f[c].parent == Some(a) && f[a].active
    requires f[a].kind == Serial ==> ShapeAt(f, a) && c == f[a].acts[f[a].current]
    ensures ShapeAt(f, c) && Served(f, c)
  {
    assert ShapeAt(f, c) && ShapeAt(f, a) && ChainAt(f, a);
  }

  lemma GuardedChild<P>(f: Flow<P>, a: P, c: P, pending: Option<P>)
    requires Shape(f) && a in f && c in f && f[c].parent == Some(a) && Guarded(f, a, pending)
    ensures Guarded(f, c, pending)
  {
    if pending.Some? {
      ChildOfWithin(f, pending.value, a, c);
      assert ShapeAt(f, c);
    }
  }

  /** What runs has every act above it running. */
  lemma {:induction false} AboveRuns<P>(f: Flow<P>, p: P, a: P)
    requires Shape(f) && Chain(f) && p in f && a in f && Within(f, p, a) && f[a].active
    ensures f[p].active
    decreases f[a].depth
  {
    if p != a {
      ParentWithin(f, p, a);
      assert ShapeAt(f, a) && ChainAt(f, a);
      AboveRuns(f, p, f[a].parent.value);
    }
  }

  /** If signals stay inside the parallel acts still being updated, a whole update keeps the chain, in every tree. */
  lemma {:induction false} ContainedUpdateIsSafe<P>(f: Flow<P>, a: P, commands: map<P, Command>, pending: Option<P>)
    requires Shape(f) && Chain(f) && a in f && ShapeAt(f, a) && Served(f, a)
    requires Guarded(f, a, pending) && Contained(f, a, commands, pending)
    ensures SafeThroughout(f, a, commands)
    ensures Chain(UpdateWith(f, a, commands).flow) && StillActive(UpdateWith(f, a, commands).flow, pending)
    decreases f[a].height, 1
  {
    match f[a].kind
    case Leaf =>
      ContainedSignal(f, a, commands, pending);
    case Serial =>
      var c := f[a].acts[f[a].current];
      ServedChild(f, a, c);
      GuardedChild(f, a, c, pending);
      ContainedUpdateIsSafe(f, c, commands, pending);
    case Parallel =>
      ContainedFirstIsSafe(f, a, |f[a].acts|, commands, pending);
  }

  lemma {:induction false} ContainedFirstIsSafe<P>(f: Flow<P>, a: P, n: nat, commands: map<P, Command>,
                                                   pending: Option<P>)
    requires Shape(f) && Chain(f) && a in f && ShapeAt(f, a) && f[a].kind == Parallel && f[a].active && n <= |f[a].acts|
    requires Guarded(f, a, pending) && ContainedFirst(f, a, n, commands, pending)
    ensures SafeThroughFirst(f, a, n, commands)
    ensures var g := UpdateFirst(f, a, n, commands).flow;
      Chain(g) && StillActive(g, pending) && (n < |f[a].acts| ==> g[a].active)
    decreases f[a].height, 0, n
  {
    if n > 0 {
      UpdateFirstStep(f, a, n, commands);
      ContainedFirstIsSafe(f, a, n - 1, commands, pending);
      var u := UpdateFirst(f, a, n - 1, commands);
      if !u.threw {
        ContainedChildIsSafe(f, u.flow, a, n, commands, pending);
      }
      hide Chain, Shape, ShapeAt, Contained, UpdateFirst, SafeThroughout, Guarded;
    }
  }

  /** One more child, in the flow `g` that the ones before it left. */
  lemma ContainedChildIsSafe<P>(f: Flow<P>, g: Flow<P>, a: P, n: nat, commands: map<P, Command>, pending: Option<P>)
    requires Shape(f) && Shape(g) && SameActs(f, g) && Chain(g) && a in f && 0 < n <= |f[a].acts| && g[a].active
    requires f[a].kind == Parallel
    requires Guarded(f, a, pending) && StillActive(g, pending)
    requires f[a].acts[n - 1] in g && g[f[a].acts[n - 1]].height < f[a].height
    requires Contained(g, f[a].acts[n - 1], commands, if n < |f[a].acts| then Some(a) else pending)
    ensures SafeThroughout(g, f[a].acts[n - 1], commands)
    ensures var h := UpdateWith(g, f[a].acts[n - 1], commands).flow;
      Chain(h) && StillActive(h, pending) && (n < |f[a].acts| ==> a in h && h[a].active)
    decreases f[a].height, 0, n - 1, 0
  {
    var c := f[a].acts[n - 1];
    var inner := if n < |f[a].acts| then Some(a) else pending;
    assert g[a].acts == f[a].acts && g[a].kind == f[a].kind;
    assert ShapeAt(g, a);
    ServedChild(g, a, c);
    GuardedSame(f, g, a, pending);
    GuardedChild(g, a, c, pending);
    assert Guarded(g, c, Some(a)) by { NotBelowChild(g, a, c); ChildOfWithin(g, a, a, c); }
    ContainedUpdateIsSafe(g, c, commands, inner);
    if n < |f[a].acts| && pending.Some? {
      OuterRuns(g, UpdateWith(g, c, commands).flow, a, pending.value);
    }
  }

  lemma GuardedSame<P>(f: Flow<P>, g: Flow<P>, a: P, pending: Option<P>)
    requires Shape(f) && Shape(g) && SameActs(f, g) && a in f && Guarded(f, a, pending) && StillActive(g, pending)
    ensures Guarded(g, a, pending)
  {
    if pending.Some? {
      forall y | y in f ensures g[y].parent == f[y].parent && g[y].depth == f[y].depth {
      }
      WithinSame(f, g, pending.value, a);
    }
  }

  lemma OuterRuns<P>(g: Flow<P>, h: Flow<P>, a: P, p: P)
    requires Shape(g) && Shape(h) && SameActs(g, h) && Chain(h) && a in g && p in g && Within(g, p, a) && h[a].active
    ensures h[p].active
  {
    forall y | y in g ensures h[y].parent == g[y].parent && h[y].depth == g[y].depth {
    }
    WithinSame(g, h, p, a);
    AboveRuns(h, p, a);
  }

  // ---- runs of updates ------------------------------------------------------------------------------

  lemma RootKeptTrans<P>(f: Flow<P>, g: Flow<P>, h: Flow<P>, root: P)
    requires root in f && RootKept(f, g, root) && RootKept(g, h, root)
    ensures RootKept(f, h, root)
  {
    forall x | x in f ensures h[x].kind == f[x].kind {
      assert g[x].kind == f[x].kind;
    }
  }

  ghost predicate NoExit<P>(commands: map<P, Command>) {
    forall m | m in commands :: commands[m] != Exit
  }

  lemma {:induction false} SafeUpdateKeepsRoot<P>(f: Flow<P>, a: P, commands: map<P, Command>, root: P)
    requires Shape(f) && Chain(f) && a in f && SafeThroughout(f, a, commands) && root in f && f[root].parent == None
    requires NoExit(commands)
    ensures RootKept(f, UpdateWith(f, a, commands).flow, root)
    decreases f[a].height, 1
  {
    assert ShapeAt(f, a);
    match f[a].kind
    case Leaf =>
      if a in commands {
        SignalKeepsRoot(f, a, commands[a], root);
      }
    case Serial =>
      SafeUpdateKeepsRoot(f, f[a].acts[f[a].current], commands, root);
    case Parallel =>
      SafeFirstKeepsRoot(f, a, |f[a].acts|, commands, root);
  }

  lemma {:induction false} SafeFirstKeepsRoot<P>(f: Flow<P>, a: P, n: nat, commands: map<P, Command>, root: P)
    requires Shape(f) && Chain(f) && a in f && n <= |f[a].acts| && SafeThroughFirst(f, a, n, commands)
    requires root in f && f[root].parent == None && NoExit(commands)
    ensures RootKept(f, UpdateFirst(f, a, n, commands).flow, root)
    decreases f[a].height, 0, n
  {
    if n > 0 {
      UpdateFirstStep(f, a, n, commands);
      SafeFirstKeepsRoot(f, a, n - 1, commands, root);
      FirstKeepChainIff(f, a, n - 1, commands);
      var u := UpdateFirst(f, a, n - 1, commands);
      if !u.threw {
        SafeUpdateKeepsRoot(u.flow, f[a].acts[n - 1], commands, root);
        hide Chain, Shape, RootKept, UpdateFirst, UpdateWith;
        RootKeptTrans(f, u.flow, UpdateFirst(f, a, n, commands).flow, root);
      }
    }
  }

  /** Without its root nothing of a flow in order runs. */
  lemma StoppedRootEnds<P>(f: Flow<P>, root: P)
    requires Shape(f) && Chain(f) && root in f && f[root].parent == None && f[root].kind != Leaf && !f[root].active
    ensures Over(f, root)
  {
    forall x | x in f ensures !f[x].active {
      if f[x].active {
        RootIsCommon(f, x, root);
        assert ShapeAt(f, root) && ShapeAt(f, Up(f, x, 0));
        AboveRuns(f, root, x);
      }
    }
  }

  /**
   * `g` is what updates of the root make of `f`, none of whose signals leaves a parallel act still being
   * updated. A bot that was stopped updates no more.
   */
  ghost predicate UpdatesTo<P>(f: Flow<P>, root: P, updates: seq<map<P, Command>>, g: Flow<P>)
    requires Shape(f) && root in f
    decreases |updates|
  {
    if |updates| == 0 then g == f else
    && f[root].active
    && Contained(f, root, updates[0], None)
    && UpdatesTo(UpdateWith(f, root, updates[0]).flow, root, updates[1..], g)
  }

  /**
   * Every such run, throwing jumps included, keeps a flow of serial and parallel acts in order until an exit
   * ends it.
   */
  lemma {:induction false} UpdatesKeepOrder<P>(f: Flow<P>, root: P, updates: seq<map<P, Command>>, g: Flow<P>)
    requires (InOrder(f, root) || Over(f, root)) && UpdatesTo(f, root, updates, g)
    ensures SameActs(f, g) && (InOrder(g, root) || Over(g, root))
    ensures InOrder(f, root) && (forall u | u in updates :: NoExit(u)) ==> InOrder(g, root)
    decreases |updates|
  {
    if |updates| > 0 {
      var h := UpdateWith(f, root, updates[0]).flow;
      UpdateKeepsOrder(f, root, updates[0]);
      assert updates[0] in updates && forall u | u in updates[1..] :: u in updates;
      hide Over, InOrder, Shape, ShapeAt, Contained, UpdateWith, SameActs, NoExit;
      UpdatesKeepOrder(h, root, updates[1..], g);
      SameActsTrans(f, h, g);
    }
  }

  lemma UpdateKeepsOrder<P>(f: Flow<P>, root: P, commands: map<P, Command>)
    requires (InOrder(f, root) || Over(f, root)) && f[root].active && Contained(f, root, commands, None)
    ensures var g := UpdateWith(f, root, commands).flow;
      SameActs(f, g) && (InOrder(g, root) || Over(g, root)) && (NoExit(commands) ==> InOrder(g, root))
  {
    assert ShapeAt(f, root);
    ContainedUpdateIsSafe(f, root, commands, None);
    var g := UpdateWith(f, root, commands).flow;
    assert g[root].kind == f[root].kind && g[root].parent == f[root].parent;
    if NoExit(commands) {
      SafeUpdateKeepsRoot(f, root, commands, root);
    }
    hide Chain, Shape, ShapeAt, Contained, UpdateWith, SafeThroughout, SameActs;
    if !g[root].active {
      StoppedRootEnds(g, root);
    }
  }

  /** In a tree of serial acts the whole update is the signal of the one leaf it reaches. */
  lemma {:induction false} SerialUpdateIsRound<P>(f: Flow<P>, a: P, commands: map<P, Command>)
    requires Shape(f) && SerialOnly(f) && a in f && OnLine(f, a)
    ensures |Updated(f, a)| == 1 && Updated(f, a)[0] in f && f[Updated(f, a)[0]].kind == Leaf
    ensures UpdateWith(f, a, commands) == SignalledAt(f, Updated(f, a)[0], commands)
    decreases f[a].height
  {
    assert ShapeAt(f, a);
    SerialUpdatesOneLeaf(f, a);
    UpdatedAreLeaves(f, a);
    if f[a].kind != Leaf {
      var c := f[a].acts[f[a].current];
      assert ShapeAt(f, c);
      OnLineStep(f, c);
      SerialUpdateIsRound(f, c, commands);
    }
  }

  // ---- an update that breaks the chain --------------------------------------------------------------

  lemma JumpToSibling<P>(f: Flow<P>, s: P, i: nat, p: P, x: P)
    requires Shape(f) && PrefixFree(f) && s in f && ShapeAt(f, s) && f[s].kind == Serial && i < |f[s].acts|
    requires p in f && f[p].parent == Some(s) && p != f[s].acts[i]
    requires x in f && f[x].kind == Leaf && f[x].parent == Some(p)
    ensures f[s].acts[i] in f && Jump(f, x, f[f[s].acts[i]].fullPath) == Ok(To(s, i))
  {
    var n := f[s].acts[i];
    assert ShapeAt(f, x) && ShapeAt(f, p) && ShapeAt(f, n);
    assert !AncestorOrSelf(f, p, n) by { assert Up(f, n, f[p].depth) == n; }
    ChildBelow(f, s, n);
    assert Meet(f, s, n) == s;
    assert Meet(f, p, n) == s;
    LeafJump(f, x, n);
    assert Up(f, n, f[s].depth + 1) == n;
    assert FirstSerial(f, s, n) == To(s, i);
  }

  lemma ChildBelow<P>(f: Flow<P>, s: P, n: P)
    requires Shape(f) && s in f && n in f && f[n].parent == Some(s)
    ensures AncestorOrSelf(f, s, n) && s != n && f[n].depth == f[s].depth + 1
  {
    assert ShapeAt(f, n) && ShapeAt(f, s);
    assert Up(f, s, f[s].depth) == s;
  }

  /**
   * One update that breaks the chain. Serial act `s` runs parallel act `p`, whose first child is a leaf
   * that jumps to another child of `s`; its second child, a serial act, is updated all the same, and its
   * leaf moves it on: now an act runs under a parent that does not.
   */
  lemma {:induction false} ParallelUpdateBreaksChain<P>(f: Flow<P>, s: P, i: nat, p: P, x: P, y: P, z: P)
    requires Shape(f) && PrefixFree(f) && Chain(f) && s in f && ShapeAt(f, s) && f[s].kind == Serial && f[s].active
    requires i < |f[s].acts| && i != f[s].current && p == f[s].acts[f[s].current]
    requires p in f && f[p].kind == Parallel && f[p].acts == [x, y] && x in f && f[x].kind == Leaf
    requires y in f && f[y].kind == Serial && f[y].current + 1 < |f[y].acts| && z == f[y].acts[f[y].current] && z in f
    requires f[z].kind == Leaf
    ensures !Chain(UpdateWith(f, s, map[x := JumpTo(f[f[s].acts[i]].fullPath), z := MoveNext]).flow)
  {
    hide *;
    BreakingPlaces(f, s, i, p, x, y, z);
    var commands := map[x := JumpTo(f[f[s].acts[i]].fullPath), z := MoveNext];
    var g := SwitchTo(f, s, i);
    assert commands[x] == JumpTo(f[f[s].acts[i]].fullPath) && commands[z] == MoveNext;
    CurrentTakes(f, s, commands);
    JumpToSibling(f, s, i, p, x);
    JumpTakes(f, x, s, i, commands);
    TwoChildren(f, p, x, y, commands);
    BelowChild(f, p, y);
    StaleSiblingBreaksChain(f, s, i, y);
    SwitchKeepsCurrent(f, s, i, y);
    SwitchKeepsPlaces(f, s, i, y);
    SwitchKeepsPlaces(f, s, i, z);
    NextTakes(g, y, z, commands);
  }

  /**
   * Likewise with an exit: the first child stops the bot, and with it the flow; the second moves on in the
   * flow that was stopped.
   */
  lemma {:induction false} ExitedSiblingBreaksChain<P>(f: Flow<P>, s: P, p: P, x: P, y: P, z: P)
    requires Shape(f) && Chain(f) && s in f && ShapeAt(f, s) && f[s].kind == Serial && f[s].parent == None
    requires p == f[s].acts[f[s].current] && p in f && f[p].kind == Parallel && f[p].acts == [x, y] && x in f
    requires f[x].kind == Leaf
    requires y in f && f[y].kind == Serial && f[y].current + 1 < |f[y].acts| && z == f[y].acts[f[y].current] && z in f
    requires f[z].kind == Leaf
    ensures !Chain(UpdateWith(f, s, map[x := Exit, z := MoveNext]).flow)
  {
    hide *;
    ChildrenOfCurrent(f, s, p, x, y, z);
    var commands := map[x := Exit, z := MoveNext];
    assert commands[x] == Exit && commands[z] == MoveNext;
    var g := AfterExit(f, x);
    CurrentTakes(f, s, commands);
    ExitTakes(f, x, commands);
    TwoChildren(f, p, x, y, commands);
    ExitClears(f, s, x, y);
    SameTreeMember(f, g, y);
    SameTreeMember(f, g, z);
    NextTakes(g, y, z, commands);
    NextKeepsChainIff(g, y);
  }

  lemma ExitTakes<P>(f: Flow<P>, x: P, commands: map<P, Command>)
    requires Shape(f) && x in f && f[x].kind == Leaf && x in commands && commands[x] == Exit
    ensures SignalledAt(f, x, commands) == Outcome(AfterExit(f, x), false)
  {
    hide Shape, AfterExit;
  }

  lemma ExitClears<P>(f: Flow<P>, s: P, x: P, y: P)
    requires Shape(f) && Chain(f) && s in f && f[s].kind == Serial && f[s].parent == None && x in f && y in f
    ensures var g := AfterExit(f, x); Shape(g) && Chain(g) && SameTree(f, g) && f.Keys == g.Keys && !g[y].active
  {
    ExitKeepsChain(f, x);
    RootIsCommon(f, x, s);
    assert ShapeAt(f, s) && ShapeAt(f, Up(f, x, 0));
    hide AfterExit;
  }

  lemma ChildrenOfCurrent<P>(f: Flow<P>, s: P, p: P, x: P, y: P, z: P)
    requires Shape(f) && s in f && ShapeAt(f, s) && f[s].kind == Serial && p == f[s].acts[f[s].current]
    requires p in f && f[p].acts == [x, y] && x in f && y in f && f[y].kind == Serial && f[y].current < |f[y].acts|
    requires z == f[y].acts[f[y].current]
    ensures f[s].current < |f[s].acts| && f[p].parent == Some(s) && f[x].parent == Some(p) && f[y].parent == Some(p)
    ensures z in f && f[z].parent == Some(y) && y != s && x != z
  {
    assert ShapeAt(f, p) && ShapeAt(f, y) && f[p].acts[0] == x && f[p].acts[1] == y;
    assert f[y].height < f[p].height < f[s].height;
  }

  lemma BreakingPlaces<P>(f: Flow<P>, s: P, i: nat, p: P, x: P, y: P, z: P)
    requires Shape(f) && s in f && ShapeAt(f, s) && f[s].kind == Serial && i < |f[s].acts| && i != f[s].current
    requires p == f[s].acts[f[s].current]
    requires p in f && f[p].acts == [x, y] && x in f && y in f && f[y].kind == Serial && f[y].current < |f[y].acts|
    requires z == f[y].acts[f[y].current]
    ensures f[s].current < |f[s].acts| && f[s].acts[i] in f
    ensures f[p].parent == Some(s) && p != f[s].acts[i] && f[x].parent == Some(p) && f[y].parent == Some(p)
    ensures z in f && f[z].parent == Some(y) && y != s && x != z
  {
    ChildrenOfCurrent(f, s, p, x, y, z);
  }

  lemma CurrentTakes<P>(f: Flow<P>, s: P, commands: map<P, Command>)
    requires Shape(f) && s in f && f[s].kind == Serial && f[s].current < |f[s].acts|
    ensures f[s].acts[f[s].current] in f
    ensures UpdateWith(f, s, commands) == UpdateWith(f, f[s].acts[f[s].current], commands)
  {
    assert ShapeAt(f, s);
    hide Shape;
  }

  lemma BelowChild<P>(f: Flow<P>, p: P, y: P)
    requires Shape(f) && p in f && y in f && f[y].parent == Some(p)
    ensures Within(f, p, y)
  {
    ChildBelow(f, p, y);
  }

  lemma SwitchKeepsPlaces<P>(f: Flow<P>, s: P, i: nat, x: P)
    requires Shape(f) && x in f && s in f && f[s].kind == Serial && i < |f[s].acts|
    ensures var g := SwitchTo(f, s, i);
      Shape(g) && x in g && g[x].kind == f[x].kind && g[x].acts == f[x].acts && g[x].parent == f[x].parent
  {
    SwitchKeepsActs(f, s, i);
    hide SwitchTo, Shape;
  }

  lemma JumpTakes<P>(f: Flow<P>, x: P, s: P, i: nat, commands: map<P, Command>)
    requires Shape(f) && x in f && f[x].kind == Leaf && s in f && f[s].kind == Serial && i < |f[s].acts|
    requires x in commands && commands[x].JumpTo? && Jump(f, x, commands[x].target) == Ok(To(s, i))
    ensures SignalledAt(f, x, commands) == Outcome(SwitchTo(f, s, i), false)
  {
    hide Shape, Jump, SwitchTo;
  }

  lemma NextTakes<P>(g: Flow<P>, y: P, z: P, commands: map<P, Command>)
    requires Shape(g) && y in g && g[y].kind == Serial && g[y].current < |g[y].acts| && z == g[y].acts[g[y].current]
    requires z in g && g[z].kind == Leaf && g[z].parent == Some(y) && z in commands && commands[z] == MoveNext
    ensures UpdateWith(g, y, commands) == Outcome(Next(g, y), false)
  {
    assert UpdateWith(g, y, commands) == UpdateWith(g, z, commands) == SignalledAt(g, z, commands);
    hide Shape, Next;
  }

  lemma TwoChildren<P>(f: Flow<P>, p: P, x: P, y: P, commands: map<P, Command>)
    requires Shape(f) && p in f && f[p].kind == Parallel && f[p].acts == [x, y] && x in f && f[x].kind == Leaf && y in f
    requires !SignalledAt(f, x, commands).threw
    ensures y in SignalledAt(f, x, commands).flow
    ensures UpdateWith(f, p, commands) == UpdateWith(SignalledAt(f, x, commands).flow, y, commands)
  {
    UpdateFirstStep(f, p, 1, commands);
    UpdateFirstStep(f, p, 2, commands);
    assert UpdateFirst(f, p, 0, commands) == Outcome(f, false);
    assert UpdateWith(f, x, commands) == SignalledAt(f, x, commands);
    hide UpdateFirst, SignalledAt, Shape;
  }

  lemma SwitchKeepsCurrent<P>(f: Flow<P>, s: P, i: nat, y: P)
    requires Shape(f) && Chain(f) && s in f && y in f && y != s && f[s].kind == Serial && i < |f[s].acts|
    ensures y in SwitchTo(f, s, i) && SwitchTo(f, s, i)[y].current == f[y].current
  {
    SwitchMoves(f, s, i);
    assert ShapeAt(f, s);
    assert SwitchedAt(f, SwitchTo(f, s, i), s, f[s].acts[f[s].current], f[s].acts[i], i, y);
  }
}
