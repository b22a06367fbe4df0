/** Whole runs of a flow: started, updated, signalled, stopped. */
module FlowRun {
  import opened Options
  import opened Paths
  import opened Acts
  import opened Lookup
  import opened FlowControl
  import opened ActiveChain
  import opened Signals

  // ---- the line of current acts -----------------------------------------------------------------

  /** A serial parent has `x` as its current child. */
  ghost predicate Follows<P>(f: Flow<P>, x: P)
    requires x in f && ShapeAt(f, x)
  {
    f[x].parent != None ==>
      var q := f[x].parent.value;
      f[q].kind == Serial ==> f[q].current < |f[q].acts| && f[q].acts[f[q].current] == x
  }

  ghost predicate FollowsAt<P>(f: Flow<P>, x: P, k: nat)
    requires Shape(f) && x in f && k <= f[x].depth
  {
    ShapeAt(f, Up(f, x, k)) && Follows(f, Up(f, x, k))
  }

  /** Every serial act above `x` has its current child on the way to `x`. */
  ghost predicate OnLine<P>(f: Flow<P>, x: P)
    requires Shape(f) && x in f
  {
    forall k | 0 <= k <= f[x].depth :: FollowsAt(f, x, k)
  }

  lemma OnLineStep<P>(f: Flow<P>, x: P)
    requires Shape(f) && x in f && ShapeAt(f, x)
    ensures OnLine(f, x) <==> Follows(f, x) && (f[x].parent.Some? ==> OnLine(f, f[x].parent.value))
  {
    assert FollowsAt(f, x, f[x].depth) <==> Follows(f, x);
    if f[x].parent.Some? {
      var q := f[x].parent.value;
      assert forall k | 0 <= k <= f[q].depth :: Up(f, x, k) == Up(f, q, k);
      forall k | 0 <= k <= f[q].depth ensures FollowsAt(f, q, k) <==> FollowsAt(f, x, k) {
      }
      if OnLine(f, x) {
        forall k | 0 <= k <= f[q].depth ensures FollowsAt(f, q, k) {
          assert FollowsAt(f, x, k);
        }
      }
      if Follows(f, x) && OnLine(f, q) {
        forall k | 0 <= k <= f[x].depth ensures FollowsAt(f, x, k) {
          assert k <= f[q].depth ==> FollowsAt(f, q, k);
        }
      }
    }
  }

  /** What runs is on the line. */
  lemma {:induction false} ActiveIsOnLine<P>(f: Flow<P>, x: P)
    requires Shape(f) && Chain(f) && x in f && f[x].active
    ensures OnLine(f, x)
    decreases f[x].depth
  {
    assert ShapeAt(f, x) && ChainAt(f, x);
    if f[x].parent.Some? {
      ActiveIsOnLine(f, f[x].parent.value);
    }
    OnLineStep(f, x);
  }

  /** A composite on the line runs, given that the root does. */
  lemma {:induction false} OnLineRuns<P>(f: Flow<P>, root: P, x: P)
    requires Shape(f) && Chain(f) && root in f && f[root].parent == None && f[root].active
    requires x in f && f[x].kind != Leaf && OnLine(f, x)
    ensures f[x].active
    decreases f[x].depth
  {
    assert ShapeAt(f, x);
    OnLineStep(f, x);
    if f[x].parent.Some? {
      var q := f[x].parent.value;
      assert ShapeAt(f, q);
      OnLineRuns(f, root, q);
      assert ChainAt(f, q);
      var i :| 0 <= i < |f[q].acts| && f[q].acts[i] == x;
    }
  }

  ghost predicate SerialOnly<P>(f: Flow<P>) {
    forall x | x in f :: f[x].kind != Parallel
  }

  /** In a tree of serial acts the line has one act at each depth. */
  lemma {:induction false} LineIsUnique<P>(f: Flow<P>, x: P, y: P)
    requires Shape(f) && SerialOnly(f) && x in f && y in f && OnLine(f, x) && OnLine(f, y) && f[x].depth == f[y].depth
    ensures x == y
    decreases f[x].depth
  {
    assert ShapeAt(f, x) && ShapeAt(f, y);
    OnLineStep(f, x);
    OnLineStep(f, y);
    if f[x].depth > 0 {
      var p, q := f[x].parent.value, f[y].parent.value;
      LineIsUnique(f, p, q);
      assert ShapeAt(f, p);
    }
  }

  lemma OnLineAbove<P>(f: Flow<P>, a: P, x: P)
    requires Shape(f) && a in f && x in f && AncestorOrSelf(f, a, x) && OnLine(f, x)
    ensures OnLine(f, a)
  {
    forall k | 0 <= k <= f[a].depth ensures FollowsAt(f, a, k) {
      UpOfUp(f, x, f[a].depth, k);
      assert FollowsAt(f, x, k);
    }
  }

  /** A running flow of serial acts is one line: its composites all run, nothing else does but perhaps its leaf. */
  lemma RunningSerialFlow<P>(f: Flow<P>, root: P)
    requires Shape(f) && SerialOnly(f) && Chain(f) && root in f && f[root].parent == None && f[root].active
    ensures forall x | x in f && f[x].kind != Leaf :: f[x].active <==> OnLine(f, x)
    ensures forall x | x in f && f[x].active :: OnLine(f, x)
    ensures forall x, y | x in f && y in f && f[x].kind == Leaf && f[y].kind == Leaf && f[x].active && f[y].active ::
      x == y
  {
    forall x | x in f && f[x].active ensures OnLine(f, x) {
      ActiveIsOnLine(f, x);
    }
    forall x | x in f && f[x].kind != Leaf && OnLine(f, x) ensures f[x].active {
      OnLineRuns(f, root, x);
    }
    forall x, y | x in f && y in f && f[x].kind == Leaf && f[y].kind == Leaf && f[x].active && f[y].active
      ensures x == y
    {
      LeavesOnLine(f, x, y);
    }
  }

  lemma LeavesOnLine<P>(f: Flow<P>, x: P, y: P)
    requires Shape(f) && SerialOnly(f) && x in f && y in f && OnLine(f, x) && OnLine(f, y) && f[x].kind == Leaf
    requires f[y].kind == Leaf
    ensures x == y
  {
    if f[x].depth < f[y].depth {
      DeeperLeaf(f, x, y);
    } else if f[y].depth < f[x].depth {
      DeeperLeaf(f, y, x);
    } else {
      LineIsUnique(f, x, y);
    }
  }

  /** No leaf lies on the line above another act. */
  lemma DeeperLeaf<P>(f: Flow<P>, x: P, y: P)
    requires Shape(f) && SerialOnly(f) && x in f && y in f && OnLine(f, x) && OnLine(f, y)
    requires f[x].depth < f[y].depth
    ensures f[x].kind != Leaf
  {
    var a := Up(f, y, f[x].depth);
    UpOfUp(f, y, f[x].depth, f[x].depth);
    OnLineAbove(f, a, y);
    LineIsUnique(f, x, a);
    UpIsChild(f, y, f[x].depth);
  }

  // ---- runs -------------------------------------------------------------------------------------

  /** What any signal but exit leaves: the tree, and whether the root runs. */
  ghost predicate RootKept<P>(f: Flow<P>, g: Flow<P>, root: P)
    requires root in f
  {
    && f.Keys == g.Keys && g[root].active == f[root].active && g[root].parent == f[root].parent
    && forall x {:trigger g[x]} | x in f :: g[x].kind == f[x].kind
  }

  lemma SwitchKeepsRoot<P>(f: Flow<P>, s: P, i: nat, root: P)
    requires Shape(f) && Chain(f) && s in f && f[s].kind == Serial && i < |f[s].acts| && root in f
    requires f[root].parent == None
    ensures RootKept(f, SwitchTo(f, s, i), root)
  {
    assert ShapeAt(f, s) && ShapeAt(f, root);
    SwitchMoves(f, s, i);
    var g, c, t := SwitchTo(f, s, i), f[s].acts[f[s].current], f[s].acts[i];
    assert ShapeAt(f, c) && ShapeAt(f, t);
    assert !Within(f, c, root) && !Within(f, t, root);
    assert SwitchedAt(f, g, s, c, t, i, root);
    forall x | x in f ensures g[x].kind == f[x].kind {
      assert SwitchedAt(f, g, s, c, t, i, x);
    }
  }

  lemma NextKeepsRoot<P>(f: Flow<P>, s: P, root: P)
    requires Shape(f) && Chain(f) && s in f && f[s].kind == Serial && root in f && f[root].parent == None
    ensures RootKept(f, Next(f, s), root)
  {
    hide *;
    NextIs(f, s);
    if f[s].current + 1 < |f[s].acts| {
      SwitchKeepsRoot(f, s, f[s].current + 1, root);
    } else {
      StopCurrentKeepsRoot(f, s, root);
    }
  }

  lemma StopCurrentKeepsRoot<P>(f: Flow<P>, s: P, root: P)
    requires Shape(f) && Chain(f) && s in f && f[s].kind == Serial && root in f && f[root].parent == None
    ensures ShapeAt(f, s) && RootKept(f, Deactivate(f, f[s].acts[f[s].current]), root)
  {
    assert ShapeAt(f, s) && ShapeAt(f, root);
    var c := f[s].acts[f[s].current];
    var g := Deactivate(f, c);
    assert ShapeAt(f, c);
    ChainCloses(f, c);
    DeactivateClears(f, c);
    assert !Within(f, c, root);
    hide Deactivate, Shape, ShapeAt, Chain, Within;
    forall x | x in f ensures g[x].kind == f[x].kind {
      SameTreeMember(f, g, x);
    }
  }

  lemma SignalKeepsRoot<P>(f: Flow<P>, m: P, command: Command, root: P)
    requires Shape(f) && Chain(f) && m in f && f[m].kind == Leaf && root in f && f[root].parent == None
    requires command != Exit
    ensures RootKept(f, Signal(f, m, command), root)
  {
    assert ShapeAt(f, m);
    match command
    case MoveNext =>
      if f[m].parent.Some? && f[f[m].parent.value].kind == Serial {
        NextKeepsRoot(f, f[m].parent.value, root);
      }
    case JumpTo(path) =>
      var r := Jump(f, m, path);
      if r.Ok? && r.value.To? {
        SwitchKeepsRoot(f, r.value.serial, r.value.index, root);
      }
  }

  /** A flow that runs from its root, in order. */
  ghost predicate InOrder<P>(f: Flow<P>, root: P) {
    Shape(f) && Chain(f) && root in f && f[root].parent == None && f[root].kind != Leaf && f[root].active
  }

  /** A flow that was stopped. */
  ghost predicate Over<P>(f: Flow<P>, root: P) {
    Shape(f) && root in f && f[root].parent == None && f[root].kind != Leaf && forall x | x in f :: !f[x].active
  }

  /** Starting a flow in which nothing runs puts it in order; stopping it leaves nothing running. */
  lemma StartPutsInOrder<P>(f: Flow<P>, root: P)
    requires Over(f, root)
    ensures InOrder(Activate(f, root), root) && SameTree(f, Activate(f, root))
  {
    ActivateStarts(f, root);
    var g := Activate(f, root);
    SameTreeMember(f, g, root);
    forall x {:trigger ChainAt(g, x)} | x in g ensures ChainAt(g, x) {
      assert Within(g, root, x) by { RootIsCommon(g, x, root); assert ShapeAt(g, root) && ShapeAt(g, Up(g, x, 0)); }
      assert RunningAt(g, root, x);
    }
  }

  lemma StopLeavesNothingRunning<P>(f: Flow<P>, root: P)
    requires InOrder(f, root)
    ensures Over(Deactivate(f, root), root) && SameTree(f, Deactivate(f, root))
  {
    StopRootClears(f, root);
    SameTreeKeepsShape(f, Deactivate(f, root));
    SameTreeMember(f, Deactivate(f, root), root);
  }

  /** exit stops a whole flow. */
  lemma ExitEnds<P>(f: Flow<P>, m: P, root: P)
    requires InOrder(f, root) && f[root].kind == Serial && m in f
    ensures Over(AfterExit(f, m), root) && SameTree(f, AfterExit(f, m))
  {
    RootIsCommon(f, m, root);
    assert ShapeAt(f, root) && ShapeAt(f, Up(f, m, 0));
    StopLeavesNothingRunning(f, root);
  }

  /** One update of a flow of serial acts: its current leaf may signal. A bot that was stopped updates no more. */
  ghost function Round<P>(f: Flow<P>, root: P, command: Option<Command>): Flow<P>
    requires Shape(f) && root in f
  {
    UpdatedAreLeaves(f, root);
    if f[root].active && command.Some? && |Updated(f, root)| == 1 then Signal(f, Updated(f, root)[0], command.value)
    else f
  }

  lemma {:induction false} UpdatedAreLeaves<P>(f: Flow<P>, a: P)
    requires Shape(f) && a in f
    ensures forall m | m in Updated(f, a) :: m in f && f[m].kind == Leaf
    decreases f[a].height, 1
  {
    assert ShapeAt(f, a);
    match f[a].kind
    case Leaf =>
    case Serial => UpdatedAreLeaves(f, f[a].acts[f[a].current]);
    case Parallel => UpdatedFirstAreLeaves(f, a, |f[a].acts|);
  }

  lemma {:induction false} UpdatedFirstAreLeaves<P>(f: Flow<P>, a: P, n: nat)
    requires Shape(f) && a in f && n <= |f[a].acts|
    ensures forall m | m in UpdatedFirst(f, a, n) :: m in f && f[m].kind == Leaf
    decreases f[a].height, 0, n
  {
    assert ShapeAt(f, a);
    if n > 0 {
      UpdatedFirstAreLeaves(f, a, n - 1);
      UpdatedAreLeaves(f, f[a].acts[n - 1]);
    }
  }

  /** In a tree of serial acts one update reaches exactly one leaf, the end of the line. */
  lemma {:induction false} SerialUpdatesOneLeaf<P>(f: Flow<P>, a: P)
    requires Shape(f) && SerialOnly(f) && a in f && OnLine(f, a)
    ensures |Updated(f, a)| == 1 && Updated(f, a)[0] in f && OnLine(f, Updated(f, a)[0])
    decreases f[a].height
  {
    assert ShapeAt(f, a);
    if f[a].kind != Leaf {
      var c := f[a].acts[f[a].current];
      assert ShapeAt(f, c);
      OnLineStep(f, c);
      SerialUpdatesOneLeaf(f, c);
    }
  }

  ghost function Rounds<P>(f: Flow<P>, root: P, commands: seq<Option<Command>>): Flow<P>
    requires SerialOnly(f) && (InOrder(f, root) || Over(f, root))
    decreases |commands|
  {
    if |commands| == 0 then f else
    RoundRuns(f, root, commands[0]);
    Rounds(Round(f, root, commands[0]), root, commands[1..])
  }

  lemma SameKindsSerial<P>(f: Flow<P>, g: Flow<P>)
    requires f.Keys == g.Keys && SerialOnly(f) && forall x {:trigger g[x]} | x in f :: g[x].kind == f[x].kind
    ensures SerialOnly(g)
  {
  }

  /** Each update of a running flow of serial acts leaves it running, unless its leaf signals exit, which stops it. */
  lemma RoundRuns<P>(f: Flow<P>, root: P, command: Option<Command>)
    requires SerialOnly(f) && (InOrder(f, root) || Over(f, root))
    ensures var g := Round(f, root, command);
      && SerialOnly(g) && f.Keys == g.Keys
      && if InOrder(f, root) && command != Some(Exit) then InOrder(g, root) else Over(g, root)
  {
    if InOrder(f, root) && command.Some? {
      assert ShapeAt(f, root);
      ActiveIsOnLine(f, root);
      SerialUpdatesOneLeaf(f, root);
      UpdateReachesServed(f, root);
      RoundSignals(f, Updated(f, root)[0], command.value, root);
    }
  }

  lemma RoundSignals<P>(f: Flow<P>, m: P, command: Command, root: P)
    requires SerialOnly(f) && InOrder(f, root) && m in f && f[m].kind == Leaf && ShapeAt(f, m) && Served(f, m)
    ensures var g := Signal(f, m, command);
      && SerialOnly(g) && f.Keys == g.Keys
      && if command == Exit then Over(g, root) else InOrder(g, root)
  {
    var g := Signal(f, m, command);
    if command == Exit {
      ExitEnds(f, m, root);
      forall x | x in f ensures g[x].kind == f[x].kind {
        SameTreeMember(f, g, x);
      }
    } else {
      SignalKeepsChain(f, m, command);
      SignalKeepsRoot(f, m, command, root);
    }
    hide Shape, Chain, Signal;
    SameKindsSerial(f, g);
  }

  /**
   * Every run of a flow of serial acts through any updates: it is in order until its leaf signals exit, and
   * then over.
   */
  lemma {:induction false} SerialFlowRuns<P>(f: Flow<P>, root: P, commands: seq<Option<Command>>)
    requires SerialOnly(f) && (InOrder(f, root) || Over(f, root))
    ensures var g := Rounds(f, root, commands);
      && SerialOnly(g) && f.Keys == g.Keys
      && if InOrder(f, root) && Some(Exit) !in commands then InOrder(g, root) else Over(g, root)
    decreases |commands|
  {
    if |commands| > 0 {
      RoundRuns(f, root, commands[0]);
      assert commands == [commands[0]] + commands[1..];
      hide Over, InOrder, SerialOnly, Round;
      SerialFlowRuns(Round(f, root, commands[0]), root, commands[1..]);
    }
  }

  /** One line of current acts runs, and an update reaches its end. */
  ghost predicate OneLine<P>(g: Flow<P>, root: P) {
    && InOrder(g, root)
    && (forall x | x in g && g[x].kind != Leaf :: g[x].active <==> OnLine(g, x))
    && (forall x | x in g && g[x].active :: OnLine(g, x))
    && (forall x, y |
          x in g && y in g && g[x].kind == Leaf && g[y].kind == Leaf && g[x].active && g[y].active :: x == y)
    && |Updated(g, root)| == 1 && Updated(g, root)[0] in g && OnLine(g, Updated(g, root)[0])
  }

  /**
   * From the start of a flow of serial acts, through any updates, one line runs: the composites on it are
   * exactly those active, nothing active is off it, at most one leaf is, and each update reaches its end.
   * Once a leaf signals exit, nothing runs.
   */
  lemma SerialFlowIsOneLine<P>(f: Flow<P>, root: P, commands: seq<Option<Command>>)
    requires SerialOnly(f) && Over(f, root)
    ensures InOrder(Activate(f, root), root) && SerialOnly(Activate(f, root))
    ensures var g := Rounds(Activate(f, root), root, commands);
      && f.Keys == g.Keys
      && if Some(Exit) in commands then Over(g, root) else OneLine(g, root)
  {
    StartPutsInOrder(f, root);
    var h := Activate(f, root);
    forall x | x in h ensures h[x].kind == f[x].kind {
      SameTreeMember(f, h, x);
    }
    assert SerialOnly(h);
    SerialFlowRuns(h, root, commands);
    var g := Rounds(h, root, commands);
    if Some(Exit) !in commands {
      RunningSerialFlow(g, root);
      ActiveIsOnLine(g, root);
      SerialUpdatesOneLeaf(g, root);
    }
  }

  // ---- beyond serial trees ----------------------------------------------------------------------

  datatype Turn<P> = Turn(leaf: P, command: Command)

  /** `g` is what `f` becomes by signals each of which comes from a leaf that its parent runs at that time. */
  ghost predicate Reaches<P>(f: Flow<P>, turns: seq<Turn<P>>, g: Flow<P>)
    requires Shape(f) && Chain(f)
    decreases |turns|
  {
    if |turns| == 0 then g == f else
    var m := turns[0].leaf;
    && m in f && f[m].kind == Leaf && ShapeAt(f, m) && Served(f, m)
    && (SignalKeepsChain(f, m, turns[0].command); Reaches(Signal(f, m, turns[0].command), turns[1..], g))
  }

  ghost predicate Exits<P>(turns: seq<Turn<P>>) {
    exists i :: 0 <= i < |turns| && turns[i].command == Exit
  }

  lemma TurnKeepsOrder<P>(f: Flow<P>, m: P, command: Command, root: P)
    requires InOrder(f, root) && m in f && f[m].kind == Leaf && ShapeAt(f, m) && Served(f, m)
    ensures var g := Signal(f, m, command);
      && f.Keys == g.Keys && g[root].kind == f[root].kind && Shape(g) && Chain(g)
      && if f[root].kind == Serial && command == Exit then Over(g, root) else InOrder(g, root)
  {
    SignalKeepsChain(f, m, command);
    if command != Exit {
      SignalKeepsRoot(f, m, command, root);
    } else if f[root].kind == Serial {
      ExitEnds(f, m, root);
    } else {
      RootIsCommon(f, m, root);
      assert ShapeAt(f, root) && ShapeAt(f, Up(f, m, 0));
    }
    hide Chain, AfterExit;
  }

  /** In every tree of serial and parallel acts, such runs keep the flow in order, up to an exit, which ends it. */
  lemma {:induction false} TurnsKeepOrder<P>(f: Flow<P>, turns: seq<Turn<P>>, g: Flow<P>, root: P)
    requires InOrder(f, root) && Reaches(f, turns, g)
    ensures f.Keys == g.Keys
    ensures if f[root].kind == Serial && Exits(turns) then Over(g, root) && turns[|turns| - 1].command == Exit
      else InOrder(g, root)
    decreases |turns|
  {
    if |turns| > 0 {
      assert Shape(f) && Chain(f) && root in f;
      hide Over, InOrder, Shape, Chain, Served, Signal;
      var m, command := turns[0].leaf, turns[0].command;
      TurnKeepsOrder(f, m, command, root);
      if command == Exit && f[root].kind == Serial {
        if |turns| > 1 {
          OverServesNone(Signal(f, m, command), root, turns[1].leaf);
        }
      } else {
        TurnsKeepOrder(Signal(f, m, command), turns[1..], g, root);
        assert forall i | 0 < i < |turns| :: turns[i] == turns[1..][i - 1];
      }
    }
  }

  lemma OverServesNone<P>(f: Flow<P>, root: P, m: P)
    requires Over(f, root) && m in f && ShapeAt(f, m)
    ensures !Served(f, m)
  {
  }

  /**
   * A parallel act updates all its children even when one of them has switched the flow elsewhere: a
   * later child that then moves on starts acts under a parent that no longer runs.
   */
  lemma StaleSiblingBreaksChain<P>(f: Flow<P>, s: P, i: nat, y: P)
    requires Shape(f) && Chain(f) && s in f && f[s].kind == Serial && f[s].active && i < |f[s].acts|
    requires i != f[s].current
    requires ShapeAt(f, s) && y in f && f[y].kind == Serial && f[y].current + 1 < |f[y].acts|
    requires Within(f, f[s].acts[f[s].current], y)
    ensures var g := SwitchTo(f, s, i);
      Shape(g) && Chain(g) && y in g && g[y].kind == Serial && !g[y].active && Shape(Next(g, y)) && !Chain(Next(g, y))
  {
    SwitchKeepsChainIff(f, s, i);
    SwitchMoves(f, s, i);
    var g, c, t := SwitchTo(f, s, i), f[s].acts[f[s].current], f[s].acts[i];
    NotWithinSibling(f, s, c, t, y);
    assert SwitchedAt(f, g, s, c, t, i, y) && y != s by { NotBelowChild(f, s, c); }
    NextKeepsChainIff(g, y);
  }

  // ---- where a jump lands -----------------------------------------------------------------------

  /** A serial act on the line whose child `i` is, or leads to, `n`. */
  ghost predicate LeadsTo<P>(f: Flow<P>, s: P, i: nat, n: P)
    requires Shape(f) && n in f
  {
    && s in f && f[s].kind == Serial && OnLine(f, s) && AncestorOrSelf(f, s, n) && f[s].depth < f[n].depth
    && i < |f[s].acts| && f[s].acts[i] == Up(f, n, f[s].depth + 1)
  }

  /** From the depth `k` on down to `n`, each act is its parent's current child, as far as the parent is serial. */
  ghost predicate FollowsFrom<P>(f: Flow<P>, n: P, k: nat)
    requires Shape(f) && n in f
  {
    forall j | k <= j <= f[n].depth :: FollowsAt(f, n, j)
  }

  lemma {:induction false} FirstSerialOnLine<P>(f: Flow<P>, h: P, n: P)
    requires Shape(f) && h in f && n in f && AncestorOrSelf(f, h, n) && h != n && OnLine(f, h)
    ensures var r := FirstSerial(f, h, n); if r.Nothing? then OnLine(f, n) else LeadsTo(f, r.serial, r.index, n)
    decreases f[n].depth - f[h].depth
  {
    StepBelow(f, h, n);
    if f[h].kind != Serial {
      var c := Up(f, n, f[h].depth + 1);
      UpIsChild(f, n, f[h].depth);
      assert ShapeAt(f, c);
      OnLineStep(f, c);
      if c != n {
        FirstSerialOnLine(f, c, n);
      }
    }
  }

  lemma MeetAbove<P>(f: Flow<P>, m: P, n: P)
    requires Shape(f) && m in f && n in f && OnLine(f, m)
    ensures OnLine(f, Meet(f, m, n))
    decreases f[m].depth
  {
    assert ShapeAt(f, m);
    OnLineStep(f, m);
    if !(AncestorOrSelf(f, m, n) || f[m].parent == None) {
      MeetAbove(f, f[m].parent.value, n);
    }
  }

  /** After a switch, an act below the new child is on the line exactly when the acts between were current before. */
  lemma SwitchedOnLineIff<P>(f: Flow<P>, s: P, i: nat, n: P)
    requires Shape(f) && Chain(f) && n in f && LeadsTo(f, s, i, n)
    ensures Shape(SwitchTo(f, s, i)) && n in SwitchTo(f, s, i)
    ensures OnLine(SwitchTo(f, s, i), n) <==> FollowsFrom(f, n, f[s].depth + 2)
  {
    assert ShapeAt(f, s);
    SwitchMoves(f, s, i);
    var g, c, t := SwitchTo(f, s, i), f[s].acts[f[s].current], f[s].acts[i];
    forall x | x in f
      ensures g[x].parent == f[x].parent && g[x].acts == f[x].acts && g[x].kind == f[x].kind
      ensures g[x].current == (if x == s then i else f[x].current)
    {
      assert SwitchedAt(f, g, s, c, t, i, x);
    }
    DepthSame(f, g, n);
    forall k | 0 <= k <= f[n].depth ensures FollowsAt(g, n, k) <==> k <= f[s].depth + 1 || FollowsAt(f, n, k) {
      SwitchedFollowsAt(f, g, s, i, n, k);
    }
    if OnLine(g, n) {
      forall k | f[s].depth + 2 <= k <= f[n].depth ensures FollowsAt(f, n, k) {
        assert FollowsAt(g, n, k);
      }
    }
  }

  lemma {:induction false} DepthSame<P>(f: Flow<P>, g: Flow<P>, x: P)
    requires Shape(f) && Shape(g) && f.Keys == g.Keys && x in f && forall y | y in f :: g[y].parent == f[y].parent
    ensures g[x].depth == f[x].depth
    decreases f[x].depth
  {
    assert ShapeAt(f, x) && ShapeAt(g, x);
    if f[x].parent.Some? {
      DepthSame(f, g, f[x].parent.value);
    }
  }

  lemma SwitchedFollowsAt<P>(f: Flow<P>, g: Flow<P>, s: P, i: nat, n: P, k: nat)
    requires Shape(f) && Shape(g) && f.Keys == g.Keys && n in f && LeadsTo(f, s, i, n) && k <= f[n].depth
    requires forall x | x in f ::
      && g[x].parent == f[x].parent && g[x].acts == f[x].acts && g[x].kind == f[x].kind
      && g[x].current == (if x == s then i else f[x].current)
    requires g[n].depth == f[n].depth
    ensures FollowsAt(g, n, k) <==> k <= f[s].depth + 1 || FollowsAt(f, n, k)
  {
    forall y | y in f ensures g[y].parent == f[y].parent && g[y].depth == f[y].depth {
      DepthSame(f, g, y);
    }
    UpSame(f, g, n, k);
    var x := Up(f, n, k);
    assert ShapeAt(f, x) && ShapeAt(g, x) && ShapeAt(f, s);
    if k > 0 {
      UpIsChild(f, n, k - 1);
      if k <= f[s].depth {
        UpOfUp(f, n, f[s].depth, k);
        assert FollowsAt(f, s, k);
        assert f[x].parent.value != s by { assert f[f[x].parent.value].depth == k - 1; }
      } else if k > f[s].depth + 1 {
        assert f[x].parent.value != s by { assert f[f[x].parent.value].depth == k - 1; }
      }
    }
  }

  /**
   * Where a switch `r` towards `n` lands: `n` comes to be on the line exactly when the acts between the
   * new child and it already had it so.
   */
  ghost predicate Lands<P>(f: Flow<P>, g: Flow<P>, r: Switch<P>, n: P)
    requires Shape(f) && n in f
  {
    && Shape(g) && n in g
    && (if r.Nothing? then g == f && OnLine(g, n)
        else LeadsTo(f, r.serial, r.index, n) && (OnLine(g, n) <==> FollowsFrom(f, n, f[r.serial].depth + 2)))
  }

  /**
   * A jump to a node's full path switches one serial act only, the first on the way down from where the
   * jumping leaf's parent and the node meet.
   */
  lemma JumpLandsIff<P>(f: Flow<P>, m: P, n: P)
    requires Shape(f) && PrefixFree(f) && Chain(f) && m in f && n in f && f[m].kind == Leaf && f[m].parent.Some?
    requires ShapeAt(f, m) && Served(f, m)
    requires Meet(f, f[m].parent.value, n) != n
    ensures Lands(f, Signal(f, m, JumpTo(f[n].fullPath)), FirstSerial(f, Meet(f, f[m].parent.value, n), n), n)
  {
    LeafJump(f, m, n);
    WayDown(f, m, n);
    hide *;
    var r := FirstSerial(f, Meet(f, f[m].parent.value, n), n);
    JumpSignals(f, m, f[n].fullPath, r);
    SwitchLands(f, r, n, Signal(f, m, JumpTo(f[n].fullPath)));
  }

  lemma WayDown<P>(f: Flow<P>, m: P, n: P)
    requires Shape(f) && Chain(f) && m in f && n in f && f[m].kind == Leaf && f[m].parent.Some? && ShapeAt(f, m)
    requires Served(f, m)
    requires Meet(f, f[m].parent.value, n) != n
    ensures var r := FirstSerial(f, Meet(f, f[m].parent.value, n), n);
      if r.Nothing? then OnLine(f, n) else LeadsTo(f, r.serial, r.index, n)
  {
    var q := f[m].parent.value;
    assert f[q].active;
    hide *;
    ActiveIsOnLine(f, q);
    MeetAbove(f, q, n);
    FirstSerialOnLine(f, Meet(f, q, n), n);
  }

  lemma SwitchLands<P>(f: Flow<P>, r: Switch<P>, n: P, g: Flow<P>)
    requires Shape(f) && Chain(f) && n in f && (if r.Nothing? then OnLine(f, n) else LeadsTo(f, r.serial, r.index, n))
    requires if r.Nothing? then g == f
      else f[r.serial].kind == Serial && r.index < |f[r.serial].acts| && g == SwitchTo(f, r.serial, r.index)
    ensures Lands(f, g, r, n)
  {
    hide OnLine, LeadsTo, FollowsFrom, Shape, Chain, SwitchTo;
    if r.To? {
      SwitchedOnLineIff(f, r.serial, r.index, n);
    }
  }

  lemma JumpSignals<P>(f: Flow<P>, m: P, path: string, r: Switch<P>)
    requires Shape(f) && m in f && f[m].kind == Leaf && Jump(f, m, path) == Ok(r)
    ensures r.Nothing? ==> Signal(f, m, JumpTo(path)) == f
    ensures r.To? ==> r.serial in f && f[r.serial].kind == Serial && r.index < |f[r.serial].acts|
    ensures r.To? ==> Signal(f, m, JumpTo(path)) == SwitchTo(f, r.serial, r.index)
  {
    hide Shape, SwitchTo, Jump;
  }

  lemma LeafJump<P>(f: Flow<P>, m: P, n: P)
    requires Shape(f) && PrefixFree(f) && m in f && n in f && f[m].kind == Leaf && f[m].parent.Some? && ShapeAt(f, m)
    requires Meet(f, f[m].parent.value, n) != n
    ensures Jump(f, m, f[n].fullPath) == Ok(FirstSerial(f, Meet(f, f[m].parent.value, n), n))
  {
    assert ShapeAt(f, f[m].parent.value);
    JumpToFullPath(f, f[m].parent.value, n);
    hide FirstSerial, Meet;
  }
}
