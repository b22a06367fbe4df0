/**
 * class act_ensure and its serial and parallel kinds, as heap objects. `all` is the set of acts of one
 * flow; the state of Acts is the map of their fields, and every method changes it as its function says.
 */
module Ensure {
  import opened Options
  import opened Paths
  import opened Acts
  import opened Lookup
  import opened FlowControl
  import opened ActiveChain
  import opened Signals
  import opened FlowUpdate

  ghost function View(all: set<ActEnsure>): Flow<ActEnsure>
    reads all
  {
    map a | a in all :: a.State()
  }

  lemma ViewIsStates(all: set<ActEnsure>)
    ensures View(all).Keys == all && forall a | a in all :: View(all)[a] == a.State()
  {
  }

  lemma InView(all: set<ActEnsure>, a: ActEnsure)
    requires a in all
    ensures a in View(all) && View(all)[a].kind == a.kind && View(all)[a].acts == a.acts
    ensures View(all)[a].current == a.current
  {
  }

  lemma ViewUpdatedAt(all: set<ActEnsure>, f: Flow<ActEnsure>, a: ActEnsure)
    requires f.Keys == all && a in all && forall x | x in all && x != a :: x.State() == f[x]
    ensures View(all) == f[a := a.State()]
  {
  }

  lemma ActsSame(f: Flow<ActEnsure>, g: Flow<ActEnsure>, c: ActEnsure)
    requires SameTree(f, g) && c in f
    ensures g[c].acts == f[c].acts && g[c].height == f[c].height
  {
    SameTreeMember(f, g, c);
  }

  lemma NoChildren(f: Flow<ActEnsure>, a: ActEnsure)
    requires Shape(f) && a in f
    ensures ActivateAll(f, a, 0) == f && DeactivateAll(f, a, 0) == f
  {
    hide Shape, SameTree;
  }

  /** pop_head_act joins the parts after the first again. */
  method JoinTail(parts: seq<string>) returns (join: string)
    requires |parts| > 1
    ensures join == JoinParts(parts[1..])
  {
    join := "";
    var i := 1;
    while i < |parts| - 1
      invariant 1 <= i <= |parts| - 1
      invariant join + JoinParts(parts[i..]) == JoinParts(parts[1..])
    {
      assert parts[i..][1..] == parts[i + 1..];
      join := join + parts[i] + "/";
      i := i + 1;
    }
    join := join + parts[|parts| - 1];
  }

  /** The stack holds the last names, the one nearest the root on top. */
  predicate Stacked(names: seq<string>, stack: seq<string>) {
    |stack| <= |names| && forall i | 0 <= i < |stack| :: stack[i] == names[|names| - 1 - i]
  }

  lemma StackedNone(names: seq<string>)
    ensures Stacked(names, [])
  {
  }

  lemma ClimbStep(f: Flow<ActEnsure>, names: seq<string>, p: ActEnsure, stack: seq<string>)
    requires Shape(f) && p in f && f[p].depth < |names| && Names(f, p) == names[..f[p].depth + 1]
    requires Stacked(names, stack) && |stack| == |names| - f[p].depth - 1
    ensures Stacked(names, stack + [f[p].name])
    ensures f[p].parent.Some? ==>
      var q := f[p].parent.value; q in f && f[q].depth + 1 == f[p].depth && Names(f, q) == names[..f[q].depth + 1]
    ensures f[p].parent == None ==> f[p].depth == 0
  {
    assert ShapeAt(f, p);
    var d := f[p].depth;
    assert names[d] == Names(f, p)[d] == f[p].name;
    if f[p].parent.Some? {
      assert Names(f, f[p].parent.value) == Names(f, p)[..d] == names[..d];
    }
  }

  lemma JoinStep(names: seq<string>, stack: seq<string>)
    requires Stacked(names, stack) && |stack| > 0
    ensures |stack| <= |names| && Stacked(names, stack[..|stack| - 1])
    ensures FullPath(names[..|names| - |stack|]) + "/" + stack[|stack| - 1] == FullPath(names[..|names| - |stack| + 1])
  {
    var done, top := names[..|names| - |stack|], stack[|stack| - 1];
    assert names[..|done| + 1] == done + [top];
    FullPathSnoc(done, top);
  }

  class ActEnsure {
    const kind: Kind
    const name: string
    const parent: ActEnsure?
    var fullPath: string
    var acts: seq<ActEnsure>
    var current: nat
    var active: bool
    var activeCount: nat
    ghost const depth: nat
    ghost var height: nat

    ghost function State(): Act<ActEnsure>
      reads this
    {
      Act(kind, name, if parent == null then None else Some(parent as ActEnsure), fullPath,
          depth, height, acts, current, active, activeCount)
    }

    constructor (kind: Kind, name: string, parent: ActEnsure?, ghost all: set<ActEnsure>)
      requires parent != null ==> parent in all && Shape(View(all))
      ensures this.parent == parent
      ensures State() == Act(kind, name, if parent == null then None else Some(parent as ActEnsure),
        (if parent == null then "" else parent.fullPath) + "/" + name,
        if parent == null then 0 else parent.depth + 1, 0, [], 0, false, 0)
    {
      this.kind, this.name, this.parent := kind, name, parent;
      fullPath, acts, current, active, activeCount := "", [], 0, false, 0;
      depth, height := if parent == null then 0 else parent.depth + 1, 0;
      new;
      fullPath := BuildPath(parent, name, all);
    }

    /** The names above are stacked on the way up and joined on the way down. */
    static method BuildPath(parent: ActEnsure?, name: string, ghost all: set<ActEnsure>) returns (path: string)
      requires parent != null ==> parent in all && Shape(View(all))
      ensures path == (if parent == null then "" else parent.fullPath) + "/" + name
    {
      hide Stacked;
      ghost var f, names := View(all), if parent == null then [] else Names(View(all), parent);
      var stack: seq<string> := [];
      var p := parent;
      StackedNone(names);
      while p != null
        invariant p != null ==> p in all
        invariant |stack| == |names| - if p == null then 0 else p.depth + 1
        invariant p != null ==> Names(f, p) == names[..p.depth + 1]
        invariant Stacked(names, stack)
        decreases |names| - |stack|
      {
        ClimbStep(f, names, p, stack);
        stack := stack + [p.name];
        p := p.parent;
      }
      hide Shape;
      path := "/";
      assert FullPath(names[..0]) == "";
      while |stack| > 0
        invariant Stacked(names, stack)
        invariant path == FullPath(names[..|names| - |stack|]) + "/"
      {
        JoinStep(names, stack);
        path := path + stack[|stack| - 1];
        path := path + "/";
        stack := stack[..|stack| - 1];
      }
      assert names[..|names|] == names;
      path := path + name;
      if parent != null {
        FullPathIsNames(f, parent);
      }
    }

    /** The loop of both find_act members. */
    method FindAct(name: string, ghost all: set<ActEnsure>) returns (r: Option<nat>)
      requires this in all && forall c | c in acts :: c in all
      ensures r == Acts.FindAct(View(all), acts, name)
      ensures r.Some? ==> r.value < |acts|
    {
      var i := 0;
      while i < |acts|
        invariant i <= |acts|
        invariant FindActFrom(View(all), acts, name, i) == Acts.FindAct(View(all), acts, name)
      {
        if acts[i].name == name {
          return Some(i);
        }
        i := i + 1;
      }
      return None;
    }

    // ---- activation -----------------------------------------------------------------------------

    method Light()
      modifies this`active, this`activeCount
      ensures State() == Lit(old(State()))
    {
      active := true;
      activeCount := activeCount + 1;
    }

    /** The result is what on_activate says; leaf activations succeed. */
    method Activate(ghost all: set<ActEnsure>) returns (ok: bool)
      requires Shape(View(all)) && this in all
      modifies all
      ensures ok && View(all) == FlowControl.Activate(old(View(all)), this)
      decreases height, 2
    {
      hide FlowControl.OnActivate, Shape;
      if active {
        return true;
      }
      ok := OnActivate(all);
      if ok {
        ghost var g: Flow<ActEnsure> := View(all);
        Light();
        ViewUpdatedAt(all, g, this);
      }
    }

    method OnActivate(ghost all: set<ActEnsure>) returns (ok: bool)
      requires Shape(View(all)) && this in all
      modifies all
      ensures ok && View(all) == FlowControl.OnActivate(old(View(all)), this)
      decreases height, 1
    {
      assert ShapeAt(View(all), this);
      hide FlowControl.Activate, FlowControl.ActivateAll, Shape;
      match kind
      case Leaf => ok := true;
      case Serial => ok := acts[current].Activate(all);
      case Parallel => ok := ActivateChildren(all);
    }

    /** Each child in turn; the early return for one that fails is not reached. */
    method ActivateChildren(ghost all: set<ActEnsure>) returns (ok: bool)
      requires Shape(View(all)) && this in all
      modifies all
      ensures ok && View(all) == ActivateAll(old(View(all)), this, |old(acts)|)
      decreases height, 0, |acts| + 1
    {
      hide FlowControl.Activate, FlowControl.ActivateAll, Shape, SameTree;
      ghost var f: Flow<ActEnsure> := View(all);
      NoChildren(f, this);
      ok := true;
      var i := 0;
      while i < |acts|
        invariant ok && acts == old(acts) && i <= |acts| && height == old(height)
        invariant View(all) == ActivateAll(f, this, i)
      {
        ok := ActivateChild(i, f, all);
        i := i + 1;
      }
    }

    method ActivateChild(i: nat, ghost f: Flow<ActEnsure>, ghost all: set<ActEnsure>) returns (ok: bool)
      requires this in all && Shape(f) && f.Keys == all && i < |acts| && |f[this].acts| == |acts|
      requires View(all) == ActivateAll(f, this, i)
      modifies all
      ensures ok && acts == old(acts) && height == old(height)
      ensures View(all) == ActivateAll(f, this, i + 1)
      decreases height, 0, i
    {
      ghost var c := ActivateAllStep(f, this, i + 1);
      ActsSame(f, View(all), c);
      ActsSame(f, View(all), this);
      hide *;
      ok := acts[i].Activate(all);
      ActsSame(f, View(all), this);
    }

    method Deactivate(ghost all: set<ActEnsure>)
      requires Shape(View(all)) && this in all
      modifies all
      ensures View(all) == FlowControl.Deactivate(old(View(all)), this)
      decreases height, 2
    {
      hide FlowControl.OnDeactivate, Shape;
      if active {
        OnDeactivate(all);
        ghost var g: Flow<ActEnsure> := View(all);
        active := false;
        ViewUpdatedAt(all, g, this);
      }
    }

    method OnDeactivate(ghost all: set<ActEnsure>)
      requires Shape(View(all)) && this in all
      modifies all
      ensures View(all) == FlowControl.OnDeactivate(old(View(all)), this)
      decreases height, 1
    {
      assert ShapeAt(View(all), this);
      hide FlowControl.Deactivate, FlowControl.DeactivateAll, Shape;
      match kind
      case Leaf =>
      case Serial => acts[current].Deactivate(all);
      case Parallel => DeactivateChildren(all);
    }

    method DeactivateChildren(ghost all: set<ActEnsure>)
      requires Shape(View(all)) && this in all
      modifies all
      ensures View(all) == DeactivateAll(old(View(all)), this, |old(acts)|)
      decreases height, 0, |acts| + 1
    {
      hide FlowControl.Deactivate, FlowControl.DeactivateAll, Shape, SameTree;
      ghost var f: Flow<ActEnsure> := View(all);
      NoChildren(f, this);
      var i := 0;
      while i < |acts|
        invariant acts == old(acts) && i <= |acts| && height == old(height)
        invariant View(all) == DeactivateAll(f, this, i)
      {
        DeactivateChild(i, f, all);
        i := i + 1;
      }
    }

    method DeactivateChild(i: nat, ghost f: Flow<ActEnsure>, ghost all: set<ActEnsure>)
      requires this in all && Shape(f) && f.Keys == all && i < |acts| && |f[this].acts| == |acts|
      requires View(all) == DeactivateAll(f, this, i)
      modifies all
      ensures acts == old(acts) && height == old(height)
      ensures View(all) == DeactivateAll(f, this, i + 1)
      decreases height, 0, i
    {
      ghost var c := DeactivateAllStep(f, this, i + 1);
      ActsSame(f, View(all), c);
      ActsSame(f, View(all), this);
      hide *;
      acts[i].Deactivate(all);
      ActsSame(f, View(all), this);
    }

    // ---- signals --------------------------------------------------------------------------------

    /** The current child stops, `i` becomes current and starts. */
    method SwitchTo(i: nat, ghost all: set<ActEnsure>)
      requires Shape(View(all)) && this in all && kind == Serial && i < |acts|
      modifies all
      ensures View(all) == FlowControl.SwitchTo(old(View(all)), this, i)
    {
      ghost var f: Flow<ActEnsure> := View(all);
      StopCurrent(all);
      StartChild(i, f, all);
    }

    method StartChild(i: nat, ghost f: Flow<ActEnsure>, ghost all: set<ActEnsure>)
      requires Shape(View(all)) && this in all && kind == Serial && i < |acts|
      requires Shape(f) && this in f && f[this].kind == Serial && f[this].acts == acts && ShapeAt(f, this)
      requires View(all) == FlowControl.Deactivate(f, f[this].acts[f[this].current])
      modifies all
      ensures View(all) == FlowControl.SwitchTo(f, this, i)
    {
      ghost var g: Flow<ActEnsure> := View(all);
      hide FlowControl.Deactivate, FlowControl.Activate, SameTree;
      current := i;
      ViewUpdatedAt(all, g, this);
      MoveKeepsShape(g, this, i);
      assert ShapeAt(View(all), this);
      hide Shape, ShapeAt;
      var started := acts[i].Activate(all);
    }

    method StopCurrent(ghost all: set<ActEnsure>)
      requires Shape(View(all)) && this in all && kind == Serial
      modifies all
      ensures var f := old(View(all));
        && this in f && f[this].acts == acts && f[this].current == current && f[this].kind == Serial && ShapeAt(f, this)
        && Shape(View(all)) && View(all) == FlowControl.Deactivate(f, f[this].acts[f[this].current])
    {
      ghost var f: Flow<ActEnsure> := View(all);
      assert ShapeAt(f, this);
      acts[current].Deactivate(all);
      SameTreeKeepsShape(f, View(all));
      SameTreeMember(f, View(all), this);
    }

    /** Parallel acts only log; leaves hand the call to their parent. */
    method Next(ghost all: set<ActEnsure>)
      requires Shape(View(all)) && this in all
      modifies all
      ensures View(all) ==
        match kind
        case Leaf => Signal(old(View(all)), this, MoveNext)
        case Serial => FlowControl.Next(old(View(all)), this)
        case Parallel => old(View(all))
      decreases depth
    {
      ghost var f: Flow<ActEnsure> := View(all);
      assert ShapeAt(f, this);
      if kind == Leaf && parent != null {
        assert ShapeAt(f, parent);
        hide Shape, ShapeAt, FlowControl.Next;
        parent.Next(all);
      } else if kind == Serial {
        NextSerial(all);
      }
    }

    /** Past the end the index goes back to the last child, which stays stopped. */
    method NextSerial(ghost all: set<ActEnsure>)
      requires Shape(View(all)) && this in all && kind == Serial
      modifies all
      ensures View(all) == FlowControl.Next(old(View(all)), this)
    {
      hide *;
      ghost var f: Flow<ActEnsure> := View(all);
      InView(all, this);
      NextIs(f, this);
      StopCurrent(all);
      if current + 1 < |acts| {
        StartChild(current + 1, f, all);
      }
    }

    /** The result is false where the path arithmetic throws. */
    method Jump(path: string, ghost all: set<ActEnsure>) returns (ok: bool)
      requires Shape(View(all)) && this in all
      modifies all
      ensures ok == Acts.Jump(old(View(all)), this, path).Ok?
      ensures View(all) == AfterJump(old(View(all)), Acts.Jump(old(View(all)), this, path))
      decreases |path|, depth, 2
    {
      assert ShapeAt(View(all), this);
      hide Shape, ShapeAt, Acts.JumpChild, FlowControl.SwitchTo;
      if kind == Serial && |path| == 0 {
        ok := true;
      } else if kind != Leaf && IsRelative(path) {
        ok := JumpChild(path, all);
      } else if kind != Leaf && IsChildOf(fullPath, path) {
        match ChildPath(fullPath, path)
        case Throws => ok := false;
        case Ok(below) => ok := JumpChild(below, all);
      } else if parent == null {
        ok := true;
      } else {
        ok := parent.Jump(path, all);
      }
    }

    /** Both kinds look the first name up; a serial act switches to it, a parallel one passes the rest on. */
    method JumpChild(path: string, ghost all: set<ActEnsure>) returns (ok: bool)
      requires Shape(View(all)) && this in all && kind != Leaf
      modifies all
      ensures ok == Acts.JumpChild(old(View(all)), this, path).Ok?
      ensures View(all) == AfterJump(old(View(all)), Acts.JumpChild(old(View(all)), this, path))
      decreases |path|, depth, 1
    {
      assert ShapeAt(View(all), this);
      assert forall c | c in acts :: c in all;
      hide Shape, ShapeAt, Acts.Jump, FlowControl.SwitchTo, Acts.FindAct, FindActFrom, FirstAct, PopHead;
      match FirstAct(path)
      case Throws => ok := false;
      case Ok(first) =>
        var found := FindAct(first, all);
        match found
        case None => ok := true;
        case Some(i) => ok := JumpFound(path, i, all);
    }

    method JumpFound(path: string, i: nat, ghost all: set<ActEnsure>) returns (ok: bool)
      requires Shape(View(all)) && this in all && kind != Leaf && i < |acts|
      requires FirstAct(path).Ok? && (forall c | c in acts :: c in all)
      requires Acts.FindAct(View(all), acts, FirstAct(path).value) == Some(i)
      modifies all
      ensures ok == Acts.JumpChild(old(View(all)), this, path).Ok?
      ensures View(all) == AfterJump(old(View(all)), Acts.JumpChild(old(View(all)), this, path))
      decreases |path|, depth, 0
    {
      hide Shape, ShapeAt, Acts.Jump, FlowControl.SwitchTo, Acts.FindAct, FindActFrom, FirstAct, PopHead;
      if kind == Serial {
        SwitchTo(i, all);
        ok := true;
      } else {
        match PopHead(path)
        case Throws => ok := false;
        case Ok(below) =>
          PopHeadIsShorter(path);
          ok := acts[i].Jump(below, all);
      }
    }

    // ---- update ---------------------------------------------------------------------------------

    /** exit goes up to the root; there a flow stops its bot, whose on_stop deactivates the flow. */
    method Exit(ghost all: set<ActEnsure>)
      requires Shape(View(all)) && this in all
      modifies all
      ensures View(all) == AfterExit(old(View(all)), this)
      decreases depth
    {
      assert ShapeAt(View(all), this);
      hide Shape, ShapeAt, FlowControl.Deactivate;
      if parent != null {
        parent.Exit(all);
      } else if kind == Serial {
        Deactivate(all);
      }
    }

    /** signal, by the command its slot names; the result is false where a jump throws. */
    method SignalParent(command: Command, ghost all: set<ActEnsure>) returns (ok: bool)
      requires Shape(View(all)) && this in all && kind == Leaf
      modifies all
      ensures ok == !SignalThrows(old(View(all)), this, command)
      ensures View(all) == Signal(old(View(all)), this, command)
    {
      hide Shape, FlowControl.Next, Acts.Jump, FlowControl.SwitchTo, AfterExit;
      ok := true;
      match command
      case Exit =>
        Exit(all);
      case MoveNext =>
        Next(all);
      case JumpTo(path) =>
        ok := Jump(path, all);
    }

    /** on_update: a leaf may signal, a serial act updates its current child, a parallel act all children in turn. */
    method Update(commands: map<ActEnsure, Command>, ghost all: set<ActEnsure>) returns (ok: bool)
      requires Shape(View(all)) && this in all
      modifies all
      ensures Outcome(View(all), !ok) == UpdateWith(old(View(all)), this, commands)
      decreases height, 1
    {
      assert ShapeAt(View(all), this);
      hide Shape, Signal, SignalThrows, UpdateFirst;
      ok := true;
      match kind
      case Leaf =>
        if this in commands {
          ok := SignalParent(commands[this], all);
        }
      case Serial =>
        ok := acts[current].Update(commands, all);
      case Parallel =>
        ok := UpdateChildren(commands, all);
    }

    /** An exception of one child leaves the loop. */
    method UpdateChildren(commands: map<ActEnsure, Command>, ghost all: set<ActEnsure>) returns (ok: bool)
      requires Shape(View(all)) && this in all && kind == Parallel
      modifies all
      ensures Outcome(View(all), !ok) == UpdateFirst(old(View(all)), this, |old(acts)|, commands)
      decreases height, 0, |acts| + 1
    {
      hide UpdateWith, UpdateFirst, Shape, SameActs;
      ghost var f: Flow<ActEnsure> := View(all);
      NoUpdates(f, this, commands);
      ok := true;
      var i := 0;
      while i < |acts|
        invariant ok && acts == old(acts) && i <= |acts| && height == old(height)
        invariant Outcome(View(all), false) == UpdateFirst(f, this, i, commands)
      {
        ok := UpdateChild(i, commands, f, all);
        i := i + 1;
        if !ok {
          ThrowEndsUpdate(f, this, i, |f[this].acts|, commands);
          return;
        }
      }
    }

    method UpdateChild(i: nat, commands: map<ActEnsure, Command>, ghost f: Flow<ActEnsure>, ghost all: set<ActEnsure>)
      returns (ok: bool)
      requires this in all && Shape(f) && f.Keys == all && i < |acts| && |f[this].acts| == |acts|
      requires Outcome(View(all), false) == UpdateFirst(f, this, i, commands)
      modifies all
      ensures acts == old(acts) && height == old(height)
      ensures Outcome(View(all), !ok) == UpdateFirst(f, this, i + 1, commands)
      decreases height, 0, i
    {
      UpdateFirstStep(f, this, i + 1, commands);
      PlacesSame(f, View(all), this);
      hide *;
      ok := acts[i].Update(commands, all);
      PlacesSame(f, View(all), this);
    }
  }

  lemma NoUpdates(f: Flow<ActEnsure>, a: ActEnsure, commands: map<ActEnsure, Command>)
    requires Shape(f) && a in f
    ensures UpdateFirst(f, a, 0, commands) == Outcome(f, false)
  {
    hide Shape, SameActs;
  }

  lemma PlacesSame(f: Flow<ActEnsure>, g: Flow<ActEnsure>, c: ActEnsure)
    requires SameActs(f, g) && c in f
    ensures c in g && g[c].acts == f[c].acts && g[c].height == f[c].height
  {
  }
}
