/**
 * A flow: acts in a tree, found and jumped to by path. The tree is a map from act identities to their
 * fields, as for pulses; class Act refines it.
 */
module Acts {
  import opened Options
  import opened Paths

  datatype Kind = Leaf | Serial | Parallel

  datatype Act<P(==)> = Act(
    kind: Kind,
    name: string,
    parent: Option<P>,
    fullPath: string,   // what build_path computed
    depth: nat,         // distance from the root
    height: nat,        // above every child's: the tree is finite
    acts: seq<P>,
    current: nat,       // act_serial: the child that runs
    active: bool,
    activeCount: nat)

  type Flow<P(==)> = map<P, Act<P>>

  // ---- shape ------------------------------------------------------------------------------------

  ghost predicate ShapeAt<P>(f: Flow<P>, a: P)
    requires a in f
  {
    var n := f[a];
    && GoodName(n.name)
    && (match n.parent
        case None => n.depth == 0 && n.fullPath == "/" + n.name
        case Some(q) =>
          && q in f && a in f[q].acts
          && n.depth == f[q].depth + 1 && n.fullPath == f[q].fullPath + "/" + n.name)
    && (forall i | 0 <= i < |n.acts| ::
          n.acts[i] in f && f[n.acts[i]].parent == Some(a) && f[n.acts[i]].height < n.height)
    && (forall i, j | 0 <= i < j < |n.acts| :: n.acts[i] != n.acts[j])
    && (n.kind == Leaf ==> n.acts == [])
    && (n.kind != Leaf ==> n.current < |n.acts|)
  }

  ghost predicate Shape<P>(f: Flow<P>) {
    && (forall a {:trigger ShapeAt(f, a)} | a in f :: ShapeAt(f, a))
    && (forall a, b | a in f && b in f && f[a].parent == None && f[b].parent == None :: a == b)
  }

  /** No sibling's name begins with another sibling's name. */
  ghost predicate PrefixFreeAt<P>(f: Flow<P>, a: P)
    requires a in f && ShapeAt(f, a)
  {
    forall i, j | 0 <= i < |f[a].acts| && 0 <= j < |f[a].acts| && i != j ::
      !(f[f[a].acts[i]].name <= f[f[a].acts[j]].name)
  }

  ghost predicate PrefixFree<P>(f: Flow<P>)
    requires Shape(f)
  {
    forall a {:trigger PrefixFreeAt(f, a)} | a in f :: PrefixFreeAt(f, a)
  }

  /** The ancestor of `a` at depth `k`. */
  ghost function Up<P>(f: Flow<P>, a: P, k: nat): (r: P)
    requires Shape(f) && a in f && k <= f[a].depth
    ensures r in f && f[r].depth == k
    decreases f[a].depth
  {
    assert ShapeAt(f, a);
    if k == f[a].depth then a else Up(f, f[a].parent.value, k)
  }

  ghost predicate AncestorOrSelf<P>(f: Flow<P>, a: P, b: P)
    requires Shape(f) && a in f && b in f
  {
    f[a].depth <= f[b].depth && Up(f, b, f[a].depth) == a
  }

  /** The names from the root down to `a`. */
  ghost function Names<P>(f: Flow<P>, a: P): (ns: seq<string>)
    requires Shape(f) && a in f
    ensures |ns| == f[a].depth + 1
    decreases f[a].depth
  {
    assert ShapeAt(f, a);
    if f[a].parent == None then [f[a].name] else Names(f, f[a].parent.value) + [f[a].name]
  }

  // ---- find -------------------------------------------------------------------------------------

  /** find_act: the first child of that name. */
  function FindAct<P(==)>(f: Flow<P>, acts: seq<P>, name: string): Option<nat>
    requires forall i | 0 <= i < |acts| :: acts[i] in f
  {
    FindActFrom(f, acts, name, 0)
  }

  function FindActFrom<P(==)>(f: Flow<P>, acts: seq<P>, name: string, i: nat): (r: Option<nat>)
    requires i <= |acts| && forall j | 0 <= j < |acts| :: acts[j] in f
    ensures r.Some? ==> i <= r.value < |acts| && f[acts[r.value]].name == name
    ensures forall j | i <= j < (if r.Some? then r.value else |acts|) :: f[acts[j]].name != name
    decreases |acts| - i
  {
    if i == |acts| then None
    else if f[acts[i]].name == name then Some(i)
    else FindActFrom(f, acts, name, i + 1)
  }

  function LastAct(path: string): string
    requires IsRelative(path)
  {
    RelativeHasParts(path);
    var parts := Split(path, SLASH);
    parts[|parts| - 1]
  }

  lemma RelativeHasParts(path: string)
    requires IsRelative(path)
    ensures |Split(path, SLASH)| > 0
  {
  }

  /** A relative path is compared by its last name only, an absolute one as a whole. */
  predicate IsSelf<P(==)>(n: Act<P>, path: string) {
    if IsRelative(path) then LastAct(path) == n.name else path == n.fullPath
  }

  /** get_child_path(self, path): substr throws when it starts past the end. */
  function ChildPath(self: string, path: string): Result<string> {
    if |self| + 1 > |path| then Throws else Ok(path[|self| + 1..])
  }

  ghost function Find<P>(f: Flow<P>, m: P, path: string): Result<Option<P>>
    requires Shape(f) && m in f
    decreases |path|, if IsAbsolute(path) then f[m].depth else if FirstAct(path) == Ok(f[m].name) then 0 else 2
  {
    assert ShapeAt(f, m);
    if |path| == 0 then Ok(None)
    else if IsSelf(f[m], path) then Ok(Some(m))
    else if IsAbsolute(path) then
      if IsChildOf(f[m].fullPath, path) then
        match ChildPath(f[m].fullPath, path)
        case Throws => Throws
        case Ok(below) => FindChild(f, m, below)
      else if f[m].parent == None then Ok(None)
      else Find(f, f[m].parent.value, path)
    else
      if FirstAct(path) == Ok(f[m].name) then
        match PopHead(path)
        case Throws => Throws
        case Ok(below) =>
          PopHeadIsShorter(path);
          FindChild(f, m, below)
      else FindChild(f, m, path)
  }

  ghost function FindChild<P>(f: Flow<P>, m: P, path: string): Result<Option<P>>
    requires Shape(f) && m in f
    decreases |path|, if IsAbsolute(path) then f[m].depth + 2 else 1
  {
    assert ShapeAt(f, m);
    if f[m].kind == Leaf then Ok(None) else
    match FirstAct(path)
    case Throws => Throws
    case Ok(first) =>
      match FindAct(f, f[m].acts, first)
      case None => Ok(None)
      case Some(i) =>
        assert ShapeAt(f, f[m].acts[i]);
        Find(f, f[m].acts[i], path)
  }

  // ---- jump -------------------------------------------------------------------------------------

  /** What a jump comes to: a serial act switches to one of its children, or nothing happens. */
  datatype Switch<P> = Nothing | To(serial: P, index: nat)

  ghost function Jump<P>(f: Flow<P>, m: P, path: string): (r: Result<Switch<P>>)
    requires Shape(f) && m in f
    ensures r.Ok? && r.value.To? ==>
      r.value.serial in f && f[r.value.serial].kind == Serial && r.value.index < |f[r.value.serial].acts|
    decreases |path|, f[m].depth, 1
  {
    assert ShapeAt(f, m);
    if f[m].kind == Serial && |path| == 0 then Ok(Nothing)
    else if f[m].kind != Leaf && IsRelative(path) then JumpChild(f, m, path)
    else if f[m].kind != Leaf && IsChildOf(f[m].fullPath, path) then
      match ChildPath(f[m].fullPath, path)
      case Throws => Throws
      case Ok(below) => JumpChild(f, m, below)
    else if f[m].parent == None then Ok(Nothing)
    else Jump(f, f[m].parent.value, path)
  }

  ghost function JumpChild<P>(f: Flow<P>, m: P, path: string): (r: Result<Switch<P>>)
    requires Shape(f) && m in f && f[m].kind != Leaf
    ensures r.Ok? && r.value.To? ==>
      r.value.serial in f && f[r.value.serial].kind == Serial && r.value.index < |f[r.value.serial].acts|
    decreases |path|, f[m].depth, 0
  {
    assert ShapeAt(f, m);
    match FirstAct(path)
    case Throws => Throws
    case Ok(first) =>
      match FindAct(f, f[m].acts, first)
      case None => Ok(Nothing)
      case Some(i) =>
        if f[m].kind == Serial then Ok(To(m, i)) else
        match PopHead(path)
        case Throws => Throws
        case Ok(below) =>
          PopHeadIsShorter(path);
          Jump(f, f[m].acts[i], below)
  }
}
