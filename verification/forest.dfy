/**
 * The pulses of a process as one state: a map from pulses (of any identity type P) to their fields.
 * Every operation of a pulse is a function on that state; class Pulse refines them.
 *
 * `live` and `missed` are bookkeeping for the statements only: the interests of a pulse that its root
 * was told about and that were not withdrawn since, and those shown only before it came under that root.
 */
module PulseForest {
  import opened CallLedger
  import opened Options

  type SessionKey = nat   // the address of a session object; 0 is "no session"
  type Frame = nat        // an opaque frame pointer
  const NO_SESSION: SessionKey := 0
  const TOPIC_CLOSED: Topic := 2

  datatype Mode = NoMode | Server | Client | Child | Independent

  datatype Key = Key(session: SessionKey, topic: Topic)

  /** What a subscription runs: an application callback, or one of the two that `call` installs. */
  datatype Callback = User(id: nat) | ReplyTo(res: Topic) | ClosedNotice

  datatype Subscription = Subscription(session: SessionKey, cb: Callback)

  datatype Node<P(==)> = Node(
    mode: Mode,
    parent: Option<P>,
    root: P,                // what get_root() walks to
    depth: nat,
    children: set<P>,
    isFinal: bool,
    stopped: bool,
    session: SessionKey,
    strand: nat,
    hasRunner: bool,
    subs: map<Topic, seq<Subscription>>,
    interests: map<Key, set<P>>,   // used by roots
    kept: set<Key>,                // used by the others: their own interests
    live: set<Key>,
    missed: set<Key>,
    ledger: Ledger)

  type Forest<P(==)> = map<P, Node<P>>

  /** Something posted to the runner: a subscriber's callback with its arguments, or a failed call. */
  datatype Task<P> =
    | Deliver(owner: P, strand: nat, cb: Callback, session: SessionKey, frame: Frame)
    | CallFailed(owner: P, strand: nat, failure: FailureCallback)

  function SubsOn(subs: map<Topic, seq<Subscription>>, t: Topic): seq<Subscription> {
    if t in subs then subs[t] else []
  }

  function GroupAt<P(==)>(interests: map<Key, set<P>>, k: Key): set<P> {
    if k in interests then interests[k] else {}
  }

  function Interested<P(==)>(n: Node<P>, k: Key): set<P> {
    GroupAt(n.interests, k)
  }

  // ---- operations -------------------------------------------------------------------------------

  function NewNode<P(==)>(p: P): Node<P> {
    Node(NoMode, None, p, 0, {}, false, false, NO_SESSION, 0, false, map[], map[], {}, {}, {}, EMPTY)
  }

  /** A pulse without mode and parent, and not the root of its own parent. */
  predicate CanAttach<P(==)>(f: Forest<P>, c: P, p: P) {
    c in f && p in f && f[c].mode == NoMode && f[c].parent == None && f[p].root != c
  }

  /** A pulse below `c` comes under another root, which knows nothing of it. */
  function Moved<P(==)>(n: Node<P>, c: P, r: P, above: nat): Node<P> {
    if n.root != c then n else n.(root := r, depth := n.depth + above, missed := n.missed + n.live, live := {})
  }

  /** The two ends of the new link. */
  function Linked<P(==)>(m: Node<P>, c: P, p: P, q: P): Node<P> {
    if q == c then m.(mode := Child, parent := Some(p))
    else if q == p && !m.isFinal then m.(children := m.children + {c})
    else m
  }

  /** What attaching `c` below `p` makes of pulse `q`. */
  function Attached<P(==)>(f: Forest<P>, c: P, p: P, q: P): Node<P>
    requires c in f && p in f && q in f
  {
    Linked(Moved(f[q], c, f[p].root, f[p].depth + 1), c, p, q)
  }

  /** as_child: the parent pointer is set first; a final parent then refuses to list the child. */
  function AsChild<P(==)>(f: Forest<P>, c: P, p: P): Forest<P>
    requires c in f && p in f
  {
    map q | q in f :: Attached(f, c, p, q)
  }

  /** What a subscription changes at the pulse itself. */
  function Subscribed<P(==)>(n: Node<P>, t: Topic, cb: Callback): Node<P> {
    var k := Key(n.session, t);
    var m := n.(subs := n.subs[t := SubsOn(n.subs, t) + [Subscription(n.session, cb)]]);
    if n.parent == None then m.(missed := n.missed + {k})
    else m.(kept := n.kept + {k}, live := n.live + {k}, missed := n.missed - {k})
  }

  /** show_interest at the root. */
  function Shown<P(==)>(r: Node<P>, k: Key, p: P): Node<P> {
    r.(interests := r.interests[k := Interested(r, k) + {p}])
  }

  function Subscribe<P(==)>(f: Forest<P>, p: P, t: Topic, cb: Callback): Forest<P>
    requires p in f && f[p].root in f
  {
    var f' := f[p := Subscribed(f[p], t, cb)];
    if f[p].parent == None then f' else
    f'[f[p].root := Shown(f'[f[p].root], Key(f[p].session, t), p)]
  }

  function Withdraw<P(==)>(interests: map<Key, set<P>>, ks: set<Key>, c: P): map<Key, set<P>> {
    map k | k in interests :: if k in ks then interests[k] - {c} else interests[k]
  }

  /** unbind_child: only a parent that is itself a root also forgets the child's interests. */
  function Unbind<P(==)>(f: Forest<P>, c: P, p: P): Forest<P>
    requires c in f && p in f && c != p
  {
    var n := f[p].(children := f[p].children - {c});
    if f[p].parent != None then f[p := n] else
    f[p := n.(interests := Withdraw(n.interests, f[c].kept, c))][c := f[c].(live := {})]
  }

  /** stop: refused, but marked as done all the same, while children are bound. */
  function Stop<P(==)>(f: Forest<P>, c: P): Forest<P>
    requires c in f && (f[c].parent.Some? ==> f[c].parent.value in f && f[c].parent.value != c)
  {
    if f[c].stopped then f else
    var f' := f[c := f[c].(stopped := true)];
    if f[c].children == {} && f[c].mode == Child && f[c].parent.Some? then Unbind(f', c, f[c].parent.value)
    else f'
  }

  /** A stop that takes the pulse off its parent's children: the first one, of a childless pulse. */
  predicate Leaves<P(==)>(f: Forest<P>, c: P)
    requires c in f
  {
    !f[c].stopped && f[c].children == {} && f[c].mode == Child && f[c].parent.Some?
  }

  /** The source throws: children are still bound. */
  predicate StopRefused<P(==)>(f: Forest<P>, c: P)
    requires c in f
  {
    !f[c].stopped && f[c].children != {}
  }

  /** A stop that makes the root forget the pulse: the first one, of a childless direct child of a root. */
  predicate StopWithdraws<P(==)>(f: Forest<P>, c: P)
    requires c in f
  {
    !f[c].stopped && f[c].children == {} && f[c].parent.Some?
      && f[c].parent.value in f && f[f[c].parent.value].parent == None
  }

  /** call: the close and reply handlers are installed only on topics not subscribed yet. */
  function CallSubscribe<P(==)>(f: Forest<P>, p: P, t: Topic, cb: Callback): Forest<P>
    requires p in f && f[p].root in f
  {
    if t in f[p].subs then f else Subscribe(f, p, t, cb)
  }

  function CallOp<P(==)>(f: Forest<P>, p: P, req: Topic, res: Topic, failure: FailureCallback): Forest<P>
    requires p in f && f[p].root in f
  {
    var f1 := CallSubscribe(f, p, TOPIC_CLOSED, ClosedNotice);
    var f2 := CallSubscribe(f1, p, res, ReplyTo(res));
    f2[p := f2[p].(ledger := Issue(f2[p].ledger, req, res, failure))]
  }

  // ---- dispatch ---------------------------------------------------------------------------------

  predicate IsTarget(sub: SessionKey, key: SessionKey, fromRoot: bool) {
    if fromRoot then sub == key else sub == NO_SESSION || sub == key
  }

  /** The callbacks one pulse posts for a frame, in subscription order. */
  function Posts<P(==)>(p: P, strand: nat, subs: seq<Subscription>, se: SessionKey, fr: Frame,
                        fromRoot: bool): seq<Task<P>>
  {
    if subs == [] then [] else
    var last := subs[|subs| - 1];
    Posts(p, strand, subs[..|subs| - 1], se, fr, fromRoot)
      + if IsTarget(last.session, se, fromRoot) then [Deliver(p, strand, last.cb, se, fr)] else []
  }

  function OwnPosts<P(==)>(f: Forest<P>, p: P, se: SessionKey, t: Topic, fr: Frame, fromRoot: bool): seq<Task<P>>
    requires p in f
  {
    Posts(p, f[p].strand, SubsOn(f[p].subs, t), se, fr, fromRoot)
  }

  /** An interest group visited in the order `group`. */
  function GroupPosts<P(==)>(f: Forest<P>, group: seq<P>, se: SessionKey, t: Topic, fr: Frame): seq<Task<P>>
    requires forall c | c in group :: c in f
  {
    if group == [] then [] else
    GroupPosts(f, group[..|group| - 1], se, t, fr) + OwnPosts(f, group[|group| - 1], se, t, fr, true)
  }

  /** `order` lists `s`, each element once. */
  ghost predicate Lists<P>(order: seq<P>, s: set<P>) {
    multiset(order) == multiset(s)
  }

  /**
   * What dispatching at a root posts: its own subscribers first, then those interested in the topic
   * for any session, which are handed no session, then those interested in this session.
   */
  ghost predicate Dispatched<P>(f: Forest<P>, r: P, se: SessionKey, t: Topic, fr: Frame,
                                    anySession: seq<P>, thisSession: seq<P>, posts: seq<Task<P>>)
    requires r in f
    requires (forall c | c in anySession :: c in f) && forall c | c in thisSession :: c in f
  {
    && Lists(anySession, Interested(f[r], Key(NO_SESSION, t)))
    && Lists(thisSession, if se == NO_SESSION then {} else Interested(f[r], Key(se, t)))
    && posts == OwnPosts(f, r, se, t, fr, false)
              + GroupPosts(f, anySession, NO_SESSION, t, fr)
              + GroupPosts(f, thisSession, se, t, fr)
  }

  // ---- what posted callbacks do -------------------------------------------------------------------

  function FailureTasks<P>(p: P, strand: nat, ts: seq<Ticket>): (xs: seq<Task<P>>)
    ensures |xs| == |ts|
    ensures forall i | 0 <= i < |xs| :: xs[i] == CallFailed(p, strand, ts[i].cb)
  {
    seq(|ts|, i requires 0 <= i < |ts| => CallFailed(p, strand, ts[i].cb))
  }

  /**
   * The ledger of a pulse bound to `session` after a callback ran with the session `se`; `User` callbacks
   * are the application's. call_closed returns unless the two are the same.
   */
  function RanLedger(l: Ledger, session: SessionKey, cb: Callback, se: SessionKey): Ledger
    requires cb.ReplyTo? ==> Expected(l, cb.res)
  {
    match cb
    case User(_) => l
    case ReplyTo(res) => Receive(l, res)
    case ClosedNotice => if se == session then l.(calls := map[]) else l
  }

  function RanPosts<P(==)>(n: Node<P>, p: P, cb: Callback, se: SessionKey): seq<Task<P>> {
    if cb == ClosedNotice && se == n.session then FailureTasks(p, n.strand, Failures(n.ledger.calls)) else []
  }

  // ---- the invariant ----------------------------------------------------------------------------

  predicate HasKey(subs: map<Topic, seq<Subscription>>, k: Key) {
    exists i :: 0 <= i < |SubsOn(subs, k.topic)| && SubsOn(subs, k.topic)[i].session == k.session
  }

  /** Where a pulse stands in its tree. */
  ghost predicate PlaceOk<P>(f: Forest<P>, p: P)
    requires p in f
  {
    var n := f[p];
    && n.root in f && f[n.root].parent == None
    && (match n.parent
        case None => n.root == p && n.depth == 0 && n.mode != Child
        case Some(q) => q in f && n.root == f[q].root && n.root != p && n.depth == f[q].depth + 1 && n.mode == Child)
    && (n.hasRunner <==> n.mode != NoMode && n.mode != Child)
    && (forall c | c in n.children :: c in f && f[c].parent == Some(p))
  }

  /** What a pulse remembers of its subscriptions. */
  ghost predicate KeysOk<P>(n: Node<P>) {
    && (n.parent == None ==> n.kept == {})
    && n.live <= n.kept && n.live !! n.missed
    && (!n.stopped ==> n.kept <= n.live + n.missed)
    && (forall k :: HasKey(n.subs, k) <==> k in n.kept || k in n.missed)
  }

  ghost predicate NodeOk<P>(f: Forest<P>, p: P)
    requires p in f
  {
    PlaceOk(f, p) && KeysOk(f[p])
  }

  ghost function Listeners<P>(f: Forest<P>, r: P, k: Key): set<P> {
    set c | c in f && c != r && f[c].root == r && k in f[c].live
  }

  /** The root's index lists exactly the descendants whose interest is live. */
  ghost predicate IndexOk<P>(f: Forest<P>, r: P, k: Key)
    requires r in f
  {
    Interested(f[r], k) == Listeners(f, r, k)
  }

  ghost predicate Inv<P>(f: Forest<P>) {
    && (forall p {:trigger NodeOk(f, p)} | p in f :: NodeOk(f, p))
    && forall r, k {:trigger IndexOk(f, r, k)} | r in f && f[r].parent == None :: IndexOk(f, r, k)
  }

  // ---- runs -------------------------------------------------------------------------------------

  datatype Op<P> =
    | New(p: P)
    | Configure(p: P, mode: Mode)
    | Attach(p: P, parent: P)
    | WithSession(p: P, session: SessionKey)
    | WithStrand(p: P, strand: nat)
    | MarkFinal(p: P)
    | Sub(p: P, topic: Topic, id: nat)
    | Call(p: P, req: Topic, res: Topic, failure: FailureCallback)
    | StopPulse(p: P)
    | Reply(p: P, res: Topic)
    | Close(p: P)

  /** What callers keep to: roots choose modes, and only a pulse without one is attached. */
  ghost predicate Enabled<P>(f: Forest<P>, op: Op<P>) {
    match op
    case New(p) => p !in f
    case Configure(p, mode) => p in f && f[p].parent == None && mode in {Server, Client, Independent}
    case Attach(c, p) => CanAttach(f, c, p)
    case Reply(p, res) => p in f && Expected(f[p].ledger, res)
    case _ => op.p in f
  }

  ghost function Apply<P>(f: Forest<P>, op: Op<P>): Forest<P>
    requires Inv(f) && Enabled(f, op)
  {
    assert op.p in f ==> NodeOk(f, op.p);
    match op
    case New(p) => f[p := NewNode(p)]
    case Configure(p, mode) => f[p := f[p].(mode := mode, hasRunner := true)]
    case Attach(c, p) => AsChild(f, c, p)
    case WithSession(p, session) => f[p := f[p].(session := session)]
    case WithStrand(p, strand) => f[p := f[p].(strand := strand)]
    case MarkFinal(p) => f[p := f[p].(isFinal := true)]
    case Sub(p, t, id) => Subscribe(f, p, t, User(id))
    case Call(p, req, res, failure) => CallOp(f, p, req, res, failure)
    case StopPulse(p) => Stop(f, p)
    case Reply(p, res) => f[p := f[p].(ledger := Receive(f[p].ledger, res))]
    case Close(p) => f[p := f[p].(ledger := f[p].ledger.(calls := map[]))]
  }

  /** `g` is reached from `f` by the operations `ops`, each enabled when it happens. */
  ghost predicate Reaches<P>(f: Forest<P>, ops: seq<Op<P>>, g: Forest<P>)
    decreases |ops|
  {
    if ops == [] then g == f else
    Inv(f) && Enabled(f, ops[0]) && Reaches(Apply(f, ops[0]), ops[1..], g)
  }

  lemma SamePlace<P>(f: Forest<P>, g: Forest<P>, p: P)
    requires p in f && PlaceOk(f, p) && g.Keys == f.Keys
    requires forall q | q in f :: g[q].parent == f[q].parent && g[q].root == f[q].root && g[q].depth == f[q].depth
    requires g[p].mode == f[p].mode && g[p].hasRunner == f[p].hasRunner && g[p].children <= f[p].children
    ensures PlaceOk(g, p)
  {
  }

  lemma AttachKeepsKeys<P>(f: Forest<P>, c: P, p: P, q: P)
    requires CanAttach(f, c, p) && q in f && KeysOk(f[q])
    ensures KeysOk(Attached(f, c, p, q))
  {
    hide HasKey;
  }

  /** The tree after attaching `c` below `p`, pulse by pulse. */
  lemma AttachedAt<P>(f: Forest<P>, c: P, p: P, q: P)
    requires c in f && p in f && q in f
    ensures var f' := AsChild(f, c, p);
      && f'.Keys == f.Keys
      && f'[q].parent == (if q == c then Some(p) else f[q].parent)
      && f'[q].root == (if f[q].root == c then f[p].root else f[q].root)
      && f'[q].depth == f[q].depth + (if f[q].root == c then f[p].depth + 1 else 0)
      && f'[q].mode == (if q == c then Child else f[q].mode)
      && f'[q].hasRunner == f[q].hasRunner
      && f'[q].children == f[q].children + (if q == p && p != c && !f[p].isFinal then {c} else {})
      && f'[q].isFinal == f[q].isFinal && f'[q].stopped == f[q].stopped
  {
  }

  lemma AttachKeepsRoot<P>(f: Forest<P>, c: P, p: P, q: P)
    requires CanAttach(f, c, p) && PlaceOk(f, p) && q in f && PlaceOk(f, q)
    ensures var f' := AsChild(f, c, p); f'[q].root in f' && f'[f'[q].root].parent == None
  {
    AttachedAt(f, c, p, q);
    AttachedAt(f, c, p, f[p].root);
    AttachedAt(f, c, p, f[q].root);
    hide AsChild;
  }

  lemma AttachKeepsParent<P>(f: Forest<P>, c: P, p: P, q: P)
    requires CanAttach(f, c, p) && PlaceOk(f, c) && PlaceOk(f, p) && q in f && PlaceOk(f, q)
    ensures var f' := AsChild(f, c, p);
            var n := f'[q];
      && n.root in f'
      && (match n.parent
          case None => n.root == q && n.depth == 0 && n.mode != Child
          case Some(a) =>
            && a in f' && n.root == f'[a].root && n.root != q
            && n.depth == f'[a].depth + 1 && n.mode == Child)
      && (n.hasRunner <==> n.mode != NoMode && n.mode != Child)
  {
    AttachedAt(f, c, p, q);
    AttachedAt(f, c, p, p);
    AttachedAt(f, c, p, f[p].root);
    if f[q].parent.Some? {
      AttachedAt(f, c, p, f[q].parent.value);
    }
    hide AsChild;
  }

  lemma AttachKeepsPlace<P>(f: Forest<P>, c: P, p: P, q: P)
    requires CanAttach(f, c, p) && PlaceOk(f, c) && PlaceOk(f, p) && q in f && PlaceOk(f, q)
    ensures q in AsChild(f, c, p) && PlaceOk(AsChild(f, c, p), q)
  {
    var f' := AsChild(f, c, p);
    AttachKeepsRoot(f, c, p, q);
    AttachKeepsParent(f, c, p, q);
    assert forall d | d in f[q].children :: d in f && f[d].parent == Some(q);
    AttachedAt(f, c, p, q);
    forall d | d in f'[q].children ensures d in f' && f'[d].parent == Some(q) {
      hide AsChild, PlaceOk;
      assert d in f[q].children || (q == p && d == c);
      AttachedAt(f, c, p, d);
    }
    hide AsChild;
  }

  lemma AttachKeepsIndex<P>(f: Forest<P>, c: P, p: P, r: P, k: Key)
    requires CanAttach(f, c, p) && NodeOk(f, c) && r in f && r != c && f[r].parent == None && NodeOk(f, r)
    requires IndexOk(f, r, k)
    ensures r in AsChild(f, c, p) && IndexOk(AsChild(f, c, p), r, k)
  {
    hide HasKey;
    assert Listeners(AsChild(f, c, p), r, k) == Listeners(f, r, k);
  }

  lemma AttachKeepsInv<P>(f: Forest<P>, c: P, p: P)
    requires Inv(f) && CanAttach(f, c, p)
    ensures Inv(AsChild(f, c, p))
  {
    hide HasKey;
    assert NodeOk(f, c) && NodeOk(f, p);
    var f' := AsChild(f, c, p);
    assert f'.Keys == f.Keys && forall q | q in f && q != c :: f'[q].parent == f[q].parent;
    forall q {:trigger NodeOk(f', q)} | q in f' ensures NodeOk(f', q) {
      assert NodeOk(f, q);
      AttachKeepsPlace(f, c, p, q);
      AttachKeepsKeys(f, c, p, q);
    }
    forall r, k | r in f' && f'[r].parent == None ensures IndexOk(f', r, k) {
      AttachKeepsIndex(f, c, p, r, k);
    }
  }

  /** What a subscription of `p` does to each pulse. */
  lemma SubscribeAt<P>(f: Forest<P>, p: P, t: Topic, cb: Callback, q: P)
    requires p in f && f[p].root in f && q in f && (f[p].parent.Some? ==> f[p].root != p)
    ensures var f', k := Subscribe(f, p, t, cb), Key(f[p].session, t);
      && f'.Keys == f.Keys
      && f'[q] == f[q].(subs := f'[q].subs, kept := f'[q].kept, live := f'[q].live, missed := f'[q].missed,
                        interests := f'[q].interests)
      && (q != p ==> f'[q] == f[q].(interests := f'[q].interests))
      && (q == p ==>
          && f'[p].subs == f[p].subs[t := SubsOn(f[p].subs, t) + [Subscription(f[p].session, cb)]]
          && if f[p].parent == None then
               f'[p].kept == f[p].kept && f'[p].live == f[p].live && f'[p].missed == f[p].missed + {k}
             else f'[p].kept == f[p].kept + {k} && f'[p].live == f[p].live + {k} && f'[p].missed == f[p].missed - {k})
  {
    hide SubsOn, Interested;
  }

  /** ... and to the groups of the root. */
  lemma SubscribeShows<P>(f: Forest<P>, p: P, t: Topic, cb: Callback, r: P, k: Key)
    requires p in f && f[p].root in f && r in f && (f[p].parent.Some? ==> f[p].root != p)
    ensures r in Subscribe(f, p, t, cb)
    ensures Interested(Subscribe(f, p, t, cb)[r], k)
      == Interested(f[r], k) + if f[p].parent != None && r == f[p].root && k == Key(f[p].session, t) then {p} else {}
  {
    hide SubsOn;
  }

  lemma SubscribeKeepsKeys<P>(f: Forest<P>, p: P, t: Topic, cb: Callback, q: P)
    requires p in f && f[p].root in f && q in f && (f[p].parent.Some? ==> f[p].root != p) && KeysOk(f[q])
    ensures q in Subscribe(f, p, t, cb) && KeysOk(Subscribe(f, p, t, cb)[q])
  {
    var g := Subscribe(f, p, t, cb);
    SubscribeAt(f, p, t, cb, q);
    hide Subscribe, HasKey;
    if q == p {
      forall k ensures HasKey(g[p].subs, k) <==> k in g[p].kept || k in g[p].missed {
        HasKeyAfterSubscribe(f[p].subs, t, Subscription(f[p].session, cb), k);
      }
    }
  }

  lemma SubscribeKeepsPlace<P>(f: Forest<P>, p: P, t: Topic, cb: Callback, q: P)
    requires p in f && f[p].root in f && q in f && (f[p].parent.Some? ==> f[p].root != p) && PlaceOk(f, q)
    ensures q in Subscribe(f, p, t, cb) && PlaceOk(Subscribe(f, p, t, cb), q)
  {
    var g := Subscribe(f, p, t, cb);
    forall x | x in f
      ensures g.Keys == f.Keys && g[x].parent == f[x].parent && g[x].root == f[x].root && g[x].depth == f[x].depth
    {
      SubscribeAt(f, p, t, cb, x);
      hide Subscribe, PlaceOk;
    }
    SubscribeAt(f, p, t, cb, q);
    hide Subscribe, PlaceOk;
    SamePlace(f, g, q);
  }

  lemma SubscribeKeepsIndex<P>(f: Forest<P>, p: P, t: Topic, cb: Callback, r: P, k: Key)
    requires p in f && NodeOk(f, p) && r in f && f[r].parent == None && IndexOk(f, r, k)
    ensures r in Subscribe(f, p, t, cb) && IndexOk(Subscribe(f, p, t, cb), r, k)
  {
    RootApart(f, p);
    hide NodeOk, Interested;
    var g := Subscribe(f, p, t, cb);
    SubscribeShows(f, p, t, cb, r, k);
    var gained := if f[p].parent != None && r == f[p].root && k == Key(f[p].session, t) then {p} else {};
    forall c ensures c in Listeners(g, r, k) <==> c in Listeners(f, r, k) + gained {
      hide Subscribe;
      if c in f {
        SubscribeAt(f, p, t, cb, c);
      } else {
        SubscribeAt(f, p, t, cb, p);
      }
    }
    hide Subscribe;
    assert Listeners(g, r, k) == Listeners(f, r, k) + gained;
  }

  lemma RootApart<P>(f: Forest<P>, p: P)
    requires p in f && NodeOk(f, p)
    ensures f[p].root in f && (f[p].parent.Some? <==> f[p].root != p)
    ensures f[p].parent == None ==> f[p].live == {}
  {
  }

  lemma SubscribeKeepsInv<P>(f: Forest<P>, p: P, t: Topic, cb: Callback)
    requires Inv(f) && p in f
    ensures NodeOk(f, p) && Inv(Subscribe(f, p, t, cb))
  {
    assert NodeOk(f, p);
    RootApart(f, p);
    var g := Subscribe(f, p, t, cb);
    forall q {:trigger NodeOk(g, q)} | q in g ensures NodeOk(g, q) {
      SubscribeAt(f, p, t, cb, p);
      assert NodeOk(f, q);
      hide Subscribe, PlaceOk, KeysOk;
      SubscribeKeepsPlace(f, p, t, cb, q);
      SubscribeKeepsKeys(f, p, t, cb, q);
    }
    forall r, k | r in g && g[r].parent == None ensures IndexOk(g, r, k) {
      SubscribeAt(f, p, t, cb, p);
      SubscribeAt(f, p, t, cb, r);
      hide Subscribe, NodeOk;
      SubscribeKeepsIndex(f, p, t, cb, r, k);
    }
  }

  lemma HasKeyAfterSubscribe(subs: map<Topic, seq<Subscription>>, t: Topic, s: Subscription, k: Key)
    ensures HasKey(subs[t := SubsOn(subs, t) + [s]], k) <==> HasKey(subs, k) || k == Key(s.session, t)
  {
    var subs' := subs[t := SubsOn(subs, t) + [s]];
    var before, after := SubsOn(subs, k.topic), SubsOn(subs', k.topic);
    if HasKey(subs, k) {
      var i :| 0 <= i < |before| && before[i].session == k.session;
      assert after[i].session == k.session;
    }
    if k == Key(s.session, t) {
      assert after[|before|] == s;
    }
  }

  lemma UnbindAt<P>(f: Forest<P>, c: P, p: P, q: P)
    requires c in f && p in f && c != p && q in f
    ensures Unbind(f, c, p).Keys == f.Keys
    ensures Unbind(f, c, p)[q] ==
      if q == p then f[p].(children := f[p].children - {c},
                           interests := if f[p].parent == None then Withdraw(f[p].interests, f[c].kept, c)
                                        else f[p].interests)
      else if q == c && f[p].parent == None then f[c].(live := {})
      else f[q]
  {
  }

  /** What a stop of `c` does to each pulse. */
  lemma StopAt<P>(f: Forest<P>, c: P, q: P)
    requires c in f && q in f && (f[c].parent.Some? ==> f[c].parent.value in f && f[c].parent.value != c)
    ensures var f' := Stop(f, c);
      && f'.Keys == f.Keys
      && f'[q] == f[q].(children := f'[q].children, interests := f'[q].interests, stopped := f'[q].stopped,
                        live := f'[q].live)
      && f'[q].children == f[q].children - (if Leaves(f, c) && f[c].parent == Some(q) then {c} else {})
      && f'[q].stopped == (f[q].stopped || q == c)
      && f'[q].live == (if q == c && f[c].mode == Child && StopWithdraws(f, c) then {} else f[q].live)
  {
    hide Unbind, Withdraw;
    var g := f[c := f[c].(stopped := true)];
    if !f[c].stopped && f[c].children == {} && f[c].mode == Child && f[c].parent.Some? {
      UnbindAt(g, c, f[c].parent.value, q);
    }
  }

  lemma ParentOf<P>(f: Forest<P>, c: P)
    requires c in f && PlaceOk(f, c)
    ensures f[c].parent.Some? ==> f[c].mode == Child && f[c].parent.value in f && f[c].parent.value != c
  {
  }

  lemma StopKeepsNode<P>(f: Forest<P>, c: P, q: P)
    requires c in f && NodeOk(f, c) && q in f && NodeOk(f, q)
    ensures (f[c].parent.Some? ==> f[c].parent.value in f && f[c].parent.value != c) && NodeOk(Stop(f, c), q)
  {
    ParentOf(f, c);
    forall x | x in f
      ensures Stop(f, c)[x].parent == f[x].parent && Stop(f, c)[x].root == f[x].root
      ensures Stop(f, c)[x].depth == f[x].depth
    {
      StopAt(f, c, x);
    }
    StopAt(f, c, q);
    hide HasKey, Stop, PlaceOk, StopWithdraws;
    SamePlace(f, Stop(f, c), q);
  }

  lemma StopKeepsRest<P>(f: Forest<P>, c: P)
    requires c in f && NodeOk(f, c)
    ensures var f' := Stop(f, c);
      && f'.Keys == f.Keys
      && f'[c].live == (if StopWithdraws(f, c) then {} else f[c].live)
      && forall q | q in f ::
           && f'[q].parent == f[q].parent && f'[q].root == f[q].root
           && f'[q].subs == f[q].subs && f'[q].strand == f[q].strand
           && (q != c ==> f'[q].live == f[q].live)
  {
    ParentOf(f, c);
    forall q | q in f
      ensures var f' := Stop(f, c);
        && f'.Keys == f.Keys && q in f' && f'[q].parent == f[q].parent && f'[q].root == f[q].root
        && f'[q].subs == f[q].subs && f'[q].strand == f[q].strand
        && f'[q].live == if q == c && StopWithdraws(f, c) then {} else f[q].live
    {
      StopAt(f, c, q);
      hide Stop, NodeOk;
    }
    hide Stop, NodeOk, StopWithdraws;
  }

  lemma StopEffect<P>(f: Forest<P>, c: P, r: P, k: Key)
    requires c in f && NodeOk(f, c) && r in f && f[r].parent == None
    ensures var f' := Stop(f, c);
      var forgets := StopWithdraws(f, c) && f[c].parent == Some(r) && k in f[c].kept;
      && f'.Keys == f.Keys
      && Interested(f'[r], k) == Interested(f[r], k) - if forgets then {c} else {}
  {
    hide HasKey;
  }

  lemma StopKeepsIndex<P>(f: Forest<P>, c: P, r: P, k: Key)
    requires c in f && NodeOk(f, c) && (f[c].parent.Some? ==> NodeOk(f, f[c].parent.value))
    requires r in f && f[r].parent == None && IndexOk(f, r, k)
    ensures IndexOk(Stop(f, c), r, k)
  {
    hide HasKey, Stop;
    var f' := Stop(f, c);
    StopEffect(f, c, r, k);
    StopKeepsRest(f, c);
    if StopWithdraws(f, c) && f[c].parent == Some(r) {
      assert Listeners(f', r, k) == Listeners(f, r, k) - {c};
      assert k !in f[c].kept ==> c !in Listeners(f, r, k);
    } else {
      assert StopWithdraws(f, c) ==> c !in Listeners(f, r, k);
      assert Listeners(f', r, k) == Listeners(f, r, k);
    }
  }

  lemma StopKeepsInv<P>(f: Forest<P>, c: P)
    requires Inv(f) && c in f
    ensures NodeOk(f, c) && Inv(Stop(f, c))
  {
    hide HasKey;
    assert NodeOk(f, c) && (f[c].parent.Some? ==> NodeOk(f, f[c].parent.value));
    hide Stop, NodeOk;
    var f' := Stop(f, c);
    StopKeepsRest(f, c);
    forall q {:trigger NodeOk(f', q)} | q in f' ensures NodeOk(f', q) {
      StopKeepsNode(f, c, q);
    }
    forall r, k | r in f' && f'[r].parent == None ensures IndexOk(f', r, k) {
      StopKeepsIndex(f, c, r, k);
    }
  }

  lemma CallKeepsInv<P>(f: Forest<P>, p: P, req: Topic, res: Topic, failure: FailureCallback)
    requires Inv(f) && p in f
    ensures NodeOk(f, p) && Inv(CallOp(f, p, req, res, failure))
  {
    assert NodeOk(f, p);
    SubscribeKeepsInv(f, p, TOPIC_CLOSED, ClosedNotice);
    var f1 := CallSubscribe(f, p, TOPIC_CLOSED, ClosedNotice);
    assert NodeOk(f1, p);
    SubscribeKeepsInv(f1, p, res, ReplyTo(res));
    var f2 := CallSubscribe(f1, p, res, ReplyTo(res));
    OtherFieldsKeepInv(f2, p, f2[p].(ledger := Issue(f2[p].ledger, req, res, failure)));
  }

  /** Fields the tree and its index do not depend on. */
  lemma OtherFieldsKeepInv<P>(f: Forest<P>, p: P, n: Node<P>)
    requires Inv(f) && p in f
    requires n == f[p].(mode := n.mode, hasRunner := n.hasRunner, isFinal := n.isFinal,
                        session := n.session, strand := n.strand, ledger := n.ledger)
    requires n.hasRunner <==> n.mode != NoMode && n.mode != Child
    requires n.mode == f[p].mode || (f[p].parent == None && n.mode != Child)
    ensures Inv(f[p := n])
  {
    var f' := f[p := n];
    assert NodeOk(f, p);
    forall q | q in f' ensures NodeOk(f', q) {
      assert NodeOk(f, q);
    }
    forall r, k | r in f' && f'[r].parent == None ensures IndexOk(f', r, k) {
      assert IndexOk(f, r, k);
    }
  }

  lemma EmptyKeepsInv<P>()
    ensures Inv<P>(map[])
  {
  }

  lemma NewKeepsInv<P>(f: Forest<P>, p: P)
    requires Inv(f) && p !in f
    ensures Inv(f[p := NewNode(p)])
  {
    var f' := f[p := NewNode(p)];
    forall q | q in f' ensures NodeOk(f', q) {
      assert q in f ==> NodeOk(f, q);
    }
    forall r, k | r in f' && f'[r].parent == None ensures IndexOk(f', r, k) {
      if r == p {
        assert forall c | c in f :: NodeOk(f, c);
      } else {
        assert IndexOk(f, r, k);
      }
    }
  }

  lemma ApplyKeepsInv<P>(f: Forest<P>, op: Op<P>)
    requires Inv(f) && Enabled(f, op)
    ensures op.p in f ==> NodeOk(f, op.p)
    ensures Inv(Apply(f, op))
  {
    match op
    case New(p) => NewKeepsInv(f, p);
    case Attach(c, p) => AttachKeepsInv(f, c, p);
    case Sub(p, t, id) => SubscribeKeepsInv(f, p, t, User(id));
    case Call(p, req, res, failure) => CallKeepsInv(f, p, req, res, failure);
    case StopPulse(p) => StopKeepsInv(f, p);
    case _ =>
      assert NodeOk(f, op.p);
      OtherFieldsKeepInv(f, op.p, Apply(f, op)[op.p]);
  }
}
