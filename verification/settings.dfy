/** What a pulse is created with, and what with_session and with_strand set until they are called again. */
module Settings {
  import opened CallLedger
  import opened Options
  import opened PulseForest
  import opened Lifecycle
  import opened Children

  /** A new pulse can stop, takes a child, and subscribes for no session. */
  lemma NewPulseIsFree<P>(f: Forest<P>, p: P, c: P, t: Topic, cb: Callback)
    requires Inv(f) && p !in f && c in f && f[c].mode == NoMode && f[c].parent == None
    ensures var g := f[p := NewNode(p)];
      && !StopRefused(g, p) && CanAttach(g, c, p)
      && AsChild(g, c, p)[p].children == {c}
      && p in Subscribe(g, p, t, cb)
      && Subscribe(g, p, t, cb)[p].subs == map[t := [Subscription(NO_SESSION, cb)]]
      && forall se, fr, fromRoot ::
           forall x | x in OwnPosts(Subscribe(g, p, t, cb), p, se, t, fr, fromRoot) :: x.strand == 0
  {
    var g := f[p := NewNode(p)];
    AttachLists(g, c, p);
    SubscribeAt(g, p, t, cb, p);
    hide AsChild, Subscribe;
    assert [] + [Subscription(NO_SESSION, cb)] == [Subscription(NO_SESSION, cb)];
    var h := Subscribe(g, p, t, cb);
    forall se, fr, fromRoot ensures forall x | x in OwnPosts(h, p, se, t, fr, fromRoot) :: x.strand == 0 {
      PostsCarryStrand(p, 0, SubsOn(h[p].subs, t), se, fr, fromRoot);
    }
  }

  lemma {:induction false} PostsCarryStrand<P>(p: P, strand: nat, subs: seq<Subscription>, se: SessionKey, fr: Frame,
                                               fromRoot: bool)
    ensures forall x | x in Posts(p, strand, subs, se, fr, fromRoot) :: x.strand == strand && x.owner == p
  {
    if subs != [] {
      PostsCarryStrand(p, strand, subs[..|subs| - 1], se, fr, fromRoot);
    }
  }

  /** A new pulse attached below another one that is not final is listed there, and leaves with its first stop. */
  lemma NewPulseComesAndGoes<P>(f: Forest<P>, p: P, q: P)
    requires Inv(f) && p !in f && q in f && f[q].root != p && !f[q].isFinal
    ensures var g := f[p := NewNode(p)];
      && CanAttach(g, p, q)
      && var h := AsChild(g, p, q);
         && Listed(h, p, q) && h[p].parent == Some(q)
         && Stop(h, p).Keys == h.Keys && Stop(h, p)[q].children == f[q].children - {p}
  {
    var g := f[p := NewNode(p)];
    NewKeepsInv(f, p);
    AttachLists(g, p, q);
    AttachKeepsInv(g, p, q);
    AttachedAt(g, p, q, p);
    hide AsChild, Inv, Stop;
    var h := AsChild(g, p, q);
    StopUnlists(h, p, q);
    assert f[q].children + {p} - {p} == f[q].children - {p};
  }

  // ---- settings hold ------------------------------------------------------------------------------

  /** No operation but the setter itself changes session or strand. */
  lemma OpKeepsSettings<P>(f: Forest<P>, op: Op<P>, p: P)
    requires Inv(f) && Enabled(f, op) && p in f
    ensures var g := Apply(f, op);
      && p in g
      && g[p].session == (if op.WithSession? && op.p == p then op.session else f[p].session)
      && g[p].strand == (if op.WithStrand? && op.p == p then op.strand else f[p].strand)
  {
    assert op.p in f ==> NodeOk(f, op.p);
    hide Inv;
    match op
    case Attach(c, q) =>
      hide NodeOk;
    case StopPulse(q) =>
      ParentOf(f, q);
      StopAt(f, q, p);
      hide Stop, NodeOk;
    case Sub(q, t, id) =>
      SubscribeKeepsRest(f, q, t, User(id), p);
      hide Subscribe, NodeOk;
    case Call(q, req, res, failure) =>
      CallKeepsRest(f, q, req, res, failure, p);
      hide CallOp, NodeOk;
    case _ =>
      hide NodeOk;
  }

  lemma {:induction false} RunKeepsSettings<P>(f: Forest<P>, ops: seq<Op<P>>, g: Forest<P>, p: P)
    requires Inv(f) && p in f && Reaches(f, ops, g)
    ensures p in g
    ensures (forall op | op in ops :: !(op.WithSession? && op.p == p)) ==> g[p].session == f[p].session
    ensures (forall op | op in ops :: !(op.WithStrand? && op.p == p)) ==> g[p].strand == f[p].strand
    decreases |ops|
  {
    if ops != [] {
      assert ops[0] in ops && forall op | op in ops[1..] :: op in ops;
      ApplyKeepsInv(f, ops[0]);
      OpKeepsSettings(f, ops[0], p);
      hide Inv, Apply, Enabled;
      RunKeepsSettings(Apply(f, ops[0]), ops[1..], g, p);
    }
  }

  /**
   * Between one with_session and the next, whatever else happens, everything a pulse subscribes is for that
   * session, and is told to the root as such.
   */
  lemma SubscribesForItsSession<P>(f: Forest<P>, p: P, k: SessionKey, ops: seq<Op<P>>, g: Forest<P>, t: Topic,
                                   cb: Callback)
    requires Inv(f) && p in f && Reaches(f, [WithSession(p, k)] + ops, g)
    requires forall op | op in ops :: !(op.WithSession? && op.p == p)
    ensures p in g && NodeOk(g, p)
    ensures var h := Subscribe(g, p, t, cb);
      && p in h && h[p].subs == g[p].subs[t := SubsOn(g[p].subs, t) + [Subscription(k, cb)]]
      && (g[p].parent.Some? ==> h[p].root in h && p in Interested(h[h[p].root], Key(k, t)))
  {
    var run := [WithSession(p, k)] + ops;
    assert run[1..] == ops;
    ApplyKeepsInv(f, run[0]);
    OpKeepsSettings(f, run[0], p);
    hide Apply;
    RunKeepsSettings(Apply(f, run[0]), ops, g, p);
    RunKeepsInv(f, run, g);
    assert NodeOk(g, p);
    RootApart(g, p);
    SubscribeAt(g, p, t, cb, p);
    SubscribeShows(g, p, t, cb, g[p].root, Key(k, t));
    hide Subscribe, Inv, NodeOk;
  }

  /** Between one with_strand and the next every callback the pulse posts goes to that strand. */
  lemma PostsToItsStrand<P>(f: Forest<P>, p: P, k: nat, ops: seq<Op<P>>, g: Forest<P>,
                            se: SessionKey, t: Topic, fr: Frame, fromRoot: bool)
    requires Inv(f) && p in f && Reaches(f, [WithStrand(p, k)] + ops, g)
    requires forall op | op in ops :: !(op.WithStrand? && op.p == p)
    ensures p in g
    ensures forall x | x in OwnPosts(g, p, se, t, fr, fromRoot) :: x.strand == k && x.owner == p
  {
    var run := [WithStrand(p, k)] + ops;
    assert run[1..] == ops;
    ApplyKeepsInv(f, run[0]);
    OpKeepsSettings(f, run[0], p);
    hide Apply;
    RunKeepsSettings(Apply(f, run[0]), ops, g, p);
    PostsCarryStrand(p, k, SubsOn(g[p].subs, t), se, fr, fromRoot);
  }

  lemma OpKeepsMode<P>(f: Forest<P>, op: Op<P>, p: P)
    requires Inv(f) && Enabled(f, op) && p in f && f[p].mode != NoMode
    ensures var g := Apply(f, op);
      && p in g && g[p].parent == f[p].parent
      && g[p].mode == (if op.Configure? && op.p == p then op.mode else f[p].mode)
  {
    assert op.p in f ==> NodeOk(f, op.p);
    hide Inv;
    match op
    case Attach(c, q) =>
      AttachedAt(f, c, q, p);
      hide AsChild, NodeOk;
    case StopPulse(q) =>
      ParentOf(f, q);
      StopAt(f, q, p);
      hide Stop, NodeOk;
    case Sub(q, t, id) =>
      SubscribeKeepsRest(f, q, t, User(id), p);
      hide Subscribe, NodeOk;
    case Call(q, req, res, failure) =>
      CallKeepsRest(f, q, req, res, failure, p);
      hide CallOp, NodeOk;
    case _ =>
      hide NodeOk;
  }

  /** A pulse configured as server, client or independent stays the root of its tree, with a runner, in that mode. */
  lemma {:induction false} ConfiguredStays<P>(f: Forest<P>, p: P, mode: Mode, ops: seq<Op<P>>, g: Forest<P>)
    requires Inv(f) && p in f && Reaches(f, [Configure(p, mode)] + ops, g)
    requires forall op | op in ops :: !(op.Configure? && op.p == p)
    ensures p in g && g[p].mode == mode && g[p].parent == None && g[p].root == p && g[p].hasRunner
  {
    var run := [Configure(p, mode)] + ops;
    assert run[1..] == ops;
    ApplyKeepsInv(f, run[0]);
    assert Apply(f, run[0])[p].mode == mode && Apply(f, run[0])[p].parent == None;
    RunKeepsInv(f, run, g);
    hide Apply;
    RunKeepsMode(Apply(f, run[0]), ops, g, p);
    assert NodeOk(g, p);
  }

  lemma {:induction false} RunKeepsMode<P>(f: Forest<P>, ops: seq<Op<P>>, g: Forest<P>, p: P)
    requires Inv(f) && p in f && f[p].mode != NoMode && Reaches(f, ops, g)
    requires forall op | op in ops :: !(op.Configure? && op.p == p)
    ensures p in g && g[p].mode == f[p].mode && g[p].parent == f[p].parent
    decreases |ops|
  {
    if ops != [] {
      assert ops[0] in ops && forall op | op in ops[1..] :: op in ops;
      ApplyKeepsInv(f, ops[0]);
      OpKeepsMode(f, ops[0], p);
      hide Inv, Apply, Enabled;
      RunKeepsMode(Apply(f, ops[0]), ops[1..], g, p);
    }
  }
}
