/** Stopping pulses, and what `call` can rely on, over whole runs of operations. */
module Lifecycle {
  import opened CallLedger
  import opened Options
  import opened PulseForest
  import opened Broadcast

  // ---- runs -------------------------------------------------------------------------------------

  lemma {:induction false} RunKeepsInv<P>(f: Forest<P>, ops: seq<Op<P>>, g: Forest<P>)
    requires Inv(f) && Reaches(f, ops, g)
    ensures Inv(g)
    decreases |ops|
  {
    if ops != [] {
      ApplyKeepsInv(f, ops[0]);
      RunKeepsInv(Apply(f, ops[0]), ops[1..], g);
    }
  }

  // ---- stop -------------------------------------------------------------------------------------

  /** No frame published at the root makes `c` post anything. */
  ghost predicate Silent<P>(f: Forest<P>, r: P, c: P)
    requires r in f
  {
    forall se, t, fr :: PulsePosts(f, r, c, se, t, fr) == []
  }

  lemma {:induction false} MatchingSubPosts<P>(p: P, strand: nat, subs: seq<Subscription>, i: nat, fr: Frame)
    requires i < |subs|
    ensures Posts(p, strand, subs, subs[i].session, fr, true) != []
  {
    if i < |subs| - 1 {
      MatchingSubPosts(p, strand, subs[..|subs| - 1], i, fr);
    }
  }

  lemma SilentIffNothingLive<P>(f: Forest<P>, c: P)
    requires Inv(f) && c in f && f[c].parent != None
    ensures NodeOk(f, c) && (Silent(f, f[c].root, c) <==> f[c].live == {})
  {
    assert NodeOk(f, c);
    if k :| k in f[c].live {
      var subs := SubsOn(f[c].subs, k.topic);
      assert HasKey(f[c].subs, k);
      var i :| 0 <= i < |subs| && subs[i].session == k.session;
      MatchingSubPosts(c, f[c].strand, subs, i, 0);
      assert PulsePosts(f, f[c].root, c, k.session, k.topic, 0) != [];
    }
  }

  /**
   * `stop` silences a pulse, and makes its root drop every pointer to it, exactly when the pulse had
   * nothing live anyway or is a childless direct child of the root on its first stop. A nested pulse
   * that subscribed stays in the root's index.
   */
  lemma StopSilencesIff<P>(f: Forest<P>, c: P)
    requires Inv(f) && c in f && f[c].parent != None
    ensures NodeOk(f, c)
    ensures var f', r := Stop(f, c), f[c].root;
            var effective := f[c].live == {} || StopWithdraws(f, c);
      && r in f'
      && (Silent(f', r, c) <==> effective)
      && ((forall k :: c !in Interested(f'[r], k)) <==> effective)
  {
    assert NodeOk(f, c);
    var f', r := Stop(f, c), f[c].root;
    StopKeepsInv(f, c);
    StopKeepsRest(f, c);
    SilentIffNothingLive(f', c);
    hide Silent, Stop, Inv;
    forall k ensures c in Interested(f'[r], k) <==> k in f'[c].live {
      InterestedIff(f', r, k, c);
    }
    assert f'[c].live == {} <==> forall k :: k !in f'[c].live;
  }

  /** Every other pulse gets what it got before, to the last callback. */
  lemma StopLeavesOthers<P>(f: Forest<P>, c: P, r: P, p: P, se: SessionKey, t: Topic, fr: Frame)
    requires Inv(f) && c in f && r in f && p != c
    ensures NodeOk(f, c) && PulsePosts(Stop(f, c), r, p, se, t, fr) == PulsePosts(f, r, p, se, t, fr)
  {
    assert NodeOk(f, c);
    StopKeepsRest(f, c);
    hide Stop, NodeOk, Inv, Posts;
  }

  ghost predicate Subscribes<P>(op: Op<P>, c: P) {
    (op.Sub? || op.Call?) && op.p == c
  }

  lemma StepKeepsSilence<P>(f: Forest<P>, op: Op<P>, c: P)
    requires Inv(f) && Enabled(f, op) && c in f && f[c].parent != None && f[c].live == {} && !Subscribes(op, c)
    ensures var g := Apply(f, op); c in g && g[c].parent == f[c].parent && g[c].live == {}
  {
    assert NodeOk(f, c) && (op.p in f ==> NodeOk(f, op.p));
    hide Inv;
    match op
    case Attach(d, p) =>
      AttachedAt(f, d, p, c);
    case Sub(p, t, id) =>
      RootApart(f, p);
      SubscribeAt(f, p, t, User(id), c);
      hide Subscribe, NodeOk;
    case StopPulse(p) =>
      StopKeepsRest(f, p);
      hide Stop, NodeOk;
    case Call(p, req, res, failure) =>
      CallKeepsOthers(f, p, req, res, failure, c);
      hide CallOp, NodeOk;
    case _ =>
      hide NodeOk;
  }

  lemma CallSubscribeChanges<P>(f: Forest<P>, p: P, t: Topic, cb: Callback)
    requires Inv(f) && p in f
    ensures NodeOk(f, p)
    ensures var g := CallSubscribe(f, p, t, cb);
      && Inv(g) && g.Keys == f.Keys
      && g[p] == f[p].(subs := g[p].subs, kept := g[p].kept, live := g[p].live, missed := g[p].missed,
                       interests := g[p].interests)
      && forall c | c in f && c != p :: g[c] == f[c].(interests := g[c].interests)
  {
    SubscribeKeepsInv(f, p, t, cb);
    hide Inv, IndexOk;
  }

  /**
   * Subscribing and calling leave everything of every pulse but the subscriptions, what is told of them, and
   * the ledger.
   */
  ghost predicate SameRest<P>(n: Node<P>, m: Node<P>) {
    m == n.(subs := m.subs, kept := m.kept, live := m.live, missed := m.missed, interests := m.interests,
            ledger := m.ledger)
  }

  lemma SubscribeKeepsRest<P>(f: Forest<P>, q: P, t: Topic, cb: Callback, p: P)
    requires Inv(f) && q in f && p in f
    ensures NodeOk(f, q)
    ensures p in Subscribe(f, q, t, cb) && SameRest(f[p], Subscribe(f, q, t, cb)[p])
  {
    assert NodeOk(f, q);
    RootApart(f, q);
    SubscribeAt(f, q, t, cb, p);
    hide Subscribe, NodeOk, Inv;
  }

  lemma CallKeepsRest<P>(f: Forest<P>, q: P, req: Topic, res: Topic, failure: FailureCallback, p: P)
    requires Inv(f) && q in f && p in f
    ensures NodeOk(f, q)
    ensures p in CallOp(f, q, req, res, failure) && SameRest(f[p], CallOp(f, q, req, res, failure)[p])
  {
    CallSubscribeChanges(f, q, TOPIC_CLOSED, ClosedNotice);
    CallSubscribeChanges(CallSubscribe(f, q, TOPIC_CLOSED, ClosedNotice), q, res, ReplyTo(res));
    hide CallSubscribe, Inv, NodeOk;
  }

  lemma CallKeepsOthers<P>(f: Forest<P>, p: P, req: Topic, res: Topic, failure: FailureCallback, c: P)
    requires Inv(f) && p in f && c in f && c != p
    ensures NodeOk(f, p)
    ensures var g := CallOp(f, p, req, res, failure);
      c in g && g[c].parent == f[c].parent && g[c].root == f[c].root && g[c].live == f[c].live
  {
    CallSubscribeChanges(f, p, TOPIC_CLOSED, ClosedNotice);
    var f1 := CallSubscribe(f, p, TOPIC_CLOSED, ClosedNotice);
    CallSubscribeChanges(f1, p, res, ReplyTo(res));
    hide CallSubscribe, Inv, NodeOk;
  }

  /** A silent pulse stays silent through any run in which it does not subscribe again. */
  lemma {:induction false} SilentForever<P>(f: Forest<P>, ops: seq<Op<P>>, g: Forest<P>, c: P)
    requires Inv(f) && Reaches(f, ops, g) && c in f && f[c].parent != None && f[c].live == {}
    requires forall op | op in ops :: !Subscribes(op, c)
    ensures c in g && g[c].root in g && Silent(g, g[c].root, c)
    decreases |ops|
  {
    if ops == [] {
      SilentIffNothingLive(f, c);
    } else {
      assert ops[0] in ops;
      ApplyKeepsInv(f, ops[0]);
      StepKeepsSilence(f, ops[0], c);
      SilentForever(Apply(f, ops[0]), ops[1..], g, c);
    }
  }

  /** Attaching a pulse silences it and all below it: their new root is not told what they subscribed before. */
  lemma AttachSilences<P>(f: Forest<P>, c: P, p: P, q: P)
    requires Inv(f) && CanAttach(f, c, p) && q in f && f[q].root == c
    ensures var g := AsChild(f, c, p); g[q].root == f[p].root && f[p].root in g && Silent(g, f[p].root, q)
  {
    AttachKeepsInv(f, c, p);
    assert NodeOk(f, q) && NodeOk(f, c) && NodeOk(f, p);
    AttachedAt(f, c, p, q);
    var g := AsChild(f, c, p);
    assert g[q].live == {};
    SilentIffNothingLive(g, q);
    assert NodeOk(g, q);
  }

  /**
   * The root's index lists a pulse that was never stopped under the keys it subscribed, but for those it
   * subscribed only before it came under that root.
   */
  lemma IndexedIffSubscribed<P>(f: Forest<P>, p: P, k: Key)
    requires Inv(f) && p in f && f[p].parent != None && !f[p].stopped
    ensures f[p].root in f && (p in Interested(f[f[p].root], k) <==> HasKey(f[p].subs, k) && k !in f[p].missed)
  {
    assert NodeOk(f, p);
    InterestedIff(f, f[p].root, k, p);
  }

  /** A pulse that was never stopped hears through every subscription it made under its root. */
  lemma NeverStoppedHearsAll<P>(f: Forest<P>, p: P, s: Subscription, se: SessionKey, t: Topic)
    requires Inv(f) && p in f && f[p].parent != None && !f[p].stopped && s in SubsOn(f[p].subs, t)
    ensures Hears(f, f[p].root, p, s, se, t)
      <==> (s.session == NO_SESSION || s.session == se) && Key(s.session, t) !in f[p].missed
  {
    assert NodeOk(f, p);
    var i :| 0 <= i < |SubsOn(f[p].subs, t)| && SubsOn(f[p].subs, t)[i] == s;
    assert HasKey(f[p].subs, Key(s.session, t));
  }

  // ---- what a call can rely on ------------------------------------------------------------------

  /** How many subscriptions in `subs` bound to session `k` run `cb`. */
  function HandlersAt(subs: seq<Subscription>, cb: Callback, k: SessionKey): nat {
    if subs == [] then 0 else
    var last := subs[|subs| - 1];
    HandlersAt(subs[..|subs| - 1], cb, k) + if last.cb == cb && last.session == k then 1 else 0
  }

  function Handlers(subs: seq<Subscription>, cb: Callback): nat {
    if subs == [] then 0 else
    Handlers(subs[..|subs| - 1], cb) + if subs[|subs| - 1].cb == cb then 1 else 0
  }

  function Runs<P>(ts: seq<Task<P>>, cb: Callback): nat {
    if ts == [] then 0 else
    var last := ts[|ts| - 1];
    Runs(ts[..|ts| - 1], cb) + if last.Deliver? && last.cb == cb then 1 else 0
  }

  lemma {:induction false} RunsConcat<P>(a: seq<Task<P>>, b: seq<Task<P>>, cb: Callback)
    ensures Runs(a + b, cb) == Runs(a, cb) + Runs(b, cb)
  {
    if b == [] {
      assert a + b == a;
    } else {
      assert (a + b)[..|a + b| - 1] == a + b[..|b| - 1];
      RunsConcat(a, b[..|b| - 1], cb);
    }
  }

  lemma RunsOfOne<P>(x: Task<P>, cb: Callback)
    ensures Runs([x], cb) == if x.Deliver? && x.cb == cb then 1 else 0
    ensures Runs<P>([], cb) == 0
  {
    assert [x][..0] == [];
  }

  lemma {:induction false} PostsRunHandlers<P>(p: P, strand: nat, subs: seq<Subscription>, k: SessionKey, fr: Frame,
                                               cb: Callback)
    ensures Runs(Posts(p, strand, subs, k, fr, true), cb) == HandlersAt(subs, cb, k)
  {
    if subs != [] {
      var init, last := subs[..|subs| - 1], subs[|subs| - 1];
      PostsRunHandlers(p, strand, init, k, fr, cb);
      var tail := if last.session == k then [Deliver(p, strand, last.cb, k, fr)] else [];
      assert Posts(p, strand, subs, k, fr, true) == Posts(p, strand, init, k, fr, true) + tail;
      RunsOfOne(Deliver(p, strand, last.cb, k, fr), cb);
      hide Posts, Runs;
      RunsConcat(Posts(p, strand, init, k, fr, true), tail, cb);
    }
  }

  /** How many of the subscriptions that run `cb` for session `k` the root knows of. */
  ghost function HeardAt<P>(n: Node<P>, t: Topic, cb: Callback, k: SessionKey): nat {
    if Key(k, t) in n.live then HandlersAt(SubsOn(n.subs, t), cb, k) else 0
  }

  ghost function Heard<P>(n: Node<P>, t: Topic, cb: Callback, se: SessionKey): nat {
    HeardAt(n, t, cb, NO_SESSION) + if se == NO_SESSION then 0 else HeardAt(n, t, cb, se)
  }

  /** How many subscriptions run `cb` for any session or for `se`. */
  function Matching(subs: seq<Subscription>, cb: Callback, se: SessionKey): nat {
    HandlersAt(subs, cb, NO_SESSION) + if se == NO_SESSION then 0 else HandlersAt(subs, cb, se)
  }

  lemma SharesOf<P>(f: Forest<P>, p: P, se: SessionKey, t: Topic, fr: Frame)
    requires p in f && f[p].root in f && f[p].root != p
    ensures var blind := if Key(NO_SESSION, t) in f[p].live then OwnPosts(f, p, NO_SESSION, t, fr, true) else [];
            var bound := if se != NO_SESSION && Key(se, t) in f[p].live then OwnPosts(f, p, se, t, fr, true) else [];
      PulsePosts(f, f[p].root, p, se, t, fr) == blind + bound
  {
    hide OwnPosts;
  }

  lemma ShareRuns<P>(f: Forest<P>, p: P, se: SessionKey, t: Topic, fr: Frame, cb: Callback)
    requires p in f
    ensures Runs<P>([], cb) == 0
    ensures HeardAt(f[p], t, cb, se) == if Key(se, t) in f[p].live then Runs(OwnPosts(f, p, se, t, fr, true), cb) else 0
  {
    PostsRunHandlers(p, f[p].strand, SubsOn(f[p].subs, t), se, fr, cb);
    hide Posts, HandlersAt;
  }

  /** How often a frame published for session `se` runs `cb` on behalf of `p`, stopped or not. */
  lemma PulseRuns<P>(f: Forest<P>, p: P, se: SessionKey, t: Topic, fr: Frame, cb: Callback)
    requires Inv(f) && p in f && f[p].parent != None
    ensures NodeOk(f, p) && Runs(PulsePosts(f, f[p].root, p, se, t, fr), cb) == Heard(f[p], t, cb, se)
  {
    assert NodeOk(f, p);
    RootApart(f, p);
    SharesOf(f, p, se, t, fr);
    ShareRuns(f, p, NO_SESSION, t, fr, cb);
    ShareRuns(f, p, se, t, fr, cb);
    hide Inv, NodeOk, PulsePosts, OwnPosts, Runs, HeardAt;
    var blind := if Key(NO_SESSION, t) in f[p].live then OwnPosts(f, p, NO_SESSION, t, fr, true) else [];
    var bound := if se != NO_SESSION && Key(se, t) in f[p].live then OwnPosts(f, p, se, t, fr, true) else [];
    RunsConcat(blind, bound, cb);
  }

  /** How often `ts` runs `cb` and hands it the session `k`. */
  function RunsFor<P>(ts: seq<Task<P>>, cb: Callback, k: SessionKey): nat {
    if ts == [] then 0 else
    var last := ts[|ts| - 1];
    RunsFor(ts[..|ts| - 1], cb, k) + if last.Deliver? && last.cb == cb && last.session == k then 1 else 0
  }

  lemma {:induction false} RunsForConcat<P>(a: seq<Task<P>>, b: seq<Task<P>>, cb: Callback, k: SessionKey)
    ensures RunsFor(a + b, cb, k) == RunsFor(a, cb, k) + RunsFor(b, cb, k)
  {
    if b == [] {
      assert a + b == a;
    } else {
      assert (a + b)[..|a + b| - 1] == a + b[..|b| - 1];
      RunsForConcat(a, b[..|b| - 1], cb, k);
    }
  }

  lemma {:induction false} RunsForOneSession<P>(ts: seq<Task<P>>, cb: Callback, k: SessionKey, se: SessionKey)
    requires forall x | x in ts :: x.Deliver? && x.session == se
    ensures RunsFor(ts, cb, k) == if k == se then Runs(ts, cb) else 0
  {
    if ts != [] {
      RunsForOneSession(ts[..|ts| - 1], cb, k, se);
      assert ts[|ts| - 1] in ts;
    }
  }

  lemma {:induction false} PostsDeliver<P>(p: P, strand: nat, subs: seq<Subscription>, se: SessionKey, fr: Frame,
                                           fromRoot: bool)
    ensures forall x | x in Posts(p, strand, subs, se, fr, fromRoot) :: x.Deliver? && x.owner == p && x.session == se
  {
    if subs != [] {
      PostsDeliver(p, strand, subs[..|subs| - 1], se, fr, fromRoot);
    }
  }

  /** A descendant's callback is handed no session if it subscribed for none, and else the frame's. */
  lemma PulseRunsFor<P>(f: Forest<P>, p: P, se: SessionKey, t: Topic, fr: Frame, cb: Callback, k: SessionKey)
    requires Inv(f) && p in f && f[p].parent != None
    ensures NodeOk(f, p)
    ensures RunsFor(PulsePosts(f, f[p].root, p, se, t, fr), cb, k)
         == if k == NO_SESSION || k == se then HeardAt(f[p], t, cb, k) else 0
  {
    assert NodeOk(f, p);
    RootApart(f, p);
    SharesOf(f, p, se, t, fr);
    ShareRunsFor(f, p, NO_SESSION, t, fr, cb, k);
    ShareRunsFor(f, p, se, t, fr, cb, k);
    hide Inv, NodeOk, PulsePosts, OwnPosts, RunsFor, HeardAt;
    var blind := if Key(NO_SESSION, t) in f[p].live then OwnPosts(f, p, NO_SESSION, t, fr, true) else [];
    var bound := if se != NO_SESSION && Key(se, t) in f[p].live then OwnPosts(f, p, se, t, fr, true) else [];
    RunsForConcat(blind, bound, cb, k);
  }

  lemma ShareRunsFor<P>(f: Forest<P>, p: P, se: SessionKey, t: Topic, fr: Frame, cb: Callback, k: SessionKey)
    requires p in f
    ensures RunsFor<P>([], cb, k) == 0
    ensures Key(se, t) in f[p].live ==>
      RunsFor(OwnPosts(f, p, se, t, fr, true), cb, k) == if k == se then HeardAt(f[p], t, cb, se) else 0
    ensures Key(se, t) !in f[p].live ==> HeardAt(f[p], t, cb, se) == 0
  {
    PostsDeliver(p, f[p].strand, SubsOn(f[p].subs, t), se, fr, true);
    PostsRunHandlers(p, f[p].strand, SubsOn(f[p].subs, t), se, fr, cb);
    RunsForOneSession(OwnPosts(f, p, se, t, fr, true), cb, k, se);
    hide Posts, HandlersAt;
  }

  /** Of a pulse never stopped the root knows every subscription made under it. */
  lemma HeardIsMatching<P>(f: Forest<P>, p: P, t: Topic, cb: Callback, se: SessionKey)
    requires Inv(f) && p in f && f[p].parent != None && !f[p].stopped && f[p].missed == {}
    ensures Heard(f[p], t, cb, se) == Matching(SubsOn(f[p].subs, t), cb, se)
  {
    assert NodeOk(f, p);
    NotLiveNoHandlers(f[p], NO_SESSION, t, cb);
    NotLiveNoHandlers(f[p], se, t, cb);
  }

  lemma NotLiveNoHandlers<P>(n: Node<P>, k: SessionKey, t: Topic, cb: Callback)
    requires KeysOk(n) && !n.stopped && n.missed == {}
    ensures Key(k, t) in n.live || HandlersAt(SubsOn(n.subs, t), cb, k) == 0
  {
    if Key(k, t) !in n.live {
      assert !HasKey(n.subs, Key(k, t));
      NoKeyNoHandlers(SubsOn(n.subs, t), cb, k);
    }
  }

  lemma {:induction false} NoKeyNoHandlers(subs: seq<Subscription>, cb: Callback, k: SessionKey)
    requires forall i | 0 <= i < |subs| :: subs[i].session != k
    ensures HandlersAt(subs, cb, k) == 0
  {
    if subs != [] {
      NoKeyNoHandlers(subs[..|subs| - 1], cb, k);
    }
  }

  lemma {:induction false} HandlersBound(subs: seq<Subscription>, cb: Callback, k: SessionKey)
    requires k != NO_SESSION
    ensures HandlersAt(subs, cb, NO_SESSION) + HandlersAt(subs, cb, k) <= Handlers(subs, cb)
  {
    if subs != [] {
      HandlersBound(subs[..|subs| - 1], cb, k);
    }
  }

  lemma {:induction false} HandlersAtBound(subs: seq<Subscription>, cb: Callback, k: SessionKey)
    ensures HandlersAt(subs, cb, k) <= Handlers(subs, cb)
  {
    if subs != [] {
      HandlersAtBound(subs[..|subs| - 1], cb, k);
    }
  }

  lemma HandlersSnoc(subs: seq<Subscription>, s: Subscription, cb: Callback)
    ensures Handlers(subs + [s], cb) == Handlers(subs, cb) + if s.cb == cb then 1 else 0
    ensures HandlersAt(subs + [s], cb, s.session) == HandlersAt(subs, cb, s.session) + if s.cb == cb then 1 else 0
  {
    assert (subs + [s])[..|subs|] == subs;
  }

  /** `call` installs each of its handlers once: on a topic nobody here had subscribed. */
  ghost predicate InstalledOnce<P>(f: Forest<P>, p: P, t: Topic, cb: Callback)
    requires p in f
  {
    Handlers(SubsOn(f[p].subs, t), cb) <= 1
  }

  lemma SubscribeInstalls<P>(f: Forest<P>, q: P, u: Topic, handler: Callback, p: P, t: Topic, cb: Callback)
    requires Inv(f) && q in f && f[q].root in f && p in f && InstalledOnce(f, p, t, cb)
    requires handler != cb || u !in f[q].subs
    ensures InstalledOnce(Subscribe(f, q, u, handler), p, t, cb)
  {
    assert NodeOk(f, q);
    HandlersSnoc(SubsOn(f[q].subs, u), Subscription(f[q].session, handler), cb);
  }

  lemma CallSubscribeInstalls<P>(f: Forest<P>, q: P, u: Topic, handler: Callback, p: P, t: Topic, cb: Callback)
    requires Inv(f) && q in f && p in f && InstalledOnce(f, p, t, cb)
    ensures NodeOk(f, q)
    ensures var g := CallSubscribe(f, q, u, handler); Inv(g) && p in g && q in g && InstalledOnce(g, p, t, cb)
  {
    SubscribeKeepsInv(f, q, u, handler);
    RootApart(f, q);
    hide Inv, NodeOk;
    SubscribeAt(f, q, u, handler, p);
    SubscribeAt(f, q, u, handler, q);
    if u !in f[q].subs {
      SubscribeInstalls(f, q, u, handler, p, t, cb);
    }
  }

  lemma StepInstallsOnce<P>(f: Forest<P>, op: Op<P>, p: P, t: Topic, cb: Callback)
    requires Inv(f) && Enabled(f, op) && p in f && InstalledOnce(f, p, t, cb) && !cb.User?
    ensures p in Apply(f, op) && InstalledOnce(Apply(f, op), p, t, cb)
  {
    assert op.p in f ==> NodeOk(f, op.p);
    hide Inv;
    match op
    case Sub(q, u, id) =>
      RootApart(f, q);
      SubscribeAt(f, q, u, User(id), p);
      SubscribeInstalls(f, q, u, User(id), p, t, cb);
      hide Subscribe, NodeOk;
    case StopPulse(q) =>
      StopKeepsRest(f, q);
      hide Stop, NodeOk;
    case Call(q, req, res, failure) =>
      CallSubscribeInstalls(f, q, TOPIC_CLOSED, ClosedNotice, p, t, cb);
      var f1 := CallSubscribe(f, q, TOPIC_CLOSED, ClosedNotice);
      CallSubscribeInstalls(f1, q, res, ReplyTo(res), p, t, cb);
      hide CallSubscribe, NodeOk;
    case _ =>
      hide NodeOk;
  }

  /**
   * Whatever the run, no frame runs one of `call`'s handlers of a running pulse twice: a reply is counted at
   * most once.
   */
  lemma {:induction false} RunInstallsOnce<P>(f: Forest<P>, ops: seq<Op<P>>, g: Forest<P>, p: P, t: Topic, cb: Callback)
    requires Inv(f) && Reaches(f, ops, g) && p in g && !cb.User?
    requires p in f ==> InstalledOnce(f, p, t, cb)
    ensures InstalledOnce(g, p, t, cb)
    decreases |ops|
  {
    if ops != [] {
      var op := ops[0];
      ApplyKeepsInv(f, op);
      if p in f {
        StepInstallsOnce(f, op, p, t, cb);
      } else if p in Apply(f, op) {
        OnlyNewAdds(f, op);
      }
      RunInstallsOnce(Apply(f, op), ops[1..], g, p, t, cb);
    }
  }

  lemma OnlyNewAdds<P>(f: Forest<P>, op: Op<P>)
    requires Inv(f) && Enabled(f, op)
    ensures Apply(f, op).Keys == if op.New? then f.Keys + {op.p} else f.Keys
  {
    assert op.p in f ==> NodeOk(f, op.p);
    match op
    case StopPulse(q) => StopKeepsRest(f, q);
    case Call(q, req, res, failure) =>
      CallSubscribeChanges(f, q, TOPIC_CLOSED, ClosedNotice);
      CallSubscribeChanges(CallSubscribe(f, q, TOPIC_CLOSED, ClosedNotice), q, res, ReplyTo(res));
      hide CallSubscribe, Inv;
    case _ =>
  }

  lemma HandlerRunsAtMostOnce<P>(f: Forest<P>, p: P, se: SessionKey, t: Topic, fr: Frame, cb: Callback)
    requires Inv(f) && p in f && f[p].parent != None && InstalledOnce(f, p, t, cb)
    ensures NodeOk(f, p) && Runs(PulsePosts(f, f[p].root, p, se, t, fr), cb) <= 1
  {
    PulseRuns(f, p, se, t, fr, cb);
    if se == NO_SESSION {
      HandlersAtBound(SubsOn(f[p].subs, t), cb, NO_SESSION);
    } else {
      HandlersBound(SubsOn(f[p].subs, t), cb, se);
    }
  }

  /** Installing a handler where the topic has no subscription, or leaving those there are. */
  lemma CallSubscribeReaches<P>(f: Forest<P>, p: P, t: Topic, cb: Callback)
    requires Inv(f) && p in f && f[p].parent != None
    ensures NodeOk(f, p)
    ensures Heard(CallSubscribe(f, p, t, cb)[p], t, cb, f[p].session)
         == if t in f[p].subs then Heard(f[p], t, cb, f[p].session) else 1
  {
    assert NodeOk(f, p);
    if t !in f[p].subs {
      SubscribeAt(f, p, t, cb, p);
      hide Subscribe;
      var n, s := CallSubscribe(f, p, t, cb)[p], Subscription(f[p].session, cb);
      assert [] + [s] == [s] && SubsOn(n.subs, t) == [s];
      OneHandler(s, cb, NO_SESSION);
      OneHandler(s, cb, f[p].session);
    }
  }

  lemma OneHandler(s: Subscription, cb: Callback, k: SessionKey)
    ensures HandlersAt([s], cb, k) == if s.cb == cb && s.session == k then 1 else 0
  {
    assert [s][..0] == [];
  }

  /** Subscribing to another topic changes nothing about this one. */
  lemma OtherTopicHeard<P>(f: Forest<P>, p: P, u: Topic, handler: Callback, t: Topic, cb: Callback, se: SessionKey)
    requires Inv(f) && p in f && t != u
    ensures NodeOk(f, p) && Heard(CallSubscribe(f, p, u, handler)[p], t, cb, se) == Heard(f[p], t, cb, se)
  {
    assert NodeOk(f, p);
    SubscribeAt(f, p, u, handler, p);
    hide Subscribe;
  }

  /** What `call` changes after installing the handlers is the ledger alone. */
  lemma CallPosts<P>(f: Forest<P>, p: P, req: Topic, res: Topic, failure: FailureCallback, se: SessionKey, t: Topic,
                     fr: Frame)
    requires Inv(f) && p in f
    ensures NodeOk(f, p)
    ensures var f1 := CallSubscribe(f, p, TOPIC_CLOSED, ClosedNotice);
            var f2 := CallSubscribe(f1, p, res, ReplyTo(res));
            var g := CallOp(f, p, req, res, failure);
      && Inv(f1) && Inv(f2) && f1.Keys == f2.Keys == g.Keys == f.Keys
      && f1[p] == f[p].(subs := f1[p].subs, kept := f1[p].kept, live := f1[p].live, missed := f1[p].missed,
                        interests := f1[p].interests)
      && f2[p] == f1[p].(subs := f2[p].subs, kept := f2[p].kept, live := f2[p].live, missed := f2[p].missed,
                         interests := f2[p].interests)
      && g[p].root == f[p].root
      && PulsePosts(g, f[p].root, p, se, t, fr) == PulsePosts(f2, f[p].root, p, se, t, fr)
  {
    CallSubscribeChanges(f, p, TOPIC_CLOSED, ClosedNotice);
    var f1 := CallSubscribe(f, p, TOPIC_CLOSED, ClosedNotice);
    CallSubscribeChanges(f1, p, res, ReplyTo(res));
    assert NodeOk(f, p);
    hide CallSubscribe, Inv, NodeOk, Posts;
  }

  /**
   * After `call`, whichever it is of a pulse's calls, a response published for the pulse's session is
   * credited to the ledger as often as a reply handler stands on its topic, bound to no session or to
   * this one: once if the call had to install it, and else by what stood there.
   */
  lemma ResponseReachesLedger<P>(f: Forest<P>, p: P, req: Topic, res: Topic, failure: FailureCallback, fr: Frame)
    requires Inv(f) && p in f && f[p].parent != None
    ensures NodeOk(f, p)
    ensures var g, cb := CallOp(f, p, req, res, failure), ReplyTo(res);
      && f[p].root in g
      && Runs(PulsePosts(g, f[p].root, p, f[p].session, res, fr), cb)
         == if res in f[p].subs then Heard(f[p], res, cb, f[p].session) else if res == TOPIC_CLOSED then 0 else 1
    ensures !f[p].stopped && f[p].missed == {} ==>
      Heard(f[p], res, ReplyTo(res), f[p].session) == Matching(SubsOn(f[p].subs, res), ReplyTo(res), f[p].session)
  {
    assert NodeOk(f, p);
    var k, cb := f[p].session, ReplyTo(res);
    CallPosts(f, p, req, res, failure, k, res, fr);
    var f1 := CallSubscribe(f, p, TOPIC_CLOSED, ClosedNotice);
    var f2 := CallSubscribe(f1, p, res, cb);
    PulseRuns(f2, p, k, res, fr, cb);
    CallSubscribeReaches(f1, p, res, cb);
    if res != TOPIC_CLOSED {
      OtherTopicHeard(f, p, TOPIC_CLOSED, ClosedNotice, res, cb, k);
      OtherTopicSubscribed(f, p, TOPIC_CLOSED, ClosedNotice, res);
    } else {
      if TOPIC_CLOSED !in f[p].subs {
        ClosedHasNoReply(f, p, cb);
      }
    }
    if !f[p].stopped && f[p].missed == {} {
      HeardIsMatching(f, p, res, cb, k);
    }
  }

  lemma OtherTopicSubscribed<P>(f: Forest<P>, p: P, u: Topic, handler: Callback, t: Topic)
    requires Inv(f) && p in f && t != u
    ensures NodeOk(f, p) && (t in CallSubscribe(f, p, u, handler)[p].subs <==> t in f[p].subs)
  {
    assert NodeOk(f, p);
  }

  /** The close handler that a call installs answers nothing. */
  lemma ClosedHasNoReply<P>(f: Forest<P>, p: P, cb: Callback)
    requires Inv(f) && p in f && f[p].parent != None && cb.ReplyTo? && TOPIC_CLOSED !in f[p].subs
    ensures NodeOk(f, p)
    ensures TOPIC_CLOSED in CallSubscribe(f, p, TOPIC_CLOSED, ClosedNotice)[p].subs
    ensures Heard(CallSubscribe(f, p, TOPIC_CLOSED, ClosedNotice)[p], TOPIC_CLOSED, cb, f[p].session) == 0
  {
    assert NodeOk(f, p);
    SubscribeAt(f, p, TOPIC_CLOSED, ClosedNotice, p);
    hide Subscribe;
    var s := Subscription(f[p].session, ClosedNotice);
    assert [] + [s] == [s];
    OneHandler(s, cb, NO_SESSION);
    OneHandler(s, cb, f[p].session);
  }

  lemma HeardAtOnly<P>(n: Node<P>, t: Topic, s: Subscription, cb: Callback, k: SessionKey)
    requires t in n.subs && n.subs[t] == [s]
    ensures HeardAt(n, t, cb, k) == if s.cb == cb && s.session == k && Key(k, t) in n.live then 1 else 0
  {
    OneHandler(s, cb, k);
  }

  /** Like CallSubscribeReaches, for one session. */
  lemma CallSubscribeReachesAt<P>(f: Forest<P>, p: P, t: Topic, cb: Callback)
    requires Inv(f) && p in f && f[p].parent != None
    ensures NodeOk(f, p)
    ensures HeardAt(CallSubscribe(f, p, t, cb)[p], t, cb, f[p].session)
         == if t in f[p].subs then HeardAt(f[p], t, cb, f[p].session) else 1
  {
    assert NodeOk(f, p);
    if t !in f[p].subs {
      SubscribeAt(f, p, t, cb, p);
      hide Subscribe;
      var s := Subscription(f[p].session, cb);
      assert [] + [s] == [s];
      HeardAtOnly(CallSubscribe(f, p, t, cb)[p], t, s, cb, f[p].session);
    }
  }

  /** A further handler adds nothing to what stands on a subscribed topic, nor to any other. */
  lemma CallSubscribeKeepsHeardAt<P>(f: Forest<P>, p: P, u: Topic, handler: Callback, t: Topic, cb: Callback,
                                     k: SessionKey)
    requires Inv(f) && p in f && (t != u || t in f[p].subs)
    ensures NodeOk(f, p)
    ensures HeardAt(CallSubscribe(f, p, u, handler)[p], t, cb, k) == HeardAt(f[p], t, cb, k)
  {
    assert NodeOk(f, p);
    if t != u {
      SubscribeAt(f, p, u, handler, p);
      hide Subscribe;
    }
  }

  /**
   * After `call`, whichever it is of a pulse's calls, how often a close of session `se` runs the close
   * handler with the very session the pulse is bound to, which alone fails the pending calls. A handler
   * for no session is handed none, so it fails them only while the pulse is bound to none.
   */
  lemma CloseReachesLedger<P>(f: Forest<P>, p: P, req: Topic, res: Topic, failure: FailureCallback, se: SessionKey,
                              fr: Frame)
    requires Inv(f) && p in f && f[p].parent != None
    ensures NodeOk(f, p)
    ensures var g, k := CallOp(f, p, req, res, failure), f[p].session;
      && f[p].root in g && p in g && g[p].session == k
      && RunsFor(PulsePosts(g, f[p].root, p, se, TOPIC_CLOSED, fr), ClosedNotice, k)
         == if k != NO_SESSION && k != se then 0
            else if TOPIC_CLOSED in f[p].subs then HeardAt(f[p], TOPIC_CLOSED, ClosedNotice, k) else 1
    ensures !f[p].stopped && f[p].missed == {} ==>
      HeardAt(f[p], TOPIC_CLOSED, ClosedNotice, f[p].session)
        == HandlersAt(SubsOn(f[p].subs, TOPIC_CLOSED), ClosedNotice, f[p].session)
  {
    assert NodeOk(f, p);
    var k := f[p].session;
    CallPosts(f, p, req, res, failure, se, TOPIC_CLOSED, fr);
    CallHeardAt(f, p, req, res, failure);
    var f2 := CallSubscribe(CallSubscribe(f, p, TOPIC_CLOSED, ClosedNotice), p, res, ReplyTo(res));
    PulseRunsFor(f2, p, se, TOPIC_CLOSED, fr, ClosedNotice, k);
    if !f[p].stopped && f[p].missed == {} {
      NotLiveNoHandlers(f[p], k, TOPIC_CLOSED, ClosedNotice);
    }
    hide CallSubscribe, Inv, NodeOk, PulsePosts, RunsFor;
  }

  /** The close handlers for the pulse's own session, after a call. */
  lemma CallHeardAt<P>(f: Forest<P>, p: P, req: Topic, res: Topic, failure: FailureCallback)
    requires Inv(f) && p in f && f[p].parent != None
    ensures NodeOk(f, p)
    ensures var f2 := CallSubscribe(CallSubscribe(f, p, TOPIC_CLOSED, ClosedNotice), p, res, ReplyTo(res));
            var g := CallOp(f, p, req, res, failure);
      && p in f2 && p in g
      && HeardAt(g[p], TOPIC_CLOSED, ClosedNotice, f[p].session)
         == HeardAt(f2[p], TOPIC_CLOSED, ClosedNotice, f[p].session)
      && HeardAt(g[p], TOPIC_CLOSED, ClosedNotice, f[p].session)
         == if TOPIC_CLOSED in f[p].subs then HeardAt(f[p], TOPIC_CLOSED, ClosedNotice, f[p].session) else 1
  {
    CallSubscribeChanges(f, p, TOPIC_CLOSED, ClosedNotice);
    CallSubscribeReachesAt(f, p, TOPIC_CLOSED, ClosedNotice);
    var f1 := CallSubscribe(f, p, TOPIC_CLOSED, ClosedNotice);
    ClosedIsSubscribed(f, p);
    CallSubscribeChanges(f1, p, res, ReplyTo(res));
    CallSubscribeKeepsHeardAt(f1, p, res, ReplyTo(res), TOPIC_CLOSED, ClosedNotice, f[p].session);
    hide CallSubscribe, Inv, NodeOk, HandlersAt;
  }

  lemma ClosedIsSubscribed<P>(f: Forest<P>, p: P)
    requires Inv(f) && p in f
    ensures NodeOk(f, p) && TOPIC_CLOSED in CallSubscribe(f, p, TOPIC_CLOSED, ClosedNotice)[p].subs
  {
    assert NodeOk(f, p);
    RootApart(f, p);
    SubscribeAt(f, p, TOPIC_CLOSED, ClosedNotice, p);
    hide Subscribe, Inv, NodeOk;
  }

  /** Any call leaves what is heard on a topic subscribed already: calling again installs and drops nothing. */
  lemma CallKeepsHeard<P>(f: Forest<P>, p: P, req: Topic, res: Topic, failure: FailureCallback, t: Topic, cb: Callback,
                          se: SessionKey)
    requires Inv(f) && p in f && t in f[p].subs
    ensures NodeOk(f, p)
    ensures var g := CallOp(f, p, req, res, failure);
      p in g && t in g[p].subs && Heard(g[p], t, cb, se) == Heard(f[p], t, cb, se)
  {
    CallSubscribeKeepsHeard(f, p, TOPIC_CLOSED, ClosedNotice, t, cb, se);
    var f1 := CallSubscribe(f, p, TOPIC_CLOSED, ClosedNotice);
    CallSubscribeKeepsHeard(f1, p, res, ReplyTo(res), t, cb, se);
    hide CallSubscribe, Inv, NodeOk;
  }

  lemma CallSubscribeKeepsHeard<P>(f: Forest<P>, p: P, u: Topic, handler: Callback, t: Topic, cb: Callback,
                                   se: SessionKey)
    requires Inv(f) && p in f && t in f[p].subs
    ensures NodeOk(f, p)
    ensures var g := CallSubscribe(f, p, u, handler);
      Inv(g) && p in g && t in g[p].subs && Heard(g[p], t, cb, se) == Heard(f[p], t, cb, se)
  {
    SubscribeKeepsInv(f, p, u, handler);
    if t != u {
      OtherTopicHeard(f, p, u, handler, t, cb, se);
      OtherTopicSubscribed(f, p, u, handler, t);
    }
    hide Inv, Heard, Subscribe;
  }

  /**
   * A pulse that had subscribed neither topic calls, takes another session, and calls again. No close of any
   * session, the old one and the new one included, then fails a pending call: the old one's close runs the
   * handler, which returns as the pulse is bound to another. A response of the new session is credited only
   * if the first call was made for no session.
   */
  lemma SessionChangeStrandsCalls<P>(f: Forest<P>, p: P, req: Topic, res: Topic, failure: FailureCallback,
                                     se: SessionKey, fr: Frame)
    requires Inv(f) && p in f && f[p].parent != None && res != TOPIC_CLOSED && res !in f[p].subs
    requires TOPIC_CLOSED !in f[p].subs
    requires se != f[p].session
    ensures NodeOk(f, p) && p in CallOp(f, p, req, res, failure)
    ensures var f1 := CallOp(f, p, req, res, failure);
            var f2 := f1[p := f1[p].(session := se)];
      && f2[p].root in f2
      && var g := CallOp(f2, p, req, res, failure);
         && f[p].root in g
         && Runs(PulsePosts(g, f[p].root, p, se, res, fr), ReplyTo(res))
            == (if f[p].session == NO_SESSION then 1 else 0)
         && (forall closing :: RunsFor(PulsePosts(g, f[p].root, p, closing, TOPIC_CLOSED, fr), ClosedNotice, se) == 0)
         && Runs(PulsePosts(g, f[p].root, p, f[p].session, TOPIC_CLOSED, fr), ClosedNotice) == 1
  {
    assert NodeOk(f, p);
    CallKeepsInv(f, p, req, res, failure);
    CallInstalls(f, p, req, res, failure);
    var f1 := CallOp(f, p, req, res, failure);
    assert NodeOk(f1, p);
    var f2 := f1[p := f1[p].(session := se)];
    OtherFieldsKeepInv(f1, p, f2[p]);
    CallKeepsInv(f2, p, req, res, failure);
    var g := CallOp(f2, p, req, res, failure);
    var s := Subscription(f[p].session, ClosedNotice);
    hide CallOp, Inv, NodeOk, PulsePosts, Runs, RunsFor, Heard, HeardAt;
    ResponseReachesLedger(f2, p, req, res, failure, fr);
    OnlyHeard(f2[p], res, Subscription(f[p].session, ReplyTo(res)), se);
    HeardAtOnly(f2[p], TOPIC_CLOSED, s, ClosedNotice, se);
    forall closing ensures RunsFor(PulsePosts(g, f[p].root, p, closing, TOPIC_CLOSED, fr), ClosedNotice, se) == 0 {
      CloseReachesLedger(f2, p, req, res, failure, closing, fr);
    }
    CallKeepsHeard(f2, p, req, res, failure, TOPIC_CLOSED, ClosedNotice, f[p].session);
    CallKeepsPlace(f2, p, req, res, failure);
    PulseRuns(g, p, f[p].session, TOPIC_CLOSED, fr, ClosedNotice);
    OnlyHeard(f2[p], TOPIC_CLOSED, s, f[p].session);
  }

  lemma CallKeepsPlace<P>(f: Forest<P>, p: P, req: Topic, res: Topic, failure: FailureCallback)
    requires Inv(f) && p in f
    ensures NodeOk(f, p)
    ensures var g := CallOp(f, p, req, res, failure);
      p in g && g[p].parent == f[p].parent && g[p].root == f[p].root && g[p].session == f[p].session
  {
    CallSubscribeChanges(f, p, TOPIC_CLOSED, ClosedNotice);
    CallSubscribeChanges(CallSubscribe(f, p, TOPIC_CLOSED, ClosedNotice), p, res, ReplyTo(res));
    hide CallSubscribe, Inv, NodeOk;
  }

  /** A topic whose only subscription the root knows of is heard for no session, or for its own. */
  lemma OnlyHeard<P>(n: Node<P>, t: Topic, s: Subscription, se: SessionKey)
    requires t in n.subs && n.subs[t] == [s] && Key(s.session, t) in n.live
    ensures Heard(n, t, s.cb, se) == if s.session == NO_SESSION || s.session == se then 1 else 0
  {
    OneHandler(s, s.cb, NO_SESSION);
    OneHandler(s, s.cb, se);
  }

  lemma CallInstalls<P>(f: Forest<P>, p: P, req: Topic, res: Topic, failure: FailureCallback)
    requires Inv(f) && p in f && f[p].parent != None && res != TOPIC_CLOSED && res !in f[p].subs
    requires TOPIC_CLOSED !in f[p].subs
    ensures NodeOk(f, p)
    ensures var g := CallOp(f, p, req, res, failure);
      && p in g && g[p].parent == f[p].parent && g[p].root == f[p].root
      && res in g[p].subs && g[p].subs[res] == [Subscription(f[p].session, ReplyTo(res))]
      && TOPIC_CLOSED in g[p].subs && g[p].subs[TOPIC_CLOSED] == [Subscription(f[p].session, ClosedNotice)]
      && Key(f[p].session, res) in g[p].live && Key(f[p].session, TOPIC_CLOSED) in g[p].live
  {
    assert NodeOk(f, p);
    SubscribeAt(f, p, TOPIC_CLOSED, ClosedNotice, p);
    var f1 := CallSubscribe(f, p, TOPIC_CLOSED, ClosedNotice);
    SubscribeKeepsInv(f, p, TOPIC_CLOSED, ClosedNotice);
    assert NodeOk(f1, p);
    SubscribeAt(f1, p, res, ReplyTo(res), p);
    hide Subscribe, Inv;
    assert [] + [Subscription(f[p].session, ReplyTo(res))] == [Subscription(f[p].session, ReplyTo(res))];
    assert [] + [Subscription(f[p].session, ClosedNotice)] == [Subscription(f[p].session, ClosedNotice)];
  }
}
