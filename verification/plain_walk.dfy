/** Dispatch against a walk that looks at nothing but subscriptions and whether a pulse was stopped. */
module PlainWalk {
  import opened CallLedger
  import opened Options
  import opened PulseForest
  import opened Broadcast
  import opened Lifecycle

  predicate Addressed<P(==)>(f: Forest<P>, r: P, p: P, s: Subscription, se: SessionKey)
    requires p in f
  {
    (s.session == NO_SESSION || s.session == se) && (p == r || !f[p].stopped)
  }

  function PlainPosts<P(==)>(f: Forest<P>, r: P, p: P, subs: seq<Subscription>, se: SessionKey, fr: Frame): seq<Task<P>>
    requires p in f
  {
    if subs == [] then [] else
    var last := subs[|subs| - 1];
    PlainPosts(f, r, p, subs[..|subs| - 1], se, fr)
      + if Addressed(f, r, p, last, se) then
          [Deliver(p, f[p].strand, last.cb, if p == r then se else last.session, fr)]
        else []
  }

  function Walk<P(==)>(f: Forest<P>, r: P, order: seq<P>, se: SessionKey, t: Topic, fr: Frame): seq<Task<P>>
    requires forall p | p in order :: p in f
  {
    if order == [] then [] else
    var last := order[|order| - 1];
    Walk(f, r, order[..|order| - 1], se, t, fr) + PlainPosts(f, r, last, SubsOn(f[last].subs, t), se, fr)
  }

  /** The root knows nothing of the pulse if it was stopped, and else everything it subscribed. */
  ghost predicate Tidy<P>(n: Node<P>) {
    if n.stopped then n.live == {} else n.missed == {}
  }

  lemma TidyHears<P>(f: Forest<P>, r: P, p: P, s: Subscription, se: SessionKey, t: Topic)
    requires p in f && KeysOk(f[p]) && s in SubsOn(f[p].subs, t) && (p != r ==> Tidy(f[p]) && f[p].root == r)
    ensures Hears(f, r, p, s, se, t) <==> Addressed(f, r, p, s, se)
  {
    var i :| 0 <= i < |SubsOn(f[p].subs, t)| && SubsOn(f[p].subs, t)[i] == s;
    assert HasKey(f[p].subs, Key(s.session, t));
  }

  lemma {:induction false} TidyPosts<P>(f: Forest<P>, r: P, p: P, subs: seq<Subscription>, se: SessionKey, t: Topic,
                                        fr: Frame)
    requires p in f && KeysOk(f[p]) && (forall s | s in subs :: s in SubsOn(f[p].subs, t))
    requires (p != r ==> Tidy(f[p]) && f[p].root == r)
    ensures NaivePosts(f, r, p, subs, se, t, fr) == PlainPosts(f, r, p, subs, se, fr)
  {
    if subs != [] {
      TidyPosts(f, r, p, subs[..|subs| - 1], se, t, fr);
      TidyHears(f, r, p, subs[|subs| - 1], se, t);
    }
  }

  lemma {:induction false} TidyWalk<P>(f: Forest<P>, r: P, order: seq<P>, se: SessionKey, t: Topic, fr: Frame)
    requires Inv(f) && (forall p | p in order :: p in f && f[p].root == r && (p != r ==> Tidy(f[p])))
    ensures NaiveWalk(f, r, order, se, t, fr) == Walk(f, r, order, se, t, fr)
  {
    if order != [] {
      var p := order[|order| - 1];
      TidyWalk(f, r, order[..|order| - 1], se, t, fr);
      assert NodeOk(f, p);
      TidyPosts(f, r, p, SubsOn(f[p].subs, t), se, t, fr);
    }
  }

  ghost predicate TidyTree<P>(f: Forest<P>, r: P) {
    forall p | p in f && f[p].root == r && p != r :: Tidy(f[p])
  }

  /**
   * In a tidy tree the indexed dispatch posts, as often, what a walk over the subscriptions of the root
   * and of all descendants that were not stopped posts for those whose session is none or the frame's.
   */
  lemma DispatchIsWalk<P>(f: Forest<P>, r: P, se: SessionKey, t: Topic, fr: Frame,
                          g0: seq<P>, g1: seq<P>, posts: seq<Task<P>>, order: seq<P>)
    requires Inv(f) && r in f && f[r].parent == None && TidyTree(f, r)
    requires (forall c | c in g0 :: c in f) && (forall c | c in g1 :: c in f) && forall c | c in order :: c in f
    requires Dispatched(f, r, se, t, fr, g0, g1, posts)
    requires Lists(order, TreeOf(f, r))
    ensures multiset(posts) == multiset(Walk(f, r, order, se, t, fr))
  {
    ListsInit(order, TreeOf(f, r));
    TidyWalk(f, r, order, se, t, fr);
    hide *;
    DispatchIsNaiveWalk(f, r, se, t, fr, g0, g1, posts, order);
  }

  // ---- tidiness is needed -----------------------------------------------------------------------

  lemma {:induction false} NaiveNotLonger<P>(f: Forest<P>, r: P, p: P, subs: seq<Subscription>, i: nat, se: SessionKey,
                                             t: Topic, fr: Frame)
    requires p in f && p != r && f[p].root == r && !f[p].stopped && i <= |subs|
    ensures var naive, plain := |NaivePosts(f, r, p, subs, se, t, fr)|, |PlainPosts(f, r, p, subs, se, fr)|;
      && naive <= plain
      && (i < |subs| && Addressed(f, r, p, subs[i], se) && !Hears(f, r, p, subs[i], se, t) ==> naive < plain)
  {
    if subs != [] {
      NaiveNotLonger(f, r, p, subs[..|subs| - 1], if i < |subs| then i else 0, se, t, fr);
    }
  }

  /** A stopped pulse gets nothing from the walk. */
  lemma {:induction false} StoppedGetsNothing<P>(f: Forest<P>, r: P, p: P, subs: seq<Subscription>, se: SessionKey,
                                                 fr: Frame)
    requires p in f && p != r && f[p].stopped
    ensures PlainPosts(f, r, p, subs, se, fr) == []
  {
    if subs != [] {
      StoppedGetsNothing(f, r, p, subs[..|subs| - 1], se, fr);
    }
  }

  ghost predicate SharesAgree<P>(f: Forest<P>, p: P, se: SessionKey, t: Topic, fr: Frame)
    requires p in f && f[p].root in f
  {
    multiset(PulsePosts(f, f[p].root, p, se, t, fr))
      == multiset(PlainPosts(f, f[p].root, p, SubsOn(f[p].subs, t), se, fr))
  }

  /** A pulse's share of every dispatch is its share of the walk exactly when the pulse is tidy. */
  lemma SharesAgreeIff<P>(f: Forest<P>, p: P)
    requires Inv(f) && p in f && f[p].parent != None
    ensures NodeOk(f, p)
    ensures (forall se, t, fr :: SharesAgree(f, p, se, t, fr)) <==> Tidy(f[p])
  {
    assert NodeOk(f, p);
    if Tidy(f[p]) {
      forall se, t, fr ensures SharesAgree(f, p, se, t, fr) {
        TidyShares(f, p, se, t, fr);
      }
    } else if f[p].stopped {
      SilentIffNothingLive(f, p);
      var se, t, fr :| PulsePosts(f, f[p].root, p, se, t, fr) != [];
      StoppedGetsNothing(f, f[p].root, p, SubsOn(f[p].subs, t), se, fr);
      assert !SharesAgree(f, p, se, t, fr);
    } else {
      var k :| k in f[p].missed;
      MissedShare(f, p, k);
    }
  }

  lemma TidyShares<P>(f: Forest<P>, p: P, se: SessionKey, t: Topic, fr: Frame)
    requires p in f && f[p].root in f && f[p].root != p && KeysOk(f[p]) && Tidy(f[p])
    ensures SharesAgree(f, p, se, t, fr)
  {
    PulsePostsAreNaive(f, f[p].root, p, se, t, fr);
    TidyPosts(f, f[p].root, p, SubsOn(f[p].subs, t), se, t, fr);
  }

  lemma MissedShare<P>(f: Forest<P>, p: P, k: Key)
    requires p in f && f[p].root in f && f[p].root != p && KeysOk(f[p]) && !f[p].stopped && k in f[p].missed
    ensures !SharesAgree(f, p, k.session, k.topic, 0)
  {
    var subs := SubsOn(f[p].subs, k.topic);
    assert HasKey(f[p].subs, k);
    var i :| 0 <= i < |subs| && subs[i].session == k.session;
    PulsePostsAreNaive(f, f[p].root, p, k.session, k.topic, 0);
    NaiveNotLonger(f, f[p].root, p, subs, i, k.session, k.topic, 0);
    var naive := NaivePosts(f, f[p].root, p, subs, k.session, k.topic, 0);
    var plain := PlainPosts(f, f[p].root, p, subs, k.session, 0);
    assert |multiset(naive)| == |naive| && |multiset(plain)| == |plain|;
  }

  // ---- runs that stay tidy ----------------------------------------------------------------------

  /**
   * Stops of roots, of pulses stopped before, or of childless direct children of a root; no subscription
   * of a stopped pulse below a root; and only pulses that have subscribed nothing, nor anything below
   * them, are attached.
   */
  ghost predicate Orderly<P>(f: Forest<P>, op: Op<P>) {
    match op
    case StopPulse(p) => p in f && (f[p].parent == None || f[p].stopped || StopWithdraws(f, p))
    case Sub(p, _, _) => p in f && (f[p].parent == None || !f[p].stopped)
    case Call(p, _, _, _) => p in f && (f[p].parent == None || !f[p].stopped)
    case Attach(c, _) => forall q | q in f && f[q].root == c :: f[q].subs == map[]
    case _ => true
  }

  ghost predicate AllTidy<P>(f: Forest<P>) {
    forall p | p in f && f[p].parent != None :: Tidy(f[p])
  }

  ghost predicate OrderlyRun<P>(f: Forest<P>, ops: seq<Op<P>>, g: Forest<P>)
    decreases |ops|
  {
    if ops == [] then g == f else
    Inv(f) && Enabled(f, ops[0]) && Orderly(f, ops[0]) && OrderlyRun(Apply(f, ops[0]), ops[1..], g)
  }

  lemma SubscribeKeepsTidy<P>(f: Forest<P>, p: P, t: Topic, cb: Callback)
    requires Inv(f) && AllTidy(f) && p in f && (f[p].parent == None || !f[p].stopped)
    ensures NodeOk(f, p)
    ensures AllTidy(Subscribe(f, p, t, cb)) && AllTidy(CallSubscribe(f, p, t, cb))
  {
    assert NodeOk(f, p);
    var g := Subscribe(f, p, t, cb);
    forall q | q in g && g[q].parent != None ensures Tidy(g[q]) {
      SubscribeAt(f, p, t, cb, q);
      hide Subscribe;
    }
  }

  lemma AttachKeepsTidy<P>(f: Forest<P>, c: P, p: P)
    requires Inv(f) && AllTidy(f) && CanAttach(f, c, p) && forall q | q in f && f[q].root == c :: f[q].subs == map[]
    ensures AllTidy(AsChild(f, c, p))
  {
    var g := AsChild(f, c, p);
    forall q | q in g && g[q].parent != None ensures Tidy(g[q]) {
      assert NodeOk(f, q);
      assert g[q] == Attached(f, c, p, q);
      if f[q].root == c {
        assert forall k :: !HasKey(f[q].subs, k);
      } else {
        assert q != c by { assert NodeOk(f, c); }
      }
    }
  }

  lemma StopKeepsTidy<P>(f: Forest<P>, c: P)
    requires Inv(f) && AllTidy(f) && c in f && (f[c].parent == None || f[c].stopped || StopWithdraws(f, c))
    ensures NodeOk(f, c) && AllTidy(Stop(f, c))
  {
    assert NodeOk(f, c);
    ParentOf(f, c);
    var g := Stop(f, c);
    forall q | q in g && g[q].parent != None ensures Tidy(g[q]) {
      StopAt(f, c, q);
      hide Stop;
    }
  }

  lemma CallKeepsTidy<P>(f: Forest<P>, p: P, req: Topic, res: Topic, failure: FailureCallback)
    requires Inv(f) && AllTidy(f) && p in f && (f[p].parent == None || !f[p].stopped)
    ensures NodeOk(f, p) && AllTidy(CallOp(f, p, req, res, failure))
  {
    SubscribeKeepsTidy(f, p, TOPIC_CLOSED, ClosedNotice);
    CallSubscribeChanges(f, p, TOPIC_CLOSED, ClosedNotice);
    var f1 := CallSubscribe(f, p, TOPIC_CLOSED, ClosedNotice);
    assert NodeOk(f1, p);
    SubscribeKeepsTidy(f1, p, res, ReplyTo(res));
    hide CallSubscribe, Inv, NodeOk;
  }

  lemma OrderlyKeepsTidy<P>(f: Forest<P>, op: Op<P>)
    requires Inv(f) && AllTidy(f) && Enabled(f, op) && Orderly(f, op)
    ensures AllTidy(Apply(f, op))
  {
    match op
    case Attach(c, p) => AttachKeepsTidy(f, c, p);
    case Sub(p, t, id) => SubscribeKeepsTidy(f, p, t, User(id));
    case Call(p, req, res, failure) => CallKeepsTidy(f, p, req, res, failure);
    case StopPulse(p) => StopKeepsTidy(f, p);
    case _ =>
  }

  lemma {:induction false} OrderlyRunIsTidy<P>(f: Forest<P>, ops: seq<Op<P>>, g: Forest<P>)
    requires Inv(f) && AllTidy(f) && OrderlyRun(f, ops, g)
    ensures Inv(g) && AllTidy(g)
    decreases |ops|
  {
    if ops != [] {
      ApplyKeepsInv(f, ops[0]);
      OrderlyKeepsTidy(f, ops[0]);
      OrderlyRunIsTidy(Apply(f, ops[0]), ops[1..], g);
    }
  }

  /** After any orderly run from an empty process, every publish at every root posts exactly what the walk does. */
  lemma OrderlyRunDispatchIsWalk<P>(ops: seq<Op<P>>, f: Forest<P>, r: P, se: SessionKey, t: Topic, fr: Frame,
                                    g0: seq<P>, g1: seq<P>, posts: seq<Task<P>>, order: seq<P>)
    requires OrderlyRun(map[], ops, f) && r in f && f[r].parent == None
    requires (forall c | c in g0 :: c in f) && (forall c | c in g1 :: c in f) && forall c | c in order :: c in f
    requires Dispatched(f, r, se, t, fr, g0, g1, posts)
    requires Lists(order, TreeOf(f, r))
    ensures multiset(posts) == multiset(Walk(f, r, order, se, t, fr))
  {
    EmptyKeepsInv<P>();
    OrderlyRunIsTidy(map[], ops, f);
    forall p | p in f && f[p].root == r && p != r ensures Tidy(f[p]) {
      assert NodeOk(f, p);
    }
    hide Inv, Dispatched, Lists, OrderlyRun;
    DispatchIsWalk(f, r, se, t, fr, g0, g1, posts, order);
  }
}
